/** url.PathEscape and url.PathUnescape (section 2.1 of RFC 3986), and which texts
    can occur inside an escaped value. */
module PercentEncoding {
  import opened Prelude

  /** The bytes url.PathEscape leaves alone. */
  predicate Unescaped(c: char) {
    'A' <= c <= 'Z' || 'a' <= c <= 'z' || '0' <= c <= '9' || c in "-_.~$&+:=@"
  }

  predicate Octets(s: string) {
    forall c :: c in s ==> c as int < 256
  }

  function HexDigit(n: nat): char
    requires n < 16
  {
    "0123456789ABCDEF"[n]
  }

  function HexValue(c: char): Option<nat> {
    if '0' <= c <= '9' then Some(c as int - '0' as int)
    else if 'a' <= c <= 'f' then Some(c as int - 'a' as int + 10)
    else if 'A' <= c <= 'F' then Some(c as int - 'A' as int + 10)
    else None
  }

  function EscapeChar(c: char): string {
    if Unescaped(c) then [c] else ['%', HexDigit(c as int / 16 % 16), HexDigit(c as int % 16)]
  }

  /** url.PathEscape. */
  function PathEscape(s: string): string {
    if s == "" then "" else EscapeChar(s[0]) + PathEscape(s[1..])
  }

  /** url.PathUnescape: a '%' needs two hexadecimal digits; '+' is itself. */
  function PathUnescape(s: string): Option<string> {
    if s == "" then Some("")
    else if s[0] != '%' then PushFront(s[0], PathUnescape(s[1..]))
    else if |s| < 3 || HexValue(s[1]).None? || HexValue(s[2]).None? then None
    else PushFront((HexValue(s[1]).value * 16 + HexValue(s[2]).value) as char, PathUnescape(s[3..]))
  }

  function PushFront(c: char, r: Option<string>): Option<string> {
    if r.Some? then Some([c] + r.value) else None
  }

  /** The characters of a path segment (section 3.3 of RFC 3986): unreserved, sub-delims, ':' and '@'. */
  predicate IsPchar(c: char) {
    || 'A' <= c <= 'Z' || 'a' <= c <= 'z' || '0' <= c <= '9' || c in "-._~"
    || c in "!$&'()*+,;=" || c in ":@"
  }

  /** url.PathEscape leaves a byte alone exactly when a path segment may hold it, but
      for seven sub-delims, which it escapes all the same. */
  lemma EscapesExactly(c: char)
    requires c as int < 256
    ensures PathEscape([c]) == [c] <==> IsPchar(c) && c !in "!'()*,;"
  {
    assert PathEscape([c]) == EscapeChar(c) + PathEscape([]);
    assert EscapeChar(c) + [] == EscapeChar(c);
  }

  lemma HexInverse(n: nat)
    requires n < 16
    ensures HexValue(HexDigit(n)) == Some(n) && UpperHex(HexDigit(n)) && Unescaped(HexDigit(n))
  {
  }

  lemma {:induction false} UnescapeEscape(s: string)
    requires Octets(s)
    ensures PathUnescape(PathEscape(s)) == Some(s)
    decreases |s|
  {
    if s != "" {
      var c, rest := s[0], PathEscape(s[1..]);
      assert c in s && c as int < 256;
      assert forall d :: d in s[1..] ==> d in s;
      UnescapeEscape(s[1..]);
      UnescapeChar(c, rest);
      assert [c] + s[1..] == s;
    }
  }

  lemma UnescapeChar(c: char, rest: string)
    requires c as int < 256
    ensures PathUnescape(EscapeChar(c) + rest) == PushFront(c, PathUnescape(rest))
  {
    if Unescaped(c) {
      assert ([c] + rest)[1..] == rest;
    } else {
      EscapeOfChar(c);
      DecodeEscape(EscapeChar(c)[1], EscapeChar(c)[2], c, rest);
      assert EscapeChar(c) == ['%', EscapeChar(c)[1], EscapeChar(c)[2]];
    }
  }

  lemma DecodeEscape(h: char, l: char, c: char, rest: string)
    requires HexValue(h).Some? && HexValue(l).Some? && c as int == HexValue(h).value * 16 + HexValue(l).value
    ensures PathUnescape(['%', h, l] + rest) == PushFront(c, PathUnescape(rest))
  {
    assert (['%', h, l] + rest)[3..] == rest;
  }

  lemma Nibbles(h: nat, l: nat)
    requires h < 16 && l < 16
    ensures (h * 16 + l) / 16 % 16 == h && (h * 16 + l) % 16 == l && h * 16 + l < 256
  {
  }

  lemma ByteNibbles(n: nat)
    requires n < 256
    ensures n / 16 % 16 * 16 + n % 16 == n
  {
  }

  /** The escape of a byte: itself, or '%' and its two digits. */
  lemma EscapeOfChar(c: char)
    requires c as int < 256
    ensures Unescaped(c) ==> EscapeChar(c) == [c] && c != '%'
    ensures !Unescaped(c) ==>
              var e := EscapeChar(c);
              && |e| == 3 && e[0] == '%' && UpperHex(e[1]) && UpperHex(e[2])
              && HexValue(e[1]).value * 16 + HexValue(e[2]).value == c as int
  {
    HexInverse(c as int / 16 % 16);
    HexInverse(c as int % 16);
    ByteNibbles(c as int);
  }

  predicate UpperHex(c: char) {
    '0' <= c <= '9' || 'A' <= c <= 'F'
  }

  /** The bytes an escaped value can hold. */
  predicate Plain(c: char) {
    Unescaped(c) || c == '%'
  }

  lemma {:induction false} EscapedPlain(s: string)
    ensures forall c :: c in PathEscape(s) ==> Plain(c)
    ensures s != "" <==> PathEscape(s) != ""
    decreases |s|
  {
    if s != "" {
      EscapedPlain(s[1..]);
      HexInverse(s[0] as int / 16 % 16);
      HexInverse(s[0] as int % 16);
      assert forall c :: c in EscapeChar(s[0]) ==> Plain(c);
    }
  }

  lemma UnescapeNonEmpty(s: string)
    requires s != "" && PathUnescape(s).Some?
    ensures PathUnescape(s).value != ""
  {
  }

  /** What follows an escaped value decodes on its own. */
  lemma {:induction false} UnescapeConcat(v: string, tail: string)
    requires Octets(v)
    ensures PathUnescape(PathEscape(v) + tail) == Prefixed(v, PathUnescape(tail))
    decreases |v|
  {
    if v == "" {
      assert PathEscape(v) + tail == tail;
      assert PathUnescape(tail).Some? ==> v + PathUnescape(tail).value == PathUnescape(tail).value;
    } else {
      var rest := PathEscape(v[1..]) + tail;
      assert v[0] in v && forall c :: c in v[1..] ==> c in v;
      calc {
        PathUnescape(PathEscape(v) + tail);
        { assert PathEscape(v) + tail == EscapeChar(v[0]) + rest; }
        PathUnescape(EscapeChar(v[0]) + rest);
        { UnescapeChar(v[0], rest); }
        PushFront(v[0], PathUnescape(rest));
        { UnescapeConcat(v[1..], tail); }
        PushFront(v[0], Prefixed(v[1..], PathUnescape(tail)));
        { PrefixedMore(v, PathUnescape(tail)); }
        Prefixed(v, PathUnescape(tail));
      }
    }
  }

  function Prefixed(v: string, r: Option<string>): Option<string> {
    if r.Some? then Some(v + r.value) else None
  }

  lemma PrefixedMore(v: string, r: Option<string>)
    requires v != ""
    ensures PushFront(v[0], Prefixed(v[1..], r)) == Prefixed(v, r)
  {
    if r.Some? {
      assert [v[0]] + (v[1..] + r.value) == v + r.value;
    }
  }

  // ---- Texts inside escaped values ----

  /** '%', `h`, `l` is the escape of a byte that needs one. */
  predicate IsEscape(h: char, l: char) {
    UpperHex(h) && UpperHex(l) && !Unescaped((HexValue(h).value * 16 + HexValue(l).value) as char)
  }

  /** '%' and `h` begin some such escape. */
  predicate OpensEscape(h: char) {
    exists n :: 0 <= n < 16 && IsEscape(h, HexDigit(n))
  }

  /** The byte at `i` can occur in an escaped value, as far as the text tells. */
  predicate EscapableAt(s: string, i: nat)
    requires i < |s|
  {
    && Plain(s[i])
    && (s[i] == '%' ==>
          if i + 2 < |s| then IsEscape(s[i + 1], s[i + 2])
          else i + 1 < |s| ==> OpensEscape(s[i + 1]))
  }

  /** The text can occur inside an escaped value; an escape may be cut off at its end. */
  predicate Escapable(s: string) {
    forall i :: 0 <= i < |s| ==> EscapableAt(s, i)
  }

  lemma HexLetters(c: char)
    requires UpperHex(c)
    ensures HexValue(c).Some? && HexValue(c).value < 16 && HexDigit(HexValue(c).value) == c && Unescaped(c)
  {
  }

  predicate WholeEscapeAt(s: string, i: nat)
    requires i < |s|
  {
    Plain(s[i]) && (s[i] == '%' ==> i + 2 < |s| && IsEscape(s[i + 1], s[i + 2]))
  }

  lemma {:induction false} EscapedWhole(v: string)
    requires Octets(v)
    ensures forall i :: 0 <= i < |PathEscape(v)| ==> WholeEscapeAt(PathEscape(v), i)
    decreases |v|
  {
    if v != "" {
      var e, first, rest := PathEscape(v), EscapeChar(v[0]), PathEscape(v[1..]);
      assert v[0] in v && forall c :: c in v[1..] ==> c in v;
      EscapedWhole(v[1..]);
      EscapeOfChar(v[0]);
      forall i | 0 <= i < |e| ensures WholeEscapeAt(e, i) {
        if i < |first| {
          assert e[i] == first[i];
          if |first| == 3 {
            HexLetters(first[1]);
            HexLetters(first[2]);
          }
        } else {
          assert WholeEscapeAt(rest, i - |first|);
        }
      }
    }
  }

  /** Every piece of the text is escapable. */
  ghost predicate InPieces(e: string) {
    forall from, to :: 0 <= from <= to <= |e| ==> Escapable(e[from..to])
  }

  lemma PiecesEscapable(v: string)
    requires Octets(v)
    ensures InPieces(PathEscape(v))
  {
    EscapedWhole(v);
    var e := PathEscape(v);
    forall from, to | 0 <= from <= to <= |e| ensures Escapable(e[from..to]) {
      PieceEscapable(e, from, to);
    }
  }

  lemma PieceEscapable(e: string, from: nat, to: nat)
    requires from <= to <= |e| && forall i :: 0 <= i < |e| ==> WholeEscapeAt(e, i)
    ensures Escapable(e[from..to])
  {
    var s := e[from..to];
    forall i | 0 <= i < |s| ensures EscapableAt(s, i) {
      assert WholeEscapeAt(e, from + i) && s[i] == e[from + i];
      if s[i] == '%' && i + 1 < |s| {
        HexLetters(e[from + i + 2]);
      }
    }
  }

  /** And every escapable text begins some longer escaped value. */
  lemma {:induction false} EscapableExtends(s: string) returns (v: string)
    requires Escapable(s)
    ensures Octets(v) && Begins(s, PathEscape(v))
    decreases |s|
  {
    if s == "" {
      v := "x";
    } else if s[0] != '%' {
      EscapableTail(s, 1);
      var tail := EscapableExtends(s[1..]);
      v := ExtendPlain(s, tail);
    } else if |s| < 3 {
      v := CutEscape(s);
    } else {
      EscapableTail(s, 3);
      var tail := EscapableExtends(s[3..]);
      v := ExtendEscape(s, tail);
    }
  }

  predicate Begins(s: string, e: string) {
    s <= e && |s| < |e|
  }

  lemma ExtendPlain(s: string, tail: string) returns (v: string)
    requires Escapable(s) && s != "" && s[0] != '%' && Octets(tail) && Begins(s[1..], PathEscape(tail))
    ensures Octets(v) && Begins(s, PathEscape(v))
  {
    assert EscapableAt(s, 0);
    v := [s[0]] + tail;
    EscapeCons(s[0], tail);
    assert s == [s[0]] + s[1..];
  }

  lemma ExtendEscape(s: string, tail: string) returns (v: string)
    requires Escapable(s) && |s| >= 3 && s[0] == '%' && Octets(tail) && Begins(s[3..], PathEscape(tail))
    ensures Octets(v) && Begins(s, PathEscape(v))
  {
    assert EscapableAt(s, 0);
    EscapeByte(s[1], s[2]);
    var c := (HexValue(s[1]).value * 16 + HexValue(s[2]).value) as char;
    v := [c] + tail;
    EscapeCons(c, tail);
    Rejoin(s, 3, PathEscape(tail));
    assert s[..3] == ['%', s[1], s[2]];
  }

  lemma Rejoin(s: string, k: nat, e: string)
    requires k <= |s| && Begins(s[k..], e)
    ensures Begins(s, s[..k] + e)
  {
    assert s == s[..k] + s[k..];
  }

  lemma EscapeCons(c: char, tail: string)
    ensures PathEscape([c] + tail) == EscapeChar(c) + PathEscape(tail)
  {
    assert ([c] + tail)[1..] == tail;
  }

  lemma EscapableTail(s: string, k: nat)
    requires Escapable(s) && k <= |s|
    ensures Escapable(s[k..])
  {
    forall i | 0 <= i < |s[k..]| ensures EscapableAt(s[k..], i) {
      assert EscapableAt(s, k + i);
    }
  }

  /** The escape of the byte is the digits it was named by. */
  lemma EscapeByte(h: char, l: char)
    requires IsEscape(h, l)
    ensures var c := (HexValue(h).value * 16 + HexValue(l).value) as char;
            c as int < 256 && EscapeChar(c) == ['%', h, l]
  {
    HexLetters(h);
    HexLetters(l);
    Nibbles(HexValue(h).value, HexValue(l).value);
  }

  lemma CutEscape(s: string) returns (v: string)
    requires Escapable(s) && 0 < |s| < 3 && s[0] == '%'
    ensures Octets(v) && Begins(s, PathEscape(v))
  {
    var h, l := '2', 'F';
    if |s| == 2 {
      assert EscapableAt(s, 0);
      h := s[1];
      var n :| 0 <= n < 16 && IsEscape(h, HexDigit(n));
      l := HexDigit(n);
    }
    v := OneEscape(h, l);
  }

  lemma OneEscape(h: char, l: char) returns (v: string)
    requires IsEscape(h, l)
    ensures Octets(v) && PathEscape(v) == ['%', h, l]
  {
    EscapeByte(h, l);
    var c := (HexValue(h).value * 16 + HexValue(l).value) as char;
    EscapeCons(c, "");
    v := [c] + "";
  }

  // ---- Literals that can recur ----

  /** The text occurs again `d` bytes on when the right escaped value follows it. */
  predicate RecursAt(text: string, d: nat)
    requires d <= |text|
  {
    text[d..] <= text && Escapable(text[|text| - d..])
  }

  /** Followed by some escaped value, the text occurs a second time before that value ends. */
  predicate Recurs(text: string) {
    exists d :: 1 <= d <= |text| && RecursAt(text, d)
  }

  lemma {:induction false} RecursPlain(text: string, d: nat, k: nat)
    requires 1 <= d <= |text| && RecursAt(text, d) && k < |text|
    ensures Plain(text[k])
    decreases |text| - k
  {
    if k >= |text| - d {
      assert EscapableAt(text[|text| - d..], k - (|text| - d));
    } else {
      RecursPlain(text, d, k + d);
      assert text[d..][k] == text[k];
    }
  }

  /** A literal with a byte that escaping never emits, such as '/', does not recur. */
  lemma FencedNeverRecurs(text: string, c: char)
    requires c in text && !Plain(c)
    ensures !Recurs(text)
  {
    if d :| 1 <= d <= |text| && RecursAt(text, d) {
      var k :| 0 <= k < |text| && text[k] == c;
      RecursPlain(text, d, k);
    }
  }

  /** What recurrence means: the text occurs again, `d` bytes on, before the end of
      an escaped value that follows it. */
  lemma RecursExactly(text: string)
    requires text != ""
    ensures Recurs(text) <==> exists v, d :: Repeats(text, v, d)
  {
    if Recurs(text) {
      var d :| 1 <= d <= |text| && RecursAt(text, d);
      var v := RecurrenceOf(text, d);
      assert Repeats(text, v, d);
    }
    forall v, d | Repeats(text, v, d) ensures Recurs(text) {
      AgainRecurs(text, v, d);
    }
  }

  predicate Repeats(text: string, v: string, d: int) {
    Octets(v) && Again(text, PathEscape(v), d)
  }

  predicate Again(text: string, e: string, d: int) {
    1 <= d < |e| && (text + e)[d..d + |text|] == text
  }

  lemma RecurrenceOf(text: string, d: nat) returns (v: string)
    requires 1 <= d <= |text| && RecursAt(text, d)
    ensures Octets(v) && Again(text, PathEscape(v), d)
  {
    v := EscapableExtends(text[|text| - d..]);
    var e := PathEscape(v);
    assert e[..d] == text[|text| - d..];
    assert (text + e)[d..d + |text|] == text[d..] + e[..d];
    assert text == text[..|text| - d] + text[|text| - d..];
  }

  lemma AgainRecurs(text: string, v: string, d: nat)
    requires text != "" && Octets(v) && Again(text, PathEscape(v), d)
    ensures Recurs(text)
  {
    PiecesEscapable(v);
    if d <= |text| {
      AgainNear(text, PathEscape(v), d);
    } else {
      AgainFar(text, PathEscape(v), d);
    }
  }

  lemma AgainNear(text: string, e: string, d: nat)
    requires d <= |text| && Again(text, e, d) && InPieces(e)
    ensures RecursAt(text, d)
  {
    assert (text + e)[d..d + |text|] == text[d..] + e[0..d];
    assert text[d..] == text[..|text| - d] && text[|text| - d..] == e[0..d];
  }

  lemma AgainFar(text: string, e: string, d: nat)
    requires d > |text| && Again(text, e, d) && InPieces(e)
    ensures RecursAt(text, |text|)
  {
    assert (text + e)[d..d + |text|] == e[d - |text|..d];
    assert text[|text|..] == "" && text[0..] == text;
  }

  /** Any text that can occur inside an escaped value recurs: '-', say, or an escape. */
  lemma EscapableRecurs(text: string)
    requires text != "" && Escapable(text)
    ensures Recurs(text)
  {
    assert text[|text|..] == "" && text[0..] == text;
    assert RecursAt(text, |text|);
  }

  lemma EscapeRecurs(h: char, l: char)
    requires IsEscape(h, l)
    ensures Recurs(['%', h, l])
  {
    var text := ['%', h, l];
    HexLetters(h);
    HexLetters(l);
    assert EscapableAt(text, 0) && EscapableAt(text, 1) && EscapableAt(text, 2);
    EscapableRecurs(text);
  }

  /** An escape spelled as PathEscape never spells it does not recur. */
  lemma ForeignEscapeNeverRecurs(h: char, l: char)
    requires !IsEscape(h, l) && h != '%' && l != '%'
    ensures !Recurs(['%', h, l])
  {
    var text := ['%', h, l];
    assert !EscapableAt(text, 0) && text[0..] == text;
    assert text[1..][0] == h && text[2..][0] == l;
  }
}
