/** The texts a URI template may hold: bare variable names (section 1.2 of RFC 6570,
    without operators and modifiers) and UTF-8 literals (RFC 3629). */
module TemplateGrammar {
  import opened Prelude
  import opened UriTemplate

  // ---- Variable names ----

  /** No operator, prefix or explode modifier, list or hyphen gets into a variable name. */
  lemma NoOperators(name: string, c: char)
    requires c in name && c in "+#./;?&=,!@|*:-%{} "
    ensures !IsVarName(name)
  {
  }

  /** A name starts with a letter or an underscore, and goes on with those and digits. */
  lemma NamesExactly(name: string, c: char)
    ensures IsVarName([c]) <==> 'A' <= c <= 'Z' || 'a' <= c <= 'z' || c == '_'
    ensures name != "" ==>
              (IsVarName(name + [c]) <==> IsVarName(name) && (IsVarName([c]) || '0' <= c <= '9'))
    ensures !IsVarName("")
  {
    assert forall d :: d in name + [c] <==> d in name || d == c;
    if name != "" {
      assert (name + [c])[0] == name[0];
    }
  }

  // ---- UTF-8 ----

  /** A Unicode scalar value: no surrogate. */
  predicate Scalar(n: int) {
    0 <= n < 0x110000 && !(0xD800 <= n < 0xE000)
  }

  function Octet(n: int): char
    requires 0 <= n < 256
  {
    n as char
  }

  function Trail(n: int): char
    requires n >= 0
  {
    Octet(0x80 + n % 64)
  }

  /** The UTF-8 octets of a scalar value (section 3 of RFC 3629). */
  function Encode(n: int): string
    requires Scalar(n)
  {
    if n < 0x80 then [Octet(n)]
    else if n < 0x800 then [Octet(0xC0 + n / 64), Trail(n)]
    else if n < 0x10000 then [Octet(0xE0 + n / 4096), Trail(n / 64), Trail(n)]
    else [Octet(0xF0 + n / 262144), Trail(n / 4096), Trail(n / 64), Trail(n)]
  }

  lemma DivBy64(q: int, r: int)
    requires 0 <= r < 64
    ensures (q * 64 + r) / 64 == q && (q * 64 + r) % 64 == r
  {
  }

  /** A text that starts with a scalar's octets starts with a sequence of that length. */
  lemma EncodedWidth(n: int, s: string)
    requires Scalar(n) && s != "" && HasPrefix(s, Encode(n))
    ensures Utf8Width(s) == |Encode(n)|
  {
    var e := Encode(n);
    assert forall i :: 0 <= i < |e| ==> s[i] == e[i];
  }

  function Low(c: char): int {
    c as int - 0x80
  }

  /** The scalar that the text starts with. */
  lemma DecodedScalar(s: string) returns (n: int)
    requires s != "" && Utf8Width(s) > 0
    ensures Scalar(n) && Encode(n) == s[..Utf8Width(s)]
  {
    var w := Utf8Width(s);
    if w == 1 {
      n := s[0] as int;
    } else if w == 2 {
      n := (s[0] as int - 0xC0) * 64 + Low(s[1]);
      DivBy64(s[0] as int - 0xC0, Low(s[1]));
    } else if w == 3 {
      n := DecodeThree(s);
    } else {
      n := DecodeFour(s);
    }
  }

  lemma DecodeThree(s: string) returns (n: int)
    requires s != "" && Utf8Width(s) == 3
    ensures Scalar(n) && Encode(n) == s[..3]
  {
    var a, b, c := s[0] as int - 0xE0, Low(s[1]), Low(s[2]);
    n := (a * 64 + b) * 64 + c;
    DivBy64(a * 64 + b, c);
    DivBy64(a, b);
    assert n / 64 == a * 64 + b && n / 4096 == a;
  }

  lemma DecodeFour(s: string) returns (n: int)
    requires s != "" && Utf8Width(s) == 4
    ensures Scalar(n) && Encode(n) == s[..4]
  {
    var a, b, c, d := s[0] as int - 0xF0, Low(s[1]), Low(s[2]), Low(s[3]);
    n := ((a * 64 + b) * 64 + c) * 64 + d;
    DivBy64((a * 64 + b) * 64 + c, d);
    DivBy64(a * 64 + b, c);
    DivBy64(a, b);
    assert n / 64 == (a * 64 + b) * 64 + c && n / 4096 == a * 64 + b && n / 262144 == a;
  }

  predicate Scalars(ns: seq<int>) {
    forall i :: 0 <= i < |ns| ==> Scalar(ns[i])
  }

  function EncodeAll(ns: seq<int>): string
    requires Scalars(ns)
  {
    if ns == [] then "" else Encode(ns[0]) + EncodeAll(ns[1..])
  }

  lemma EncodeCons(n: int, ns: seq<int>)
    requires Scalar(n) && Scalars(ns)
    ensures Scalars([n] + ns) && EncodeAll([n] + ns) == Encode(n) + EncodeAll(ns)
  {
    assert ([n] + ns)[1..] == ns;
  }

  lemma {:induction false} ValidDecodes(s: string) returns (ns: seq<int>)
    requires ValidUtf8(s)
    ensures Scalars(ns) && EncodeAll(ns) == s
    decreases |s|
  {
    ns := [];
    if s != "" {
      var n := DecodedScalar(s);
      var w := Utf8Width(s);
      var rest := ValidDecodes(s[w..]);
      ns := [n] + rest;
      EncodeCons(n, rest);
      assert s[..w] + s[w..] == s;
    }
  }

  lemma {:induction false} EncodedValid(ns: seq<int>)
    requires Scalars(ns)
    ensures ValidUtf8(EncodeAll(ns))
    decreases |ns|
  {
    if ns != [] {
      EncodedValid(ns[1..]);
      EncodedFirst(ns[0], EncodeAll(ns[1..]));
    }
  }

  lemma EncodedFirst(n: int, rest: string)
    requires Scalar(n)
    ensures var s := Encode(n) + rest; s != "" && Utf8Width(s) == |Encode(n)| > 0 && s[Utf8Width(s)..] == rest
  {
    EncodedWidth(n, Encode(n) + rest);
  }

  /** The literals a template may hold are exactly the encodings of sequences of scalars. */
  lemma Utf8Exactly(s: string)
    ensures ValidUtf8(s) <==> exists ns :: Scalars(ns) && EncodeAll(ns) == s
  {
    if ValidUtf8(s) {
      var ns := ValidDecodes(s);
    }
    if ns :| Scalars(ns) && EncodeAll(ns) == s {
      EncodedValid(ns);
    }
  }
}
