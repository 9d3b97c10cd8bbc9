/** When matching an expanded template gives its bindings back. */
module TemplateRoundTrip {
  import opened Prelude
  import opened PercentEncoding
  import opened UriTemplate

  /** The escaped values, variable by variable. */
  function EscapedRuns(names: seq<string>, bindings: map<string, string>): (runs: seq<string>)
    requires forall n :: n in names ==> n in bindings
    ensures |runs| == |names| && forall i :: 0 <= i < |names| ==> runs[i] == PathEscape(bindings[names[i]])
  {
    seq(|names|, i requires 0 <= i < |names| => PathEscape(bindings[names[i]]))
  }

  lemma {:induction false} ExpansionFills(ts: seq<Token>, bindings: map<string, string>)
    requires forall n :: n in Names(ts) ==> n in bindings
    ensures Expansion(ts, bindings) == Ok(Fill(ts, EscapedRuns(Names(ts), bindings)))
    decreases |ts|
  {
    if ts != [] {
      ExpansionFills(ts[1..], bindings);
      var runs := EscapedRuns(Names(ts), bindings);
      if ts[0].Var? {
        assert Names(ts)[0] == ts[0].name && Names(ts)[1..] == Names(ts[1..]);
        assert runs[1..] == EscapedRuns(Names(ts[1..]), bindings);
      } else {
        assert Names(ts) == Names(ts[1..]);
      }
    }
  }

  /** Bindings a caller may expand: every variable has one, made of bytes. */
  predicate Binds(ts: seq<Token>, bindings: map<string, string>) {
    forall n :: n in Names(ts) ==> n in bindings && Octets(bindings[n])
  }

  ghost function Restricted(ts: seq<Token>, bindings: map<string, string>): map<string, string>
    requires Binds(ts, bindings)
  {
    map n | n in Names(ts) :: bindings[n]
  }

  /** Matching the expansion gives the bindings back. */
  ghost predicate Restores(ts: seq<Token>, bindings: map<string, string>)
    requires WellFormed(ts) && Binds(ts, bindings)
  {
    ExpansionFills(ts, bindings);
    MatchOf(ts, Expansion(ts, bindings).value) == Some(Restricted(ts, bindings))
  }

  predicate NonEmptyValues(ts: seq<Token>, bindings: map<string, string>)
    requires Binds(ts, bindings)
  {
    forall n :: n in Names(ts) ==> bindings[n] != ""
  }

  lemma DecodedNonEmpty(ts: seq<Token>, u: string, n: string)
    requires WellFormed(ts) && MatchOf(ts, u).Some? && n in Names(ts)
    ensures MatchOf(ts, u).value[n] != ""
  {
    GreedySplits(ts, u);
    var runs, i := GreedyMatch(ts, u).value, Position(Names(ts), n);
    assert IsRun(runs[i]);
    UnescapeNonEmpty(runs[i]);
  }

  /** A run that is some value's escape. */
  ghost predicate IsEscaped(run: string) {
    exists v :: Octets(v) && run == PathEscape(v)
  }

  ghost predicate AllEscaped(runs: seq<string>) {
    forall k :: 0 <= k < |runs| ==> IsEscaped(runs[k])
  }

  predicate NoneEmpty(runs: seq<string>) {
    forall k :: 0 <= k < |runs| ==> runs[k] != ""
  }

  lemma EscapedSplit(ts: seq<Token>, bindings: map<string, string>)
    requires Binds(ts, bindings)
    ensures AllEscaped(EscapedRuns(Names(ts), bindings))
    ensures var runs := EscapedRuns(Names(ts), bindings);
            NonEmptyValues(ts, bindings) ==> IsSplit(ts, Fill(ts, runs), runs)
  {
    var names, runs := Names(ts), EscapedRuns(Names(ts), bindings);
    forall i | 0 <= i < |runs| ensures IsEscaped(runs[i]) && (NonEmptyValues(ts, bindings) ==> IsRun(runs[i])) {
      assert names[i] in names;
      EscapedPlain(bindings[names[i]]);
    }
  }

  lemma EscapedDecode(ts: seq<Token>, bindings: map<string, string>)
    requires Binds(ts, bindings)
    ensures Decoded(Names(ts), EscapedRuns(Names(ts), bindings)) == Some(Restricted(ts, bindings))
  {
    var names, runs := Names(ts), EscapedRuns(Names(ts), bindings);
    forall i | 0 <= i < |names| ensures PathUnescape(runs[i]) == Some(bindings[names[i]]) {
      assert names[i] in names;
      UnescapeEscape(bindings[names[i]]);
    }
    assert names[..|names|] == names;
    AllBound(names, runs, Restricted(ts, bindings));
  }

  // ---- Templates with one way back ----

  /** No literal between two variables recurs. */
  predicate Reversible(ts: seq<Token>) {
    forall i :: 0 <= i < |ts| - 2 && ts[i].Var? && ts[i + 1].Lit? ==> !Recurs(ts[i + 1].text)
  }

  lemma ReversibleTail(ts: seq<Token>)
    requires Separated(ts) && Reversible(ts) && ts != []
    ensures Separated(ts[1..]) && Reversible(ts[1..])
  {
  }

  /** Text that starts `d` bytes into literal + run + rest, with the same literal. */
  lemma NotBehind(text: string, x: string, rest: string, y: string, rest': string, d: nat)
    requires text != "" && IsEscaped(x) && y != "" && !Recurs(text)
    requires 0 < d <= |text + x + rest| && (text + x + rest)[d..] == text + y + rest'
    ensures d + |y| > |x|
  {
    if d < |x| {
      var v :| Octets(v) && x == PathEscape(v);
      assert (text + x)[d..d + |text|] == (text + x + rest)[d..][..|text|];
      assert (text + y + rest')[..|text|] == text;
      assert Again(text, PathEscape(v), d);
      AgainRecurs(text, v, d);
    }
  }

  lemma SplitNoneEmpty(ts: seq<Token>, u: string, runs: seq<string>)
    requires IsSplit(ts, u, runs)
    ensures NoneEmpty(runs)
  {
    forall k | 0 <= k < |runs| ensures runs[k] != "" {
      assert runs[k] in runs;
    }
  }

  /** From a literal before an inner variable on: another split of the same text can
      start only where this one does, because once ahead it stays ahead. */
  lemma {:induction false} NeverAhead(ts: seq<Token>, a: seq<string>, b: seq<string>, d: nat)
    requires Separated(ts) && Reversible(ts) && |ts| >= 2 && ts[0].Lit? && !Recurs(ts[0].text)
    requires |a| == |b| == |Names(ts)| && AllEscaped(a) && NoneEmpty(b)
    requires d <= |Fill(ts, a)| && Fill(ts, a)[d..] == Fill(ts, b)
    ensures d == 0
    decreases |ts|
  {
    if d > 0 {
      var text, x, y := ts[0].text, a[0], b[0];
      var rest, rest' := Fill(ts[2..], a[1..]), Fill(ts[2..], b[1..]);
      FillTwo(ts, a);
      FillTwo(ts, b);
      NotBehind(text, x, rest, y, rest', d);
      var ahead := d + |y| - |x|;
      if |ts| <= 3 {
        LastFill(ts[2..], a[1..], b[1..]);
      } else {
        TailDrop(text + x, rest, text + y, rest', d);
        TailOfTwo(ts);
        NeverAhead(ts[2..], a[1..], b[1..], ahead);
      }
    }
  }

  lemma FillTwo(ts: seq<Token>, runs: seq<string>)
    requires |ts| >= 2 && ts[0].Lit? && ts[1].Var? && |runs| == |Names(ts)|
    ensures runs != [] && |Names(ts[2..])| == |runs| - 1
    ensures Fill(ts, runs) == ts[0].text + runs[0] + Fill(ts[2..], runs[1..])
  {
    assert ts[1..][1..] == ts[2..] && ts[1..][0] == ts[1];
    assert Names(ts) == Names(ts[1..]) && Names(ts[1..]) == [ts[1].name] + Names(ts[2..]);
    assert Fill(ts[1..], runs) == runs[0] + Fill(ts[2..], runs[1..]);
  }

  lemma TailOfTwo(ts: seq<Token>)
    requires Separated(ts) && Reversible(ts) && |ts| > 3 && ts[0].Lit?
    ensures Separated(ts[2..]) && Reversible(ts[2..]) && ts[2..][0].Lit? && !Recurs(ts[2..][0].text)
  {
    assert ts[1].Var? && ts[2].Lit?;
    ReversibleTail(ts);
    ReversibleTail(ts[1..]);
    assert ts[1..][1..] == ts[2..];
  }

  lemma LastFill(ts: seq<Token>, a: seq<string>, b: seq<string>)
    requires Separated(ts) && |ts| <= 1 && (ts != [] ==> ts[0].Lit?) && |a| == |b| == |Names(ts)|
    ensures Fill(ts, a) == Fill(ts, b)
  {
  }

  lemma TailDrop(head: string, rest: string, head': string, rest': string, d: nat)
    requires d <= |head + rest| && (head + rest)[d..] == head' + rest' && d + |head'| >= |head|
    ensures d + |head'| - |head| <= |rest| && rest[d + |head'| - |head|..] == rest'
  {
    var k := d + |head'| - |head|;
    assert |rest'| == |rest| - k;
    assert rest' == (head' + rest')[|head'|..];
    assert (head + rest)[d..][|head'|..] == (head + rest)[d + |head'|..];
    assert (head + rest)[d + |head'|..] == rest[k..];
  }

  /** The greedy split of an expansion is the one it was made from. */
  lemma {:induction false} GreedyIntended(ts: seq<Token>, a: seq<string>, b: seq<string>)
    requires Separated(ts) && Reversible(ts)
    requires |a| == |b| == |Names(ts)| && AllEscaped(a) && NoneEmpty(b)
    requires Fill(ts, a) == Fill(ts, b) && LongerFirst(b, a)
    ensures a == b
    decreases |ts|
  {
    if ts != [] {
      ReversibleTail(ts);
      if ts[0].Lit? {
        assert Fill(ts, a)[|ts[0].text|..] == Fill(ts[1..], a);
        assert Fill(ts, b)[|ts[0].text|..] == Fill(ts[1..], b);
        GreedyIntended(ts[1..], a, b);
      } else {
        FirstIntended(ts, a, b);
        assert Fill(ts, a)[|a[0]|..] == Fill(ts[1..], a[1..]);
        assert Fill(ts, b)[|b[0]|..] == Fill(ts[1..], b[1..]);
        GreedyIntended(ts[1..], a[1..], b[1..]);
        assert a == [a[0]] + a[1..] && b == [b[0]] + b[1..];
      }
    }
  }

  lemma FirstIntended(ts: seq<Token>, a: seq<string>, b: seq<string>)
    requires Separated(ts) && Reversible(ts) && ts != [] && ts[0].Var?
    requires |a| == |b| == |Names(ts)| && AllEscaped(a) && NoneEmpty(b)
    requires Fill(ts, a) == Fill(ts, b) && LongerFirst(b, a)
    ensures a[0] == b[0]
  {
    var rest, rest' := Fill(ts[1..], a[1..]), Fill(ts[1..], b[1..]);
    SamePrefix(a[0], rest, b[0], rest');
    if |ts| <= 2 {
      LastFill(ts[1..], a[1..], b[1..]);
    } else {
      ReversibleTail(ts);
      NeverAhead(ts[1..], a[1..], b[1..], |b[0]| - |a[0]|);
    }
  }

  lemma SamePrefix(x: string, rest: string, y: string, rest': string)
    requires x + rest == y + rest' && |y| >= |x|
    ensures |y| - |x| <= |rest| && rest[|y| - |x|..] == rest'
    ensures |x| == |y| ==> x == y
  {
    assert (x + rest)[0..] == x + rest;
    TailDrop(x, rest, y, rest', 0);
    assert (x + rest)[..|x|] == x && (y + rest')[..|y|] == y;
  }

  // ---- A different split never decodes to the same values ----

  lemma {:induction false} LongerRun(ts: seq<Token>, a: seq<string>, b: seq<string>) returns (i: nat)
    requires |a| == |b| == |Names(ts)| && Fill(ts, a) == Fill(ts, b) && LongerFirst(b, a) && a != b
    ensures i < |a| && a[i] <= b[i] && |a[i]| < |b[i]|
    decreases |ts|
  {
    if ts[0].Lit? {
      assert Fill(ts, a)[|ts[0].text|..] == Fill(ts[1..], a);
      assert Fill(ts, b)[|ts[0].text|..] == Fill(ts[1..], b);
      i := LongerRun(ts[1..], a, b);
    } else if |a[0]| < |b[0]| {
      i := 0;
      assert Fill(ts, a)[..|a[0]|] == a[0] && Fill(ts, b)[..|a[0]|] == b[0][..|a[0]|];
    } else {
      assert Fill(ts, a)[|a[0]|..] == Fill(ts[1..], a[1..]);
      assert Fill(ts, b)[|b[0]|..] == Fill(ts[1..], b[1..]);
      assert a == [a[0]] + a[1..] && b == [b[0]] + b[1..];
      i := LongerRun(ts[1..], a[1..], b[1..]);
      i := i + 1;
    }
  }

  lemma LongerDecodes(v: string, run: string)
    requires Octets(v) && PathEscape(v) <= run && |PathEscape(v)| < |run|
    ensures PathUnescape(run) != Some(v)
  {
    var tail := run[|PathEscape(v)|..];
    assert run == PathEscape(v) + tail;
    UnescapeConcat(v, tail);
    if PathUnescape(tail).Some? {
      UnescapeNonEmpty(tail);
      assert |v + PathUnescape(tail).value| > |v|;
    }
  }

  /** The bindings come back exactly when the greedy split is the expansion's own. */
  lemma RestoresIffGreedy(ts: seq<Token>, bindings: map<string, string>)
    requires WellFormed(ts) && Binds(ts, bindings)
    ensures var runs := EscapedRuns(Names(ts), bindings);
            Restores(ts, bindings) <==> GreedyMatch(ts, Fill(ts, runs)) == Some(runs)
  {
    var runs := EscapedRuns(Names(ts), bindings);
    ExpansionFills(ts, bindings);
    EscapedDecode(ts, bindings);
    if Restores(ts, bindings) {
      RestoredNonEmpty(ts, bindings);
      EscapedSplit(ts, bindings);
      GreedyBest(ts, Fill(ts, runs), runs);
      GreedySplits(ts, Fill(ts, runs));
      var found := GreedyMatch(ts, Fill(ts, runs)).value;
      if found != runs {
        var i := LongerRun(ts, runs, found);
        DecodedDiffers(ts, bindings, found, i);
      }
    }
  }

  lemma RestoredNonEmpty(ts: seq<Token>, bindings: map<string, string>)
    requires WellFormed(ts) && Binds(ts, bindings) && Restores(ts, bindings)
    ensures NonEmptyValues(ts, bindings)
  {
    var u := Fill(ts, EscapedRuns(Names(ts), bindings));
    ExpansionFills(ts, bindings);
    forall n | n in Names(ts) ensures bindings[n] != "" {
      DecodedNonEmpty(ts, u, n);
    }
  }

  lemma DecodedDiffers(ts: seq<Token>, bindings: map<string, string>, found: seq<string>, i: nat)
    requires WellFormed(ts) && Binds(ts, bindings) && |found| == |Names(ts)| && i < |found|
    requires var run := EscapedRuns(Names(ts), bindings)[i]; run <= found[i] && |run| < |found[i]|
    ensures Decoded(Names(ts), found) != Some(Restricted(ts, bindings))
  {
    var names := Names(ts);
    DistinctNames(ts);
    assert names[i] in names;
    LongerDecodes(bindings[names[i]], found[i]);
    DecodedAt(names, found, i);
  }

  lemma DecodedAt(names: seq<string>, runs: seq<string>, i: nat)
    requires |names| == |runs| && i < |names| && Distinct(names)
    ensures Decoded(names, runs).Some? ==> PathUnescape(runs[i]) == Some(Decoded(names, runs).value[names[i]])
  {
    assert names[i] in names && Position(names, names[i]) == i;
  }

  // ---- The theorems ----

  /** A reversible template gives its bindings back exactly when none is empty. */
  lemma RoundTrip(ts: seq<Token>, bindings: map<string, string>)
    requires WellFormed(ts) && Reversible(ts) && Binds(ts, bindings)
    ensures Restores(ts, bindings) <==> NonEmptyValues(ts, bindings)
  {
    var runs := EscapedRuns(Names(ts), bindings);
    if Restores(ts, bindings) {
      RestoredNonEmpty(ts, bindings);
    }
    if NonEmptyValues(ts, bindings) {
      EscapedSplit(ts, bindings);
      GreedyBest(ts, Fill(ts, runs), runs);
      GreedySplits(ts, Fill(ts, runs));
      var found := GreedyMatch(ts, Fill(ts, runs)).value;
      SplitNoneEmpty(ts, Fill(ts, runs), found);
      GreedyIntended(ts, runs, found);
      RestoresIffGreedy(ts, bindings);
    }
  }

  /** The number of variables among the first `i` tokens. */
  function VarIndex(ts: seq<Token>, i: nat): nat
    requires i <= |ts|
  {
    if i == 0 then 0 else (if ts[0].Var? then 1 else 0) + VarIndex(ts[1..], i - 1)
  }

  lemma {:induction false} NameAt(ts: seq<Token>, i: nat)
    requires i < |ts| && ts[i].Var?
    ensures VarIndex(ts, i) < |Names(ts)| && Names(ts)[VarIndex(ts, i)] == ts[i].name
    decreases i
  {
    if i > 0 {
      NameAt(ts[1..], i - 1);
    }
  }

  lemma {:induction false} VarIndexTwo(ts: seq<Token>, i: nat)
    requires i + 2 <= |ts| && ts[i].Var? && ts[i + 1].Lit?
    ensures VarIndex(ts, i + 2) == VarIndex(ts, i) + 1
    decreases i
  {
    if i > 0 {
      VarIndexTwo(ts[1..], i - 1);
    } else {
      assert VarIndex(ts[1..], 1) == VarIndex(ts[1..][1..], 0);
    }
  }

  /** Two neighbouring runs may move their literal along. */
  lemma {:induction false} ShiftFill(ts: seq<Token>, i: nat, runs: seq<string>, shifted: seq<string>)
    requires i + 2 < |ts| && ts[i].Var? && ts[i + 1].Lit? && ts[i + 2].Var?
    requires |runs| == |shifted| == |Names(ts)| && VarIndex(ts, i) + 1 < |runs|
    requires var p, text := VarIndex(ts, i), ts[i + 1].text;
             && shifted == runs[p := shifted[p]][p + 1 := shifted[p + 1]]
             && runs[p] + text + runs[p + 1] == shifted[p] + text + shifted[p + 1]
    ensures Fill(ts, runs) == Fill(ts, shifted)
    decreases i
  {
    if i > 0 {
      if ts[0].Var? {
        ShiftFill(ts[1..], i - 1, runs[1..], shifted[1..]);
      } else {
        ShiftFill(ts[1..], i - 1, runs, shifted);
      }
    } else {
      FillThree(ts, runs);
      FillThree(ts, shifted);
      assert runs[2..] == shifted[2..];
    }
  }

  lemma FillThree(ts: seq<Token>, runs: seq<string>)
    requires 2 < |ts| && ts[0].Var? && ts[1].Lit? && ts[2].Var?
    requires |runs| == |Names(ts)|
    ensures |Names(ts[3..])| == |runs| - 2
    ensures Fill(ts, runs) == runs[0] + ts[1].text + runs[1] + Fill(ts[3..], runs[2..])
  {
    var one, two := ts[1..], ts[2..];
    assert one[1..] == two && two[1..] == ts[3..] && one[0] == ts[1] && two[0] == ts[2];
    assert Names(ts) == [ts[0].name] + Names(one);
    assert Names(one) == Names(two) && Names(two) == [ts[2].name] + Names(ts[3..]);
    assert runs[1..][1..] == runs[2..] && runs[1..][0] == runs[1];
    assert Fill(two, runs[1..]) == runs[1] + Fill(ts[3..], runs[2..]);
    assert Fill(one, runs[1..]) == ts[1].text + Fill(two, runs[1..]);
  }

  lemma {:induction false} NotLonger(a: seq<string>, b: seq<string>, p: nat)
    requires |a| == |b| && p < |a| && (forall k :: 0 <= k < p ==> a[k] == b[k]) && |a[p]| < |b[p]|
    ensures !LongerFirst(a, b)
    decreases p
  {
    if p > 0 {
      NotLonger(a[1..], b[1..], p - 1);
    }
  }

  /** "x" for every variable but `later`. */
  function OneLong(ts: seq<Token>, later: string, long: string): map<string, string> {
    map n | n in Names(ts) :: if n == later then long else "x"
  }

  /** When the literal after variable `i` recurs, some bindings do not come back. */
  lemma RecurringLoses(ts: seq<Token>, i: nat, d: nat) returns (bindings: map<string, string>)
    requires WellFormed(ts) && i + 2 < |ts| && ts[i].Var? && ts[i + 1].Lit?
    requires 1 <= d <= |ts[i + 1].text| && RecursAt(ts[i + 1].text, d)
    ensures Binds(ts, bindings) && NonEmptyValues(ts, bindings) && !Restores(ts, bindings)
  {
    var text := ts[i + 1].text;
    var v := RecurrenceOf(text, d);
    assert ts[i + 2].Var?;
    bindings := OneLong(ts, ts[i + 2].name, v);
    OneLongRuns(ts, i, v);
    ShiftedSplit(ts, i, d, v, bindings);
  }

  lemma ShiftedSplit(ts: seq<Token>, i: nat, d: nat, v: string, bindings: map<string, string>)
    requires WellFormed(ts) && Binds(ts, bindings) && NonEmptyValues(ts, bindings)
    requires i + 2 < |ts| && ts[i].Var? && ts[i + 1].Lit? && ts[i + 2].Var?
    requires 1 <= d <= |ts[i + 1].text| && RecursAt(ts[i + 1].text, d) && Repeats(ts[i + 1].text, v, d)
    requires var p, runs := VarIndex(ts, i), EscapedRuns(Names(ts), bindings);
             p + 1 < |runs| && runs[p] == "x" && runs[p + 1] == PathEscape(v)
    ensures !Restores(ts, bindings)
  {
    var text := ts[i + 1].text;
    var p, runs := VarIndex(ts, i), EscapedRuns(Names(ts), bindings);
    var e := PathEscape(v);
    var shifted := runs[p := "x" + (text + e)[..d]][p + 1 := e[d..]];
    Moved("x", text, e, d);
    ShiftFill(ts, i, runs, shifted);
    EscapedSplit(ts, bindings);
    ShiftedRuns(text, v, d);
    RunsAfterShift(runs, shifted, p);
    NotLonger(runs, shifted, p);
    GreedyBest(ts, Fill(ts, runs), shifted);
    RestoresIffGreedy(ts, bindings);
  }

  lemma RunsAfterShift(runs: seq<string>, shifted: seq<string>, p: nat)
    requires p + 1 < |runs| == |shifted| && shifted == runs[p := shifted[p]][p + 1 := shifted[p + 1]]
    requires (forall run :: run in runs ==> IsRun(run)) && IsRun(shifted[p]) && IsRun(shifted[p + 1])
    ensures forall run :: run in shifted ==> IsRun(run)
  {
    forall k | 0 <= k < |shifted| ensures IsRun(shifted[k]) {
      assert k != p && k != p + 1 ==> shifted[k] == runs[k];
    }
  }

  lemma OneLongRuns(ts: seq<Token>, i: nat, v: string)
    requires WellFormed(ts) && i + 2 < |ts| && ts[i].Var? && ts[i + 1].Lit? && ts[i + 2].Var?
    requires Octets(v) && v != ""
    ensures var bindings, p := OneLong(ts, ts[i + 2].name, v), VarIndex(ts, i);
            && Binds(ts, bindings) && NonEmptyValues(ts, bindings)
            && var runs := EscapedRuns(Names(ts), bindings);
            p + 1 < |runs| && runs[p] == "x" && runs[p + 1] == PathEscape(v)
  {
    NameAt(ts, i);
    NameAt(ts, i + 2);
    VarIndexTwo(ts, i);
    assert "x"[1..] == "" && PathEscape("x") == "x";
  }

  lemma Moved(x: string, text: string, e: string, d: nat)
    requires Again(text, e, d)
    ensures x + text + e == x + (text + e)[..d] + text + e[d..]
  {
    var s := text + e;
    assert s == s[..d] + s[d..d + |text|] + s[d + |text|..];
    assert s[d + |text|..] == e[d..];
  }

  lemma ShiftedRuns(text: string, v: string, d: nat)
    requires 1 <= d <= |text| && RecursAt(text, d) && Octets(v) && Again(text, PathEscape(v), d)
    ensures IsRun("x" + (text + PathEscape(v))[..d]) && IsRun(PathEscape(v)[d..])
  {
    EscapedPlain(v);
    forall k | 0 <= k < |text| ensures text[k] != '/' {
      RecursPlain(text, d, k);
    }
    var e := PathEscape(v);
    assert forall c :: c in e[d..] ==> c in e;
  }

  /** Exactly the templates in which no literal between two variables recurs give
      every non-empty binding back. */
  lemma ReversibleExactly(ts: seq<Token>)
    requires WellFormed(ts)
    ensures Reversible(ts) <==>
            forall bindings :: Binds(ts, bindings) && NonEmptyValues(ts, bindings) ==> Restores(ts, bindings)
  {
    if Reversible(ts) {
      forall bindings | Binds(ts, bindings) && NonEmptyValues(ts, bindings) ensures Restores(ts, bindings) {
        RoundTrip(ts, bindings);
      }
    } else {
      var i :| 0 <= i < |ts| - 2 && ts[i].Var? && ts[i + 1].Lit? && Recurs(ts[i + 1].text);
      var d :| 1 <= d <= |ts[i + 1].text| && RecursAt(ts[i + 1].text, d);
      var bindings := RecurringLoses(ts, i, d);
    }
  }

  /** In particular '/', or any byte that escaping never emits, delimits. */
  lemma FencedReversible(ts: seq<Token>)
    requires forall i :: 0 <= i < |ts| - 2 && ts[i].Var? && ts[i + 1].Lit? ==> Fenced(ts[i + 1].text)
    ensures Reversible(ts)
  {
    forall i | 0 <= i < |ts| - 2 && ts[i].Var? && ts[i + 1].Lit? ensures !Recurs(ts[i + 1].text) {
      var c :| c in ts[i + 1].text && !Plain(c);
      FencedNeverRecurs(ts[i + 1].text, c);
    }
  }

  predicate Fenced(text: string) {
    exists c :: c in text && !Plain(c)
  }
}
