/** Resolving a URI to the most specific declared node type (resolve_uri_type.go). */
module TypeResolution {
  import opened Prelude
  import UT = UriTemplate
  import opened PercentEncoding

  datatype NodeType = NodeType(name: string, uriTemplate: string)

  datatype Resolved = Resolved(nodeType: NodeType, bindings: map<string, string>)

  datatype Candidate = Candidate(resolved: Resolved, template: UT.Template)

  // ---- Specificity ----

  /** 1 when `a` is strictly more specific, -1 when strictly less, 0 on a tie:
      more literal characters, then fewer variables, then a longer literal prefix. */
  function CompareSpecificity(a: UT.Template, b: UT.Template): int {
    if a.literalCount != b.literalCount then (if a.literalCount > b.literalCount then 1 else -1)
    else if |a.varNames| != |b.varNames| then (if |a.varNames| < |b.varNames| then 1 else -1)
    else if a.prefixLen != b.prefixLen then (if a.prefixLen > b.prefixLen then 1 else -1)
    else 0
  }

  lemma CompareTotalPreorder(a: UT.Template, b: UT.Template, c: UT.Template)
    ensures CompareSpecificity(a, b) == -CompareSpecificity(b, a) && -1 <= CompareSpecificity(a, b) <= 1
    ensures CompareSpecificity(a, b) >= 0 && CompareSpecificity(b, c) >= 0 ==>
              CompareSpecificity(a, c) == if CompareSpecificity(a, b) == 1 then 1 else CompareSpecificity(b, c)
  {
  }

  // ---- Candidates ----

  /** What one declared type offers for `uri`. */
  ghost function CandidateOf(t: NodeType, uri: string): Option<Candidate> {
    if t.uriTemplate == "" then None
    else
      match UT.Parse(t.uriTemplate)
      case Err(_) => None
      case Ok(ts) =>
        UT.TokensSound(t.uriTemplate, {}, false);
        match UT.MatchOf(ts, uri)
        case None => None
        case Some(bindings) =>
          Some(Candidate(
            Resolved(t, bindings),
            UT.Template(t.uriTemplate, ts, UT.Names(ts), UT.LiteralCount(ts), UT.PrefixLength(ts))))
  }

  method Offer(t: NodeType, uri: string) returns (c: Option<Candidate>)
    ensures c == CandidateOf(t, uri)
  {
    if t.uriTemplate == "" {
      return None;
    }
    var parsed := UT.ParseURITemplate(t.uriTemplate);
    if parsed.Err? {
      return None;
    }
    var bindings := UT.Match(parsed.value, uri);
    if bindings.None? {
      return None;
    }
    return Some(Candidate(Resolved(t, bindings.value), parsed.value));
  }

  ghost predicate Beats(t: NodeType, other: NodeType, uri: string) {
    && CandidateOf(t, uri).Some?
    && (CandidateOf(other, uri).Some? ==>
          CompareSpecificity(CandidateOf(t, uri).value.template, CandidateOf(other, uri).value.template) == 1)
  }

  /** The type declared at `i` matches, strictly more specifically than every other match. */
  ghost predicate StrictWinner(types: seq<NodeType>, uri: string, i: int) {
    && 0 <= i < |types| && CandidateOf(types[i], uri).Some?
    && forall j :: 0 <= j < |types| && j != i ==> Beats(types[i], types[j], uri)
  }

  // ---- Resolution ----

  /** What each declared type offers, in order. */
  ghost function Offers(types: seq<NodeType>, uri: string): (offers: seq<Option<Candidate>>)
    ensures |offers| == |types| && forall i :: 0 <= i < |types| ==> offers[i] == CandidateOf(types[i], uri)
  {
    seq(|types|, i requires 0 <= i < |types| => CandidateOf(types[i], uri))
  }

  /** Candidate `k` is the offer at `at[k]`, among the first `n`. */
  ghost predicate Gathered(offers: seq<Option<Candidate>>, n: nat, candidates: seq<Candidate>, at: seq<nat>)
    requires n <= |offers|
  {
    && |at| == |candidates|
    && (forall k :: 0 <= k < |at| ==> at[k] < n && offers[at[k]] == Some(candidates[k]))
    && (forall k, l :: 0 <= k < l < |at| ==> at[k] < at[l])
    && (forall i :: 0 <= i < n && offers[i].Some? ==> i in at)
  }

  /** No candidate is strictly more specific than the one at `best`; `tied` says
      whether another is exactly as specific. */
  predicate Leads(candidates: seq<Candidate>, best: nat, tied: bool) {
    && best < |candidates|
    && (forall k :: 0 <= k < |candidates| ==>
          CompareSpecificity(candidates[best].template, candidates[k].template) >= 0)
    && (tied <==>
          exists k :: 0 <= k < |candidates| && k != best
                      && CompareSpecificity(candidates[best].template, candidates[k].template) == 0)
  }

  /** The result is the strict winner's resolution, or None when there is none. */
  ghost predicate Decides(types: seq<NodeType>, uri: string, result: Option<Resolved>) {
    && (result.Some? <==> exists i :: StrictWinner(types, uri, i))
    && forall i :: StrictWinner(types, uri, i) ==> result == Some(CandidateOf(types[i], uri).value.resolved)
  }

  method ResolveNodeTypeByURI(types: seq<NodeType>, uri: string) returns (result: Option<Resolved>)
    ensures Decides(types, uri, result)
    ensures result.Some? <==> exists i :: CapturesLeast(types, uri, i)
    ensures forall i :: CapturesLeast(types, uri, i) ==> result == Some(CandidateOf(types[i], uri).value.resolved)
  {
    var candidates: seq<Candidate> := [];
    ghost var at: seq<nat>, offers := [], Offers(types, uri);
    WinnersCaptureLeast(types, uri);
    for n := 0 to |types|
      invariant Gathered(offers, n, candidates, at)
    {
      var c := Offer(types[n], uri);
      GatheredNext(offers, n, candidates, at);
      if c.Some? {
        candidates := candidates + [c.value];
        at := at + [n];
      }
    }
    if |candidates| == 0 {
      NoCandidates(types, uri, at);
      return None;
    }
    if |candidates| == 1 {
      LeaderWins(types, uri, candidates, at, 0, false);
      return Some(candidates[0].resolved);
    }
    var best, tied := MostSpecific(candidates);
    LeaderWins(types, uri, candidates, at, best, tied);
    if tied {
      return None;
    }
    return Some(candidates[best].resolved);
  }

  method MostSpecific(candidates: seq<Candidate>) returns (best: nat, tied: bool)
    requires candidates != []
    ensures Leads(candidates, best, tied)
  {
    best, tied := 0, false;
    for k := 1 to |candidates|
      invariant Leads(candidates[..k], best, tied)
    {
      LeadsNext(candidates, k, best, tied);
      match CompareSpecificity(candidates[k].template, candidates[best].template)
      case 1 => best, tied := k, false;
      case 0 => tied := true;
      case _ =>
    }
    assert candidates[..|candidates|] == candidates;
  }

  lemma GatheredNext(offers: seq<Option<Candidate>>, n: nat, candidates: seq<Candidate>, at: seq<nat>)
    requires n < |offers| && Gathered(offers, n, candidates, at)
    ensures match offers[n]
            case None => Gathered(offers, n + 1, candidates, at)
            case Some(c) => Gathered(offers, n + 1, candidates + [c], at + [n])
  {
    if offers[n].Some? {
      assert forall i :: i in at + [n] <==> i in at || i == n;
    }
  }

  lemma NoCandidates(types: seq<NodeType>, uri: string, at: seq<nat>)
    requires Gathered(Offers(types, uri), |types|, [], at)
    ensures Decides(types, uri, None)
  {
  }

  lemma LeadsNext(candidates: seq<Candidate>, k: nat, best: nat, tied: bool)
    requires k < |candidates| && Leads(candidates[..k], best, tied)
    ensures var c := CompareSpecificity(candidates[k].template, candidates[best].template);
            if c == 1 then Leads(candidates[..k + 1], k, false) else Leads(candidates[..k + 1], best, tied || c == 0)
  {
  }

  lemma LeaderWins(types: seq<NodeType>, uri: string, candidates: seq<Candidate>, at: seq<nat>, best: nat, tied: bool)
    requires Gathered(Offers(types, uri), |types|, candidates, at) && Leads(candidates, best, tied)
    ensures Decides(types, uri, if tied then None else Some(candidates[best].resolved))
  {
    forall i | StrictWinner(types, uri, i) ensures i == at[best] && !tied {
      var w :| 0 <= w < |at| && at[w] == i;
      forall k | 0 <= k < |at| && k != w
        ensures CompareSpecificity(candidates[w].template, candidates[k].template) == 1
      {
        assert at[k] != at[w] by { if k < w { assert at[k] < at[w]; } else { assert at[w] < at[k]; } }
        assert Beats(types[i], types[at[k]], uri);
      }
    }
    if !tied {
      forall j | 0 <= j < |types| && j != at[best] ensures Beats(types[at[best]], types[j], uri) {
        if CandidateOf(types[j], uri).Some? {
          var k :| 0 <= k < |at| && at[k] == j;
        }
      }
      assert StrictWinner(types, uri, at[best]);
    }
  }

  lemma UniqueWinner(types: seq<NodeType>, uri: string, i: int, j: int)
    requires StrictWinner(types, uri, i) && StrictWinner(types, uri, j)
    ensures i == j
  {
  }

  // ---- What the order means: how little of the URI is captured ----

  /** How many bytes of the URI the variables took. */
  function Captured(runs: seq<string>): nat {
    if runs == [] then 0 else |runs[0]| + Captured(runs[1..])
  }

  /** Where the first variable starts taking bytes; the whole length without variables. */
  function FirstCapture(ts: seq<UT.Token>): nat {
    if ts != [] && ts[0].Lit? then |ts[0].text| else 0
  }

  lemma {:induction false} BytesSplit(ts: seq<UT.Token>, runs: seq<string>)
    requires |runs| == |UT.Names(ts)|
    ensures |UT.Fill(ts, runs)| == UT.LiteralCount(ts) + Captured(runs)
    decreases |ts|
  {
    if ts != [] {
      BytesSplit(ts[1..], if ts[0].Lit? then runs else runs[1..]);
    }
  }

  /** The first captured byte is where the leading literal ends. */
  lemma CaptureStarts(ts: seq<UT.Token>, u: string, runs: seq<string>)
    requires UT.WellFormed(ts) && UT.IsSplit(ts, u, runs)
    ensures UT.PrefixLength(ts) == FirstCapture(ts)
    ensures if runs == [] then FirstCapture(ts) == |u|
            else FirstCapture(ts) + |runs[0]| <= |u| && HasPrefix(u[FirstCapture(ts)..], runs[0])
  {
    if ts != [] && ts[0].Lit? {
      assert u == ts[0].text + UT.Fill(ts[1..], runs);
      assert u[|ts[0].text|..] == UT.Fill(ts[1..], runs);
      if |ts| > 1 {
        assert ts[1].Var? && ts[1..][0] == ts[1];
      }
    }
  }

  /** Fewer captured bytes; then fewer captures; then a first capture further right. */
  predicate CapturesLess(ts: seq<UT.Token>, runs: seq<string>, ts': seq<UT.Token>, runs': seq<string>) {
    || Captured(runs) < Captured(runs')
    || (Captured(runs) == Captured(runs') && |runs| < |runs'|)
    || (Captured(runs) == Captured(runs') && |runs| == |runs'| && FirstCapture(ts) > FirstCapture(ts'))
  }

  /** The URI splits along the type's template into these captures, and they decode. */
  ghost predicate Takes(t: NodeType, uri: string, ts: seq<UT.Token>, runs: seq<string>) {
    && t.uriTemplate != "" && UT.Parse(t.uriTemplate) == Ok(ts)
    && UT.GreedyMatch(ts, uri) == Some(runs)
    && forall run :: run in runs ==> PathUnescape(run).Some?
  }
  ghost predicate Matches(t: NodeType, uri: string) {
    exists ts, runs :: Takes(t, uri, ts, runs)
  }

  ghost predicate CapturesLessThan(t: NodeType, other: NodeType, uri: string) {
    forall ts, runs, ts', runs' ::
      Takes(t, uri, ts, runs) && Takes(other, uri, ts', runs') ==> CapturesLess(ts, runs, ts', runs')
  }

  lemma SplitSummary(ts: seq<UT.Token>, uri: string, runs: seq<string>)
    requires UT.WellFormed(ts) && UT.GreedyMatch(ts, uri) == Some(runs)
    ensures UT.LiteralCount(ts) == |uri| - Captured(runs)
    ensures |UT.Names(ts)| == |runs| && UT.PrefixLength(ts) == FirstCapture(ts)
  {
    UT.GreedySplits(ts, uri);
    BytesSplit(ts, runs);
    CaptureStarts(ts, uri, runs);
  }

  lemma DecodesAll(ts: seq<UT.Token>, uri: string)
    requires UT.WellFormed(ts)
    ensures UT.MatchOf(ts, uri).Some? <==>
              && UT.GreedyMatch(ts, uri).Some?
              && forall run :: run in UT.GreedyMatch(ts, uri).value ==> PathUnescape(run).Some?
  {
    if UT.GreedyMatch(ts, uri).Some? {
      UT.GreedySplits(ts, uri);
      DecodesEach(UT.Names(ts), UT.GreedyMatch(ts, uri).value);
    }
  }

  lemma DecodesEach(names: seq<string>, runs: seq<string>)
    requires |names| == |runs|
    ensures UT.Decoded(names, runs).Some? <==> forall run :: run in runs ==> PathUnescape(run).Some?
  {
    assert forall i :: 0 <= i < |runs| ==> runs[i] in runs;
  }

  lemma OfferTakes(t: NodeType, uri: string, ts: seq<UT.Token>, runs: seq<string>)
    requires Takes(t, uri, ts, runs)
    ensures CandidateOf(t, uri).Some? && CandidateOf(t, uri).value.resolved.nodeType == t
    ensures var template := CandidateOf(t, uri).value.template;
            && template.literalCount == |uri| - Captured(runs)
            && |template.varNames| == |runs|
            && template.prefixLen == FirstCapture(ts)
  {
    UT.TokensSound(t.uriTemplate, {}, false);
    SplitSummary(ts, uri, runs);
    DecodesAll(ts, uri);
  }

  lemma MatchTakes(t: NodeType, uri: string)
    ensures CandidateOf(t, uri).Some? <==> Matches(t, uri)
  {
    if CandidateOf(t, uri).Some? {
      var ts := UT.Parse(t.uriTemplate).value;
      UT.TokensSound(t.uriTemplate, {}, false);
      DecodesAll(ts, uri);
      assert Takes(t, uri, ts, UT.GreedyMatch(ts, uri).value);
    }
    if ts, runs :| Takes(t, uri, ts, runs) {
      OfferTakes(t, uri, ts, runs);
    }
  }

  lemma BeatsByCaptures(t: NodeType, other: NodeType, uri: string)
    ensures Beats(t, other, uri) <==> Matches(t, uri) && CapturesLessThan(t, other, uri)
  {
    MatchTakes(t, uri);
    MatchTakes(other, uri);
    forall ts, runs, ts', runs' | Takes(t, uri, ts, runs) && Takes(other, uri, ts', runs')
      ensures Beats(t, other, uri) <==> CapturesLess(ts, runs, ts', runs') {
      OfferTakes(t, uri, ts, runs);
      OfferTakes(other, uri, ts', runs');
    }
  }

  /** The type leaves the least of the URI to its variables: of all the types that match,
      it captures the fewest bytes; on equal bytes it has the fewest captures; on equal
      captures the first of them starts furthest right. */
  ghost predicate CapturesLeast(types: seq<NodeType>, uri: string, i: int) {
    && 0 <= i < |types| && Matches(types[i], uri)
    && forall j :: 0 <= j < |types| && j != i ==> CapturesLessThan(types[i], types[j], uri)
  }

  /** The strict winner is the type that captures the least. */
  lemma WinnerCapturesLeast(types: seq<NodeType>, uri: string, i: int)
    ensures StrictWinner(types, uri, i) <==> CapturesLeast(types, uri, i)
    ensures CapturesLeast(types, uri, i) ==> CandidateOf(types[i], uri).Some?
  {
    if 0 <= i < |types| {
      MatchTakes(types[i], uri);
      forall j | 0 <= j < |types|
        ensures Beats(types[i], types[j], uri) <==>
                  Matches(types[i], uri) && CapturesLessThan(types[i], types[j], uri) {
        BeatsByCaptures(types[i], types[j], uri);
      }
    }
  }

  lemma WinnersCaptureLeast(types: seq<NodeType>, uri: string)
    ensures forall i :: StrictWinner(types, uri, i) <==> CapturesLeast(types, uri, i)
    ensures forall i :: CapturesLeast(types, uri, i) ==> CandidateOf(types[i], uri).Some?
  {
    forall i ensures StrictWinner(types, uri, i) <==> CapturesLeast(types, uri, i)
             ensures CapturesLeast(types, uri, i) ==> CandidateOf(types[i], uri).Some? {
      WinnerCapturesLeast(types, uri, i);
    }
  }

  // ---- Declaration order does not matter ----

  /** The winner in terms of the types alone: declared once, and beating the rest. */
  ghost predicate Prevails(types: multiset<NodeType>, uri: string, t: NodeType) {
    && types[t] == 1 && CandidateOf(t, uri).Some?
    && forall other :: other in types && other != t ==> Beats(t, other, uri)
  }

  lemma CountOnce<T>(s: seq<T>, i: nat)
    requires i < |s|
    ensures multiset(s)[s[i]] == 1 <==> forall j :: 0 <= j < |s| && j != i ==> s[j] != s[i]
  {
    var x, before, after := s[i], s[..i], s[i + 1..];
    assert s == before + [x] + after;
    assert multiset(s) == multiset(before) + multiset{x} + multiset(after);
    assert multiset(s)[x] == multiset(before)[x] + 1 + multiset(after)[x];
    if forall j :: 0 <= j < |s| && j != i ==> s[j] != x {
      assert forall j :: 0 <= j < |after| ==> after[j] == s[i + 1 + j];
      assert x !in before && x !in after;
    }
    if j :| 0 <= j < |s| && j != i && s[j] == x {
      assert if j < i then before[j] == x else after[j - i - 1] == x;
      assert x in before || x in after;
    }
  }

  lemma WinnerPrevails(types: seq<NodeType>, uri: string, i: nat)
    requires i < |types|
    ensures StrictWinner(types, uri, i) <==> Prevails(multiset(types), uri, types[i])
  {
    var t := types[i];
    CountOnce(types, i);
    if StrictWinner(types, uri, i) {
      forall j | 0 <= j < |types| && j != i ensures types[j] != t {
        assert Beats(t, types[j], uri);
      }
      forall other | other in multiset(types) && other != t ensures Beats(t, other, uri) {
        var j :| 0 <= j < |types| && types[j] == other;
      }
    }
    if Prevails(multiset(types), uri, t) {
      forall j | 0 <= j < |types| && j != i ensures Beats(t, types[j], uri) {
        assert types[j] in multiset(types);
      }
    }
  }

  lemma WinnerReordered(types: seq<NodeType>, reordered: seq<NodeType>, uri: string, i: int)
    requires multiset(types) == multiset(reordered) && StrictWinner(types, uri, i)
    ensures exists j :: StrictWinner(reordered, uri, j)
    ensures forall j :: StrictWinner(reordered, uri, j) ==> reordered[j] == types[i]
  {
    var t := types[i];
    WinnerPrevails(types, uri, i);
    assert t in multiset(reordered);
    var j :| 0 <= j < |reordered| && reordered[j] == t;
    WinnerPrevails(reordered, uri, j);
    forall k | StrictWinner(reordered, uri, k) ensures reordered[k] == t {
      UniqueWinner(reordered, uri, j, k);
    }
  }

  /** Reordering the declarations changes neither success nor the chosen type. */
  lemma OrderIrrelevant(types: seq<NodeType>, reordered: seq<NodeType>, uri: string)
    requires multiset(types) == multiset(reordered)
    ensures (exists i :: StrictWinner(types, uri, i)) <==> (exists j :: StrictWinner(reordered, uri, j))
    ensures forall i, j :: StrictWinner(types, uri, i) && StrictWinner(reordered, uri, j) ==> types[i] == reordered[j]
  {
    forall i | StrictWinner(types, uri, i)
      ensures exists j :: StrictWinner(reordered, uri, j)
      ensures forall j :: StrictWinner(reordered, uri, j) ==> reordered[j] == types[i]
    {
      WinnerReordered(types, reordered, uri, i);
    }
    forall j | StrictWinner(reordered, uri, j) ensures exists i :: StrictWinner(types, uri, i) {
      WinnerReordered(reordered, types, uri, j);
    }
  }
}
