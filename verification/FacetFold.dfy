/** The framework facet fold (facet_fold.go): a budgeted walk over a container
    graph that may share nodes, be cyclic, or be infinite, hoisting a histogram
    of facet values. */
module FacetFold {
  import opened Prelude

  const FACET_FOLD_VISIT_LIMIT: nat := 10000
  const FACET_FOLD_LIST_LIMIT: nat := 200

  datatype FacetValue = FacetValue(key: string, order: int)

  type Facets = map<string, seq<FacetValue>>

  /** A listed child; `uri` is None for Go's nil URL. */
  datatype Node = Node(uri: Option<string>, typeTag: string, facets: Facets)

  datatype Listing = Children(nodes: seq<Node>) | ListError

  /** ListRoots as a function of the URI string, and NodeTypeFor's Container
      flag (None for an unknown type tag). */
  datatype Lister = Lister(list: string -> Listing, containerFlag: string -> Option<bool>)

  // ---- Filter (facet.go) ----

  datatype FacetPredicate = FacetPredicate(dimension: string, value: string, prefixMatch: bool, foldCase: bool)

  predicate DateBucketMatches(key: string, bucket: string) {
    key == bucket || (|key| > |bucket| && key[..|bucket|] == bucket && key[|bucket|] == '-')
  }

  function FoldChar(c: char): char {
    if 'A' <= c <= 'Z' then (c as int + 32) as char else c
  }

  predicate EqualFold(a: string, b: string) {
    |a| == |b| && forall i :: 0 <= i < |a| ==> FoldChar(a[i]) == FoldChar(b[i])
  }

  predicate ValueMatches(p: FacetPredicate, key: string) {
    if p.prefixMatch then DateBucketMatches(key, p.value)
    else if p.foldCase then EqualFold(key, p.value)
    else key == p.value
  }

  predicate PredicateMatches(p: FacetPredicate, facets: Facets) {
    p.dimension in facets && exists v :: v in facets[p.dimension] && ValueMatches(p, v.key)
  }

  predicate Matches(filter: seq<FacetPredicate>, facets: Facets) {
    forall p :: p in filter ==> PredicateMatches(p, facets)
  }

  // ---- The graph ----

  /** What the walk reads: the lister, the filter and the declared dimensions. */
  datatype View = View(lister: Lister, filter: seq<FacetPredicate>, declared: set<string>)

  function Kids(l: Lister, c: string): seq<Node> {
    match l.list(c)
    case Children(nodes) => nodes
    case ListError => []
  }

  /** The container a child leads to, when the walk descends through it. */
  function Link(l: Lister, child: Node): Option<string> {
    if l.containerFlag(child.typeTag) == Some(true) then child.uri else None
  }

  ghost predicate Edge(l: Lister, a: string, b: string) {
    exists i :: 0 <= i < |Kids(l, a)| && l.containerFlag(Kids(l, a)[i].typeTag) == Some(true)
                && Kids(l, a)[i].uri == Some(b)
  }

  ghost predicate IsPath(l: Lister, path: seq<string>) {
    path != [] && forall i :: 0 <= i < |path| - 1 ==> Edge(l, path[i], path[i + 1])
  }

  ghost predicate Reachable(l: Lister, root: string, c: string) {
    exists path :: IsPath(l, path) && path[0] == root && path[|path| - 1] == c
  }

  ghost predicate AllReachable(l: Lister, root: string, s: set<string>) {
    forall c :: c in s ==> Reachable(l, root, c)
  }

  ghost predicate IsReachSet(l: Lister, root: string, r: set<string>) {
    forall c :: c in r <==> Reachable(l, root, c)
  }

  /** One listed child occurrence: position `1` in the listing of container `0`. */
  type Occurrence = (string, nat)

  ghost function Occurrences(l: Lister, s: set<string>): set<Occurrence> {
    set c, i | c in s && 0 <= i < |Kids(l, c)| :: (c, i)
  }

  /** Every finite set of reachable containers stays inside both limits. */
  ghost predicate WithinBudget(l: Lister, root: string) {
    forall s: set<string> :: AllReachable(l, root, s) ==>
      |s| <= FACET_FOLD_LIST_LIMIT && |Occurrences(l, s)| <= FACET_FOLD_VISIT_LIMIT
  }

  // ---- Reference histogram ----

  function CountKey(values: seq<FacetValue>, k: string): nat {
    if values == [] then 0
    else CountKey(values[..|values| - 1], k) + (if values[|values| - 1].key == k then 1 else 0)
  }

  predicate Carries(v: View, child: Node, d: string) {
    d in v.declared && d in child.facets && Matches(v.filter, child.facets)
  }

  function Weight(v: View, child: Node, d: string, k: string): nat {
    if Carries(v, child, d) then CountKey(child.facets[d], k) else 0
  }

  ghost predicate ValidOccurrence(l: Lister, o: Occurrence) {
    o.1 < |Kids(l, o.0)|
  }

  ghost function OccurrenceWeight(v: View, o: Occurrence, d: string, k: string): nat {
    if ValidOccurrence(v.lister, o) then Weight(v, Kids(v.lister, o.0)[o.1], d, k) else 0
  }

  ghost function Tally(v: View, s: set<Occurrence>, d: string, k: string): nat {
    if s == {} then 0
    else
      var o :| o in s;
      OccurrenceWeight(v, o, d, k) + Tally(v, s - {o}, d, k)
  }

  ghost predicate SomeCarries(v: View, s: set<Occurrence>, d: string) {
    exists o :: o in s && ValidOccurrence(v.lister, o) && Carries(v, Kids(v.lister, o.0)[o.1], d)
  }

  type Histogram = map<string, nat>
  type Summary = map<string, Histogram>

  /** `summary` is the histogram of exactly the occurrences in `s`: a dimension
      is present when some occurrence carries it, a key when its count is
      positive. */
  ghost predicate Sums(v: View, s: set<Occurrence>, summary: Summary) {
    forall d :: SumsAt(v, s, summary, d)
  }

  ghost predicate SumsAt(v: View, s: set<Occurrence>, summary: Summary, d: string) {
    && (d in summary <==> SomeCarries(v, s, d))
    && (d in summary ==> forall k :: CountIs(summary[d], k, Tally(v, s, d, k)))
  }

  ghost predicate CountIs(histogram: Histogram, k: string, n: nat) {
    (k in histogram <==> n > 0) && (k in histogram ==> histogram[k] == n)
  }

  // ---- Lemmas about the reference definitions ----

  lemma {:induction false} TallyRemove(v: View, s: set<Occurrence>, o: Occurrence, d: string, k: string)
    requires o in s
    ensures Tally(v, s, d, k) == OccurrenceWeight(v, o, d, k) + Tally(v, s - {o}, d, k)
    decreases |s|
  {
    var p :| p in s && Tally(v, s, d, k) == OccurrenceWeight(v, p, d, k) + Tally(v, s - {p}, d, k);
    if p != o {
      TallyRemove(v, s - {p}, o, d, k);
      TallyRemove(v, s - {o}, p, d, k);
      assert s - {p} - {o} == s - {o} - {p};
    }
  }

  lemma TallyAdd(v: View, s: set<Occurrence>, o: Occurrence, d: string, k: string)
    requires o !in s
    ensures Tally(v, s + {o}, d, k) == OccurrenceWeight(v, o, d, k) + Tally(v, s, d, k)
  {
    TallyRemove(v, s + {o}, o, d, k);
    assert s + {o} - {o} == s;
  }

  lemma {:induction false} TallyMonotone(v: View, s: set<Occurrence>, t: set<Occurrence>, d: string, k: string)
    requires s <= t
    ensures Tally(v, s, d, k) <= Tally(v, t, d, k)
    decreases |s|
  {
    if s != {} {
      var o :| o in s;
      TallyRemove(v, s, o, d, k);
      TallyRemove(v, t, o, d, k);
      TallyMonotone(v, s - {o}, t - {o}, d, k);
    }
  }

  lemma ReachableSelf(l: Lister, root: string)
    ensures Reachable(l, root, root)
  {
    assert IsPath(l, [root]) && [root][0] == root && [root][|[root]| - 1] == root;
  }

  lemma ReachableStep(l: Lister, root: string, a: string, b: string)
    requires Reachable(l, root, a) && Edge(l, a, b)
    ensures Reachable(l, root, b)
  {
    var path :| IsPath(l, path) && path[0] == root && path[|path| - 1] == a;
    var longer := path + [b];
    assert IsPath(l, longer) && longer[0] == root && longer[|longer| - 1] == b;
  }

  /** A set that holds the root and is closed under edges holds everything reachable. */
  lemma {:induction false} ClosedCoversReachable(l: Lister, root: string, s: set<string>, path: seq<string>)
    requires root in s && IsPath(l, path) && path[0] == root
    requires forall a, b :: a in s && Edge(l, a, b) ==> b in s
    ensures path[|path| - 1] in s
    decreases |path|
  {
    if |path| > 1 {
      var prefix := path[..|path| - 1];
      assert IsPath(l, prefix);
      ClosedCoversReachable(l, root, s, prefix);
      assert Edge(l, path[|path| - 2], path[|path| - 1]);
    }
  }

  lemma SubsetCard<T>(s: set<T>, t: set<T>)
    requires s <= t
    ensures |s| <= |t|
    ensures s != t ==> |s| < |t|
  {
    assert t == s + (t - s) && |t| == |s| + |t - s|;
  }

  /** When the reachable set is finite, the budget is a condition on that set alone. */
  lemma BudgetByReachSet(l: Lister, root: string, r: set<string>)
    requires IsReachSet(l, root, r)
    ensures WithinBudget(l, root) <==>
            |r| <= FACET_FOLD_LIST_LIMIT && |Occurrences(l, r)| <= FACET_FOLD_VISIT_LIMIT
  {
    assert AllReachable(l, root, r);
    forall s: set<string> | AllReachable(l, root, s)
      ensures |s| <= |r| && |Occurrences(l, s)| <= |Occurrences(l, r)|
    {
      assert s <= r;
      SubsetCard(s, r);
      assert Occurrences(l, s) <= Occurrences(l, r);
      SubsetCard(Occurrences(l, s), Occurrences(l, r));
    }
  }

  // ---- The walk ----

  /** Every child of `c` was visited and every container it links to was walked. */
  ghost predicate Done(l: Lister, seen: set<Occurrence>, walked: set<string>, c: string) {
    && (forall i: nat :: i < |Kids(l, c)| ==> (c, i) in seen)
    && (forall b :: Edge(l, c, b) ==> b in walked)
  }

  /** Between two points of a walk: the containers walked since `walked0`, other
      than `open`, are done, and nothing new was visited inside the older ones. */
  ghost predicate Settled(l: Lister, walked0: set<string>, seen0: set<Occurrence>,
                          walked: set<string>, seen: set<Occurrence>, open: set<string>)
  {
    && walked0 <= walked && seen0 <= seen
    && (forall c :: c in walked - walked0 - open ==> Done(l, seen, walked, c))
    && (forall o :: o in seen - seen0 ==> o.0 !in walked0)
  }

  lemma SettledVisit(l: Lister, walked0: set<string>, seen0: set<Occurrence>, walked: set<string>,
                     seen: set<Occurrence>, node: string, i: nat)
    requires Settled(l, walked0, seen0, walked, seen, {node}) && node !in walked0
    ensures Settled(l, walked0, seen0, walked, seen + {(node, i)}, {node})
  {
  }

  lemma SettledTransitive(l: Lister, walked0: set<string>, seen0: set<Occurrence>,
                          walked1: set<string>, seen1: set<Occurrence>,
                          walked2: set<string>, seen2: set<Occurrence>, open: set<string>)
    requires Settled(l, walked0, seen0, walked1, seen1, open)
    requires Settled(l, walked1, seen1, walked2, seen2, {})
    ensures Settled(l, walked0, seen0, walked2, seen2, open)
  {
    forall c | c in walked2 - walked0 - open ensures Done(l, seen2, walked2, c) {
      if c in walked1 {
        assert Done(l, seen1, walked1, c);
      } else {
        assert c in walked2 - walked1 - {};
      }
    }
  }

  /** Exactly the first `n` children of `node` were visited, and their links walked. */
  ghost predicate Prefix(l: Lister, node: string, n: nat, walked: set<string>, seen: set<Occurrence>) {
    && (forall i: nat :: (node, i) in seen <==> i < n)
    && (forall i: nat :: i < n && i < |Kids(l, node)| && Link(l, Kids(l, node)[i]).Some? ==>
          Link(l, Kids(l, node)[i]).value in walked)
  }

  lemma PrefixStep(l: Lister, node: string, n: nat, walked1: set<string>, seen1: set<Occurrence>,
                   walked2: set<string>, seen2: set<Occurrence>)
    requires n < |Kids(l, node)| && Prefix(l, node, n, walked1, seen1 - {(node, n)})
    requires node in walked1 && (node, n) in seen1
    requires walked1 <= walked2 && seen1 <= seen2 && forall o :: o in seen2 - seen1 ==> o.0 !in walked1
    requires Link(l, Kids(l, node)[n]).Some? ==> Link(l, Kids(l, node)[n]).value in walked2
    ensures Prefix(l, node, n + 1, walked2, seen2)
  {
  }

  lemma SettledClose(l: Lister, walked0: set<string>, seen0: set<Occurrence>, walked: set<string>,
                     seen: set<Occurrence>, node: string)
    requires Settled(l, walked0, seen0, walked, seen, {node})
    requires Done(l, seen, walked, node)
    ensures Settled(l, walked0, seen0, walked, seen, {})
  {
  }

  datatype FoldError = ListRootsFailed(container: string) | ContextDone(poll: nat)

  class Fold {
    const view: View
    // ctx.Err() at the n-th poll
    const cancelled: nat -> bool
    ghost const root: string

    var summary: Summary
    var walked: set<string>
    var visited: nat
    var listed: nat
    var truncated: bool
    var polls: nat
    // the containers ListRoots was called for, and the occurrences visited
    ghost var expanded: set<string>
    ghost var seen: set<Occurrence>

    ghost predicate Valid()
      reads this
    {
      && |expanded| == listed <= FACET_FOLD_LIST_LIMIT
      && |seen| == visited <= FACET_FOLD_VISIT_LIMIT
      && expanded <= walked
      && (!truncated ==> walked == expanded)
      && (truncated ==> |walked| > FACET_FOLD_LIST_LIMIT || |Occurrences(view.lister, walked)| > FACET_FOLD_VISIT_LIMIT)
      && AllReachable(view.lister, root, walked)
      && (forall c :: c in expanded ==> view.lister.list(c).Children?)
      && seen <= Occurrences(view.lister, expanded)
      && Sums(view, seen, summary)
    }

    /** The two budgets, kept whether or not the walk fails. */
    ghost predicate InLimits()
      reads this
    {
      listed <= FACET_FOLD_LIST_LIMIT && visited <= FACET_FOLD_VISIT_LIMIT
    }

    constructor (view: View, cancelled: nat -> bool, ghost root: string)
      ensures Valid() && this.view == view && this.cancelled == cancelled && this.root == root
      ensures walked == {} && seen == {} && !truncated && polls == 0
    {
      this.view := view;
      this.cancelled := cancelled;
      this.root := root;
      summary, walked, visited, listed, truncated, polls := map[], {}, 0, 0, false, 0;
      expanded, seen := {}, {};
    }

    /** Adds one node's declared facet membership to the summary. */
    method Lift(child: Node)
      modifies this`summary
      ensures LiftedAll(view, child, old(summary), summary)
    {
      var pending := child.facets.Keys;
      while pending != {}
        invariant pending <= child.facets.Keys
        invariant forall d :: LiftedAt(old(summary), child, (child.facets.Keys - pending) * view.declared, summary, d)
        decreases pending
      {
        ghost var before, done := summary, (child.facets.Keys - pending) * view.declared;
        var dimension :| dimension in pending;
        pending := pending - {dimension};
        if dimension in view.declared {
          var start := if dimension in summary then summary[dimension] else map[];
          var histogram := AddValues(start, child.facets[dimension]);
          summary := summary[dimension := histogram];
        }
        forall d ensures LiftedAt(old(summary), child, (child.facets.Keys - pending) * view.declared, summary, d) {
          assert LiftedAt(old(summary), child, done, before, d);
        }
      }
      assert child.facets.Keys - {} == child.facets.Keys;
    }

    /** One child inside the visit budget: count it, and lift it when it matches. */
    method Visit(ghost node: string, ghost n: nat, child: Node)
      requires Valid() && !truncated && visited < FACET_FOLD_VISIT_LIMIT
      requires node in expanded && n < |Kids(view.lister, node)| && Kids(view.lister, node)[n] == child
      requires (node, n) !in seen
      modifies this`visited, this`summary, this`seen
      ensures Valid() && seen == old(seen) + {(node, n)}
    {
      visited := visited + 1;
      if Matches(view.filter, child.facets) {
        Lift(child);
      }
      SumsStep(view, old(seen), (node, n), old(summary), summary);
      seen := seen + {(node, n)};
    }

    /** Marks `node` walked and lists it, unless the list budget is spent. */
    method Enter(node: string) returns (listing: Listing)
      requires Valid() && !truncated && Reachable(view.lister, root, node) && node !in walked
      modifies this`walked, this`listed, this`truncated, this`expanded
      ensures InLimits() && (truncated || listing.Children? ==> Valid())
      ensures walked == old(walked) + {node}
      ensures truncated <==> old(listed) >= FACET_FOLD_LIST_LIMIT
      ensures truncated ==> listed == old(listed)
      ensures !truncated ==> listing == view.lister.list(node) && listed == old(listed) + 1
      ensures expanded == if !truncated && listing.Children? then old(expanded) + {node} else old(expanded)
    {
      walked := walked + {node};
      assert Occurrences(view.lister, expanded) <= Occurrences(view.lister, expanded + {node});
      if listed >= FACET_FOLD_LIST_LIMIT {
        truncated := true;
        return ListError;
      }
      listed := listed + 1;
      listing := view.lister.list(node);
      if listing.Children? {
        expanded := expanded + {node};
      }
    }

    /** The visit budget is spent with a child left over. */
    method StopVisiting(ghost node: string, ghost n: nat)
      requires Valid() && !truncated && visited >= FACET_FOLD_VISIT_LIMIT
      requires node in expanded && n < |Kids(view.lister, node)| && (node, n) !in seen
      modifies this`truncated
      ensures Valid() && truncated
    {
      OverVisitLimit(node, n);
      truncated := true;
    }

    /** Walks the subtree under `node`. Without failure and truncation it leaves
        every container it added fully visited, and closed under links. */
    method Walk(node: string) returns (failure: Option<FoldError>)
      requires Valid() && !truncated && Reachable(view.lister, root, node)
      modifies this
      ensures InLimits() && (failure.None? ==> Valid())
      ensures listed >= old(listed)
      ensures old(expanded) <= expanded
      ensures failure.None? && !truncated ==>
                node in walked && Settled(view.lister, old(walked), old(seen), walked, seen, {})
      ensures failure.Some? ==> Explains(failure.value)
      decreases FACET_FOLD_LIST_LIMIT - listed, 0
    {
      if node in walked {
        return None;
      }
      var listing := Enter(node);
      if truncated {
        return None;
      }
      if listing.ListError? {
        return Some(ListRootsFailed(node));
      }
      var children := listing.nodes;
      for n := 0 to |children|
        invariant Valid() && !truncated
        invariant node in expanded && old(expanded) <= expanded && listed > old(listed)
        invariant Settled(view.lister, old(walked), old(seen), walked, seen, {node})
        invariant Prefix(view.lister, node, n, walked, seen)
      {
        failure := WalkChild(node, n, children[n], old(walked), old(seen));
        if failure.Some? || truncated {
          return;
        }
      }
      SettledClose(view.lister, old(walked), old(seen), walked, seen, node);
      return None;
    }

    /** Polls the context and spends one visit on the child. */
    method VisitNext(ghost node: string, ghost n: nat, child: Node, ghost walked0: set<string>,
                     ghost seen0: set<Occurrence>)
      returns (failure: Option<FoldError>)
      requires Valid() && !truncated && node in expanded && node !in walked0
      requires n < |Kids(view.lister, node)| && Kids(view.lister, node)[n] == child
      requires Settled(view.lister, walked0, seen0, walked, seen, {node})
      requires (node, n) !in seen
      modifies this`polls, this`truncated, this`visited, this`summary, this`seen
      ensures InLimits() && (failure.None? ==> Valid())
      ensures failure.None? && !truncated ==>
                && (node, n) in seen && seen - {(node, n)} == old(seen)
                && Settled(view.lister, walked0, seen0, walked, seen, {node})
      ensures failure.Some? ==> Explains(failure.value)
    {
      var poll := polls;
      polls := polls + 1;
      if cancelled(poll) {
        return Some(ContextDone(poll));
      }
      if visited >= FACET_FOLD_VISIT_LIMIT {
        StopVisiting(node, n);
        return None;
      }
      SettledVisit(view.lister, walked0, seen0, walked, seen, node, n);
      Visit(node, n, child);
      return None;
    }

    /** One iteration of the walk's loop: poll the context, spend one visit, descend. */
    method WalkChild(node: string, n: nat, child: Node, ghost walked0: set<string>, ghost seen0: set<Occurrence>)
      returns (failure: Option<FoldError>)
      requires Valid() && !truncated && node in expanded && node !in walked0
      requires n < |Kids(view.lister, node)| && Kids(view.lister, node)[n] == child
      requires Settled(view.lister, walked0, seen0, walked, seen, {node})
      requires Prefix(view.lister, node, n, walked, seen)
      modifies this
      ensures InLimits() && (failure.None? ==> Valid())
      ensures listed >= old(listed) && old(expanded) <= expanded
      ensures failure.None? && !truncated ==>
                && Settled(view.lister, walked0, seen0, walked, seen, {node})
                && Prefix(view.lister, node, n + 1, walked, seen)
      ensures failure.Some? ==> Explains(failure.value)
      decreases FACET_FOLD_LIST_LIMIT - listed, 1
    {
      failure := VisitNext(node, n, child, walked0, seen0);
      if failure.Some? || truncated {
        return;
      }
      ghost var walked1, seen1 := walked, seen;
      var target := Link(view.lister, child);
      if target.Some? {
        assert Edge(view.lister, node, target.value);
        ReachableStep(view.lister, root, node, target.value);
        failure := Walk(target.value);
        if failure.Some? || truncated {
          return;
        }
        SettledTransitive(view.lister, walked0, seen0, walked1, seen1, walked, seen, {node});
      }
      PrefixStep(view.lister, node, n, walked1, seen1, walked, seen);
      return None;
    }

    /** A failure is a listing error of a reachable container, or a cancelled context. */
    ghost predicate Explains(failure: FoldError) {
      match failure
      case ListRootsFailed(c) => Reachable(view.lister, root, c) && view.lister.list(c).ListError?
      case ContextDone(poll) => cancelled(poll)
    }

    lemma OverVisitLimit(node: string, n: nat)
      requires |seen| == FACET_FOLD_VISIT_LIMIT && seen <= Occurrences(view.lister, expanded) && expanded <= walked
      requires node in expanded && n < |Kids(view.lister, node)| && (node, n) !in seen
      ensures |Occurrences(view.lister, walked)| > FACET_FOLD_VISIT_LIMIT
    {
      var all := Occurrences(view.lister, walked);
      assert seen + {(node, n)} <= all;
      SubsetCard(seen + {(node, n)}, all);
    }
  }

  ghost predicate IsLifted(before: Histogram, values: seq<FacetValue>, after: Histogram) {
    && (forall k :: k in after <==> k in before || CountKey(values, k) > 0)
    && (forall k :: k in after ==> after[k] == (if k in before then before[k] else 0) + CountKey(values, k))
  }

  method AddValues(start: Histogram, values: seq<FacetValue>) returns (histogram: Histogram)
    ensures IsLifted(start, values, histogram)
  {
    histogram := start;
    for i := 0 to |values|
      invariant IsLifted(start, values[..i], histogram)
    {
      var k := values[i].key;
      assert values[..i + 1][..i] == values[..i];
      histogram := histogram[k := (if k in histogram then histogram[k] else 0) + 1];
    }
    assert values[..|values|] == values;
  }

  /** Dimension `d` of `after`: lifted from `before` when in `lifted`, unchanged otherwise. */
  ghost predicate LiftedAt(before: Summary, child: Node, lifted: set<string>, after: Summary, d: string)
    requires lifted <= child.facets.Keys
  {
    if d in lifted then
      d in after && IsLifted(if d in before then before[d] else map[], child.facets[d], after[d])
    else
      (d in after <==> d in before) && (d in after ==> after[d] == before[d])
  }

  ghost predicate LiftedAll(v: View, child: Node, before: Summary, after: Summary) {
    forall d :: LiftedAt(before, child, child.facets.Keys * v.declared, after, d)
  }

  ghost predicate LiftedFrom(v: View, child: Node, before: Summary, after: Summary) {
    if Matches(v.filter, child.facets) then
      LiftedAll(v, child, before, after)
    else after == before
  }

  lemma SumsStep(v: View, s: set<Occurrence>, o: Occurrence, before: Summary, after: Summary)
    requires o !in s && ValidOccurrence(v.lister, o) && Sums(v, s, before)
    requires LiftedFrom(v, Kids(v.lister, o.0)[o.1], before, after)
    ensures Sums(v, s + {o}, after)
  {
    forall d ensures SumsAt(v, s + {o}, after, d) {
      SumsStepAt(v, s, o, before, after, d);
    }
  }

  lemma SumsStepAt(v: View, s: set<Occurrence>, o: Occurrence, before: Summary, after: Summary, d: string)
    requires o !in s && ValidOccurrence(v.lister, o) && SumsAt(v, s, before, d)
    requires LiftedFrom(v, Kids(v.lister, o.0)[o.1], before, after)
    ensures SumsAt(v, s + {o}, after, d)
  {
    var child := Kids(v.lister, o.0)[o.1];
    SomeCarriesAdd(v, s, o, d);
    if Matches(v.filter, child.facets) {
      assert LiftedAt(before, child, child.facets.Keys * v.declared, after, d);
    }
    if d in after {
      forall k ensures CountIs(after[d], k, Tally(v, s + {o}, d, k)) {
        TallyAdd(v, s, o, d, k);
        if d !in before { NoneCarriesNoTally(v, s, d, k); } else { assert CountIs(before[d], k, Tally(v, s, d, k)); }
      }
    }
  }

  lemma SomeCarriesAdd(v: View, s: set<Occurrence>, o: Occurrence, d: string)
    requires ValidOccurrence(v.lister, o)
    ensures SomeCarries(v, s + {o}, d) <==> SomeCarries(v, s, d) || Carries(v, Kids(v.lister, o.0)[o.1], d)
  {
  }

  lemma {:induction false} NoneCarriesNoTally(v: View, s: set<Occurrence>, d: string, k: string)
    requires !SomeCarries(v, s, d)
    ensures Tally(v, s, d, k) == 0
    decreases |s|
  {
    if s != {} {
      var o :| o in s;
      TallyRemove(v, s, o, d, k);
      NoneCarriesNoTally(v, s - {o}, d, k);
    }
  }

  // ---- FoldFacets ----

  datatype FacetResult = FacetResult(summary: Summary, complete: bool)

  datatype FoldOutcome = Declined | Failed(error: FoldError) | Folded(result: FacetResult)

  datatype NodeTypeFacets = NodeTypeFacets(tag: string, dimensions: seq<string>)

  function DeclaredKeys(dims: seq<NodeTypeFacets>): set<string> {
    set t, d | t in dims && d in t.dimensions :: d
  }

  function CountOf(summary: Summary, d: string, k: string): nat {
    if d in summary && k in summary[d] then summary[d][k] else 0
  }

  /** `summary` is the histogram of every occurrence listed by a container reachable from `root`. */
  ghost predicate Exact(v: View, root: string, summary: Summary) {
    exists reach :: IsReachSet(v.lister, root, reach) && Sums(v, Occurrences(v.lister, reach), summary)
  }

  /** The fold itself; `describe` is None for a lister that is no FacetDescriber. */
  method FoldFacets(lister: Lister, describe: Option<seq<NodeTypeFacets>>, node: string,
                    filter: seq<FacetPredicate>, cancelled: nat -> bool)
    returns (outcome: FoldOutcome)
    ensures outcome.Declined? <==> describe.None? || DeclaredKeys(describe.value) == {}
    ensures outcome.Failed? ==>
              (exists c :: Reachable(lister, node, c) && lister.list(c).ListError?) || (exists poll :: cancelled(poll))
    ensures outcome.Folded? ==> (outcome.result.complete <==> WithinBudget(lister, node))
    ensures outcome.Folded? && outcome.result.complete ==>
              Exact(View(lister, filter, DeclaredKeys(describe.value)), node, outcome.result.summary)
    ensures outcome.Folded? && outcome.result.complete ==>
              forall c :: Reachable(lister, node, c) ==> lister.list(c).Children?
    ensures outcome.Folded? ==> outcome.result.summary.Keys <= DeclaredKeys(describe.value)
    ensures outcome.Folded? ==> forall reach, d, k :: IsReachSet(lister, node, reach) ==>
              CountOf(outcome.result.summary, d, k)
              <= Tally(View(lister, filter, DeclaredKeys(describe.value)), Occurrences(lister, reach), d, k)
  {
    if describe.None? {
      return Declined;
    }
    var declared := DeclaredKeys(describe.value);
    if declared == {} {
      return Declined;
    }
    var fold := new Fold(View(lister, filter, declared), cancelled, node);
    ReachableSelf(lister, node);
    var failure := fold.Walk(node);
    if failure.Some? {
      return Failed(failure.value);
    }
    FoldMeaning(fold.view, node, fold.walked, fold.seen, fold.summary);
    if fold.truncated {
      assert AllReachable(lister, node, fold.walked);
    } else {
      WalkedIsExact(fold.view, node, fold.walked, fold.seen, fold.summary);
    }
    outcome := Folded(FacetResult(fold.summary, !fold.truncated));
  }

  lemma FoldMeaning(v: View, root: string, walked: set<string>, seen: set<Occurrence>, summary: Summary)
    requires AllReachable(v.lister, root, walked) && seen <= Occurrences(v.lister, walked) && Sums(v, seen, summary)
    ensures summary.Keys <= v.declared
    ensures forall reach, d, k :: IsReachSet(v.lister, root, reach) ==>
              CountOf(summary, d, k) <= Tally(v, Occurrences(v.lister, reach), d, k)
  {
    forall d | d in summary ensures d in v.declared { assert SumsAt(v, seen, summary, d); }
    forall reach, d, k | IsReachSet(v.lister, root, reach)
      ensures CountOf(summary, d, k) <= Tally(v, Occurrences(v.lister, reach), d, k)
    {
      assert walked <= reach;
      assert Occurrences(v.lister, walked) <= Occurrences(v.lister, reach);
      TallyMonotone(v, seen, Occurrences(v.lister, reach), d, k);
      assert SumsAt(v, seen, summary, d);
      if d in summary { assert CountIs(summary[d], k, Tally(v, seen, d, k)); }
    }
  }

  lemma WalkedIsExact(v: View, root: string, walked: set<string>, seen: set<Occurrence>, summary: Summary)
    requires AllReachable(v.lister, root, walked) && root in walked && Sums(v, seen, summary)
    requires seen <= Occurrences(v.lister, walked) && Settled(v.lister, {}, {}, walked, seen, {})
    requires |walked| <= FACET_FOLD_LIST_LIMIT && |seen| <= FACET_FOLD_VISIT_LIMIT
    ensures Exact(v, root, summary) && WithinBudget(v.lister, root) && IsReachSet(v.lister, root, walked)
  {
    forall c | c in walked ensures Done(v.lister, seen, walked, c) {
      assert c in walked - {} - {};
    }
    forall o | o in Occurrences(v.lister, walked) ensures o in seen {
      assert Done(v.lister, seen, walked, o.0);
    }
    assert seen == Occurrences(v.lister, walked);
    forall a, b | a in walked && Edge(v.lister, a, b) ensures b in walked {
      assert Done(v.lister, seen, walked, a);
    }
    forall c | Reachable(v.lister, root, c) ensures c in walked {
      var path :| IsPath(v.lister, path) && path[0] == root && path[|path| - 1] == c;
      ClosedCoversReachable(v.lister, root, walked, path);
    }
    assert IsReachSet(v.lister, root, walked);
    BudgetByReachSet(v.lister, root, walked);
  }

  // ---- Independence of child order ----

  /** The two listers list the same children under every container, in any order. */
  ghost predicate SameUpToOrder(l1: Lister, l2: Lister) {
    && (forall t :: l1.containerFlag(t) == l2.containerFlag(t))
    && (forall c :: multiset(Kids(l1, c)) == multiset(Kids(l2, c)))
  }

  lemma SameChildren(l1: Lister, l2: Lister, c: string)
    requires SameUpToOrder(l1, l2)
    ensures |Kids(l1, c)| == |Kids(l2, c)|
    ensures forall child :: child in Kids(l1, c) <==> child in Kids(l2, c)
  {
    assert multiset(Kids(l1, c)) == multiset(Kids(l2, c));
    assert |multiset(Kids(l1, c))| == |multiset(Kids(l2, c))|;
    forall child ensures child in Kids(l1, c) <==> child in Kids(l2, c) {
      assert child in Kids(l1, c) <==> child in multiset(Kids(l1, c));
    }
  }

  lemma SameReachable(l1: Lister, l2: Lister, root: string, c: string)
    requires SameUpToOrder(l1, l2)
    ensures Reachable(l1, root, c) ==> Reachable(l2, root, c)
  {
    if Reachable(l1, root, c) {
      var path :| IsPath(l1, path) && path[0] == root && path[|path| - 1] == c;
      forall i | 0 <= i < |path| - 1 ensures Edge(l2, path[i], path[i + 1]) {
        SameEdge(l1, l2, path[i], path[i + 1]);
      }
    }
  }

  lemma SameEdge(l1: Lister, l2: Lister, a: string, b: string)
    requires SameUpToOrder(l1, l2) && Edge(l1, a, b)
    ensures Edge(l2, a, b)
  {
    SameChildren(l1, l2, a);
    var n :| 0 <= n < |Kids(l1, a)| && l1.containerFlag(Kids(l1, a)[n].typeTag) == Some(true)
        && Kids(l1, a)[n].uri == Some(b);
    assert Kids(l1, a)[n] in Kids(l2, a);
  }

  lemma SameOccurrences(l1: Lister, l2: Lister, s: set<string>)
    requires SameUpToOrder(l1, l2)
    ensures Occurrences(l1, s) == Occurrences(l2, s)
  {
    forall c ensures |Kids(l1, c)| == |Kids(l2, c)| { SameChildren(l1, l2, c); }
  }

  /** Whether a fold is complete does not depend on the order children are listed in. */
  lemma ChildOrderBudget(l1: Lister, l2: Lister, root: string)
    requires SameUpToOrder(l1, l2)
    ensures WithinBudget(l1, root) <==> WithinBudget(l2, root)
  {
    assert SameUpToOrder(l2, l1);
    forall s: set<string> ensures AllReachable(l1, root, s) <==> AllReachable(l2, root, s) {
      forall c ensures Reachable(l1, root, c) <==> Reachable(l2, root, c) {
        SameReachable(l1, l2, root, c);
        SameReachable(l2, l1, root, c);
      }
    }
    forall s: set<string> ensures Occurrences(l1, s) == Occurrences(l2, s) { SameOccurrences(l1, l2, s); }
  }

  function KidsWeight(v: View, kids: seq<Node>, d: string, k: string): nat {
    if kids == [] then 0
    else KidsWeight(v, kids[..|kids| - 1], d, k) + Weight(v, kids[|kids| - 1], d, k)
  }

  lemma {:induction false} KidsWeightRemove(v: View, kids: seq<Node>, i: nat, d: string, k: string)
    requires i < |kids|
    ensures KidsWeight(v, kids, d, k) == KidsWeight(v, kids[..i] + kids[i + 1..], d, k) + Weight(v, kids[i], d, k)
    decreases |kids|
  {
    var m := |kids| - 1;
    var rest := kids[..i] + kids[i + 1..];
    if i < m {
      KidsWeightRemove(v, kids[..m], i, d, k);
      assert rest[..|rest| - 1] == kids[..m][..i] + kids[..m][i + 1..];
      assert rest[|rest| - 1] == kids[m];
    } else {
      assert rest == kids[..m];
    }
  }

  lemma MultisetWithout<T>(s: seq<T>, i: nat)
    requires i < |s|
    ensures multiset(s[..i] + s[i + 1..]) == multiset(s) - multiset{s[i]}
  {
    assert s == s[..i] + [s[i]] + s[i + 1..];
  }

  lemma {:induction false} KidsWeightPermutation(v: View, a: seq<Node>, b: seq<Node>, d: string, k: string)
    requires multiset(a) == multiset(b)
    ensures KidsWeight(v, a, d, k) == KidsWeight(v, b, d, k)
    decreases |a|
  {
    if a == [] {
      assert |multiset(b)| == 0;
    } else {
      var m := |a| - 1;
      assert a[m] in multiset(a);
      assert a[m] in b;
      var i :| 0 <= i < |b| && b[i] == a[m];
      KidsWeightRemove(v, b, i, d, k);
      MultisetWithout(a, m);
      MultisetWithout(b, i);
      assert a[..m] + a[m + 1..] == a[..m];
      KidsWeightPermutation(v, a[..m], b[..i] + b[i + 1..], d, k);
    }
  }

  ghost function OccurrencesOf(c: string, n: nat): set<Occurrence> {
    set i: nat | i < n :: (c, i)
  }

  lemma {:induction false} TallyOfOne(v: View, s: set<Occurrence>, c: string, n: nat, d: string, k: string)
    requires n <= |Kids(v.lister, c)|
    requires forall i: nat :: (c, i) !in s
    ensures Tally(v, s + OccurrencesOf(c, n), d, k) == Tally(v, s, d, k) + KidsWeight(v, Kids(v.lister, c)[..n], d, k)
  {
    var kids := Kids(v.lister, c);
    if n == 0 {
      assert s + OccurrencesOf(c, 0) == s;
    } else {
      TallyOfOne(v, s, c, n - 1, d, k);
      assert s + OccurrencesOf(c, n) == s + OccurrencesOf(c, n - 1) + {(c, n - 1)};
      TallyAdd(v, s + OccurrencesOf(c, n - 1), (c, n - 1), d, k);
      assert kids[..n][..n - 1] == kids[..n - 1];
    }
  }

  lemma {:induction false} ChildOrderTally(v1: View, v2: View, s: set<string>, d: string, k: string)
    requires SameUpToOrder(v1.lister, v2.lister) && v1.filter == v2.filter && v1.declared == v2.declared
    ensures Tally(v1, Occurrences(v1.lister, s), d, k) == Tally(v2, Occurrences(v2.lister, s), d, k)
    decreases |s|
  {
    if s == {} {
      assert Occurrences(v1.lister, s) == {} == Occurrences(v2.lister, s);
    } else {
      var c :| c in s;
      ChildOrderTally(v1, v2, s - {c}, d, k);
      TallySplit(v1, s, c, d, k);
      TallySplit(v2, s, c, d, k);
      KidsWeightPermutation(v1, Kids(v1.lister, c), Kids(v2.lister, c), d, k);
      KidsWeightSameView(v1, v2, Kids(v2.lister, c), d, k);
    }
  }

  lemma TallySplit(v: View, s: set<string>, c: string, d: string, k: string)
    requires c in s
    ensures Tally(v, Occurrences(v.lister, s), d, k)
            == Tally(v, Occurrences(v.lister, s - {c}), d, k) + KidsWeight(v, Kids(v.lister, c), d, k)
  {
    var n := |Kids(v.lister, c)|;
    assert Occurrences(v.lister, s) == Occurrences(v.lister, s - {c}) + OccurrencesOf(c, n);
    TallyOfOne(v, Occurrences(v.lister, s - {c}), c, n, d, k);
    assert Kids(v.lister, c)[..n] == Kids(v.lister, c);
  }

  lemma KidsWeightSameView(v1: View, v2: View, kids: seq<Node>, d: string, k: string)
    requires v1.filter == v2.filter && v1.declared == v2.declared
    ensures KidsWeight(v1, kids, d, k) == KidsWeight(v2, kids, d, k)
  {
  }

  /** Two complete folds over the same tree, listed in different orders, give the same summary. */
  lemma ChildOrderIrrelevant(v1: View, v2: View, root: string, s1: Summary, s2: Summary)
    requires SameUpToOrder(v1.lister, v2.lister) && v1.filter == v2.filter && v1.declared == v2.declared
    requires Exact(v1, root, s1) && Exact(v2, root, s2)
    ensures s1 == s2
  {
    var r1 :| IsReachSet(v1.lister, root, r1) && Sums(v1, Occurrences(v1.lister, r1), s1);
    var r2 :| IsReachSet(v2.lister, root, r2) && Sums(v2, Occurrences(v2.lister, r2), s2);
    assert SameUpToOrder(v2.lister, v1.lister);
    forall c ensures Reachable(v1.lister, root, c) <==> Reachable(v2.lister, root, c) {
      SameReachable(v1.lister, v2.lister, root, c);
      SameReachable(v2.lister, v1.lister, root, c);
    }
    assert r1 == r2;
    var o1, o2 := Occurrences(v1.lister, r1), Occurrences(v2.lister, r2);
    forall d ensures d in s1 <==> d in s2 {
      assert SumsAt(v1, o1, s1, d) && SumsAt(v2, o2, s2, d);
      ChildOrderCarries(v1, v2, r1, d);
      ChildOrderCarries(v2, v1, r1, d);
    }
    forall d | d in s1 ensures s1[d] == s2[d] {
      assert SumsAt(v1, o1, s1, d) && SumsAt(v2, o2, s2, d);
      forall k ensures (k in s1[d] <==> k in s2[d]) && (k in s1[d] ==> s1[d][k] == s2[d][k]) {
        ChildOrderTally(v1, v2, r1, d, k);
        assert CountIs(s1[d], k, Tally(v1, o1, d, k)) && CountIs(s2[d], k, Tally(v2, o2, d, k));
      }
    }
  }

  lemma ChildOrderCarries(v1: View, v2: View, s: set<string>, d: string)
    requires SameUpToOrder(v1.lister, v2.lister) && v1.filter == v2.filter && v1.declared == v2.declared
    ensures SomeCarries(v1, Occurrences(v1.lister, s), d) ==> SomeCarries(v2, Occurrences(v2.lister, s), d)
  {
    if SomeCarries(v1, Occurrences(v1.lister, s), d) {
      var o :| o in Occurrences(v1.lister, s) && ValidOccurrence(v1.lister, o)
          && Carries(v1, Kids(v1.lister, o.0)[o.1], d);
      var child := Kids(v1.lister, o.0)[o.1];
      SameChildren(v1.lister, v2.lister, o.0);
      assert child in Kids(v2.lister, o.0);
      var i: nat :| i < |Kids(v2.lister, o.0)| && Kids(v2.lister, o.0)[i] == child;
      assert (o.0, i) in Occurrences(v2.lister, s);
    }
  }
}
