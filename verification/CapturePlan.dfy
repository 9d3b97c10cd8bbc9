/** Splitting capture arguments into store groups (plan.go). Classification,
    source validation, path cleaning and notices come from a Host. */
module CapturePlan {
  import opened Prelude

  datatype Url = Url(path: string, opaquePart: string)

  datatype Classified = Failed(err: string) | Capture(plugin: string, url: Url) | Store(id: string)

  datatype Root = Root(path: string, plugin: string, url: Option<Url>, shadowNotice: string)

  datatype Group = Group(storeID: string, switchNotice: string, roots: seq<Root>)

  datatype Failure = Failure(arg: string, err: string)

  datatype PlanError = EmptyStore(id: string) | Collision(first: string, second: string, key: string) | NothingUsable

  datatype Plan = Plan(groups: seq<Group>, failures: seq<Failure>, err: Option<PlanError>)

  datatype Host = Host(classify: string -> Classified,
                       invalid: (string, Url, string) -> Option<string>,
                       clean: string -> string,
                       shadow: string -> string,
                       notice: string -> string,
                       defaultPlugin: string)

  // ---- Root collisions ----

  function CanonicalRootKey(host: Host, r: Root): string {
    match r.url
    case None => host.clean(r.path)
    case Some(url) => if url.path != "" then host.clean(url.path) else host.clean(url.opaquePart)
  }

  predicate DistinctKeys(host: Host, roots: seq<Root>) {
    forall i, j :: 0 <= i < j < |roots| ==> CanonicalRootKey(host, roots[i]) != CanonicalRootKey(host, roots[j])
  }

  /** `j` is the first root whose key an earlier root, `i`, has. */
  predicate FirstCollision(host: Host, roots: seq<Root>, i: nat, j: nat, e: PlanError) {
    && i < j < |roots| && DistinctKeys(host, roots[..j])
    && CanonicalRootKey(host, roots[i]) == CanonicalRootKey(host, roots[j])
    && e == Collision(roots[i].path, roots[j].path, CanonicalRootKey(host, roots[j]))
  }

  method CheckRootCollisions(host: Host, roots: seq<Root>) returns (e: Option<PlanError>)
    ensures e.None? <==> DistinctKeys(host, roots)
    ensures e.Some? ==> exists i, j :: FirstCollision(host, roots, i, j, e.value)
  {
    var seen: map<string, string> := map[];
    for j := 0 to |roots|
      invariant DistinctKeys(host, roots[..j])
      invariant forall k :: k in seen ==>
                exists i :: 0 <= i < j && CanonicalRootKey(host, roots[i]) == k && roots[i].path == seen[k]
      invariant forall i :: 0 <= i < j ==> CanonicalRootKey(host, roots[i]) in seen
    {
      var key := CanonicalRootKey(host, roots[j]);
      if key in seen {
        ghost var i :| 0 <= i < j && CanonicalRootKey(host, roots[i]) == key && roots[i].path == seen[key];
        e := Some(Collision(seen[key], roots[j].path, key));
        assert FirstCollision(host, roots, i, j, e.value);
        return;
      }
      seen := seen[key := roots[j].path];
    }
    assert roots[..|roots|] == roots;
    return None;
  }

  // ---- What each argument contributes ----

  function RootOf(host: Host, arg: string): Option<Root> {
    match host.classify(arg)
    case Capture(plugin, url) =>
      if host.invalid(plugin, url, arg).Some? then None else Some(Root(arg, plugin, Some(url), host.shadow(arg)))
    case _ => None
  }

  function FailureOf(host: Host, arg: string): Option<Failure> {
    match host.classify(arg)
    case Failed(err) => Some(Failure(arg, err))
    case Capture(plugin, url) =>
      var e := host.invalid(plugin, url, arg);
      if e.Some? then Some(Failure(arg, e.value)) else None
    case Store(_) => None
  }

  /** The valid capture roots among the arguments from `from` up to `to`, in order. */
  function RootsIn(host: Host, args: seq<string>, from: nat, to: nat): seq<Root>
    requires to <= |args|
  {
    if to <= from then [] else RootsIn(host, args, from, to - 1) + OptSeq(RootOf(host, args[to - 1]))
  }

  function ValidRoots(host: Host, args: seq<string>): seq<Root> {
    RootsIn(host, args, 0, |args|)
  }

  /** The rejected among the first `n` arguments, in order. */
  function RejectedIn(host: Host, args: seq<string>, n: nat): seq<Failure>
    requires n <= |args|
  {
    if n == 0 then [] else RejectedIn(host, args, n - 1) + OptSeq(FailureOf(host, args[n - 1]))
  }

  function Rejected(host: Host, args: seq<string>): seq<Failure> {
    RejectedIn(host, args, |args|)
  }

  // ---- Segments between store ids ----

  /** The store argument at `at`, naming `storeID`, and the roots that follow it;
      -1 is the default store. */
  datatype Segment = Segment(at: int, storeID: string, roots: seq<Root>)

  /** The segments of the first `n` arguments. */
  function SegmentsAt(host: Host, args: seq<string>, n: nat): (segs: seq<Segment>)
    requires n <= |args|
    ensures segs != []
  {
    if n == 0 then [Segment(-1, "", [])]
    else NextSegments(host, SegmentsAt(host, args, n - 1), n - 1, args[n - 1])
  }

  function SegmentsOf(host: Host, args: seq<string>): (segs: seq<Segment>)
    ensures segs != []
  {
    SegmentsAt(host, args, |args|)
  }

  function NextSegments(host: Host, segs: seq<Segment>, n: nat, arg: string): (next: seq<Segment>)
    requires segs != []
    ensures next != []
  {
    match host.classify(arg)
    case Store(id) => segs + [Segment(n, id, [])]
    case _ =>
      var last := segs[|segs| - 1];
      segs[..|segs| - 1] + [last.(roots := last.roots + OptSeq(RootOf(host, arg)))]
  }

  function GroupFor(host: Host, s: Segment): Group {
    Group(s.storeID, if s.at < 0 then "" else host.notice(s.storeID), s.roots)
  }

  /** The groups: the segments that have roots. */
  function GroupsFor(host: Host, segs: seq<Segment>): seq<Group> {
    if segs == [] then []
    else
      GroupsFor(host, segs[..|segs| - 1])
      + (if segs[|segs| - 1].roots == [] then [] else [GroupFor(host, segs[|segs| - 1])])
  }

  /** A named store without roots, or two roots with one key. */
  predicate Refused(host: Host, storeID: string, roots: seq<Root>) {
    if roots == [] then storeID != "" else !DistinctKeys(host, roots)
  }

  predicate NoneRefused(host: Host, segs: seq<Segment>) {
    forall k :: 0 <= k < |segs| ==> !Refused(host, segs[k].storeID, segs[k].roots)
  }

  // ---- The planner ----

  /** The loop state once the segments so far are `segs`. */
  ghost predicate Planned(host: Host, segs: seq<Segment>, groups: seq<Group>, current: Group)
    requires segs != []
  {
    var closed, open := segs[..|segs| - 1], segs[|segs| - 1];
    NoneRefused(host, closed) && groups == GroupsFor(host, closed) && current == GroupFor(host, open)
  }

  ghost predicate PlannedTo(host: Host, args: seq<string>, n: nat, groups: seq<Group>, current: Group,
                            failures: seq<Failure>)
    requires n <= |args|
  {
    Planned(host, SegmentsAt(host, args, n), groups, current) && failures == RejectedIn(host, args, n)
  }

  method Flush(host: Host, groups: seq<Group>, current: Group) returns (e: Option<PlanError>, flushed: seq<Group>)
    ensures e.None? <==> DistinctKeys(host, current.roots)
    ensures e.None? ==> flushed == groups + [current]
    ensures e.Some? ==> exists i, j :: FirstCollision(host, current.roots, i, j, e.value)
  {
    e := CheckRootCollisions(host, current.roots);
    flushed := if e.None? then groups + [current] else groups;
  }

  /** A plan of two or more arguments: refused exactly when a segment is, or nothing
      was named at all; otherwise the groups and failures of the arguments. */
  ghost predicate Plans(host: Host, args: seq<string>, plan: Plan) {
    && (plan.err.None? <==>
          NoneRefused(host, SegmentsOf(host, args)) && (ValidRoots(host, args) != [] || Rejected(host, args) != []))
    && (plan.err.None? ==>
          plan.groups == GroupsFor(host, SegmentsOf(host, args)) && plan.failures == Rejected(host, args))
    && (plan.err.Some? ==>
          if NoneRefused(host, SegmentsOf(host, args)) then plan.err == Some(NothingUsable)
          else
            exists storeID, roots ::
              StopsAt(host, args, storeID, roots) && Explains(host, storeID, roots, plan.err.value))
  }

  /** The first refused segment has this store and these roots. */
  ghost predicate StopsAt(host: Host, args: seq<string>, storeID: string, roots: seq<Root>) {
    var segs := SegmentsOf(host, args);
    && Refused(host, storeID, roots)
    && exists k ::
         0 <= k < |segs| && NoneRefused(host, segs[..k]) && segs[k].storeID == storeID && segs[k].roots == roots
  }

  ghost predicate Explains(host: Host, storeID: string, roots: seq<Root>, e: PlanError) {
    if roots == [] then e == EmptyStore(storeID) else exists i, j :: FirstCollision(host, roots, i, j, e)
  }

  lemma Stopped(host: Host, args: seq<string>, current: Group, plan: Plan)
    requires StopsAt(host, args, current.storeID, current.roots) && plan.err.Some?
    requires Explains(host, current.storeID, current.roots, plan.err.value)
    ensures Plans(host, args, plan)
  {
  }

  method PlanMany(host: Host, args: seq<string>) returns (plan: Plan)
    ensures Plans(host, args, plan)
  {
    var groups: seq<Group>, failures: seq<Failure> := [], [];
    var current := Group("", "", []);
    for n := 0 to |args|
      invariant PlannedTo(host, args, n, groups, current, failures)
    {
      var arg := args[n];
      var kind := host.classify(arg);
      match kind
      case Failed(err) =>
        NextFailure(host, args, n, groups, current, failures, Failure(arg, err));
        failures := failures + [Failure(arg, err)];
      case Store(id) =>
        NextStore(host, args, n, groups, current, failures);
        var e, closed := CloseGroup(host, groups, current);
        if e.Some? {
          plan := Plan(groups, failures, e);
          Stopped(host, args, current, plan);
          return;
        }
        groups := closed;
        current := Group(id, host.notice(id), []);
      case Capture(plugin, url) =>
        var e := host.invalid(plugin, url, arg);
        if e.Some? {
          NextFailure(host, args, n, groups, current, failures, Failure(arg, e.value));
          failures := failures + [Failure(arg, e.value)];
          continue;
        }
        var root := Root(arg, plugin, Some(url), host.shadow(arg));
        NextRoot(host, args, n, groups, current, failures, root);
        current := current.(roots := current.roots + [root]);
    }
    plan := PlanEnd(host, args, groups, current, failures);
  }

  /** The end of the arguments closes the last group. */
  method PlanEnd(host: Host, args: seq<string>, open: seq<Group>, current: Group, failures: seq<Failure>)
    returns (plan: Plan)
    requires PlannedTo(host, args, |args|, open, current, failures)
    ensures Plans(host, args, plan)
  {
    LastArg(host, args, open, current, failures);
    var e, groups := CloseGroup(host, open, current);
    if e.Some? {
      plan := Plan(open, failures, e);
      Stopped(host, args, current, plan);
      return;
    }
    plan := Plan(groups, failures, if |groups| == 0 && |failures| == 0 then Some(NothingUsable) else None);
    Completed(host, args, plan);
  }

  /** A group ends: refused when it names a store without roots or its roots collide. */
  method CloseGroup(host: Host, groups: seq<Group>, current: Group) returns (e: Option<PlanError>, closed: seq<Group>)
    ensures e.None? <==> !Refused(host, current.storeID, current.roots)
    ensures e.None? ==> closed == if current.roots == [] then groups else groups + [current]
    ensures e.Some? ==> Explains(host, current.storeID, current.roots, e.value)
  {
    if |current.roots| == 0 {
      return (if current.storeID != "" then Some(EmptyStore(current.storeID)) else None), groups;
    }
    e, closed := Flush(host, groups, current);
  }

  lemma Completed(host: Host, args: seq<string>, plan: Plan)
    requires NoneRefused(host, SegmentsOf(host, args))
    requires plan.groups == GroupsFor(host, SegmentsOf(host, args)) && plan.failures == Rejected(host, args)
    requires plan.err == if plan.groups == [] && plan.failures == [] then Some(NothingUsable) else None
    ensures Plans(host, args, plan)
  {
    RootsConserved(host, args);
  }

  /** A store argument closes the current group, or stops the plan. */
  lemma NextStore(host: Host, args: seq<string>, n: nat, groups: seq<Group>, current: Group, failures: seq<Failure>)
    requires n < |args| && PlannedTo(host, args, n, groups, current, failures) && host.classify(args[n]).Store?
    ensures Refused(host, current.storeID, current.roots) ==> StopsAt(host, args, current.storeID, current.roots)
    ensures !Refused(host, current.storeID, current.roots) ==>
              var id := host.classify(args[n]).id;
              var closed := if current.roots == [] then groups else groups + [current];
              PlannedTo(host, args, n + 1, closed, Group(id, host.notice(id), []), failures)
  {
    if Refused(host, current.storeID, current.roots) {
      RefusedStops(host, args, n, groups, current);
    } else {
      StorePlanned(host, SegmentsAt(host, args, n), n, args[n], groups, current);
    }
  }

  /** A valid capture argument adds its root. */
  lemma NextRoot(host: Host, args: seq<string>, n: nat, groups: seq<Group>, current: Group, failures: seq<Failure>,
                 root: Root)
    requires n < |args| && PlannedTo(host, args, n, groups, current, failures) && RootOf(host, args[n]) == Some(root)
    ensures PlannedTo(host, args, n + 1, groups, current.(roots := current.roots + [root]), failures)
  {
    OtherPlanned(host, SegmentsAt(host, args, n), n, args[n], groups, current);
    assert FailureOf(host, args[n]) == None && failures + [] == failures;
  }

  /** A rejected argument adds its failure. */
  lemma NextFailure(host: Host, args: seq<string>, n: nat, groups: seq<Group>, current: Group, failures: seq<Failure>,
                    f: Failure)
    requires n < |args| && PlannedTo(host, args, n, groups, current, failures) && FailureOf(host, args[n]) == Some(f)
    ensures PlannedTo(host, args, n + 1, groups, current, failures + [f])
  {
    OtherPlanned(host, SegmentsAt(host, args, n), n, args[n], groups, current);
    assert RootOf(host, args[n]) == None && current.roots + [] == current.roots;
  }

  /** A store argument that finds the current group refused stops the plan there. */
  lemma RefusedStops(host: Host, args: seq<string>, n: nat, groups: seq<Group>, current: Group)
    requires n < |args| && Planned(host, SegmentsAt(host, args, n), groups, current)
    requires host.classify(args[n]).Store? && Refused(host, current.storeID, current.roots)
    ensures StopsAt(host, args, current.storeID, current.roots)
  {
    var before := SegmentsAt(host, args, n);
    var id := host.classify(args[n]).id;
    var next := before + [Segment(n, id, [])];
    SegmentsStay(host, args, n + 1, |args|);
    SamePrefix(before, next, SegmentsOf(host, args));
    FirstRefused(host, args, |before| - 1, current);
  }

  lemma SamePrefix(before: seq<Segment>, next: seq<Segment>, all: seq<Segment>)
    requires before != [] && |next| == |before| + 1 && before <= next && Settles(next, all)
    ensures before <= all && all[..|before| - 1] == before[..|before| - 1] && all[|before| - 1] == before[|before| - 1]
  {
    assert next[..|before|] == before;
  }

  lemma FirstRefused(host: Host, args: seq<string>, k: nat, current: Group)
    requires k < |SegmentsOf(host, args)| && NoneRefused(host, SegmentsOf(host, args)[..k])
    requires current == GroupFor(host, SegmentsOf(host, args)[k]) && Refused(host, current.storeID, current.roots)
    ensures StopsAt(host, args, current.storeID, current.roots)
  {
  }

  lemma StorePlanned(host: Host, segs: seq<Segment>, n: nat, arg: string, groups: seq<Group>, current: Group)
    requires segs != [] && Planned(host, segs, groups, current) && host.classify(arg).Store?
    requires !Refused(host, current.storeID, current.roots)
    ensures var id := host.classify(arg).id;
            var closed := if current.roots == [] then groups else groups + [current];
            Planned(host, NextSegments(host, segs, n, arg), closed, Group(id, host.notice(id), []))
  {
  }

  lemma OtherPlanned(host: Host, segs: seq<Segment>, n: nat, arg: string, groups: seq<Group>, current: Group)
    requires segs != [] && Planned(host, segs, groups, current) && !host.classify(arg).Store?
    ensures Planned(host, NextSegments(host, segs, n, arg), groups,
                    current.(roots := current.roots + OptSeq(RootOf(host, arg))))
  {
  }

  /** A segment that another has followed no longer changes. */
  lemma {:induction false} SegmentsStay(host: Host, args: seq<string>, n: nat, m: nat)
    requires n <= m <= |args|
    ensures Settles(SegmentsAt(host, args, n), SegmentsAt(host, args, m))
    decreases m
  {
    if n < m {
      SegmentsStay(host, args, n, m - 1);
      KeepsClosed(host, SegmentsAt(host, args, n), SegmentsAt(host, args, m - 1), m - 1, args[m - 1]);
    }
  }

  predicate Settles(a: seq<Segment>, b: seq<Segment>) {
    a != [] && |a| <= |b| && a[..|a| - 1] == b[..|a| - 1]
  }

  lemma KeepsClosed(host: Host, a: seq<Segment>, b: seq<Segment>, m: nat, arg: string)
    requires Settles(a, b)
    ensures Settles(a, NextSegments(host, b, m, arg))
  {
    var c := NextSegments(host, b, m, arg);
    assert forall k :: 0 <= k < |a| - 1 ==> c[k] == b[k] && b[k] == b[..|a| - 1][k];
  }

  lemma LastArg(host: Host, args: seq<string>, groups: seq<Group>, current: Group, failures: seq<Failure>)
    requires PlannedTo(host, args, |args|, groups, current, failures)
    ensures if Refused(host, current.storeID, current.roots) then StopsAt(host, args, current.storeID, current.roots)
            else NoneRefused(host, SegmentsOf(host, args))
    ensures GroupsFor(host, SegmentsOf(host, args)) == if current.roots == [] then groups else groups + [current]
    ensures failures == Rejected(host, args)
  {
    var segs := SegmentsOf(host, args);
    assert segs == segs[..|segs| - 1] + [segs[|segs| - 1]];
  }

  /** planCapture. The implicit root is the working directory. */
  method PlanCapture(host: Host, args: seq<string>) returns (plan: Plan)
    ensures |args| == 0 ==> plan == Plan([Group("", "", [ImplicitRoot(host)])], [], None)
    ensures |args| == 1 ==>
              match host.classify(args[0])
              case Store(id) => plan == Plan([Group(id, host.notice(id), [ImplicitRoot(host)])], [], None)
              case Failed(err) => plan == Plan([], [Failure(args[0], err)], Some(NothingUsable))
              case Capture(_, _) =>
                && plan.err == None && plan.failures == Rejected(host, args)
                && plan.groups == (if RootOf(host, args[0]).None? then []
                                   else [Group("", "", [RootOf(host, args[0]).value])])
    ensures |args| >= 2 ==> Plans(host, args, plan)
  {
    if |args| == 0 {
      return Plan([Group("", "", [ImplicitRoot(host)])], [], None);
    }
    if |args| == 1 {
      assert RejectedIn(host, args, 0) == [];
      match host.classify(args[0])
      case Store(id) =>
        return Plan([Group(id, host.notice(id), [ImplicitRoot(host)])], [], None);
      case Capture(plugin, url) =>
        var e := host.invalid(plugin, url, args[0]);
        if e.Some? {
          return Plan([], [Failure(args[0], e.value)], None);
        }
        var group := Group("", "", [Root(args[0], plugin, Some(url), host.shadow(args[0]))]);
        return Plan([group], [], None);
      case Failed(err) =>
        return Plan([], [Failure(args[0], err)], Some(NothingUsable));
    }
    plan := PlanMany(host, args);
  }

  function ImplicitRoot(host: Host): Root {
    Root(".", host.defaultPlugin, Some(Url(".", "")), "")
  }

  // ---- Conservation ----

  function FlattenGroups(groups: seq<Group>): seq<Root> {
    if groups == [] then [] else FlattenGroups(groups[..|groups| - 1]) + groups[|groups| - 1].roots
  }

  function FlattenSegments(segs: seq<Segment>): seq<Root> {
    if segs == [] then [] else FlattenSegments(segs[..|segs| - 1]) + segs[|segs| - 1].roots
  }

  lemma {:induction false} SegmentsFlatten(host: Host, args: seq<string>, n: nat)
    requires n <= |args|
    ensures FlattenSegments(SegmentsAt(host, args, n)) == RootsIn(host, args, 0, n)
    decreases n
  {
    if n == 0 {
      assert FlattenSegments([]) == [];
    } else {
      SegmentsFlatten(host, args, n - 1);
      NextFlatten(host, SegmentsAt(host, args, n - 1), n - 1, args[n - 1]);
    }
  }

  lemma NextFlatten(host: Host, segs: seq<Segment>, n: nat, arg: string)
    requires segs != []
    ensures FlattenSegments(NextSegments(host, segs, n, arg)) == FlattenSegments(segs) + OptSeq(RootOf(host, arg))
  {
    var next := NextSegments(host, segs, n, arg);
    assert next[..|next| - 1] == if host.classify(arg).Store? then segs else segs[..|segs| - 1];
  }

  lemma {:induction false} GroupsFlatten(host: Host, segs: seq<Segment>)
    ensures FlattenGroups(GroupsFor(host, segs)) == FlattenSegments(segs)
    ensures GroupsFor(host, segs) == [] <==> FlattenSegments(segs) == []
    decreases |segs|
  {
    if segs != [] {
      var n := |segs| - 1;
      var groups := GroupsFor(host, segs[..n]);
      GroupsFlatten(host, segs[..n]);
      if segs[n].roots == [] {
        assert FlattenSegments(segs[..n]) + [] == FlattenSegments(segs[..n]);
        assert groups + [] == groups && GroupsFor(host, segs) == groups;
      } else {
        FlattenLast(groups, GroupFor(host, segs[n]));
      }
    }
  }

  lemma FlattenLast(groups: seq<Group>, g: Group)
    ensures FlattenGroups(groups + [g]) == FlattenGroups(groups) + g.roots
  {
  }

  lemma {:induction false} GroupsNonEmpty(host: Host, segs: seq<Segment>)
    ensures forall g :: g in GroupsFor(host, segs) ==> g.roots != [] && exists s :: s in segs && g == GroupFor(host, s)
    decreases |segs|
  {
    if segs != [] {
      GroupsNonEmpty(host, segs[..|segs| - 1]);
      assert segs[|segs| - 1] in segs;
    }
  }

  /** When no segment is refused, keys are distinct within each group. */
  lemma GroupsDistinct(host: Host, segs: seq<Segment>)
    requires NoneRefused(host, segs)
    ensures forall g :: g in GroupsFor(host, segs) ==> DistinctKeys(host, g.roots)
  {
    GroupsNonEmpty(host, segs);
    forall g | g in GroupsFor(host, segs) ensures DistinctKeys(host, g.roots) {
      var s :| s in segs && g == GroupFor(host, s);
      var k :| 0 <= k < |segs| && segs[k] == s;
      assert !Refused(host, segs[k].storeID, segs[k].roots);
    }
  }

  /** The groups' roots, in order, are the valid capture arguments; no group is empty. */
  lemma RootsConserved(host: Host, args: seq<string>)
    ensures FlattenGroups(GroupsFor(host, SegmentsOf(host, args))) == ValidRoots(host, args)
    ensures forall g :: g in GroupsFor(host, SegmentsOf(host, args)) ==> g.roots != []
    ensures GroupsFor(host, SegmentsOf(host, args)) == [] <==> ValidRoots(host, args) == []
  {
    SegmentsFlatten(host, args, |args|);
    GroupsFlatten(host, SegmentsOf(host, args));
    GroupsNonEmpty(host, SegmentsOf(host, args));
  }

  /** Where segment `k` ends: at the next store argument, or at `n`. */
  function EndOf(segs: seq<Segment>, k: nat, n: nat): int
    requires k < |segs|
  {
    if k + 1 < |segs| then segs[k + 1].at else n
  }

  /** The segment starts at a store argument, unless it is the first, and holds the
      valid roots up to `end`, with no store argument among them. */
  predicate Covers(host: Host, args: seq<string>, s: Segment, first: bool, end: int)
    requires end <= |args|
  {
    && -1 <= s.at < end
    && (if first then s.at == -1 && s.storeID == "" else s.at >= 0 && host.classify(args[s.at]) == Store(s.storeID))
    && (forall i :: s.at < i < end ==> !host.classify(args[i]).Store?)
    && s.roots == RootsIn(host, args, s.at + 1, end)
  }

  /** Among the first `n` arguments, segment `k` runs up to the next store argument. */
  predicate Between(host: Host, args: seq<string>, n: nat, segs: seq<Segment>, k: nat)
    requires k < |segs| && n <= |args|
  {
    EndOf(segs, k, n) <= n && Covers(host, args, segs[k], k == 0, EndOf(segs, k, n))
  }

  /** The arguments are cut exactly at the store ids, so each root goes to the
      nearest preceding one. */
  lemma {:induction false} CutAtStores(host: Host, args: seq<string>, n: nat)
    requires n <= |args|
    ensures AllBetween(host, args, n, SegmentsAt(host, args, n))
    decreases n
  {
    if n > 0 {
      CutAtStores(host, args, n - 1);
      AllFurther(host, args, n - 1, SegmentsAt(host, args, n - 1));
    }
  }

  predicate AllBetween(host: Host, args: seq<string>, n: nat, segs: seq<Segment>)
    requires n <= |args|
  {
    forall k :: 0 <= k < |segs| ==> Between(host, args, n, segs, k)
  }

  lemma AllFurther(host: Host, args: seq<string>, n: nat, before: seq<Segment>)
    requires n < |args| && before != [] && AllBetween(host, args, n, before)
    ensures AllBetween(host, args, n + 1, NextSegments(host, before, n, args[n]))
  {
    var next, m := NextSegments(host, before, n, args[n]), n + 1;
    forall k | 0 <= k < |next| ensures Between(host, args, m, next, k) {
      if k < |before| {
        CutFurther(host, args, n, before, k);
      }
    }
  }

  lemma CutFurther(host: Host, args: seq<string>, n: nat, before: seq<Segment>, k: nat)
    requires n < |args| && k < |before| && Between(host, args, n, before, k)
    ensures Between(host, args, n + 1, NextSegments(host, before, n, args[n]), k)
  {
    if k == |before| - 1 && !host.classify(args[n]).Store? {
      Extended(host, args, n, before[k], k == 0);
    }
    NextEnds(host, before, n, args[n], k);
  }

  /** What an argument does to segment `k` and to its end. */
  lemma NextEnds(host: Host, before: seq<Segment>, n: nat, arg: string, k: nat)
    requires k < |before|
    ensures var next := NextSegments(host, before, n, arg);
            && k < |next|
            && if k == |before| - 1 && !host.classify(arg).Store? then
                 && next[k] == before[k].(roots := before[k].roots + OptSeq(RootOf(host, arg)))
                 && EndOf(next, k, n + 1) == n + 1 && EndOf(before, k, n) == n
               else next[k] == before[k] && EndOf(next, k, n + 1) == EndOf(before, k, n)
  {
  }

  /** The open segment takes the argument in. */
  lemma Extended(host: Host, args: seq<string>, n: nat, s: Segment, first: bool)
    requires n < |args| && !host.classify(args[n]).Store? && Covers(host, args, s, first, n)
    ensures Covers(host, args, s.(roots := s.roots + OptSeq(RootOf(host, args[n]))), first, n + 1)
  {
  }

  /** The group holds the valid roots between `at` and `end`, for the store named at `at`. */
  predicate Follows(host: Host, args: seq<string>, g: Group, at: int, end: int) {
    && -1 <= at < end <= |args| && g.roots == RootsIn(host, args, at + 1, end) && g.roots != []
    && (forall i :: at < i < end ==> !host.classify(args[i]).Store?)
    && (end < |args| ==> host.classify(args[end]).Store?)
    && (if at == -1 then g.storeID == "" && g.switchNotice == ""
        else host.classify(args[at]) == Store(g.storeID) && g.switchNotice == host.notice(g.storeID))
  }

  /** Each group of a plan is for the store its roots follow, with that store's notice;
      the roots before any store go to the default store, without one. */
  lemma GroupsFollowStores(host: Host, args: seq<string>, g: Group)
    requires g in GroupsFor(host, SegmentsOf(host, args))
    ensures exists at, end :: Follows(host, args, g, at, end)
  {
    var segs := SegmentsOf(host, args);
    GroupsNonEmpty(host, segs);
    CutAtStores(host, args, |args|);
    var s :| s in segs && g == GroupFor(host, s);
    var k :| 0 <= k < |segs| && segs[k] == s;
    assert Between(host, args, |args|, segs, k);
    if k + 1 < |segs| {
      assert Between(host, args, |args|, segs, k + 1);
    }
    assert Follows(host, args, g, s.at, EndOf(segs, k, |args|));
  }

  /** Each argument is one of three: a store id, a valid root carrying its own plugin and
      URL, or a failure carrying its own error. */
  lemma EachArgument(host: Host, arg: string)
    ensures RootOf(host, arg).Some? <==>
              match host.classify(arg)
              case Capture(plugin, url) => host.invalid(plugin, url, arg).None?
              case _ => false
    ensures RootOf(host, arg).Some? ==>
              var r := RootOf(host, arg).value;
              r.path == arg && r.url.Some? && host.classify(arg) == Capture(r.plugin, r.url.value)
    ensures FailureOf(host, arg).Some? ==>
              var f := FailureOf(host, arg).value;
              && f.arg == arg
              && match host.classify(arg)
                 case Failed(err) => f.err == err
                 case Capture(plugin, url) => host.invalid(plugin, url, arg) == Some(f.err)
                 case Store(_) => false
  {
  }

  function StoresIn(host: Host, args: seq<string>, n: nat): nat
    requires n <= |args|
  {
    if n == 0 then 0 else StoresIn(host, args, n - 1) + (if host.classify(args[n - 1]).Store? then 1 else 0)
  }

  /** No argument is lost: each gives a store, a root or a failure, and only one of them. */
  lemma {:induction false} ArgumentsConserved(host: Host, args: seq<string>, n: nat)
    requires n <= |args|
    ensures StoresIn(host, args, n) + |RootsIn(host, args, 0, n)| + |RejectedIn(host, args, n)| == n
    decreases n
  {
    if n > 0 {
      ArgumentsConserved(host, args, n - 1);
    }
  }

  /** Two arguments collide by the place they name, however they spell it and whatever
      plugin takes them: the path of the URL, or its opaque part when it has no path. */
  lemma CollidesByPlace(host: Host, a: string, b: string)
    requires RootOf(host, a).Some? && RootOf(host, b).Some?
    ensures var u, v := host.classify(a).url, host.classify(b).url;
            DistinctKeys(host, [RootOf(host, a).value, RootOf(host, b).value]) <==>
              host.clean(if u.path == "" then u.opaquePart else u.path)
              != host.clean(if v.path == "" then v.opaquePart else v.path)
  {
    var roots := [RootOf(host, a).value, RootOf(host, b).value];
    assert roots[0] == RootOf(host, a).value && roots[1] == RootOf(host, b).value;
  }
}
