/** The memoizing caches of the MCP server: hoisted facet summaries
    (facet_cache.go), enriched listings (listing_cache.go) and the back-off of
    their shared refresher (refresh_backoff.go). `V` is a summary or a listing. */
module MemoCache {
  import opened Prelude

  // Times are minutes of a logical clock; 0 is Go's zero time.
  const REFRESH_INTERVAL: nat := 5
  const TTL: nat := 15
  const MAX_REFRESH_BACKOFF: nat := 60

  // ---- Back-off ----

  function Pow2(n: nat): nat {
    if n == 0 then 1 else 2 * Pow2(n - 1)
  }

  function Min(a: nat, b: nat): nat {
    if a < b then a else b
  }

  /** One interval, doubled per further failure, capped at an hour. */
  function Backoff(failures: nat): nat {
    Min(REFRESH_INTERVAL * Pow2(if failures == 0 then 0 else failures - 1), MAX_REFRESH_BACKOFF)
  }

  lemma {:induction false} Pow2Monotone(m: nat, n: nat)
    requires m <= n
    ensures 1 <= Pow2(m) <= Pow2(n)
    decreases n
  {
    if m < n {
      Pow2Monotone(m, n - 1);
    } else if n > 0 {
      Pow2Monotone(n - 1, n - 1);
    }
  }

  method RefreshBackoff(failures: nat) returns (backoff: nat)
    ensures backoff == Backoff(failures)
    ensures REFRESH_INTERVAL <= backoff <= MAX_REFRESH_BACKOFF
  {
    backoff := REFRESH_INTERVAL;
    var i := 1;
    while i < failures && backoff < MAX_REFRESH_BACKOFF
      invariant 1 <= i && (i <= failures || i == 1)
      invariant backoff == REFRESH_INTERVAL * Pow2(i - 1)
      decreases failures - i
    {
      backoff := backoff * 2;
      i := i + 1;
    }
    var exponent := if failures == 0 then 0 else failures - 1;
    Pow2Monotone(i - 1, if i - 1 <= exponent then exponent else i - 1);
    Pow2Monotone(0, i - 1);
    backoff := if backoff < MAX_REFRESH_BACKOFF then backoff else MAX_REFRESH_BACKOFF;
  }

  // ---- Entries ----

  /** A memoized value; `token` is None for a tokenless entry, `window` the volatile window (0 for none). */
  datatype Entry<V> = Entry(
    result: V, token: Option<string>, computedAt: nat, verifiedAt: nat, dirty: bool, lastErr: string,
    failures: nat, retryAfter: nat, window: nat)

  predicate WindowExpired<V>(e: Entry<V>, now: nat) {
    e.window > 0 && now >= e.computedAt + e.window
  }

  /** The smallest RevalidateAfter of the volatile dimensions present; 0 when none is. */
  method VolatileWindowFor(dimensions: seq<(string, int)>, present: set<string>) returns (window: int)
    ensures window == 0 ==> forall d :: d in dimensions && d.0 in present ==> d.1 <= 0
    ensures window != 0 ==>
              && window > 0
              && (exists d :: d in dimensions && d.0 in present && d.1 == window)
              && (forall d :: d in dimensions && d.0 in present && d.1 > 0 ==> window <= d.1)
  {
    window := 0;
    for i := 0 to |dimensions|
      invariant window == 0 ==> forall d :: d in dimensions[..i] && d.0 in present ==> d.1 <= 0
      invariant window != 0 ==>
                  && window > 0
                  && (exists d :: d in dimensions[..i] && d.0 in present && d.1 == window)
                  && (forall d :: d in dimensions[..i] && d.0 in present && d.1 > 0 ==> window <= d.1)
    {
      var dimension := dimensions[i];
      assert dimensions[..i + 1] == dimensions[..i] + [dimension];
      if dimension.1 > 0 && dimension.0 in present && (window == 0 || dimension.1 < window) {
        window := dimension.1;
        assert dimension in dimensions[..i + 1];
      }
    }
    assert dimensions[..|dimensions|] == dimensions;
  }

  // ---- The locked sections, as functions on the entry table ----

  type Table<V> = map<string, Entry<V>>

  function NewEntry<V>(result: V, token: Option<string>, window: nat, now: nat): Entry<V> {
    Entry(result, token, now, now, false, "", 0, 0, window)
  }

  function Verified<V>(e: Entry<V>, now: nat): Entry<V> {
    e.(verifiedAt := now, dirty := false, lastErr := "", failures := 0, retryAfter := 0)
  }

  function Errored<V>(e: Entry<V>, err: string, now: nat): Entry<V> {
    e.(dirty := true, lastErr := err, failures := e.failures + 1, retryAfter := now + Backoff(e.failures + 1))
  }

  function MarkVerifiedIn<V>(t: Table<V>, uri: string, now: nat): Table<V> {
    if uri in t then t[uri := Verified(t[uri], now)] else t
  }

  function MarkErrorIn<V>(t: Table<V>, uri: string, err: string, now: nat): Table<V> {
    if uri in t then t[uri := Errored(t[uri], err, now)] else t
  }

  /** The entry table behind its mutex; every method is one locked section. */
  class EntryTable<V> {
    var entries: Table<V>

    constructor ()
      ensures entries == map[]
    {
      entries := map[];
    }

    method Store(uri: string, result: V, token: Option<string>, window: nat, now: nat)
      modifies this
      ensures entries == old(entries)[uri := NewEntry(result, token, window, now)]
    {
      entries := entries[uri := Entry(result, token, now, now, false, "", 0, 0, window)];
    }

    method MarkVerified(uri: string, now: nat)
      modifies this
      ensures entries == MarkVerifiedIn(old(entries), uri, now)
    {
      if uri in entries {
        var e := entries[uri];
        entries := entries[uri := e.(verifiedAt := now, dirty := false, lastErr := "", failures := 0, retryAfter := 0)];
      }
    }

    method MarkError(uri: string, err: string, now: nat)
      modifies this
      ensures entries == MarkErrorIn(old(entries), uri, err, now)
    {
      if uri in entries {
        var e := entries[uri];
        var failures := e.failures + 1;
        var backoff := RefreshBackoff(failures);
        entries := entries[uri := e.(dirty := true, lastErr := err, failures := failures, retryAfter := now + backoff)];
      }
    }

    method Drop(uri: string)
      modifies this
      ensures entries == old(entries) - {uri}
    {
      entries := entries - {uri};
    }

    /** Forgets every entry of the written source; `sameSource` compares scheme and host. */
    method DropSource(sameSource: string -> bool)
      modifies this
      ensures entries == old(entries) - (set k | k in old(entries) && sameSource(k))
    {
      var keys := entries.Keys;
      while keys != {}
        invariant keys <= old(entries).Keys
        invariant entries == old(entries) - (set k | k in old(entries) && k !in keys && sameSource(k))
        decreases keys
      {
        var key :| key in keys;
        keys := keys - {key};
        if sameSource(key) {
          entries := entries - {key};
        }
      }
    }
  }

  // ---- The concurrent machine ----

  datatype Kind = FacetCache | ListingCache

  /** The source and the configuration. `token(uri, n)` and `value(uri, n)` are
      the change token and the memoized value of a node at source version n. */
  datatype World<!V> = World(
    kind: Kind, token: (string, nat) -> string, value: (string, nat) -> V,
    window: V -> nat, lazy: string -> bool)

  /** Equal tokens mean the node did not change in between. */
  ghost predicate TokensNeverRecur<V(!new)>(w: World<V>) {
    forall uri, m: nat, n: nat, k: nat ::
      m <= k <= n && w.token(uri, m) == w.token(uri, n) ==> w.value(uri, k) == w.value(uri, m)
  }

  /** What a computation that ran while the source went from version `from` to
      `to` may return: anything, unless the node stayed the same throughout. */
  ghost predicate Faithful<V(!new)>(w: World<V>, uri: string, from: nat, to: nat, result: V) {
    (forall k: nat :: from <= k <= to ==> w.value(uri, k) == w.value(uri, from)) ==> result == w.value(uri, from)
  }

  datatype Flow = Serving | Refreshing

  /** Where a read or a refresh stands between its locked sections and plugin calls. */
  datatype Job<V> =
    | Resolving(uri: string, prevToken: Option<string>, computedAt: nat, expired: bool)
    | Checking(uri: string, expected: string)
    | NeedToken(uri: string, flow: Flow)
    | HaveToken(uri: string, flow: Flow, token: Option<string>, from: nat)
    | Computing(uri: string, flow: Flow, token: Option<string>, from: nat, start: nat)
    | Computed(uri: string, flow: Flow, token: Option<string>, from: nat, to: nat, result: V)
    | MustMarkVerified(uri: string)
    | MustMarkError(uri: string, err: string)
    | MustDrop(uri: string)

  datatype State<V> = State(version: nat, clock: nat, entries: Table<V>, jobs: map<nat, Job<V>>)

  datatype Reply = Failed(err: string) | NotOffered | Offered

  datatype Answer<V> = ComputeFailed(err: string) | ComputeDeclined | Value(result: V)

  datatype Step<V> =
    | Advance
    | Tick(minutes: nat)
    | Read(job: nat, uri: string)
    | Refresh(job: nat, uri: string)
    | Resolve(job: nat, reply: Reply)
    | CheckToken(job: nat, reply: Reply)
    | FetchToken(job: nat, reply: Reply)
    | BeginCompute(job: nat)
    | EndCompute(job: nat, answer: Answer<V>)
    | Commit(job: nat)
    | DropAll(uris: set<string>)

  /** Whether a read serves the entry as it is. */
  predicate ServesHit<V>(w: World<V>, e: Entry<V>, uri: string, now: nat) {
    && (w.kind.ListingCache? ==> !WindowExpired(e, now))
    && !(w.lazy(uri) && now >= e.computedAt + TTL)
  }

  predicate Enabled<V>(w: World<V>, s: State<V>, step: Step<V>) {
    match step
    case Advance => true
    case Tick(_) => true
    case Read(job, _) => job !in s.jobs
    case Refresh(job, _) => job !in s.jobs
    case Resolve(job, _) => job in s.jobs && s.jobs[job].Resolving?
    case CheckToken(job, _) => job in s.jobs && s.jobs[job].Checking?
    case FetchToken(job, _) => job in s.jobs && s.jobs[job].NeedToken?
    case BeginCompute(job) => job in s.jobs && s.jobs[job].HaveToken?
    case EndCompute(job, answer) =>
      job in s.jobs && s.jobs[job].Computing? && (w.kind.ListingCache? ==> !answer.ComputeDeclined?)
    case Commit(job) =>
      && job in s.jobs
      && (s.jobs[job].Computed? || s.jobs[job].MustMarkVerified? || s.jobs[job].MustMarkError? || s.jobs[job].MustDrop?)
    case DropAll(_) => true
  }

  /** The computation behind EndCompute saw the source between its start and now. */
  ghost predicate Honest<V(!new)>(w: World<V>, s: State<V>, step: Step<V>)
    requires Enabled(w, s, step)
  {
    step.EndCompute? && step.answer.Value? ==>
      Faithful(w, s.jobs[step.job].uri, s.jobs[step.job].start, s.version, step.answer.result)
  }

  function WithJob<V>(s: State<V>, id: nat, j: Job<V>): State<V> {
    s.(jobs := s.jobs[id := j])
  }

  function Finished<V>(s: State<V>, id: nat): State<V> {
    s.(jobs := s.jobs - {id})
  }

  function StartRefresh<V>(w: World<V>, s: State<V>, id: nat, uri: string): State<V> {
    if w.lazy(uri) || uri !in s.entries || s.clock < s.entries[uri].retryAfter then s
    else
      var e := s.entries[uri];
      WithJob(s, id, Resolving(uri, e.token, e.computedAt, WindowExpired(e, s.clock)))
  }

  /** After resolve: the cheap paths of refreshOne. `NotOffered` means the source cannot summarize. */
  function AfterResolve<V>(w: World<V>, s: State<V>, id: nat, reply: Reply): State<V>
    requires id in s.jobs && s.jobs[id].Resolving?
  {
    var j := s.jobs[id];
    if reply.Failed? then WithJob(s, id, MustMarkError(j.uri, reply.err))
    else if reply.NotOffered? && w.kind.FacetCache? then WithJob(s, id, MustDrop(j.uri))
    else if j.expired then WithJob(s, id, NeedToken(j.uri, Refreshing))
    else if j.prevToken.Some? then WithJob(s, id, Checking(j.uri, j.prevToken.value))
    else if s.clock < j.computedAt + TTL then Finished(s, id)
    else WithJob(s, id, NeedToken(j.uri, Refreshing))
  }

  function AfterCheck<V>(w: World<V>, s: State<V>, id: nat, reply: Reply): State<V>
    requires id in s.jobs && s.jobs[id].Checking?
  {
    var j := s.jobs[id];
    match reply
    case Failed(err) => WithJob(s, id, MustMarkError(j.uri, err))
    case NotOffered => WithJob(s, id, NeedToken(j.uri, Refreshing))
    case Offered =>
      if w.token(j.uri, s.version) == j.expected then WithJob(s, id, MustMarkVerified(j.uri))
      else WithJob(s, id, NeedToken(j.uri, Refreshing))
  }

  function AfterCompute<V>(w: World<V>, s: State<V>, id: nat, answer: Answer<V>): State<V>
    requires id in s.jobs && s.jobs[id].Computing?
  {
    var j := s.jobs[id];
    match answer
    case ComputeFailed(err) => if j.flow.Serving? then Finished(s, id) else WithJob(s, id, MustMarkError(j.uri, err))
    case ComputeDeclined => if j.flow.Serving? then Finished(s, id) else WithJob(s, id, MustDrop(j.uri))
    case Value(result) => WithJob(s, id, Computed(j.uri, j.flow, j.token, j.from, s.version, result))
  }

  function CommitTable<V>(w: World<V>, s: State<V>, j: Job<V>): Table<V>
    requires j.Computed? || j.MustMarkVerified? || j.MustMarkError? || j.MustDrop?
  {
    match j
    case Computed(uri, _, token, _, _, result) => s.entries[uri := NewEntry(result, token, w.window(result), s.clock)]
    case MustMarkVerified(uri) => MarkVerifiedIn(s.entries, uri, s.clock)
    case MustMarkError(uri, err) => MarkErrorIn(s.entries, uri, err, s.clock)
    case MustDrop(uri) => s.entries - {uri}
  }

  function Apply<V>(w: World<V>, s: State<V>, step: Step<V>): State<V>
    requires Enabled(w, s, step)
  {
    match step
    case Advance => s.(version := s.version + 1)
    case Tick(minutes) => s.(clock := s.clock + minutes)
    case Read(id, uri) =>
      if uri in s.entries && ServesHit(w, s.entries[uri], uri, s.clock) then s
      else WithJob(s, id, NeedToken(uri, Serving))
    case Refresh(id, uri) => StartRefresh(w, s, id, uri)
    case Resolve(id, reply) => AfterResolve(w, s, id, reply)
    case CheckToken(id, reply) => AfterCheck(w, s, id, reply)
    case FetchToken(id, reply) =>
      var j := s.jobs[id];
      var token := if reply.Offered? then Some(w.token(j.uri, s.version)) else None;
      WithJob(s, id, HaveToken(j.uri, j.flow, token, s.version))
    case BeginCompute(id) =>
      var j := s.jobs[id];
      WithJob(s, id, Computing(j.uri, j.flow, j.token, j.from, s.version))
    case EndCompute(id, answer) => AfterCompute(w, s, id, answer)
    case Commit(id) => Finished(s, id).(entries := CommitTable(w, s, s.jobs[id]))
    case DropAll(uris) => s.(entries := s.entries - uris)
  }

  // ---- Agreement ----

  /** The token was fetched at some version, and the value read between then and now. */
  ghost predicate Backed<V(!new)>(w: World<V>, uri: string, token: string, result: V, version: nat) {
    exists from: nat, to: nat ::
      from <= to <= version && token == w.token(uri, from) && Faithful(w, uri, from, to, result)
  }

  ghost predicate JobOk<V(!new)>(w: World<V>, j: Job<V>, version: nat) {
    match j
    case HaveToken(uri, _, token, from) => from <= version && (token.Some? ==> token.value == w.token(uri, from))
    case Computing(uri, _, token, from, start) =>
      from <= start <= version && (token.Some? ==> token.value == w.token(uri, from))
    case Computed(uri, _, token, from, to, result) =>
      from <= to <= version && Faithful(w, uri, from, to, result) && (token.Some? ==> token.value == w.token(uri, from))
    case _ => true
  }

  ghost predicate EntryOk<V(!new)>(w: World<V>, uri: string, e: Entry<V>, version: nat, clock: nat) {
    && (e.token.Some? ==> Backed(w, uri, e.token.value, e.result, version))
    && e.computedAt <= clock && e.verifiedAt <= clock
    && (e.failures == 0 ==> e.retryAfter == 0 && e.lastErr == "" && !e.dirty)
    && (e.failures > 0 ==> e.dirty && e.computedAt + Backoff(e.failures) <= e.retryAfter <= clock + Backoff(e.failures))
  }

  ghost predicate Inv<V(!new)>(w: World<V>, s: State<V>) {
    && (forall uri :: uri in s.entries ==> EntryOk(w, uri, s.entries[uri], s.version, s.clock))
    && (forall id :: id in s.jobs ==> JobOk(w, s.jobs[id], s.version))
  }

  lemma InvInit<V(!new)>(w: World<V>, version: nat, clock: nat)
    ensures Inv(w, State(version, clock, map[], map[]))
  {
  }

  lemma JobsStep<V(!new)>(w: World<V>, s: State<V>, step: Step<V>)
    requires Inv(w, s) && Enabled(w, s, step) && Honest(w, s, step)
    ensures var s' := Apply(w, s, step); forall id :: id in s'.jobs ==> JobOk(w, s'.jobs[id], s'.version)
  {
  }

  lemma EntriesStep<V(!new)>(w: World<V>, s: State<V>, step: Step<V>)
    requires Inv(w, s) && Enabled(w, s, step)
    ensures var s' := Apply(w, s, step);
            forall uri :: uri in s'.entries ==> EntryOk(w, uri, s'.entries[uri], s'.version, s'.clock)
  {
  }

  lemma InvStep<V(!new)>(w: World<V>, s: State<V>, step: Step<V>)
    requires Inv(w, s) && Enabled(w, s, step) && Honest(w, s, step)
    ensures Inv(w, Apply(w, s, step))
  {
    JobsStep(w, s, step);
    EntriesStep(w, s, step);
  }

  /** A run from an empty cache: every step is enabled, every computation honest. */
  ghost predicate IsRun<V(!new)>(w: World<V>, states: seq<State<V>>, steps: seq<Step<V>>) {
    && |states| == |steps| + 1
    && states[0].entries == map[] && states[0].jobs == map[]
    && forall i :: 0 <= i < |steps| ==>
         && Enabled(w, states[i], steps[i]) && Honest(w, states[i], steps[i])
         && states[i + 1] == Apply(w, states[i], steps[i])
  }

  lemma {:induction false} RunInv<V(!new)>(w: World<V>, states: seq<State<V>>, steps: seq<Step<V>>, i: nat)
    requires IsRun(w, states, steps) && i < |states|
    ensures Inv(w, states[i])
    decreases i
  {
    if i == 0 {
      InvInit(w, states[0].version, states[0].clock);
    } else {
      RunInv(w, states, steps, i - 1);
      InvStep(w, states[i - 1], steps[i - 1]);
    }
  }

  /** Every tokened, non-volatile entry whose token is the source's current one
      holds the source's current value. */
  ghost predicate Agrees<V(!new)>(w: World<V>, s: State<V>) {
    forall uri ::
      uri in s.entries && s.entries[uri].token == Some(w.token(uri, s.version)) && s.entries[uri].window == 0 ==>
      s.entries[uri].result == w.value(uri, s.version)
  }

  /** Cache agreement: with tokens that never recur, every state of every run agrees. */
  lemma CacheAgreement<V(!new)>(w: World<V>, states: seq<State<V>>, steps: seq<Step<V>>, i: nat)
    requires TokensNeverRecur(w) && IsRun(w, states, steps) && i < |states|
    ensures Agrees(w, states[i])
  {
    RunInv(w, states, steps, i);
    var s := states[i];
    forall uri | uri in s.entries && s.entries[uri].token == Some(w.token(uri, s.version)) && s.entries[uri].window == 0
      ensures s.entries[uri].result == w.value(uri, s.version)
    {
      assert EntryOk(w, uri, s.entries[uri], s.version, s.clock);
      BackedIsCurrent(w, uri, s.entries[uri].token.value, s.entries[uri].result, s.version);
    }
  }

  /** A value read under a token that never recurs is current while the token is. */
  lemma BackedIsCurrent<V(!new)>(w: World<V>, uri: string, token: string, result: V, version: nat)
    requires TokensNeverRecur(w) && Backed(w, uri, token, result, version) && token == w.token(uri, version)
    ensures result == w.value(uri, version)
  {
    var from: nat, to: nat :| from <= to <= version && token == w.token(uri, from)
        && Faithful(w, uri, from, to, result);
    forall k: nat | from <= k <= version ensures w.value(uri, k) == w.value(uri, from) {
      assert w.token(uri, from) == w.token(uri, version);
    }
  }

  ghost predicate AlwaysAgrees<V(!new)>(w: World<V>) {
    forall states, steps, i :: IsRun(w, states, steps) && 0 <= i < |states| ==> Agrees(w, states[i])
  }

  ghost predicate Reachable<V(!new)>(w: World<V>, s: State<V>) {
    exists states, steps :: IsRun(w, states, steps) && states[|steps|] == s
  }

  lemma ReachStep<V(!new)>(w: World<V>, s: State<V>, step: Step<V>)
    requires Reachable(w, s) && Enabled(w, s, step) && Honest(w, s, step)
    ensures Reachable(w, Apply(w, s, step))
  {
    var states, steps :| IsRun(w, states, steps) && states[|steps|] == s;
    var s' := Apply(w, s, step);
    assert IsRun(w, states + [s'], steps + [step]);
    assert (states + [s'])[|steps + [step]|] == s';
  }

  lemma {:induction false} ReachAdvance<V(!new)>(w: World<V>, s: State<V>, n: nat)
    requires Reachable(w, s)
    ensures Reachable(w, s.(version := s.version + n))
    decreases n
  {
    if n == 0 {
      assert s.(version := s.version + 0) == s;
    } else {
      ReachAdvance(w, s, n - 1);
      ReachStep(w, s.(version := s.version + (n - 1)), Advance);
    }
  }

  /** A read that fetches the token at version `m`, computes at version `k`, and is
      looked at when the source is at `n`. */
  lemma ReadAcross<V(!new)>(w: World<V>, uri: string, m: nat, k: nat, n: nat) returns (s: State<V>)
    requires m <= k <= n
    ensures Reachable(w, s) && s.version == n
    ensures s.entries == map[uri := NewEntry(w.value(uri, k), Some(w.token(uri, m)), w.window(w.value(uri, k)), 0)]
  {
    s := State(m, 0, map[], map[]);
    var none: seq<Step<V>> := [];
    assert IsRun(w, [s], none) && [s][|none|] == s;
    s := Then(w, s, Read(0, uri));
    s := Then(w, s, FetchToken(0, Offered));
    ReachAdvance(w, s, k - m);
    s := s.(version := s.version + (k - m));
    s := ComputeAt(w, s, uri, k);
    ReachAdvance(w, s, n - k);
    s := s.(version := s.version + (n - k));
  }

  lemma ComputeAt<V(!new)>(w: World<V>, s: State<V>, uri: string, k: nat) returns (s': State<V>)
    requires Reachable(w, s) && s.version == k && s.clock == 0 && s.entries == map[]
    requires s.jobs.Keys == {0} && s.jobs[0].HaveToken? && s.jobs[0].uri == uri
    ensures Reachable(w, s') && s'.version == k && s'.clock == 0
    ensures s'.entries == map[uri := NewEntry(w.value(uri, k), s.jobs[0].token, w.window(w.value(uri, k)), 0)]
  {
    s' := Then(w, s, BeginCompute(0));
    s' := Then(w, s', EndCompute(0, Value(w.value(uri, k))));
    s' := Then(w, s', Commit(0));
  }

  lemma Then<V(!new)>(w: World<V>, s: State<V>, step: Step<V>) returns (s': State<V>)
    requires Reachable(w, s) && Enabled(w, s, step) && Honest(w, s, step)
    ensures Reachable(w, s') && s' == Apply(w, s, step)
  {
    ReachStep(w, s, step);
    s' := Apply(w, s, step);
  }

  /** For a source without volatile values the condition is exact: all runs agree
      if and only if no token comes back after the node changed. */
  lemma AgreementExactly<V(!new)>(w: World<V>)
    requires forall v :: w.window(v) == 0
    ensures AlwaysAgrees(w) <==> TokensNeverRecur(w)
  {
    if TokensNeverRecur(w) {
      forall states, steps, i | IsRun(w, states, steps) && 0 <= i < |states| ensures Agrees(w, states[i]) {
        CacheAgreement(w, states, steps, i);
      }
    } else {
      var uri: string, m: nat, n: nat, k: nat :|
        m <= k <= n && w.token(uri, m) == w.token(uri, n) && w.value(uri, k) != w.value(uri, m);
      var s := ReadAcross(w, uri, m, if w.value(uri, n) == w.value(uri, k) then m else k, n);
      var states, steps :| IsRun(w, states, steps) && states[|steps|] == s;
      assert uri in s.entries && !Agrees(w, states[|steps|]);
    }
  }

  /** A source whose token is a function of its content, and whose content comes back. */
  lemma RecurringToken() returns (w: World<bool>)
    ensures forall uri, m: nat, n: nat :: w.token(uri, m) == w.token(uri, n) <==> w.value(uri, m) == w.value(uri, n)
    ensures !AlwaysAgrees(w)
  {
    var pure: nat := 0;
    w := World(FacetCache,
               (uri: string, n: nat) => if n % 2 == 0 then "a" else "b", (uri: string, n: nat) => n % 2 == 0,
               (v: bool) => pure, (uri: string) => false);
    assert "a" != "b";
    AgreementExactly(w);
    assert w.token("", 0) == w.token("", 2) && w.value("", 1) != w.value("", 0);
  }

  // ---- Failures over runs ----

  /** The commit that replaces a node's memoized value. */
  predicate StoresTo<V>(s: State<V>, step: Step<V>, uri: string) {
    step.Commit? && step.job in s.jobs && s.jobs[step.job].Computed? && s.jobs[step.job].uri == uri
  }

  /** Only a finished computation changes an entry's value, token or compute time;
      a failed refresh, above all, does not. */
  lemma OnlyStoresReplace<V>(w: World<V>, s: State<V>, step: Step<V>, uri: string)
    requires Enabled(w, s, step) && !StoresTo(s, step, uri)
    requires uri in Apply(w, s, step).entries
    ensures uri in s.entries
    ensures var e, e' := s.entries[uri], Apply(w, s, step).entries[uri];
            e'.result == e.result && e'.token == e.token && e'.computedAt == e.computedAt && e'.window == e.window
  {
  }

  /** The step is a failed refresh of `uri` recording its error. */
  predicate FailsRefresh<V>(s: State<V>, step: Step<V>, uri: string) {
    step.Commit? && step.job in s.jobs && s.jobs[step.job].MustMarkError? && s.jobs[step.job].uri == uri
  }

  /** The step starts a refresh of `uri` that will call the plugin. */
  predicate StartsRefresh<V>(w: World<V>, s: State<V>, step: Step<V>, uri: string) {
    step.Refresh? && step.uri == uri && step.job !in s.jobs && step.job in Apply(w, s, step).jobs
  }

  /** The step leaves `uri` cached and does not clear its failures. */
  predicate KeepsFailing<V>(s: State<V>, step: Step<V>, uri: string) {
    && uri in s.entries
    && (step.DropAll? ==> uri !in step.uris)
    && (step.Commit? && step.job in s.jobs && s.jobs[step.job].uri == uri ==> s.jobs[step.job].MustMarkError?)
  }

  lemma BackoffMonotone(m: nat, n: nat)
    requires m <= n
    ensures Backoff(m) <= Backoff(n)
  {
    Pow2Monotone(if m == 0 then 0 else m - 1, if n == 0 then 0 else n - 1);
  }

  lemma FailingStep<V(!new)>(w: World<V>, s: State<V>, step: Step<V>, uri: string)
    requires Inv(w, s) && Enabled(w, s, step) && KeepsFailing(s, step, uri)
    ensures uri in Apply(w, s, step).entries && s.clock <= Apply(w, s, step).clock
    ensures var e, e' := s.entries[uri], Apply(w, s, step).entries[uri];
            && e.failures <= e'.failures && e.retryAfter <= e'.retryAfter
            && (FailsRefresh(s, step, uri) ==>
                  e'.failures == e.failures + 1 && e'.retryAfter == s.clock + Backoff(e'.failures))
  {
    var e := s.entries[uri];
    assert EntryOk(w, uri, e, s.version, s.clock);
    BackoffMonotone(e.failures, e.failures + 1);
  }

  lemma {:induction false} FailingRun<V(!new)>(w: World<V>, states: seq<State<V>>, steps: seq<Step<V>>, uri: string,
                                               lo: nat, hi: nat)
    requires IsRun(w, states, steps) && lo <= hi <= |steps| && uri in states[lo].entries
    requires forall i :: lo <= i < hi ==> KeepsFailing(states[i], steps[i], uri)
    ensures uri in states[hi].entries && states[lo].clock <= states[hi].clock
    ensures states[lo].entries[uri].failures <= states[hi].entries[uri].failures
    ensures states[lo].entries[uri].retryAfter <= states[hi].entries[uri].retryAfter
    decreases hi
  {
    if lo < hi {
      FailingRun(w, states, steps, uri, lo, hi - 1);
      RunInv(w, states, steps, hi - 1);
      FailingStep(w, states[hi - 1], steps[hi - 1], uri);
    }
  }

  /** The back-off gaps after the first n failures. */
  function GapSum(n: nat): nat {
    if n == 0 then 0 else GapSum(n - 1) + Backoff(n)
  }

  /** Refresh attempts of `uri` inside a failing stretch: attempt k starts at
      step `attempts[k].0`, fails at `attempts[k].1`, and the next starts later. */
  ghost predicate Attempts<V>(w: World<V>, states: seq<State<V>>, steps: seq<Step<V>>, uri: string,
                              attempts: seq<(nat, nat)>)
    requires |states| == |steps| + 1
  {
    && (forall k :: 0 <= k < |attempts| ==>
          && attempts[k].0 < attempts[k].1 < |steps|
          && Enabled(w, states[attempts[k].0], steps[attempts[k].0])
          && StartsRefresh(w, states[attempts[k].0], steps[attempts[k].0], uri)
          && FailsRefresh(states[attempts[k].1], steps[attempts[k].1], uri))
    && (forall k :: 0 <= k < |attempts| - 1 ==> attempts[k].1 < attempts[k + 1].0)
  }

  /** After a failure that is at least the m-th in a row, the next refresh waits out its gap. */
  lemma AttemptGap<V(!new)>(w: World<V>, states: seq<State<V>>, steps: seq<Step<V>>, uri: string, a: nat, f: nat,
                            b: nat, m: nat)
    requires IsRun(w, states, steps) && a < f < b < |steps| && m > 0
    requires forall i :: a <= i < b ==> KeepsFailing(states[i], steps[i], uri)
    requires uri in states[a].entries && states[a].entries[uri].failures >= m - 1
    requires FailsRefresh(states[f], steps[f], uri)
    requires Enabled(w, states[b], steps[b]) && StartsRefresh(w, states[b], steps[b], uri)
    ensures uri in states[b].entries && states[b].entries[uri].failures >= m
    ensures states[b].clock >= states[f].clock + Backoff(m) >= states[a].clock + Backoff(m)
  {
    FailingRun(w, states, steps, uri, a, f);
    RunInv(w, states, steps, f);
    FailingStep(w, states[f], steps[f], uri);
    FailingRun(w, states, steps, uri, f + 1, b);
    BackoffMonotone(m, states[f + 1].entries[uri].failures);
    assert states[b].clock >= states[b].entries[uri].retryAfter;
  }

  /** While an always-failing entry stays cached, m + 1 refresh attempts span at
      least the sum of the first m back-off gaps. */
  lemma {:induction false} BackoffSpan<V(!new)>(w: World<V>, states: seq<State<V>>, steps: seq<Step<V>>, uri: string,
                                       attempts: seq<(nat, nat)>, m: nat)
    requires IsRun(w, states, steps) && Attempts(w, states, steps, uri, attempts) && m < |attempts|
    requires forall i :: attempts[0].0 <= i < |steps| ==> KeepsFailing(states[i], steps[i], uri)
    ensures attempts[0].0 <= attempts[m].0
    ensures uri in states[attempts[m].0].entries && states[attempts[m].0].entries[uri].failures >= m
    ensures states[attempts[m].0].clock >= states[attempts[0].0].clock + GapSum(m)
    decreases m
  {
    if m > 0 {
      BackoffSpan(w, states, steps, uri, attempts, m - 1);
      var a, f, b := attempts[m - 1].0, attempts[m - 1].1, attempts[m].0;
      assert attempts[m - 1].1 < attempts[m].0;
      AttemptGap(w, states, steps, uri, a, f, b, m);
    } else {
      assert KeepsFailing(states[attempts[0].0], steps[attempts[0].0], uri);
    }
  }
}
