/** What a refresh or a read that misses does, from its first locked section to its
    last (refreshOne and computeAndStore in facet_cache.go and listing_cache.go):
    which entries it replaces, which it only verifies, and what it leaves behind. */
module MemoRefresh {
  import opened Prelude
  import opened MemoCache

  // ---- What a read serves, and when a refresh starts ----

  /** A read serves the entry as it is exactly when it is cached and young enough: a
      listing within its volatile window, a lazy node within the TTL. */
  lemma ReadServesExactly<V>(w: World<V>, s: State<V>, id: nat, uri: string)
    requires id !in s.jobs
    ensures id !in Apply(w, s, Read(id, uri)).jobs <==>
              && uri in s.entries
              && (w.kind.ListingCache? && s.entries[uri].window > 0 ==>
                    s.clock < s.entries[uri].computedAt + s.entries[uri].window)
              && (w.lazy(uri) ==> s.clock < s.entries[uri].computedAt + TTL)
    ensures id !in Apply(w, s, Read(id, uri)).jobs ==> Apply(w, s, Read(id, uri)) == s
  {
  }

  /** A refresh calls the plugin exactly for a cached, eager node out of its back-off. */
  lemma RefreshStartsExactly<V>(w: World<V>, s: State<V>, id: nat, uri: string)
    requires id !in s.jobs
    ensures id in Apply(w, s, Refresh(id, uri)).jobs <==>
              !w.lazy(uri) && uri in s.entries && s.entries[uri].retryAfter <= s.clock
    ensures Apply(w, s, Refresh(id, uri)).entries == s.entries
  {
  }

  // ---- One job from start to commit ----

  /** The volatile window of the entry has passed. */
  predicate Lapsed<V>(e: Entry<V>, now: nat) {
    e.window > 0 && now >= e.computedAt + e.window
  }

  /** A refresh recomputes only an entry past its window or its TTL, or one with a token. */
  predicate Due<V>(s0: State<V>, s: State<V>, uri: string, refresh: bool) {
    refresh && uri in s0.entries ==>
      var e := s0.entries[uri];
      Lapsed(e, s0.clock) || e.token.Some? || s.clock >= e.computedAt + TTL
  }

  predicate InFlow(flow: Flow, refresh: bool) {
    flow == if refresh then Refreshing else Serving
  }

  /** The token was fetched at this version. */
  predicate TokenAt<V>(w: World<V>, uri: string, version: nat, token: Option<string>) {
    token.Some? ==> token.value == w.token(uri, version)
  }

  /** Where a job that started in s0 stands. */
  ghost predicate JobOnTrack<V>(w: World<V>, s0: State<V>, s: State<V>, j: Job<V>, uri: string, refresh: bool)
    requires refresh ==> uri in s0.entries
  {
    match j
    case Resolving(_, prevToken, computedAt, expired) =>
      && refresh && prevToken == s0.entries[uri].token && computedAt == s0.entries[uri].computedAt
      && expired == Lapsed(s0.entries[uri], s0.clock)
    case Checking(_, expected) =>
      refresh && !Lapsed(s0.entries[uri], s0.clock) && s0.entries[uri].token == Some(expected)
    case MustMarkVerified(_) =>
      && refresh && !Lapsed(s0.entries[uri], s0.clock)
      && s0.entries[uri].token == Some(w.token(uri, s0.version))
    case NeedToken(_, flow) => InFlow(flow, refresh) && Due(s0, s, uri, refresh)
    case HaveToken(_, flow, token, from) =>
      InFlow(flow, refresh) && Due(s0, s, uri, refresh) && TokenAt(w, uri, s0.version, token)
    case Computing(_, flow, token, from, start) =>
      InFlow(flow, refresh) && Due(s0, s, uri, refresh) && TokenAt(w, uri, s0.version, token) && start == s0.version
    case Computed(_, flow, token, from, to, result) =>
      && InFlow(flow, refresh) && Due(s0, s, uri, refresh) && TokenAt(w, uri, s0.version, token)
      && result == w.value(uri, s0.version)
    case MustMarkError(_, _) => refresh
    case MustDrop(_) => refresh
  }

  /** The node, its entry and the job of `id` since s0. */
  ghost predicate OnTrack<V>(w: World<V>, s0: State<V>, s: State<V>, id: nat, uri: string, refresh: bool) {
    && s.version == s0.version && s0.clock <= s.clock
    && (uri in s.entries <==> uri in s0.entries)
    && (uri in s0.entries ==> s.entries[uri] == s0.entries[uri])
    && (refresh ==> uri in s0.entries)
    && id in s.jobs && s.jobs[id].uri == uri
    && JobOnTrack(w, s0, s, s.jobs[id], uri, refresh)
  }

  /** The step neither changes the source nor replaces, marks or drops the entry, and
      the job of `id` lives on. */
  predicate Calm<V>(w: World<V>, s: State<V>, step: Step<V>, id: nat, uri: string)
    requires Enabled(w, s, step)
  {
    && !step.Advance?
    && (step.Commit? ==> s.jobs[step.job].uri != uri)
    && (step.DropAll? ==> uri !in step.uris)
    && id in Apply(w, s, step).jobs
  }

  lemma TrackStep<V(!new)>(w: World<V>, s0: State<V>, s: State<V>, step: Step<V>, id: nat, uri: string, refresh: bool)
    requires OnTrack(w, s0, s, id, uri, refresh) && Enabled(w, s, step) && Honest(w, s, step)
    requires Calm(w, s, step, id, uri)
    ensures OnTrack(w, s0, Apply(w, s, step), id, uri, refresh)
  {
    if Moves(step, id) {
      OwnStep(w, s0, s, step, id, uri, refresh);
    } else {
      OtherStep(w, s, step, id, uri);
    }
  }

  /** The step belongs to the job of `id`. */
  predicate Moves<V>(step: Step<V>, id: nat) {
    match step
    case Resolve(job, _) => job == id
    case CheckToken(job, _) => job == id
    case FetchToken(job, _) => job == id
    case BeginCompute(job) => job == id
    case EndCompute(job, _) => job == id
    case _ => false
  }

  lemma OwnStep<V(!new)>(w: World<V>, s0: State<V>, s: State<V>, step: Step<V>, id: nat, uri: string, refresh: bool)
    requires OnTrack(w, s0, s, id, uri, refresh) && Enabled(w, s, step) && Honest(w, s, step)
    requires Moves(step, id) && id in Apply(w, s, step).jobs
    ensures OnTrack(w, s0, Apply(w, s, step), id, uri, refresh)
  {
  }

  lemma OtherStep<V>(w: World<V>, s: State<V>, step: Step<V>, id: nat, uri: string)
    requires Enabled(w, s, step) && Calm(w, s, step, id, uri)
    requires id in s.jobs && s.jobs[id].uri == uri && !Moves(step, id)
    ensures var s' := Apply(w, s, step);
            && s'.version == s.version && s.clock <= s'.clock && s'.jobs[id] == s.jobs[id]
            && (uri in s'.entries <==> uri in s.entries)
            && (uri in s.entries ==> s'.entries[uri] == s.entries[uri])
  {
  }

  /** The steps a and b begin and commit the job of `id` on `uri`, with nothing else
      happening to the node or its entry in between. */
  ghost predicate Undisturbed<V(!new)>(w: World<V>, states: seq<State<V>>, steps: seq<Step<V>>, id: nat, uri: string,
                                       refresh: bool, a: nat, b: nat) {
    && IsRun(w, states, steps) && a < b < |steps|
    && steps[a] == (if refresh then Refresh(id, uri) else Read(id, uri))
    && id in states[a + 1].jobs && steps[b] == Commit(id)
    && (forall i :: a < i < b ==> Enabled(w, states[i], steps[i]) && Calm(w, states[i], steps[i], id, uri))
  }

  lemma TrackStart<V(!new)>(w: World<V>, s: State<V>, id: nat, uri: string, refresh: bool)
    requires id !in s.jobs
    requires id in Apply(w, s, if refresh then Refresh(id, uri) else Read(id, uri)).jobs
    ensures OnTrack(w, s, Apply(w, s, if refresh then Refresh(id, uri) else Read(id, uri)), id, uri, refresh)
  {
  }

  lemma {:induction false} Tracked<V(!new)>(w: World<V>, states: seq<State<V>>, steps: seq<Step<V>>, id: nat,
                                            uri: string, refresh: bool, a: nat, b: nat, i: nat)
    requires Undisturbed(w, states, steps, id, uri, refresh, a, b) && a < i <= b
    ensures OnTrack(w, states[a], states[i], id, uri, refresh)
    decreases i
  {
    if i == a + 1 {
      assert Enabled(w, states[a], steps[a]);
      TrackStart(w, states[a], id, uri, refresh);
    } else {
      Tracked(w, states, steps, id, uri, refresh, a, b, i - 1);
      TrackStep(w, states[a], states[i - 1], steps[i - 1], id, uri, refresh);
    }
  }

  /** The job commits a value, fresh or verified: it neither failed nor was declined. */
  predicate CommitsValue<V>(s: State<V>, id: nat) {
    id in s.jobs && (s.jobs[id].Computed? || s.jobs[id].MustMarkVerified?)
  }

  /** The entry of a node that was just made sure of, at this version and time. */
  ghost predicate Current<V>(w: World<V>, s: State<V>, uri: string) {
    && uri in s.entries
    && var e := s.entries[uri];
       && e.result == w.value(uri, s.version)
       && TokenAt(w, uri, s.version, e.token)
       && e.verifiedAt == s.clock && !e.dirty && e.lastErr == "" && e.failures == 0 && e.retryAfter == 0
  }

  /** With tokens that never recur, a refresh that ends without an error leaves the
      node's current value in the cache, and so does a read that misses. */
  lemma RefreshesToCurrent<V(!new)>(w: World<V>, states: seq<State<V>>, steps: seq<Step<V>>, id: nat, uri: string,
                                    refresh: bool, a: nat, b: nat)
    requires TokensNeverRecur(w) && Undisturbed(w, states, steps, id, uri, refresh, a, b)
    requires CommitsValue(states[b], id)
    ensures Current(w, states[b + 1], uri)
  {
    Tracked(w, states, steps, id, uri, refresh, a, b, b);
    if states[b].jobs[id].MustMarkVerified? {
      UnmovedIsCurrent(w, states, steps, a, uri);
    }
    CommitCurrent(w, states[a], states[b], id, uri, refresh);
  }

  lemma UnmovedIsCurrent<V(!new)>(w: World<V>, states: seq<State<V>>, steps: seq<Step<V>>, i: nat, uri: string)
    requires TokensNeverRecur(w) && IsRun(w, states, steps) && i < |states|
    requires uri in states[i].entries && states[i].entries[uri].token == Some(w.token(uri, states[i].version))
    ensures states[i].entries[uri].result == w.value(uri, states[i].version)
  {
    RunInv(w, states, steps, i);
    var s := states[i];
    BackedIsCurrent(w, uri, s.entries[uri].token.value, s.entries[uri].result, s.version);
  }

  lemma CommitCurrent<V(!new)>(w: World<V>, s0: State<V>, s: State<V>, id: nat, uri: string, refresh: bool)
    requires OnTrack(w, s0, s, id, uri, refresh) && CommitsValue(s, id)
    requires s.jobs[id].MustMarkVerified? ==> s0.entries[uri].result == w.value(uri, s0.version)
    ensures Current(w, Apply(w, s, Commit(id)), uri)
  {
  }

  /** A refresh only verifies an entry whose token still is the source's, inside its
      window; it then leaves value and compute time alone. Any other refresh that ends
      without an error recomputed, and restarts the entry's age. */
  lemma VerifiesOrRecomputes<V(!new)>(w: World<V>, states: seq<State<V>>, steps: seq<Step<V>>, id: nat, uri: string,
                                      a: nat, b: nat)
    requires Undisturbed(w, states, steps, id, uri, true, a, b) && CommitsValue(states[b], id)
    ensures uri in states[a].entries && uri in states[b + 1].entries
    ensures var e, e' := states[a].entries[uri], states[b + 1].entries[uri];
            if states[b].jobs[id].MustMarkVerified? then
              && e.token == Some(w.token(uri, states[a].version)) && !Lapsed(e, states[a].clock)
              && e'.result == e.result && e'.token == e.token && e'.window == e.window
              && e'.computedAt == e.computedAt
            else
              && (Lapsed(e, states[a].clock) || e.token.Some? || states[b].clock >= e.computedAt + TTL)
              && e'.computedAt == states[b].clock && e'.window == w.window(e'.result)
  {
    Tracked(w, states, steps, id, uri, true, a, b, b);
  }

  /** The job holds this token, or is past its computation with it. */
  predicate Carries<V>(j: Job<V>, token: Option<string>) {
    match j
    case HaveToken(_, _, held, _) => held == token
    case Computing(_, _, held, _, _) => held == token
    case Computed(_, _, held, _, _, _) => held == token
    case MustMarkError(_, _) => true
    case MustDrop(_) => true
    case _ => false
  }

  lemma CarriesStep<V>(w: World<V>, s: State<V>, step: Step<V>, id: nat, uri: string, token: Option<string>)
    requires Enabled(w, s, step) && Calm(w, s, step, id, uri)
    requires id in s.jobs && s.jobs[id].uri == uri && Carries(s.jobs[id], token)
    ensures id in Apply(w, s, step).jobs && Apply(w, s, step).jobs[id].uri == uri
    ensures Carries(Apply(w, s, step).jobs[id], token)
  {
    if !Moves(step, id) {
      OtherStep(w, s, step, id, uri);
    }
  }

  lemma {:induction false} CarriesOn<V(!new)>(w: World<V>, states: seq<State<V>>, steps: seq<Step<V>>, id: nat,
                                              uri: string, refresh: bool, a: nat, b: nat, k: nat, i: nat,
                                              token: Option<string>)
    requires Undisturbed(w, states, steps, id, uri, refresh, a, b) && a < k <= i <= b
    requires id in states[k].jobs && states[k].jobs[id].uri == uri && Carries(states[k].jobs[id], token)
    ensures id in states[i].jobs && states[i].jobs[id].uri == uri && Carries(states[i].jobs[id], token)
    decreases i
  {
    if k < i {
      CarriesOn(w, states, steps, id, uri, refresh, a, b, k, i - 1, token);
      CarriesStep(w, states[i - 1], steps[i - 1], id, uri, token);
    }
  }

  /** The token stored with a computed value is the source's, if it offered one when asked. */
  lemma StoresOfferedToken<V(!new)>(w: World<V>, states: seq<State<V>>, steps: seq<Step<V>>, id: nat, uri: string,
                                    refresh: bool, a: nat, b: nat, k: nat, reply: Reply)
    requires Undisturbed(w, states, steps, id, uri, refresh, a, b) && a < k < b && steps[k] == FetchToken(id, reply)
    requires CommitsValue(states[b], id)
    ensures uri in states[b + 1].entries
    ensures states[b + 1].entries[uri].token
            == if reply.Offered? then Some(w.token(uri, states[b + 1].version)) else None
  {
    var token := if reply.Offered? then Some(w.token(uri, states[k].version)) else None;
    Tracked(w, states, steps, id, uri, refresh, a, b, k);
    FetchedCarries(w, states[k], id, uri, reply);
    CarriesOn(w, states, steps, id, uri, refresh, a, b, k + 1, b, token);
    Tracked(w, states, steps, id, uri, refresh, a, b, b);
  }

  lemma FetchedCarries<V>(w: World<V>, s: State<V>, id: nat, uri: string, reply: Reply)
    requires Enabled(w, s, FetchToken(id, reply)) && s.jobs[id].uri == uri
    ensures var t := Apply(w, s, FetchToken(id, reply));
            && id in t.jobs && t.jobs[id].uri == uri
            && Carries(t.jobs[id], if reply.Offered? then Some(w.token(uri, s.version)) else None)
  {
  }

  /** The job has not left the cheap path. */
  predicate Spared<V>(j: Job<V>) {
    j.Resolving? || j.Checking? || j.MustMarkVerified? || j.MustMarkError? || j.MustDrop?
  }

  /** A source that offers the token it offered before, inside the window, is not asked
      to recompute. */
  lemma {:induction false} UnmovedIsSpared<V(!new)>(w: World<V>, states: seq<State<V>>, steps: seq<Step<V>>, id: nat,
                                                    uri: string, a: nat, b: nat, i: nat)
    requires Undisturbed(w, states, steps, id, uri, true, a, b) && a < i <= b
    requires uri in states[a].entries && !Lapsed(states[a].entries[uri], states[a].clock)
    requires states[a].entries[uri].token == Some(w.token(uri, states[a].version))
    requires forall k :: a < k < i && steps[k].CheckToken? && steps[k].job == id ==> !steps[k].reply.NotOffered?
    ensures id in states[i].jobs && Spared(states[i].jobs[id])
    decreases i
  {
    if i == a + 1 {
      assert Enabled(w, states[a], steps[a]);
    } else {
      UnmovedIsSpared(w, states, steps, id, uri, a, b, i - 1);
      Tracked(w, states, steps, id, uri, true, a, b, i - 1);
      SparedStep(w, states[a], states[i - 1], steps[i - 1], id, uri);
    }
  }

  lemma SparedStep<V(!new)>(w: World<V>, s0: State<V>, s: State<V>, step: Step<V>, id: nat, uri: string)
    requires OnTrack(w, s0, s, id, uri, true) && Spared(s.jobs[id]) && Enabled(w, s, step)
    requires Calm(w, s, step, id, uri)
    requires !Lapsed(s0.entries[uri], s0.clock) && s0.entries[uri].token == Some(w.token(uri, s0.version))
    requires step.CheckToken? && step.job == id ==> !step.reply.NotOffered?
    ensures Spared(Apply(w, s, step).jobs[id])
  {
    if !Moves(step, id) {
      OtherStep(w, s, step, id, uri);
    }
  }

  // ---- Refreshes that fail or are declined ----

  /** The step ends the job's refresh with this error. */
  predicate Errs<V>(step: Step<V>, id: nat, err: string) {
    step == Resolve(id, Failed(err)) || step == CheckToken(id, Failed(err)) || FailsToCompute(step, id, err)
  }

  predicate FailsToCompute<V>(step: Step<V>, id: nat, err: string) {
    step.EndCompute? && step.job == id && step.answer.ComputeFailed? && step.answer.err == err
  }

  /** The step finds that the source no longer summarizes the node. */
  predicate Declines<V>(w: World<V>, step: Step<V>, id: nat) {
    || (step == Resolve(id, NotOffered) && w.kind.FacetCache?)
    || (step.EndCompute? && step.job == id && step.answer.ComputeDeclined?)
  }

  predicate Succeeds<V>(w: World<V>, step: Step<V>, id: nat) {
    && (step.Resolve? && step.job == id ==>
          !step.reply.Failed? && (w.kind.FacetCache? ==> !step.reply.NotOffered?))
    && (step.CheckToken? && step.job == id ==> !step.reply.Failed?)
    && (step.EndCompute? && step.job == id ==> step.answer.Value?)
  }

  /** A job whose calls all succeed commits a value. */
  lemma {:induction false} SuccessCommitsValue<V(!new)>(w: World<V>, states: seq<State<V>>, steps: seq<Step<V>>,
                                                        id: nat, uri: string, refresh: bool, a: nat, b: nat, i: nat)
    requires Undisturbed(w, states, steps, id, uri, refresh, a, b) && a < i <= b
    requires forall k :: a < k < i ==> Succeeds(w, steps[k], id)
    ensures id in states[i].jobs && !states[i].jobs[id].MustMarkError? && !states[i].jobs[id].MustDrop?
    ensures i == b ==> CommitsValue(states[i], id)
    decreases i
  {
    if i == a + 1 {
      assert Enabled(w, states[a], steps[a]);
    } else {
      SuccessCommitsValue(w, states, steps, id, uri, refresh, a, b, i - 1);
      Tracked(w, states, steps, id, uri, refresh, a, b, i - 1);
      SuccessStep(w, states[i - 1], steps[i - 1], id, uri);
    }
    if i == b {
      assert Enabled(w, states[b], steps[b]);
    }
  }

  lemma SuccessStep<V>(w: World<V>, s: State<V>, step: Step<V>, id: nat, uri: string)
    requires Enabled(w, s, step) && Calm(w, s, step, id, uri) && Succeeds(w, step, id)
    requires id in s.jobs && s.jobs[id].uri == uri && !s.jobs[id].MustMarkError? && !s.jobs[id].MustDrop?
    ensures id in Apply(w, s, step).jobs
    ensures !Apply(w, s, step).jobs[id].MustMarkError? && !Apply(w, s, step).jobs[id].MustDrop?
  {
    if !Moves(step, id) {
      OtherStep(w, s, step, id, uri);
    }
  }

  /** A job ends without a commit only if it is a refresh of a tokenless entry inside its
      window and TTL, or a read whose computation gave nothing. */
  lemma EndsByCommit<V(!new)>(w: World<V>, s0: State<V>, s: State<V>, step: Step<V>, id: nat, uri: string,
                              refresh: bool)
    requires OnTrack(w, s0, s, id, uri, refresh) && Enabled(w, s, step) && id !in Apply(w, s, step).jobs
    ensures || step == Commit(id)
            || (refresh && step.Resolve? && s0.entries[uri].token.None? && !Lapsed(s0.entries[uri], s0.clock)
                && s.clock < s0.entries[uri].computedAt + TTL)
            || (!refresh && step.EndCompute? && !step.answer.Value?)
  {
  }

  /** The outcome of a job that only waits for its commit does not change. */
  lemma {:induction false} Decided<V(!new)>(w: World<V>, states: seq<State<V>>, steps: seq<Step<V>>, id: nat,
                                            uri: string, a: nat, b: nat, k: nat, i: nat, j: Job<V>)
    requires Undisturbed(w, states, steps, id, uri, true, a, b) && a < k <= i <= b
    requires id in states[k].jobs && states[k].jobs[id] == j && j.uri == uri && (j.MustMarkError? || j.MustDrop?)
    ensures id in states[i].jobs && states[i].jobs[id] == j
    decreases i
  {
    if k < i {
      Decided(w, states, steps, id, uri, a, b, k, i - 1, j);
      DecidedStep(w, states[i - 1], steps[i - 1], id, uri);
    }
  }

  lemma DecidedStep<V>(w: World<V>, s: State<V>, step: Step<V>, id: nat, uri: string)
    requires Enabled(w, s, step) && Calm(w, s, step, id, uri)
    requires id in s.jobs && s.jobs[id].uri == uri && (s.jobs[id].MustMarkError? || s.jobs[id].MustDrop?)
    ensures id in Apply(w, s, step).jobs && Apply(w, s, step).jobs[id] == s.jobs[id]
  {
    assert !Moves(step, id);
    OtherStep(w, s, step, id, uri);
  }

  /** A refresh that fails keeps the entry's value, records the error and backs off. */
  lemma FailureRecorded<V(!new)>(w: World<V>, states: seq<State<V>>, steps: seq<Step<V>>, id: nat, uri: string,
                                 a: nat, b: nat, k: nat, err: string)
    requires Undisturbed(w, states, steps, id, uri, true, a, b) && a < k < b && Errs(steps[k], id, err)
    ensures uri in states[a].entries && uri in states[b + 1].entries
    ensures var e := states[a].entries[uri];
            states[b + 1].entries[uri] == Entry(e.result, e.token, e.computedAt, e.verifiedAt, true, err,
                                                e.failures + 1, states[b].clock + Backoff(e.failures + 1), e.window)
  {
    Tracked(w, states, steps, id, uri, true, a, b, k);
    Decided(w, states, steps, id, uri, a, b, k + 1, b, MustMarkError(uri, err));
    Tracked(w, states, steps, id, uri, true, a, b, b);
  }

  /** A refresh whose source declines forgets the entry. */
  lemma DeclineForgets<V(!new)>(w: World<V>, states: seq<State<V>>, steps: seq<Step<V>>, id: nat, uri: string,
                                a: nat, b: nat, k: nat)
    requires Undisturbed(w, states, steps, id, uri, true, a, b) && a < k < b && Declines(w, steps[k], id)
    ensures states[b + 1].entries == states[b].entries - {uri}
  {
    Tracked(w, states, steps, id, uri, true, a, b, k);
    Decided(w, states, steps, id, uri, a, b, k + 1, b, MustDrop(uri));
  }
}
