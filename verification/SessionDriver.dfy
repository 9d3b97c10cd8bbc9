/** The order of a batch (RunBatch in orchestrator.go): each call is made only after
    the one before was answered without an error, and when all are, the session ends
    gracefully. */
module SessionDriver {
  import opened Prelude
  import opened PeerLink
  import opened CaptureSession
  import opened SessionProgress

  predicate AsksFor(m: Msg, body: Body) {
    m.Request? && m.body == body
  }

  /** The plugin's handler answered a request for `body` with a result. */
  ghost predicate Granted(p: Peer, body: Body) {
    exists x :: x in p.handled && AsksFor(x.0, body) && x.1 == Done
  }

  /** Every request sent under this id asks for `body`. */
  ghost predicate CallIs(p: Peer, id: nat, body: Body) {
    forall m :: m in p.sent && m.Request? && m.id == id ==> m.body == body
  }

  /** Where the driver stands, and what it took to get there. */
  ghost predicate DriverOk(s: State) {
    && (forall m :: m in s.orch.sent && AsksFor(m, CaptureBatch) ==> Granted(s.plugin, Initialize))
    && (forall m :: m in s.orch.sent && IsShutdown(m) ==> Granted(s.plugin, CaptureBatch))
    && match s.driver
       case Initializing(id) => CallIs(s.orch, id, Initialize)
       case Capturing(id) => CallIs(s.orch, id, CaptureBatch)
       case Ending => Granted(s.plugin, CaptureBatch)
       case _ => true
  }

  /** Only responses are added, and no answer is forgotten. */
  ghost predicate AddsNoAsk(s: State, t: State) {
    && (forall m :: m in t.orch.sent && !m.Response? ==> m in s.orch.sent)
    && (forall x :: x in s.plugin.handled ==> x in t.plugin.handled)
    && t.driver == s.driver
  }

  lemma DriverFrame(s: State, t: State)
    requires DriverOk(s) && AddsNoAsk(s, t)
    ensures DriverOk(t)
  {
    forall body | Granted(s.plugin, body) ensures Granted(t.plugin, body) {
      var x :| x in s.plugin.handled && AsksFor(x.0, body) && x.1 == Done;
      assert x in t.plugin.handled;
    }
  }

  lemma OthersAddNoAsk(s: State, step: Step, dest: string -> DestAnswer)
    requires Enabled(s, step) && !DriverMove(step)
    ensures AddsNoAsk(s, Apply(s, step, dest))
  {
    if step.OrchFinishes? {
      FinishAddsNoAsk(s, step.aborted);
    } else if step.PluginFinishes? {
      ApplyLoop(s, step, dest);
      LoopAsksNothing(s, step);
    } else {
      OthersAskNothing(s, step, dest);
      KeepsHandled(s, step, dest);
    }
  }

  lemma FinishAddsNoAsk(s: State, aborted: bool)
    requires OrchCanFinish(s, aborted)
    ensures AddsNoAsk(s, OrchFinish(s, aborted))
  {
    FinishPeers(s, aborted);
  }

  lemma KeepsHandled(s: State, step: Step, dest: string -> DestAnswer)
    requires Enabled(s, step) && !DriverMove(step) && !step.OrchFinishes? && !step.PluginFinishes?
    ensures Apply(s, step, dest).plugin.handled == s.plugin.handled
  {
    if WriterMove(step) {
      WriterKeepsHandled(s, step);
    } else if LoopStep(step) {
      ApplyLoop(s, step, dest);
      LoopKeepsHandled(s, step);
    } else {
      OrchKeepsHandled(s, step, dest);
    }
  }

  lemma WriterKeepsHandled(s: State, step: Step)
    requires Enabled(s, step) && WriterMove(step)
    ensures WriterStep(s, step).plugin.handled == s.plugin.handled
  {
  }

  lemma LoopKeepsHandled(s: State, step: Step)
    requires Enabled(s, step) && LoopStep(step) && !step.PluginFinishes?
    ensures PluginStep(s, step).plugin.handled == s.plugin.handled
  {
  }

  lemma OrchKeepsHandled(s: State, step: Step, dest: string -> DestAnswer)
    requires Enabled(s, step) && OrchMove(step) && !step.OrchFinishes?
    ensures OrchStep(s, step, dest).plugin.handled == s.plugin.handled
  {
  }

  lemma FreshCall(x: Peer, y: Peer, body: Body)
    requires Linked(x, y)
    ensures CallIs(Call(x, y, body).0, x.nextId + 1, body)
    ensures forall m :: m in Call(x, y, body).0.sent && !m.Response? ==>
              m in x.sent || m == Request(x.nextId + 1, body)
    ensures Call(x, y, body).1.handled == y.handled
  {
    NewCall(x, y, body);
  }

  /** An answer is the answer to the call's own request. */
  lemma GrantedAnswer(s: State, id: nat, body: Body)
    requires Linked(s.plugin, s.orch) && CallIs(s.orch, id, body)
    requires id in s.orch.answers && s.orch.answers[id] == Done
    ensures Granted(s.plugin, body)
  {
    var k := Correlated(s.orch, s.plugin, id);
    assert s.plugin.handled[k] in s.plugin.handled;
  }

  lemma DriverKeeps(s: State, step: Step)
    requires Linked(s.plugin, s.orch) && DriverOk(s) && Enabled(s, step) && DriverMove(step)
    ensures DriverOk(DriverStep(s, step))
  {
    match step
    case DriverCalls => FreshCall(s.orch, s.plugin, Initialize);
    case DriverAnswered => AnsweredKeeps(s);
    case DriverShutsDown(_) =>
    case DriverGivesUp =>
  }

  lemma AnsweredKeeps(s: State)
    requires Linked(s.plugin, s.orch) && DriverOk(s) && Enabled(s, DriverAnswered)
    ensures DriverOk(DriverStep(s, DriverAnswered))
  {
    if s.orch.answers[s.driver.id] != Done {
      RefusalKeeps(s);
    } else if s.driver.Initializing? {
      InitializedKeeps(s);
    } else {
      GrantedAnswer(s, s.driver.id, CaptureBatch);
    }
  }

  lemma RefusalKeeps(s: State)
    requires DriverOk(s) && Enabled(s, DriverAnswered) && s.orch.answers[s.driver.id] != Done
    ensures DriverOk(DriverStep(s, DriverAnswered))
  {
  }

  lemma InitializedKeeps(s: State)
    requires Linked(s.plugin, s.orch) && DriverOk(s) && Enabled(s, DriverAnswered)
    requires s.driver.Initializing? && s.orch.answers[s.driver.id] == Done
    ensures DriverOk(DriverStep(s, DriverAnswered))
  {
    var id := s.driver.id;
    GrantedAnswer(s, id, Initialize);
    LinkedUnregister(s.orch, s.plugin, id);
    BatchCalled(s, Unregister(s.orch, id), DriverStep(s, DriverAnswered));
  }

  /** The batch is asked for by a driver whose initialize was granted. */
  lemma BatchCalled(s: State, orch: Peer, t: State)
    requires Linked(orch, s.plugin) && DriverOk(s) && s.driver.Initializing? && Granted(s.plugin, Initialize)
    requires orch.sent == s.orch.sent && (t.orch, t.plugin) == Call(orch, s.plugin, CaptureBatch)
    requires t.driver == Capturing(orch.nextId + 1)
    ensures DriverOk(t)
  {
    FreshCall(orch, s.plugin, CaptureBatch);
  }

  lemma {:induction false} RunDriver(states: seq<State>, steps: seq<Step>, dest: string -> DestAnswer, i: nat)
    requires IsRun(states, steps, dest) && i < |states|
    ensures DriverOk(states[i])
    decreases i
  {
    if i > 0 {
      RunDriver(states, steps, dest, i - 1);
      RunInv(states, steps, dest, i - 1);
      var s, step := states[i - 1], steps[i - 1];
      if DriverMove(step) {
        DriverKeeps(s, step);
      } else {
        OthersAddNoAsk(s, step, dest);
        DriverFrame(s, states[i]);
      }
    }
  }

  /** In every schedule the batch is asked for only after initialize was granted, and
      the shutdown is sent only after the batch was. */
  lemma BatchInOrder(states: seq<State>, steps: seq<Step>, dest: string -> DestAnswer, i: nat)
    requires IsRun(states, steps, dest) && i < |states|
    ensures (exists m :: m in states[i].orch.sent && AsksFor(m, CaptureBatch)) ==>
              Granted(states[i].plugin, Initialize)
    ensures (exists m :: m in states[i].orch.sent && IsShutdown(m)) ==> Granted(states[i].plugin, CaptureBatch)
  {
    RunDriver(states, steps, dest, i);
  }

  // ---- Whole sessions ----

  const INITIALIZE_CALL := Request(1, Initialize)
  const BATCH_CALL := Request(2, CaptureBatch)
  const SHUTDOWN := Notify(Shutdown)

  /** The plugin serves `m`, the one datagram in its inbox. */
  lemma ReachTaken(s: State, m: Msg, dest: string -> DestAnswer)
    requires Reaches(s, dest) && s.plugin.inbox == [m] && !m.Response?
    requires s.plugin.requests == [] && s.plugin.serving.None? && !s.plugin.done && !s.plugin.closed
    ensures Reaches(Taken(s, m), dest)
  {
    ReachQueued(s, m, dest);
    ReachNext(Queued(s, m), PluginTakes, Taken(s, m), dest);
  }

  lemma ReachQueued(s: State, m: Msg, dest: string -> DestAnswer)
    requires Reaches(s, dest) && s.plugin.inbox == [m] && !m.Response?
    requires s.plugin.requests == [] && !s.plugin.done && !s.plugin.closed
    ensures Reaches(Queued(s, m), dest)
  {
    ReachNext(s, PluginReads, Queued(s, m), dest);
  }

  function Queued(s: State, m: Msg): State {
    s.(plugin := s.plugin.(inbox := [], read := s.plugin.read + [m], requests := [m]))
  }

  function Taken(s: State, m: Msg): State {
    s.(plugin := s.plugin.(inbox := [], read := s.plugin.read + [m], serving := Some(m)))
  }

  /** The driver's one call `m` is waiting and the plugin serves it. */
  predicate Waits(s: State, m: Msg) {
    && m.Request? && s.plugin.serving == Some(m) && !s.plugin.closed
    && s.orch.pending == {m.id} && s.orch.answers == map[] && s.orch.inbox == [] && !s.orch.done && !s.orch.closed
  }

  function Replied(s: State, m: Msg, payload: Payload): State
    requires m.Request?
  {
    var answer := Response(m.id, payload);
    s.(plugin := s.plugin.(serving := None, handled := s.plugin.handled + [(m, payload)],
                           sent := s.plugin.sent + [answer]),
       orch := s.orch.(pending := {}, answers := map[m.id := payload], read := s.orch.read + [answer]))
  }

  /** The handler of `m` returns, and the driver's peer reads the answer. */
  lemma ReachReplied(s: State, m: Msg, payload: Payload, dest: string -> DestAnswer)
    requires Reaches(s, dest) && Waits(s, m) && !IsShutdown(m) && !payload.Began? && !payload.Finished?
    ensures Reaches(Replied(s, m, payload), dest)
  {
    var answer := Response(m.id, payload);
    var s1 := s.(plugin := Replied(s, m, payload).plugin, orch := s.orch.(inbox := [answer]));
    ReachNext(s, PluginFinishes(payload), s1, dest);
    ReachNext(s1, OrchReads, Replied(s, m, payload), dest);
  }

  /** The driver's first call has been sent. */
  function InitializeSent(): State {
    INITIAL.(orch := NEW_PEER.(nextId := 1, pending := {1}, sent := [INITIALIZE_CALL]),
             plugin := NEW_PEER.(inbox := [INITIALIZE_CALL]), driver := Initializing(1))
  }

  /** The plugin has answered initialize. */
  function InitializeReplied(payload: Payload): State {
    Replied(Taken(InitializeSent(), INITIALIZE_CALL), INITIALIZE_CALL, payload)
  }

  lemma ReachInitializeReplied(payload: Payload, dest: string -> DestAnswer)
    requires !payload.Began? && !payload.Finished?
    ensures Reaches(InitializeReplied(payload), dest)
  {
    ReachInitial(dest);
    ReachNext(INITIAL, DriverCalls, InitializeSent(), dest);
    ReachTaken(InitializeSent(), INITIALIZE_CALL, dest);
    ReachReplied(Taken(InitializeSent(), INITIALIZE_CALL), INITIALIZE_CALL, payload, dest);
  }

  /** The plugin serves the batch. */
  function BatchTaken(): State {
    var s := InitializeReplied(Done);
    s.(orch := s.orch.(nextId := 2, pending := {2}, answers := map[], sent := [INITIALIZE_CALL, BATCH_CALL]),
       plugin := s.plugin.(read := [INITIALIZE_CALL, BATCH_CALL], serving := Some(BATCH_CALL)),
       driver := Capturing(2))
  }

  lemma ReachBatchTaken(dest: string -> DestAnswer)
    ensures Reaches(BatchTaken(), dest) && Waits(BatchTaken(), BATCH_CALL) && Quiet(BatchTaken())
  {
    ReachInitializeReplied(Done, dest);
    var s := InitializeReplied(Done);
    var t := s.(orch := BatchTaken().orch, plugin := s.plugin.(inbox := [BATCH_CALL]), driver := Capturing(2));
    assert s.orch.answers - {1} == map[];
    ReachNext(s, DriverAnswered, t, dest);
    ReachTaken(t, BATCH_CALL, dest);
    assert Taken(t, BATCH_CALL) == BatchTaken();
  }

  /** A batch granted in `s` ends gracefully. */
  lemma ReachGraceful(s: State, dest: string -> DestAnswer) returns (t: State)
    requires Reaches(s, dest) && Waits(s, BATCH_CALL) && s.driver == Capturing(2) && s.serve.Running?
    requires s.plugin.inbox == [] && s.plugin.requests == [] && !s.plugin.done
    ensures Reaches(t, dest) && t.serve.ReturnedNil? && t.driver.Closed?
    ensures t.writers == s.writers && t.stored == s.stored && t.open == s.open
    ensures t.orch.sent == s.orch.sent + [SHUTDOWN]
    ensures t.plugin.handled == s.plugin.handled + [(BATCH_CALL, Done), (SHUTDOWN, Done)]
  {
    ReachReplied(s, BATCH_CALL, Done, dest);
    var s1 := Replied(s, BATCH_CALL, Done);
    var s2 := s1.(orch := s1.orch.(answers := map[]), driver := Ending);
    assert s1.orch.answers - {2} == map[];
    ReachNext(s1, DriverAnswered, s2, dest);
    t := ReachShutdown(s2, dest);
  }

  lemma ReachShutdown(s: State, dest: string -> DestAnswer) returns (t: State)
    requires Reaches(s, dest) && s.driver.Ending? && !s.orch.closed && s.serve.Running?
    requires s.plugin.inbox == [] && s.plugin.requests == [] && s.plugin.serving.None?
    requires !s.plugin.done && !s.plugin.closed
    ensures Reaches(t, dest) && t.serve.ReturnedNil? && t.driver.Closed?
    ensures t.writers == s.writers && t.stored == s.stored && t.open == s.open
    ensures t.orch.sent == s.orch.sent + [SHUTDOWN]
    ensures t.plugin.handled == s.plugin.handled + [(SHUTDOWN, Done)]
  {
    var s1 := s.(orch := s.orch.(sent := s.orch.sent + [SHUTDOWN], closed := true),
                 plugin := s.plugin.(inbox := [SHUTDOWN]), driver := Closed);
    ReachNext(s, DriverShutsDown(true), s1, dest);
    ReachTaken(s1, SHUTDOWN, dest);
    t := ReachReturn(Taken(s1, SHUTDOWN), dest);
  }

  /** The shutdown's handler returns, and Serve sees it. */
  lemma ReachReturn(s: State, dest: string -> DestAnswer) returns (t: State)
    requires Reaches(s, dest) && s.plugin.serving == Some(SHUTDOWN) && s.serve.Running?
    ensures Reaches(t, dest) && t.serve.ReturnedNil? && t.driver == s.driver && t.orch == s.orch
    ensures t.writers == s.writers && t.stored == s.stored && t.open == s.open
    ensures t.plugin.handled == s.plugin.handled + [(SHUTDOWN, Done)]
  {
    var s1 := s.(plugin := s.plugin.(serving := None, handled := s.plugin.handled + [(SHUTDOWN, Done)]),
                 shutdownSeen := true);
    ReachNext(s, PluginFinishes(Done), s1, dest);
    t := s1.(serve := ReturnedNil, plugin := s1.plugin.(closed := true));
    ReachNext(s1, ServeSeesShutdown, t, dest);
  }

  /** Any batch of writes the destination takes can be captured from start to end: both
      calls are granted, every write succeeds, the shutdown is sent and Serve returns nil. */
  lemma SessionCanSucceed(datas: seq<string>, dest: string -> DestAnswer) returns (t: State)
    requires forall i :: 0 <= i < |datas| ==> dest(datas[i]).Stored?
    ensures Reaches(t, dest) && t.serve.ReturnedNil? && t.driver.Closed?
    ensures t.plugin.handled == [(INITIALIZE_CALL, Done), (BATCH_CALL, Done), (SHUTDOWN, Done)]
    ensures SHUTDOWN in t.orch.sent
    ensures forall i :: 0 <= i < |datas| ==> WroteAt(t.writers, i, i + 1, datas[i], dest)
    ensures t.stored == seq(|datas|, i requires 0 <= i < |datas| => (i + 1, datas[i]))
  {
    ReachBatchTaken(dest);
    var s := BatchTaken();
    var u := WritesCanSucceed(s, 0, datas, dest);
    t := ReachGraceful(u, dest);
  }

  /** A session whose initialize is refused: nothing else is asked, the socket closes
      and Serve returns the error. */
  lemma RefusedSession(dest: string -> DestAnswer) returns (t: State)
    ensures Reaches(t, dest) && t.serve.ReturnedError? && t.driver.Closed?
    ensures t.plugin.handled == [(INITIALIZE_CALL, Failure)] && t.orch.sent == [INITIALIZE_CALL]
  {
    ReachInitializeReplied(Failure, dest);
    var s := InitializeReplied(Failure);
    var s1 := s.(orch := s.orch.(answers := map[], closed := true), driver := Closed);
    assert s.orch.answers - {1} == map[];
    ReachNext(s, DriverAnswered, s1, dest);
    t := ReachDropped(s1, dest);
  }

  /** A socket closed without a shutdown drains, and Serve reports it. */
  lemma ReachDropped(s: State, dest: string -> DestAnswer) returns (t: State)
    requires Reaches(s, dest) && s.orch.closed && s.serve.Running? && !s.shutdownSeen && !s.drained
    requires s.plugin.inbox == [] && s.plugin.requests == [] && s.plugin.serving.None? && !s.plugin.done
    ensures Reaches(t, dest) && t.serve.ReturnedError? && t.driver == s.driver && t.orch == s.orch
    ensures t.plugin.handled == s.plugin.handled
  {
    var s1 := s.(plugin := s.plugin.(done := true));
    ReachNext(s, PluginReadEnds, s1, dest);
    var s2 := s1.(drained := true);
    ReachNext(s1, PluginDrains, s2, dest);
    t := s2.(serve := ReturnedError, plugin := s2.plugin.(closed := true));
    ReachNext(s2, ServeSeesDone, t, dest);
  }
}
