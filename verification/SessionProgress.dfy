/** Progress of a capture-serve session: a batch handler that waits for its writers
    is freed when the socket closes, so Serve returns; and a write the destination
    takes can succeed. */
module SessionProgress {
  import opened Prelude
  import opened PeerLink
  import opened CaptureSession

  // ---- A batch that waits for its writers ----

  predicate Settled(w: Writer) {
    w.pc.Succeeded? || w.pc.Failed?
  }

  /** The request in service is the batch. */
  predicate InBatch(s: State) {
    s.plugin.serving.Some? && s.plugin.serving.value.Request? && s.plugin.serving.value.body.CaptureBatch?
  }

  /** The batch handler returns only once its writers have, and starts no more. */
  predicate Patient(s: State, step: Step) {
    && !step.StartWrite?
    && (step.PluginFinishes? && InBatch(s) ==> forall w :: w in s.writers ==> Settled(s.writers[w]))
  }

  // ---- The request queue never fills ----

  /** How many requests and notifications the driver has sent by now, at most. */
  function DriverAsks(d: DriverPc): nat {
    match d
    case Starting => 0
    case Initializing(_) => 1
    case Capturing(_) => 2
    case Ending => 2
    case Closed => 3
  }

  predicate AsksBounded(s: State) {
    |Asks(s.orch.sent)| <= DriverAsks(s.driver)
  }

  lemma SendAsks(x: Peer, y: Peer, m: Msg)
    ensures |Asks(Send(x, y, m).0.sent)| <= |Asks(x.sent)| + (if m.Response? then 0 else 1)
    ensures Send(x, y, m).1.sent == y.sent
  {
    AsksAppend(x.sent, m);
  }

  lemma AsksStep(s: State, step: Step, dest: string -> DestAnswer)
    requires AsksBounded(s) && Enabled(s, step)
    ensures AsksBounded(Apply(s, step, dest))
  {
    if DriverMove(step) {
      DriverAsksStep(s, step);
    } else if step.OrchFinishes? {
      FinishAsks(s, step.aborted);
    } else {
      OthersAskNothing(s, step, dest);
    }
  }

  lemma DriverAsksStep(s: State, step: Step)
    requires AsksBounded(s) && Enabled(s, step) && DriverMove(step)
    ensures AsksBounded(DriverStep(s, step))
  {
    match step
    case DriverCalls => CallAsks(s.orch, s.plugin, Initialize);
    case DriverAnswered => AnsweredAsks(s);
    case DriverShutsDown(notify) => ShutdownAsks(s, notify);
    case DriverGivesUp =>
  }

  lemma ShutdownAsks(s: State, notify: bool)
    requires AsksBounded(s) && Enabled(s, DriverShutsDown(notify))
    ensures AsksBounded(DriverStep(s, DriverShutsDown(notify)))
  {
    SendAsks(s.orch, s.plugin, Notify(Shutdown));
  }

  lemma CallAsks(x: Peer, y: Peer, body: Body)
    ensures |Asks(Call(x, y, body).0.sent)| <= |Asks(x.sent)| + 1
  {
    var id := x.nextId + 1;
    SendAsks(x.(nextId := id, pending := x.pending + {id}), y, Request(id, body));
  }

  lemma AnsweredAsks(s: State)
    requires AsksBounded(s) && Enabled(s, DriverAnswered)
    ensures AsksBounded(DriverStep(s, DriverAnswered))
  {
    CallAsks(Unregister(s.orch, s.driver.id), s.plugin, CaptureBatch);
  }

  lemma FinishAsks(s: State, aborted: bool)
    requires AsksBounded(s) && OrchCanFinish(s, aborted)
    ensures AsksBounded(OrchFinish(s, aborted))
  {
    FinishPeers(s, aborted);
    var m := s.orch.serving.value;
    if m.Request? {
      SendAsks(s.orch, s.plugin, Response(m.id, ServedPayload(s, aborted)));
    }
  }

  lemma OthersAskNothing(s: State, step: Step, dest: string -> DestAnswer)
    requires Enabled(s, step) && !DriverMove(step) && !step.OrchFinishes?
    ensures Apply(s, step, dest).orch.sent == s.orch.sent && Apply(s, step, dest).driver == s.driver
  {
    if WriterMove(step) {
      WriterAsksNothing(s, step);
    } else if LoopStep(step) {
      ApplyLoop(s, step, dest);
      LoopAsksNothing(s, step);
    } else {
      OrchAsksNothing(s, step, dest);
    }
  }

  lemma WriterAsksNothing(s: State, step: Step)
    requires Enabled(s, step) && WriterMove(step)
    ensures WriterStep(s, step).orch.sent == s.orch.sent && WriterStep(s, step).driver == s.driver
  {
  }

  lemma LoopAsksNothing(s: State, step: Step)
    requires Enabled(s, step) && LoopStep(step)
    ensures PluginStep(s, step).orch.sent == s.orch.sent && PluginStep(s, step).driver == s.driver
  {
  }

  lemma OrchAsksNothing(s: State, step: Step, dest: string -> DestAnswer)
    requires Enabled(s, step) && OrchMove(step) && !step.OrchFinishes?
    ensures OrchStep(s, step, dest).orch.sent == s.orch.sent && OrchStep(s, step, dest).driver == s.driver
  {
    if step.OrchTakes? {
      TakeAsksNothing(s);
    }
  }

  lemma TakeAsksNothing(s: State)
    requires s.orch.serving.None? && s.orch.requests != []
    ensures OrchTake(s).orch.sent == s.orch.sent && OrchTake(s).driver == s.driver
  {
  }

  lemma {:induction false} RunAsks(states: seq<State>, steps: seq<Step>, dest: string -> DestAnswer, i: nat)
    requires IsRun(states, steps, dest) && i < |states|
    ensures AsksBounded(states[i])
    decreases i
  {
    if i > 0 {
      RunAsks(states, steps, dest, i - 1);
      AsksStep(states[i - 1], steps[i - 1], dest);
    }
  }

  lemma QueueShort(s: State)
    requires Linked(s.plugin, s.orch) && AsksBounded(s)
    ensures |s.plugin.requests| < REQUEST_QUEUE_DEPTH
  {
    ServedInOrder(s.orch, s.plugin);
    var served := Messages(s.plugin.handled) + OptSeq(s.plugin.serving);
    assert |served + s.plugin.requests| <= |Asks(s.orch.sent)|;
  }

  // ---- The writers' remaining work ----

  function Rank(w: Writer): nat {
    match w.pc
    case Beginning => |w.data| + 3
    case Streaming(_, k) => (if k <= |w.data| then |w.data| - k else 0) + 2
    case Finishing(_, _) => 1
    case _ => 0
  }

  ghost function RankSum(writers: map<nat, Writer>, ids: set<nat>): nat
    requires ids <= writers.Keys
  {
    if ids == {} then 0
    else
      var w :| w in ids;
      Rank(writers[w]) + RankSum(writers, ids - {w})
  }

  lemma {:induction false} RankRemove(writers: map<nat, Writer>, ids: set<nat>, w: nat)
    requires ids <= writers.Keys && w in ids
    ensures RankSum(writers, ids) == Rank(writers[w]) + RankSum(writers, ids - {w})
    decreases ids
  {
    var v :| v in ids && RankSum(writers, ids) == Rank(writers[v]) + RankSum(writers, ids - {v});
    if v != w {
      RankRemove(writers, ids - {v}, w);
      RankRemove(writers, ids - {w}, v);
      assert ids - {v} - {w} == ids - {w} - {v};
    }
  }

  lemma {:induction false} RankMonotone(a: map<nat, Writer>, b: map<nat, Writer>, ids: set<nat>)
    requires ids <= a.Keys && ids <= b.Keys && forall w :: w in ids ==> Rank(b[w]) <= Rank(a[w])
    ensures RankSum(b, ids) <= RankSum(a, ids)
    decreases ids
  {
    if ids != {} {
      var w :| w in ids;
      RankRemove(a, ids, w);
      RankRemove(b, ids, w);
      RankMonotone(a, b, ids - {w});
    }
  }

  /** No writer's rank rises, and no writer appears. */
  ghost predicate RanksFall(s: State, t: State) {
    t.writers.Keys == s.writers.Keys && forall w :: w in s.writers ==> Rank(t.writers[w]) <= Rank(s.writers[w])
  }

  /** What is left to do before Serve has returned and every writer with it. */
  ghost function Remaining(s: State): nat {
    ServeWork(s) + RankSum(s.writers, s.writers.Keys)
  }

  lemma OneFalls(s: State, t: State, w: nat)
    requires RanksFall(s, t) && w in s.writers && Rank(t.writers[w]) < Rank(s.writers[w])
    ensures RankSum(t.writers, t.writers.Keys) < RankSum(s.writers, s.writers.Keys)
  {
    RankRemove(s.writers, s.writers.Keys, w);
    RankRemove(t.writers, s.writers.Keys, w);
    RankMonotone(s.writers, t.writers, s.writers.Keys - {w});
  }

  lemma WriterRanks(s: State, step: Step)
    requires Enabled(s, step) && WriterMove(step) && !step.StartWrite?
    ensures RanksFall(s, WriterStep(s, step))
  {
  }

  lemma OthersKeepWriters(s: State, step: Step, dest: string -> DestAnswer)
    requires Enabled(s, step) && !WriterMove(step)
    ensures Apply(s, step, dest).writers == s.writers
  {
    if step.OrchFinishes? {
      FinishKeepsWriters(s, step.aborted);
    }
  }

  lemma FinishKeepsWriters(s: State, aborted: bool)
    requires OrchCanFinish(s, aborted)
    ensures OrchFinish(s, aborted).writers == s.writers
  {
  }

  /** After the close no step but the start of another write raises what is left. */
  lemma NothingRaises(s: State, step: Step, dest: string -> DestAnswer)
    requires ServeInv(s) && s.orch.closed && Enabled(s, step) && !step.StartWrite?
    ensures Apply(s, step, dest).orch.closed && Remaining(Apply(s, step, dest)) <= Remaining(s)
  {
    var t := Apply(s, step, dest);
    ServeWorkFalls(s, step, dest);
    if WriterMove(step) {
      WriterRanks(s, step);
      RankMonotone(s.writers, t.writers, s.writers.Keys);
    } else {
      OthersKeepWriters(s, step, dest);
    }
  }

  // ---- Someone can always move ----

  /** Once the read loop is done, a writer that has not settled has a step of its own
      that brings it nearer: its calls are released, its copy goes on. */
  lemma WriterCanMove(s: State, w: nat, dest: string -> DestAnswer) returns (step: Step)
    requires Inv(s, dest) && w in s.writers && !Settled(s.writers[w])
    ensures Enabled(s, step) && WriterMove(step) && !step.StartWrite?
    ensures w in WriterStep(s, step).writers && Rank(WriterStep(s, step).writers[w]) < Rank(s.writers[w])
  {
    if s.writers[w].pc.Streaming? {
      step := CopierCanMove(s, w, dest);
    } else {
      step := GiveUp(w);
    }
  }

  lemma CopierCanMove(s: State, w: nat, dest: string -> DestAnswer) returns (step: Step)
    requires WriterInv(s) && w in s.writers && s.writers[w].pc.Streaming?
    ensures Enabled(s, step) && (step == Copy(w, 1) || step == CopyEnds(w))
    ensures w in WriterStep(s, step).writers && Rank(WriterStep(s, step).writers[w]) < Rank(s.writers[w])
  {
    assert WriterOk(s, s.writers[w]);
    step := if s.writers[w].pc.written < |s.writers[w].data| then Copy(w, 1) else CopyEnds(w);
  }

  /** After the close, until Serve has returned, some step is enabled that lowers what
      is left, without the batch handler returning before its writers. */
  lemma PatientMove(s: State, dest: string -> DestAnswer) returns (step: Step)
    requires Inv(s, dest) && AsksBounded(s) && s.orch.closed && s.serve.Running?
    ensures Enabled(s, step) && Patient(s, step)
    ensures WriterMove(step) ==> s.plugin.done
    ensures Remaining(Apply(s, step, dest)) < Remaining(s)
  {
    if InBatch(s) && exists w :: w in s.writers && !Settled(s.writers[w]) {
      if !s.plugin.done {
        QueueShort(s);
        step := if s.plugin.inbox != [] then PluginReads else PluginReadEnds;
        LoopLowers(s, step, dest);
      } else {
        var w :| w in s.writers && !Settled(s.writers[w]);
        step := WriterCanMove(s, w, dest);
        WriterLowers(s, step, w, dest);
      }
    } else {
      step := ServeCanMove(s);
      LoopLowers(s, step, dest);
    }
  }

  lemma LoopLowers(s: State, step: Step, dest: string -> DestAnswer)
    requires ServeInv(s) && s.orch.closed && Enabled(s, step) && LoopStep(step)
    ensures Remaining(Apply(s, step, dest)) < Remaining(s)
  {
    ServeWorkFalls(s, step, dest);
    OthersKeepWriters(s, step, dest);
  }

  lemma WriterLowers(s: State, step: Step, w: nat, dest: string -> DestAnswer)
    requires ServeInv(s) && s.orch.closed && Enabled(s, step) && WriterMove(step) && !step.StartWrite?
    requires w in s.writers && w in WriterStep(s, step).writers
    requires Rank(WriterStep(s, step).writers[w]) < Rank(s.writers[w])
    ensures Remaining(Apply(s, step, dest)) < Remaining(s)
  {
    ServeWorkFalls(s, step, dest);
    WriterRanks(s, step);
    OneFalls(s, WriterStep(s, step), w);
  }

  lemma Moved(s: State, step: Step, t: State, dest: string -> DestAnswer)
    requires Inv(s, dest) && AsksBounded(s) && s.orch.closed && Enabled(s, step) && !step.StartWrite?
    requires t == Apply(s, step, dest)
    ensures Inv(t, dest) && AsksBounded(t) && t.orch.closed
  {
    InvStep(s, step, dest);
    AsksStep(s, step, dest);
    NothingRaises(s, step, dest);
  }

  lemma NextMove(s: State, dest: string -> DestAnswer) returns (step: Step, t: State)
    requires Inv(s, dest) && AsksBounded(s) && s.orch.closed && s.serve.Running?
    ensures PatientStep(s, step, t, dest) && Remaining(t) < Remaining(s)
    ensures Inv(t, dest) && AsksBounded(t) && t.orch.closed
  {
    step := PatientMove(s, dest);
    t := Apply(s, step, dest);
    Moved(s, step, t, dest);
  }

  ghost predicate IsPatientRun(states: seq<State>, steps: seq<Step>, dest: string -> DestAnswer) {
    && |states| == |steps| + 1
    && forall i :: 0 <= i < |steps| ==> PatientStep(states[i], steps[i], states[i + 1], dest)
  }

  ghost predicate PatientStep(s: State, step: Step, t: State, dest: string -> DestAnswer) {
    Enabled(s, step) && Patient(s, step) && t == Apply(s, step, dest)
  }

  lemma PrependMove(s: State, step: Step, states: seq<State>, steps: seq<Step>, dest: string -> DestAnswer)
    requires IsPatientRun(states, steps, dest) && PatientStep(s, step, states[0], dest)
    ensures IsPatientRun([s] + states, [step] + steps, dest)
  {
    var all, moves := [s] + states, [step] + steps;
    forall i | 0 <= i < |moves| ensures PatientStep(all[i], moves[i], all[i + 1], dest) {
      if i > 0 {
        assert PatientStep(states[i - 1], steps[i - 1], states[i], dest);
      }
    }
  }

  /** From every state after the close the loops and the released writers can run to
      Serve's return, the batch handler waiting for its writers all along. */
  lemma {:induction false} ServeCanReturn(s: State, dest: string -> DestAnswer)
    returns (states: seq<State>, steps: seq<Step>)
    requires Inv(s, dest) && AsksBounded(s) && s.orch.closed
    ensures IsPatientRun(states, steps, dest) && states[0] == s && |steps| <= Remaining(s)
    ensures !states[|steps|].serve.Running?
    decreases Remaining(s)
  {
    if s.serve.Running? {
      var step, t := NextMove(s, dest);
      var later, rest := ServeCanReturn(t, dest);
      states, steps := [s] + later, [step] + rest;
      PrependMove(s, step, later, rest, dest);
    } else {
      states, steps := [s], [];
    }
  }

  // ---- Writes that succeed ----

  /** A run that ends in `s`. */
  ghost predicate Reaches(s: State, dest: string -> DestAnswer) {
    exists states, steps :: IsRun(states, steps, dest) && states[|steps|] == s
  }

  lemma ReachInitial(dest: string -> DestAnswer)
    ensures Reaches(INITIAL, dest)
  {
    assert IsRun([INITIAL], [], dest);
  }

  lemma ReachNext(s: State, step: Step, t: State, dest: string -> DestAnswer)
    requires Reaches(s, dest) && Enabled(s, step) && t == Apply(s, step, dest)
    ensures Reaches(t, dest)
  {
    var states, steps :| IsRun(states, steps, dest) && states[|steps|] == s;
    var states', steps' := states + [t], steps + [step];
    assert IsRun(states', steps', dest) && states'[|steps'|] == t;
  }

  /** No call of the plugin waits, no blob.finish joins a commit, and the sockets are drained. */
  predicate Quiet(s: State) {
    && s.finishing.None?
    && s.orch.inbox == [] && s.orch.requests == [] && s.orch.serving.None? && !s.orch.done && !s.orch.closed
    && s.plugin.pending == {} && s.plugin.answers == map[] && s.plugin.inbox == []
    && !s.plugin.done && !s.plugin.closed
  }

  /** The peers once the orchestrator took the plugin's call `m` into service. */
  function CallServed(s: State, m: Msg): State
    requires m.Request?
  {
    s.(plugin := s.plugin.(nextId := m.id, pending := {m.id}, sent := s.plugin.sent + [m]),
       orch := s.orch.(read := s.orch.read + [m], serving := Some(m)))
  }

  /** The peers once the answer was read back. */
  function CallAnswered(s: State, m: Msg, payload: Payload): State
    requires m.Request?
  {
    var answer := Response(m.id, payload);
    s.(plugin := s.plugin.(nextId := m.id, answers := map[m.id := payload], sent := s.plugin.sent + [m],
                           read := s.plugin.read + [answer]),
       orch := s.orch.(read := s.orch.read + [m], handled := s.orch.handled + [(m, payload)],
                       sent := s.orch.sent + [answer]))
  }

  /** The peers while the answer is on its way. */
  function CallReturns(s: State, m: Msg, payload: Payload): State
    requires m.Request?
  {
    var a := CallAnswered(s, m, payload);
    a.(plugin := a.plugin.(pending := {m.id}, answers := map[], read := s.plugin.read,
                           inbox := [Response(m.id, payload)]))
  }

  /** The orchestrator reads the plugin's call, just sent, and serves it. */
  lemma ReachServing(s: State, m: Msg, dest: string -> DestAnswer)
    requires Quiet(s) && m.Request? && !m.body.BlobFinish?
    requires Reaches(CallServed(s, m).(orch := s.orch.(inbox := [m])), dest)
    ensures Reaches(CallServed(s, m), dest)
  {
    var s1 := CallServed(s, m).(orch := s.orch.(inbox := [m]));
    var s2 := s1.(orch := s.orch.(read := s.orch.read + [m], requests := [m]));
    ReachNext(s1, OrchReads, s2, dest);
    ReachNext(s2, OrchTakes, CallServed(s, m), dest);
  }

  /** The plugin's read loop takes the answer to its one pending call. */
  lemma ReachAnswered(s: State, m: Msg, payload: Payload, dest: string -> DestAnswer)
    requires Quiet(s) && m.Request? && Reaches(CallReturns(s, m, payload), dest)
    ensures Reaches(CallAnswered(s, m, payload), dest)
  {
    ReachNext(CallReturns(s, m, payload), PluginReads, CallAnswered(s, m, payload), dest);
  }

  /** Writer `w` has begun blob `h` by its call `m` and streams into the pipe. */
  function Streams(s: State, w: nat, data: string): State {
    var h, id := s.next + 1, s.plugin.nextId + 1;
    var a := CallAnswered(s, Request(id, BlobBegin), Began(h));
    a.(plugin := a.plugin.(answers := map[]), writers := s.writers[w := Writer(data, id, Streaming(h, 0))],
       open := {h}, next := h, pipes := s.pipes[h := Pipe("", true, None, id)])
  }

  lemma ReachStreams(s: State, w: nat, data: string, dest: string -> DestAnswer)
    requires Reaches(s, dest) && Quiet(s) && s.open == {} && w !in s.writers
    ensures Reaches(Streams(s, w, data), dest)
  {
    var h, m := s.next + 1, Request(s.plugin.nextId + 1, BlobBegin);
    var s1 := s.(writers := s.writers[w := Writer(data, m.id, Beginning)]);
    ReachNext(s, StartWrite(w, data), CallServed(s1, m).(orch := s.orch.(inbox := [m])), dest);
    ReachServing(s1, m, dest);
    var s2 := s1.(open := {h}, next := h, pipes := s.pipes[h := Pipe("", true, None, m.id)]);
    ReachBlobOpened(s1, s2, m, dest);
    ReachAnswered(s2, m, Began(h), dest);
    ReachHandle(s, s2, w, data, dest);
  }

  /** The handler opens the blob and its answer is on its way. */
  lemma ReachBlobOpened(s: State, t: State, m: Msg, dest: string -> DestAnswer)
    requires Quiet(s) && s.open == {} && m.Request? && m.body == BlobBegin && Reaches(CallServed(s, m), dest)
    requires t == s.(open := {s.next + 1}, next := s.next + 1,
                     pipes := s.pipes[s.next + 1 := Pipe("", true, None, m.id)])
    ensures Reaches(CallReturns(t, m, Began(s.next + 1)), dest)
  {
    OpensBlob(CallServed(s, m));
    ReachNext(CallServed(s, m), OrchFinishes(false), CallReturns(t, m, Began(s.next + 1)), dest);
  }

  lemma ReachHandle(s: State, s2: State, w: nat, data: string, dest: string -> DestAnswer)
    requires Quiet(s)
    requires var id, h := s.plugin.nextId + 1, s.next + 1;
             s2 == s.(writers := s.writers[w := Writer(data, id, Beginning)], open := {h}, next := h,
                      pipes := s.pipes[h := Pipe("", true, None, id)])
    requires Reaches(CallAnswered(s2, Request(s.plugin.nextId + 1, BlobBegin), Began(s.next + 1)), dest)
    ensures Reaches(Streams(s, w, data), dest)
  {
    var id, h := s.plugin.nextId + 1, s.next + 1;
    var s3 := CallAnswered(s2, Request(id, BlobBegin), Began(h));
    assert map[id := Began(h)] - {id} == map[];
    assert s2.writers[w := Writer(data, id, Streaming(h, 0))] == s.writers[w := Writer(data, id, Streaming(h, 0))];
    ReachNext(s3, BeginAnswered(w), Streams(s, w, data), dest);
  }

  /** All of the blob was written, the pipe is closed and the destination took the bytes. */
  function Written(s: State, w: nat, data: string, id: string, size: nat): State {
    var h, opener := s.next + 1, s.plugin.nextId + 1;
    var t := Streams(s, w, data);
    t.(writers := s.writers[w := Writer(data, opener, Finishing(h, opener + 1))],
       pipes := s.pipes[h := Pipe(data, false, Some(Stored(id, size)), opener)],
       stored := s.stored + [(h, data)])
  }

  lemma ReachCopied(s: State, w: nat, data: string, dest: string -> DestAnswer)
    requires Reaches(Streams(s, w, data), dest)
    ensures Reaches(Copied(s, w, data), dest)
  {
    var h, opener := s.next + 1, s.plugin.nextId + 1;
    var s1, s2 := Streams(s, w, data), Copied(s, w, data);
    assert "" + data[0..0 + |data|] == data;
    assert s1.pipes[h := s2.pipes[h]] == s2.pipes && s1.writers[w := s2.writers[w]] == s2.writers;
    ReachNext(s1, Copy(w, |data|), s2, dest);
  }

  /** All bytes are in the pipe, which is still open. */
  function Copied(s: State, w: nat, data: string): State {
    var h, opener := s.next + 1, s.plugin.nextId + 1;
    Streams(s, w, data).(pipes := s.pipes[h := Pipe(data, true, None, opener)],
                         writers := s.writers[w := Writer(data, opener, Streaming(h, |data|))])
  }

  /** The pipe is closed and blob.finish is on its way. */
  function FinishSent(t: State, m: Msg): State
    requires m.Request?
  {
    CallServed(t, m).(orch := t.orch.(inbox := [m]))
  }

  /** The pipe is closed, its bytes not yet committed. */
  function Uncommitted(s: State, t: State, h: nat): State
    requires h in t.pipes
  {
    t.(pipes := s.pipes[h := t.pipes[h].(commit := None)], stored := s.stored)
  }

  lemma ReachFinishSent(s: State, w: nat, data: string, id: string, size: nat, dest: string -> DestAnswer)
    requires Quiet(s) && Reaches(Copied(s, w, data), dest)
    ensures var t, m := Written(s, w, data, id, size), Request(s.plugin.nextId + 2, BlobFinish(s.next + 1));
            Reaches(FinishSent(Uncommitted(s, t, s.next + 1), m), dest)
  {
    var h, m := s.next + 1, Request(s.plugin.nextId + 2, BlobFinish(s.next + 1));
    var s2, t := Copied(s, w, data), Written(s, w, data, id, size);
    var s3 := FinishSent(Uncommitted(s, t, h), m);
    assert s2.pipes[h := s3.pipes[h]] == s3.pipes && s2.writers[w := t.writers[w]] == t.writers;
    ReachNext(s2, CopyEnds(w), s3, dest);
  }

  lemma ReachCommitted(s: State, w: nat, data: string, id: string, size: nat, dest: string -> DestAnswer)
    requires dest(data) == Stored(id, size)
    requires var t, m := Written(s, w, data, id, size), Request(s.plugin.nextId + 2, BlobFinish(s.next + 1));
             Reaches(FinishSent(Uncommitted(s, t, s.next + 1), m), dest)
    ensures var t, m := Written(s, w, data, id, size), Request(s.plugin.nextId + 2, BlobFinish(s.next + 1));
            Reaches(FinishSent(t, m), dest)
  {
    var h, m := s.next + 1, Request(s.plugin.nextId + 2, BlobFinish(s.next + 1));
    var t := Written(s, w, data, id, size);
    var s3 := FinishSent(Uncommitted(s, t, h), m);
    assert s3.pipes[h := t.pipes[h]] == t.pipes;
    ReachNext(s3, Commit(h), FinishSent(t, m), dest);
  }

  /** blob.finish is served and has joined the commit. */
  function Joined(t: State, h: nat, m: Msg): State
    requires m.Request?
  {
    CallServed(t, m).(open := {}, finishing := Some(h))
  }

  lemma ReachJoined(t: State, h: nat, m: Msg, dest: string -> DestAnswer)
    requires Quiet(t) && t.open == {h} && m.Request? && m.body == BlobFinish(h) && Reaches(FinishSent(t, m), dest)
    ensures Reaches(Joined(t, h, m), dest)
  {
    var s1 := FinishSent(t, m);
    var s2 := s1.(orch := t.orch.(read := t.orch.read + [m], requests := [m]));
    ReachNext(s1, OrchReads, s2, dest);
    assert {h} - {h} == {};
    ReachNext(s2, OrchTakes, Joined(t, h, m), dest);
  }

  lemma ReachCommitReturned(t: State, h: nat, m: Msg, id: string, size: nat, dest: string -> DestAnswer)
    requires Quiet(t) && h in t.pipes && t.pipes[h].commit == Some(Stored(id, size))
    requires m.Request? && m.body == BlobFinish(h) && Reaches(Joined(t, h, m), dest)
    ensures Reaches(CallReturns(t.(open := {}), m, Finished(id, size)), dest)
  {
    FinishPeers(Joined(t, h, m), false);
    ReachNext(Joined(t, h, m), OrchFinishes(false), CallReturns(t.(open := {}), m, Finished(id, size)), dest);
  }

  /** A write has succeeded with the destination's answer, and left the session quiet. */
  ghost predicate WroteOne(s: State, w: nat, data: string, answer: DestAnswer, t: State) {
    && answer.Stored? && Quiet(t) && t.open == {} && t.next == s.next + 1
    && t.writers
       == s.writers[w := Writer(data, s.plugin.nextId + 1, Succeeded(s.next + 1, answer.id, answer.size))]
    && t.stored == s.stored + [(s.next + 1, data)]
    && SameBatch(s, t)
  }

  /** The batch is where it was. */
  ghost predicate SameBatch(s: State, t: State) {
    && t.plugin == s.plugin.(nextId := t.plugin.nextId, sent := t.plugin.sent, read := t.plugin.read)
    && t.orch == s.orch.(sent := t.orch.sent, read := t.orch.read, handled := t.orch.handled)
    && t.driver == s.driver && t.shutdownSeen == s.shutdownSeen && t.drained == s.drained && t.serve == s.serve
  }

  /** From every quiet state a write that the destination takes can succeed. */
  lemma WriteFrom(s: State, w: nat, data: string, dest: string -> DestAnswer) returns (t: State)
    requires Reaches(s, dest) && Quiet(s) && s.open == {} && w !in s.writers && dest(data).Stored?
    ensures Reaches(t, dest) && WroteOne(s, w, data, dest(data), t)
  {
    var id, size := dest(data).id, dest(data).size;
    ReachStreams(s, w, data, dest);
    ReachCopied(s, w, data, dest);
    ReachFinishSent(s, w, data, id, size, dest);
    ReachCommitted(s, w, data, id, size, dest);
    t := WriteReturns(s, w, data, id, size, dest);
  }

  lemma WriteReturns(s: State, w: nat, data: string, id: string, size: nat, dest: string -> DestAnswer)
    returns (t: State)
    requires Quiet(s) && w !in s.writers
    requires var u, m := Written(s, w, data, id, size), Request(s.plugin.nextId + 2, BlobFinish(s.next + 1));
             Reaches(FinishSent(u, m), dest)
    ensures Reaches(t, dest) && WroteOne(s, w, data, Stored(id, size), t)
  {
    var h := s.next + 1;
    var u, m := Written(s, w, data, id, size), Request(s.plugin.nextId + 2, BlobFinish(h));
    ReachJoined(u, h, m, dest);
    ReachCommitReturned(u, h, m, id, size, dest);
    ReachAnswered(u.(open := {}), m, Finished(id, size), dest);
    t := Succeeds(s, w, data, id, size, CallAnswered(u.(open := {}), m, Finished(id, size)), dest);
  }

  /** The writer takes the answer. */
  lemma Succeeds(s: State, w: nat, data: string, id: string, size: nat, u: State, dest: string -> DestAnswer)
    returns (t: State)
    requires Quiet(s) && w !in s.writers && Reaches(u, dest)
    requires u == CallAnswered(Written(s, w, data, id, size).(open := {}),
                               Request(s.plugin.nextId + 2, BlobFinish(s.next + 1)), Finished(id, size))
    ensures Reaches(t, dest) && WroteOne(s, w, data, Stored(id, size), t)
  {
    var f := s.plugin.nextId + 2;
    t := u.(plugin := u.plugin.(answers := map[]),
            writers := s.writers[w := Writer(data, s.plugin.nextId + 1, Succeeded(s.next + 1, id, size))]);
    assert u.plugin.answers - {f} == map[] && u.writers[w := t.writers[w]] == t.writers;
    ReachNext(u, FinishAnswered(w), t, dest);
  }

  /** The writers w, w + 1, ... have each succeeded, under handles in the order of the
      writes, and the destination holds their bytes in that order. */
  ghost predicate WroteAll(s: State, w: nat, datas: seq<string>, dest: string -> DestAnswer, t: State) {
    && Quiet(t) && t.open == {} && t.next == s.next + |datas| && SameBatch(s, t)
    && (forall i :: i in s.writers ==> i in t.writers && t.writers[i] == s.writers[i])
    && (forall i :: i in t.writers && i !in s.writers ==> w <= i < w + |datas|)
    && (forall i :: 0 <= i < |datas| ==> WroteAt(t.writers, w + i, s.next + 1 + i, datas[i], dest))
    && t.stored == s.stored + seq(|datas|, i requires 0 <= i < |datas| => (s.next + 1 + i, datas[i]))
  }

  predicate WroteAt(writers: map<nat, Writer>, w: nat, h: nat, data: string, dest: string -> DestAnswer) {
    && w in writers && writers[w].data == data && writers[w].pc.Succeeded? && writers[w].pc.handle == h
    && dest(data) == Stored(writers[w].pc.id, writers[w].pc.size)
  }

  /** From every quiet state any sequence of writes can succeed, one after the other. */
  lemma {:induction false} WritesCanSucceed(s: State, w: nat, datas: seq<string>, dest: string -> DestAnswer)
    returns (t: State)
    requires Reaches(s, dest) && Quiet(s) && s.open == {}
    requires forall i :: i in s.writers ==> i < w
    requires forall i :: 0 <= i < |datas| ==> dest(datas[i]).Stored?
    ensures Reaches(t, dest) && WroteAll(s, w, datas, dest, t)
    decreases |datas|
  {
    t := s;
    if datas != [] {
      var n := |datas| - 1;
      var u := WritesCanSucceed(s, w, datas[..n], dest);
      t := WriteFrom(u, w + n, datas[n], dest);
      WroteMore(s, w, datas, dest, u, t);
    }
  }

  lemma WroteMore(s: State, w: nat, datas: seq<string>, dest: string -> DestAnswer, u: State, t: State)
    requires datas != [] && WroteAll(s, w, datas[..|datas| - 1], dest, u) && forall i :: i in s.writers ==> i < w
    requires WroteOne(u, w + |datas| - 1, datas[|datas| - 1], dest(datas[|datas| - 1]), t)
    ensures WroteAll(s, w, datas, dest, t)
  {
    var n := |datas| - 1;
    forall i | 0 <= i < |datas| ensures WroteAt(t.writers, w + i, s.next + 1 + i, datas[i], dest) {
      if i < n {
        assert WroteAt(u.writers, w + i, s.next + 1 + i, datas[..n][i], dest);
      }
    }
  }

  /** Every write the destination takes can succeed, with what the destination answers. */
  lemma WriteCanSucceed(data: string, dest: string -> DestAnswer) returns (s: State)
    requires dest(data).Stored?
    ensures Reaches(s, dest) && s.stored == [(1, data)] && s.open == {}
    ensures 0 in s.writers && s.writers[0] == Writer(data, 1, Succeeded(1, dest(data).id, dest(data).size))
  {
    ReachInitial(dest);
    s := WriteFrom(INITIAL, 0, data, dest);
  }
}
