/** A capture-serve session as interleaved steps: the orchestrator's batch driver
    and blob handler (orchestrator.go), the plugin's Serve and its blob writers
    (server.go), over two linked peers. */
module CaptureSession {
  import opened Prelude
  import opened PeerLink

  /** dest.WriteBlob on a byte stream that ends. */
  datatype DestAnswer = Stored(id: string, size: nat) | DestError

  /** A blob's pipe: the bytes written so far, whether a write end is open, the
      commit's result (openBlob.done), and the begin call that opened it. */
  datatype Pipe = Pipe(data: string, writable: bool, commit: Option<DestAnswer>, opener: nat)

  /** One WriteBlob call of the plugin, with the whole content of its reader. */
  datatype Writer = Writer(data: string, beginId: nat, pc: WriterPc)

  datatype WriterPc =
    | Beginning
    | Streaming(handle: nat, written: nat)
    | Finishing(handle: nat, finishId: nat)
    | Succeeded(handle: nat, id: string, size: nat)
    | Failed

  datatype DriverPc = Starting | Initializing(id: nat) | Capturing(id: nat) | Ending | Closed

  /** Serve's return: nil, or the dropped-socket error. */
  datatype ServeResult = Running | ReturnedNil | ReturnedError

  datatype State = State(
    plugin: Peer, orch: Peer,
    writers: map<nat, Writer>,
    open: set<nat>, next: nat, pipes: map<nat, Pipe>, stored: seq<(nat, string)>, finishing: Option<nat>,
    driver: DriverPc,
    shutdownSeen: bool, drained: bool, serve: ServeResult)

  const INITIAL := State(NEW_PEER, NEW_PEER, map[], {}, 0, map[], [], None, Starting, false, false, Running)

  datatype Step =
    // the plugin's writers
    | StartWrite(w: nat, data: string)
    | BeginAnswered(w: nat)
    | Copy(w: nat, n: nat)
    | CopyFails(w: nat)
    | CopyEnds(w: nat)
    | FinishAnswered(w: nat)
    | GiveUp(w: nat)
    // the plugin's loops and Serve
    | PluginReads
    | PluginTakes
    | PluginFinishes(payload: Payload)
    | PluginReadEnds
    | PluginDrains
    | ServeSeesShutdown
    | ServeSeesDone
    // the orchestrator's loops, handler and pipes
    | OrchReads
    | OrchTakes
    | OrchFinishes(aborted: bool)
    | OrchReadEnds
    | Commit(h: nat)
    | CommitFails(h: nat)
    | DropEnd(h: nat)
    // the batch driver
    | DriverCalls
    | DriverAnswered
    | DriverShutsDown(notify: bool)
    | DriverGivesUp

  // ---- The orchestrator's blob handler ----

  /** Taking blob.finish removes its handle from the open table before waiting for the commit. */
  function OrchTake(s: State): State
    requires s.orch.serving.None? && s.orch.requests != []
  {
    var m := s.orch.requests[0];
    var s1 := s.(orch := TakeRequest(s.orch));
    if m.Request? && m.body.BlobFinish? && m.body.handle in s.open then
      s1.(open := s.open - {m.body.handle}, finishing := Some(m.body.handle))
    else s1.(finishing := None)
  }

  /** Whether the handler of the served request may return now. */
  predicate OrchCanFinish(s: State, aborted: bool) {
    && s.orch.serving.Some?
    && (aborted || s.finishing.None? || (s.finishing.value in s.pipes && s.pipes[s.finishing.value].commit.Some?))
  }

  /** The answer of blob.finish: the commit's {id, size}. */
  function FinishPayload(s: State, aborted: bool): Payload
    requires OrchCanFinish(s, aborted)
  {
    if aborted || s.finishing.None? then Failure
    else
      match s.pipes[s.finishing.value].commit.value
      case Stored(id, size) => Finished(id, size)
      case DestError => Failure
  }

  /** What the handler returns for the served request. */
  function ServedPayload(s: State, aborted: bool): Payload
    requires OrchCanFinish(s, aborted)
  {
    if s.orch.serving.value.Request? && s.orch.serving.value.body.BlobBegin? then
      if s.open != {} || aborted then Failure else Began(s.next + 1)
    else FinishPayload(s, aborted)
  }

  /** The handler's effect on its table. A failed pipe still uses up a handle. */
  function HandlerEffect(s: State, aborted: bool): State
    requires OrchCanFinish(s, aborted)
  {
    var m := s.orch.serving.value;
    if m.Request? && m.body.BlobBegin? then
      if s.open != {} then s
      else if aborted then s.(next := s.next + 1)
      else s.(next := s.next + 1, open := {s.next + 1}, pipes := s.pipes[s.next + 1 := Pipe("", true, None, m.id)])
    else s.(finishing := None)
  }

  function OrchFinish(s: State, aborted: bool): State
    requires OrchCanFinish(s, aborted)
  {
    Reply(HandlerEffect(s, aborted), ServedPayload(s, aborted))
  }

  function Reply(s: State, payload: Payload): State
    requires s.orch.serving.Some?
  {
    var r := FinishServing(s.orch, s.plugin, payload);
    s.(orch := r.0, plugin := r.1)
  }

  // ---- Steps ----

  predicate WriterMove(step: Step) {
    step.StartWrite? || step.BeginAnswered? || step.Copy? || step.CopyFails? || step.CopyEnds? || step.FinishAnswered?
    || step.GiveUp?
  }

  predicate LoopStep(step: Step) {
    step.PluginReads? || step.PluginTakes? || step.PluginFinishes? || step.PluginReadEnds? || step.PluginDrains?
    || step.ServeSeesShutdown? || step.ServeSeesDone?
  }

  predicate OrchMove(step: Step) {
    step.OrchReads? || step.OrchTakes? || step.OrchFinishes? || step.OrchReadEnds? || step.Commit?
    || step.CommitFails? || step.DropEnd?
  }

  predicate DriverMove(step: Step) {
    step.DriverCalls? || step.DriverAnswered? || step.DriverShutsDown? || step.DriverGivesUp?
  }

  /** Someone still holds the write end: the begin call's answer is on its way
      to a waiting writer, or a writer is copying into it. */
  predicate Held(s: State, h: nat)
    requires h in s.pipes
  {
    exists w :: w in s.writers && Holds(s, s.writers[w], h)
  }

  predicate Holds(s: State, w: Writer, h: nat)
    requires h in s.pipes
  {
    || (w.pc.Beginning? && w.beginId == s.pipes[h].opener && Response(w.beginId, Began(h)) in s.orch.sent)
    || (w.pc.Streaming? && w.pc.handle == h)
  }

  predicate Enabled(s: State, step: Step) {
    match step
    case StartWrite(w, _) => w !in s.writers
    case BeginAnswered(w) => w in s.writers && s.writers[w].pc.Beginning? && s.writers[w].beginId in s.plugin.answers
    case Copy(w, n) =>
      w in s.writers && s.writers[w].pc.Streaming? && s.writers[w].pc.written + n <= |s.writers[w].data|
      && s.writers[w].pc.handle in s.pipes
    case CopyFails(w) => w in s.writers && s.writers[w].pc.Streaming? && s.writers[w].pc.handle in s.pipes
    case CopyEnds(w) =>
      w in s.writers && s.writers[w].pc.Streaming? && s.writers[w].pc.written == |s.writers[w].data|
      && s.writers[w].pc.handle in s.pipes
    case FinishAnswered(w) => w in s.writers && s.writers[w].pc.Finishing?
        && s.writers[w].pc.finishId in s.plugin.answers
    case GiveUp(w) => w in s.writers && (s.writers[w].pc.Beginning? || s.writers[w].pc.Finishing?)
    case PluginReads => CanRead(s.plugin)
    case PluginTakes => s.plugin.serving.None? && s.plugin.requests != []
    case PluginFinishes(payload) => s.plugin.serving.Some? && !payload.Began? && !payload.Finished?
    case PluginReadEnds => !s.plugin.done && s.plugin.inbox == [] && s.orch.closed
    case PluginDrains => s.plugin.done && s.plugin.requests == [] && s.plugin.serving.None? && !s.drained
    case ServeSeesShutdown => s.serve.Running? && s.shutdownSeen
    case ServeSeesDone => s.serve.Running? && s.plugin.done && s.drained
    case OrchReads => CanRead(s.orch)
    case OrchTakes => s.orch.serving.None? && s.orch.requests != []
    case OrchFinishes(aborted) => OrchCanFinish(s, aborted)
    case OrchReadEnds => !s.orch.done && (s.orch.closed || (s.orch.inbox == [] && s.plugin.closed))
    case Commit(h) => h in s.pipes && s.pipes[h].commit.None? && !s.pipes[h].writable
    case CommitFails(h) => h in s.pipes && s.pipes[h].commit.None?
    case DropEnd(h) => h in s.pipes && s.pipes[h].writable && !Held(s, h)
    case DriverCalls => s.driver.Starting?
    case DriverAnswered =>
      (s.driver.Initializing? || s.driver.Capturing?) && s.driver.id in s.orch.answers
    case DriverShutsDown(_) => s.driver.Ending?
    case DriverGivesUp => s.driver.Starting? || s.driver.Initializing? || s.driver.Capturing?
  }

  function WithPc(s: State, w: nat, pc: WriterPc): State
    requires w in s.writers
  {
    s.(writers := s.writers[w := s.writers[w].(pc := pc)])
  }

  function PluginCall(s: State, body: Body): State {
    var r := Call(s.plugin, s.orch, body);
    s.(plugin := r.0, orch := r.1)
  }

  function DriverCall(s: State, body: Body): State {
    var r := Call(s.orch, s.plugin, body);
    s.(orch := r.0, plugin := r.1)
  }

  function WriterStep(s: State, step: Step): State
    requires Enabled(s, step) && WriterMove(step)
  {
    match step
    case StartWrite(w, data) =>
      PluginCall(s, BlobBegin).(writers := s.writers[w := Writer(data, s.plugin.nextId + 1, Beginning)])
    case BeginAnswered(w) =>
      var id := s.writers[w].beginId;
      var s1 := s.(plugin := Unregister(s.plugin, id));
      WithPc(s1, w, if s.plugin.answers[id].Began? then Streaming(s.plugin.answers[id].handle, 0) else Failed)
    case Copy(w, n) =>
      var h, k := s.writers[w].pc.handle, s.writers[w].pc.written;
      var pipe := s.pipes[h];
      WithPc(s.(pipes := s.pipes[h := pipe.(data := pipe.data + s.writers[w].data[k..k + n])]), w, Streaming(h, k + n))
    case CopyFails(w) =>
      var h := s.writers[w].pc.handle;
      WithPc(s.(pipes := s.pipes[h := s.pipes[h].(writable := false)]), w, Failed)
    case CopyEnds(w) =>
      var h := s.writers[w].pc.handle;
      var s1 := PluginCall(s.(pipes := s.pipes[h := s.pipes[h].(writable := false)]), BlobFinish(h));
      WithPc(s1, w, Finishing(h, s.plugin.nextId + 1))
    case FinishAnswered(w) =>
      var h, id := s.writers[w].pc.handle, s.writers[w].pc.finishId;
      var s1 := s.(plugin := Unregister(s.plugin, id));
      var answer := s.plugin.answers[id];
      WithPc(s1, w, if answer.Finished? then Succeeded(h, answer.id, answer.size) else Failed)
    case GiveUp(w) =>
      var id := if s.writers[w].pc.Beginning? then s.writers[w].beginId else s.writers[w].pc.finishId;
      WithPc(s.(plugin := Unregister(s.plugin, id)), w, Failed)
  }

  predicate IsShutdown(m: Msg) {
    (m.Request? || m.Notify?) && m.body == Shutdown
  }

  function PluginStep(s: State, step: Step): State
    requires Enabled(s, step) && LoopStep(step)
  {
    match step
    case PluginReads => s.(plugin := ReadOne(s.plugin))
    case PluginTakes => s.(plugin := TakeRequest(s.plugin))
    case PluginFinishes(payload) =>
      var r := FinishServing(s.plugin, s.orch, payload);
      s.(plugin := r.0, orch := r.1, shutdownSeen := s.shutdownSeen || IsShutdown(s.plugin.serving.value))
    case PluginReadEnds => s.(plugin := s.plugin.(done := true))
    case PluginDrains => s.(drained := true)
    case ServeSeesShutdown => s.(serve := ReturnedNil, plugin := s.plugin.(closed := true))
    case ServeSeesDone =>
      s.(serve := if s.shutdownSeen then ReturnedNil else ReturnedError, plugin := s.plugin.(closed := true))
  }

  function OrchStep(s: State, step: Step, dest: string -> DestAnswer): State
    requires Enabled(s, step) && OrchMove(step)
  {
    match step
    case OrchReads => s.(orch := ReadOne(s.orch))
    case OrchTakes => OrchTake(s)
    case OrchFinishes(aborted) => OrchFinish(s, aborted)
    case OrchReadEnds => s.(orch := s.orch.(done := true))
    case Commit(h) =>
      var pipe := s.pipes[h];
      var answer := dest(pipe.data);
      s.(pipes := s.pipes[h := pipe.(commit := Some(answer))],
         stored := if answer.Stored? then s.stored + [(h, pipe.data)] else s.stored)
    case CommitFails(h) => s.(pipes := s.pipes[h := s.pipes[h].(commit := Some(DestError))])
    case DropEnd(h) => s.(pipes := s.pipes[h := s.pipes[h].(writable := false)])
  }

  function DriverStep(s: State, step: Step): State
    requires Enabled(s, step) && DriverMove(step)
  {
    match step
    case DriverCalls => DriverCall(s, Initialize).(driver := Initializing(s.orch.nextId + 1))
    case DriverAnswered =>
      var id := s.driver.id;
      var s1 := s.(orch := Unregister(s.orch, id));
      if s.orch.answers[id] != Done then s1.(orch := s1.orch.(closed := true), driver := Closed)
      else if s.driver.Initializing? then DriverCall(s1, CaptureBatch).(driver := Capturing(s.orch.nextId + 1))
      else s1.(driver := Ending)
    case DriverShutsDown(notify) =>
      var r := if notify then Send(s.orch, s.plugin, Notify(Shutdown)) else (s.orch, s.plugin);
      s.(orch := r.0.(closed := true), plugin := r.1, driver := Closed)
    case DriverGivesUp => s.(orch := s.orch.(closed := true), driver := Closed)
  }

  function Apply(s: State, step: Step, dest: string -> DestAnswer): State
    requires Enabled(s, step)
  {
    if WriterMove(step) then WriterStep(s, step)
    else if OrchMove(step) then OrchStep(s, step, dest)
    else if DriverMove(step) then DriverStep(s, step)
    else PluginStep(s, step)
  }

  // ---- Invariants ----

  /** The begin request that opened h, answered with h. */
  ghost predicate OpenedBy(s: State, h: nat, opener: nat) {
    (Request(opener, BlobBegin), Began(h)) in s.orch.handled
  }

  ghost predicate PipeOk(s: State, dest: string -> DestAnswer, h: nat)
    requires h in s.pipes
  {
    var pipe := s.pipes[h];
    && 0 < h <= s.next
    && OpenedBy(s, h, pipe.opener)
    && (pipe.commit.Some? && pipe.commit.value.Stored? ==>
          !pipe.writable && pipe.commit.value == dest(pipe.data) && (h, pipe.data) in s.stored)
  }

  /** What a recorded answer of the blob handler means. */
  ghost predicate AnswerOk(s: State, m: Msg, payload: Payload) {
    && (payload.Began? ==> payload.handle in s.pipes && m == Request(s.pipes[payload.handle].opener, BlobBegin))
    && (payload.Finished? ==>
          && m.Request? && m.body.BlobFinish? && m.body.handle in s.pipes
          && s.pipes[m.body.handle].commit == Some(Stored(payload.id, payload.size)))
  }

  ghost predicate StoredOk(s: State, c: (nat, string)) {
    && c.0 in s.pipes && s.pipes[c.0].data == c.1 && s.pipes[c.0].commit.Some? && s.pipes[c.0].commit.value.Stored?
  }

  /** A joined commit belongs to the blob.finish in service. */
  ghost predicate FinishingOk(s: State) {
    s.finishing.Some? ==>
      && s.finishing.value in s.pipes && s.orch.serving.Some?
      && s.orch.serving.value.Request? && s.orch.serving.value.body == BlobFinish(s.finishing.value)
  }

  ghost predicate HandlerInv(s: State, dest: string -> DestAnswer) {
    && |s.open| <= 1 && s.open <= s.pipes.Keys
    && (forall h :: h in s.pipes ==> PipeOk(s, dest, h))
    && (forall k :: 0 <= k < |s.orch.handled| ==> AnswerOk(s, s.orch.handled[k].0, s.orch.handled[k].1))
    && (forall c :: c in s.stored ==> StoredOk(s, c))
    && FinishingOk(s)
    && (forall h1, h2 :: h1 in s.pipes && h2 in s.pipes && s.pipes[h1].opener == s.pipes[h2].opener ==> h1 == h2)
  }

  ghost predicate WriterOk(s: State, w: Writer) {
    && 0 < w.beginId <= s.plugin.nextId
    && (forall m :: m in s.plugin.sent && m.Request? && m.id == w.beginId ==> m.body == BlobBegin)
    && match w.pc
       case Beginning => forall h :: h in s.pipes && s.pipes[h].opener == w.beginId ==>
         s.pipes[h].data == "" && (Response(w.beginId, Began(h)) in s.orch.sent ==> s.pipes[h].writable)
       case Streaming(h, k) =>
         && h in s.pipes && s.pipes[h].opener == w.beginId && s.pipes[h].writable
         && k <= |w.data| && s.pipes[h].data == w.data[..k]
       case Finishing(h, f) =>
         && h in s.pipes && s.pipes[h].opener == w.beginId && !s.pipes[h].writable && s.pipes[h].data == w.data
         && 0 < f <= s.plugin.nextId
         && (forall m :: m in s.plugin.sent && m.Request? && m.id == f ==> m.body == BlobFinish(h))
       case Succeeded(h, id, size) =>
         && h in s.pipes && s.pipes[h].opener == w.beginId && !s.pipes[h].writable && s.pipes[h].data == w.data
         && s.pipes[h].commit == Some(Stored(id, size))
       case Failed => true
  }

  /** The writer behind a pipe: the pipe holds a prefix of its data. */
  ghost predicate Writes(s: State, w: nat, h: nat)
    requires h in s.pipes
  {
    w in s.writers && s.writers[w].beginId == s.pipes[h].opener && s.pipes[h].data <= s.writers[w].data
  }

  ghost predicate HasWriter(s: State, h: nat)
    requires h in s.pipes
  {
    exists w :: Writes(s, w, h)
  }

  /** A writer made the begin call `id`. */
  ghost predicate Begun(s: State, id: nat) {
    exists w :: w in s.writers && s.writers[w].beginId == id
  }

  ghost predicate WriterInv(s: State) {
    && (forall w :: w in s.writers ==> WriterOk(s, s.writers[w]))
    && (forall w1, w2 :: w1 in s.writers && w2 in s.writers && s.writers[w1].beginId == s.writers[w2].beginId ==>
          w1 == w2)
    && (forall h :: h in s.pipes ==> HasWriter(s, h))
    && (forall m :: m in s.plugin.sent && m.Request? && m.body == BlobBegin ==> Begun(s, m.id))
  }

  predicate HandledShutdown(handled: seq<(Msg, Payload)>) {
    exists x :: x in handled && IsShutdown(x.0)
  }

  ghost predicate ServeInv(s: State) {
    && (s.shutdownSeen <==> HandledShutdown(s.plugin.handled))
    && (s.plugin.done ==> s.orch.closed && s.plugin.inbox == [])
    && (s.drained ==> s.plugin.done && s.plugin.requests == [] && s.plugin.serving.None?)
    && (s.serve.ReturnedNil? ==> s.shutdownSeen)
    && (s.serve.ReturnedError? ==> s.drained && !s.shutdownSeen)
    && (s.driver.Closed? <==> s.orch.closed)
    && (s.serve.Running? <==> !s.plugin.closed)
  }

  ghost predicate Inner(s: State, dest: string -> DestAnswer) {
    HandlerInv(s, dest) && WriterInv(s) && ServeInv(s)
  }

  ghost predicate Inv(s: State, dest: string -> DestAnswer) {
    Linked(s.plugin, s.orch) && Inner(s, dest)
  }

  lemma InvInit(dest: string -> DestAnswer)
    ensures Inv(INITIAL, dest)
  {
  }

  // ---- Frames: what each part of the invariant reads ----

  lemma HandlerFrame(s: State, t: State, dest: string -> DestAnswer)
    requires HandlerInv(s, dest)
    requires t.open <= s.open && |t.open| <= |s.open| && t.next == s.next && t.pipes == s.pipes && t.stored == s.stored
    requires t.orch.handled == s.orch.handled && FinishingOk(t)
    ensures HandlerInv(t, dest)
  {
  }

  /** No new requests from the plugin, no new blob handles from the orchestrator. */
  ghost predicate SameBlobTraffic(s: State, t: State) {
    && t.plugin.nextId == s.plugin.nextId
    && (forall m :: m in t.plugin.sent && m.Request? ==> m in s.plugin.sent)
    && (forall m :: m in t.orch.sent && m.Response? ==> m in s.orch.sent)
  }

  lemma WriterOkFrame(s: State, t: State, w: Writer)
    requires WriterOk(s, w) && t.pipes == s.pipes && SameBlobTraffic(s, t)
    ensures WriterOk(t, w)
  {
  }

  lemma WriterFrame(s: State, t: State)
    requires WriterInv(s) && t.writers == s.writers && t.pipes == s.pipes && SameBlobTraffic(s, t)
    ensures WriterInv(t)
  {
    forall w | w in t.writers ensures WriterOk(t, t.writers[w]) { WriterOkFrame(s, t, s.writers[w]); }
    forall h | h in t.pipes ensures HasWriter(t, h) {
      assert HasWriter(s, h);
      var w :| Writes(s, w, h);
      assert Writes(t, w, h);
    }
  }

  lemma ServeFrame(s: State, t: State)
    requires ServeInv(s)
    requires t.shutdownSeen == s.shutdownSeen && t.drained == s.drained && t.serve == s.serve
    requires t.plugin.handled == s.plugin.handled && t.plugin.done == s.plugin.done
    requires s.plugin.requests == t.plugin.requests && s.plugin.serving == t.plugin.serving
    requires s.orch.closed ==> t.plugin.inbox == s.plugin.inbox
    requires t.orch.closed == s.orch.closed && t.plugin.closed == s.plugin.closed && t.driver == s.driver
    ensures ServeInv(t)
  {
  }

  // ---- The orchestrator's blob handler steps ----

  lemma OrchTakesOk(s: State, dest: string -> DestAnswer)
    requires Inner(s, dest) && s.orch.serving.None? && s.orch.requests != []
    ensures Inner(OrchTake(s), dest)
  {
    var t := OrchTake(s);
    OrchTakeHandler(s);
    WriterFrame(s, t);
    ServeFrame(s, t);
    HandlerFrame(s, t, dest);
  }

  lemma OrchTakeHandler(s: State)
    requires s.orch.serving.None? && s.orch.requests != [] && s.open <= s.pipes.Keys
    ensures FinishingOk(OrchTake(s)) && OrchTake(s).open <= s.open && |OrchTake(s).open| <= |s.open|
    ensures var t := OrchTake(s);
            t == s.(orch := t.orch, open := t.open, finishing := t.finishing)
            && t.orch == s.orch.(serving := t.orch.serving, requests := t.orch.requests)
  {
  }

  /** The read side reached the end of a closed pipe: its bytes are committed to the destination. */
  lemma CommitOk(s: State, h: nat, dest: string -> DestAnswer)
    requires Inner(s, dest) && Enabled(s, Commit(h))
    ensures Inner(OrchStep(s, Commit(h), dest), dest)
  {
    var t := OrchStep(s, Commit(h), dest);
    HandlerPipeUpdate(s, t, h, dest);
    WriterPipeUpdate(s, t, h);
    ServeFrame(s, t);
  }

  lemma CommitFailsOk(s: State, h: nat, dest: string -> DestAnswer)
    requires Inner(s, dest) && Enabled(s, CommitFails(h))
    ensures Inner(OrchStep(s, CommitFails(h), dest), dest)
  {
    var t := OrchStep(s, CommitFails(h), dest);
    HandlerPipeUpdate(s, t, h, dest);
    WriterPipeUpdate(s, t, h);
    ServeFrame(s, t);
  }

  lemma DropEndOk(s: State, h: nat, dest: string -> DestAnswer)
    requires Inner(s, dest) && Enabled(s, DropEnd(h))
    ensures Inner(OrchStep(s, DropEnd(h), dest), dest)
  {
    var t := OrchStep(s, DropEnd(h), dest);
    HandlerPipeUpdate(s, t, h, dest);
    forall w | w in s.writers ensures !Holds(s, s.writers[w], h) {}
    WriterPipeUpdate(s, t, h);
    ServeFrame(s, t);
  }

  /** One uncommitted pipe changes, keeping its opener. */
  lemma HandlerPipeUpdate(s: State, t: State, h: nat, dest: string -> DestAnswer)
    requires HandlerInv(s, dest) && h in s.pipes && h in t.pipes && t.pipes == s.pipes[h := t.pipes[h]]
    requires t.pipes[h].opener == s.pipes[h].opener
    requires t.open == s.open && t.next == s.next && t.orch.handled == s.orch.handled && t.finishing == s.finishing
             && t.orch.serving == s.orch.serving
    requires s.pipes[h].commit.Some? && s.pipes[h].commit.value.Stored? ==>
               t.pipes[h].commit == s.pipes[h].commit && t.pipes[h].data == s.pipes[h].data && !t.pipes[h].writable
    requires t.stored == s.stored || t.stored == s.stored + [(h, t.pipes[h].data)]
    requires t.pipes[h].commit.Some? && t.pipes[h].commit.value.Stored? ==>
               && !t.pipes[h].writable && t.pipes[h].commit.value == dest(t.pipes[h].data)
               && (h, t.pipes[h].data) in t.stored
    requires t.stored != s.stored ==> t.pipes[h].commit.Some? && t.pipes[h].commit.value.Stored?
    ensures HandlerInv(t, dest)
  {
    forall i | i in t.pipes ensures PipeOk(t, dest, i) { assert PipeOk(s, dest, i); }
    forall k | 0 <= k < |t.orch.handled| ensures AnswerOk(t, t.orch.handled[k].0, t.orch.handled[k].1) {
      assert AnswerOk(s, s.orch.handled[k].0, s.orch.handled[k].1);
    }
    forall c | c in t.stored ensures StoredOk(t, c) {
      if c in s.stored { assert StoredOk(s, c); }
    }
  }

  /** One pipe changes without its bytes; its write end closes only when nobody holds it. */
  lemma WriterPipeUpdate(s: State, t: State, h: nat)
    requires WriterInv(s) && t.writers == s.writers && SameBlobTraffic(s, t)
    requires h in s.pipes && h in t.pipes && t.pipes == s.pipes[h := t.pipes[h]]
    requires t.pipes[h].opener == s.pipes[h].opener && t.pipes[h].data == s.pipes[h].data
    requires t.pipes[h].writable ==> s.pipes[h].writable
    requires s.pipes[h].writable && !t.pipes[h].writable ==> forall w :: w in s.writers ==> !Holds(s, s.writers[w], h)
    requires s.pipes[h].commit.Some? && s.pipes[h].commit.value.Stored? ==> t.pipes[h].commit == s.pipes[h].commit
    ensures WriterInv(t)
  {
    forall w | w in t.writers ensures WriterOk(t, t.writers[w]) { WriterPipeOk(s, t, h, s.writers[w]); }
    forall i | i in t.pipes ensures HasWriter(t, i) {
      assert HasWriter(s, i);
      var w :| Writes(s, w, i);
      assert Writes(t, w, i);
    }
  }

  lemma WriterPipeOk(s: State, t: State, h: nat, w: Writer)
    requires WriterOk(s, w) && SameBlobTraffic(s, t)
    requires h in s.pipes && h in t.pipes && t.pipes == s.pipes[h := t.pipes[h]]
    requires t.pipes[h].opener == s.pipes[h].opener && t.pipes[h].data == s.pipes[h].data
    requires t.pipes[h].writable ==> s.pipes[h].writable
    requires s.pipes[h].writable && !t.pipes[h].writable ==> !Holds(s, w, h)
    requires s.pipes[h].commit.Some? && s.pipes[h].commit.value.Stored? ==> t.pipes[h].commit == s.pipes[h].commit
    ensures WriterOk(t, w)
  {
  }

  lemma ReplyTraffic(s: State, payload: Payload)
    requires s.orch.serving.Some?
    ensures var t := Reply(s, payload);
            && t.plugin.sent == s.plugin.sent && t.plugin.nextId == s.plugin.nextId
            && t.orch.handled == s.orch.handled + [(s.orch.serving.value, payload)] && t.orch.serving.None?
            && (forall m :: m in t.orch.sent && m.Response? ==> m in s.orch.sent || m.payload == payload)
  {
  }

  /** The served request is answered without opening a blob. */
  lemma OrchAnswersOk(s: State, next: nat, payload: Payload, dest: string -> DestAnswer)
    requires Inner(s, dest) && s.orch.serving.Some? && next >= s.next
    requires !payload.Began? && AnswerOk(s, s.orch.serving.value, payload)
    ensures Inner(Reply(s.(next := next, finishing := None), payload), dest)
  {
    var u := s.(next := next, finishing := None);
    var t := Reply(u, payload);
    ReplyTraffic(u, payload);
    ServeFrame(s, t);
    WriterResponds(s, t, payload);
    AnsweredHandler(s, t, payload, dest);
  }

  lemma AnsweredHandler(s: State, t: State, payload: Payload, dest: string -> DestAnswer)
    requires HandlerInv(s, dest) && s.orch.serving.Some? && AnswerOk(s, s.orch.serving.value, payload)
    requires t.next >= s.next && t.finishing.None? && t.open == s.open && t.pipes == s.pipes && t.stored == s.stored
    requires t.orch.handled == s.orch.handled + [(s.orch.serving.value, payload)]
    ensures HandlerInv(t, dest)
  {
    forall h | h in t.pipes ensures PipeOk(t, dest, h) { assert PipeOk(s, dest, h); }
    forall k | 0 <= k < |t.orch.handled| ensures AnswerOk(t, t.orch.handled[k].0, t.orch.handled[k].1) {
      if k < |s.orch.handled| { assert AnswerOk(s, s.orch.handled[k].0, s.orch.handled[k].1); }
    }
    forall c | c in t.stored ensures StoredOk(t, c) { assert StoredOk(s, c); }
  }

  lemma WriterResponds(s: State, t: State, payload: Payload)
    requires WriterInv(s) && t.writers == s.writers && t.pipes == s.pipes && !payload.Began?
    requires t.plugin.sent == s.plugin.sent && t.plugin.nextId == s.plugin.nextId
    requires forall m :: m in t.orch.sent && m.Response? ==> m in s.orch.sent || m.payload == payload
    ensures WriterInv(t)
  {
    forall w | w in t.writers ensures WriterOk(t, t.writers[w]) {
      assert WriterOk(s, s.writers[w]);
      assert forall h :: Response(s.writers[w].beginId, Began(h)) in t.orch.sent ==>
          Response(s.writers[w].beginId, Began(h)) in s.orch.sent;
    }
    forall h | h in t.pipes ensures HasWriter(t, h) {
      assert HasWriter(s, h);
      var w :| Writes(s, w, h);
      assert Writes(t, w, h);
    }
  }

  /** The opener of every pipe was served before the request in service. */
  lemma OpenersEarlier(s: State, dest: string -> DestAnswer, h: nat)
    requires Inv(s, dest) && h in s.pipes && s.orch.serving.Some? && s.orch.serving.value.Request?
    ensures s.pipes[h].opener < s.orch.serving.value.id
  {
    assert PipeOk(s, dest, h);
    var k :| 0 <= k < |s.orch.handled| && s.orch.handled[k] == (Request(s.pipes[h].opener, BlobBegin), Began(h));
    ServedInOrder(s.plugin, s.orch);
    var served := Messages(s.orch.handled) + OptSeq(s.orch.serving);
    assert served[k] == s.orch.handled[k].0 && served[|s.orch.handled|] == s.orch.serving.value;
  }

  /** blob.begin opens the next handle for the calling writer. */
  lemma OrchOpensOk(s: State, dest: string -> DestAnswer)
    requires Inv(s, dest) && s.orch.serving.Some? && s.orch.serving.value.Request?
             && s.orch.serving.value.body.BlobBegin?
    requires s.open == {}
    ensures Inner(OrchFinish(s, false), dest)
  {
    var h := s.next + 1;
    assert s.finishing.None?;
    assert h !in s.pipes by {
      assert forall i :: i in s.pipes ==> PipeOk(s, dest, i);
    }
    var u := Opened(s, h);
    var t := Reply(u, Began(h));
    OpensBlob(s);
    ReplyTraffic(u, Began(h));
    ServeFrame(s, t);
    OpenedHandler(s, t, h, dest);
    OpenedWriters(s, t, h, dest);
  }

  lemma OpensBlob(s: State)
    requires s.orch.serving.Some? && s.orch.serving.value.Request? && s.orch.serving.value.body.BlobBegin?
    requires s.open == {} && s.finishing.None?
    ensures OrchFinish(s, false) == Reply(Opened(s, s.next + 1), Began(s.next + 1))
  {
  }

  /** The handler's table with the blob that the request in service opens. */
  function Opened(s: State, h: nat): State
    requires s.orch.serving.Some? && s.orch.serving.value.Request?
  {
    s.(next := h, open := {h}, pipes := s.pipes[h := Pipe("", true, None, s.orch.serving.value.id)])
  }

  lemma OpenedHandler(s: State, t: State, h: nat, dest: string -> DestAnswer)
    requires Inv(s, dest) && s.orch.serving.Some? && s.orch.serving.value.Request?
             && s.orch.serving.value.body.BlobBegin?
    requires h == s.next + 1 == t.next && h !in s.pipes
    requires t.pipes == s.pipes[h := Pipe("", true, None, s.orch.serving.value.id)]
    requires t.open == {h} && t.stored == s.stored && t.finishing.None?
    requires t.orch.handled == s.orch.handled + [(s.orch.serving.value, Began(h))]
    ensures HandlerInv(t, dest)
  {
    var id := s.orch.serving.value.id;
    assert s.orch.serving.value == Request(id, BlobBegin);
    forall i | i in t.pipes ensures PipeOk(t, dest, i) { OpenedPipe(s, t, id, h, i, dest); }
    forall i | i in s.pipes ensures t.pipes[i].opener != id { OpenersEarlier(s, dest, i); }
    OpenedAnswers(s, t, id, h, dest);
  }

  lemma OpenedAnswers(s: State, t: State, id: nat, h: nat, dest: string -> DestAnswer)
    requires HandlerInv(s, dest) && h !in s.pipes && t.stored == s.stored
    requires t.pipes == s.pipes[h := Pipe("", true, None, id)]
    requires t.orch.handled == s.orch.handled + [(Request(id, BlobBegin), Began(h))]
    ensures forall k :: 0 <= k < |t.orch.handled| ==> AnswerOk(t, t.orch.handled[k].0, t.orch.handled[k].1)
    ensures forall c :: c in t.stored ==> StoredOk(t, c)
  {
    forall k | 0 <= k < |t.orch.handled| ensures AnswerOk(t, t.orch.handled[k].0, t.orch.handled[k].1) {
      if k < |s.orch.handled| { assert AnswerOk(s, s.orch.handled[k].0, s.orch.handled[k].1); }
    }
    forall c | c in t.stored ensures StoredOk(t, c) { assert StoredOk(s, c); }
  }

  lemma OpenedPipe(s: State, t: State, id: nat, h: nat, i: nat, dest: string -> DestAnswer)
    requires (i in s.pipes ==> PipeOk(s, dest, i)) && t.next == h == s.next + 1 && t.stored == s.stored
    requires t.pipes == s.pipes[h := Pipe("", true, None, id)] && i in t.pipes && h !in s.pipes
    requires t.orch.handled == s.orch.handled + [(Request(id, BlobBegin), Began(h))]
    ensures PipeOk(t, dest, i)
  {
    assert (Request(id, BlobBegin), Began(h)) == t.orch.handled[|s.orch.handled|];
  }

  lemma OpenedWriters(s: State, t: State, h: nat, dest: string -> DestAnswer)
    requires Inv(s, dest) && s.orch.serving.Some? && s.orch.serving.value.Request?
             && s.orch.serving.value.body.BlobBegin?
    requires h !in s.pipes && t.pipes == s.pipes[h := Pipe("", true, None, s.orch.serving.value.id)]
    requires t.writers == s.writers && t.plugin.sent == s.plugin.sent && t.plugin.nextId == s.plugin.nextId
    requires forall m :: m in t.orch.sent && m.Response? ==> m in s.orch.sent || m.payload == Began(h)
    ensures WriterInv(t)
  {
    forall w | w in t.writers ensures WriterOk(t, t.writers[w]) {
      OpenedWriterOk(s, t, h, s.orch.serving.value.id, s.writers[w]);
    }
    assert Begun(s, s.orch.serving.value.id) by {
      ServingWasSent(s.plugin, s.orch);
    }
    forall i | i in t.pipes ensures HasWriter(t, i) {
      OpenedWriter(s, t, i);
    }
    assert forall m :: m in t.plugin.sent && m.Request? && m.body == BlobBegin ==> Begun(s, m.id) && Begun(t, m.id);
  }

  lemma OpenedWriterOk(s: State, t: State, h: nat, id: nat, w: Writer)
    requires WriterOk(s, w) && h !in s.pipes && t.pipes == s.pipes[h := Pipe("", true, None, id)]
    requires t.plugin.sent == s.plugin.sent && t.plugin.nextId == s.plugin.nextId
    requires forall m :: m in t.orch.sent && m.Response? ==> m in s.orch.sent || m.payload == Began(h)
    ensures WriterOk(t, w)
  {
  }

  lemma OpenedWriter(s: State, t: State, i: nat)
    requires WriterInv(s) && s.orch.serving.Some? && s.orch.serving.value.Request? && Begun(s, s.orch.serving.value.id)
    requires t.writers == s.writers && i in t.pipes
    requires if i in s.pipes then t.pipes[i] == s.pipes[i]
             else t.pipes[i] == Pipe("", true, None, s.orch.serving.value.id)
    ensures HasWriter(t, i)
  {
    if i in s.pipes {
      assert HasWriter(s, i);
      var w :| Writes(s, w, i);
      assert Writes(t, w, i);
    } else {
      var w :| w in s.writers && s.writers[w].beginId == s.orch.serving.value.id;
      assert Writes(t, w, i);
    }
  }

  lemma OrchFinishesOk(s: State, aborted: bool, dest: string -> DestAnswer)
    requires OrchCanFinish(s, aborted)
    requires Inv(s, dest)
    ensures Inner(OrchFinish(s, aborted), dest)
  {
    var m := s.orch.serving.value;
    if m.Request? && m.body.BlobBegin? {
      assert s.finishing.None?;
      if s.open != {} {
        OrchAnswersOk(s, s.next, Failure, dest);
        assert s.(next := s.next, finishing := None) == s;
      } else if aborted {
        OrchAnswersOk(s, s.next + 1, Failure, dest);
        assert s.(next := s.next + 1, finishing := None) == s.(next := s.next + 1);
      } else {
        OrchOpensOk(s, dest);
      }
    } else {
      OrchAnswersOk(s, s.next, FinishPayload(s, aborted), dest);
      assert s.(next := s.next, finishing := None) == s.(finishing := None);
    }
  }

  // ---- Steps of the loops, of Serve and of the driver ----

  /** A step that leaves the handler and the writers alone. */
  lemma PeersOnly(s: State, t: State, dest: string -> DestAnswer)
    requires Inner(s, dest) && ServeInv(t) && SameBlobTraffic(s, t)
    requires t.open == s.open && t.next == s.next && t.pipes == s.pipes && t.stored == s.stored
             && t.finishing == s.finishing
    requires t.orch.handled == s.orch.handled && t.orch.serving == s.orch.serving && t.writers == s.writers
    ensures Inner(t, dest)
  {
    HandlerFrame(s, t, dest);
    WriterFrame(s, t);
  }

  lemma PluginStepOk(s: State, step: Step, dest: string -> DestAnswer)
    requires Inner(s, dest) && Enabled(s, step) && LoopStep(step)
    ensures Inner(PluginStep(s, step), dest)
  {
    var t := PluginStep(s, step);
    PluginServe(s, step);
    PeersOnly(s, t, dest);
  }

  lemma PluginServe(s: State, step: Step)
    requires ServeInv(s) && Enabled(s, step) && LoopStep(step)
    ensures ServeInv(PluginStep(s, step))
  {
    if step.PluginFinishes? {
      var handled := s.plugin.handled;
      var last := (s.plugin.serving.value, step.payload);
      assert HandledShutdown(handled + [last]) <==> HandledShutdown(handled) || IsShutdown(last.0) by {
        assert last in handled + [last];
        assert forall x :: x in handled ==> x in handled + [last];
      }
    }
  }

  lemma DriverStepOk(s: State, step: Step, dest: string -> DestAnswer)
    requires Inner(s, dest) && Enabled(s, step) && DriverMove(step)
    ensures Inner(DriverStep(s, step), dest)
  {
    DriverServe(s, step);
    DriverTraffic(s, step);
    PeersOnly(s, DriverStep(s, step), dest);
  }

  lemma DriverTraffic(s: State, step: Step)
    requires Enabled(s, step) && DriverMove(step)
    ensures var t := DriverStep(s, step);
            && SameBlobTraffic(s, t) && t.orch.handled == s.orch.handled && t.orch.serving == s.orch.serving
            && t == s.(plugin := t.plugin, orch := t.orch, driver := t.driver)
  {
    if step.DriverAnswered? {
      AnsweredTraffic(s);
    }
  }

  lemma AnsweredTraffic(s: State)
    requires Enabled(s, DriverAnswered)
    ensures var t := DriverStep(s, DriverAnswered);
            && SameBlobTraffic(s, t) && t.orch.handled == s.orch.handled && t.orch.serving == s.orch.serving
            && t == s.(plugin := t.plugin, orch := t.orch, driver := t.driver)
  {
    var orch := Unregister(s.orch, s.driver.id);
    CallAdds(orch, s.plugin, CaptureBatch);
  }

  lemma CallAdds(x: Peer, y: Peer, body: Body)
    ensures var r := Call(x, y, body);
            && (forall m :: m in r.0.sent && m.Response? ==> m in x.sent)
            && r.0.handled == x.handled && r.0.serving == x.serving
            && r.1.sent == y.sent && r.1.nextId == y.nextId
  {
  }

  lemma DriverServe(s: State, step: Step)
    requires ServeInv(s) && Enabled(s, step) && DriverMove(step)
    ensures ServeInv(DriverStep(s, step))
  {
    if step.DriverAnswered? {
      DriverAnsweredServe(s);
    }
  }

  lemma DriverAnsweredServe(s: State)
    requires ServeInv(s) && Enabled(s, DriverAnswered)
    ensures ServeInv(DriverStep(s, DriverAnswered))
  {
  }

  lemma OrchLoopOk(s: State, step: Step, dest: string -> DestAnswer)
    requires Inner(s, dest) && Enabled(s, step) && (step.OrchReads? || step.OrchReadEnds?)
    ensures Inner(OrchStep(s, step, dest), dest)
  {
    ServeFrame(s, OrchStep(s, step, dest));
    PeersOnly(s, OrchStep(s, step, dest), dest);
  }

  // ---- The writers' steps ----

  /** Writer w moves, possibly writing to or closing its own pipe h and calling
      blob.finish; every other writer is unaffected. */
  lemma OthersKeep(s: State, t: State, w: nat, h: nat)
    requires WriterInv(s) && w in s.writers && w in t.writers && t.writers == s.writers[w := t.writers[w]]
    requires t.writers[w].beginId == s.writers[w].beginId && t.writers[w].data == s.writers[w].data
    requires WriterOk(t, t.writers[w])
    requires t.pipes == s.pipes || (
               && h in s.pipes && h in t.pipes && t.pipes == s.pipes[h := t.pipes[h]]
               && s.pipes[h].opener == t.pipes[h].opener == s.writers[w].beginId
               && t.pipes[h].data <= s.writers[w].data)
    requires t.plugin.nextId >= s.plugin.nextId && t.orch.sent == s.orch.sent
    requires forall m :: m in t.plugin.sent && m.Request? ==>
              m in s.plugin.sent || (m.id > s.plugin.nextId && m.body.BlobFinish?)
    ensures WriterInv(t)
  {
    forall v | v in t.writers ensures WriterOk(t, t.writers[v]) {
      if v != w { OtherKeeps(s, t, v, w, h); }
    }
    forall i | i in t.pipes ensures HasWriter(t, i) {
      assert HasWriter(s, i);
      var v :| Writes(s, v, i);
      assert Writes(t, v, i);
    }
    forall m | m in t.plugin.sent && m.Request? && m.body == BlobBegin ensures Begun(t, m.id) {
      assert Begun(s, m.id);
      var v :| v in s.writers && s.writers[v].beginId == m.id;
      assert v in t.writers && t.writers[v].beginId == m.id;
    }
  }

  lemma OtherKeeps(s: State, t: State, v: nat, w: nat, h: nat)
    requires WriterInv(s) && w in s.writers && v in s.writers && v != w
    requires t.pipes == s.pipes || (
               && h in s.pipes && h in t.pipes && t.pipes == s.pipes[h := t.pipes[h]]
               && s.pipes[h].opener == t.pipes[h].opener == s.writers[w].beginId)
    requires t.plugin.nextId >= s.plugin.nextId && t.orch.sent == s.orch.sent
    requires forall m :: m in t.plugin.sent && m.Request? ==> m in s.plugin.sent || m.id > s.plugin.nextId
    ensures WriterOk(t, s.writers[v])
  {
  }

  lemma NewCall(x: Peer, y: Peer, body: Body)
    requires Linked(x, y)
    ensures var r := Call(x, y, body);
            && (forall m :: m in r.0.sent && m.Request? ==> m in x.sent || m == Request(x.nextId + 1, body))
            && (forall m :: m in r.0.sent && m.Request? && m.id == x.nextId + 1 ==> m.body == body)
            && (forall m :: m in x.sent && m.Request? ==> m.id <= x.nextId)
            && (forall m :: m in x.sent ==> m in r.0.sent)
            && r.0.nextId == x.nextId + 1
            && r.1.sent == y.sent && r.1.handled == y.handled && r.1.serving == y.serving && r.1.closed == y.closed
            && r.0.handled == x.handled && r.0.serving == x.serving && r.0.requests == x.requests
            && r.0.inbox == x.inbox
            && r.0.done == x.done && r.0.closed == x.closed
  {
  }

  lemma OpenerWasSent(s: State, dest: string -> DestAnswer, h: nat)
    requires Inv(s, dest) && h in s.pipes
    ensures s.pipes[h].opener <= s.plugin.nextId
  {
  }

  lemma StartWriteOk(s: State, w: nat, data: string, dest: string -> DestAnswer)
    requires Inv(s, dest) && Enabled(s, StartWrite(w, data))
    ensures Inner(WriterStep(s, StartWrite(w, data)), dest)
  {
    var t := WriterStep(s, StartWrite(w, data));
    NewCall(s.plugin, s.orch, BlobBegin);
    HandlerFrame(s, t, dest);
    ServeFrame(s, t);
    forall h | h in s.pipes ensures s.pipes[h].opener <= s.plugin.nextId { OpenerWasSent(s, dest, h); }
    StartedWriters(s, t, w, data);
  }

  lemma StartedWriters(s: State, t: State, w: nat, data: string)
    requires WriterInv(s) && w !in s.writers
             && t.writers == s.writers[w := Writer(data, s.plugin.nextId + 1, Beginning)]
    requires t.pipes == s.pipes && t.orch.sent == s.orch.sent && t.plugin.nextId == s.plugin.nextId + 1
    requires forall m :: m in t.plugin.sent && m.Request? ==>
              m in s.plugin.sent || m == Request(s.plugin.nextId + 1, BlobBegin)
    requires forall m :: m in s.plugin.sent && m.Request? ==> m.id <= s.plugin.nextId
    requires forall h :: h in s.pipes ==> s.pipes[h].opener <= s.plugin.nextId
    ensures WriterInv(t)
  {
    forall v | v in t.writers ensures WriterOk(t, t.writers[v]) {
      if v != w {
        assert WriterOk(s, s.writers[v]);
      }
    }
    forall v | v in s.writers ensures s.writers[v].beginId != s.plugin.nextId + 1 { assert WriterOk(s, s.writers[v]); }
    assert w in t.writers && t.writers[w].beginId == s.plugin.nextId + 1;
    WritersRemain(s, t);
  }

  /** Writers that stay, and pipes that keep their openers and grow within their
      writers' bytes, stay matched. */
  lemma WritersRemain(s: State, t: State)
    requires WriterInv(s)
    requires forall v :: v in s.writers ==>
              v in t.writers && t.writers[v].beginId == s.writers[v].beginId && t.writers[v].data == s.writers[v].data
    requires t.pipes == s.pipes
    requires forall m :: m in t.plugin.sent && m.Request? && m.body == BlobBegin ==>
              m in s.plugin.sent || Begun(t, m.id)
    ensures forall h :: h in t.pipes ==> HasWriter(t, h)
    ensures forall m :: m in t.plugin.sent && m.Request? && m.body == BlobBegin ==> Begun(t, m.id)
  {
    forall h | h in t.pipes ensures HasWriter(t, h) {
      assert HasWriter(s, h);
      var v :| Writes(s, v, h);
      assert Writes(t, v, h);
    }
    forall m | m in t.plugin.sent && m.Request? && m.body == BlobBegin ensures Begun(t, m.id) {
      if m in s.plugin.sent {
        assert Begun(s, m.id);
        var v :| v in s.writers && s.writers[v].beginId == m.id;
        assert v in t.writers && t.writers[v].beginId == m.id;
      }
    }
  }

  lemma BeginAnsweredOk(s: State, w: nat, dest: string -> DestAnswer)
    requires Inv(s, dest) && Enabled(s, BeginAnswered(w))
    ensures Inner(WriterStep(s, BeginAnswered(w)), dest)
  {
    var t := WriterStep(s, BeginAnswered(w));
    var id := s.writers[w].beginId;
    HandlerFrame(s, t, dest);
    ServeFrame(s, t);
    assert WriterOk(s, s.writers[w]);
    var k := Correlated(s.plugin, s.orch, id);
    assert AnswerOk(s, s.orch.handled[k].0, s.orch.handled[k].1);
    assert Response(id, s.plugin.answers[id]) in s.orch.sent by {
      assert Response(id, s.plugin.answers[id]) in s.plugin.read;
    }
    OthersKeep(s, t, w, 0);
  }

  lemma CopyOk(s: State, w: nat, n: nat, dest: string -> DestAnswer)
    requires Inner(s, dest) && Enabled(s, Copy(w, n))
    ensures Inner(WriterStep(s, Copy(w, n)), dest)
  {
    var t := WriterStep(s, Copy(w, n));
    var h := s.writers[w].pc.handle;
    assert PipeOk(s, dest, h);
    CopiedWriter(s, w, n);
    HandlerPipeUpdate(s, t, h, dest);
    ServeFrame(s, t);
    OthersKeep(s, t, w, h);
  }

  /** The pipe holds the bytes its writer has copied so far, one copy later too. */
  lemma CopiedWriter(s: State, w: nat, n: nat)
    requires WriterInv(s) && Enabled(s, Copy(w, n))
    ensures var t, h := WriterStep(s, Copy(w, n)), s.writers[w].pc.handle;
            && s.pipes[h].writable && s.pipes[h].opener == s.writers[w].beginId
            && w in t.writers && WriterOk(t, t.writers[w]) && t.pipes[h].data <= s.writers[w].data
  {
    assert WriterOk(s, s.writers[w]);
    CopyMore(s.writers[w].data, s.writers[w].pc.written, n);
  }

  lemma CopyMore(data: string, k: nat, n: nat)
    requires k + n <= |data|
    ensures data[..k] + data[k..k + n] == data[..k + n]
  {
  }

  lemma CopyFailsOk(s: State, w: nat, dest: string -> DestAnswer)
    requires Inner(s, dest) && Enabled(s, CopyFails(w))
    ensures Inner(WriterStep(s, CopyFails(w)), dest)
  {
    var t := WriterStep(s, CopyFails(w));
    var h := s.writers[w].pc.handle;
    assert WriterOk(s, s.writers[w]);
    assert PipeOk(s, dest, h);
    HandlerPipeUpdate(s, t, h, dest);
    ServeFrame(s, t);
    OthersKeep(s, t, w, h);
  }

  lemma CopyEndsOk(s: State, w: nat, dest: string -> DestAnswer)
    requires Inv(s, dest) && Enabled(s, CopyEnds(w))
    ensures Inner(WriterStep(s, CopyEnds(w)), dest)
  {
    var t := WriterStep(s, CopyEnds(w));
    var h := s.writers[w].pc.handle;
    assert WriterOk(s, s.writers[w]);
    assert PipeOk(s, dest, h);
    assert s.writers[w].data[..|s.writers[w].data|] == s.writers[w].data;
    NewCall(s.plugin, s.orch, BlobFinish(h));
    HandlerPipeUpdate(s, t, h, dest);
    ServeFrame(s, t);
    OthersKeep(s, t, w, h);
  }

  lemma FinishAnsweredOk(s: State, w: nat, dest: string -> DestAnswer)
    requires Inv(s, dest) && Enabled(s, FinishAnswered(w))
    ensures Inner(WriterStep(s, FinishAnswered(w)), dest)
  {
    var t := WriterStep(s, FinishAnswered(w));
    HandlerFrame(s, t, dest);
    ServeFrame(s, t);
    FinishedWriter(s, w, dest);
    OthersKeep(s, t, w, 0);
  }

  lemma FinishedWriter(s: State, w: nat, dest: string -> DestAnswer)
    requires Inv(s, dest) && Enabled(s, FinishAnswered(w))
    ensures var t := WriterStep(s, FinishAnswered(w)); w in t.writers && WriterOk(t, t.writers[w])
  {
    assert WriterOk(s, s.writers[w]);
    var k := Correlated(s.plugin, s.orch, s.writers[w].pc.finishId);
    assert AnswerOk(s, s.orch.handled[k].0, s.orch.handled[k].1);
  }

  lemma GiveUpOk(s: State, w: nat, dest: string -> DestAnswer)
    requires Inner(s, dest) && Enabled(s, GiveUp(w))
    ensures Inner(WriterStep(s, GiveUp(w)), dest)
  {
    var t := WriterStep(s, GiveUp(w));
    HandlerFrame(s, t, dest);
    ServeFrame(s, t);
    assert WriterOk(s, s.writers[w]);
    OthersKeep(s, t, w, 0);
  }

  // ---- The link is kept ----

  lemma WriterLink(s: State, step: Step)
    requires Linked(s.plugin, s.orch) && Enabled(s, step) && WriterMove(step)
    ensures var t := WriterStep(s, step); Linked(t.plugin, t.orch)
  {
    match step
    case StartWrite(w, data) => LinkedCall(s.plugin, s.orch, BlobBegin);
    case BeginAnswered(w) => LinkedUnregister(s.plugin, s.orch, s.writers[w].beginId);
    case CopyEnds(w) => LinkedCall(s.plugin, s.orch, BlobFinish(s.writers[w].pc.handle));
    case FinishAnswered(w) => LinkedUnregister(s.plugin, s.orch, s.writers[w].pc.finishId);
    case GiveUp(w) =>
      var id := if s.writers[w].pc.Beginning? then s.writers[w].beginId else s.writers[w].pc.finishId;
      LinkedUnregister(s.plugin, s.orch, id);
    case _ =>
  }

  lemma PluginLink(s: State, step: Step)
    requires Linked(s.plugin, s.orch) && Enabled(s, step) && LoopStep(step)
    ensures var t := PluginStep(s, step); Linked(t.plugin, t.orch)
  {
    match step
    case PluginReads => LinkedRead(s.orch, s.plugin);
    case PluginTakes => LinkedTake(s.orch, s.plugin);
    case PluginFinishes(payload) => LinkedFinish(s.orch, s.plugin, payload);
    case PluginReadEnds => LinkedDone(s.orch, s.plugin, true, s.plugin.closed);
    case ServeSeesShutdown => LinkedDone(s.orch, s.plugin, s.plugin.done, true);
    case ServeSeesDone => LinkedDone(s.orch, s.plugin, s.plugin.done, true);
    case _ =>
  }

  lemma DriverLink(s: State, step: Step)
    requires Linked(s.plugin, s.orch) && Enabled(s, step) && DriverMove(step)
    ensures var t := DriverStep(s, step); Linked(t.plugin, t.orch)
  {
    match step
    case DriverCalls => LinkedCall(s.orch, s.plugin, Initialize);
    case DriverAnswered =>
      LinkedUnregister(s.orch, s.plugin, s.driver.id);
      AnsweredLink(s, Unregister(s.orch, s.driver.id));
    case DriverShutsDown(notify) => ShutDownLink(s, notify);
    case DriverGivesUp => LinkedDone(s.plugin, s.orch, s.orch.done, true);
  }

  lemma AnsweredLink(s: State, orch: Peer)
    requires Enabled(s, DriverAnswered) && orch == Unregister(s.orch, s.driver.id) && Linked(s.plugin, orch)
    ensures var t := DriverStep(s, DriverAnswered); Linked(t.plugin, t.orch)
  {
    if s.orch.answers[s.driver.id] != Done {
      LinkedDone(s.plugin, orch, orch.done, true);
    } else if s.driver.Initializing? {
      LinkedCall(orch, s.plugin, CaptureBatch);
    }
  }

  lemma ShutDownLink(s: State, notify: bool)
    requires Enabled(s, DriverShutsDown(notify)) && Linked(s.plugin, s.orch)
    ensures var t := DriverStep(s, DriverShutsDown(notify)); Linked(t.plugin, t.orch)
  {
    if notify {
      LinkedSend(s.orch, s.plugin, Notify(Shutdown));
      var r := Send(s.orch, s.plugin, Notify(Shutdown));
      LinkedDone(r.1, r.0, r.0.done, true);
    } else {
      LinkedDone(s.plugin, s.orch, s.orch.done, true);
    }
  }

  lemma FinishPeers(s: State, aborted: bool)
    requires OrchCanFinish(s, aborted)
    ensures (OrchFinish(s, aborted).orch, OrchFinish(s, aborted).plugin)
            == FinishServing(s.orch, s.plugin, ServedPayload(s, aborted))
  {
  }

  lemma OrchLink(s: State, step: Step, dest: string -> DestAnswer)
    requires Linked(s.plugin, s.orch) && Enabled(s, step) && OrchMove(step)
    ensures var t := OrchStep(s, step, dest); Linked(t.plugin, t.orch)
  {
    match step
    case OrchReads => LinkedRead(s.plugin, s.orch);
    case OrchTakes => LinkedTake(s.plugin, s.orch);
    case OrchFinishes(aborted) =>
      LinkedFinish(s.plugin, s.orch, ServedPayload(s, aborted));
      FinishPeers(s, aborted);
    case OrchReadEnds => LinkedDone(s.plugin, s.orch, true, s.orch.closed);
    case _ =>
  }

  // ---- Every step, every run ----

  lemma WriterInner(s: State, step: Step, dest: string -> DestAnswer)
    requires Inv(s, dest) && Enabled(s, step) && WriterMove(step)
    ensures Inner(WriterStep(s, step), dest)
  {
    match step
    case StartWrite(w, data) => StartWriteOk(s, w, data, dest);
    case BeginAnswered(w) => BeginAnsweredOk(s, w, dest);
    case Copy(w, n) => CopyOk(s, w, n, dest);
    case CopyFails(w) => CopyFailsOk(s, w, dest);
    case CopyEnds(w) => CopyEndsOk(s, w, dest);
    case FinishAnswered(w) => FinishAnsweredOk(s, w, dest);
    case GiveUp(w) => GiveUpOk(s, w, dest);
  }

  lemma OrchInner(s: State, step: Step, dest: string -> DestAnswer)
    requires Inv(s, dest) && Enabled(s, step) && OrchMove(step)
    ensures Inner(OrchStep(s, step, dest), dest)
  {
    match step
    case OrchReads => OrchLoopOk(s, step, dest);
    case OrchReadEnds => OrchLoopOk(s, step, dest);
    case OrchTakes => OrchTakesOk(s, dest);
    case OrchFinishes(aborted) => OrchFinishesOk(s, aborted, dest);
    case Commit(h) => CommitOk(s, h, dest);
    case CommitFails(h) => CommitFailsOk(s, h, dest);
    case DropEnd(h) => DropEndOk(s, h, dest);
  }

  /** Every step of either process keeps the invariant. */
  lemma InvStep(s: State, step: Step, dest: string -> DestAnswer)
    requires Inv(s, dest) && Enabled(s, step)
    ensures Inv(Apply(s, step, dest), dest)
  {
    if WriterMove(step) {
      WriterLink(s, step);
      WriterInner(s, step, dest);
    } else if OrchMove(step) {
      OrchLink(s, step, dest);
      OrchInner(s, step, dest);
    } else if DriverMove(step) {
      DriverLink(s, step);
      DriverStepOk(s, step, dest);
    } else {
      PluginLink(s, step);
      PluginStepOk(s, step, dest);
    }
  }

  /** A schedule: the states of both processes and the steps between them. */
  ghost predicate IsRun(states: seq<State>, steps: seq<Step>, dest: string -> DestAnswer) {
    && |states| == |steps| + 1 && states[0] == INITIAL
    && forall i :: 0 <= i < |steps| ==>
         Enabled(states[i], steps[i]) && states[i + 1] == Apply(states[i], steps[i], dest)
  }

  lemma {:induction false} RunInv(states: seq<State>, steps: seq<Step>, dest: string -> DestAnswer, i: nat)
    requires IsRun(states, steps, dest) && i < |states|
    ensures Inv(states[i], dest)
    decreases i
  {
    if i == 0 {
      InvInit(dest);
    } else {
      RunInv(states, steps, dest, i - 1);
      InvStep(states[i - 1], steps[i - 1], dest);
    }
  }

  // ---- The theorems ----

  /** In every schedule at most one blob is open. */
  lemma OneOpenBlob(states: seq<State>, steps: seq<Step>, dest: string -> DestAnswer, i: nat)
    requires IsRun(states, steps, dest) && i < |states|
    ensures |states[i].open| <= 1
  {
    RunInv(states, steps, dest, i);
  }

  /** The pipes of t extend those of s by handles above s.next. */
  ghost predicate HandlesGrow(s: State, t: State) {
    && s.next <= t.next
    && (forall h :: h in s.pipes ==> h in t.pipes && t.pipes[h].opener == s.pipes[h].opener)
    && (forall h :: h in t.pipes && h !in s.pipes ==> h > s.next)
  }

  lemma WriterHandles(s: State, step: Step)
    requires Enabled(s, step) && WriterMove(step)
    ensures HandlesGrow(s, WriterStep(s, step))
  {
  }

  lemma OrchHandles(s: State, step: Step, dest: string -> DestAnswer)
    requires Enabled(s, step) && OrchMove(step) && s.next + 1 !in s.pipes
    ensures HandlesGrow(s, OrchStep(s, step, dest))
  {
    if step.OrchFinishes? {
      FinishHandles(s, step.aborted);
    }
  }

  lemma FinishHandles(s: State, aborted: bool)
    requires OrchCanFinish(s, aborted) && s.next + 1 !in s.pipes
    ensures HandlesGrow(s, OrchFinish(s, aborted))
  {
  }

  /** Handles strictly increase: in every schedule a handle handed out later is
      greater than all before, and no two begin calls get the same one. */
  lemma HandlesNeverReused(states: seq<State>, steps: seq<Step>, dest: string -> DestAnswer, i: nat)
    requires IsRun(states, steps, dest) && i < |steps|
    ensures forall h :: h in states[i].pipes ==> h <= states[i].next
    ensures HandlesGrow(states[i], states[i + 1])
    ensures forall x, y, h :: (x, Began(h)) in states[i].orch.handled && (y, Began(h)) in states[i].orch.handled ==>
              x == y
  {
    RunInv(states, steps, dest, i);
    var s := states[i];
    forall h | h in s.pipes ensures h <= s.next { assert PipeOk(s, dest, h); }
    HandlesStep(s, steps[i], dest);
    OneBegin(s, dest);
  }

  lemma HandlesStep(s: State, step: Step, dest: string -> DestAnswer)
    requires Enabled(s, step) && s.next + 1 !in s.pipes
    ensures HandlesGrow(s, Apply(s, step, dest))
  {
    if WriterMove(step) {
      WriterHandles(s, step);
    } else if OrchMove(step) {
      OrchHandles(s, step, dest);
    } else {
      LoopHandles(s, step);
    }
  }

  lemma LoopHandles(s: State, step: Step)
    requires Enabled(s, step) && (LoopStep(step) || DriverMove(step))
    ensures LoopStep(step) ==> HandlesGrow(s, PluginStep(s, step))
    ensures DriverMove(step) ==> HandlesGrow(s, DriverStep(s, step))
  {
  }

  lemma OneBegin(s: State, dest: string -> DestAnswer)
    requires HandlerInv(s, dest)
    ensures forall x, y, h :: (x, Began(h)) in s.orch.handled && (y, Began(h)) in s.orch.handled ==> x == y
  {
  }

  /** Each response reaches only the call that issued its id, in both directions:
      an answered call holds the answer to its own request. */
  lemma ResponsesMatchCalls(states: seq<State>, steps: seq<Step>, dest: string -> DestAnswer, i: nat, id: nat)
    requires IsRun(states, steps, dest) && i < |states|
    ensures id in states[i].plugin.answers ==>
              exists k :: 0 <= k < |states[i].orch.handled| && states[i].orch.handled[k].0.Request?
                          && states[i].orch.handled[k].0.id == id
                          && states[i].orch.handled[k].1 == states[i].plugin.answers[id]
                          && states[i].orch.handled[k].0 in states[i].plugin.sent
    ensures id in states[i].orch.answers ==>
              exists k :: 0 <= k < |states[i].plugin.handled| && states[i].plugin.handled[k].0.Request?
                          && states[i].plugin.handled[k].0.id == id
                          && states[i].plugin.handled[k].1 == states[i].orch.answers[id]
                          && states[i].plugin.handled[k].0 in states[i].orch.sent
  {
    RunInv(states, steps, dest, i);
    if id in states[i].plugin.answers {
      var k := Correlated(states[i].plugin, states[i].orch, id);
    }
    if id in states[i].orch.answers {
      var k := Correlated(states[i].orch, states[i].plugin, id);
    }
  }

  /** Transport refinement: a successful WriteBlob returned exactly what the
      destination answers for the writer's bytes, and the destination holds them. */
  lemma WriteRefinesDest(states: seq<State>, steps: seq<Step>, dest: string -> DestAnswer, i: nat, w: nat)
    requires IsRun(states, steps, dest) && i < |states| && w in states[i].writers && states[i].writers[w].pc.Succeeded?
    ensures dest(states[i].writers[w].data) == Stored(states[i].writers[w].pc.id, states[i].writers[w].pc.size)
    ensures (states[i].writers[w].pc.handle, states[i].writers[w].data) in states[i].stored
  {
    RunInv(states, steps, dest, i);
    var s := states[i];
    assert WriterOk(s, s.writers[w]);
    assert PipeOk(s, dest, s.writers[w].pc.handle);
  }

  /** Whatever else reaches the destination is a prefix of one writer's bytes, and
      of a write that did not succeed unless it is the whole of them. */
  lemma OnlyPrefixesStored(states: seq<State>, steps: seq<Step>, dest: string -> DestAnswer, i: nat, c: (nat, string))
    returns (w: nat)
    requires IsRun(states, steps, dest) && i < |states| && c in states[i].stored
    ensures w in states[i].writers && c.1 <= states[i].writers[w].data
    ensures c.1 == states[i].writers[w].data || !states[i].writers[w].pc.Succeeded?
  {
    RunInv(states, steps, dest, i);
    var s := states[i];
    assert StoredOk(s, c);
    assert HasWriter(s, c.0);
    w :| Writes(s, w, c.0);
    assert WriterOk(s, s.writers[w]);
  }

  // ---- Shutdown versus drop ----

  predicate AskedShutdown(ms: seq<Msg>) {
    exists m :: m in ms && IsShutdown(m)
  }

  /** When Serve has returned, it returned nil exactly when the orchestrator sent a
      shutdown, and an error only after the socket closed without one, even if the
      close was seen while requests were still queued. */
  lemma ShutdownOrDrop(states: seq<State>, steps: seq<Step>, dest: string -> DestAnswer, i: nat)
    requires IsRun(states, steps, dest) && i < |states|
    ensures states[i].serve.ReturnedNil? ==> AskedShutdown(states[i].orch.sent)
    ensures states[i].serve.ReturnedError? ==> states[i].orch.closed && !AskedShutdown(states[i].orch.sent)
  {
    RunInv(states, steps, dest, i);
    var s := states[i];
    if s.serve.ReturnedNil? {
      var x :| x in s.plugin.handled && IsShutdown(x.0);
      var k :| 0 <= k < |s.plugin.handled| && s.plugin.handled[k] == x;
      HandledWasSent(s.orch, s.plugin, k);
    }
    if s.serve.ReturnedError? {
      forall m | m in s.orch.sent ensures !IsShutdown(m) {
        if !m.Response? {
          assert m in s.plugin.read;
          AsksSubset(s.plugin.read, m);
          assert m in Messages(s.plugin.handled);
          var k :| 0 <= k < |s.plugin.handled| && s.plugin.handled[k].0 == m;
          assert s.plugin.handled[k] in s.plugin.handled;
        }
      }
    }
  }

  /** The plugin's remaining work once the socket is closed. */
  function ServeWork(s: State): nat {
    4 * |s.plugin.inbox| + 3 * |s.plugin.requests| + (if s.plugin.serving.Some? then 2 else 0)
    + (if s.plugin.done then 0 else 1) + (if s.drained then 0 else 1) + (if s.serve.Running? then 1 else 0)
  }

  /** Until Serve returns, some step of the plugin's loops is enabled after the close. */
  lemma ServeCanMove(s: State) returns (step: Step)
    requires ServeInv(s) && s.orch.closed && s.serve.Running?
    ensures LoopStep(step) && Enabled(s, step)
  {
    if s.plugin.serving.Some? {
      step := PluginFinishes(Done);
    } else if s.plugin.requests != [] {
      step := PluginTakes;
    } else if s.plugin.inbox != [] {
      step := PluginReads;
    } else if !s.plugin.done {
      step := PluginReadEnds;
    } else if !s.drained {
      step := PluginDrains;
    } else {
      step := ServeSeesDone;
    }
  }

  lemma LoopWorkFalls(s: State, step: Step)
    requires s.orch.closed && Enabled(s, step) && LoopStep(step)
    ensures ServeWork(PluginStep(s, step)) < ServeWork(s) && PluginStep(s, step).orch.closed
  {
  }

  lemma OthersAddNoWork(s: State, step: Step, dest: string -> DestAnswer)
    requires s.orch.closed && Enabled(s, step) && !LoopStep(step)
    requires DriverMove(step) ==> s.driver.Closed?
    ensures ServeWork(Apply(s, step, dest)) == ServeWork(s) && Apply(s, step, dest).orch.closed
  {
    if WriterMove(step) {
      WriterAddsNoWork(s, step);
    } else {
      OrchAddsNoWork(s, step, dest);
    }
  }

  lemma OrchAddsNoWork(s: State, step: Step, dest: string -> DestAnswer)
    requires s.orch.closed && Enabled(s, step) && OrchMove(step)
    ensures ServeWork(OrchStep(s, step, dest)) == ServeWork(s) && OrchStep(s, step, dest).orch.closed
  {
    if step.OrchFinishes? {
      FinishKeepsPlugin(s, step.aborted);
    } else {
      OrchStepKeepsPlugin(s, step, dest);
    }
  }

  lemma OrchStepKeepsPlugin(s: State, step: Step, dest: string -> DestAnswer)
    requires Enabled(s, step) && OrchMove(step) && !step.OrchFinishes?
    ensures var t := OrchStep(s, step, dest);
            t.plugin == s.plugin && t.orch.closed == s.orch.closed && t.drained == s.drained && t.serve == s.serve
  {
    if step.OrchTakes? {
      TakeKeepsPlugin(s);
    } else if step.Commit? {
      assert OrchStep(s, step, dest).plugin == s.plugin;
    }
  }

  lemma TakeKeepsPlugin(s: State)
    requires s.orch.serving.None? && s.orch.requests != []
    ensures var t := OrchTake(s);
            t.plugin == s.plugin && t.orch.closed == s.orch.closed && t.drained == s.drained && t.serve == s.serve
  {
  }

  lemma FinishKeepsPlugin(s: State, aborted: bool)
    requires s.orch.closed && OrchCanFinish(s, aborted)
    ensures var t := OrchFinish(s, aborted);
            t.plugin == s.plugin && t.orch.closed && t.drained == s.drained && t.serve == s.serve
  {
  }

  lemma WriterAddsNoWork(s: State, step: Step)
    requires s.orch.closed && Enabled(s, step) && WriterMove(step)
    ensures ServeWork(WriterStep(s, step)) == ServeWork(s) && WriterStep(s, step).orch.closed
  {
  }

  /** After the close each such step lowers the remaining work and no other step
      raises it, so Serve returns after a bounded number of them. */
  lemma ServeWorkFalls(s: State, step: Step, dest: string -> DestAnswer)
    requires ServeInv(s) && s.orch.closed && Enabled(s, step)
    ensures Apply(s, step, dest).orch.closed
    ensures ServeWork(Apply(s, step, dest)) <= ServeWork(s)
    ensures LoopStep(step) ==> ServeWork(Apply(s, step, dest)) < ServeWork(s)
  {
    if LoopStep(step) {
      ApplyLoop(s, step, dest);
      LoopWorkFalls(s, step);
    } else {
      assert DriverMove(step) ==> s.driver.Closed?;
      OthersAddNoWork(s, step, dest);
    }
  }

  lemma ApplyLoop(s: State, step: Step, dest: string -> DestAnswer)
    requires Enabled(s, step) && LoopStep(step)
    ensures Apply(s, step, dest) == PluginStep(s, step)
  {
  }

  /** How many steps of the plugin's loops a schedule takes. */
  function LoopSteps(steps: seq<Step>): nat {
    if steps == [] then 0
    else LoopSteps(steps[..|steps| - 1]) + (if LoopStep(steps[|steps| - 1]) then 1 else 0)
  }

  lemma LoopStepsNext(steps: seq<Step>, i: nat, j: nat)
    requires i < j <= |steps|
    ensures LoopSteps(steps[i..j]) == LoopSteps(steps[i..j - 1]) + (if LoopStep(steps[j - 1]) then 1 else 0)
  {
    assert steps[i..j][..j - i - 1] == steps[i..j - 1];
  }

  /** After the close the step is paid for by the work it takes away. */
  ghost predicate Pays(s: State, step: Step, t: State) {
    s.orch.closed ==> t.orch.closed && ServeWork(t) + (if LoopStep(step) then 1 else 0) <= ServeWork(s)
  }

  lemma StepPays(states: seq<State>, steps: seq<Step>, dest: string -> DestAnswer, k: nat)
    requires IsRun(states, steps, dest) && k < |steps|
    ensures Pays(states[k], steps[k], states[k + 1])
  {
    RunInv(states, steps, dest, k);
    if states[k].orch.closed {
      ServeWorkFalls(states[k], steps[k], dest);
    }
  }

  lemma {:induction false} WorkPays(states: seq<State>, steps: seq<Step>, i: nat, j: nat)
    requires |states| == |steps| + 1 && i <= j < |states| && states[i].orch.closed
    requires forall k :: 0 <= k < |steps| ==> Pays(states[k], steps[k], states[k + 1])
    ensures states[j].orch.closed && LoopSteps(steps[i..j]) + ServeWork(states[j]) <= ServeWork(states[i])
    decreases j
  {
    if i == j {
      assert steps[i..j] == [];
    } else {
      WorkPays(states, steps, i, j - 1);
      assert Pays(states[j - 1], steps[j - 1], states[j]);
      LoopStepsNext(steps, i, j);
    }
  }

  /** From the close on, in every schedule, at most as many loop steps happen as there
      was work left, and after that many Serve has returned. */
  lemma ServeReturns(states: seq<State>, steps: seq<Step>, dest: string -> DestAnswer, i: nat, j: nat)
    requires IsRun(states, steps, dest) && i <= j < |states| && states[i].orch.closed
    ensures LoopSteps(steps[i..j]) <= ServeWork(states[i])
    ensures LoopSteps(steps[i..j]) == ServeWork(states[i]) ==> !states[j].serve.Running?
  {
    forall k | 0 <= k < |steps| ensures Pays(states[k], steps[k], states[k + 1]) {
      StepPays(states, steps, dest, k);
    }
    WorkPays(states, steps, i, j);
  }
}
