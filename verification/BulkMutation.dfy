/** The bulk-mutation engine: request validation (bulk_mutate.go), the
    best-effort dispatch of one op (bulk_dispatch.go), and the cancellable,
    observed loop around it (bulk_progress.go). A URL is its string; None is nil. */
module BulkMutation {
  import opened Prelude

  type Url = Option<string>

  datatype OpKind = Create | Put | Patch | Delete | Unknown(name: string)

  /** One op; the empty string is Go's absent id. */
  datatype Op = Op(kind: OpKind, uri: Url, body: string, typ: string, tempId: string, container: Url, inRef: string,
                   ref: string)

  datatype Failure = Failure(uri: Url, ref: string, err: string)

  datatype CreatedNode = CreatedNode(tempId: string, uri: string)

  datatype Status = Applied | PatchedNothing | Failed | Deleted | NotFound

  datatype Outcome = Outcome(uri: Url, ref: string, status: Status, fields: Option<seq<string>>, newUri: Url,
                             name: string, err: string)

  function FailedOutcome(uri: Url, ref: string, err: string): Outcome {
    Outcome(uri, ref, Failed, None, None, "", err)
  }

  // ---- Request validation ----

  datatype Atomicity = BestEffort | Atomic | Unsupported(name: string)

  datatype Sweep = Sweep(root: Url, op: Op)

  datatype Request = Request(ops: seq<Op>, sweep: Option<Sweep>, atomicity: Atomicity)

  datatype BadRequest =
    | BadAtomicity | BothForms | NeitherForm | NoSweepRoot | BadSweepKind | SweepCreate | SweepTempId
    | BadKind(i: nat) | BadAddress(i: nat) | UndefinedRef(i: nat) | StrayContainer(i: nat)
    | TempIdNotCreate(i: nat) | BadContainer(i: nat) | RedefinedTempId(i: nat) | AtomicTempId(i: nat)

  predicate Defines(op: Op, id: string) {
    id != "" && op.tempId == id
  }

  predicate DefinedBefore(ops: seq<Op>, i: nat, id: string)
    requires i <= |ops|
  {
    exists j :: 0 <= j < i && Defines(ops[j], id)
  }

  /** Exactly one of uri, ref and temp id addresses the op. */
  predicate OneAddress(op: Op) {
    if op.uri.Some? then op.ref == "" && op.tempId == ""
    else (op.ref != "") != (op.tempId != "")
  }

  /** What a request must satisfy at its i-th op. */
  predicate ValidOp(ops: seq<Op>, i: nat, atomicity: Atomicity)
    requires i < |ops|
  {
    var op := ops[i];
    && !op.kind.Unknown?
    && OneAddress(op)
    && (op.ref != "" ==> DefinedBefore(ops, i, op.ref))
    && (op.inRef != "" ==> DefinedBefore(ops, i, op.inRef))
    && (if op.tempId == "" then op.container.None? && op.inRef == ""
        else
          && op.kind.Create?
          && op.container.Some? != (op.inRef != "")
          && !DefinedBefore(ops, i, op.tempId)
          && atomicity != Atomic)
  }

  predicate ValidOps(ops: seq<Op>, atomicity: Atomicity) {
    forall i :: 0 <= i < |ops| ==> ValidOp(ops, i, atomicity)
  }

  predicate ValidSweep(s: Sweep) {
    && s.root.Some?
    && !s.op.kind.Unknown? && !s.op.kind.Create?
    && s.op.tempId == "" && s.op.ref == "" && s.op.container.None? && s.op.inRef == ""
  }

  predicate ValidRequest(r: Request) {
    && !r.atomicity.Unsupported?
    && (r.ops != [] <==> r.sweep.None?)
    && ValidOps(r.ops, r.atomicity)
    && (r.sweep.Some? ==> ValidSweep(r.sweep.value))
  }

  method ValidateOps(ops: seq<Op>, atomicity: Atomicity) returns (bad: Option<BadRequest>)
    ensures bad.None? <==> ValidOps(ops, atomicity)
  {
    var defined: set<string> := {};
    for i := 0 to |ops|
      invariant forall j :: 0 <= j < i ==> ValidOp(ops, j, atomicity)
      invariant forall id :: id in defined <==> DefinedBefore(ops, i, id)
    {
      var op := ops[i];
      ghost var valid := ValidOp(ops, i, atomicity);
      if op.kind.Unknown? {
        return Some(BadKind(i));
      }
      var addresses := (if op.uri.Some? then 1 else 0) + (if op.ref != "" then 1 else 0)
          + (if op.tempId != "" then 1 else 0);
      if addresses != 1 {
        return Some(BadAddress(i));
      }
      if op.ref != "" && op.ref !in defined {
        return Some(UndefinedRef(i));
      }
      if op.inRef != "" && op.inRef !in defined {
        return Some(UndefinedRef(i));
      }
      ghost var before := defined;
      if op.tempId == "" {
        if op.container.Some? || op.inRef != "" {
          return Some(StrayContainer(i));
        }
      } else {
        if !op.kind.Create? {
          return Some(TempIdNotCreate(i));
        } else if op.container.Some? == (op.inRef != "") {
          return Some(BadContainer(i));
        } else if op.tempId in defined {
          return Some(RedefinedTempId(i));
        } else if atomicity == Atomic {
          return Some(AtomicTempId(i));
        }
        defined := defined + {op.tempId};
      }
      forall id ensures id in defined <==> DefinedBefore(ops, i + 1, id) {
        DefinedStep(ops, i, id);
      }
    }
    return None;
  }

  lemma DefinedStep(ops: seq<Op>, i: nat, id: string)
    requires i < |ops|
    ensures DefinedBefore(ops, i + 1, id) <==> DefinedBefore(ops, i, id) || Defines(ops[i], id)
  {
  }

  /** How many of uri, ref and temp id an op gives. */
  function Addresses(op: Op): nat {
    (if op.uri.Some? then 1 else 0) + (if op.ref != "" then 1 else 0) + (if op.tempId != "" then 1 else 0)
  }

  /** How many of the container and the reference to one an op gives. */
  function Containers(op: Op): nat {
    (if op.container.Some? then 1 else 0) + (if op.inRef != "" then 1 else 0)
  }

  /** Of a known kind, with one address; a temp id only on a create, in one container,
      and never under atomicity. */
  predicate WellShaped(op: Op, atomicity: Atomicity) {
    && (op.kind.Create? || op.kind.Put? || op.kind.Patch? || op.kind.Delete?)
    && Addresses(op) == 1 && Containers(op) == (if op.tempId != "" then 1 else 0)
    && (op.tempId != "" ==> op.kind.Create? && !atomicity.Atomic?)
  }

  /** The temp id `id`, if any, was given to an op before the i-th. */
  predicate GivenBefore(ops: seq<Op>, i: nat, id: string)
    requires i <= |ops|
  {
    id == "" || exists j :: 0 <= j < i && ops[j].tempId == id
  }

  /** The i-th op gives a temp id no earlier op gave. */
  predicate FreshTempId(ops: seq<Op>, i: nat)
    requires i < |ops|
  {
    ops[i].tempId != "" ==> forall j :: 0 <= j < i ==> ops[j].tempId != ops[i].tempId
  }

  /** What a valid list is as a whole: its ops are well shaped, no temp id is given
      twice, and none is used before it is given. */
  lemma ValidExactly(ops: seq<Op>, atomicity: Atomicity)
    ensures ValidOps(ops, atomicity) <==>
              && (forall op :: op in ops ==> WellShaped(op, atomicity))
              && (forall i :: 0 <= i < |ops| ==>
                    FreshTempId(ops, i) && GivenBefore(ops, i, ops[i].ref) && GivenBefore(ops, i, ops[i].inRef))
  {
    forall i | 0 <= i < |ops|
      ensures ValidOp(ops, i, atomicity) <==>
                && WellShaped(ops[i], atomicity) && FreshTempId(ops, i)
                && GivenBefore(ops, i, ops[i].ref) && GivenBefore(ops, i, ops[i].inRef) {
      ValidOpExactly(ops, i, atomicity);
    }
  }

  lemma ValidOpExactly(ops: seq<Op>, i: nat, atomicity: Atomicity)
    requires i < |ops|
    ensures ValidOp(ops, i, atomicity) <==>
              && WellShaped(ops[i], atomicity) && FreshTempId(ops, i)
              && GivenBefore(ops, i, ops[i].ref) && GivenBefore(ops, i, ops[i].inRef)
  {
    GivenIsDefined(ops, i, ops[i].ref);
    GivenIsDefined(ops, i, ops[i].inRef);
    GivenIsDefined(ops, i, ops[i].tempId);
  }

  lemma GivenIsDefined(ops: seq<Op>, i: nat, id: string)
    requires i <= |ops|
    ensures id != "" ==> (DefinedBefore(ops, i, id) <==> exists j :: 0 <= j < i && ops[j].tempId == id)
  {
    if id != "" && exists j :: 0 <= j < i && ops[j].tempId == id {
      var j :| 0 <= j < i && ops[j].tempId == id;
      assert Defines(ops[j], id);
    }
  }

  method Validate(r: Request) returns (bad: Option<BadRequest>)
    ensures bad.None? <==> ValidRequest(r)
  {
    if r.atomicity.Unsupported? {
      return Some(BadAtomicity);
    }
    if r.ops != [] && r.sweep.Some? {
      return Some(BothForms);
    }
    if r.ops == [] && r.sweep.None? {
      return Some(NeitherForm);
    }
    if r.ops != [] {
      bad := ValidateOps(r.ops, r.atomicity);
      return;
    }
    var s := r.sweep.value;
    if s.root.None? {
      return Some(NoSweepRoot);
    }
    if s.op.kind.Unknown? {
      return Some(BadSweepKind);
    }
    if s.op.kind.Create? {
      return Some(SweepCreate);
    }
    if s.op.tempId != "" || s.op.ref != "" || s.op.container.Some? || s.op.inRef != "" {
      return Some(SweepTempId);
    }
    return None;
  }

  // ---- The backend ----

  /** The optional interfaces a source implements. */
  datatype Capabilities = Capabilities(createsChildren: bool, patchDetail: bool, deleteDetail: bool, deleteWith: bool)

  datatype Call =
    | CreateNode(target: Url, body: string, typ: string)
    | PutNode(target: Url, body: string)
    | PatchNode(target: Url, body: string)
    | PatchNodeDetail(target: Url, body: string)
    | DeleteNode(target: Url)
    | DeleteNodeWith(target: Url, body: string)
    | DeleteNodeDetail(target: Url, body: string)
    | CreateChild(target: Url, body: string, typ: string)

  /** Whatever a verb may answer; each reads the parts its Go signature has. */
  datatype Reply = Reply(err: Option<string>, applied: Option<seq<string>>, newUri: Url, name: string, notFound: bool,
                         created: Url)

  /** A source with arbitrary behaviour: `replies(n)` answers its n-th call. */
  class Backend {
    const caps: Capabilities
    const replies: nat -> Reply
    var calls: seq<Call>

    constructor (caps: Capabilities, replies: nat -> Reply)
      ensures this.caps == caps && this.replies == replies && calls == []
    {
      this.caps := caps;
      this.replies := replies;
      calls := [];
    }

    method Invoke(call: Call) returns (reply: Reply)
      modifies this
      ensures calls == old(calls) + [call] && reply == replies(|old(calls)|)
    {
      reply := replies(|calls|);
      calls := calls + [call];
    }
  }

  // ---- One op, as a function of the result so far and the reply it gets ----

  datatype Tally = Tally(
    appliedNodes: seq<Url>, patchedNothing: seq<Url>, failed: seq<Failure>, created: seq<CreatedNode>,
    outcomes: seq<Outcome>)

  const EMPTY_TALLY := Tally([], [], [], [], [])

  function CreatedUri(created: seq<CreatedNode>, id: string): Url {
    if created == [] then None
    else if created[0].tempId == id then Some(created[0].uri)
    else CreatedUri(created[1..], id)
  }

  function DependentFailure(id: string): string {
    "depends on the create of temp id " + id + ", which failed"
  }

  const NO_BODY_REASON := "this source's delete takes no body"
  const NO_CREATOR_REASON := "this source does not create server-assigned children"
  const NO_CREATED_REASON := "the source reported no created URI"
  const NOT_ATTEMPTED_REASON := "not attempted: the call was cancelled before this op started; send it again"

  function DepId(op: Op): string {
    if op.tempId != "" then op.inRef else op.ref
  }

  /** The op's temp id, defined or referenced. */
  function RefOf(op: Op): string {
    if op.tempId != "" then op.tempId else op.ref
  }

  /** The target or container the op is dispatched with; None when its temp id did not resolve. */
  function Target(op: Op, created: seq<CreatedNode>): Option<Url> {
    if DepId(op) != "" then
      match CreatedUri(created, DepId(op))
      case None => None
      case Some(u) => Some(Some(u))
    else Some(if op.tempId != "" then op.container else op.uri)
  }

  /** A delete whose body no interface of the source takes. */
  predicate BodyRefused(caps: Capabilities, op: Op) {
    op.tempId == "" && op.kind.Delete? && op.body != "" && !caps.deleteDetail && !caps.deleteWith
  }

  /** The one backend call the op makes, if it makes any. */
  function CallFor(caps: Capabilities, op: Op, created: seq<CreatedNode>): Option<Call> {
    var target := Target(op, created);
    if target.None? || BodyRefused(caps, op) then None
    else if op.tempId != "" then
      if caps.createsChildren then Some(CreateChild(target.value, op.body, op.typ)) else None
    else
      match op.kind
      case Create => Some(CreateNode(target.value, op.body, op.typ))
      case Put => Some(PutNode(target.value, op.body))
      case Patch => Some(
        if caps.patchDetail then PatchNodeDetail(target.value, op.body) else PatchNode(target.value, op.body))
      case Delete => Some(
        if caps.deleteDetail then DeleteNodeDetail(target.value, op.body)
        else if op.body == "" then DeleteNode(target.value)
        else DeleteNodeWith(target.value, op.body))
      case Unknown(_) => None
  }

  function FailOp(uri: Url, ref: string, err: string, t: Tally): Tally {
    t.(failed := t.failed + [Failure(uri, ref, err)], outcomes := t.outcomes + [FailedOutcome(uri, ref, err)])
  }

  /** A temp-id create (applyTempCreate). */
  function TempCreated(caps: Capabilities, op: Op, t: Tally, reply: Reply): Tally {
    if !caps.createsChildren then FailOp(None, op.tempId, NO_CREATOR_REASON, t)
    else if Target(op, t.created).None? then FailOp(None, op.tempId, DependentFailure(op.inRef), t)
    else if reply.err.Some? then FailOp(None, op.tempId, reply.err.value, t)
    else if reply.created.None? then FailOp(None, op.tempId, NO_CREATED_REASON, t)
    else
      Tally(
        t.appliedNodes + [reply.created], t.patchedNothing, t.failed,
        t.created + [CreatedNode(op.tempId, reply.created.value)],
        t.outcomes + [Outcome(reply.created, op.tempId, Applied, None, None, "", "")])
  }

  /** What the dispatched verb reported, with the fields its interface lacks cleared. */
  function VerbReply(caps: Capabilities, op: Op, reply: Reply): Reply {
    var cleared := Reply(reply.err, None, None, "", false, None);
    match op.kind
    case Patch => if caps.patchDetail then reply.(name := "", notFound := false) else cleared.(applied := reply.applied)
    case Delete =>
      if BodyRefused(caps, op) then cleared.(err := Some(NO_BODY_REASON))
      else if caps.deleteDetail then reply.(applied := None, newUri := None) else cleared
    case Unknown(name) => cleared.(err := Some("bulk_mutate: unknown op kind " + name))
    case _ => cleared
  }

  function OpApplied(caps: Capabilities, op: Op, t: Tally, raw: Reply): Tally {
    if op.tempId != "" then TempCreated(caps, op, t, raw)
    else if Target(op, t.created).None? then FailOp(None, op.ref, DependentFailure(op.ref), t)
    else
      var uri := Target(op, t.created).value;
      var reply := VerbReply(caps, op, raw);
      var nothing := op.kind.Patch? && reply.err.None? && reply.applied == Some([]);
      var newUri := if op.kind.Patch? && reply.err.None? && !nothing && reply.newUri != uri then reply.newUri else None;
      if reply.err.Some? then
        var status := if reply.notFound then NotFound else Failed;
        t.(failed := t.failed + [Failure(uri, op.ref, reply.err.value)],
           outcomes := t.outcomes + [Outcome(uri, op.ref, status, reply.applied, None, reply.name, reply.err.value)])
      else if nothing then
        t.(patchedNothing := t.patchedNothing + [uri],
           outcomes := t.outcomes + [Outcome(uri, op.ref, PatchedNothing, reply.applied, newUri, reply.name, "")])
      else
        t.(appliedNodes := t.appliedNodes + [uri],
           outcomes := t.outcomes + [
             Outcome(uri, op.ref, if op.kind.Delete? then Deleted else Applied, reply.applied, newUri, reply.name, "")])
  }

  // ---- The imperative engine ----

  class BulkResult {
    var appliedNodes: seq<Url>
    var patchedNothing: seq<Url>
    var failed: seq<Failure>
    var created: seq<CreatedNode>
    var outcomes: seq<Outcome>

    constructor ()
      ensures State() == EMPTY_TALLY
    {
      appliedNodes, patchedNothing, failed, created, outcomes := [], [], [], [], [];
    }

    ghost function State(): Tally
      reads this
    {
      Tally(appliedNodes, patchedNothing, failed, created, outcomes)
    }

    method FindCreated(tempId: string) returns (uri: Url)
      ensures uri == CreatedUri(created, tempId)
    {
      for i := 0 to |created|
        invariant CreatedUri(created, tempId) == CreatedUri(created[i..], tempId)
      {
        if created[i].tempId == tempId {
          return Some(created[i].uri);
        }
      }
      return None;
    }

    method Fail(uri: Url, ref: string, msg: string)
      modifies this`failed, this`outcomes
      ensures State() == FailOp(uri, ref, msg, old(State()))
    {
      failed := failed + [Failure(uri, ref, msg)];
      outcomes := outcomes + [FailedOutcome(uri, ref, msg)];
    }
  }

  /** The calls after an op, given the calls before it. */
  function CallsAfter(caps: Capabilities, op: Op, created: seq<CreatedNode>, calls: seq<Call>): seq<Call> {
    match CallFor(caps, op, created)
    case None => calls
    case Some(call) => calls + [call]
  }

  method ApplyTempCreate(nm: Backend, op: Op, result: BulkResult)
    requires op.tempId != ""
    modifies nm, result
    ensures nm.calls == CallsAfter(nm.caps, op, old(result.created), old(nm.calls))
    ensures result.State() == OpApplied(nm.caps, op, old(result.State()), nm.replies(|old(nm.calls)|))
  {
    if !nm.caps.createsChildren {
      result.Fail(None, op.tempId, NO_CREATOR_REASON);
      return;
    }
    var container := op.container;
    if op.inRef != "" {
      container := result.FindCreated(op.inRef);
      if container.None? {
        result.Fail(None, op.tempId, DependentFailure(op.inRef));
        return;
      }
    }
    var reply := nm.Invoke(CreateChild(container, op.body, op.typ));
    if reply.err.Some? {
      result.Fail(None, op.tempId, reply.err.value);
    } else if reply.created.None? {
      result.Fail(None, op.tempId, NO_CREATED_REASON);
    } else {
      result.created := result.created + [CreatedNode(op.tempId, reply.created.value)];
      result.appliedNodes := result.appliedNodes + [reply.created];
      result.outcomes := result.outcomes + [Outcome(reply.created, op.tempId, Applied, None, None, "", "")];
    }
  }

  /** Runs the op's verb on `uri` (applyPatch and applyDelete included). */
  method Dispatch(nm: Backend, op: Op, uri: Url) returns (reply: Reply)
    requires op.tempId == ""
    modifies nm
    ensures forall created :: Target(op, created) == Some(uri) ==>
              nm.calls == CallsAfter(nm.caps, op, created, old(nm.calls))
    ensures reply == VerbReply(nm.caps, op, nm.replies(|old(nm.calls)|))
  {
    var raw := nm.replies(|nm.calls|);
    match op.kind
    case Create =>
      raw := nm.Invoke(CreateNode(uri, op.body, op.typ));
      reply := Reply(raw.err, None, None, "", false, None);
    case Put =>
      raw := nm.Invoke(PutNode(uri, op.body));
      reply := Reply(raw.err, None, None, "", false, None);
    case Patch =>
      if nm.caps.patchDetail {
        raw := nm.Invoke(PatchNodeDetail(uri, op.body));
        reply := raw.(name := "", notFound := false);
      } else {
        raw := nm.Invoke(PatchNode(uri, op.body));
        reply := Reply(raw.err, raw.applied, None, "", false, None);
      }
    case Delete =>
      if nm.caps.deleteDetail {
        raw := nm.Invoke(DeleteNodeDetail(uri, op.body));
        reply := raw.(applied := None, newUri := None);
      } else if |op.body| == 0 {
        raw := nm.Invoke(DeleteNode(uri));
        reply := Reply(raw.err, None, None, "", false, None);
      } else if !nm.caps.deleteWith {
        reply := Reply(Some(NO_BODY_REASON), None, None, "", false, None);
      } else {
        raw := nm.Invoke(DeleteNodeWith(uri, op.body));
        reply := Reply(raw.err, None, None, "", false, None);
      }
    case Unknown(name) =>
      reply := Reply(Some("bulk_mutate: unknown op kind " + name), None, None, "", false, None);
  }

  method ApplyBulkOp(nm: Backend, op: Op, result: BulkResult)
    modifies nm, result
    ensures nm.calls == CallsAfter(nm.caps, op, old(result.created), old(nm.calls))
    ensures result.State() == OpApplied(nm.caps, op, old(result.State()), nm.replies(|old(nm.calls)|))
  {
    if op.tempId != "" {
      ApplyTempCreate(nm, op, result);
      return;
    }
    var uri := op.uri;
    if op.ref != "" {
      uri := result.FindCreated(op.ref);
      if uri.None? {
        result.Fail(None, op.ref, DependentFailure(op.ref));
        return;
      }
    }
    var reply := Dispatch(nm, op, uri);
    var outcome := Outcome(uri, op.ref, Applied, reply.applied, None, reply.name, "");
    var nothing := op.kind.Patch? && reply.err.None? && reply.applied.Some? && |reply.applied.value| == 0;
    if op.kind.Patch? && reply.err.None? && !nothing && reply.newUri.Some? && reply.newUri != uri {
      outcome := outcome.(newUri := reply.newUri);
    }
    if reply.err.Some? {
      result.failed := result.failed + [Failure(uri, op.ref, reply.err.value)];
      outcome := outcome.(status := if reply.notFound then NotFound else Failed, err := reply.err.value);
    } else if nothing {
      result.patchedNothing := result.patchedNothing + [uri];
      outcome := outcome.(status := PatchedNothing);
    } else {
      result.appliedNodes := result.appliedNodes + [uri];
      if op.kind.Delete? {
        outcome := outcome.(status := Deleted);
      }
    }
    result.outcomes := result.outcomes + [outcome];
  }

  // ---- The best-effort loop ----

  class Observer {
    var log: seq<(nat, Outcome)>

    constructor ()
      ensures log == []
    {
      log := [];
    }

    method Observe(i: nat, outcome: Outcome)
      modifies this
      ensures log == old(log) + [(i, outcome)]
    {
      log := log + [(i, outcome)];
    }
  }

  /** The tally and the backend calls of a partly run batch. */
  datatype Run = Run(tally: Tally, calls: seq<Call>)

  /** What the backend and the context may do: any replies, any cancellation. */
  datatype World = World(caps: Capabilities, replies: nat -> Reply, cancelled: nat -> bool)

  function StepOp(w: World, op: Op, stopped: bool, r: Run): Run {
    if stopped then Run(FailOp(op.uri, RefOf(op), NOT_ATTEMPTED_REASON, r.tally), r.calls)
    else Run(OpApplied(w.caps, op, r.tally, w.replies(|r.calls|)), CallsAfter(w.caps, op, r.tally.created, r.calls))
  }

  /** The state before the n-th op. */
  function RunOps(w: World, ops: seq<Op>, n: nat): Run
    requires n <= |ops|
  {
    if n == 0 then Run(EMPTY_TALLY, [])
    else StepOp(w, ops[n - 1], w.cancelled(n - 1), RunOps(w, ops, n - 1))
  }

  method ApplyBulkOpInOrder(nm: Backend, op: Op, cancelled: bool, observer: Observer?, result: BulkResult,
                            ghost w: World)
    requires w.caps == nm.caps && w.replies == nm.replies
    modifies nm, result, observer
    ensures Run(result.State(), nm.calls) == StepOp(w, op, cancelled, Run(old(result.State()), old(nm.calls)))
    ensures |result.outcomes| == |old(result.outcomes)| + 1
            && result.outcomes[..|old(result.outcomes)|] == old(result.outcomes)
    ensures observer != null ==>
              observer.log == old(observer.log) + [(|old(result.outcomes)|, result.outcomes[|old(result.outcomes)|])]
  {
    var before := |result.outcomes|;
    if cancelled {
      result.Fail(op.uri, RefOf(op), NOT_ATTEMPTED_REASON);
    } else {
      ApplyBulkOp(nm, op, result);
    }
    StepAddsOne(w, op, cancelled, Run(old(result.State()), old(nm.calls)));
    if observer == null {
      return;
    }
    for i := before to |result.outcomes|
      modifies observer
      invariant observer.log == old(observer.log) + Numbered(result.outcomes, before, i)
    {
      observer.Observe(i, result.outcomes[i]);
    }
  }

  ghost function Numbered(outcomes: seq<Outcome>, from: nat, to: nat): seq<(nat, Outcome)>
    requires from <= to <= |outcomes|
  {
    seq(to - from, k requires 0 <= k < to - from => (from + k, outcomes[from + k]))
  }

  method BulkBestEffortOps(nm: Backend, ops: seq<Op>, cancelled: nat -> bool, observer: Observer?)
    returns (result: BulkResult)
    requires nm.calls == [] && (observer != null ==> observer.log == [])
    modifies nm, observer
    ensures fresh(result)
    ensures Run(result.State(), nm.calls) == RunOps(World(nm.caps, nm.replies, cancelled), ops, |ops|)
    ensures Conserved(ops, result.State())
    ensures observer != null ==> observer.log == Numbered(result.outcomes, 0, |result.outcomes|)
  {
    ghost var w := World(nm.caps, nm.replies, cancelled);
    result := new BulkResult();
    for i := 0 to |ops|
      invariant fresh(result)
      invariant Run(result.State(), nm.calls) == RunOps(w, ops, i)
      invariant observer != null ==> observer.log == Numbered(result.outcomes, 0, |result.outcomes|)
    {
      ghost var before := result.outcomes;
      ApplyBulkOpInOrder(nm, ops[i], cancelled(i), observer, result, w);
      NumberedAppend(before, result.outcomes);
    }
    BulkConservation(w, ops);
  }

  lemma NumberedAppend(before: seq<Outcome>, after: seq<Outcome>)
    requires |after| == |before| + 1 && after[..|before|] == before
    ensures Numbered(after, 0, |after|) == Numbered(before, 0, |before|) + [(|before|, after[|before|])]
  {
  }

  /** ListEnriched's answer; a match is its node's URI. */
  datatype Enriched = EnrichError | Declined | Matches(uris: seq<Url>)

  datatype SweepError = ListingFailed | SweepDeclined

  function SweepOps(template: Op, uris: seq<Url>): seq<Op> {
    seq(|uris|, i requires 0 <= i < |uris| => template.(uri := uris[i]))
  }

  method BulkBestEffortSweep(nm: Backend, listing: Enriched, template: Op, cancelled: nat -> bool, observer: Observer?)
    returns (error: Option<SweepError>, result: BulkResult)
    requires nm.calls == [] && (observer != null ==> observer.log == [])
    modifies nm, observer
    ensures error.Some? <==> !listing.Matches?
    ensures error.Some? ==> nm.calls == [] && result.State() == EMPTY_TALLY
    ensures error.None? ==>
              Run(result.State(), nm.calls)
              == RunOps(World(nm.caps, nm.replies, cancelled), SweepOps(template, listing.uris), |listing.uris|)
    ensures error.None? ==> Conserved(SweepOps(template, listing.uris), result.State())
    ensures observer != null ==> observer.log == Numbered(result.outcomes, 0, |result.outcomes|)
  {
    result := new BulkResult();
    if listing.EnrichError? {
      return Some(ListingFailed), result;
    }
    if listing.Declined? {
      return Some(SweepDeclined), result;
    }
    ghost var w := World(nm.caps, nm.replies, cancelled);
    ghost var ops := SweepOps(template, listing.uris);
    for i := 0 to |listing.uris|
      invariant fresh(result)
      invariant Run(result.State(), nm.calls) == RunOps(w, ops, i)
      invariant observer != null ==> observer.log == Numbered(result.outcomes, 0, |result.outcomes|)
    {
      ghost var before := result.outcomes;
      var op := template.(uri := listing.uris[i]);
      assert op == ops[i];
      ApplyBulkOpInOrder(nm, op, cancelled(i), observer, result, w);
      NumberedAppend(before, result.outcomes);
    }
    BulkConservation(w, ops);
    return None, result;
  }

  // ---- Conservation ----

  function AppliedOf(outcomes: seq<Outcome>): seq<Url> {
    if outcomes == [] then []
    else
      var o := outcomes[|outcomes| - 1];
      AppliedOf(outcomes[..|outcomes| - 1]) + (if o.status.Applied? || o.status.Deleted? then [o.uri] else [])
  }

  function NothingOf(outcomes: seq<Outcome>): seq<Url> {
    if outcomes == [] then []
    else
      var o := outcomes[|outcomes| - 1];
      NothingOf(outcomes[..|outcomes| - 1]) + (if o.status.PatchedNothing? then [o.uri] else [])
  }

  function FailedOf(outcomes: seq<Outcome>): seq<Failure> {
    if outcomes == [] then []
    else
      var o := outcomes[|outcomes| - 1];
      FailedOf(outcomes[..|outcomes| - 1])
          + (if o.status.Failed? || o.status.NotFound? then [Failure(o.uri, o.ref, o.err)] else [])
  }

  /** The temp-id creates that applied, paired with the URI their outcome names. */
  function CreatedOf(ops: seq<Op>, outcomes: seq<Outcome>): seq<CreatedNode>
    requires |ops| == |outcomes|
  {
    if ops == [] then []
    else
      var n := |ops| - 1;
      CreatedOf(ops[..n], outcomes[..n])
      + (if ops[n].tempId != "" && outcomes[n].status.Applied? && outcomes[n].uri.Some?
         then [CreatedNode(ops[n].tempId, outcomes[n].uri.value)] else [])
  }

  /** An op's entry in the log: its own temp id, and its own URI when it named one. */
  predicate Describes(op: Op, o: Outcome) {
    && o.ref == RefOf(op)
    && (op.tempId == "" && op.ref == "" ==> o.uri == op.uri)
    && (op.tempId != "" && o.status.Applied? ==> o.uri.Some?)
  }

  ghost predicate Conserved(ops: seq<Op>, t: Tally) {
    && |t.outcomes| == |ops|
    && t.appliedNodes == AppliedOf(t.outcomes)
    && t.patchedNothing == NothingOf(t.outcomes)
    && t.failed == FailedOf(t.outcomes)
    && t.created == CreatedOf(ops, t.outcomes)
    && forall i :: 0 <= i < |ops| ==> Describes(ops[i], t.outcomes[i])
  }

  /** `t` with outcome `o` of `op` recorded. */
  function Extend(t: Tally, op: Op, o: Outcome): Tally {
    Tally(
      t.appliedNodes + (if o.status.Applied? || o.status.Deleted? then [o.uri] else []),
      t.patchedNothing + (if o.status.PatchedNothing? then [o.uri] else []),
      t.failed + (if o.status.Failed? || o.status.NotFound? then [Failure(o.uri, o.ref, o.err)] else []),
      t.created
      + (if op.tempId != "" && o.status.Applied? && o.uri.Some? then [CreatedNode(op.tempId, o.uri.value)] else []),
      t.outcomes + [o])
  }

  /** One op of a run: `o` is the outcome it appends and `call` the backend call it makes. */
  ghost predicate Linked(w: World, op: Op, stopped: bool, before: Run, o: Outcome, call: Option<Call>, after: Run) {
    && after == Run(Extend(before.tally, op, o), before.calls + OptSeq(call))
    && call == (if stopped then None else CallFor(w.caps, op, before.tally.created))
    && Describes(op, o)
    && (stopped ==> o == FailedOutcome(op.uri, RefOf(op), NOT_ATTEMPTED_REASON))
    && (!stopped && Target(op, before.tally.created).None? ==> o.status.Failed?)
    && (op.tempId != "" && o.status.Applied? ==> call.Some? && o.uri == w.replies(|before.calls|).created)
  }

  lemma StepLinked(w: World, op: Op, stopped: bool, r: Run) returns (o: Outcome)
    ensures var call := if stopped then None else CallFor(w.caps, op, r.tally.created);
            Linked(w, op, stopped, r, o, call, StepOp(w, op, stopped, r))
  {
    if stopped {
      o := FailedOutcome(op.uri, RefOf(op), NOT_ATTEMPTED_REASON);
    } else if op.tempId != "" {
      o := TempLinked(w, op, r);
    } else {
      o := VerbLinked(w, op, r);
    }
  }

  lemma StepAddsOne(w: World, op: Op, stopped: bool, r: Run)
    ensures var before, after := r.tally.outcomes, StepOp(w, op, stopped, r).tally.outcomes;
            |after| == |before| + 1 && after[..|before|] == before
  {
    var o := StepLinked(w, op, stopped, r);
  }

  lemma TempLinked(w: World, op: Op, r: Run) returns (o: Outcome)
    requires op.tempId != ""
    ensures Linked(w, op, false, r, o, CallFor(w.caps, op, r.tally.created), StepOp(w, op, false, r))
  {
    var outcomes := TempCreated(w.caps, op, r.tally, w.replies(|r.calls|)).outcomes;
    o := outcomes[|outcomes| - 1];
  }

  lemma VerbLinked(w: World, op: Op, r: Run) returns (o: Outcome)
    requires op.tempId == ""
    ensures Linked(w, op, false, r, o, CallFor(w.caps, op, r.tally.created), StepOp(w, op, false, r))
  {
    var outcomes := OpApplied(w.caps, op, r.tally, w.replies(|r.calls|)).outcomes;
    o := outcomes[|outcomes| - 1];
  }

  /** A run step by step: the states before and after every op, and the outcomes and
      calls between them. */
  datatype Trace = Trace(runs: seq<Run>, outcomes: seq<Outcome>, calls: seq<Option<Call>>)

  ghost predicate IsTrace(w: World, ops: seq<Op>, t: Trace) {
    && |t.runs| == |ops| + 1 && |t.outcomes| == |t.calls| == |ops|
    && t.runs[0] == Run(EMPTY_TALLY, [])
    && forall i :: 0 <= i < |ops| ==>
         Linked(w, ops[i], w.cancelled(i), t.runs[i], t.outcomes[i], t.calls[i], t.runs[i + 1])
  }

  /** The engine's run of any request, state by state, is a trace. */
  lemma {:induction false} TraceOf(w: World, ops: seq<Op>, n: nat) returns (t: Trace)
    requires n <= |ops|
    ensures IsTrace(w, ops[..n], t) && forall i :: 0 <= i <= n ==> t.runs[i] == RunOps(w, ops, i)
    decreases n
  {
    if n == 0 {
      t := Trace([Run(EMPTY_TALLY, [])], [], []);
    } else {
      var p := TraceOf(w, ops, n - 1);
      var r, op, stopped := p.runs[n - 1], ops[n - 1], w.cancelled(n - 1);
      var o := StepLinked(w, op, stopped, r);
      var call := if stopped then None else CallFor(w.caps, op, r.tally.created);
      t := ExtendTrace(w, ops[..n - 1], p, op, o, call, StepOp(w, op, stopped, r));
      assert ops[..n - 1] + [op] == ops[..n];
    }
  }

  lemma ExtendTrace(w: World, ops: seq<Op>, p: Trace, op: Op, o: Outcome, call: Option<Call>, after: Run)
    returns (t: Trace)
    requires IsTrace(w, ops, p) && Linked(w, op, w.cancelled(|ops|), p.runs[|ops|], o, call, after)
    ensures t == Trace(p.runs + [after], p.outcomes + [o], p.calls + [call])
    ensures IsTrace(w, ops + [op], t)
  {
    t := Trace(p.runs + [after], p.outcomes + [o], p.calls + [call]);
  }

  lemma ExtendConserves(ops: seq<Op>, op: Op, t: Tally, o: Outcome)
    requires Conserved(ops, t) && Describes(op, o)
    ensures Conserved(ops + [op], Extend(t, op, o))
  {
  }

  lemma ConservedNext(ops: seq<Op>, n: nat, t: Tally, o: Outcome)
    requires n < |ops| && Conserved(ops[..n], t) && Describes(ops[n], o)
    ensures Conserved(ops[..n + 1], Extend(t, ops[n], o))
  {
    ExtendConserves(ops[..n], ops[n], t, o);
    assert ops[..n] + [ops[n]] == ops[..n + 1];
  }

  lemma {:induction false} TraceConserves(w: World, ops: seq<Op>, t: Trace, n: nat)
    requires IsTrace(w, ops, t) && n <= |ops|
    ensures Conserved(ops[..n], t.runs[n].tally)
    ensures t.runs[n].tally.outcomes == t.outcomes[..n]
    decreases n
  {
    if n > 0 {
      TraceConserves(w, ops, t, n - 1);
      TraceStep(w, ops, t, n - 1);
      ConservedNext(ops, n - 1, t.runs[n - 1].tally, t.outcomes[n - 1]);
    }
  }

  lemma TraceStep(w: World, ops: seq<Op>, t: Trace, n: nat)
    requires IsTrace(w, ops, t) && n < |ops|
    ensures Describes(ops[n], t.outcomes[n])
    ensures t.runs[n + 1].tally == Extend(t.runs[n].tally, ops[n], t.outcomes[n])
  {
    assert Linked(w, ops[n], w.cancelled(n), t.runs[n], t.outcomes[n], t.calls[n], t.runs[n + 1]);
  }

  ghost predicate Monotone(cancelled: nat -> bool) {
    forall i: nat, j: nat :: i <= j && cancelled(i) ==> cancelled(j)
  }

  lemma {:induction false} TraceQuiet(w: World, ops: seq<Op>, t: Trace, i: nat, n: nat)
    requires IsTrace(w, ops, t) && Monotone(w.cancelled) && i <= n <= |ops| && w.cancelled(i)
    ensures t.runs[n].calls == t.runs[i].calls
    ensures forall k :: i <= k < n ==> t.outcomes[k] == FailedOutcome(ops[k].uri, RefOf(ops[k]), NOT_ATTEMPTED_REASON)
    decreases n
  {
    if i < n {
      TraceQuiet(w, ops, t, i, n - 1);
      assert Linked(w, ops[n - 1], w.cancelled(n - 1), t.runs[n - 1], t.outcomes[n - 1], t.calls[n - 1], t.runs[n]);
    }
  }

  // ---- Temp ids ----

  lemma {:induction false} CreatedUriAppend(created: seq<CreatedNode>, c: CreatedNode, id: string)
    ensures CreatedUri(created + [c], id) ==
            if CreatedUri(created, id).Some? then CreatedUri(created, id)
            else if c.tempId == id then Some(c.uri) else None
    decreases |created|
  {
    if created == [] {
      assert [] + [c] == [c];
    } else {
      assert (created + [c])[1..] == created[1..] + [c];
      CreatedUriAppend(created[1..], c, id);
    }
  }

  /** The last op's contribution to a lookup. */
  lemma LookupLast(ops: seq<Op>, outcomes: seq<Outcome>, id: string)
    requires |ops| == |outcomes| && ops != []
    ensures var n := |ops| - 1;
            var before := CreatedUri(CreatedOf(ops[..n], outcomes[..n]), id);
            CreatedUri(CreatedOf(ops, outcomes), id) ==
              if before.Some? then before
              else if ops[n].tempId != "" && ops[n].tempId == id && outcomes[n].status.Applied?
              then outcomes[n].uri else None
  {
    var n := |ops| - 1;
    var prefix := CreatedOf(ops[..n], outcomes[..n]);
    if ops[n].tempId != "" && outcomes[n].status.Applied? && outcomes[n].uri.Some? {
      CreatedUriAppend(prefix, CreatedNode(ops[n].tempId, outcomes[n].uri.value), id);
    } else {
      assert prefix + [] == prefix;
    }
  }

  lemma {:induction false} LookupAbsent(ops: seq<Op>, outcomes: seq<Outcome>, id: string)
    requires |ops| == |outcomes| && forall i :: 0 <= i < |ops| ==> !Defines(ops[i], id)
    ensures CreatedUri(CreatedOf(ops, outcomes), id) == None
    decreases |ops|
  {
    if ops != [] {
      LookupAbsent(ops[..|ops| - 1], outcomes[..|ops| - 1], id);
      LookupLast(ops, outcomes, id);
      assert !Defines(ops[|ops| - 1], id);
    }
  }

  /** Lookup of an id one op defines, read off that op's outcome. */
  lemma {:induction false} CreatedLookup(ops: seq<Op>, outcomes: seq<Outcome>, id: string, j: nat)
    requires |ops| == |outcomes| && j < |ops| && Defines(ops[j], id)
    requires forall i :: 0 <= i < |ops| && i != j ==> !Defines(ops[i], id)
    ensures CreatedUri(CreatedOf(ops, outcomes), id) == if outcomes[j].status.Applied? then outcomes[j].uri else None
    decreases |ops|
  {
    var n := |ops| - 1;
    LookupLast(ops, outcomes, id);
    if j == n {
      LookupAbsent(ops[..n], outcomes[..n], id);
    } else {
      CreatedLookup(ops[..n], outcomes[..n], id, j);
      assert !Defines(ops[n], id);
    }
  }

  lemma TempIdsDistinct(ops: seq<Op>, atomicity: Atomicity, n: nat)
    requires ValidOps(ops, atomicity) && n <= |ops|
    ensures forall i, j :: 0 <= i < j < n && ops[..n][j].tempId != "" ==> ops[..n][i].tempId != ops[..n][j].tempId
  {
    forall i, j | 0 <= i < j < n && ops[j].tempId != "" ensures ops[i].tempId != ops[j].tempId {
      assert ValidOp(ops, j, atomicity);
      assert !Defines(ops[i], ops[j].tempId);
    }
  }

  /** In a validated run, before op `i`, an earlier temp id resolves exactly when
      its create applied, and then to the URI in that create's outcome. */
  lemma Resolution(w: World, ops: seq<Op>, atomicity: Atomicity, t: Trace, i: nat, j: nat, id: string)
    requires ValidOps(ops, atomicity) && IsTrace(w, ops, t) && j < i <= |ops| && Defines(ops[j], id)
    ensures var o := t.outcomes[j];
            CreatedUri(t.runs[i].tally.created, id) == (if o.status.Applied? then o.uri else None)
            && (o.status.Applied? ==> o.uri.Some?)
  {
    TraceConserves(w, ops, t, i);
    TempIdsDistinct(ops, atomicity, i);
    assert Defines(ops[..i][j], id);
    CreatedLookup(ops[..i], t.outcomes[..i], id, j);
    assert Describes(ops[..i][j], t.outcomes[..i][j]);
  }

  /** A validated dependency names one create, and it comes earlier. */
  lemma UniqueCreate(ops: seq<Op>, atomicity: Atomicity, i: nat) returns (j: nat)
    requires ValidOps(ops, atomicity) && i < |ops| && DepId(ops[i]) != ""
    ensures j < i && Defines(ops[j], DepId(ops[i]))
    ensures forall k :: 0 <= k < |ops| && Defines(ops[k], DepId(ops[i])) ==> k == j
  {
    assert ValidOp(ops, i, atomicity);
    j :| 0 <= j < i && Defines(ops[j], DepId(ops[i]));
    TempIdsDistinct(ops, atomicity, |ops|);
    assert ops[..|ops|] == ops;
  }

  lemma TraceTempId(w: World, ops: seq<Op>, atomicity: Atomicity, t: Trace, i: nat) returns (j: nat)
    requires ValidOps(ops, atomicity) && IsTrace(w, ops, t)
    requires i < |ops| && !w.cancelled(i) && DepId(ops[i]) != ""
    ensures j < i && Defines(ops[j], DepId(ops[i]))
    ensures forall k :: 0 <= k < |ops| && Defines(ops[k], DepId(ops[i])) ==> k == j
    ensures t.calls[i].Some? <==> t.outcomes[j].status.Applied? && !BodyRefused(w.caps, ops[i])
    ensures t.calls[i].Some? ==>
              && t.calls[j].Some? && t.calls[i].value.target.Some?
              && t.calls[i].value.target == w.replies(|t.runs[j].calls|).created
    ensures !t.outcomes[j].status.Applied? ==> t.outcomes[i].status.Failed?
  {
    j := UniqueCreate(ops, atomicity, i);
    assert ops[i].tempId == "" ==> !ops[i].kind.Unknown? by { assert ValidOp(ops, i, atomicity); }
    Resolution(w, ops, atomicity, t, i, j, DepId(ops[i]));
    if t.outcomes[j].status.Applied? { CreateCalled(w, ops, t, j); }
    assert Linked(w, ops[i], w.cancelled(i), t.runs[i], t.outcomes[i], t.calls[i], t.runs[i + 1]);
  }

  /** A temp-id create that applied was called, on a source that creates children,
      and its outcome holds the URI the call returned. */
  lemma CreateCalled(w: World, ops: seq<Op>, t: Trace, j: nat)
    requires IsTrace(w, ops, t) && j < |ops| && ops[j].tempId != "" && t.outcomes[j].status.Applied?
    ensures t.calls[j].Some? && w.caps.createsChildren
    ensures t.outcomes[j].uri == w.replies(|t.runs[j].calls|).created
  {
    assert Linked(w, ops[j], w.cancelled(j), t.runs[j], t.outcomes[j], t.calls[j], t.runs[j + 1]);
  }

  /** Every create the op depends on, directly or not, applied. */
  ghost predicate ChainApplied(ops: seq<Op>, outcomes: seq<Outcome>, i: nat)
    requires |ops| == |outcomes| && i < |ops|
    decreases i
  {
    DepId(ops[i]) == "" ||
    exists j: nat :: j < i && Defines(ops[j], DepId(ops[i])) && outcomes[j].status.Applied?
        && ChainApplied(ops, outcomes, j)
  }

  lemma {:induction false} TraceChain(w: World, ops: seq<Op>, atomicity: Atomicity, t: Trace, i: nat)
    requires ValidOps(ops, atomicity) && IsTrace(w, ops, t)
    requires i < |ops| && !w.cancelled(i) && DepId(ops[i]) != ""
    ensures t.calls[i].Some? <==> ChainApplied(ops, t.outcomes, i) && !BodyRefused(w.caps, ops[i])
    decreases i
  {
    var j := TraceTempId(w, ops, atomicity, t, i);
    if t.outcomes[j].status.Applied? {
      assert Linked(w, ops[j], w.cancelled(j), t.runs[j], t.outcomes[j], t.calls[j], t.runs[j + 1]);
      if DepId(ops[j]) != "" {
        TraceChain(w, ops, atomicity, t, j);
      }
      assert ChainApplied(ops, t.outcomes, j);
    }
  }

  lemma {:induction false} TraceTargets(w: World, ops: seq<Op>, atomicity: Atomicity, t: Trace, n: nat)
    requires ValidOps(ops, atomicity) && IsTrace(w, ops, t) && n <= |ops|
    ensures forall call :: call in t.runs[n].calls ==> call.target.Some?
    decreases n
  {
    if n > 0 {
      TraceTargets(w, ops, atomicity, t, n - 1);
      assert Linked(w, ops[n - 1], w.cancelled(n - 1), t.runs[n - 1], t.outcomes[n - 1], t.calls[n - 1], t.runs[n]);
      TargetNotNil(ops, atomicity, n - 1, t.runs[n - 1].tally.created);
      if t.calls[n - 1].Some? {
        CallTarget(w.caps, ops[n - 1], t.runs[n - 1].tally.created);
      }
    }
  }

  // ---- The theorems, of the engine's run ----

  /** The backend call op `i` makes in the run, if any. */
  function CallOf(w: World, ops: seq<Op>, i: nat): Option<Call>
    requires i < |ops|
  {
    if w.cancelled(i) then None else CallFor(w.caps, ops[i], RunOps(w, ops, i).tally.created)
  }

  /** The log of the finished run. */
  function OutcomesOf(w: World, ops: seq<Op>): (outcomes: seq<Outcome>)
    ensures |outcomes| == |ops|
  {
    BulkConservation(w, ops);
    RunOps(w, ops, |ops|).tally.outcomes
  }

  lemma EngineTrace(w: World, ops: seq<Op>) returns (t: Trace)
    ensures IsTrace(w, ops, t) && t.outcomes == RunOps(w, ops, |ops|).tally.outcomes
    ensures forall i :: 0 <= i <= |ops| ==> t.runs[i] == RunOps(w, ops, i)
    ensures forall i :: 0 <= i < |ops| ==> t.calls[i] == CallOf(w, ops, i)
  {
    t := TraceOf(w, ops, |ops|);
    assert ops[..|ops|] == ops && t.outcomes[..|ops|] == t.outcomes;
    TraceConserves(w, ops, t, |ops|);
    forall i | 0 <= i < |ops| ensures t.calls[i] == CallOf(w, ops, i) {
      assert Linked(w, ops[i], w.cancelled(i), t.runs[i], t.outcomes[i], t.calls[i], t.runs[i + 1]);
    }
  }

  /** Whatever the backend answers and whenever the call is cancelled, the log has
      one entry per op in request order and the lists are its projections. */
  lemma BulkConservation(w: World, ops: seq<Op>)
    ensures Conserved(ops, RunOps(w, ops, |ops|).tally)
  {
    var t := TraceOf(w, ops, |ops|);
    assert ops[..|ops|] == ops;
    TraceConserves(w, ops, t, |ops|);
  }

  /** Every op is reported in exactly one of the lists. */
  lemma ListsPartition(w: World, ops: seq<Op>)
    ensures var t := RunOps(w, ops, |ops|).tally;
            |t.appliedNodes| + |t.patchedNothing| + |t.failed| == |ops|
  {
    BulkConservation(w, ops);
    OutcomesPartition(RunOps(w, ops, |ops|).tally.outcomes);
  }

  lemma {:induction false} OutcomesPartition(outcomes: seq<Outcome>)
    ensures |AppliedOf(outcomes)| + |NothingOf(outcomes)| + |FailedOf(outcomes)| == |outcomes|
    decreases |outcomes|
  {
    if outcomes != [] {
      OutcomesPartition(outcomes[..|outcomes| - 1]);
    }
  }

  /** The backend's log is the ops' calls in order. */
  lemma CallsInOrder(w: World, ops: seq<Op>, i: nat)
    requires i < |ops|
    ensures RunOps(w, ops, i + 1).calls == RunOps(w, ops, i).calls + OptSeq(CallOf(w, ops, i))
  {
    var t := EngineTrace(w, ops);
    assert Linked(w, ops[i], w.cancelled(i), t.runs[i], t.outcomes[i], t.calls[i], t.runs[i + 1]);
  }

  /** Once cancelled, no later op touches the backend, and each is reported as not attempted. */
  lemma CancelledIsQuiet(w: World, ops: seq<Op>, i: nat)
    requires Monotone(w.cancelled) && i < |ops| && w.cancelled(i)
    ensures RunOps(w, ops, |ops|).calls == RunOps(w, ops, i).calls
    ensures forall k :: i <= k < |ops| ==>
              OutcomesOf(w, ops)[k] == FailedOutcome(ops[k].uri, RefOf(ops[k]), NOT_ATTEMPTED_REASON)
  {
    var t := EngineTrace(w, ops);
    TraceQuiet(w, ops, t, i, |ops|);
  }

  /** Temp-id soundness. An uncancelled op that names a temp id reaches the
      backend exactly when the one create of that id applied and the source
      takes the op's body; it then carries the URI that create's call returned. */
  lemma TempIdSound(w: World, ops: seq<Op>, atomicity: Atomicity, i: nat) returns (j: nat)
    requires ValidOps(ops, atomicity) && i < |ops| && !w.cancelled(i) && DepId(ops[i]) != ""
    ensures j < i && Defines(ops[j], DepId(ops[i]))
    ensures forall k :: 0 <= k < |ops| && Defines(ops[k], DepId(ops[i])) ==> k == j
    ensures CallOf(w, ops, i).Some? <==> OutcomesOf(w, ops)[j].status.Applied? && !BodyRefused(w.caps, ops[i])
    ensures CallOf(w, ops, i).Some? ==>
              && CallOf(w, ops, j).Some? && CallOf(w, ops, i).value.target.Some?
              && CallOf(w, ops, i).value.target == w.replies(|RunOps(w, ops, j).calls|).created
    ensures !OutcomesOf(w, ops)[j].status.Applied? ==> OutcomesOf(w, ops)[i].status.Failed?
  {
    var t := EngineTrace(w, ops);
    j := TraceTempId(w, ops, atomicity, t, i);
  }

  /** The dependency condition reaches along the whole chain of creates. */
  lemma ChainSound(w: World, ops: seq<Op>, atomicity: Atomicity, i: nat)
    requires ValidOps(ops, atomicity) && i < |ops| && !w.cancelled(i) && DepId(ops[i]) != ""
    ensures CallOf(w, ops, i).Some? <==> ChainApplied(ops, OutcomesOf(w, ops), i) && !BodyRefused(w.caps, ops[i])
  {
    var t := EngineTrace(w, ops);
    TraceChain(w, ops, atomicity, t, i);
  }

  // ---- What an op's outcome says about its call ----

  /** The op's outcome and the state it was run in. */
  lemma OutcomeAt(w: World, ops: seq<Op>, i: nat)
    requires i < |ops|
    ensures var after := StepOp(w, ops[i], w.cancelled(i), RunOps(w, ops, i)).tally.outcomes;
            after != [] && OutcomesOf(w, ops)[i] == after[|after| - 1]
  {
    var t := EngineTrace(w, ops);
    assert Linked(w, ops[i], w.cancelled(i), t.runs[i], t.outcomes[i], t.calls[i], t.runs[i + 1]);
    assert t.runs[i + 1] == RunOps(w, ops, i + 1);
  }

  predicate IsPatch(call: Call) {
    call.PatchNode? || call.PatchNodeDetail?
  }

  predicate IsDelete(call: Call) {
    call.DeleteNode? || call.DeleteNodeWith? || call.DeleteNodeDetail?
  }

  /** The call is the op's verb with the op's body and type, on the richest interface the source has. */
  predicate CallFits(caps: Capabilities, op: Op, call: Call) {
    && (DepId(op) == "" ==> call.target == if op.tempId != "" then op.container else op.uri)
    && (call.CreateChild? <==> op.tempId != "")
    && (call.CreateNode? <==> op.tempId == "" && op.kind.Create?)
    && (call.PutNode? <==> op.tempId == "" && op.kind.Put?)
    && (IsPatch(call) <==> op.tempId == "" && op.kind.Patch?)
    && (IsDelete(call) <==> op.tempId == "" && op.kind.Delete?)
    && (IsPatch(call) ==> (call.PatchNodeDetail? <==> caps.patchDetail))
    && (IsDelete(call) ==> (call.DeleteNodeDetail? <==> caps.deleteDetail))
    && (call.DeleteNodeWith? ==> caps.deleteWith)
    && (if call.DeleteNode? then op.body == "" else call.body == op.body)
    && (call.CreateChild? || call.CreateNode? ==> call.typ == op.typ)
  }

  /** The backend is asked for what the op asks. */
  lemma CallIsTheOps(w: World, ops: seq<Op>, i: nat)
    requires i < |ops| && CallOf(w, ops, i).Some?
    ensures CallFits(w.caps, ops[i], CallOf(w, ops, i).value)
  {
  }

  /** What a verb's outcome reports of the backend's reply. */
  predicate Reports(call: Call, r: Reply, o: Outcome) {
    && o.uri == call.target
    && (o.status.Failed? || o.status.NotFound? <==> r.err.Some?)
    && o.err == (if r.err.Some? then r.err.value else "")
    && (o.status.NotFound? <==> call.DeleteNodeDetail? && r.err.Some? && r.notFound)
    && (o.status.PatchedNothing? <==> IsPatch(call) && r.err.None? && r.applied == Some([]))
    && (o.status.Deleted? <==> IsDelete(call) && r.err.None?)
    && o.fields == (if IsPatch(call) then r.applied else None)
    && o.name == (if call.DeleteNodeDetail? then r.name else "")
    && (o.newUri.Some? <==>
          call.PatchNodeDetail? && o.status.Applied? && r.newUri.Some? && r.newUri != call.target)
    && (o.newUri.Some? ==> o.newUri == r.newUri)
  }

  lemma VerbReports(w: World, op: Op, r: Run)
    requires op.tempId == "" && CallFor(w.caps, op, r.tally.created).Some?
    ensures var after := StepOp(w, op, false, r).tally.outcomes;
            && after != [] && after[|after| - 1].ref == op.ref
            && Reports(CallFor(w.caps, op, r.tally.created).value, w.replies(|r.calls|), after[|after| - 1])
  {
  }

  /** An op that reached the backend reports the backend's own answer: it failed exactly
      when the call did, with that error; a patch that applied no field, a removed node and
      one that was not there are told apart exactly when the reply tells them apart. */
  lemma OutcomeOfCall(w: World, ops: seq<Op>, i: nat)
    requires i < |ops| && CallOf(w, ops, i).Some? && ops[i].tempId == ""
    ensures Reports(CallOf(w, ops, i).value, w.replies(|RunOps(w, ops, i).calls|), OutcomesOf(w, ops)[i])
    ensures OutcomesOf(w, ops)[i].ref == ops[i].ref
  {
    OutcomeAt(w, ops, i);
    VerbReports(w, ops[i], RunOps(w, ops, i));
  }

  /** What a temp-id create's outcome reports of the backend's reply. */
  predicate CreateReports(op: Op, r: Reply, o: Outcome) {
    && (o.status.Applied? <==> r.err.None? && r.created.Some?)
    && (o.status.Failed? <==> r.err.Some? || r.created.None?)
    && o.uri == (if r.err.None? then r.created else None) && o.ref == op.tempId
    && o.err == (if r.err.Some? then r.err.value else if r.created.None? then NO_CREATED_REASON else "")
  }

  lemma TempReports(w: World, op: Op, r: Run)
    requires op.tempId != "" && CallFor(w.caps, op, r.tally.created).Some?
    ensures var after := StepOp(w, op, false, r).tally.outcomes;
            after != [] && CreateReports(op, w.replies(|r.calls|), after[|after| - 1])
  {
  }

  /** A temp-id create that reached the backend applied exactly when the call gave its URI. */
  lemma OutcomeOfCreate(w: World, ops: seq<Op>, i: nat)
    requires i < |ops| && CallOf(w, ops, i).Some? && ops[i].tempId != ""
    ensures CreateReports(ops[i], w.replies(|RunOps(w, ops, i).calls|), OutcomesOf(w, ops)[i])
  {
    OutcomeAt(w, ops, i);
    TempReports(w, ops[i], RunOps(w, ops, i));
  }

  /** Why an op that is neither cancelled nor of an unknown kind makes no call. */
  function Refusal(caps: Capabilities, op: Op, resolved: bool): string {
    if op.tempId != "" && !caps.createsChildren then NO_CREATOR_REASON
    else if !resolved then DependentFailure(DepId(op))
    else NO_BODY_REASON
  }

  lemma StepRefuses(w: World, op: Op, r: Run)
    requires CallFor(w.caps, op, r.tally.created).None? && (op.tempId == "" ==> !op.kind.Unknown?)
    ensures var after := StepOp(w, op, false, r).tally.outcomes;
            && after != [] && after[|after| - 1].status.Failed?
            && after[|after| - 1].ref == (if op.tempId != "" then op.tempId else op.ref)
            && after[|after| - 1].err == Refusal(w.caps, op, Target(op, r.tally.created).Some?)
  {
  }

  /** An uncancelled op of a validated request that makes no call has failed, and says why:
      the create it depends on did not apply, or the source does not do what it asks. */
  lemma NoCallFails(w: World, ops: seq<Op>, atomicity: Atomicity, i: nat) returns (j: nat)
    requires ValidOps(ops, atomicity) && i < |ops| && !w.cancelled(i) && CallOf(w, ops, i).None?
    ensures DepId(ops[i]) != "" ==> j < i && Defines(ops[j], DepId(ops[i]))
    ensures OutcomesOf(w, ops)[i].status.Failed?
    ensures OutcomesOf(w, ops)[i].ref == if ops[i].tempId != "" then ops[i].tempId else ops[i].ref
    ensures OutcomesOf(w, ops)[i].err
            == Refusal(w.caps, ops[i], DepId(ops[i]) == "" || OutcomesOf(w, ops)[j].status.Applied?)
  {
    assert ValidOp(ops, i, atomicity);
    OutcomeAt(w, ops, i);
    StepRefuses(w, ops[i], RunOps(w, ops, i));
    if DepId(ops[i]) != "" {
      j := UniqueCreate(ops, atomicity, i);
      var t := EngineTrace(w, ops);
      Resolution(w, ops, atomicity, t, i, j, DepId(ops[i]));
    } else {
      j := 0;
    }
  }

  /** No backend call of a validated request gets a nil target or container. */
  lemma NoNilTarget(w: World, ops: seq<Op>, atomicity: Atomicity)
    requires ValidOps(ops, atomicity)
    ensures forall call :: call in RunOps(w, ops, |ops|).calls ==> call.target.Some?
  {
    var t := EngineTrace(w, ops);
    TraceTargets(w, ops, atomicity, t, |ops|);
  }

  /** A sweep sends each uncancelled match to the backend as it was listed, so no
      call gets a nil target exactly when no such match is nil. */
  lemma {:induction false} SweepTargets(w: World, s: Sweep, uris: seq<Url>, n: nat)
    requires ValidSweep(s) && n <= |uris|
    ensures (forall call :: call in RunOps(w, SweepOps(s.op, uris), n).calls ==> call.target.Some?)
            <==> forall i :: 0 <= i < n && !w.cancelled(i) && !BodyRefused(w.caps, s.op) ==> uris[i].Some?
    decreases n
  {
    if n > 0 {
      SweepTargets(w, s, uris, n - 1);
      var op := SweepOps(s.op, uris)[n - 1];
      var before := RunOps(w, SweepOps(s.op, uris), n - 1);
      assert op == s.op.(uri := uris[n - 1]);
      assert !w.cancelled(n - 1) && !BodyRefused(w.caps, s.op) ==>
          CallFor(w.caps, op, before.tally.created).Some?
          && CallFor(w.caps, op, before.tally.created).value.target == uris[n - 1];
    }
  }

  /** A validated sweep whose listing holds a node without a URI patches nil. */
  lemma SweepNilTarget() returns (w: World, r: Request, uris: seq<Url>)
    ensures ValidRequest(r) && r.sweep.Some?
    ensures PatchNode(None, "") in RunOps(w, SweepOps(r.sweep.value.op, uris), |uris|).calls
  {
    w := World(Capabilities(false, false, false, false), (n: nat) => Reply(None, None, None, "", false, None),
               (n: nat) => false);
    var op := Op(Patch, None, "", "", "", None, "", "");
    r := Request([], Some(Sweep(Some("root"), op)), BestEffort);
    uris := [None];
    var ops := SweepOps(op, uris);
    assert ops[0] == op && CallFor(w.caps, op, []) == Some(PatchNode(None, ""));
    assert RunOps(w, ops, 1) == StepOp(w, op, false, RunOps(w, ops, 0));
  }

  lemma TargetNotNil(ops: seq<Op>, atomicity: Atomicity, i: nat, created: seq<CreatedNode>)
    requires ValidOps(ops, atomicity) && i < |ops|
    ensures Target(ops[i], created).Some? ==> Target(ops[i], created).value.Some?
  {
    assert ValidOp(ops, i, atomicity);
  }

  lemma CallTarget(caps: Capabilities, op: Op, created: seq<CreatedNode>)
    requires CallFor(caps, op, created).Some?
    ensures Target(op, created) == Some(CallFor(caps, op, created).value.target)
  {
  }

  /** Resolving its temp id is not enough for a delete: with a body, and a source
      that takes none, the op never reaches the backend. */
  lemma RefusedDeleteBody() returns (w: World, ops: seq<Op>)
    ensures ValidOps(ops, BestEffort) && |ops| == 2 && Defines(ops[0], DepId(ops[1])) && !w.cancelled(1)
    ensures OutcomesOf(w, ops)[0].status.Applied? && CallOf(w, ops, 1).None?
    ensures |RunOps(w, ops, 2).calls| == 1
  {
    var reply := Reply(None, None, None, "", false, Some("made"));
    w := World(Capabilities(true, false, false, false), (n: nat) => reply, (n: nat) => false);
    var create := Op(Create, None, "", "", "a", Some("root"), "", "");
    var delete := Op(Delete, None, "{}", "", "", None, "", "a");
    ops := [create, delete];
    assert Defines(ops[0], "a");
    assert DefinedBefore(ops, 1, "a") && !DefinedBefore(ops, 0, "a");
    assert ValidOp(ops, 0, BestEffort) && ValidOp(ops, 1, BestEffort);
    assert BodyRefused(w.caps, delete);
    var t := EngineTrace(w, ops);
    assert t.runs[1] == StepOp(w, create, false, t.runs[0]);
    TraceConserves(w, ops, t, 1);
    CallsInOrder(w, ops, 0);
    CallsInOrder(w, ops, 1);
  }
}
