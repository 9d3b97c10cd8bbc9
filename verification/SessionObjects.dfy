/** The mutable objects behind the session's steps: a peer's pending table and
    request queue (peer.go) and the orchestrator's open-blob table
    (orchestrator.go). Each method has the effect of the step of the same part. */
module SessionObjects {
  import opened Prelude
  import opened PeerLink
  import opened CaptureSession

  /** Reading until blocked. */
  function ReadAll(p: Peer): Peer
    decreases |p.inbox|
  {
    if CanRead(p) then ReadAll(ReadOne(p)) else p
  }

  lemma {:induction false} ReadAllLinked(x: Peer, y: Peer)
    requires Linked(x, y)
    ensures Linked(x, ReadAll(y)) && !CanRead(ReadAll(y))
    ensures ReadAll(y).read + ReadAll(y).inbox == y.read + y.inbox
    decreases |y.inbox|
  {
    if CanRead(y) {
      LinkedRead(x, y);
      ReadAllLinked(x, ReadOne(y));
    }
  }

  /** What was read and asks for something was queued, in order. */
  predicate Queued(y: Peer, z: Peer) {
    y.requests <= z.requests && Asks(z.read) == Asks(y.read) + z.requests[|y.requests|..]
  }

  lemma {:induction false} ReadAllQueues(y: Peer)
    ensures Queued(y, ReadAll(y))
    decreases |y.inbox|
  {
    if CanRead(y) {
      ReadAllQueues(ReadOne(y));
      AsksAppend(y.read, y.inbox[0]);
    }
  }

  /** A new answer was read, and belongs to a call that was waiting and no longer is. */
  predicate Routed(y: Peer, z: Peer) {
    && z.pending <= y.pending && y.answers.Keys <= z.answers.Keys && y.read <= z.read
    && (forall id :: id in y.answers && id !in y.pending ==> z.answers[id] == y.answers[id])
    && forall id :: id in z.answers && id !in y.answers ==>
         id in y.pending && id !in z.pending && Response(id, z.answers[id]) in z.read
  }

  lemma RoutedTwice(y: Peer, z: Peer, last: Peer)
    requires Routed(y, z) && Routed(z, last)
    ensures Routed(y, last)
  {
  }

  lemma RoutedOne(y: Peer)
    requires CanRead(y)
    ensures Routed(y, ReadOne(y))
  {
  }

  lemma {:induction false} ReadAllRoutes(y: Peer)
    ensures Routed(y, ReadAll(y))
    decreases |y.inbox|
  {
    if CanRead(y) {
      RoutedOne(y);
      ReadAllRoutes(ReadOne(y));
      RoutedTwice(y, ReadOne(y), ReadAll(y));
    }
  }

  /** One end of the session; the history fields are ghost. */
  class PeerEnd {
    var nextID: nat
    var pending: set<nat>
    var answers: map<nat, Payload>
    var inbox: seq<Msg>
    var requests: seq<Msg>
    var serving: Option<Msg>
    var done: bool
    var closed: bool
    ghost var sent: seq<Msg>
    ghost var read: seq<Msg>
    ghost var handled: seq<(Msg, Payload)>

    ghost function Contents(): Peer
      reads this
    {
      Peer(nextID, pending, answers, inbox, requests, serving, done, closed, sent, read, handled)
    }

    constructor ()
      ensures Contents() == NEW_PEER
    {
      nextID, pending, answers, inbox, requests := 0, {}, map[], [], [];
      serving, done, closed := None, false, false;
      sent, read, handled := [], [], [];
    }

    method WriteMsg(to: PeerEnd, m: Msg)
      requires to != this
      modifies this, to
      ensures (Contents(), to.Contents()) == Send(old(Contents()), old(to.Contents()), m)
    {
      if closed || to.closed {
        return;
      }
      to.inbox := to.inbox + [m];
      sent := sent + [m];
    }

    /** The part of `call` before it waits. */
    method StartCall(to: PeerEnd, body: Body) returns (id: nat)
      requires to != this
      modifies this, to
      ensures id == old(nextID) + 1
      ensures (Contents(), to.Contents()) == Call(old(Contents()), old(to.Contents()), body)
    {
      nextID := nextID + 1;
      id := nextID;
      pending := pending + {id};
      WriteMsg(to, Request(id, body));
    }

    /** The part of `call` after it has waited: the answer, if it came. */
    method EndCall(id: nat) returns (answer: Option<Payload>)
      modifies this
      ensures answer == if id in old(answers) then Some(old(answers)[id]) else None
      ensures Contents() == Unregister(old(Contents()), id)
    {
      answer := if id in answers then Some(answers[id]) else None;
      pending := pending - {id};
      answers := answers - {id};
    }

    method Deliver(id: nat, payload: Payload)
      modifies this
      ensures Contents() == if id in old(pending)
                            then old(Contents()).(pending := old(pending) - {id},
                                                  answers := old(answers)[id := payload])
                            else old(Contents())
    {
      var waiting := id in pending;
      pending := pending - {id};
      if waiting {
        answers := answers[id := payload];
      }
    }

    method ReadDatagram()
      requires CanRead(Contents())
      modifies this
      ensures Contents() == ReadOne(old(Contents()))
    {
      var m := inbox[0];
      read, inbox := read + [m], inbox[1..];
      match m
      case Response(id, payload) => Deliver(id, payload);
      case _ => requests := requests + [m];
    }

    /** The read loop, until it would block. */
    method ReadLoop()
      modifies this
      ensures Contents() == ReadAll(old(Contents()))
    {
      while !done && !closed && inbox != [] && (inbox[0].Response? || |requests| < REQUEST_QUEUE_DEPTH)
        invariant ReadAll(Contents()) == ReadAll(old(Contents()))
        decreases |inbox|
      {
        ReadDatagram();
      }
    }

    method NextRequest() returns (m: Msg)
      requires serving.None? && requests != []
      modifies this
      ensures m == old(requests)[0] && Contents() == TakeRequest(old(Contents()))
    {
      m := requests[0];
      serving, requests := Some(m), requests[1..];
    }

    /** serveOne, once the handler has returned. */
    method EndServe(to: PeerEnd, payload: Payload)
      requires to != this && serving.Some?
      modifies this, to
      ensures (Contents(), to.Contents()) == FinishServing(old(Contents()), old(to.Contents()), payload)
    {
      var m := serving.value;
      serving := None;
      handled := handled + [(m, payload)];
      if m.Request? {
        WriteMsg(to, Response(m.id, payload));
      }
    }
  }

  /** The orchestrator's blob handler; `pipes` stands for the pipes and their
      commit goroutines. */
  class OrchBlobHandler {
    var open: set<nat>
    var next: nat
    var pipes: map<nat, Pipe>
    var finishing: Option<nat>

    ghost predicate In(s: State)
      reads this
    {
      s.open == open && s.next == next && s.pipes == pipes && s.finishing == finishing
    }

    constructor ()
      ensures In(INITIAL)
    {
      open, next, pipes, finishing := {}, 0, map[], None;
    }

    method Begin(ghost s: State, opener: nat, pipeFails: bool) returns (payload: Payload)
      requires In(s) && s.orch.serving == Some(Request(opener, BlobBegin)) && OrchCanFinish(s, pipeFails)
      modifies this
      ensures payload == ServedPayload(s, pipeFails) && In(OrchFinish(s, pipeFails))
      ensures payload.Began? ==> old(open) == {} && open == {payload.handle} && payload.handle == old(next) + 1
    {
      if |open| != 0 {
        return Failure;
      }
      next := next + 1;
      var handle := next;
      open := open + {handle};
      if pipeFails {
        open := open - {handle};
        return Failure;
      }
      pipes := pipes[handle := Pipe("", true, None, opener)];
      return Began(handle);
    }

    /** The locked half of `finish`. */
    method StartFinish(ghost s: State, callId: nat, handle: nat)
      requires In(s) && s.orch.serving.None? && s.orch.requests != []
               && s.orch.requests[0] == Request(callId, BlobFinish(handle))
      modifies this
      ensures In(OrchTake(s)) && open == old(open) - {handle}
    {
      finishing := if handle in open then Some(handle) else None;
      open := open - {handle};
    }

    /** The rest of `finish`, once the commit is done or the session is over. */
    method EndFinish(ghost s: State, aborted: bool) returns (payload: Payload)
      requires In(s) && OrchCanFinish(s, aborted)
      requires s.orch.serving.value.Request? && s.orch.serving.value.body.BlobFinish?
      modifies this
      ensures payload == ServedPayload(s, aborted) && In(OrchFinish(s, aborted))
    {
      var joined := finishing;
      finishing := None;
      if joined.None? || aborted {
        return Failure;
      }
      match pipes[joined.value].commit.value
      case Stored(id, size) => return Finished(id, size);
      case DestError => return Failure;
    }
  }
}
