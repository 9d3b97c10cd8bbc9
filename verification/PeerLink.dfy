/** One direction pair of a JSON-RPC session between two symmetric peers
    (peer.go): call ids and the pending table, the read loop's correlation of
    responses, and the serve loop's first-in first-out dispatch. A socket is the
    queue of datagrams its reader has not read yet. */
module PeerLink {
  import opened Prelude

  const REQUEST_QUEUE_DEPTH: nat := 16

  datatype Body = Initialize | CaptureBatch | Shutdown | BlobBegin | BlobFinish(handle: nat) | Unknown

  /** A JSON-RPC result, or any error response. */
  datatype Payload = Done | Began(handle: nat) | Finished(id: string, size: nat) | Failure

  datatype Msg = Request(id: nat, body: Body) | Notify(body: Body) | Response(id: nat, payload: Payload)

  /** A peer: the last call id, the pending table, the channels of answered
      calls, the unread datagrams, the request queue and the request in service.
      `sent`, `read` and `handled` are histories. */
  datatype Peer = Peer(
    nextId: nat, pending: set<nat>, answers: map<nat, Payload>,
    inbox: seq<Msg>, requests: seq<Msg>, serving: Option<Msg>, done: bool, closed: bool,
    sent: seq<Msg>, read: seq<Msg>, handled: seq<(Msg, Payload)>)

  const NEW_PEER := Peer(0, {}, map[], [], [], None, false, false, [], [], [])

  /** One datagram from x to y; a closed socket loses it. */
  function Send(x: Peer, y: Peer, m: Msg): (Peer, Peer) {
    if x.closed || y.closed then (x, y)
    else (x.(sent := x.sent + [m]), y.(inbox := y.inbox + [m]))
  }

  /** Registers the next call id, then sends the request. */
  function Call(x: Peer, y: Peer, body: Body): (Peer, Peer) {
    var id := x.nextId + 1;
    Send(x.(nextId := id, pending := x.pending + {id}), y, Request(id, body))
  }

  /** The caller stops waiting for `id`, answered or not. */
  function Unregister(x: Peer, id: nat): Peer {
    x.(pending := x.pending - {id}, answers := x.answers - {id})
  }

  predicate CanRead(y: Peer) {
    !y.done && !y.closed && y.inbox != [] && (y.inbox[0].Response? || |y.requests| < REQUEST_QUEUE_DEPTH)
  }

  /** The read loop takes one datagram: a response goes to its pending call or
      is dropped, anything else is queued. */
  function ReadOne(y: Peer): Peer
    requires CanRead(y)
  {
    var m := y.inbox[0];
    var after := y.(inbox := y.inbox[1..], read := y.read + [m]);
    match m
    case Response(id, payload) =>
      if id in y.pending then after.(pending := y.pending - {id}, answers := y.answers[id := payload]) else after
    case _ => after.(requests := y.requests + [m])
  }

  /** The serve loop takes the oldest queued request. */
  function TakeRequest(y: Peer): Peer
    requires y.serving.None? && y.requests != []
  {
    y.(serving := Some(y.requests[0]), requests := y.requests[1..])
  }

  /** The handler returned: record it and answer a request. */
  function FinishServing(y: Peer, x: Peer, payload: Payload): (Peer, Peer)
    requires y.serving.Some?
  {
    var m := y.serving.value;
    var after := y.(serving := None, handled := y.handled + [(m, payload)]);
    if m.Request? then Send(after, x, Response(m.id, payload)) else (after, x)
  }

  // ---- Invariant ----

  /** The datagrams that are not responses, in order. */
  function Asks(ms: seq<Msg>): seq<Msg> {
    if ms == [] then []
    else Asks(ms[..|ms| - 1]) + (if ms[|ms| - 1].Response? then [] else [ms[|ms| - 1]])
  }

  function Messages(handled: seq<(Msg, Payload)>): seq<Msg> {
    seq(|handled|, i requires 0 <= i < |handled| => handled[i].0)
  }

  ghost predicate IncreasingIds(ms: seq<Msg>, last: nat) {
    && (forall i :: 0 <= i < |ms| && ms[i].Request? ==> 0 < ms[i].id <= last)
    && (forall i, j :: 0 <= i < j < |ms| && ms[i].Request? && ms[j].Request? ==> ms[i].id < ms[j].id)
  }

  ghost predicate Answered(y: Peer, id: nat, payload: Payload) {
    exists k :: 0 <= k < |y.handled| && y.handled[k].0.Request? && y.handled[k].0.id == id && y.handled[k].1 == payload
  }

  /** What holds between a caller x and the server y of its requests. */
  ghost predicate Link(x: Peer, y: Peer) {
    && x.sent == y.read + y.inbox
    && Asks(y.read) == Messages(y.handled) + OptSeq(y.serving) + y.requests
    && IncreasingIds(x.sent, x.nextId)
    && (forall m :: m in y.sent && m.Response? ==> Answered(y, m.id, m.payload))
    && (forall id :: id in x.answers ==> Response(id, x.answers[id]) in x.read)
    && (forall id :: id in x.pending || id in x.answers ==> 0 < id <= x.nextId)
    && x.pending !! x.answers.Keys
  }

  ghost predicate Linked(x: Peer, y: Peer) {
    Link(x, y) && Link(y, x)
  }

  lemma AsksAppend(a: seq<Msg>, m: Msg)
    ensures Asks(a + [m]) == Asks(a) + (if m.Response? then [] else [m])
  {
  }

  lemma LinkedSend(x: Peer, y: Peer, m: Msg)
    requires Linked(x, y)
    requires m.Request? ==> forall i :: 0 <= i < |x.sent| && x.sent[i].Request? ==> x.sent[i].id < m.id
    requires m.Request? ==> 0 < m.id <= x.nextId
    requires m.Response? ==> Answered(x, m.id, m.payload)
    ensures Linked(Send(x, y, m).0, Send(x, y, m).1)
  {
    if !x.closed && !y.closed {
      var x', y' := Send(x, y, m).0, Send(x, y, m).1;
      assert x'.sent == y'.read + y'.inbox;
      forall r | r in y'.sent && r.Response?
        ensures Answered(y', r.id, r.payload) { assert Answered(y, r.id, r.payload); }
      forall r | r in x'.sent && r.Response? ensures Answered(x', r.id, r.payload) {
        if r in x.sent { assert Answered(x, r.id, r.payload); }
      }
    }
  }

  lemma LinkedCall(x: Peer, y: Peer, body: Body)
    requires Linked(x, y)
    ensures Linked(Call(x, y, body).0, Call(x, y, body).1)
  {
    LinkedRegister(x, y);
    LinkedSend(Registered(x), y, Request(x.nextId + 1, body));
  }

  /** The caller with its next id pending. */
  function Registered(x: Peer): Peer {
    x.(nextId := x.nextId + 1, pending := x.pending + {x.nextId + 1})
  }

  lemma LinkedRegister(x: Peer, y: Peer)
    requires Linked(x, y)
    ensures Linked(Registered(x), y)
  {
    var x1 := Registered(x);
    assert Link(x1, y);
    forall r | r in x1.sent && r.Response? ensures Answered(x1, r.id, r.payload) {
      assert Answered(x, r.id, r.payload);
    }
  }

  lemma LinkedUnregister(x: Peer, y: Peer, id: nat)
    requires Linked(x, y)
    ensures Linked(Unregister(x, id), y)
  {
  }

  lemma ReadServes(x: Peer, y: Peer)
    requires Link(x, y) && CanRead(y)
    ensures Link(x, ReadOne(y))
  {
    var y1 := ReadOne(y);
    ReadSequence(x, y);
    forall r | r in y1.sent && r.Response? ensures Answered(y1, r.id, r.payload) {
      assert Answered(y, r.id, r.payload);
    }
  }

  /** What was sent, read and queued still adds up. */
  lemma ReadSequence(x: Peer, y: Peer)
    requires x.sent == y.read + y.inbox && CanRead(y)
    requires Asks(y.read) == Messages(y.handled) + OptSeq(y.serving) + y.requests
    ensures x.sent == ReadOne(y).read + ReadOne(y).inbox
    ensures Asks(ReadOne(y).read) == Messages(y.handled) + OptSeq(y.serving) + ReadOne(y).requests
  {
    MoveFirst(y.read, y.inbox);
    AsksGrow(y.read, y.inbox[0], Messages(y.handled) + OptSeq(y.serving), y.requests);
  }

  lemma MoveFirst(a: seq<Msg>, b: seq<Msg>)
    requires b != []
    ensures a + b == a + [b[0]] + b[1..]
  {
  }

  lemma AsksGrow(heard: seq<Msg>, m: Msg, served: seq<Msg>, queue: seq<Msg>)
    requires Asks(heard) == served + queue
    ensures Asks(heard + [m]) == served + (if m.Response? then queue else queue + [m])
  {
    AsksAppend(heard, m);
  }

  lemma ReadAnswers(x: Peer, y: Peer)
    requires Link(y, x) && CanRead(y)
    ensures Link(ReadOne(y), x)
  {
  }

  lemma LinkedRead(x: Peer, y: Peer)
    requires Linked(x, y) && CanRead(y)
    ensures Linked(x, ReadOne(y))
  {
    ReadServes(x, y);
    ReadAnswers(x, y);
  }

  lemma LinkedTake(x: Peer, y: Peer)
    requires Linked(x, y) && y.serving.None? && y.requests != []
    ensures Linked(x, TakeRequest(y))
  {
  }

  lemma LinkedFinish(x: Peer, y: Peer, payload: Payload)
    requires Linked(x, y) && y.serving.Some?
    ensures Linked(FinishServing(y, x, payload).1, FinishServing(y, x, payload).0)
  {
    var m := y.serving.value;
    var after := y.(serving := None, handled := y.handled + [(m, payload)]);
    assert Messages(after.handled) == Messages(y.handled) + [m];
    assert Messages(after.handled) + OptSeq(after.serving) + after.requests
        == Messages(y.handled) + OptSeq(y.serving) + y.requests;
    forall r | r in after.sent && r.Response? ensures Answered(after, r.id, r.payload) {
      assert Answered(y, r.id, r.payload);
      var k :| 0 <= k < |y.handled| && y.handled[k].0.Request? && y.handled[k].0.id == r.id
          && y.handled[k].1 == r.payload;
      assert after.handled[k] == y.handled[k];
    }
    if m.Request? {
      assert after.handled[|y.handled|] == (m, payload);
      assert Answered(after, m.id, payload);
      LinkedSend(after, x, Response(m.id, payload));
    }
  }

  lemma LinkedDone(x: Peer, y: Peer, done: bool, closed: bool)
    requires Linked(x, y)
    ensures Linked(x, y.(done := done, closed := closed))
  {
  }

  // ---- What the link gives ----

  lemma {:induction false} AsksSubset(ms: seq<Msg>, m: Msg)
    ensures m in Asks(ms) <==> m in ms && !m.Response?
    decreases |ms|
  {
    if ms != [] {
      AsksSubset(ms[..|ms| - 1], m);
      assert ms == ms[..|ms| - 1] + [ms[|ms| - 1]];
    }
  }

  /** Correlation: an answered call holds what the other peer's handler returned
      for the one request that was sent under its id. */
  lemma Correlated(x: Peer, y: Peer, id: nat) returns (k: nat)
    requires Linked(x, y) && id in x.answers
    ensures k < |y.handled| && y.handled[k].0.Request? && y.handled[k].0.id == id && y.handled[k].1 == x.answers[id]
    ensures y.handled[k].0 in x.sent
    ensures forall m :: m in x.sent && m.Request? && m.id == id ==> m == y.handled[k].0
  {
    assert Response(id, x.answers[id]) in x.read;
    assert Response(id, x.answers[id]) in y.sent;
    assert Answered(y, id, x.answers[id]);
    k :| 0 <= k < |y.handled| && y.handled[k].0.Request? && y.handled[k].0.id == id && y.handled[k].1 == x.answers[id];
    HandledWasSent(x, y, k);
    forall m | m in x.sent && m.Request? && m.id == id ensures m == y.handled[k].0 {
      SameIdSame(x, m, y.handled[k].0);
    }
  }

  lemma HandledWasSent(x: Peer, y: Peer, k: nat)
    requires Link(x, y) && k < |y.handled|
    ensures y.handled[k].0 in x.sent && !y.handled[k].0.Response?
  {
    assert Messages(y.handled)[k] == y.handled[k].0;
    assert y.handled[k].0 in Asks(y.read);
    AsksSubset(y.read, y.handled[k].0);
  }

  lemma ServingWasSent(x: Peer, y: Peer)
    requires Link(x, y) && y.serving.Some?
    ensures y.serving.value in x.sent && !y.serving.value.Response?
  {
    assert Asks(y.read)[|y.handled|] == y.serving.value;
    AsksSubset(y.read, y.serving.value);
  }

  lemma SameIdSame(x: Peer, a: Msg, b: Msg)
    requires IncreasingIds(x.sent, x.nextId) && a in x.sent && b in x.sent && a.Request? && b.Request? && a.id == b.id
    ensures a == b
  {
  }

  lemma {:induction false} AsksIncreasing(ms: seq<Msg>, last: nat)
    requires IncreasingIds(ms, last)
    ensures IncreasingIds(Asks(ms), last)
    decreases |ms|
  {
    if ms != [] {
      var front := ms[..|ms| - 1];
      AsksIncreasing(front, last);
      forall i | 0 <= i < |Asks(front)| && Asks(front)[i].Request? && ms[|ms| - 1].Request?
        ensures Asks(front)[i].id < ms[|ms| - 1].id
      {
        AsksSubset(front, Asks(front)[i]);
      }
    }
  }

  /** First in, first out and at most once: what y has handled and is serving is
      a prefix of what x asked, in x's order, with strictly increasing ids. */
  lemma ServedInOrder(x: Peer, y: Peer)
    requires Link(x, y)
    ensures Messages(y.handled) + OptSeq(y.serving) + y.requests <= Asks(x.sent)
    ensures IncreasingIds(Messages(y.handled) + OptSeq(y.serving), x.nextId)
  {
    AsksPrefix(y.read, y.inbox);
    assert IncreasingIds(y.read, x.nextId) by {
      assert forall i :: 0 <= i < |y.read| ==> y.read[i] == x.sent[i];
    }
    AsksIncreasing(y.read, x.nextId);
    var served := Messages(y.handled) + OptSeq(y.serving);
    assert forall i :: 0 <= i < |served| ==> served[i] == Asks(y.read)[i];
  }

  lemma {:induction false} AsksPrefix(a: seq<Msg>, b: seq<Msg>)
    ensures Asks(a) <= Asks(a + b)
    decreases |b|
  {
    if b == [] {
      assert a + b == a;
    } else {
      var m := b[|b| - 1];
      AsksPrefix(a, b[..|b| - 1]);
      assert a + b == (a + b[..|b| - 1]) + [m];
      AsksAppend(a + b[..|b| - 1], m);
    }
  }
}
