/** A receipt written over the capture-serve session is the receipt the in-process
    writer would have stored: same ids, same blobs, same order. */
module ReceiptOverSession {
  import opened Prelude
  import opened NodeFraming
  import R = Receipt
  import CS = CaptureSession
  import SP = SessionProgress

  // ---- What a run never takes back ----

  /** Stored blobs, handles, writers and successes stay. */
  ghost predicate Grows(s: CS.State, t: CS.State) {
    && s.stored <= t.stored && CS.HandlesGrow(s, t)
    && forall w :: w in s.writers ==> w in t.writers && Continues(s.writers[w], t.writers[w])
  }

  predicate Continues(a: CS.Writer, b: CS.Writer) {
    b.beginId == a.beginId && b.data == a.data && (a.pc.Succeeded? ==> b == a)
  }

  lemma GrowsStep(s: CS.State, step: CS.Step, dest: string -> CS.DestAnswer)
    requires CS.Enabled(s, step) && s.next + 1 !in s.pipes
    ensures Grows(s, CS.Apply(s, step, dest))
  {
    CS.HandlesStep(s, step, dest);
    StoredGrows(s, step, dest);
    if CS.WriterMove(step) {
      WritersContinue(s, step);
    } else {
      SP.OthersKeepWriters(s, step, dest);
    }
  }

  lemma StoredGrows(s: CS.State, step: CS.Step, dest: string -> CS.DestAnswer)
    requires CS.Enabled(s, step)
    ensures s.stored <= CS.Apply(s, step, dest).stored
  {
    if step.OrchFinishes? {
      FinishKeeps(s, step.aborted);
    }
  }

  lemma FinishKeeps(s: CS.State, aborted: bool)
    requires CS.OrchCanFinish(s, aborted)
    ensures CS.OrchFinish(s, aborted).stored == s.stored
  {
  }

  lemma WritersContinue(s: CS.State, step: CS.Step)
    requires CS.Enabled(s, step) && CS.WriterMove(step)
    ensures forall w :: w in s.writers ==>
              w in CS.WriterStep(s, step).writers && Continues(s.writers[w], CS.WriterStep(s, step).writers[w])
  {
  }

  lemma GrowsTwice(s: CS.State, t: CS.State, u: CS.State)
    requires Grows(s, t) && Grows(t, u)
    ensures Grows(s, u)
  {
  }

  lemma {:induction false} GrowsRun(states: seq<CS.State>, steps: seq<CS.Step>, dest: string -> CS.DestAnswer,
                                    m: nat, i: nat)
    requires CS.IsRun(states, steps, dest) && m <= i < |states|
    ensures Grows(states[m], states[i])
    decreases i
  {
    if m < i {
      GrowsRun(states, steps, dest, m, i - 1);
      CS.RunInv(states, steps, dest, i - 1);
      FreshHandle(states[i - 1], dest);
      GrowsStep(states[i - 1], steps[i - 1], dest);
      GrowsTwice(states[m], states[i - 1], states[i]);
    }
  }

  lemma FreshHandle(s: CS.State, dest: string -> CS.DestAnswer)
    requires CS.HandlerInv(s, dest)
    ensures s.next + 1 !in s.pipes
  {
    assert s.next + 1 in s.pipes ==> CS.PipeOk(s, dest, s.next + 1);
  }

  // ---- One write after another ----

  predicate Done(s: CS.State, w: nat) {
    w in s.writers && s.writers[w].pc.Succeeded?
  }

  /** The stored entry of a write that succeeded. */
  function Entry(s: CS.State, w: nat): (nat, string)
    requires Done(s, w)
  {
    (s.writers[w].pc.handle, s.writers[w].data)
  }

  /** A successful write's entry is stored, as the destination answered it. */
  lemma EntryStored(s: CS.State, w: nat, dest: string -> CS.DestAnswer)
    requires CS.Inv(s, dest) && Done(s, w)
    ensures Entry(s, w) in s.stored
    ensures dest(s.writers[w].data) == CS.Stored(s.writers[w].pc.id, s.writers[w].pc.size)
  {
    assert CS.WriterOk(s, s.writers[w]);
    assert CS.PipeOk(s, dest, s.writers[w].pc.handle);
  }

  /** A write whose entry is there has begun. */
  lemma StoredBegun(m: CS.State, s: CS.State, w: nat, dest: string -> CS.DestAnswer)
    requires CS.Inv(m, dest) && CS.Inv(s, dest) && Grows(m, s) && Done(s, w) && Entry(s, w) in m.stored
    ensures w in m.writers
  {
    var h := s.writers[w].pc.handle;
    assert CS.WriterOk(s, s.writers[w]);
    assert CS.StoredOk(m, Entry(s, w));
    assert CS.HasWriter(m, h);
    var v :| CS.Writes(m, v, h);
    assert v in s.writers && s.writers[v].beginId == s.writers[w].beginId;
  }

  lemma Positions<T>(before: seq<T>, after: seq<T>, a: T, b: T) returns (x: nat, y: nat)
    requires before <= after && a in before && b in after && b !in before
    ensures x < y < |after| && after[x] == a && after[y] == b
  {
    x :| 0 <= x < |before| && before[x] == a;
    y :| 0 <= y < |after| && after[y] == b;
    assert after[x] == before[x];
    assert forall i :: 0 <= i < |before| ==> after[i] == before[i] && before[i] in before;
  }

  /** A write begun after another succeeded is stored after it. */
  lemma StoredAfter(m: CS.State, s: CS.State, dest: string -> CS.DestAnswer, a: nat, b: nat) returns (x: nat, y: nat)
    requires CS.Inv(m, dest) && CS.Inv(s, dest) && Grows(m, s)
    requires Done(m, a) && b !in m.writers && Done(s, b)
    ensures Done(s, a) && x < y < |s.stored|
    ensures s.stored[x] == Entry(s, a) && s.stored[y] == Entry(s, b)
  {
    EntryStored(m, a, dest);
    EntryStored(s, b, dest);
    if Entry(s, b) in m.stored {
      StoredBegun(m, s, b, dest);
    }
    x, y := Positions(m.stored, s.stored, Entry(m, a), Entry(s, b));
  }

  // ---- A receipt's writes ----

  /** The destination names blobs by the digest the receipts use. */
  ghost predicate Names<A>(c: R.Codec<A>, dest: string -> CS.DestAnswer) {
    forall d :: dest(d).Stored? ==> dest(d).id == c.digest(d)
  }

  /** Writer `ws[k]` carried node `k` of the receipt, and succeeded. */
  ghost predicate Sent<A>(c: R.Codec<A>, p: R.ReceiptParams<A>, s: CS.State, ws: seq<nat>) {
    && |ws| == |R.ReceiptNodes(c, p)|
    && forall k :: 0 <= k < |ws| ==> Done(s, ws[k]) && s.writers[ws[k]].data == R.Blob(R.ReceiptNodes(c, p)[k])
  }

  /** Each write of the receipt begins once the earlier ones have succeeded. */
  ghost predicate InTurn(states: seq<CS.State>, i: nat, ws: seq<nat>) {
    forall k :: 0 <= k < |ws| ==> HadTurn(states, i, ws, k)
  }

  ghost predicate HadTurn(states: seq<CS.State>, i: nat, ws: seq<nat>, k: nat)
    requires k < |ws|
  {
    exists m :: 0 <= m <= i && m < |states| && TurnOf(states[m], ws, k)
  }

  ghost predicate TurnOf(s: CS.State, ws: seq<nat>, k: nat)
    requires k < |ws|
  {
    ws[k] !in s.writers && forall j :: 0 <= j < k ==> Done(s, ws[j])
  }

  function Bytes(stored: seq<(nat, string)>): seq<string> {
    seq(|stored|, x requires 0 <= x < |stored| => stored[x].1)
  }

  /** The session returns for every node the digest the in-process writer returns. */
  lemma SameDigests<A>(c: R.Codec<A>, p: R.ReceiptParams<A>, states: seq<CS.State>, steps: seq<CS.Step>,
                       dest: string -> CS.DestAnswer, i: nat, ws: seq<nat>, k: nat)
    requires CS.IsRun(states, steps, dest) && i < |states| && Names(c, dest) && Sent(c, p, states[i], ws) && k < |ws|
    ensures states[i].writers[ws[k]].pc.id == R.DigestOf(c, R.ReceiptNodes(c, p)[k])
    ensures R.Blob(R.ReceiptNodes(c, p)[k]) in Bytes(states[i].stored)
  {
    CS.RunInv(states, steps, dest, i);
    SentDigest(c, p, states[i], dest, ws, k);
  }

  lemma SentDigest<A>(c: R.Codec<A>, p: R.ReceiptParams<A>, s: CS.State, dest: string -> CS.DestAnswer, ws: seq<nat>,
                      k: nat)
    requires CS.Inv(s, dest) && Names(c, dest) && Sent(c, p, s, ws) && k < |ws|
    ensures s.writers[ws[k]].pc.id == R.DigestOf(c, R.ReceiptNodes(c, p)[k])
    ensures R.Blob(R.ReceiptNodes(c, p)[k]) in Bytes(s.stored)
  {
    EntryStored(s, ws[k], dest);
    BytesOf(s.stored, Entry(s, ws[k]));
  }

  lemma BytesOf(stored: seq<(nat, string)>, e: (nat, string))
    requires e in stored
    ensures e.1 in Bytes(stored)
  {
    var x :| 0 <= x < |stored| && stored[x] == e;
    assert Bytes(stored)[x] == e.1;
  }

  /** A receipt sent over the session reads back from the destination, and its format with it. */
  lemma SessionReadBack<A(!new)>(c: R.Codec<A>, p: R.ReceiptParams<A>, states: seq<CS.State>, steps: seq<CS.Step>,
                                 dest: string -> CS.DestAnswer, i: nat, ws: seq<nat>)
    requires CS.IsRun(states, steps, dest) && i < |states| && Names(c, dest) && Sent(c, p, states[i], ws)
    requires R.Lawful(c) && c.jcs(R.InvocationBodyOf(c, p.invocation)).Some?
    ensures R.WroteAll(c, p, Bytes(states[i].stored))
    ensures var blobs, written := Bytes(states[i].stored), R.ReceiptNode(c, p);
            var receipt := R.ReadNode(c, blobs, R.DigestOf(c, written));
            && (receipt == Ok(written) <==> WellFormed(written.typeString, written.refs))
            && (receipt.Ok? ==>
                  R.FormatFromReceipt(c, blobs, receipt.value)
                  == if p.invocation.format == "" then Err(R.NoFormat) else Ok(p.invocation.format))
  {
    var nodes := R.ReceiptNodes(c, p);
    forall n | n in nodes ensures R.Blob(n) in Bytes(states[i].stored) {
      var k :| 0 <= k < |nodes| && nodes[k] == n;
      SameDigests(c, p, states, steps, dest, i, ws, k);
    }
    R.ReadBack(c, p, Bytes(states[i].stored));
  }

  /** The destination stores the nodes in writing order. */
  lemma SameOrder<A>(c: R.Codec<A>, p: R.ReceiptParams<A>, states: seq<CS.State>, steps: seq<CS.Step>,
                     dest: string -> CS.DestAnswer, i: nat, ws: seq<nat>, j: nat, k: nat)
    returns (x: nat, y: nat)
    requires CS.IsRun(states, steps, dest) && i < |states| && Sent(c, p, states[i], ws) && InTurn(states, i, ws)
    requires j < k < |ws|
    ensures x < y < |states[i].stored|
    ensures states[i].stored[x].1 == R.Blob(R.ReceiptNodes(c, p)[j])
    ensures states[i].stored[y].1 == R.Blob(R.ReceiptNodes(c, p)[k])
  {
    assert HadTurn(states, i, ws, k);
    var m :| 0 <= m <= i && m < |states| && TurnOf(states[m], ws, k);
    CS.RunInv(states, steps, dest, m);
    CS.RunInv(states, steps, dest, i);
    GrowsRun(states, steps, dest, m, i);
    x, y := StoredAfter(states[m], states[i], dest, ws[j], ws[k]);
  }

  /** So over the session, too, every reference of every node but the payloads'
      resolves to a blob stored before the node. */
  lemma SessionTreeClosed<A>(c: R.Codec<A>, p: R.ReceiptParams<A>, states: seq<CS.State>, steps: seq<CS.Step>,
                             dest: string -> CS.DestAnswer, i: nat, ws: seq<nat>, k: nat, r: Ref)
    returns (x: nat, y: nat)
    requires CS.IsRun(states, steps, dest) && i < |states| && Sent(c, p, states[i], ws) && InTurn(states, i, ws)
    requires k < |ws| && r in R.ReceiptNodes(c, p)[k].refs && r !in p.payloadRefs
    ensures x < y < |states[i].stored|
    ensures c.digest(states[i].stored[x].1) == r.digest && states[i].stored[y].1 == R.Blob(R.ReceiptNodes(c, p)[k])
  {
    var j := R.NodeRefsResolve(c, p, k, r);
    x, y := SameOrder(c, p, states, steps, dest, i, ws, j, k);
  }
}
