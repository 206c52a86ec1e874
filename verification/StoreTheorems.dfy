// What every sequence of journal operations keeps.

module StoreTheorems {
  import opened Text
  import opened Messages
  import opened Store

  function Run(j: Journal, ops: seq<StoreOp>): Journal
    decreases |ops|
  {
    if ops == [] then j else Run(After(j, ops[0]).0, ops[1..])
  }

  // ----- the reachable-state invariant -----

  ghost predicate OutboundInv(j: Journal) {
    && (forall n: nat :: n in j.outbound <==> 1 <= n < j.nextOut) && 1 <= j.nextOut
    && (forall n | n in j.outbound ::
          var command := j.outbound[n].command;
          command.msgSeqNum == n && command.requestId in j.commands && j.commands[command.requestId] == command)
    && (forall id | id in j.commands :: j.commands[id].requestId == id)
  }

  ghost predicate TransmissionInv(j: Journal) {
    && (forall n: nat :: n in j.transmissions <==> 1 <= n < j.nextTransmission) && 1 <= j.nextTransmission
    && (forall n | n in j.transmissions :: j.transmissions[n].id == n)
  }

  ghost predicate InboundInv(j: Journal) {
    && 1 <= j.nextIn && 1 <= j.nextEvent
    && (forall e | e in j.events :: 1 <= e < j.nextEvent && j.events[e].id == e)
    && (forall n | n in j.inbound :: j.inbound[n].msgSeqNum == n && j.inbound[n].eventId in j.events)
    && (forall m, n | m in j.inbound && n in j.inbound && m != n :: j.inbound[m].eventId != j.inbound[n].eventId)
  }

  ghost predicate Inv(j: Journal) { OutboundInv(j) && TransmissionInv(j) && InboundInv(j) }

  lemma OutboundInvStep(j: Journal, op: StoreOp)
    requires OutboundInv(j)
    ensures OutboundInv(After(j, op).0)
  {
    match op
    case CommitOutbound(c) =>
    case MarkOutboundWritten(id, n) => MarkKeepsInv(j, id, n);
    case _ =>
  }

  lemma MarkKeepsInv(j: Journal, id: Bytes, n: nat)
    requires OutboundInv(j)
    ensures OutboundInv(AfterMarkOutbound(j, id, n).0)
  {
  }

  lemma TransmissionInvStep(j: Journal, op: StoreOp)
    requires TransmissionInv(j)
    ensures TransmissionInv(After(j, op).0)
  {
  }

  lemma InboundInvStep(j: Journal, op: StoreOp)
    requires InboundInv(j)
    ensures InboundInv(After(j, op).0)
  {
  }

  lemma InvStep(j: Journal, op: StoreOp)
    requires Inv(j)
    ensures Inv(After(j, op).0)
  {
    OutboundInvStep(j, op);
    TransmissionInvStep(j, op);
    InboundInvStep(j, op);
    hide OutboundInv, TransmissionInv, InboundInv, After;
  }

  /** The invariant holds after every sequence of operations on a fresh database. */
  lemma {:induction false} ReachableInv(j: Journal, ops: seq<StoreOp>)
    requires Inv(j)
    ensures Inv(Run(j, ops))
    decreases |ops|
  {
    if ops != [] {
      InvStep(j, ops[0]);
      ReachableInv(After(j, ops[0]).0, ops[1..]);
    }
  }

  lemma EmptyInv()
    ensures Inv(EMPTY)
  {
  }

  /** A range inside 1..next_out-1 loads completely and in order. */
  lemma {:induction false} RangeComplete(j: Journal, begin: nat, end: nat)
    requires OutboundInv(j) && 1 <= begin && end < j.nextOut
    ensures var records := RangeOf(j, begin, end);
            && |records| == (if begin > end then 0 else end + 1 - begin)
            && forall i | 0 <= i < |records| :: records[i] == j.outbound[begin + i]
    decreases end - begin
  {
    if begin <= end {
      RangeComplete(j, begin + 1, end);
    }
  }

  // ----- command records -----

  /** Every command of `a` is still in `b`, unchanged but for a phase that may have become Written. */
  ghost predicate CommandsKept(a: Journal, b: Journal) {
    forall id | id in a.commands ::
      && id in b.commands
      && b.commands[id].(phase := a.commands[id].phase) == a.commands[id]
      && (a.commands[id].phase == Written ==> b.commands[id].phase == Written)
  }

  lemma CommandsKeptStep(j: Journal, op: StoreOp)
    requires OutboundInv(j)
    ensures CommandsKept(j, After(j, op).0)
  {
  }

  /** Command records are forever, across sequence resets too. */
  lemma {:induction false} CommandsForever(j: Journal, ops: seq<StoreOp>)
    requires Inv(j)
    ensures CommandsKept(j, Run(j, ops))
    decreases |ops|
  {
    if ops != [] {
      var next := After(j, ops[0]).0;
      CommandsKeptStep(j, ops[0]);
      InvStep(j, ops[0]);
      CommandsForever(next, ops[1..]);
      CommandsKeptTransitive(j, next, Run(j, ops));
    }
  }

  lemma CommandsKeptTransitive(a: Journal, b: Journal, c: Journal)
    requires CommandsKept(a, b) && CommandsKept(b, c)
    ensures CommandsKept(a, c)
  {
    forall id | id in a.commands
      ensures id in c.commands && c.commands[id].(phase := a.commands[id].phase) == a.commands[id]
      ensures a.commands[id].phase == Written ==> c.commands[id].phase == Written
    {
      assert id in b.commands && id in c.commands;
    }
  }

  /** A repeated commit of a stored request writes nothing and answers with the stored record, and one
      with another fingerprint is refused, whatever happened in between. */
  lemma RetryAnswersStored(j: Journal, ops: seq<StoreOp>, c: OutboundCommit)
    requires Inv(j) && c.requestId in j.commands
    ensures var later := Run(j, ops);
            var (after, reply) := AfterCommitOutbound(later, c);
            && after == later
            && (reply.Ok? <==> c.fingerprint == j.commands[c.requestId].fingerprint)
            && (reply.Ok? ==> reply.value.clOrdId == j.commands[c.requestId].clOrdId &&
                              reply.value.msgSeqNum == j.commands[c.requestId].msgSeqNum)
            && (reply.Err? ==> reply.error == IdempotencyConflict(c.requestId))
  {
    CommandsForever(j, ops);
  }

  // ----- events -----

  predicate ConsumesEvent(j: Journal, op: StoreOp) {
    (op.CommitInbound? || op.ResyncInbound? || op.ResetSequences?) && After(j, op).1.Ok?
  }

  /** How many inbound commits, resyncs and resets of a run succeeded. */
  function EventsConsumed(j: Journal, ops: seq<StoreOp>): nat
    decreases |ops|
  {
    if ops == [] then 0
    else (if ConsumesEvent(j, ops[0]) then 1 else 0) + EventsConsumed(After(j, ops[0]).0, ops[1..])
  }

  /** The event counter counts exactly the successful inbound commits, resyncs and resets. */
  lemma {:induction false} EventsConserved(j: Journal, ops: seq<StoreOp>)
    ensures Run(j, ops).nextEvent == j.nextEvent + EventsConsumed(j, ops)
    decreases |ops|
  {
    if ops != [] {
      EventsConserved(After(j, ops[0]).0, ops[1..]);
    }
  }

  // ----- the inbound chain -----

  /** The (sequence, next) pairs of the successful inbound commits of a run, in order. */
  function InboundLinks(j: Journal, ops: seq<StoreOp>): seq<(nat, nat)>
    decreases |ops|
  {
    if ops == [] then []
    else
      var (next, reply) := After(j, ops[0]);
      (if ops[0].CommitInbound? && reply.Ok? then [(ops[0].inbound.msgSeqNum, ops[0].inbound.nextInAfter)] else [])
      + InboundLinks(next, ops[1..])
  }

  /** Links that lead from one sequence number to another, each starting where the last one ended. */
  ghost predicate Chained(links: seq<(nat, nat)>, from: nat, to: nat)
    decreases |links|
  {
    if links == [] then from == to
    else links[0].0 == from && from < links[0].1 && Chained(links[1..], links[0].1, to)
  }

  /** Without a resync or reset in between, inbound commits form one chain from the old `next_in` to the
      new one, and the inbound rows below the old `next_in` are untouched. */
  lemma {:induction false} InboundChain(j: Journal, ops: seq<StoreOp>)
    requires forall op | op in ops :: !op.ResyncInbound? && !op.ResetSequences?
    ensures Chained(InboundLinks(j, ops), j.nextIn, Run(j, ops).nextIn) && j.nextIn <= Run(j, ops).nextIn
    ensures forall n | n in j.inbound && n < j.nextIn ::
              n in Run(j, ops).inbound && Run(j, ops).inbound[n] == j.inbound[n]
    decreases |ops|
  {
    if ops != [] {
      var next := After(j, ops[0]).0;
      assert ops[0] in ops;
      InboundChain(next, ops[1..]);
      var links := InboundLinks(j, ops);
      var later := InboundLinks(next, ops[1..]);
      assert links == later || links[1..] == later;
    }
  }

  // ----- a mark that names a request of an earlier epoch -----

  /** The request that a row belongs to. */
  function Owner(j: Journal, n: nat): Bytes
    requires n in j.outbound
  {
    j.outbound[n].command.requestId
  }

  /** A mark for row `n` that succeeds. */
  predicate Marks(j: Journal, op: StoreOp, n: nat) {
    op.MarkOutboundWritten? && op.msgSeqNum == n && AfterMarkOutbound(j, op.requestId, n).1.Ok?
  }

  lemma {:induction false} RunSnoc(j: Journal, ops: seq<StoreOp>, op: StoreOp)
    ensures Run(j, ops + [op]) == After(Run(j, ops), op).0
    decreases |ops|
  {
    hide After;
    if ops == [] {
      assert [op][1..] == [] && ops + [op] == [op];
    } else {
      assert (ops + [op])[0] == ops[0] && (ops + [op])[1..] == ops[1..] + [op];
      RunSnoc(After(j, ops[0]).0, ops[1..], op);
    }
  }

  lemma {:induction false} RunKeepsOutbound(j: Journal, ops: seq<StoreOp>)
    requires OutboundInv(j)
    ensures OutboundInv(Run(j, ops))
    decreases |ops|
  {
    hide OutboundInv, After;
    if ops != [] {
      OutboundInvStep(j, ops[0]);
      RunKeepsOutbound(After(j, ops[0]).0, ops[1..]);
    }
  }

  lemma OwnerStep(j: Journal, op: StoreOp, n: nat)
    requires OutboundInv(j) && n in j.outbound && !op.ResetSequences?
    ensures var next := After(j, op).0;
            && n in next.outbound && next.outbound[n].wire == j.outbound[n].wire
            && Owner(next, n) == if Marks(j, op, n) then op.requestId else Owner(j, n)
  {
  }

  /** At every moment the row is there, with the bytes it was committed with. */
  ghost predicate StoredThroughout(j: Journal, ops: seq<StoreOp>, n: nat)
    requires n in j.outbound
  {
    forall k | 0 <= k <= |ops| ::
      n in Run(j, ops[..k]).outbound && Run(j, ops[..k]).outbound[n].wire == j.outbound[n].wire
  }

  /** At every moment it belongs to the request it was committed for. */
  ghost predicate OwnedThroughout(j: Journal, ops: seq<StoreOp>, n: nat)
    requires n in j.outbound && StoredThroughout(j, ops, n)
  {
    forall k | 0 <= k <= |ops| :: Owner(Run(j, ops[..k]), n) == Owner(j, n)
  }

  /** Every mark for the row that succeeds names that request. */
  ghost predicate MarkedByOwner(j: Journal, ops: seq<StoreOp>, n: nat)
    requires n in j.outbound
  {
    forall k | 0 <= k < |ops| && Marks(Run(j, ops[..k]), ops[k], n) :: ops[k].requestId == Owner(j, n)
  }

  lemma ThroughoutSnoc(j: Journal, front: seq<StoreOp>, op: StoreOp, n: nat)
    requires n in j.outbound && StoredThroughout(j, front, n)
    requires var next := Run(j, front + [op]); n in next.outbound && next.outbound[n].wire == j.outbound[n].wire
    ensures StoredThroughout(j, front + [op], n)
    ensures OwnedThroughout(j, front + [op], n) <==>
            OwnedThroughout(j, front, n) && Owner(Run(j, front + [op]), n) == Owner(j, n)
  {
    hide Owner, Run;
    var ops := front + [op];
    assert forall k | 0 <= k <= |front| :: ops[..k] == front[..k];
    assert ops[..|ops|] == ops;
  }

  lemma MarkedSnoc(j: Journal, front: seq<StoreOp>, op: StoreOp, n: nat)
    requires n in j.outbound
    ensures MarkedByOwner(j, front + [op], n) <==>
            MarkedByOwner(j, front, n) && (Marks(Run(j, front), op, n) ==> op.requestId == Owner(j, n))
  {
    hide Owner, Run, Marks;
    var ops := front + [op];
    assert forall k | 0 <= k < |front| :: ops[..k] == front[..k] && ops[k] == front[k];
    assert ops[..|front|] == front && ops[|front|] == op;
  }

  /** Whatever operations follow, resets apart: a row stays and keeps its bytes, and it belongs throughout to the
      request it was committed for exactly when every mark for it that succeeds names that request. */
  lemma {:induction false} MarkKeepsOwner(j: Journal, ops: seq<StoreOp>, n: nat)
    requires OutboundInv(j) && n in j.outbound && forall op | op in ops :: !op.ResetSequences?
    ensures StoredThroughout(j, ops, n)
    ensures OwnedThroughout(j, ops, n) <==> MarkedByOwner(j, ops, n)
    decreases |ops|
  {
    if ops != [] {
      hide OutboundInv, Marks, Owner, After, Run, StoredThroughout, OwnedThroughout, MarkedByOwner;
      var front, op := ops[..|ops| - 1], ops[|ops| - 1];
      assert ops == front + [op] && op in ops && forall o | o in front :: o in ops;
      MarkKeepsOwner(j, front, n);
      RunKeepsOutbound(j, front);
      RunSnoc(j, front, op);
      NowStored(j, front, n);
      OwnerStep(Run(j, front), op, n);
      ThroughoutSnoc(j, front, op, n);
      MarkedSnoc(j, front, op, n);
      NowOwned(j, front, n);
    }
  }

  lemma NowStored(j: Journal, ops: seq<StoreOp>, n: nat)
    requires n in j.outbound && StoredThroughout(j, ops, n)
    ensures n in Run(j, ops).outbound && Run(j, ops).outbound[n].wire == j.outbound[n].wire
  {
    assert ops[..|ops|] == ops;
  }

  lemma NowOwned(j: Journal, ops: seq<StoreOp>, n: nat)
    requires n in j.outbound && StoredThroughout(j, ops, n)
    ensures n in Run(j, ops).outbound
    ensures OwnedThroughout(j, ops, n) ==> Owner(Run(j, ops), n) == Owner(j, n)
  {
    assert ops[..|ops|] == ops;
  }

  /** Two requests, the second committed at the same number after a reset, then a mark for the first. */
  function OldEpochMark(wire: Message): seq<StoreOp> {
    [CommitOutbound(OutboundCommit([0x61], [], [], 1, wire)),
     ResetSequences,
     CommitOutbound(OutboundCommit([0x62], [], [], 1, wire)),
     MarkOutboundWritten([0x61], 1)]
  }

  lemma RunOne(j: Journal, op: StoreOp, ops: seq<StoreOp>)
    ensures Run(j, [op] + ops) == Run(After(j, op).0, ops)
  {
    assert ([op] + ops)[1..] == ops;
  }

  /** After a reset a mark for the earlier epoch takes over the row of another request. */
  lemma OldEpochMarkTakesRow(wire: Message)
    ensures var j := Run(EMPTY, OldEpochMark(wire));
            && 1 in j.outbound && j.outbound[1].command.requestId == [0x61]
            && [0x62] in j.commands && j.commands[[0x62]].msgSeqNum == 1
  {
    var ops := OldEpochMark(wire);
    assert ops == [ops[0]] + ([ops[1]] + ([ops[2]] + ([ops[3]] + [])));
    RunOne(EMPTY, ops[0], [ops[1]] + ([ops[2]] + ([ops[3]] + [])));
    var j1 := After(EMPTY, ops[0]).0;
    RunOne(j1, ops[1], [ops[2]] + ([ops[3]] + []));
    var j2 := After(j1, ops[1]).0;
    RunOne(j2, ops[2], [ops[3]] + []);
    var j3 := After(j2, ops[2]).0;
    RunOne(j3, ops[3], []);
    var first: Bytes := [0x61];
    assert first[0] != 0x62;
  }
}
