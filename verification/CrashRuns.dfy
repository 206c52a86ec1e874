// Whole histories: actors that run on one journal one after another, each stopped by a crash between any
// two of its effects.

module CrashRuns {
  import opened Text
  import opened Codec
  import opened Messages
  import opened Store
  import opened StoreTheorems
  import opened Session
  import opened SessionSafety
  import opened SessionInvariant

  /** One actor: its configuration and clock, its inputs, and after how many effects it stops. */
  datatype Life = Life(env: Env, inputs: seq<Input>, cut: nat)

  /** The effects of a life on the journal it starts from. */
  function LifeTrace(j: Journal, life: Life): seq<Effect> {
    var t := Turns(life.env, Start(life.env, j), life.inputs).w.trace;
    if life.cut < |t| then t[..life.cut] else t
  }

  function RunTrace(j: Journal, lives: seq<Life>): seq<Effect>
    decreases |lives|
  {
    if lives == [] then []
    else
      var t := LifeTrace(j, lives[0]);
      t + RunTrace(Fold(j, t), lives[1..])
  }

  /** Every submission finds what the control service guarantees. */
  ghost predicate TurnsAdmissible(env: Env, s: Step, inputs: seq<Input>)
    decreases |inputs|
  {
    inputs == [] || s.error.Some?
    || (Admissible(s.w, inputs[0]) && TurnsAdmissible(env, Turn(env, s.w, inputs[0]), inputs[1..]))
  }

  ghost predicate RunAdmissible(j: Journal, lives: seq<Life>)
    decreases |lives|
  {
    lives == []
    || (TurnsAdmissible(lives[0].env, Start(lives[0].env, j), lives[0].inputs)
        && RunAdmissible(Fold(j, LifeTrace(j, lives[0])), lives[1..]))
  }

  // ----- one life -----

  lemma StartKeeps(env: Env, j: Journal)
    requires Inv(j) && Tidy(j)
    ensures var r := Start(env, j); Kept(j, r.w) && (r.error.None? ==> Good(j, env, r.w))
  {
    hide SendAdmin, Inv, Tidy;
    assert Kept(j, Spawned(j));
    SendLogonKeeps(j, env, Spawned(j));
  }

  /** Whatever an actor lives through, after every turn it agrees with its journal, and unless the turn was
      its last the buffer is in order too. */
  lemma {:induction false} TurnsKeep(j: Journal, env: Env, s: Step, inputs: seq<Input>)
    requires Kept(j, s.w) && (s.error.None? ==> Good(j, env, s.w)) && TurnsAdmissible(env, s, inputs)
    ensures var r := Turns(env, s, inputs); Kept(j, r.w) && (r.error.None? ==> Good(j, env, r.w))
    decreases |inputs|
  {
    hide Kept, Turn, Good;
    if inputs != [] && s.error.None? {
      TurnKeeps(j, env, s.w, inputs[0]);
      TurnsKeep(j, env, Turn(env, s.w, inputs[0]), inputs[1..]);
    }
  }

  // ----- cutting and joining traces -----

  ghost predicate Orderly(j: Journal, t: seq<Effect>) { Safe(j, t) && OpsInOrder(j, t) }

  lemma OrderlyPrefix(j: Journal, t: seq<Effect>, k: nat)
    requires Orderly(j, t) && k <= |t|
    ensures Orderly(j, t[..k])
  {
    hide OpOk, FreshCommit, Carries;
    var p := t[..k];
    forall i | 0 <= i < k && IsFreshWrite(p[i])
      ensures JournaledBefore(j, p, i)
    {
      assert JournaledBefore(j, t, i);
      assert p[..i - 1] == t[..i - 1];
    }
    forall i | 0 <= i < k && p[i].Did?
      ensures OpOk(Fold(j, p[..i]), p[i].op)
    {
      assert p[..i] == t[..i] && t[i] == p[i];
    }
  }

  lemma {:induction false} FoldJoin(j: Journal, a: seq<Effect>, b: seq<Effect>)
    ensures Fold(j, a + b) == Fold(Fold(j, a), b)
    decreases |b|
  {
    if b == [] {
      assert a + b == a;
    } else {
      var last := |b| - 1;
      assert (a + b)[..|a + b| - 1] == a + b[..last];
      FoldJoin(j, a, b[..last]);
    }
  }

  lemma OrderlyJoin(j: Journal, a: seq<Effect>, b: seq<Effect>)
    requires Orderly(j, a) && Orderly(Fold(j, a), b)
    ensures Orderly(j, a + b)
  {
    SafeJoin(j, a, b);
    OpsJoin(j, a, b);
  }

  lemma SafeJoin(j: Journal, a: seq<Effect>, b: seq<Effect>)
    requires Safe(j, a) && Safe(Fold(j, a), b)
    ensures Safe(j, a + b)
  {
    hide JournaledBefore, PossDup, Fold;
    var t := a + b;
    forall i | 0 <= i < |t| && IsFreshWrite(t[i])
      ensures JournaledBefore(j, t, i)
    {
      if i < |a| {
        assert JournaledBefore(j, a, i);
        JournaledExtends(j, a, b, i);
      } else {
        assert JournaledBefore(Fold(j, a), b, i - |a|);
        JournaledAfter(j, a, b, i - |a|);
      }
    }
  }

  lemma JournaledExtends(j: Journal, a: seq<Effect>, b: seq<Effect>, i: nat)
    requires i < |a| && JournaledBefore(j, a, i)
    ensures JournaledBefore(j, a + b, i)
  {
    hide FreshCommit, Carries, Fold;
    assert (a + b)[..i - 1] == a[..i - 1];
  }

  lemma JournaledAfter(j: Journal, a: seq<Effect>, b: seq<Effect>, k: nat)
    requires k < |b| && JournaledBefore(Fold(j, a), b, k)
    ensures JournaledBefore(j, a + b, |a| + k)
  {
    hide FreshCommit, Carries, Fold;
    var t, i := a + b, |a| + k;
    assert t[i] == b[k] && t[i - 1] == b[k - 1];
    assert t[..i - 1] == a + b[..k - 1];
    FoldJoin(j, a, b[..k - 1]);
  }

  lemma OpsJoin(j: Journal, a: seq<Effect>, b: seq<Effect>)
    requires OpsInOrder(j, a) && OpsInOrder(Fold(j, a), b)
    ensures OpsInOrder(j, a + b)
  {
    hide OpOk, Fold;
    var t := a + b;
    forall i | 0 <= i < |t| && t[i].Did?
      ensures OpOk(Fold(j, t[..i]), t[i].op)
    {
      if i < |a| {
        assert t[..i] == a[..i] && t[i] == a[i];
      } else {
        assert t[..i] == a + b[..i - |a|] && t[i] == b[i - |a|];
        FoldJoin(j, a, b[..i - |a|]);
      }
    }
  }

  /** The journal after an orderly trace is in order. */
  lemma {:induction false} OrderlyFold(j: Journal, t: seq<Effect>)
    requires Inv(j) && Tidy(j) && Orderly(j, t)
    ensures Inv(Fold(j, t)) && Tidy(Fold(j, t))
    decreases |t|
  {
    if t != [] {
      var last := |t| - 1;
      OrderlyPrefix(j, t, last);
      OrderlyFold(j, t[..last]);
      if t[last].Did? {
        hide OpOk, Inv, Tidy, After;
        InvStep(Fold(j, t[..last]), t[last].op);
        TidyStep(Fold(j, t[..last]), t[last].op);
      }
    }
  }

  // ----- whole histories -----

  /** Over any history of lives and crashes, every fresh write follows the first commit of what it
      writes, and session keys are used in order. */
  lemma {:induction false} RunOrderly(j: Journal, lives: seq<Life>)
    requires Inv(j) && Tidy(j) && RunAdmissible(j, lives)
    ensures Orderly(j, RunTrace(j, lives))
    decreases |lives|
  {
    hide Inv, Tidy, Safe, OpsInOrder, Turns, Start, TurnsAdmissible;
    if lives == [] {
      NothingOrderly(j);
    } else {
      var life := lives[0];
      StartKeeps(life.env, j);
      TurnsKeep(j, life.env, Start(life.env, j), life.inputs);
      var whole := Turns(life.env, Start(life.env, j), life.inputs).w.trace;
      var t := LifeTrace(j, life);
      if life.cut < |whole| {
        OrderlyPrefix(j, whole, life.cut);
      }
      OrderlyFold(j, t);
      RunOrderly(Fold(j, t), lives[1..]);
      OrderlyJoin(j, t, RunTrace(Fold(j, t), lives[1..]));
    }
  }

  lemma NothingOrderly(j: Journal)
    ensures Orderly(j, [])
  {
  }

  // ----- consequences for an orderly trace -----

  /** No reset of the sequence numbers between two points of a trace. */
  ghost predicate SameEpoch(t: seq<Effect>, from: nat, to: nat)
    requires from <= to <= |t|
  {
    forall i | from <= i < to :: t[i] != Did(ResetSequences)
  }

  lemma {:induction false} NextOutGrows(j: Journal, t: seq<Effect>)
    requires SameEpoch(t, 0, |t|)
    ensures Fold(j, t).nextOut >= j.nextOut
    decreases |t|
  {
    if t != [] {
      NextOutGrows(j, t[..|t| - 1]);
      StepNextOutGrows(Fold(j, t[..|t| - 1]), t[|t| - 1]);
    }
  }

  lemma StepNextOutGrows(j: Journal, e: Effect)
    requires e != Did(ResetSequences)
    ensures AfterEffect(j, e).nextOut >= j.nextOut
  {
    match e
    case Write(_) =>
    case Did(op) => OpNextOutGrows(j, op);
  }

  lemma OpNextOutGrows(j: Journal, op: StoreOp)
    requires op != ResetSequences
    ensures After(j, op).0.nextOut >= j.nextOut
  {
    match op
    case CommitOutbound(c) =>
    case MarkOutboundWritten(id, n) =>
    case CommitTransmission(n, kind, wire) =>
    case MarkTransmissionWritten(id) =>
    case CommitInbound(c) =>
    case ResyncInbound(n, event) =>
  }

  lemma {:induction false} FoldKeepsCommands(j: Journal, t: seq<Effect>)
    requires Inv(j)
    ensures CommandsKept(j, Fold(j, t)) && Inv(Fold(j, t))
    decreases |t|
  {
    hide Inv, After, CommandsKept;
    if t == [] {
      CommandsKeptAtOnce(j);
    } else {
      var before := Fold(j, t[..|t| - 1]);
      FoldKeepsCommands(j, t[..|t| - 1]);
      match t[|t| - 1]
      case Write(_) =>
      case Did(op) =>
        InvStep(before, op);
        InvGivesOutbound(before);
        CommandsKeptStep(before, op);
        CommandsKeptTransitive(j, before, Fold(j, t));
    }
  }

  lemma CommandsKeptAtOnce(j: Journal)
    ensures CommandsKept(j, j)
  {
  }

  lemma InvGivesOutbound(j: Journal)
    requires Inv(j)
    ensures OutboundInv(j)
  {
  }

  /** What the commit that precedes a fresh write leaves behind. */
  lemma WriteIsJournaled(j: Journal, t: seq<Effect>, i: nat)
    requires i < |t| && IsFreshWrite(t[i]) && JournaledBefore(j, t, i)
    ensures var c := t[i - 1].op.outbound;
            var at := Fold(j, t[..i]);
            && First(t[i].wire.fields, 34) == Some(Dec(c.msgSeqNum))
            && at.nextOut == c.msgSeqNum + 1 && c.requestId in at.commands
            && c.msgSeqNum in at.outbound && at.outbound[c.msgSeqNum].command.requestId == c.requestId
            && RedactionOf(at.outbound[c.msgSeqNum].wire, t[i].wire)
  {
    hide First, RedactionOf, PossDup;
    assert t[..i][..i - 1] == t[..i - 1];
    assert t[..i] == t[..i - 1] + [t[i - 1]];
    FoldAppendOne(j, t[..i - 1], t[i - 1]);
    FreshCommitAccepted(Fold(j, t[..i - 1]), t[i - 1].op.outbound);
  }

  lemma SameEpochSlice(t: seq<Effect>, from: nat, to: nat)
    requires from <= to <= |t| && SameEpoch(t, from, to)
    ensures SameEpoch(t[from..to], 0, to - from)
  {
  }

  /** The journal between two points. */
  lemma FoldBetween(j: Journal, t: seq<Effect>, i: nat, k: nat)
    requires i <= k <= |t|
    ensures Fold(j, t[..k]) == Fold(Fold(j, t[..i]), t[i..k])
  {
    assert t[..k] == t[..i] + t[i..k];
    FoldJoin(j, t[..i], t[i..k]);
  }

  /** Within an epoch, fresh writes carry strictly increasing numbers; no number is used twice. */
  lemma FreshWritesIncrease(j: Journal, t: seq<Effect>, i: nat, k: nat)
    requires Inv(j) && Safe(j, t)
    requires i < k < |t| && IsFreshWrite(t[i]) && IsFreshWrite(t[k]) && SameEpoch(t, i, k)
    ensures JournaledBefore(j, t, i) && JournaledBefore(j, t, k)
    ensures t[i - 1].op.outbound.msgSeqNum < t[k - 1].op.outbound.msgSeqNum
    ensures First(t[i].wire.fields, 34) != First(t[k].wire.fields, 34)
  {
    hide Inv, PossDup, First, RedactionOf, Fold;
    assert JournaledBefore(j, t, i) && JournaledBefore(j, t, k);
    WriteIsJournaled(j, t, i);
    WriteIsJournaled(j, t, k);
    assert t[i].Write? && t[k - 1].Did?;
    FoldBetween(j, t, i, k - 1);
    SameEpochSlice(t, i, k - 1);
    NextOutGrows(Fold(j, t[..i]), t[i..k - 1]);
    var a, b := t[i - 1].op.outbound.msgSeqNum, t[k - 1].op.outbound.msgSeqNum;
    if Dec(a) == Dec(b) {
      DecInjective(a, b);
    }
  }

  /** No request is written afresh twice, in whatever epochs. */
  lemma RequestWrittenOnce(j: Journal, t: seq<Effect>, i: nat, k: nat)
    requires Inv(j) && Safe(j, t)
    requires i < k < |t| && IsFreshWrite(t[i]) && IsFreshWrite(t[k])
    ensures JournaledBefore(j, t, i) && JournaledBefore(j, t, k)
    ensures t[i - 1].op.outbound.requestId != t[k - 1].op.outbound.requestId
  {
    hide Inv, PossDup, First, RedactionOf, Fold;
    assert JournaledBefore(j, t, i) && JournaledBefore(j, t, k);
    WriteIsJournaled(j, t, i);
    assert t[i].Write? && t[k - 1].Did?;
    FoldBetween(j, t, i, k - 1);
    FoldKeepsCommands(j, t[..i]);
    FoldKeepsCommands(Fold(j, t[..i]), t[i..k - 1]);
  }

  /** A commit under a session key finds it unused, across resets, restarts and kinds of message, so the
      session's own sends never meet a stored record. */
  lemma SessionKeyUnused(j: Journal, t: seq<Effect>, i: nat, kind: Bytes, o: nat, e: nat)
    requires Inv(j) && Tidy(j) && Orderly(j, t) && i < |t|
    requires t[i].Did? && t[i].op.CommitOutbound? && t[i].op.outbound.requestId == Key(kind, o, e)
    ensures Key(kind, o, e) !in Fold(j, t[..i]).commands
  {
    hide Inv, Safe, Key, Fold;
    OrderlyPrefix(j, t, i);
    OrderlyFold(j, t[..i]);
    assert OpOk(Fold(j, t[..i]), t[i].op);
  }

  // ----- the theorem for a fresh database -----

  /** The write at `i` was journaled just before under its number, no later fresh write repeats its
      request, and until the next reset every later one carries a higher number. */
  ghost predicate Sequenced(j: Journal, t: seq<Effect>, i: nat)
    requires i < |t|
  {
    && JournaledBefore(j, t, i)
    && forall k | i < k < |t| && IsFreshWrite(t[k]) ::
      && JournaledBefore(j, t, k)
      && t[i - 1].op.outbound.requestId != t[k - 1].op.outbound.requestId
      && (SameEpoch(t, i, k) ==> t[i - 1].op.outbound.msgSeqNum < t[k - 1].op.outbound.msgSeqNum)
  }

  lemma SafeIsSequenced(j: Journal, t: seq<Effect>, i: nat)
    requires Inv(j) && Safe(j, t) && i < |t| && IsFreshWrite(t[i])
    ensures Sequenced(j, t, i)
  {
    hide Fold, PossDup, Inv, FreshCommit, Carries, Safe;
    SafeAt(j, t, i);
    forall k | i < k < |t| && IsFreshWrite(t[k])
      ensures JournaledBefore(j, t, k)
      ensures t[i - 1].op.outbound.requestId != t[k - 1].op.outbound.requestId
      ensures SameEpoch(t, i, k) ==> t[i - 1].op.outbound.msgSeqNum < t[k - 1].op.outbound.msgSeqNum
    {
      RequestWrittenOnce(j, t, i, k);
      if SameEpoch(t, i, k) {
        FreshWritesIncrease(j, t, i, k);
      }
    }
  }

  lemma SafeAt(j: Journal, t: seq<Effect>, i: nat)
    requires Safe(j, t) && i < |t| && IsFreshWrite(t[i])
    ensures JournaledBefore(j, t, i)
  {
  }

  /** Whatever the configurations, clocks, inputs and crashes of a history on a fresh database, every
      fresh write is sequenced. */
  lemma CrashSafeSequencing(lives: seq<Life>, i: nat)
    requires RunAdmissible(EMPTY, lives)
    requires i < |RunTrace(EMPTY, lives)| && IsFreshWrite(RunTrace(EMPTY, lives)[i])
    ensures Sequenced(EMPTY, RunTrace(EMPTY, lives), i)
  {
    hide Safe, OpsInOrder, Sequenced, PossDup, RunTrace, RunAdmissible, Inv, Tidy;
    EmptyInOrder();
    RunOrderly(EMPTY, lives);
    SafeIsSequenced(EMPTY, RunTrace(EMPTY, lives), i);
  }

  /** The transmission that precedes a replay is in the journal as it is written, under the newest id. */
  lemma TransmissionIsJournaled(j: Journal, t: seq<Effect>, i: nat)
    requires i < |t| && TransmittedBefore(t, i)
    ensures var at := Fold(j, t[..i]);
            var id := at.nextTransmission - 1;
            id >= 0 && id in at.transmissions && at.transmissions[id].wire == t[i].wire
  {
    assert t[..i] == t[..i - 1] + [t[i - 1]];
    FoldAppendOne(j, t[..i - 1], t[i - 1]);
  }

  /** Over any such history, whatever is written is journaled just before it: exactly the possible duplicates
      as transmissions of the same message, exactly the rest as first commits of what they carry. */
  lemma EveryWriteJournaled(lives: seq<Life>, i: nat)
    requires RunAdmissible(EMPTY, lives)
    requires i < |RunTrace(EMPTY, lives)| && RunTrace(EMPTY, lives)[i].Write?
    ensures var t := RunTrace(EMPTY, lives);
            var at := Fold(EMPTY, t[..i]);
            && (PossDup(t[i].wire) <==> TransmittedBefore(t, i))
            && (!PossDup(t[i].wire) <==> JournaledBefore(EMPTY, t, i))
            && (PossDup(t[i].wire) ==>
                  exists id :: id in at.transmissions && at.transmissions[id].wire == t[i].wire)
  {
    hide Safe, OpsInOrder, PossDup, RunTrace, RunAdmissible, Inv, Tidy, Fold, FreshCommit, Carries;
    EmptyInOrder();
    RunOrderly(EMPTY, lives);
    var t := RunTrace(EMPTY, lives);
    VouchedAt(EMPTY, t, i);
    if PossDup(t[i].wire) {
      TransmissionIsJournaled(EMPTY, t, i);
    }
  }

  lemma VouchedAt(j: Journal, t: seq<Effect>, i: nat)
    requires Safe(j, t) && i < |t| && t[i].Write?
    ensures Vouched(j, t, i)
  {
  }

  lemma EmptyInOrder()
    ensures Inv(EMPTY) && Tidy(EMPTY)
  {
    EmptyInv();
  }

  // ----- the submission that is not safe -----

  /** A submission that meets a stored record of its own at the next number writes a message that is not
      journaled in this epoch: the journal is left as it was, so the number will be used again. */
  lemma StaleSubmissionUnsafe(j: Journal, env: Env, w: World, req: ApplicationRequest)
    requires Kept(j, w) && w.actor.phase == Established && StaleAtNext(w.journal, req)
    requires ApplicationFields(env, w, req).Some?
    requires Refusal(env.config.beginString, ApplicationFields(env, w, req).value).None?
    ensures var wire := Message(env.config.beginString, ApplicationFields(env, w, req).value);
            var (after, reply) := Submit(env, w, req);
            && after.journal == w.journal && reply == Err(StoreFailed(UnknownCommand(req.requestId)))
            && |after.trace| == |w.trace| + 3 && after.trace[|w.trace| + 1] == Write(wire)
            && First(wire.fields, 34) == Some(Dec(w.journal.nextOut))
            && (!PossDup(wire) ==> !Safe(j, after.trace))
  {
    hide ApplicationFields, Refusal, First, PossDup, Inv, Fold, Tidy, OpsInOrder;
    ApplicationNumber(env, w, req);
    NothingAtNext(w.journal);
    var (after, reply) := Submit(env, w, req);
    var at := |w.trace| + 1;
    assert after.trace[..at - 1] == w.trace;
  }

  lemma NothingAtNext(j: Journal)
    requires Inv(j)
    ensures j.nextOut !in j.outbound
  {
  }

  /** A submission is safe exactly when it does not meet such a record. */
  lemma SubmissionSafety(j: Journal, env: Env, w: World, req: ApplicationRequest)
    requires Kept(j, w) && w.actor.phase == Established && AgentId(req.requestId)
    requires ApplicationFields(env, w, req).Some?
    requires Refusal(env.config.beginString, ApplicationFields(env, w, req).value).None?
    ensures Safe(j, Submit(env, w, req).0.trace) <==> !StaleAtNext(w.journal, req)
  {
    hide ApplicationFields, Refusal, Submit, Safe, AgentId, PossDup, Fold;
    if StaleAtNext(w.journal, req) {
      StaleSubmissionUnsafe(j, env, w, req);
      ApplicationIsFresh(env, w, req);
    } else {
      SubmitKeeps(j, env, w, req);
    }
  }

  /** Tag 43 is managed, so no application message looks like a possible duplicate. */
  lemma ApplicationIsFresh(env: Env, w: World, req: ApplicationRequest)
    requires ApplicationFields(env, w, req).Some?
    ensures !PossDup(Message(env.config.beginString, ApplicationFields(env, w, req).value))
  {
    var fields := ApplicationFields(env, w, req).value;
    var split := if NeedsOrigClOrdId(req.msgType) then 1 else 0;
    TransactTimeTags(env, req.fields[split..], NeedsTransactTime(req.msgType), w.ticks + 1);
    forall f | f in fields
      ensures f.tag != 43
    {
      assert f in req.fields ==> f.tag !in MANAGED_TAGS;
    }
    ValuesAbsent(fields, 43);
  }
}
