// Messages that arrive out of order are journaled in order.

module Arrival {
  import opened Text
  import opened Codec
  import opened Messages
  import opened Store
  import opened StoreTheorems
  import opened Session
  import opened SessionSafety
  import opened SessionInvariant
  import opened Takes

  /** Messages by their numbers, `first` up to but not including `end`, and the inbound rows before any of
      them arrived. */
  datatype Batch = Batch(first: nat, end: nat, messages: map<nat, Message>, before: map<nat, InboundRecord>)

  ghost predicate TakeableBatch(config: Config, j: Journal, b: Batch) {
    && b.first <= b.end && (forall n: nat :: n in b.messages <==> b.first <= n < b.end)
    && forall n | n in b.messages :: Takeable(config, j, b.messages[n], n)
  }

  lemma BatchLater(config: Config, a: Journal, c: Journal, b: Batch)
    requires OutboundInv(a) && OutboundGrown(a, c) && TakeableBatch(config, a, b)
    ensures TakeableBatch(config, c, b)
  {
    hide Takeable, OutboundInv, OutboundGrown;
    forall n | n in b.messages
      ensures Takeable(config, c, b.messages[n], n)
    {
      TakeableLater(config, a, c, b.messages[n], n);
    }
  }

  lemma KeptOutbound(j: Journal, w: World)
    requires Kept(j, w)
    ensures OutboundInv(w.journal)
  {
    hide Safe, OpsInOrder, Tidy, TransmissionInv, InboundInv;
  }

  /** The rows below `next` hold the batch, and no other row has changed. */
  ghost predicate RowsUpTo(b: Batch, inbound: map<nat, InboundRecord>, next: nat) {
    && b.first <= next <= b.end
    && (forall n | n in b.messages && n < next ::
          n in inbound && inbound[n].wire == b.messages[n] && inbound[n].msgSeqNum == n)
    && (forall n: nat | !(b.first <= n < next) ::
          (n in inbound <==> n in b.before) && (n in inbound ==> inbound[n] == b.before[n]))
  }

  /** What has arrived is journaled or buffered, and nothing else is. */
  ghost predicate Filed(b: Batch, arrived: set<nat>, w: World) {
    && RowsUpTo(b, w.journal.inbound, w.actor.nextIn)
    && arrived <= b.messages.Keys
    && (forall n | n in b.messages && n < w.actor.nextIn :: n in arrived)
    && (forall n | n in w.actor.gap :: n in arrived && w.actor.gap[n] == b.messages[n])
    && (forall n | n in arrived :: n < w.actor.nextIn || n in w.actor.gap)
  }

  /** `next_in` is the least number that has not arrived, and the buffer is what has arrived above it. The phase
      says whether something is buffered; before anything was it may be the one it was in the beginning. */
  ghost predicate InStep(b: Batch, arrived: set<nat>, w: World, origin: Phase) {
    && Filed(b, arrived, w)
    && w.actor.nextIn !in arrived
    && (forall n: nat :: n in w.actor.gap <==> n in arrived && n > w.actor.nextIn)
    && (if w.actor.gap == map[] then w.actor.phase in {origin, Established} else w.actor.phase == Recovering)
  }

  // ----- one message at its turn -----

  /** Journaling the message whose turn it is keeps everything filed; `w` is the world in which that
      message has just been taken from the buffer or has just arrived. */
  lemma TurnFiled(j: Journal, env: Env, w: World, b: Batch, arrived: set<nat>)
    requires Kept(j, w) && ConfigOk(env.config) && TakeableBatch(env.config, w.journal, b)
    requires w.actor.nextIn in arrived && w.actor.nextIn in b.messages && w.actor.nextIn !in w.actor.gap
    requires Filed(b, arrived - {w.actor.nextIn}, w)
    ensures var r := CommitExpected(env, w, b.messages[w.actor.nextIn]);
            && Kept(j, r.w) && r.error.None? && Filed(b, arrived, r.w) && TakeableBatch(env.config, r.w.journal, b)
            && r.w.actor.phase == PhaseAfter(w.actor.phase, b.messages[w.actor.nextIn])
  {
    hide Kept, CommitExpected, Takeable, NumberAt, EnvelopeFault, RowsUpTo, OutboundInv, OutboundGrown, PhaseAfter,
         TakeableBatch;
    var n := w.actor.nextIn;
    var m := b.messages[n];
    BatchAt(env.config, w.journal, b, n);
    TakeableCommitted(j, env, w, m);
    KeptOutbound(j, w);
    var r := CommitExpected(env, w, m);
    BatchLater(env.config, w.journal, r.w.journal, b);
    RowsGrow(b, w.journal.inbound, r.w.journal.inbound, n);
    FiledAfterCommit(b, arrived, w, r.w);
  }

  lemma FiledAfterCommit(b: Batch, arrived: set<nat>, w: World, after: World)
    requires w.actor.nextIn in arrived && w.actor.nextIn in b.messages
    requires Filed(b, arrived - {w.actor.nextIn}, w)
    requires after.actor.nextIn == w.actor.nextIn + 1 && after.actor.gap == w.actor.gap
    requires RowsUpTo(b, after.journal.inbound, after.actor.nextIn)
    ensures Filed(b, arrived, after)
  {
    hide RowsUpTo;
    var n := w.actor.nextIn;
    assert forall k | k in arrived && k != n :: k in arrived - {n};
    assert forall k | k in b.messages && k < n :: k in arrived - {n};
  }

  lemma RowsGrow(b: Batch, old_: map<nat, InboundRecord>, new_: map<nat, InboundRecord>, n: nat)
    requires RowsUpTo(b, old_, n) && n in b.messages && n < b.end
    requires n in new_ && new_[n].wire == b.messages[n] && new_[n].msgSeqNum == n
    requires new_ - {n} == old_ - {n}
    ensures RowsUpTo(b, new_, n + 1)
  {
    forall k: nat | k != n
      ensures (k in new_ <==> k in old_) && (k in new_ ==> new_[k] == old_[k])
    {
      assert k in new_ <==> k in new_ - {n};
      assert k in old_ <==> k in old_ - {n};
      if k in new_ {
        assert new_[k] == (new_ - {n})[k] && old_[k] == (old_ - {n})[k];
      }
    }
  }

  // ----- draining -----

  lemma {:induction false} DrainFiles(j: Journal, env: Env, w: World, b: Batch, arrived: set<nat>)
    requires Kept(j, w) && ConfigOk(env.config) && TakeableBatch(env.config, w.journal, b) && Filed(b, arrived, w)
    ensures var r := Drain(env, w);
            && Kept(j, r.w) && r.error.None? && Filed(b, arrived, r.w) && TakeableBatch(env.config, r.w.journal, b)
            && (w.actor.phase == Recovering ==> r.w.actor.phase == Recovering)
    decreases |w.actor.gap|
  {
    hide Kept, CommitExpected, TakeableBatch, EnvelopeFault, Taken, RowsUpTo, NumberAt, Takeable;
    var n := w.actor.nextIn;
    if n !in w.actor.gap {
      StillAheadFiled(j, b, arrived, w);
    } else {
      HeldIsBatch(b, arrived, w, n);
      BatchAt(env.config, w.journal, b, n);
      TakenFiled(j, b, arrived, w);
      hide Filed;
      TurnFiled(j, env, Taken(w), b, arrived);
      DrainFiles(j, env, CommitExpected(env, Taken(w), b.messages[n]).w, b, arrived);
    }
  }

  lemma HeldIsBatch(b: Batch, arrived: set<nat>, w: World, n: nat)
    requires Filed(b, arrived, w) && n in w.actor.gap
    ensures n in arrived && n in b.messages && w.actor.gap[n] == b.messages[n]
  {
    hide RowsUpTo;
  }

  lemma BatchAt(config: Config, j: Journal, b: Batch, n: nat)
    requires TakeableBatch(config, j, b) && n in b.messages
    ensures EnvelopeFault(config, b.messages[n]).None? && NumberAt(b.messages[n], 34) == Some(n)
    ensures Takeable(config, j, b.messages[n], n) && n < b.end
  {
    assert Takeable(config, j, b.messages[n], n);
  }

  lemma StillAheadFiled(j: Journal, b: Batch, arrived: set<nat>, w: World)
    requires Kept(j, w) && Filed(b, arrived, w)
    ensures var after := w.(actor := w.actor.(gap := StillAhead(w.actor.gap, w.actor.nextIn)));
            Kept(j, after) && Filed(b, arrived, after)
  {
    hide Traced, RowsUpTo;
    var kept := StillAhead(w.actor.gap, w.actor.nextIn);
    assert forall n | n in arrived :: n < w.actor.nextIn || n in kept;
  }

  lemma TakenFiled(j: Journal, b: Batch, arrived: set<nat>, w: World)
    requires Kept(j, w) && Filed(b, arrived, w) && w.actor.nextIn in w.actor.gap
    ensures && Kept(j, Taken(w)) && Taken(w).actor.nextIn == w.actor.nextIn && Taken(w).actor.phase == w.actor.phase
            && Taken(w).journal == w.journal
            && w.actor.nextIn !in Taken(w).actor.gap && w.actor.nextIn in arrived
            && Filed(b, arrived - {w.actor.nextIn}, Taken(w))
  {
    hide Traced, RowsUpTo;
    var n := w.actor.nextIn;
    var kept := StillAhead(w.actor.gap, n);
    var rest := Without(kept, n);
    assert Taken(w).actor.gap == rest;
    assert forall k | k in arrived && k != n :: k < n || k in rest;
    assert forall k | k in rest :: k in kept && k in w.actor.gap;
  }

  // ----- one arrival -----

  lemma ResendRequestAccepted(env: Env, w: World, begin: nat)
    requires ConfigOk(env.config)
    ensures Refusal(env.config.beginString,
                    Header(env.config, RESEND_REQUEST, w.actor.nextOut, env.clock(w.ticks))
                    + [Field(7, Dec(begin)), Field(16, ALL_FOLLOWING)]).None?
  {
    var fields := Header(env.config, RESEND_REQUEST, w.actor.nextOut, env.clock(w.ticks))
                  + [Field(7, Dec(begin)), Field(16, ALL_FOLLOWING)];
    assert fields[0].tag == 35;
    assert RefusedField(fields).None?;
  }

  /** A well-configured session can always ask for a resend. */
  lemma ResendRequestSent(j: Journal, env: Env, w: World, begin: nat)
    requires Kept(j, w) && ConfigOk(env.config)
    ensures SendResendRequest(env, w, begin).error.None?
  {
    ResendRequestAccepted(env, w, begin);
    SendAdminKeeps(j, env, w, KIND_RESEND, RESEND_REQUEST, [Field(7, Dec(begin)), Field(16, ALL_FOLLOWING)],
                   ADMIN_PREFIX + RESEND_REQUEST + [COLON] + Dec(w.actor.nextOut) + [COLON] + Dec(begin));
  }

  lemma ResendGrown(j: Journal, env: Env, w: World, begin: nat)
    requires Kept(j, w)
    ensures OutboundGrown(w.journal, SendResendRequest(env, w, begin).w.journal)
  {
    hide Kept, SendAdmin, OutboundGrown, Dec;
    AdminGrown(j, env, w, KIND_RESEND, RESEND_REQUEST, [Field(7, Dec(begin)), Field(16, ALL_FOLLOWING)],
               ADMIN_PREFIX + RESEND_REQUEST + [COLON] + Dec(w.actor.nextOut) + [COLON] + Dec(begin));
  }

  lemma ArriveAhead(j: Journal, env: Env, w: World, b: Batch, arrived: set<nat>, n: nat, origin: Phase)
    requires Good(j, env, w) && ConfigOk(env.config) && TakeableBatch(env.config, w.journal, b)
    requires b.end - b.first <= GAP_LIMIT + 1 && origin != Recovering
    requires InStep(b, arrived, w, origin) && n in b.messages && n !in arrived && n > w.actor.nextIn
    ensures var r := Buffer(env, w, b.messages[n], n);
            && r.error.None? && InStep(b, arrived + {n}, r.w, origin) && n in r.w.actor.gap
            && TakeableBatch(env.config, r.w.journal, b)
  {
    hide Kept, SendResendRequest, RowsUpTo, GapGood, Settled, TakeableBatch, OutboundGrown, OutboundInv;
    RoomInBuffer(env.config, b, arrived, w, n, origin);
    var gap := w.actor.gap[n := b.messages[n]];
    var buffered := w.(actor := w.actor.(gap := gap));
    SameKept(j, w, buffered);
    ResendRequestSent(j, env, buffered, w.actor.nextIn);
    ResendGrown(j, env, buffered, w.actor.nextIn);
    KeptOutbound(j, w);
    BufferJournal(env, w, b.messages[n], n);
    if w.actor.phase != Recovering {
      BatchLater(env.config, w.journal, SendResendRequest(env, buffered, w.actor.nextIn).w.journal, b);
    }
    assert n in gap;
  }

  /** What buffering does to the journal. */
  lemma BufferJournal(env: Env, w: World, m: Message, n: nat)
    requires |w.actor.gap| < GAP_LIMIT && n !in w.actor.gap
    ensures var buffered := w.(actor := w.actor.(gap := w.actor.gap[n := m]));
            Buffer(env, w, m, n).w.journal ==
            if w.actor.phase == Recovering then w.journal
            else SendResendRequest(env, buffered, w.actor.nextIn).w.journal
  {
    hide SendResendRequest;
  }

  lemma SameKept(j: Journal, a: World, b: World)
    requires Kept(j, a) && b == a.(actor := a.actor.(gap := b.actor.gap))
    ensures Kept(j, b)
  {
  }

  /** The numbers from `first` up to but not including `end`. */
  function Interval(first: nat, end: nat): (s: set<nat>)
    requires first <= end
    ensures |s| == end - first
    ensures forall n: nat :: n in s <==> first <= n < end
    decreases end - first
  {
    if first == end then {} else {first} + Interval(first + 1, end)
  }

  lemma RoomInBuffer(config: Config, b: Batch, arrived: set<nat>, w: World, n: nat, origin: Phase)
    requires TakeableBatch(config, w.journal, b) && b.end - b.first <= GAP_LIMIT + 1
    requires InStep(b, arrived, w, origin) && n in b.messages && n !in arrived && n > w.actor.nextIn
    ensures |w.actor.gap| < GAP_LIMIT && n !in w.actor.gap
  {
    hide InStep, TakeableBatch, Interval;
    HeldInside(config, b, arrived, w, n, origin);
    var all, held := Interval(b.first, b.end), w.actor.gap.Keys;
    assert |held| == |w.actor.gap|;
    SubsetSize(held + {n, w.actor.nextIn}, all);
    TwoMore(held, n, w.actor.nextIn);
  }

  lemma TwoMore(held: set<nat>, a: nat, b: nat)
    requires a !in held && b !in held && a != b
    ensures |held + {a, b}| == |held| + 2
  {
    assert held + {a, b} == held + {a} + {b};
  }

  /** The buffer, the number at its turn and the one that arrives are three different parts of the batch. */
  lemma HeldInside(config: Config, b: Batch, arrived: set<nat>, w: World, n: nat, origin: Phase)
    requires TakeableBatch(config, w.journal, b) && InStep(b, arrived, w, origin)
    requires n in b.messages && n !in arrived && n > w.actor.nextIn
    ensures n !in w.actor.gap && w.actor.nextIn !in w.actor.gap && b.first <= b.end
    ensures w.actor.gap.Keys + {n, w.actor.nextIn} <= Interval(b.first, b.end)
  {
    hide RowsUpTo, Takeable, Interval;
    RowsBound(b, w.journal.inbound, w.actor.nextIn);
  }

  lemma RowsBound(b: Batch, inbound: map<nat, InboundRecord>, next: nat)
    requires RowsUpTo(b, inbound, next)
    ensures b.first <= next <= b.end
  {
  }

  lemma ArriveInTurn(j: Journal, env: Env, w: World, b: Batch, arrived: set<nat>, n: nat, origin: Phase)
    requires Good(j, env, w) && ConfigOk(env.config) && TakeableBatch(env.config, w.journal, b) && origin != Recovering
    requires InStep(b, arrived, w, origin) && n in b.messages && n == w.actor.nextIn
    ensures var r := Advance(env, w, b.messages[n]);
            && r.error.None? && InStep(b, arrived + {n}, r.w, origin) && TakeableBatch(env.config, r.w.journal, b)
            && (w.actor.gap == map[] ==> r.w.actor.gap == map[] && r.w.actor.nextIn == n + 1)
  {
    hide Kept, CommitExpected, Drain, TakeableBatch, Filed, GapGood, NumberAt, EnvelopeFault, Advance, Takeable;
    var m, arrived' := b.messages[n], arrived + {n};
    assert arrived' - {n} == arrived;
    BatchAt(env.config, w.journal, b, n);
    TurnFiled(j, env, w, b, arrived');
    TakeableCommitted(j, env, w, m);
    var r := CommitExpected(env, w, m);
    DrainFiles(j, env, r.w, b, arrived');
    AdvanceOutcome(env, w, m);
    AdvanceKeeps(j, env, w, m);
    if w.actor.gap == map[] {
      DrainEmpty(env, r.w);
    }
    FiledAnyPhase(b, arrived', Drain(env, r.w).w, Advance(env, w, m).w);
    InStepAgain(b, arrived', Advance(env, w, m).w, origin);
  }

  lemma DrainEmpty(env: Env, w: World)
    requires w.actor.gap == map[]
    ensures Drain(env, w) == Step(w, None)
  {
    var kept := StillAhead(w.actor.gap, w.actor.nextIn);
    assert kept == map[];
  }

  lemma AdvanceOutcome(env: Env, w: World, m: Message)
    requires var r := CommitExpected(env, w, m); r.error.None? && Drain(env, r.w).error.None?
    ensures var drained := Drain(env, CommitExpected(env, w, m).w).w;
            var r := Advance(env, w, m);
            && r.error.None? && r.w.journal == drained.journal
            && r.w.actor == drained.actor.(phase := r.w.actor.phase)
            && r.w.actor.phase == if drained.actor.phase == Recovering && drained.actor.gap == map[] then Established
                                  else drained.actor.phase
  {
    hide CommitExpected, Drain;
  }

  lemma FiledAnyPhase(b: Batch, arrived: set<nat>, w: World, after: World)
    requires Filed(b, arrived, w) && after.journal == w.journal
    requires after.actor == w.actor.(phase := after.actor.phase)
    ensures Filed(b, arrived, after)
  {
    hide RowsUpTo;
  }

  lemma InStepAgain(b: Batch, arrived: set<nat>, w: World, origin: Phase)
    requires Filed(b, arrived, w) && Settled(w.actor)
    requires if w.actor.gap == map[] then w.actor.phase in {origin, Established} else w.actor.phase == Recovering
    ensures InStep(b, arrived, w, origin)
  {
    hide RowsUpTo;
  }

  /** One message of the batch arrives. */
  lemma Arrive(j: Journal, env: Env, w: World, b: Batch, arrived: set<nat>, n: nat, origin: Phase)
    requires Good(j, env, w) && ConfigOk(env.config) && TakeableBatch(env.config, w.journal, b)
    requires b.end - b.first <= GAP_LIMIT + 1 && origin != Recovering
    requires InStep(b, arrived, w, origin) && n in b.messages && n !in arrived
    ensures var r := Handle(env, w, b.messages[n]);
            && r.error.None? && Good(j, env, r.w) && TakeableBatch(env.config, r.w.journal, b)
            && InStep(b, arrived + {n}, r.w, origin)
            && (n > w.actor.nextIn ==> n in r.w.actor.gap)
            && (n == w.actor.nextIn && w.actor.gap == map[] ==> r.w.actor.gap == map[] && r.w.actor.nextIn == n + 1)
            && n >= w.actor.nextIn
  {
    BatchAt(env.config, w.journal, b, n);
    assert n >= w.actor.nextIn;
    HandleKeeps(j, env, w, b.messages[n]);
    if n > w.actor.nextIn {
      ArriveAhead(j, env, w, b, arrived, n, origin);
    } else {
      ArriveInTurn(j, env, w, b, arrived, n, origin);
    }
    hide Kept, Settled, GapGood, InStep, EnvelopeFault, NumberAt, Buffer, Advance, TakeableBatch;
  }

  // ----- any order -----

  /** The messages with these numbers, handled one after another until an error. */
  function Feed(env: Env, s: Step, messages: map<nat, Message>, order: seq<nat>): Step
    requires forall n | n in order :: n in messages
    decreases |order|
  {
    if order == [] || s.error.Some? then s
    else Feed(env, Handle(env, s.w, messages[order[0]]), messages, order[1..])
  }

  ghost predicate Distinct(order: seq<nat>) { forall i, k | 0 <= i < k < |order| :: order[i] != order[k] }

  ghost function Members(order: seq<nat>): set<nat> { set n | n in order }

  lemma {:induction false} FeedInStep(
      j: Journal, env: Env, s: Step, b: Batch, arrived: set<nat>, order: seq<nat>, origin: Phase)
    requires Good(j, env, s.w) && s.error.None? && ConfigOk(env.config)
    requires TakeableBatch(env.config, s.w.journal, b) && b.end - b.first <= GAP_LIMIT + 1
    requires InStep(b, arrived, s.w, origin) && origin != Recovering
    requires Distinct(order) && Members(order) <= b.messages.Keys && Members(order) !! arrived
    ensures var r := Feed(env, s, b.messages, order);
            && r.error.None? && Good(j, env, r.w) && InStep(b, arrived + Members(order), r.w, origin)
            && TakeableBatch(env.config, r.w.journal, b)
    decreases |order|
  {
    hide Good, InStep, TakeableBatch, Handle;
    if order == [] {
      assert arrived + Members(order) == arrived;
    } else {
      var n, later := order[0], order[1..];
      assert n in order && n in Members(order);
      Arrive(j, env, s.w, b, arrived, n, origin);
      assert Members(later) <= Members(order) && n !in later;
      assert Members(order) == {n} + Members(later);
      FeedInStep(j, env, Handle(env, s.w, b.messages[n]), b, arrived + {n}, later, origin);
      assert arrived + {n} + Members(later) == arrived + Members(order);
    }
  }

  /** With nothing buffered, from whatever phase but Recovering: at most 1025 messages `next_in`, `next_in` + 1, ...
      in any order, once each, end up journaled under their numbers, in the same session state as if they had
      come in order; and after any part of them `next_in` is the least number that has not arrived and the
      buffer holds exactly what has arrived above it. */
  lemma ArrivalOrderIndependence(j: Journal, env: Env, w: World, b: Batch, order: seq<nat>)
    requires Good(j, env, w) && ConfigOk(env.config) && w.actor.gap == map[] && w.actor.phase != Recovering
    requires TakeableBatch(env.config, w.journal, b) && b.end - b.first <= GAP_LIMIT + 1
    requires b.first == w.actor.nextIn && b.before == w.journal.inbound
    requires Distinct(order) && Members(order) <= b.messages.Keys
    ensures var r := Feed(env, Step(w, None), b.messages, order);
            && r.error.None? && Good(j, env, r.w) && InStep(b, Members(order), r.w, w.actor.phase)
            && (Members(order) == b.messages.Keys ==>
                && r.w.actor.nextIn == b.end && r.w.actor.gap == map[]
                && r.w.actor.phase in {w.actor.phase, Established} && RowsUpTo(b, r.w.journal.inbound, b.end))
  {
    hide Good, InStep, Filed, Feed, TakeableBatch, RowsUpTo;
    NothingArrived(env.config, w, b);
    FeedInStep(j, env, Step(w, None), b, {}, order, w.actor.phase);
    assert {} + Members(order) == Members(order);
    if Members(order) == b.messages.Keys {
      AllArrived(env.config, b, Feed(env, Step(w, None), b.messages, order).w, w.actor.phase);
    }
  }

  /** Once the whole batch has arrived it is journaled. */
  lemma AllArrived(config: Config, b: Batch, w: World, origin: Phase)
    requires TakeableBatch(config, w.journal, b) && InStep(b, b.messages.Keys, w, origin)
    ensures w.actor.nextIn == b.end && w.actor.gap == map[] && w.actor.phase in {origin, Established}
    ensures RowsUpTo(b, w.journal.inbound, b.end)
  {
    hide RowsUpTo, Takeable;
    RowsBound(b, w.journal.inbound, w.actor.nextIn);
    assert w.actor.nextIn < b.end ==> w.actor.nextIn in b.messages;
    assert forall n | n in w.actor.gap :: n in b.messages && n > w.actor.nextIn;
    assert w.actor.gap == map[];
  }

  lemma NothingArrived(config: Config, w: World, b: Batch)
    requires w.actor.gap == map[] && TakeableBatch(config, w.journal, b)
    requires b.first == w.actor.nextIn && b.before == w.journal.inbound
    ensures InStep(b, {}, w, w.actor.phase)
  {
    hide Takeable;
  }

  // ----- out of order -----

  /** One after another from `n` on. */
  ghost predicate Ascending(order: seq<nat>, n: nat) { forall i | 0 <= i < |order| :: order[i] == n + i }

  /** With something buffered it no longer matters where the session came from. */
  lemma FromEstablished(b: Batch, arrived: set<nat>, w: World, origin: Phase, n: nat)
    requires InStep(b, arrived, w, origin) && n in w.actor.gap
    ensures InStep(b, arrived, w, Established)
  {
    hide Filed;
  }

  lemma {:induction false} FeedOutOfOrder(
      j: Journal, env: Env, s: Step, b: Batch, arrived: set<nat>, order: seq<nat>, origin: Phase)
    requires Good(j, env, s.w) && s.error.None? && ConfigOk(env.config)
    requires TakeableBatch(env.config, s.w.journal, b) && b.end - b.first <= GAP_LIMIT + 1
    requires InStep(b, arrived, s.w, origin) && origin != Recovering && s.w.actor.gap == map[]
    requires Distinct(order) && Members(order) <= b.messages.Keys && Members(order) !! arrived
    requires !Ascending(order, s.w.actor.nextIn)
    ensures var r := Feed(env, s, b.messages, order);
            && r.error.None? && InStep(b, arrived + Members(order), r.w, Established)
            && TakeableBatch(env.config, r.w.journal, b)
    decreases |order|
  {
    hide Good, InStep, TakeableBatch, Handle;
    var n, later := order[0], order[1..];
    assert n in order && n in Members(order);
    Arrive(j, env, s.w, b, arrived, n, origin);
    assert Members(later) <= Members(order) && n !in later;
    assert Members(order) == {n} + Members(later);
    var next := Handle(env, s.w, b.messages[n]);
    if n > s.w.actor.nextIn {
      FromEstablished(b, arrived + {n}, next.w, origin, n);
      FeedInStep(j, env, next, b, arrived + {n}, later, Established);
    } else {
      assert !Ascending(later, n + 1);
      FeedOutOfOrder(j, env, next, b, arrived + {n}, later, origin);
    }
    assert arrived + {n} + Members(later) == arrived + Members(order);
  }

  /** Messages that come out of order take the session to Established, from whatever phase it was in. */
  lemma OutOfOrderEstablishes(j: Journal, env: Env, w: World, b: Batch, order: seq<nat>)
    requires Good(j, env, w) && ConfigOk(env.config) && w.actor.gap == map[] && w.actor.phase != Recovering
    requires TakeableBatch(env.config, w.journal, b) && b.end - b.first <= GAP_LIMIT + 1
    requires b.first == w.actor.nextIn && b.before == w.journal.inbound
    requires Distinct(order) && Members(order) == b.messages.Keys && !Ascending(order, w.actor.nextIn)
    ensures var r := Feed(env, Step(w, None), b.messages, order);
            && r.error.None? && r.w.actor.phase == Established && r.w.actor.gap == map[]
            && r.w.actor.nextIn == b.end && RowsUpTo(b, r.w.journal.inbound, b.end)
  {
    hide Good, InStep, Filed, Feed, TakeableBatch, RowsUpTo, Ascending;
    NothingArrived(env.config, w, b);
    FeedOutOfOrder(j, env, Step(w, None), b, {}, order, w.actor.phase);
    assert {} + Members(order) == Members(order);
    AllArrived(env.config, b, Feed(env, Step(w, None), b.messages, order).w, Established);
  }
}
