// A replay drives a peer to the end of the range, unless a gap fill starts at a number whose message the
// peer had buffered; then the peer refuses it.

module ReplayDrives {
  import opened Text
  import opened Codec
  import opened Messages
  import opened Store
  import opened StoreTheorems
  import opened Session
  import opened SessionSafety
  import opened SessionInvariant
  import opened Arrival
  import opened Takes
  import opened ReplayFieldFacts
  import opened Reading
  import opened ReplayPlan
  import opened ReplayReceived

  /** The buffered messages below `limit` can be taken at their turn. */
  ghost predicate TakeableBuffer(config: Config, j: Journal, held: map<nat, Message>, limit: nat) {
    forall k | k in held && k < limit :: Takeable(config, j, held[k], k)
  }

  lemma BufferLater(config: Config, a: Journal, b: Journal, held: map<nat, Message>, limit: nat)
    requires OutboundInv(a) && OutboundGrown(a, b) && TakeableBuffer(config, a, held, limit)
    ensures TakeableBuffer(config, b, held, limit)
  {
    hide Takeable, OutboundInv, OutboundGrown;
    forall k | k in held && k < limit
      ensures Takeable(config, b, held[k], k)
    {
      TakeableLater(config, a, b, held[k], k);
    }
  }

  /** The buffer is part of `held`, and all of it from `next` on. */
  ghost predicate Rest(gap: map<nat, Message>, held: map<nat, Message>, next: nat) {
    && (forall k | k in gap :: k in held && gap[k] == held[k])
    && (forall k | k in held && k >= next :: k in gap)
  }

  /** The numbers from `from` to `next` were buffered and are journaled as they were buffered; no other row
      has changed since `before`. */
  ghost predicate FromBuffer(
      held: map<nat, Message>, from: nat, next: nat, before: map<nat, InboundRecord>, rows: map<nat, InboundRecord>)
  {
    && from <= next
    && (forall k: nat | from <= k < next :: k in held && k in rows && rows[k].wire == held[k])
    && (forall k: nat | !(from <= k < next) :: (k in rows <==> k in before) && (k in rows ==> rows[k] == before[k]))
  }

  /** Draining commits the buffered messages from `next_in` up to the first number that is missing. */
  lemma {:induction false} DrainTakes(j: Journal, env: Env, w: World, held: map<nat, Message>, limit: nat)
    requires Kept(j, w) && ConfigOk(env.config) && TakeableBuffer(env.config, w.journal, held, limit)
    requires Rest(w.actor.gap, held, w.actor.nextIn) && w.actor.nextIn <= limit && limit !in held
    ensures var r := Drain(env, w);
            && r.error.None? && Kept(j, r.w) && r.w.actor.phase in {w.actor.phase, Established}
            && FromBuffer(held, w.actor.nextIn, r.w.actor.nextIn, w.journal.inbound, r.w.journal.inbound)
            && Rest(r.w.actor.gap, held, r.w.actor.nextIn) && r.w.actor.nextIn !in held && r.w.actor.nextIn <= limit
            && OutboundGrown(w.journal, r.w.journal)
    decreases |w.actor.gap|
  {
    hide Kept, CommitExpected, Takeable, EnvelopeFault, Taken, NumberAt, OutboundGrown, OutboundInv;
    var n := w.actor.nextIn;
    if n !in w.actor.gap {
      SameKept(j, w, w.(actor := w.actor.(gap := StillAhead(w.actor.gap, n))));
      SameGrowth(w.journal);
    } else {
      var m := w.actor.gap[n];
      assert m == held[n] && Takeable(env.config, w.journal, m, n);
      TakeablePasses(env.config, w.journal, m, n);
      TakenOne(j, w, held);
      TakeableCommitted(j, env, Taken(w), m);
      var r := CommitExpected(env, Taken(w), m);
      KeptOutbound(j, w);
      BufferLater(env.config, w.journal, r.w.journal, held, limit);
      DrainTakes(j, env, r.w, held, limit);
      GrownTwice(w.journal, r.w.journal, Drain(env, r.w).w.journal);
      BufferGrows(held, n, Drain(env, r.w).w.actor.nextIn, w.journal.inbound, r.w.journal.inbound,
                  Drain(env, r.w).w.journal.inbound);
    }
  }

  lemma TakenOne(j: Journal, w: World, held: map<nat, Message>)
    requires Kept(j, w) && w.actor.nextIn in w.actor.gap && Rest(w.actor.gap, held, w.actor.nextIn)
    ensures Kept(j, Taken(w)) && Taken(w) == w.(actor := w.actor.(gap := Taken(w).actor.gap))
    ensures Rest(Taken(w).actor.gap, held, w.actor.nextIn + 1)
  {
    hide Traced;
    SameKept(j, w, Taken(w));
  }

  lemma BufferGrows(
      held: map<nat, Message>, n: nat, next: nat,
      before: map<nat, InboundRecord>, one: map<nat, InboundRecord>, rows: map<nat, InboundRecord>)
    requires n in held && n in one && one[n].wire == held[n] && one - {n} == before - {n}
    requires FromBuffer(held, n + 1, next, one, rows)
    ensures FromBuffer(held, n, next, before, rows)
  {
    forall k: nat | !(n <= k < next)
      ensures (k in rows <==> k in before) && (k in rows ==> rows[k] == before[k])
    {
      RowElsewhere(before, one, n, k);
    }
  }

  lemma RowElsewhere(before: map<nat, InboundRecord>, after: map<nat, InboundRecord>, n: nat, k: nat)
    requires after - {n} == before - {n} && k != n
    ensures (k in after <==> k in before) && (k in after ==> after[k] == before[k])
  {
    assert k in after <==> k in after - {n};
    assert k in before <==> k in before - {n};
    if k in after {
      assert after[k] == (after - {n})[k] && before[k] == (before - {n})[k];
    }
  }

  // ----- one message at its turn -----

  /** A message that only moves `next_in`. */
  lemma CommittedInert(j: Journal, env: Env, w: World, m: Message, t: Bytes, next: nat)
    requires Kept(j, w) && NumberAt(m, 34) == Some(w.actor.nextIn)
    requires Judge(env.config, w.actor, m) == Accept(t, next, None, None) && t !in {LOGON, LOGOUT}
    ensures var r := CommitExpected(env, w, m);
            && r.error.None? && r.w.actor.nextIn == next && next > w.actor.nextIn
            && w.actor.nextIn in r.w.journal.inbound && r.w.journal.inbound[w.actor.nextIn].wire == m
            && r.w.journal.inbound - {w.actor.nextIn} == w.journal.inbound - {w.actor.nextIn}
            && r.w.actor.phase == w.actor.phase && OutboundGrown(w.journal, r.w.journal)
  {
    hide Traced, Judge;
    JudgedAdvances(env.config, w.actor, m, w.actor.nextIn);
  }

  /** Row `n` holds `m`, and no row but that and those from `next` to `after` differs from `before`. */
  ghost predicate OneCommitted(
      n: nat, m: Message, next: nat, after: nat, before: map<nat, InboundRecord>, rows: map<nat, InboundRecord>)
  {
    && n in rows && rows[n].wire == m
    && forall k: nat | k != n && !(next <= k < after) ::
      (k in rows <==> k in before) && (k in rows ==> rows[k] == before[k])
  }

  /** `next_in` is the first missing number from `from` on: what lies between was buffered. What is buffered
      below `limit` can be taken at its turn. */
  ghost predicate PeerAt(config: Config, held: map<nat, Message>, limit: nat, from: nat, w: World) {
    && TakeableBuffer(config, w.journal, held, limit)
    && from <= w.actor.nextIn <= limit && limit !in held && w.actor.nextIn !in held
    && Rest(w.actor.gap, held, w.actor.nextIn)
    && forall k: nat | from <= k < w.actor.nextIn ::
      k in held && k in w.journal.inbound && w.journal.inbound[k].wire == held[k]
  }

  lemma AdvanceInert(
      j: Journal, env: Env, w: World, m: Message, t: Bytes, next: nat, held: map<nat, Message>, limit: nat)
    requires Kept(j, w) && ConfigOk(env.config)
    requires PeerAt(env.config, held, limit, w.actor.nextIn, w) && next <= limit
    requires NumberAt(m, 34) == Some(w.actor.nextIn)
    requires Judge(env.config, w.actor, m) == Accept(t, next, None, None) && t !in {LOGON, LOGOUT}
    ensures var r := Advance(env, w, m);
            && r.error.None? && Kept(j, r.w) && PeerAt(env.config, held, limit, next, r.w) && next > w.actor.nextIn
            && OneCommitted(w.actor.nextIn, m, next, r.w.actor.nextIn, w.journal.inbound, r.w.journal.inbound)
            && r.w.actor.phase in {w.actor.phase, Established}
  {
    hide Kept, CommitExpected, Drain, NumberAt, TakeableBuffer, Judge, OutboundGrown, OutboundInv;
    var n := w.actor.nextIn;
    CommittedInert(j, env, w, m, t, next);
    CommitExpectedKeeps(j, env, w, m);
    var r := CommitExpected(env, w, m);
    KeptOutbound(j, w);
    BufferLater(env.config, w.journal, r.w.journal, held, limit);
    DrainTakes(j, env, r.w, held, limit);
    var drained := Drain(env, r.w);
    KeptOutbound(j, r.w);
    BufferLater(env.config, r.w.journal, drained.w.journal, held, limit);
    AdvanceOutcome(env, w, m);
    forall k: nat | k != n && !(next <= k < drained.w.actor.nextIn)
      ensures (k in drained.w.journal.inbound <==> k in w.journal.inbound)
      ensures k in drained.w.journal.inbound ==> drained.w.journal.inbound[k] == w.journal.inbound[k]
    {
      RowElsewhere(w.journal.inbound, r.w.journal.inbound, n, k);
    }
    SameButPhase(j, drained.w, Advance(env, w, m).w);
  }

  lemma SameButPhase(j: Journal, a: World, b: World)
    requires Kept(j, a) && b == a.(actor := a.actor.(phase := b.actor.phase))
    ensures Kept(j, b)
  {
  }

  // ----- one item of a replay -----

  /** The clock does not read earlier than `time` from its `ticks`-th reading on. */
  ghost predicate NotBefore(env: Env, ticks: nat, time: Bytes) {
    forall t: nat | t >= ticks :: !LaterThan(time, env.clock(t))
  }

  /** An application message that the peer would have taken, and that it buffered, if at all, as it was. */
  ghost predicate Deliverable(
      env: Env, peer: Config, records: map<nat, OutboundRecord>, held: map<nat, Message>, n: nat, ticks: nat)
  {
    && Resendable(records, n) && Plain(peer, records[n].wire, n)
    && (n in held ==> held[n] == records[n].wire && First(held[n].fields, 52).Some?
                      && NotBefore(env, ticks, First(held[n].fields, 52).value))
  }

  lemma HandleAtTurn(env: Env, w: World, m: Message)
    requires EnvelopeFault(env.config, m).None? && NumberAt(m, 34) == Some(w.actor.nextIn)
    ensures Handle(env, w, m) == Advance(env, w, m)
  {
    hide EnvelopeFault, Advance, Buffer, PossDupFault, PossDup;
  }

  ghost predicate RowsKept(from: nat, before: map<nat, InboundRecord>, rows: map<nat, InboundRecord>) {
    forall k: nat | k < from :: (k in rows <==> k in before) && (k in rows ==> rows[k] == before[k])
  }

  lemma OneCommittedKeeps(
      n: nat, m: Message, next: nat, after: nat, before: map<nat, InboundRecord>, rows: map<nat, InboundRecord>)
    requires OneCommitted(n, m, next, after, before, rows) && n < next
    ensures RowsKept(n, before, rows)
  {
  }

  /** The replayed message is plain, and what else its reception rests on. */
  lemma DeliverableReplay(
      env: Env, peer: Config, records: map<nat, OutboundRecord>, held: map<nat, Message>, n: nat, ticks: nat)
    requires Mirrored(env.config, peer) && TakesReplays(peer) && Deliverable(env, peer, records, held, n, ticks)
    ensures First(records[n].wire.fields, 52).Some? && records[n].wire.beginString == env.config.beginString
    ensures var m := Rendered(env, records, Resent(n), ticks);
            && m == ReplayOf(env, records[n].wire, ticks)
            && Plain(peer, m, n) && EnvelopeFault(peer, m).None? && NumberAt(m, 34) == Some(n) && PossDup(m)
            && Payload(m.fields) == Payload(records[n].wire.fields)
  {
    var original := records[n].wire;
    ReplayPlain(env, peer, original, n, ticks);
    OriginalReplay(env, original, n, ticks);
    BeginOfPlain(peer, original, n);
    hide ReplayFields, Payload, Original, TakesReplays, Plain;
    PlainPasses(peer, ReplayOf(env, original, ticks), n);
  }

  lemma ReceiveResent(
      j: Journal, env: Env, peer: Env, w: World, records: map<nat, OutboundRecord>, held: map<nat, Message>,
      limit: nat, n: nat, ticks: nat)
    requires Kept(j, w) && ConfigOk(peer.config)
    requires PeerAt(peer.config, held, limit, n, w) && n + 1 <= limit
    requires Mirrored(env.config, peer.config) && TakesReplays(peer.config)
    requires Deliverable(env, peer.config, records, held, n, ticks)
    ensures var r := Handle(peer, w, Rendered(env, records, Resent(n), ticks));
            && r.error.None? && Kept(j, r.w) && PeerAt(peer.config, held, limit, n + 1, r.w)
            && r.w.actor.phase in {w.actor.phase, Established}
            && RowsKept(n, w.journal.inbound, r.w.journal.inbound)
            && n in r.w.journal.inbound
            && Payload(r.w.journal.inbound[n].wire.fields) == Payload(records[n].wire.fields)
  {
    hide Kept, Handle, Rendered, Plain, Payload, Original, TakeableBuffer, LaterThan, TakesReplays, Mirrored, Judge,
         PossDup, ReplayOf, EnvelopeFault, NumberAt, RowsKept;
    var m := Rendered(env, records, Resent(n), ticks);
    DeliverableReplay(env, peer.config, records, held, n, ticks);
    if w.actor.nextIn == n {
      hide PeerAt, Advance, Deliverable;
      PlainJudged(peer.config, w.actor, m);
      HandleAtTurn(peer, w, m);
      AdvanceInert(j, peer, w, m, MsgType(m).value, n + 1, held, limit);
      var r := Handle(peer, w, m).w;
      OneCommittedKeeps(n, m, n + 1, r.actor.nextIn, w.journal.inbound, r.journal.inbound);
    } else {
      ReplayVerified(w.journal, env, records[n].wire, n, ticks);
      HandleDuplicate(peer, w, m, n);
      KeptAtOnce(n, w.journal.inbound);
    }
  }

  lemma KeptAtOnce(from: nat, rows: map<nat, InboundRecord>)
    ensures RowsKept(from, rows, rows)
  {
  }

  // ----- gap fills -----

  lemma {:induction false} FirstAt(fields: seq<Field>, i: nat, tag: u32)
    requires i < |fields| && fields[i].tag == tag && forall k | 0 <= k < i :: fields[k].tag != tag
    ensures First(fields, tag) == Some(fields[i].value)
  {
    ValuesCons(fields, tag);
    if i > 0 {
      hide Values;
      FirstAt(fields[1..], i - 1, tag);
    }
  }

  lemma GapFillFirsts(config: Config, start: nat, next: nat, now: Bytes)
    ensures var fill := GapFillFields(config, start, next, now);
            && First(fill, 49) == Some(config.senderCompId) && First(fill, 56) == Some(config.targetCompId)
            && First(fill, 34) == Some(Dec(start)) && First(fill, 36) == Some(Dec(next))
            && First(fill, 123) == Some(YES) && First(fill, 43) == Some(YES)
  {
    hide First, Dec;
    var fill := GapFillFields(config, start, next, now);
    FirstAt(fill, 1, 49);
    FirstAt(fill, 2, 56);
    FirstAt(fill, 3, 34);
    FirstAt(fill, 8, 36);
    FirstAt(fill, 7, 123);
    FirstAt(fill, 4, 43);
  }

  /** A gap fill asks for `next`, from any peer that takes replays. */
  lemma GapFillJudged(config: Config, peer: Config, actor: Actor, start: nat, next: nat, now: Bytes)
    requires Mirrored(config, peer) && TakesReplays(peer) && start < next <= U64_MAX
    ensures var m := Message(config.beginString, GapFillFields(config, start, next, now));
            && EnvelopeFault(peer, m).None? && NumberAt(m, 34) == Some(start) && PossDup(m)
            && (start == actor.nextIn ==> Judge(peer, actor, m) == Accept(SEQUENCE_RESET, next, None, None))
  {
    hide First, Dec, ParseU64, IsSensitive;
    GapFillFirsts(config, start, next, now);
    ParseU64OfDec(start);
    ParseU64OfDec(next);
    assert IsUtf8(SEQUENCE_RESET[1..]);
    assert IsUtf8(SEQUENCE_RESET);
    hide IsUtf8;
    var fill := GapFillFields(config, start, next, now);
    assert forall f | f in fill :: f.tag in {34, 35, 36, 43, 49, 52, 56, 122, 123};
  }

  lemma ReceiveSkipped(
      j: Journal, env: Env, peer: Env, w: World, records: map<nat, OutboundRecord>, held: map<nat, Message>,
      limit: nat, start: nat, next: nat, ticks: nat)
    requires Kept(j, w) && ConfigOk(peer.config)
    requires PeerAt(peer.config, held, limit, start, w) && next <= limit
    requires Mirrored(env.config, peer.config) && TakesReplays(peer.config) && start < next <= U64_MAX
    ensures var r := Handle(peer, w, Rendered(env, records, Skipped(start, next), ticks));
            && (r.error.None? <==> start !in held)
            && (r.error.None? ==> Kept(j, r.w) && PeerAt(peer.config, held, limit, next, r.w)
                                  && r.w.actor.phase in {w.actor.phase, Established}
                                  && RowsKept(start, w.journal.inbound, r.w.journal.inbound))
  {
    hide Kept, Handle, Takeable, TakesReplays, Mirrored, Judge, PossDup, EnvelopeFault, NumberAt, RowsKept,
         GapFillFields, PossDupFault;
    var m := Rendered(env, records, Skipped(start, next), ticks);
    GapFillJudged(env.config, peer.config, w.actor, start, next, env.clock(ticks));
    if w.actor.nextIn == start {
      HandleAtTurn(peer, w, m);
      AdvanceInert(j, peer, w, m, SEQUENCE_RESET, next, held, limit);
      var r := Handle(peer, w, m).w;
      OneCommittedKeeps(start, m, next, r.actor.nextIn, w.journal.inbound, r.journal.inbound);
    } else {
      assert start in held;
      HeldIsNoReset(peer.config, w.journal, held, limit, start);
      GapFillRefused(w.journal, env.config, env.config.beginString, start, next, env.clock(ticks));
      HandleDuplicate(peer, w, m, start);
    }
  }

  lemma HeldIsNoReset(config: Config, j: Journal, held: map<nat, Message>, limit: nat, n: nat)
    requires TakeableBuffer(config, j, held, limit) && n in held && n < limit
    ensures MsgType(held[n]).Some? && MsgType(held[n]) != Some(SEQUENCE_RESET)
  {
    assert Takeable(config, j, held[n], n);
  }

  // ----- the whole replay -----

  ghost predicate NoGapHeld(items: seq<Item>, held: map<nat, Message>) {
    forall i | 0 <= i < |items| && items[i].Skipped? :: items[i].start !in held
  }

  ghost predicate AllDeliverable(
      env: Env, peer: Config, records: map<nat, OutboundRecord>, held: map<nat, Message>, items: seq<Item>, ticks: nat)
  {
    forall i | 0 <= i < |items| && items[i].Resent? :: Deliverable(env, peer, records, held, items[i].n, ticks)
  }

  /** Every application message of the replay is journaled by the peer, with its payload. */
  ghost predicate Delivered(items: seq<Item>, records: map<nat, OutboundRecord>, rows: map<nat, InboundRecord>) {
    forall i | 0 <= i < |items| && items[i].Resent? ::
      var n := items[i].n;
      n in records && n in rows && Payload(rows[n].wire.fields) == Payload(records[n].wire.fields)
  }

  lemma ReceiveItem(
      j: Journal, env: Env, peer: Env, w: World, records: map<nat, OutboundRecord>, held: map<nat, Message>,
      limit: nat, item: Item, ticks: nat)
    requires Kept(j, w) && ConfigOk(peer.config)
    requires PeerAt(peer.config, held, limit, ItemStart(item), w) && ItemNext(item) <= limit
    requires Mirrored(env.config, peer.config) && TakesReplays(peer.config)
    requires ItemStart(item) < ItemNext(item) <= U64_MAX
    requires item.Resent? ==> Deliverable(env, peer.config, records, held, item.n, ticks)
    ensures var r := Handle(peer, w, Rendered(env, records, item, ticks));
            && (r.error.None? <==> NoGapHeld([item], held))
            && (r.error.None? ==>
                && Kept(j, r.w) && PeerAt(peer.config, held, limit, ItemNext(item), r.w)
                && r.w.actor.phase in {w.actor.phase, Established}
                && RowsKept(ItemStart(item), w.journal.inbound, r.w.journal.inbound)
                && Delivered([item], records, r.w.journal.inbound))
  {
    hide Kept, Handle, Rendered, TakeableBuffer, PeerAt, Payload, RowsKept, Plain, TakesReplays;
    assert [item][0] == item;
    match item
    case Resent(n) => ReceiveResent(j, env, peer, w, records, held, limit, n, ticks);
    case Skipped(start, next) => ReceiveSkipped(j, env, peer, w, records, held, limit, start, next, ticks);
  }

  /** Items lie between the ends of what they tile. */
  lemma {:induction false} TilesBound(items: seq<Item>, from: nat, until: nat)
    requires Tiles(items, from, until)
    ensures from <= until && forall i | 0 <= i < |items| :: from <= ItemStart(items[i]) < ItemNext(items[i]) <= until
    decreases |items|
  {
    if items != [] {
      TilesBound(items[1..], ItemNext(items[0]), until);
    }
  }

  lemma DeliverableLater(
      env: Env, peer: Config, records: map<nat, OutboundRecord>, held: map<nat, Message>, items: seq<Item>, ticks: nat)
    requires items != [] && AllDeliverable(env, peer, records, held, items, ticks)
    ensures items[0].Resent? ==> Deliverable(env, peer, records, held, items[0].n, ticks)
    ensures AllDeliverable(env, peer, records, held, items[1..], ticks + 1)
  {
    hide Resendable, Plain, LaterThan;
    var rest := items[1..];
    forall i | 0 <= i < |rest| && rest[i].Resent?
      ensures Deliverable(env, peer, records, held, rest[i].n, ticks + 1)
    {
      assert rest[i] == items[i + 1];
    }
  }

  lemma DeliveredGrows(
      items: seq<Item>, from: nat, until: nat, records: map<nat, OutboundRecord>,
      one: map<nat, InboundRecord>, rows: map<nat, InboundRecord>)
    requires items != [] && Tiles(items, from, until)
    requires Delivered([items[0]], records, one) && RowsKept(ItemNext(items[0]), one, rows)
    requires Delivered(items[1..], records, rows)
    ensures Delivered(items, records, rows)
  {
    hide Payload;
    forall i | 0 <= i < |items| && items[i].Resent?
      ensures var n := items[i].n;
              n in records && n in rows && Payload(rows[n].wire.fields) == Payload(records[n].wire.fields)
    {
      if i == 0 {
        assert [items[0]][0] == items[0];
      } else {
        assert items[1..][i - 1] == items[i];
      }
    }
  }

  lemma {:induction false} ItemsDrive(
      j: Journal, env: Env, peer: Env, w: World, records: map<nat, OutboundRecord>, held: map<nat, Message>,
      limit: nat, items: seq<Item>, ticks: nat, from: nat, until: nat)
    requires Tiles(items, from, until) && until <= U64_MAX && until <= limit
    requires Kept(j, w) && ConfigOk(peer.config)
    requires PeerAt(peer.config, held, limit, from, w)
    requires Mirrored(env.config, peer.config) && TakesReplays(peer.config)
    requires AllDeliverable(env, peer.config, records, held, items, ticks)
    ensures var r := HandleAll(peer, Step(w, None), RenderedAll(env, records, items, ticks));
            && (r.error.None? <==> NoGapHeld(items, held))
            && (r.error.None? ==>
                && Kept(j, r.w) && PeerAt(peer.config, held, limit, until, r.w)
                && r.w.actor.phase in {w.actor.phase, Established}
                && RowsKept(from, w.journal.inbound, r.w.journal.inbound)
                && Delivered(items, records, r.w.journal.inbound))
    decreases |items|
  {
    hide Kept, Handle, Rendered, TakeableBuffer, PeerAt, Payload, TakesReplays, Mirrored, AllDeliverable, Deliverable;
    if items == [] {
    } else {
      var item, rest := items[0], items[1..];
      TilesBound(items, from, until);
      assert items == [item] + rest;
      RenderedCons(env, records, item, rest, ticks);
      var messages := RenderedAll(env, records, items, ticks);
      assert messages[0] == Rendered(env, records, item, ticks);
      assert messages[1..] == RenderedAll(env, records, rest, ticks + 1);
      DeliverableLater(env, peer.config, records, held, items, ticks);
      ReceiveItem(j, env, peer, w, records, held, limit, item, ticks);
      var r := Handle(peer, w, messages[0]);
      if r.error.None? {
        ItemsDrive(j, env, peer, r.w, records, held, limit, rest, ticks + 1, ItemNext(item), until);
        NoGapHeldCons(item, rest, held);
        var all := HandleAll(peer, Step(w, None), messages);
        if all.error.None? {
          DeliveredGrows(items, from, until, records, r.w.journal.inbound, all.w.journal.inbound);
        }
      } else {
        NoGapHeldCons(item, rest, held);
      }
    }
  }

  lemma NoGapHeldCons(item: Item, rest: seq<Item>, held: map<nat, Message>)
    ensures NoGapHeld([item] + rest, held) <==> NoGapHeld([item], held) && NoGapHeld(rest, held)
  {
    var items := [item] + rest;
    assert items[0] == item && [item][0] == item;
    assert forall i | 0 <= i < |rest| :: items[i + 1] == rest[i];
    assert forall i | 0 < i < |items| :: items[i] == rest[i - 1];
  }

  lemma SamePrefix(a: seq<Message>, b: seq<Message>, c: seq<Message>)
    requires a + b == a + c
    ensures b == c
  {
    assert b == (a + b)[|a|..] && c == (a + c)[|a|..];
  }

  /** A session replays a range to a peer whose `next_in` is at its beginning. What the peer has buffered below
      `limit`, a number that it has not buffered and that lies past the range, it can take at its turn, and the
      buffered application messages of the range are the ones the session sent. The replay is taken exactly
      when none of its gap fills starts at a buffered number. Then the peer ends between the end of the range
      and `limit`, at a number it has not buffered, has journaled every application message of the range with
      its payload and has changed no earlier row. */
  lemma ReplayDrivesPeer(
      j: Journal, env: Env, w: World, begin: nat, end: nat, messages: seq<Message>,
      peerJournal: Journal, peer: Env, p: World, limit: nat)
    requires Kept(j, w) && ConfigOk(env.config)
    requires 1 <= begin <= end < w.journal.nextOut && end < U64_MAX
    requires Writes(Replay(env, w, begin, end).w.trace) == Writes(w.trace) + messages
    requires Kept(peerJournal, p) && ConfigOk(peer.config) && end < limit && limit !in p.actor.gap
    requires TakeableBuffer(peer.config, p.journal, p.actor.gap, limit)
    requires p.actor.nextIn == begin && begin !in p.actor.gap
    requires Mirrored(env.config, peer.config) && TakesReplays(peer.config)
    requires forall n: nat | begin <= n <= end && IsReplayable(w.journal.outbound, n) ::
               Deliverable(env, peer.config, w.journal.outbound, p.actor.gap, n, w.ticks)
    ensures var items := Plan(w.journal.outbound, begin, end, None);
            var r := HandleAll(peer, Step(p, None), messages);
            && (r.error.None? <==> NoGapHeld(items, p.actor.gap))
            && (r.error.None? ==>
                && Kept(peerJournal, r.w) && PeerAt(peer.config, p.actor.gap, limit, end + 1, r.w)
                && r.w.actor.phase in {p.actor.phase, Established}
                && RowsKept(begin, p.journal.inbound, r.w.journal.inbound)
                && Delivered(items, w.journal.outbound, r.w.journal.inbound))
  {
    hide Kept, Replay, Plan, TakeableBuffer, Tiles, TakesReplays, Mirrored, Deliverable, HandleAll, RenderedAll, Writes,
         NoTwoGaps, IsReplayable, Intact;
    var rows := w.journal.outbound;
    var items := Plan(rows, begin, end, None);
    forall n: nat | begin <= n <= end && IsReplayable(rows, n)
      ensures n in rows && Intact(rows[n].wire)
    {
      DeliverableIntact(env, peer.config, rows, p.actor.gap, n, w.ticks);
    }
    ReplayWrites(j, env, w, begin, end);
    SamePrefix(Writes(w.trace), messages, RenderedAll(env, rows, items, w.ticks));
    forall i | 0 <= i < |items| && items[i].Resent?
      ensures Deliverable(env, peer.config, rows, p.actor.gap, items[i].n, w.ticks)
    {
      assert Resent(items[i].n) in items;
    }
    ItemsDrive(peerJournal, env, peer, p, rows, p.actor.gap, limit, items, w.ticks, begin, end + 1);
  }

  lemma DeliverableIntact(
      env: Env, peer: Config, rows: map<nat, OutboundRecord>, held: map<nat, Message>, n: nat, ticks: nat)
    requires Deliverable(env, peer, rows, held, n, ticks)
    ensures n in rows && Intact(rows[n].wire)
  {
    hide Plain, Original, Intact, NotBefore;
  }

  lemma {:induction false} HandleAllKeeps(j: Journal, env: Env, s: Step, messages: seq<Message>)
    requires s.error.None? ==> Good(j, env, s.w)
    ensures var r := HandleAll(env, s, messages); r.error.None? ==> Good(j, env, r.w)
    decreases |messages|
  {
    hide Good, Handle;
    if messages != [] && s.error.None? {
      HandledGood(j, env, s.w, messages[0]);
      HandleAllKeeps(j, env, Handle(env, s.w, messages[0]), messages[1..]);
    }
  }

  lemma HandledGood(j: Journal, env: Env, w: World, m: Message)
    requires Good(j, env, w)
    ensures var r := Handle(env, w, m); r.error.None? ==> Good(j, env, r.w)
  {
    hide Kept, GapGood, Settled, Handle;
    HandleKeeps(j, env, w, m);
  }

  /** When everything a recovering peer has buffered lies inside the range, a replay that it takes ends the
      recovery: it is Established, nothing is buffered, and the next number is the one after the range. */
  lemma ReplayEndsRecovery(
      j: Journal, env: Env, w: World, begin: nat, end: nat, messages: seq<Message>,
      peerJournal: Journal, peer: Env, p: World)
    requires Kept(j, w) && ConfigOk(env.config)
    requires 1 <= begin <= end < w.journal.nextOut && end < U64_MAX
    requires Writes(Replay(env, w, begin, end).w.trace) == Writes(w.trace) + messages
    requires Good(peerJournal, peer, p) && ConfigOk(peer.config) && p.actor.phase in {Recovering, Established}
    requires TakeableBuffer(peer.config, p.journal, p.actor.gap, end + 1) && forall k | k in p.actor.gap :: k <= end
    requires p.actor.nextIn == begin
    requires Mirrored(env.config, peer.config) && TakesReplays(peer.config)
    requires forall n: nat | begin <= n <= end && IsReplayable(w.journal.outbound, n) ::
               Deliverable(env, peer.config, w.journal.outbound, p.actor.gap, n, w.ticks)
    ensures var items := Plan(w.journal.outbound, begin, end, None);
            var r := HandleAll(peer, Step(p, None), messages);
            && (r.error.None? <==> NoGapHeld(items, p.actor.gap))
            && (r.error.None? ==>
                && Good(peerJournal, peer, r.w)
                && r.w.actor.phase == Established && r.w.actor.gap == map[] && r.w.actor.nextIn == end + 1
                && RowsKept(begin, p.journal.inbound, r.w.journal.inbound)
                && Delivered(items, w.journal.outbound, r.w.journal.inbound))
  {
    hide Kept, GapGood, Replay, Plan, TakeableBuffer, TakesReplays, Mirrored, Deliverable, HandleAll, Writes, NoGapHeld,
         RowsKept, Delivered;
    assert begin !in p.actor.gap;
    ReplayDrivesPeer(j, env, w, begin, end, messages, peerJournal, peer, p, end + 1);
    HandleAllKeeps(peerJournal, peer, Step(p, None), messages);
    var r := HandleAll(peer, Step(p, None), messages);
    if r.error.None? {
      RecoveryOver(peer.config, p.actor.gap, end, r.w);
    }
  }

  lemma RecoveryOver(config: Config, held: map<nat, Message>, end: nat, w: World)
    requires PeerAt(config, held, end + 1, end + 1, w) && Settled(w.actor) && w.actor.phase in {Recovering, Established}
    requires forall k | k in held :: k <= end
    ensures w.actor.phase == Established && w.actor.gap == map[] && w.actor.nextIn == end + 1
  {
    assert forall k | k in w.actor.gap :: k in held && k > w.actor.nextIn;
    assert w.actor.gap == map[];
  }

  /** With nothing buffered the replay is always taken and ends exactly after the range. */
  lemma ReplayDrivesQuietPeer(
      j: Journal, env: Env, w: World, begin: nat, end: nat, messages: seq<Message>,
      peerJournal: Journal, peer: Env, p: World)
    requires Kept(j, w) && ConfigOk(env.config)
    requires 1 <= begin <= end < w.journal.nextOut && end < U64_MAX
    requires Writes(Replay(env, w, begin, end).w.trace) == Writes(w.trace) + messages
    requires Kept(peerJournal, p) && ConfigOk(peer.config) && p.actor.gap == map[] && p.actor.nextIn == begin
    requires Mirrored(env.config, peer.config) && TakesReplays(peer.config)
    requires forall n: nat | begin <= n <= end && IsReplayable(w.journal.outbound, n) ::
               n <= U64_MAX && Plain(peer.config, w.journal.outbound[n].wire, n) && Intact(w.journal.outbound[n].wire)
    ensures var r := HandleAll(peer, Step(p, None), messages);
            && r.error.None? && r.w.actor.nextIn == end + 1 && r.w.actor.gap == map[]
            && Delivered(Plan(w.journal.outbound, begin, end, None), w.journal.outbound, r.w.journal.inbound)
  {
    hide Replay, Plan, Plain, Tiles, TakesReplays, Mirrored, HandleAll, Writes, Delivered, Original, Intact;
    JournalInOrder(j, w);
    hide Kept;
    ReplayDrivesPeer(j, env, w, begin, end, messages, peerJournal, peer, p, end + 1);
    assert HandleAll(peer, Step(p, None), messages).w.actor.nextIn <= end + 1;
  }
}
