// The whole of a recovery: a message ahead of its turn, the ResendRequest it triggers, the replay that
// answers it, and the end of the gap.

module Recovery {
  import opened Text
  import opened Codec
  import opened Messages
  import opened Parser
  import opened Store
  import opened StoreTheorems
  import opened Session
  import opened SessionSafety
  import opened SessionInvariant
  import opened Arrival
  import opened Takes
  import opened Reading
  import opened ReadBack
  import opened ReplayPlan
  import opened ReplayReceived
  import opened ReplayDrives
  import opened TwoParty

  /** The request for everything from `begin` on. */
  function ResendFrom(env: Env, w: World, begin: nat): Message {
    Own(env, w, RESEND_REQUEST, [Field(7, Dec(begin)), Field(16, ALL_FOLLOWING)])
  }

  /** The session keeps no tag of a ResendRequest secret. */
  predicate TakesRequests(config: Config) {
    forall tag: u32 | tag in {7, 16, 34, 35, 49, 52, 56} :: !IsSensitive(config, tag)
  }

  // ----- the peer asks -----

  /** The first message ahead of its turn is buffered, and everything from `next_in` on is asked for. */
  lemma AheadAsks(j: Journal, env: Env, w: World, m: Message, n: nat)
    requires Kept(j, w) && ConfigOk(env.config) && w.actor.gap == map[] && w.actor.phase != Recovering
    requires EnvelopeFault(env.config, m).None? && NumberAt(m, 34) == Some(n) && n > w.actor.nextIn
    ensures var r := Handle(env, w, m);
            && r.error.None? && r.w.actor.phase == Recovering && r.w.actor.gap == map[n := m]
            && r.w.actor.nextIn == w.actor.nextIn && r.w.journal.inbound == w.journal.inbound
            && SentBy(w, r.w, [ResendFrom(env, w, w.actor.nextIn)]) && OutboundGrown(w.journal, r.w.journal)
  {
    hide Kept, SendAdmin, EnvelopeFault, NumberAt, Own, Writes, Dec, SentBy, OutboundGrown;
    var begin := w.actor.nextIn;
    var buffered := w.(actor := w.actor.(gap := map[n := m]));
    var extra := [Field(7, Dec(begin)), Field(16, ALL_FOLLOWING)];
    var fingerprint := ADMIN_PREFIX + RESEND_REQUEST + [COLON] + Dec(w.actor.nextOut) + [COLON] + Dec(begin);
    SameKept(j, w, buffered);
    SendAdminSends(j, env, buffered, KIND_RESEND, RESEND_REQUEST, extra, fingerprint);
    ResendGrown(j, env, buffered, begin);
    SameOwn(env, w, buffered, RESEND_REQUEST, extra);
    var sent := SendAdmin(env, buffered, KIND_RESEND, RESEND_REQUEST, extra, fingerprint).w;
    SentTicked(w, buffered, sent, [ResendFrom(env, w, begin)]);
    HandledAhead(env, w, m, n);
    SentSame(w, sent, Handle(env, w, m).w, [ResendFrom(env, w, begin)]);
  }

  lemma SameOwn(env: Env, a: World, b: World, msgType: Bytes, extra: seq<Field>)
    requires a.actor.nextOut == b.actor.nextOut && a.ticks == b.ticks
    ensures Own(env, a, msgType, extra) == Own(env, b, msgType, extra)
  {
  }

  lemma HandledAhead(env: Env, w: World, m: Message, n: nat)
    requires w.actor.gap == map[] && w.actor.phase != Recovering
    requires EnvelopeFault(env.config, m).None? && NumberAt(m, 34) == Some(n) && n > w.actor.nextIn
    ensures var buffered := w.(actor := w.actor.(gap := map[n := m]));
            var sent := SendResendRequest(env, buffered, w.actor.nextIn);
            Handle(env, w, m) ==
            if sent.error.Some? then sent else sent.(w := sent.w.(actor := sent.w.actor.(phase := Recovering)))
  {
    hide EnvelopeFault, NumberAt, SendResendRequest;
  }

  // ----- the session answers -----

  lemma RequestFirsts(env: Env, w: World, begin: nat)
    ensures var fields := ResendFrom(env, w, begin).fields;
            && First(fields, 7) == Some(Dec(begin)) && First(fields, 16) == Some(ALL_FOLLOWING)
            && First(fields, 34) == Some(Dec(w.actor.nextOut)) && First(fields, 49) == Some(env.config.senderCompId)
            && First(fields, 56) == Some(env.config.targetCompId)
  {
    hide First, Dec;
    var fields := ResendFrom(env, w, begin).fields;
    FirstAt(fields, 5, 7);
    FirstAt(fields, 6, 16);
    FirstAt(fields, 3, 34);
    FirstAt(fields, 1, 49);
    FirstAt(fields, 2, 56);
  }

  /** A peer's request at its turn is accepted, for everything up to the last number sent. */
  lemma RequestJudged(env: Env, w: World, peer: Env, p: World, begin: nat)
    requires Mirrored(env.config, peer.config) && TakesRequests(env.config)
    requires p.actor.nextOut == w.actor.nextIn <= U64_MAX && 1 <= begin < w.actor.nextOut && begin <= U64_MAX
    ensures var m := ResendFrom(peer, p, begin);
            && EnvelopeFault(env.config, m).None? && NumberAt(m, 34) == Some(w.actor.nextIn)
            && MsgType(m) == Some(RESEND_REQUEST)
            && Judge(env.config, w.actor, m) ==
               Accept(RESEND_REQUEST, w.actor.nextIn + 1, Some((begin, w.actor.nextOut - 1)), None)
  {
    hide First, Dec, ParseU64, IsSensitive;
    RequestFirsts(peer, p, begin);
    ParseU64OfDec(p.actor.nextOut);
    ParseU64OfDec(begin);
    ZeroIsAll();
    assert IsUtf8(RESEND_REQUEST[1..]) && IsUtf8(RESEND_REQUEST);
    hide IsUtf8;
    var m := ResendFrom(peer, p, begin);
    assert forall f | f in m.fields :: f.tag in {7, 16, 34, 35, 49, 52, 56};
  }

  lemma ZeroIsAll()
    ensures ParseU64(ALL_FOLLOWING) == Some(0)
  {
    assert Dec(0) == ALL_FOLLOWING;
    ParseU64OfDec(0);
  }

  /** The world in which the request is journaled and the replay begins. */
  lemma RequestAnswered(j: Journal, env: Env, w: World, peer: Env, p: World, begin: nat) returns (c: World)
    requires Kept(j, w) && w.actor.gap == map[] && w.actor.phase != Recovering
    requires Mirrored(env.config, peer.config) && TakesRequests(env.config)
    requires p.actor.nextOut == w.actor.nextIn <= U64_MAX && 1 <= begin < w.actor.nextOut && begin <= U64_MAX
    ensures Kept(j, c) && c.journal.outbound == w.journal.outbound && c.journal.nextOut == w.journal.nextOut
    ensures c.ticks == w.ticks && Writes(c.trace) == Writes(w.trace)
    ensures Handle(env, w, ResendFrom(peer, p, begin)) == Replay(env, c, begin, w.actor.nextOut - 1)
  {
    hide Traced, EnvelopeFault, NumberAt, Judge, Writes, Replay, ResendFrom;
    RequestJudged(env, w, peer, p, begin);
    var m, n, end := ResendFrom(peer, p, begin), w.actor.nextIn, w.actor.nextOut - 1;
    HandleAtTurn(env, w, m);
    var entry := InboundEntry(m, n, Accept(RESEND_REQUEST, n + 1, Some((begin, end)), None), w.actor.nextEvent);
    TracedDo(j, w, CommitInbound(entry));
    WritesGrow(w.trace, Did(CommitInbound(entry)));
    c := Do(w, CommitInbound(entry)).(actor := w.actor.(nextIn := n + 1, nextEvent := w.actor.nextEvent + 1));
    assert CommitExpected(env, w, m) == Replay(env, c, begin, end);
    hide CommitExpected;
    var r := Replay(env, c, begin, end);
    if r.error.None? {
      DrainNothing(env, r.w);
    }
  }

  // ----- the loop -----

  /** A peer that is not recovering and has nothing buffered gets a message ahead of its turn that it can take
      later and that this session has sent. The peer asks, the session answers, and the peer takes the answer
      exactly when no gap fill of it starts at the number of that message. Then the peer is Established again
      with nothing buffered, knows every number the session has sent, and has journaled every application
      message among them with its payload. */
  lemma GapIsRecovered(
      j: Journal, env: Env, w: World, peerJournal: Journal, peer: Env, p: World, m: Message, n: nat,
      messages: seq<Message>)
    requires Kept(j, w) && ConfigOk(env.config) && w.actor.gap == map[] && w.actor.phase != Recovering
    requires Good(peerJournal, peer, p) && ConfigOk(peer.config) && p.actor.gap == map[] && p.actor.phase != Recovering
    requires Mirrored(env.config, peer.config) && TakesReplays(peer.config) && TakesRequests(env.config)
    requires p.actor.nextOut == w.actor.nextIn <= U64_MAX && 1 <= p.actor.nextIn < n < w.actor.nextOut <= U64_MAX
    requires Takeable(peer.config, p.journal, m, n)
    requires forall k: nat | p.actor.nextIn <= k < w.actor.nextOut && IsReplayable(w.journal.outbound, k) ::
               Deliverable(env, peer.config, w.journal.outbound, map[n := m], k, w.ticks)
    requires Writes(Handle(env, w, ResendFrom(peer, p, p.actor.nextIn)).w.trace) == Writes(w.trace) + messages
    ensures var asked := Handle(peer, p, m);
            var answered := Handle(env, w, ResendFrom(peer, p, p.actor.nextIn));
            var items := Plan(w.journal.outbound, p.actor.nextIn, w.actor.nextOut - 1, None);
            var r := HandleAll(peer, Step(asked.w, None), messages);
            && asked.error.None? && asked.w.actor.phase == Recovering
            && SentBy(p, asked.w, [ResendFrom(peer, p, p.actor.nextIn)])
            && answered.error.None?
            && (r.error.None? <==> NoGapHeld(items, map[n := m]))
            && (r.error.None? ==>
                && Good(peerJournal, peer, r.w)
                && r.w.actor.phase == Established && r.w.actor.gap == map[] && r.w.actor.nextIn == w.actor.nextOut
                && RowsKept(p.actor.nextIn, p.journal.inbound, r.w.journal.inbound)
                && Delivered(items, w.journal.outbound, r.w.journal.inbound))
  {
    hide Traced, Handle, Replay, Plan, Takeable, TakesReplays, TakesRequests, Mirrored, Deliverable, HandleAll, Writes,
         NoGapHeld, RowsKept, Delivered, SentBy, GapGood, ResendFrom, EnvelopeFault, NumberAt, Intact, IsReplayable,
         OutboundGrown, OutboundInv;
    var begin, end := p.actor.nextIn, w.actor.nextOut - 1;
    TakeablePasses(peer.config, p.journal, m, n);
    AheadAsks(peerJournal, peer, p, m, n);
    HandledGood(peerJournal, peer, p, m);
    var asked := Handle(peer, p, m).w;
    KeptOutbound(peerJournal, p);
    TakeableLater(peer.config, p.journal, asked.journal, m, n);
    var c := RequestAnswered(j, env, w, peer, p, begin);
    forall k: nat | begin <= k <= end && IsReplayable(c.journal.outbound, k)
      ensures k in c.journal.outbound && Intact(c.journal.outbound[k].wire)
    {
      DeliverableIntact(env, peer.config, w.journal.outbound, map[n := m], k, w.ticks);
    }
    ReplayWrites(j, env, c, begin, end);
    ReplayEndsRecovery(j, env, c, begin, end, messages, peerJournal, peer, asked);
  }

  // ----- a request that cannot be answered -----

  /** A peer's request that reaches a message whose stored bytes do not parse ends the session. */
  lemma UnreadableStopsSession(
      j: Journal, env: Env, w: World, peer: Env, p: World, begin: nat, n: nat, reason: ParseError)
    requires Kept(j, w) && ConfigOk(env.config) && w.actor.gap == map[] && w.actor.phase != Recovering
    requires Mirrored(env.config, peer.config) && TakesRequests(env.config)
    requires p.actor.nextOut == w.actor.nextIn <= U64_MAX && 1 <= begin <= n < w.actor.nextOut <= U64_MAX
    requires IsReplayable(w.journal.outbound, n) && IntactRange(w.journal.outbound, begin, n - 1)
    requires Parse(WireOf(w.journal.outbound[n].wire)) == Err(reason)
    ensures var r := Handle(env, w, ResendFrom(peer, p, begin));
            r.error == Some(Unparsable(reason)) && Fatal(r.error.value)
  {
    hide Traced, Handle, Replay, Plan, TakesRequests, Mirrored, Writes, ResendFrom, Intact, IsReplayable, Parse, WireOf;
    var c := RequestAnswered(j, env, w, peer, p, begin);
    ReplayStopsAt(j, env, c, begin, w.actor.nextOut - 1, n, reason);
  }
}
