// The invariant of the whole actor, turn by turn.

module SessionInvariant {
  import opened Text
  import opened Codec
  import opened Messages
  import opened Store
  import opened StoreTheorems
  import opened Session
  import opened SessionSafety

  /** The journal did not refuse anything. */
  predicate NoStoreError(r: Step) { r.error.Some? ==> !r.error.value.StoreFailed? }

  // ----- replay -----

  ghost predicate AllYes(flags: seq<Bytes>) { forall v | v in flags :: v == YES }

  lemma AllYesJoin(a: seq<Bytes>, b: seq<Bytes>)
    requires AllYes(a) && AllYes(b)
    ensures AllYes(a + b)
  {
  }

  /** In a replayed message every PossDupFlag is the one put after a MsgSeqNum. */
  lemma {:induction false} ReplayFlags(env: Env, fields: seq<Field>, origTime: Bytes, ticks: nat)
    ensures var flags := Values(ReplayFields(env, fields, origTime, ticks), 43);
            |flags| == |Values(fields, 34)| && AllYes(flags)
    decreases |fields|
  {
    if fields != [] {
      hide Values, ReplayField, AllYes;
      var f, rest := fields[0], fields[1..];
      var later := if f.tag == 52 then ticks + 1 else ticks;
      ReplayFlags(env, rest, origTime, later);
      ReplayFieldFlags(env, f, origTime, ticks);
      ValuesCons(fields, 34);
      var head, tail := ReplayField(env, f, origTime, ticks), ReplayFields(env, rest, origTime, later);
      assert ReplayFields(env, fields, origTime, ticks) == head + tail;
      hide ReplayFields;
      ValuesAppend(head, tail, 43);
      AllYesJoin(Values(head, 43), Values(tail, 43));
    }
  }

  lemma ReplayFieldFlags(env: Env, f: Field, origTime: Bytes, ticks: nat)
    ensures Values(ReplayField(env, f, origTime, ticks), 43) == if f.tag == 34 then [YES] else []
    ensures AllYes(Values(ReplayField(env, f, origTime, ticks), 43))
  {
    ValuesTwo(f, Field(43, YES), 43);
    ValuesTwo(Field(52, env.clock(ticks)), Field(122, origTime), 43);
  }

  lemma GapFillIsPossDup(config: Config, start: nat, next: nat, now: Bytes, begin: Bytes)
    ensures PossDup(Message(begin, GapFillFields(config, start, next, now)))
  {
    var head := [Field(35, SEQUENCE_RESET), Field(49, config.senderCompId), Field(56, config.targetCompId),
                 Field(34, Dec(start))];
    var tail := [Field(43, YES), Field(52, now), Field(122, now), Field(123, YES), Field(36, Dec(next))];
    assert GapFillFields(config, start, next, now) == head + tail;
    ValuesAppend(head, tail, 43);
    ValuesAbsent(head, 43);
    assert Values(tail, 43)[0] == YES;
  }

  lemma TransmitKeeps(j: Journal, w: World, n: nat, kind: TransmissionKind, wire: Message)
    requires Kept(j, w) && PossDup(wire)
    ensures var r := Transmit(w, n, kind, wire); Kept(j, r.w) && NoStoreError(r)
  {
    hide Traced, PossDup;
    if Refusal(wire.beginString, wire.fields).None? {
      var op := CommitTransmission(n, kind, wire);
      var id := w.journal.nextTransmission;
      TracedTransmit(j, w, n, kind, wire);
      TracedDo(j, Emit(Do(w, op), wire), MarkTransmissionWritten(id));
    }
  }

  lemma SendApplicationReplayKeeps(j: Journal, env: Env, w: World, stored: Message)
    requires Kept(j, w)
    ensures var r := SendApplicationReplay(env, w, stored); Kept(j, r.w) && NoStoreError(r)
  {
    hide Kept, SendReplayOf, Parser.Parse, WireOf;
    if Parser.Parse(WireOf(stored)).Ok? {
      var parsed := Parser.Parse(WireOf(stored)).value;
      SendReplayOfKeeps(j, env, w, Message(parsed.beginString, parsed.fields));
    }
  }

  lemma SendReplayOfKeeps(j: Journal, env: Env, w: World, original: Message)
    requires Kept(j, w)
    ensures var r := SendReplayOf(env, w, original); Kept(j, r.w) && NoStoreError(r)
  {
    hide Traced, Transmit, ReplayFields;
    if NumberAt(original, 34).Some? && First(original.fields, 52).Some? {
      var origTime := First(original.fields, 52).value;
      var wire := Message(env.config.beginString, ReplayFields(env, original.fields, origTime, w.ticks));
      ReplayFlags(env, original.fields, origTime, w.ticks);
      var flags := Values(wire.fields, 43);
      assert flags[0] in flags;
      TransmitKeeps(j, w.(ticks := w.ticks + |Values(original.fields, 52)|), NumberAt(original, 34).value,
                    ApplicationReplay, wire);
    }
  }

  lemma CloseGapKeeps(j: Journal, env: Env, w: World, gapStart: Option<nat>, next: nat)
    requires Kept(j, w)
    ensures var r := CloseGap(env, w, gapStart, next); Kept(j, r.w) && NoStoreError(r)
  {
    hide Traced, Transmit, GapFillFields, PossDup;
    if gapStart.Some? {
      var now := env.clock(w.ticks);
      var wire := Message(env.config.beginString, GapFillFields(env.config, gapStart.value, next, now));
      GapFillIsPossDup(env.config, gapStart.value, next, now, env.config.beginString);
      TransmitKeeps(j, w.(ticks := w.ticks + 1), gapStart.value, GapFill, wire);
    }
  }

  lemma {:induction false} ReplayFromKeeps(
      j: Journal, env: Env, w: World, records: map<nat, OutboundRecord>, n: nat, end: nat, gapStart: Option<nat>)
    requires n <= end + 1 && Kept(j, w)
    ensures var r := ReplayFrom(env, w, records, n, end, gapStart); Kept(j, r.w) && NoStoreError(r)
    decreases end + 1 - n
  {
    hide Kept, CloseGap, SendApplicationReplay;
    if n > end {
      CloseGapKeeps(j, env, w, gapStart, end + 1);
    } else if !IsReplayable(records, n) {
      ReplayFromKeeps(j, env, w, records, n + 1, end, if gapStart.Some? then gapStart else Some(n));
    } else {
      CloseGapKeeps(j, env, w, gapStart, n);
      var closed := CloseGap(env, w, gapStart, n);
      SendApplicationReplayKeeps(j, env, closed.w, records[n].wire);
      var sent := SendApplicationReplay(env, closed.w, records[n].wire);
      ReplayFromKeeps(j, env, sent.w, records, n + 1, end, None);
    }
  }

  // ----- receiving -----

  /** How committing messages may move the phase. */
  predicate PhaseMoves(a: Phase, b: Phase) {
    (a !in {LogonSent, Established} ==> b !in {LogonSent, Established}) && (b == Recovering ==> a == Recovering)
  }

  /** Every buffered message is one that passed the envelope checks, filed under its own number. */
  ghost predicate GapGood(config: Config, gap: map<nat, Message>) {
    && |gap| <= GAP_LIMIT
    && forall n | n in gap :: NumberAt(gap[n], 34) == Some(n) && EnvelopeFault(config, gap[n]).None?
  }

  /** LogonSent and Established imply that nothing is buffered. */
  predicate Quiet(a: Actor) { a.phase in {LogonSent, Established} ==> a.gap == map[] }

  /** Between turns the buffer lies above `next_in`, and it is what makes the phase Recovering. */
  ghost predicate Settled(a: Actor) {
    && Quiet(a) && (a.phase == Recovering ==> a.gap != map[])
    && forall n | n in a.gap :: n > a.nextIn
  }

  /** The actor between turns. */
  ghost predicate Good(j: Journal, env: Env, w: World) {
    Kept(j, w) && GapGood(env.config, w.actor.gap) && Settled(w.actor)
  }

  /** At its turn an inbound message is journaled or rejected, never refused by the journal. */
  lemma CommitExpectedKeeps(j: Journal, env: Env, w: World, m: Message)
    requires Kept(j, w) && NumberAt(m, 34) == Some(w.actor.nextIn)
    ensures var r := CommitExpected(env, w, m);
            Kept(j, r.w) && NoStoreError(r)
            && (r.error.None? ==> r.w.actor.nextIn > w.actor.nextIn)
            && (r.error.None? ==> PhaseMoves(w.actor.phase, r.w.actor.phase))
  {
    hide Traced, React, IsUtf8, PhaseMoves;
    match Judge(env.config, w.actor, m)
    case Reject(fault) =>
    case Accept(t, nextInAfter, resend, testRequestId) =>
      var n := w.actor.nextIn;
      JudgedAdvances(env.config, w.actor, m, n);
      var entry := InboundEntry(m, n, Accept(t, nextInAfter, resend, testRequestId), w.actor.nextEvent);
      var committed := Do(w, CommitInbound(entry));
      TracedDo(j, w, CommitInbound(entry));
      var moved := committed.(actor := w.actor.(nextIn := nextInAfter, nextEvent := w.actor.nextEvent + 1));
      ReactKeeps(j, env, moved, m, t, resend, testRequestId);
  }

  lemma JudgedAdvances(config: Config, actor: Actor, m: Message, n: nat)
    requires NumberAt(m, 34) == Some(n) && Judge(config, actor, m).Accept?
    ensures Judge(config, actor, m).nextInAfter > n
  {
  }

  lemma ReactKeeps(j: Journal, env: Env, w: World, m: Message, t: Bytes, resend: Option<(nat, nat)>, id: Option<Bytes>)
    requires Kept(j, w)
    ensures var r := React(env, w, m, t, resend, id);
            && Kept(j, r.w) && NoStoreError(r)
            && (r.error.None? ==> PhaseMoves(w.actor.phase, r.w.actor.phase))
  {
    hide Traced, SendLogout, SendHeartbeat, Replay;
    SendLogoutKeeps(j, env, w, None);
    SendHeartbeatKeeps(j, env, w, id);
    if resend.Some? && resend.value.0 <= resend.value.1 {
      ReplayKeeps(j, env, w, resend.value.0, resend.value.1);
    }
  }

  lemma ReplayKeeps(j: Journal, env: Env, w: World, begin: nat, end: nat)
    requires Kept(j, w) && begin <= end
    ensures var r := Replay(env, w, begin, end); Kept(j, r.w) && NoStoreError(r)
  {
    hide Kept, ReplayFrom;
    ReplayFromKeeps(j, env, w, ByNumber(RangeOf(w.journal, begin, end)), begin, end, None);
  }

  lemma PartGood(config: Config, gap: map<nat, Message>, part: map<nat, Message>)
    requires GapGood(config, gap) && |part| <= |gap| && part.Keys <= gap.Keys
    requires forall n | n in part :: part[n] == gap[n]
    ensures GapGood(config, part)
  {
  }

  lemma TakenGood(env: Env, w: World)
    requires GapGood(env.config, w.actor.gap) && w.actor.nextIn in w.actor.gap
    ensures GapGood(env.config, Taken(w).actor.gap) && Taken(w) == w.(actor := w.actor.(gap := Taken(w).actor.gap))
    ensures var m := w.actor.gap[w.actor.nextIn];
            NumberAt(m, 34) == Some(w.actor.nextIn) && EnvelopeFault(env.config, m).None?
  {
    PartGood(env.config, w.actor.gap, Taken(w).actor.gap);
  }

  /** What draining leaves in the buffer lies above `next_in`. */
  lemma {:induction false} DrainedAbove(env: Env, w: World)
    requires Drain(env, w).error.None?
    ensures var a := Drain(env, w).w.actor; forall n | n in a.gap :: n > a.nextIn
    decreases |w.actor.gap|
  {
    hide CommitExpected, EnvelopeFault, Taken, StillAhead;
    if w.actor.nextIn in w.actor.gap {
      DrainedAbove(env, CommitExpected(env, Taken(w), w.actor.gap[w.actor.nextIn]).w);
    } else {
      var kept := StillAhead(w.actor.gap, w.actor.nextIn);
      assert w.actor.nextIn !in kept;
    }
  }

  lemma {:induction false} DrainKeeps(j: Journal, env: Env, w: World)
    requires Kept(j, w) && GapGood(env.config, w.actor.gap) && Quiet(w.actor)
    ensures var r := Drain(env, w);
            && Kept(j, r.w) && GapGood(env.config, r.w.actor.gap) && NoStoreError(r)
            && (r.error.None? ==> Quiet(r.w.actor))
    decreases |w.actor.gap|
  {
    if w.actor.nextIn !in w.actor.gap {
      PartGood(env.config, w.actor.gap, StillAhead(w.actor.gap, w.actor.nextIn));
    } else {
      hide Traced, CommitExpected, EnvelopeFault, Taken, GapGood, NumberAt;
      TakenGood(env, w);
      CommitExpectedKeeps(j, env, Taken(w), w.actor.gap[w.actor.nextIn]);
      var r := CommitExpected(env, Taken(w), w.actor.gap[w.actor.nextIn]);
      if r.error.None? {
        DrainKeeps(j, env, r.w);
      }
    }
  }

  lemma AdvanceKeeps(j: Journal, env: Env, w: World, m: Message)
    requires Kept(j, w) && GapGood(env.config, w.actor.gap) && Quiet(w.actor)
    requires NumberAt(m, 34) == Some(w.actor.nextIn)
    ensures var r := Advance(env, w, m);
            && Kept(j, r.w) && GapGood(env.config, r.w.actor.gap) && NoStoreError(r)
            && (r.error.None? ==> Settled(r.w.actor))
  {
    hide Traced, CommitExpected, Drain, GapGood;
    CommitExpectedKeeps(j, env, w, m);
    var r := CommitExpected(env, w, m);
    if r.error.None? {
      DrainKeeps(j, env, r.w);
      if Drain(env, r.w).error.None? {
        DrainedAbove(env, r.w);
      }
    }
  }

  lemma BufferKeeps(j: Journal, env: Env, w: World, m: Message, n: nat)
    requires Good(j, env, w) && n > w.actor.nextIn
    requires NumberAt(m, 34) == Some(n) && EnvelopeFault(env.config, m).None?
    ensures var r := Buffer(env, w, m, n);
            && Kept(j, r.w) && GapGood(env.config, r.w.actor.gap) && NoStoreError(r)
            && (r.error.None? ==> Settled(r.w.actor))
  {
    hide Traced, SendResendRequest, EnvelopeFault, NumberAt, GapGood;
    if |w.actor.gap| < GAP_LIMIT {
      var gap := if n in w.actor.gap then w.actor.gap else w.actor.gap[n := m];
      GapAdds(env.config, w.actor.gap, n, m);
      assert n in gap;
      var buffered := w.(actor := w.actor.(gap := gap));
      SendResendRequestKeeps(j, env, buffered, w.actor.nextIn);
    }
  }

  lemma GapAdds(config: Config, gap: map<nat, Message>, n: nat, m: Message)
    requires GapGood(config, gap) && |gap| < GAP_LIMIT
    requires NumberAt(m, 34) == Some(n) && EnvelopeFault(config, m).None?
    ensures GapGood(config, gap[n := m])
  {
    hide EnvelopeFault, NumberAt;
    assert gap[n := m].Keys == gap.Keys + {n};
  }

  lemma ResyncKeeps(j: Journal, w: World, n: nat)
    requires Kept(j, w)
    ensures var r := Resync(w, n);
            && Kept(j, r.w) && r.w.actor == w.actor.(nextIn := r.w.actor.nextIn, nextEvent := r.w.actor.nextEvent)
            && (r.error.Some? <==> n == 0) && (r.error.None? ==> r.w.actor.nextIn == n)
  {
    hide Traced;
    var event := EventRecord(w.actor.nextEvent, SequenceResync, ResyncDetails(w.actor.nextIn, n));
    TracedDo(j, w, ResyncInbound(n, event));
  }

  /** Handling any message keeps the invariant. The journal refuses only one thing: a logon that would
      realign the inbound sequence to 0. */
  lemma HandleKeeps(j: Journal, env: Env, w: World, m: Message)
    requires Good(j, env, w)
    ensures var r := Handle(env, w, m);
            && Kept(j, r.w) && GapGood(env.config, r.w.actor.gap)
            && (r.error.None? ==> Settled(r.w.actor))
            && (!NoStoreError(r) ==> NumberAt(m, 34) == Some(0) && w.actor.phase == LogonSent)
  {
    hide Traced, EnvelopeFault, GapGood, Buffer, Advance, PossDupFault, Resync, PossDup;
    if EnvelopeFault(env.config, m).None? && NumberAt(m, 34).Some? {
      var n := NumberAt(m, 34).value;
      if n > w.actor.nextIn {
        BufferKeeps(j, env, w, m, n);
      } else if n == w.actor.nextIn {
        AdvanceKeeps(j, env, w, m);
      } else {
        ResyncKeeps(j, w, n);
        var synced := Resync(w, n);
        if synced.error.None? && w.actor.phase == LogonSent {
          AdvanceKeeps(j, env, synced.w, m);
        }
      }
    }
  }

  // ----- turns -----

  /** What the control service guarantees about a submission. */
  predicate Admissible(w: World, input: Input) {
    input.Submitted? ==> AgentId(input.request.requestId) && !StaleAtNext(w.journal, input.request)
  }

  lemma TickKeeps(j: Journal, env: Env, w: World, expired: bool, idle: bool)
    requires Good(j, env, w)
    ensures var r := Tick(env, w, expired, idle); Kept(j, r.w) && (r.error.None? ==> Good(j, env, r.w))
  {
    hide Traced, SendHeartbeat, SendLogout, SendTestRequest, GapGood;
    SendHeartbeatKeeps(j, env, w, None);
    var beat := if w.actor.phase == Established then SendHeartbeat(env, w, None) else Step(w, None);
    SendLogoutKeeps(j, env, beat.w, Some(TIMEOUT_TEXT));
    SendTestRequestKeeps(j, env, beat.w);
  }

  lemma SubmitTouchesNoBuffer(env: Env, w: World, req: ApplicationRequest)
    ensures InboundSideKept(w, Submit(env, w, req).0)
  {
    hide ApplicationFields, Refusal;
  }

  /** A turn keeps the invariant unless it ends the actor, and then actor and journal still agree. */
  lemma TurnKeeps(j: Journal, env: Env, w: World, input: Input)
    requires Good(j, env, w) && Admissible(w, input)
    ensures var r := Turn(env, w, input); Kept(j, r.w) && (r.error.None? ==> Good(j, env, r.w))
  {
    hide Traced, Handle, Submit, SendLogout, Tick, GapGood, AgentId, StaleAtNext;
    match input
    case Received(frame) => HandleFrameKeeps(j, env, w, frame);
    case Submitted(request) =>
      SubmitKeeps(j, env, w, request);
      SubmitTouchesNoBuffer(env, w, request);
    case LogoutAsked(text) =>
      SendLogoutKeeps(j, env, w, text);
      LogoutSettles(env, w, text);
    case Ticked(expired, idle) => TickKeeps(j, env, w, expired, idle);
  }

  lemma HandleFrameKeeps(j: Journal, env: Env, w: World, frame: Bytes)
    requires Good(j, env, w)
    ensures var r := HandleFrame(env, w, frame); Kept(j, r.w) && (r.error.None? ==> Good(j, env, r.w))
  {
    hide Traced, Handle, GapGood, Parser.Parse;
    if Parser.Parse(frame).Ok? {
      var parsed := Parser.Parse(frame).value;
      HandleKeeps(j, env, w, Message(parsed.beginString, parsed.fields));
    }
  }

  lemma LogoutSettles(env: Env, w: World, text: Option<Bytes>)
    requires Settled(w.actor)
    ensures var r := SendLogout(env, w, text);
            r.error.None? || !Fatal(r.error.value) ==> Settled(r.w.actor)
  {
    hide SendAdmin;
  }
}
