// The imperative actor: one object that owns the counters, the phase and the gap buffer and writes through
// to the journal and the socket, proved step by step against the functions of `Session`.

module Actors {
  import opened Text
  import opened Codec
  import opened Messages
  import opened Parser
  import opened Store
  import opened Session
  import opened Reading
  import D = Decoder

  class SessionActor {
    const config: Config
    const clock: nat -> Bytes
    const store: RedbStore
    const decoder: D.FrameDecoder
    var ticks: nat
    var phase: Phase
    var nextOut: nat
    var nextIn: nat
    var nextEvent: nat
    var gapBuffer: map<nat, Message>
    var testRequest: Option<Bytes>
    /** What has been done to the journal and the socket, in order. */
    ghost var trace: seq<Effect>

    ghost function State(): World
      reads this, store
    {
      World(Actor(phase, nextOut, nextIn, nextEvent, gapBuffer, testRequest), store.State(), trace, ticks)
    }

    function Environment(): Env { Env(config, clock) }

    /** Spawned with what the journal recovers. */
    constructor (config: Config, clock: nat -> Bytes, store: RedbStore)
      ensures this.config == config && this.clock == clock && this.store == store
      ensures decoder.buffer == [] && decoder.maxBodyLength == MAX_BODY
      ensures State() == Spawned(store.State())
    {
      decoder := new D.FrameDecoder(MAX_BODY);
      this.config, this.clock, this.store := config, clock, store;
      ticks, phase := 0, Connecting;
      nextOut, nextIn, nextEvent := store.nextOut, store.nextIn, store.nextEvent;
      gapBuffer, testRequest := map[], None;
      trace := [];
    }

    // ----- effects -----

    method SendingTime() returns (time: Bytes)
      modifies `ticks
      ensures time == clock(old(ticks)) && ticks == old(ticks) + 1
    {
      time := clock(ticks);
      ticks := ticks + 1;
    }

    method WriteWire(wire: Message)
      modifies `trace
      ensures State() == Emit(old(State()), wire)
    {
      trace := trace + [Write(wire)];
    }

    method JournalOutbound(c: OutboundCommit) returns (r: Result<CommandRecord, StoreError>)
      modifies store, `trace
      ensures State() == Do(old(State()), StoreOp.CommitOutbound(c))
      ensures r == AfterCommitOutbound(old(store.State()), c).1
    {
      r := store.CommitOutbound(c);
      trace := trace + [Did(StoreOp.CommitOutbound(c))];
    }

    method MarkOutbound(requestId: Bytes, n: nat) returns (r: Result<CommandRecord, StoreError>)
      modifies store, `trace
      ensures State() == Do(old(State()), MarkOutboundWritten(requestId, n))
      ensures r == AfterMarkOutbound(old(store.State()), requestId, n).1
    {
      r := store.MarkOutboundWritten(requestId, n);
      trace := trace + [Did(StoreOp.MarkOutboundWritten(requestId, n))];
    }

    // ----- sending -----

    method DeliverWire(requestId: Bytes, n: nat, wire: Message) returns (e: Option<SessionError>)
      modifies this, store
      ensures Step(State(), e) == Deliver(old(State()), requestId, n, wire)
    {
      WriteWire(wire);
      var marked := MarkOutbound(requestId, n);
      if marked.Err? {
        return Some(StoreFailed(marked.error));
      }
      nextOut := n + 1;
      e := None;
    }

    method SendOwn(kind: Bytes, msgType: Bytes, extra: seq<Field>, fingerprint: Bytes)
      returns (e: Option<SessionError>)
      modifies this, store
      ensures Step(State(), e) == SendAdmin(Environment(), old(State()), kind, msgType, extra, fingerprint)
    {
      var time := SendingTime();
      var wire := Message(config.beginString, Header(config, msgType, nextOut, time) + extra);
      var refusal := Refusal(wire.beginString, wire.fields);
      if refusal.Some? {
        return Some(Refused(refusal.value));
      }
      var requestId := Key(kind, nextOut, nextEvent);
      var commit := StoreOp.CommitOutbound(OutboundCommit(requestId, fingerprint, [], nextOut, Redacted(config, wire)));
      var reply := JournalOutbound(commit.outbound);
      if reply.Err? {
        return Some(StoreFailed(reply.error));
      }
      e := DeliverWire(requestId, reply.value.msgSeqNum, wire);
    }

    method SendLogonMessage() returns (e: Option<SessionError>)
      modifies this, store
      ensures Step(State(), e) == SendLogon(Environment(), old(State()))
    {
      hide SendAdmin;
      if !LogonFieldsOk(config.logonFields) {
        return Some(Protocol(InvalidLogonField));
      }
      if config.resetOnLogon {
        var newNextEvent := store.ResetSequences();
        trace := trace + [Did(ResetSequences)];
        nextOut, nextIn, nextEvent := 1, 1, newNextEvent;
      }
      e := SendOwn(KIND_LOGON, LOGON, LogonExtra(config), ADMIN_PREFIX + LOGON + [COLON] + Dec(nextOut));
    }

    method SendResend(begin: nat) returns (e: Option<SessionError>)
      modifies this, store
      ensures Step(State(), e) == SendResendRequest(Environment(), old(State()), begin)
    {
      e := SendOwn(KIND_RESEND, RESEND_REQUEST, [Field(7, Dec(begin)), Field(16, ALL_FOLLOWING)],
                   ADMIN_PREFIX + RESEND_REQUEST + [COLON] + Dec(nextOut) + [COLON] + Dec(begin));
    }

    method SendHeartbeatMessage(testRequestId: Option<Bytes>) returns (e: Option<SessionError>)
      modifies this, store
      ensures Step(State(), e) == SendHeartbeat(Environment(), old(State()), testRequestId)
    {
      var extra := match testRequestId case Some(id) => [Field(112, id)] case None => [];
      e := SendOwn(KIND_HEARTBEAT, HEARTBEAT, extra, ADMIN_PREFIX + HEARTBEAT + [COLON] + Dec(nextOut));
    }

    method SendTest() returns (e: Option<SessionError>)
      modifies this, store
      ensures Step(State(), e) == SendTestRequest(Environment(), old(State()))
    {
      var id := TEST_PREFIX + Dec(nextOut);
      e := SendOwn(KIND_TEST, TEST_REQUEST, [Field(112, id)],
                   ADMIN_PREFIX + TEST_REQUEST + [COLON] + Dec(nextOut) + [COLON] + id);
      if e.None? {
        testRequest := Some(id);
      }
    }

    method SendLogoutMessage(text: Option<Bytes>) returns (e: Option<SessionError>)
      modifies this, store
      ensures Step(State(), e) == SendLogout(Environment(), old(State()), text)
    {
      if phase !in {LogonSent, Synchronizing, Established, Recovering} {
        return Some(NotEstablished);
      }
      var extra := match text case Some(t) => [Field(58, t)] case None => [];
      e := SendOwn(KIND_LOGOUT, LOGOUT, extra, ADMIN_PREFIX + LOGOUT + [COLON] + Dec(nextOut));
      if e.None? {
        phase := LogoutSent;
      }
    }

    method SubmitApplication(req: ApplicationRequest) returns (r: Result<CommandRecord, SessionError>)
      modifies this, store
      ensures (State(), r) == Submit(Environment(), old(State()), req)
    {
      hide ApplicationFields, SubmitWire;
      if phase != Established {
        return Err(NotEstablished);
      }
      var fields := BuildApplication(req);
      if fields.None? {
        return Err(InvalidApplication);
      }
      ticks := ticks + ApplicationTicks(req);
      var wire := Message(config.beginString, fields.value);
      var refusal := Refusal(wire.beginString, wire.fields);
      if refusal.Some? {
        return Err(Refused(refusal.value));
      }
      r := JournalAndSend(OutboundCommit(req.requestId, req.fingerprint, req.clOrdId, nextOut, wire));
    }

    /** Header, OrigClOrdID where it leads, ClOrdID, and the body with TransactTime after each Side. */
    method BuildApplication(req: ApplicationRequest) returns (r: Option<seq<Field>>)
      ensures r == ApplicationFields(Environment(), State(), req)
    {
      if |req.msgType| == 0 || EQUALS in req.msgType || SOH in req.msgType {
        return None;
      }
      if exists f | f in req.fields :: f.tag in MANAGED_TAGS {
        return None;
      }
      var fields := Header(config, req.msgType, nextOut, clock(ticks));
      var start := 0;
      if NeedsOrigClOrdId(req.msgType) {
        if |req.fields| == 0 || req.fields[0].tag != 41 {
          return None;
        }
        start := 1;
      }
      fields := fields + req.fields[..start] + [Field(11, req.clOrdId)];
      var needed := NeedsTransactTime(req.msgType);
      var body, stamped := StampSides(req.fields[start..], needed);
      if needed && stamped == 0 {
        return None;
      }
      r := Some(fields + body);
    }

    /** TransactTime after each Side, when the order type needs it. */
    method StampSides(body: seq<Field>, needed: bool) returns (built: seq<Field>, stamped: nat)
      ensures built == WithTransactTime(Environment(), body, needed, ticks + 1)
      ensures needed ==> (Values(body, 54) == [] <==> stamped == 0)
    {
      hide WithTransactTime, Values;
      built, stamped := [], 0;
      assert body[0..] == body;
      for i := 0 to |body|
        invariant built + WithTransactTime(Environment(), body[i..], needed, ticks + 1 + stamped) ==
                  WithTransactTime(Environment(), body, needed, ticks + 1)
        invariant needed ==> (Values(body, 54) == [] <==> stamped == 0 && Values(body[i..], 54) == [])
      {
        StampStep(Environment(), body, i, needed, ticks + 1 + stamped);
        var stamps := needed && body[i].tag == 54;
        var placed := if stamps then [body[i], Field(60, clock(ticks + 1 + stamped))] else [body[i]];
        stamped := if stamps then stamped + 1 else stamped;
        ConcatAssociates(built, placed, WithTransactTime(Environment(), body[i + 1..], needed, ticks + 1 + stamped));
        built := built + placed;
      }
      NothingLeft(body);
      StampNothing(Environment(), needed, ticks + 1 + stamped);
      assert built + [] == built;
    }

    method JournalAndSend(commit: OutboundCommit) returns (r: Result<CommandRecord, SessionError>)
      requires commit.msgSeqNum == nextOut
      modifies this, store
      ensures (State(), r) == SubmitWire(old(State()), commit)
    {
      var reply := JournalOutbound(commit);
      if reply.Err? {
        return Err(StoreFailed(reply.error));
      }
      var command := reply.value;
      if command.msgSeqNum < nextOut {
        return Ok(command);
      }
      if command.msgSeqNum != nextOut {
        return Err(FutureSequence(command.msgSeqNum));
      }
      var e := DeliverWire(commit.requestId, command.msgSeqNum, commit.wire);
      r := if e.Some? then Err(e.value) else Ok(command.(phase := Written));
    }

    // ----- replay -----

    method TransmitReplay(n: nat, kind: TransmissionKind, wire: Message) returns (e: Option<SessionError>)
      modifies this, store
      ensures Step(State(), e) == Transmit(old(State()), n, kind, wire)
    {
      var refusal := Refusal(wire.beginString, wire.fields);
      if refusal.Some? {
        return Some(Refused(refusal.value));
      }
      var record := store.CommitTransmission(n, kind, wire);
      trace := trace + [Did(CommitTransmission(n, kind, wire))];
      WriteWire(wire);
      var marked := store.MarkTransmissionWritten(record.id);
      trace := trace + [Did(MarkTransmissionWritten(record.id))];
      match marked {
        case Err(error) => e := Some(StoreFailed(error));
        case Ok(_) => e := None;
      }
    }

    method WriteApplicationReplay(stored: Message) returns (e: Option<SessionError>)
      modifies this, store
      ensures Step(State(), e) == SendApplicationReplay(Environment(), old(State()), stored)
    {
      hide SendReplayOf, Parse, WireOf;
      var parsed := ParseFrame(WireOf(stored));
      if parsed.Err? {
        return Some(Unparsable(parsed.error));
      }
      e := WriteReplayOf(Message(parsed.value.beginString, parsed.value.fields));
    }

    method WriteReplayOf(original: Message) returns (e: Option<SessionError>)
      modifies this, store
      ensures Step(State(), e) == SendReplayOf(Environment(), old(State()), original)
    {
      hide Transmit, ReplayFields, NumberAt, First;
      var n := NumberAt(original, 34);
      if n.None? {
        return Some(Protocol(NumberFault(original, 34)));
      }
      var origTime := First(original.fields, 52);
      if origTime.None? {
        return Some(Protocol(MissingTag(52)));
      }
      var fields, read := BuildReplay(original.fields, origTime.value);
      ticks := ticks + read;
      e := TransmitReplay(n.value, ApplicationReplay, Message(config.beginString, fields));
    }

    method BuildReplay(original: seq<Field>, origTime: Bytes) returns (fields: seq<Field>, read: nat)
      ensures fields == ReplayFields(Environment(), original, origTime, ticks)
      ensures read == |Values(original, 52)|
    {
      hide ReplayFields, ReplayField, Values;
      fields, read := [], 0;
      assert original[0..] == original;
      for i := 0 to |original|
        invariant fields + ReplayFields(Environment(), original[i..], origTime, ticks + read) ==
                  ReplayFields(Environment(), original, origTime, ticks)
        invariant read + |Values(original[i..], 52)| == |Values(original, 52)|
      {
        ReplayStep(Environment(), original, i, origTime, ticks + read);
        var placed := ReplayField(Environment(), original[i], origTime, ticks + read);
        read := if original[i].tag == 52 then read + 1 else read;
        ConcatAssociates(fields, placed, ReplayFields(Environment(), original[i + 1..], origTime, ticks + read));
        fields := fields + placed;
      }
      NothingLeft(original);
      ReplayNothing(Environment(), origTime, ticks + read);
      assert fields + [] == fields;
    }

    method WriteGapFill(start: nat, next: nat) returns (e: Option<SessionError>)
      modifies this, store
      ensures Step(State(), e) == SendGapFill(Environment(), old(State()), start, next)
    {
      var now := SendingTime();
      e := TransmitReplay(start, GapFill, Message(config.beginString, GapFillFields(config, start, next, now)));
    }

    /** Application messages are replayed, everything between them is merged into gap fills. */
    method ReplayValidatedRange(begin: nat, end: nat) returns (e: Option<SessionError>)
      requires begin <= end
      modifies this, store
      ensures Step(State(), e) == Replay(Environment(), old(State()), begin, end)
    {
      hide SendApplicationReplay, SendGapFill, RangeOf, ByNumber;
      var loaded := store.LoadOutboundRange(begin, end);
      var records := ByNumber(loaded);
      var gapStart: Option<nat> := None;
      ghost var goal := Replay(Environment(), State(), begin, end);
      var sequence := begin;
      while sequence <= end
        invariant begin <= sequence <= end + 1
        invariant ReplayFrom(Environment(), State(), records, sequence, end, gapStart) == goal
      {
        if sequence in records && records[sequence].command.clOrdId != [] {
          if gapStart.Some? {
            e := WriteGapFill(gapStart.value, sequence);
            if e.Some? {
              return;
            }
            gapStart := None;
          }
          e := WriteApplicationReplay(records[sequence].wire);
          if e.Some? {
            return;
          }
        } else if gapStart.None? {
          gapStart := Some(sequence);
        }
        sequence := sequence + 1;
      }
      e := None;
      if gapStart.Some? {
        e := WriteGapFill(gapStart.value, end + 1);
      }
    }

    // ----- receiving -----

    method VerifyPossDup(replay: Message, n: nat) returns (e: Option<SessionError>)
      ensures e == match PossDupFault(store.State(), replay, n) case Some(f) => Some(Protocol(f)) case None => None
    {
      if |Values(replay.fields, 43)| != 1 || |Values(replay.fields, 52)| != 1 || |Values(replay.fields, 122)| != 1 {
        return Some(Protocol(PossDupFields));
      }
      var origTime, time := Values(replay.fields, 122)[0], Values(replay.fields, 52)[0];
      if LaterThan(origTime, time) {
        return Some(Protocol(OrigSendingTimeLater));
      }
      var original := store.LoadInbound(n);
      if original.None? {
        return Some(Protocol(NoCommittedOriginal));
      }
      var originalTime := First(original.value.wire.fields, 52);
      if originalTime.None? {
        return Some(Protocol(MissingTag(52)));
      }
      if originalTime.value != origTime || original.value.wire.beginString != replay.beginString
         || Payload(original.value.wire.fields) != Payload(replay.fields) {
        return Some(Protocol(PayloadMismatch));
      }
      e := None;
    }

    method CommitAtTurn(m: Message) returns (e: Option<SessionError>)
      modifies this, store
      ensures Step(State(), e) == CommitExpected(Environment(), old(State()), m)
    {
      hide React, Judge, NumberAt;
      var verdict := Judge(config, Actor(phase, nextOut, nextIn, nextEvent, gapBuffer, testRequest), m);
      if verdict.Reject? {
        return Some(Protocol(verdict.error));
      }
      var entry := InboundEntry(m, NumberAt(m, 34).value, verdict, nextEvent);
      var reply := store.CommitInbound(entry);
      trace := trace + [Did(CommitInbound(entry))];
      if reply.Err? {
        return Some(StoreFailed(reply.error));
      }
      nextIn := verdict.nextInAfter;
      nextEvent := nextEvent + 1;
      e := ReactTo(m, verdict.msgType, verdict.resend, verdict.testRequestId);
    }

    method ReactTo(m: Message, t: Bytes, resend: Option<(nat, nat)>, testRequestId: Option<Bytes>)
      returns (e: Option<SessionError>)
      modifies this, store
      ensures Step(State(), e) == React(Environment(), old(State()), m, t, resend, testRequestId)
    {
      e := None;
      if t == LOGON {
        if phase == LogonSent {
          phase := Established;
        }
      } else if t == HEARTBEAT {
        if testRequest.Some? && First(m.fields, 112) == testRequest {
          testRequest := None;
        }
      } else if t == LOGOUT {
        if phase != LogoutSent {
          e := SendLogoutMessage(None);
          if e.Some? {
            return;
          }
        }
        phase := Disconnected;
      } else if t == RESEND_REQUEST && resend.Some? && resend.value.0 <= resend.value.1 {
        e := ReplayValidatedRange(resend.value.0, resend.value.1);
      } else if t == TEST_REQUEST && testRequestId.Some? {
        e := SendHeartbeatMessage(testRequestId);
      }
    }

    method DrainBuffer() returns (e: Option<SessionError>)
      modifies this, store
      ensures Step(State(), e) == Drain(Environment(), old(State()))
    {
      ghost var goal := Drain(Environment(), State());
      while nextIn in gapBuffer
        invariant Drain(Environment(), State()) == goal
        decreases |gapBuffer|
      {
        var m := gapBuffer[nextIn];
        gapBuffer := Without(StillAhead(gapBuffer, nextIn), nextIn);
        var fault := EnvelopeFault(config, m);
        if fault.Some? {
          return Some(Protocol(fault.value));
        }
        e := CommitAtTurn(m);
        if e.Some? {
          return;
        }
      }
      gapBuffer := StillAhead(gapBuffer, nextIn);
      e := None;
    }

    method AdvanceWith(m: Message) returns (e: Option<SessionError>)
      modifies this, store
      ensures Step(State(), e) == Advance(Environment(), old(State()), m)
    {
      e := CommitAtTurn(m);
      if e.Some? {
        return;
      }
      e := DrainBuffer();
      if e.None? && phase == Recovering && gapBuffer == map[] {
        phase := Established;
      }
    }

    method BufferAhead(m: Message, n: nat) returns (e: Option<SessionError>)
      modifies this, store
      ensures Step(State(), e) == Buffer(Environment(), old(State()), m, n)
    {
      if |gapBuffer| >= GAP_LIMIT {
        return Some(Protocol(GapBufferFull));
      }
      if n !in gapBuffer {
        gapBuffer := gapBuffer[n := m];
      }
      if phase == Recovering {
        return None;
      }
      e := SendResend(nextIn);
      if e.None? {
        phase := Recovering;
      }
    }

    method HandleInbound(frame: Bytes) returns (e: Option<SessionError>)
      modifies this, store
      ensures Step(State(), e) == HandleFrame(Environment(), old(State()), frame)
    {
      var parsed := ParseFrame(frame);
      if parsed.Err? {
        return Some(Unparsable(parsed.error));
      }
      e := HandleMessage(Message(parsed.value.beginString, parsed.value.fields));
    }

    /** One read of the socket: the frames it completes, one after another. */
    method OnRead(chunk: Bytes) returns (e: Option<SessionError>)
      modifies this, store, decoder
      ensures var (rest, reply) := D.IngestSpec(old(decoder.buffer), chunk, decoder.maxBodyLength);
              decoder.buffer == rest && Step(State(), e) == AfterRead(Environment(), old(State()), reply)
    {
      hide D.IngestSpec, HandleFrame;
      var reply := decoder.Ingest(chunk);
      if reply.Err? {
        return Some(Unparsable(Frame(reply.error)));
      }
      var frames := reply.value;
      ghost var inputs := Receipts(frames);
      ghost var goal := Turns(Environment(), Step(State(), None), inputs);
      e := None;
      var i := 0;
      assert inputs[0..] == inputs;
      while i < |frames| && e.None?
        invariant i <= |frames| && decoder.buffer == D.IngestSpec(old(decoder.buffer), chunk, decoder.maxBodyLength).0
        invariant Turns(Environment(), Step(State(), e), inputs[i..]) == goal
      {
        assert inputs[i..][0] == Received(frames[i]) && inputs[i..][1..] == inputs[i + 1..];
        e := HandleInbound(frames[i]);
        i := i + 1;
      }
    }

    method HandleMessage(m: Message) returns (e: Option<SessionError>)
      modifies this, store
      ensures Step(State(), e) == Handle(Environment(), old(State()), m)
    {
      hide EnvelopeFault, Buffer, Advance, PossDupFault, NumberAt, PossDup;
      var fault := EnvelopeFault(config, m);
      if fault.Some? {
        return Some(Protocol(fault.value));
      }
      var number := NumberAt(m, 34);
      if number.None? {
        return Some(Protocol(NumberFault(m, 34)));
      }
      var n := number.value;
      if n > nextIn {
        e := BufferAhead(m, n);
        return;
      }
      if n < nextIn {
        if PossDup(m) {
          e := VerifyPossDup(m, n);
          return;
        }
        if phase != LogonSent {
          return Some(Protocol(UnexpectedSequence(nextIn, n)));
        }
        var event := EventRecord(nextEvent, SequenceResync, ResyncDetails(nextIn, n));
        var reply := store.ResyncInbound(n, event);
        trace := trace + [Did(ResyncInbound(n, event))];
        if reply.Err? {
          return Some(StoreFailed(reply.error));
        }
        nextEvent := nextEvent + 1;
        nextIn := n;
      }
      e := AdvanceWith(m);
    }

    // ----- the loop -----

    method Begin() returns (e: Option<SessionError>)
      requires State() == Spawned(store.State())
      modifies this, store
      ensures Step(State(), e) == Start(Environment(), old(store.State()))
    {
      e := SendLogonMessage();
      if e.None? {
        phase := LogonSent;
      }
    }

    method OnTick(expired: bool, idle: bool) returns (e: Option<SessionError>)
      modifies this, store
      ensures Step(State(), e) == Tick(Environment(), old(State()), expired, idle)
    {
      e := None;
      if phase == Established {
        e := SendHeartbeatMessage(None);
        if e.Some? {
          return;
        }
      }
      if testRequest.Some? {
        if expired {
          e := SendLogoutMessage(Some(TIMEOUT_TEXT));
          if e.None? {
            e := Some(Protocol(TestRequestTimeout));
          }
        }
      } else if phase == Established && idle {
        e := SendTest();
      }
    }

    method TakeTurn(input: Input) returns (e: Option<SessionError>)
      modifies this, store
      ensures Step(State(), e) == Turn(Environment(), old(State()), input)
    {
      match input {
        case Received(frame) => e := HandleInbound(frame);
        case Submitted(request) =>
          var reply := SubmitApplication(request);
          e := if reply.Err? && Fatal(reply.error) then Some(reply.error) else None;
        case LogoutAsked(text) =>
          e := SendLogoutMessage(text);
          if e.Some? && !Fatal(e.value) {
            e := None;
          }
        case Ticked(expired, idle) => e := OnTick(expired, idle);
      }
    }

    /** The whole life of an actor on its inputs. */
    method Run(inputs: seq<Input>) returns (e: Option<SessionError>)
      requires State() == Spawned(store.State())
      modifies this, store
      ensures Step(State(), e) == Turns(Environment(), Start(Environment(), old(store.State())), inputs)
    {
      e := Begin();
      ghost var goal := Turns(Environment(), Step(State(), e), inputs);
      var i := 0;
      assert inputs[0..] == inputs;
      while i < |inputs| && e.None?
        invariant i <= |inputs|
        invariant Turns(Environment(), Step(State(), e), inputs[i..]) == goal
      {
        assert inputs[i..][1..] == inputs[i + 1..];
        e := TakeTurn(inputs[i]);
        i := i + 1;
      }
    }
  }

  lemma NothingLeft(fields: seq<Field>)
    ensures fields[|fields|..] == []
  {
  }

  lemma StampNothing(env: Env, needed: bool, ticks: nat)
    ensures WithTransactTime(env, [], needed, ticks) == [] && Values([], 54) == []
  {
  }

  lemma StampStep(env: Env, body: seq<Field>, i: nat, needed: bool, ticks: nat)
    requires i < |body|
    ensures WithTransactTime(env, body[i..], needed, ticks) ==
            if needed && body[i].tag == 54
            then [body[i], Field(60, env.clock(ticks))] + WithTransactTime(env, body[i + 1..], needed, ticks + 1)
            else [body[i]] + WithTransactTime(env, body[i + 1..], needed, ticks)
    ensures body[i].tag == 54 ==> Values(body[i..], 54) != []
    ensures body[i].tag != 54 ==> Values(body[i..], 54) == Values(body[i + 1..], 54)
  {
    assert body[i..][1..] == body[i + 1..];
  }

  lemma ReplayNothing(env: Env, origTime: Bytes, ticks: nat)
    ensures ReplayFields(env, [], origTime, ticks) == [] && Values([], 52) == []
  {
  }

  lemma ReplayStep(env: Env, fields: seq<Field>, i: nat, origTime: Bytes, ticks: nat)
    requires i < |fields|
    ensures ReplayFields(env, fields[i..], origTime, ticks) ==
            ReplayField(env, fields[i], origTime, ticks)
            + ReplayFields(env, fields[i + 1..], origTime, if fields[i].tag == 52 then ticks + 1 else ticks)
    ensures |Values(fields[i..], 52)| == (if fields[i].tag == 52 then 1 else 0) + |Values(fields[i + 1..], 52)|
  {
    hide ReplayField;
    assert fields[i..][1..] == fields[i + 1..];
  }

  lemma ConcatAssociates(a: seq<Field>, b: seq<Field>, c: seq<Field>)
    ensures a + (b + c) == a + b + c
  {
  }
}
