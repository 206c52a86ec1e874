// The journal: six tables and four counters, and one atomic transaction per operation.

module Store {
  import opened Text
  import opened Messages

  datatype RecordPhase = Journaled | Written

  datatype CommandRecord = CommandRecord(
    requestId: Bytes, fingerprint: Bytes, clOrdId: Bytes, msgSeqNum: nat, phase: RecordPhase)

  datatype OutboundRecord = OutboundRecord(command: CommandRecord, wire: Message)

  datatype TransmissionKind = ApplicationReplay | GapFill

  datatype TransmissionRecord = TransmissionRecord(
    id: nat, msgSeqNum: nat, kind: TransmissionKind, wire: Message, phase: RecordPhase)

  datatype EventKind = SequenceResync | SessionLogon | SessionLogout | ExecutionReport | FixMessage

  datatype EventDetails =
    | MessageDetails(msgType: Bytes, msgSeqNum: nat)
    | ResyncDetails(expected: nat, realignTo: nat)

  datatype EventRecord = EventRecord(id: nat, kind: EventKind, details: EventDetails)

  datatype InboundRecord = InboundRecord(msgSeqNum: nat, msgType: Bytes, wire: Message, eventId: nat)

  datatype OutboundCommit = OutboundCommit(
    requestId: Bytes, fingerprint: Bytes, clOrdId: Bytes, msgSeqNum: nat, wire: Message)

  datatype InboundCommit = InboundCommit(
    msgSeqNum: nat, nextInAfter: nat, msgType: Bytes, wire: Message, event: EventRecord)

  datatype StoreError =
    | IdempotencyConflict(requestId: Bytes)
    | OutboundSequenceMismatch(expected: nat, actual: nat)
    | InboundSequenceMismatch(expected: nat, actual: nat)
    | EventSequenceMismatch(expected: nat, actual: nat)
    | InvalidNextInbound(current: nat, nextInAfter: nat)
    | UnknownCommand(requestId: Bytes)
    | UnknownTransmission(id: nat)

  /** The operations that write. */
  datatype StoreOp =
    | CommitOutbound(outbound: OutboundCommit)
    | MarkOutboundWritten(requestId: Bytes, msgSeqNum: nat)
    | CommitTransmission(replayOf: nat, kind: TransmissionKind, wire: Message)
    | MarkTransmissionWritten(id: nat)
    | CommitInbound(inbound: InboundCommit)
    | ResyncInbound(nextInAfter: nat, event: EventRecord)
    | ResetSequences

  datatype StoreReply =
    | Command(command: CommandRecord)
    | Transmission(transmission: TransmissionRecord)
    | Inbound(inbound: InboundRecord)
    | ResyncedInbound(nextIn: nat)
    | SequencesReset(nextEvent: nat)

  datatype Journal = Journal(
    commands: map<Bytes, CommandRecord>,
    outbound: map<nat, OutboundRecord>,
    transmissions: map<nat, TransmissionRecord>,
    inbound: map<nat, InboundRecord>,
    events: map<nat, EventRecord>,
    nextOut: nat, nextIn: nat, nextEvent: nat, nextTransmission: nat)

  const EMPTY: Journal := Journal(map[], map[], map[], map[], map[], 1, 1, 1, 1)

  // ----- what each transaction does -----

  function AfterCommitOutbound(j: Journal, c: OutboundCommit): (Journal, Result<CommandRecord, StoreError>) {
    if c.requestId in j.commands then
      var existing := j.commands[c.requestId];
      (j, if existing.fingerprint != c.fingerprint then Err(IdempotencyConflict(c.requestId)) else Ok(existing))
    else if c.msgSeqNum != j.nextOut then
      (j, Err(OutboundSequenceMismatch(j.nextOut, c.msgSeqNum)))
    else
      var command := CommandRecord(c.requestId, c.fingerprint, c.clOrdId, c.msgSeqNum, Journaled);
      (j.(commands := j.commands[c.requestId := command],
          outbound := j.outbound[c.msgSeqNum := OutboundRecord(command, c.wire)],
          nextOut := j.nextOut + 1),
       Ok(command))
  }

  function AfterMarkOutbound(j: Journal, requestId: Bytes, n: nat): (Journal, Result<CommandRecord, StoreError>) {
    if requestId !in j.commands then (j, Err(UnknownCommand(requestId)))
    else if j.commands[requestId].msgSeqNum != n then
      (j, Err(OutboundSequenceMismatch(j.commands[requestId].msgSeqNum, n)))
    else if n !in j.outbound then (j, Err(UnknownCommand(requestId)))
    else
      var command := j.commands[requestId].(phase := Written);
      (j.(commands := j.commands[requestId := command],
          outbound := j.outbound[n := j.outbound[n].(command := command)]),
       Ok(command))
  }

  function AfterCommitTransmission(j: Journal, n: nat, kind: TransmissionKind, wire: Message)
    : (Journal, TransmissionRecord)
  {
    var record := TransmissionRecord(j.nextTransmission, n, kind, wire, Journaled);
    (j.(transmissions := j.transmissions[record.id := record], nextTransmission := j.nextTransmission + 1), record)
  }

  function AfterMarkTransmission(j: Journal, id: nat): (Journal, Result<TransmissionRecord, StoreError>) {
    if id !in j.transmissions then (j, Err(UnknownTransmission(id)))
    else
      var record := j.transmissions[id].(phase := Written);
      (j.(transmissions := j.transmissions[record.id := record]), Ok(record))
  }

  function AfterCommitInbound(j: Journal, c: InboundCommit): (Journal, Result<InboundRecord, StoreError>) {
    if c.msgSeqNum != j.nextIn then (j, Err(InboundSequenceMismatch(j.nextIn, c.msgSeqNum)))
    else if c.event.id != j.nextEvent then (j, Err(EventSequenceMismatch(j.nextEvent, c.event.id)))
    else if c.nextInAfter <= j.nextIn then (j, Err(InvalidNextInbound(j.nextIn, c.nextInAfter)))
    else
      var record := InboundRecord(c.msgSeqNum, c.msgType, c.wire, c.event.id);
      (j.(inbound := j.inbound[c.msgSeqNum := record],
          events := j.events[c.event.id := c.event],
          nextIn := c.nextInAfter,
          nextEvent := j.nextEvent + 1),
       Ok(record))
  }

  function AfterResyncInbound(j: Journal, nextInAfter: nat, event: EventRecord): (Journal, Result<nat, StoreError>) {
    if nextInAfter == 0 then (j, Err(InvalidNextInbound(0, 0)))
    else if event.id != j.nextEvent then (j, Err(EventSequenceMismatch(j.nextEvent, event.id)))
    else
      (j.(events := j.events[event.id := event], nextIn := nextInAfter, nextEvent := j.nextEvent + 1),
       Ok(nextInAfter))
  }

  function AfterReset(j: Journal): (Journal, nat) {
    (j.(outbound := map[], transmissions := map[], inbound := map[],
        nextOut := 1, nextIn := 1, nextTransmission := 1, nextEvent := j.nextEvent + 1),
     j.nextEvent + 1)
  }

  function Wrap<T>(r: (Journal, Result<T, StoreError>), reply: T -> StoreReply)
    : (Journal, Result<StoreReply, StoreError>)
  {
    (r.0, match r.1 case Ok(v) => Ok(reply(v)) case Err(e) => Err(e))
  }

  function After(j: Journal, op: StoreOp): (Journal, Result<StoreReply, StoreError>) {
    match op
    case CommitOutbound(c) => Wrap(AfterCommitOutbound(j, c), v => Command(v))
    case MarkOutboundWritten(id, n) => Wrap(AfterMarkOutbound(j, id, n), v => Command(v))
    case CommitTransmission(n, kind, wire) =>
      var (after, record) := AfterCommitTransmission(j, n, kind, wire);
      (after, Ok(Transmission(record)))
    case MarkTransmissionWritten(id) => Wrap(AfterMarkTransmission(j, id), v => Transmission(v))
    case CommitInbound(c) => Wrap(AfterCommitInbound(j, c), v => Inbound(v))
    case ResyncInbound(n, event) => Wrap(AfterResyncInbound(j, n, event), v => ResyncedInbound(v))
    case ResetSequences =>
      var (after, nextEvent) := AfterReset(j);
      (after, Ok(SequencesReset(nextEvent)))
  }

  function RangeOf(j: Journal, begin: nat, end: nat): seq<OutboundRecord>
    decreases end - begin
  {
    if begin > end then []
    else (if begin in j.outbound then [j.outbound[begin]] else []) + RangeOf(j, begin + 1, end)
  }

  // ----- the store -----

  class RedbStore {
    var commands: map<Bytes, CommandRecord>
    var outbound: map<nat, OutboundRecord>
    var transmissions: map<nat, TransmissionRecord>
    var inbound: map<nat, InboundRecord>
    var events: map<nat, EventRecord>
    var nextOut: nat
    var nextIn: nat
    var nextEvent: nat
    var nextTransmission: nat

    function State(): Journal
      reads this
    {
      Journal(commands, outbound, transmissions, inbound, events, nextOut, nextIn, nextEvent, nextTransmission)
    }

    /** A database that did not exist before. */
    constructor Create()
      ensures State() == EMPTY
    {
      commands, outbound, transmissions, inbound, events := map[], map[], map[], map[], map[];
      nextOut, nextIn, nextEvent, nextTransmission := 1, 1, 1, 1;
    }

    /** A database left behind by an earlier process. */
    constructor Open(j: Journal)
      ensures State() == j
    {
      commands, outbound, transmissions, inbound, events :=
        j.commands, j.outbound, j.transmissions, j.inbound, j.events;
      nextOut, nextIn, nextEvent, nextTransmission := j.nextOut, j.nextIn, j.nextEvent, j.nextTransmission;
    }

    method CommitOutbound(c: OutboundCommit) returns (r: Result<CommandRecord, StoreError>)
      modifies this
      ensures (State(), r) == AfterCommitOutbound(old(State()), c)
    {
      if c.requestId in commands {
        var existing := commands[c.requestId];
        if existing.fingerprint != c.fingerprint {
          return Err(IdempotencyConflict(c.requestId));
        }
        return Ok(existing);
      }
      if c.msgSeqNum != nextOut {
        return Err(OutboundSequenceMismatch(nextOut, c.msgSeqNum));
      }
      var command := CommandRecord(c.requestId, c.fingerprint, c.clOrdId, c.msgSeqNum, Journaled);
      commands := commands[c.requestId := command];
      outbound := outbound[c.msgSeqNum := OutboundRecord(command, c.wire)];
      nextOut := nextOut + 1;
      r := Ok(command);
    }

    method MarkOutboundWritten(requestId: Bytes, n: nat) returns (r: Result<CommandRecord, StoreError>)
      modifies this
      ensures (State(), r) == AfterMarkOutbound(old(State()), requestId, n)
    {
      if requestId !in commands {
        return Err(UnknownCommand(requestId));
      }
      var command := commands[requestId];
      if command.msgSeqNum != n {
        return Err(OutboundSequenceMismatch(command.msgSeqNum, n));
      }
      if n !in outbound {
        return Err(UnknownCommand(requestId));
      }
      var record := outbound[n];
      command := command.(phase := Written);
      record := record.(command := command);
      commands := commands[requestId := command];
      outbound := outbound[n := record];
      r := Ok(command);
    }

    method CommitTransmission(n: nat, kind: TransmissionKind, wire: Message) returns (r: TransmissionRecord)
      modifies this
      ensures (State(), r) == AfterCommitTransmission(old(State()), n, kind, wire)
    {
      r := TransmissionRecord(nextTransmission, n, kind, wire, Journaled);
      transmissions := transmissions[r.id := r];
      nextTransmission := nextTransmission + 1;
    }

    method MarkTransmissionWritten(id: nat) returns (r: Result<TransmissionRecord, StoreError>)
      modifies this
      ensures (State(), r) == AfterMarkTransmission(old(State()), id)
    {
      if id !in transmissions {
        return Err(UnknownTransmission(id));
      }
      var record := transmissions[id].(phase := Written);
      transmissions := transmissions[record.id := record];
      r := Ok(record);
    }

    method CommitInbound(c: InboundCommit) returns (r: Result<InboundRecord, StoreError>)
      modifies this
      ensures (State(), r) == AfterCommitInbound(old(State()), c)
    {
      if c.msgSeqNum != nextIn {
        return Err(InboundSequenceMismatch(nextIn, c.msgSeqNum));
      }
      if c.event.id != nextEvent {
        return Err(EventSequenceMismatch(nextEvent, c.event.id));
      }
      if c.nextInAfter <= nextIn {
        return Err(InvalidNextInbound(nextIn, c.nextInAfter));
      }
      var record := InboundRecord(c.msgSeqNum, c.msgType, c.wire, c.event.id);
      inbound := inbound[c.msgSeqNum := record];
      events := events[c.event.id := c.event];
      nextIn := c.nextInAfter;
      nextEvent := nextEvent + 1;
      r := Ok(record);
    }

    method ResyncInbound(nextInAfter: nat, event: EventRecord) returns (r: Result<nat, StoreError>)
      modifies this
      ensures (State(), r) == AfterResyncInbound(old(State()), nextInAfter, event)
    {
      if nextInAfter == 0 {
        return Err(InvalidNextInbound(0, 0));
      }
      if event.id != nextEvent {
        return Err(EventSequenceMismatch(nextEvent, event.id));
      }
      events := events[event.id := event];
      nextIn := nextInAfter;
      nextEvent := nextEvent + 1;
      r := Ok(nextInAfter);
    }

    method ResetSequences() returns (newNextEvent: nat)
      modifies this
      ensures (State(), newNextEvent) == AfterReset(old(State()))
    {
      outbound, transmissions, inbound := map[], map[], map[];
      nextOut, nextIn, nextTransmission := 1, 1, 1;
      nextEvent := nextEvent + 1;
      newNextEvent := nextEvent;
    }

    method Apply(op: StoreOp) returns (r: Result<StoreReply, StoreError>)
      modifies this
      ensures (State(), r) == After(old(State()), op)
    {
      match op {
        case CommitOutbound(c) =>
          var v := CommitOutbound(c);
          r := if v.Ok? then Ok(Command(v.value)) else Err(v.error);
        case MarkOutboundWritten(id, n) =>
          var v := MarkOutboundWritten(id, n);
          r := if v.Ok? then Ok(Command(v.value)) else Err(v.error);
        case CommitTransmission(n, kind, wire) =>
          var v := CommitTransmission(n, kind, wire);
          r := Ok(Transmission(v));
        case MarkTransmissionWritten(id) =>
          var v := MarkTransmissionWritten(id);
          r := if v.Ok? then Ok(Transmission(v.value)) else Err(v.error);
        case CommitInbound(c) =>
          var v := CommitInbound(c);
          r := if v.Ok? then Ok(Inbound(v.value)) else Err(v.error);
        case ResyncInbound(n, event) =>
          var v := ResyncInbound(n, event);
          r := if v.Ok? then Ok(ResyncedInbound(v.value)) else Err(v.error);
        case ResetSequences =>
          var v := ResetSequences();
          r := Ok(SequencesReset(v));
      }
    }

    method LoadOutboundRange(begin: nat, end: nat) returns (records: seq<OutboundRecord>)
      ensures records == RangeOf(State(), begin, end)
    {
      records := [];
      var sequence := begin;
      while sequence <= end
        invariant begin <= sequence
        invariant records + RangeOf(State(), sequence, end) == RangeOf(State(), begin, end)
        decreases end + 1 - sequence
      {
        if sequence in outbound {
          assert records + ([outbound[sequence]] + RangeOf(State(), sequence + 1, end)) ==
                 records + [outbound[sequence]] + RangeOf(State(), sequence + 1, end);
          records := records + [outbound[sequence]];
        }
        sequence := sequence + 1;
      }
    }

    method LoadInbound(sequence: nat) returns (r: Option<InboundRecord>)
      ensures r == if sequence in inbound then Some(inbound[sequence]) else None
    {
      r := if sequence in inbound then Some(inbound[sequence]) else None;
    }

    method LoadCommand(requestId: Bytes) returns (r: Option<CommandRecord>)
      ensures r == if requestId in commands then Some(commands[requestId]) else None
    {
      r := if requestId in commands then Some(commands[requestId]) else None;
    }
  }
}
