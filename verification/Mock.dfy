// The mock acceptor: it answers logons, test requests, orders and logouts, and accepts nothing out of
// sequence.

module Mock {
  import opened Text
  import opened Codec
  import opened Messages
  import S = Session

  datatype MockConfig = MockConfig(
    beginString: Bytes, senderCompId: Bytes, targetCompId: Bytes, heartbeatSecs: nat)

  datatype MockFault =
    | BeginStringMismatch
    | SenderMismatch
    | TargetMismatch
    | MissingTag(tag: u32)
    | NotANumber(tag: u32)
    | SequenceMismatch(expected: nat, actual: nat)
    | InboundOverflow
    | OutboundOverflow
    | ExecutionOverflow
    | UnsupportedMsgType
    | Unencodable(error: CodecError)

  datatype Acceptor = Acceptor(nextIn: nat, nextOut: nat, nextExecutionId: nat, established: bool, ticks: nat)

  datatype Outcome = Going | Ended | Broken(fault: MockFault)

  /** The acceptor after a message or a timer, what it sent, and whether it goes on. */
  datatype Response = Response(acceptor: Acceptor, sent: seq<Message>, outcome: Outcome)

  const FRESH: Acceptor := Acceptor(1, 1, 1, false, 0)

  const ORDER_PREFIX: Bytes := [0x4D, 0x4F, 0x43, 0x4B, 0x2D, 0x4F, 0x52, 0x44, 0x45, 0x52, 0x2D] // "MOCK-ORDER-"
  const EXEC_PREFIX: Bytes := [0x4D, 0x4F, 0x43, 0x4B, 0x2D, 0x45, 0x58, 0x45, 0x43, 0x2D] // "MOCK-EXEC-"
  const CODE_NEW: Bytes := [0x30] // "0"
  const CODE_CANCELED: Bytes := [0x34] // "4"
  const CODE_REPLACED: Bytes := [0x35] // "5"
  const NOTHING: Bytes := [0x30] // "0"

  function EnvelopeFault(config: MockConfig, m: Message, expected: nat): Option<MockFault> {
    if m.beginString != config.beginString then Some(BeginStringMismatch)
    else
      match First(m.fields, 49)
      case None => Some(MissingTag(49))
      case Some(sender) =>
        if sender != config.targetCompId then Some(SenderMismatch)
        else
          match First(m.fields, 56)
          case None => Some(MissingTag(56))
          case Some(target) =>
            if target != config.senderCompId then Some(TargetMismatch)
            else
              match First(m.fields, 34)
              case None => Some(MissingTag(34))
              case Some(text) =>
                match ParseU64(text)
                case None => Some(NotANumber(34))
                case Some(n) => if n != expected then Some(SequenceMismatch(expected, n)) else None
  }

  function Header(config: MockConfig, msgType: Bytes, n: nat, time: Bytes): seq<Field> {
    [Field(35, msgType), Field(49, config.senderCompId), Field(56, config.targetCompId), Field(34, Dec(n)),
     Field(52, time)]
  }

  function LogonExtra(config: MockConfig, m: Message): seq<Field> {
    [Field(98, S.NO_ENCRYPTION), Field(108, Dec(config.heartbeatSecs))]
    + if First(m.fields, 141) == Some(YES) then [Field(141, YES)] else []
  }

  /** A copy of the first value of a tag, when there is one. */
  function Copied(m: Message, tag: u32): seq<Field> {
    match First(m.fields, tag) case Some(v) => [Field(tag, v)] case None => []
  }

  function ExecutionReport(m: Message, msgType: Bytes, clOrdId: Bytes, executionId: nat): seq<Field> {
    var quantity := match First(m.fields, 38) case Some(q) => q case None => NOTHING;
    var status := if msgType == S.CANCEL then CODE_CANCELED else CODE_NEW;
    var kind :=
      if msgType == S.CANCEL then CODE_CANCELED else if msgType == S.REPLACE then CODE_REPLACED else CODE_NEW;
    [Field(37, ORDER_PREFIX + Dec(executionId)), Field(11, clOrdId)]
    + Copied(m, 41)
    + [Field(17, EXEC_PREFIX + Dec(executionId)), Field(39, status), Field(150, kind)]
    + Copied(m, 55)
    + Copied(m, 54)
    + [Field(151, if msgType == S.CANCEL then NOTHING else quantity), Field(14, NOTHING)]
  }

  /** Encode and write under the next number. */
  function Send(config: MockConfig, clock: nat -> Bytes, a: Acceptor, msgType: Bytes, extra: seq<Field>): Response {
    var wire := Message(config.beginString, Header(config, msgType, a.nextOut, clock(a.ticks)) + extra);
    var ticked := a.(ticks := a.ticks + 1);
    match Refusal(wire.beginString, wire.fields)
    case Some(e) => Response(ticked, [], Broken(Unencodable(e)))
    case None =>
      if a.nextOut >= U64_MAX then Response(ticked, [wire], Broken(OutboundOverflow))
      else Response(ticked.(nextOut := a.nextOut + 1), [wire], Going)
  }

  /** The logout is answered with the last message, and no number is taken for it. */
  function SendLast(config: MockConfig, clock: nat -> Bytes, a: Acceptor): Response {
    var wire := Message(config.beginString, Header(config, S.LOGOUT, a.nextOut, clock(a.ticks)));
    var ticked := a.(ticks := a.ticks + 1);
    match Refusal(wire.beginString, wire.fields)
    case Some(e) => Response(ticked, [], Broken(Unencodable(e)))
    case None => Response(ticked, [wire], Ended)
  }

  /** What the acceptor does about a message of this type. */
  function Answer(config: MockConfig, clock: nat -> Bytes, a: Acceptor, m: Message, t: Bytes): Response {
    if t == S.LOGON then Send(config, clock, a.(established := true), S.LOGON, LogonExtra(config, m))
    else if t == S.HEARTBEAT then Response(a, [], Going)
    else if t == S.TEST_REQUEST then Send(config, clock, a, S.HEARTBEAT, Copied(m, 112))
    else if t == S.NEW_ORDER || t == S.CANCEL || t == S.REPLACE then
      match First(m.fields, 11)
      case None => Response(a, [], Broken(MissingTag(11)))
      case Some(clOrdId) =>
        var report := ExecutionReport(m, t, clOrdId, a.nextExecutionId);
        if a.nextExecutionId >= U64_MAX then Response(a, [], Broken(ExecutionOverflow))
        else Send(config, clock, a.(nextExecutionId := a.nextExecutionId + 1), S.EXECUTION_REPORT, report)
    else if t == S.LOGOUT then SendLast(config, clock, a)
    else Response(a, [], Broken(UnsupportedMsgType))
  }

  function Receive(config: MockConfig, clock: nat -> Bytes, a: Acceptor, m: Message): Response {
    match EnvelopeFault(config, m, a.nextIn)
    case Some(fault) => Response(a, [], Broken(fault))
    case None =>
      if a.nextIn >= U64_MAX then Response(a, [], Broken(InboundOverflow))
      else
        match First(m.fields, 35)
        case None => Response(a.(nextIn := a.nextIn + 1), [], Broken(MissingTag(35)))
        case Some(t) => Answer(config, clock, a.(nextIn := a.nextIn + 1), m, t)
  }

  /** The heartbeat timer. */
  function Beat(config: MockConfig, clock: nat -> Bytes, a: Acceptor): Response {
    if a.established then Send(config, clock, a, S.HEARTBEAT, []) else Response(a, [], Going)
  }

  /** The messages of one read, until the session ends. */
  function ReceiveAll(config: MockConfig, clock: nat -> Bytes, r: Response, messages: seq<Message>): Response
    decreases |messages|
  {
    if messages == [] || !r.outcome.Going? then r
    else
      var next := Receive(config, clock, r.acceptor, messages[0]);
      ReceiveAll(config, clock, next.(sent := r.sent + next.sent), messages[1..])
  }

  class MockSession {
    const config: MockConfig
    const clock: nat -> Bytes
    var nextIn: nat
    var nextOut: nat
    var nextExecutionId: nat
    var established: bool
    var ticks: nat
    /** Everything written to the socket. */
    ghost var written: seq<Message>

    function State(): Acceptor
      reads this
    {
      Acceptor(nextIn, nextOut, nextExecutionId, established, ticks)
    }

    constructor (config: MockConfig, clock: nat -> Bytes)
      ensures this.config == config && this.clock == clock && State() == FRESH && written == []
    {
      this.config, this.clock := config, clock;
      nextIn, nextOut, nextExecutionId, established, ticks := 1, 1, 1, false, 0;
      written := [];
    }

    method WriteMessage(msgType: Bytes, extra: seq<Field>) returns (e: Option<MockFault>)
      modifies this
      ensures var wire := Message(config.beginString, Header(config, msgType, old(nextOut), clock(old(ticks))) + extra);
              && (e == match Refusal(wire.beginString, wire.fields)
                       case Some(c) => Some(Unencodable(c))
                       case None => None)
              && written == old(written) + (if e.None? then [wire] else [])
              && State() == old(State()).(ticks := old(ticks) + 1)
    {
      var wire := Message(config.beginString, Header(config, msgType, nextOut, clock(ticks)) + extra);
      ticks := ticks + 1;
      var refusal := Refusal(wire.beginString, wire.fields);
      if refusal.Some? {
        return Some(Unencodable(refusal.value));
      }
      written := written + [wire];
      e := None;
    }

    method Respond(msgType: Bytes, extra: seq<Field>) returns (o: Outcome)
      modifies this
      ensures var r := Send(config, clock, old(State()), msgType, extra);
              State() == r.acceptor && written == old(written) + r.sent && o == r.outcome
    {
      var e := WriteMessage(msgType, extra);
      if e.Some? {
        return Broken(e.value);
      }
      if nextOut >= U64_MAX {
        return Broken(OutboundOverflow);
      }
      nextOut := nextOut + 1;
      o := Going;
    }

    method OnMessage(m: Message) returns (o: Outcome)
      modifies this
      ensures var r := Receive(config, clock, old(State()), m);
              State() == r.acceptor && written == old(written) + r.sent && o == r.outcome
    {
      hide EnvelopeFault, Send, ExecutionReport, Refusal;
      var fault := EnvelopeFault(config, m, nextIn);
      if fault.Some? {
        return Broken(fault.value);
      }
      if nextIn >= U64_MAX {
        return Broken(InboundOverflow);
      }
      nextIn := nextIn + 1;
      var msgType := First(m.fields, 35);
      if msgType.None? {
        return Broken(MissingTag(35));
      }
      var t := msgType.value;
      o := Going;
      if t == S.LOGON {
        established := true;
        o := Respond(S.LOGON, LogonExtra(config, m));
      } else if t == S.HEARTBEAT {
      } else if t == S.TEST_REQUEST {
        o := Respond(S.HEARTBEAT, Copied(m, 112));
      } else if t == S.NEW_ORDER || t == S.CANCEL || t == S.REPLACE {
        var clOrdId := First(m.fields, 11);
        if clOrdId.None? {
          return Broken(MissingTag(11));
        }
        var report := ExecutionReport(m, t, clOrdId.value, nextExecutionId);
        if nextExecutionId >= U64_MAX {
          return Broken(ExecutionOverflow);
        }
        nextExecutionId := nextExecutionId + 1;
        o := Respond(S.EXECUTION_REPORT, report);
      } else if t == S.LOGOUT {
        assert Header(config, S.LOGOUT, nextOut, clock(ticks)) + [] == Header(config, S.LOGOUT, nextOut, clock(ticks));
        var e := WriteMessage(S.LOGOUT, []);
        o := if e.Some? then Broken(e.value) else Ended;
      } else {
        o := Broken(UnsupportedMsgType);
      }
    }

    method OnTimer() returns (o: Outcome)
      modifies this
      ensures var r := Beat(config, clock, old(State()));
              State() == r.acceptor && written == old(written) + r.sent && o == r.outcome
    {
      o := Going;
      if established {
        o := Respond(S.HEARTBEAT, []);
      }
    }

    method OnRead(messages: seq<Message>) returns (o: Outcome)
      modifies this
      ensures var r := ReceiveAll(config, clock, Response(old(State()), [], Going), messages);
              State() == r.acceptor && written == old(written) + r.sent && o == r.outcome
    {
      hide Receive;
      o := Going;
      ghost var sent: seq<Message> := [];
      var i := 0;
      assert messages[0..] == messages;
      while i < |messages| && o.Going?
        invariant i <= |messages| && written == old(written) + sent
        invariant ReceiveAll(config, clock, Response(State(), sent, o), messages[i..]) ==
                  ReceiveAll(config, clock, Response(old(State()), [], Going), messages)
      {
        assert messages[i..][1..] == messages[i + 1..];
        ghost var next := Receive(config, clock, State(), messages[i]).sent;
        assert written + next == old(written) + (sent + next);
        o := OnMessage(messages[i]);
        sent := sent + next;
        i := i + 1;
      }
    }
  }
}
