// The session actor as a function: what each of its operations does to the actor, to the journal and
// to the socket. `SessionActor.dfy` proves the imperative actor against these functions.
//
// A world carries the trace of effects so far. A crash between two effects leaves the journal of a
// prefix of the trace, and so does a socket write or a store transaction that fails.

module Session {
  import opened Text
  import opened Codec
  import opened Messages
  import opened Parser
  import opened Store

  datatype Phase =
    | Disconnected | Connecting | LogonSent | Synchronizing | Established | Recovering | LogoutSent | Blocked

  datatype Config = Config(
    beginString: Bytes, senderCompId: Bytes, targetCompId: Bytes, heartbeatSecs: nat, resetOnLogon: bool,
    logonFields: seq<Field>)

  /** The configuration and the clock, which answers the n-th reading. */
  datatype Env = Env(config: Config, clock: nat -> Bytes)

  datatype Actor = Actor(
    phase: Phase, nextOut: nat, nextIn: nat, nextEvent: nat, gap: map<nat, Message>, testRequest: Option<Bytes>)

  datatype Effect = Did(op: StoreOp) | Write(wire: Message)

  datatype World = World(actor: Actor, journal: Journal, trace: seq<Effect>, ticks: nat)

  datatype ProtocolFault =
    | InvalidLogonField
    | GapBufferFull
    | UnexpectedSequence(expected: nat, actual: nat)
    | PossDupFields
    | OrigSendingTimeLater
    | NoCommittedOriginal
    | PayloadMismatch
    | BeginStringMismatch
    | SenderMismatch
    | TargetMismatch
    | SensitiveTag
    | MissingTag(tag: u32)
    | NotANumber(tag: u32)
    | MsgTypeMissing
    | MsgTypeNotText
    | HeartBtIntMismatch
    | InvalidResendRange
    | ResetWithoutGapFill
    | NewSeqNoTooLow
    | TestRequestTimeout

  datatype SessionError =
    | StoreFailed(store: StoreError)
    | FutureSequence(sequence: nat)
    | Refused(codec: CodecError)
    | Unparsable(parse: ParseError)
    | Protocol(fault: ProtocolFault)
    | NotEstablished
    | InvalidApplication

  predicate Fatal(e: SessionError) { !e.NotEstablished? && !e.InvalidApplication? }

  datatype Step = Step(w: World, error: Option<SessionError>)

  datatype ApplicationRequest = ApplicationRequest(
    requestId: Bytes, fingerprint: Bytes, clOrdId: Bytes, msgType: Bytes, fields: seq<Field>)

  const HEARTBEAT: Bytes := [0x30] // "0"
  const TEST_REQUEST: Bytes := [0x31] // "1"
  const RESEND_REQUEST: Bytes := [0x32] // "2"
  const SEQUENCE_RESET: Bytes := [0x34] // "4"
  const LOGOUT: Bytes := [0x35] // "5"
  const EXECUTION_REPORT: Bytes := [0x38] // "8"
  const LOGON: Bytes := [0x41] // "A"
  const NEW_ORDER: Bytes := [0x44] // "D"
  const CANCEL: Bytes := [0x46] // "F"
  const REPLACE: Bytes := [0x47] // "G"

  const NO_ENCRYPTION: Bytes := [0x30] // "0"
  const ALL_FOLLOWING: Bytes := [0x30] // "0"
  const REDACTED: Bytes := [0x3C, 0x72, 0x65, 0x64, 0x61, 0x63, 0x74, 0x65, 0x64, 0x3E] // "<redacted>"
  const TEST_PREFIX: Bytes := [0x54, 0x45, 0x53, 0x54, 0x2D] // "TEST-"
  // "TestRequest response timeout"
  const TIMEOUT_TEXT: Bytes := [
    0x54, 0x65, 0x73, 0x74, 0x52, 0x65, 0x71, 0x75, 0x65, 0x73, 0x74, 0x20, 0x72, 0x65, 0x73, 0x70, 0x6F, 0x6E,
    0x73, 0x65, 0x20, 0x74, 0x69, 0x6D, 0x65, 0x6F, 0x75, 0x74
  ]

  const SESSION_PREFIX: Bytes := [0x73, 0x65, 0x73, 0x73, 0x69, 0x6F, 0x6E, 0x3A] // "session:"
  const KIND_LOGON: Bytes := [0x6C, 0x6F, 0x67, 0x6F, 0x6E] // "logon"
  // "resend-request"
  const KIND_RESEND: Bytes := [
    0x72, 0x65, 0x73, 0x65, 0x6E, 0x64, 0x2D, 0x72, 0x65, 0x71, 0x75, 0x65, 0x73, 0x74
  ]
  const KIND_HEARTBEAT: Bytes := [0x68, 0x65, 0x61, 0x72, 0x74, 0x62, 0x65, 0x61, 0x74] // "heartbeat"
  const KIND_TEST: Bytes := [0x74, 0x65, 0x73, 0x74, 0x2D, 0x72, 0x65, 0x71, 0x75, 0x65, 0x73, 0x74] // "test-request"
  const KIND_LOGOUT: Bytes := [0x6C, 0x6F, 0x67, 0x6F, 0x75, 0x74] // "logout"
  const ADMIN_PREFIX: Bytes := [0x61, 0x64, 0x6D, 0x69, 0x6E, 0x3A] // "admin:"

  /** The encoder accepts the configured BeginString. */
  predicate ConfigOk(config: Config) {
    config.beginString != [] && SOH !in config.beginString && EQUALS !in config.beginString
  }

  // ----- effects -----

  function Do(w: World, op: StoreOp): World {
    w.(journal := After(w.journal, op).0, trace := w.trace + [Did(op)])
  }

  function Emit(w: World, wire: Message): World { w.(trace := w.trace + [Write(wire)]) }

  /** Nothing but `next_out`, the clock and the outbound side of the journal may differ. */
  ghost predicate InboundSideKept(a: World, b: World) {
    && b.actor == a.actor.(nextOut := b.actor.nextOut)
    && b.journal.inbound == a.journal.inbound && b.journal.events == a.journal.events
    && b.journal.nextIn == a.journal.nextIn && b.journal.nextEvent == a.journal.nextEvent
  }

  /** Nothing of the journal but its transmissions may differ. */
  ghost predicate OnlyTransmits(a: World, b: World) {
    b.journal == a.journal.(transmissions := b.journal.transmissions, nextTransmission := b.journal.nextTransmission)
  }

  // ----- sending -----

  /** The idempotency key of a message the session sends on its own account. */
  function Key(kind: Bytes, nextOut: nat, nextEvent: nat): Bytes {
    SESSION_PREFIX + kind + [COLON] + Dec(nextOut) + [COLON] + Dec(nextEvent)
  }

  /** Agents choose ids that do not begin with "session:". */
  predicate AgentId(id: Bytes) { !(SESSION_PREFIX <= id) }

  lemma KeyHasPrefix(kind: Bytes, o: nat, e: nat)
    ensures !AgentId(Key(kind, o, e))
  {
    assert Key(kind, o, e) == SESSION_PREFIX + (kind + [COLON] + Dec(o) + [COLON] + Dec(e));
  }

  /** Effects are only added, and no reset is among them. */
  ghost predicate Extends(a: World, b: World) {
    && a.trace <= b.trace
    && forall i | |a.trace| <= i < |b.trace| :: b.trace[i] != Did(ResetSequences)
  }

  /** The next number has not gone back, and no command of an agent has come, gone or changed but for its
      phase. */
  ghost predicate AgentsKept(a: World, b: World) {
    && Extends(a, b) && a.journal.nextOut <= b.journal.nextOut
    && forall id | AgentId(id) ::
      && (id in a.journal.commands <==> id in b.journal.commands)
      && (id in a.journal.commands ==>
            b.journal.commands[id].(phase := a.journal.commands[id].phase) == a.journal.commands[id])
  }

  function Header(config: Config, msgType: Bytes, n: nat, time: Bytes): seq<Field> {
    [Field(35, msgType), Field(49, config.senderCompId), Field(56, config.targetCompId), Field(34, Dec(n)),
     Field(52, time)]
  }

  /** Write a journaled message to the socket, mark it written and advance. */
  function Deliver(w: World, requestId: Bytes, n: nat, wire: Message): (r: Step)
    ensures InboundSideKept(w, r.w) && AgentsKept(w, r.w)
  {
    var sent := Emit(w, wire);
    var marked := Do(sent, MarkOutboundWritten(requestId, n));
    match AfterMarkOutbound(w.journal, requestId, n).1
    case Err(e) => Step(marked, Some(StoreFailed(e)))
    case Ok(_) => Step(marked.(actor := w.actor.(nextOut := n + 1)), None)
  }

  /** Journal, write, mark. The session's own messages take no other branch on a stored record. */
  function Send(w: World, commit: OutboundCommit, wire: Message): (r: Step)
    ensures InboundSideKept(w, r.w) && (!AgentId(commit.requestId) ==> AgentsKept(w, r.w))
  {
    var journaled := Do(w, CommitOutbound(commit));
    match AfterCommitOutbound(w.journal, commit).1
    case Err(e) => Step(journaled, Some(StoreFailed(e)))
    case Ok(command) => Deliver(journaled, commit.requestId, command.msgSeqNum, wire)
  }

  /** One of the session's own messages: standard header, then `extra`. */
  function SendAdmin(env: Env, w: World, kind: Bytes, msgType: Bytes, extra: seq<Field>, fingerprint: Bytes): (r: Step)
    ensures InboundSideKept(w, r.w) && AgentsKept(w, r.w)
  {
    var fields := Header(env.config, msgType, w.actor.nextOut, env.clock(w.ticks)) + extra;
    var wire := Message(env.config.beginString, fields);
    var ticked := w.(ticks := w.ticks + 1);
    match Refusal(wire.beginString, wire.fields)
    case Some(e) => Step(ticked, Some(Refused(e)))
    case None =>
      var key := Key(kind, w.actor.nextOut, w.actor.nextEvent);
      KeyHasPrefix(kind, w.actor.nextOut, w.actor.nextEvent);
      Send(ticked, OutboundCommit(key, fingerprint, [], w.actor.nextOut, Redacted(env.config, wire)), wire)
  }

  predicate IsSensitive(config: Config, tag: u32) {
    tag == 553 || tag == 554 || tag == 925 || exists f | f in config.logonFields :: f.tag == tag
  }

  function RedactedField(config: Config, f: Field): Field {
    if IsSensitive(config, f.tag) then Field(f.tag, REDACTED) else f
  }

  /** The form in which a Logon is journaled. */
  function RedactedFields(config: Config, fields: seq<Field>): (r: seq<Field>)
    ensures |r| == |fields| && forall i | 0 <= i < |r| :: r[i] == RedactedField(config, fields[i])
  {
    seq(|fields|, i requires 0 <= i < |fields| => RedactedField(config, fields[i]))
  }

  /** Only Logon carries fields that must not be journaled. */
  function Redacted(config: Config, wire: Message): Message {
    if MsgType(wire) == Some(LOGON) then wire.(fields := RedactedFields(config, wire.fields)) else wire
  }

  function SendResendRequest(env: Env, w: World, begin: nat): (r: Step)
    ensures InboundSideKept(w, r.w) && AgentsKept(w, r.w)
  {
    SendAdmin(env, w, KIND_RESEND, RESEND_REQUEST, [Field(7, Dec(begin)), Field(16, ALL_FOLLOWING)],
              ADMIN_PREFIX + RESEND_REQUEST + [COLON] + Dec(w.actor.nextOut) + [COLON] + Dec(begin))
  }

  function SendHeartbeat(env: Env, w: World, testRequestId: Option<Bytes>): (r: Step)
    ensures InboundSideKept(w, r.w) && AgentsKept(w, r.w)
  {
    SendAdmin(env, w, KIND_HEARTBEAT, HEARTBEAT,
              match testRequestId case Some(id) => [Field(112, id)] case None => [],
              ADMIN_PREFIX + HEARTBEAT + [COLON] + Dec(w.actor.nextOut))
  }

  function SendTestRequest(env: Env, w: World): (r: Step)
    ensures AgentsKept(w, r.w)
  {
    var id := TEST_PREFIX + Dec(w.actor.nextOut);
    var r := SendAdmin(env, w, KIND_TEST, TEST_REQUEST, [Field(112, id)],
                       ADMIN_PREFIX + TEST_REQUEST + [COLON] + Dec(w.actor.nextOut) + [COLON] + id);
    if r.error.Some? then r else r.(w := r.w.(actor := r.w.actor.(testRequest := Some(id))))
  }

  /** Logout is sent once, from a phase in which the peer may still answer. */
  function SendLogout(env: Env, w: World, text: Option<Bytes>): (r: Step)
    ensures r.w.actor.gap == w.actor.gap && r.w.actor.nextIn == w.actor.nextIn && AgentsKept(w, r.w)
  {
    if w.actor.phase !in {LogonSent, Synchronizing, Established, Recovering} then Step(w, Some(NotEstablished))
    else
      var r := SendAdmin(env, w, KIND_LOGOUT, LOGOUT,
                         match text case Some(t) => [Field(58, t)] case None => [],
                         ADMIN_PREFIX + LOGOUT + [COLON] + Dec(w.actor.nextOut));
      if r.error.Some? then r else r.(w := r.w.(actor := r.w.actor.(phase := LogoutSent)))
  }

  // ----- logon -----

  const RESERVED_LOGON_TAGS: set<u32> := {0, 8, 9, 10, 34, 35, 43, 49, 52, 56, 98, 108, 1137, 122}

  predicate LogonFieldsOk(fields: seq<Field>) {
    && (forall f | f in fields :: f.tag !in RESERVED_LOGON_TAGS && SOH !in f.value)
    && (forall i, k | 0 <= i < k < |fields| :: fields[i].tag != fields[k].tag)
  }

  function LogonExtra(config: Config): seq<Field> {
    [Field(98, NO_ENCRYPTION), Field(108, Dec(config.heartbeatSecs))]
    + (if config.resetOnLogon then [Field(141, YES)] else [])
    + config.logonFields
  }

  function SendLogon(env: Env, w: World): Step {
    if !LogonFieldsOk(env.config.logonFields) then Step(w, Some(Protocol(InvalidLogonField)))
    else
      var start := if env.config.resetOnLogon then Reset(w) else w;
      SendAdmin(env, start, KIND_LOGON, LOGON, LogonExtra(env.config),
                ADMIN_PREFIX + LOGON + [COLON] + Dec(start.actor.nextOut))
  }

  function Reset(w: World): World {
    var after := Do(w, ResetSequences);
    after.(actor := w.actor.(nextOut := 1, nextIn := 1, nextEvent := AfterReset(w.journal).1))
  }

  // ----- application messages -----

  const MANAGED_TAGS: set<u32> := {8, 9, 10, 11, 34, 35, 43, 49, 52, 56, 60, 122}

  /** The fields after ClOrdID, with TransactTime after each Side when the order type needs it. */
  function WithTransactTime(env: Env, fields: seq<Field>, needed: bool, ticks: nat): seq<Field> {
    if fields == [] then []
    else if needed && fields[0].tag == 54 then
      [fields[0], Field(60, env.clock(ticks))] + WithTransactTime(env, fields[1..], needed, ticks + 1)
    else [fields[0]] + WithTransactTime(env, fields[1..], needed, ticks)
  }

  predicate NeedsTransactTime(msgType: Bytes) { msgType == NEW_ORDER || msgType == REPLACE }

  predicate NeedsOrigClOrdId(msgType: Bytes) { msgType == CANCEL || msgType == REPLACE }

  /** The fields of an application message, or None when the request is not acceptable. */
  function ApplicationFields(env: Env, w: World, req: ApplicationRequest): Option<seq<Field>> {
    var header := Header(env.config, req.msgType, w.actor.nextOut, env.clock(w.ticks));
    if req.msgType == [] || EQUALS in req.msgType || SOH in req.msgType then None
    else if exists f | f in req.fields :: f.tag in MANAGED_TAGS then None
    else if NeedsOrigClOrdId(req.msgType) && (req.fields == [] || req.fields[0].tag != 41) then None
    else
      var split := if NeedsOrigClOrdId(req.msgType) then 1 else 0;
      var body := req.fields[split..];
      if NeedsTransactTime(req.msgType) && Values(body, 54) == [] then None
      else Some(header + req.fields[..split] + [Field(11, req.clOrdId)]
                + WithTransactTime(env, body, NeedsTransactTime(req.msgType), w.ticks + 1))
  }

  /** How often building the message reads the clock. */
  function ApplicationTicks(req: ApplicationRequest): nat {
    1 + if NeedsTransactTime(req.msgType) then |Values(req.fields, 54)| else 0
  }

  /** Journal and send an application message, unless its request is stored already. */
  function Submit(env: Env, w: World, req: ApplicationRequest): (r: (World, Result<CommandRecord, SessionError>))
    ensures Extends(w, r.0)
  {
    if w.actor.phase != Established then (w, Err(NotEstablished))
    else
      match ApplicationFields(env, w, req)
      case None => (w, Err(InvalidApplication))
      case Some(fields) =>
        var wire := Message(env.config.beginString, fields);
        var ticked := w.(ticks := w.ticks + ApplicationTicks(req));
        match Refusal(wire.beginString, wire.fields)
        case Some(e) => (ticked, Err(Refused(e)))
        case None =>
          SubmitWire(ticked, OutboundCommit(req.requestId, req.fingerprint, req.clOrdId, w.actor.nextOut, wire))
  }

  function SubmitWire(w: World, commit: OutboundCommit): (r: (World, Result<CommandRecord, SessionError>))
    ensures Extends(w, r.0)
  {
    var journaled := Do(w, CommitOutbound(commit));
    match AfterCommitOutbound(w.journal, commit).1
    case Err(e) => (journaled, Err(StoreFailed(e)))
    case Ok(command) =>
      if command.msgSeqNum < w.actor.nextOut then (journaled, Ok(command))
      else if command.msgSeqNum != w.actor.nextOut then (journaled, Err(FutureSequence(command.msgSeqNum)))
      else
        var r := Deliver(journaled, commit.requestId, command.msgSeqNum, commit.wire);
        (r.w, match r.error case Some(e) => Err(e) case None => Ok(command.(phase := Written)))
  }

  // ----- replay -----

  /** What a field becomes in a replay: a PossDupFlag follows MsgSeqNum, a new SendingTime replaces the old
      one, which becomes OrigSendingTime. */
  function ReplayField(env: Env, f: Field, origTime: Bytes, ticks: nat): seq<Field> {
    if f.tag == 43 || f.tag == 122 then []
    else if f.tag == 34 then [f, Field(43, YES)]
    else if f.tag == 52 then [Field(52, env.clock(ticks)), Field(122, origTime)]
    else [f]
  }

  function ReplayFields(env: Env, fields: seq<Field>, origTime: Bytes, ticks: nat): seq<Field> {
    if fields == [] then []
    else
      ReplayField(env, fields[0], origTime, ticks)
      + ReplayFields(env, fields[1..], origTime, if fields[0].tag == 52 then ticks + 1 else ticks)
  }

  function GapFillFields(config: Config, start: nat, next: nat, now: Bytes): seq<Field> {
    [Field(35, SEQUENCE_RESET), Field(49, config.senderCompId), Field(56, config.targetCompId),
     Field(34, Dec(start)), Field(43, YES), Field(52, now), Field(122, now), Field(123, YES), Field(36, Dec(next))]
  }

  /** A replayed message is journaled as a transmission of its own and never moves `next_out`. */
  function Transmit(w: World, n: nat, kind: TransmissionKind, wire: Message): (r: Step)
    ensures OnlyTransmits(w, r.w) && AgentsKept(w, r.w) && r.w.actor == w.actor
  {
    match Refusal(wire.beginString, wire.fields)
    case Some(e) => Step(w, Some(Refused(e)))
    case None =>
      var (journal, record) := AfterCommitTransmission(w.journal, n, kind, wire);
      var sent := Emit(Do(w, CommitTransmission(n, kind, wire)), wire);
      var marked := Do(sent, MarkTransmissionWritten(record.id));
      match AfterMarkTransmission(journal, record.id).1
      case Err(e) => Step(marked, Some(StoreFailed(e)))
      case Ok(_) => Step(marked, None)
  }

  /** The bytes of the journaled message are read back, and what they say is sent again. */
  function SendApplicationReplay(env: Env, w: World, stored: Message): (r: Step)
    ensures OnlyTransmits(w, r.w) && AgentsKept(w, r.w) && r.w.actor == w.actor
  {
    match Parse(WireOf(stored))
    case Err(e) => Step(w, Some(Unparsable(e)))
    case Ok(parsed) => SendReplayOf(env, w, Message(parsed.beginString, parsed.fields))
  }

  function SendReplayOf(env: Env, w: World, original: Message): (r: Step)
    ensures OnlyTransmits(w, r.w) && AgentsKept(w, r.w) && r.w.actor == w.actor
  {
    match (NumberAt(original, 34), First(original.fields, 52))
    case (Some(n), Some(origTime)) =>
      var wire := Message(env.config.beginString, ReplayFields(env, original.fields, origTime, w.ticks));
      Transmit(w.(ticks := w.ticks + |Values(original.fields, 52)|), n, ApplicationReplay, wire)
    case (None, _) => Step(w, Some(Protocol(NumberFault(original, 34))))
    case (_, None) => Step(w, Some(Protocol(MissingTag(52))))
  }

  function NumberFault(m: Message, tag: u32): ProtocolFault {
    if First(m.fields, tag).None? then MissingTag(tag) else NotANumber(tag)
  }

  function SendGapFill(env: Env, w: World, start: nat, next: nat): (r: Step)
    ensures OnlyTransmits(w, r.w) && AgentsKept(w, r.w) && r.w.actor == w.actor
  {
    var wire := Message(env.config.beginString, GapFillFields(env.config, start, next, env.clock(w.ticks)));
    Transmit(w.(ticks := w.ticks + 1), start, GapFill, wire)
  }

  /** The records of a range by their sequence number. */
  function ByNumber(records: seq<OutboundRecord>): map<nat, OutboundRecord> {
    if records == [] then map[]
    else
      var last := records[|records| - 1];
      ByNumber(records[..|records| - 1])[last.command.msgSeqNum := last]
  }

  predicate IsReplayable(records: map<nat, OutboundRecord>, n: nat) {
    n in records && records[n].command.clOrdId != []
  }

  /** Close the gap that is open, if one is. */
  function CloseGap(env: Env, w: World, gapStart: Option<nat>, next: nat): (r: Step)
    ensures OnlyTransmits(w, r.w) && AgentsKept(w, r.w) && r.w.actor == w.actor
  {
    match gapStart
    case None => Step(w, None)
    case Some(start) => SendGapFill(env, w, start, next)
  }

  /** The replay loop from `n` on, with the gap that is open before it. */
  function ReplayFrom(env: Env, w: World, records: map<nat, OutboundRecord>, n: nat, end: nat, gapStart: Option<nat>)
    : (r: Step)
    requires n <= end + 1
    ensures OnlyTransmits(w, r.w) && AgentsKept(w, r.w) && r.w.actor == w.actor
    decreases end + 1 - n
  {
    hide CloseGap, SendApplicationReplay;
    if n > end then CloseGap(env, w, gapStart, end + 1)
    else if !IsReplayable(records, n) then
      ReplayFrom(env, w, records, n + 1, end, if gapStart.Some? then gapStart else Some(n))
    else
      var closed := CloseGap(env, w, gapStart, n);
      if closed.error.Some? then closed
      else
        var sent := SendApplicationReplay(env, closed.w, records[n].wire);
        if sent.error.Some? then sent else ReplayFrom(env, sent.w, records, n + 1, end, None)
  }

  /** The range a ResendRequest asks for, cut off at the last sent number; 0 means everything. */
  function ReplayRange(nextOut: nat, begin: nat, requestedEnd: nat): (r: Option<(nat, nat)>)
    ensures r.Some? ==> r.value.0 == begin && 1 <= begin <= r.value.1 < nextOut
  {
    var last := if nextOut == 0 then 0 else nextOut - 1;
    var end := if requestedEnd == 0 || requestedEnd > last then last else requestedEnd;
    if begin == 0 || begin > end then None else Some((begin, end))
  }

  function Replay(env: Env, w: World, begin: nat, end: nat): (r: Step)
    requires begin <= end
    ensures OnlyTransmits(w, r.w) && AgentsKept(w, r.w) && r.w.actor == w.actor
  {
    ReplayFrom(env, w, ByNumber(RangeOf(w.journal, begin, end)), begin, end, None)
  }

  // ----- receiving -----

  /** Why the envelope of an inbound message is refused, if it is. */
  function EnvelopeFault(config: Config, m: Message): Option<ProtocolFault> {
    if m.beginString != config.beginString then Some(BeginStringMismatch)
    else
      match First(m.fields, 49)
      case None => Some(MissingTag(49))
      case Some(sender) =>
        if sender != config.targetCompId then Some(SenderMismatch)
        else
          match First(m.fields, 56)
          case None => Some(MissingTag(56))
          case Some(target) =>
            if target != config.senderCompId then Some(TargetMismatch)
            else if exists f | f in m.fields :: IsSensitive(config, f.tag) then Some(SensitiveTag)
            else None
  }

  /** Byte strings are ordered as slices are: bytewise, a proper prefix first. */
  predicate LaterThan(a: Bytes, b: Bytes) {
    if a == [] then false
    else if b == [] then true
    else if a[0] != b[0] then a[0] > b[0]
    else LaterThan(a[1..], b[1..])
  }

  /** The fields that a replay may not change. */
  function Payload(fields: seq<Field>): seq<Field> {
    if fields == [] then []
    else if fields[0].tag == 43 || fields[0].tag == 52 || fields[0].tag == 122 then Payload(fields[1..])
    else [fields[0]] + Payload(fields[1..])
  }

  /** Why a possible duplicate of sequence `n` is refused, if it is. */
  function PossDupFault(j: Journal, replay: Message, n: nat): Option<ProtocolFault> {
    var flags, times, origs := Values(replay.fields, 43), Values(replay.fields, 52), Values(replay.fields, 122);
    if |flags| != 1 || |times| != 1 || |origs| != 1 then Some(PossDupFields)
    else if LaterThan(origs[0], times[0]) then Some(OrigSendingTimeLater)
    else if n !in j.inbound then Some(NoCommittedOriginal)
    else
      var original := j.inbound[n].wire;
      match First(original.fields, 52)
      case None => Some(MissingTag(52))
      case Some(time) =>
        if time != origs[0] || original.beginString != replay.beginString
           || Payload(original.fields) != Payload(replay.fields)
        then Some(PayloadMismatch) else None
  }

  function KindOfEvent(msgType: Bytes): EventKind {
    if msgType == LOGON then SessionLogon
    else if msgType == LOGOUT then SessionLogout
    else if msgType == EXECUTION_REPORT then ExecutionReport
    else FixMessage
  }

  /** What an inbound message asks for, once everything in it that must be valid is. */
  datatype Verdict =
    | Reject(error: ProtocolFault)
    | Accept(msgType: Bytes, nextInAfter: nat, resend: Option<(nat, nat)>, testRequestId: Option<Bytes>)

  function CheckReset(m: Message, baseline: nat): Result<nat, ProtocolFault> {
    match First(m.fields, 123)
    case None => Err(MissingTag(123))
    case Some(flag) =>
      if flag != YES then Err(ResetWithoutGapFill)
      else
        match NumberAt(m, 36)
        case None => Err(NumberFault(m, 36))
        case Some(newSeqNo) => if newSeqNo <= baseline then Err(NewSeqNoTooLow) else Ok(newSeqNo)
  }

  function CheckResend(m: Message, nextOut: nat): Result<(nat, nat), ProtocolFault> {
    match NumberAt(m, 7)
    case None => Err(NumberFault(m, 7))
    case Some(begin) =>
      match NumberAt(m, 16)
      case None => Err(NumberFault(m, 16))
      case Some(end) =>
        match ReplayRange(nextOut, begin, end)
        case None => Err(InvalidResendRange)
        case Some(range) => Ok(range)
  }

  /** The checks between the sequence number and the journal, in their order. */
  function Judge(config: Config, actor: Actor, m: Message): (v: Verdict)
    ensures v.Accept? ==> NumberAt(m, 34).Some?
  {
    match NumberAt(m, 34)
    case None => Reject(NumberFault(m, 34))
    case Some(n) =>
      if n != actor.nextIn && actor.phase != LogonSent then Reject(UnexpectedSequence(actor.nextIn, n))
      else
        match MsgType(m)
        case None => Reject(MsgTypeMissing)
        case Some(t) => if !IsUtf8(t) then Reject(MsgTypeNotText) else JudgeBody(config, actor, m, n, t)
  }

  function JudgeBody(config: Config, actor: Actor, m: Message, n: nat, t: Bytes): Verdict {
    if t == RESEND_REQUEST then
      match CheckResend(m, actor.nextOut)
      case Err(e) => Reject(e)
      case Ok(range) => Accept(t, n + 1, Some(range), None)
    else if t == TEST_REQUEST then
      match First(m.fields, 112)
      case None => Reject(MissingTag(112))
      case Some(id) => Accept(t, n + 1, None, Some(id))
    else if t == LOGON then
      match NumberAt(m, 108)
      case None => Reject(NumberFault(m, 108))
      case Some(secs) =>
        if secs != config.heartbeatSecs then Reject(HeartBtIntMismatch) else Accept(t, n + 1, None, None)
    else if t == SEQUENCE_RESET then
      match CheckReset(m, n)
      case Err(e) => Reject(e)
      case Ok(newSeqNo) => Accept(t, newSeqNo, None, None)
    else Accept(t, n + 1, None, None)
  }

  /** The journal entry of an accepted message. */
  function InboundEntry(m: Message, n: nat, v: Verdict, nextEvent: nat): InboundCommit
    requires v.Accept?
  {
    InboundCommit(n, v.nextInAfter, v.msgType, m,
                  EventRecord(nextEvent, KindOfEvent(v.msgType), MessageDetails(v.msgType, n)))
  }

  function CommitExpected(env: Env, w: World, m: Message): (r: Step)
    ensures r.w.actor.gap == w.actor.gap && AgentsKept(w, r.w)
  {
    match Judge(env.config, w.actor, m)
    case Reject(fault) => Step(w, Some(Protocol(fault)))
    case Accept(t, nextInAfter, resend, testRequestId) =>
      var verdict := Accept(t, nextInAfter, resend, testRequestId);
      var entry := InboundEntry(m, NumberAt(m, 34).value, verdict, w.actor.nextEvent);
      var committed := Do(w, CommitInbound(entry));
      match AfterCommitInbound(w.journal, entry).1
      case Err(e) => Step(committed, Some(StoreFailed(e)))
      case Ok(_) =>
        var moved := committed.(actor := w.actor.(nextIn := nextInAfter, nextEvent := w.actor.nextEvent + 1));
        React(env, moved, m, t, resend, testRequestId)
  }

  /** What the session does about a message once it is journaled. */
  function React(env: Env, w: World, m: Message, t: Bytes, resend: Option<(nat, nat)>, testRequestId: Option<Bytes>)
    : (r: Step)
    ensures r.w.actor.gap == w.actor.gap && r.w.actor.nextIn == w.actor.nextIn && AgentsKept(w, r.w)
  {
    if t == LOGON then
      Step(if w.actor.phase == LogonSent then w.(actor := w.actor.(phase := Established)) else w, None)
    else if t == HEARTBEAT then
      Step(if w.actor.testRequest.Some? && First(m.fields, 112) == w.actor.testRequest
           then w.(actor := w.actor.(testRequest := None)) else w, None)
    else if t == LOGOUT then
      var answered := if w.actor.phase != LogoutSent then SendLogout(env, w, None) else Step(w, None);
      if answered.error.Some? then answered
      else answered.(w := answered.w.(actor := answered.w.actor.(phase := Disconnected)))
    else if t == RESEND_REQUEST && resend.Some? && resend.value.0 <= resend.value.1 then
      Replay(env, w, resend.value.0, resend.value.1)
    else if t == TEST_REQUEST && testRequestId.Some? then SendHeartbeat(env, w, testRequestId)
    else Step(w, None)
  }

  /** The buffered messages that are not below `nextIn`. */
  function StillAhead(gap: map<nat, Message>, nextIn: nat): (kept: map<nat, Message>)
    ensures |kept| <= |gap| && kept.Keys <= gap.Keys
    ensures forall n | n in kept :: n >= nextIn && kept[n] == gap[n]
    ensures forall n | n in gap && n >= nextIn :: n in kept
  {
    var kept := map n | n in gap && n >= nextIn :: gap[n];
    SubsetSize(kept.Keys, gap.Keys);
    assert |kept.Keys| == |kept| && |gap.Keys| == |gap|;
    kept
  }

  function Without(gap: map<nat, Message>, n: nat): (rest: map<nat, Message>)
    ensures rest.Keys == gap.Keys - {n} && forall k | k in rest :: rest[k] == gap[k]
    ensures n in gap ==> |rest| == |gap| - 1
  {
    var rest := gap - {n};
    assert rest.Keys == gap.Keys - {n};
    rest
  }

  /** The world in which the next buffered message has been taken out. */
  function Taken(w: World): (r: World)
    ensures w.actor.nextIn in w.actor.gap ==> |r.actor.gap| < |w.actor.gap|
  {
    w.(actor := w.actor.(gap := Without(StillAhead(w.actor.gap, w.actor.nextIn), w.actor.nextIn)))
  }

  /** Commit what the buffer holds from `next_in` on, dropping what lies below. */
  function Drain(env: Env, w: World): (r: Step)
    ensures AgentsKept(w, r.w)
    decreases |w.actor.gap|
  {
    if w.actor.nextIn !in w.actor.gap then
      Step(w.(actor := w.actor.(gap := StillAhead(w.actor.gap, w.actor.nextIn))), None)
    else
      var m := w.actor.gap[w.actor.nextIn];
      match EnvelopeFault(env.config, m)
      case Some(fault) => Step(Taken(w), Some(Protocol(fault)))
      case None =>
        var r := CommitExpected(env, Taken(w), m);
        if r.error.Some? then r else Drain(env, r.w)
  }

  lemma SubsetSize<T>(a: set<T>, b: set<T>)
    requires a <= b
    ensures |a| <= |b|
  {
    assert b == a + (b - a);
  }

  const GAP_LIMIT: nat := 1024

  /** A message ahead of its turn is buffered; the first one triggers a ResendRequest. */
  function Buffer(env: Env, w: World, m: Message, n: nat): (r: Step)
    ensures AgentsKept(w, r.w)
  {
    if |w.actor.gap| >= GAP_LIMIT then Step(w, Some(Protocol(GapBufferFull)))
    else
      var gap := if n in w.actor.gap then w.actor.gap else w.actor.gap[n := m];
      var buffered := w.(actor := w.actor.(gap := gap));
      if w.actor.phase == Recovering then Step(buffered, None)
      else
        var r := SendResendRequest(env, buffered, w.actor.nextIn);
        if r.error.Some? then r else r.(w := r.w.(actor := r.w.actor.(phase := Recovering)))
  }

  /** At logon the counterparty's lower number is taken over, with an event that says so. */
  function Resync(w: World, n: nat): (r: Step)
    ensures AgentsKept(w, r.w)
  {
    var event := EventRecord(w.actor.nextEvent, SequenceResync, ResyncDetails(w.actor.nextIn, n));
    var after := Do(w, ResyncInbound(n, event));
    match AfterResyncInbound(w.journal, n, event).1
    case Err(e) => Step(after, Some(StoreFailed(e)))
    case Ok(_) => Step(after.(actor := w.actor.(nextIn := n, nextEvent := w.actor.nextEvent + 1)), None)
  }

  /** Commit a message at its turn, then whatever the buffer holds after it. */
  function Advance(env: Env, w: World, m: Message): (r: Step)
    ensures AgentsKept(w, r.w)
  {
    var r := CommitExpected(env, w, m);
    if r.error.Some? then r
    else
      var drained := Drain(env, r.w);
      if drained.error.Some? then drained
      else if drained.w.actor.phase == Recovering && drained.w.actor.gap == map[] then
        drained.(w := drained.w.(actor := drained.w.actor.(phase := Established)))
      else drained
  }

  function Handle(env: Env, w: World, m: Message): (r: Step)
    ensures AgentsKept(w, r.w)
  {
    match EnvelopeFault(env.config, m)
    case Some(fault) => Step(w, Some(Protocol(fault)))
    case None =>
      match NumberAt(m, 34)
      case None => Step(w, Some(Protocol(NumberFault(m, 34))))
      case Some(n) =>
        if n > w.actor.nextIn then Buffer(env, w, m, n)
        else if n == w.actor.nextIn then Advance(env, w, m)
        else if PossDup(m) then
          Step(w, match PossDupFault(w.journal, m, n) case Some(f) => Some(Protocol(f)) case None => None)
        else if w.actor.phase != LogonSent then Step(w, Some(Protocol(UnexpectedSequence(w.actor.nextIn, n))))
        else
          var synced := Resync(w, n);
          if synced.error.Some? then synced else Advance(env, synced.w, m)
  }

  /** A frame as it comes from the decoder. */
  function HandleFrame(env: Env, w: World, frame: Bytes): (r: Step)
    ensures AgentsKept(w, r.w)
  {
    match Parse(frame)
    case Err(e) => Step(w, Some(Unparsable(e)))
    case Ok(parsed) => Handle(env, w, Message(parsed.beginString, parsed.fields))
  }

  // ----- a whole life of the actor -----

  datatype Input =
    | Received(frame: Bytes)
    | Submitted(request: ApplicationRequest)
    | LogoutAsked(text: Option<Bytes>)
    | Ticked(expired: bool, idle: bool)

  /** The heartbeat timer: a heartbeat when established, then the TestRequest deadline or idleness. */
  function Tick(env: Env, w: World, expired: bool, idle: bool): (r: Step)
    ensures AgentsKept(w, r.w)
  {
    var beat := if w.actor.phase == Established then SendHeartbeat(env, w, None) else Step(w, None);
    if beat.error.Some? then beat
    else if beat.w.actor.testRequest.Some? then
      if !expired then beat
      else
        var out := SendLogout(env, beat.w, Some(TIMEOUT_TEXT));
        if out.error.Some? then out else out.(error := Some(Protocol(TestRequestTimeout)))
    else if beat.w.actor.phase == Established && idle then SendTestRequest(env, beat.w)
    else beat
  }

  /** One round of the actor's loop. A rejected command ends the actor only when its error is fatal. */
  function Turn(env: Env, w: World, input: Input): (r: Step)
    ensures Extends(w, r.w) && (!input.Submitted? ==> AgentsKept(w, r.w))
  {
    match input
    case Received(frame) => HandleFrame(env, w, frame)
    case Submitted(request) =>
      var (after, reply) := Submit(env, w, request);
      Step(after, if reply.Err? && Fatal(reply.error) then Some(reply.error) else None)
    case LogoutAsked(text) =>
      var r := SendLogout(env, w, text);
      Step(r.w, if r.error.Some? && Fatal(r.error.value) then r.error else None)
    case Ticked(expired, idle) => Tick(env, w, expired, idle)
  }

  /** The actor as it is spawned on a recovered journal. */
  function Spawned(j: Journal): World {
    World(Actor(Connecting, j.nextOut, j.nextIn, j.nextEvent, map[], None), j, [], 0)
  }

  function Start(env: Env, j: Journal): Step {
    var r := SendLogon(env, Spawned(j));
    if r.error.Some? then r else r.(w := r.w.(actor := r.w.actor.(phase := LogonSent)))
  }

  /** Turns until the inputs end or an error ends the actor. */
  function Turns(env: Env, s: Step, inputs: seq<Input>): Step
    decreases |inputs|
  {
    if inputs == [] || s.error.Some? then s else Turns(env, Turn(env, s.w, inputs[0]), inputs[1..])
  }
}
