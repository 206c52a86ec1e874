// The initiator and the mock acceptor over two channels that neither lose nor reorder: they stay in step.
//
// Messages travel at the level of their fields; `BytesCarryThem` shows that the bytes of what is under way
// carry it faithfully.

module TwoParty {
  import opened Text
  import opened Codec
  import opened Messages
  import opened Parser
  import opened Store
  import opened StoreTheorems
  import opened Session
  import opened SessionSafety
  import opened SessionInvariant
  import opened CrashRuns
  import opened ReadBack
  import opened ReplayPlan
  import opened Reading
  import D = ReplayDrives
  import K = Mock

  /** Both ends and what is under way between them. */
  datatype Net = Net(w: World, acceptor: K.Acceptor, ended: bool, toMock: seq<Message>, toInit: seq<Message>)

  datatype Event = Acts(input: Input) | InitReceives | MockReceives | MockBeats

  /** The net after an event, and what went wrong at either end. */
  datatype Moved = Moved(net: Net, initError: Option<SessionError>, mockFault: Option<K.MockFault>)

  /** What a step of the initiator has written. */
  function Sent(a: World, b: World): seq<Message>
    requires a.trace <= b.trace
  {
    Writes(b.trace[|a.trace|..])
  }

  function FaultOf(o: K.Outcome): Option<K.MockFault> {
    match o case Broken(fault) => Some(fault) case _ => None
  }

  function Move(env: Env, mock: K.MockConfig, mockClock: nat -> Bytes, net: Net, event: Event): Moved {
    match event
    case Acts(input) =>
      var r := Turn(env, net.w, input);
      Moved(net.(w := r.w, toMock := net.toMock + Sent(net.w, r.w)), r.error, None)
    case InitReceives =>
      if net.toInit == [] then Moved(net, None, None)
      else
        var r := Handle(env, net.w, net.toInit[0]);
        Moved(net.(w := r.w, toMock := net.toMock + Sent(net.w, r.w), toInit := net.toInit[1..]), r.error, None)
    case MockReceives =>
      if net.ended || net.toMock == [] then Moved(net, None, None)
      else
        var r := K.Receive(mock, mockClock, net.acceptor, net.toMock[0]);
        Moved(net.(acceptor := r.acceptor, ended := r.outcome.Ended?, toMock := net.toMock[1..],
                   toInit := net.toInit + r.sent),
              None, FaultOf(r.outcome))
    case MockBeats =>
      if net.ended then Moved(net, None, None)
      else
        var r := K.Beat(mock, mockClock, net.acceptor);
        Moved(net.(acceptor := r.acceptor, toInit := net.toInit + r.sent), None, FaultOf(r.outcome))
  }

  /** Events until either end reports an error. */
  function Moves(env: Env, mock: K.MockConfig, mockClock: nat -> Bytes, m: Moved, events: seq<Event>): Moved
    decreases |events|
  {
    if events == [] || m.initError.Some? || m.mockFault.Some? then m
    else Moves(env, mock, mockClock, Move(env, mock, mockClock, m.net, events[0]), events[1..])
  }

  // ----- messages under way -----

  const INIT_TYPES: set<Bytes> := {LOGON, HEARTBEAT, TEST_REQUEST, LOGOUT, NEW_ORDER, CANCEL, REPLACE}
  const ORDER_TYPES: set<Bytes> := {NEW_ORDER, CANCEL, REPLACE}
  const MOCK_TYPES: set<Bytes> := {LOGON, HEARTBEAT, LOGOUT, EXECUTION_REPORT}
  const MOCK_TAGS: set<u32> :=
    {11, 14, 17, 34, 35, 37, 39, 41, 49, 52, 54, 55, 56, 98, 108, 112, 141, 150, 151}

  /** A message that begins with the standard header. */
  ghost predicate Headed(m: Message, begin: Bytes, sender: Bytes, target: Bytes, n: nat) {
    && m.beginString == begin && |m.fields| >= 5 && m.fields[0].tag == 35
    && m.fields[1] == Field(49, sender) && m.fields[2] == Field(56, target) && m.fields[3] == Field(34, Dec(n))
  }

  /** A message that the encoder takes and whose values contain no delimiter. */
  ghost predicate Clean(m: Message) { Refusal(m.beginString, m.fields).None? && SohFree(m.fields) }

  ghost predicate FromInit(config: Config, m: Message, n: nat) {
    && Clean(m) && Headed(m, config.beginString, config.senderCompId, config.targetCompId, n)
    && m.fields[0].value in INIT_TYPES && (m.fields[0].value in ORDER_TYPES ==> First(m.fields, 11).Some?)
  }

  ghost predicate FromMock(config: Config, m: Message, n: nat) {
    && Clean(m) && Headed(m, config.beginString, config.targetCompId, config.senderCompId, n)
    && m.fields[0].value in MOCK_TYPES
    && (m.fields[0].value == LOGON ==> First(m.fields, 108) == Some(Dec(config.heartbeatSecs)))
    && forall f | f in m.fields :: f.tag in MOCK_TAGS
  }

  predicate IsLogout(m: Message) { MsgType(m) == Some(LOGOUT) }

  function Logouts(messages: seq<Message>): nat {
    if messages == [] then 0 else (if IsLogout(messages[0]) then 1 else 0) + Logouts(messages[1..])
  }

  lemma {:induction false} LogoutsJoin(a: seq<Message>, b: seq<Message>)
    ensures Logouts(a + b) == Logouts(a) + Logouts(b)
  {
    if a == [] {
      assert a + b == b;
    } else {
      assert (a + b)[0] == a[0] && (a + b)[1..] == a[1..] + b;
      LogoutsJoin(a[1..], b);
    }
  }

  /** A queue of messages with consecutive numbers. */
  ghost predicate InitQueue(config: Config, queue: seq<Message>, from: nat) {
    forall i | 0 <= i < |queue| :: FromInit(config, queue[i], from + i)
  }

  ghost predicate MockQueue(config: Config, queue: seq<Message>, from: nat) {
    forall i | 0 <= i < |queue| :: FromMock(config, queue[i], from + i)
  }

  /** Both ends are configured for each other, and the initiator keeps no tag secret that the acceptor uses. */
  ghost predicate Matched(config: Config, mock: K.MockConfig) {
    && ConfigOk(config) && mock.beginString == config.beginString
    && mock.senderCompId == config.targetCompId && mock.targetCompId == config.senderCompId
    && mock.heartbeatSecs == config.heartbeatSecs <= U64_MAX
    && forall tag | tag in MOCK_TAGS :: !IsSensitive(config, tag)
  }

  /** In each direction the next number of the receiver and what is under way make up the next number of the
      sender; the acceptor takes no number for its last message. Nothing is buffered, and at most one logout
      is under way, from the initiator or back, while the initiator waits for it. */
  ghost predicate Lockstep(j: Journal, env: Env, net: Net) {
    && Good(j, env, net.w) && net.w.actor.gap == map[]
    && net.w.actor.phase in {LogonSent, Established, LogoutSent, Disconnected}
    && net.acceptor.nextIn + |net.toMock| == net.w.actor.nextOut
    && InitQueue(env.config, net.toMock, net.acceptor.nextIn)
    && net.w.actor.nextIn + |net.toInit| == net.acceptor.nextOut + (if net.ended then 1 else 0)
    && MockQueue(env.config, net.toInit, net.w.actor.nextIn)
    && Logouts(net.toMock) + Logouts(net.toInit) <= 1
    && (Logouts(net.toMock) + Logouts(net.toInit) == 1 ==> net.w.actor.phase == LogoutSent)
  }

  // ----- what the initiator writes -----

  lemma {:induction false} WritesJoin(a: seq<Effect>, b: seq<Effect>)
    ensures Writes(a + b) == Writes(a) + Writes(b)
    decreases |b|
  {
    if b == [] {
      assert a + b == a;
    } else {
      assert (a + b)[..|a + b| - 1] == a + b[..|b| - 1];
      WritesJoin(a, b[..|b| - 1]);
    }
  }

  ghost predicate SentBy(a: World, b: World, messages: seq<Message>) {
    a.trace <= b.trace && Sent(a, b) == messages
  }

  lemma SentJoin(a: World, b: World, c: World, x: seq<Message>, y: seq<Message>)
    requires SentBy(a, b, x) && SentBy(b, c, y)
    ensures SentBy(a, c, x + y)
  {
    hide Writes;
    assert c.trace[|a.trace|..] == b.trace[|a.trace|..] + c.trace[|b.trace|..];
    WritesJoin(b.trace[|a.trace|..], c.trace[|b.trace|..]);
  }

  lemma ThreeEffects(t: seq<Effect>, commit: StoreOp, wire: Message, mark: StoreOp)
    ensures var after := t + [Did(commit)] + [Write(wire)] + [Did(mark)];
            t <= after && Writes(after[|t|..]) == [wire]
  {
    var after := t + [Did(commit)] + [Write(wire)] + [Did(mark)];
    assert after[|t|..] == [] + [Did(commit)] + [Write(wire)] + [Did(mark)];
    hide Writes;
    WritesGrow([], Did(commit));
    WritesGrow([] + [Did(commit)], Write(wire));
    WritesGrow([] + [Did(commit)] + [Write(wire)], Did(mark));
    NoWrites();
  }

  lemma NoWrites()
    ensures Writes([]) == []
  {
  }

  lemma DeliverSends(w: World, c: OutboundCommit, wire: Message)
    requires FreshCommit(w.journal, c)
    ensures var r := Deliver(Do(w, CommitOutbound(c)), c.requestId, c.msgSeqNum, wire);
            r.error.None? && SentBy(w, r.w, [wire]) && r.w.actor == w.actor.(nextOut := c.msgSeqNum + 1)
  {
    hide Writes;
    FreshCommitAccepted(w.journal, c);
    ThreeEffects(w.trace, CommitOutbound(c), wire, MarkOutboundWritten(c.requestId, c.msgSeqNum));
  }

  /** A message of the session's own: header, then `extra`. */
  function Own(env: Env, w: World, msgType: Bytes, extra: seq<Field>): Message {
    Message(env.config.beginString, Header(env.config, msgType, w.actor.nextOut, env.clock(w.ticks)) + extra)
  }

  lemma OwnAccepted(env: Env, w: World, msgType: Bytes, extra: seq<Field>)
    requires ConfigOk(env.config) && RefusedField(extra).None?
    ensures Refusal(env.config.beginString, Own(env, w, msgType, extra).fields).None?
  {
    var header := Header(env.config, msgType, w.actor.nextOut, env.clock(w.ticks));
    assert (header + extra)[0] == header[0];
    assert forall f | f in header + extra :: f in header || f in extra;
  }

  lemma SendAdminSends(
      j: Journal, env: Env, w: World, kind: Bytes, msgType: Bytes, extra: seq<Field>, fingerprint: Bytes)
    requires Kept(j, w) && ConfigOk(env.config) && RefusedField(extra).None?
    ensures var r := SendAdmin(env, w, kind, msgType, extra, fingerprint);
            && r.error.None? && SentBy(w, r.w, [Own(env, w, msgType, extra)])
            && r.w.actor == w.actor.(nextOut := w.actor.nextOut + 1)
  {
    hide Refusal, RefusedField, Key, Header, Redacted, Deliver, Writes, Traced, SentBy, KeysBehind;
    OwnAccepted(env, w, msgType, extra);
    var key := Key(kind, w.actor.nextOut, w.actor.nextEvent);
    var wire := Own(env, w, msgType, extra);
    var c := OutboundCommit(key, fingerprint, [], w.actor.nextOut, Redacted(env.config, wire));
    KeysBehindOf(j, w);
    PresentKeyIsFresh(w.journal, kind);
    var ticked := w.(ticks := w.ticks + 1);
    FreshCommitAccepted(w.journal, c);
    DeliverSends(ticked, c, wire);
    SentTicked(w, ticked, Deliver(Do(ticked, CommitOutbound(c)), c.requestId, c.msgSeqNum, wire).w, [wire]);
  }

  lemma KeysBehindOf(j: Journal, w: World)
    requires Kept(j, w)
    ensures KeysBehind(w.journal)
  {
    hide KeysBehind, OriginalsStored, Inv, Safe, OpsInOrder;
  }

  lemma SentTicked(w: World, ticked: World, after: World, messages: seq<Message>)
    requires ticked.trace == w.trace && SentBy(ticked, after, messages)
    ensures SentBy(w, after, messages)
  {
  }

  lemma OwnHeaded(env: Env, w: World, msgType: Bytes, extra: seq<Field>)
    ensures var m := Own(env, w, msgType, extra);
            && Headed(m, env.config.beginString, env.config.senderCompId, env.config.targetCompId, w.actor.nextOut)
            && m.fields[0] == Field(35, msgType)
  {
  }

  /** A step of the initiator that only sends: consecutive messages, one of them a logout exactly when the
      initiator thereby begins to wait for the answer. */
  ghost predicate Grew(config: Config, a: World, b: World, messages: seq<Message>) {
    && SentBy(a, b, messages) && InitQueue(config, messages, a.actor.nextOut)
    && b.actor.nextOut == a.actor.nextOut + |messages|
    && b.actor.nextIn == a.actor.nextIn && b.actor.gap == a.actor.gap
    && (|| (Logouts(messages) == 0 && b.actor.phase == a.actor.phase)
        || (Logouts(messages) == 1 && a.actor.phase != LogoutSent && b.actor.phase == LogoutSent))
  }

  lemma GrewJoin(config: Config, a: World, b: World, c: World, x: seq<Message>, y: seq<Message>)
    requires Grew(config, a, b, x) && Grew(config, b, c, y) && Logouts(x) == 0
    ensures Grew(config, a, c, x + y)
  {
    hide SentBy, Logouts, FromInit;
    SentJoin(a, b, c, x, y);
    LogoutsJoin(x, y);
  }

  lemma GrewNothing(config: Config, a: World, b: World)
    requires b.trace == a.trace && b.actor.nextOut == a.actor.nextOut && b.actor.nextIn == a.actor.nextIn
    requires b.actor.gap == a.actor.gap && b.actor.phase == a.actor.phase
    ensures Grew(config, a, b, [])
  {
    NoWrites();
    assert b.trace[|a.trace|..] == [];
  }

  /** What the acceptor's values are free of. */
  ghost predicate ClearMock(config: Config, mockClock: nat -> Bytes) {
    SOH !in config.senderCompId && SOH !in config.targetCompId && forall t :: SOH !in mockClock(t)
  }

  /** Neither names nor clocks contain the delimiter. */
  ghost predicate Clear(env: Env, mockClock: nat -> Bytes) { ClearEnv(env) && ClearMock(env.config, mockClock) }

  lemma OwnClean(env: Env, w: World, msgType: Bytes, extra: seq<Field>)
    requires ConfigOk(env.config) && ClearEnv(env) && msgType in INIT_TYPES
    requires RefusedField(extra).None? && SohFree(extra)
    ensures Clean(Own(env, w, msgType, extra))
  {
    hide Header, Refusal, RefusedField, ClearEnv, SohFree;
    OwnAccepted(env, w, msgType, extra);
    HeaderSohFree(env, msgType, w.actor.nextOut, w.ticks);
    SohFreeJoin(Header(env.config, msgType, w.actor.nextOut, env.clock(w.ticks)), extra);
  }

  lemma OwnFromInit(env: Env, w: World, msgType: Bytes, extra: seq<Field>)
    requires msgType in INIT_TYPES - ORDER_TYPES
    requires ConfigOk(env.config) && ClearEnv(env) && RefusedField(extra).None? && SohFree(extra)
    ensures var m := Own(env, w, msgType, extra);
            && InitQueue(env.config, [m], w.actor.nextOut)
            && Logouts([m]) == if msgType == LOGOUT then 1 else 0
  {
    hide Headed, Own, Clean, ClearEnv, RefusedField, SohFree;
    OwnHeaded(env, w, msgType, extra);
    OwnClean(env, w, msgType, extra);
    var m := Own(env, w, msgType, extra);
    OneLogout(m, env.config, w.actor.nextOut);
    assert [m][0] == m;
  }

  lemma OneLogout(m: Message, config: Config, n: nat)
    requires Headed(m, config.beginString, config.senderCompId, config.targetCompId, n)
    ensures Logouts([m]) == if m.fields[0].value == LOGOUT then 1 else 0
  {
    assert [m][1..] == [];
  }

  lemma OwnGrew(j: Journal, env: Env, w: World, kind: Bytes, msgType: Bytes, extra: seq<Field>, fingerprint: Bytes)
    requires Kept(j, w) && ConfigOk(env.config) && ClearEnv(env) && RefusedField(extra).None? && SohFree(extra)
    requires msgType in {LOGON, HEARTBEAT, TEST_REQUEST}
    ensures var r := SendAdmin(env, w, kind, msgType, extra, fingerprint);
            r.error.None? && Grew(env.config, w, r.w, [Own(env, w, msgType, extra)])
            && Logouts([Own(env, w, msgType, extra)]) == 0
  {
    hide SendAdmin, Own, Logouts, SentBy, InitQueue, Kept, RefusedField, ClearEnv, SohFree;
    SendAdminSends(j, env, w, kind, msgType, extra, fingerprint);
    OwnFromInit(env, w, msgType, extra);
  }

  lemma HeartbeatGrew(j: Journal, env: Env, w: World) returns (messages: seq<Message>)
    requires Kept(j, w) && ConfigOk(env.config) && ClearEnv(env)
    ensures var r := SendHeartbeat(env, w, None);
            r.error.None? && Grew(env.config, w, r.w, messages) && Logouts(messages) == 0
  {
    hide SendAdmin, Grew, Own, Kept;
    OwnGrew(j, env, w, KIND_HEARTBEAT, HEARTBEAT, [], ADMIN_PREFIX + HEARTBEAT + [COLON] + Dec(w.actor.nextOut));
    messages := [Own(env, w, HEARTBEAT, [])];
  }

  lemma TestRequestGrew(j: Journal, env: Env, w: World) returns (messages: seq<Message>)
    requires Kept(j, w) && ConfigOk(env.config) && ClearEnv(env)
    ensures var r := SendTestRequest(env, w); r.error.None? && Grew(env.config, w, r.w, messages)
  {
    hide SendAdmin, Own, Kept, SentBy, Logouts, InitQueue;
    var id := TEST_PREFIX + Dec(w.actor.nextOut);
    DigitsHaveNo(Dec(w.actor.nextOut), SOH);
    assert SOH !in id;
    OwnGrew(j, env, w, KIND_TEST, TEST_REQUEST, [Field(112, id)],
            ADMIN_PREFIX + TEST_REQUEST + [COLON] + Dec(w.actor.nextOut) + [COLON] + id);
    messages := [Own(env, w, TEST_REQUEST, [Field(112, id)])];
    SentSame(w, SendAdmin(env, w, KIND_TEST, TEST_REQUEST, [Field(112, id)],
            ADMIN_PREFIX + TEST_REQUEST + [COLON] + Dec(w.actor.nextOut) + [COLON] + id).w,
            SendTestRequest(env, w).w, messages);
  }

  lemma SentSame(a: World, b: World, c: World, messages: seq<Message>)
    requires SentBy(a, b, messages) && c.trace == b.trace
    ensures SentBy(a, c, messages)
  {
  }

  lemma LogoutGrew(j: Journal, env: Env, w: World, text: Option<Bytes>) returns (messages: seq<Message>)
    requires Kept(j, w) && ConfigOk(env.config) && ClearEnv(env) && (text.Some? ==> SOH !in text.value)
    ensures var r := SendLogout(env, w, text);
            if w.actor.phase in {LogonSent, Synchronizing, Established, Recovering}
            then r.error.None? && Grew(env.config, w, r.w, messages)
            else r.w == w && r.error == Some(NotEstablished)
  {
    hide SendAdmin, Own, Kept, SentBy, Logouts, InitQueue;
    var extra := match text case Some(t) => [Field(58, t)] case None => [];
    var fingerprint := ADMIN_PREFIX + LOGOUT + [COLON] + Dec(w.actor.nextOut);
    SendAdminSends(j, env, w, KIND_LOGOUT, LOGOUT, extra, fingerprint);
    OwnFromInit(env, w, LOGOUT, extra);
    messages := [Own(env, w, LOGOUT, extra)];
    if w.actor.phase in {LogonSent, Synchronizing, Established, Recovering} {
      SentSame(w, SendAdmin(env, w, KIND_LOGOUT, LOGOUT, extra, fingerprint).w, SendLogout(env, w, text).w, messages);
    }
  }

  lemma TickGrew(j: Journal, env: Env, w: World, expired: bool, idle: bool) returns (messages: seq<Message>)
    requires Kept(j, w) && ConfigOk(env.config) && ClearEnv(env)
    ensures var r := Tick(env, w, expired, idle); r.error.None? ==> Grew(env.config, w, r.w, messages)
  {
    hide Kept, SendHeartbeat, SendLogout, SendTestRequest, Grew, Logouts, ClearEnv;
    GrewNothing(env.config, w, w);
    NoLogouts();
    var beat, first := Step(w, None), [];
    if w.actor.phase == Established {
      first := HeartbeatGrew(j, env, w);
      beat := SendHeartbeat(env, w, None);
      SendHeartbeatKeeps(j, env, w, None);
    }
    messages := first;
    if beat.w.actor.testRequest.None? && beat.w.actor.phase == Established && idle {
      var second := TestRequestGrew(j, env, beat.w);
      GrewJoin(env.config, w, beat.w, SendTestRequest(env, beat.w).w, first, second);
      messages := first + second;
    }
  }

  lemma NoLogouts()
    ensures Logouts([]) == 0
  {
  }

  // ----- application messages -----

  lemma ApplicationHeaded(env: Env, w: World, req: ApplicationRequest)
    requires ApplicationFields(env, w, req).Some? && req.msgType in ORDER_TYPES
    requires ClearEnv(env) && SohFree(req.fields) && SOH !in req.clOrdId
    requires Refusal(env.config.beginString, ApplicationFields(env, w, req).value).None?
    ensures var m := Message(env.config.beginString, ApplicationFields(env, w, req).value);
            && FromInit(env.config, m, w.actor.nextOut) && Logouts([m]) == 0
  {
    var fields := ApplicationFields(env, w, req).value;
    var m := Message(env.config.beginString, fields);
    CarriesClOrdId(env, w, req);
    ApplicationSohFree(env, w, req);
    var rest := ApplicationRest(env, w, req);
    hide ApplicationFields, First, ClearEnv, SohFree, Refusal;
    assert fields[0] == Field(35, req.msgType);
    OneLogout(m, env.config, w.actor.nextOut);
  }

  lemma CarriesClOrdId(env: Env, w: World, req: ApplicationRequest)
    requires ApplicationFields(env, w, req).Some?
    ensures First(ApplicationFields(env, w, req).value, 11).Some?
  {
    hide Values, WithTransactTime;
    var fields := ApplicationFields(env, w, req).value;
    assert Field(11, req.clOrdId) in fields;
    ValuesAbsent(fields, 11);
  }

  lemma SubmitWireGrew(env: Env, w: World, c: OutboundCommit) returns (messages: seq<Message>)
    requires Synced(w) && c.msgSeqNum == w.actor.nextOut
    requires FromInit(env.config, c.wire, w.actor.nextOut) && Logouts([c.wire]) == 0
    requires c.requestId in w.journal.commands && w.journal.commands[c.requestId].fingerprint == c.fingerprint ==>
               w.journal.commands[c.requestId].msgSeqNum != c.msgSeqNum
    ensures Grew(env.config, w, SubmitWire(w, c).0, messages)
  {
    hide Deliver, FromInit, Logouts, Writes;
    if c.requestId !in w.journal.commands {
      FreshCommitAccepted(w.journal, c);
      DeliverSends(w, c, c.wire);
      messages := [c.wire];
    } else {
      messages := [];
      NothingWritten(w.trace, CommitOutbound(c));
      NoLogouts();
    }
  }

  lemma NothingWritten(t: seq<Effect>, op: StoreOp)
    ensures t <= t + [Did(op)] && Writes((t + [Did(op)])[|t|..]) == []
  {
    assert (t + [Did(op)])[|t|..] == [Did(op)];
    assert [Did(op)][..0] == [];
  }

  lemma SubmitGrew(env: Env, w: World, req: ApplicationRequest) returns (messages: seq<Message>)
    requires Synced(w) && req.msgType in ORDER_TYPES && !StaleAtNext(w.journal, req)
    requires ClearEnv(env) && SohFree(req.fields) && SOH !in req.clOrdId
    ensures Grew(env.config, w, Submit(env, w, req).0, messages)
  {
    hide Grew, FromInit, Logouts, ApplicationFields, SubmitWire, Refusal, ClearEnv, SohFree;
    messages := [];
    GrewNothing(env.config, w, w);
    if w.actor.phase == Established && ApplicationFields(env, w, req).Some? {
      var wire := Message(env.config.beginString, ApplicationFields(env, w, req).value);
      var ticked := w.(ticks := w.ticks + ApplicationTicks(req));
      GrewNothing(env.config, w, ticked);
      if Refusal(wire.beginString, wire.fields).None? {
        ApplicationHeaded(env, w, req);
        var c := OutboundCommit(req.requestId, req.fingerprint, req.clOrdId, w.actor.nextOut, wire);
        messages := SubmitWireGrew(env, ticked, c);
        NoLogouts();
        GrewJoin(env.config, w, ticked, SubmitWire(ticked, c).0, [], messages);
        assert [] + messages == messages;
      }
    }
  }

  // ----- one event -----

  /** The lockstep survives a step that only sends. */
  lemma GrewKeepsLockstep(j: Journal, env: Env, net: Net, after: World, messages: seq<Message>)
    requires Lockstep(j, env, net) && Grew(env.config, net.w, after, messages) && Good(j, env, after)
    ensures Lockstep(j, env, net.(w := after, toMock := net.toMock + messages))
  {
    hide Good, SentBy, FromInit, FromMock, Logouts;
    LogoutsJoin(net.toMock, messages);
    InitQueueJoin(env.config, net.toMock, messages, net.acceptor.nextIn);
  }

  lemma InitQueueJoin(config: Config, a: seq<Message>, b: seq<Message>, from: nat)
    requires InitQueue(config, a, from) && InitQueue(config, b, from + |a|)
    ensures InitQueue(config, a + b, from)
  {
    hide FromInit;
    forall i | 0 <= i < |a + b|
      ensures FromInit(config, (a + b)[i], from + i)
    {
      if i >= |a| {
        assert (a + b)[i] == b[i - |a|];
        assert FromInit(config, b[i - |a|], from + |a| + (i - |a|));
      }
    }
  }

  /** What the initiator's surroundings may ask of it. */
  ghost predicate MayAct(w: World, input: Input) {
    && !input.Received? && Admissible(w, input)
    && (input.Submitted? ==>
          var req := input.request;
          req.msgType in ORDER_TYPES && SohFree(req.fields) && SOH !in req.clOrdId)
    && (input.LogoutAsked? && input.text.Some? ==> SOH !in input.text.value)
  }

  lemma ActsGrew(j: Journal, env: Env, w: World, input: Input) returns (messages: seq<Message>)
    requires Kept(j, w) && ConfigOk(env.config) && ClearEnv(env) && MayAct(w, input)
    ensures var r := Turn(env, w, input); r.error.None? ==> Grew(env.config, w, r.w, messages)
  {
    hide Traced, Grew, SendLogout, Submit, Tick, StaleAtNext, AgentId, ClearEnv, SohFree;
    messages := [];
    match input
    case Submitted(req) => messages := SubmitGrew(env, w, req);
    case LogoutAsked(text) =>
      messages := LogoutGrew(j, env, w, text);
      if SendLogout(env, w, text).error.Some? {
        GrewNothing(env.config, w, w);
        messages := [];
      }
    case Ticked(expired, idle) => messages := TickGrew(j, env, w, expired, idle);
  }

  lemma ActsKeep(j: Journal, env: Env, mock: K.MockConfig, mockClock: nat -> Bytes, net: Net, input: Input)
    requires Lockstep(j, env, net) && Matched(env.config, mock) && ClearEnv(env) && MayAct(net.w, input)
    ensures var m := Move(env, mock, mockClock, net, Acts(input));
            m.mockFault.None? && (m.initError.None? ==> Lockstep(j, env, m.net))
  {
    hide Turn, Grew, Writes, MayAct, IsSensitive, ClearEnv;
    var r := Turn(env, net.w, input);
    assert Kept(j, net.w) && Good(j, env, net.w);
    MayActAdmissible(net.w, input);
    TurnKeeps(j, env, net.w, input);
    if r.error.None? {
      var messages := ActsGrew(j, env, net.w, input);
      hide Lockstep, Good;
      GrewKeepsLockstep(j, env, net, r.w, messages);
      GrewSent(env.config, net.w, r.w, messages);
    }
  }

  lemma MayActAdmissible(w: World, input: Input)
    requires MayAct(w, input)
    ensures Admissible(w, input)
  {
  }

  lemma GrewSent(config: Config, a: World, b: World, messages: seq<Message>)
    requires Grew(config, a, b, messages) && a.trace <= b.trace
    ensures Sent(a, b) == messages
  {
  }

  // ----- the initiator receives -----

  lemma HeadedFirsts(m: Message, begin: Bytes, sender: Bytes, target: Bytes, n: nat)
    requires Headed(m, begin, sender, target, n)
    ensures First(m.fields, 35) == Some(m.fields[0].value) && First(m.fields, 49) == Some(sender)
    ensures First(m.fields, 56) == Some(target) && First(m.fields, 34) == Some(Dec(n))
  {
    hide First;
    D.FirstAt(m.fields, 0, 35);
    D.FirstAt(m.fields, 1, 49);
    D.FirstAt(m.fields, 2, 56);
    D.FirstAt(m.fields, 3, 34);
  }

  /** What the acceptor sends is accepted at its turn and asks for nothing but to be journaled. */
  lemma FromMockJudged(config: Config, mock: K.MockConfig, actor: Actor, m: Message)
    requires Matched(config, mock) && FromMock(config, m, actor.nextIn) && actor.nextIn <= U64_MAX
    ensures EnvelopeFault(config, m).None? && NumberAt(m, 34) == Some(actor.nextIn)
    ensures MsgType(m) == Some(m.fields[0].value)
    ensures Judge(config, actor, m) == Accept(m.fields[0].value, actor.nextIn + 1, None, None)
  {
    hide First, IsSensitive, ParseU64, Dec, Clean;
    HeadedFirsts(m, config.beginString, config.targetCompId, config.senderCompId, actor.nextIn);
    ParseU64OfDec(actor.nextIn);
    ParseU64OfDec(config.heartbeatSecs);
    TypeIsText(m.fields[0].value);
    hide IsUtf8;
  }

  lemma TypeIsText(t: Bytes)
    requires t in MOCK_TYPES
    ensures IsUtf8(t)
  {
    assert t[1..] == [];
  }

  lemma DrainNothing(env: Env, w: World)
    requires w.actor.gap == map[]
    ensures Drain(env, w) == Step(w, None)
  {
    assert StillAhead(w.actor.gap, w.actor.nextIn) == map[];
  }

  /** The initiator takes a message of the acceptor at its turn without an error and without an answer. */
  lemma InitTakes(j: Journal, env: Env, mock: K.MockConfig, w: World, m: Message)
    requires Kept(j, w) && w.actor.gap == map[] && w.actor.phase in {LogonSent, Established, LogoutSent, Disconnected}
    requires Matched(env.config, mock) && FromMock(env.config, m, w.actor.nextIn) && w.actor.nextIn <= U64_MAX
    requires IsLogout(m) ==> w.actor.phase == LogoutSent
    ensures var r := Handle(env, w, m);
            && r.error.None? && r.w.actor.gap == map[] && SentBy(w, r.w, [])
            && r.w.actor.nextIn == w.actor.nextIn + 1 && r.w.actor.nextOut == w.actor.nextOut
            && r.w.actor.phase == (if IsLogout(m) then Disconnected
                                   else if MsgType(m) == Some(LOGON) && w.actor.phase == LogonSent then Established
                                   else w.actor.phase)
  {
    hide Traced, EnvelopeFault, NumberAt, Judge, Matched, Writes, IsSensitive, Headed, First, Drain, Clean;
    FromMockJudged(env.config, mock, w.actor, m);
    D.HandleAtTurn(env, w, m);
    var t := m.fields[0].value;
    var r := CommitExpected(env, w, m);
    CommittedTakes(env, w, m, t);
    DrainNothing(env, r.w);
    var entry := InboundEntry(m, w.actor.nextIn, Accept(t, w.actor.nextIn + 1, None, None), w.actor.nextEvent);
    NothingWritten(w.trace, CommitInbound(entry));
  }

  lemma CommittedTakes(env: Env, w: World, m: Message, t: Bytes)
    requires Synced(w) && NumberAt(m, 34) == Some(w.actor.nextIn) && t in MOCK_TYPES
    requires Judge(env.config, w.actor, m) == Accept(t, w.actor.nextIn + 1, None, None)
    requires t == LOGOUT ==> w.actor.phase == LogoutSent
    ensures var r := CommitExpected(env, w, m);
            var entry := InboundEntry(m, w.actor.nextIn, Accept(t, w.actor.nextIn + 1, None, None), w.actor.nextEvent);
            && r.error.None? && r.w.trace == w.trace + [Did(CommitInbound(entry))]
            && r.w.actor.gap == w.actor.gap && r.w.actor.nextOut == w.actor.nextOut
            && r.w.actor.nextIn == w.actor.nextIn + 1
            && r.w.actor.phase == (if t == LOGOUT then Disconnected
                                   else if t == LOGON && w.actor.phase == LogonSent then Established
                                   else w.actor.phase)
  {
    hide Judge, NumberAt, First;
  }

  lemma InitReceivesKeeps(j: Journal, env: Env, mock: K.MockConfig, mockClock: nat -> Bytes, net: Net)
    requires Lockstep(j, env, net) && Matched(env.config, mock) && net.w.actor.nextIn <= U64_MAX
    ensures var m := Move(env, mock, mockClock, net, InitReceives);
            m.mockFault.None? && m.initError.None? && Lockstep(j, env, m.net)
  {
    hide Handle, Writes, Traced, Matched, FromInit, FromMock, IsLogout, Settled, GapGood, Logouts;
    if net.toInit != [] {
      var m := net.toInit[0];
      assert FromMock(env.config, m, net.w.actor.nextIn + 0);
      LogoutsFront(net.toInit);
      MockQueueRest(env.config, net.toInit, net.w.actor.nextIn);
      hide InitQueue, MockQueue;
      InitTakes(j, env, mock, net.w, m);
      HandleKeeps(j, env, net.w, m);
      assert net.toMock + [] == net.toMock;
    }
  }

  lemma MockQueueRest(config: Config, queue: seq<Message>, from: nat)
    requires queue != [] && MockQueue(config, queue, from)
    ensures MockQueue(config, queue[1..], from + 1)
  {
    hide FromMock;
    forall i | 0 <= i < |queue[1..]|
      ensures FromMock(config, queue[1..][i], from + 1 + i)
    {
      assert FromMock(config, queue[i + 1], from + (i + 1));
    }
  }

  // ----- the acceptor -----

  lemma MockHeaderFine(config: Config, mock: K.MockConfig, mockClock: nat -> Bytes, t: Bytes, n: nat, ticks: nat)
    requires Matched(config, mock) && ClearMock(config, mockClock) && t in MOCK_TYPES
    ensures var header := K.Header(mock, t, n, mockClock(ticks));
            SohFree(header) && forall f | f in header :: f.tag in MOCK_TAGS
  {
    hide IsSensitive;
    DigitsHaveNo(Dec(n), SOH);
    hide Dec;
  }

  /** A message with the acceptor's tags and no delimiter in it is clean. */
  lemma MockClean(config: Config, mock: K.MockConfig, fields: seq<Field>)
    requires Matched(config, mock) && fields != [] && fields[0].tag == 35 && SohFree(fields)
    requires forall f | f in fields :: f.tag in MOCK_TAGS
    ensures Clean(Message(mock.beginString, fields))
  {
    hide IsSensitive, SohFree;
  }

  /** What the acceptor sends under a number is a message that the initiator expects under it. */
  lemma MockSends(
      config: Config, mock: K.MockConfig, mockClock: nat -> Bytes, a: K.Acceptor, t: Bytes, extra: seq<Field>)
    requires Matched(config, mock) && ClearMock(config, mockClock) && t in MOCK_TYPES && a.nextOut < U64_MAX
    requires (forall f | f in extra :: f.tag in MOCK_TAGS) && SohFree(extra)
    requires t == LOGON ==> First(extra, 108) == Some(Dec(config.heartbeatSecs))
    ensures var r := K.Send(mock, mockClock, a, t, extra);
            && r.outcome.Going? && r.acceptor == a.(ticks := a.ticks + 1, nextOut := a.nextOut + 1)
            && |r.sent| == 1 && FromMock(config, r.sent[0], a.nextOut)
            && IsLogout(r.sent[0]) == (t == LOGOUT)
  {
    hide IsSensitive, First, Dec, Clean, SohFree, ClearMock;
    var header := K.Header(mock, t, a.nextOut, mockClock(a.ticks));
    var fields := header + extra;
    MockHeaderFine(config, mock, mockClock, t, a.nextOut, a.ticks);
    SohFreeJoin(header, extra);
    assert forall f | f in fields :: f in header || f in extra;
    assert fields[0] == header[0] && fields[1] == header[1] && fields[2] == header[2] && fields[3] == header[3];
    MockClean(config, mock, fields);
    CleanAccepted(Message(mock.beginString, fields));
    if t == LOGON {
      FirstAfter(header, extra, 108);
    }
  }

  lemma CleanAccepted(m: Message)
    requires Clean(m)
    ensures Refusal(m.beginString, m.fields).None?
  {
  }

  lemma FirstAfter(front: seq<Field>, back: seq<Field>, tag: u32)
    requires forall f | f in front :: f.tag != tag
    ensures First(front + back, tag) == First(back, tag)
  {
    hide Values;
    ValuesAppend(front, back, tag);
    ValuesAbsent(front, tag);
  }

  lemma LogonExtraFine(mock: K.MockConfig, m: Message)
    ensures var extra := K.LogonExtra(mock, m);
            && First(extra, 108) == Some(Dec(mock.heartbeatSecs)) && SohFree(extra)
            && forall f | f in extra :: f.tag in MOCK_TAGS
  {
    DigitsHaveNo(Dec(mock.heartbeatSecs), SOH);
    hide First, Dec;
    D.FirstAt(K.LogonExtra(mock, m), 1, 108);
  }

  /** A value found in a clean message is clean. */
  lemma FirstSohFree(fields: seq<Field>, tag: u32)
    requires SohFree(fields) && First(fields, tag).Some?
    ensures SOH !in First(fields, tag).value
  {
  }

  lemma CopiedFine(m: Message, tag: u32)
    requires SohFree(m.fields)
    ensures SohFree(K.Copied(m, tag)) && forall f | f in K.Copied(m, tag) :: f.tag == tag
  {
    hide First;
    if First(m.fields, tag).Some? {
      FirstSohFree(m.fields, tag);
    }
  }

  ghost predicate Fine(fields: seq<Field>) { SohFree(fields) && forall f | f in fields :: f.tag in MOCK_TAGS }

  lemma FineJoin(a: seq<Field>, b: seq<Field>)
    requires Fine(a) && Fine(b)
    ensures Fine(a + b)
  {
  }

  lemma IdsFine(id: nat, clOrdId: Bytes)
    requires SOH !in clOrdId
    ensures Fine([Field(37, K.ORDER_PREFIX + Dec(id)), Field(11, clOrdId)])
  {
    DigitsHaveNo(Dec(id), SOH);
    hide Dec;
  }

  lemma CodesFine(id: nat, status: Bytes, kind: Bytes)
    requires SOH !in status && SOH !in kind
    ensures Fine([Field(17, K.EXEC_PREFIX + Dec(id)), Field(39, status), Field(150, kind)])
  {
    DigitsHaveNo(Dec(id), SOH);
    hide Dec;
  }

  lemma QuantitiesFine(quantity: Bytes)
    requires SOH !in quantity
    ensures Fine([Field(151, quantity), Field(14, K.NOTHING)])
  {
  }

  lemma CopiedIsFine(m: Message, tag: u32)
    requires SohFree(m.fields) && tag in MOCK_TAGS
    ensures Fine(K.Copied(m, tag))
  {
    CopiedFine(m, tag);
  }

  lemma ReportFine(m: Message, t: Bytes, clOrdId: Bytes, id: nat)
    requires SohFree(m.fields) && First(m.fields, 11) == Some(clOrdId)
    ensures Fine(K.ExecutionReport(m, t, clOrdId, id))
  {
    FirstSohFree(m.fields, 11);
    if First(m.fields, 38).Some? {
      FirstSohFree(m.fields, 38);
    }
    hide First, Dec, K.Copied, Fine;
    var quantity := match First(m.fields, 38) case Some(q) => q case None => K.NOTHING;
    var status := if t == CANCEL then K.CODE_CANCELED else K.CODE_NEW;
    var kind := if t == CANCEL then K.CODE_CANCELED else if t == REPLACE then K.CODE_REPLACED else K.CODE_NEW;
    var ids := [Field(37, K.ORDER_PREFIX + Dec(id)), Field(11, clOrdId)];
    var codes := [Field(17, K.EXEC_PREFIX + Dec(id)), Field(39, status), Field(150, kind)];
    var quantities := [Field(151, if t == CANCEL then K.NOTHING else quantity), Field(14, K.NOTHING)];
    IdsFine(id, clOrdId);
    CodesFine(id, status, kind);
    QuantitiesFine(quantities[0].value);
    CopiedIsFine(m, 41);
    CopiedIsFine(m, 55);
    CopiedIsFine(m, 54);
    FineJoin(ids, K.Copied(m, 41));
    FineJoin(ids + K.Copied(m, 41), codes);
    FineJoin(ids + K.Copied(m, 41) + codes, K.Copied(m, 55));
    FineJoin(ids + K.Copied(m, 41) + codes + K.Copied(m, 55), K.Copied(m, 54));
    FineJoin(ids + K.Copied(m, 41) + codes + K.Copied(m, 55) + K.Copied(m, 54), quantities);
  }

  /** The acceptor accepts what the initiator sends under the expected number. */
  lemma MockEnvelope(config: Config, mock: K.MockConfig, m: Message, n: nat)
    requires Matched(config, mock) && FromInit(config, m, n) && n <= U64_MAX
    ensures K.EnvelopeFault(mock, m, n).None? && First(m.fields, 35) == Some(m.fields[0].value)
  {
    hide First, IsSensitive, ParseU64, Dec, Clean;
    HeadedFirsts(m, config.beginString, config.senderCompId, config.targetCompId, n);
    ParseU64OfDec(n);
  }

  /** How many numbers the acceptor's answer takes and what it is. */
  ghost predicate Answered(config: Config, a: K.Acceptor, r: K.Response, m: Message) {
    && !r.outcome.Broken? && |r.sent| <= 1 && r.acceptor.nextIn == a.nextIn
    && (r.outcome.Going? ==> r.acceptor.nextOut == a.nextOut + |r.sent|)
    && (r.outcome.Ended? ==> r.acceptor.nextOut == a.nextOut && |r.sent| == 1)
    && (r.sent != [] ==> FromMock(config, r.sent[0], a.nextOut) && IsLogout(r.sent[0]) == IsLogout(m))
    && (IsLogout(m) ==> r.sent != [])
  }

  lemma MockAnswers(config: Config, mock: K.MockConfig, mockClock: nat -> Bytes, a: K.Acceptor, m: Message, n: nat)
    requires Matched(config, mock) && ClearMock(config, mockClock) && FromInit(config, m, n)
    requires a.nextOut < U64_MAX && a.nextExecutionId < U64_MAX
    ensures Answered(config, a, K.Answer(mock, mockClock, a, m, m.fields[0].value), m)
  {
    hide Matched, FromMock, First, K.Send, K.ExecutionReport, K.LogonExtra, K.SendLast, SohFree, ClearMock, Refusal,
         K.Copied;
    var t := m.fields[0].value;
    assert SohFree(m.fields);
    if t == LOGON {
      LogonExtraFine(mock, m);
      MatchedHeartbeat(config, mock);
      MockSends(config, mock, mockClock, a.(established := true), LOGON, K.LogonExtra(mock, m));
    } else if t == TEST_REQUEST {
      CopiedFine(m, 112);
      MockSends(config, mock, mockClock, a, HEARTBEAT, K.Copied(m, 112));
    } else if t in ORDER_TYPES {
      var report := K.ExecutionReport(m, t, First(m.fields, 11).value, a.nextExecutionId);
      ReportFine(m, t, First(m.fields, 11).value, a.nextExecutionId);
      MockSends(config, mock, mockClock, a.(nextExecutionId := a.nextExecutionId + 1), EXECUTION_REPORT, report);
    } else if t == LOGOUT {
      MockSendsLast(config, mock, mockClock, a);
    }
  }

  lemma MatchedHeartbeat(config: Config, mock: K.MockConfig)
    requires Matched(config, mock)
    ensures config.heartbeatSecs == mock.heartbeatSecs
  {
  }

  lemma MockSendsLast(config: Config, mock: K.MockConfig, mockClock: nat -> Bytes, a: K.Acceptor)
    requires Matched(config, mock) && ClearMock(config, mockClock)
    ensures var r := K.SendLast(mock, mockClock, a);
            && r.outcome.Ended? && r.acceptor == a.(ticks := a.ticks + 1)
            && |r.sent| == 1 && FromMock(config, r.sent[0], a.nextOut) && IsLogout(r.sent[0])
  {
    hide IsSensitive, First, Dec, Clean, SohFree, ClearMock;
    var header := K.Header(mock, LOGOUT, a.nextOut, mockClock(a.ticks));
    MockHeaderFine(config, mock, mockClock, LOGOUT, a.nextOut, a.ticks);
    MockClean(config, mock, header);
    CleanAccepted(Message(mock.beginString, header));
  }

  lemma MockTakes(config: Config, mock: K.MockConfig, mockClock: nat -> Bytes, a: K.Acceptor, m: Message)
    requires Matched(config, mock) && ClearMock(config, mockClock) && FromInit(config, m, a.nextIn)
    requires a.nextIn < U64_MAX && a.nextOut < U64_MAX && a.nextExecutionId < U64_MAX
    ensures Answered(config, a.(nextIn := a.nextIn + 1), K.Receive(mock, mockClock, a, m), m)
  {
    hide Matched, FromInit, Answered, K.Answer, K.EnvelopeFault, First, ClearMock;
    MockEnvelope(config, mock, m, a.nextIn);
    MockAnswers(config, mock, mockClock, a.(nextIn := a.nextIn + 1), m, a.nextIn);
  }

  lemma MockReceivesKeeps(j: Journal, env: Env, mock: K.MockConfig, mockClock: nat -> Bytes, net: Net)
    requires Lockstep(j, env, net) && Matched(env.config, mock) && ClearMock(env.config, mockClock)
    requires net.acceptor.nextIn < U64_MAX && net.acceptor.nextOut < U64_MAX && net.acceptor.nextExecutionId < U64_MAX
    ensures var m := Move(env, mock, mockClock, net, MockReceives);
            m.mockFault.None? && m.initError.None? && Lockstep(j, env, m.net)
  {
    hide Good, Matched, FromInit, FromMock, K.Receive, Logouts, IsLogout, ClearMock;
    if !net.ended && net.toMock != [] {
      var m := net.toMock[0];
      assert FromInit(env.config, m, net.acceptor.nextIn + 0);
      MockTakes(env.config, mock, mockClock, net.acceptor, m);
      var r := K.Receive(mock, mockClock, net.acceptor, m);
      InitQueueRest(env.config, net.toMock, net.acceptor.nextIn);
      LogoutsFront(net.toMock);
      MockQueueGrows(env.config, net.toInit, net.w.actor.nextIn, r.sent, net.acceptor.nextOut);
      LogoutsGrow(net.toInit, r.sent);
      hide InitQueue, MockQueue;
    }
  }

  lemma LogoutsFront(queue: seq<Message>)
    requires queue != []
    ensures Logouts(queue) == (if IsLogout(queue[0]) then 1 else 0) + Logouts(queue[1..])
  {
  }

  lemma InitQueueRest(config: Config, queue: seq<Message>, from: nat)
    requires queue != [] && InitQueue(config, queue, from)
    ensures InitQueue(config, queue[1..], from + 1)
  {
    hide FromInit;
    forall i | 0 <= i < |queue[1..]|
      ensures FromInit(config, queue[1..][i], from + 1 + i)
    {
      assert FromInit(config, queue[i + 1], from + (i + 1));
    }
  }

  lemma MockQueueGrows(config: Config, queue: seq<Message>, from: nat, sent: seq<Message>, n: nat)
    requires MockQueue(config, queue, from) && from + |queue| == n && |sent| <= 1
    requires sent != [] ==> FromMock(config, sent[0], n)
    ensures MockQueue(config, queue + sent, from)
  {
    hide FromMock;
    forall i | 0 <= i < |queue + sent|
      ensures FromMock(config, (queue + sent)[i], from + i)
    {
      assert i == |queue| ==> (queue + sent)[i] == sent[0] && from + i == n;
    }
  }

  lemma LogoutsGrow(queue: seq<Message>, sent: seq<Message>)
    requires |sent| <= 1
    ensures Logouts(queue + sent) == Logouts(queue) + if sent != [] && IsLogout(sent[0]) then 1 else 0
  {
    LogoutsJoin(queue, sent);
    assert sent != [] ==> sent[1..] == [];
  }

  lemma MockBeatsKeeps(j: Journal, env: Env, mock: K.MockConfig, mockClock: nat -> Bytes, net: Net)
    requires Lockstep(j, env, net) && Matched(env.config, mock) && ClearMock(env.config, mockClock)
    requires net.acceptor.nextOut < U64_MAX
    ensures var m := Move(env, mock, mockClock, net, MockBeats);
            m.mockFault.None? && m.initError.None? && Lockstep(j, env, m.net)
  {
    hide Good, Matched, K.Send, FromInit, FromMock, IsLogout, ClearMock;
    if !net.ended {
      var r := K.Beat(mock, mockClock, net.acceptor);
      if net.acceptor.established {
        MockSends(env.config, mock, mockClock, net.acceptor, HEARTBEAT, []);
      }
      MockQueueGrows(env.config, net.toInit, net.w.actor.nextIn, r.sent, net.acceptor.nextOut);
      LogoutsGrow(net.toInit, r.sent);
    }
  }

  // ----- whole runs -----

  /** The event may happen, and no counter is at its end. */
  ghost predicate MayHappen(net: Net, event: Event) {
    && (event.Acts? ==> MayAct(net.w, event.input))
    && net.acceptor.nextIn < U64_MAX && net.acceptor.nextOut < U64_MAX && net.acceptor.nextExecutionId < U64_MAX
    && net.w.actor.nextIn <= U64_MAX
  }

  ghost predicate AllMayHappen(env: Env, mock: K.MockConfig, mockClock: nat -> Bytes, m: Moved, events: seq<Event>)
    decreases |events|
  {
    events == [] || m.initError.Some? || m.mockFault.Some?
    || (MayHappen(m.net, events[0])
        && AllMayHappen(env, mock, mockClock, Move(env, mock, mockClock, m.net, events[0]), events[1..]))
  }

  lemma MoveKeeps(j: Journal, env: Env, mock: K.MockConfig, mockClock: nat -> Bytes, net: Net, event: Event)
    requires Lockstep(j, env, net) && Matched(env.config, mock) && MayHappen(net, event)
    requires Clear(env, mockClock)
    ensures var m := Move(env, mock, mockClock, net, event);
            && m.mockFault.None? && (m.initError.Some? ==> event.Acts?)
            && (m.initError.None? ==> Lockstep(j, env, m.net))
  {
    hide Lockstep, Matched, Move, MayAct;
    match event
    case Acts(input) => ActsKeep(j, env, mock, mockClock, net, input);
    case InitReceives => InitReceivesKeeps(j, env, mock, mockClock, net);
    case MockReceives => MockReceivesKeeps(j, env, mock, mockClock, net);
    case MockBeats => MockBeatsKeeps(j, env, mock, mockClock, net);
  }

  /** The acceptor never finds a fault; the initiator never finds one in what it receives; and as long as it
      runs both are in lockstep. */
  lemma {:induction false} MovesKeep(
      j: Journal, env: Env, mock: K.MockConfig, mockClock: nat -> Bytes, m: Moved, events: seq<Event>)
    requires m.mockFault.None? && (m.initError.None? ==> Lockstep(j, env, m.net)) && Matched(env.config, mock)
    requires Clear(env, mockClock)
    requires AllMayHappen(env, mock, mockClock, m, events)
    ensures var r := Moves(env, mock, mockClock, m, events);
            r.mockFault.None? && (r.initError.None? ==> Lockstep(j, env, r.net))
    decreases |events|
  {
    hide Lockstep, Matched, Move, MayHappen, Clear;
    if events != [] && m.initError.None? {
      MoveKeeps(j, env, mock, mockClock, m.net, events[0]);
      MovesKeep(j, env, mock, mockClock, Move(env, mock, mockClock, m.net, events[0]), events[1..]);
    }
  }

  /** The net once the initiator has sent its logon. */
  function Opened(env: Env, j: Journal): Net {
    var r := Start(env, j);
    Net(r.w, K.FRESH, false, Sent(Spawned(j), r.w), [])
  }

  lemma LogonExtraSendable(config: Config)
    requires LogonFieldsOk(config.logonFields)
    ensures RefusedField(LogonExtra(config)).None? && SohFree(LogonExtra(config))
  {
    DigitsHaveNo(Dec(config.heartbeatSecs), SOH);
    hide RefusedField, Dec;
    var own := [Field(98, NO_ENCRYPTION), Field(108, Dec(config.heartbeatSecs))]
               + (if config.resetOnLogon then [Field(141, YES)] else []);
    assert LogonExtra(config) == own + config.logonFields;
    LogonTagsFree(config.logonFields);
    SohFreeJoin(own, config.logonFields);
    assert forall f | f in own + config.logonFields :: f in own || f in config.logonFields;
  }

  lemma LogonTagsFree(fields: seq<Field>)
    requires LogonFieldsOk(fields)
    ensures forall f | f in fields :: f.tag != 0 && !(8 <= f.tag <= 10)
    ensures SohFree(fields)
  {
    assert forall f | f in fields :: f.tag !in RESERVED_LOGON_TAGS;
  }

  lemma LogonGrew(j: Journal, env: Env, w: World)
    requires Kept(j, w) && ConfigOk(env.config) && ClearEnv(env) && LogonFieldsOk(env.config.logonFields)
    requires env.config.resetOnLogon || (w.actor.nextOut == 1 && w.actor.nextIn == 1)
    ensures var r := SendLogon(env, w);
            var start := if env.config.resetOnLogon then Reset(w) else w;
            && r.error.None? && start.actor.nextOut == 1 && start.actor.nextIn == 1
            && Grew(env.config, start, r.w, [Own(env, start, LOGON, LogonExtra(env.config))])
            && Logouts([Own(env, start, LOGON, LogonExtra(env.config))]) == 0
            && start.actor.gap == w.actor.gap && start.actor.phase == w.actor.phase
  {
    hide Traced, SendAdmin, Grew, Own, LogonExtra, LogonFieldsOk, ClearEnv, SohFree;
    TracedDo(j, w, ResetSequences);
    var start := if env.config.resetOnLogon then Reset(w) else w;
    LogonExtraSendable(env.config);
    OwnGrew(j, env, start, KIND_LOGON, LOGON, LogonExtra(env.config),
            ADMIN_PREFIX + LOGON + [COLON] + Dec(start.actor.nextOut));
  }

  /** A reset writes nothing to the socket. */
  lemma ResetSilent(env: Env, w: World)
    ensures var start := if env.config.resetOnLogon then Reset(w) else w; SentBy(w, start, [])
  {
    NothingWritten(w.trace, ResetSequences);
    assert w.trace[|w.trace|..] == [];
    NoWrites();
  }

  lemma OpenedInLockstep(j: Journal, env: Env, mock: K.MockConfig)
    requires Inv(j) && Tidy(j) && Matched(env.config, mock) && ClearEnv(env)
    requires LogonFieldsOk(env.config.logonFields)
    requires env.config.resetOnLogon || (j.nextOut == 1 && j.nextIn == 1)
    ensures Start(env, j).error.None?
    ensures Lockstep(j, env, Opened(env, j))
  {
    hide Traced, SendLogon, Inv, Tidy, LogonFieldsOk, LogonExtra, IsSensitive, Own, Good, Logouts, FromInit, Writes,
         Reset, ClearEnv;
    var w := Spawned(j);
    SpawnedKept(j);
    LogonGrew(j, env, w);
    StartKeeps(env, j);
    var start := if env.config.resetOnLogon then Reset(w) else w;
    var logon := [Own(env, start, LOGON, LogonExtra(env.config))];
    ResetSilent(env, w);
    SentJoin(w, start, SendLogon(env, w).w, [], logon);
    assert [] + logon == logon;
    NoLogouts();
  }

  lemma SpawnedKept(j: Journal)
    requires Inv(j) && Tidy(j)
    ensures Kept(j, Spawned(j))
  {
    hide Inv, Tidy;
  }

  /** An initiator and a fresh acceptor that are configured for each other, the initiator resetting or both
      starting at 1: in every interleaving of commands, timers and deliveries the acceptor never finds a
      fault in what it gets, and while the initiator runs, receiver and channel make up the sender's number
      in each direction, nothing is buffered and no resend is ever asked for. */
  lemma TwoPartyLockstep(
      j: Journal, env: Env, mock: K.MockConfig, mockClock: nat -> Bytes, events: seq<Event>)
    requires Inv(j) && Tidy(j) && Matched(env.config, mock) && LogonFieldsOk(env.config.logonFields)
    requires Clear(env, mockClock)
    requires env.config.resetOnLogon || (j.nextOut == 1 && j.nextIn == 1)
    requires AllMayHappen(env, mock, mockClock, Moved(Opened(env, j), None, None), events)
    ensures var r := Moves(env, mock, mockClock, Moved(Opened(env, j), None, None), events);
            && r.mockFault.None?
            && (r.initError.None? ==> Lockstep(j, env, r.net) && r.net.w.actor.phase != Recovering)
  {
    hide Inv, Tidy, Matched, LogonFieldsOk, Opened, Moves, AllMayHappen, Good, InitQueue, MockQueue;
    OpenedInLockstep(j, env, mock);
    MovesKeep(j, env, mock, mockClock, Moved(Opened(env, j), None, None), events);
  }

  // ----- the same through bytes -----

  /** The bytes of everything under way carry it: handling them is handling the message, and the acceptor's
      parser finds the message the initiator sent. */
  lemma BytesCarryThem(j: Journal, env: Env, net: Net, w: World)
    requires Lockstep(j, env, net)
    ensures forall m | m in net.toInit && |WireOf(m)| <= USIZE_MAX ::
              HandleFrame(env, w, WireOf(m)) == Handle(env, w, m)
    ensures forall m | m in net.toMock && |WireOf(m)| <= USIZE_MAX ::
              Parse(WireOf(m)).Ok? && Parse(WireOf(m)).value.beginString == m.beginString
              && Parse(WireOf(m)).value.fields == m.fields
  {
    hide Good, Encode, HandleFrame, Handle, Parse, Headed, SohFree, Logouts;
    forall m | m in net.toInit && |WireOf(m)| <= USIZE_MAX
      ensures HandleFrame(env, w, WireOf(m)) == Handle(env, w, m)
    {
      var i :| 0 <= i < |net.toInit| && net.toInit[i] == m;
      assert FromMock(env.config, net.toInit[i], net.w.actor.nextIn + i);
      CleanEncodes(m);
      HandleEncoded(env, w, m);
    }
    forall m | m in net.toMock && |WireOf(m)| <= USIZE_MAX
      ensures Parse(WireOf(m)).Ok? && Parse(WireOf(m)).value.beginString == m.beginString
      ensures Parse(WireOf(m)).value.fields == m.fields
    {
      var i :| 0 <= i < |net.toMock| && net.toMock[i] == m;
      assert FromInit(env.config, net.toMock[i], net.acceptor.nextIn + i);
      CleanEncodes(m);
      RoundTrip(m.beginString, m.fields);
    }
  }

  lemma CleanEncodes(m: Message)
    requires Clean(m)
    ensures Encode(m.beginString, m.fields) == Ok(WireOf(m)) && SohFree(m.fields)
  {
  }
}
