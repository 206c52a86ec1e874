// What every turn of the actor keeps: actor and journal agree, and nothing is sent before it is journaled.

module SessionSafety {
  import opened Text
  import opened Codec
  import opened Messages
  import opened Store
  import opened StoreTheorems
  import opened Session

  // ----- the session's own idempotency keys -----

  lemma LastColonFirst(a: Bytes, d: Bytes, a': Bytes, d': Bytes)
    requires a + [COLON] + d == a' + [COLON] + d' && COLON !in d'
    ensures |d| >= |d'|
  {
    assert (a + [COLON] + d)[|a|] == COLON;
    assert forall i | |a'| < i < |a'| + 1 + |d'| :: (a' + [COLON] + d')[i] == d'[i - |a'| - 1];
  }

  lemma SplitAtLast(a: Bytes, d: Bytes, a': Bytes, d': Bytes)
    requires a + [COLON] + d == a' + [COLON] + d' && COLON !in d && COLON !in d'
    ensures a == a' && d == d'
  {
    LastColonFirst(a, d, a', d');
    LastColonFirst(a', d', a, d);
    var s, s' := a + [COLON] + d, a' + [COLON] + d';
    assert s[..|a|] == a && s'[..|a'|] == a';
    assert s[|a| + 1..] == d && s'[|a'| + 1..] == d';
  }

  /** A key names one pair of counters, whatever the kind of message. */
  lemma KeyNamesCounters(kind: Bytes, o: nat, e: nat, kind': Bytes, o': nat, e': nat)
    requires Key(kind, o, e) == Key(kind', o', e')
    ensures o == o' && e == e'
  {
    DigitsHaveNo(Dec(o), COLON);
    DigitsHaveNo(Dec(e), COLON);
    DigitsHaveNo(Dec(o'), COLON);
    DigitsHaveNo(Dec(e'), COLON);
    var head, head' := SESSION_PREFIX + kind + [COLON] + Dec(o), SESSION_PREFIX + kind' + [COLON] + Dec(o');
    SplitAtLast(head, Dec(e), head', Dec(e'));
    SplitAtLast(SESSION_PREFIX + kind, Dec(o), SESSION_PREFIX + kind', Dec(o'));
    DecInjective(o, o');
    DecInjective(e, e');
  }

  /** Every stored session key belongs to counters the journal has left behind. */
  ghost predicate KeysBehind(j: Journal) {
    forall kind, o: nat, e: nat | Key(kind, o, e) in j.commands ::
      e < j.nextEvent || (e == j.nextEvent && o < j.nextOut)
  }

  /** A request id that is no session key, or the key of the journal's present counters. */
  ghost predicate KeyOk(j: Journal, id: Bytes) {
    forall kind, o: nat, e: nat | id == Key(kind, o, e) :: o == j.nextOut && e == j.nextEvent
  }

  lemma AgentIdIsNoKey(j: Journal, id: Bytes)
    requires AgentId(id)
    ensures KeyOk(j, id)
  {
    hide AgentId, Key;
    forall kind, o: nat, e: nat | true
      ensures id != Key(kind, o, e)
    {
      KeyHasPrefix(kind, o, e);
    }
  }

  /** The key of the present counters is new. */
  lemma PresentKeyIsFresh(j: Journal, kind: Bytes)
    requires KeysBehind(j)
    ensures Key(kind, j.nextOut, j.nextEvent) !in j.commands && KeyOk(j, Key(kind, j.nextOut, j.nextEvent))
  {
    var key := Key(kind, j.nextOut, j.nextEvent);
    forall k, o: nat, e: nat | key == Key(k, o, e)
      ensures o == j.nextOut && e == j.nextEvent
    {
      KeyNamesCounters(kind, j.nextOut, j.nextEvent, k, o, e);
    }
  }

  /** A message as it is first sent: one number, one sending time, no trace of a replay, and nothing that
      the encoder refuses. */
  ghost predicate Original(m: Message, n: nat) {
    && Values(m.fields, 34) == [Dec(n)] && |Values(m.fields, 52)| == 1
    && Values(m.fields, 43) == [] && Values(m.fields, 122) == []
    && Refusal(m.beginString, m.fields).None?
  }

  lemma OriginalIsFresh(m: Message, n: nat)
    requires Original(m, n)
    ensures !PossDup(m)
  {
  }

  /** Every stored application message is an original. */
  ghost predicate OriginalsStored(j: Journal) {
    forall n | n in j.outbound && j.outbound[n].command.clOrdId != [] :: Original(j.outbound[n].wire, n)
  }

  ghost predicate Tidy(j: Journal) { KeysBehind(j) && OriginalsStored(j) }

  /** What the session takes care of in the operations it applies: a commit uses no session key but the one
      of the moment and stores applications in their original form; a mark names the owner of its row. */
  ghost predicate OpOk(j: Journal, op: StoreOp) {
    match op
    case CommitOutbound(c) => KeyOk(j, c.requestId) && (c.clOrdId != [] ==> Original(c.wire, c.msgSeqNum))
    case MarkOutboundWritten(id, n) => n in j.outbound ==> j.outbound[n].command.requestId == id
    case _ => true
  }

  lemma KeysBehindStep(j: Journal, op: StoreOp)
    requires Inv(j) && KeysBehind(j) && (op.CommitOutbound? ==> KeyOk(j, op.outbound.requestId))
    ensures KeysBehind(After(j, op).0)
  {
    hide Key;
    var next := After(j, op).0;
    forall kind, o: nat, e: nat | Key(kind, o, e) in next.commands
      ensures e < next.nextEvent || (e == next.nextEvent && o < next.nextOut)
    {
      if Key(kind, o, e) !in j.commands {
        assert op.CommitOutbound? && Key(kind, o, e) == op.outbound.requestId;
      }
    }
  }

  lemma OriginalsStoredStep(j: Journal, op: StoreOp)
    requires OutboundInv(j) && OriginalsStored(j) && OpOk(j, op)
    ensures OriginalsStored(After(j, op).0)
  {
    hide Original, KeyOk;
  }

  lemma TidyStep(j: Journal, op: StoreOp)
    requires Inv(j) && Tidy(j) && OpOk(j, op)
    ensures Tidy(After(j, op).0)
  {
    hide KeysBehind, OriginalsStored, After, TransmissionInv, InboundInv, OutboundInv, KeyOk, Original;
    KeysBehindStep(j, op);
    OriginalsStoredStep(j, op);
  }

  // ----- traces -----

  function AfterEffect(j: Journal, e: Effect): Journal {
    match e
    case Did(op) => After(j, op).0
    case Write(_) => j
  }

  /** The journal that a trace of effects leaves behind. */
  function Fold(j: Journal, t: seq<Effect>): Journal {
    if t == [] then j else AfterEffect(Fold(j, t[..|t| - 1]), t[|t| - 1])
  }

  lemma FoldAppendOne(j: Journal, t: seq<Effect>, e: Effect)
    ensures Fold(j, t + [e]) == AfterEffect(Fold(j, t), e)
  {
    assert (t + [e])[..|t|] == t;
  }

  predicate EndsWith(fields: seq<Field>, custom: seq<Field>) {
    |custom| <= |fields| && fields[|fields| - |custom|..] == custom
  }

  /** The form in which a session with this configuration journals a Logon that ends with its custom fields:
      the values of those tags and of 553, 554 and 925 are replaced, nothing else is. */
  ghost predicate RedactedLogon(config: Config, journaled: Message, sent: Message) {
    && MsgType(sent) == Some(LOGON) && LogonFieldsOk(config.logonFields)
    && EndsWith(sent.fields, config.logonFields) && journaled == Redacted(config, sent)
  }

  /** What is journaled of a message is the message itself, or the redacted form of a Logon. */
  ghost predicate RedactionOf(journaled: Message, sent: Message) {
    journaled == sent || exists config :: RedactedLogon(config, journaled, sent)
  }

  /** The wire message that a commit journals: its number is the first MsgSeqNum. */
  ghost predicate Carries(wire: Message, c: OutboundCommit) {
    First(wire.fields, 34) == Some(Dec(c.msgSeqNum)) && RedactionOf(c.wire, wire)
  }

  predicate FreshCommit(j: Journal, c: OutboundCommit) { c.requestId !in j.commands && c.msgSeqNum == j.nextOut }

  predicate IsFreshWrite(e: Effect) { e.Write? && !PossDup(e.wire) }

  /** The effect before `i` is the first commit of what effect `i` writes. */
  ghost predicate JournaledBefore(j: Journal, t: seq<Effect>, i: nat)
    requires i < |t|
  {
    && 0 < i && t[i].Write? && t[i - 1].Did? && t[i - 1].op.CommitOutbound?
    && FreshCommit(Fold(j, t[..i - 1]), t[i - 1].op.outbound)
    && Carries(t[i].wire, t[i - 1].op.outbound)
  }

  /** The effect before `i` journals, as a transmission, just what effect `i` writes. */
  predicate TransmittedBefore(t: seq<Effect>, i: nat)
    requires i < |t|
  {
    0 < i && t[i].Write? && t[i - 1].Did? && t[i - 1].op.CommitTransmission? && t[i - 1].op.wire == t[i].wire
  }

  /** What effect `i` writes is journaled just before: a possible duplicate as a transmission, everything else
      as a first commit. */
  ghost predicate Vouched(j: Journal, t: seq<Effect>, i: nat)
    requires i < |t| && t[i].Write?
  {
    if PossDup(t[i].wire) then TransmittedBefore(t, i) else JournaledBefore(j, t, i)
  }

  /** Every message written is vouched for. */
  ghost predicate Safe(j: Journal, t: seq<Effect>) { forall i | 0 <= i < |t| && t[i].Write? :: Vouched(j, t, i) }

  lemma SafeAppendOne(j: Journal, t: seq<Effect>, e: Effect)
    requires Safe(j, t) && (e.Write? ==> Vouched(j, t + [e], |t|))
    ensures Safe(j, t + [e])
  {
    hide Carries, FreshCommit, PossDup;
    var t' := t + [e];
    forall i | 0 <= i < |t'| && t'[i].Write?
      ensures Vouched(j, t', i)
    {
      if i < |t| {
        assert Vouched(j, t, i);
        if !PossDup(t[i].wire) {
          assert t'[..i - 1] == t[..i - 1];
        }
      }
    }
  }

  /** Every operation of a trace is as it should be at its moment. */
  ghost predicate OpsInOrder(j: Journal, t: seq<Effect>) {
    forall i | 0 <= i < |t| && t[i].Did? :: OpOk(Fold(j, t[..i]), t[i].op)
  }

  lemma OpsAppendOne(j: Journal, t: seq<Effect>, e: Effect)
    requires OpsInOrder(j, t) && (e.Did? ==> OpOk(Fold(j, t), e.op))
    ensures OpsInOrder(j, t + [e])
  {
    hide OpOk;
    var t' := t + [e];
    forall i | 0 <= i < |t'| && t'[i].Did?
      ensures OpOk(Fold(j, t'[..i]), t'[i].op)
    {
      assert t'[..i] == t[..i];
      assert t[..|t|] == t;
    }
  }

  /** The journal is what the trace made of `j`, the trace is safe, and the journal is in order. */
  ghost predicate Traced(j: Journal, now: Journal, t: seq<Effect>) {
    now == Fold(j, t) && Safe(j, t) && OpsInOrder(j, t) && Inv(now) && Tidy(now)
  }

  lemma TracedDo(j: Journal, w: World, op: StoreOp)
    requires Traced(j, w.journal, w.trace) && OpOk(w.journal, op)
    ensures Traced(j, Do(w, op).journal, Do(w, op).trace)
  {
    hide Inv, Tidy, OpOk, Safe, After, OpsInOrder;
    OpsAppendOne(j, w.trace, Did(op));
    FoldAppendOne(j, w.trace, Did(op));
    SafeAppendOne(j, w.trace, Did(op));
    InvStep(w.journal, op);
    TidyStep(w.journal, op);
  }

  lemma TracedTransmit(j: Journal, w: World, n: nat, kind: TransmissionKind, wire: Message)
    requires Traced(j, w.journal, w.trace) && PossDup(wire)
    ensures var done := Do(w, CommitTransmission(n, kind, wire)); Traced(j, done.journal, Emit(done, wire).trace)
  {
    hide Inv, Tidy, Safe, PossDup, OpsInOrder, Fold, JournaledBefore;
    var done := Do(w, CommitTransmission(n, kind, wire));
    TracedDo(j, w, CommitTransmission(n, kind, wire));
    OpsAppendOne(j, done.trace, Write(wire));
    FoldAppendOne(j, done.trace, Write(wire));
    SafeAppendOne(j, done.trace, Write(wire));
  }

  lemma TracedCommitAndWrite(j: Journal, w: World, c: OutboundCommit, wire: Message)
    requires Traced(j, w.journal, w.trace) && FreshCommit(w.journal, c) && !PossDup(wire)
    requires Carries(wire, c) && OpOk(w.journal, CommitOutbound(c))
    ensures var done := Do(w, CommitOutbound(c)); Traced(j, done.journal, Emit(done, wire).trace)
  {
    hide Inv, Tidy, Safe, OpOk, Carries, FreshCommit, PossDup, OpsInOrder;
    var done := Do(w, CommitOutbound(c));
    TracedDo(j, w, CommitOutbound(c));
    FoldAppendOne(j, done.trace, Write(wire));
    OpsAppendOne(j, done.trace, Write(wire));
    var t := done.trace + [Write(wire)];
    assert t[..|t| - 2] == w.trace;
    assert JournaledBefore(j, t, |t| - 1);
    SafeAppendOne(j, done.trace, Write(wire));
  }

  // ----- actor and journal agree -----

  predicate Synced(w: World) {
    && w.actor.nextOut == w.journal.nextOut
    && w.actor.nextIn == w.journal.nextIn
    && w.actor.nextEvent == w.journal.nextEvent
  }

  ghost predicate Kept(j: Journal, w: World) { Traced(j, w.journal, w.trace) && Synced(w) }

  /** The header carries the number; nothing after it can come first. */
  lemma HeaderNumber(config: Config, msgType: Bytes, n: nat, time: Bytes, rest: seq<Field>)
    ensures First(Header(config, msgType, n, time) + rest, 34) == Some(Dec(n))
  {
    var header := Header(config, msgType, n, time);
    ValuesAppend(header, rest, 34);
    assert header[1..][1..][1..] == [Field(34, Dec(n)), Field(52, time)];
    assert Values(header[1..][1..][1..], 34)[0] == Dec(n);
    assert Values(header[1..][1..], 34)[0] == Dec(n);
    assert Values(header[1..], 34)[0] == Dec(n);
  }

  lemma RedactedIsRedaction(config: Config, wire: Message)
    requires MsgType(wire) == Some(LOGON) ==>
               LogonFieldsOk(config.logonFields) && EndsWith(wire.fields, config.logonFields)
    ensures RedactionOf(Redacted(config, wire), wire)
  {
    hide LogonFieldsOk, EndsWith, RedactedFields;
    assert MsgType(wire) == Some(LOGON) ==> RedactedLogon(config, Redacted(config, wire), wire);
  }

  lemma EndsWithLater(header: seq<Field>, extra: seq<Field>, custom: seq<Field>)
    requires EndsWith(extra, custom)
    ensures EndsWith(header + extra, custom)
  {
    assert (header + extra)[|header + extra| - |custom|..] == extra[|extra| - |custom|..];
  }

  lemma LogonExtraEnds(config: Config)
    ensures EndsWith(LogonExtra(config), config.logonFields)
  {
    hide Dec;
  }

  lemma LogonExtraFresh(config: Config)
    requires LogonFieldsOk(config.logonFields)
    ensures forall f | f in LogonExtra(config) :: f.tag != 43
  {
    hide Dec;
    assert forall f | f in config.logonFields :: f.tag !in RESERVED_LOGON_TAGS;
  }

  /** The commit of a fresh command is accepted, and so is the mark that follows. */
  lemma FreshCommitAccepted(j: Journal, c: OutboundCommit)
    requires FreshCommit(j, c)
    ensures var (after, reply) := AfterCommitOutbound(j, c);
            && reply.Ok? && reply.value == CommandRecord(c.requestId, c.fingerprint, c.clOrdId, c.msgSeqNum, Journaled)
            && after == After(j, CommitOutbound(c)).0 && after.nextOut == j.nextOut + 1
            && after.nextIn == j.nextIn && after.nextEvent == j.nextEvent
            && AfterMarkOutbound(after, c.requestId, c.msgSeqNum).1 == Ok(reply.value.(phase := Written))
  {
  }

  lemma DeliverKeeps(j: Journal, w: World, c: OutboundCommit, wire: Message)
    requires Kept(j, w) && FreshCommit(w.journal, c) && Carries(wire, c) && OpOk(w.journal, CommitOutbound(c))
    requires !PossDup(wire)
    ensures var r := Deliver(Do(w, CommitOutbound(c)), c.requestId, c.msgSeqNum, wire);
            Kept(j, r.w) && r.error.None? && r.w.journal.nextOut == w.journal.nextOut + 1
  {
    hide Traced, Carries, KeyOk, Original, PossDup;
    FreshCommitAccepted(w.journal, c);
    TracedCommitAndWrite(j, w, c, wire);
    TracedDo(j, Emit(Do(w, CommitOutbound(c)), wire), MarkOutboundWritten(c.requestId, c.msgSeqNum));
  }

  lemma SendKeeps(j: Journal, w: World, c: OutboundCommit, wire: Message)
    requires Kept(j, w) && FreshCommit(w.journal, c) && Carries(wire, c) && OpOk(w.journal, CommitOutbound(c))
    requires !PossDup(wire)
    ensures Kept(j, Send(w, c, wire).w) && Send(w, c, wire).error.None?
  {
    hide Kept, Carries, OpOk, PossDup;
    FreshCommitAccepted(w.journal, c);
    DeliverKeeps(j, w, c, wire);
  }

  lemma AdminRedaction(env: Env, w: World, msgType: Bytes, extra: seq<Field>)
    requires msgType == LOGON ==> LogonFieldsOk(env.config.logonFields) && EndsWith(extra, env.config.logonFields)
    ensures var header := Header(env.config, msgType, w.actor.nextOut, env.clock(w.ticks));
            var wire := Message(env.config.beginString, header + extra);
            RedactionOf(Redacted(env.config, wire), wire)
  {
    hide LogonFieldsOk, EndsWith, RedactionOf, Redacted;
    var header := Header(env.config, msgType, w.actor.nextOut, env.clock(w.ticks));
    var wire := Message(env.config.beginString, header + extra);
    assert MsgType(wire) == Some(msgType);
    if msgType == LOGON {
      EndsWithLater(header, extra, env.config.logonFields);
    }
    RedactedIsRedaction(env.config, wire);
  }

  /** Nothing behind the header makes a possible duplicate of a message of the session. */
  lemma AdminIsFresh(config: Config, msgType: Bytes, n: nat, time: Bytes, extra: seq<Field>)
    requires forall f | f in extra :: f.tag != 43
    ensures !PossDup(Message(config.beginString, Header(config, msgType, n, time) + extra))
  {
    hide Values, Dec;
    ManagedOnlyInHeader(Header(config, msgType, n, time), extra, 43);
    HeaderValues(config, msgType, n, time, 43);
  }

  /** The session's own messages always find their key unused; only the encoder can refuse them. */
  lemma SendAdminKeeps(j: Journal, env: Env, w: World, kind: Bytes, msgType: Bytes, extra: seq<Field>, fp: Bytes)
    requires Kept(j, w) && forall f | f in extra :: f.tag != 43
    requires msgType == LOGON ==> LogonFieldsOk(env.config.logonFields) && EndsWith(extra, env.config.logonFields)
    ensures var r := SendAdmin(env, w, kind, msgType, extra, fp);
            && Kept(j, r.w) && (r.error.None? || r.error.value.Refused?)
            && (r.error.None? <==>
                Refusal(env.config.beginString,
                        Header(env.config, msgType, w.actor.nextOut, env.clock(w.ticks)) + extra).None?)
  {
    hide Inv, OriginalsStored, Safe, OpsInOrder, Fold, Header, Redacted, RedactionOf, First, KeyOk, Key, Send,
         KeysBehind, LogonFieldsOk, EndsWith, PossDup;
    var fields := Header(env.config, msgType, w.actor.nextOut, env.clock(w.ticks)) + extra;
    var wire := Message(env.config.beginString, fields);
    var ticked := w.(ticks := w.ticks + 1);
    if Refusal(wire.beginString, wire.fields).None? {
      var key := Key(kind, w.actor.nextOut, w.actor.nextEvent);
      var c := OutboundCommit(key, fp, [], w.actor.nextOut, Redacted(env.config, wire));
      HeaderNumber(env.config, msgType, w.actor.nextOut, env.clock(w.ticks), extra);
      AdminRedaction(env, w, msgType, extra);
      AdminIsFresh(env.config, msgType, w.actor.nextOut, env.clock(w.ticks), extra);
      PresentKeyIsFresh(w.journal, kind);
      SendKeeps(j, ticked, c, wire);
    }
  }

  lemma SendLogoutKeeps(j: Journal, env: Env, w: World, text: Option<Bytes>)
    requires Kept(j, w)
    ensures var r := SendLogout(env, w, text);
            && Kept(j, r.w) && (r.error.None? || r.error.value.Refused? || r.error.value.NotEstablished?)
            && (r.error.None? ==> r.w.actor.phase == LogoutSent)
  {
    hide Traced, SendAdmin;
    SendAdminKeeps(j, env, w, KIND_LOGOUT, LOGOUT,
                   match text case Some(t) => [Field(58, t)] case None => [],
                   ADMIN_PREFIX + LOGOUT + [COLON] + Dec(w.actor.nextOut));
  }

  lemma SendHeartbeatKeeps(j: Journal, env: Env, w: World, id: Option<Bytes>)
    requires Kept(j, w)
    ensures var r := SendHeartbeat(env, w, id); Kept(j, r.w) && (r.error.None? || r.error.value.Refused?)
  {
    hide Kept, SendAdmin;
    SendAdminKeeps(j, env, w, KIND_HEARTBEAT, HEARTBEAT,
                   match id case Some(t) => [Field(112, t)] case None => [],
                   ADMIN_PREFIX + HEARTBEAT + [COLON] + Dec(w.actor.nextOut));
  }

  lemma SendTestRequestKeeps(j: Journal, env: Env, w: World)
    requires Kept(j, w)
    ensures var r := SendTestRequest(env, w); Kept(j, r.w) && (r.error.None? || r.error.value.Refused?)
    ensures var r := SendTestRequest(env, w).w.actor;
            r.gap == w.actor.gap && r.phase == w.actor.phase && r.nextIn == w.actor.nextIn
  {
    hide Traced, SendAdmin;
    var id := TEST_PREFIX + Dec(w.actor.nextOut);
    SendAdminKeeps(j, env, w, KIND_TEST, TEST_REQUEST, [Field(112, id)],
                   ADMIN_PREFIX + TEST_REQUEST + [COLON] + Dec(w.actor.nextOut) + [COLON] + id);
  }

  lemma SendResendRequestKeeps(j: Journal, env: Env, w: World, begin: nat)
    requires Kept(j, w)
    ensures var r := SendResendRequest(env, w, begin); Kept(j, r.w) && (r.error.None? || r.error.value.Refused?)
  {
    hide Kept, SendAdmin;
    SendAdminKeeps(j, env, w, KIND_RESEND, RESEND_REQUEST, [Field(7, Dec(begin)), Field(16, ALL_FOLLOWING)],
                   ADMIN_PREFIX + RESEND_REQUEST + [COLON] + Dec(w.actor.nextOut) + [COLON] + Dec(begin));
  }

  lemma SendLogonKeeps(j: Journal, env: Env, w: World)
    requires Kept(j, w)
    ensures Kept(j, SendLogon(env, w).w)
  {
    hide Traced, SendAdmin, LogonFieldsOk, EndsWith, LogonExtra;
    if LogonFieldsOk(env.config.logonFields) {
      TracedDo(j, w, ResetSequences);
      LogonExtraEnds(env.config);
      LogonExtraFresh(env.config);
      var start := if env.config.resetOnLogon then Reset(w) else w;
      SendAdminKeeps(j, env, start, KIND_LOGON, LOGON, LogonExtra(env.config),
                     ADMIN_PREFIX + LOGON + [COLON] + Dec(start.actor.nextOut));
    }
  }

  // ----- application messages -----

  /** The one case in which a submission would be written without being journaled: its request is stored,
      with the same fingerprint, at the very number that comes next (so it is from an earlier epoch). */
  predicate StaleAtNext(j: Journal, req: ApplicationRequest) {
    && req.requestId in j.commands
    && j.commands[req.requestId].fingerprint == req.fingerprint
    && j.commands[req.requestId].msgSeqNum == j.nextOut
  }

  lemma ApplicationNumber(env: Env, w: World, req: ApplicationRequest)
    requires ApplicationFields(env, w, req).Some?
    ensures First(ApplicationFields(env, w, req).value, 34) == Some(Dec(w.actor.nextOut))
  {
    hide First, ApplicationFields;
    var rest := ApplicationRest(env, w, req);
    HeaderNumber(env.config, req.msgType, w.actor.nextOut, env.clock(w.ticks), rest);
  }

  lemma {:induction false} TransactTimeTags(env: Env, fields: seq<Field>, needed: bool, ticks: nat)
    ensures forall f | f in WithTransactTime(env, fields, needed, ticks) :: f in fields || f.tag == 60
    decreases |fields|
  {
    if fields != [] {
      TransactTimeTags(env, fields[1..], needed, ticks + 1);
      TransactTimeTags(env, fields[1..], needed, ticks);
    }
  }

  lemma HeaderValues(config: Config, msgType: Bytes, n: nat, time: Bytes, tag: u32)
    requires tag in {34, 43, 52, 122}
    ensures Values(Header(config, msgType, n, time), tag) ==
            if tag == 34 then [Dec(n)] else if tag == 52 then [time] else []
  {
    hide Values, Dec;
    var a, b := [Field(35, msgType), Field(49, config.senderCompId), Field(56, config.targetCompId)],
                [Field(34, Dec(n)), Field(52, time)];
    assert Header(config, msgType, n, time) == a + b;
    ValuesAppend(a, b, tag);
    ValuesAbsent(a, tag);
    ValuesTwo(b[0], b[1], tag);
  }

  /** An application message carries its managed tags once, in the header; nothing in the request can add
      another number, sending time or trace of a replay. */
  lemma ApplicationIsOriginal(env: Env, w: World, req: ApplicationRequest)
    requires ApplicationFields(env, w, req).Some?
    requires Refusal(env.config.beginString, ApplicationFields(env, w, req).value).None?
    ensures Original(Message(env.config.beginString, ApplicationFields(env, w, req).value), w.actor.nextOut)
  {
    hide Values, Refusal;
    var fields := ApplicationFields(env, w, req).value;
    var header := Header(env.config, req.msgType, w.actor.nextOut, env.clock(w.ticks));
    var rest := ApplicationRest(env, w, req);
    ManagedOnlyInHeader(header, rest, 34);
    ManagedOnlyInHeader(header, rest, 43);
    ManagedOnlyInHeader(header, rest, 52);
    ManagedOnlyInHeader(header, rest, 122);
    hide ApplicationFields;
    forall tag: u32 | tag in {34, 43, 52, 122}
      ensures Values(header, tag) ==
              if tag == 34 then [Dec(w.actor.nextOut)] else if tag == 52 then [env.clock(w.ticks)] else []
    {
      HeaderValues(env.config, req.msgType, w.actor.nextOut, env.clock(w.ticks), tag);
    }
  }

  lemma ManagedOnlyInHeader(header: seq<Field>, rest: seq<Field>, tag: u32)
    requires forall f | f in rest :: f.tag != tag
    ensures Values(header + rest, tag) == Values(header, tag)
  {
    hide Values;
    ValuesAppend(header, rest, tag);
    ValuesAbsent(rest, tag);
  }

  /** What follows the header. */
  lemma ApplicationRest(env: Env, w: World, req: ApplicationRequest) returns (rest: seq<Field>)
    requires ApplicationFields(env, w, req).Some?
    ensures ApplicationFields(env, w, req).value ==
            Header(env.config, req.msgType, w.actor.nextOut, env.clock(w.ticks)) + rest
    ensures forall f | f in rest :: f.tag !in {34, 43, 52, 122}
  {
    hide WithTransactTime, Values;
    var split := if NeedsOrigClOrdId(req.msgType) then 1 else 0;
    var front, body := req.fields[..split],
                       WithTransactTime(env, req.fields[split..], NeedsTransactTime(req.msgType), w.ticks + 1);
    rest := front + [Field(11, req.clOrdId)] + body;
    TransactTimeTags(env, req.fields[split..], NeedsTransactTime(req.msgType), w.ticks + 1);
    forall f | f in rest
      ensures f.tag !in {34, 43, 52, 122}
    {
      assert f in front || f.tag == 11 || f in body;
      assert f in req.fields ==> f.tag !in MANAGED_TAGS;
    }
  }

  lemma SubmitWireKeeps(j: Journal, w: World, c: OutboundCommit)
    requires Kept(j, w) && c.msgSeqNum == w.actor.nextOut && Carries(c.wire, c) && AgentId(c.requestId)
    requires !PossDup(c.wire)
    requires c.requestId in w.journal.commands && w.journal.commands[c.requestId].fingerprint == c.fingerprint ==>
               w.journal.commands[c.requestId].msgSeqNum != c.msgSeqNum
    requires c.clOrdId != [] ==> Original(c.wire, c.msgSeqNum)
    ensures Kept(j, SubmitWire(w, c).0)
    ensures c.requestId !in w.journal.commands ==>
              SubmitWire(w, c).1 == Ok(CommandRecord(c.requestId, c.fingerprint, c.clOrdId, c.msgSeqNum, Written))
  {
    hide Traced, Carries, AgentId, Deliver, Original, KeyOk, PossDup;
    AgentIdIsNoKey(w.journal, c.requestId);
    TracedDo(j, w, CommitOutbound(c));
    if c.requestId !in w.journal.commands {
      FreshCommitAccepted(w.journal, c);
      DeliverKeeps(j, w, c, c.wire);
    }
  }

  lemma SubmitKeeps(j: Journal, env: Env, w: World, req: ApplicationRequest)
    requires Kept(j, w) && AgentId(req.requestId) && !StaleAtNext(w.journal, req)
    ensures Kept(j, Submit(env, w, req).0)
  {
    hide Traced, SubmitWire, ApplicationFields, AgentId, First, Original, PossDup;
    if w.actor.phase == Established && ApplicationFields(env, w, req).Some?
       && Refusal(env.config.beginString, ApplicationFields(env, w, req).value).None? {
      var fields := ApplicationFields(env, w, req).value;
      ApplicationIsOriginal(env, w, req);
      ApplicationNumber(env, w, req);
      var wire := Message(env.config.beginString, fields);
      var ticked := w.(ticks := w.ticks + ApplicationTicks(req));
      var c := OutboundCommit(req.requestId, req.fingerprint, req.clOrdId, w.actor.nextOut, wire);
      OriginalIsFresh(wire, w.actor.nextOut);
      assert RedactionOf(wire, wire);
      SubmitWireKeeps(j, ticked, c);
    }
  }
}
