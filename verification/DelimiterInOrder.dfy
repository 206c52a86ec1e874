// An order whose account holds a delimiter is accepted, journaled and sent, and no replay gets past it.

module DelimiterInOrder {
  import opened Text
  import opened Codec
  import opened Messages
  import opened Parser
  import opened Store
  import opened StoreTheorems
  import opened Session
  import opened SessionSafety
  import opened SessionInvariant
  import opened ReadBack
  import opened ReplayPlan
  import opened ReplayReceived
  import opened Recovery
  import opened CrashRuns
  import opened Reading
  import opened StaleRecords
  import opened GapsAtLogon

  const AUTOMATED: Bytes := [0x31] // "1"

  /** An order as the planner builds it: Account, HandlInst and the rest. */
  predicate OrderWithAccount(req: ApplicationRequest, account: Bytes, more: seq<Field>) {
    req.msgType == NEW_ORDER && req.fields == [Field(1, account), Field(21, AUTOMATED)] + more
  }

  /** A fresh submission leaves its message in the journal, under the next number. */
  lemma SubmittedRow(j: Journal, env: Env, w: World, req: ApplicationRequest)
    requires Kept(j, w) && w.actor.phase == Established && AgentId(req.requestId)
    requires req.requestId !in w.journal.commands && ApplicationFields(env, w, req).Some?
    requires Refusal(env.config.beginString, ApplicationFields(env, w, req).value).None?
    ensures var (after, reply) := Submit(env, w, req);
            var n := w.actor.nextOut;
            && reply.Ok? && Kept(j, after) && after.journal.nextOut == n + 1 && n in after.journal.outbound
            && after.journal.outbound[n].wire == Message(env.config.beginString, ApplicationFields(env, w, req).value)
            && after.journal.outbound[n].command.clOrdId == req.clOrdId
  {
    hide ApplicationFields, Refusal, Traced, AgentId;
    SubmitKeeps(j, env, w, req);
  }

  /** The stamped fields of an order begin with its account. */
  lemma StampedOrder(env: Env, account: Bytes, more: seq<Field>, ticks: nat)
    ensures var id, automated := Field(1, account), Field(21, AUTOMATED);
            WithTransactTime(env, [id, automated] + more, true, ticks) ==
            [id] + ([automated] + WithTransactTime(env, more, true, ticks))
  {
    var id, automated := Field(1, account), Field(21, AUTOMATED);
    assert ([id, automated] + more)[1..] == [automated] + more && ([automated] + more)[1..] == more;
  }

  /** The stored order, cut at the account. */
  lemma OrderFields(env: Env, w: World, req: ApplicationRequest, account: Bytes, more: seq<Field>)
    requires OrderWithAccount(req, account, more) && ApplicationFields(env, w, req).Some?
    ensures ApplicationFields(env, w, req).value ==
            (Header(env.config, NEW_ORDER, w.actor.nextOut, env.clock(w.ticks)) + [Field(11, req.clOrdId)])
            + [Field(1, account)]
            + ([Field(21, AUTOMATED)] + WithTransactTime(env, more, true, w.ticks + 1))
  {
    hide Header, Values, WithTransactTime;
    var header := Header(env.config, NEW_ORDER, w.actor.nextOut, env.clock(w.ticks));
    var id, first, second := [Field(11, req.clOrdId)], [Field(1, account)], [Field(21, AUTOMATED)];
    assert req.fields[0..] == req.fields && req.fields[..0] == [];
    StampedOrder(env, account, more, w.ticks + 1);
    hide ApplicationFields;
    AssociateOrder(header, id, first, second + WithTransactTime(env, more, true, w.ticks + 1));
  }

  lemma AssociateOrder(header: seq<Field>, id: seq<Field>, first: seq<Field>, rest: seq<Field>)
    ensures header + [] + id + (first + rest) == (header + id) + first + rest
  {
  }

  /** An order is submitted afresh whose account has a delimiter with no '=' after it. */
  ghost predicate CutOrder(env: Env, w: World, req: ApplicationRequest, front: Bytes, back: Bytes, more: seq<Field>) {
    && w.actor.phase == Established && ConfigOk(env.config) && ClearEnv(env)
    && AgentId(req.requestId) && req.requestId !in w.journal.commands && req.clOrdId != [] && SOH !in req.clOrdId
    && OrderWithAccount(req, front + [SOH] + back, more) && SOH !in front && EQUALS !in back
    && ApplicationFields(env, w, req).Some?
    && Encodes(Message(env.config.beginString, ApplicationFields(env, w, req).value))
  }

  /** The order is accepted, journaled and sent, and its journaled bytes do not parse. */
  lemma CutOrderUnreadable(
      j: Journal, env: Env, w: World, req: ApplicationRequest, front: Bytes, back: Bytes, more: seq<Field>)
    requires Kept(j, w) && CutOrder(env, w, req, front, back, more)
    ensures var (after, reply) := Submit(env, w, req);
            var n := w.actor.nextOut;
            && reply.Ok? && Kept(j, after) && after.journal.nextOut == n + 1 && IsReplayable(after.journal.outbound, n)
            && Parse(WireOf(after.journal.outbound[n].wire)) == Err(Frame(Malformed(NotDecimal)))
  {
    hide Kept, Submit, ApplicationFields, WithTransactTime, Header, Parse, WireOf, Refusal, AgentId, ClearEnv, SohFree;
    var n := w.actor.nextOut;
    SubmittedRow(j, env, w, req);
    OrderFields(env, w, req, front + [SOH] + back, more);
    var header, id := Header(env.config, NEW_ORDER, n, env.clock(w.ticks)), [Field(11, req.clOrdId)];
    HeaderSohFree(env, NEW_ORDER, n, w.ticks);
    OneSohFree(Field(11, req.clOrdId));
    SohFreeJoin(header, id);
    DelimiterUnreadable(env.config.beginString, header + id, Field(1, front + [SOH] + back), front, back,
                        Field(21, AUTOMATED), WithTransactTime(env, more, true, w.ticks + 1));
  }

  lemma OneSohFree(f: Field)
    requires SOH !in f.value
    ensures SohFree([f])
  {
  }

  /** Every replay that reaches the order stops there with a fatal error, whatever intact messages precede it. */
  lemma CutOrderStopsReplay(
      j: Journal, env: Env, w: World, req: ApplicationRequest, front: Bytes, back: Bytes, more: seq<Field>, begin: nat)
    requires Kept(j, w) && CutOrder(env, w, req, front, back, more) && 1 <= begin <= w.actor.nextOut <= U64_MAX
    requires IntactRange(Submit(env, w, req).0.journal.outbound, begin, w.actor.nextOut - 1)
    ensures var r := Replay(env, Submit(env, w, req).0, begin, w.actor.nextOut);
            r.error == Some(Unparsable(Frame(Malformed(NotDecimal)))) && Fatal(r.error.value)
  {
    hide Kept, CutOrder, Submit, Replay, Parse, WireOf, IntactRange, IsReplayable;
    CutOrderConfig(env, w, req, front, back, more);
    CutOrderUnreadable(j, env, w, req, front, back, more);
    ReplayStopsAt(j, env, Submit(env, w, req).0, begin, w.actor.nextOut, w.actor.nextOut, Frame(Malformed(NotDecimal)));
  }

  lemma CutOrderConfig(env: Env, w: World, req: ApplicationRequest, front: Bytes, back: Bytes, more: seq<Field>)
    requires CutOrder(env, w, req, front, back, more)
    ensures ConfigOk(env.config) && w.actor.phase == Established
  {
    hide ApplicationFields, Encodes, ClearEnv, AgentId;
  }

  /** An account that the planner passes on: "A", a delimiter, "B". */
  const CUT_ACCOUNT: Bytes := [0x41, SOH, 0x42]

  /** An order for that account is sent, and the peer's next ResendRequest over it ends the session. */
  lemma CutAccountEndsSession(
      j: Journal, env: Env, w: World, req: ApplicationRequest, more: seq<Field>, peer: Env, p: World, begin: nat)
    requires Kept(j, w) && w.actor.gap == map[] && CutOrder(env, w, req, [0x41], [0x42], more)
    requires Mirrored(env.config, peer.config) && TakesRequests(env.config)
    requires p.actor.nextOut == w.actor.nextIn <= U64_MAX
    requires 1 <= begin <= w.actor.nextOut < U64_MAX
    requires IntactRange(Submit(env, w, req).0.journal.outbound, begin, w.actor.nextOut - 1)
    ensures req.fields[0] == Field(1, CUT_ACCOUNT)
    ensures var (after, reply) := Submit(env, w, req);
            var r := Handle(env, after, ResendFrom(peer, p, begin));
            reply.Ok? && r.error == Some(Unparsable(Frame(Malformed(NotDecimal)))) && Fatal(r.error.value)
  {
    hide Kept, CutOrder, Submit, Handle, Parse, WireOf, IntactRange, IsReplayable, Mirrored, TakesRequests, ResendFrom,
         Extends;
    CutOrderAccount(env, w, req, more);
    CutOrderConfig(env, w, req, [0x41], [0x42], more);
    CutOrderUnreadable(j, env, w, req, [0x41], [0x42], more);
    SubmitLeaves(j, env, w, req);
    UnreadableStopsSession(
      j, env, Submit(env, w, req).0, peer, p, begin, w.actor.nextOut, Frame(Malformed(NotDecimal)));
  }

  lemma SubmitLeaves(j: Journal, env: Env, w: World, req: ApplicationRequest)
    requires Kept(j, Submit(env, w, req).0)
    ensures var after := Submit(env, w, req).0;
            && after.actor.gap == w.actor.gap && after.actor.nextIn == w.actor.nextIn
            && after.actor.phase == w.actor.phase && after.actor.nextOut == after.journal.nextOut
  {
    hide Submit, Traced, Extends;
    SubmitTouchesNoBuffer(env, w, req);
  }

  lemma CutOrderRequest(env: Env, w: World, req: ApplicationRequest, front: Bytes, back: Bytes, more: seq<Field>)
    requires CutOrder(env, w, req, front, back, more)
    ensures OrderWithAccount(req, front + [SOH] + back, more)
  {
    hide ApplicationFields, Encodes, ClearEnv, AgentId, OrderWithAccount;
  }

  lemma CutOrderAccount(env: Env, w: World, req: ApplicationRequest, more: seq<Field>)
    requires CutOrder(env, w, req, [0x41], [0x42], more)
    ensures req.fields != [] && req.fields[0] == Field(1, CUT_ACCOUNT)
  {
    hide CutOrder;
    CutOrderRequest(env, w, req, [0x41], [0x42], more);
    CutAccountIs();
  }

  lemma CutAccountIs()
    ensures [0x41 as byte] + [SOH] + [0x42 as byte] == CUT_ACCOUNT
  {
  }

  // ----- a whole life -----

  /** An order for that account, which every established session accepts. */
  ghost predicate CutRequest(req: ApplicationRequest, more: seq<Field>) {
    && OrderWithAccount(req, CUT_ACCOUNT, more) && Acceptable(req) && AgentId(req.requestId)
    && req.clOrdId != [] && SOH !in req.clOrdId
  }

  /** The session once it is established on a fresh database. */
  function Up(env: Env): World { Turn(env, Start(env, EMPTY).w, Received(WireOf(PeerLogon(env.config, 1)))).w }

  /** What such a life is given: the peer's Logon, the order, and the peer's request for everything from it on. */
  function CutInputs(env: Env, req: ApplicationRequest, peer: Env, p: World): seq<Input> {
    [Received(WireOf(PeerLogon(env.config, 1))), Submitted(req), Received(WireOf(ResendFrom(peer, p, 2)))]
  }

  lemma UpIsReady(env: Env, req: ApplicationRequest, more: seq<Field>)
    requires Usable(env) && CutRequest(req, more)
    requires |WireOf(Message(env.config.beginString, ApplicationFields(env, Up(env), req).value))| <= USIZE_MAX
    requires ApplicationFields(env, Up(env), req).Some?
    ensures Kept(EMPTY, Up(env)) && Up(env).actor.gap == map[] && Up(env).actor.nextIn == 2 == Up(env).actor.nextOut
    ensures CutOrder(env, Up(env), req, [0x41], [0x42], more)
  {
    hide Inv, Tidy, Start, Turn, WireOf, PeerLogon, Acceptable, AgentId, GapGood, ApplicationFields, LogonFieldsOk,
         ClearEnv, OpsInOrder, Safe;
    EmptyInOrder();
    SessionUp(EMPTY, env);
    NothingStored(Up(env).journal, req.requestId);
    AcceptableSent(env, Up(env), req);
    CutAccountIs();
  }

  lemma RequestFrame(env: Env, w: World, peer: Env, p: World, begin: nat)
    requires ConfigOk(peer.config) && ClearEnv(peer) && |WireOf(ResendFrom(peer, p, begin))| <= USIZE_MAX
    ensures HandleFrame(env, w, WireOf(ResendFrom(peer, p, begin))) == Handle(env, w, ResendFrom(peer, p, begin))
  {
    var m := ResendFrom(peer, p, begin);
    DigitsHaveNo(Dec(p.actor.nextOut), SOH);
    DigitsHaveNo(Dec(begin), SOH);
    hide Dec;
    assert SohFree(m.fields) && RefusedField(m.fields).None?;
    assert Refusal(m.beginString, m.fields).None?;
    hide SohFree, RefusedField, ResendFrom, Refusal;
    EncodesOk(m);
    hide Encode, HandleFrame, Handle;
    HandleEncoded(env, w, m);
  }

  /** From a fresh database on, through bytes: a session logs on and is answered, an order for that account is
      submitted, and the peer's request for everything from it on ends the session. */
  lemma CutAccountLife(env: Env, req: ApplicationRequest, more: seq<Field>, peer: Env, p: World)
    requires Usable(env) && TakesRequests(env.config) && CutRequest(req, more)
    requires ApplicationFields(env, Up(env), req).Some?
    requires |WireOf(Message(env.config.beginString, ApplicationFields(env, Up(env), req).value))| <= USIZE_MAX
    requires Mirrored(env.config, peer.config) && ClearEnv(peer) && p.actor.nextOut == 2
    requires |WireOf(ResendFrom(peer, p, 2))| <= USIZE_MAX
    ensures var r := Turns(env, Start(env, EMPTY), CutInputs(env, req, peer, p));
            r.error == Some(Unparsable(Frame(Malformed(NotDecimal)))) && Fatal(r.error.value)
  {
    hide Inv, Tidy, Start, Turn, Turns, WireOf, PeerLogon, Acceptable, AgentId, GapGood, ApplicationFields, Good,
         LogonFieldsOk, ClearEnv, ResendFrom, Mirrored, TakesRequests, CutOrder, Kept, Handle, HandleFrame, Parse;
    EmptyInOrder();
    SessionUp(EMPTY, env);
    UpIsReady(env, req, more);
    CutAccountEndsSession(EMPTY, env, Up(env), req, more, peer, p, 2);
    var after := Submit(env, Up(env), req).0;
    hide Submit;
    assert Turn(env, Up(env), Submitted(req)) == Step(after, None) by { SubmitTurn(env, Up(env), req); }
    MirroredConfig(env, peer);
    RequestFrame(env, after, peer, p, 2);
    var inputs := CutInputs(env, req, peer, p);
    ThreeTurns(env, Start(env, EMPTY), inputs[0], inputs[1], inputs[2]);
    ReceivedTurn(env, after, WireOf(ResendFrom(peer, p, 2)));
  }

  lemma MirroredConfig(env: Env, peer: Env)
    requires Usable(env) && Mirrored(env.config, peer.config)
    ensures ConfigOk(peer.config)
  {
    hide ClearEnv, LogonFieldsOk, PeerLogon, WireOf;
  }

  lemma SubmitTurn(env: Env, w: World, req: ApplicationRequest)
    requires Submit(env, w, req).1.Ok?
    ensures Turn(env, w, Submitted(req)) == Step(Submit(env, w, req).0, None)
  {
    hide Submit;
  }

  lemma ReceivedTurn(env: Env, w: World, frame: Bytes)
    ensures Turn(env, w, Received(frame)) == HandleFrame(env, w, frame)
  {
    hide HandleFrame;
  }

  lemma ThreeTurns(env: Env, s: Step, a: Input, b: Input, c: Input)
    requires s.error.None? && Turn(env, s.w, a).error.None? && Turn(env, Turn(env, s.w, a).w, b).error.None?
    ensures Turns(env, s, [a, b, c]) == Turn(env, Turn(env, Turn(env, s.w, a).w, b).w, c)
  {
    hide Turn;
    var next := Turn(env, s.w, a);
    assert [a, b, c][1..] == [b, c];
    TwoTurns(env, next, b, c);
  }
}
