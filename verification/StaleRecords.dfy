// Two lives that lead to the one submission that is not safe.

module StaleRecords {
  import opened Text
  import opened Codec
  import opened Messages
  import opened Parser
  import opened Store
  import opened StoreTheorems
  import opened Session
  import opened SessionSafety
  import opened SessionInvariant
  import opened CrashRuns
  import opened Reading
  import opened ReadBack
  import opened ReplayDrives
  import opened Takes
  import opened TwoParty
  import opened GapsAtLogon

  /** The peer's answer to a logon. */
  function PeerLogon(config: Config, n: nat): Message {
    Message(config.beginString,
            [Field(35, LOGON), Field(49, config.targetCompId), Field(56, config.senderCompId), Field(34, Dec(n)),
             Field(108, Dec(config.heartbeatSecs))])
  }

  /** A configuration with which a session can log on, and whose peer's answer fits the memory. */
  ghost predicate Usable(env: Env) {
    && ConfigOk(env.config) && ClearEnv(env) && LogonFieldsOk(env.config.logonFields)
    && env.config.heartbeatSecs <= U64_MAX && |WireOf(PeerLogon(env.config, 1))| <= USIZE_MAX
  }

  /** A request that every established session accepts. */
  predicate Acceptable(req: ApplicationRequest) {
    && req.msgType != [] && EQUALS !in req.msgType && SOH !in req.msgType
    && (forall f | f in req.fields :: f.tag !in MANAGED_TAGS && f.tag != 0)
    && (NeedsOrigClOrdId(req.msgType) ==> req.fields != [] && req.fields[0].tag == 41)
    && (NeedsTransactTime(req.msgType) ==>
          Values(req.fields[if NeedsOrigClOrdId(req.msgType) then 1 else 0..], 54) != [])
  }

  lemma AcceptableSent(env: Env, w: World, req: ApplicationRequest)
    requires ConfigOk(env.config) && Acceptable(req)
    ensures ApplicationFields(env, w, req).Some?
    ensures Refusal(env.config.beginString, ApplicationFields(env, w, req).value).None?
  {
    hide Values, WithTransactTime, RefusedField;
    var split := if NeedsOrigClOrdId(req.msgType) then 1 else 0;
    TransactTimeTags(env, req.fields[split..], NeedsTransactTime(req.msgType), w.ticks + 1);
    var fields := ApplicationFields(env, w, req).value;
    forall f | f in fields
      ensures f.tag != 0 && !(8 <= f.tag <= 10)
    {
      assert f in req.fields ==> f.tag !in MANAGED_TAGS && f.tag != 0;
    }
  }

  // ----- logging on -----

  /** The commands of agents are those of `a`, but for their phase. */
  ghost predicate SameCommands(a: Journal, b: Journal) {
    forall id | AgentId(id) ::
      && (id in a.commands <==> id in b.commands)
      && (id in a.commands ==> b.commands[id].(phase := a.commands[id].phase) == a.commands[id])
  }

  /** A session that starts at 1, or resets, has sent its logon as number 1. */
  lemma LoggedOn(j: Journal, env: Env)
    requires Inv(j) && Tidy(j) && Usable(env)
    requires env.config.resetOnLogon || (j.nextOut == 1 && j.nextIn == 1)
    ensures var s := Start(env, j);
            && s.error.None? && Good(j, env, s.w) && s.w.actor.phase == LogonSent && s.w.actor.gap == map[]
            && s.w.actor.nextIn == 1 && s.w.actor.nextOut == 2 && SameCommands(j, s.w.journal)
  {
    hide Inv, Tidy, SendAdmin, Traced, LogonFieldsOk, ClearEnv, Own, LogonExtra, SentBy, InitQueue, Logouts, PeerLogon,
         WireOf, AgentId, AgentsKept, SendLogon, GapGood;
    StartKeeps(env, j);
    SpawnedKept(j);
    LogonGrew(j, env, Spawned(j));
    LogonCommands(env, Spawned(j));
  }

  lemma LogonCommands(env: Env, w: World)
    requires LogonFieldsOk(env.config.logonFields)
    ensures SameCommands(w.journal, SendLogon(env, w).w.journal)
  {
    hide SendAdmin, LogonFieldsOk, AgentId;
  }

  lemma PeerLogonTakeable(config: Config, j: Journal)
    requires LogonFieldsOk(config.logonFields) && config.heartbeatSecs <= U64_MAX
    ensures Takeable(config, j, PeerLogon(config, 1), 1) && MsgType(PeerLogon(config, 1)) == Some(LOGON)
  {
    hide First, Dec, ParseU64, IsUtf8, LogonFieldsOk, EnvelopeFault;
    ParseU64OfDec(1);
    ParseU64OfDec(config.heartbeatSecs);
    LogonIsText();
    PeerLogonFirsts(config);
    ReservedPasses(config, PeerLogon(config, 1));
  }

  lemma LogonIsText()
    ensures IsUtf8(LOGON)
  {
    assert LOGON[1..] == [];
  }

  lemma PeerLogonFirsts(config: Config)
    ensures var fields := PeerLogon(config, 1).fields;
            && First(fields, 49) == Some(config.targetCompId) && First(fields, 56) == Some(config.senderCompId)
            && First(fields, 34) == Some(Dec(1)) && First(fields, 108) == Some(Dec(config.heartbeatSecs))
  {
    hide First, Dec;
    var fields := PeerLogon(config, 1).fields;
    FirstAt(fields, 1, 49);
    FirstAt(fields, 2, 56);
    FirstAt(fields, 3, 34);
    FirstAt(fields, 4, 108);
  }

  lemma PeerLogonFrame(env: Env, w: World)
    requires Usable(env)
    ensures HandleFrame(env, w, WireOf(PeerLogon(env.config, 1))) == Handle(env, w, PeerLogon(env.config, 1))
  {
    var m := PeerLogon(env.config, 1);
    DigitsHaveNo(Dec(1), SOH);
    DigitsHaveNo(Dec(env.config.heartbeatSecs), SOH);
    hide Dec;
    assert SohFree(m.fields) && RefusedField(m.fields).None?;
    hide SohFree, RefusedField, PeerLogon;
    EncodesOk(m);
    hide Encode, HandleFrame, Handle;
    HandleEncoded(env, w, m);
  }

  /** The peer's logon at its turn establishes the session and changes nothing on the outbound side. */
  lemma LogonEstablishes(j: Journal, env: Env, w: World, m: Message)
    requires Good(j, env, w) && w.actor.phase == LogonSent && w.actor.gap == map[]
    requires Takeable(env.config, w.journal, m, w.actor.nextIn) && MsgType(m) == Some(LOGON)
    ensures var r := Handle(env, w, m);
            && r.error.None? && Good(j, env, r.w) && r.w.actor.phase == Established
            && r.w.actor.nextIn == w.actor.nextIn + 1 && r.w.actor.gap == map[]
            && r.w.actor.nextOut == w.actor.nextOut && SameCommands(w.journal, r.w.journal)
  {
    hide Traced, Handle, Takeable, EnvelopeFault, NumberAt, Judge, GapGood, CommitExpected, AgentId;
    SyncedOut(j, w);
    TakeablePasses(env.config, w.journal, m, w.actor.nextIn);
    TakeableJudged(env.config, w.journal, w.actor, m);
    HandleAtTurn(env, w, m);
    HandledGood(j, env, w, m);
    LogonCommitted(env, w, m);
    DrainNothing(env, CommitExpected(env, w, m).w);
  }

  lemma LogonCommitted(env: Env, w: World, m: Message)
    requires Synced(w) && w.actor.phase == LogonSent && NumberAt(m, 34) == Some(w.actor.nextIn)
    requires MsgType(m) == Some(LOGON)
    requires Judge(env.config, w.actor, m) ==
             Accept(LOGON, w.actor.nextIn + 1, ResendIn(m, w.actor.nextOut), TestRequestIn(m))
    ensures var r := CommitExpected(env, w, m);
            && r.error.None? && r.w.actor.phase == Established && r.w.actor.gap == w.actor.gap
            && r.w.actor.nextIn == w.actor.nextIn + 1
            && r.w.actor.nextOut == w.actor.nextOut && SameCommands(w.journal, r.w.journal)
  {
    hide Judge, NumberAt, AgentId;
  }

  /** Logon and answer: the session is established with number 2 next. */
  lemma SessionUp(j: Journal, env: Env)
    requires Inv(j) && Tidy(j) && Usable(env)
    requires env.config.resetOnLogon || (j.nextOut == 1 && j.nextIn == 1)
    ensures var s := Start(env, j);
            var r := Turn(env, s.w, Received(WireOf(PeerLogon(env.config, 1))));
            && s.error.None? && r.error.None? && Good(j, env, r.w) && r.w.actor.phase == Established
            && r.w.actor.nextOut == 2 && r.w.actor.nextIn == 2 && r.w.actor.gap == map[]
            && SameCommands(j, r.w.journal)
  {
    hide Inv, Tidy, Start, Good, Handle, HandleFrame, PeerLogon, WireOf, Takeable, AgentId, ClearEnv, LogonFieldsOk,
         AgentsKept;
    var m := PeerLogon(env.config, 1);
    LoggedOn(j, env);
    var w := Start(env, j).w;
    PeerLogonTakeable(env.config, w.journal);
    PeerLogonFrame(env, w);
    LogonEstablishes(j, env, w, m);
  }

  // ----- the two lives -----

  /** In an established session a request that is new is stored under the next number. */
  lemma SubmissionStored(j: Journal, env: Env, w: World, req: ApplicationRequest)
    requires Good(j, env, w) && w.actor.phase == Established && ConfigOk(env.config) && Acceptable(req)
    requires AgentId(req.requestId) && req.requestId !in w.journal.commands
    ensures var r := Turn(env, w, Submitted(req));
            && r.error.None? && Kept(j, r.w) && req.requestId in r.w.journal.commands
            && r.w.journal.commands[req.requestId].fingerprint == req.fingerprint
            && r.w.journal.commands[req.requestId].msgSeqNum == w.actor.nextOut
  {
    hide ApplicationFields, Refusal, Traced, AgentId, Acceptable, GapGood, AgentsKept;
    AcceptableSent(env, w, req);
    SubmitKeeps(j, env, w, req);
  }

  /** What the first life is given, and what the second. */
  function FirstInputs(env: Env, req: ApplicationRequest): seq<Input> {
    [Received(WireOf(PeerLogon(env.config, 1))), Submitted(req)]
  }

  function SecondInputs(env: Env): seq<Input> { [Received(WireOf(PeerLogon(env.config, 1)))] }

  /** On a fresh database a session logs on as 1, is answered, sends the request as 2 and stops. A second one
      resets, logs on as 1 and is answered: it is established, all is in order, and the stored request lies at
      the number that comes next. Submitting it again straight to the actor writes what is not journaled. */
  lemma StaleRecordReachable(first: Env, second: Env, req: ApplicationRequest)
    requires Usable(first) && Usable(second) && second.config.resetOnLogon
    requires Acceptable(req) && AgentId(req.requestId)
    ensures var one := Turns(first, Start(first, EMPTY), FirstInputs(first, req));
            var j := one.w.journal;
            var two := Turns(second, Start(second, j), SecondInputs(second));
            && one.error.None? && Kept(EMPTY, one.w)
            && two.error.None? && Kept(j, two.w) && two.w.actor.phase == Established && StaleAtNext(two.w.journal, req)
            && !Safe(j, Submit(second, two.w, req).0.trace)
  {
    hide Inv, Tidy, Start, Turn, WireOf, PeerLogon, Usable, Acceptable, AgentId, Safe, Submit, GapGood, OpsInOrder;
    EmptyInOrder();
    UsableConfig(first);
    UsableConfig(second);
    SessionUp(EMPTY, first);
    var up := Turn(first, Start(first, EMPTY).w, FirstInputs(first, req)[0]);
    NothingStored(up.w.journal, req.requestId);
    SubmissionStored(EMPTY, first, up.w, req);
    TwoTurns(first, Start(first, EMPTY), FirstInputs(first, req)[0], Submitted(req));
    var j := Turns(first, Start(first, EMPTY), FirstInputs(first, req)).w.journal;
    SessionUp(j, second);
    OneTurn(second, Start(second, j), SecondInputs(second)[0]);
    var w := Turns(second, Start(second, j), SecondInputs(second)).w;
    StillStored(j, w.journal, req.requestId);
    AcceptableSent(second, w, req);
    SubmissionSafety(j, second, w, req);
  }

  lemma UsableConfig(env: Env)
    requires Usable(env)
    ensures ConfigOk(env.config)
  {
  }

  lemma NothingStored(j: Journal, id: Bytes)
    requires SameCommands(EMPTY, j) && AgentId(id)
    ensures id !in j.commands
  {
    hide AgentId;
  }

  lemma StillStored(a: Journal, b: Journal, id: Bytes)
    requires SameCommands(a, b) && AgentId(id) && id in a.commands
    ensures id in b.commands && b.commands[id].fingerprint == a.commands[id].fingerprint
    ensures b.commands[id].msgSeqNum == a.commands[id].msgSeqNum
  {
    hide AgentId;
  }

  lemma OneTurn(env: Env, s: Step, a: Input)
    requires s.error.None?
    ensures Turns(env, s, [a]) == Turn(env, s.w, a)
  {
    hide Turn;
    var next := Turn(env, s.w, a);
    assert [a][1..] == [];
    assert Turns(env, next, []) == next;
  }
}
