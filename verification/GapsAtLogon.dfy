// What a gap in the inbound sequence does to the phase.

module GapsAtLogon {
  import opened Text
  import opened Codec
  import opened Messages
  import opened Store
  import opened Session
  import opened SessionSafety
  import opened SessionInvariant
  import opened Arrival
  import opened Takes
  import opened Parser
  import opened Reading
  import opened ReadBack
  import opened ReplayDrives
  import opened StoreTheorems
  import opened CrashRuns
  import opened TwoParty

  /** Two rows are new, the first and the second of two neighbours, and no other row has changed. */
  ghost predicate TwoAdded(
      n: nat, first: Message, second: Message, before: map<nat, InboundRecord>, rows: map<nat, InboundRecord>)
  {
    && n in rows && rows[n].wire == first && n + 1 in rows && rows[n + 1].wire == second
    && forall k: nat | k != n && k != n + 1 :: (k in rows <==> k in before) && (k in rows ==> rows[k] == before[k])
  }

  /** Messages other than Logons that arrive in any but the right order take the session to Established from
      whatever phase it was in, LogonSent or LogoutSent included. They are the only rows the journal gains, so
      it gains no Logon. */
  lemma GapEstablishes(j: Journal, env: Env, w: World, b: Batch, order: seq<nat>)
    requires Good(j, env, w) && ConfigOk(env.config) && w.actor.gap == map[] && w.actor.phase != Recovering
    requires TakeableBatch(env.config, w.journal, b) && b.end - b.first <= GAP_LIMIT + 1
    requires b.first == w.actor.nextIn && b.before == w.journal.inbound
    requires Distinct(order) && Members(order) == b.messages.Keys && !Ascending(order, w.actor.nextIn)
    requires forall n | n in b.messages :: MsgType(b.messages[n]) != Some(LOGON)
    ensures var r := Feed(env, Step(w, None), b.messages, order);
            var rows := r.w.journal.inbound;
            && r.error.None? && r.w.actor.phase == Established && r.w.actor.gap == map[]
            && r.w.actor.nextIn == b.end && RowsUpTo(b, rows, b.end)
            && forall k | k in rows && MsgType(rows[k].wire) == Some(LOGON) ::
                 k in w.journal.inbound && rows[k] == w.journal.inbound[k]
  {
    hide Good, TakeableBatch, Feed, Distinct, Ascending, RowsUpTo;
    OutOfOrderEstablishes(j, env, w, b, order);
    NoNewLogon(env.config, w.journal, b, Feed(env, Step(w, None), b.messages, order).w.journal.inbound);
  }

  lemma NoNewLogon(config: Config, j: Journal, b: Batch, rows: map<nat, InboundRecord>)
    requires TakeableBatch(config, j, b) && RowsUpTo(b, rows, b.end)
    requires forall n | n in b.messages :: MsgType(b.messages[n]) != Some(LOGON)
    ensures forall k | k in rows && MsgType(rows[k].wire) == Some(LOGON) :: k in b.before && rows[k] == b.before[k]
  {
    hide Takeable;
  }

  // ----- a life without a Logon of the peer -----

  /** A heartbeat of the peer. */
  function PeerHeartbeat(config: Config, n: nat): Message {
    Message(config.beginString,
            [Field(35, HEARTBEAT), Field(49, config.targetCompId), Field(56, config.senderCompId), Field(34, Dec(n))])
  }

  /** A message of the peer passes the envelope checks when its tags are the session's own. */
  lemma ReservedPasses(config: Config, m: Message)
    requires LogonFieldsOk(config.logonFields) && m.beginString == config.beginString
    requires First(m.fields, 49) == Some(config.targetCompId) && First(m.fields, 56) == Some(config.senderCompId)
    requires forall f | f in m.fields :: f.tag in RESERVED_LOGON_TAGS
    ensures EnvelopeFault(config, m).None?
  {
    hide First;
    assert forall f | f in config.logonFields :: f.tag !in RESERVED_LOGON_TAGS;
  }

  lemma PeerHeartbeatPlain(config: Config, n: nat)
    requires LogonFieldsOk(config.logonFields) && n <= U64_MAX
    ensures Plain(config, PeerHeartbeat(config, n), n)
  {
    var m := PeerHeartbeat(config, n);
    ParseU64OfDec(n);
    assert IsUtf8(HEARTBEAT[1..]) && IsUtf8(HEARTBEAT);
    hide First, Dec, ParseU64, IsUtf8, LogonFieldsOk, EnvelopeFault;
    FirstAt(m.fields, 1, 49);
    FirstAt(m.fields, 2, 56);
    FirstAt(m.fields, 3, 34);
    ReservedPasses(config, m);
  }

  /** The bytes of a peer's heartbeat are handled as the heartbeat. */
  lemma PeerHeartbeatFrame(env: Env, w: World, n: nat)
    requires ConfigOk(env.config) && ClearEnv(env) && |WireOf(PeerHeartbeat(env.config, n))| <= USIZE_MAX
    ensures var m := PeerHeartbeat(env.config, n); HandleFrame(env, w, WireOf(m)) == Handle(env, w, m)
  {
    var m := PeerHeartbeat(env.config, n);
    DigitsHaveNo(Dec(n), SOH);
    hide Dec;
    assert SohFree(m.fields) && RefusedField(m.fields).None?;
    hide SohFree, RefusedField, PeerHeartbeat;
    EncodesOk(m);
    hide Encode, HandleFrame, Handle;
    HandleEncoded(env, w, m);
  }

  lemma FirstLogon(env: Env)
    requires ConfigOk(env.config) && ClearEnv(env) && LogonFieldsOk(env.config.logonFields)
    ensures var s := Start(env, EMPTY);
            && s.error.None? && Good(EMPTY, env, s.w) && s.w.actor.phase == LogonSent && s.w.actor.gap == map[]
            && s.w.actor.nextIn == 1 && s.w.journal.inbound == map[]
  {
    hide Inv, Tidy, SendAdmin, Traced, LogonFieldsOk, ClearEnv, Own, LogonExtra, Grew, Logouts;
    EmptyInOrder();
    StartKeeps(env, EMPTY);
    SpawnedKept(EMPTY);
    LogonGrew(EMPTY, env, Spawned(EMPTY));
    FirstLogonInbound(env);
  }

  lemma FirstLogonInbound(env: Env)
    requires LogonFieldsOk(env.config.logonFields)
    ensures var r := SendLogon(env, Spawned(EMPTY)).w;
            r.journal.inbound == map[] && r.actor.gap == map[] && r.actor.nextIn == 1
  {
    hide SendAdmin, LogonFieldsOk, AgentsKept;
  }

  /** On a fresh database: the session logs on, the peer's second heartbeat arrives before its first, and the
      session is Established without any Logon of the peer; the two heartbeats are all that is journaled. */
  lemma EstablishedByHeartbeats(env: Env)
    requires ConfigOk(env.config) && ClearEnv(env) && LogonFieldsOk(env.config.logonFields)
    requires |WireOf(PeerHeartbeat(env.config, 1))| <= USIZE_MAX && |WireOf(PeerHeartbeat(env.config, 2))| <= USIZE_MAX
    ensures var first, second := PeerHeartbeat(env.config, 1), PeerHeartbeat(env.config, 2);
            var r := Turns(env, Start(env, EMPTY), [Received(WireOf(second)), Received(WireOf(first))]);
            && Start(env, EMPTY).w.actor.phase == LogonSent
            && r.error.None? && r.w.actor.phase == Established
            && TwoAdded(1, first, second, map[], r.w.journal.inbound)
            && MsgType(first) != Some(LOGON) && MsgType(second) != Some(LOGON)
  {
    hide Start, Handle, HandleFrame, WireOf, PeerHeartbeat, Good, TwoAdded, ClearEnv, LogonFieldsOk, AgentsKept, Feed,
         TakeableBatch, RowsUpTo;
    var first, second := PeerHeartbeat(env.config, 1), PeerHeartbeat(env.config, 2);
    FirstLogon(env);
    var s := Start(env, EMPTY);
    var b := Batch(1, 3, map[1 := first, 2 := second], map[]);
    HeartbeatBatch(env.config, s.w.journal, b);
    assert [2, 1][0] == 2;
    assert Members([2, 1]) == {1, 2} == b.messages.Keys;
    GapEstablishes(EMPTY, env, s.w, b, [2, 1]);
    TwoFed(env, s.w, b.messages);
    TwoRows(b, first, second, Feed(env, Step(s.w, None), b.messages, [2, 1]).w.journal.inbound);
    PeerHeartbeatFrame(env, s.w, 2);
    var ahead := Handle(env, s.w, second);
    PeerHeartbeatFrame(env, ahead.w, 1);
    TwoTurns(env, s, Received(WireOf(second)), Received(WireOf(first)));
  }

  lemma HeartbeatBatch(config: Config, j: Journal, b: Batch)
    requires LogonFieldsOk(config.logonFields) && b.first == 1 && b.end == 3
    requires b.messages == map[1 := PeerHeartbeat(config, 1), 2 := PeerHeartbeat(config, 2)]
    ensures TakeableBatch(config, j, b)
    ensures forall n | n in b.messages :: MsgType(b.messages[n]) == Some(HEARTBEAT)
  {
    hide *;
    assert b.messages.Keys == {1, 2};
    forall n | n in b.messages
      ensures Takeable(config, j, b.messages[n], n) && MsgType(b.messages[n]) == Some(HEARTBEAT)
    {
      assert n <= U64_MAX by { SmallNumber(n); }
      PeerHeartbeatPlain(config, n);
      HeartbeatType(config, n);
      PlainTakeable(config, j, b.messages[n], n);
    }
    BatchOfTwo(config, j, b);
  }

  lemma SmallNumber(n: nat)
    requires n <= 2
    ensures n <= U64_MAX
  {
  }

  lemma BatchOfTwo(config: Config, j: Journal, b: Batch)
    requires b.first == 1 && b.end == 3 && b.messages.Keys == {1, 2}
    requires forall n | n in b.messages :: Takeable(config, j, b.messages[n], n)
    ensures TakeableBatch(config, j, b)
  {
    hide Takeable;
  }

  lemma HeartbeatType(config: Config, n: nat)
    ensures MsgType(PeerHeartbeat(config, n)) == Some(HEARTBEAT)
  {
    hide Dec;
  }

  lemma TwoFed(env: Env, w: World, messages: map<nat, Message>)
    requires 1 in messages && 2 in messages && Feed(env, Step(w, None), messages, [2, 1]).error.None?
    ensures var ahead := Handle(env, w, messages[2]);
            && ahead.error.None?
            && Feed(env, Step(w, None), messages, [2, 1]) == Handle(env, ahead.w, messages[1])
  {
    hide Handle;
    var ahead := Handle(env, w, messages[2]);
    assert [2, 1][1..] == [1] && [1][1..] == [];
    assert Feed(env, Step(w, None), messages, [2, 1]) == Feed(env, ahead, messages, [1]);
    if ahead.error.None? {
      var next := Handle(env, ahead.w, messages[1]);
      assert Feed(env, ahead, messages, [1]) == Feed(env, next, messages, []);
    }
  }

  lemma TwoRows(b: Batch, first: Message, second: Message, rows: map<nat, InboundRecord>)
    requires b == Batch(1, 3, map[1 := first, 2 := second], map[]) && RowsUpTo(b, rows, 3)
    ensures TwoAdded(1, first, second, map[], rows)
  {
    assert 1 in b.messages && 2 in b.messages;
  }

  lemma TwoTurns(env: Env, s: Step, a: Input, b: Input)
    requires s.error.None? && Turn(env, s.w, a).error.None?
    ensures Turns(env, s, [a, b]) == Turn(env, Turn(env, s.w, a).w, b)
  {
    hide Turn;
    assert [a, b][1..] == [b] && [b][1..] == [];
    var next := Turn(env, s.w, a);
    assert Turns(env, next, [b]) == Turns(env, Turn(env, next.w, b), []);
  }
}
