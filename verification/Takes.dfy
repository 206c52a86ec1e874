// The messages a session takes at their turn: they are journaled, answered if they ask for an answer, and
// move `next_in` by one without an error.

module Takes {
  import opened Text
  import opened Codec
  import opened Messages
  import opened Store
  import opened StoreTheorems
  import opened Session
  import opened SessionSafety
  import opened SessionInvariant
  import opened ReadBack
  import opened ReplayPlan

  /** A message that asks for nothing but to be journaled: not Logon, TestRequest, ResendRequest,
      SequenceReset or Logout. */
  ghost predicate Plain(config: Config, m: Message, n: nat) {
    && EnvelopeFault(config, m).None? && NumberAt(m, 34) == Some(n)
    && MsgType(m).Some? && IsUtf8(MsgType(m).value)
    && MsgType(m).value !in {LOGON, TEST_REQUEST, RESEND_REQUEST, SEQUENCE_RESET, LOGOUT}
  }

  /** What a replay of this range sends again can be read back. */
  ghost predicate RowsReplay(rows: map<nat, OutboundRecord>, begin: nat, end: nat) {
    forall n: nat | begin <= n <= end && IsReplayable(rows, n) ::
      |WireOf(rows[n].wire)| <= USIZE_MAX && Replays(rows[n].wire)
  }

  /** The ResendRequest names a range of what has been sent, and all of it can be replayed. */
  ghost predicate Answerable(j: Journal, m: Message) {
    && CheckResend(m, j.nextOut).Ok?
    && RowsReplay(j.outbound, CheckResend(m, j.nextOut).value.0, CheckResend(m, j.nextOut).value.1)
  }

  /** A message that moves `next_in` by one without an error: a plain one, a TestRequest, a Logon with the
      configured heartbeat interval, or a ResendRequest that can be answered. */
  ghost predicate Takeable(config: Config, j: Journal, m: Message, n: nat) {
    && EnvelopeFault(config, m).None? && NumberAt(m, 34) == Some(n)
    && MsgType(m).Some? && IsUtf8(MsgType(m).value)
    && MsgType(m).value !in {SEQUENCE_RESET, LOGOUT}
    && (MsgType(m) == Some(LOGON) ==> NumberAt(m, 108) == Some(config.heartbeatSecs))
    && (MsgType(m) == Some(TEST_REQUEST) ==> First(m.fields, 112).Some?)
    && (MsgType(m) == Some(RESEND_REQUEST) ==> Answerable(j, m))
  }

  lemma PlainTakeable(config: Config, j: Journal, m: Message, n: nat)
    requires Plain(config, m, n)
    ensures Takeable(config, j, m, n)
  {
    hide EnvelopeFault, NumberAt, IsUtf8;
  }

  lemma TakeablePasses(config: Config, j: Journal, m: Message, n: nat)
    requires Takeable(config, j, m, n)
    ensures EnvelopeFault(config, m).None? && NumberAt(m, 34) == Some(n)
    ensures MsgType(m).Some? && MsgType(m).value !in {SEQUENCE_RESET, LOGOUT}
  {
  }

  lemma PlainPasses(config: Config, m: Message, n: nat)
    requires Plain(config, m, n)
    ensures EnvelopeFault(config, m).None? && NumberAt(m, 34) == Some(n)
  {
  }

  // ----- sending keeps messages takeable -----

  /** More may have been sent, but no application message. */
  ghost predicate OutboundGrown(a: Journal, b: Journal) {
    && a.nextOut <= b.nextOut
    && forall n: nat | IsReplayable(b.outbound, n) ::
      IsReplayable(a.outbound, n) && b.outbound[n].wire == a.outbound[n].wire
  }

  lemma GrownTwice(a: Journal, b: Journal, c: Journal)
    requires OutboundGrown(a, b) && OutboundGrown(b, c)
    ensures OutboundGrown(a, c)
  {
  }

  lemma TakeableLater(config: Config, a: Journal, b: Journal, m: Message, n: nat)
    requires OutboundInv(a) && OutboundGrown(a, b) && Takeable(config, a, m, n)
    ensures Takeable(config, b, m, n)
  {
    hide EnvelopeFault, NumberAt, IsUtf8, Replays, WireOf;
  }

  /** The session's own messages are no application messages. */
  lemma AdminGrown(j: Journal, env: Env, w: World, kind: Bytes, msgType: Bytes, extra: seq<Field>, fp: Bytes)
    requires Kept(j, w)
    ensures OutboundGrown(w.journal, SendAdmin(env, w, kind, msgType, extra, fp).w.journal)
  {
    hide Inv, OriginalsStored, Safe, OpsInOrder, Fold, Header, Redacted, Refusal, Key, KeyOk, KeysBehind, AgentsKept;
    PresentKeyIsFresh(w.journal, kind);
  }

  // ----- taking -----

  function TestRequestIn(m: Message): Option<Bytes> {
    if MsgType(m) == Some(TEST_REQUEST) then First(m.fields, 112) else None
  }

  function ResendIn(m: Message, nextOut: nat): Option<(nat, nat)> {
    if MsgType(m) == Some(RESEND_REQUEST) && CheckResend(m, nextOut).Ok? then Some(CheckResend(m, nextOut).value)
    else None
  }

  lemma TakeableJudged(config: Config, j: Journal, actor: Actor, m: Message)
    requires Takeable(config, j, m, actor.nextIn) && j.nextOut == actor.nextOut
    ensures Judge(config, actor, m) ==
            Accept(MsgType(m).value, actor.nextIn + 1, ResendIn(m, actor.nextOut), TestRequestIn(m))
  {
    hide IsUtf8, EnvelopeFault, First, ParseU64, RowsReplay, ReplayRange;
  }

  lemma PlainJudged(config: Config, actor: Actor, m: Message)
    requires Plain(config, m, actor.nextIn)
    ensures MsgType(m).Some? && MsgType(m).value !in {LOGON, LOGOUT}
    ensures Judge(config, actor, m) == Accept(MsgType(m).value, actor.nextIn + 1, None, None)
  {
    hide IsUtf8, EnvelopeFault;
  }

  lemma HeartbeatSent(j: Journal, env: Env, w: World, id: Option<Bytes>)
    requires Kept(j, w) && ConfigOk(env.config)
    ensures var r := SendHeartbeat(env, w, id); r.error.None? && OutboundGrown(w.journal, r.w.journal)
  {
    hide Kept, SendAdmin, Dec, OutboundGrown;
    var extra := match id case Some(t) => [Field(112, t)] case None => [];
    var fingerprint := ADMIN_PREFIX + HEARTBEAT + [COLON] + Dec(w.actor.nextOut);
    SendAdminKeeps(j, env, w, KIND_HEARTBEAT, HEARTBEAT, extra, fingerprint);
    AdminGrown(j, env, w, KIND_HEARTBEAT, HEARTBEAT, extra, fingerprint);
    HeartbeatAccepted(env, w, extra);
  }

  lemma HeartbeatAccepted(env: Env, w: World, extra: seq<Field>)
    requires ConfigOk(env.config) && |extra| <= 1 && forall f | f in extra :: f.tag == 112
    ensures var fields := Header(env.config, HEARTBEAT, w.actor.nextOut, env.clock(w.ticks)) + extra;
            Refusal(env.config.beginString, fields).None?
  {
    hide Dec, RefusedField;
    var header := Header(env.config, HEARTBEAT, w.actor.nextOut, env.clock(w.ticks));
    assert (header + extra)[0] == header[0];
    assert forall f | f in header + extra :: f in header || f in extra;
  }

  /** A Logon establishes a session that waits for one. */
  function PhaseAfter(phase: Phase, m: Message): Phase {
    if MsgType(m) == Some(LOGON) && phase == LogonSent then Established else phase
  }

  /** At its turn such a message is journaled, nothing else of the inbound side changes but `next_in`, and what
      is sent in answer is no application message. */
  lemma TakeableCommitted(j: Journal, env: Env, w: World, m: Message)
    requires Kept(j, w) && ConfigOk(env.config) && Takeable(env.config, w.journal, m, w.actor.nextIn)
    ensures var r := CommitExpected(env, w, m);
            && r.error.None? && Kept(j, r.w) && r.w.actor.nextIn == w.actor.nextIn + 1
            && r.w.actor.phase == PhaseAfter(w.actor.phase, m)
            && w.actor.nextIn in r.w.journal.inbound && r.w.journal.inbound[w.actor.nextIn].wire == m
            && r.w.journal.inbound[w.actor.nextIn].msgSeqNum == w.actor.nextIn
            && r.w.journal.inbound - {w.actor.nextIn} == w.journal.inbound - {w.actor.nextIn}
            && OutboundGrown(w.journal, r.w.journal)
  {
    hide Kept, Judge, EnvelopeFault, IsUtf8, First, ParseU64, Takeable, CommitExpected, React, TestRequestIn, ResendIn,
         OutboundGrown;
    SyncedOut(j, w);
    TakeableJudged(env.config, w.journal, w.actor, m);
    TakeablePasses(env.config, w.journal, m, w.actor.nextIn);
    CommitExpectedKeeps(j, env, w, m);
    var moved := CommittedAhead(j, env, w, m);
    TakeableAnswers(env.config, w.journal, moved.journal, m, w.actor.nextIn);
    TakeableReacts(j, env, moved, m);
    SameGrown(w.journal, moved.journal, CommitExpected(env, w, m).w.journal);
  }

  lemma SyncedOut(j: Journal, w: World)
    requires Kept(j, w)
    ensures w.journal.nextOut == w.actor.nextOut
  {
  }

  lemma SameGrown(a: Journal, b: Journal, c: Journal)
    requires b.nextOut == a.nextOut && b.outbound == a.outbound && OutboundGrown(b, c)
    ensures OutboundGrown(a, c)
  {
  }

  /** What the answer rests on. */
  ghost predicate CanAnswer(j: Journal, m: Message) {
    && (MsgType(m) == Some(TEST_REQUEST) <==> TestRequestIn(m).Some?)
    && (MsgType(m) == Some(RESEND_REQUEST) ==> Answerable(j, m))
  }

  lemma TakeableAnswers(config: Config, a: Journal, b: Journal, m: Message, n: nat)
    requires Takeable(config, a, m, n) && b.nextOut == a.nextOut && b.outbound == a.outbound
    ensures CanAnswer(b, m)
  {
    hide EnvelopeFault, IsUtf8, NumberAt, First, RowsReplay;
  }

  /** The world in which the message is journaled and the session is about to react to it. */
  lemma CommittedAhead(j: Journal, env: Env, w: World, m: Message) returns (moved: World)
    requires Kept(j, w) && NumberAt(m, 34) == Some(w.actor.nextIn) && MsgType(m).Some?
    requires Judge(env.config, w.actor, m) ==
             Accept(MsgType(m).value, w.actor.nextIn + 1, ResendIn(m, w.actor.nextOut), TestRequestIn(m))
    ensures CommitExpected(env, w, m) ==
            React(env, moved, m, MsgType(m).value, ResendIn(m, w.actor.nextOut), TestRequestIn(m))
    ensures Kept(j, moved) && moved.actor.nextIn == w.actor.nextIn + 1 && moved.actor.phase == w.actor.phase
    ensures moved.actor.nextOut == w.actor.nextOut && moved.journal.nextOut == w.journal.nextOut
    ensures moved.journal.outbound == w.journal.outbound
    ensures w.actor.nextIn in moved.journal.inbound && moved.journal.inbound[w.actor.nextIn].wire == m
    ensures moved.journal.inbound[w.actor.nextIn].msgSeqNum == w.actor.nextIn
    ensures moved.journal.inbound - {w.actor.nextIn} == w.journal.inbound - {w.actor.nextIn}
  {
    hide Traced, Judge, React, NumberAt, TestRequestIn, ResendIn;
    var n := w.actor.nextIn;
    var verdict := Accept(MsgType(m).value, n + 1, ResendIn(m, w.actor.nextOut), TestRequestIn(m));
    var entry := InboundEntry(m, n, verdict, w.actor.nextEvent);
    TracedDo(j, w, CommitInbound(entry));
    moved := Do(w, CommitInbound(entry)).(actor := w.actor.(nextIn := n + 1, nextEvent := w.actor.nextEvent + 1));
  }

  lemma TakeableReacts(j: Journal, env: Env, w: World, m: Message)
    requires Kept(j, w) && ConfigOk(env.config) && MsgType(m).Some? && MsgType(m).value != LOGOUT
    requires CanAnswer(w.journal, m)
    ensures var r := React(env, w, m, MsgType(m).value, ResendIn(m, w.actor.nextOut), TestRequestIn(m));
            && r.error.None? && r.w.actor.nextIn == w.actor.nextIn && r.w.journal.inbound == w.journal.inbound
            && r.w.actor.phase == PhaseAfter(w.actor.phase, m)
            && OutboundGrown(w.journal, r.w.journal)
  {
    hide Traced, SendHeartbeat, TestRequestIn, First, RowsReplay, CheckResend, Replay, OutboundGrown;
    SameGrowth(w.journal);
    if MsgType(m) == Some(RESEND_REQUEST) {
      RequestReplays(j, env, w, m);
    } else {
      HeartbeatSent(j, env, w, TestRequestIn(m));
    }
  }

  lemma SameGrowth(j: Journal)
    ensures OutboundGrown(j, j)
  {
  }

  /** The answer to a ResendRequest that can be answered has no error. */
  lemma RequestReplays(j: Journal, env: Env, w: World, m: Message)
    requires Kept(j, w) && ConfigOk(env.config) && Answerable(w.journal, m)
    ensures var (begin, end) := CheckResend(m, w.actor.nextOut).value;
            && 1 <= begin <= end
            && var r := Replay(env, w, begin, end);
               && r.error.None? && r.w.actor == w.actor && r.w.journal.inbound == w.journal.inbound
               && OutboundGrown(w.journal, r.w.journal)
  {
    SyncedOut(j, w);
    var (begin, end) := CheckResend(m, w.actor.nextOut).value;
    RangeOfRequest(m, w.actor.nextOut);
    hide Kept, Replay, CheckResend, Replays, WireOf;
    ReplaySucceedsExactly(j, env, w, begin, end);
  }

  lemma RangeOfRequest(m: Message, nextOut: nat)
    requires CheckResend(m, nextOut).Ok?
    ensures var (begin, end) := CheckResend(m, nextOut).value; 1 <= begin <= end < nextOut
  {
    hide NumberAt;
  }
}
