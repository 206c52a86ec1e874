// When a session is Established: after a journaled Logon, or after it has asked for a resend.

module Establishment {
  import opened Text
  import opened Codec
  import opened Messages
  import opened Parser
  import opened Store
  import opened StoreTheorems
  import opened Session
  import opened SessionSafety
  import opened SessionInvariant
  import opened CrashRuns

  /** The journal took the operation at `i`. */
  ghost predicate Took(j: Journal, t: seq<Effect>, i: nat)
    requires i < |t| && t[i].Did?
  {
    After(Fold(j, t[..i]), t[i].op).1.Ok?
  }

  predicate IsLogonCommit(e: Effect) { e.Did? && e.op.CommitInbound? && e.op.inbound.msgType == LOGON }

  /** An inbound Logon has been journaled. */
  ghost predicate LogonJournaled(j: Journal, t: seq<Effect>) {
    exists i :: 0 <= i < |t| && IsLogonCommit(t[i]) && Took(j, t, i)
  }

  /** The commit of a ResendRequest of the session's own, under the key of the moment. */
  predicate IsResendCommit(now: Journal, e: Effect) {
    && e.Did? && e.op.CommitOutbound? && MsgType(e.op.outbound.wire) == Some(RESEND_REQUEST)
    && e.op.outbound.requestId == Key(KIND_RESEND, now.nextOut, now.nextEvent)
  }

  /** What is committed at `i` is journaled and then sent. */
  ghost predicate ResendSentAt(j: Journal, t: seq<Effect>, i: nat)
    requires i + 1 < |t|
  {
    IsResendCommit(Fold(j, t[..i]), t[i]) && Took(j, t, i) && t[i + 1] == Write(t[i].op.outbound.wire)
  }

  /** A ResendRequest of the session's own has been journaled and sent. */
  ghost predicate ResendSent(j: Journal, t: seq<Effect>) { exists i :: 0 <= i && i + 1 < |t| && ResendSentAt(j, t, i) }

  /** Established or on the way back to it, for one of the two reasons; `strict` leaves only the first. */
  ghost predicate Founded(j: Journal, w: World, strict: bool) {
    w.actor.phase in {Established, Recovering} ==>
      LogonJournaled(j, w.trace) || (!strict && ResendSent(j, w.trace))
  }

  lemma JournaledGrows(j: Journal, t: seq<Effect>, later: seq<Effect>)
    requires t <= later
    ensures LogonJournaled(j, t) ==> LogonJournaled(j, later)
    ensures ResendSent(j, t) ==> ResendSent(j, later)
  {
    hide Fold, After, IsResendCommit;
    forall i | 0 <= i < |t| && t[i].Did?
      ensures later[i] == t[i] && later[..i] == t[..i] && Took(j, later, i) == Took(j, t, i)
    {
      assert later[..i] == t[..i];
    }
    if i :| 0 <= i && i + 1 < |t| && ResendSentAt(j, t, i) {
      assert later[i + 1] == t[i + 1] && later[..i] == t[..i];
      assert ResendSentAt(j, later, i);
    }
  }

  /** The effect that follows a trace. */
  lemma LogonNext(j: Journal, t: seq<Effect>, op: StoreOp, later: seq<Effect>)
    requires t + [Did(op)] <= later && After(Fold(j, t), op).1.Ok? && IsLogonCommit(Did(op))
    ensures LogonJournaled(j, later)
  {
    hide IsLogonCommit, Fold, After;
    assert later[|t|] == Did(op) && later[..|t|] == t;
    assert Took(j, later, |t|);
  }

  lemma ResendNext(j: Journal, t: seq<Effect>, c: OutboundCommit, later: seq<Effect>)
    requires t + [Did(CommitOutbound(c)), Write(c.wire)] <= later
    requires After(Fold(j, t), CommitOutbound(c)).1.Ok? && IsResendCommit(Fold(j, t), Did(CommitOutbound(c)))
    ensures ResendSent(j, later)
  {
    hide IsResendCommit, Fold, After;
    assert later[|t|] == Did(CommitOutbound(c)) && later[|t| + 1] == Write(c.wire) && later[..|t|] == t;
    assert ResendSentAt(j, later, |t|);
  }

  lemma FoundedGrows(j: Journal, a: World, b: World, strict: bool)
    requires Founded(j, a, strict) && a.trace <= b.trace
    requires b.actor.phase in {Established, Recovering} ==> a.actor.phase in {Established, Recovering}
    ensures Founded(j, b, strict)
  {
    hide LogonJournaled, ResendSent;
    JournaledGrows(j, a.trace, b.trace);
  }

  // ----- what each operation does to the phase -----

  lemma LogoutPhase(env: Env, w: World, text: Option<Bytes>)
    ensures SendLogout(env, w, text).w.actor.phase in {w.actor.phase, LogoutSent}
  {
    hide SendAdmin;
  }

  lemma ReactPhase(env: Env, w: World, m: Message, t: Bytes, resend: Option<(nat, nat)>, id: Option<Bytes>)
    ensures var after := React(env, w, m, t, resend, id).w.actor.phase;
            after in {w.actor.phase, LogoutSent, Disconnected} || (t == LOGON && after == Established)
  {
    hide SendLogout, SendHeartbeat, Replay;
    LogoutPhase(env, w, None);
  }

  lemma CommitFounded(j: Journal, env: Env, w: World, m: Message, strict: bool)
    requires Kept(j, w) && NumberAt(m, 34) == Some(w.actor.nextIn) && Founded(j, w, strict)
    ensures Founded(j, CommitExpected(env, w, m).w, strict)
  {
    hide React, NumberAt, AgentsKept, LogonJournaled, ResendSent, Judge;
    FoldIsJournal(j, w);
    match Judge(env.config, w.actor, m)
    case Reject(fault) =>
    case Accept(t, nextInAfter, resend, id) =>
      var n := w.actor.nextIn;
      JudgedAdvances(env.config, w.actor, m, n);
      hide Kept;
      var entry := InboundEntry(m, n, Accept(t, nextInAfter, resend, id), w.actor.nextEvent);
      var moved := Do(w, CommitInbound(entry)).(
        actor := w.actor.(nextIn := nextInAfter, nextEvent := w.actor.nextEvent + 1));
      ReactPhase(env, moved, m, t, resend, id);
      ReactGrows(env, moved, m, t, resend, id);
      var r := React(env, moved, m, t, resend, id).w;
      if t == LOGON {
        LogonNext(j, w.trace, CommitInbound(entry), r.trace);
      } else {
        FoundedGrows(j, w, r, strict);
      }
  }

  lemma ReactGrows(env: Env, w: World, m: Message, t: Bytes, resend: Option<(nat, nat)>, id: Option<Bytes>)
    ensures w.trace <= React(env, w, m, t, resend, id).w.trace
  {
    hide React, AgentId;
  }

  lemma FoldIsJournal(j: Journal, w: World)
    requires Kept(j, w)
    ensures Fold(j, w.trace) == w.journal && Synced(w)
  {
    hide Safe, OpsInOrder, Inv, Tidy, Fold;
  }

  lemma {:induction false} DrainFounded(j: Journal, env: Env, w: World, strict: bool)
    requires Kept(j, w) && GapGood(env.config, w.actor.gap) && Founded(j, w, strict)
    ensures Founded(j, Drain(env, w).w, strict)
    decreases |w.actor.gap|
  {
    hide Traced, CommitExpected, EnvelopeFault, Taken, GapGood, NumberAt, LogonJournaled, ResendSent, AgentsKept;
    if w.actor.nextIn in w.actor.gap {
      TakenGood(env, w);
      var m := w.actor.gap[w.actor.nextIn];
      CommitExpectedKeeps(j, env, Taken(w), m);
      CommitFounded(j, env, Taken(w), m, strict);
      var r := CommitExpected(env, Taken(w), m);
      if r.error.None? {
        DrainFounded(j, env, r.w, strict);
      }
    }
  }

  lemma AdvanceFounded(j: Journal, env: Env, w: World, m: Message, strict: bool)
    requires Kept(j, w) && GapGood(env.config, w.actor.gap) && NumberAt(m, 34) == Some(w.actor.nextIn)
    requires Founded(j, w, strict)
    ensures Founded(j, Advance(env, w, m).w, strict)
  {
    hide Traced, CommitExpected, Drain, GapGood, NumberAt, LogonJournaled, ResendSent, AgentsKept;
    CommitExpectedKeeps(j, env, w, m);
    CommitFounded(j, env, w, m, strict);
    var r := CommitExpected(env, w, m);
    if r.error.None? {
      DrainFounded(j, env, r.w, strict);
    }
  }

  // ----- asking for a resend -----

  /** A session message that is sent has been taken by the journal. */
  lemma SentIsJournaled(j: Journal, w: World, c: OutboundCommit)
    requires Fold(j, w.trace) == w.journal && Send(w, c, c.wire).error.None?
    requires IsResendCommit(w.journal, Did(CommitOutbound(c)))
    ensures ResendSent(j, Send(w, c, c.wire).w.trace)
  {
    hide Fold, AgentsKept, ResendSent, IsResendCommit;
    ResendNext(j, w.trace, c, Send(w, c, c.wire).w.trace);
  }

  lemma RequestJournaled(j: Journal, env: Env, w: World, begin: nat)
    requires Fold(j, w.trace) == w.journal && Synced(w) && SendResendRequest(env, w, begin).error.None?
    ensures ResendSent(j, SendResendRequest(env, w, begin).w.trace)
  {
    hide Fold, Send, AgentsKept, ResendSent, Dec, Refusal, Key;
    var extra := [Field(7, Dec(begin)), Field(16, ALL_FOLLOWING)];
    var fingerprint := ADMIN_PREFIX + RESEND_REQUEST + [COLON] + Dec(w.actor.nextOut) + [COLON] + Dec(begin);
    var wire := Message(env.config.beginString,
                        Header(env.config, RESEND_REQUEST, w.actor.nextOut, env.clock(w.ticks)) + extra);
    var key := Key(KIND_RESEND, w.actor.nextOut, w.actor.nextEvent);
    var c := OutboundCommit(key, fingerprint, [], w.actor.nextOut, Redacted(env.config, wire));
    assert MsgType(wire) == Some(RESEND_REQUEST) && Redacted(env.config, wire) == wire;
    SentIsJournaled(j, w.(ticks := w.ticks + 1), c);
  }

  lemma BufferFounded(j: Journal, env: Env, w: World, m: Message, n: nat)
    requires Kept(j, w) && Founded(j, w, false)
    ensures Founded(j, Buffer(env, w, m, n).w, false)
  {
    hide Kept, SendResendRequest, LogonJournaled, ResendSent, Fold, AgentsKept;
    FoldIsJournal(j, w);
    if |w.actor.gap| < GAP_LIMIT && w.actor.phase != Recovering {
      var gap := if n in w.actor.gap then w.actor.gap else w.actor.gap[n := m];
      var buffered := w.(actor := w.actor.(gap := gap));
      var r := SendResendRequest(env, buffered, w.actor.nextIn);
      ResendGrows(env, buffered, w.actor.nextIn);
      if r.error.None? {
        RequestJournaled(j, env, buffered, w.actor.nextIn);
      } else {
        FoundedGrows(j, w, r.w, false);
      }
    }
  }

  lemma ResendGrows(env: Env, w: World, begin: nat)
    ensures w.trace <= SendResendRequest(env, w, begin).w.trace
    ensures SendResendRequest(env, w, begin).w.actor.phase == w.actor.phase
  {
    hide SendAdmin, AgentId;
  }

  // ----- turns -----

  /** The message is ahead of its turn. */
  predicate Ahead(config: Config, w: World, m: Message) {
    EnvelopeFault(config, m).None? && NumberAt(m, 34).Some? && NumberAt(m, 34).value > w.actor.nextIn
  }

  predicate AheadIn(config: Config, w: World, input: Input) {
    && input.Received? && Parse(input.frame).Ok?
    && var parsed := Parse(input.frame).value;
       Ahead(config, w, Message(parsed.beginString, parsed.fields))
  }

  lemma HandleFounded(j: Journal, env: Env, w: World, m: Message, strict: bool)
    requires Good(j, env, w) && Founded(j, w, strict) && (strict ==> !Ahead(env.config, w, m))
    ensures Founded(j, Handle(env, w, m).w, strict)
  {
    hide Traced, EnvelopeFault, GapGood, Buffer, Advance, PossDupFault, Resync, PossDup, NumberAt, LogonJournaled,
         ResendSent, AgentsKept;
    if EnvelopeFault(env.config, m).None? && NumberAt(m, 34).Some? {
      var n := NumberAt(m, 34).value;
      if n > w.actor.nextIn {
        BufferFounded(j, env, w, m, n);
      } else if n == w.actor.nextIn {
        AdvanceFounded(j, env, w, m, strict);
      } else {
        ResyncKeeps(j, w, n);
        ResyncGrows(w, n);
        var synced := Resync(w, n);
        FoundedGrows(j, w, synced.w, strict);
        if synced.error.None? && w.actor.phase == LogonSent {
          AdvanceFounded(j, env, synced.w, m, strict);
        }
      }
    }
  }

  lemma ResyncGrows(w: World, n: nat)
    ensures w.trace <= Resync(w, n).w.trace
  {
  }

  lemma TickPhase(env: Env, w: World, expired: bool, idle: bool)
    ensures Tick(env, w, expired, idle).w.actor.phase in {w.actor.phase, LogoutSent}
  {
    hide SendAdmin, AgentsKept;
  }

  lemma SubmitPhase(env: Env, w: World, req: ApplicationRequest)
    ensures Submit(env, w, req).0.actor.phase == w.actor.phase
  {
    hide ApplicationFields, Refusal, AgentsKept;
  }

  lemma TurnFounded(j: Journal, env: Env, w: World, input: Input, strict: bool)
    requires Good(j, env, w) && Founded(j, w, strict) && (strict ==> !AheadIn(env.config, w, input))
    ensures Founded(j, Turn(env, w, input).w, strict)
  {
    hide Good, Handle, Submit, SendLogout, Tick, Parse, LogonJournaled, ResendSent, AgentsKept, Ahead, Fatal;
    var r := Turn(env, w, input);
    match input
    case Received(frame) =>
      if Parse(frame).Ok? {
        var parsed := Parse(frame).value;
        HandleFounded(j, env, w, Message(parsed.beginString, parsed.fields), strict);
      }
    case Submitted(request) =>
      SubmitPhase(env, w, request);
      FoundedGrows(j, w, r.w, strict);
    case LogoutAsked(text) =>
      LogoutPhase(env, w, text);
      FoundedGrows(j, w, r.w, strict);
    case Ticked(expired, idle) =>
      TickPhase(env, w, expired, idle);
      FoundedGrows(j, w, r.w, strict);
  }

  /** No message arrives ahead of its turn before a Logon is journaled. */
  ghost predicate NoneAheadOfLogon(j: Journal, env: Env, s: Step, inputs: seq<Input>)
    decreases |inputs|
  {
    inputs == [] || s.error.Some? || LogonJournaled(j, s.w.trace)
    || (!AheadIn(env.config, s.w, inputs[0]) && NoneAheadOfLogon(j, env, Turn(env, s.w, inputs[0]), inputs[1..]))
  }

  lemma {:induction false} TurnsExtend(env: Env, s: Step, inputs: seq<Input>)
    ensures s.w.trace <= Turns(env, s, inputs).w.trace
    decreases |inputs|
  {
    hide Turn;
    if inputs != [] && s.error.None? {
      TurnsExtend(env, Turn(env, s.w, inputs[0]), inputs[1..]);
    }
  }

  lemma {:induction false} TurnsFounded(j: Journal, env: Env, s: Step, inputs: seq<Input>, strict: bool)
    requires Kept(j, s.w) && (s.error.None? ==> Good(j, env, s.w)) && TurnsAdmissible(env, s, inputs)
    requires Founded(j, s.w, strict) && (strict ==> NoneAheadOfLogon(j, env, s, inputs))
    ensures Founded(j, Turns(env, s, inputs).w, strict)
    decreases |inputs|
  {
    hide Kept, Turn, Good, LogonJournaled, ResendSent, AheadIn;
    if LogonJournaled(j, s.w.trace) {
      TurnsExtend(env, s, inputs);
      JournaledGrows(j, s.w.trace, Turns(env, s, inputs).w.trace);
    } else if inputs != [] && s.error.None? {
      TurnKeeps(j, env, s.w, inputs[0]);
      TurnFounded(j, env, s.w, inputs[0], strict);
      TurnsFounded(j, env, Turn(env, s.w, inputs[0]), inputs[1..], strict);
    }
  }

  lemma StartFounded(env: Env, j: Journal, strict: bool)
    ensures Founded(j, Start(env, j).w, strict)
  {
    hide SendAdmin, LogonJournaled, ResendSent;
  }

  /** Whatever an actor lives through, whenever it is Established its life has journaled a Logon of the peer
      or a ResendRequest of its own. */
  lemma EstablishedForAReason(j: Journal, env: Env, inputs: seq<Input>)
    requires Inv(j) && Tidy(j) && TurnsAdmissible(env, Start(env, j), inputs)
    ensures var w := Turns(env, Start(env, j), inputs).w;
            w.actor.phase == Established ==> LogonJournaled(j, w.trace) || ResendSent(j, w.trace)
  {
    hide Inv, Tidy, Kept, Good, Start, Turns, LogonJournaled, ResendSent, TurnsAdmissible;
    StartKeeps(env, j);
    StartFounded(env, j, false);
    TurnsFounded(j, env, Start(env, j), inputs, false);
  }

  /** When no message arrives ahead of its turn before a Logon is journaled, an actor is Established only after
      a journaled Logon. */
  lemma EstablishedAfterLogon(j: Journal, env: Env, inputs: seq<Input>)
    requires Inv(j) && Tidy(j) && TurnsAdmissible(env, Start(env, j), inputs)
    requires NoneAheadOfLogon(j, env, Start(env, j), inputs)
    ensures var w := Turns(env, Start(env, j), inputs).w;
            w.actor.phase == Established ==> LogonJournaled(j, w.trace)
  {
    hide Inv, Tidy, Kept, Good, Start, Turns, LogonJournaled, ResendSent, TurnsAdmissible, NoneAheadOfLogon;
    StartKeeps(env, j);
    StartFounded(env, j, true);
    TurnsFounded(j, env, Start(env, j), inputs, true);
  }
}
