// Admission of application requests: the lookup of a stored command, the rate limit and the submission to
// the actor, over any number of callers, actors and crashes.
//
// A request that has passed the lookup waits for the actor. The service holds one lock from the lookup to
// the reply, and a caller that gives up releases it early. So any number of requests may wait here, and a
// lookup, which reads the journal directly, may fall between any two effects of what the actor is doing, its
// start included.

module Admission {
  import opened Text
  import opened Codec
  import opened Messages
  import opened Store
  import opened StoreTheorems
  import opened Session
  import opened SessionSafety
  import opened SessionInvariant
  import opened CrashRuns
  import L = Limiter

  datatype Reply =
    | Answered(command: CommandRecord)
    | Conflict
    | RateLimited
    | Stopped
    | Failed(error: SessionError)

  /** The part of an execution before the actor: a reply, or None when the request goes to the actor. */
  function Enter(j: Journal, window: L.Window, maximum: nat, attached: bool, req: ApplicationRequest, now: nat)
    : (L.Window, Option<Reply>)
  {
    if req.requestId in j.commands then
      var existing := j.commands[req.requestId];
      (window, Some(if existing.fingerprint != req.fingerprint then Conflict else Answered(existing)))
    else if !attached then (window, Some(Stopped))
    else
      var (admitted, ok) := L.Admit(window, maximum, req.requestId, now);
      (admitted, if ok then None else Some(RateLimited))
  }

  /** The submission. A request that never reached the journal gives its grant back. */
  function Finish(env: Env, s: Step, window: L.Window, req: ApplicationRequest): (r: (Step, L.Window, Reply))
    ensures Extends(s.w, r.0.w)
  {
    if s.error.Some? then (s, L.Drop(window, req.requestId), Stopped)
    else
      var (w, reply) := Submit(env, s.w, req);
      match reply
      case Ok(command) => (Step(w, None), window, Answered(command))
      case Err(e) =>
        (Step(w, if Fatal(e) then Some(e) else None),
         if e.NotEstablished? then L.Drop(window, req.requestId) else window,
         Failed(e))
  }

  datatype Exchange = Exchange(request: ApplicationRequest, reply: Reply)

  /** A lookup in the middle of a step of the actor, after `at` of its effects. */
  datatype Lookup = Lookup(request: ApplicationRequest, attached: bool, now: nat, at: nat)

  /** A waiting request is delivered to a caller that still listens, or has given up; then nobody gives its
      grant back. */
  datatype Event =
    | Entered(request: ApplicationRequest, attached: bool, now: nat)
    | Delivered(k: nat, heard: bool, during: seq<Lookup>)
    | Turned(input: Input, during: seq<Lookup>)

  datatype Service = Service(step: Step, window: L.Window, waiting: seq<ApplicationRequest>, replies: seq<Exchange>)

  /** The journal in the middle of these effects. */
  function Midway(j: Journal, t: seq<Effect>, at: nat): Journal { Fold(j, if at < |t| then t[..at] else t) }

  /** What a step has done. */
  function Done(a: World, b: World): seq<Effect>
    requires a.trace <= b.trace
  {
    b.trace[|a.trace|..]
  }

  /** A caller looks its request up in this state of the journal. */
  function LookUp(s: Service, j: Journal, maximum: nat, req: ApplicationRequest, attached: bool, now: nat): (r: Service)
    ensures r.step == s.step
  {
    var (window, reply) := Enter(j, s.window, maximum, attached, req, now);
    match reply
    case None => s.(window := window, waiting := s.waiting + [req])
    case Some(r) => s.(window := window, replies := s.replies + [Exchange(req, r)])
  }

  function LookUpAll(s: Service, j: Journal, t: seq<Effect>, maximum: nat, during: seq<Lookup>): (r: Service)
    ensures r.step == s.step
    decreases |during|
  {
    if during == [] then s
    else
      var l := during[0];
      LookUpAll(LookUp(s, Midway(j, t, l.at), maximum, l.request, l.attached, l.now), j, t, maximum, during[1..])
  }

  function Happen(env: Env, maximum: nat, s: Service, event: Event): Service {
    match event
    case Entered(req, attached, now) => LookUp(s, s.step.w.journal, maximum, req, attached, now)
    case Delivered(k, heard, during) =>
      if k >= |s.waiting| then s
      else
        var req := s.waiting[k];
        var (step, _, reply) := Finish(env, s.step, s.window, req);
        var left := s.(step := step, waiting := s.waiting[..k] + s.waiting[k + 1..]);
        var seen := LookUpAll(left, s.step.w.journal, Done(s.step.w, step.w), maximum, during);
        if !heard then seen
        else
          seen.(window := Finish(env, s.step, seen.window, req).1, replies := seen.replies + [Exchange(req, reply)])
    case Turned(input, during) =>
      if input.Submitted? || s.step.error.Some? then s
      else
        var step := Turn(env, s.step.w, input);
        LookUpAll(s.(step := step), s.step.w.journal, Done(s.step.w, step.w), maximum, during)
  }

  function HappenAll(env: Env, maximum: nat, s: Service, events: seq<Event>): Service
    decreases |events|
  {
    if events == [] then s else HappenAll(env, maximum, Happen(env, maximum, s, events[0]), events[1..])
  }

  /** What an event gives the actor to do. */
  function InputOf(s: Service, event: Event): seq<Input> {
    match event
    case Entered(_, _, _) => []
    case Delivered(k, _, _) => if k >= |s.waiting| || s.step.error.Some? then [] else [Submitted(s.waiting[k])]
    case Turned(input, _) => if input.Submitted? || s.step.error.Some? then [] else [input]
  }

  function InputsOf(env: Env, maximum: nat, s: Service, events: seq<Event>): seq<Input>
    decreases |events|
  {
    if events == [] then []
    else InputOf(s, events[0]) + InputsOf(env, maximum, Happen(env, maximum, s, events[0]), events[1..])
  }

  // ----- the invariant of the service -----

  /** A request whose stored record, if it has one, lies behind the next number. */
  ghost predicate Behind(j: Journal, req: ApplicationRequest) {
    AgentId(req.requestId) && (req.requestId in j.commands ==> j.commands[req.requestId].msgSeqNum < j.nextOut)
  }

  /** What a reply says is what the journal holds. */
  ghost predicate Truthful(j: Journal, x: Exchange) {
    x.reply.Answered? ==>
      var id := x.request.requestId;
      && AgentId(id) && id in j.commands && j.commands[id].fingerprint == x.request.fingerprint
      && x.reply.command == j.commands[id].(phase := x.reply.command.phase)
  }

  ghost predicate ServiceInv(j: Journal, env: Env, s: Service) {
    && Kept(j, s.step.w) && (s.step.error.None? ==> Good(j, env, s.step.w))
    && (forall req | req in s.waiting :: Behind(s.step.w.journal, req))
    && (forall x | x in s.replies :: Truthful(s.step.w.journal, x))
  }

  /** What each step of the actor leaves alone. */
  ghost predicate RecordsKept(a: Journal, b: Journal) {
    forall id | AgentId(id) && id in a.commands ::
      id in b.commands && b.commands[id].(phase := a.commands[id].phase) == a.commands[id]
  }

  lemma TrueKept(a: Journal, b: Journal, x: Exchange)
    requires RecordsKept(a, b) && Truthful(a, x)
    ensures Truthful(b, x)
  {
  }

  lemma BehindTurn(env: Env, w: World, input: Input, req: ApplicationRequest)
    requires !input.Submitted? && Behind(w.journal, req)
    ensures Behind(Turn(env, w, input).w.journal, req) && RecordsKept(w.journal, Turn(env, w, input).w.journal)
  {
    hide Turn, AgentId;
  }

  lemma OpBehind(j: Journal, op: StoreOp, req: ApplicationRequest)
    requires OutboundInv(j) && Behind(j, req) && op != ResetSequences
    ensures Behind(After(j, op).0, req)
  {
    hide AgentId;
  }

  /** A submission changes the journal by its commit and its mark, if at all. */
  lemma SubmitOps(env: Env, w: World, req: ApplicationRequest) returns (ops: seq<StoreOp>)
    ensures Submit(env, w, req).0.journal == Run(w.journal, ops)
    ensures forall op | op in ops :: op != ResetSequences
  {
    hide ApplicationFields, Refusal, AfterCommitOutbound, AfterMarkOutbound;
    ops := [];
    if w.actor.phase == Established && ApplicationFields(env, w, req).Some? {
      var wire := Message(env.config.beginString, ApplicationFields(env, w, req).value);
      if Refusal(wire.beginString, wire.fields).None? {
        var c := OutboundCommit(req.requestId, req.fingerprint, req.clOrdId, w.actor.nextOut, wire);
        ops := SubmitWireOps(w.(ticks := w.ticks + ApplicationTicks(req)), c);
      }
    }
  }

  lemma SubmitWireOps(w: World, c: OutboundCommit) returns (ops: seq<StoreOp>)
    ensures SubmitWire(w, c).0.journal == Run(w.journal, ops)
    ensures forall op | op in ops :: op != ResetSequences
  {
    hide AfterCommitOutbound, AfterMarkOutbound;
    var commit := CommitOutbound(c);
    RunOne(w.journal, commit, []);
    ops := [commit] + [];
    var reply := AfterCommitOutbound(w.journal, c).1;
    if reply.Ok? && reply.value.msgSeqNum == w.actor.nextOut {
      var mark := MarkOutboundWritten(c.requestId, reply.value.msgSeqNum);
      ops := [commit] + ([mark] + []);
      RunOne(w.journal, commit, [mark] + []);
      RunOne(After(w.journal, commit).0, mark, []);
    }
  }

  lemma {:induction false} RunBehind(j: Journal, ops: seq<StoreOp>, req: ApplicationRequest)
    requires Inv(j) && Behind(j, req) && forall op | op in ops :: op != ResetSequences
    ensures Behind(Run(j, ops), req)
    decreases |ops|
  {
    hide Behind, After, OutboundInv, TransmissionInv, InboundInv;
    if ops != [] {
      InvGivesOutbound(j);
      assert ops[0] in ops && forall op | op in ops[1..] :: op in ops;
      OpBehind(j, ops[0], req);
      InvStep(j, ops[0]);
      RunBehind(After(j, ops[0]).0, ops[1..], req);
    }
  }

  lemma BehindSubmit(j: Journal, env: Env, w: World, submitted: ApplicationRequest, req: ApplicationRequest)
    requires Kept(j, w) && Behind(w.journal, req)
    ensures Behind(Submit(env, w, submitted).0.journal, req)
  {
    hide Submit, Inv, Safe, OpsInOrder, Tidy, Behind;
    var ops := SubmitOps(env, w, submitted);
    RunBehind(w.journal, ops, req);
  }

  lemma SubmitKeepsRecords(j: Journal, env: Env, w: World, req: ApplicationRequest)
    requires Kept(j, w)
    ensures RecordsKept(w.journal, Submit(env, w, req).0.journal)
  {
    hide Submit, Inv, Safe, OpsInOrder, Tidy;
    var ops := SubmitOps(env, w, req);
    CommandsForever(w.journal, ops);
  }

  /** An accepted submission answers with the record that the journal then holds. */
  lemma SubmitAnswersTrue(env: Env, w: World, req: ApplicationRequest)
    requires Synced(w) && OutboundInv(w.journal) && AgentId(req.requestId) && Submit(env, w, req).1.Ok?
    ensures Truthful(Submit(env, w, req).0.journal, Exchange(req, Answered(Submit(env, w, req).1.value)))
  {
    hide ApplicationFields, Refusal, AgentId, SubmitWire;
    var wire := Message(env.config.beginString, ApplicationFields(env, w, req).value);
    var c := OutboundCommit(req.requestId, req.fingerprint, req.clOrdId, w.actor.nextOut, wire);
    SubmitWireAnswersTrue(w.(ticks := w.ticks + ApplicationTicks(req)), c);
  }

  lemma SubmitWireAnswersTrue(w: World, c: OutboundCommit)
    requires SubmitWire(w, c).1.Ok? && forall id | id in w.journal.commands :: w.journal.commands[id].requestId == id
    ensures var (after, reply) := SubmitWire(w, c);
            && c.requestId in after.journal.commands
            && after.journal.commands[c.requestId].fingerprint == c.fingerprint
            && reply.value == after.journal.commands[c.requestId].(phase := reply.value.phase)
  {
  }

  lemma BehindIsAdmissible(w: World, req: ApplicationRequest)
    requires Behind(w.journal, req)
    ensures Admissible(w, Submitted(req))
  {
    hide AgentId;
  }

  // ----- lookups -----

  lemma {:induction false} FoldBehind(j: Journal, t: seq<Effect>, req: ApplicationRequest)
    requires Inv(j) && Behind(j, req) && forall i | 0 <= i < |t| :: t[i] != Did(ResetSequences)
    ensures Behind(Fold(j, t), req)
    decreases |t|
  {
    hide Inv, Behind, After;
    if t != [] {
      var front := t[..|t| - 1];
      FoldBehind(j, front, req);
      FoldKeepsCommands(j, front);
      InvGivesOutbound(Fold(j, front));
      if t[|t| - 1].Did? {
        OpBehind(Fold(j, front), t[|t| - 1].op, req);
      }
    }
  }

  /** What is found in the one state holds in the other: records are kept, and a request that is not stored is
      harmless. */
  ghost predicate Leads(a: Journal, b: Journal) {
    && OutboundInv(a) && RecordsKept(a, b)
    && forall req: ApplicationRequest | AgentId(req.requestId) && req.requestId !in a.commands :: Behind(b, req)
  }

  lemma MidwayRecords(j: Journal, t: seq<Effect>, at: nat)
    requires Inv(j)
    ensures OutboundInv(Midway(j, t, at)) && RecordsKept(Midway(j, t, at), Fold(j, t))
  {
    hide Inv, Fold, OutboundInv;
    var front := if at < |t| then t[..at] else t;
    var back := t[|front|..];
    assert t == front + back;
    FoldJoin(j, front, back);
    FoldKeepsCommands(j, front);
    InvGivesOutbound(Fold(j, front));
    FoldKeepsCommands(Fold(j, front), back);
  }

  lemma MidwayLeads(j: Journal, t: seq<Effect>, at: nat)
    requires Inv(j) && forall i | 0 <= i < |t| :: t[i] != Did(ResetSequences)
    ensures Leads(Midway(j, t, at), Fold(j, t))
  {
    hide Inv, Behind, Fold, OutboundInv, AgentId;
    var front := if at < |t| then t[..at] else t;
    var back := t[|front|..];
    assert t == front + back;
    FoldJoin(j, front, back);
    FoldKeepsCommands(j, front);
    MidwayRecords(j, t, at);
    forall req: ApplicationRequest | AgentId(req.requestId) && req.requestId !in Fold(j, front).commands
      ensures Behind(Fold(j, t), req)
    {
      LookedUpBehind(Fold(j, front), req);
      FoldBehind(Fold(j, front), back, req);
    }
  }

  /** Starting stores no command of an agent. */
  lemma StartCommands(env: Env, j: Journal, id: Bytes)
    requires AgentId(id)
    ensures id in Start(env, j).w.journal.commands ==> id in j.commands
  {
    hide SendAdmin, LogonFieldsOk, AgentId;
  }

  lemma StartTrace(env: Env, j: Journal)
    requires Inv(j) && Tidy(j)
    ensures Fold(j, Start(env, j).w.trace) == Start(env, j).w.journal
  {
    hide Start, Inv, Tidy, Safe, OpsInOrder;
    StartKeeps(env, j);
  }

  /** In the middle of a start, the reset of the sequence numbers before or after it. */
  lemma StartLeads(env: Env, j: Journal, at: nat)
    requires Inv(j) && Tidy(j)
    ensures Leads(Midway(j, Start(env, j).w.trace, at), Start(env, j).w.journal)
  {
    hide Inv, Tidy, Start, Fold, AgentId;
    var t := Start(env, j).w.trace;
    StartTrace(env, j);
    MidwayRecords(j, t, at);
    MidwayCommands(j, t, at);
    forall req: ApplicationRequest | AgentId(req.requestId) && req.requestId !in Midway(j, t, at).commands
      ensures Behind(Start(env, j).w.journal, req)
    {
      StartCommands(env, j, req.requestId);
      LookedUpBehind(Start(env, j).w.journal, req);
    }
  }

  /** What was stored before is stored in the middle. */
  lemma MidwayCommands(j: Journal, t: seq<Effect>, at: nat)
    requires Inv(j)
    ensures forall id | id in j.commands :: id in Midway(j, t, at).commands
  {
    hide Inv, Fold;
    FoldKeepsCommands(j, if at < |t| then t[..at] else t);
  }

  /** In the middle of a step of the actor. */
  lemma StepLeads(j: Journal, a: World, b: World, at: nat)
    requires Kept(j, a) && Kept(j, b) && Extends(a, b)
    ensures Leads(Midway(a.journal, Done(a, b), at), b.journal)
  {
    hide Inv, Safe, OpsInOrder, Tidy, Fold, Leads, Midway;
    assert b.trace[..|a.trace|] == a.trace;
    FoldBetween(j, b.trace, |a.trace|, |b.trace|);
    assert b.trace[..|b.trace|] == b.trace && b.trace[|a.trace|..|b.trace|] == Done(a, b);
    MidwayLeads(a.journal, Done(a, b), at);
  }

  /** A lookup in a state that leads to the present one keeps the invariant. */
  lemma LookUpKeeps(
      j: Journal, env: Env, s: Service, seen: Journal, maximum: nat, req: ApplicationRequest, attached: bool, now: nat)
    requires ServiceInv(j, env, s) && AgentId(req.requestId) && Leads(seen, s.step.w.journal)
    ensures ServiceInv(j, env, LookUp(s, seen, maximum, req, attached, now))
  {
    hide Kept, Good, L.Admit, AgentId, OutboundInv;
    if req.requestId in seen.commands {
      LookedUpTrue(seen, s.step.w.journal, req);
    }
  }

  lemma LookedUpBehind(j: Journal, req: ApplicationRequest)
    requires AgentId(req.requestId) && req.requestId !in j.commands
    ensures Behind(j, req)
  {
  }

  lemma LookedUpTrue(seen: Journal, now: Journal, req: ApplicationRequest)
    requires OutboundInv(seen) && RecordsKept(seen, now) && AgentId(req.requestId) && req.requestId in seen.commands
    ensures seen.commands[req.requestId].fingerprint == req.fingerprint ==>
              Truthful(now, Exchange(req, Answered(seen.commands[req.requestId])))
  {
    hide AgentId;
  }

  lemma {:induction false} LookUpAllKeeps(
      j: Journal, env: Env, s: Service, before: Journal, t: seq<Effect>, maximum: nat, during: seq<Lookup>)
    requires ServiceInv(j, env, s) && forall at: nat :: Leads(Midway(before, t, at), s.step.w.journal)
    requires forall l | l in during :: AgentId(l.request.requestId)
    ensures ServiceInv(j, env, LookUpAll(s, before, t, maximum, during))
    decreases |during|
  {
    hide ServiceInv, LookUp, Leads, Midway, AgentId;
    if during != [] {
      var l := during[0];
      assert l in during && forall other | other in during[1..] :: other in during;
      LookUpKeeps(j, env, s, Midway(before, t, l.at), maximum, l.request, l.attached, l.now);
      LookUpAllKeeps(j, env, LookUp(s, Midway(before, t, l.at), maximum, l.request, l.attached, l.now), before, t,
                     maximum, during[1..]);
    }
  }

  lemma StepLookUpsKeep(
      j: Journal, env: Env, s: Service, before: World, maximum: nat, during: seq<Lookup>)
    requires ServiceInv(j, env, s) && Kept(j, before) && Extends(before, s.step.w)
    requires forall l | l in during :: AgentId(l.request.requestId)
    ensures ServiceInv(j, env, LookUpAll(s, before.journal, Done(before, s.step.w), maximum, during))
  {
    hide Kept, Good, Behind, Truthful, Midway, Leads, AgentId, LookUpAll, Done;
    forall at: nat
      ensures Leads(Midway(before.journal, Done(before, s.step.w), at), s.step.w.journal)
    {
      StepLeads(j, before, s.step.w, at);
    }
    LookUpAllKeeps(j, env, s, before.journal, Done(before, s.step.w), maximum, during);
  }

  lemma EnteredKeeps(j: Journal, env: Env, maximum: nat, s: Service, req: ApplicationRequest, attached: bool, now: nat)
    requires ServiceInv(j, env, s) && AgentId(req.requestId)
    ensures ServiceInv(j, env, Happen(env, maximum, s, Entered(req, attached, now)))
  {
    hide Kept, Good, Behind, Truthful, AgentId, LookUp, OutboundInv;
    CommandsNamed(j, s.step.w);
    LeadsAtOnce(s.step.w.journal);
    LookUpKeeps(j, env, s, s.step.w.journal, maximum, req, attached, now);
  }

  lemma LeadsAtOnce(j: Journal)
    requires OutboundInv(j)
    ensures Leads(j, j)
  {
    hide OutboundInv, AgentId;
  }

  lemma CommandsNamed(j: Journal, w: World)
    requires Kept(j, w)
    ensures OutboundInv(w.journal)
    ensures forall id | id in w.journal.commands :: w.journal.commands[id].requestId == id
  {
    hide TransmissionInv, InboundInv, Safe, OpsInOrder, Tidy;
  }

  lemma TurnedKeeps(
      j: Journal, env: Env, maximum: nat, s: Service, input: Input, during: seq<Lookup>)
    requires ServiceInv(j, env, s) && forall l | l in during :: AgentId(l.request.requestId)
    ensures ServiceInv(j, env, Happen(env, maximum, s, Turned(input, during)))
  {
    hide Kept, Good, Turn, Behind, RecordsKept, Truthful, AgentsKept, AgentId, LookUpAll, Done;
    if !input.Submitted? && s.step.error.None? {
      var step := Turn(env, s.step.w, input);
      TurnKeeps(j, env, s.step.w, input);
      TurnKeepsRecords(env, s.step.w, input);
      forall req | req in s.waiting
        ensures Behind(step.w.journal, req)
      {
        BehindTurn(env, s.step.w, input, req);
      }
      forall x | x in s.replies
        ensures Truthful(step.w.journal, x)
      {
        TrueKept(s.step.w.journal, step.w.journal, x);
      }
      StepLookUpsKeep(j, env, s.(step := step), s.step.w, maximum, during);
    }
  }

  lemma TurnKeepsRecords(env: Env, w: World, input: Input)
    requires !input.Submitted?
    ensures RecordsKept(w.journal, Turn(env, w, input).w.journal)
  {
    hide Turn, AgentId;
  }

  /** The service once the actor is through with a waiting request. */
  lemma SubmittedLeft(j: Journal, env: Env, s: Service, k: nat)
    requires ServiceInv(j, env, s) && k < |s.waiting|
    ensures var (step, _, reply) := Finish(env, s.step, s.window, s.waiting[k]);
            && ServiceInv(j, env, s.(step := step, waiting := s.waiting[..k] + s.waiting[k + 1..]))
            && Truthful(step.w.journal, Exchange(s.waiting[k], reply))
  {
    hide Kept, Good, Submit, Behind, RecordsKept, Truthful, L.Drop, Fatal, Extends;
    var req := s.waiting[k];
    var rest := s.waiting[..k] + s.waiting[k + 1..];
    assert forall r | r in rest :: r in s.waiting;
    if s.step.error.None? {
      var (after, reply) := Submit(env, s.step.w, req);
      assert req in s.waiting;
      BehindIsAdmissible(s.step.w, req);
      SubmittedKeeps(j, env, s.step.w, req);
      SubmitKeepsRecords(j, env, s.step.w, req);
      forall r | r in rest
        ensures Behind(after.journal, r)
      {
        BehindSubmit(j, env, s.step.w, req, r);
      }
      forall x | x in s.replies
        ensures Truthful(after.journal, x)
      {
        TrueKept(s.step.w.journal, after.journal, x);
      }
      if reply.Ok? {
        DeliveredTrue(j, env, s.step.w, req);
      } else {
        NothingAnswered(after.journal, Exchange(req, Failed(reply.error)));
      }
    } else {
      NothingAnswered(s.step.w.journal, Exchange(req, Stopped));
    }
  }

  lemma DeliveredKeeps(
      j: Journal, env: Env, maximum: nat, s: Service, k: nat, heard: bool, during: seq<Lookup>)
    requires ServiceInv(j, env, s) && forall l | l in during :: AgentId(l.request.requestId)
    ensures ServiceInv(j, env, Happen(env, maximum, s, Delivered(k, heard, during)))
  {
    hide Kept, Good, Finish, Behind, Truthful, AgentId, LookUpAll, Done, Extends;
    if k < |s.waiting| {
      SubmittedLeft(j, env, s, k);
      var step := Finish(env, s.step, s.window, s.waiting[k]).0;
      var left := s.(step := step, waiting := s.waiting[..k] + s.waiting[k + 1..]);
      StepLookUpsKeep(j, env, left, s.step.w, maximum, during);
    }
  }

  lemma NothingAnswered(j: Journal, x: Exchange)
    requires !x.reply.Answered?
    ensures Truthful(j, x)
  {
  }

  lemma DeliveredTrue(j: Journal, env: Env, w: World, req: ApplicationRequest)
    requires Kept(j, w) && Behind(w.journal, req) && Submit(env, w, req).1.Ok?
    ensures Truthful(Submit(env, w, req).0.journal, Exchange(req, Answered(Submit(env, w, req).1.value)))
  {
    hide Submit, AgentId, Truthful, Traced;
    CommandsNamed(j, w);
    SubmitAnswersTrue(env, w, req);
  }

  lemma SubmittedKeeps(j: Journal, env: Env, w: World, req: ApplicationRequest)
    requires Good(j, env, w) && Admissible(w, Submitted(req))
    ensures var (after, reply) := Submit(env, w, req);
            Kept(j, after) && (reply.Ok? || !Fatal(reply.error) ==> Good(j, env, after))
  {
    hide Good, Kept, Submit, Admissible, Fatal;
    TurnKeeps(j, env, w, Submitted(req));
  }

  function Lookups(e: Event): seq<Lookup> {
    match e
    case Entered(req, attached, now) => [Lookup(req, attached, now, 0)]
    case Delivered(_, _, during) => during
    case Turned(_, during) => during
  }

  /** Callers are agents. */
  predicate ByAgents(lookups: seq<Lookup>) { forall l | l in lookups :: AgentId(l.request.requestId) }

  predicate FromAgents(events: seq<Event>) { forall e | e in events :: ByAgents(Lookups(e)) }

  lemma HappenKeeps(j: Journal, env: Env, maximum: nat, s: Service, event: Event)
    requires ServiceInv(j, env, s) && ByAgents(Lookups(event))
    ensures ServiceInv(j, env, Happen(env, maximum, s, event))
  {
    hide ServiceInv, Happen, AgentId;
    match event
    case Entered(req, attached, now) =>
      assert Lookup(req, attached, now, 0) in Lookups(event);
      EnteredKeeps(j, env, maximum, s, req, attached, now);
    case Delivered(k, heard, during) => DeliveredKeeps(j, env, maximum, s, k, heard, during);
    case Turned(input, during) => TurnedKeeps(j, env, maximum, s, input, during);
  }

  lemma {:induction false} ServiceKeeps(j: Journal, env: Env, maximum: nat, s: Service, events: seq<Event>)
    requires ServiceInv(j, env, s) && FromAgents(events)
    ensures ServiceInv(j, env, HappenAll(env, maximum, s, events))
    decreases |events|
  {
    hide ServiceInv, Happen, ByAgents;
    if events != [] {
      assert events[0] in events;
      HappenKeeps(j, env, maximum, s, events[0]);
      ServiceKeeps(j, env, maximum, Happen(env, maximum, s, events[0]), events[1..]);
    }
  }

  // ----- the service as lives of the actor -----

  lemma DeliveredIsTurn(env: Env, maximum: nat, s: Service, k: nat, heard: bool, during: seq<Lookup>)
    requires k < |s.waiting| && s.step.error.None?
    ensures Happen(env, maximum, s, Delivered(k, heard, during)).step ==
            Turn(env, s.step.w, Submitted(s.waiting[k]))
  {
    hide Submit, L.Drop, LookUpAll;
  }

  lemma HappenIsTurns(j: Journal, env: Env, maximum: nat, s: Service, event: Event, later: seq<Input>)
    requires ServiceInv(j, env, s)
    requires TurnsAdmissible(env, Happen(env, maximum, s, event).step, later)
    ensures TurnsAdmissible(env, s.step, InputOf(s, event) + later)
    ensures Turns(env, s.step, InputOf(s, event) + later) == Turns(env, Happen(env, maximum, s, event).step, later)
  {
    hide Kept, Good, Turn, Admissible, Behind, LookUpAll, LookUp;
    var inputs := InputOf(s, event);
    if inputs == [] {
      assert inputs + later == later;
      IdleStep(env, maximum, s, event);
    } else {
      assert (inputs + later)[0] == inputs[0] && (inputs + later)[1..] == later;
      match event
      case Delivered(k, heard, during) =>
        DeliveredIsTurn(env, maximum, s, k, heard, during);
        assert s.waiting[k] in s.waiting;
        BehindIsAdmissible(s.step.w, s.waiting[k]);
      case Turned(input, during) => TurnedAdmissible(s.step.w, input);
    }
  }

  lemma IdleStep(env: Env, maximum: nat, s: Service, event: Event)
    requires InputOf(s, event) == []
    ensures Happen(env, maximum, s, event).step == s.step
  {
    hide Submit, Turn, L.Drop, LookUp, LookUpAll;
  }

  lemma TurnedAdmissible(w: World, input: Input)
    requires !input.Submitted?
    ensures Admissible(w, input)
  {
  }

  /** Everything the service lets through is an admissible input of the actor, and the actor does with it
      what the service sees. */
  lemma {:induction false} ServiceIsTurns(
      j: Journal, env: Env, maximum: nat, s: Service, events: seq<Event>, later: seq<Input>)
    requires ServiceInv(j, env, s) && FromAgents(events)
    requires TurnsAdmissible(env, HappenAll(env, maximum, s, events).step, later)
    ensures var inputs := InputsOf(env, maximum, s, events) + later;
            && TurnsAdmissible(env, s.step, inputs)
            && Turns(env, s.step, inputs) == Turns(env, HappenAll(env, maximum, s, events).step, later)
    decreases |events|
  {
    hide ServiceInv, Happen, InputOf, ByAgents, Turns, TurnsAdmissible;
    if events == [] {
      assert [] + later == later;
    } else {
      assert events[0] in events;
      var next := Happen(env, maximum, s, events[0]);
      HappenKeeps(j, env, maximum, s, events[0]);
      ServiceIsTurns(j, env, maximum, next, events[1..], later);
      var rest := InputsOf(env, maximum, next, events[1..]);
      HappenIsTurns(j, env, maximum, s, events[0], rest + later);
      assert InputsOf(env, maximum, s, events) + later == InputOf(s, events[0]) + (rest + later);
    }
  }

  /** One process: the lookups while its actor starts, the events it sees through, those a crash interrupts,
      after how many effects the crash comes, and the lookups that were answered before it in what it
      interrupts; they count the effects of the whole life. */
  datatype ServiceLife = ServiceLife(
    env: Env, maximum: nat, window: L.Window, opening: seq<Lookup>, events: seq<Event>, torn: seq<Event>, cut: nat,
    late: seq<Lookup>)

  /** The service when its actor has started. */
  function Begun(j: Journal, life: ServiceLife): (r: Service)
    ensures r.step == Start(life.env, j)
  {
    var start := Start(life.env, j);
    LookUpAll(Service(start, life.window, [], []), j, start.w.trace, life.maximum, life.opening)
  }

  function Completed(j: Journal, life: ServiceLife): Service {
    HappenAll(life.env, life.maximum, Begun(j, life), life.events)
  }

  /** What the actor of a process lives through. */
  function LifeOf(j: Journal, life: ServiceLife): Life {
    var begun, done := Begun(j, life), Completed(j, life);
    Life(life.env,
         InputsOf(life.env, life.maximum, begun, life.events) + InputsOf(life.env, life.maximum, done, life.torn),
         life.cut)
  }

  function AfterLife(j: Journal, life: ServiceLife): Journal { Fold(j, LifeTrace(j, LifeOf(j, life))) }

  function LivesOf(j: Journal, lives: seq<ServiceLife>): seq<Life>
    decreases |lives|
  {
    if lives == [] then [] else [LifeOf(j, lives[0])] + LivesOf(AfterLife(j, lives[0]), lives[1..])
  }

  /** The replies of a process, those from the middle of what the crash interrupted included. A crash that comes
      even before the completed events are through, in the start for instance, leaves no others. */
  function LifeReplies(j: Journal, life: ServiceLife): seq<Exchange> {
    var done := Completed(j, life);
    var told := if life.cut < |done.step.w.trace| then done.(replies := []) else done;
    LookUpAll(told, j, LifeTrace(j, LifeOf(j, life)), life.maximum, life.late).replies
  }

  /** Every reply that any caller of any process has received. */
  function Replies(j: Journal, lives: seq<ServiceLife>): seq<Exchange>
    decreases |lives|
  {
    if lives == [] then [] else LifeReplies(j, lives[0]) + Replies(AfterLife(j, lives[0]), lives[1..])
  }

  ghost predicate AllFromAgents(lives: seq<ServiceLife>) {
    forall life | life in lives :: LifeFromAgents(life)
  }

  ghost predicate LifeFromAgents(life: ServiceLife) {
    ByAgents(life.opening) && FromAgents(life.events) && FromAgents(life.torn) && ByAgents(life.late)
  }

  lemma BegunInv(j: Journal, life: ServiceLife)
    requires Inv(j) && Tidy(j) && ByAgents(life.opening)
    ensures ServiceInv(j, life.env, Begun(j, life))
  {
    hide Start, Kept, Good, Inv, Tidy, Leads, LookUpAll, AgentId, Midway;
    StartKeeps(life.env, j);
    var start := Start(life.env, j);
    forall at: nat
      ensures Leads(Midway(j, start.w.trace, at), start.w.journal)
    {
      StartLeads(life.env, j, at);
    }
    var s := Service(start, life.window, [], []);
    LookUpAllKeeps(j, life.env, s, j, start.w.trace, life.maximum, life.opening);
  }

  lemma {:induction false} TurnsGrow(env: Env, s: Step, inputs: seq<Input>)
    ensures s.w.trace <= Turns(env, s, inputs).w.trace
    decreases |inputs|
  {
    hide Turn;
    if inputs != [] && s.error.None? {
      TurnsGrow(env, Turn(env, s.w, inputs[0]), inputs[1..]);
    }
  }

  /** The inputs of a process are admissible, its effects begin with those of the events it completed, and
      its replies say what the journal holds when it ends. */
  lemma ServiceLifeKeeps(j: Journal, life: ServiceLife)
    requires Inv(j) && Tidy(j) && LifeFromAgents(life)
    ensures var l := LifeOf(j, life); TurnsAdmissible(l.env, Start(l.env, j), l.inputs)
    ensures Inv(AfterLife(j, life)) && Tidy(AfterLife(j, life))
    ensures forall x | x in LifeReplies(j, life) :: Truthful(AfterLife(j, life), x)
  {
    hide Inv, Tidy, ServiceInv, HappenAll, InputsOf, Start, Turns, TurnsAdmissible, FromAgents, Truthful, Fold,
         ByAgents, LookUpAll, Begun;
    var begun, done := Begun(j, life), Completed(j, life);
    BegunInv(j, life);
    ServiceKeeps(j, life.env, life.maximum, begun, life.events);
    var torn := InputsOf(life.env, life.maximum, done, life.torn);
    NothingAdmissible(life.env, HappenAll(life.env, life.maximum, done, life.torn).step);
    ServiceIsTurns(j, life.env, life.maximum, done, life.torn, []);
    assert torn + [] == torn;
    ServiceIsTurns(j, life.env, life.maximum, begun, life.events, torn);
    var whole := Turns(life.env, Start(life.env, j), LifeOf(j, life).inputs).w.trace;
    TurnsGrow(life.env, done.step, torn);
    LifeOrderly(j, LifeOf(j, life));
    CompletedTruthful(j, life.env, done);
    var t := LifeTrace(j, LifeOf(j, life));
    if life.cut < |done.step.w.trace| {
      LateTruthful(j, t, done.(replies := []), life.maximum, life.late);
    } else {
      assert done.step.w.trace <= t;
      GrownTruthful(j, done.step.w.trace, t, done.replies);
      LateTruthful(j, t, done, life.maximum, life.late);
    }
  }

  /** A lookup answered at any point of a life is answered with what the journal holds from then on. */
  lemma {:induction false} LateTruthful(j: Journal, t: seq<Effect>, s: Service, maximum: nat, late: seq<Lookup>)
    requires Inv(j) && ByAgents(late) && forall x | x in s.replies :: Truthful(Fold(j, t), x)
    ensures forall x | x in LookUpAll(s, j, t, maximum, late).replies :: Truthful(Fold(j, t), x)
    decreases |late|
  {
    hide Inv, Truthful, Fold, Midway, L.Admit, AgentId;
    if late != [] {
      var l := late[0];
      assert l in late && forall other | other in late[1..] :: other in late;
      var seen := Midway(j, t, l.at);
      MidwayRecords(j, t, l.at);
      if l.request.requestId in seen.commands {
        LookedUpTrue(seen, Fold(j, t), l.request);
      }
      var next := LookUp(s, seen, maximum, l.request, l.attached, l.now);
      forall x | x in next.replies
        ensures Truthful(Fold(j, t), x)
      {
        if x !in s.replies && !x.reply.Answered? {
          NothingAnswered(Fold(j, t), x);
        }
      }
      LateTruthful(j, t, next, maximum, late[1..]);
    }
  }

  lemma NothingAdmissible(env: Env, s: Step)
    ensures TurnsAdmissible(env, s, [])
  {
  }

  lemma CompletedTruthful(j: Journal, env: Env, s: Service)
    requires ServiceInv(j, env, s)
    ensures forall x | x in s.replies :: Truthful(Fold(j, s.step.w.trace), x)
  {
    hide Safe, OpsInOrder, Inv, Tidy, Good, Behind, Truthful;
  }

  lemma GrownTruthful(j: Journal, early: seq<Effect>, t: seq<Effect>, replies: seq<Exchange>)
    requires Inv(j) && early <= t && forall x | x in replies :: Truthful(Fold(j, early), x)
    ensures forall x | x in replies :: Truthful(Fold(j, t), x)
  {
    hide Inv, Truthful, Fold;
    var rest := t[|early|..];
    assert t == early + rest;
    FoldJoin(j, early, rest);
    FoldKeepsCommands(j, early);
    FoldKeepsCommands(Fold(j, early), rest);
    forall x | x in replies
      ensures Truthful(Fold(j, t), x)
    {
      TrueKept(Fold(j, early), Fold(j, t), x);
    }
  }

  lemma LifeOrderly(j: Journal, life: Life)
    requires Inv(j) && Tidy(j) && TurnsAdmissible(life.env, Start(life.env, j), life.inputs)
    ensures Inv(Fold(j, LifeTrace(j, life))) && Tidy(Fold(j, LifeTrace(j, life)))
    ensures Orderly(j, LifeTrace(j, life))
  {
    hide Inv, Tidy, Safe, OpsInOrder, Turns, Start, TurnsAdmissible;
    StartKeeps(life.env, j);
    TurnsKeep(j, life.env, Start(life.env, j), life.inputs);
    var whole := Turns(life.env, Start(life.env, j), life.inputs).w.trace;
    if life.cut < |whole| {
      OrderlyPrefix(j, whole, life.cut);
    }
    OrderlyFold(j, LifeTrace(j, life));
  }

  lemma {:induction false} ServiceRun(j: Journal, lives: seq<ServiceLife>)
    requires Inv(j) && Tidy(j) && AllFromAgents(lives)
    ensures RunAdmissible(j, LivesOf(j, lives))
    ensures forall x | x in Replies(j, lives) :: Truthful(Fold(j, RunTrace(j, LivesOf(j, lives))), x)
    decreases |lives|
  {
    hide Inv, Tidy, LifeFromAgents, LifeOf, LifeTrace, TurnsAdmissible, LifeReplies, Truthful, Fold, Start;
    if lives != [] {
      var life, rest := lives[0], lives[1..];
      assert life in lives && forall l | l in rest :: l in lives;
      var next := AfterLife(j, life);
      ServiceLifeKeeps(j, life);
      ServiceRun(next, rest);
      var a, b := LifeTrace(j, LifeOf(j, life)), RunTrace(next, LivesOf(next, rest));
      assert LivesOf(j, lives)[1..] == LivesOf(next, rest);
      assert RunTrace(j, LivesOf(j, lives)) == a + b;
      FoldJoin(j, a, b);
      ServiceRunReplies(next, b, LifeReplies(j, life));
    }
  }

  lemma ServiceRunReplies(j: Journal, t: seq<Effect>, replies: seq<Exchange>)
    requires Inv(j) && forall x | x in replies :: Truthful(j, x)
    ensures forall x | x in replies :: Truthful(Fold(j, t), x)
  {
    hide Inv, Truthful;
    assert Fold(j, []) == j;
    GrownTruthful(j, [], t, replies);
  }

  // ----- at most once -----

  /** The fresh write at `i` sends the request `id`. */
  ghost predicate Sends(j: Journal, t: seq<Effect>, i: nat, id: Bytes)
    requires i < |t|
  {
    IsFreshWrite(t[i]) && JournaledBefore(j, t, i) && t[i - 1].op.outbound.requestId == id
  }

  /** At the end the record of the request says what was written at `i`. */
  ghost predicate StoredAsSent(j: Journal, t: seq<Effect>, i: nat, id: Bytes)
    requires i < |t| && Sends(j, t, i, id)
  {
    var c, stored := t[i - 1].op.outbound, Fold(j, t).commands;
    && id in stored && stored[id].fingerprint == c.fingerprint && stored[id].clOrdId == c.clOrdId
    && stored[id].msgSeqNum == c.msgSeqNum && First(t[i].wire.fields, 34) == Some(Dec(stored[id].msgSeqNum))
  }

  /** What was written for a request is what its record says forever. */
  lemma SentIsStored(j: Journal, t: seq<Effect>, i: nat, id: Bytes)
    requires Inv(j) && i < |t| && Sends(j, t, i, id)
    ensures StoredAsSent(j, t, i, id)
  {
    hide Inv, First, PossDup, RedactionOf, Fold;
    var c := t[i - 1].op.outbound;
    var before := Fold(j, t[..i - 1]);
    assert t[..i] == t[..i - 1] + [t[i - 1]];
    FoldAppendOne(j, t[..i - 1], t[i - 1]);
    FreshCommitAccepted(before, c);
    FoldKeepsCommands(j, t[..i]);
    FoldBetween(j, t, i, |t|);
    assert t[..|t|] == t;
    FoldKeepsCommands(Fold(j, t[..i]), t[i..]);
  }

  /** Over any processes on a fresh database, their callers, timers, inbound messages, crashes and sequence
      resets: every fresh write was journaled for the first time just before it; a request id is written at
      most once; every accepted execution of it, before or after, reports the ClOrdID and number it was
      written with; and it is only ever written, and only ever reported, for one fingerprint. */
  lemma SingleFlight(lives: seq<ServiceLife>, id: Bytes)
    requires AllFromAgents(lives)
    ensures var t := RunTrace(EMPTY, LivesOf(EMPTY, lives));
            var stored := Fold(EMPTY, t).commands;
            && Safe(EMPTY, t)
            && (forall i, k | 0 <= i < k < |t| :: !(Sends(EMPTY, t, i, id) && Sends(EMPTY, t, k, id)))
            && (forall i | 0 <= i < |t| && Sends(EMPTY, t, i, id) :: StoredAsSent(EMPTY, t, i, id))
            && (forall x | x in Replies(EMPTY, lives) && x.reply.Answered? && x.request.requestId == id ::
                  id in stored && stored[id].fingerprint == x.request.fingerprint
                  && stored[id].clOrdId == x.reply.command.clOrdId && stored[id].msgSeqNum == x.reply.command.msgSeqNum)
  {
    hide Inv, Tidy, RunTrace, LivesOf, Replies, Fold, AllFromAgents, RunAdmissible, Safe, OpsInOrder, Sends,
         StoredAsSent;
    EmptyInOrder();
    ServiceRun(EMPTY, lives);
    RunOrderly(EMPTY, LivesOf(EMPTY, lives));
    var t := RunTrace(EMPTY, LivesOf(EMPTY, lives));
    forall i: nat | i < |t| && Sends(EMPTY, t, i, id)
      ensures StoredAsSent(EMPTY, t, i, id)
    {
      SentIsStored(EMPTY, t, i, id);
    }
    forall i: nat, k: nat | i < k < |t|
      ensures !(Sends(EMPTY, t, i, id) && Sends(EMPTY, t, k, id))
    {
      SentOnce(EMPTY, t, i, k, id);
    }
    forall x | x in Replies(EMPTY, lives) && x.reply.Answered? && x.request.requestId == id
      ensures var stored := Fold(EMPTY, t).commands;
              id in stored && stored[id].fingerprint == x.request.fingerprint
              && stored[id].clOrdId == x.reply.command.clOrdId && stored[id].msgSeqNum == x.reply.command.msgSeqNum
    {
      assert Truthful(Fold(EMPTY, t), x);
    }
  }

  lemma SentOnce(j: Journal, t: seq<Effect>, i: nat, k: nat, id: Bytes)
    requires Inv(j) && Safe(j, t) && i < k < |t|
    ensures !(Sends(j, t, i, id) && Sends(j, t, k, id))
  {
    hide Inv, Safe, JournaledBefore;
    if Sends(j, t, i, id) && Sends(j, t, k, id) {
      RequestWrittenOnce(j, t, i, k);
    }
  }
}
