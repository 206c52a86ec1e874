// What the limiter means for the socket: every application message that is written was admitted by it, so the
// bound on admissions is a bound on writes.

module WriteRate {
  import opened Text
  import opened Codec
  import opened Messages
  import opened Store
  import opened StoreTheorems
  import opened Session
  import opened SessionSafety
  import opened SessionInvariant
  import opened CrashRuns
  import opened Admission
  import opened LimiterAnswers
  import opened LimiterBursts
  import L = Limiter

  // ----- what the service asks of the limiter -----

  /** A lookup that finds nothing asks for a grant. */
  function AskFor(j: Journal, req: ApplicationRequest, attached: bool, now: nat): seq<L.Request> {
    if req.requestId in j.commands || !attached then [] else [L.Acquire(req.requestId, now)]
  }

  function AsksDuring(j: Journal, t: seq<Effect>, during: seq<Lookup>): seq<L.Request>
    decreases |during|
  {
    if during == [] then []
    else
      var l := during[0];
      AskFor(Midway(j, t, l.at), l.request, l.attached, l.now) + AsksDuring(j, t, during[1..])
  }

  /** The reply on which a grant is given back. */
  predicate GivesBack(env: Env, step: Step, req: ApplicationRequest) {
    step.error.Some? || Submit(env, step.w, req).1 == Err(NotEstablished)
  }

  /** What an event asks of the limiter. */
  function Calls(env: Env, s: Service, event: Event): seq<L.Request> {
    match event
    case Entered(req, attached, now) => AskFor(s.step.w.journal, req, attached, now)
    case Delivered(k, heard, during) =>
      if k >= |s.waiting| then []
      else
        var req := s.waiting[k];
        var step := Finish(env, s.step, s.window, req).0;
        AsksDuring(s.step.w.journal, Done(s.step.w, step.w), during)
        + if heard && GivesBack(env, s.step, req) then [L.Release(req.requestId)] else []
    case Turned(input, during) =>
      if input.Submitted? || s.step.error.Some? then []
      else AsksDuring(s.step.w.journal, Done(s.step.w, Turn(env, s.step.w, input).w), during)
  }

  function CallsAll(env: Env, maximum: nat, s: Service, events: seq<Event>): seq<L.Request>
    decreases |events|
  {
    if events == [] then []
    else Calls(env, s, events[0]) + CallsAll(env, maximum, Happen(env, maximum, s, events[0]), events[1..])
  }

  /** What a process asks of the limiter, in what a crash interrupts too. */
  function LifeCalls(j: Journal, life: ServiceLife): seq<L.Request> {
    AsksDuring(j, Start(life.env, j).w.trace, life.opening)
    + CallsAll(life.env, life.maximum, Begun(j, life), life.events)
    + CallsAll(life.env, life.maximum, Completed(j, life), life.torn)
  }

  // ----- admitted requests -----

  /** The request was admitted by one of the calls from the `first` on. */
  ghost predicate Vetted(maximum: nat, calls: seq<L.Request>, first: nat, id: Bytes) {
    exists k :: first <= k < |calls| && calls[k].Acquire? && calls[k].id == id && Admitted(maximum, calls, k)
  }

  lemma StillVetted(maximum: nat, calls: seq<L.Request>, more: seq<L.Request>, first: nat, id: Bytes)
    requires Vetted(maximum, calls, first, id)
    ensures Vetted(maximum, calls + more, first, id)
  {
    hide L.Admit, L.After;
    var k :| first <= k < |calls| && calls[k].Acquire? && calls[k].id == id && Admitted(maximum, calls, k);
    assert (calls + more)[..k] == calls[..k] && (calls + more)[k] == calls[k];
  }

  lemma NowVetted(maximum: nat, calls: seq<L.Request>, first: nat, id: Bytes, now: nat)
    requires first <= |calls| && L.Admit(L.After(L.NOTHING, maximum, calls).window, maximum, id, now).1
    ensures Vetted(maximum, calls + [L.Acquire(id, now)], first, id)
  {
    hide L.Admit, L.After;
    var all := calls + [L.Acquire(id, now)];
    assert all[..|calls|] == calls && Admitted(maximum, all, |calls|);
  }

  /** The window is the one that these calls leave, and what waits or has been stored since `j` was admitted. */
  ghost predicate Guarded(j: Journal, maximum: nat, calls: seq<L.Request>, first: nat, s: Service) {
    && first <= |calls| && s.window == L.After(L.NOTHING, maximum, calls).window
    && (forall req | req in s.waiting :: Vetted(maximum, calls, first, req.requestId))
    && (forall id | AgentId(id) && id in s.step.w.journal.commands && id !in j.commands ::
          Vetted(maximum, calls, first, id))
  }

  lemma LookUpGuarded(
      j: Journal, maximum: nat, calls: seq<L.Request>, first: nat, s: Service,
      seen: Journal, req: ApplicationRequest, attached: bool, now: nat)
    requires Guarded(j, maximum, calls, first, s)
    ensures Guarded(j, maximum, calls + AskFor(seen, req, attached, now), first,
                    LookUp(s, seen, maximum, req, attached, now))
  {
    hide L.Admit, L.After, Vetted, AgentId;
    var ask := AskFor(seen, req, attached, now);
    var all, next := calls + ask, LookUp(s, seen, maximum, req, attached, now);
    forall id | Vetted(maximum, calls, first, id)
      ensures Vetted(maximum, all, first, id)
    {
      StillVetted(maximum, calls, ask, first, id);
    }
    if ask == [] {
      assert all == calls;
    } else {
      AfterSnoc(L.NOTHING, maximum, calls, L.Acquire(req.requestId, now));
      if L.Admit(s.window, maximum, req.requestId, now).1 {
        NowVetted(maximum, calls, first, req.requestId, now);
      }
      assert forall r | r in next.waiting :: r in s.waiting || r == req;
    }
  }

  lemma {:induction false} LookUpAllGuarded(
      j: Journal, maximum: nat, calls: seq<L.Request>, first: nat, s: Service,
      before: Journal, t: seq<Effect>, during: seq<Lookup>)
    requires Guarded(j, maximum, calls, first, s)
    ensures Guarded(j, maximum, calls + AsksDuring(before, t, during), first,
                    LookUpAll(s, before, t, maximum, during))
    decreases |during|
  {
    hide Guarded, LookUp, AskFor, Midway;
    if during == [] {
      assert calls + [] == calls;
    } else {
      var l := during[0];
      var ask := AskFor(Midway(before, t, l.at), l.request, l.attached, l.now);
      LookUpGuarded(j, maximum, calls, first, s, Midway(before, t, l.at), l.request, l.attached, l.now);
      var next := LookUp(s, Midway(before, t, l.at), maximum, l.request, l.attached, l.now);
      LookUpAllGuarded(j, maximum, calls + ask, first, next, before, t, during[1..]);
      assert calls + ask + AsksDuring(before, t, during[1..]) == calls + AsksDuring(before, t, during);
    }
  }

  // ----- what is stored -----

  /** A submission stores no command but its own. */
  lemma SubmitStores(env: Env, w: World, req: ApplicationRequest, id: Bytes)
    requires id in Submit(env, w, req).0.journal.commands
    ensures id in w.journal.commands || id == req.requestId
  {
    hide ApplicationFields, Refusal;
  }

  lemma FinishStores(env: Env, s: Step, window: L.Window, req: ApplicationRequest, id: Bytes)
    requires id in Finish(env, s, window, req).0.w.journal.commands
    ensures id in s.w.journal.commands || id == req.requestId
  {
    hide Submit, L.Drop;
    if s.error.None? {
      SubmitStores(env, s.w, req, id);
    }
  }

  lemma TurnStores(env: Env, w: World, input: Input, id: Bytes)
    requires !input.Submitted? && AgentId(id) && id in Turn(env, w, input).w.journal.commands
    ensures id in w.journal.commands
  {
    hide Turn, AgentId;
  }

  lemma GivenBack(env: Env, step: Step, window: L.Window, req: ApplicationRequest)
    ensures Finish(env, step, window, req).1 ==
            if GivesBack(env, step, req) then L.Drop(window, req.requestId) else window
  {
    hide Submit, L.Drop;
  }

  lemma DeliveredGuarded(
      j: Journal, env: Env, maximum: nat, calls: seq<L.Request>, first: nat, s: Service,
      k: nat, heard: bool, during: seq<Lookup>)
    requires Guarded(j, maximum, calls, first, s)
    ensures var event := Delivered(k, heard, during);
            Guarded(j, maximum, calls + Calls(env, s, event), first, Happen(env, maximum, s, event))
  {
    hide L.After, L.Drop, Vetted, AgentId, Finish, LookUpAll, AsksDuring, GivesBack, Done;
    if k < |s.waiting| {
      var req := s.waiting[k];
      var step := Finish(env, s.step, s.window, req).0;
      var left := s.(step := step, waiting := s.waiting[..k] + s.waiting[k + 1..]);
      assert forall r | r in left.waiting :: r in s.waiting;
      assert req in s.waiting;
      forall id | AgentId(id) && id in step.w.journal.commands && id !in j.commands
        ensures Vetted(maximum, calls, first, id)
      {
        FinishStores(env, s.step, s.window, req, id);
      }
      var t := Done(s.step.w, step.w);
      LookUpAllGuarded(j, maximum, calls, first, left, s.step.w.journal, t, during);
      var asks := AsksDuring(s.step.w.journal, t, during);
      var seen := LookUpAll(left, s.step.w.journal, t, maximum, during);
      GivenBack(env, s.step, seen.window, req);
      if heard && GivesBack(env, s.step, req) {
        ReleaseGuarded(j, maximum, calls + asks, first, seen, req.requestId);
        assert calls + asks + [L.Release(req.requestId)] == calls + (asks + [L.Release(req.requestId)]);
      } else {
        assert asks + [] == asks;
      }
    } else {
      assert calls + [] == calls;
    }
  }

  lemma ReleaseGuarded(j: Journal, maximum: nat, calls: seq<L.Request>, first: nat, s: Service, id: Bytes)
    requires Guarded(j, maximum, calls, first, s)
    ensures Guarded(j, maximum, calls + [L.Release(id)], first, s.(window := L.Drop(s.window, id)))
  {
    hide L.After, L.Drop, Vetted, AgentId;
    AfterSnoc(L.NOTHING, maximum, calls, L.Release(id));
    forall other | Vetted(maximum, calls, first, other)
      ensures Vetted(maximum, calls + [L.Release(id)], first, other)
    {
      StillVetted(maximum, calls, [L.Release(id)], first, other);
    }
  }

  lemma TurnedGuarded(
      j: Journal, env: Env, maximum: nat, calls: seq<L.Request>, first: nat, s: Service,
      input: Input, during: seq<Lookup>)
    requires Guarded(j, maximum, calls, first, s)
    ensures var event := Turned(input, during);
            Guarded(j, maximum, calls + Calls(env, s, event), first, Happen(env, maximum, s, event))
  {
    hide L.After, Vetted, AgentId, LookUpAll, AsksDuring, Done, Turn;
    if !input.Submitted? && s.step.error.None? {
      var step := Turn(env, s.step.w, input);
      forall id | AgentId(id) && id in step.w.journal.commands && id !in j.commands
        ensures Vetted(maximum, calls, first, id)
      {
        TurnStores(env, s.step.w, input, id);
      }
      LookUpAllGuarded(j, maximum, calls, first, s.(step := step), s.step.w.journal, Done(s.step.w, step.w), during);
    } else {
      assert calls + [] == calls;
    }
  }

  lemma HappenGuarded(
      j: Journal, env: Env, maximum: nat, calls: seq<L.Request>, first: nat, s: Service, event: Event)
    requires Guarded(j, maximum, calls, first, s)
    ensures Guarded(j, maximum, calls + Calls(env, s, event), first, Happen(env, maximum, s, event))
  {
    hide Guarded, LookUp, LookUpAll, AskFor, AsksDuring, Turn, Finish, Done;
    match event
    case Entered(req, attached, now) =>
      LookUpGuarded(j, maximum, calls, first, s, s.step.w.journal, req, attached, now);
    case Delivered(k, heard, during) => DeliveredGuarded(j, env, maximum, calls, first, s, k, heard, during);
    case Turned(input, during) => TurnedGuarded(j, env, maximum, calls, first, s, input, during);
  }

  lemma {:induction false} ServiceGuarded(
      j: Journal, env: Env, maximum: nat, calls: seq<L.Request>, first: nat, s: Service, events: seq<Event>)
    requires Guarded(j, maximum, calls, first, s)
    ensures Guarded(j, maximum, calls + CallsAll(env, maximum, s, events), first, HappenAll(env, maximum, s, events))
    decreases |events|
  {
    hide Guarded, Calls, Happen;
    if events == [] {
      assert calls + [] == calls;
    } else {
      var next, now := Happen(env, maximum, s, events[0]), Calls(env, s, events[0]);
      HappenGuarded(j, env, maximum, calls, first, s, events[0]);
      ServiceGuarded(j, env, maximum, calls + now, first, next, events[1..]);
      assert calls + now + CallsAll(env, maximum, next, events[1..]) == calls + CallsAll(env, maximum, s, events);
    }
  }

  // ----- one process -----

  /** The service when everything has happened, what a crash interrupts included. */
  function Ended(j: Journal, life: ServiceLife): Service {
    HappenAll(life.env, life.maximum, Completed(j, life), life.torn)
  }

  lemma LifeGuarded(j: Journal, life: ServiceLife, earlier: seq<L.Request>)
    requires life.window == L.After(L.NOTHING, life.maximum, earlier).window
    ensures Guarded(j, life.maximum, earlier + LifeCalls(j, life), |earlier|, Ended(j, life))
  {
    hide Guarded, CallsAll, AsksDuring, HappenAll, LookUpAll, Start, L.After;
    var start := Start(life.env, j);
    var s := Service(start, life.window, [], []);
    var opening := AsksDuring(j, start.w.trace, life.opening);
    var events := CallsAll(life.env, life.maximum, Begun(j, life), life.events);
    var torn := CallsAll(life.env, life.maximum, Completed(j, life), life.torn);
    StartGuarded(j, life, earlier);
    LookUpAllGuarded(j, life.maximum, earlier, |earlier|, s, j, start.w.trace, life.opening);
    ServiceGuarded(j, life.env, life.maximum, earlier + opening, |earlier|, Begun(j, life), life.events);
    ServiceGuarded(j, life.env, life.maximum, earlier + opening + events, |earlier|, Completed(j, life), life.torn);
    assert earlier + opening + events + torn == earlier + (opening + events + torn);
  }

  lemma StartGuarded(j: Journal, life: ServiceLife, earlier: seq<L.Request>)
    requires life.window == L.After(L.NOTHING, life.maximum, earlier).window
    ensures Guarded(j, life.maximum, earlier, |earlier|, Service(Start(life.env, j), life.window, [], []))
  {
    hide Start, L.After, AgentId, Vetted;
    forall id | AgentId(id) && id in Start(life.env, j).w.journal.commands
      ensures id in j.commands
    {
      StartCommands(life.env, j, id);
    }
  }

  /** What the actor has gone through in the end. */
  lemma EndedIsTurns(j: Journal, life: ServiceLife)
    requires Inv(j) && Tidy(j) && LifeFromAgents(life)
    ensures var l := LifeOf(j, life);
            && TurnsAdmissible(l.env, Start(l.env, j), l.inputs)
            && Ended(j, life).step == Turns(l.env, Start(l.env, j), l.inputs)
  {
    hide Inv, Tidy, ServiceInv, HappenAll, InputsOf, Start, Turns, TurnsAdmissible, FromAgents, ByAgents, LookUpAll,
         Begun;
    var begun, done := Begun(j, life), Completed(j, life);
    BegunInv(j, life);
    ServiceKeeps(j, life.env, life.maximum, begun, life.events);
    var torn := InputsOf(life.env, life.maximum, done, life.torn);
    NothingAdmissible(life.env, Ended(j, life).step);
    NoTurns(life.env, Ended(j, life).step);
    ServiceIsTurns(j, life.env, life.maximum, done, life.torn, []);
    assert torn + [] == torn;
    ServiceIsTurns(j, life.env, life.maximum, begun, life.events, torn);
  }

  lemma NoTurns(env: Env, s: Step)
    ensures Turns(env, s, []) == s
  {
  }

  /** The trace of a process is a beginning of what it went through, and in order. */
  lemma LifeIsBeginning(j: Journal, life: ServiceLife)
    requires Inv(j) && Tidy(j) && LifeFromAgents(life)
    ensures LifeTrace(j, LifeOf(j, life)) <= Ended(j, life).step.w.trace
    ensures Fold(j, Ended(j, life).step.w.trace) == Ended(j, life).step.w.journal
    ensures Safe(j, LifeTrace(j, LifeOf(j, life)))
  {
    hide Inv, Tidy, Start, Turns, TurnsAdmissible, Safe, OpsInOrder, LifeOf, Fold, Ended, LifeFromAgents;
    EndedIsTurns(j, life);
    var l := LifeOf(j, life);
    LifeOrderly(j, l);
    StartKeeps(l.env, j);
    TurnsKeep(j, l.env, Start(l.env, j), l.inputs);
  }

  /** Every request that a process writes was admitted in it. */
  lemma SentIsVetted(j: Journal, life: ServiceLife, earlier: seq<L.Request>, i: nat, id: Bytes)
    requires Inv(j) && Tidy(j) && LifeFromAgents(life)
    requires life.window == L.After(L.NOTHING, life.maximum, earlier).window
    requires i < |LifeTrace(j, LifeOf(j, life))| && Sends(j, LifeTrace(j, LifeOf(j, life)), i, id) && AgentId(id)
    ensures Vetted(life.maximum, earlier + LifeCalls(j, life), |earlier|, id)
  {
    hide Inv, Tidy, LifeTrace, LifeOf, LifeCalls, Ended, L.After, Vetted, AgentId, LifeFromAgents, Fold, Carries;
    var t, whole := LifeTrace(j, LifeOf(j, life)), Ended(j, life).step.w.trace;
    LifeIsBeginning(j, life);
    LifeGuarded(j, life, earlier);
    SentIsStored(j, t, i, id);
    NewWhenSent(j, t, i, id);
    assert whole == t + whole[|t|..];
    FoldJoin(j, t, whole[|t|..]);
    FoldKeepsCommands(j, t);
    FoldKeepsCommands(Fold(j, t), whole[|t|..]);
  }

  lemma NewWhenSent(j: Journal, t: seq<Effect>, i: nat, id: Bytes)
    requires Inv(j) && i < |t| && Sends(j, t, i, id)
    ensures id !in j.commands
  {
    hide Inv, Fold, Carries;
    FoldKeepsCommands(j, t[..i - 1]);
  }

  // ----- how many writes -----

  /** The writes of agents' requests that are among these. */
  ghost function WritesOf(j: Journal, t: seq<Effect>, ids: set<Bytes>): set<int> {
    set i | 0 <= i < |t| && IsFreshWrite(t[i]) && JournaledBefore(j, t, i)
            && AgentId(t[i - 1].op.outbound.requestId) && t[i - 1].op.outbound.requestId in ids
  }

  lemma {:induction false} OneWriteEach(j: Journal, t: seq<Effect>, writes: set<int>, ids: set<Bytes>)
    requires Inv(j) && Safe(j, t)
    requires forall i | i in writes ::
               0 <= i < |t| && IsFreshWrite(t[i]) && JournaledBefore(j, t, i) && t[i - 1].op.outbound.requestId in ids
    ensures |writes| <= |ids|
    decreases |writes|
  {
    hide Inv, Safe, Fold, Carries, FreshCommit, PossDup;
    if i :| i in writes {
      var id := t[i - 1].op.outbound.requestId;
      forall k | k in writes - {i}
        ensures t[k - 1].op.outbound.requestId in ids - {id}
      {
        if k < i {
          RequestWrittenOnce(j, t, k, i);
        } else {
          RequestWrittenOnce(j, t, i, k);
        }
      }
      OneWriteEach(j, t, writes - {i}, ids - {id});
    } else {
      assert writes == {};
    }
  }

  /** The write at `i` is one of the session's own, or of a request admitted from the `first` call on. */
  ghost predicate WriteVetted(j: Journal, t: seq<Effect>, i: nat, maximum: nat, calls: seq<L.Request>, first: nat)
    requires i < |t|
  {
    && JournaledBefore(j, t, i)
    && var id := t[i - 1].op.outbound.requestId; AgentId(id) ==> Vetted(maximum, calls, first, id)
  }

  lemma VettedWrite(j: Journal, t: seq<Effect>, i: nat, maximum: nat, calls: seq<L.Request>, first: nat)
    requires i < |t| && IsFreshWrite(t[i]) && JournaledBefore(j, t, i)
    requires AgentId(t[i - 1].op.outbound.requestId) ==> Vetted(maximum, calls, first, t[i - 1].op.outbound.requestId)
    ensures WriteVetted(j, t, i, maximum, calls, first)
  {
  }

  /** One process whose limiter has gone through `earlier` calls, with clocks that never go back: every fresh write
      is a message of the session's own or of a request that the limiter admitted in this process. The writes of
      requests admitted in one second are at most twice the maximum and those whose grants were given back; at
      most the maximum and those when no request asks again for what is still held. */
  lemma WritesBound(j: Journal, life: ServiceLife, earlier: seq<L.Request>, from: nat)
    requires Inv(j) && Tidy(j) && LifeFromAgents(life)
    requires life.window == L.After(L.NOTHING, life.maximum, earlier).window
    requires L.Timed(earlier + LifeCalls(j, life), 0)
    ensures var t := LifeTrace(j, LifeOf(j, life));
            var all := earlier + LifeCalls(j, life);
            var writes := WritesOf(j, t, AdmittedIn(life.maximum, all, from));
            var returned := |ReturnedIn(life.maximum, all, from)|;
            && (forall i | 0 <= i < |t| && IsFreshWrite(t[i]) ::
                  WriteVetted(j, t, i, life.maximum, all, |earlier|))
            && |writes| <= 2 * life.maximum + returned
            && (NeverAsksAgain(life.maximum, all) ==> |writes| <= life.maximum + returned)
  {
    hide *;
    var t, all := LifeTrace(j, LifeOf(j, life)), earlier + LifeCalls(j, life);
    LifeIsBeginning(j, life);
    forall i | 0 <= i < |t| && IsFreshWrite(t[i])
      ensures WriteVetted(j, t, i, life.maximum, all, |earlier|)
    {
      FreshIsJournaled(j, t, i);
      if AgentId(t[i - 1].op.outbound.requestId) {
        SentIsVetted(j, life, earlier, i, t[i - 1].op.outbound.requestId);
      }
      VettedWrite(j, t, i, life.maximum, all, |earlier|);
    }
    var admitted := AdmittedIn(life.maximum, all, from);
    WritesOfAre(j, t, admitted);
    OneWriteEach(j, t, WritesOf(j, t, admitted), admitted);
    AdmittedBound(life.maximum, all, from);
    UnionSize(StandingIn(life.maximum, all, from), ReturnedIn(life.maximum, all, from));
    SubsetBound(ReturnedIn(life.maximum, all, from) - StandingIn(life.maximum, all, from),
                ReturnedIn(life.maximum, all, from));
    if NeverAsksAgain(life.maximum, all) {
      NeverAskedWithin(life.maximum, all, from);
    }
  }

  lemma FreshIsJournaled(j: Journal, t: seq<Effect>, i: nat)
    requires Safe(j, t) && i < |t| && IsFreshWrite(t[i])
    ensures JournaledBefore(j, t, i) && 0 < i && t[i - 1].Did? && t[i - 1].op.CommitOutbound?
    ensures Sends(j, t, i, t[i - 1].op.outbound.requestId)
  {
    hide Fold, Carries, FreshCommit, PossDup;
  }

  lemma WritesOfAre(j: Journal, t: seq<Effect>, ids: set<Bytes>)
    ensures forall i | i in WritesOf(j, t, ids) ::
              0 <= i < |t| && IsFreshWrite(t[i]) && JournaledBefore(j, t, i) && t[i - 1].op.outbound.requestId in ids
  {
    hide Fold, Carries, FreshCommit, PossDup, AgentId;
  }
}
