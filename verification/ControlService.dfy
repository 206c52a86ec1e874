// The application branch of the control service as it runs, proved against the functions of `Admission`.

module Control {
  import opened Text
  import opened Store
  import opened Session
  import opened Actors
  import opened Admission
  import L = Limiter

  class ControlService {
    const actor: SessionActor
    const limiter: L.SlidingWindowRateLimiter
    /** Why the actor has stopped, if it has. */
    var stopped: Option<SessionError>

    constructor (actor: SessionActor, limiter: L.SlidingWindowRateLimiter)
      ensures this.actor == actor && this.limiter == limiter && stopped == None
    {
      this.actor, this.limiter, stopped := actor, limiter, None;
    }

    /** Look the request up and ask the limiter; None means that the request goes to the actor. */
    method EnterApplication(req: ApplicationRequest, attached: bool, now: nat) returns (r: Option<Reply>)
      modifies limiter
      ensures (limiter.State(), r) ==
              Enter(actor.store.State(), old(limiter.State()), limiter.maximum, attached, req, now)
    {
      var existing := actor.store.LoadCommand(req.requestId);
      if existing.Some? {
        if existing.value.fingerprint != req.fingerprint {
          return Some(Conflict);
        }
        return Some(Answered(existing.value));
      }
      if !attached {
        return Some(Stopped);
      }
      var ok := limiter.TryAcquire(req.requestId, now);
      if !ok {
        return Some(RateLimited);
      }
      r := None;
    }

    method FinishApplication(req: ApplicationRequest) returns (r: Reply)
      modifies this, actor, actor.store, limiter
      ensures (Step(actor.State(), stopped), limiter.State(), r) ==
              Finish(actor.Environment(), Step(old(actor.State()), old(stopped)), old(limiter.State()), req)
    {
      hide Submit;
      if stopped.Some? {
        limiter.Release(req.requestId);
        return Stopped;
      }
      var reply := actor.SubmitApplication(req);
      match reply {
        case Ok(command) => r := Answered(command);
        case Err(e) =>
          if e.NotEstablished? {
            limiter.Release(req.requestId);
          }
          if Fatal(e) {
            stopped := Some(e);
          }
          r := Failed(e);
      }
    }

    /** A whole execution with nothing in between: the service after both events. */
    method ExecuteApplication(req: ApplicationRequest, attached: bool, now: nat) returns (r: Reply)
      modifies this, actor, actor.store, limiter
      ensures var before := Service(Step(old(actor.State()), old(stopped)), old(limiter.State()), [], []);
              Service(Step(actor.State(), stopped), limiter.State(), [], [Exchange(req, r)]) ==
              HappenAll(actor.Environment(), limiter.maximum, before,
                        [Entered(req, attached, now), Delivered(0, true, [])])
    {
      hide L.Admit, L.Drop, Submit, Enter, Finish;
      ghost var env, before := actor.Environment(), Service(Step(actor.State(), stopped), limiter.State(), [], []);
      TwoHappen(env, limiter.maximum, before, Entered(req, attached, now), Delivered(0, true, []));
      var early := EnterApplication(req, attached, now);
      if early.Some? {
        return early.value;
      }
      r := FinishApplication(req);
    }
  }

  lemma TwoHappen(env: Env, maximum: nat, s: Service, a: Event, b: Event)
    ensures HappenAll(env, maximum, s, [a, b]) == Happen(env, maximum, Happen(env, maximum, s, a), b)
  {
    hide Happen;
    var next := Happen(env, maximum, s, a);
    assert [a, b][1..] == [b] && [b][1..] == [];
    assert HappenAll(env, maximum, next, [b]) == HappenAll(env, maximum, Happen(env, maximum, next, b), []);
  }
}
