// The realignment inside the commit of a message is never taken: whenever a message is committed, its
// number is the expected one.

module Realign {
  import opened Text
  import opened Codec
  import opened Messages
  import opened Store
  import opened Session
  import opened SessionSafety
  import opened SessionInvariant

  /** The commit without its realignment: any other number than the expected one is refused. */
  function CommitStrict(env: Env, w: World, m: Message): (r: Step)
    ensures r.w.actor.gap == w.actor.gap
  {
    match NumberAt(m, 34)
    case None => CommitExpected(env, w, m)
    case Some(n) =>
      if n != w.actor.nextIn then Step(w, Some(Protocol(UnexpectedSequence(w.actor.nextIn, n))))
      else CommitExpected(env, w, m)
  }

  function DrainStrict(env: Env, w: World): Step
    decreases |w.actor.gap|
  {
    if w.actor.nextIn !in w.actor.gap then
      Step(w.(actor := w.actor.(gap := StillAhead(w.actor.gap, w.actor.nextIn))), None)
    else
      var m := w.actor.gap[w.actor.nextIn];
      match EnvelopeFault(env.config, m)
      case Some(fault) => Step(Taken(w), Some(Protocol(fault)))
      case None =>
        var r := CommitStrict(env, Taken(w), m);
        if r.error.Some? then r else DrainStrict(env, r.w)
  }

  function AdvanceStrict(env: Env, w: World, m: Message): Step {
    var r := CommitStrict(env, w, m);
    if r.error.Some? then r
    else
      var drained := DrainStrict(env, r.w);
      if drained.error.Some? then drained
      else if drained.w.actor.phase == Recovering && drained.w.actor.gap == map[] then
        drained.(w := drained.w.(actor := drained.w.actor.(phase := Established)))
      else drained
  }

  function HandleStrict(env: Env, w: World, m: Message): Step {
    match EnvelopeFault(env.config, m)
    case Some(fault) => Step(w, Some(Protocol(fault)))
    case None =>
      match NumberAt(m, 34)
      case None => Step(w, Some(Protocol(NumberFault(m, 34))))
      case Some(n) =>
        if n > w.actor.nextIn then Buffer(env, w, m, n)
        else if n == w.actor.nextIn then AdvanceStrict(env, w, m)
        else if PossDup(m) then
          Step(w, match PossDupFault(w.journal, m, n) case Some(f) => Some(Protocol(f)) case None => None)
        else if w.actor.phase != LogonSent then Step(w, Some(Protocol(UnexpectedSequence(w.actor.nextIn, n))))
        else
          var synced := Resync(w, n);
          if synced.error.Some? then synced else AdvanceStrict(env, synced.w, m)
  }

  lemma {:induction false} DrainNeverRealigns(j: Journal, env: Env, w: World)
    requires Kept(j, w) && GapGood(env.config, w.actor.gap)
    ensures DrainStrict(env, w) == Drain(env, w)
    decreases |w.actor.gap|
  {
    hide Traced, CommitExpected, EnvelopeFault, Taken, GapGood, NumberAt;
    if w.actor.nextIn in w.actor.gap {
      TakenGood(env, w);
      var m := w.actor.gap[w.actor.nextIn];
      CommitExpectedKeeps(j, env, Taken(w), m);
      var r := CommitExpected(env, Taken(w), m);
      if r.error.None? {
        DrainNeverRealigns(j, env, r.w);
      }
    }
  }

  lemma AdvanceNeverRealigns(j: Journal, env: Env, w: World, m: Message)
    requires Kept(j, w) && GapGood(env.config, w.actor.gap) && NumberAt(m, 34) == Some(w.actor.nextIn)
    ensures AdvanceStrict(env, w, m) == Advance(env, w, m)
  {
    hide Traced, CommitExpected, Drain, DrainStrict, GapGood, NumberAt;
    CommitExpectedKeeps(j, env, w, m);
    var r := CommitExpected(env, w, m);
    if r.error.None? {
      DrainNeverRealigns(j, env, r.w);
    }
  }

  /** An actor that keeps its invariant does with every message what it would do without the realignment in
      its commit. Only the resynchronisation at logon, before the commit, ever moves the expected number. */
  lemma HandleNeverRealigns(j: Journal, env: Env, w: World, m: Message)
    requires Good(j, env, w)
    ensures HandleStrict(env, w, m) == Handle(env, w, m)
  {
    hide Traced, EnvelopeFault, GapGood, Buffer, Advance, AdvanceStrict, PossDupFault, Resync, PossDup, NumberAt;
    if EnvelopeFault(env.config, m).None? && NumberAt(m, 34).Some? {
      var n := NumberAt(m, 34).value;
      if n == w.actor.nextIn {
        AdvanceNeverRealigns(j, env, w, m);
      } else if n < w.actor.nextIn {
        ResyncKeeps(j, w, n);
        var synced := Resync(w, n);
        if synced.error.None? {
          AdvanceNeverRealigns(j, env, synced.w, m);
        }
      }
    }
  }
}
