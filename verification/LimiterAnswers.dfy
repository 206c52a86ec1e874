// What the limiter's positive answers amount to. A request that repeats within a second of its grant is
// admitted again on that grant, so answers can be up to twice as dense as grants.

module LimiterAnswers {
  import opened Text
  import opened Limiter

  /** The limiter before the i-th request of a list. */
  function Before(maximum: nat, requests: seq<Request>, i: nat): History
    requires i <= |requests|
  {
    After(NOTHING, maximum, requests[..i])
  }

  /** The i-th request is an acquisition, and it is answered positively. */
  predicate Admitted(maximum: nat, requests: seq<Request>, i: nat)
    requires i < |requests|
  {
    requests[i].Acquire? && Admit(Before(maximum, requests, i).window, maximum, requests[i].id, requests[i].now).1
  }

  /** The latest grant of a request. */
  function GrantOf(accepted: seq<Grant>, id: Bytes): Grant {
    if accepted == [] then Grant(0, id)
    else
      var last := accepted[|accepted| - 1];
      if last.id == id then last else GrantOf(accepted[..|accepted| - 1], id)
  }

  /** The grant that a positive answer rests on: an earlier one of the same request, or a new one. */
  function RestsOn(maximum: nat, requests: seq<Request>, i: nat): Grant
    requires i < |requests| && requests[i].Acquire?
  {
    var (id, now) := (requests[i].id, requests[i].now);
    GrantOf(Admit(Before(maximum, requests, i).window, maximum, id, now).0.accepted, id)
  }

  /** No release from the i-th request on finds the grant in the queue. */
  ghost predicate NotReleased(maximum: nat, requests: seq<Request>, i: nat, g: Grant)
    requires i <= |requests|
  {
    forall k | i <= k < |requests| && requests[k] == Release(g.id) ::
      g !in Before(maximum, requests, k).window.accepted
  }

  /** Every grant that was not released while held. */
  function Log(h: History): seq<Grant> { h.past + h.window.accepted }

  predicate InSecond(requests: seq<Request>, i: nat, from: nat)
    requires i < |requests|
  {
    requests[i].Acquire? && from <= requests[i].now < from + SECOND
  }

  /** The requests admitted in the second that begins at `from`. */
  ghost function AdmittedIn(maximum: nat, requests: seq<Request>, from: nat): set<Bytes> {
    set i | 0 <= i < |requests| && InSecond(requests, i, from) && Admitted(maximum, requests, i) :: requests[i].id
  }

  /** The i-th request is admitted, and the grant it rests on is not given back afterwards. */
  ghost predicate Stands(maximum: nat, requests: seq<Request>, i: nat)
    requires i < |requests|
  {
    Admitted(maximum, requests, i) && NotReleased(maximum, requests, i, RestsOn(maximum, requests, i))
  }

  /** Those of them whose grants are not given back. */
  ghost function StandingIn(maximum: nat, requests: seq<Request>, from: nat): set<Bytes> {
    set i | 0 <= i < |requests| && InSecond(requests, i, from) && Stands(maximum, requests, i) :: requests[i].id
  }

  /** Those of them whose grants are given back later. */
  ghost function ReturnedIn(maximum: nat, requests: seq<Request>, from: nat): set<Bytes> {
    set i | 0 <= i < |requests| && InSecond(requests, i, from) && Admitted(maximum, requests, i)
            && !Stands(maximum, requests, i) :: requests[i].id
  }

  /** The grants of the second that begins at `from`. */
  function Within(grants: seq<Grant>, from: nat): (w: seq<Grant>)
    ensures |w| == CountIn(grants, from)
    ensures forall g :: g in w <==> g in grants && from <= g.at < from + SECOND
  {
    if grants == [] then []
    else
      var front, last := grants[..|grants| - 1], grants[|grants| - 1];
      assert grants == front + [last];
      Within(front, from) + if from <= last.at < from + SECOND then [last] else []
  }

  /** The requests that are granted in that second. */
  ghost function GrantedIn(maximum: nat, requests: seq<Request>, from: nat): set<Bytes> {
    Ids(Within(Log(After(NOTHING, maximum, requests)), from))
  }

  /** The i-th request asks again for what the limiter holds a grant for, made before `from` and never given
      back. */
  ghost predicate Repeats(maximum: nat, requests: seq<Request>, i: nat, from: nat)
    requires i < |requests|
  {
    && requests[i].Acquire?
    && var held := Evict(Before(maximum, requests, i).window, requests[i].now);
       && requests[i].id in held.ids
       && var g := GrantOf(held.accepted, requests[i].id);
          g.at < from && NotReleased(maximum, requests, i, g)
  }

  /** The requests that repeat in that second on a grant from before it. */
  ghost function RepeatedIn(maximum: nat, requests: seq<Request>, from: nat): set<Bytes> {
    set i | 0 <= i < |requests| && InSecond(requests, i, from) && Repeats(maximum, requests, i, from) ::
      requests[i].id
  }

  // ----- the limiter along a list of requests -----

  lemma {:induction false} AfterSnoc(h: History, maximum: nat, requests: seq<Request>, last: Request)
    ensures After(h, maximum, requests + [last]) == Next(After(h, maximum, requests), maximum, last)
    decreases |requests|
  {
    hide Next;
    if requests == [] {
      assert [last][1..] == [] && requests + [last] == [last];
    } else {
      assert (requests + [last])[0] == requests[0] && (requests + [last])[1..] == requests[1..] + [last];
      AfterSnoc(Next(h, maximum, requests[0]), maximum, requests[1..], last);
    }
  }

  lemma BeforeNext(maximum: nat, requests: seq<Request>, i: nat)
    requires i < |requests|
    ensures Before(maximum, requests, i + 1) == Next(Before(maximum, requests, i), maximum, requests[i])
  {
    hide Next;
    assert requests[..i + 1] == requests[..i] + [requests[i]];
    AfterSnoc(NOTHING, maximum, requests[..i], requests[i]);
  }

  /** In order, and nothing in the queue had expired when the limiter was last asked. */
  ghost predicate Running(h: History, maximum: nat) {
    Bounded(h, maximum) && forall g | g in h.window.accepted :: !Expired(g, h.now)
  }

  lemma NextRuns(h: History, maximum: nat, request: Request)
    requires Running(h, maximum) && (request.Acquire? ==> h.now <= request.now)
    ensures Running(Next(h, maximum, request), maximum)
  {
    match request
    case Acquire(id, now) =>
      AcquireBounded(h, maximum, id, now);
      hide Bounded;
      assert Coherent(h.window, h.now) by { RunningCoherent(h, maximum); }
      hide Evict, Coherent, Gone;
      EvictCoherent(h.window, h.now, now);
    case Release(id) =>
      ReleaseBounded(h, maximum, id);
      hide Bounded;
      RetainIs(h.window.accepted, id);
  }

  lemma RunningCoherent(h: History, maximum: nat)
    requires Bounded(h, maximum)
    ensures Coherent(h.window, h.now)
  {
  }

  lemma {:induction false} AfterRuns(h: History, maximum: nat, requests: seq<Request>)
    requires Running(h, maximum) && Timed(requests, h.now)
    ensures Running(After(h, maximum, requests), maximum)
    decreases |requests|
  {
    hide Running, Next;
    if requests != [] {
      NextRuns(h, maximum, requests[0]);
      match requests[0] {
        case Acquire(id, now) => NextNow(h, maximum, id, now);
        case Release(id) => NextSameNow(h, maximum, id);
      }
      AfterRuns(Next(h, maximum, requests[0]), maximum, requests[1..]);
    }
  }

  /** When the limiter was last asked. */
  function Latest(requests: seq<Request>, from: nat): nat
    decreases |requests|
  {
    if requests == [] then from
    else Latest(requests[1..], if requests[0].Acquire? then requests[0].now else from)
  }

  lemma {:induction false} TimedCut(requests: seq<Request>, from: nat, i: nat)
    requires Timed(requests, from) && i <= |requests|
    ensures Timed(requests[..i], from)
    ensures i < |requests| && requests[i].Acquire? ==> Latest(requests[..i], from) <= requests[i].now
    decreases i
  {
    if i > 0 {
      assert requests[..i][1..] == requests[1..][..i - 1] && requests[..i][0] == requests[0];
      TimedCut(requests[1..], if requests[0].Acquire? then requests[0].now else from, i - 1);
    }
  }

  lemma {:induction false} LatestIsNow(h: History, maximum: nat, requests: seq<Request>)
    ensures After(h, maximum, requests).now == Latest(requests, h.now)
    decreases |requests|
  {
    hide Next;
    if requests != [] {
      match requests[0] {
        case Acquire(id, now) => NextNow(h, maximum, id, now);
        case Release(id) => NextSameNow(h, maximum, id);
      }
      LatestIsNow(Next(h, maximum, requests[0]), maximum, requests[1..]);
    }
  }

  /** Along a timed list the limiter is always in order, and no acquisition comes before it was last asked. */
  lemma BeforeRuns(maximum: nat, requests: seq<Request>, i: nat)
    requires Timed(requests, 0) && i <= |requests|
    ensures Running(Before(maximum, requests, i), maximum)
    ensures i < |requests| && requests[i].Acquire? ==> Before(maximum, requests, i).now <= requests[i].now
  {
    hide Running, After;
    NothingRuns(maximum);
    TimedCut(requests, 0, i);
    AfterRuns(NOTHING, maximum, requests[..i]);
    LatestIsNow(NOTHING, maximum, requests[..i]);
  }

  lemma NothingRuns(maximum: nat)
    ensures Running(NOTHING, maximum)
  {
    NothingBounded(maximum);
  }

  // ----- grants and answers -----

  lemma {:induction false} GrantOfHeld(accepted: seq<Grant>, id: Bytes)
    requires id in Ids(accepted)
    ensures GrantOf(accepted, id) in accepted && GrantOf(accepted, id).id == id
  {
    var last, front := accepted[|accepted| - 1], accepted[..|accepted| - 1];
    if last.id != id {
      var g :| g in accepted && g.id == id;
      assert accepted == front + [last];
      assert g in front;
      GrantOfHeld(front, id);
    }
  }

  lemma GrantOfFresh(accepted: seq<Grant>, g: Grant)
    ensures GrantOf(accepted + [g], g.id) == g
  {
  }

  /** An admitted request rests on a grant of less than a second before, held afterwards: one that the limiter
      holds already when it repeats, and a new one otherwise. */
  lemma AdmittedRests(maximum: nat, requests: seq<Request>, i: nat)
    requires Timed(requests, 0) && i < |requests| && Admitted(maximum, requests, i)
    ensures var (id, now) := (requests[i].id, requests[i].now);
            var held := Evict(Before(maximum, requests, i).window, now);
            var g := RestsOn(maximum, requests, i);
            && g.id == id && g.at <= now < g.at + SECOND
            && g in Before(maximum, requests, i + 1).window.accepted
            && (if id in held.ids then g == GrantOf(held.accepted, id) else g.at == now)
  {
    hide Evict, Before, GrantOf, Running;
    BeforeRuns(maximum, requests, i);
    BeforeNext(maximum, requests, i);
    var h := Before(maximum, requests, i);
    var (id, now) := (requests[i].id, requests[i].now);
    AdmitRests(h, maximum, id, now);
  }

  lemma AdmitRests(h: History, maximum: nat, id: Bytes, now: nat)
    requires Running(h, maximum) && h.now <= now && Admit(h.window, maximum, id, now).1
    ensures var held := Evict(h.window, now);
            var after := Admit(h.window, maximum, id, now).0.accepted;
            var g := GrantOf(after, id);
            && g.id == id && g.at <= now < g.at + SECOND && g in after
            && (if id in held.ids then g == GrantOf(held.accepted, id) else g.at == now)
  {
    hide Evict, GrantOf, Ids;
    RunningCoherent(h, maximum);
    hide Running;
    EvictCoherent(h.window, h.now, now);
    var held := Evict(h.window, now);
    if id in held.ids {
      GrantOfHeld(held.accepted, id);
    } else {
      GrantOfFresh(held.accepted, Grant(now, id));
    }
  }

  /** A grant that is held or past stays so until a release finds it in the queue. */
  lemma LogStep(h: History, maximum: nat, request: Request, g: Grant)
    requires Running(h, maximum) && (request.Acquire? ==> h.now <= request.now)
    ensures g in Log(h) && (request == Release(g.id) ==> g !in h.window.accepted) ==>
              g in Log(Next(h, maximum, request))
    ensures g in Log(Next(h, maximum, request)) ==>
              g in Log(h) || (request.Acquire? && g == Grant(request.now, request.id)
                              && Admit(h.window, maximum, request.id, request.now).1
                              && g == GrantOf(Next(h, maximum, request).window.accepted, g.id))
    ensures g in Log(Next(h, maximum, request)) && request == Release(g.id) ==> g !in h.window.accepted
  {
    match request
    case Acquire(id, now) =>
      assert forall p | p in h.past :: Expired(p, h.now);
      hide Running, Evict, Gone, GrantOf;
      SweptSplits(h, now);
      var swept := Evict(h.window, now);
      assert Log(h) == (h.past + Gone(h.window.accepted, now)) + swept.accepted;
      GrantOfFresh(swept.accepted, Grant(now, id));
    case Release(id) =>
      RetainIs(h.window.accepted, id);
      hide Retain;
  }

  /** A grant is still in the log at the end exactly as long as no release has found it. */
  lemma {:induction false} LogKeeps(maximum: nat, requests: seq<Request>, i: nat, k: nat, g: Grant)
    requires Timed(requests, 0) && i <= k <= |requests| && g in Log(Before(maximum, requests, i))
    requires NotReleased(maximum, requests, i, g)
    ensures g in Log(Before(maximum, requests, k))
    decreases k - i
  {
    hide Before, Running, Log;
    if i < k {
      LogKeeps(maximum, requests, i, k - 1, g);
      BeforeRuns(maximum, requests, k - 1);
      BeforeNext(maximum, requests, k - 1);
      LogStep(Before(maximum, requests, k - 1), maximum, requests[k - 1], g);
    }
  }

  /** The i-th request is the one that `g` was granted to. */
  ghost predicate Grants(maximum: nat, requests: seq<Request>, i: nat, g: Grant)
    requires i < |requests|
  {
    requests[i] == Acquire(g.id, g.at) && Stands(maximum, requests, i) && RestsOn(maximum, requests, i) == g
  }

  /** Every grant in the log was made to a request that stands. */
  lemma {:induction false} LogIsGranted(maximum: nat, requests: seq<Request>, k: nat, g: Grant) returns (i: nat)
    requires Timed(requests, 0) && k <= |requests| && g in Log(Before(maximum, requests, k))
    requires NotReleased(maximum, requests, k, g)
    ensures i < |requests| && Grants(maximum, requests, i, g)
    decreases k
  {
    hide Before, Running, Log, Admit, GrantOf, NotReleased;
    if k == 0 {
      NothingLogged(maximum, requests, g);
      assert false;
    } else {
      BeforeRuns(maximum, requests, k - 1);
      BeforeNext(maximum, requests, k - 1);
      LogStep(Before(maximum, requests, k - 1), maximum, requests[k - 1], g);
      NotReleasedSooner(maximum, requests, k, g);
      if g in Log(Before(maximum, requests, k - 1)) {
        i := LogIsGranted(maximum, requests, k - 1, g);
      } else {
        i := k - 1;
        assert RestsOn(maximum, requests, i) == g by { NextIsAdmit(maximum, requests, i); }
      }
    }
  }

  lemma NextIsAdmit(maximum: nat, requests: seq<Request>, i: nat)
    requires i < |requests| && requests[i].Acquire?
    ensures Before(maximum, requests, i + 1).window ==
            Admit(Before(maximum, requests, i).window, maximum, requests[i].id, requests[i].now).0
  {
    hide Before, Admit;
    BeforeNext(maximum, requests, i);
  }

  lemma NothingLogged(maximum: nat, requests: seq<Request>, g: Grant)
    ensures g !in Log(Before(maximum, requests, 0))
  {
  }

  lemma NotReleasedSooner(maximum: nat, requests: seq<Request>, k: nat, g: Grant)
    requires 0 < k <= |requests| && NotReleased(maximum, requests, k, g)
    requires requests[k - 1] == Release(g.id) ==> g !in Before(maximum, requests, k - 1).window.accepted
    ensures NotReleased(maximum, requests, k - 1, g)
  {
    hide Before;
  }

  // ----- what stands in a second -----

  /** What stands in a second is what is granted in it and what repeats in it on a grant from before. */
  lemma StandingExactly(maximum: nat, requests: seq<Request>, from: nat)
    requires Timed(requests, 0)
    ensures StandingIn(maximum, requests, from) ==
            GrantedIn(maximum, requests, from) + RepeatedIn(maximum, requests, from)
  {
    hide Before, Within, RestsOn, Admit, Evict, GrantOf, NotReleased, Log;
    var granted, repeated := GrantedIn(maximum, requests, from), RepeatedIn(maximum, requests, from);
    forall i | 0 <= i < |requests| && InSecond(requests, i, from) && Stands(maximum, requests, i)
      ensures requests[i].id in granted + repeated
    {
      StandingIsOneOf(maximum, requests, i, from);
    }
    forall i | 0 <= i < |requests| && InSecond(requests, i, from) && Repeats(maximum, requests, i, from)
      ensures Stands(maximum, requests, i)
    {
      RepeatStands(maximum, requests, i, from);
    }
    forall id | id in granted
      ensures id in StandingIn(maximum, requests, from)
    {
      var i := GrantedStands(maximum, requests, from, id);
    }
  }

  lemma StandingIsOneOf(maximum: nat, requests: seq<Request>, i: nat, from: nat)
    requires Timed(requests, 0) && i < |requests| && InSecond(requests, i, from) && Stands(maximum, requests, i)
    ensures Repeats(maximum, requests, i, from) || requests[i].id in GrantedIn(maximum, requests, from)
  {
    hide Before, Within, RestsOn, Admit, Evict, GrantOf, NotReleased, Running;
    AdmittedRests(maximum, requests, i);
    var g := RestsOn(maximum, requests, i);
    if g.at >= from {
      NotReleasedLater(maximum, requests, i, g);
      LogKeeps(maximum, requests, i + 1, |requests|, g);
      AllBefore(maximum, requests);
    }
  }

  lemma AllBefore(maximum: nat, requests: seq<Request>)
    ensures Before(maximum, requests, |requests|) == After(NOTHING, maximum, requests)
  {
    assert requests[..|requests|] == requests;
  }

  lemma NotReleasedLater(maximum: nat, requests: seq<Request>, i: nat, g: Grant)
    requires i < |requests| && NotReleased(maximum, requests, i, g)
    ensures NotReleased(maximum, requests, i + 1, g)
  {
    hide Before;
  }

  lemma RepeatStands(maximum: nat, requests: seq<Request>, i: nat, from: nat)
    requires Timed(requests, 0) && i < |requests| && Repeats(maximum, requests, i, from)
    ensures Stands(maximum, requests, i)
  {
    hide Before, Evict, GrantOf, NotReleased;
    AdmittedRests(maximum, requests, i);
  }

  lemma GrantedStands(maximum: nat, requests: seq<Request>, from: nat, id: Bytes) returns (i: nat)
    requires Timed(requests, 0) && id in GrantedIn(maximum, requests, from)
    ensures i < |requests| && InSecond(requests, i, from) && Stands(maximum, requests, i) && requests[i].id == id
  {
    hide Before, Within, Stands, RestsOn, Log, After;
    var g :| g in Within(Log(After(NOTHING, maximum, requests)), from) && g.id == id;
    AllBefore(maximum, requests);
    i := LogIsGranted(maximum, requests, |requests|, g);
  }

  // ----- how many -----

  lemma {:induction false} IdsSize(grants: seq<Grant>)
    ensures |Ids(grants)| <= |grants|
  {
    if grants != [] {
      var front, last := grants[..|grants| - 1], grants[|grants| - 1];
      IdsSize(front);
      assert grants == front + [last];
      IdsAppend(front, last);
    }
  }

  lemma SubsetBound(a: set<Bytes>, b: set<Bytes>)
    requires a <= b
    ensures |a| <= |b|
  {
    assert b == a + (b - a);
  }

  lemma UnionSize(a: set<Bytes>, b: set<Bytes>)
    ensures |a + b| == |a| + |b - a|
  {
    assert a + b == a + (b - a);
  }

  /** Repeats rest on grants of the second before. */
  lemma RepeatsRestBefore(maximum: nat, requests: seq<Request>, from: nat, before: nat)
    requires Timed(requests, 0) && before == if from >= SECOND then from - SECOND else 0
    ensures RepeatedIn(maximum, requests, from) <= Ids(Within(Log(After(NOTHING, maximum, requests)), before))
  {
    hide Before, Within, RestsOn, Admit, Evict, GrantOf, NotReleased, Running, Log;
    var log := Log(After(NOTHING, maximum, requests));
    forall i | 0 <= i < |requests| && InSecond(requests, i, from) && Repeats(maximum, requests, i, from)
      ensures requests[i].id in Ids(Within(log, before))
    {
      RepeatStands(maximum, requests, i, from);
      AdmittedRests(maximum, requests, i);
      var g := RestsOn(maximum, requests, i);
      NotReleasedLater(maximum, requests, i, g);
      HeldIsLogged(Before(maximum, requests, i + 1), g);
      LogKeeps(maximum, requests, i + 1, |requests|, g);
      AllBefore(maximum, requests);
      assert g in Within(log, before);
    }
  }

  lemma HeldIsLogged(h: History, g: Grant)
    requires g in h.window.accepted
    ensures g in Log(h)
  {
  }

  /** Grants and repeats of a second are at most `maximum` each. */
  lemma PartsBound(maximum: nat, requests: seq<Request>, from: nat)
    requires Timed(requests, 0)
    ensures |GrantedIn(maximum, requests, from)| <= maximum && |RepeatedIn(maximum, requests, from)| <= maximum
  {
    hide Within, Bounded, RepeatedIn, Ids, Timed;
    var before := if from >= SECOND then from - SECOND else 0;
    var h := After(NOTHING, maximum, requests);
    NothingBounded(maximum);
    SlidingWindowBound(NOTHING, maximum, requests);
    hide After;
    BoundedAt(h, maximum, from);
    BoundedAt(h, maximum, before);
    IdsSize(Within(Log(h), from));
    IdsSize(Within(Log(h), before));
    RepeatsRestBefore(maximum, requests, from, before);
    SubsetBound(RepeatedIn(maximum, requests, from), Ids(Within(Log(h), before)));
  }

  lemma BoundedAt(h: History, maximum: nat, from: nat)
    requires Bounded(h, maximum)
    ensures |Within(Log(h), from)| <= maximum
  {
    assert CountIn(h.past + h.window.accepted, from) <= maximum;
  }

  /** From a new limiter on, whatever is acquired and released at times that never go back: the requests that
      stand in a half-open second are those granted in it, at most `maximum`, and those that ask again in it on
      a grant from before, at most `maximum` too. So at most twice the maximum stand, and at most the maximum
      exactly when those that only ask again find room beside the granted ones. With the requests whose grants
      are given back that is all that is admitted. */
  lemma AdmittedBound(maximum: nat, requests: seq<Request>, from: nat)
    requires Timed(requests, 0)
    ensures var granted, repeated := GrantedIn(maximum, requests, from), RepeatedIn(maximum, requests, from);
            var standing := StandingIn(maximum, requests, from);
            && standing == granted + repeated && |granted| <= maximum && |repeated| <= maximum
            && |standing| <= 2 * maximum
            && (|standing| <= maximum <==> |repeated - granted| <= maximum - |granted|)
    ensures AdmittedIn(maximum, requests, from) ==
            StandingIn(maximum, requests, from) + ReturnedIn(maximum, requests, from)
  {
    hide GrantedIn, RepeatedIn, Timed, Admitted, NotReleased;
    PartsBound(maximum, requests, from);
    StandingExactly(maximum, requests, from);
    var granted, repeated := GrantedIn(maximum, requests, from), RepeatedIn(maximum, requests, from);
    UnionSize(granted, repeated);
    SubsetBound(repeated - granted, repeated);
  }

  // ----- when the maximum holds -----

  /** No request acquired before `from` is acquired again in the second that begins there, less than a second
      after. */
  ghost predicate Unrepeated(requests: seq<Request>, from: nat) {
    forall i, k | 0 <= i < k < |requests| && requests[i].Acquire? && requests[i].now < from
                  && InSecond(requests, k, from) && requests[k].id == requests[i].id ::
      requests[k].now >= requests[i].now + SECOND
  }

  /** A repeat asks again less than a second after an acquisition of the same request. */
  lemma RepeatIsSecond(maximum: nat, requests: seq<Request>, k: nat, from: nat) returns (i: nat)
    requires Timed(requests, 0) && k < |requests|
    requires InSecond(requests, k, from) && Repeats(maximum, requests, k, from)
    ensures i < k && requests[i].Acquire? && requests[i].id == requests[k].id
    ensures requests[i].now < from && requests[k].now < requests[i].now + SECOND
  {
    hide Before, RestsOn, Admit, Evict, GrantOf, Running, NotReleased, Log;
    RepeatStands(maximum, requests, k, from);
    AdmittedRests(maximum, requests, k);
    var g := RestsOn(maximum, requests, k);
    RepeatIsHeld(maximum, requests, k, from);
    i := HeldWasAcquired(maximum, requests, k, g);
  }

  lemma RepeatIsHeld(maximum: nat, requests: seq<Request>, k: nat, from: nat)
    requires Timed(requests, 0) && k < |requests|
    requires InSecond(requests, k, from) && Repeats(maximum, requests, k, from)
    ensures GrantOf(Evict(Before(maximum, requests, k).window, requests[k].now).accepted, requests[k].id)
            in Log(Before(maximum, requests, k))
  {
    hide Before, GrantOf, Evict, NotReleased, Running;
    BeforeRuns(maximum, requests, k);
    var h := Before(maximum, requests, k);
    assert Coherent(h.window, h.now) by { RunningIsCoherent(h, maximum); }
    EvictCoherent(h.window, h.now, requests[k].now);
    EvictCuts(h.window, requests[k].now);
    GrantOfHeld(Evict(h.window, requests[k].now).accepted, requests[k].id);
  }

  lemma RunningIsCoherent(h: History, maximum: nat)
    requires Running(h, maximum)
    ensures Coherent(h.window, h.now)
  {
  }

  /** What is in the log was acquired. */
  lemma {:induction false} HeldWasAcquired(maximum: nat, requests: seq<Request>, k: nat, g: Grant) returns (i: nat)
    requires Timed(requests, 0) && k <= |requests| && g in Log(Before(maximum, requests, k))
    ensures i < k && requests[i] == Acquire(g.id, g.at)
    decreases k
  {
    hide Before, Running, Log, Admit, GrantOf;
    if k == 0 {
      NothingLogged(maximum, requests, g);
      assert false;
    } else {
      BeforeRuns(maximum, requests, k - 1);
      BeforeNext(maximum, requests, k - 1);
      LogStep(Before(maximum, requests, k - 1), maximum, requests[k - 1], g);
      if g in Log(Before(maximum, requests, k - 1)) {
        i := HeldWasAcquired(maximum, requests, k - 1, g);
      } else {
        i := k - 1;
      }
    }
  }

  /** A second in which no request is acquired again that soon has nothing but grants, so at most `maximum`
      requests stand in it. */
  lemma UnrepeatedWithinMaximum(maximum: nat, requests: seq<Request>, from: nat)
    requires Timed(requests, 0) && Unrepeated(requests, from)
    ensures StandingIn(maximum, requests, from) == GrantedIn(maximum, requests, from)
    ensures |StandingIn(maximum, requests, from)| <= maximum
  {
    hide GrantedIn, StandingIn, Timed, Repeats;
    AdmittedBound(maximum, requests, from);
    forall k | 0 <= k < |requests| && InSecond(requests, k, from)
      ensures !Repeats(maximum, requests, k, from)
    {
      if Repeats(maximum, requests, k, from) {
        var i := RepeatIsSecond(maximum, requests, k, from);
        assert false;
      }
    }
    assert RepeatedIn(maximum, requests, from) == {};
  }
}
