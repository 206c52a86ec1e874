// How far the limiter's positive answers go: twice the maximum can be reached, and the maximum is safe exactly
// for those that never ask again for what they hold a grant for.

module LimiterBursts {
  import opened Text
  import opened Limiter
  import opened LimiterAnswers

  // ----- the bound is reached -----

  /** Any number of different request ids. */
  function Id(k: nat): Bytes { seq(k, _ => 0x61) }

  function IdsFrom(first: nat, end: nat): (ids: set<Bytes>)
    requires first <= end
    ensures |ids| == end - first
    decreases end - first, 0
  {
    if first == end then {}
    else
      var rest := IdsFrom(first + 1, end);
      IdsFromHas(first + 1, end, Id(first));
      {Id(first)} + rest
  }

  lemma {:induction false} IdsFromHas(first: nat, end: nat, id: Bytes)
    requires first <= end
    ensures id in IdsFrom(first, end) <==> first <= |id| < end && id == Id(|id|)
    decreases end - first, 1
  {
    if first < end {
      IdsFromHas(first + 1, end, id);
    }
  }

  /** These requests, all at once. */
  function Burst(first: nat, end: nat, now: nat): (b: seq<Request>)
    requires first <= end
    ensures |b| == end - first && forall i | 0 <= i < |b| :: b[i] == Acquire(Id(first + i), now)
  {
    seq(end - first, i requires 0 <= i < end - first => Acquire(Id(first + i), now))
  }

  function Granted(first: nat, end: nat, at: nat): (g: seq<Grant>)
    requires first <= end
    ensures |g| == end - first && forall i | 0 <= i < |g| :: g[i] == Grant(at, Id(first + i))
  {
    seq(end - first, i requires 0 <= i < end - first => Grant(at, Id(first + i)))
  }

  /** Shortly before the grants of the first burst expire. */
  const LATE: nat := 900_000_000

  /** As many requests as the maximum, all again shortly before their grants expire, and as many others when
      they have. */
  function TwiceTheMaximum(maximum: nat): seq<Request> {
    Burst(0, maximum, 0) + Burst(0, maximum, LATE) + Burst(maximum, 2 * maximum, SECOND)
  }

  /** New requests for which there is room are granted one after another. */
  lemma {:induction false} BurstFills(h: History, maximum: nat, held: Window, first: nat, end: nat, now: nat)
    requires first < end && held == Evict(h.window, now) && |held.accepted| + (end - first) <= maximum
    requires forall id | id in held.ids :: |id| < first
    ensures After(h, maximum, Burst(first, end, now)).window ==
            Window(held.accepted + Granted(first, end, now), held.ids + IdsFrom(first, end))
    decreases end - first
  {
    hide Evict, Next, Id, After, Burst, IdsFrom, Granted;
    var k := end - 1;
    BurstNext(h, maximum, first, k, now);
    GrantedNext(first, k, now);
    IdsFromNext(first, k);
    NothingYet(h, maximum, first, now);
    IdIsNew(first, k);
    assert Id(k) !in held.ids by { IdLength(k); }
    var before := After(h, maximum, Burst(first, k, now));
    if k > first {
      BurstFills(h, maximum, held, first, k, now);
      StillHeld(h.window, before.window, first, k, now);
    }
    GrantIsNew(before, maximum, Id(k), now);
    assert held.accepted + (Granted(first, k, now) + [Grant(now, Id(k))]) ==
           held.accepted + Granted(first, k, now) + [Grant(now, Id(k))];
    assert held.ids + (IdsFrom(first, k) + {Id(k)}) == held.ids + IdsFrom(first, k) + {Id(k)};
  }

  lemma IdLength(k: nat)
    ensures |Id(k)| == k
  {
  }

  /** What an eviction leaves begins with a grant that has not expired. */
  lemma {:induction false} EvictStops(w: Window, now: nat)
    ensures Evict(w, now).accepted != [] ==> !Expired(Evict(w, now).accepted[0], now)
    decreases |w.accepted|
  {
    if w.accepted != [] && Expired(w.accepted[0], now) {
      EvictStops(Window(w.accepted[1..], w.ids - {w.accepted[0].id}), now);
    }
  }

  lemma StillHeld(w: Window, after: Window, first: nat, k: nat, now: nat)
    requires first < k && after.accepted == Evict(w, now).accepted + Granted(first, k, now)
    ensures Evict(after, now) == after
  {
    hide Evict, Id;
    EvictStops(w, now);
    NothingExpires(after, now);
  }

  lemma BurstNext(h: History, maximum: nat, first: nat, k: nat, now: nat)
    requires first <= k
    ensures After(h, maximum, Burst(first, k + 1, now)) ==
            Next(After(h, maximum, Burst(first, k, now)), maximum, Acquire(Id(k), now))
  {
    hide After, Next, Id;
    assert Burst(first, k + 1, now) == Burst(first, k, now) + [Acquire(Id(k), now)];
    AfterSnoc(h, maximum, Burst(first, k, now), Acquire(Id(k), now));
  }

  lemma GrantedNext(first: nat, k: nat, at: nat)
    requires first <= k
    ensures Granted(first, k + 1, at) == Granted(first, k, at) + [Grant(at, Id(k))]
  {
    hide Id;
  }

  lemma NothingYet(h: History, maximum: nat, first: nat, now: nat)
    ensures After(h, maximum, Burst(first, first, now)) == h
    ensures Granted(first, first, now) == [] && IdsFrom(first, first) == {}
  {
    assert Burst(first, first, now) == [];
  }

  lemma NothingExpires(w: Window, now: nat)
    requires w.accepted != [] ==> !Expired(w.accepted[0], now)
    ensures Evict(w, now) == w
  {
  }

  lemma IdIsNew(first: nat, k: nat)
    requires first <= k
    ensures Id(k) !in IdsFrom(first, k)
  {
    IdsFromHas(first, k, Id(k));
  }

  lemma IdsFromNext(first: nat, k: nat)
    requires first <= k
    ensures IdsFrom(first, k + 1) == IdsFrom(first, k) + {Id(k)}
  {
    hide IdsFrom;
    forall id
      ensures id in IdsFrom(first, k + 1) <==> id in IdsFrom(first, k) + {Id(k)}
    {
      IdsFromHas(first, k + 1, id);
      IdsFromHas(first, k, id);
    }
  }

  lemma GrantIsNew(h: History, maximum: nat, id: Bytes, now: nat)
    requires var held := Evict(h.window, now); id !in held.ids && |held.accepted| < maximum
    ensures var held := Evict(h.window, now);
            Next(h, maximum, Acquire(id, now)).window ==
            Window(held.accepted + [Grant(now, id)], held.ids + {id})
  {
    hide Evict;
  }

  /** Requests that all have grants leave the window as it is. */
  lemma {:induction false} BurstRepeats(h: History, maximum: nat, first: nat, end: nat, now: nat)
    requires first <= end && Evict(h.window, now) == h.window
    requires forall k: nat | first <= k < end :: Id(k) in h.window.ids
    ensures After(h, maximum, Burst(first, end, now)).window == h.window
    decreases end - first
  {
    hide Evict, Id;
    NothingYet(h, maximum, first, now);
    hide After, Burst;
    if end > first {
      BurstRepeats(h, maximum, first, end - 1, now);
      BurstNext(h, maximum, first, end - 1, now);
    }
  }

  lemma {:induction false} AfterJoin(h: History, maximum: nat, a: seq<Request>, b: seq<Request>)
    ensures After(h, maximum, a + b) == After(After(h, maximum, a), maximum, b)
    decreases |a|
  {
    hide Next;
    if a == [] {
      assert a + b == b;
    } else {
      assert (a + b)[0] == a[0] && (a + b)[1..] == a[1..] + b;
      AfterJoin(Next(h, maximum, a[0]), maximum, a[1..], b);
    }
  }

  lemma {:induction false} AllGone(w: Window, now: nat)
    requires w.ids == Ids(w.accepted) && forall i, k | 0 <= i < k < |w.accepted| :: w.accepted[i].id != w.accepted[k].id
    requires forall g | g in w.accepted :: Expired(g, now)
    ensures Evict(w, now) == Window([], {})
    decreases |w.accepted|
  {
    if w.accepted != [] {
      var rest := Window(w.accepted[1..], w.ids - {w.accepted[0].id});
      assert w.accepted == [w.accepted[0]] + w.accepted[1..];
      assert forall g | g in rest.accepted :: g.id != w.accepted[0].id;
      assert rest.ids == Ids(rest.accepted);
      AllGone(rest, now);
    }
  }

  /** The window after the first burst. */
  function Full(maximum: nat): Window { Window(Granted(0, maximum, 0), IdsFrom(0, maximum)) }

  lemma IdsAreFrom(first: nat, end: nat, at: nat)
    requires first <= end
    ensures Ids(Granted(first, end, at)) == IdsFrom(first, end)
    ensures forall i, k | 0 <= i < k < |Granted(first, end, at)| ::
              Granted(first, end, at)[i].id != Granted(first, end, at)[k].id
  {
    var granted := Granted(first, end, at);
    assert forall i, k | 0 <= i < k < |granted| :: |granted[i].id| != |granted[k].id|;
    hide IdsFrom;
    forall id
      ensures id in Ids(granted) <==> id in IdsFrom(first, end)
    {
      IdsFromHas(first, end, id);
      if first <= |id| < end && id == Id(|id|) {
        assert granted[|id| - first].id == id;
      }
    }
  }

  lemma FullExpires(maximum: nat)
    ensures Evict(Full(maximum), LATE) == Full(maximum) && Evict(Full(maximum), SECOND) == Window([], {})
  {
    hide Id, IdsFrom;
    IdsAreFrom(0, maximum, 0);
    AllGone(Full(maximum), SECOND);
    NothingExpires(Full(maximum), LATE);
  }

  /** The window once the first burst is over, and during the second. */
  lemma FullAfter(maximum: nat, k: nat)
    requires maximum > 0 && k <= maximum
    ensures After(NOTHING, maximum, Burst(0, maximum, 0) + Burst(0, k, LATE)).window == Full(maximum)
  {
    hide Id, IdsFrom, Granted, After, Burst;
    BurstFills(NOTHING, maximum, Window([], {}), 0, maximum, 0);
    assert [] + Granted(0, maximum, 0) == Granted(0, maximum, 0) && {} + IdsFrom(0, maximum) == IdsFrom(0, maximum);
    AfterJoin(NOTHING, maximum, Burst(0, maximum, 0), Burst(0, k, LATE));
    FullExpires(maximum);
    var full := After(NOTHING, maximum, Burst(0, maximum, 0));
    forall i: nat | i < k
      ensures Id(i) in full.window.ids
    {
      IdIsFrom(i, maximum);
    }
    BurstRepeats(full, maximum, 0, k, LATE);
  }

  lemma IdIsFrom(k: nat, end: nat)
    requires k < end
    ensures Id(k) in IdsFrom(0, end)
  {
    IdsFromHas(0, end, Id(k));
  }

  /** Each of the first requests is admitted again late in the second, each of the others right after it. */
  lemma TwiceAdmitted(maximum: nat, k: nat)
    requires k < 2 * maximum
    ensures var requests := TwiceTheMaximum(maximum);
            && requests[maximum + k] == Acquire(Id(k), if k < maximum then LATE else SECOND)
            && Admitted(maximum, requests, maximum + k)
  {
    hide Id, IdsFrom, After, Evict, Granted;
    var requests := TwiceTheMaximum(maximum);
    var first, second, third := Burst(0, maximum, 0), Burst(0, maximum, LATE), Burst(maximum, 2 * maximum, SECOND);
    assert requests == first + second + third;
    FullExpires(maximum);
    if k < maximum {
      assert requests[..maximum + k] == first + Burst(0, k, LATE);
      FullAfter(maximum, k);
      IdIsFrom(k, maximum);
    } else {
      assert requests[..maximum + k] == (first + second) + Burst(maximum, k, SECOND);
      FullAfter(maximum, maximum);
      hide Burst;
      AfterJoin(NOTHING, maximum, first + second, Burst(maximum, k, SECOND));
      var full := After(NOTHING, maximum, first + second);
      NothingYet(full, maximum, maximum, SECOND);
      if k > maximum {
        BurstFills(full, maximum, Window([], {}), maximum, k, SECOND);
        StillHeld(full.window, After(full, maximum, Burst(maximum, k, SECOND)).window, maximum, k, SECOND);
      }
    }
  }

  lemma {:induction false} BurstTimed(first: nat, end: nat, now: nat, from: nat, later: seq<Request>)
    requires first <= end && from <= now && Timed(later, now)
    ensures Timed(Burst(first, end, now) + later, from)
    decreases end - first
  {
    hide Id;
    var requests := Burst(first, end, now) + later;
    if first < end {
      assert requests[1..] == Burst(first + 1, end, now) + later;
      BurstTimed(first + 1, end, now, now, later);
    } else {
      assert requests == later;
      TimedSooner(later, from, now);
    }
  }

  lemma TimedSooner(requests: seq<Request>, from: nat, now: nat)
    requires from <= now && Timed(requests, now)
    ensures Timed(requests, from)
    decreases |requests|
  {
    if requests != [] && requests[0].Release? {
      TimedSooner(requests[1..], from, now);
    }
  }

  lemma TwiceTimed(maximum: nat)
    ensures Timed(TwiceTheMaximum(maximum), 0)
  {
    hide Burst;
    var first, second, third := Burst(0, maximum, 0), Burst(0, maximum, LATE), Burst(maximum, 2 * maximum, SECOND);
    BurstTimed(maximum, 2 * maximum, SECOND, LATE, []);
    assert third + [] == third;
    BurstTimed(0, maximum, LATE, 0, third);
    BurstTimed(0, maximum, 0, 0, second + third);
    assert TwiceTheMaximum(maximum) == first + (second + third);
  }

  /** Whatever the maximum, twice as many different requests can stand in one second. */
  lemma TwiceReached(maximum: nat)
    ensures Timed(TwiceTheMaximum(maximum), 0)
    ensures |StandingIn(maximum, TwiceTheMaximum(maximum), LATE)| == 2 * maximum
  {
    hide Id, IdsFrom, Admitted, Burst, GrantedIn, RepeatedIn, Timed, RestsOn;
    var requests := TwiceTheMaximum(maximum);
    TwiceTimed(maximum);
    AdmittedBound(maximum, requests, LATE);
    forall id | id in IdsFrom(0, 2 * maximum)
      ensures id in StandingIn(maximum, requests, LATE)
    {
      IdsFromHas(0, 2 * maximum, id);
      var k := |id|;
      TwiceAdmitted(maximum, k);
      NoneReleased(maximum);
      assert InSecond(requests, maximum + k, LATE) && Stands(maximum, requests, maximum + k);
    }
    SubsetBound(IdsFrom(0, 2 * maximum), StandingIn(maximum, requests, LATE));
  }

  lemma NoneReleased(maximum: nat)
    ensures forall i | 0 <= i < |TwiceTheMaximum(maximum)| :: TwiceTheMaximum(maximum)[i].Acquire?
  {
    hide Id;
  }

  // ----- exactly when the maximum is safe -----

  /** The i-th request asks again for what was granted before its time and is still held. */
  predicate AsksAgain(maximum: nat, requests: seq<Request>, i: nat)
    requires i < |requests|
  {
    && requests[i].Acquire?
    && var held := Evict(Before(maximum, requests, i).window, requests[i].now);
       requests[i].id in held.ids && GrantOf(held.accepted, requests[i].id).at < requests[i].now
  }

  ghost predicate NeverAsksAgain(maximum: nat, requests: seq<Request>) {
    forall i | 0 <= i < |requests| :: !AsksAgain(maximum, requests, i)
  }

  /** Acquisitions of requests that were not there before, each once. */
  ghost predicate Fresh(later: seq<Request>, requests: seq<Request>) {
    && (forall i | 0 <= i < |later| :: later[i].Acquire?)
    && (forall i, k | 0 <= i < |later| && 0 <= k < |requests| :: requests[k].id != later[i].id)
    && (forall i, k | 0 <= i < k < |later| :: later[i].id != later[k].id)
  }

  /** However a beginning of the list goes on with new requests, at most the maximum stand in every second. */
  ghost predicate WithinMaximum(maximum: nat, requests: seq<Request>) {
    forall k: nat, later: seq<Request>, from: nat
      | k <= |requests| && Fresh(later, requests[..k]) && Timed(requests[..k] + later, 0) ::
      |StandingIn(maximum, requests[..k] + later, from)| <= maximum
  }

  lemma SameBefore(maximum: nat, requests: seq<Request>, other: seq<Request>, i: nat)
    requires i < |requests| && i < |other| && requests[..i] == other[..i] && requests[i] == other[i]
    ensures AsksAgain(maximum, requests, i) == AsksAgain(maximum, other, i)
  {
    hide Evict, GrantOf;
  }

  /** New requests never ask again. */
  lemma FreshNeverAsks(maximum: nat, requests: seq<Request>, later: seq<Request>)
    requires NeverAsksAgain(maximum, requests) && Fresh(later, requests) && Timed(requests + later, 0)
    ensures NeverAsksAgain(maximum, requests + later)
  {
    hide AsksAgain, Timed;
    var all := requests + later;
    forall i | 0 <= i < |all|
      ensures !AsksAgain(maximum, all, i)
    {
      if i < |requests| {
        assert all[..i] == requests[..i];
        SameBefore(maximum, requests, all, i);
      } else if AsksAgain(maximum, all, i) {
        var k := AskedBefore(maximum, all, i);
        assert false;
      }
    }
  }

  lemma AskedBefore(maximum: nat, requests: seq<Request>, i: nat) returns (k: nat)
    requires Timed(requests, 0) && i < |requests| && AsksAgain(maximum, requests, i)
    ensures k < i && requests[k].Acquire? && requests[k].id == requests[i].id
  {
    hide Before, GrantOf, Evict, Running;
    HeldAgain(maximum, requests, i);
    var held := Evict(Before(maximum, requests, i).window, requests[i].now);
    k := HeldWasAcquired(maximum, requests, i, GrantOf(held.accepted, requests[i].id));
  }

  lemma HeldAgain(maximum: nat, requests: seq<Request>, i: nat)
    requires Timed(requests, 0) && i < |requests| && AsksAgain(maximum, requests, i)
    ensures var held := Evict(Before(maximum, requests, i).window, requests[i].now);
            var g := GrantOf(held.accepted, requests[i].id);
            g.id == requests[i].id && g in Log(Before(maximum, requests, i))
  {
    hide Before, GrantOf, Evict, Running;
    BeforeRuns(maximum, requests, i);
    var h := Before(maximum, requests, i);
    RunningIsCoherent(h, maximum);
    EvictCoherent(h.window, h.now, requests[i].now);
    EvictCuts(h.window, requests[i].now);
    GrantOfHeld(Evict(h.window, requests[i].now).accepted, requests[i].id);
  }

  lemma NeverAskedWithin(maximum: nat, requests: seq<Request>, from: nat)
    requires Timed(requests, 0) && NeverAsksAgain(maximum, requests)
    ensures |StandingIn(maximum, requests, from)| <= maximum
  {
    hide GrantedIn, StandingIn, Timed, Before, Evict, GrantOf, NotReleased;
    AdmittedBound(maximum, requests, from);
    forall k | 0 <= k < |requests| && InSecond(requests, k, from)
      ensures !Repeats(maximum, requests, k, from)
    {
      assert !AsksAgain(maximum, requests, k);
    }
    assert RepeatedIn(maximum, requests, from) == {};
  }

  /** Longer than every id in the list. */
  function Longer(requests: seq<Request>): (n: nat)
    ensures forall r | r in requests :: |r.id| < n
    decreases |requests|
  {
    if requests == [] then 0
    else
      var rest := Longer(requests[1..]);
      assert requests == [requests[0]] + requests[1..];
      if |requests[0].id| < rest then rest else |requests[0].id| + 1
  }

  /** The list up to its i-th request, which asks again, and then new requests just before the second that it
      opens ends: as many as there is room for. */
  function Refilled(maximum: nat, requests: seq<Request>, i: nat): (all: seq<Request>)
    requires i < |requests| && requests[i].Acquire?
  {
    requests[..i + 1] + NewOnes(maximum, requests, i)
  }

  /** When they come. */
  function End(requests: seq<Request>, i: nat): nat
    requires i < |requests| && requests[i].Acquire?
  {
    requests[i].now + SECOND - 1
  }

  /** What the limiter still holds then. */
  function LeftThen(maximum: nat, requests: seq<Request>, i: nat): Window
    requires i < |requests| && requests[i].Acquire?
  {
    Evict(Before(maximum, requests, i + 1).window, End(requests, i))
  }

  /** And how many it then has room for. */
  function Room(maximum: nat, requests: seq<Request>, i: nat): nat
    requires i < |requests| && requests[i].Acquire?
  {
    var held := |LeftThen(maximum, requests, i).accepted|;
    if held < maximum then maximum - held else 0
  }

  function NewOnes(maximum: nat, requests: seq<Request>, i: nat): (later: seq<Request>)
    requires i < |requests| && requests[i].Acquire?
  {
    var first := Longer(requests[..i + 1]);
    Burst(first, first + Room(maximum, requests, i), End(requests, i))
  }

  lemma NewOnesFresh(maximum: nat, requests: seq<Request>, i: nat)
    requires i < |requests| && requests[i].Acquire? && Timed(requests, 0)
    ensures Fresh(NewOnes(maximum, requests, i), requests[..i + 1]) && Timed(Refilled(maximum, requests, i), 0)
  {
    hide Room, Longer, Burst, Fresh, Timed, Latest;
    var first := Longer(requests[..i + 1]);
    BurstFresh(requests[..i + 1], first, first + Room(maximum, requests, i), End(requests, i));
    TimedCut(requests, 0, i + 1);
    LatestAt(requests, 0, i);
    NewOnesTimed(maximum, requests, i);
    TimedSooner(NewOnes(maximum, requests, i), requests[i].now, End(requests, i));
    hide NewOnes;
    TimedJoin(requests[..i + 1], NewOnes(maximum, requests, i), 0);
  }

  lemma BurstFresh(requests: seq<Request>, first: nat, end: nat, now: nat)
    requires first <= end && forall r | r in requests :: |r.id| < first
    ensures Fresh(Burst(first, end, now), requests)
  {
    var later := Burst(first, end, now);
    assert forall i | 0 <= i < |later| :: |later[i].id| == first + i;
    assert forall k | 0 <= k < |requests| :: requests[k] in requests;
    hide Id;
  }

  lemma {:induction false} LatestAt(requests: seq<Request>, from: nat, i: nat)
    requires i < |requests| && requests[i].Acquire?
    ensures Latest(requests[..i + 1], from) == requests[i].now
    decreases i
  {
    if i == 0 {
      assert requests[..1][1..] == [];
    } else {
      assert requests[..i + 1][1..] == requests[1..][..i] && requests[..i + 1][0] == requests[0];
      LatestAt(requests[1..], if requests[0].Acquire? then requests[0].now else from, i - 1);
    }
  }

  lemma NewOnesTimed(maximum: nat, requests: seq<Request>, i: nat)
    requires i < |requests| && requests[i].Acquire?
    ensures Timed(NewOnes(maximum, requests, i), End(requests, i))
  {
    hide Room, Burst, Longer;
    var first := Longer(requests[..i + 1]);
    var later := Burst(first, first + Room(maximum, requests, i), End(requests, i));
    BurstTimed(first, first + Room(maximum, requests, i), End(requests, i), End(requests, i), []);
    assert later + [] == later;
  }

  lemma {:induction false} TimedJoin(a: seq<Request>, b: seq<Request>, from: nat)
    requires Timed(a, from) && Timed(b, Latest(a, from))
    ensures Timed(a + b, from)
    decreases |a|
  {
    if a == [] {
      assert a + b == b;
    } else {
      assert (a + b)[0] == a[0] && (a + b)[1..] == a[1..] + b;
      TimedJoin(a[1..], b, if a[0].Acquire? then a[0].now else from);
    }
  }

  /** What is granted in the second that the repeated request opens: what is left at its end and the new ones. */
  lemma RefilledGrants(maximum: nat, requests: seq<Request>, i: nat)
    requires i < |requests| && requests[i].Acquire? && Timed(requests, 0)
    ensures var first := Longer(requests[..i + 1]);
            Ids(LeftThen(maximum, requests, i).accepted) + IdsFrom(first, first + Room(maximum, requests, i)) <=
            GrantedIn(maximum, Refilled(maximum, requests, i), requests[i].now)
  {
    hide *;
    var left, first := LeftThen(maximum, requests, i), Longer(requests[..i + 1]);
    var log := Log(After(NOTHING, maximum, Refilled(maximum, requests, i)));
    var room := Room(maximum, requests, i);
    LeftIsRecent(maximum, requests, i);
    RefilledLog(maximum, requests, i);
    EndOfSecond(requests, i);
    if room > 0 {
      FilledIds(log, left.accepted, first, first + room, End(requests, i), requests[i].now);
    } else {
      NothingYet(NOTHING, maximum, first, End(requests, i));
      IdsWithin(left.accepted, log, requests[i].now);
    }
    GrantedInIs(maximum, Refilled(maximum, requests, i), requests[i].now);
  }

  lemma EndOfSecond(requests: seq<Request>, i: nat)
    requires i < |requests| && requests[i].Acquire?
    ensures End(requests, i) == requests[i].now + SECOND - 1
  {
  }

  lemma GrantedInIs(maximum: nat, requests: seq<Request>, from: nat)
    ensures GrantedIn(maximum, requests, from) == Ids(Within(Log(After(NOTHING, maximum, requests)), from))
  {
  }

  /** What is left then and what is granted then is in the log. */
  lemma RefilledLog(maximum: nat, requests: seq<Request>, i: nat)
    requires i < |requests| && requests[i].Acquire? && Timed(requests, 0)
    ensures var left, first := LeftThen(maximum, requests, i), Longer(requests[..i + 1]);
            var room := Room(maximum, requests, i);
            var log := Log(After(NOTHING, maximum, Refilled(maximum, requests, i)));
            var granted := Granted(first, first + room, End(requests, i));
            forall g | g in left.accepted || (room > 0 && g in left.accepted + granted) :: g in log
  {
    hide Before, Longer, Id, IdsFrom, Evict, After, Burst, Running, Granted, Coherent, Timed;
    var left, first := LeftThen(maximum, requests, i), Longer(requests[..i + 1]);
    var h, room := Before(maximum, requests, i + 1), Room(maximum, requests, i);
    StartIsBefore(maximum, requests, i);
    AfterJoin(NOTHING, maximum, requests[..i + 1], NewOnes(maximum, requests, i));
    LeftIsRecent(maximum, requests, i);
    if room > 0 {
      LeftIsShorter(maximum, requests, i);
      BurstFills(h, maximum, left, first, first + room, End(requests, i));
    } else {
      NothingYet(h, maximum, first, End(requests, i));
    }
  }

  lemma StartIsBefore(maximum: nat, requests: seq<Request>, i: nat)
    requires i < |requests|
    ensures Before(maximum, requests, i + 1) == After(NOTHING, maximum, requests[..i + 1])
  {
  }

  lemma IdsWithin(grants: seq<Grant>, log: seq<Grant>, from: nat)
    requires forall g | g in grants :: g in log && from <= g.at < from + SECOND
    ensures Ids(grants) <= Ids(Within(log, from))
  {
    hide Within;
  }

  lemma FilledIds(log: seq<Grant>, left: seq<Grant>, first: nat, end: nat, now: nat, from: nat)
    requires first <= end && now == from + SECOND - 1 && forall g | g in left :: from <= g.at < from + SECOND
    requires forall g | g in left + Granted(first, end, now) :: g in log
    ensures Ids(left) + IdsFrom(first, end) <= Ids(Within(log, from))
  {
    hide Within, IdsFrom, Id;
    IdsAreFrom(first, end, now);
    var granted := Granted(first, end, now);
    assert forall g | g in left :: g in left + granted;
    assert forall g | g in granted :: g in left + granted && g.at == now;
    IdsWithin(left, log, from);
    IdsWithin(granted, log, from);
  }

  /** What is left at the end of the second was granted in it. */
  lemma LeftIsRecent(maximum: nat, requests: seq<Request>, i: nat)
    requires i < |requests| && requests[i].Acquire? && Timed(requests, 0)
    ensures var h := Before(maximum, requests, i + 1);
            var left := LeftThen(maximum, requests, i);
            && Coherent(left, End(requests, i))
            && (forall g | g in left.accepted ::
                  && g in h.window.accepted
                  && requests[i].now <= g.at < requests[i].now + SECOND)
            && h.now == requests[i].now && Coherent(h.window, h.now)
  {
    hide Before, Evict, Running, Coherent, Timed;
    BeforeRuns(maximum, requests, i + 1);
    BeforeNext(maximum, requests, i);
    var h := Before(maximum, requests, i + 1);
    RunningIsCoherent(h, maximum);
    EvictCoherent(h.window, h.now, End(requests, i));
    EvictCuts(h.window, End(requests, i));
    CoherentTimes(h.window, h.now);
  }

  lemma CoherentTimes(w: Window, now: nat)
    requires Coherent(w, now)
    ensures forall g | g in w.accepted :: g.at <= now
  {
  }

  lemma LeftIsShorter(maximum: nat, requests: seq<Request>, i: nat)
    requires i < |requests| && requests[i].Acquire? && Timed(requests, 0)
    ensures forall id | id in LeftThen(maximum, requests, i).ids :: |id| < Longer(requests[..i + 1])
  {
    hide Before, Evict, Running, Ordered, Longer, LeftThen, Log;
    LeftIsRecent(maximum, requests, i);
    var left := LeftThen(maximum, requests, i);
    forall id | id in left.ids
      ensures |id| < Longer(requests[..i + 1])
    {
      var g :| g in left.accepted && g.id == id;
      HeldIsLogged(Before(maximum, requests, i + 1), g);
      var k := HeldWasAcquired(maximum, requests, i + 1, g);
      assert requests[k] == requests[..i + 1][k];
    }
  }

  /** The request that asks again is not granted in the second it opens, but it stands in it. */
  lemma RefilledRepeats(maximum: nat, requests: seq<Request>, i: nat)
    requires Timed(requests, 0) && i < |requests| && AsksAgain(maximum, requests, i)
    ensures var id := requests[i].id;
            && id in RepeatedIn(maximum, Refilled(maximum, requests, i), requests[i].now)
            && id !in LeftThen(maximum, requests, i).ids
  {
    hide Before, Evict, GrantOf, NewOnes, Running;
    var all := Refilled(maximum, requests, i);
    assert all[..i] == requests[..i] && all[i] == requests[i];
    SameBefore(maximum, requests, all, i);
    NewOnesFresh(maximum, requests, i);
    NeverReleased(maximum, requests, i);
    assert Repeats(maximum, all, i, requests[i].now);
    OldIsGone(maximum, requests, i);
  }

  lemma NeverReleased(maximum: nat, requests: seq<Request>, i: nat)
    requires i < |requests| && requests[i].Acquire?
    ensures forall k | i <= k < |Refilled(maximum, requests, i)| :: Refilled(maximum, requests, i)[k].Acquire?
  {
    hide LeftThen, Longer, Id;
  }

  /** Its grant has expired by the end of the second. */
  lemma OldIsGone(maximum: nat, requests: seq<Request>, i: nat)
    requires Timed(requests, 0) && i < |requests| && AsksAgain(maximum, requests, i)
    ensures requests[i].id !in LeftThen(maximum, requests, i).ids
  {
    hide Before, Evict, Running, GrantOf, LeftThen;
    LeftIsRecent(maximum, requests, i);
    var left := LeftThen(maximum, requests, i);
    assert Admitted(maximum, requests, i);
    AdmittedRests(maximum, requests, i);
    if requests[i].id in left.ids {
      var g :| g in left.accepted && g.id == requests[i].id;
      var h := Before(maximum, requests, i + 1);
      OncePerId(h.window, h.now, g, RestsOn(maximum, requests, i));
      assert false;
    }
  }

  lemma OncePerId(w: Window, now: nat, a: Grant, b: Grant)
    requires Coherent(w, now) && a in w.accepted && b in w.accepted && a.id == b.id
    ensures a == b
  {
  }

  lemma {:induction false} IdsCount(grants: seq<Grant>)
    requires Ordered(grants)
    ensures |Ids(grants)| == |grants|
  {
    if grants != [] {
      var front, last := grants[..|grants| - 1], grants[|grants| - 1];
      OrderedFront(grants);
      hide Ordered;
      IdsCount(front);
      assert grants == front + [last];
      IdsAppend(front, last);
    }
  }

  /** A request that asks again can be followed by new ones so that more than the maximum stand in a second. */
  lemma RepeatExceeds(maximum: nat, requests: seq<Request>, i: nat)
    requires Timed(requests, 0) && i < |requests| && AsksAgain(maximum, requests, i)
    ensures Fresh(NewOnes(maximum, requests, i), requests[..i + 1]) && Timed(Refilled(maximum, requests, i), 0)
    ensures |StandingIn(maximum, Refilled(maximum, requests, i), requests[i].now)| > maximum
  {
    hide *;
    RoomCovers(maximum, requests, i);
    assert requests[i].Acquire? by { AskedIsAcquired(maximum, requests, i); }
    var all, first := Refilled(maximum, requests, i), Longer(requests[..i + 1]);
    NewOnesFresh(maximum, requests, i);
    RefilledGrants(maximum, requests, i);
    RefilledRepeats(maximum, requests, i);
    AdmittedBound(maximum, all, requests[i].now);
    LeftCount(maximum, requests, i);
    LeftIsShorter(maximum, requests, i);
    IdIsShorter(requests, i);
    Beyond(LeftThen(maximum, requests, i).ids, first, first + Room(maximum, requests, i), requests[i].id,
           StandingIn(maximum, all, requests[i].now));
  }

  lemma RoomCovers(maximum: nat, requests: seq<Request>, i: nat)
    requires i < |requests| && AsksAgain(maximum, requests, i)
    ensures requests[i].Acquire?
    ensures |LeftThen(maximum, requests, i).accepted| + Room(maximum, requests, i) >= maximum
  {
  }

  lemma AskedIsAcquired(maximum: nat, requests: seq<Request>, i: nat)
    requires i < |requests| && AsksAgain(maximum, requests, i)
    ensures requests[i].Acquire?
  {
  }

  lemma IdIsShorter(requests: seq<Request>, i: nat)
    requires i < |requests|
    ensures |requests[i].id| < Longer(requests[..i + 1])
  {
    hide Longer;
    assert requests[..i + 1][i] == requests[i];
  }

  lemma LeftCount(maximum: nat, requests: seq<Request>, i: nat)
    requires i < |requests| && requests[i].Acquire? && Timed(requests, 0)
    ensures var left := LeftThen(maximum, requests, i);
            left.ids == Ids(left.accepted) && |left.ids| == |left.accepted|
  {
    hide Before, LeftThen, Ordered, Ids;
    LeftIsRecent(maximum, requests, i);
    IdsCount(LeftThen(maximum, requests, i).accepted);
  }

  lemma Beyond(left: set<Bytes>, first: nat, end: nat, id: Bytes, standing: set<Bytes>)
    requires first <= end && (forall other | other in left :: |other| < first) && |id| < first && id !in left
    requires left + IdsFrom(first, end) <= standing && id in standing
    ensures |standing| > |left| + (end - first)
  {
    LongIds(first, end);
    hide IdsFrom;
    Three(left, IdsFrom(first, end), id);
    SubsetBound(left + IdsFrom(first, end) + {id}, standing);
  }

  lemma LongIds(first: nat, end: nat)
    requires first <= end
    ensures forall id | id in IdsFrom(first, end) :: |id| >= first
  {
    hide IdsFrom;
    forall id | id in IdsFrom(first, end)
      ensures |id| >= first
    {
      IdsFromHas(first, end, id);
    }
  }

  lemma Three(a: set<Bytes>, b: set<Bytes>, id: Bytes)
    requires a !! b && id !in a && id !in b
    ensures |a + b + {id}| == |a| + |b| + 1
  {
  }

  /** Along a timed list the maximum is safe, however it goes on with new requests, exactly when no request of it
      asks again for what was granted before and is still held. */
  lemma MaximumExactly(maximum: nat, requests: seq<Request>)
    requires Timed(requests, 0)
    ensures WithinMaximum(maximum, requests) <==> NeverAsksAgain(maximum, requests)
  {
    hide AsksAgain, StandingIn, Timed, Fresh, NewOnes;
    if NeverAsksAgain(maximum, requests) {
      forall k: nat, later: seq<Request>, from: nat
        | k <= |requests| && Fresh(later, requests[..k]) && Timed(requests[..k] + later, 0)
        ensures |StandingIn(maximum, requests[..k] + later, from)| <= maximum
      {
        CutNeverAsks(maximum, requests, k);
        FreshNeverAsks(maximum, requests[..k], later);
        NeverAskedWithin(maximum, requests[..k] + later, from);
      }
    } else {
      var i :| 0 <= i < |requests| && AsksAgain(maximum, requests, i);
      AskedIsAcquired(maximum, requests, i);
      RepeatExceeds(maximum, requests, i);
      var later := NewOnes(maximum, requests, i);
      assert |StandingIn(maximum, requests[..i + 1] + later, requests[i].now)| > maximum;
    }
  }

  lemma CutNeverAsks(maximum: nat, requests: seq<Request>, k: nat)
    requires k <= |requests| && NeverAsksAgain(maximum, requests)
    ensures NeverAsksAgain(maximum, requests[..k])
  {
    hide AsksAgain;
    forall i | 0 <= i < k
      ensures !AsksAgain(maximum, requests[..k], i)
    {
      assert requests[..k][..i] == requests[..i];
      SameBefore(maximum, requests, requests[..k], i);
    }
  }
}
