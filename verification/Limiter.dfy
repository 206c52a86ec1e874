// The sliding-window limiter of outbound messages.

module Limiter {
  import opened Text

  /** An accepted request and when it was accepted, in nanoseconds. */
  datatype Grant = Grant(at: nat, id: Bytes)

  datatype Window = Window(accepted: seq<Grant>, ids: set<Bytes>)

  const SECOND: nat := 1_000_000_000

  predicate Expired(g: Grant, now: nat) { now >= g.at + SECOND }

  /** Drop expired grants from the front. */
  function Evict(w: Window, now: nat): (r: Window)
    ensures |r.accepted| <= |w.accepted|
    decreases |w.accepted|
  {
    if w.accepted != [] && Expired(w.accepted[0], now)
    then Evict(Window(w.accepted[1..], w.ids - {w.accepted[0].id}), now)
    else w
  }

  /** What an eviction drops. */
  function Gone(accepted: seq<Grant>, now: nat): seq<Grant> {
    if accepted != [] && Expired(accepted[0], now) then [accepted[0]] + Gone(accepted[1..], now) else []
  }

  function Admit(w: Window, maximum: nat, id: Bytes, now: nat): (Window, bool) {
    var swept := Evict(w, now);
    if id in swept.ids then (swept, true)
    else if |swept.accepted| >= maximum then (swept, false)
    else (Window(swept.accepted + [Grant(now, id)], swept.ids + {id}), true)
  }

  /** The grants of other requests. */
  function Retain(accepted: seq<Grant>, id: Bytes): seq<Grant> {
    if accepted == [] then []
    else
      var last := accepted[|accepted| - 1];
      Retain(accepted[..|accepted| - 1], id) + if last.id != id then [last] else []
  }

  function Drop(w: Window, id: Bytes): Window { Window(Retain(w.accepted, id), w.ids - {id}) }

  class SlidingWindowRateLimiter {
    const maximum: nat
    var accepted: seq<Grant>
    var requestIds: set<Bytes>

    function State(): Window
      reads this
    {
      Window(accepted, requestIds)
    }

    constructor (maximum: nat)
      ensures this.maximum == maximum && State() == Window([], {})
    {
      this.maximum := maximum;
      accepted, requestIds := [], {};
    }

    method TryAcquire(requestId: Bytes, now: nat) returns (ok: bool)
      modifies this
      ensures (State(), ok) == Admit(old(State()), maximum, requestId, now)
    {
      while |accepted| > 0 && Expired(accepted[0], now)
        invariant Evict(State(), now) == Evict(old(State()), now)
      {
        var expired := accepted[0].id;
        accepted := accepted[1..];
        requestIds := requestIds - {expired};
      }
      if requestId in requestIds {
        return true;
      }
      if |accepted| >= maximum {
        return false;
      }
      accepted := accepted + [Grant(now, requestId)];
      requestIds := requestIds + {requestId};
      ok := true;
    }

    method Release(requestId: Bytes)
      modifies this
      ensures State() == Drop(old(State()), requestId)
    {
      var kept: seq<Grant> := [];
      for i := 0 to |accepted|
        invariant kept == Retain(accepted[..i], requestId)
        invariant unchanged(this)
      {
        assert accepted[..i + 1][..i] == accepted[..i];
        if accepted[i].id != requestId {
          kept := kept + [accepted[i]];
        }
      }
      assert accepted[..|accepted|] == accepted;
      accepted := kept;
      requestIds := requestIds - {requestId};
    }
  }

  // ----- deque and set agree -----

  function Ids(accepted: seq<Grant>): set<Bytes> { set g | g in accepted :: g.id }

  /** No id twice, and in time order. */
  ghost predicate Ordered(accepted: seq<Grant>) {
    && (forall i, k | 0 <= i < k < |accepted| :: accepted[i].id != accepted[k].id)
    && (forall i, k | 0 <= i < k < |accepted| :: accepted[i].at <= accepted[k].at)
  }

  /** Queue and set hold the same ids, each once, and the queue is in time order up to `now`. */
  ghost predicate Coherent(w: Window, now: nat) {
    w.ids == Ids(w.accepted) && Ordered(w.accepted) && forall g | g in w.accepted :: g.at <= now
  }

  lemma IdsAppend(accepted: seq<Grant>, g: Grant)
    ensures Ids(accepted + [g]) == Ids(accepted) + {g.id}
  {
    forall id | id in Ids(accepted) + {g.id}
      ensures id in Ids(accepted + [g])
    {
      if id in Ids(accepted) {
        var other :| other in accepted && other.id == id;
        assert other in accepted + [g];
      } else {
        assert (accepted + [g])[|accepted|] == g;
      }
    }
  }

  lemma FrontCoherent(w: Window, now: nat)
    requires Coherent(w, now) && w.accepted != []
    ensures Coherent(Window(w.accepted[1..], w.ids - {w.accepted[0].id}), now)
  {
    var first, rest := w.accepted[0], w.accepted[1..];
    forall id
      ensures id in Ids(w.accepted) - {first.id} <==> id in Ids(rest)
    {
      if id in Ids(w.accepted) - {first.id} {
        var i :| 0 <= i < |w.accepted| && w.accepted[i].id == id;
        assert rest[i - 1] == w.accepted[i];
      }
    }
  }

  lemma {:induction false} EvictCoherent(w: Window, before: nat, now: nat)
    requires Coherent(w, before) && before <= now
    ensures Coherent(Evict(w, now), now)
    ensures forall g | g in Evict(w, now).accepted :: !Expired(g, now)
    decreases |w.accepted|
  {
    if w.accepted != [] && Expired(w.accepted[0], now) {
      hide Coherent;
      FrontCoherent(w, before);
      EvictCoherent(Window(w.accepted[1..], w.ids - {w.accepted[0].id}), before, now);
    } else {
      hide Ids;
      assert forall g | g in w.accepted :: g.at >= w.accepted[0].at;
    }
  }

  lemma AdmitCoherent(w: Window, maximum: nat, id: Bytes, before: nat, now: nat)
    requires Coherent(w, before) && before <= now
    ensures Coherent(Admit(w, maximum, id, now).0, now)
  {
    hide Evict, Coherent;
    EvictCoherent(w, before, now);
    var swept := Evict(w, now);
    if id !in swept.ids && |swept.accepted| < maximum {
      GrantCoherent(swept, id, now);
    }
  }

  lemma GrantCoherent(w: Window, id: Bytes, now: nat)
    requires Coherent(w, now) && id !in w.ids
    ensures Coherent(Window(w.accepted + [Grant(now, id)], w.ids + {id}), now)
  {
    IdsAppend(w.accepted, Grant(now, id));
    forall g | g in w.accepted
      ensures g.id != id && g.at <= now
    {
      assert g.id in Ids(w.accepted);
    }
  }

  /** Retaining keeps exactly the grants of other requests. */
  lemma {:induction false} RetainIs(accepted: seq<Grant>, id: Bytes)
    ensures forall g :: g in Retain(accepted, id) <==> g in accepted && g.id != id
  {
    if accepted != [] {
      RetainIs(accepted[..|accepted| - 1], id);
      assert accepted == accepted[..|accepted| - 1] + [accepted[|accepted| - 1]];
    }
  }

  lemma {:induction false} RetainOrdered(accepted: seq<Grant>, id: Bytes)
    requires Ordered(accepted)
    ensures Ordered(Retain(accepted, id))
  {
    if accepted != [] {
      var front, last := accepted[..|accepted| - 1], accepted[|accepted| - 1];
      OrderedFront(accepted);
      hide Ordered;
      RetainOrdered(front, id);
      RetainIs(front, id);
      OrderedAppend(Retain(front, id), last);
      assert Retain(front, id) + [] == Retain(front, id);
    }
  }

  lemma OrderedFront(accepted: seq<Grant>)
    requires Ordered(accepted) && accepted != []
    ensures Ordered(accepted[..|accepted| - 1])
    ensures forall g | g in accepted[..|accepted| - 1] ::
              g.id != accepted[|accepted| - 1].id && g.at <= accepted[|accepted| - 1].at
  {
  }

  lemma OrderedAppend(accepted: seq<Grant>, last: Grant)
    requires Ordered(accepted) && forall g | g in accepted :: g.id != last.id && g.at <= last.at
    ensures Ordered(accepted + [last])
  {
  }

  lemma DropCoherent(w: Window, id: Bytes, now: nat)
    requires Coherent(w, now)
    ensures Coherent(Drop(w, id), now)
  {
    hide Retain, Ordered;
    RetainIs(w.accepted, id);
    RetainOrdered(w.accepted, id);
    forall other
      ensures other in Ids(w.accepted) - {id} <==> other in Ids(Retain(w.accepted, id))
    {
      if other in Ids(w.accepted) - {id} {
        var g :| g in w.accepted && g.id == other;
        assert g in Retain(w.accepted, id);
      }
    }
  }

  // ----- what is admitted -----

  function Unexpired(accepted: seq<Grant>, now: nat): seq<Grant> {
    if accepted == [] then []
    else (if Expired(accepted[0], now) then [] else [accepted[0]]) + Unexpired(accepted[1..], now)
  }

  lemma {:induction false} UnexpiredAll(accepted: seq<Grant>, now: nat)
    requires forall g | g in accepted :: !Expired(g, now)
    ensures Unexpired(accepted, now) == accepted
  {
    if accepted != [] {
      assert accepted == [accepted[0]] + accepted[1..];
      UnexpiredAll(accepted[1..], now);
    }
  }

  lemma UnexpiredFront(accepted: seq<Grant>, now: nat)
    requires accepted != [] && Expired(accepted[0], now)
    ensures Unexpired(accepted, now) == Unexpired(accepted[1..], now)
  {
  }

  lemma {:induction false} EvictIsUnexpired(w: Window, before: nat, now: nat)
    requires Coherent(w, before) && before <= now
    ensures Evict(w, now).accepted == Unexpired(w.accepted, now)
    decreases |w.accepted|
  {
    if w.accepted != [] && Expired(w.accepted[0], now) {
      hide Coherent, Unexpired;
      FrontCoherent(w, before);
      UnexpiredFront(w.accepted, now);
      EvictIsUnexpired(Window(w.accepted[1..], w.ids - {w.accepted[0].id}), before, now);
    } else {
      EvictCoherent(w, before, now);
      UnexpiredAll(w.accepted, now);
    }
  }

  /** A request is admitted exactly when it was granted within the last second or fewer than `maximum`
      requests were. */
  lemma AdmitsExactly(w: Window, maximum: nat, id: Bytes, before: nat, now: nat)
    requires Coherent(w, before) && before <= now
    ensures var recent := Unexpired(w.accepted, now);
            Admit(w, maximum, id, now).1 <==> id in Ids(recent) || |recent| < maximum
  {
    hide Evict, Ids, Ordered, Unexpired;
    EvictCoherent(w, before, now);
    EvictIsUnexpired(w, before, now);
  }

  // ----- the bound over a whole history -----

  datatype Request = Acquire(id: Bytes, now: nat) | Release(id: Bytes)

  /** The limiter, with the grants it has forgotten because they had expired. */
  datatype History = History(past: seq<Grant>, window: Window, now: nat)

  const NOTHING: History := History([], Window([], {}), 0)

  function Next(h: History, maximum: nat, request: Request): History {
    match request
    case Acquire(id, now) =>
      History(h.past + Gone(h.window.accepted, now), Admit(h.window, maximum, id, now).0, now)
    case Release(id) => h.(window := Drop(h.window, id))
  }

  function After(h: History, maximum: nat, requests: seq<Request>): History
    decreases |requests|
  {
    if requests == [] then h else After(Next(h, maximum, requests[0]), maximum, requests[1..])
  }

  /** Acquisitions at times that never go back. */
  ghost predicate Timed(requests: seq<Request>, from: nat)
    decreases |requests|
  {
    requests == []
    || (match requests[0]
        case Acquire(_, now) => from <= now && Timed(requests[1..], now)
        case Release(_) => Timed(requests[1..], from))
  }

  /** How many grants fall into the second that begins at `from`. */
  function CountIn(grants: seq<Grant>, from: nat): nat {
    if grants == [] then 0
    else
      var last := grants[|grants| - 1];
      CountIn(grants[..|grants| - 1], from) + if from <= last.at < from + SECOND then 1 else 0
  }

  lemma {:induction false} CountAppend(a: seq<Grant>, b: seq<Grant>, from: nat)
    ensures CountIn(a + b, from) == CountIn(a, from) + CountIn(b, from)
    decreases |b|
  {
    if b == [] {
      assert a + b == a;
    } else {
      assert (a + b)[..|a + b| - 1] == a + b[..|b| - 1];
      CountAppend(a, b[..|b| - 1], from);
    }
  }

  lemma {:induction false} CountBound(grants: seq<Grant>, from: nat)
    ensures CountIn(grants, from) <= |grants|
  {
    if grants != [] {
      CountBound(grants[..|grants| - 1], from);
    }
  }

  lemma {:induction false} CountExpired(grants: seq<Grant>, from: nat, now: nat)
    requires from <= now < from + SECOND && forall g | g in grants :: Expired(g, now)
    ensures CountIn(grants, from) == 0
  {
    if grants != [] {
      assert grants[|grants| - 1] in grants;
      CountExpired(grants[..|grants| - 1], from, now);
    }
  }

  lemma {:induction false} CountRetained(grants: seq<Grant>, id: Bytes, from: nat)
    ensures CountIn(Retain(grants, id), from) <= CountIn(grants, from)
  {
    if grants != [] {
      var front, last := grants[..|grants| - 1], grants[|grants| - 1];
      CountRetained(front, id, from);
      CountAppend(Retain(front, id), if last.id != id then [last] else [], from);
      assert last.id != id ==> [last][..0] == [];
    }
  }

  /** No second holds more than `maximum` grants, what was forgotten has expired, and queue and set agree. */
  ghost predicate Bounded(h: History, maximum: nat) {
    && Coherent(h.window, h.now)
    && (forall g | g in h.past :: Expired(g, h.now))
    && forall from: nat :: CountIn(h.past + h.window.accepted, from) <= maximum
  }

  lemma AcquireBounded(h: History, maximum: nat, id: Bytes, now: nat)
    requires Bounded(h, maximum) && h.now <= now
    ensures Bounded(Next(h, maximum, Acquire(id, now)), maximum)
  {
    hide Evict, Coherent, CountIn;
    var next := Next(h, maximum, Acquire(id, now));
    var swept := Evict(h.window, now);
    AdmitCoherent(h.window, maximum, id, h.now, now);
    SweptSplits(h, now);
    forall from: nat
      ensures CountIn(next.past + next.window.accepted, from) <= maximum
    {
      assert CountIn(next.past + swept.accepted, from) <= maximum;
      if next.window.accepted != swept.accepted {
        GrantedCount(next.past, swept.accepted, Grant(now, id), maximum, from);
      }
    }
  }

  /** Eviction cuts the queue in two: what goes has expired. */
  lemma {:induction false} EvictCuts(w: Window, now: nat)
    ensures w.accepted == Gone(w.accepted, now) + Evict(w, now).accepted
    ensures forall g | g in Gone(w.accepted, now) :: Expired(g, now)
    decreases |w.accepted|
  {
    if w.accepted != [] && Expired(w.accepted[0], now) {
      EvictCuts(Window(w.accepted[1..], w.ids - {w.accepted[0].id}), now);
      assert w.accepted == [w.accepted[0]] + w.accepted[1..];
    }
  }

  /** Eviction moves expired grants from the queue to the past and nothing else. */
  lemma SweptSplits(h: History, now: nat)
    requires h.now <= now && forall g | g in h.past :: Expired(g, h.now)
    ensures var gone := Gone(h.window.accepted, now);
            && h.past + h.window.accepted == (h.past + gone) + Evict(h.window, now).accepted
            && forall g | g in h.past + gone :: Expired(g, now)
  {
    hide Evict, Gone;
    EvictCuts(h.window, now);
    var gone, kept := Gone(h.window.accepted, now), Evict(h.window, now).accepted;
    assert h.past + (gone + kept) == (h.past + gone) + kept;
  }

  lemma GrantedCount(past: seq<Grant>, swept: seq<Grant>, g: Grant, maximum: nat, from: nat)
    requires |swept| < maximum && CountIn(past + swept, from) <= maximum
    requires forall p | p in past :: Expired(p, g.at)
    ensures CountIn(past + (swept + [g]), from) <= maximum
  {
    CountAppend(past, swept, from);
    CountAppend(past, swept + [g], from);
    CountAppend(swept, [g], from);
    assert [g][..0] == [];
    if from <= g.at < from + SECOND {
      CountExpired(past, from, g.at);
      CountBound(swept, from);
    }
  }

  lemma ReleaseBounded(h: History, maximum: nat, id: Bytes)
    requires Bounded(h, maximum)
    ensures Bounded(Next(h, maximum, Release(id)), maximum)
  {
    DropCoherent(h.window, id, h.now);
    forall from: nat
      ensures CountIn(h.past + Retain(h.window.accepted, id), from) <= maximum
    {
      assert CountIn(h.past + h.window.accepted, from) <= maximum;
      CountAppend(h.past, h.window.accepted, from);
      CountAppend(h.past, Retain(h.window.accepted, id), from);
      CountRetained(h.window.accepted, id, from);
    }
  }

  /** Whatever is acquired and released, at times that never go back, every half-open second contains at
      most `maximum` grants that were not released while the limiter held them. */
  lemma {:induction false} SlidingWindowBound(h: History, maximum: nat, requests: seq<Request>)
    requires Bounded(h, maximum) && Timed(requests, h.now)
    ensures Bounded(After(h, maximum, requests), maximum)
    decreases |requests|
  {
    hide Bounded, Next;
    if requests != [] {
      match requests[0] {
        case Acquire(id, now) =>
          AcquireBounded(h, maximum, id, now);
          NextNow(h, maximum, id, now);
        case Release(id) =>
          ReleaseBounded(h, maximum, id);
          NextSameNow(h, maximum, id);
      }
      SlidingWindowBound(Next(h, maximum, requests[0]), maximum, requests[1..]);
    }
  }

  lemma NextNow(h: History, maximum: nat, id: Bytes, now: nat)
    ensures Next(h, maximum, Acquire(id, now)).now == now
  {
  }

  lemma NextSameNow(h: History, maximum: nat, id: Bytes)
    ensures Next(h, maximum, Release(id)).now == h.now
  {
  }

  lemma NothingBounded(maximum: nat)
    ensures Bounded(NOTHING, maximum)
  {
  }
}
