// Replay: what a ResendRequest makes the session write, and what a peer makes of it.

module ReplayPlan {
  import opened Text
  import opened Codec
  import opened Messages
  import opened Parser
  import opened Store
  import opened StoreTheorems
  import opened Session
  import opened SessionSafety
  import opened SessionInvariant
  import opened ReplayFieldFacts
  import opened ReadBack

  // ----- the plan of a replay -----

  /** One message of a replay: an application message again, or a gap fill that ends before `next`. */
  datatype Item = Resent(n: nat) | Skipped(start: nat, next: nat)

  function Closing(gapStart: Option<nat>, next: nat): seq<Item> {
    match gapStart
    case None => []
    case Some(start) => [Skipped(start, next)]
  }

  /** What the replay loop writes from `n` on. */
  function Plan(records: map<nat, OutboundRecord>, n: nat, end: nat, gapStart: Option<nat>): seq<Item>
    requires n <= end + 1
    decreases end + 1 - n
  {
    if n > end then Closing(gapStart, end + 1)
    else if !IsReplayable(records, n) then Plan(records, n + 1, end, if gapStart.Some? then gapStart else Some(n))
    else Closing(gapStart, n) + ([Resent(n)] + Plan(records, n + 1, end, None))
  }

  function ItemStart(i: Item): nat { match i case Resent(n) => n case Skipped(start, _) => start }

  function ItemNext(i: Item): nat { match i case Resent(n) => n + 1 case Skipped(_, next) => next }

  /** Items that lead from one sequence number to another without overlap and without a hole. */
  ghost predicate Tiles(items: seq<Item>, from: nat, until: nat)
    decreases |items|
  {
    if items == [] then from == until
    else ItemStart(items[0]) == from && from < ItemNext(items[0]) && Tiles(items[1..], ItemNext(items[0]), until)
  }

  ghost predicate NoTwoGaps(items: seq<Item>) {
    forall i | 0 < i < |items| :: items[i - 1].Resent? || items[i].Resent?
  }

  /** The application messages among `from`..`end` are resent, and nothing else is. */
  ghost predicate ResendsExactly(items: seq<Item>, records: map<nat, OutboundRecord>, from: nat, end: nat) {
    forall k: nat :: Resent(k) in items <==> from <= k <= end && IsReplayable(records, k)
  }

  lemma {:induction false} TilesJoin(a: seq<Item>, b: seq<Item>, from: nat, middle: nat, until: nat)
    requires Tiles(a, from, middle) && Tiles(b, middle, until)
    ensures Tiles(a + b, from, until)
    decreases |a|
  {
    if a == [] {
      assert a + b == b;
    } else {
      assert (a + b)[0] == a[0] && (a + b)[1..] == a[1..] + b;
      TilesJoin(a[1..], b, ItemNext(a[0]), middle, until);
    }
  }

  function GapOr(gapStart: Option<nat>, n: nat): nat { if gapStart.Some? then gapStart.value else n }

  /** The plan covers the range once and in order, never fills two gaps in a row, and resends exactly the
      application messages. */
  lemma {:induction false} PlanTiles(records: map<nat, OutboundRecord>, n: nat, end: nat, gapStart: Option<nat>)
    requires n <= end + 1 && (gapStart.Some? ==> gapStart.value < n)
    ensures var items := Plan(records, n, end, gapStart);
            Tiles(items, GapOr(gapStart, n), end + 1) && NoTwoGaps(items) && ResendsExactly(items, records, n, end)
    decreases end + 1 - n
  {
    if n > end {
    } else if !IsReplayable(records, n) {
      PlanTiles(records, n + 1, end, Some(GapOr(gapStart, n)));
    } else {
      var first, rest := Closing(gapStart, n), Plan(records, n + 1, end, None);
      PlanTiles(records, n + 1, end, None);
      assert ([Resent(n)] + rest)[1..] == rest;
      assert Tiles([Resent(n)] + rest, n, end + 1);
      TilesJoin(first, [Resent(n)] + rest, GapOr(gapStart, n), n, end + 1);
      GapsJoin(first, n, rest);
      var items := first + ([Resent(n)] + rest);
      forall k: nat
        ensures Resent(k) in items <==> n <= k <= end && IsReplayable(records, k)
      {
        assert Resent(k) in items <==> k == n || Resent(k) in rest;
      }
    }
  }

  lemma GapsJoin(first: seq<Item>, n: nat, rest: seq<Item>)
    requires |first| <= 1 && NoTwoGaps(rest)
    ensures NoTwoGaps(first + ([Resent(n)] + rest))
  {
    var items := first + ([Resent(n)] + rest);
    forall i | 0 < i < |items|
      ensures items[i - 1].Resent? || items[i].Resent?
    {
      var k := i - |first| - 1;
      assert k <= 0 || (items[i] == rest[k] && items[i - 1] == rest[k - 1]);
    }
  }

  // ----- the records of a range -----

  ghost predicate SameRows(a: map<nat, OutboundRecord>, b: map<nat, OutboundRecord>, begin: nat, end: nat) {
    forall n: nat | begin <= n <= end :: n in a && n in b && a[n] == b[n]
  }

  lemma {:induction false} ByNumberIs(records: seq<OutboundRecord>, begin: nat)
    requires forall i | 0 <= i < |records| :: records[i].command.msgSeqNum == begin + i
    ensures var m := ByNumber(records);
            && (forall n: nat :: n in m <==> begin <= n < begin + |records|)
            && forall i | 0 <= i < |records| :: begin + i in m && m[begin + i] == records[i]
  {
    if records != [] {
      var last := |records| - 1;
      var m := ByNumber(records[..last]);
      ByNumberIs(records[..last], begin);
      assert forall i | 0 <= i < last :: m[begin + i] == records[..last][i];
    }
  }

  /** The loaded records are the rows of the journal, so the loop replays what the journal holds. */
  lemma LoadedRecords(j: Journal, begin: nat, end: nat)
    requires OutboundInv(j) && 1 <= begin && end < j.nextOut
    ensures SameRows(ByNumber(RangeOf(j, begin, end)), j.outbound, begin, end)
  {
    hide RangeOf, ByNumber;
    var records := RangeOf(j, begin, end);
    RangeComplete(j, begin, end);
    ByNumberIs(records, begin);
    forall n: nat | begin <= n <= end
      ensures n in ByNumber(records) && n in j.outbound && ByNumber(records)[n] == j.outbound[n]
    {
      var i := n - begin;
      assert records[i] == j.outbound[begin + i];
    }
  }

  // ----- what is written -----

  function Writes(t: seq<Effect>): seq<Message> {
    if t == [] then []
    else
      var last := t[|t| - 1];
      Writes(t[..|t| - 1]) + if last.Write? then [last.wire] else []
  }

  lemma WritesGrow(t: seq<Effect>, e: Effect)
    ensures Writes(t + [e]) == Writes(t) + if e.Write? then [e.wire] else []
  {
    assert (t + [e])[..|t|] == t;
  }

  /** The message that an item stands for, sent at a reading of the clock. */
  function Rendered(env: Env, records: map<nat, OutboundRecord>, item: Item, ticks: nat): Message {
    match item
    case Resent(n) =>
      if n in records && First(records[n].wire.fields, 52).Some? then ReplayOf(env, records[n].wire, ticks)
      else Message([], [])
    case Skipped(start, next) =>
      Message(env.config.beginString, GapFillFields(env.config, start, next, env.clock(ticks)))
  }

  /** Each item takes one reading of the clock. */
  function RenderedAll(env: Env, records: map<nat, OutboundRecord>, items: seq<Item>, ticks: nat): (ms: seq<Message>)
    ensures |ms| == |items|
    ensures forall i | 0 <= i < |items| :: ms[i] == Rendered(env, records, items[i], ticks + i)
  {
    seq(|items|, i requires 0 <= i < |items| => Rendered(env, records, items[i], ticks + i))
  }

  lemma RenderedCons(env: Env, records: map<nat, OutboundRecord>, item: Item, rest: seq<Item>, ticks: nat)
    ensures RenderedAll(env, records, [item] + rest, ticks) ==
            [Rendered(env, records, item, ticks)] + RenderedAll(env, records, rest, ticks + 1)
  {
    hide Rendered;
  }

  lemma TransmitSends(w: World, n: nat, kind: TransmissionKind, wire: Message)
    requires Refusal(wire.beginString, wire.fields).None?
    ensures var r := Transmit(w, n, kind, wire);
            r.error.None? && Writes(r.w.trace) == Writes(w.trace) + [wire] && r.w.ticks == w.ticks
  {
    hide Writes, Refusal;
    var op := CommitTransmission(n, kind, wire);
    var id := w.journal.nextTransmission;
    WritesGrow(w.trace, Did(op));
    WritesGrow(w.trace + [Did(op)], Write(wire));
    WritesGrow(w.trace + [Did(op)] + [Write(wire)], Did(MarkTransmissionWritten(id)));
  }

  lemma GapFillSends(env: Env, w: World, start: nat, next: nat)
    requires ConfigOk(env.config)
    ensures var r := SendGapFill(env, w, start, next);
            && r.error.None? && r.w.ticks == w.ticks + 1
            && Writes(r.w.trace) == Writes(w.trace) + [Rendered(env, map[], Skipped(start, next), w.ticks)]
  {
    hide Transmit, Writes, Dec, AgentsKept;
    var wire := Rendered(env, map[], Skipped(start, next), w.ticks);
    assert Refusal(wire.beginString, wire.fields).None?;
    hide Refusal;
    TransmitSends(w.(ticks := w.ticks + 1), start, GapFill, wire);
  }

  /** A message whose bytes are read back as it was. */
  ghost predicate Intact(m: Message) { SohFree(m.fields) && |WireOf(m)| <= USIZE_MAX }

  /** An application row as the journal stores it, without a delimiter in its values. */
  ghost predicate Resendable(records: map<nat, OutboundRecord>, n: nat) {
    n in records && Original(records[n].wire, n) && n <= U64_MAX && Intact(records[n].wire)
  }

  /** The application messages of a range are intact. */
  ghost predicate IntactRange(rows: map<nat, OutboundRecord>, begin: nat, end: nat) {
    forall n: nat | begin <= n <= end && IsReplayable(rows, n) :: Intact(rows[n].wire)
  }

  lemma OriginalNumber(m: Message, n: nat)
    requires Original(m, n) && n <= U64_MAX
    ensures NumberAt(m, 34) == Some(n)
  {
    ParseU64OfDec(n);
  }

  lemma ApplicationSends(env: Env, w: World, records: map<nat, OutboundRecord>, n: nat)
    requires ConfigOk(env.config) && Resendable(records, n)
    ensures var r := SendApplicationReplay(env, w, records[n].wire);
            && r.error.None? && r.w.ticks == w.ticks + 1
            && Writes(r.w.trace) == Writes(w.trace) + [Rendered(env, records, Resent(n), w.ticks)]
  {
    hide Transmit, Writes, Values, ReplayFields, NumberAt, Refusal, Original, Parse, WireOf, SohFree, ReplayOf;
    var original := records[n].wire;
    OriginalEncodes(original, n);
    CleanReadsBack(original);
    OriginalNumber(original, n);
    OriginalSent(env, original, n, w.ticks);
    TransmitSends(w.(ticks := w.ticks + 1), n, ApplicationReplay, ReplayOf(env, original, w.ticks));
  }

  lemma OriginalEncodes(m: Message, n: nat)
    requires Original(m, n) && |WireOf(m)| <= USIZE_MAX
    ensures Encodes(m)
  {
    hide WireOf, Values;
  }

  /** What is sent again of an original, and that the encoder takes it. */
  lemma OriginalSent(env: Env, original: Message, n: nat, ticks: nat)
    requires ConfigOk(env.config) && Original(original, n)
    ensures First(original.fields, 52).Some? && |Values(original.fields, 52)| == 1
    ensures var wire := ReplayOf(env, original, ticks);
            && wire == Message(env.config.beginString,
                               ReplayFields(env, original.fields, First(original.fields, 52).value, ticks))
            && Refusal(wire.beginString, wire.fields).None?
  {
    hide Values, ReplayFields, RefusedField, Original;
    OriginalReplay(env, original, n, ticks);
    OriginalHead(original, n);
  }

  lemma OriginalHead(m: Message, n: nat)
    requires Original(m, n)
    ensures m.fields != [] && m.fields[0].tag == 35
  {
    hide Values, RefusedField;
  }

  lemma ClosingSends(env: Env, w: World, records: map<nat, OutboundRecord>, gapStart: Option<nat>, next: nat)
    requires ConfigOk(env.config)
    ensures var r := CloseGap(env, w, gapStart, next);
            && r.error.None? && r.w.ticks == w.ticks + |Closing(gapStart, next)|
            && Writes(r.w.trace) == Writes(w.trace) + RenderedAll(env, records, Closing(gapStart, next), w.ticks)
  {
    hide SendGapFill, Writes;
    if gapStart.Some? {
      GapFillSends(env, w, gapStart.value, next);
      assert RenderedAll(env, records, Closing(gapStart, next), w.ticks) ==
             [Rendered(env, map[], Skipped(gapStart.value, next), w.ticks)];
    }
  }

  lemma {:induction false} ReplayFromSends(
      env: Env, w: World, records: map<nat, OutboundRecord>, n: nat, end: nat, gapStart: Option<nat>)
    requires n <= end + 1 && ConfigOk(env.config)
    requires forall k: nat | n <= k <= end && IsReplayable(records, k) :: Resendable(records, k)
    ensures var r := ReplayFrom(env, w, records, n, end, gapStart);
            && r.error.None?
            && Writes(r.w.trace) ==
               Writes(w.trace) + RenderedAll(env, records, Plan(records, n, end, gapStart), w.ticks)
    decreases end + 1 - n
  {
    hide CloseGap, SendApplicationReplay, Writes, RenderedAll, Rendered, Resendable;
    if n > end {
      ClosingSends(env, w, records, gapStart, end + 1);
    } else if !IsReplayable(records, n) {
      ReplayFromSends(env, w, records, n + 1, end, if gapStart.Some? then gapStart else Some(n));
    } else {
      ClosingSends(env, w, records, gapStart, n);
      var closed := CloseGap(env, w, gapStart, n);
      ApplicationSends(env, closed.w, records, n);
      var sent := SendApplicationReplay(env, closed.w, records[n].wire);
      ReplayFromSends(env, sent.w, records, n + 1, end, None);
      var rest := Plan(records, n + 1, end, None);
      RenderedJoin(env, records, Closing(gapStart, n), Resent(n), rest, w.ticks);
      FourAssociate(Writes(w.trace), RenderedAll(env, records, Closing(gapStart, n), w.ticks),
                    [Rendered(env, records, Resent(n), closed.w.ticks)], RenderedAll(env, records, rest, sent.w.ticks));
    }
  }

  lemma FourAssociate(a: seq<Message>, b: seq<Message>, c: seq<Message>, d: seq<Message>)
    ensures a + b + c + d == a + (b + c + d)
  {
  }

  lemma RenderedJoin(
      env: Env, records: map<nat, OutboundRecord>, a: seq<Item>, item: Item, rest: seq<Item>, ticks: nat)
    ensures RenderedAll(env, records, a + ([item] + rest), ticks) ==
            RenderedAll(env, records, a, ticks) + [Rendered(env, records, item, ticks + |a|)]
            + RenderedAll(env, records, rest, ticks + |a| + 1)
  {
    hide Rendered;
  }

  /** The plan depends only on the rows of its range. */
  lemma {:induction false} PlanCongruent(
      a: map<nat, OutboundRecord>, b: map<nat, OutboundRecord>, n: nat, end: nat, gapStart: Option<nat>)
    requires n <= end + 1
    requires SameRows(a, b, n, end)
    ensures Plan(a, n, end, gapStart) == Plan(b, n, end, gapStart)
    decreases end + 1 - n
  {
    if n <= end {
      PlanCongruent(a, b, n + 1, end, if gapStart.Some? then gapStart else Some(n));
      PlanCongruent(a, b, n + 1, end, None);
    }
  }

  /** What a session that keeps its invariant writes for a requested range whose application messages are
      intact is the plan of that range, and nothing goes wrong: application messages again, whether written
      before or only journaled, and gap fills for everything else. */
  lemma ReplayWrites(j: Journal, env: Env, w: World, begin: nat, end: nat)
    requires Kept(j, w) && ConfigOk(env.config)
    requires 1 <= begin <= end < w.journal.nextOut && end <= U64_MAX
    requires IntactRange(w.journal.outbound, begin, end)
    ensures var items := Plan(w.journal.outbound, begin, end, None);
            var r := Replay(env, w, begin, end);
            && r.error.None?
            && Writes(r.w.trace) == Writes(w.trace) + RenderedAll(env, w.journal.outbound, items, w.ticks)
            && Tiles(items, begin, end + 1) && NoTwoGaps(items)
            && ResendsExactly(items, w.journal.outbound, begin, end)
  {
    hide Traced, ByNumber, RangeOf, ReplayFrom, Writes, Plan, Tiles, Original, Intact;
    var rows := w.journal.outbound;
    var records := ByNumber(RangeOf(w.journal, begin, end));
    JournalInOrder(j, w);
    LoadedRecords(w.journal, begin, end);
    ReplayFromSends(env, w, records, begin, end, None);
    PlanCongruent(records, rows, begin, end, None);
    PlanTiles(rows, begin, end, None);
    RenderedCongruent(env, records, rows, begin, end, w.ticks);
  }

  // ----- when a replay fails -----

  lemma ClosingSucceeds(env: Env, w: World, gapStart: Option<nat>, next: nat)
    requires ConfigOk(env.config)
    ensures CloseGap(env, w, gapStart, next).error.None?
  {
    hide SendGapFill;
    if gapStart.Some? {
      GapFillSends(env, w, gapStart.value, next);
    }
  }

  lemma {:induction false} ReplayFromSucceeds(
      env: Env, w: World, records: map<nat, OutboundRecord>, n: nat, end: nat, gapStart: Option<nat>)
    requires n <= end + 1 && ConfigOk(env.config)
    requires forall k: nat | n <= k <= end && IsReplayable(records, k) :: Encodes(records[k].wire)
    ensures ReplayFrom(env, w, records, n, end, gapStart).error.None? <==>
            forall k: nat | n <= k <= end && IsReplayable(records, k) :: Replays(records[k].wire)
    decreases end + 1 - n
  {
    hide CloseGap, SendApplicationReplay, Encodes, Replays;
    if n > end {
      ClosingSucceeds(env, w, gapStart, end + 1);
    } else if !IsReplayable(records, n) {
      ReplayFromSucceeds(env, w, records, n + 1, end, if gapStart.Some? then gapStart else Some(n));
    } else {
      ClosingSucceeds(env, w, gapStart, n);
      var closed := CloseGap(env, w, gapStart, n);
      ApplicationReplays(env, closed.w, records[n].wire);
      var sent := SendApplicationReplay(env, closed.w, records[n].wire);
      if sent.error.None? {
        ReplayFromSucceeds(env, sent.w, records, n + 1, end, None);
      }
    }
  }

  /** A replay of rows that fit the memory succeeds exactly when the stored bytes of every application
      message of the range are tiled by fields that can go again. */
  lemma ReplaySucceedsExactly(j: Journal, env: Env, w: World, begin: nat, end: nat)
    requires Kept(j, w) && ConfigOk(env.config) && 1 <= begin <= end < w.journal.nextOut
    requires forall n: nat | begin <= n <= end && IsReplayable(w.journal.outbound, n) ::
               |WireOf(w.journal.outbound[n].wire)| <= USIZE_MAX
    ensures Replay(env, w, begin, end).error.None? <==>
            forall n: nat | begin <= n <= end && IsReplayable(w.journal.outbound, n) ::
              Replays(w.journal.outbound[n].wire)
  {
    hide Traced, ByNumber, RangeOf, ReplayFrom, Original, Replays, WireOf, Encodes;
    var rows := w.journal.outbound;
    var records := ByNumber(RangeOf(w.journal, begin, end));
    JournalInOrder(j, w);
    LoadedRecords(w.journal, begin, end);
    forall n: nat | begin <= n <= end && IsReplayable(records, n)
      ensures Encodes(records[n].wire)
    {
      assert records[n] == rows[n];
      OriginalEncodes(rows[n].wire, n);
    }
    ReplayFromSucceeds(env, w, records, begin, end, None);
    assert forall n: nat | begin <= n <= end :: IsReplayable(records, n) == IsReplayable(rows, n);
  }

  /** Where a replay stops: at the first application message that is not readable, after everything before it
      was written as planned, with the parser's reason. */
  lemma ReplayStopsAt(j: Journal, env: Env, w: World, begin: nat, end: nat, n: nat, reason: ParseError)
    requires Kept(j, w) && ConfigOk(env.config)
    requires 1 <= begin <= n <= end < w.journal.nextOut && end <= U64_MAX
    requires IsReplayable(w.journal.outbound, n) && IntactRange(w.journal.outbound, begin, n - 1)
    requires Parse(WireOf(w.journal.outbound[n].wire)) == Err(reason)
    ensures var r := Replay(env, w, begin, end);
            && r.error == Some(Unparsable(reason))
            && Writes(r.w.trace) ==
               Writes(w.trace)
               + RenderedAll(env, w.journal.outbound, Plan(w.journal.outbound, begin, n - 1, None), w.ticks)
  {
    hide Traced, ByNumber, RangeOf, ReplayFrom, Writes, Plan, Original, Parse, WireOf, Intact;
    var rows := w.journal.outbound;
    var records := ByNumber(RangeOf(w.journal, begin, end));
    JournalInOrder(j, w);
    LoadedRecords(w.journal, begin, end);
    assert records[n] == rows[n];
    ReplayFromStops(env, w, records, begin, end, n, None, reason);
    PlanCongruent(records, rows, begin, n - 1, None);
    RenderedCongruent(env, records, rows, begin, n - 1, w.ticks);
  }

  lemma {:induction false} ReplayFromStops(
      env: Env, w: World, records: map<nat, OutboundRecord>, k: nat, end: nat, n: nat, gapStart: Option<nat>,
      reason: ParseError)
    requires k <= n <= end && 1 <= n && ConfigOk(env.config) && IsReplayable(records, n)
    requires Parse(WireOf(records[n].wire)) == Err(reason)
    requires forall i: nat | k <= i < n && IsReplayable(records, i) :: Resendable(records, i)
    ensures var r := ReplayFrom(env, w, records, k, end, gapStart);
            && r.error == Some(Unparsable(reason))
            && Writes(r.w.trace) ==
               Writes(w.trace) + RenderedAll(env, records, Plan(records, k, n - 1, gapStart), w.ticks)
    decreases n - k
  {
    hide CloseGap, Writes, RenderedAll, Rendered, Resendable, Parse, WireOf, SendReplayOf;
    if k == n {
      ClosingSends(env, w, records, gapStart, n);
    } else if !IsReplayable(records, k) {
      ReplayFromStops(env, w, records, k + 1, end, n, if gapStart.Some? then gapStart else Some(k), reason);
    } else {
      hide SendApplicationReplay;
      ClosingSends(env, w, records, gapStart, k);
      var closed := CloseGap(env, w, gapStart, k);
      ApplicationSends(env, closed.w, records, k);
      var sent := SendApplicationReplay(env, closed.w, records[k].wire);
      ReplayFromStops(env, sent.w, records, k + 1, end, n, None, reason);
      var rest := Plan(records, k + 1, n - 1, None);
      RenderedJoin(env, records, Closing(gapStart, k), Resent(k), rest, w.ticks);
      FourAssociate(Writes(w.trace), RenderedAll(env, records, Closing(gapStart, k), w.ticks),
                    [Rendered(env, records, Resent(k), closed.w.ticks)], RenderedAll(env, records, rest, sent.w.ticks));
    }
  }

  lemma JournalInOrder(j: Journal, w: World)
    requires Kept(j, w)
    ensures OutboundInv(w.journal) && OriginalsStored(w.journal)
  {
    hide OutboundInv, OriginalsStored, TransmissionInv, InboundInv, Safe, OpsInOrder;
  }

  lemma RenderedCongruent(
      env: Env, a: map<nat, OutboundRecord>, b: map<nat, OutboundRecord>, begin: nat, end: nat, ticks: nat)
    requires begin <= end + 1 && SameRows(a, b, begin, end)
    ensures var items := Plan(b, begin, end, None);
            RenderedAll(env, a, items, ticks) == RenderedAll(env, b, items, ticks)
  {
    hide Plan;
    var items := Plan(b, begin, end, None);
    PlanTiles(b, begin, end, None);
    forall i | 0 <= i < |items|
      ensures Rendered(env, a, items[i], ticks + i) == Rendered(env, b, items[i], ticks + i)
    {
      if items[i].Resent? {
        assert items[i] in items;
      }
    }
  }
}
