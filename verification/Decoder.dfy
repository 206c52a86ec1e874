// The incremental decoder and its independence from how the input is cut into chunks.

module Decoder {
  import opened Text
  import opened Codec

  const SLACK: nat := 1024

  // ----- specification -----

  datatype Drained = Drained(frames: seq<Bytes>, rest: Bytes, error: Option<FrameError>)

  /** Every frame at the head of the buffer, what is left, and the error that stopped the scan. */
  function Drain(b: Bytes, max: nat): Drained
    decreases |b|
  {
    match Scan(b, max)
    case NeedMore => Drained([], b, None)
    case Bad(e) => Drained([], b, Some(e))
    case Complete(end) => Then(Drained([b[..end]], b[end..], None), Drain(b[end..], max))
  }

  function Then(first: Drained, later: Drained): Drained {
    Drained(first.frames + later.frames, later.rest, later.error)
  }

  function Flatten(parts: seq<Bytes>): Bytes {
    if parts == [] then [] else parts[0] + Flatten(parts[1..])
  }

  lemma FlattenNothing(rest: Bytes)
    ensures Flatten([]) + rest == rest
  {
  }

  lemma FlattenCons(first: Bytes, others: seq<Bytes>)
    ensures Flatten([first] + others) == first + Flatten(others)
  {
    assert ([first] + others)[1..] == others;
  }

  lemma {:induction false} FlattenAppend(a: seq<Bytes>, b: seq<Bytes>)
    ensures Flatten(a + b) == Flatten(a) + Flatten(b)
  {
    if a == [] {
      assert a + b == b;
    } else {
      assert (a + b)[1..] == a[1..] + b;
      FlattenAppend(a[1..], b);
    }
  }

  /** One call of `ingest` on a buffer: the new buffer and the reply. */
  function IngestSpec(buffer: Bytes, chunk: Bytes, max: nat): (Bytes, Result<seq<Bytes>, FrameError>) {
    var d := Drain(buffer + chunk, max);
    (d.rest,
     if d.error.Some? then Err(d.error.value)
     else if max + SLACK > USIZE_MAX then Err(LengthOverflow)
     else if |d.rest| > max + SLACK then Err(BufferedDataTooLarge)
     else Ok(d.frames))
  }

  lemma ThenNothing(d: Drained)
    ensures forall b :: Then(Drained([], b, None), d) == d
  {
    assert [] + d.frames == d.frames;
  }

  lemma ThenAssociates(a: seq<Bytes>, b: seq<Bytes>, rest: Bytes, d: Drained)
    ensures Then(Drained(a, rest, None), Then(Drained(b, rest, None), d)) == Then(Drained(a + b, rest, None), d)
  {
    assert a + (b + d.frames) == a + b + d.frames;
  }

  // ----- the decoder -----

  class FrameDecoder {
    var buffer: Bytes
    const maxBodyLength: nat

    constructor (maxBodyLength: nat)
      ensures buffer == [] && this.maxBodyLength == maxBodyLength
    {
      buffer := [];
      this.maxBodyLength := maxBodyLength;
    }

    method TryTakeFrame() returns (r: Result<Option<Bytes>, FrameError>)
      modifies this
      ensures match Scan(old(buffer), maxBodyLength)
              case NeedMore => r == Ok(None) && buffer == old(buffer)
              case Bad(e) => r == Err(e) && buffer == old(buffer)
              case Complete(end) => r == Ok(Some(old(buffer)[..end])) && buffer == old(buffer)[end..]
    {
      match Scan(buffer, maxBodyLength) {
        case NeedMore => r := Ok(None);
        case Bad(e) => r := Err(e);
        case Complete(end) =>
          r := Ok(Some(buffer[..end]));
          buffer := buffer[end..];
      }
    }

    method Ingest(chunk: Bytes) returns (r: Result<seq<Bytes>, FrameError>)
      modifies this
      ensures (buffer, r) == IngestSpec(old(buffer), chunk, maxBodyLength)
    {
      buffer := buffer + chunk;
      ghost var all := buffer;
      var frames: seq<Bytes> := [];
      ThenNothing(Drain(all, maxBodyLength));
      while true
        invariant Drain(all, maxBodyLength) == Then(Drained(frames, buffer, None), Drain(buffer, maxBodyLength))
        decreases |buffer|
      {
        hide Scan;
        ghost var was := buffer;
        var frame := TryTakeFrame();
        if frame.Err? {
          assert frames + [] == frames;
          return Err(frame.error);
        }
        if frame.value.None? {
          assert frames + [] == frames;
          break;
        }
        ThenAssociates(frames, [frame.value.value], buffer, Drain(buffer, maxBodyLength));
        frames := frames + [frame.value.value];
      }
      if maxBodyLength + SLACK > USIZE_MAX {
        return Err(LengthOverflow);
      }
      if |buffer| > maxBodyLength + SLACK {
        return Err(BufferedDataTooLarge);
      }
      r := Ok(frames);
    }
  }

  // ----- feeding a buffer in pieces -----

  /** Draining early changes nothing: what is left over is drained together with what follows. */
  lemma {:induction false} DrainInPieces(a: Bytes, b: Bytes, max: nat)
    ensures var d := Drain(a, max);
            Drain(a + b, max) ==
            if d.error.None? then Then(d, Drain(d.rest + b, max)) else Drained(d.frames, d.rest + b, d.error)
    decreases |a|
  {
    hide Scan;
    match Scan(a, max)
    case NeedMore =>
      ThenNothing(Drain(a + b, max));
    case Bad(e) =>
      ScanStable(a, b, max);
    case Complete(end) =>
      ScanStable(a, b, max);
      var first, tail := a[..end], a[end..];
      DrainInPieces(tail, b, max);
      assert (a + b)[..end] == first && (a + b)[end..] == tail + b;
      var later := Drain(tail, max);
      ThenAssociates([first], later.frames, [], Drain(later.rest + b, max));
  }

  /** Frames and leftover are the input, and the leftover holds no further frame. */
  lemma {:induction false} DrainConserves(b: Bytes, max: nat)
    ensures var d := Drain(b, max);
            && Flatten(d.frames) + d.rest == b
            && (d.error.None? <==> Scan(d.rest, max).NeedMore?)
    decreases |b|
  {
    hide Scan, Flatten;
    match Scan(b, max)
    case NeedMore => FlattenNothing(b);
    case Bad(e) => FlattenNothing(b);
    case Complete(end) =>
      var later := Drain(b[end..], max);
      DrainConserves(b[end..], max);
      FlattenJoin(b, end, later.frames, later.rest);
  }

  lemma FlattenJoin(b: Bytes, end: nat, frames: seq<Bytes>, rest: Bytes)
    requires end <= |b| && Flatten(frames) + rest == b[end..]
    ensures Flatten([b[..end]] + frames) + rest == b
  {
    FlattenCons(b[..end], frames);
    var joined := Flatten(frames);
    hide Flatten;
    assert b[..end] + joined + rest == b[..end] + (joined + rest);
    assert b[..end] + b[end..] == b;
  }

  /** A run of `ingest` over a list of chunks, stopping at the first error. */
  function Run(buffer: Bytes, chunks: seq<Bytes>, max: nat): Result<(seq<Bytes>, Bytes), FrameError>
    decreases |chunks|
  {
    if chunks == [] then Ok(([], buffer))
    else
      var (next, reply) := IngestSpec(buffer, chunks[0], max);
      match reply
      case Err(e) => Err(e)
      case Ok(frames) =>
        match Run(next, chunks[1..], max)
        case Err(e) => Err(e)
        case Ok((later, rest)) => Ok((frames + later, rest))
  }

  /** After each of the chunks, what is left over fits the buffer bound. */
  ghost predicate NeverOverfull(buffer: Bytes, chunks: seq<Bytes>, max: nat) {
    forall k | 1 <= k <= |chunks| :: |Drain(buffer + Flatten(chunks[..k]), max).rest| <= max + SLACK
  }

  lemma FlattenTake(chunks: seq<Bytes>, k: nat)
    requires 1 <= k <= |chunks|
    ensures Flatten(chunks[..k]) == chunks[0] + Flatten(chunks[1..][..k - 1])
  {
    assert chunks[..k] == [chunks[0]] + chunks[1..][..k - 1];
    FlattenCons(chunks[0], chunks[1..][..k - 1]);
  }

  /** The bound for a list of chunks, by its first chunk and the others. */
  lemma OverfullStep(buffer: Bytes, chunks: seq<Bytes>, max: nat)
    requires chunks != [] && Drain(buffer + chunks[0], max).error.None?
    ensures var d := Drain(buffer + chunks[0], max);
            NeverOverfull(buffer, chunks, max) <==> |d.rest| <= max + SLACK && NeverOverfull(d.rest, chunks[1..], max)
  {
    hide Drain;
    var d := Drain(buffer + chunks[0], max);
    forall k | 1 <= k <= |chunks|
      ensures Drain(buffer + Flatten(chunks[..k]), max).rest
           == Drain(d.rest + Flatten(chunks[1..][..k - 1]), max).rest
    {
      FlattenTake(chunks, k);
      var others := Flatten(chunks[1..][..k - 1]);
      assert buffer + (chunks[0] + others) == (buffer + chunks[0]) + others;
      DrainInPieces(buffer + chunks[0], others, max);
    }
    assert chunks[1..][..0] == [] && d.rest + [] == d.rest;
    DrainInPieces(buffer + chunks[0], [], max);
    assert buffer + chunks[0] + [] == buffer + chunks[0];
    if NeverOverfull(buffer, chunks, max) {
      assert |Drain(buffer + Flatten(chunks[..1]), max).rest| <= max + SLACK;
      forall k | 1 <= k <= |chunks[1..]|
        ensures |Drain(d.rest + Flatten(chunks[1..][..k]), max).rest| <= max + SLACK
      {
        assert |Drain(buffer + Flatten(chunks[..k + 1]), max).rest| <= max + SLACK;
      }
    }
  }

  /** A chunked run succeeds exactly when the whole input drains without error and no leftover is too
      long; it then yields what draining the whole input yields. */
  lemma {:induction false} RunExact(buffer: Bytes, chunks: seq<Bytes>, max: nat)
    requires Scan(buffer, max).NeedMore? && max + SLACK <= USIZE_MAX
    ensures var whole := Drain(buffer + Flatten(chunks), max);
            && (Run(buffer, chunks, max).Ok? <==> whole.error.None? && NeverOverfull(buffer, chunks, max))
            && (Run(buffer, chunks, max).Ok? ==> Run(buffer, chunks, max).value == (whole.frames, whole.rest))
            && (Run(buffer, chunks, max).Err? && whole.error.None? ==>
                Run(buffer, chunks, max) == Err(BufferedDataTooLarge))
    decreases |chunks|
  {
    hide Scan;
    if chunks == [] {
      assert buffer + [] == buffer;
    } else {
      hide NeverOverfull;
      var later := Flatten(chunks[1..]);
      assert buffer + Flatten(chunks) == (buffer + chunks[0]) + later;
      var d := Drain(buffer + chunks[0], max);
      DrainInPieces(buffer + chunks[0], later, max);
      if d.error.None? {
        DrainConserves(buffer + chunks[0], max);
        OverfullStep(buffer, chunks, max);
        RunExact(d.rest, chunks[1..], max);
      }
    }
  }

  /** Cutting the input into chunks gives the frames and leftover of a single `ingest`, or stops with
      BufferedDataTooLarge, which happens exactly when some prefix of the chunks leaves too much over. */
  lemma ChunkingIndependence(chunks: seq<Bytes>, max: nat)
    requires chunks != [] && max + SLACK <= USIZE_MAX
    ensures var (rest, reply) := IngestSpec([], Flatten(chunks), max);
            && (Run([], chunks, max).Ok? <==> reply.Ok? && NeverOverfull([], chunks, max))
            && (Run([], chunks, max).Ok? ==> Run([], chunks, max).value == (reply.value, rest))
            && (Run([], chunks, max).Err? && reply.Ok? ==> Run([], chunks, max) == Err(BufferedDataTooLarge))
            && (reply.Ok? ==> Flatten(reply.value) + rest == Flatten(chunks))
  {
    hide Scan, Drain, Run;
    ScanNothing(max);
    RunExact([], chunks, max);
    DrainConserves(Flatten(chunks), max);
    assert [] + Flatten(chunks) == Flatten(chunks);
    if NeverOverfull([], chunks, max) {
      assert chunks[..|chunks|] == chunks;
      assert |Drain([] + Flatten(chunks[..|chunks|]), max).rest| <= max + SLACK;
    }
  }

  lemma ScanNothing(max: nat)
    ensures Scan([], max).NeedMore?
  {
  }

  // ----- when the bound cannot be hit -----

  /** A frame that the first bytes do not complete is longer than they are. */
  lemma CompletedLater(b: Bytes, more: Bytes, max: nat)
    requires Scan(b, max).NeedMore? && Scan(b + more, max).Complete?
    ensures Scan(b + more, max).end > |b|
  {
    hide Scan, IsFrame;
    var end := Scan(b + more, max).end;
    if end <= |b| {
      var begin, digits, body, check := ScannedIsFrame(b + more, max);
      assert (b + more)[..end] == b[..end];
      FrameAheadIsScanned(b, end, begin, digits, body, check, max);
    }
  }

  /** Input whose frames are all short enough never leaves too much over, however it is cut. */
  lemma ShortFramesFit(chunks: seq<Bytes>, max: nat)
    requires var whole := Drain(Flatten(chunks), max);
             && whole.error.None? && |whole.rest| <= max + SLACK
             && forall f | f in whole.frames :: |f| <= max + SLACK + 1
    ensures NeverOverfull([], chunks, max)
  {
    hide Scan;
    forall k | 1 <= k <= |chunks|
      ensures |Drain([] + Flatten(chunks[..k]), max).rest| <= max + SLACK
    {
      var front, back := Flatten(chunks[..k]), Flatten(chunks[k..]);
      assert chunks == chunks[..k] + chunks[k..];
      FlattenAppend(chunks[..k], chunks[k..]);
      assert [] + front == front;
      ShortFramesFitPrefix(front, back, max);
    }
  }

  lemma ShortFramesFitPrefix(front: Bytes, back: Bytes, max: nat)
    requires var whole := Drain(front + back, max);
             && whole.error.None? && |whole.rest| <= max + SLACK
             && forall f | f in whole.frames :: |f| <= max + SLACK + 1
    ensures |Drain(front, max).rest| <= max + SLACK
  {
    hide Scan;
    var d := Drain(front, max);
    DrainInPieces(front, back, max);
    DrainConserves(front, max);
    if Scan(d.rest + back, max).Complete? {
      CompletedLater(d.rest, back, max);
      var f := (d.rest + back)[..Scan(d.rest + back, max).end];
      assert Drain(d.rest + back, max).frames[0] == f;
      assert f in Drain(front + back, max).frames;
    }
  }

  // ----- streams of encoded messages -----

  ghost predicate Framed(wire: Bytes, max: nat) {
    exists begin, digits, body, check :: IsFrame(wire, begin, digits, body, check, max)
  }

  lemma {:induction false} DrainStream(wires: seq<Bytes>, max: nat)
    requires forall w | w in wires :: Framed(w, max)
    ensures Drain(Flatten(wires), max) == Drained(wires, [], None)
  {
    hide Scan;
    if wires == [] {
      ScanNothing(max);
    } else {
      var all := Flatten(wires);
      assert all[..|wires[0]|] == wires[0] && all[|wires[0]|..] == Flatten(wires[1..]);
      assert wires[0] in wires;
      var begin, digits, body, check :| IsFrame(wires[0], begin, digits, body, check, max);
      FrameAheadIsScanned(all, |wires[0]|, begin, digits, body, check, max);
      DrainStream(wires[1..], max);
      assert wires == [wires[0]] + wires[1..];
    }
  }

  /** A stream of frames, cut anywhere, decodes to exactly those frames with nothing left over. */
  lemma FragmentedStreamDecodes(wires: seq<Bytes>, chunks: seq<Bytes>, max: nat)
    requires forall w | w in wires :: Framed(w, max) && |w| <= max + SLACK + 1
    requires Flatten(chunks) == Flatten(wires) && max + SLACK <= USIZE_MAX
    ensures Run([], chunks, max) == Ok((wires, []))
  {
    hide Scan, Drain, Run, NeverOverfull;
    DrainStream(wires, max);
    ShortFramesFit(chunks, max);
    ScanNothing(max);
    RunExact([], chunks, max);
    assert [] + Flatten(chunks) == Flatten(chunks);
  }
}
