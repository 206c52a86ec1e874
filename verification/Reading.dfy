// From the bytes of the socket to the session: however a peer's stream is cut into reads, the session
// handles the peer's messages one after another.

module Reading {
  import opened Text
  import opened Codec
  import opened Messages
  import opened Parser
  import opened Store
  import opened Session
  import D = Decoder

  /** The body limit that the actor gives its decoder. */
  const MAX_BODY: nat := 1024 * 1024

  /** Frames as inputs of the actor. */
  function Receipts(frames: seq<Bytes>): (inputs: seq<Input>)
    ensures |inputs| == |frames| && forall i | 0 <= i < |frames| :: inputs[i] == Received(frames[i])
  {
    seq(|frames|, i requires 0 <= i < |frames| => Received(frames[i]))
  }

  /** What one read does, once the decoder has replied. */
  function AfterRead(env: Env, w: World, reply: Result<seq<Bytes>, FrameError>): Step {
    match reply
    case Err(e) => Step(w, Some(Unparsable(Frame(e))))
    case Ok(frames) => Turns(env, Step(w, None), Receipts(frames))
  }

  /** Reads one after another, until an error. */
  function Reads(env: Env, s: Step, buffer: Bytes, chunks: seq<Bytes>, max: nat): Step
    decreases |chunks|
  {
    if chunks == [] || s.error.Some? then s
    else
      var (rest, reply) := D.IngestSpec(buffer, chunks[0], max);
      Reads(env, AfterRead(env, s.w, reply), rest, chunks[1..], max)
  }

  lemma {:induction false} TurnsJoin(env: Env, s: Step, a: seq<Input>, b: seq<Input>)
    ensures Turns(env, s, a + b) == Turns(env, Turns(env, s, a), b)
    decreases |a|
  {
    hide Turn;
    if a == [] {
      assert a + b == b;
    } else if s.error.None? {
      assert (a + b)[0] == a[0] && (a + b)[1..] == a[1..] + b;
      TurnsJoin(env, Turn(env, s.w, a[0]), a[1..], b);
    }
  }

  lemma ReceiptsJoin(a: seq<Bytes>, b: seq<Bytes>)
    ensures Receipts(a + b) == Receipts(a) + Receipts(b)
  {
  }

  lemma StoppedStays(env: Env, s: Step, inputs: seq<Input>)
    requires s.error.Some?
    ensures Turns(env, s, inputs) == s
  {
  }

  /** As long as the decoder finds no fault, reading chunk by chunk is handling the frames in order. */
  lemma {:induction false} ReadsAreTurns(env: Env, s: Step, buffer: Bytes, chunks: seq<Bytes>, max: nat)
    requires D.Run(buffer, chunks, max).Ok?
    ensures Reads(env, s, buffer, chunks, max) == Turns(env, s, Receipts(D.Run(buffer, chunks, max).value.0))
    decreases |chunks|
  {
    hide Turns, D.IngestSpec;
    var frames := D.Run(buffer, chunks, max).value.0;
    if s.error.Some? {
      StoppedStays(env, s, Receipts(frames));
    } else if chunks == [] {
      TurnsNothing(env, s);
    } else {
      var (rest, reply) := D.IngestSpec(buffer, chunks[0], max);
      var later := D.Run(rest, chunks[1..], max).value.0;
      ReadsAreTurns(env, AfterRead(env, s.w, reply), rest, chunks[1..], max);
      ReceiptsJoin(reply.value, later);
      TurnsJoin(env, s, Receipts(reply.value), Receipts(later));
    }
  }

  lemma TurnsNothing(env: Env, s: Step)
    ensures Turns(env, s, []) == s
  {
  }

  // ----- encoded messages -----

  function Wires(messages: seq<Message>): (wires: seq<Bytes>)
    ensures |wires| == |messages| && forall i | 0 <= i < |messages| :: wires[i] == WireOf(messages[i])
  {
    seq(|messages|, i requires 0 <= i < |messages| => WireOf(messages[i]))
  }

  /** A message whose wire form carries it and fits the decoder. */
  ghost predicate Sendable(m: Message, max: nat) {
    && Encode(m.beginString, m.fields).Ok? && SohFree(m.fields)
    && |Body(m.fields)| <= max && |WireOf(m)| <= max + D.SLACK + 1
  }

  /** The messages one after another, until an error. */
  function HandleAll(env: Env, s: Step, messages: seq<Message>): Step
    decreases |messages|
  {
    if messages == [] || s.error.Some? then s else HandleAll(env, Handle(env, s.w, messages[0]), messages[1..])
  }

  /** Handling the bytes of a message is handling the message. */
  lemma HandleEncoded(env: Env, w: World, m: Message)
    requires Encode(m.beginString, m.fields).Ok? && |Encode(m.beginString, m.fields).value| <= USIZE_MAX
    requires SohFree(m.fields)
    ensures HandleFrame(env, w, Encode(m.beginString, m.fields).value) == Handle(env, w, m)
  {
    hide Encode, Parse, Handle;
    RoundTrip(m.beginString, m.fields);
  }

  lemma SendableFrames(m: Message, max: nat)
    requires Sendable(m, max) && max + D.SLACK < USIZE_MAX
    ensures var wire := Encode(m.beginString, m.fields).value;
            D.Framed(wire, max) && wire == WireOf(m) && |wire| <= max + D.SLACK + 1 <= USIZE_MAX
  {
    hide Encode, Body, IsFrame;
    EncodedIsFrame(m.beginString, m.fields);
    var body := Body(m.fields);
    WiderLimit(Encode(m.beginString, m.fields).value, m.beginString, Dec(|body|), body,
               ThreeDigits(Checksum(Head(m.beginString, Dec(|body|), body))), |body|, max);
  }

  lemma WiderLimit(f: Bytes, begin: Bytes, digits: Bytes, body: Bytes, check: Bytes, small: nat, max: nat)
    requires IsFrame(f, begin, digits, body, check, small) && small <= max
    ensures IsFrame(f, begin, digits, body, check, max)
  {
    hide Head, Delimit, Checksum, DigitsValue, AllDigits;
  }

  lemma {:induction false} WiresHandled(env: Env, s: Step, messages: seq<Message>)
    requires forall m | m in messages :: Encode(m.beginString, m.fields).Ok? && SohFree(m.fields)
    requires forall m | m in messages :: |WireOf(m)| <= USIZE_MAX
    ensures Turns(env, s, Receipts(Wires(messages))) == HandleAll(env, s, messages)
    decreases |messages|
  {
    hide Encode, Handle, SohFree, HandleFrame;
    if messages == [] {
      TurnsNothing(env, s);
    } else if s.error.Some? {
      StoppedStays(env, s, Receipts(Wires(messages)));
    } else {
      var m, rest := messages[0], messages[1..];
      assert m in messages && forall other | other in rest :: other in messages;
      HandleEncoded(env, s.w, m);
      WiresHandled(env, Handle(env, s.w, m), rest);
      var inputs := Receipts(Wires(messages));
      assert inputs[1..] == Receipts(Wires(rest));
      assert inputs[0] == Received(WireOf(m));
    }
  }

  /** A peer's messages, encoded one after another and cut into reads anywhere, are handled as the messages
      in their order: the same journal, the same writes, the same error if there is one. */
  lemma StreamIsHandled(env: Env, s: Step, messages: seq<Message>, chunks: seq<Bytes>, max: nat)
    requires forall m | m in messages :: Sendable(m, max)
    requires max + D.SLACK < USIZE_MAX && D.Flatten(chunks) == D.Flatten(Wires(messages))
    ensures Reads(env, s, [], chunks, max) == HandleAll(env, s, messages)
  {
    hide Encode, Handle, D.Framed, D.Run, Turns, HandleAll, Reads, D.Flatten, SohFree, Body;
    var wires := Wires(messages);
    forall i | 0 <= i < |wires|
      ensures D.Framed(wires[i], max) && |wires[i]| <= max + D.SLACK + 1 <= USIZE_MAX
    {
      assert messages[i] in messages;
      SendableFrames(messages[i], max);
    }
    forall m | m in messages
      ensures Encode(m.beginString, m.fields).Ok? && SohFree(m.fields) && |WireOf(m)| <= USIZE_MAX
    {
      SendableFrames(m, max);
    }
    D.FragmentedStreamDecodes(wires, chunks, max);
    ReadsAreTurns(env, s, [], chunks, max);
    WiresHandled(env, s, messages);
  }
}
