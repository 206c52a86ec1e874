// Reading a journaled message back: a replay parses the stored bytes, so what it sends again is what those
// bytes say, and it stops at bytes that do not parse.

module ReadBack {
  import opened Text
  import opened Codec
  import opened Messages
  import opened Parser
  import opened Store
  import opened Session
  import opened SessionSafety
  import opened ReplayFieldFacts

  /** The bytes of the message, between BodyLength and CheckSum, are tiled by these fields. */
  ghost predicate ReadsBackAs(m: Message, fields: seq<Field>) {
    exists digits :: Spells(digits, fields) && SohFree(fields) && FieldText(digits, fields) == Body(m.fields)
  }

  /** Fields with a number, a time and no tag that the encoder keeps to itself, MsgType first. */
  ghost predicate CanGoAgain(fields: seq<Field>) {
    && fields != [] && fields[0].tag == 35 && RefusedField(fields).None?
    && NumberAt(Message([], fields), 34).Some? && First(fields, 52).Some?
  }

  /** The stored message can be replayed. */
  ghost predicate Replays(m: Message) { exists fields :: ReadsBackAs(m, fields) && CanGoAgain(fields) }

  /** The encoder takes it, and its bytes fit the memory. */
  ghost predicate Encodes(m: Message) {
    Refusal(m.beginString, m.fields).None? && |WireOf(m)| <= USIZE_MAX
  }

  lemma EncodesOk(m: Message)
    requires Encodes(m)
    ensures Encode(m.beginString, m.fields) == Ok(WireOf(m)) && |WireOf(m)| <= USIZE_MAX
  {
    hide Head, Body, Checksum;
  }

  lemma ParseOfWire(m: Message)
    requires Encodes(m)
    ensures |WireOf(m)| >= 7
    ensures Parse(WireOf(m)) ==
            Assembled(m.beginString, ParseFields(Body(m.fields)), Checksum(WireOf(m)[..|WireOf(m)| - 7]))
  {
    hide Parse, ParseFields, Assembled, Checksum, Body, Head;
    ParseOfEncoded(m.beginString, m.fields);
  }

  /** What is read back is what the bytes are tiled by. */
  lemma ReadBackExactly(m: Message, fields: seq<Field>)
    requires Encodes(m)
    ensures (Parse(WireOf(m)).Ok? && Parse(WireOf(m)).value.fields == fields) <==>
            ReadsBackAs(m, fields) && fields != [] && fields[0].tag == 35
  {
    hide Parse, ParseFields, Checksum, Body, Spells, SohFree, FieldText, Encodes, WireOf;
    ParseOfWire(m);
    ParserAccepts(Body(m.fields), fields);
  }

  /** Without a delimiter in its values a message is read back as it was. */
  lemma CleanReadsBack(m: Message)
    requires Encodes(m) && SohFree(m.fields)
    ensures Parse(WireOf(m)).Ok?
    ensures var p := Parse(WireOf(m)).value; Message(p.beginString, p.fields) == m
  {
    EncodesOk(m);
    hide Parse, Encode, SohFree, Checksum, WireOf, Encodes;
    RoundTrip(m.beginString, m.fields);
  }

  lemma {:induction false} ReplayKeepsOthers(env: Env, fields: seq<Field>, origTime: Bytes, ticks: nat, f: Field)
    requires f in fields && f.tag !in {43, 52, 122}
    ensures f in ReplayFields(env, fields, origTime, ticks)
    decreases |fields|
  {
    var later := if fields[0].tag == 52 then ticks + 1 else ticks;
    if f != fields[0] {
      assert fields == [fields[0]] + fields[1..];
      ReplayKeepsOthers(env, fields[1..], origTime, later, f);
    }
  }

  /** The encoder takes the replay of fields exactly when it takes the fields. */
  lemma ReplayRefusal(env: Env, fields: seq<Field>, origTime: Bytes, ticks: nat)
    requires ConfigOk(env.config) && fields != [] && fields[0].tag == 35
    ensures Refusal(env.config.beginString, ReplayFields(env, fields, origTime, ticks)).None? <==>
            RefusedField(fields).None?
  {
    hide ReplayFields, RefusedField;
    ReplayKeepsHead(env, fields, origTime, ticks);
    if RefusedField(fields).None? {
      ReplayNotRefused(env, fields, origTime, ticks);
    } else {
      var f :| f in fields && (f.tag == 0 || 8 <= f.tag <= 10);
      ReplayKeepsOthers(env, fields, origTime, ticks, f);
    }
  }

  lemma SendReplaySucceeds(env: Env, w: World, original: Message)
    requires ConfigOk(env.config) && original.fields != [] && original.fields[0].tag == 35
    ensures SendReplayOf(env, w, original).error.None? <==> CanGoAgain(original.fields)
  {
    hide ReplayFields, RefusedField, Values, Refusal;
    if First(original.fields, 52).Some? {
      ReplayRefusal(env, original.fields, First(original.fields, 52).value, w.ticks);
    }
  }

  /** One application message is replayed without an error exactly when its stored bytes are tiled by fields
      that can go again. */
  lemma ApplicationReplays(env: Env, w: World, m: Message)
    requires ConfigOk(env.config) && Encodes(m)
    ensures SendApplicationReplay(env, w, m).error.None? <==> Replays(m)
  {
    hide Parse, WireOf, SendReplayOf, CanGoAgain, ReadsBackAs, Encodes;
    if Parse(WireOf(m)).Ok? {
      var p := Parse(WireOf(m)).value;
      ReadBackExactly(m, p.fields);
      SendReplaySucceeds(env, w, Message(p.beginString, p.fields));
    }
    forall fields | ReadsBackAs(m, fields) && CanGoAgain(fields)
      ensures Parse(WireOf(m)).Ok? && Parse(WireOf(m)).value.fields == fields
    {
      GoesHead(fields);
      ReadBackExactly(m, fields);
    }
  }

  lemma GoesHead(fields: seq<Field>)
    requires CanGoAgain(fields)
    ensures fields != [] && fields[0].tag == 35
  {
  }

  // ----- a delimiter inside a value -----

  lemma BodyOfThree(pre: seq<Field>, f: Field, post: seq<Field>)
    ensures Body(pre + [f] + post) == Body(pre) + (EncodeField(f) + Body(post))
  {
    assert [f][1..] == [] && Body([f]) == EncodeField(f);
    BodyAppend(pre + [f], post);
    BodyAppend(pre, [f]);
  }

  /** Where a value is cut by its delimiter, the tail of the value runs into the tag of the next field. */
  lemma CutValueText(f: Field, front: Bytes, back: Bytes, g: Field, post: seq<Field>)
    requires f.value == front + [SOH] + back
    ensures EncodeField(f) + Body([g] + post) ==
            Segment(Dec(f.tag), front) + ((back + [SOH] + Dec(g.tag)) + [EQUALS] + (g.value + [SOH] + Body(post)))
  {
    hide Dec;
    assert ([g] + post)[1..] == post;
  }

  lemma NotDecimalAhead(text: Bytes, after: Bytes)
    requires EQUALS !in text && SOH in text
    ensures ParseFields(text + [EQUALS] + after) == Err(Frame(Malformed(NotDecimal)))
  {
    var body := text + [EQUALS] + after;
    assert body[..|text|] == text && body[|text|] == EQUALS && body[0..|text|] == text;
    FindAfter(body, EQUALS, 0, text);
    hide Find;
    assert !IsDigit(SOH);
  }

  /** A value whose delimiter is followed by no '=' in the same value, with a field after it, makes the stored
      bytes unreadable: the rest of the value and the next tag are taken for a tag. */
  lemma DelimiterUnreadable(
      begin: Bytes, pre: seq<Field>, f: Field, front: Bytes, back: Bytes, g: Field, post: seq<Field>)
    requires SohFree(pre) && f.value == front + [SOH] + back && SOH !in front && EQUALS !in back
    requires Encodes(Message(begin, pre + [f] + ([g] + post)))
    ensures Parse(WireOf(Message(begin, pre + [f] + ([g] + post)))) == Err(Frame(Malformed(NotDecimal)))
  {
    var m := Message(begin, pre + [f] + ([g] + post));
    hide Parse, Encodes, WireOf, Dec, ParseFields, Segment;
    ParseOfWire(m);
    BodyOfThree(pre, f, [g] + post);
    CutValueText(f, front, back, g, post);
    var text, after := back + [SOH] + Dec(g.tag), g.value + [SOH] + Body(post);
    var tail := text + [EQUALS] + after;
    DigitsHaveNo(Dec(g.tag), EQUALS);
    NotDecimalAhead(text, after);
    SegmentParses(Dec(f.tag), Field(f.tag, front), tail);
    BodyIsText(pre);
    TextParsesThen(Spelling(pre), pre, Segment(Dec(f.tag), front) + tail);
  }

  // ----- values free of the delimiter -----

  /** What the initiator's values are free of. */
  ghost predicate ClearEnv(env: Env) {
    SOH !in env.config.senderCompId && SOH !in env.config.targetCompId && forall t :: SOH !in env.clock(t)
  }

  lemma HeaderSohFree(env: Env, msgType: Bytes, n: nat, ticks: nat)
    requires ClearEnv(env) && SOH !in msgType
    ensures SohFree(Header(env.config, msgType, n, env.clock(ticks)))
  {
    DigitsHaveNo(Dec(n), SOH);
    hide Dec;
  }

  lemma SohFreeJoin(a: seq<Field>, b: seq<Field>)
    requires SohFree(a) && SohFree(b)
    ensures SohFree(a + b)
  {
  }

  lemma {:induction false} StampedSohFree(env: Env, fields: seq<Field>, needed: bool, ticks: nat)
    requires ClearEnv(env) && SohFree(fields)
    ensures SohFree(WithTransactTime(env, fields, needed, ticks))
    decreases |fields|
  {
    if fields != [] {
      assert fields[0] in fields && forall f | f in fields[1..] :: f in fields;
      StampedSohFree(env, fields[1..], needed, ticks + 1);
      StampedSohFree(env, fields[1..], needed, ticks);
    }
  }

  lemma ApplicationSohFree(env: Env, w: World, req: ApplicationRequest)
    requires ApplicationFields(env, w, req).Some?
    requires ClearEnv(env) && SohFree(req.fields) && SOH !in req.clOrdId
    ensures SohFree(ApplicationFields(env, w, req).value)
  {
    hide WithTransactTime, Values, Header;
    var split := if NeedsOrigClOrdId(req.msgType) then 1 else 0;
    var header := Header(env.config, req.msgType, w.actor.nextOut, env.clock(w.ticks));
    var front, back := req.fields[..split], req.fields[split..];
    assert SOH !in req.msgType;
    HeaderSohFree(env, req.msgType, w.actor.nextOut, w.ticks);
    assert SohFree(front) && SohFree(back);
    StampedSohFree(env, back, NeedsTransactTime(req.msgType), w.ticks + 1);
    hide ClearEnv;
    SohFreeJoin(header, front);
    SohFreeJoin(header + front, [Field(11, req.clOrdId)]);
    SohFreeJoin(header + front + [Field(11, req.clOrdId)],
                WithTransactTime(env, back, NeedsTransactTime(req.msgType), w.ticks + 1));
  }
}
