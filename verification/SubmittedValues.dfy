// Which submitted values let an application message be replayed: what follows a delimiter inside a value is
// read back as a field of its own, so it must look like one.

module SubmittedValues {
  import opened Text
  import opened Codec
  import opened Messages
  import opened Parser
  import opened Store
  import opened StoreTheorems
  import opened Session
  import opened SessionSafety
  import opened SessionInvariant
  import opened ReplayFieldFacts
  import opened ReadBack
  import opened ReplayPlan
  import opened DelimiterInOrder

  /** A tag that the encoder takes. */
  predicate TagGoes(tag: nat) { tag != 0 && !(8 <= tag <= 10) && tag <= U32_MAX }

  /** Text without a delimiter that is read as a field which can be sent again. */
  predicate LineGoes(line: Bytes) {
    match Find(line, EQUALS, 0)
    case None => false
    case Some(e) => ParseDecimal(line[..e]).Ok? && TagGoes(ParseDecimal(line[..e]).value)
  }

  /** Every line of a text is. */
  predicate LinesGo(text: Bytes)
    decreases |text|
  {
    match Find(text, SOH, 0)
    case None => LineGoes(text)
    case Some(i) => LineGoes(text[..i]) && LinesGo(text[i + 1..])
  }

  /** What follows the first delimiter of a value, if it has one, consists of such lines. */
  predicate ValueGoes(value: Bytes) {
    match Find(value, SOH, 0)
    case None => true
    case Some(i) => LinesGo(value[i + 1..])
  }

  /** A body whose fields can be sent again. */
  predicate BodyGoes(body: Bytes) { ParseFields(body).Ok? && RefusedField(ParseFields(body).value).None? }

  // ----- one line -----

  lemma LineThen(line: Bytes, rest: Bytes)
    requires SOH !in line
    ensures BodyGoes(line + [SOH] + rest) <==> LineGoes(line) && BodyGoes(rest)
  {
    var body := line + [SOH] + rest;
    assert body[|line|] == SOH && body[..|line|] == line && body[|line| + 1..] == rest;
    match Find(line, EQUALS, 0)
    case Some(e) =>
      assert forall i | 0 <= i < e :: body[i] == line[i];
      FindIs(body, EQUALS, 0, e);
      assert forall i | e + 1 <= i < |line| :: body[i] == line[i];
      FindIs(body, SOH, e + 1, |line|);
      assert body[..e] == line[..e];
      LineParses(body, e, |line|, rest);
    case None =>
      NoEqualsInLine(body, |line|);
  }

  lemma LineParses(body: Bytes, e: nat, end: nat, rest: Bytes)
    requires Find(body, EQUALS, 0) == Some(e) && Find(body, SOH, e + 1) == Some(end) && body[end + 1..] == rest
    ensures BodyGoes(body) <==>
            ParseDecimal(body[..e]).Ok? && TagGoes(ParseDecimal(body[..e]).value) && BodyGoes(rest)
  {
    hide Find, ParseDecimal;
    if ParseDecimal(body[..e]).Ok? && ParseDecimal(body[..e]).value <= U32_MAX {
      var field := Field(ParseDecimal(body[..e]).value, body[e + 1..end]);
      assert NextField(body) == Ok((field, end + 1));
      assert ParseFields(body) == Prepend([field], ParseFields(rest));
      if ParseFields(rest).Ok? {
        assert ([field] + ParseFields(rest).value)[0] == field;
        assert ([field] + ParseFields(rest).value)[1..] == ParseFields(rest).value;
      }
    }
  }

  lemma NoEqualsInLine(body: Bytes, end: nat)
    requires end < |body| && body[end] == SOH && forall i | 0 <= i < end :: body[i] != EQUALS
    ensures !BodyGoes(body)
  {
    if Find(body, EQUALS, 0).Some? {
      var e := Find(body, EQUALS, 0).value;
      assert e > end;
      assert body[..e][end] == SOH && !IsDigit(SOH);
    }
  }

  // ----- texts, fields, bodies -----

  lemma {:induction false} LinesThen(text: Bytes, rest: Bytes)
    ensures BodyGoes(text + [SOH] + rest) <==> LinesGo(text) && BodyGoes(rest)
    decreases |text|
  {
    hide BodyGoes, LineGoes;
    match Find(text, SOH, 0)
    case None => LineThen(text, rest);
    case Some(i) =>
      var line, later := text[..i], text[i + 1..];
      LineThen(line, later + [SOH] + rest);
      LinesThen(later, rest);
      assert text + [SOH] + rest == line + [SOH] + (later + [SOH] + rest);
  }

  /** Where a text begins without a delimiter, its first line ends where the rest's does. */
  lemma FirstLine(clean: Bytes, value: Bytes)
    requires SOH !in clean
    ensures LinesGo(clean + value) ==
            match Find(value, SOH, 0)
            case None => LineGoes(clean + value)
            case Some(i) => LineGoes(clean + value[..i]) && LinesGo(value[i + 1..])
  {
    hide LineGoes;
    var text := clean + value;
    match Find(value, SOH, 0)
    case None =>
      assert forall k | 0 <= k < |text| :: text[k] == if k < |clean| then clean[k] else value[k - |clean|];
      hide LinesGo;
      OneLine(text);
    case Some(i) =>
      var at := |clean| + i;
      assert text[..at] == clean + value[..i] && text[at + 1..] == value[i + 1..];
      assert forall k | 0 <= k < at :: text[k] == if k < |clean| then clean[k] else value[k - |clean|];
      FindIs(text, SOH, 0, at);
  }

  lemma OneLine(text: Bytes)
    requires forall k | 0 <= k < |text| :: text[k] != SOH
    ensures LinesGo(text) == LineGoes(text)
  {
    hide LineGoes;
  }

  lemma TaggedGoes(tag: u32, value: Bytes)
    ensures LinesGo(Dec(tag) + [EQUALS] + value) <==> TagGoes(tag) && ValueGoes(value)
  {
    hide LinesGo, LineGoes, TagGoes, Dec;
    DigitsHaveNo(Dec(tag), SOH);
    FirstLine(Dec(tag) + [EQUALS], value);
    TaggedLine(tag, value);
    if Find(value, SOH, 0).Some? {
      TaggedLine(tag, value[..Find(value, SOH, 0).value]);
    }
  }

  lemma TaggedLine(tag: u32, value: Bytes)
    ensures LineGoes(Dec(tag) + [EQUALS] + value) <==> TagGoes(tag)
  {
    var line := Dec(tag) + [EQUALS] + value;
    DigitsHaveNo(Dec(tag), EQUALS);
    assert line[|Dec(tag)|] == EQUALS && line[..|Dec(tag)|] == Dec(tag);
    FindIs(line, EQUALS, 0, |Dec(tag)|);
  }

  /** The fields of a body can be sent again exactly when every tag can and every value goes. */
  lemma {:induction false} FieldsGo(fields: seq<Field>)
    ensures BodyGoes(Body(fields)) <==> forall f | f in fields :: TagGoes(f.tag) && ValueGoes(f.value)
    decreases |fields|
  {
    hide BodyGoes, LinesGo, ValueGoes, TagGoes, Dec;
    if fields == [] {
      NothingGoes();
    } else {
      var f, rest := fields[0], fields[1..];
      LinesThen(Dec(f.tag) + [EQUALS] + f.value, Body(rest));
      TaggedGoes(f.tag, f.value);
      FieldsGo(rest);
      assert Body(fields) == Dec(f.tag) + [EQUALS] + f.value + [SOH] + Body(rest);
      assert fields == [f] + rest;
    }
  }

  lemma NothingGoes()
    ensures BodyGoes([])
  {
  }

  // ----- submitted messages -----

  /** Which values go is read off the request: those of its fields and its ClOrdID. */
  predicate RequestGoes(req: ApplicationRequest) {
    ValueGoes(req.clOrdId) && forall f | f in req.fields :: ValueGoes(f.value)
  }

  lemma CleanGoes(value: Bytes)
    requires SOH !in value
    ensures ValueGoes(value)
  {
  }

  lemma {:induction false} StampedValues(env: Env, fields: seq<Field>, needed: bool, ticks: nat)
    requires ClearEnv(env)
    ensures (forall f | f in WithTransactTime(env, fields, needed, ticks) :: ValueGoes(f.value)) <==>
            (forall f | f in fields :: ValueGoes(f.value))
    decreases |fields|
  {
    hide ValueGoes;
    if fields != [] {
      var f, rest := fields[0], fields[1..];
      StampedValues(env, rest, needed, ticks + 1);
      StampedValues(env, rest, needed, ticks);
      CleanGoes(env.clock(ticks));
      assert fields == [f] + rest;
    }
  }

  lemma JoinedValues(a: seq<Field>, b: seq<Field>)
    ensures (forall f | f in a + b :: ValueGoes(f.value)) <==>
            (forall f | f in a :: ValueGoes(f.value)) && (forall f | f in b :: ValueGoes(f.value))
  {
    hide ValueGoes;
  }

  /** What follows the header of an application message. */
  function AfterHeader(env: Env, w: World, req: ApplicationRequest): seq<Field>
    requires ApplicationFields(env, w, req).Some?
  {
    var split := if NeedsOrigClOrdId(req.msgType) then 1 else 0;
    req.fields[..split] + [Field(11, req.clOrdId)]
    + WithTransactTime(env, req.fields[split..], NeedsTransactTime(req.msgType), w.ticks + 1)
  }

  lemma AfterHeaderIs(env: Env, w: World, req: ApplicationRequest)
    requires ApplicationFields(env, w, req).Some?
    ensures ApplicationFields(env, w, req).value ==
            Header(env.config, req.msgType, w.actor.nextOut, env.clock(w.ticks)) + AfterHeader(env, w, req)
  {
    hide WithTransactTime, Values, Header;
  }

  lemma AfterHeaderValues(env: Env, w: World, req: ApplicationRequest)
    requires ApplicationFields(env, w, req).Some? && ClearEnv(env)
    ensures (forall f | f in AfterHeader(env, w, req) :: ValueGoes(f.value)) <==> RequestGoes(req)
  {
    hide WithTransactTime, Values, Header, ValueGoes, ClearEnv;
    var split := if NeedsOrigClOrdId(req.msgType) then 1 else 0;
    var front, back := req.fields[..split], req.fields[split..];
    var needed := NeedsTransactTime(req.msgType);
    StampedValues(env, back, needed, w.ticks + 1);
    JoinedValues(front + [Field(11, req.clOrdId)], WithTransactTime(env, back, needed, w.ticks + 1));
    JoinedValues(front, [Field(11, req.clOrdId)]);
    JoinedValues(front, back);
    assert front + back == req.fields;
    assert [Field(11, req.clOrdId)][0].value == req.clOrdId;
  }

  lemma RefusedTags(fields: seq<Field>)
    requires RefusedField(fields).None?
    ensures forall f | f in fields :: TagGoes(f.tag)
  {
  }

  /** The stored bytes of a submission are read back as the header and what follows it. */
  lemma SubmissionReadBack(env: Env, w: World, req: ApplicationRequest)
    requires ApplicationFields(env, w, req).Some? && ClearEnv(env)
    requires Encodes(Message(env.config.beginString, ApplicationFields(env, w, req).value))
    ensures var m := Message(env.config.beginString, ApplicationFields(env, w, req).value);
            var header := Header(env.config, req.msgType, w.actor.nextOut, env.clock(w.ticks));
            var p := Parse(WireOf(m));
            && (p.Ok? <==> ParseFields(Body(AfterHeader(env, w, req))).Ok?)
            && (p.Ok? ==> p.value.fields == header + ParseFields(Body(AfterHeader(env, w, req))).value)
  {
    hide Parse, WireOf, Encodes, WithTransactTime, Values, ParseFields, Body, AfterHeader, Checksum, Dec;
    var m := Message(env.config.beginString, ApplicationFields(env, w, req).value);
    var header := Header(env.config, req.msgType, w.actor.nextOut, env.clock(w.ticks));
    var rest := AfterHeader(env, w, req);
    ParseOfWire(m);
    AfterHeaderIs(env, w, req);
    BodyAppend(header, rest);
    assert SOH !in req.msgType;
    hide ApplicationFields;
    HeaderSohFree(env, req.msgType, w.actor.nextOut, w.ticks);
    BodyIsText(header);
    TextParsesThen(Spelling(header), header, Body(rest));
    assert header[0].tag == 35;
  }

  /** The header has what a replay needs. */
  lemma HeaderGoes(config: Config, msgType: Bytes, n: nat, time: Bytes, rest: seq<Field>)
    requires n <= U64_MAX
    ensures CanGoAgain(Header(config, msgType, n, time) + rest) <==> RefusedField(rest).None?
  {
    hide Values, ParseU64, Dec, RefusedField;
    var header := Header(config, msgType, n, time);
    ParseU64OfDec(n);
    HeaderValues(config, msgType, n, time, 34);
    HeaderValues(config, msgType, n, time, 52);
    ValuesAppend(header, rest, 34);
    ValuesAppend(header, rest, 52);
    assert forall f | f in header :: f.tag != 0 && !(8 <= f.tag <= 10);
  }

  /** A submitted message can be replayed exactly when the values of its request go: what follows a delimiter
      in one of them must look like fields that can be sent. */
  lemma SubmissionReplays(env: Env, w: World, req: ApplicationRequest)
    requires ApplicationFields(env, w, req).Some? && ClearEnv(env) && w.actor.nextOut <= U64_MAX
    requires Encodes(Message(env.config.beginString, ApplicationFields(env, w, req).value))
    ensures Replays(Message(env.config.beginString, ApplicationFields(env, w, req).value)) <==> RequestGoes(req)
  {
    hide Parse, WireOf, ApplicationFields, ParseFields, AfterHeader, ReadsBackAs, CanGoAgain, Header, ValueGoes,
         TagGoes, RefusedField, ClearEnv, RequestGoes;
    var m := Message(env.config.beginString, ApplicationFields(env, w, req).value);
    var header := Header(env.config, req.msgType, w.actor.nextOut, env.clock(w.ticks));
    var rest := AfterHeader(env, w, req);
    SubmissionReadBack(env, w, req);
    AfterHeaderIs(env, w, req);
    AfterHeaderValues(env, w, req);
    EncodesTags(m, header, rest);
    FieldsGo(rest);
    hide Encodes;
    if ParseFields(Body(rest)).Ok? {
      HeaderGoes(env.config, req.msgType, w.actor.nextOut, env.clock(w.ticks), ParseFields(Body(rest)).value);
    }
    ReplaysIsReadBack(m);
  }

  lemma EncodesTags(m: Message, header: seq<Field>, rest: seq<Field>)
    requires Encodes(m) && m.fields == header + rest
    ensures forall f | f in rest :: TagGoes(f.tag)
  {
    hide WireOf;
    RefusedTags(m.fields);
  }

  lemma ReplaysIsReadBack(m: Message)
    requires Encodes(m)
    ensures Replays(m) <==> Parse(WireOf(m)).Ok? && CanGoAgain(Parse(WireOf(m)).value.fields)
  {
    hide Parse, WireOf, Encodes, ReadsBackAs, CanGoAgain;
    if Parse(WireOf(m)).Ok? {
      ReadBackExactly(m, Parse(WireOf(m)).value.fields);
    }
    forall fields | ReadsBackAs(m, fields) && CanGoAgain(fields)
      ensures Parse(WireOf(m)).Ok? && Parse(WireOf(m)).value.fields == fields
    {
      GoesHead(fields);
      ReadBackExactly(m, fields);
    }
  }

  /** Once it is submitted, a replay up to it succeeds exactly when everything from `begin` on before it can be
      replayed and the values of its request go. */
  lemma SubmissionReplayedExactly(j: Journal, env: Env, w: World, req: ApplicationRequest, begin: nat)
    requires Kept(j, w) && w.actor.phase == Established && ConfigOk(env.config) && ClearEnv(env)
    requires AgentId(req.requestId) && req.requestId !in w.journal.commands && req.clOrdId != []
    requires ApplicationFields(env, w, req).Some?
    requires Encodes(Message(env.config.beginString, ApplicationFields(env, w, req).value))
    requires 1 <= begin <= w.actor.nextOut <= U64_MAX
    requires forall n: nat | begin <= n <= w.actor.nextOut && IsReplayable(Submit(env, w, req).0.journal.outbound, n) ::
               |WireOf(Submit(env, w, req).0.journal.outbound[n].wire)| <= USIZE_MAX
    ensures var rows := Submit(env, w, req).0.journal.outbound;
            Replay(env, Submit(env, w, req).0, begin, w.actor.nextOut).error.None? <==>
            (forall n: nat | begin <= n < w.actor.nextOut && IsReplayable(rows, n) :: Replays(rows[n].wire))
            && RequestGoes(req)
  {
    hide Kept, Submit, ApplicationFields, Encodes, Replay, WireOf, Replays, RequestGoes, AgentId, ClearEnv, ConfigOk;
    EncodesRefusal(Message(env.config.beginString, ApplicationFields(env, w, req).value));
    SubmittedRow(j, env, w, req);
    SubmissionReplays(env, w, req);
    ReplaySucceedsExactly(j, env, Submit(env, w, req).0, begin, w.actor.nextOut);
  }

  lemma EncodesRefusal(m: Message)
    requires Encodes(m)
    ensures Refusal(m.beginString, m.fields).None?
  {
    hide WireOf;
  }
}
