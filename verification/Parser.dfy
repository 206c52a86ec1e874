// The parser, and the two directions of its agreement with the encoder.

module Parser {
  import opened Text
  import opened Codec

  /** The field at the head of a body, digits '=' value SOH, and where the next one starts. */
  function NextField(body: Bytes): (r: Result<(Field, nat), ParseError>)
    ensures r.Ok? ==> 0 < r.value.1 <= |body|
  {
    match Find(body, EQUALS, 0)
    case None => Err(MalformedMessage(MissingEquals))
    case Some(equals) =>
      match ParseDecimal(body[..equals])
      case Err(e) => Err(Frame(e))
      case Ok(tag) =>
        if tag > U32_MAX then Err(MalformedMessage(TagTooLarge))
        else
          match Find(body, SOH, equals + 1)
          case None => Err(MalformedMessage(MissingDelimiter))
          case Some(end) => Ok((Field(tag, body[equals + 1..end]), end + 1))
  }

  /** The fields of a body, as long as it lasts. */
  function ParseFields(body: Bytes): Result<seq<Field>, ParseError>
    decreases |body|
  {
    if body == [] then Ok([])
    else
      match NextField(body)
      case Err(e) => Err(e)
      case Ok((field, next)) => Prepend([field], ParseFields(body[next..]))
  }

  function Prepend(front: seq<Field>, rest: Result<seq<Field>, ParseError>): Result<seq<Field>, ParseError> {
    match rest
    case Ok(fields) => Ok(front + fields)
    case Err(e) => Err(e)
  }

  /** The message a whole frame carries. */
  function Parse(frame: Bytes): Result<ParsedMessage, ParseError> {
    match Scan(frame, |frame|)
    case Bad(e) => Err(Frame(e))
    case NeedMore => Err(MalformedMessage(IncompleteFrame))
    case Complete(end) =>
      if end != |frame| then Err(MalformedMessage(MoreThanOneFrame))
      else
        var (endBegin, endLength) := Headers(frame);
        Assembled(frame[2..endBegin], ParseFields(frame[endLength + 1..|frame| - 7]), Checksum(frame[..|frame| - 7]))
  }

  /** The parsed message, once MsgType is known to be its first field. */
  function Assembled(begin: Bytes, fields: Result<seq<Field>, ParseError>, checksum: byte)
    : Result<ParsedMessage, ParseError>
  {
    match fields
    case Err(e) => Err(e)
    case Ok(fs) =>
      if fs == [] || fs[0].tag != 35 then Err(MalformedMessage(MsgTypeNotThird))
      else Ok(ParsedMessage(begin, fs, checksum))
  }

  /** Where the BeginString and BodyLength fields of a scanned frame end. */
  function Headers(frame: Bytes): (r: (nat, nat))
    requires Scan(frame, |frame|) == Complete(|frame|)
    ensures Find(frame, SOH, 0) == Some(r.0) && Find(frame, SOH, r.0 + 1) == Some(r.1)
    ensures 2 <= r.0 && r.0 + 3 <= r.1 && r.1 + 8 <= |frame|
  {
    HeadersExist(frame);
    (Find(frame, SOH, 0).value, Find(frame, SOH, Find(frame, SOH, 0).value + 1).value)
  }

  lemma HeadersExist(frame: Bytes)
    requires Scan(frame, |frame|) == Complete(|frame|)
    ensures Find(frame, SOH, 0).Some? && Find(frame, SOH, Find(frame, SOH, 0).value + 1).Some?
    ensures var a := Find(frame, SOH, 0).value;
            var b := Find(frame, SOH, a + 1).value;
            2 <= a && a + 3 <= b && b + 8 <= |frame|
  {
    hide ParseDecimal, CheckTrailer, Scan;
    var a, b := ScanLaid(frame, |frame|);
  }

  method ParseFrame(frame: Bytes) returns (r: Result<ParsedMessage, ParseError>)
    ensures r == Parse(frame)
  {
    hide Scan, Find, ParseFields, Checksum;
    match Scan(frame, |frame|) {
      case Bad(e) => return Err(Frame(e));
      case NeedMore => return Err(MalformedMessage(IncompleteFrame));
      case Complete(end) =>
        if end != |frame| {
          return Err(MalformedMessage(MoreThanOneFrame));
        }
    }
    var (endBegin, endLength) := Headers(frame);
    var bodyStart, checksumStart := endLength + 1, |frame| - 7;
    var body := frame[bodyStart..checksumStart];
    var fields := ParseBody(body);
    if fields.Err? {
      return Err(fields.error);
    }
    if |fields.value| == 0 || fields.value[0].tag != 35 {
      return Err(MalformedMessage(MsgTypeNotThird));
    }
    r := Ok(ParsedMessage(frame[2..endBegin], fields.value, Checksum(frame[..checksumStart])));
  }

  method ParseBody(body: Bytes) returns (r: Result<seq<Field>, ParseError>)
    ensures r == ParseFields(body)
  {
    hide NextField;
    var fields: seq<Field> := [];
    var cursor := 0;
    PrependNothing(ParseFields(body));
    assert body[0..] == body;
    while cursor < |body|
      invariant cursor <= |body|
      invariant ParseFields(body) == Prepend(fields, ParseFields(body[cursor..]))
    {
      var next := NextField(body[cursor..]);
      if next.Err? {
        return Err(next.error);
      }
      var (field, length) := next.value;
      assert body[cursor..][length..] == body[cursor + length..];
      PrependAppend(fields, [field], ParseFields(body[cursor + length..]));
      cursor := cursor + length;
      fields := fields + [field];
    }
    assert body[cursor..] == [] && fields + [] == fields;
    r := Ok(fields);
  }

  lemma PrependAppend(a: seq<Field>, b: seq<Field>, rest: Result<seq<Field>, ParseError>)
    ensures Prepend(a, Prepend(b, rest)) == Prepend(a + b, rest)
  {
    if rest.Ok? {
      assert a + (b + rest.value) == a + b + rest.value;
    }
  }

  lemma PrependNothing(rest: Result<seq<Field>, ParseError>)
    ensures Prepend([], rest) == rest
  {
    if rest.Ok? {
      assert [] + rest.value == rest.value;
    }
  }

  // ----- what the parser accepts -----

  function Segment(digits: Bytes, value: Bytes): Bytes { digits + [EQUALS] + value + [SOH] }

  /** Fields as text, each tag spelled by its digit string. */
  ghost function FieldText(digits: seq<Bytes>, fields: seq<Field>): Bytes
    requires |digits| == |fields|
  {
    if fields == [] then [] else Segment(digits[0], fields[0].value) + FieldText(digits[1..], fields[1..])
  }

  ghost predicate Spells(digits: seq<Bytes>, fields: seq<Field>) {
    && |digits| == |fields|
    && forall i | 0 <= i < |fields| ::
      digits[i] != [] && AllDigits(digits[i]) && DigitsValue(digits[i]) == fields[i].tag
  }

  ghost predicate SohFree(fields: seq<Field>) {
    forall f | f in fields :: SOH !in f.value
  }

  /** Spelled-out fields at the head of a body are parsed off it. */
  lemma {:induction false} TextParsesThen(digits: seq<Bytes>, fields: seq<Field>, rest: Bytes)
    requires Spells(digits, fields) && SohFree(fields)
    ensures ParseFields(FieldText(digits, fields) + rest) == Prepend(fields, ParseFields(rest))
    decreases |fields|
  {
    hide ParseFields;
    if fields == [] {
      assert FieldText(digits, fields) + rest == rest;
      PrependNothing(ParseFields(rest));
    } else {
      var later := FieldText(digits[1..], fields[1..]);
      TextParsesThen(digits[1..], fields[1..], rest);
      assert fields[0] in fields && digits[0] == digits[0];
      SegmentParses(digits[0], fields[0], later + rest);
      assert FieldText(digits, fields) + rest == Segment(digits[0], fields[0].value) + (later + rest);
      PrependAppend([fields[0]], fields[1..], ParseFields(rest));
      assert fields == [fields[0]] + fields[1..];
    }
  }

  lemma TextParses(digits: seq<Bytes>, fields: seq<Field>)
    requires Spells(digits, fields) && SohFree(fields)
    ensures ParseFields(FieldText(digits, fields)) == Ok(fields)
  {
    hide ParseFields, FieldText;
    TextParsesThen(digits, fields, []);
    ParseNothing();
    assert FieldText(digits, fields) + [] == FieldText(digits, fields) && fields + [] == fields;
  }

  lemma ParseNothing()
    ensures ParseFields([]) == Ok([])
  {
  }

  lemma SegmentParses(digits: Bytes, field: Field, rest: Bytes)
    requires digits != [] && AllDigits(digits) && DigitsValue(digits) == field.tag && SOH !in field.value
    ensures ParseFields(Segment(digits, field.value) + rest) == Prepend([field], ParseFields(rest))
  {
    hide NextField, Segment, Find, ParseDecimal, AllDigits, DigitsValue;
    var b := Segment(digits, field.value) + rest;
    SegmentSlices(digits, field.value, rest);
    SegmentFound(b, digits, field.value);
    NextFieldFound(b, digits, field);
  }

  lemma NextFieldFound(b: Bytes, digits: Bytes, field: Field)
    requires Find(b, EQUALS, 0) == Some(|digits|)
    requires Find(b, SOH, |digits| + 1) == Some(|digits| + 1 + |field.value|)
    requires b[..|digits|] == digits && ParseDecimal(digits) == Ok(field.tag)
    requires b[|digits| + 1..|digits| + 1 + |field.value|] == field.value
    ensures NextField(b) == Ok((field, |digits| + 2 + |field.value|))
  {
    hide Find, ParseDecimal, AllDigits, DigitsValue;
  }

  /** The '=' and the delimiter of a segment are the ones the parser finds. */
  lemma SegmentFound(b: Bytes, digits: Bytes, value: Bytes)
    requires AllDigits(digits) && SOH !in value
    requires |digits| + 1 + |value| < |b|
    requires b[..|digits|] == digits && b[|digits|] == EQUALS
    requires b[|digits| + 1..|digits| + 1 + |value|] == value && b[|digits| + 1 + |value|] == SOH
    ensures Find(b, EQUALS, 0) == Some(|digits|)
    ensures Find(b, SOH, |digits| + 1) == Some(|digits| + 1 + |value|)
  {
    DigitsHaveNo(digits, EQUALS);
    assert b[0..|digits|] == b[..|digits|];
    FindAfter(b, EQUALS, 0, digits);
    FindAfter(b, SOH, |digits| + 1, value);
  }

  lemma SegmentSlices(digits: Bytes, value: Bytes, rest: Bytes)
    ensures var b := Segment(digits, value) + rest;
            var end := |digits| + 1 + |value|;
            && |b| == end + 1 + |rest|
            && b[..|digits|] == digits && b[|digits|] == EQUALS
            && b[|digits| + 1..end] == value && b[end] == SOH && b[end + 1..] == rest
  {
    var b := Segment(digits, value) + rest;
    assert b == digits + [EQUALS] + (value + [SOH] + rest);
    Slices(digits, [EQUALS], value + [SOH] + rest);
    assert b == (digits + [EQUALS]) + value + ([SOH] + rest);
    Slices(digits + [EQUALS], value, [SOH] + rest);
    assert b == (digits + [EQUALS] + value) + [SOH] + rest;
    Slices(digits + [EQUALS] + value, [SOH], rest);
  }

  lemma ParseStep(body: Bytes, fields: seq<Field>) returns (digits: Bytes, rest: Bytes)
    requires body != [] && ParseFields(body) == Ok(fields)
    ensures fields != [] && digits != [] && AllDigits(digits) && DigitsValue(digits) == fields[0].tag
    ensures SOH !in fields[0].value
    ensures body == Segment(digits, fields[0].value) + rest && |rest| < |body|
    ensures ParseFields(rest) == Ok(fields[1..])
  {
    var equals := Find(body, EQUALS, 0).value;
    var end := Find(body, SOH, equals + 1).value;
    digits, rest := body[..equals], body[end + 1..];
    BodySplits(body, equals, end);
    assert NextField(body) == Ok((Field(DigitsValue(digits), body[equals + 1..end]), end + 1));
    hide NextField, Segment;
    assert fields == [fields[0]] + ParseFields(rest).value;
  }

  lemma {:induction false} ParsedIsText(body: Bytes, fields: seq<Field>) returns (digits: seq<Bytes>)
    requires ParseFields(body) == Ok(fields)
    ensures Spells(digits, fields) && SohFree(fields) && FieldText(digits, fields) == body
    decreases |body|
  {
    if body == [] {
      digits := [];
    } else {
      var first, rest := ParseStep(body, fields);
      hide ParseFields, Segment, AllDigits, DigitsValue, Spells, SohFree, FieldText;
      var others := ParsedIsText(rest, fields[1..]);
      digits := [first] + others;
      TextGrows(first, others, fields, rest);
    }
  }

  lemma TextGrows(first: Bytes, others: seq<Bytes>, fields: seq<Field>, rest: Bytes)
    requires fields != [] && first != [] && AllDigits(first) && DigitsValue(first) == fields[0].tag
    requires SOH !in fields[0].value
    requires Spells(others, fields[1..]) && SohFree(fields[1..]) && FieldText(others, fields[1..]) == rest
    ensures Spells([first] + others, fields) && SohFree(fields)
    ensures FieldText([first] + others, fields) == Segment(first, fields[0].value) + rest
  {
    hide AllDigits, DigitsValue, Segment;
    var digits := [first] + others;
    assert digits[1..] == others;
    assert fields == [fields[0]] + fields[1..];
  }

  lemma BodySplits(body: Bytes, equals: nat, end: nat)
    requires equals < end < |body| && body[equals] == EQUALS && body[end] == SOH
    ensures body == Segment(body[..equals], body[equals + 1..end]) + body[end + 1..]
  {
    assert body[..end + 1] == body[..equals] + [EQUALS] + body[equals + 1..end] + [SOH];
  }

  /** The parser accepts a body, with these fields, exactly when the body spells them out. */
  lemma ParserAccepts(body: Bytes, fields: seq<Field>)
    ensures ParseFields(body) == Ok(fields) <==>
            exists digits :: Spells(digits, fields) && SohFree(fields) && FieldText(digits, fields) == body
  {
    if ParseFields(body) == Ok(fields) {
      var digits := ParsedIsText(body, fields);
    } else if digits :| Spells(digits, fields) && SohFree(fields) && FieldText(digits, fields) == body {
      TextParses(digits, fields);
    }
  }

  // ----- round trips -----

  ghost function Spelling(fields: seq<Field>): (digits: seq<Bytes>)
    ensures Spells(digits, fields)
  {
    seq(|fields|, i requires 0 <= i < |fields| => Dec(fields[i].tag))
  }

  lemma {:induction false} BodyIsText(fields: seq<Field>)
    ensures Body(fields) == FieldText(Spelling(fields), fields)
  {
    if fields != [] {
      BodyIsText(fields[1..]);
      assert Spelling(fields)[1..] == Spelling(fields[1..]);
    }
  }

  lemma EncodedIsFrame(begin: Bytes, fields: seq<Field>)
    requires Encode(begin, fields).Ok? && |Encode(begin, fields).value| <= USIZE_MAX
    ensures var body := Body(fields);
            var head := Head(begin, Dec(|body|), body);
            IsFrame(Encode(begin, fields).value, begin, Dec(|body|), body, ThreeDigits(Checksum(head)), |body|)
  {
  }

  /** The parse of a frame depends only on its parts. */
  lemma ParseOfFrame(f: Bytes, begin: Bytes, digits: Bytes, body: Bytes, check: Bytes, max: nat)
    requires IsFrame(f, begin, digits, body, check, max)
    ensures Parse(f) == Assembled(begin, ParseFields(body), Checksum(Head(begin, digits, body)))
  {
    hide IsFrame, Scan, Find, Assembled, ParseFields, Checksum, Parse, StartsWith, Head, Delimit;
    FrameScannedAnyLimit(f, begin, digits, body, check, max);
    FrameParts(f, begin, digits, body, check, max);
    ParseOfLaid(f, 2 + |begin|, 5 + |begin| + |digits|);
  }

  lemma FrameScannedAnyLimit(f: Bytes, begin: Bytes, digits: Bytes, body: Bytes, check: Bytes, max: nat)
    requires IsFrame(f, begin, digits, body, check, max)
    ensures Scan(f, |f|) == Complete(|f|)
  {
    hide Head, Delimit, Scan, AllDigits, DigitsValue, Checksum;
    FrameParts(f, begin, digits, body, check, max);
    FrameIsScanned(f, begin, digits, body, check, |f|);
  }

  lemma ParseOfLaid(f: Bytes, endBegin: nat, endLength: nat)
    requires Scan(f, |f|) == Complete(|f|)
    requires Find(f, SOH, 0) == Some(endBegin) && Find(f, SOH, endBegin + 1) == Some(endLength)
    requires 2 <= endBegin && endLength + 8 <= |f|
    ensures Parse(f) ==
            Assembled(f[2..endBegin], ParseFields(f[endLength + 1..|f| - 7]), Checksum(f[..|f| - 7]))
  {
    hide Scan, Find, Assembled, ParseFields, Checksum;
  }

  /** What is parsed from an encoded message is what its body spells. */
  lemma ParseOfEncoded(begin: Bytes, fields: seq<Field>)
    requires Encode(begin, fields).Ok? && |Encode(begin, fields).value| <= USIZE_MAX
    ensures var wire := Encode(begin, fields).value;
            |wire| >= 7 && Parse(wire) == Assembled(begin, ParseFields(Body(fields)), Checksum(wire[..|wire| - 7]))
  {
    var wire, body := Encode(begin, fields).value, Body(fields);
    var head := Head(begin, Dec(|body|), body);
    EncodedIsFrame(begin, fields);
    ParseOfFrame(wire, begin, Dec(|body|), body, ThreeDigits(Checksum(head)), |body|);
    assert wire[..|wire| - 7] == head;
  }

  /** What was encoded is parsed back unchanged exactly when no value contains the delimiter. */
  lemma RoundTrip(begin: Bytes, fields: seq<Field>)
    requires Encode(begin, fields).Ok? && |Encode(begin, fields).value| <= USIZE_MAX
    ensures var wire := Encode(begin, fields).value;
            (Parse(wire).Ok? && Parse(wire).value.fields == fields) <==> SohFree(fields)
    ensures SohFree(fields) ==>
              var wire := Encode(begin, fields).value;
              |wire| >= 7 && Parse(wire) == Ok(ParsedMessage(begin, fields, Checksum(wire[..|wire| - 7])))
  {
    var body := Body(fields);
    ParseOfEncoded(begin, fields);
    if SohFree(fields) {
      BodyIsText(fields);
      TextParses(Spelling(fields), fields);
    } else if ParseFields(body) == Ok(fields) {
      var digits := ParsedIsText(body, fields);
    }
  }

  /** Every accepted message has delimiter-free values, so a message that re-encodes keeps its meaning. */
  lemma ParsedReencodes(frame: Bytes)
    requires Parse(frame).Ok?
    ensures SohFree(Parse(frame).value.fields)
    ensures var m := Parse(frame).value;
            var again := Encode(m.beginString, m.fields);
            again.Ok? && |again.value| <= USIZE_MAX ==>
              Parse(again.value).Ok? && Parse(again.value).value.(checksum := m.checksum) == m
  {
    hide Scan, Encode, Find, Spells, Checksum;
    var m := Parse(frame).value;
    var (endBegin, endLength) := Headers(frame);
    var digits := ParsedIsText(frame[endLength + 1..|frame| - 7], m.fields);
    if Encode(m.beginString, m.fields).Ok? && |Encode(m.beginString, m.fields).value| <= USIZE_MAX {
      RoundTrip(m.beginString, m.fields);
    }
  }
}
