// The TagValue encoder, the frame scanner and the parser.
//
// A frame is   8=<begin> SOH 9=<digits> SOH <body> 10=<ddd> SOH   where <digits> is the length
// of <body> and <ddd> the sum of every byte before "10=", modulo 256.

module Codec {
  import opened Text

  datatype Field = Field(tag: u32, value: Bytes)

  datatype FrameFault =
    | NotDecimal
    | BeginStringNotFirst
    | BodyLengthNotSecond
    | CheckSumNotAtBoundary
    | CheckSumTooLarge
    | CheckSumMismatch

  datatype MessageFault =
    | IncompleteFrame
    | MoreThanOneFrame
    | MissingEquals
    | TagTooLarge
    | MissingDelimiter
    | MsgTypeNotThird

  datatype FrameError =
    | Malformed(reason: FrameFault)
    | BodyTooLarge
    | BufferedDataTooLarge
    | LengthOverflow

  datatype CodecError =
    | MsgTypeMustBeFirst
    | ManagedField(tag: u32)
    | InvalidTag
    | InvalidBeginString

  datatype ParseError =
    | Frame(error: FrameError)
    | MalformedMessage(reason: MessageFault)

  datatype ParsedMessage = ParsedMessage(beginString: Bytes, fields: seq<Field>, checksum: byte)

  const BEGIN_TAG: Bytes := [0x38, 0x3D] // "8="
  const LENGTH_TAG: Bytes := [0x39, 0x3D] // "9="
  const CHECKSUM_TAG: Bytes := [0x31, 0x30, 0x3D] // "10="
  const CHECKSUM_FIELD_LEN: nat := 7
  const U32_MAX: nat := 0xFFFF_FFFF

  // ----- decimal values and checksums -----

  /** One digit after another with overflow-checked arithmetic; None once a step overflows. */
  function CheckedFold(d: Bytes): (r: Option<nat>)
    requires AllDigits(d)
    ensures r == if DigitsValue(d) <= USIZE_MAX then Some(DigitsValue(d)) else None
  {
    if d == [] then Some(0)
    else
      assert IsDigit(d[|d| - 1]);
      match CheckedFold(d[..|d| - 1])
      case None => None
      case Some(v) =>
        if v * 10 > USIZE_MAX then None
        else if v * 10 + (d[|d| - 1] as int - 0x30) > USIZE_MAX then None
        else Some(v * 10 + (d[|d| - 1] as int - 0x30))
  }

  function ParseDecimal(d: Bytes): (r: Result<nat, FrameError>)
    ensures r.Ok? <==> d != [] && AllDigits(d) && DigitsValue(d) <= USIZE_MAX
    ensures r.Ok? ==> r.value == DigitsValue(d)
  {
    if d == [] || exists b | b in d :: !IsDigit(b) then
      Err(Malformed(NotDecimal))
    else
      match CheckedFold(d)
      case Some(v) => Ok(v)
      case None => Err(LengthOverflow)
  }

  /** The sum of the bytes modulo 256, as a wrapping one-byte fold computes it. */
  function Checksum(s: Bytes): byte {
    if s == [] then 0 else ((Checksum(s[..|s| - 1]) as int + s[|s| - 1] as int) % 0x100) as byte
  }

  /** The value formatted with at least three digits. */
  function ThreeDigits(c: byte): (d: Bytes)
    ensures |d| == 3 && AllDigits(d) && DigitsValue(d) == c as int
  {
    var n := c as int;
    var d := [(0x30 + n / 100) as byte, (0x30 + n / 10 % 10) as byte, (0x30 + n % 10) as byte];
    ThreeDigitsValue(d);
    d
  }

  lemma ThreeDigitsValue(d: Bytes)
    requires |d| == 3 && AllDigits(d)
    ensures DigitsValue(d) == 100 * (d[0] as int - 0x30) + 10 * (d[1] as int - 0x30) + (d[2] as int - 0x30)
  {
    assert IsDigit(d[0]) && IsDigit(d[1]) && IsDigit(d[2]);
    var two, one := d[..2], d[..1];
    assert two[..1] == one && one[..0] == [];
    assert DigitsValue(one) == d[0] as int - 0x30;
    assert DigitsValue(two) == 10 * DigitsValue(one) + (d[1] as int - 0x30);
  }

  // ----- encoding -----

  function EncodeField(f: Field): Bytes { Dec(f.tag) + [EQUALS] + f.value + [SOH] }

  function Body(fields: seq<Field>): Bytes {
    if fields == [] then [] else EncodeField(fields[0]) + Body(fields[1..])
  }

  /** The first reason, in field order, why the encoder refuses these fields. */
  function RefusedField(fields: seq<Field>): (r: Option<CodecError>)
    ensures r.None? <==> forall f | f in fields :: f.tag != 0 && !(8 <= f.tag <= 10)
  {
    if fields == [] then None
    else if fields[0].tag == 0 then Some(InvalidTag)
    else if 8 <= fields[0].tag <= 10 then Some(ManagedField(fields[0].tag))
    else RefusedField(fields[1..])
  }

  /** Why `EncodeMessage` refuses, if it does. */
  function Refusal(begin: Bytes, fields: seq<Field>): Option<CodecError> {
    if begin == [] || SOH in begin || EQUALS in begin then Some(InvalidBeginString)
    else if fields == [] || fields[0].tag != 35 then Some(MsgTypeMustBeFirst)
    else RefusedField(fields)
  }

  /** A tag with its '=', the text and the delimiter. */
  function Delimit(tag: Bytes, text: Bytes): Bytes { tag + text + [SOH] }

  function Head(begin: Bytes, digits: Bytes, body: Bytes): Bytes {
    Delimit(BEGIN_TAG, begin) + (Delimit(LENGTH_TAG, digits) + body)
  }

  /** The bytes of a message, or why the encoder refuses it. */
  function Encode(begin: Bytes, fields: seq<Field>): Result<Bytes, CodecError> {
    match Refusal(begin, fields)
    case Some(e) => Err(e)
    case None =>
      var head := Head(begin, Dec(|Body(fields)|), Body(fields));
      Ok(head + Delimit(CHECKSUM_TAG, ThreeDigits(Checksum(head))))
  }

  lemma {:induction false} BodyAppend(a: seq<Field>, b: seq<Field>)
    ensures Body(a + b) == Body(a) + Body(b)
  {
    if a == [] {
      assert a + b == b;
    } else {
      assert (a + b)[1..] == a[1..] + b;
      BodyAppend(a[1..], b);
    }
  }

  lemma {:induction false} ChecksumAppend(s: Bytes, b: byte)
    ensures Checksum(s + [b]) == ((Checksum(s) as int + b as int) % 0x100) as byte
  {
    assert (s + [b])[..|s|] == s;
  }

  method EncodeMessage(begin: Bytes, fields: seq<Field>) returns (r: Result<Bytes, CodecError>)
    ensures r == Encode(begin, fields)
  {
    if |begin| == 0 || SOH in begin || EQUALS in begin {
      return Err(InvalidBeginString);
    }
    if |fields| == 0 || fields[0].tag != 35 {
      return Err(MsgTypeMustBeFirst);
    }
    var body := EncodeBody(fields);
    if body.Err? {
      return body;
    }
    var wire := Delimit(BEGIN_TAG, begin) + (Delimit(LENGTH_TAG, Dec(|body.value|)) + body.value);
    var checksum := WrappingSum(wire);
    r := Ok(wire + Delimit(CHECKSUM_TAG, ThreeDigits(checksum)));
  }

  method EncodeBody(fields: seq<Field>) returns (r: Result<Bytes, CodecError>)
    ensures r == match RefusedField(fields) case Some(e) => Err(e) case None => Ok(Body(fields))
  {
    var body: Bytes := [];
    for i := 0 to |fields|
      invariant body == Body(fields[..i])
      invariant RefusedField(fields) == RefusedField(fields[i..])
    {
      var field := fields[i];
      assert fields[i..][1..] == fields[i + 1..];
      if field.tag == 0 {
        return Err(InvalidTag);
      }
      if 8 <= field.tag <= 10 {
        return Err(ManagedField(field.tag));
      }
      BodyAppend(fields[..i], [field]);
      assert fields[..i + 1] == fields[..i] + [field];
      assert Body([field]) == EncodeField(field) + Body([]);
      body := body + EncodeField(field);
    }
    assert fields[..|fields|] == fields;
    r := Ok(body);
  }

  method WrappingSum(s: Bytes) returns (sum: byte)
    ensures sum == Checksum(s)
  {
    sum := 0;
    for i := 0 to |s|
      invariant sum == Checksum(s[..i])
    {
      ChecksumAppend(s[..i], s[i]);
      assert s[..i + 1] == s[..i] + [s[i]];
      sum := ((sum as int + s[i] as int) % 0x100) as byte;
    }
    assert s[..|s|] == s;
  }

  // ----- scanning for one frame -----

  datatype Scanned = NeedMore | Complete(end: nat) | Bad(error: FrameError)

  predicate StartsWith(s: Bytes, at: nat, prefix: Bytes)
    requires |prefix| > 1
  {
    && at + |prefix| <= |s| && s[at] == prefix[0] && s[at + 1] == prefix[1]
    && forall i | 2 <= i < |prefix| :: s[at + i] == prefix[i]
  }

  /** What the head of a buffer holds: a frame ending at `end`, an error, or too little to tell. */
  function Scan(b: Bytes, max: nat): (r: Scanned)
    ensures r.Complete? ==> 7 < r.end <= |b|
  {
    if |b| < 2 then NeedMore
    else if !StartsWith(b, 0, BEGIN_TAG) then Bad(Malformed(BeginStringNotFirst))
    else
      match Find(b, SOH, 0)
      case None => NeedMore
      case Some(endBegin) =>
        var lengthStart := endBegin + 1;
        if |b| < lengthStart + 2 then NeedMore
        else if !StartsWith(b, lengthStart, LENGTH_TAG) then Bad(Malformed(BodyLengthNotSecond))
        else
          match Find(b, SOH, lengthStart)
          case None => NeedMore
          case Some(endLength) => ScanBody(b, max, endLength, ParseDecimal(b[lengthStart + 2..endLength]))
  }

  /** The part of the scan after the BodyLength field, which ends at `endLength`. */
  function ScanBody(b: Bytes, max: nat, endLength: nat, length: Result<nat, FrameError>): (r: Scanned)
    ensures r.Complete? ==> 7 < r.end <= |b|
  {
    match length
    case Err(e) => Bad(e)
    case Ok(bodyLength) =>
      var checksumStart := endLength + 1 + bodyLength;
      var frameEnd := checksumStart + CHECKSUM_FIELD_LEN;
      if bodyLength > max then Bad(BodyTooLarge)
      else if frameEnd > USIZE_MAX then Bad(LengthOverflow)
      else if |b| < frameEnd then NeedMore
      else CheckTrailer(b[..checksumStart], b[checksumStart..frameEnd])
  }

  /** The CheckSum field: seven bytes "10=ddd" SOH that name the sum of everything before. */
  function CheckTrailer(head: Bytes, trailer: Bytes): (r: Scanned)
    requires |trailer| == CHECKSUM_FIELD_LEN
    ensures !r.NeedMore?
    ensures r.Complete? ==> r.end == |head| + CHECKSUM_FIELD_LEN
  {
    if !StartsWith(trailer, 0, CHECKSUM_TAG) || trailer[6] != SOH then
      Bad(Malformed(CheckSumNotAtBoundary))
    else
      match ParseDecimal(trailer[3..6])
      case Err(e) => Bad(e)
      case Ok(claimed) =>
        if claimed > 0xFF then Bad(Malformed(CheckSumTooLarge))
        else if claimed != Checksum(head) as int then Bad(Malformed(CheckSumMismatch))
        else Complete(|head| + CHECKSUM_FIELD_LEN)
  }

  lemma ScanBodyStable(b: Bytes, more: Bytes, max: nat, endLength: nat, length: Result<nat, FrameError>)
    requires !ScanBody(b, max, endLength, length).NeedMore?
    ensures ScanBody(b + more, max, endLength, length) == ScanBody(b, max, endLength, length)
  {
    if length.Ok? && length.value <= max && endLength + 1 + length.value + 7 <= USIZE_MAX {
      var checksumStart := endLength + 1 + length.value;
      assert (b + more)[..checksumStart] == b[..checksumStart];
      assert (b + more)[checksumStart..checksumStart + 7] == b[checksumStart..checksumStart + 7];
    }
  }

  /** Once the scan has an answer, more input does not change it. */
  lemma ScanStable(b: Bytes, more: Bytes, max: nat)
    requires !Scan(b, max).NeedMore?
    ensures Scan(b + more, max) == Scan(b, max)
  {
    var c := b + more;
    if StartsWith(b, 0, BEGIN_TAG) {
      FindExtends(b, more, SOH, 0);
      var lengthStart := Find(b, SOH, 0).value + 1;
      if StartsWith(b, lengthStart, LENGTH_TAG) {
        FindExtends(b, more, SOH, lengthStart);
        var endLength := Find(b, SOH, lengthStart).value;
        assert c[lengthStart + 2..endLength] == b[lengthStart + 2..endLength];
        ScanBodyStable(b, more, max, endLength, ParseDecimal(b[lengthStart + 2..endLength]));
      }
    }
  }

  // ----- what a frame is -----

  /** `f` is one frame made of these four parts, with a body of at most `max` bytes. */
  ghost predicate IsFrame(f: Bytes, begin: Bytes, digits: Bytes, body: Bytes, check: Bytes, max: nat) {
    && f == Head(begin, digits, body) + Delimit(CHECKSUM_TAG, check)
    && |f| <= USIZE_MAX
    && SOH !in begin
    && digits != [] && AllDigits(digits) && DigitsValue(digits) == |body| <= max
    && |check| == 3 && AllDigits(check) && DigitsValue(check) == Checksum(Head(begin, digits, body)) as int
  }

  /** Where the scan found the header fields of a complete frame, and what it checked after them. */
  ghost predicate Laid(b: Bytes, max: nat, endBegin: nat, endLength: nat, end: nat) {
    && StartsWith(b, 0, BEGIN_TAG) && Find(b, SOH, 0) == Some(endBegin) && 2 <= endBegin
    && StartsWith(b, endBegin + 1, LENGTH_TAG) && Find(b, SOH, endBegin + 1) == Some(endLength)
    && endBegin + 3 <= endLength && endLength + 8 <= end <= |b| && end <= USIZE_MAX
    && ParseDecimal(b[endBegin + 3..endLength]) == Ok(end - endLength - 8) && end - endLength - 8 <= max
    && CheckTrailer(b[..end - 7], b[end - 7..end]).Complete?
  }

  lemma ScanLaid(b: Bytes, max: nat) returns (endBegin: nat, endLength: nat)
    requires Scan(b, max).Complete?
    ensures Laid(b, max, endBegin, endLength, Scan(b, max).end)
  {
    hide CheckTrailer, ParseDecimal, Find;
    endBegin := Find(b, SOH, 0).value;
    endLength := Find(b, SOH, endBegin + 1).value;
  }

  lemma LaidScan(b: Bytes, max: nat, endBegin: nat, endLength: nat, end: nat)
    requires Laid(b, max, endBegin, endLength, end)
    ensures Scan(b, max) == Complete(end)
  {
    hide CheckTrailer, ParseDecimal, Find;
  }

  lemma Delimited(b: Bytes, from: nat, at: nat, tag: Bytes)
    requires |tag| >= 2 && from + |tag| <= at < |b| && b[at] == SOH && StartsWith(b, from, tag)
    ensures b[from..at + 1] == Delimit(tag, b[from + |tag|..at])
  {
    assert b[from..from + |tag|] == tag;
    assert b[from..at + 1] == b[from..from + |tag|] + b[from + |tag|..at] + [b[at]];
  }

  lemma SplitThree(b: Bytes, i: nat, j: nat, k: nat)
    requires i <= j <= k <= |b|
    ensures b[..k] == b[0..i] + (b[i..j] + b[j..k])
  {
  }

  lemma LaidIsHead(b: Bytes, endBegin: nat, endLength: nat, bodyEnd: nat)
    requires 2 <= endBegin && endBegin + 3 <= endLength < bodyEnd <= |b|
    requires StartsWith(b, 0, BEGIN_TAG) && b[endBegin] == SOH && b[endLength] == SOH
    requires StartsWith(b, endBegin + 1, LENGTH_TAG)
    ensures b[..bodyEnd] == Head(b[2..endBegin], b[endBegin + 3..endLength], b[endLength + 1..bodyEnd])
  {
    Delimited(b, 0, endBegin, BEGIN_TAG);
    Delimited(b, endBegin + 1, endLength, LENGTH_TAG);
    hide Delimit, StartsWith;
    SplitThree(b, endBegin + 1, endLength + 1, bodyEnd);
  }

  lemma NotInSlice(b: Bytes, x: byte, from: nat, to: nat)
    requires from <= to <= |b| && forall i | from <= i < to :: b[i] != x
    ensures x !in b[from..to]
  {
  }

  /** A scanned frame is a frame. */
  lemma ScannedIsFrame(b: Bytes, max: nat)
    returns (begin: Bytes, digits: Bytes, body: Bytes, check: Bytes)
    requires Scan(b, max).Complete?
    ensures IsFrame(b[..Scan(b, max).end], begin, digits, body, check, max)
  {
    hide Scan, Find, CheckTrailer, Delimit, Head;
    var end := Scan(b, max).end;
    var endBegin, endLength := ScanLaid(b, max);
    begin, digits, body := b[2..endBegin], b[endBegin + 3..endLength], b[endLength + 1..end - 7];
    check := TrailerIsCheckField(b[..end - 7], b[end - 7..end]);
    LaidIsHead(b, endBegin, endLength, end - 7);
    NotInSlice(b, SOH, 2, endBegin);
    assert b[..end] == b[..end - 7] + b[end - 7..end];
  }

  lemma TrailerIsCheckField(head: Bytes, trailer: Bytes) returns (check: Bytes)
    requires |trailer| == 7 && CheckTrailer(head, trailer).Complete?
    ensures trailer == Delimit(CHECKSUM_TAG, check)
    ensures |check| == 3 && AllDigits(check) && DigitsValue(check) == Checksum(head) as int
  {
    check := trailer[3..6];
    Delimited(trailer, 0, 6, CHECKSUM_TAG);
    assert trailer[0..7] == trailer;
  }

  lemma Slices(a: Bytes, b: Bytes, c: Bytes)
    ensures (a + b + c)[..|a|] == a && (a + b + c)[|a|..|a| + |b|] == b && (a + b + c)[|a| + |b|..] == c
  {
  }

  /** Text without the delimiter is found between its tag and the delimiter it was put before. */
  lemma DelimitFound(b: Bytes, at: nat, tag: Bytes, text: Bytes)
    requires |tag| == 2 && tag[0] != SOH && tag[1] != SOH && SOH !in text
    requires at + 3 + |text| <= |b| && b[at..at + 3 + |text|] == Delimit(tag, text)
    ensures StartsWith(b, at, tag)
    ensures b[at + 2..at + 2 + |text|] == text
    ensures Find(b, SOH, at) == Some(at + 2 + |text|)
  {
    var part := b[at..at + 3 + |text|];
    forall i | 0 <= i < |part|
      ensures b[at + i] == part[i] == if i < 2 then tag[i] else if i < 2 + |text| then text[i - 2] else SOH
    {
    }
    assert forall j | at <= j < at + |part| :: b[j] == b[at + (j - at)];
    forall i | 0 <= i < |text|
      ensures b[at + 2 + i] == text[i]
    {
      assert part[2 + i] == text[i];
    }
    FindIs(b, SOH, at, at + 2 + |text|);
  }

  /** Where the parts of an assembled frame are. */
  lemma FrameLayout(begin: Bytes, digits: Bytes, body: Bytes, rest: Bytes)
    requires SOH !in begin && SOH !in digits
    ensures var f := Head(begin, digits, body) + rest;
            HeadersAt(f, begin, digits) && f[6 + |begin| + |digits|..6 + |begin| + |digits| + |body|] == body
  {
    var f := Head(begin, digits, body) + rest;
    FrameSlices(Delimit(BEGIN_TAG, begin), Delimit(LENGTH_TAG, digits), body, rest);
    DelimitFound(f, 0, BEGIN_TAG, begin);
    DelimitFound(f, 3 + |begin|, LENGTH_TAG, digits);
  }

  /** `f` begins with these two header fields, and the scan finds them. */
  ghost predicate HeadersAt(f: Bytes, begin: Bytes, digits: Bytes) {
    && StartsWith(f, 0, BEGIN_TAG) && Find(f, SOH, 0) == Some(2 + |begin|)
    && StartsWith(f, 3 + |begin|, LENGTH_TAG) && Find(f, SOH, 3 + |begin|) == Some(5 + |begin| + |digits|)
    && f[2..2 + |begin|] == begin && f[5 + |begin|..5 + |begin| + |digits|] == digits
  }

  lemma FrameSlices(first: Bytes, second: Bytes, body: Bytes, rest: Bytes)
    ensures var f := first + (second + body) + rest;
            && f[0..|first|] == first && f[|first|..|first| + |second|] == second
            && f[|first| + |second|..|first| + |second| + |body|] == body
  {
    var f := first + (second + body) + rest;
    assert f == [] + first + (second + body + rest);
    Slices([], first, second + body + rest);
    assert f == first + second + (body + rest);
    Slices(first, second, body + rest);
    assert f == (first + second) + body + rest;
    Slices(first + second, body, rest);
  }

  lemma DigitsHaveNo(digits: Bytes, b: byte)
    requires AllDigits(digits) && !IsDigit(b)
    ensures b !in digits
  {
  }

  /** Where the parts of a frame are. */
  lemma FrameParts(f: Bytes, begin: Bytes, digits: Bytes, body: Bytes, check: Bytes, max: nat)
    requires IsFrame(f, begin, digits, body, check, max)
    ensures |f| == 6 + |begin| + |digits| + |body| + 7
    ensures HeadersAt(f, begin, digits) && f[6 + |begin| + |digits|..|f| - 7] == body
    ensures f[..|f| - 7] == Head(begin, digits, body) && f[|f| - 7..|f|] == Delimit(CHECKSUM_TAG, check)
  {
    hide HeadersAt;
    var head, trailer := Head(begin, digits, body), Delimit(CHECKSUM_TAG, check);
    DigitsHaveNo(digits, SOH);
    FrameLayout(begin, digits, body, trailer);
    Slices(head, trailer, []);
    assert f == head + trailer + [];
  }

  /** Every frame is scanned as one, to its last byte. */
  lemma FrameIsScanned(f: Bytes, begin: Bytes, digits: Bytes, body: Bytes, check: Bytes, max: nat)
    requires IsFrame(f, begin, digits, body, check, max)
    ensures Scan(f, max) == Complete(|f|)
  {
    hide Laid, Scan, HeadersAt, Find, Head, Delimit, CheckTrailer, AllDigits, DigitsValue, Checksum;
    FrameParts(f, begin, digits, body, check, max);
    CheckFieldAccepted(Head(begin, digits, body), check);
    PartsLaid(f, begin, digits, |body|, max);
    LaidScan(f, max, 2 + |begin|, 5 + |begin| + |digits|, |f|);
  }

  lemma PartsLaid(f: Bytes, begin: Bytes, digits: Bytes, length: nat, max: nat)
    requires HeadersAt(f, begin, digits) && digits != [] && ParseDecimal(digits) == Ok(length) && length <= max
    requires |f| == 13 + |begin| + |digits| + length && |f| <= USIZE_MAX
    requires CheckTrailer(f[..|f| - 7], f[|f| - 7..|f|]).Complete?
    ensures Laid(f, max, 2 + |begin|, 5 + |begin| + |digits|, |f|)
  {
    hide Find, ParseDecimal, CheckTrailer, StartsWith;
  }

  lemma CheckFieldAccepted(head: Bytes, check: Bytes)
    requires |check| == 3 && AllDigits(check) && DigitsValue(check) == Checksum(head) as int
    ensures CheckTrailer(head, Delimit(CHECKSUM_TAG, check)).Complete?
  {
    Slices(CHECKSUM_TAG, check, [SOH]);
  }

  lemma FrameAheadIsScanned(b: Bytes, n: nat, begin: Bytes, digits: Bytes, body: Bytes, check: Bytes, max: nat)
    requires n <= |b| && IsFrame(b[..n], begin, digits, body, check, max)
    ensures Scan(b, max) == Complete(n)
  {
    FrameIsScanned(b[..n], begin, digits, body, check, max);
    ScanStable(b[..n], b[n..], max);
    assert b[..n] + b[n..] == b;
  }

  /** The scan reports a frame of n bytes exactly when the first n bytes are a frame. */
  lemma ScanExact(b: Bytes, max: nat, n: nat)
    requires n <= |b|
    ensures Scan(b, max) == Complete(n) <==>
            exists begin, digits, body, check :: IsFrame(b[..n], begin, digits, body, check, max)
  {
    var f := b[..n];
    if Scan(b, max) == Complete(n) {
      var begin, digits, body, check := ScannedIsFrame(b, max);
      assert IsFrame(f, begin, digits, body, check, max);
    } else if begin, digits, body, check :| IsFrame(f, begin, digits, body, check, max) {
      FrameAheadIsScanned(b, n, begin, digits, body, check, max);
    }
  }
}
