// Messages at the level of their fields. `Parser.RoundTrip` ties this level to the bytes on the wire.

module Messages {
  import opened Text
  import opened Codec

  datatype Message = Message(beginString: Bytes, fields: seq<Field>)

  /** The bytes of a message, as the socket and the journal get them. */
  function WireOf(m: Message): Bytes {
    match Encode(m.beginString, m.fields) case Ok(wire) => wire case Err(_) => []
  }

  /** The values of every field with this tag, in order. */
  function Values(fields: seq<Field>, tag: u32): (r: seq<Bytes>)
    ensures r != [] ==> exists f :: f in fields && f.tag == tag && f.value == r[0]
  {
    if fields == [] then []
    else if fields[0].tag == tag then [fields[0].value] + Values(fields[1..], tag)
    else Values(fields[1..], tag)
  }

  function First(fields: seq<Field>, tag: u32): (r: Option<Bytes>) {
    var values := Values(fields, tag);
    if values == [] then None else Some(values[0])
  }

  lemma {:induction false} ValuesAppend(a: seq<Field>, b: seq<Field>, tag: u32)
    ensures Values(a + b, tag) == Values(a, tag) + Values(b, tag)
  {
    if a == [] {
      assert a + b == b;
    } else {
      assert (a + b)[0] == a[0] && (a + b)[1..] == a[1..] + b;
      ValuesAppend(a[1..], b, tag);
    }
  }

  lemma {:induction false} ValuesAbsent(fields: seq<Field>, tag: u32)
    ensures Values(fields, tag) == [] <==> forall f | f in fields :: f.tag != tag
  {
    if fields != [] {
      ValuesAbsent(fields[1..], tag);
      assert fields == [fields[0]] + fields[1..];
    }
  }

  lemma ValuesCons(fields: seq<Field>, tag: u32)
    requires fields != []
    ensures Values(fields, tag) == (if fields[0].tag == tag then [fields[0].value] else []) + Values(fields[1..], tag)
  {
  }

  lemma ValuesOne(field: Field, tag: u32)
    ensures Values([field], tag) == if field.tag == tag then [field.value] else []
  {
  }

  lemma ValuesTwo(a: Field, b: Field, tag: u32)
    ensures Values([a, b], tag) == (if a.tag == tag then [a.value] else []) + (if b.tag == tag then [b.value] else [])
  {
    assert [a, b] == [a] + [b];
    ValuesAppend([a], [b], tag);
  }

  /** An unsigned integer as the standard library reads it: an optional '+', then digits below 2^64. */
  function ParseU64(text: Bytes): (r: Option<nat>)
    ensures r.Some? ==> r.value <= U64_MAX
  {
    var digits := if |text| > 1 && text[0] == PLUS then text[1..] else text;
    if digits == [] || exists b | b in digits :: !IsDigit(b) then None
    else if DigitsValue(digits) > U64_MAX then None
    else Some(DigitsValue(digits))
  }

  lemma ParseU64OfDec(n: nat)
    requires n <= U64_MAX
    ensures ParseU64(Dec(n)) == Some(n)
  {
    var d := Dec(n);
    assert d[0] in d;
  }

  function NumberAt(m: Message, tag: u32): Option<nat> {
    match First(m.fields, tag)
    case None => None
    case Some(text) => ParseU64(text)
  }

  /** MsgType, when it is the first field. */
  function MsgType(m: Message): Option<Bytes> {
    if m.fields != [] && m.fields[0].tag == 35 then Some(m.fields[0].value) else None
  }

  const YES: Bytes := [0x59] // "Y"

  predicate PossDup(m: Message) { First(m.fields, 43) == Some(YES) }
}
