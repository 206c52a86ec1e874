// What a command is identified by: the bytes that are hashed into its fingerprint and into its ClOrdID.

module Fingerprint {
  import opened Text
  import opened Codec

  datatype ExecutionMode = Inspect | DryRun | Certification | Live

  const NUL: byte := 0x00
  // "fix-cli-command-v1" NUL
  const COMMAND_DOMAIN: Bytes := [
    0x66, 0x69, 0x78, 0x2D, 0x63, 0x6C, 0x69, 0x2D, 0x63, 0x6F, 0x6D, 0x6D, 0x61, 0x6E, 0x64, 0x2D, 0x76, 0x31,
    0x00
  ]
  // "fix-cli-clordid-v1" NUL
  const CLORDID_DOMAIN: Bytes := [
    0x66, 0x69, 0x78, 0x2D, 0x63, 0x6C, 0x69, 0x2D, 0x63, 0x6C, 0x6F, 0x72, 0x64, 0x69, 0x64, 0x2D, 0x76, 0x31,
    0x00
  ]

  function ModeText(mode: ExecutionMode): Bytes {
    match mode
    case Inspect => [0x69, 0x6E, 0x73, 0x70, 0x65, 0x63, 0x74] // "inspect"
    case DryRun => [0x64, 0x72, 0x79, 0x5F, 0x72, 0x75, 0x6E] // "dry_run"
    case Certification => // "certification"
      [0x63, 0x65, 0x72, 0x74, 0x69, 0x66, 0x69, 0x63, 0x61, 0x74, 0x69, 0x6F, 0x6E]
    case Live => [0x6C, 0x69, 0x76, 0x65] // "live"
  }

  /** The low `width` bytes of a number, the most significant first. */
  function BigEndian(n: nat, width: nat): (b: Bytes)
    ensures |b| == width
  {
    if width == 0 then [] else BigEndian(n / 0x100, width - 1) + [(n % 0x100) as byte]
  }

  function Power256(width: nat): nat { if width == 0 then 1 else 0x100 * Power256(width - 1) }

  lemma {:induction false} BigEndianInjective(a: nat, b: nat, width: nat)
    requires a < Power256(width) && b < Power256(width) && BigEndian(a, width) == BigEndian(b, width)
    ensures a == b
  {
    if width > 0 {
      var x, y := BigEndian(a, width), BigEndian(b, width);
      assert x[..width - 1] == BigEndian(a / 0x100, width - 1) && y[..width - 1] == BigEndian(b / 0x100, width - 1);
      assert x[width - 1] == y[width - 1];
      BigEndianInjective(a / 0x100, b / 0x100, width - 1);
    }
  }

  lemma Widths()
    ensures Power256(4) == U32_MAX + 1 && Power256(8) == U64_MAX + 1
  {
    assert Power256(2) == 0x1_0000;
    assert Power256(4) == 0x1_0000_0000;
    assert Power256(6) == 0x1_0000_0000_0000;
  }

  /** A field as it is hashed: tag, length of the value, value. */
  function Framed(f: Field): Bytes { BigEndian(f.tag, 4) + BigEndian(|f.value|, 8) + f.value }

  function FramedAll(fields: seq<Field>): Bytes {
    if fields == [] then [] else FramedAll(fields[..|fields| - 1]) + Framed(fields[|fields| - 1])
  }

  function CommandHead(profile: Bytes, mode: ExecutionMode, msgType: Bytes): Bytes {
    COMMAND_DOMAIN + profile + [NUL] + ModeText(mode) + [NUL] + msgType
  }

  /** The bytes that are hashed for a command. */
  function CommandBytes(profile: Bytes, mode: ExecutionMode, msgType: Bytes, fields: seq<Field>): Bytes {
    CommandHead(profile, mode, msgType) + FramedAll(fields)
  }

  /** The bytes that are hashed for the ClOrdID of a request. */
  function ClOrdIdBytes(profile: Bytes, requestId: Bytes): Bytes {
    CLORDID_DOMAIN + profile + [NUL] + requestId
  }

  function HexDigit(n: nat): byte
    requires n < 16
  {
    if n < 10 then (0x30 + n) as byte else (0x61 + n - 10) as byte
  }

  function Hex(input: Bytes): (r: Bytes)
    ensures |r| == 2 * |input|
  {
    if input == [] then []
    else
      var last := input[|input| - 1] as int;
      Hex(input[..|input| - 1]) + [HexDigit(last / 16), HexDigit(last % 16)]
  }

  function FingerprintText(
      hash: Bytes -> Bytes, profile: Bytes, mode: ExecutionMode, msgType: Bytes, fields: seq<Field>): Bytes
  {
    Hex(hash(CommandBytes(profile, mode, msgType, fields)))
  }

  /** What the running digest has been fed after every field. */
  method FeedDigest(profile: Bytes, mode: ExecutionMode, msgType: Bytes, fields: seq<Field>) returns (fed: Bytes)
    ensures fed == CommandBytes(profile, mode, msgType, fields)
  {
    fed := COMMAND_DOMAIN;
    fed := fed + profile;
    fed := fed + [NUL];
    fed := fed + ModeText(mode);
    fed := fed + [NUL];
    fed := fed + msgType;
    ghost var head := fed;
    assert head + FramedAll([]) == head;
    for i := 0 to |fields|
      invariant fed == head + FramedAll(fields[..i])
    {
      assert fields[..i + 1][..i] == fields[..i];
      FeedsField(head, FramedAll(fields[..i]), fields[i]);
      fed := fed + BigEndian(fields[i].tag, 4);
      fed := fed + BigEndian(|fields[i].value|, 8);
      fed := fed + fields[i].value;
    }
    assert fields[..|fields|] == fields;
  }

  lemma FeedsField(head: Bytes, done: Bytes, f: Field)
    ensures head + done + BigEndian(f.tag, 4) + BigEndian(|f.value|, 8) + f.value == head + (done + Framed(f))
  {
  }

  method HexText(input: Bytes) returns (output: Bytes)
    ensures output == Hex(input)
  {
    output := [];
    for i := 0 to |input|
      invariant output == Hex(input[..i])
    {
      assert input[..i + 1][..i] == input[..i];
      var b := input[i] as int;
      output := output + [HexDigit(b / 16)];
      output := output + [HexDigit(b % 16)];
    }
    assert input[..|input|] == input;
  }

  // ----- injectivity -----

  lemma SplitAtNul(a: Bytes, rest: Bytes, a': Bytes, rest': Bytes)
    requires NUL !in a && NUL !in a' && a + [NUL] + rest == a' + [NUL] + rest'
    ensures a == a' && rest == rest'
  {
    var s, s' := a + [NUL] + rest, a' + [NUL] + rest';
    assert s[|a|] == NUL && s'[|a'|] == NUL;
    assert forall i | 0 <= i < |a| :: s[i] == a[i];
    assert forall i | 0 <= i < |a'| :: s'[i] == a'[i];
    assert |a| == |a'|;
    assert s[..|a|] == a && s'[..|a'|] == a';
    assert s[|a| + 1..] == rest && s'[|a'| + 1..] == rest';
  }

  lemma SplitAfter(a: Bytes, rest: Bytes, a': Bytes, rest': Bytes)
    requires |a| == |a'| && a + rest == a' + rest'
    ensures a == a' && rest == rest'
  {
    assert (a + rest)[..|a|] == a && (a' + rest')[..|a'|] == a';
    assert (a + rest)[|a|..] == rest && (a' + rest')[|a'|..] == rest';
  }

  lemma {:induction false} FramedAllFront(fields: seq<Field>)
    requires fields != []
    ensures FramedAll(fields) == Framed(fields[0]) + FramedAll(fields[1..])
  {
    hide Framed;
    var last := |fields| - 1;
    var front, back, f := fields[..last], fields[1..], fields[last];
    if last == 0 {
      assert front == [] && back == [];
      assert [] + Framed(f) == Framed(f) + [];
    } else {
      FramedAllFront(front);
      assert front[1..] == back[..last - 1] && back[last - 1] == f;
      assert FramedAll(back) == FramedAll(front[1..]) + Framed(f);
      hide FramedAll;
      ThreeAssociate(Framed(fields[0]), FramedAll(front[1..]), Framed(f));
    }
  }

  lemma ThreeAssociate(a: Bytes, b: Bytes, c: Bytes)
    ensures a + b + c == a + (b + c)
  {
  }

  /** Every length fits the eight bytes it is written in. */
  predicate Sized(fields: seq<Field>) { forall f | f in fields :: |f.value| <= USIZE_MAX }

  lemma FramedPrefix(f: Field, rest: Bytes, f': Field, rest': Bytes)
    requires Framed(f) + rest == Framed(f') + rest'
    requires |f.value| <= USIZE_MAX && |f'.value| <= USIZE_MAX
    ensures f == f' && rest == rest'
  {
    hide BigEndian, Power256;
    Widths();
    var tag, length := BigEndian(f.tag, 4), BigEndian(|f.value|, 8);
    var tag', length' := BigEndian(f'.tag, 4), BigEndian(|f'.value|, 8);
    assert Framed(f) + rest == tag + (length + (f.value + rest));
    assert Framed(f') + rest' == tag' + (length' + (f'.value + rest'));
    SplitAfter(tag, length + (f.value + rest), tag', length' + (f'.value + rest'));
    SplitAfter(length, f.value + rest, length', f'.value + rest');
    BigEndianInjective(f.tag, f'.tag, 4);
    BigEndianInjective(|f.value|, |f'.value|, 8);
    SplitAfter(f.value, rest, f'.value, rest');
  }

  lemma {:induction false} FramedAllInjective(a: seq<Field>, b: seq<Field>)
    requires Sized(a) && Sized(b) && FramedAll(a) == FramedAll(b)
    ensures a == b
    decreases |a|
  {
    if a == [] || b == [] {
      FramedLength(a);
      FramedLength(b);
    } else {
      FramedAllFront(a);
      FramedAllFront(b);
      assert a[0] in a && b[0] in b;
      FramedPrefix(a[0], FramedAll(a[1..]), b[0], FramedAll(b[1..]));
      FramedAllInjective(a[1..], b[1..]);
      assert a == [a[0]] + a[1..] && b == [b[0]] + b[1..];
    }
  }

  lemma FramedLength(fields: seq<Field>)
    ensures FramedAll(fields) == [] <==> fields == []
  {
  }

  lemma ModeIsText(a: ExecutionMode, b: ExecutionMode)
    ensures NUL !in ModeText(a) && (ModeText(a) == ModeText(b) ==> a == b)
  {
    assert ModeText(Inspect)[0] != ModeText(DryRun)[0];
  }

  /** For one-byte message types the hashed bytes determine the whole command: profile, execution mode,
      message type and every field, in order. */
  lemma CommandBytesInjective(
      profile: Bytes, mode: ExecutionMode, msgType: Bytes, fields: seq<Field>,
      profile': Bytes, mode': ExecutionMode, msgType': Bytes, fields': seq<Field>)
    requires NUL !in profile && NUL !in profile' && |msgType| == |msgType'| == 1 && Sized(fields) && Sized(fields')
    requires CommandBytes(profile, mode, msgType, fields) == CommandBytes(profile', mode', msgType', fields')
    ensures profile == profile' && mode == mode' && msgType == msgType' && fields == fields'
  {
    hide FramedAll, ModeText;
    var tail, tail' := msgType + FramedAll(fields), msgType' + FramedAll(fields');
    var text, text' := ModeText(mode), ModeText(mode');
    CommandParts(profile, mode, msgType, fields);
    CommandParts(profile', mode', msgType', fields');
    SplitAfter(COMMAND_DOMAIN, profile + [NUL] + (text + [NUL] + tail),
               COMMAND_DOMAIN, profile' + [NUL] + (text' + [NUL] + tail'));
    SplitAtNul(profile, text + [NUL] + tail, profile', text' + [NUL] + tail');
    ModeIsText(mode, mode');
    ModeIsText(mode', mode);
    SplitAtNul(text, tail, text', tail');
    SplitAfter(msgType, FramedAll(fields), msgType', FramedAll(fields'));
    FramedAllInjective(fields, fields');
  }

  lemma CommandParts(profile: Bytes, mode: ExecutionMode, msgType: Bytes, fields: seq<Field>)
    ensures CommandBytes(profile, mode, msgType, fields) ==
            COMMAND_DOMAIN + (profile + [NUL] + (ModeText(mode) + [NUL] + (msgType + FramedAll(fields))))
  {
    hide FramedAll, ModeText;
  }

  /** With a longer message type the framing is ambiguous: the type can take in a field. */
  lemma LongTypeAmbiguous(profile: Bytes, mode: ExecutionMode, msgType: Bytes, f: Field)
    ensures CommandBytes(profile, mode, msgType, [f]) == CommandBytes(profile, mode, msgType + Framed(f), [])
  {
    hide ModeText, Framed;
    FramedAllFront([f]);
    assert FramedAll([f][1..]) == [];
    var head := COMMAND_DOMAIN + profile + [NUL] + ModeText(mode) + [NUL];
    assert CommandBytes(profile, mode, msgType, [f]) == head + msgType + Framed(f);
    assert CommandBytes(profile, mode, msgType + Framed(f), []) == head + (msgType + Framed(f));
  }

  lemma {:induction false} HexInjective(a: Bytes, b: Bytes)
    requires Hex(a) == Hex(b)
    ensures a == b
    decreases |a|
  {
    if a != [] {
      var last, last' := a[|a| - 1] as int, b[|b| - 1] as int;
      var x, y := Hex(a), Hex(b);
      assert x[|x| - 2] == y[|y| - 2] && x[|x| - 1] == y[|y| - 1];
      HexDigitInjective(last / 16, last' / 16);
      HexDigitInjective(last % 16, last' % 16);
      assert x[..|x| - 2] == Hex(a[..|a| - 1]) && y[..|y| - 2] == Hex(b[..|b| - 1]);
      HexInjective(a[..|a| - 1], b[..|b| - 1]);
      assert a == a[..|a| - 1] + [a[|a| - 1]] && b == b[..|b| - 1] + [b[|b| - 1]];
    }
  }

  lemma HexDigitInjective(a: nat, b: nat)
    requires a < 16 && b < 16 && HexDigit(a) == HexDigit(b)
    ensures a == b
  {
  }

  /** Unless the hash collides on just these two commands, equal fingerprints mean equal commands. */
  lemma FingerprintsAgree(
      hash: Bytes -> Bytes, profile: Bytes,
      mode: ExecutionMode, msgType: Bytes, fields: seq<Field>,
      mode': ExecutionMode, msgType': Bytes, fields': seq<Field>)
    requires NUL !in profile && |msgType| == |msgType'| == 1 && Sized(fields) && Sized(fields')
    requires var a, b := CommandBytes(profile, mode, msgType, fields), CommandBytes(profile, mode', msgType', fields');
             hash(a) == hash(b) ==> a == b
    ensures FingerprintText(hash, profile, mode, msgType, fields) ==
            FingerprintText(hash, profile, mode', msgType', fields')
            <==> mode == mode' && msgType == msgType' && fields == fields'
  {
    hide CommandBytes, Hex;
    var a, b := CommandBytes(profile, mode, msgType, fields), CommandBytes(profile, mode', msgType', fields');
    if Hex(hash(a)) == Hex(hash(b)) {
      HexInjective(hash(a), hash(b));
      CommandBytesInjective(profile, mode, msgType, fields, profile, mode', msgType', fields');
    }
  }

  /** The ClOrdID of a request is hashed from bytes that determine profile and request. */
  lemma ClOrdIdBytesInjective(profile: Bytes, requestId: Bytes, profile': Bytes, requestId': Bytes)
    requires NUL !in profile && NUL !in profile'
    requires ClOrdIdBytes(profile, requestId) == ClOrdIdBytes(profile', requestId')
    ensures profile == profile' && requestId == requestId'
  {
    assert ClOrdIdBytes(profile, requestId) == CLORDID_DOMAIN + (profile + [NUL] + requestId);
    assert ClOrdIdBytes(profile', requestId') == CLORDID_DOMAIN + (profile' + [NUL] + requestId');
    SplitAfter(CLORDID_DOMAIN, profile + [NUL] + requestId, CLORDID_DOMAIN, profile' + [NUL] + requestId');
    SplitAtNul(profile, requestId, profile', requestId');
  }
}
