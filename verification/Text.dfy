// Bytes, decimal text and the small result types shared by every module.

module Text {

  newtype byte = x: int | 0 <= x < 0x100

  type Bytes = seq<byte>

  type u32 = x: nat | x < 0x1_0000_0000

  const USIZE_MAX: nat := 0xFFFF_FFFF_FFFF_FFFF
  const U64_MAX: nat := 0xFFFF_FFFF_FFFF_FFFF

  const SOH: byte := 0x01
  const EQUALS: byte := 0x3D
  const PLUS: byte := 0x2B
  const COLON: byte := 0x3A

  datatype Option<+T> = None | Some(value: T)

  datatype Result<+T, +E> = Ok(value: T) | Err(error: E)

  // ----- decimal text -----

  predicate IsDigit(b: byte) { 0x30 <= b as int <= 0x39 }

  ghost predicate AllDigits(s: Bytes) { forall b | b in s :: IsDigit(b) }

  /** The unsigned decimal text of a number, without leading zeros. */
  function Dec(n: nat): (d: Bytes)
    ensures |d| > 0 && AllDigits(d) && DigitsValue(d) == n
  {
    if n < 10 then
      [(0x30 + n) as byte]
    else
      Dec(n / 10) + [(0x30 + n % 10) as byte]
  }

  /** The number a digit string denotes, whatever its length. */
  function DigitsValue(d: Bytes): nat
    requires AllDigits(d)
  {
    if d == [] then 0
    else
      assert IsDigit(d[|d| - 1]);
      10 * DigitsValue(d[..|d| - 1]) + (d[|d| - 1] as int - 0x30)
  }

  lemma {:induction false} DecInjective(a: nat, b: nat)
    requires Dec(a) == Dec(b)
    ensures a == b
  {
    assert DigitsValue(Dec(a)) == a && DigitsValue(Dec(b)) == b;
  }

  // ----- searching -----

  /** The first position at or after `from` holding `b`. */
  function Find(s: Bytes, b: byte, from: nat): (r: Option<nat>)
    ensures r.None? ==> forall i | from <= i < |s| :: s[i] != b
    ensures r.Some? ==> from <= r.value < |s| && s[r.value] == b && forall i | from <= i < r.value :: s[i] != b
    decreases |s| - from
  {
    if from >= |s| then None
    else if s[from] == b then Some(from)
    else Find(s, b, from + 1)
  }

  /** `Find` answers `at` exactly when `at` is the first occurrence. */
  lemma FindIs(s: Bytes, b: byte, from: nat, at: nat)
    requires from <= at < |s| && s[at] == b
    requires forall i | from <= i < at :: s[i] != b
    ensures Find(s, b, from) == Some(at)
  {
  }

  /** A byte is found just after a stretch of text without it. */
  lemma FindAfter(s: Bytes, b: byte, from: nat, clean: Bytes)
    requires b !in clean && from + |clean| < |s| && s[from..from + |clean|] == clean && s[from + |clean|] == b
    ensures Find(s, b, from) == Some(from + |clean|)
  {
    forall i | from <= i < from + |clean|
      ensures s[i] != b
    {
      assert s[i] == clean[i - from];
    }
    FindIs(s, b, from, from + |clean|);
  }

  lemma FindExtends(s: Bytes, more: Bytes, b: byte, from: nat)
    requires Find(s, b, from).Some?
    ensures Find(s + more, b, from) == Find(s, b, from)
  {
    var at := Find(s, b, from).value;
    FindIs(s + more, b, from, at);
  }

  // ----- UTF-8 -----

  predicate IsTail(s: Bytes, at: nat, low: int, high: int) { at < |s| && low <= s[at] as int <= high }

  /** The length of the well-formed UTF-8 sequence at the head of `s`, 0 if there is none. */
  function Utf8Head(s: Bytes): (n: nat)
    requires s != []
    ensures n <= |s|
  {
    var b := s[0] as int;
    if b < 0x80 then 1
    else if 0xC2 <= b <= 0xDF then if IsTail(s, 1, 0x80, 0xBF) then 2 else 0
    else if 0xE0 <= b <= 0xEF then
      var low, high := if b == 0xE0 then 0xA0 else 0x80, if b == 0xED then 0x9F else 0xBF;
      if IsTail(s, 1, low, high) && IsTail(s, 2, 0x80, 0xBF) then 3 else 0
    else if 0xF0 <= b <= 0xF4 then
      var low, high := if b == 0xF0 then 0x90 else 0x80, if b == 0xF4 then 0x8F else 0xBF;
      if IsTail(s, 1, low, high) && IsTail(s, 2, 0x80, 0xBF) && IsTail(s, 3, 0x80, 0xBF) then 4 else 0
    else 0
  }

  predicate IsUtf8(s: Bytes)
    decreases |s|
  {
    s == [] || (Utf8Head(s) > 0 && IsUtf8(s[Utf8Head(s)..]))
  }
}
