// What the replay of an application message has in common with the message it replays.

module ReplayFieldFacts {
  import opened Text
  import opened Codec
  import opened Messages
  import opened Parser
  import opened Store
  import opened Session
  import opened SessionSafety
  import opened SessionInvariant

  /** The replay of `original` sent at the `ticks`-th reading of the clock. */
  function ReplayOf(env: Env, original: Message, ticks: nat): Message
    requires First(original.fields, 52).Some?
  {
    Message(env.config.beginString, ReplayFields(env, original.fields, First(original.fields, 52).value, ticks))
  }

  lemma {:induction false} ReplayKeepsValues(env: Env, fields: seq<Field>, origTime: Bytes, ticks: nat, tag: u32)
    requires tag !in {43, 52, 122}
    ensures Values(ReplayFields(env, fields, origTime, ticks), tag) == Values(fields, tag)
    decreases |fields|
  {
    if fields != [] {
      hide Values, ReplayField;
      var f, later := fields[0], if fields[0].tag == 52 then ticks + 1 else ticks;
      ReplayKeepsValues(env, fields[1..], origTime, later, tag);
      ValuesAppend(ReplayField(env, f, origTime, ticks), ReplayFields(env, fields[1..], origTime, later), tag);
      ValuesCons(fields, tag);
      ReplayFieldKeepsValues(env, f, origTime, ticks, tag);
    }
  }

  lemma ReplayFieldKeepsValues(env: Env, f: Field, origTime: Bytes, ticks: nat, tag: u32)
    requires tag !in {43, 52, 122}
    ensures Values(ReplayField(env, f, origTime, ticks), tag) == if f.tag == tag then [f.value] else []
  {
    hide Values;
    ValuesTwo(f, Field(43, YES), tag);
    ValuesTwo(Field(52, env.clock(ticks)), Field(122, origTime), tag);
    ValuesAbsent([], tag);
    ValuesOne(f, tag);
  }

  /** A message with one SendingTime is replayed with one, and with one OrigSendingTime. */
  lemma {:induction false} ReplayTimes(env: Env, fields: seq<Field>, origTime: Bytes, ticks: nat)
    requires |Values(fields, 52)| <= 1
    ensures var r := ReplayFields(env, fields, origTime, ticks);
            && Values(r, 52) == (if Values(fields, 52) == [] then [] else [env.clock(ticks)])
            && Values(r, 122) == (if Values(fields, 52) == [] then [] else [origTime])
    decreases |fields|
  {
    hide Values, ReplayField;
    if fields == [] {
      ValuesAbsent([], 52);
      ValuesAbsent([], 122);
    } else {
      var f, rest := fields[0], fields[1..];
      var later := if f.tag == 52 then ticks + 1 else ticks;
      ValuesCons(fields, 52);
      ReplayTimes(env, rest, origTime, later);
      ReplayFieldTimes(env, f, origTime, ticks);
      ValuesAppend(ReplayField(env, f, origTime, ticks), ReplayFields(env, rest, origTime, later), 52);
      ValuesAppend(ReplayField(env, f, origTime, ticks), ReplayFields(env, rest, origTime, later), 122);
    }
  }

  lemma ReplayFieldTimes(env: Env, f: Field, origTime: Bytes, ticks: nat)
    ensures var r := ReplayField(env, f, origTime, ticks);
            && Values(r, 52) == (if f.tag == 52 then [env.clock(ticks)] else [])
            && Values(r, 122) == (if f.tag == 52 then [origTime] else [])
  {
    hide Values;
    forall tag: u32 | tag == 52 || tag == 122
      ensures Values([], tag) == [] && Values([f], tag) == if f.tag == tag then [f.value] else []
    {
      ValuesAbsent([], tag);
      ValuesOne(f, tag);
    }
    ValuesTwo(f, Field(43, YES), 52);
    ValuesTwo(f, Field(43, YES), 122);
    ValuesTwo(Field(52, env.clock(ticks)), Field(122, origTime), 52);
    ValuesTwo(Field(52, env.clock(ticks)), Field(122, origTime), 122);
  }

  lemma {:induction false} PayloadAppend(a: seq<Field>, b: seq<Field>)
    ensures Payload(a + b) == Payload(a) + Payload(b)
  {
    if a == [] {
      assert a + b == b;
    } else {
      assert (a + b)[0] == a[0] && (a + b)[1..] == a[1..] + b;
      PayloadAppend(a[1..], b);
    }
  }

  /** A replay leaves the payload alone. */
  lemma {:induction false} ReplayKeepsPayload(env: Env, fields: seq<Field>, origTime: Bytes, ticks: nat)
    ensures Payload(ReplayFields(env, fields, origTime, ticks)) == Payload(fields)
    decreases |fields|
  {
    if fields != [] {
      hide ReplayField;
      var f, later := fields[0], if fields[0].tag == 52 then ticks + 1 else ticks;
      ReplayKeepsPayload(env, fields[1..], origTime, later);
      PayloadAppend(ReplayField(env, f, origTime, ticks), ReplayFields(env, fields[1..], origTime, later));
      ReplayFieldPayload(env, f, origTime, ticks);
    }
  }

  lemma ReplayFieldPayload(env: Env, f: Field, origTime: Bytes, ticks: nat)
    ensures Payload(ReplayField(env, f, origTime, ticks)) ==
            if f.tag == 43 || f.tag == 52 || f.tag == 122 then [] else [f]
  {
    PayloadTwo(f, Field(43, YES));
    PayloadTwo(Field(52, env.clock(ticks)), Field(122, origTime));
  }

  lemma PayloadTwo(a: Field, b: Field)
    ensures Payload([a, b]) == Payload([a]) + Payload([b])
  {
    assert [a, b] == [a] + [b];
    PayloadAppend([a], [b]);
  }

  /** Nothing in a replay is new but the flag and the two times. */
  lemma {:induction false} ReplayFieldsFrom(env: Env, fields: seq<Field>, origTime: Bytes, ticks: nat)
    ensures forall f | f in ReplayFields(env, fields, origTime, ticks) ::
              f in fields || f == Field(43, YES) || f == Field(122, origTime) || f.tag == 52
    decreases |fields|
  {
    if fields != [] {
      ReplayFieldsFrom(env, fields[1..], origTime, if fields[0].tag == 52 then ticks + 1 else ticks);
    }
  }

  lemma {:induction false} ReplayTimesFrom(env: Env, fields: seq<Field>, origTime: Bytes, ticks: nat)
    ensures forall f | f in ReplayFields(env, fields, origTime, ticks) && f.tag == 52 ::
              exists t :: f.value == env.clock(t)
    decreases |fields|
  {
    if fields != [] {
      ReplayTimesFrom(env, fields[1..], origTime, if fields[0].tag == 52 then ticks + 1 else ticks);
    }
  }

  lemma ReplayKeepsHead(env: Env, fields: seq<Field>, origTime: Bytes, ticks: nat)
    requires fields != [] && fields[0].tag == 35
    ensures var replay := ReplayFields(env, fields, origTime, ticks);
            replay != [] && replay[0] == fields[0]
  {
  }

  /** The facts about an original that its replay rests on. */
  lemma OriginalReplay(env: Env, original: Message, n: nat, ticks: nat)
    requires Original(original, n)
    ensures First(original.fields, 52).Some? && Values(original.fields, 52) == [First(original.fields, 52).value]
    ensures var r := ReplayOf(env, original, ticks).fields;
            && Values(r, 43) == [YES] && Values(r, 34) == [Dec(n)]
            && Values(r, 52) == [env.clock(ticks)] && Values(r, 122) == [First(original.fields, 52).value]
            && Payload(r) == Payload(original.fields)
            && r != [] && r[0] == original.fields[0] && RefusedField(r).None?
  {
    assert original.fields != [] && original.fields[0].tag == 35 && RefusedField(original.fields).None?;
    hide RefusedField, ReplayFields, Payload, Dec, AllYes;
    var fields := original.fields;
    var time := First(fields, 52).value;
    hide Values;
    OneFlag(env, fields, time, ticks);
    ReplayKeepsValues(env, fields, time, ticks, 34);
    ReplayTimes(env, fields, time, ticks);
    ReplayKeepsPayload(env, fields, time, ticks);
    ReplayKeepsHead(env, fields, time, ticks);
    ReplayNotRefused(env, fields, time, ticks);
  }

  lemma OneFlag(env: Env, fields: seq<Field>, origTime: Bytes, ticks: nat)
    requires |Values(fields, 34)| == 1
    ensures Values(ReplayFields(env, fields, origTime, ticks), 43) == [YES]
  {
    hide Values, ReplayFields;
    ReplayFlags(env, fields, origTime, ticks);
    var flags := Values(ReplayFields(env, fields, origTime, ticks), 43);
    assert flags[0] in flags;
  }

  lemma ReplayNotRefused(env: Env, fields: seq<Field>, origTime: Bytes, ticks: nat)
    requires RefusedField(fields).None?
    ensures RefusedField(ReplayFields(env, fields, origTime, ticks)).None?
  {
    hide ReplayFields, RefusedField;
    ReplayFieldsFrom(env, fields, origTime, ticks);
  }
}
