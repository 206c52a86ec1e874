// What a peer makes of a replay: it is verified as a possible duplicate of what the peer has, and it
// drives a peer that lacks the range to the end of it.

module ReplayReceived {
  import opened Text
  import opened Codec
  import opened Messages
  import opened Parser
  import opened Store
  import opened StoreTheorems
  import opened Session
  import opened SessionSafety
  import opened SessionInvariant
  import opened Takes
  import opened ReplayFieldFacts
  import opened Reading
  import opened ReplayPlan

  // ----- possible duplicates -----

  /** A duplicate with its three fields and the payload of the original can only fail for its times. */
  lemma DuplicateTimes(j: Journal, replay: Message, n: nat, time: Bytes, orig: Bytes, committed: Bytes)
    requires Values(replay.fields, 43) == [YES]
    requires Values(replay.fields, 52) == [time] && Values(replay.fields, 122) == [orig]
    requires n in j.inbound && First(j.inbound[n].wire.fields, 52) == Some(committed)
    requires j.inbound[n].wire.beginString == replay.beginString
    requires Payload(j.inbound[n].wire.fields) == Payload(replay.fields)
    ensures PossDupFault(j, replay, n) ==
            if LaterThan(orig, time) then Some(OrigSendingTimeLater)
            else if committed != orig then Some(PayloadMismatch) else None
  {
    hide Values, Payload, LaterThan, First;
  }

  /** The replay of a message passes verification against the committed original exactly when its sending
      time is not before the original one. */
  lemma ReplayVerified(j: Journal, env: Env, original: Message, n: nat, ticks: nat)
    requires Original(original, n) && original.beginString == env.config.beginString
    requires n in j.inbound && j.inbound[n].wire == original
    ensures First(original.fields, 52).Some?
    ensures PossDupFault(j, ReplayOf(env, original, ticks), n) ==
            if LaterThan(First(original.fields, 52).value, env.clock(ticks)) then Some(OrigSendingTimeLater) else None
  {
    hide Values, Payload, ReplayFields, LaterThan, Original, PossDupFault;
    OriginalReplay(env, original, n, ticks);
    var time := First(original.fields, 52).value;
    DuplicateTimes(j, ReplayOf(env, original, ticks), n, env.clock(ticks), time, time);
  }

  /** When what is committed is itself a replay, a later replay passes only if the first one was sent at the
      time of the original. */
  lemma SecondReplayVerified(j: Journal, env: Env, original: Message, n: nat, first: nat, second: nat)
    requires Original(original, n) && n in j.inbound && j.inbound[n].wire == ReplayOf(env, original, first)
    ensures First(original.fields, 52).Some?
    ensures PossDupFault(j, ReplayOf(env, original, second), n).None? <==>
            !LaterThan(First(original.fields, 52).value, env.clock(second))
            && env.clock(first) == First(original.fields, 52).value
  {
    hide Values, Payload, ReplayFields, LaterThan, Original, PossDupFault;
    OriginalReplay(env, original, n, first);
    OriginalReplay(env, original, n, second);
    DuplicateTimes(j, ReplayOf(env, original, second), n, env.clock(second), First(original.fields, 52).value,
                   env.clock(first));
  }

  lemma PayloadHead(fields: seq<Field>)
    requires fields != [] && fields[0].tag == 35
    ensures Payload(fields) != [] && Payload(fields)[0] == fields[0]
  {
  }

  lemma GapFillHead(config: Config, start: nat, next: nat, now: Bytes)
    ensures GapFillFields(config, start, next, now) != []
    ensures GapFillFields(config, start, next, now)[0] == Field(35, SEQUENCE_RESET)
  {
  }

  /** A gap fill is never taken for a duplicate of another kind of message: a peer that has committed
      anything but a SequenceReset under its number refuses it. */
  lemma GapFillRefused(j: Journal, config: Config, begin: Bytes, start: nat, next: nat, now: Bytes)
    requires start in j.inbound && MsgType(j.inbound[start].wire).Some?
    requires MsgType(j.inbound[start].wire) != Some(SEQUENCE_RESET)
    ensures PossDupFault(j, Message(begin, GapFillFields(config, start, next, now)), start).Some?
  {
    hide Values, LaterThan, GapFillFields, Payload;
    var original := j.inbound[start].wire.fields;
    var fill := GapFillFields(config, start, next, now);
    GapFillHead(config, start, next, now);
    PayloadHead(original);
    PayloadHead(fill);
  }

  // ----- through the wire -----

  lemma ReplaySohFree(env: Env, original: Message, ticks: nat)
    requires First(original.fields, 52).Some? && SohFree(original.fields) && forall t :: SOH !in env.clock(t)
    ensures SohFree(ReplayOf(env, original, ticks).fields)
  {
    hide ReplayFields;
    var time := First(original.fields, 52).value;
    ReplayFieldsFrom(env, original.fields, time, ticks);
    ReplayTimesFrom(env, original.fields, time, ticks);
    forall f | f in ReplayFields(env, original.fields, time, ticks)
      ensures SOH !in f.value
    {
    }
  }

  /** The same, from the bytes of the replay on: a peer past `n` that committed the original answers the
      frame with nothing at all, or refuses it for its time. */
  lemma ReplayFrameVerified(env: Env, peer: Env, w: World, original: Message, n: nat, ticks: nat)
    requires Original(original, n) && original.beginString == env.config.beginString && n <= U64_MAX
    requires SohFree(original.fields) && forall t :: SOH !in env.clock(t)
    requires var r := ReplayOf(env, original, ticks);
             Encode(r.beginString, r.fields).Ok? && |Encode(r.beginString, r.fields).value| <= USIZE_MAX
    requires EnvelopeFault(peer.config, ReplayOf(env, original, ticks)).None?
    requires n in w.journal.inbound && w.journal.inbound[n].wire == original && n < w.actor.nextIn
    ensures First(original.fields, 52).Some?
    ensures var r := ReplayOf(env, original, ticks);
            HandleFrame(peer, w, Encode(r.beginString, r.fields).value) ==
            Step(w, if LaterThan(First(original.fields, 52).value, env.clock(ticks))
                    then Some(Protocol(OrigSendingTimeLater)) else None)
  {
    var r := ReplayOf(env, original, ticks);
    hide Encode, HandleFrame, LaterThan, EnvelopeFault, ReplayOf, PossDupFault, Original, Parse;
    ReplaySohFree(env, original, ticks);
    HandleEncoded(peer, w, r);
    ReplayVerified(w.journal, env, original, n, ticks);
    OriginalReplay(env, original, n, ticks);
    ParseU64OfDec(n);
    hide Values, ParseU64, Handle, Buffer, Advance, Resync;
    HandleDuplicate(peer, w, r, n);
  }

  lemma HandleDuplicate(env: Env, w: World, m: Message, n: nat)
    requires EnvelopeFault(env.config, m).None? && NumberAt(m, 34) == Some(n) && n < w.actor.nextIn && PossDup(m)
    ensures Handle(env, w, m) ==
            Step(w, match PossDupFault(w.journal, m, n) case Some(f) => Some(Protocol(f)) case None => None)
  {
    hide EnvelopeFault, Advance, Buffer, PossDupFault, NumberAt;
  }

  // ----- a peer that lacks the range -----

  /** The other end of a session. */
  predicate Mirrored(config: Config, peer: Config) {
    && peer.beginString == config.beginString
    && peer.senderCompId == config.targetCompId && peer.targetCompId == config.senderCompId
  }

  /** The peer does not treat any tag of a replay as a secret of its own logon. */
  predicate TakesReplays(peer: Config) {
    forall tag: u32 | tag in {34, 35, 36, 43, 49, 52, 56, 122, 123} :: !IsSensitive(peer, tag)
  }

  lemma EnvelopeSame(peer: Config, a: Message, b: Message)
    requires a.beginString == b.beginString && First(a.fields, 49) == First(b.fields, 49)
    requires First(a.fields, 56) == First(b.fields, 56)
    requires EnvelopeFault(peer, a).None? && forall f | f in b.fields :: f in a.fields || !IsSensitive(peer, f.tag)
    ensures EnvelopeFault(peer, b).None?
  {
    hide First, IsSensitive;
  }

  /** The replay of a plain message is a plain message. */
  lemma ReplayPlain(env: Env, peer: Config, original: Message, n: nat, ticks: nat)
    requires Original(original, n) && Plain(peer, original, n) && n <= U64_MAX
    requires peer.beginString == env.config.beginString && TakesReplays(peer)
    ensures First(original.fields, 52).Some?
    ensures Plain(peer, ReplayOf(env, original, ticks), n)
  {
    hide IsUtf8, EnvelopeFault, IsSensitive, Values, RefusedField;
    OriginalReplay(env, original, n, ticks);
    var time := First(original.fields, 52).value;
    var replay := ReplayOf(env, original, ticks);
    ReplayKeepsValues(env, original.fields, time, ticks, 49);
    ReplayKeepsValues(env, original.fields, time, ticks, 56);
    ReplayFieldsFrom(env, original.fields, time, ticks);
    hide ReplayFields;
    BeginOfPlain(peer, original, n);
    EnvelopeSame(peer, original, replay);
    ParseU64OfDec(n);
  }

  lemma BeginOfPlain(peer: Config, m: Message, n: nat)
    requires Plain(peer, m, n)
    ensures m.beginString == peer.beginString
  {
    hide NumberAt, IsUtf8, IsSensitive;
  }
}
