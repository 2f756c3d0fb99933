/** What the operations mean to one another: each is described by what `get` answers before and after it. */
module TtlLaws {
  import opened Wrappers
  import opened Decimal
  import opened TtlMap

  /** What a `get` at an instant answers. */
  function Read(t: Table, key: Key, at: real): Option<string> {
    match Perform(t, Get(key, at), at).1
    case Bytes(value) => value
    case _ => None
  }

  function After(t: Table, op: Op, now: real): Table
    requires InOrder(now, op)
  {
    Perform(t, op, now).0
  }

  function Answer(t: Table, op: Op, now: real): Reply
    requires InOrder(now, op)
  {
    Perform(t, op, now).1
  }

  predicate Outlives(ttl: Option<int>, from: real, t: real) {
    ttl.Some? ==> t < from + ttl.value as real
  }

  /** A get changes nothing. */
  lemma {:induction false} GetKeeps(t: Table, key: Key, at: real, now: real)
    requires now <= at
    ensures After(t, Get(key, at), now) == t && Answer(t, Get(key, at), now) == Bytes(Read(t, key, at))
  {}

  /** A value can be read from the moment it is set until its time to live is over, and not after; other keys read as
      before. A time to live that is not positive is refused. */
  lemma {:induction false} GetAfterSet(t: Table, op: Op, now: real, key: Key, later: real)
    requires op.Set? && InOrder(now, op) && op.at <= later
    ensures Answer(t, op, now) == ValueError <==> op.ttl.Some? && op.ttl.value <= 0
    ensures Answer(t, op, now) == ValueError || Answer(t, op, now) == Done
    ensures Read(After(t, op, now), key, later) ==
            if Answer(t, op, now) == ValueError || key != op.key then Read(t, key, later)
            else if Outlives(op.ttl, op.at, later) then Some(op.value) else None
  {}

  /** Deleting and consuming take the key away; consuming answers what a get would have. */
  lemma {:induction false} GetAfterDelete(t: Table, op: Op, now: real, key: Key, later: real)
    requires (op.Delete? || op.GetAndDelete?) && InOrder(now, op) && op.at <= later
    ensures Read(After(t, op, now), key, later) == if key == op.key then None else Read(t, key, later)
    ensures Answer(t, op, now) == if op.GetAndDelete? then Bytes(Read(t, op.key, op.at)) else Done
  {}

  /** A value is stored if there is none to be read, and only then; it then reads as if it had been set. */
  lemma {:induction false} GetAfterSetIfAbsent(t: Table, op: Op, now: real, key: Key, later: real)
    requires op.SetIfAbsent? && InOrder(now, op) && op.at <= later
    ensures Answer(t, op, now) == if op.ttl.Some? && op.ttl.value <= 0 then ValueError
                                  else Stored(Read(t, op.key, op.readAt).None?)
    ensures Read(After(t, op, now), key, later) ==
            if Answer(t, op, now) == Stored(true) && key == op.key
            then (if Outlives(op.ttl, op.at, later) then Some(op.value) else None)
            else Read(t, key, later)
  {}

  /** The integer a key reads as: zero when nothing can be read, nothing when the text is no integer. */
  function ReadInteger(t: Table, key: Key, at: real): Option<int> {
    var text := Read(t, key, at);
    if text.None? then Some(0) else Parse(text.value)
  }

  /** A counter goes up by the amount, which is the answer, and reads back as that integer; it expires by the new time to
      live if one is given, and else exactly when it would have. */
  lemma {:induction false} GetAfterIncr(t: Table, op: Op, now: real, key: Key, later: real)
    requires op.Incr? && InOrder(now, op) && op.at <= later
    ensures var n := ReadInteger(t, op.key, op.readAt); var refused := (op.ttl.Some? && op.ttl.value <= 0) || n.None?;
            && Answer(t, op, now) == (if refused then ValueError else Number(n.value + op.amount))
            && Read(After(t, op, now), key, later) ==
               if refused || key != op.key then Read(t, key, later)
               else
                 var lives := if op.ttl.Some? then Outlives(op.ttl, op.at, later)
                              else Read(t, key, op.readAt).Some? ==> Read(t, key, later).Some?;
                 if lives then Some(Format(n.value + op.amount)) else None
  {}

  lemma {:induction false} IncrAddsUp(t: Table, op: Op, now: real, later: real)
    requires op.Incr? && InOrder(now, op) && op.at <= later && Answer(t, op, now).Number?
    requires Read(After(t, op, now), op.key, later).Some?
    ensures ReadInteger(After(t, op, now), op.key, later) == Some(Answer(t, op, now).n)
  {
    GetAfterIncr(t, op, now, op.key, later);
    ParseFormat(Answer(t, op, now).n);
  }

  /** A scan names exactly the keys with the prefix that could be read when it reached them, and changes nothing. */
  lemma {:induction false} ScanReads(t: Table, op: Op, now: real, key: Key)
    requires op.IterKeys? && InOrder(now, op)
    ensures After(t, op, now) == t && Answer(t, op, now).Keys?
    ensures key in Answer(t, op, now).keys <==> op.prefix <= key && Read(t, key, CheckAt(op.checks, now, op.at, key)).Some?
  {}

  /** Deleting by prefix counts what such a scan names, takes all of it, and refuses the empty prefix. */
  lemma {:induction false} DeletePrefixCounts(t: Table, op: Op, now: real, key: Key, later: real)
    requires op.DeletePrefix? && InOrder(now, op) && op.at <= later
    ensures Answer(t, op, now) == if op.prefix == "" then ValueError
                                  else Number(|Answer(t, IterKeys(op.prefix, op.checks, op.at), now).keys|)
    ensures Read(After(t, op, now), key, later) == if op.prefix != "" && op.prefix <= key then None else Read(t, key, later)
  {}

  // ---- The gate ----

  /** The gate is closed for a call: its key can be read, as an instant that is still to come. */
  predicate Closed(t: Table, op: Op)
    requires op.RecordTieredFailure?
  {
    Read(t, op.gate, op.gateAt).Some? && ReadInteger(t, op.gate, op.gateAt).Some?
    && ReadInteger(t, op.gate, op.gateAt).value > op.wall
  }

  /** An open gate counts: the answer is the counter plus one, which can be read for the time given. It closes if the last
      tier reached has seconds to close it for; the instant it answers is that many seconds after the call, and for exactly
      that long the gate's key reads as that instant. */
  lemma {:induction false} OpenGateCounts(t: Table, op: Op, now: real, later: real)
    requires op.RecordTieredFailure? && InOrder(now, op) && op.at <= later && op.counter != op.gate
    requires ReadInteger(t, op.gate, op.gateAt).Some? && ReadInteger(t, op.counter, op.readAt).Some? && !Closed(t, op)
    ensures var count := ReadInteger(t, op.counter, op.readAt).value + 1; var seconds := LockFor(count, op.tiers);
            && Answer(t, op, now) == Outcome(count, if seconds > 0 then Some(op.wall + seconds) else None, seconds > 0)
            && Read(After(t, op, now), op.counter, later) ==
               (if later < op.storeAt + op.counterTtl as real then Some(Format(count)) else None)
            && Read(After(t, op, now), op.gate, later) ==
               (if seconds > 0 && later < op.at + seconds as real then Some(Format(op.wall + seconds)) else None)
  {}

  /** A closed gate answers the counter as it stands and its own instant, and changes nothing. */
  lemma {:induction false} ClosedGateKeeps(t: Table, op: Op, now: real)
    requires op.RecordTieredFailure? && InOrder(now, op) && Closed(t, op)
    ensures After(t, op, now) == t
    ensures Answer(t, op, now) ==
            if ReadInteger(t, op.counter, op.readAt).None? then ValueError
            else Outcome(ReadInteger(t, op.counter, op.readAt).value, ReadInteger(t, op.gate, op.gateAt), false)
  {}

  /** Text that is no integer is refused, under either key; the counter stays, and a gate whose instant is past goes. */
  lemma {:induction false} TextRefused(t: Table, op: Op, now: real, key: Key, later: real)
    requires op.RecordTieredFailure? && InOrder(now, op) && op.at <= later && op.counter != op.gate
    requires ReadInteger(t, op.gate, op.gateAt).None? || ReadInteger(t, op.counter, op.readAt).None?
    ensures Answer(t, op, now) == ValueError
    ensures key != op.gate ==> Read(After(t, op, now), key, later) == Read(t, key, later)
    ensures ReadInteger(t, op.gate, op.gateAt).None? || Closed(t, op) ==> After(t, op, now) == t
  {}

  /** So a gate that a call closes is closed to every later call within its seconds whose clock has not reached the
      instant, and to no other. */
  lemma {:induction false} ClosedForItsSeconds(t: Table, op: Op, now: real, next: Op)
    requires op.RecordTieredFailure? && InOrder(now, op) && op.counter != op.gate
    requires ReadInteger(t, op.gate, op.gateAt).Some? && ReadInteger(t, op.counter, op.readAt).Some? && !Closed(t, op)
    requires next.RecordTieredFailure? && InOrder(op.at, next) && next.gate == op.gate
    requires Answer(t, op, now).Outcome? && Answer(t, op, now).newly
    ensures Answer(t, op, now).until.Some?
    ensures Closed(After(t, op, now), next) <==>
            && next.gateAt < op.at + (Answer(t, op, now).until.value - op.wall) as real
            && next.wall < Answer(t, op, now).until.value
  {
    OpenGateCounts(t, op, now, next.gateAt);
    ParseFormat(Answer(t, op, now).until.value);
  }
}
