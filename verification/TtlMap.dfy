/** The reference: a map whose keys simply stop being there when their time is up. Nothing is ever evicted. */
module TtlMap {
  import opened Wrappers
  import opened Decimal

  type Key = string

  /** Stored bytes and the instant they expire. */
  datatype Entry = Entry(value: string, expiry: Option<real>)
  type Table = map<Key, Entry>

  /** Failure counts and how long the gate closes for when one is reached. */
  datatype Tier = Tier(threshold: int, seconds: int)

  /** The operations, each with the clock readings it makes, in order. The two scans read the clock once per key. */
  datatype Op =
    | Get(key: Key, at: real)
    | Set(key: Key, value: string, ttl: Option<int>, sweepAt: real, at: real)
    | Delete(key: Key, at: real)
    | Incr(key: Key, amount: int, ttl: Option<int>, sweepAt: real, readAt: real, at: real)
    | SetIfAbsent(key: Key, value: string, ttl: Option<int>, sweepAt: real, readAt: real, at: real)
    | GetAndDelete(key: Key, at: real)
    | DeletePrefix(prefix: string, checks: Key -> real, at: real)
    | IterKeys(prefix: string, checks: Key -> real, at: real)
    | RecordTieredFailure(counter: Key, gate: Key, tiers: seq<Tier>, counterTtl: int, wall: int,
                          sweepAt: real, gateAt: real, readAt: real, storeAt: real, at: real)

  datatype Reply =
    | Done
    | Bytes(value: Option<string>)
    | Stored(stored: bool)
    | Number(n: int)
    | Keys(keys: set<Key>)
    | Outcome(count: int, until: Option<int>, newly: bool)
    | ValueError

  predicate InOrder(now: real, op: Op) {
    match op
    case Get(_, at) => now <= at
    case Set(_, _, _, sweepAt, at) => now <= sweepAt <= at
    case Delete(_, at) => now <= at
    case Incr(_, _, _, sweepAt, readAt, at) => now <= sweepAt <= readAt <= at
    case SetIfAbsent(_, _, _, sweepAt, readAt, at) => now <= sweepAt <= readAt <= at
    case GetAndDelete(_, at) => now <= at
    case DeletePrefix(_, _, at) => now <= at
    case IterKeys(_, _, at) => now <= at
    case RecordTieredFailure(_, _, _, _, _, sweepAt, gateAt, readAt, storeAt, at) =>
      now <= sweepAt <= gateAt <= readAt <= storeAt <= at
  }

  /** The scan's reading for `key`, which falls within the scan. */
  function CheckAt(checks: Key -> real, now: real, at: real, key: Key): (t: real)
    requires now <= at
    ensures now <= t <= at
  {
    var t := checks(key);
    if t < now then now else if at < t then at else t
  }

  predicate Expired(e: Entry, at: real) {
    e.expiry.Some? && e.expiry.value <= at
  }

  function Look(t: Table, key: Key, at: real): Option<Entry> {
    if key in t && !Expired(t[key], at) then Some(t[key]) else None
  }

  predicate BadTtl(ttl: Option<int>) {
    ttl.Some? && ttl.value <= 0
  }

  function Expiry(ttl: Option<int>, at: real): Option<real> {
    if ttl.Some? then Some(at + ttl.value as real) else None
  }

  predicate HasPrefix(key: Key, prefix: string) {
    prefix <= key
  }

  /** The keys with the prefix that are live when the scan reaches them. */
  function Matching(t: Table, prefix: string, checks: Key -> real, now: real, at: real): set<Key>
    requires now <= at
  {
    set k | k in t && HasPrefix(k, prefix) && !Expired(t[k], CheckAt(checks, now, at, k)) :: k
  }

  /** A counter's integer: zero when absent, `None` when the text is not an integer. */
  function CounterValue(e: Option<Entry>): Option<int> {
    if e.None? then Some(0) else Parse(e.value.value)
  }

  /** How long the gate closes for: the last tier the count has reached. */
  function LockFor(count: int, tiers: seq<Tier>): int {
    if tiers == [] then 0
    else if count >= tiers[|tiers| - 1].threshold then tiers[|tiers| - 1].seconds
    else LockFor(count, tiers[..|tiers| - 1])
  }

  function Incremented(t: Table, op: Op): (Table, Reply)
    requires op.Incr?
  {
    var e := Look(t, op.key, op.readAt);
    var n := CounterValue(e);
    if BadTtl(op.ttl) || n.None? then (t, ValueError)
    else
      var expiry := if op.ttl.Some? then Expiry(op.ttl, op.at) else if e.Some? then e.value.expiry else None;
      (t[op.key := Entry(Format(n.value + op.amount), expiry)], Number(n.value + op.amount))
  }

  /** Counts one more occurrence and closes the gate if a tier is reached. */
  function Counted(t: Table, op: Op): (Table, Reply)
    requires op.RecordTieredFailure?
  {
    var n := CounterValue(Look(t, op.counter, op.readAt));
    if n.None? then (t, ValueError)
    else
      var count, seconds := n.value + 1, LockFor(n.value + 1, op.tiers);
      var t1 := t[op.counter := Entry(Format(count), Some(op.storeAt + op.counterTtl as real))];
      if seconds > 0 then
        (t1[op.gate := Entry(Format(op.wall + seconds), Some(op.at + seconds as real))],
         Outcome(count, Some(op.wall + seconds), true))
      else (t1, Outcome(count, None, false))
  }

  function Recorded(t: Table, op: Op): (Table, Reply)
    requires op.RecordTieredFailure?
  {
    var gate := Look(t, op.gate, op.gateAt);
    if gate.None? then Counted(t, op)
    else
      var until := Parse(gate.value.value);
      if until.None? then (t, ValueError)
      else if until.value > op.wall then
        var n := CounterValue(Look(t, op.counter, op.readAt));
        (t, if n.None? then ValueError else Outcome(n.value, until, false))
      else Counted(t - {op.gate}, op)
  }

  /** What each operation does to the map and answers, `now` being the time before it. */
  function Perform(t: Table, op: Op, now: real): (Table, Reply)
    requires InOrder(now, op)
  {
    match op
    case Get(key, at) =>
      (t, Bytes(var e := Look(t, key, at); if e.Some? then Some(e.value.value) else None))
    case Set(key, value, ttl, _, at) =>
      if BadTtl(ttl) then (t, ValueError) else (t[key := Entry(value, Expiry(ttl, at))], Done)
    case Delete(key, _) => (t - {key}, Done)
    case Incr(_, _, _, _, _, _) => Incremented(t, op)
    case SetIfAbsent(key, value, ttl, _, readAt, at) =>
      if BadTtl(ttl) then (t, ValueError)
      else if Look(t, key, readAt).Some? then (t, Stored(false))
      else (t[key := Entry(value, Expiry(ttl, at))], Stored(true))
    case GetAndDelete(key, at) =>
      var e := Look(t, key, at);
      (t - {key}, Bytes(if e.Some? then Some(e.value.value) else None))
    case DeletePrefix(prefix, checks, at) =>
      if prefix == "" then (t, ValueError)
      else (map k | k in t && !HasPrefix(k, prefix) :: t[k], Number(|Matching(t, prefix, checks, now, at)|))
    case IterKeys(prefix, checks, at) => (t, Keys(Matching(t, prefix, checks, now, at)))
    case RecordTieredFailure(_, _, _, _, _, _, _, _, _, _) => Recorded(t, op)
  }

  // ---- Two tables that no later reading can tell apart ----

  ghost predicate SameFrom(a: Table, b: Table, now: real) {
    forall k :: Look(a, k, now) == Look(b, k, now)
  }

  lemma {:induction false} SameLater(a: Table, b: Table, now: real, later: real)
    requires SameFrom(a, b, now) && now <= later
    ensures SameFrom(a, b, later)
  {
    forall k
      ensures Look(a, k, later) == Look(b, k, later)
    {
      assert Look(a, k, now) == Look(b, k, now);
    }
  }

  lemma {:induction false} SameMatching(a: Table, b: Table, prefix: string, checks: Key -> real, now: real, at: real)
    requires SameFrom(a, b, now) && now <= at
    ensures Matching(a, prefix, checks, now, at) == Matching(b, prefix, checks, now, at)
  {
    forall k
      ensures k in Matching(a, prefix, checks, now, at) <==> k in Matching(b, prefix, checks, now, at)
    {
      assert Look(a, k, now) == Look(b, k, now);
    }
  }

  lemma {:induction false} SameUpdate(a: Table, b: Table, key: Key, e: Entry, now: real)
    requires SameFrom(a, b, now)
    ensures SameFrom(a[key := e], b[key := e], now) && SameFrom(a - {key}, b - {key}, now)
  {
    var p, q := a[key := e], b[key := e];
    forall k
      ensures Look(p, k, now) == Look(q, k, now)
    {
      assert Look(a, k, now) == Look(b, k, now);
    }
    forall k
      ensures Look(a - {key}, k, now) == Look(b - {key}, k, now)
    {
      assert Look(a, k, now) == Look(b, k, now);
    }
  }

  lemma {:induction false} SameCounted(a: Table, b: Table, op: Op)
    requires op.RecordTieredFailure? && op.readAt <= op.storeAt <= op.at && SameFrom(a, b, op.readAt)
    ensures Counted(a, op).1 == Counted(b, op).1 && SameFrom(Counted(a, op).0, Counted(b, op).0, op.at)
  {
    assert Look(a, op.counter, op.readAt) == Look(b, op.counter, op.readAt);
    SameLater(a, b, op.readAt, op.at);
    var n := CounterValue(Look(a, op.counter, op.readAt));
    if n.Some? {
      var seconds := LockFor(n.value + 1, op.tiers);
      var e := Entry(Format(n.value + 1), Some(op.storeAt + op.counterTtl as real));
      var g := Entry(Format(op.wall + seconds), Some(op.at + seconds as real));
      SameTwice(a, b, op.counter, e, op.gate, g, op.at);
      assert Counted(a, op).0 == if seconds > 0 then a[op.counter := e][op.gate := g] else a[op.counter := e];
      assert Counted(b, op).0 == if seconds > 0 then b[op.counter := e][op.gate := g] else b[op.counter := e];
    }
  }

  lemma {:induction false} SameTwice(a: Table, b: Table, key: Key, e: Entry, gate: Key, g: Entry, now: real)
    requires SameFrom(a, b, now)
    ensures SameFrom(a[key := e], b[key := e], now) && SameFrom(a[key := e][gate := g], b[key := e][gate := g], now)
  {
    SameUpdate(a, b, key, e, now);
    SameUpdate(a[key := e], b[key := e], gate, g, now);
  }

  lemma {:induction false} SameRecorded(a: Table, b: Table, op: Op, now: real)
    requires op.RecordTieredFailure? && InOrder(now, op) && SameFrom(a, b, now)
    ensures Recorded(a, op).1 == Recorded(b, op).1 && SameFrom(Recorded(a, op).0, Recorded(b, op).0, op.at)
  {
    SameLater(a, b, now, op.gateAt);
    SameLater(a, b, now, op.readAt);
    SameLater(a, b, now, op.at);
    assert Look(a, op.gate, op.gateAt) == Look(b, op.gate, op.gateAt);
    assert Look(a, op.counter, op.readAt) == Look(b, op.counter, op.readAt);
    SameCounted(a, b, op);
    SameUpdate(a, b, op.gate, Entry("", None), op.readAt);
    SameCounted(a - {op.gate}, b - {op.gate}, op);
  }

  lemma {:induction false} SamePruned(a: Table, b: Table, prefix: string, now: real)
    requires SameFrom(a, b, now)
    ensures SameFrom(map k | k in a && !HasPrefix(k, prefix) :: a[k], map k | k in b && !HasPrefix(k, prefix) :: b[k], now)
  {
    var p, q := map k | k in a && !HasPrefix(k, prefix) :: a[k], map k | k in b && !HasPrefix(k, prefix) :: b[k];
    forall k
      ensures Look(p, k, now) == Look(q, k, now)
    {
      assert Look(a, k, now) == Look(b, k, now);
    }
  }

  lemma {:induction false} SameIncremented(a: Table, b: Table, op: Op)
    requires op.Incr? && op.readAt <= op.at && SameFrom(a, b, op.readAt)
    ensures Incremented(a, op).1 == Incremented(b, op).1 && SameFrom(Incremented(a, op).0, Incremented(b, op).0, op.at)
  {
    assert Look(a, op.key, op.readAt) == Look(b, op.key, op.readAt);
    SameLater(a, b, op.readAt, op.at);
    var (t, reply) := Incremented(a, op);
    if reply.Number? {
      SameUpdate(a, b, op.key, t[op.key], op.at);
    }
  }

  /** Expired keys are invisible to every operation: tables that look alike now answer alike and stay alike. */
  lemma {:induction false} SamePerformed(a: Table, b: Table, op: Op, now: real)
    requires InOrder(now, op) && SameFrom(a, b, now)
    ensures Perform(a, op, now).1 == Perform(b, op, now).1
    ensures SameFrom(Perform(a, op, now).0, Perform(b, op, now).0, op.at)
  {
    SameLater(a, b, now, op.at);
    match op
    case Get(key, at) =>
      assert Look(a, key, at) == Look(b, key, at);
    case Set(key, value, ttl, _, at) =>
      SameUpdate(a, b, key, Entry(value, Expiry(ttl, at)), at);
    case Delete(key, at) =>
      SameUpdate(a, b, key, Entry("", None), at);
    case Incr(_, _, _, _, readAt, _) =>
      SameLater(a, b, now, readAt);
      SameIncremented(a, b, op);
    case SetIfAbsent(key, value, ttl, _, readAt, at) =>
      SameLater(a, b, now, readAt);
      assert Look(a, key, readAt) == Look(b, key, readAt);
      SameUpdate(a, b, key, Entry(value, Expiry(ttl, at)), at);
    case GetAndDelete(key, at) =>
      assert Look(a, key, at) == Look(b, key, at);
      SameUpdate(a, b, key, Entry("", None), at);
    case DeletePrefix(prefix, checks, at) =>
      SameMatching(a, b, prefix, checks, now, at);
      SamePruned(a, b, prefix, at);
    case IterKeys(prefix, checks, at) =>
      SameMatching(a, b, prefix, checks, now, at);
    case RecordTieredFailure(_, _, _, _, _, _, _, _, _, _) =>
      SameRecorded(a, b, op, now);
  }
}
