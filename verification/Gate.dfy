/** The escalating gate: the script's loop against the tier list, what a tier list means, and why a closed gate holds. */
module Gate {
  import opened Wrappers
  import opened Decimal
  import opened TtlMap

  // ---- The script's arguments ----

  function Flat(tiers: seq<Tier>): seq<string> {
    if tiers == [] then [] else
      Flat(tiers[..|tiers| - 1]) + [Format(tiers[|tiers| - 1].threshold), Format(tiers[|tiers| - 1].seconds)]
  }

  method ScriptArguments(wall: int, counterTtl: int, tiers: seq<Tier>) returns (args: seq<string>)
    ensures args == [Format(wall), Format(counterTtl)] + Flat(tiers)
  {
    args := [Format(wall), Format(counterTtl)];
    for i := 0 to |tiers|
      invariant args == [Format(wall), Format(counterTtl)] + Flat(tiers[..i])
    {
      assert tiers[..i + 1][..i] == tiers[..i];
      args := args + [Format(tiers[i].threshold), Format(tiers[i].seconds)];
    }
    assert tiers[..|tiers|] == tiers;
  }

  lemma {:induction false} FlatLength(tiers: seq<Tier>)
    ensures |Flat(tiers)| == 2 * |tiers|
  {
    if tiers != [] {
      FlatLength(tiers[..|tiers| - 1]);
    }
  }

  lemma {:induction false} FlatAt(tiers: seq<Tier>, i: nat)
    requires i < |tiers|
    ensures |Flat(tiers)| == 2 * |tiers|
    ensures Flat(tiers)[2 * i] == Format(tiers[i].threshold) && Flat(tiers)[2 * i + 1] == Format(tiers[i].seconds)
  {
    var n := |tiers| - 1;
    FlatLength(tiers);
    FlatLength(tiers[..n]);
    var last := [Format(tiers[n].threshold), Format(tiers[n].seconds)];
    assert Flat(tiers) == Flat(tiers[..n]) + last;
    if i < n {
      FlatAt(tiers[..n], i);
    }
  }

  /** Where the script finds a tier, and that it reads back the numbers that were written. */
  lemma {:induction false} ArgumentsAt(args: seq<string>, wall: int, counterTtl: int, tiers: seq<Tier>, k: nat)
    requires args == [Format(wall), Format(counterTtl)] + Flat(tiers) && k < |tiers|
    ensures |args| == 2 + 2 * |tiers|
    ensures Parse(args[2 * k + 2]) == Some(tiers[k].threshold) && Parse(args[2 * k + 3]) == Some(tiers[k].seconds)
  {
    FlatAt(tiers, k);
    assert args[2 * k + 2] == Flat(tiers)[2 * k] && args[2 * k + 3] == Flat(tiers)[2 * k + 1];
    ParseFormat(tiers[k].threshold);
    ParseFormat(tiers[k].seconds);
  }

  /** The script's index loop, with its one-based argument numbers, reaches the last matching tier. */
  method ScriptLock(args: seq<string>, count: int, ghost wall: int, ghost counterTtl: int, ghost tiers: seq<Tier>)
    returns (seconds: int)
    requires args == [Format(wall), Format(counterTtl)] + Flat(tiers)
    ensures seconds == LockFor(count, tiers)
  {
    seconds := 0;
    var i := 3;
    ghost var k := 0;
    FlatLength(tiers);
    while i < |args|
      invariant i == 3 + 2 * k && k <= |tiers| && |args| == 2 + 2 * |tiers|
      invariant seconds == LockFor(count, tiers[..k])
    {
      ArgumentsAt(args, wall, counterTtl, tiers, k);
      if count >= Parse(args[i - 1]).value {
        seconds := Parse(args[i]).value;
      }
      assert tiers[..k + 1][..k] == tiers[..k];
      i, k := i + 2, k + 1;
    }
    assert tiers[..|tiers|] == tiers;
  }

  // ---- What a tier list means ----

  predicate Ascending(tiers: seq<Tier>) {
    forall i, j :: 0 <= i < j < |tiers| ==> tiers[i].threshold < tiers[j].threshold
  }

  /** Last match wins, for any list: the chosen tier is reached and no later one is. */
  lemma {:induction false} LastReached(count: int, tiers: seq<Tier>, i: nat)
    requires i < |tiers| && count >= tiers[i].threshold
    requires forall j :: i < j < |tiers| ==> count < tiers[j].threshold
    ensures LockFor(count, tiers) == tiers[i].seconds
  {
    if i < |tiers| - 1 {
      LastReached(count, tiers[..|tiers| - 1], i);
    }
  }

  lemma {:induction false} NoneReached(count: int, tiers: seq<Tier>)
    requires forall j :: 0 <= j < |tiers| ==> count < tiers[j].threshold
    ensures LockFor(count, tiers) == 0
  {
    if tiers != [] {
      NoneReached(count, tiers[..|tiers| - 1]);
    }
  }

  /** What a tier list decides, for any count and any list: nothing when no tier is reached, else the seconds of the
      last one that is. */
  lemma {:induction false} LockMeans(count: int, tiers: seq<Tier>)
    ensures || (LockFor(count, tiers) == 0 && forall j :: 0 <= j < |tiers| ==> count < tiers[j].threshold)
            || exists i :: 0 <= i < |tiers| && count >= tiers[i].threshold && LockFor(count, tiers) == tiers[i].seconds
                           && forall j :: i < j < |tiers| ==> count < tiers[j].threshold
  {
    if exists i :: 0 <= i < |tiers| && count >= tiers[i].threshold {
      var i := LastMatching(count, tiers, |tiers|);
      LastReached(count, tiers, i);
    } else {
      NoneReached(count, tiers);
    }
  }

  lemma {:induction false} LastMatching(count: int, tiers: seq<Tier>, n: nat) returns (i: nat)
    requires n <= |tiers| && exists k :: 0 <= k < n && count >= tiers[k].threshold
    ensures i < n && count >= tiers[i].threshold && forall j :: i < j < n ==> count < tiers[j].threshold
  {
    i := n - 1;
    if count < tiers[n - 1].threshold {
      i := LastMatching(count, tiers, n - 1);
    }
  }

  /** For ascending tiers that is the highest tier reached. */
  lemma {:induction false} HighestTierReached(count: int, tiers: seq<Tier>, i: nat)
    requires Ascending(tiers) && i < |tiers| && count >= tiers[i].threshold
    requires forall j :: 0 <= j < |tiers| && count >= tiers[j].threshold ==> tiers[j].threshold <= tiers[i].threshold
    ensures LockFor(count, tiers) == tiers[i].seconds
  {
    LastReached(count, tiers, i);
  }

  // ---- The script against the in-process operation ----

  /** `tonumber`: it reads the integers that are stored, and whatever else it likes. */
  ghost predicate ReadsIntegers(tonumber: string -> Option<real>) {
    forall s :: Parse(s).Some? ==> tonumber(s) == Some(Parse(s).value as real)
  }

  /** What the server turns a number into when it sends it: the integer part. */
  function Truncated(x: real): int {
    if x >= 0.0 then x.Floor else -((-x).Floor)
  }

  /** How the script ends: its triple, the server's refusal to increment, or an error of the script itself. */
  datatype ScriptReply = Triple(count: int, until: int, flag: int) | NotAnInteger | Failed

  /** What the caller sees of it; an error of the script means that the backend is unavailable. */
  function Seen(r: ScriptReply): Option<Reply> {
    match r
    case Triple(count, until, flag) => Some(Outcome(count, if until == 0 then None else Some(until), flag != 0))
    case NotAnInteger => Some(ValueError)
    case Failed => None
  }

  /** The gate holds an integer or nothing, and so does the counter if the gate is closed. */
  predicate Comparable(t: Table, op: Op)
    requires op.RecordTieredFailure?
  {
    var gate := Look(t, op.gate, op.gateAt);
    && CounterValue(gate).Some?
    && (gate.Some? && CounterValue(gate).value > op.wall ==> CounterValue(Look(t, op.counter, op.readAt)).Some?)
  }

  ghost predicate Agrees(t: Table, op: Op, after: Table, r: ScriptReply)
    requires op.RecordTieredFailure?
  {
    Seen(r) == Some(Recorded(t, op).1) && SameFrom(after, Recorded(t, op).0, op.at)
  }

  /** An operation at one instant: a script sees the clock stand still. */
  predicate AtOnce(op: Op, counter: Key, gate: Key, at: real) {
    op.RecordTieredFailure?
    && op == RecordTieredFailure(counter, gate, op.tiers, op.counterTtl, op.wall, at, at, at, at, at)
  }

  /** The script, on keys that hold anything. It answers as the in-process operation does and leaves a table that looks
      the same if and only if the gate, and under a closed gate the counter, hold integers or nothing. */
  method Script(t: Table, counter: Key, gate: Key, args: seq<string>, at: real, tonumber: string -> Option<real>, ghost op: Op)
    returns (after: Table, r: ScriptReply)
    requires AtOnce(op, counter, gate, at) && ReadsIntegers(tonumber) && op.wall >= 0
    requires args == [Format(op.wall), Format(op.counterTtl)] + Flat(op.tiers)
    ensures Agrees(t, op, after, r) <==> Comparable(t, op)
  {
    ParseFormat(op.wall);
    ParseFormat(op.counterTtl);
    assert args[0] == Format(op.wall) && args[1] == Format(op.counterTtl);
    var wall, ttl := Parse(args[0]).value, Parse(args[1]).value;
    var held := Look(t, gate, at);
    after := t;
    if held.Some? {
      var until := tonumber(held.value.value);
      if until.None? {
        return t, Failed;
      }
      if until.value > wall as real {
        var current := Look(t, counter, at);
        var count := if current.Some? then tonumber(current.value.value) else None;
        r := Triple(if count.Some? then Truncated(count.value) else 0, Truncated(until.value), 0);
        ClosedAgrees(t, op, held.value, current, until.value, tonumber, r);
        return;
      }
      after := after - {gate};
      assert Look(after, gate, at) != Look(t, gate, at);
    }
    after, r := ScriptCount(after, counter, gate, args, wall, ttl, at, op);
    if held.Some? && Parse(held.value.value).None? {
      GateGone(t, op, after, r);
    }
  }

  /** Under a closed gate the replies differ only where the in-process backend refuses the text of a key. */
  lemma {:induction false} ClosedAgrees(t: Table, op: Op, held: Entry, current: Option<Entry>, until: real,
                                        tonumber: string -> Option<real>, r: ScriptReply)
    requires op.RecordTieredFailure? && ReadsIntegers(tonumber) && op.wall >= 0 && until > op.wall as real
    requires Look(t, op.gate, op.gateAt) == Some(held) && Look(t, op.counter, op.readAt) == current
    requires tonumber(held.value) == Some(until)
    requires var count := if current.Some? then tonumber(current.value.value) else None;
             r == Triple(if count.Some? then Truncated(count.value) else 0, Truncated(until), 0)
    ensures Agrees(t, op, t, r) <==> Comparable(t, op)
  {
    if Parse(held.value).Some? {
      assert until == Parse(held.value).value as real && Truncated(until) == Parse(held.value).value;
      if CounterValue(current).Some? && current.Some? {
        assert Truncated(tonumber(current.value.value).value) == Parse(current.value.value).value;
      }
    }
  }

  /** A gate whose text is no integer stays in the in-process table, and is gone from the script's. */
  lemma {:induction false} GateGone(t: Table, op: Op, after: Table, r: ScriptReply)
    requires op.RecordTieredFailure? && op.gateAt == op.at
    requires Look(t, op.gate, op.at).Some? && Parse(Look(t, op.gate, op.at).value.value).None?
    requires r.Triple? || Look(after, op.gate, op.at) != Look(t, op.gate, op.at)
    ensures !Agrees(t, op, after, r)
  {}

  /** The script below the gate, which refuses a counter that is no integer just as the in-process operation does. */
  method ScriptCount(t: Table, counter: Key, gate: Key, args: seq<string>, wall: int, ttl: int, at: real, ghost op: Op)
    returns (after: Table, r: ScriptReply)
    requires AtOnce(op, counter, gate, at) && op.counterTtl == ttl && op.wall == wall >= 0
    requires args == [Format(op.wall), Format(op.counterTtl)] + Flat(op.tiers)
    ensures SameFrom(after, Counted(t, op).0, at) && Seen(r) == Some(Counted(t, op).1)
    ensures r == NotAnInteger ==> after == t
    ensures r.Triple? || r == NotAnInteger
  {
    var current := Look(t, counter, at);
    var stored := CounterValue(current);
    if stored.None? {
      return t, NotAnInteger;
    }
    var count := stored.value + 1;
    ghost var entry := Entry(Format(count), Some(at + ttl as real));
    after := Expire(t, counter, count, ttl, at);
    var seconds := ScriptLock(args, count, op.wall, op.counterTtl, op.tiers);
    var e := Entry(Format(wall + seconds), Some(at + seconds as real));
    SameUpdate(after, t[counter := entry], gate, e, at);
    assert Counted(t, op) == if seconds > 0
      then (t[counter := entry][gate := e], Outcome(count, Some(wall + seconds), true))
      else (t[counter := entry], Outcome(count, None, false));
    if seconds > 0 {
      after, r := after[gate := e], Triple(count, wall + seconds, 1);
    } else {
      r := Triple(count, 0, 0);
    }
  }

  /** `INCR` and then `EXPIRE`, which drops the key for a time not above zero. */
  method Expire(t: Table, counter: Key, count: int, ttl: int, at: real) returns (after: Table)
    ensures SameFrom(after, t[counter := Entry(Format(count), Some(at + ttl as real))], at)
  {
    Dropped(t, counter, Entry(Format(count), Some(at + ttl as real)), at);
    after := if ttl > 0 then t[counter := Entry(Format(count), Some(at + ttl as real))] else t - {counter};
  }

  /** Dropping a key and storing it already expired look the same. */
  lemma {:induction false} Dropped(t: Table, key: Key, e: Entry, at: real)
    ensures Expired(e, at) ==> SameFrom(t - {key}, t[key := e], at)
  {}

  // ---- A closed gate ----

  /** Calls to one gate, one after another. */
  ghost predicate Calls(counter: Key, gate: Key, ops: seq<Op>, now: real)
    decreases |ops|
  {
    ops == [] ||
    (ops[0].RecordTieredFailure? && ops[0].counter == counter && ops[0].gate == gate && InOrder(now, ops[0])
     && Calls(counter, gate, ops[1..], ops[0].at))
  }

  ghost function AfterCalls(t: Table, ops: seq<Op>): Table
    requires forall op :: op in ops ==> op.RecordTieredFailure?
    decreases |ops|
  {
    if ops == [] then t else AfterCalls(Recorded(t, ops[0]).0, ops[1..])
  }

  /** While the gate is closed and its key lives, no number of calls moves the instant or counts. */
  lemma {:induction false} ClosedGateHolds(t: Table, counter: Key, gate: Key, until: int, ops: seq<Op>, now: real)
    requires Calls(counter, gate, ops, now) && forall op :: op in ops ==> op.RecordTieredFailure?
    requires gate in t && Parse(t[gate].value) == Some(until)
    requires forall op :: op in ops ==> op.wall < until && !Expired(t[gate], op.gateAt)
    ensures AfterCalls(t, ops) == t
    ensures forall op :: op in ops && CounterValue(Look(t, counter, op.readAt)).Some? ==>
              Recorded(t, op).1 == Outcome(CounterValue(Look(t, counter, op.readAt)).value, Some(until), false)
    decreases |ops|
  {
    if ops != [] {
      assert ops[0] in ops;
      ClosedGateHolds(t, counter, gate, until, ops[1..], ops[0].at);
      forall op | op in ops && CounterValue(Look(t, counter, op.readAt)).Some?
        ensures Recorded(t, op).1 == Outcome(CounterValue(Look(t, counter, op.readAt)).value, Some(until), false)
      {
        assert op == ops[0] || op in ops[1..];
        assert op.counter == counter && op.gate == gate ==> Look(t, gate, op.gateAt) == Some(t[gate]);
      }
    }
  }
}
