/** The in-process backend: lazy eviction on read, a sweep at most once a minute, many clock readings per call. */
module MemoryState {
  import opened Wrappers
  import opened Decimal
  import opened TtlMap

  const SweepSeconds := 60.0

  /** Answers as the reference does, and leaves a table no later reading can tell from the reference's. */
  ghost predicate Serves(before: Table, op: Op, now: real, reply: Reply, after: Table) {
    && InOrder(now, op)
    && reply == Perform(before, op, now).1
    && SameFrom(after, Perform(before, op, now).0, op.at)
  }

  function Unexpired(t: Table, at: real): Table {
    map k | k in t && !Expired(t[k], at) :: t[k]
  }

  function Evicted(t: Table, key: Key, at: real): Table {
    if key in t && Expired(t[key], at) then t - {key} else t
  }

  lemma {:induction false} EvictionUnseen(t: Table, key: Key, at: real)
    ensures SameFrom(Evicted(t, key, at), t, at) && SameFrom(Unexpired(t, at), t, at)
  {}

  lemma {:induction false} SweptAll(t: Table, gone: set<Key>, now: real)
    requires gone == set k | k in t && Expired(t[k], now)
    ensures t - gone == Unexpired(t, now)
  {
    assert forall k :: k in t - gone <==> k in Unexpired(t, now);
  }

  class MemoryState {
    var data: Table
    var nextSweep: real

    constructor (now: real)
      ensures data == map[] && nextSweep == now + SweepSeconds
    {
      data, nextSweep := map[], now + SweepSeconds;
    }

    /** Drops every expired key when a minute has passed since the last time. */
    method SweepIfDue(now: real)
      modifies this
      ensures data == (if now < old(nextSweep) then old(data) else Unexpired(old(data), now)) && now < nextSweep
      ensures nextSweep == if now < old(nextSweep) then old(nextSweep) else now + 60.0
    {
      if now < nextSweep {
        return;
      }
      nextSweep := now + SweepSeconds;
      var todo := set k | k in data && Expired(data[k], now);
      ghost var gone := todo;
      while todo != {}
        invariant todo <= gone && data == old(data) - (gone - todo) && nextSweep == now + SweepSeconds
        decreases |todo|
      {
        var key :| key in todo;
        data, todo := data - {key}, todo - {key};
      }
      SweptAll(old(data), gone, now);
      assert gone - todo == gone;
    }

    /** The unexpired value, evicting it if it has expired. */
    method LiveValue(key: Key, at: real) returns (value: Option<string>)
      modifies this`data
      ensures data == Evicted(old(data), key, at)
      ensures value == (var e := Look(old(data), key, at); if e.Some? then Some(e.value.value) else None)
    {
      if key !in data {
        return None;
      }
      if Expired(data[key], at) {
        data := data - {key};
        return None;
      }
      return Some(data[key].value);
    }

    method Get(key: Key, at: real, ghost now: real) returns (reply: Reply)
      requires InOrder(now, Op.Get(key, at))
      modifies this
      ensures Serves(old(data), Op.Get(key, at), now, reply, data)
    {
      var value := LiveValue(key, at);
      EvictionUnseen(old(data), key, at);
      return Bytes(value);
    }

    method Set(key: Key, value: string, ttl: Option<int>, sweepAt: real, at: real, ghost now: real) returns (reply: Reply)
      requires InOrder(now, Op.Set(key, value, ttl, sweepAt, at))
      modifies this
      ensures Serves(old(data), Op.Set(key, value, ttl, sweepAt, at), now, reply, data)
    {
      if ttl.Some? && ttl.value <= 0 {
        return ValueError;
      }
      SweepIfDue(sweepAt);
      SweepUnseen(old(data), data, sweepAt, at);
      SameUpdate(data, old(data), key, Entry(value, Expiry(ttl, at)), at);
      data := data[key := Entry(value, Expiry(ttl, at))];
      return Done;
    }

    method Delete(key: Key, ghost now: real) returns (reply: Reply)
      modifies this
      ensures Serves(old(data), Op.Delete(key, now), now, reply, data)
    {
      data := data - {key};
      return Done;
    }

    /** Adds to the stored integer and keeps the key's expiry unless a new one is given. */
    method Incr(key: Key, amount: int, ttl: Option<int>, sweepAt: real, readAt: real, at: real, ghost now: real)
      returns (reply: Reply)
      requires InOrder(now, Op.Incr(key, amount, ttl, sweepAt, readAt, at))
      modifies this
      ensures Serves(old(data), Op.Incr(key, amount, ttl, sweepAt, readAt, at), now, reply, data)
    {
      ghost var op := Op.Incr(key, amount, ttl, sweepAt, readAt, at);
      if ttl.Some? && ttl.value <= 0 {
        return ValueError;
      }
      SweepIfDue(sweepAt);
      ghost var swept := data;
      var stored := LiveValue(key, readAt);
      SweepUnseen(old(data), swept, sweepAt, readAt);
      EvictUnseen(old(data), swept, key, readAt);
      assert Look(swept, key, readAt) == Look(old(data), key, readAt);
      SameIncremented(data, old(data), op);
      assert Look(data, key, readAt) == Look(old(data), key, readAt);
      var current := if stored.Some? then Parse(stored.value) else Some(0);
      if current.None? {
        return ValueError;
      }
      var expiry := if ttl.Some? then Some(at + ttl.value as real)
                    else if stored.Some? then data[key].expiry else None;
      data := data[key := Entry(Format(current.value + amount), expiry)];
      return Number(current.value + amount);
    }

    method SetIfAbsent(key: Key, value: string, ttl: Option<int>, sweepAt: real, readAt: real, at: real, ghost now: real)
      returns (reply: Reply)
      requires InOrder(now, Op.SetIfAbsent(key, value, ttl, sweepAt, readAt, at))
      modifies this
      ensures Serves(old(data), Op.SetIfAbsent(key, value, ttl, sweepAt, readAt, at), now, reply, data)
    {
      if ttl.Some? && ttl.value <= 0 {
        return ValueError;
      }
      SweepIfDue(sweepAt);
      ghost var swept := data;
      var stored := LiveValue(key, readAt);
      SweepUnseen(old(data), swept, sweepAt, readAt);
      EvictUnseen(old(data), swept, key, readAt);
      assert Look(swept, key, readAt) == Look(old(data), key, readAt);
      SameLater(data, old(data), readAt, at);
      if stored.Some? {
        return Stored(false);
      }
      SameUpdate(data, old(data), key, Entry(value, Expiry(ttl, at)), at);
      data := data[key := Entry(value, Expiry(ttl, at))];
      return Stored(true);
    }

    method GetAndDelete(key: Key, at: real, ghost now: real) returns (reply: Reply)
      requires InOrder(now, Op.GetAndDelete(key, at))
      modifies this
      ensures Serves(old(data), Op.GetAndDelete(key, at), now, reply, data)
    {
      var value := LiveValue(key, at);
      if value.Some? {
        data := data - {key};
      }
      assert data == old(data) - {key};
      return Bytes(value);
    }

    /** Counts the live keys one by one, then drops every key with the prefix. */
    method DeletePrefix(prefix: string, checks: Key -> real, at: real, now: real) returns (reply: Reply)
      requires InOrder(now, Op.DeletePrefix(prefix, checks, at))
      modifies this
      ensures Serves(old(data), Op.DeletePrefix(prefix, checks, at), now, reply, data)
    {
      if prefix == "" {
        return ValueError;
      }
      var matching := set k | k in data && HasPrefix(k, prefix);
      var live := ScanLive(matching, checks, at, now);
      var todo := matching;
      ghost var rest := data - matching;
      while todo != {}
        invariant todo <= matching && data - todo == rest
        decreases |todo|
      {
        var key :| key in todo;
        assert data - todo == (data - {key}) - (todo - {key});
        data, todo := data - {key}, todo - {key};
      }
      assert data == rest == map k | k in old(data) && !HasPrefix(k, prefix) :: old(data)[k];
      assert live == Matching(old(data), prefix, checks, now, at);
      return Number(|live|);
    }

    /** The keys among `keys` whose value is live when the scan reaches them; the others are evicted. */
    method ScanLive(keys: set<Key>, checks: Key -> real, at: real, now: real) returns (live: set<Key>)
      requires now <= at && keys <= data.Keys
      modifies this`data
      ensures live == set k | k in keys && !Expired(old(data)[k], CheckAt(checks, now, at, k))
      ensures data == old(data) - (keys - live)
    {
      var todo := keys;
      live := {};
      while todo != {}
        invariant todo <= keys && todo <= data.Keys
        invariant live == set k | k in keys - todo && !Expired(old(data)[k], CheckAt(checks, now, at, k))
        invariant data == old(data) - (keys - todo - live)
        decreases |todo|
      {
        var key :| key in todo;
        assert data[key] == old(data)[key];
        var value := LiveValue(key, CheckAt(checks, now, at, key));
        todo := todo - {key};
        if value.Some? {
          live := live + {key};
        }
      }
    }

    method IterKeys(prefix: string, checks: Key -> real, at: real, now: real) returns (reply: Reply)
      requires InOrder(now, Op.IterKeys(prefix, checks, at))
      modifies this
      ensures Serves(old(data), Op.IterKeys(prefix, checks, at), now, reply, data)
    {
      var matching := set k | k in data && HasPrefix(k, prefix);
      var live := ScanLive(matching, checks, at, now);
      assert live == Matching(old(data), prefix, checks, now, at);
      return Keys(live);
    }

    /** Counts one occurrence unless the gate is closed, and closes it when a tier is reached. */
    method RecordTieredFailure(counter: Key, gate: Key, tiers: seq<Tier>, counterTtl: int, wall: int,
                               sweepAt: real, gateAt: real, readAt: real, storeAt: real, at: real, ghost now: real)
      returns (reply: Reply)
      requires InOrder(now, Op.RecordTieredFailure(counter, gate, tiers, counterTtl, wall, sweepAt, gateAt, readAt, storeAt, at))
      modifies this
      ensures Serves(old(data), Op.RecordTieredFailure(counter, gate, tiers, counterTtl, wall, sweepAt, gateAt, readAt, storeAt, at),
                     now, reply, data)
    {
      ghost var op := Op.RecordTieredFailure(counter, gate, tiers, counterTtl, wall, sweepAt, gateAt, readAt, storeAt, at);
      SweepIfDue(sweepAt);
      ghost var swept := data;
      var gateText := LiveValue(gate, gateAt);
      SweepUnseen(old(data), swept, sweepAt, gateAt);
      EvictUnseen(old(data), swept, gate, gateAt);
      assert Look(swept, gate, gateAt) == Look(old(data), gate, gateAt);
      ghost var base := old(data);
      SameLater(data, base, gateAt, readAt);
      if gateText.Some? {
        var until := Parse(gateText.value);
        if until.None? {
          SameLater(data, base, gateAt, at);
          return ValueError;
        }
        if until.value > wall {
          ghost var before := data;
          var counterText := LiveValue(counter, readAt);
          EvictUnseen(base, before, counter, readAt);
          SameLater(data, base, readAt, at);
          assert Look(before, counter, readAt) == Look(base, counter, readAt);
          var count := if counterText.Some? then Parse(counterText.value) else Some(0);
          if count.None? {
            return ValueError;
          }
          return Outcome(count.value, until, false);
        }
        SameUpdate(data, base, gate, Entry("", None), readAt);
        data, base := data - {gate}, base - {gate};
      }
      reply := CountOne(counter, gate, tiers, counterTtl, wall, readAt, storeAt, at, base, op);
    }

    /** The part below the gate: bump the counter, then find the last tier it has reached. */
    method CountOne(counter: Key, gate: Key, tiers: seq<Tier>, counterTtl: int, wall: int, readAt: real, storeAt: real, at: real,
                    ghost base: Table, ghost op: Op) returns (reply: Reply)
      requires op.RecordTieredFailure? && readAt <= storeAt <= at && SameFrom(data, base, readAt)
      requires op == Op.RecordTieredFailure(counter, gate, tiers, counterTtl, wall, op.sweepAt, op.gateAt, readAt, storeAt, at)
      modifies this`data
      ensures reply == Counted(base, op).1 && SameFrom(data, Counted(base, op).0, at)
    {
      ghost var before := data;
      var text := LiveValue(counter, readAt);
      EvictUnseen(base, before, counter, readAt);
      SameCounted(data, base, op);
      assert Look(data, counter, readAt) == Look(before, counter, readAt);
      var stored := if text.Some? then Parse(text.value) else Some(0);
      if stored.None? {
        return ValueError;
      }
      var count := stored.value + 1;
      data := data[counter := Entry(Format(count), Some(storeAt + counterTtl as real))];
      var seconds := LastMatch(count, tiers);
      if seconds > 0 {
        data := data[gate := Entry(Format(wall + seconds), Some(at + seconds as real))];
        return Outcome(count, Some(wall + seconds), true);
      }
      return Outcome(count, None, false);
    }
  }

  /** Goes through the tiers in order; the last match wins. */
  method LastMatch(count: int, tiers: seq<Tier>) returns (seconds: int)
    ensures seconds == LockFor(count, tiers)
  {
    seconds := 0;
    for i := 0 to |tiers|
      invariant seconds == LockFor(count, tiers[..i])
    {
      assert tiers[..i + 1][..i] == tiers[..i];
      if count >= tiers[i].threshold {
        seconds := tiers[i].seconds;
      }
    }
    assert tiers[..|tiers|] == tiers;
  }

  lemma {:induction false} SameThrough(a: Table, b: Table, c: Table, now: real)
    requires SameFrom(a, b, now) && SameFrom(b, c, now)
    ensures SameFrom(a, c, now)
  {
    forall k
      ensures Look(a, k, now) == Look(c, k, now)
    {
      assert Look(a, k, now) == Look(b, k, now);
    }
  }

  lemma {:induction false} SweepUnseen(before: Table, after: Table, sweepAt: real, at: real)
    requires sweepAt <= at && (after == before || after == Unexpired(before, sweepAt))
    ensures SameFrom(after, before, at)
  {
    EvictionUnseen(before, "", sweepAt);
    SameLater(after, before, sweepAt, at);
  }

  lemma {:induction false} EvictUnseen(before: Table, swept: Table, key: Key, at: real)
    requires SameFrom(swept, before, at)
    ensures SameFrom(Evicted(swept, key, at), before, at)
  {
    EvictionUnseen(swept, key, at);
    forall k
      ensures Look(Evicted(swept, key, at), k, at) == Look(before, k, at)
    {
      assert Look(Evicted(swept, key, at), k, at) == Look(swept, k, at);
    }
  }

  // ---- Every sequence of operations ----

  /** What a sequence of calls on the backend looks like, given each method's promise. */
  ghost predicate Served(now: real, tables: seq<Table>, ops: seq<Op>, replies: seq<Reply>) {
    && |tables| == |ops| + 1 && |replies| == |ops|
    && forall i :: 0 <= i < |ops| ==> ServedAt(now, tables, ops, replies, i)
  }

  ghost predicate ServedAt(now: real, tables: seq<Table>, ops: seq<Op>, replies: seq<Reply>, i: nat)
    requires |tables| == |ops| + 1 && |replies| == |ops| && i < |ops|
  {
    Serves(tables[i], ops[i], TimeBefore(now, ops, i), replies[i], tables[i + 1])
  }

  function TimeBefore(now: real, ops: seq<Op>, i: nat): real
    requires i <= |ops|
  {
    if i == 0 then now else ops[i - 1].at
  }

  predicate Clocked(now: real, ops: seq<Op>) {
    forall i :: 0 <= i < |ops| ==> ClockedAt(now, ops, i)
  }

  predicate ClockedAt(now: real, ops: seq<Op>, i: nat)
    requires i < |ops|
  {
    InOrder(TimeBefore(now, ops, i), ops[i])
  }

  /** The reference's table after the first `i` operations. */
  function Reference(now: real, ops: seq<Op>, i: nat): Table
    requires Clocked(now, ops) && i <= |ops|
  {
    if i == 0 then map[] else
      assert ClockedAt(now, ops, i - 1);
      Perform(Reference(now, ops, i - 1), ops[i - 1], TimeBefore(now, ops, i - 1)).0
  }

  lemma {:induction false} FollowsOnce(before: Table, after: Table, reference: Table, op: Op, now: real, reply: Reply)
    requires Serves(before, op, now, reply, after) && SameFrom(before, reference, now)
    ensures SameFrom(after, Perform(reference, op, now).0, op.at)
  {
    SamePerformed(before, reference, op, now);
    SameThrough(after, Perform(before, op, now).0, Perform(reference, op, now).0, op.at);
  }

  lemma {:induction false} Follows(now: real, tables: seq<Table>, ops: seq<Op>, replies: seq<Reply>, i: nat)
    requires Clocked(now, ops) && Served(now, tables, ops, replies) && tables[0] == map[] && i <= |ops|
    ensures SameFrom(tables[i], Reference(now, ops, i), TimeBefore(now, ops, i))
  {
    if i > 0 {
      Follows(now, tables, ops, replies, i - 1);
      var before, op := TimeBefore(now, ops, i - 1), ops[i - 1];
      assert ServedAt(now, tables, ops, replies, i - 1);
      FollowsOnce(tables[i - 1], tables[i], Reference(now, ops, i - 1), op, before, replies[i - 1]);
    }
  }

  /** With a clock that never goes back, eviction and sweeping change no answer of any later operation. */
  lemma {:induction false} RefinesTtlMap(now: real, tables: seq<Table>, ops: seq<Op>, replies: seq<Reply>, i: nat)
    requires Clocked(now, ops) && Served(now, tables, ops, replies) && tables[0] == map[] && i < |ops|
    ensures ClockedAt(now, ops, i)
    ensures replies[i] == Perform(Reference(now, ops, i), ops[i], TimeBefore(now, ops, i)).1
  {
    assert ClockedAt(now, ops, i) && ServedAt(now, tables, ops, replies, i);
    Follows(now, tables, ops, replies, i);
    var before := TimeBefore(now, ops, i);
    SamePerformed(tables[i], Reference(now, ops, i), ops[i], before);
  }
}
