/** Sealing windows into the chain, the write-once copy, and retention. */
module AuditStore {
  import opened Wrappers
  import opened AuditTime
  import opened AuditLog
  import opened AuditChain
  import opened AuditVerify

  const MAX_WINDOWS_PER_RUN: nat := 1000
  const MAX_RETENTION_DAYS: int := 36500

  datatype Settings = Settings(days: int, floorDays: int, hold: bool, windowMinutes: int, graceMinutes: int,
                               key: Option<Key>)

  /** What `AuditSettings` accepts. */
  predicate ValidSettings(s: Settings) {
    && 1 <= s.floorDays <= MAX_RETENTION_DAYS && s.days <= MAX_RETENTION_DAYS
    && (0 < s.days ==> s.floorDays <= s.days)
    && ValidWindow(s.windowMinutes) && 0 <= s.graceMinutes
  }

  /** What the external sink holds under a name: a copy of a checkpoint, or bytes this code never wrote. */
  datatype Document = Copy(instance: string, c: Checkpoint) | Foreign

  /** An object name: the deployment and the window start to the second. */
  type Name = (string, int)
  type Sink = map<Name, Document>

  function SinkName(start: Instant, instance: string): Name {
    (instance, start / SECOND)
  }

  datatype Store = Store(rows: set<Row>, chain: seq<Checkpoint>, sink: Sink)

  /** Where the code runs: its functions, the deployment id, and whether a sink is configured. */
  datatype Site = Site(p: Primitives, instance: string, sinkOn: bool)

  function Sign(site: Site, key: Option<Key>, c: Checkpoint): Checkpoint {
    if key.None? then c.(signature := None, keyId := None)
    else c.(signature := Some(site.p.sign(key.value, MessageOf(c, site.instance))),
            keyId := Some(site.p.keyId(key.value)))
  }

  datatype SinkOutcome = Written(sink: Sink, c: Checkpoint) | Conflict

  /** Write once; when the name is taken, reseal under the retention the copy records and accept only the copy itself. */
  function CopyToSink(site: Site, sink: Sink, c: Checkpoint, key: Option<Key>): SinkOutcome {
    var name := SinkName(c.start, site.instance);
    if name !in sink then Written(sink[name := Copy(site.instance, c)], c)
    else if sink[name] == Copy(site.instance, c) then Written(sink, c)
    else match sink[name]
      case Foreign => Conflict
      case Copy(_, stored) =>
        var resealed := Sign(site, key, c.(days := stored.days, hold := stored.hold));
        if Copy(site.instance, resealed) == sink[name] then Written(sink, resealed) else Conflict
  }

  /** `min(occurred_at)`. */
  function EarliestAt(rows: set<Row>): (t: Instant)
    requires rows != {}
    ensures (exists r :: r in rows && r.at == t) && forall r :: r in rows ==> t <= r.at
  {
    EarliestExists(rows);
    var times := set r | r in rows :: r.at;
    assert exists t :: t in times && forall r :: r in rows ==> t <= r.at by {
      var r :| r in rows && forall s :: s in rows ==> r.at <= s.at;
      assert r.at in times;
    }
    var t :| t in times && forall r :: r in rows ==> t <= r.at;
    t
  }

  function NextStart(st: Store, minutes: int): Option<Instant>
    requires 1 <= minutes
  {
    if st.chain != [] then Some(st.chain[|st.chain| - 1].end)
    else if st.rows == {} then None
    else Some(FirstStart(EarliestAt(st.rows), minutes))
  }

  function LastHash(chain: seq<Checkpoint>): Option<string> {
    if chain == [] then None else Some(chain[|chain| - 1].hash)
  }

  predicate Due(start: Instant, s: Settings, now: Instant)
    requires 1 <= s.windowMinutes
  {
    WindowEnd(start, s.windowMinutes) + s.graceMinutes * MINUTE <= now
  }

  /** The signed checkpoint of the window that starts at `start`, under given retention values. */
  ghost function Drafted(site: Site, st: Store, s: Settings, start: Instant, days: int, hold: bool): Checkpoint
    requires 1 <= s.windowMinutes && DistinctKeys(st.rows)
  {
    var end := WindowEnd(start, s.windowMinutes);
    var prev := LastHash(st.chain);
    var d := WindowDigest(site.p, st.rows, start, end, prev);
    Sign(site, s.key, Checkpoint(start, end, d.rowCount, d.hash, prev, days, hold, None, None))
  }

  datatype SealResult = Nothing | Sealed(store: Store) | SinkConflict

  /** The sink half of sealing one window. */
  ghost function CopyOut(site: Site, st: Store, s: Settings, start: Instant): SinkOutcome
    requires 1 <= s.windowMinutes && DistinctKeys(st.rows)
  {
    var c := Drafted(site, st, s, start, s.days, s.hold);
    if site.sinkOn then CopyToSink(site, st.sink, c, s.key) else Written(st.sink, c)
  }

  /** The database half: the checkpoint is stored only once its copy is out. */
  function Commit(st: Store, outcome: SinkOutcome): Store {
    match outcome
    case Conflict => st
    case Written(sink, c) => Store(st.rows, st.chain + [c], sink)
  }

  /** One window: digest, sink, then the database. */
  ghost function SealOne(site: Site, st: Store, s: Settings, now: Instant): SealResult
    requires 1 <= s.windowMinutes && DistinctKeys(st.rows)
  {
    var start := NextStart(st, s.windowMinutes);
    if start.None? || !Due(start.value, s, now) then Nothing else
      var outcome := CopyOut(site, st, s, start.value);
      if outcome.Conflict? then SinkConflict else Sealed(Commit(st, outcome))
  }

  datatype RunResult = Wrote(n: nat) | AheadOfClock | Stopped(n: nat)

  /** Stores passed through by sealing windows one after the other. */
  ghost predicate SealTrace(site: Site, s: Settings, now: Instant, trace: seq<Store>)
    requires 1 <= s.windowMinutes
  {
    && 1 <= |trace| <= MAX_WINDOWS_PER_RUN + 1
    && forall i :: 0 <= i < |trace| - 1 ==>
         DistinctKeys(trace[i].rows) && SealOne(site, trace[i], s, now) == Sealed(trace[i + 1])
  }

  /** Why a run ends: the cap, nothing due, or a refused copy. */
  ghost predicate SealStops(site: Site, s: Settings, now: Instant, trace: seq<Store>, result: RunResult)
    requires 1 <= s.windowMinutes && trace != []
  {
    var n, last := |trace| - 1, trace[|trace| - 1];
    DistinctKeys(last.rows) &&
    match result
    case AheadOfClock => false
    case Wrote(k) => k == n && (n == MAX_WINDOWS_PER_RUN || SealOne(site, last, s, now) == Nothing)
    case Stopped(k) => k == n < MAX_WINDOWS_PER_RUN && SealOne(site, last, s, now) == SinkConflict
  }

  lemma TraceSnoc(site: Site, s: Settings, now: Instant, trace: seq<Store>, next: Store)
    requires 1 <= s.windowMinutes && SealTrace(site, s, now, trace) && |trace| <= MAX_WINDOWS_PER_RUN
    requires DistinctKeys(trace[|trace| - 1].rows)
    requires SealOne(site, trace[|trace| - 1], s, now) == Sealed(next)
    ensures SealTrace(site, s, now, trace + [next])
  {}

  predicate ChainAhead(chain: seq<Checkpoint>, now: Instant) {
    chain != [] && chain[|chain| - 1].end > now
  }

  // ---- Retention ----

  function Min(a: int, b: int): int {
    if a <= b then a else b
  }

  /** How far a prune may reach: the age limit, and no further than the newest checkpoint allows. */
  function RetentionCutoff(chain: seq<Checkpoint>, s: Settings, now: Instant): Option<Instant> {
    if s.hold || s.days <= 0 || chain == [] || !AllowsPrune(chain[|chain| - 1]) then None
    else Some(Min(now - s.days * DAY, RetentionHorizon(chain[|chain| - 1]).value))
  }

  /** Whole days: everything before the midnight at or before the cutoff. */
  function PartitionCut(chain: seq<Checkpoint>, s: Settings, now: Instant, databaseNow: Instant, bakedFloor: int)
    : Option<Instant>
  {
    var cutoff := RetentionCutoff(chain, s, now);
    if cutoff.None? then None else
      var clamped := Min(cutoff.value, databaseNow - s.floorDays * DAY);
      // The routine refuses a cutoff younger than the floor it was installed with.
      if clamped > databaseNow - bakedFloor * DAY then None else Some(Midnight(clamped))
  }

  /** The day of an instant lies wholly before a midnight exactly when the instant does. */
  lemma DayBehind(t: Instant, midnight: Instant)
    requires Midnight(midnight) == midnight
    ensures Midnight(t) + DAY <= midnight <==> t < midnight
  {
    DivBounds(t, DAY);
    MidnightOutside(Midnight(t), Midnight(t) + DAY, midnight);
  }

  /** The partitions, among those that start on the given midnights, that end at or before the cut. */
  function Behind(days: seq<Instant>, cut: Instant): seq<Instant> {
    if days == [] then [] else
      Behind(days[..|days| - 1], cut) + (if days[|days| - 1] + DAY <= cut then [days[|days| - 1]] else [])
  }

  lemma {:induction false} BehindHas(days: seq<Instant>, cut: Instant, day: Instant)
    ensures day in Behind(days, cut) <==> day in days && day + DAY <= cut
  {
    if days != [] {
      BehindHas(days[..|days| - 1], cut, day);
      assert days == days[..|days| - 1] + [days[|days| - 1]];
    }
  }

  /** The start of the sealed window that holds `t`. */
  function SealedStart(chain: seq<Checkpoint>, t: Instant): Option<Instant> {
    if chain == [] then None
    else if chain[0].start <= t < chain[0].end then Some(chain[0].start)
    else SealedStart(chain[1..], t)
  }

  /** Whole sealed windows: everything before the window that holds the cutoff. */
  function DeleteCut(chain: seq<Checkpoint>, s: Settings, now: Instant): Option<Instant> {
    var cutoff := RetentionCutoff(chain, s, now);
    if cutoff.None? then None else SealedStart(chain, cutoff.value)
  }

  // ---- What retention may take, and must ----

  /** Pruning is on, no legal hold is set, and the newest checkpoint was itself sealed with retention on and no hold. */
  predicate Permitted(chain: seq<Checkpoint>, s: Settings) {
    && !s.hold && s.days > 0 && chain != []
    && var newest := chain[|chain| - 1]; !newest.hold && 0 < newest.days < (newest.end - EARLIEST) / DAY
  }

  /** Old enough under the settings in force and under what the newest checkpoint recorded. */
  predicate OldEnough(chain: seq<Checkpoint>, s: Settings, now: Instant, t: Instant) {
    && t + s.days * DAY <= now
    && (chain != [] ==> t + chain[|chain| - 1].days * DAY <= chain[|chain| - 1].end)
  }

  lemma {:induction false} PartitionCutLaw(chain: seq<Checkpoint>, s: Settings, now: Instant, databaseNow: Instant, bakedFloor: int)
    ensures var cut := PartitionCut(chain, s, now, databaseNow, bakedFloor);
            && (cut.Some? ==>
                  && Permitted(chain, s) && OldEnough(chain, s, now, cut.value) && cut.value + s.floorDays * DAY <= databaseNow
                  && cut.value == Midnight(cut.value))
            && (Permitted(chain, s) ==>
                  (cut.None? <==>
                     exists t: Instant :: OldEnough(chain, s, now, t) && t + s.floorDays * DAY <= databaseNow < t + bakedFloor * DAY))
            && (cut.Some? ==>
                  forall t :: Midnight(t) == t && OldEnough(chain, s, now, t) && t + s.floorDays * DAY <= databaseNow ==> t <= cut.value)
  {
    var cutoff := RetentionCutoff(chain, s, now);
    if cutoff.Some? {
      assert OldEnough(chain, s, now, Min(cutoff.value, databaseNow - s.floorDays * DAY));
      var clamped := Min(cutoff.value, databaseNow - s.floorDays * DAY);
      DivBounds(clamped, DAY);
      ModOfMultiple(clamped / DAY, DAY);
      ExactQuotient(clamped / DAY, DAY);
      forall t | Midnight(t) == t && t <= clamped
        ensures t <= Midnight(clamped)
      {
        MidnightMonotone(t, clamped);
      }
    }
  }

  lemma {:induction false} NextMidnight(t: Instant)
    ensures t < Midnight(t) + DAY && Midnight(Midnight(t) + DAY) == Midnight(t) + DAY
  {
    DivBounds(t, DAY);
    ExactQuotient(t / DAY + 1, DAY);
    assert Midnight(t) + DAY == (t / DAY + 1) * DAY;
  }

  lemma {:induction false} MidnightMonotone(t: Instant, u: Instant)
    requires t <= u
    ensures Midnight(t) <= Midnight(u)
  {
    DivBounds(t, DAY);
    DivBounds(u, DAY);
  }

  lemma {:induction false} DeleteCutLaw(chain: seq<Checkpoint>, s: Settings, now: Instant)
    ensures var cut := DeleteCut(chain, s, now);
            && (cut.Some? ==> Permitted(chain, s) && OldEnough(chain, s, now, cut.value))
            && (Permitted(chain, s) ==>
                  forall i :: 0 <= i < |chain| && OldEnough(chain, s, now, chain[i].start) && !OldEnough(chain, s, now, chain[i].end)
                              ==> cut.Some?)
            && (cut.Some? ==>
                  exists i :: 0 <= i < |chain| && cut.value == chain[i].start && !OldEnough(chain, s, now, chain[i].end))
  {
    var cutoff := RetentionCutoff(chain, s, now);
    if cutoff.Some? {
      forall t
        ensures OldEnough(chain, s, now, t) <==> t <= cutoff.value
      {}
      SealedStartIs(chain, cutoff.value);
    }
  }

  lemma {:induction false} SealedStartIs(chain: seq<Checkpoint>, t: Instant)
    ensures SealedStart(chain, t).Some? <==> exists i :: 0 <= i < |chain| && chain[i].start <= t < chain[i].end
    ensures SealedStart(chain, t).Some? ==>
              exists i :: 0 <= i < |chain| && SealedStart(chain, t).value == chain[i].start && chain[i].start <= t < chain[i].end
  {
    if chain != [] && !(chain[0].start <= t < chain[0].end) {
      SealedStartIs(chain[1..], t);
      assert forall i :: 0 < i < |chain| ==> chain[i] == chain[1..][i - 1];
      assert forall i :: 0 <= i < |chain| - 1 ==> chain[1..][i] == chain[i + 1];
    }
  }

  function KeepFrom(rows: set<Row>, cut: Instant): set<Row> {
    set r | r in rows && cut <= r.at
  }

  /** The log, the checkpoint table and the sink, changed in place by maintenance. */
  class AuditDatabase {
    var rows: set<Row>
    var chain: seq<Checkpoint>
    var sink: Sink

    constructor ()
      ensures View() == Store({}, [], map[])
    {
      rows, chain, sink := {}, [], map[];
    }

    ghost function View(): Store
      reads this
    {
      Store(rows, chain, sink)
    }

    /** The sealing loop: `start` and the previous hash are carried along instead of read back. */
    method SealPendingWindows(site: Site, s: Settings, now: Instant) returns (result: RunResult, ghost trace: seq<Store>)
      requires ValidSettings(s) && DistinctKeys(rows)
      modifies this
      ensures result == AheadOfClock <==> ChainAhead(old(chain), now)
      ensures result == AheadOfClock ==> View() == old(View())
      ensures result != AheadOfClock ==>
                && SealTrace(site, s, now, trace) && SealStops(site, s, now, trace, result)
                && trace[0] == old(View()) && trace[|trace| - 1] == View()
      ensures result.Wrote? || result.Stopped? ==> |chain| == |old(chain)| + result.n && result.n <= 1000
      ensures result.Wrote? && result.n < 1000 ==>
                if chain != [] then WindowEnd(chain[|chain| - 1].end, s.windowMinutes) + s.graceMinutes * MINUTE > now
                else rows == {} || WindowEnd(FirstStart(EarliestAt(rows), s.windowMinutes), s.windowMinutes) + s.graceMinutes * MINUTE > now
    {
      trace := [View()];
      if ChainAhead(chain, now) {
        return AheadOfClock, trace;
      }
      var begin := NextStart(Store(rows, chain, sink), s.windowMinutes);
      if begin.None? {
        return Wrote(0), trace;
      }
      var start, prev, written := begin.value, LastHash(chain), 0;
      while written < MAX_WINDOWS_PER_RUN
        invariant 0 <= written <= MAX_WINDOWS_PER_RUN && |trace| == written + 1
        invariant |chain| == |old(chain)| + written
        invariant rows == old(rows)
        invariant NextStart(View(), s.windowMinutes) == Some(start) && prev == LastHash(chain)
        invariant SealTrace(site, s, now, trace) && trace[0] == old(View()) && trace[written] == View()
      {
        if !Due(start, s, now) {
          return Wrote(written), trace;
        }
        var stopped := SealWindow(site, s, start, prev, now);
        if stopped {
          return Stopped(written), trace;
        }
        TraceSnoc(site, s, now, trace, View());
        trace := trace + [View()];
        start, prev, written := chain[|chain| - 1].end, LastHash(chain), written + 1;
      }
      return Wrote(written), trace;
    }

    /** Digest, sign, copy out, store. */
    method SealWindow(site: Site, s: Settings, start: Instant, prev: Option<string>, ghost now: Instant)
      returns (stopped: bool)
      requires ValidSettings(s) && DistinctKeys(rows) && prev == LastHash(chain)
      requires NextStart(View(), s.windowMinutes) == Some(start) && Due(start, s, now)
      modifies this
      ensures SealOne(site, old(View()), s, now) == if stopped then SinkConflict else Sealed(View())
      ensures stopped ==> View() == old(View())
      ensures rows == old(rows) && (!stopped ==> |chain| == |old(chain)| + 1)
    {
      var end := WindowEnd(start, s.windowMinutes);
      var d := ComputeDigest(site.p, rows, start, end, prev);
      var c := Sign(site, s.key, Checkpoint(start, end, d.rowCount, d.hash, prev, s.days, s.hold, None, None));
      if site.sinkOn {
        var outcome := CopyToSink(site, sink, c, s.key);
        if outcome.Conflict? {
          return true;
        }
        sink, c := outcome.sink, outcome.c;
      }
      chain := chain + [c];
      return false;
    }

    /** Drop the daily partitions that end at or before the cutoff, one by one in the order of their names, and record
        the prune if any was. `days` are the partitions there are, by the midnight each starts at. */
    method PrunePartitions(s: Settings, now: Instant, databaseNow: Instant, bakedFloor: int, days: seq<Instant>, record: Row)
      returns (dropped: nat)
      requires forall r :: r in rows ==> Midnight(r.at) in days
      modifies this`rows
      ensures var cut := PartitionCut(chain, s, now, databaseNow, bakedFloor);
              && dropped == (if cut.None? then 0 else |Behind(days, cut.value)|)
              && rows == if dropped == 0 then old(rows) else KeepFrom(old(rows), cut.value) + {record}
      ensures !Permitted(chain, s) ==> rows == old(rows)
      ensures old(rows) <= rows || (record in rows && dropped > 0)
      ensures forall r :: r in old(rows) && r !in rows ==> OldEnough(chain, s, now, r.at + 1) && r.at + s.floorDays * DAY < databaseNow
      ensures Permitted(chain, s) && bakedFloor <= s.floorDays ==>
                forall r :: r in rows && r != record ==>
                  !(OldEnough(chain, s, now, Midnight(r.at) + DAY) && Midnight(r.at) + DAY + s.floorDays * DAY <= databaseNow)
    {
      PartitionCutLaw(chain, s, now, databaseNow, bakedFloor);
      dropped := 0;
      var cut := PartitionCut(chain, s, now, databaseNow, bakedFloor);
      if cut.None? {
        return;
      }
      for i := 0 to |days|
        invariant dropped == |Behind(days[..i], cut.value)|
        invariant rows == set r | r in old(rows) && Midnight(r.at) !in Behind(days[..i], cut.value)
      {
        assert days[..i + 1][..i] == days[..i];
        if days[i] + DAY <= cut.value {
          rows := set r | r in rows && Midnight(r.at) != days[i];
          dropped := dropped + 1;
        }
      }
      assert days[..|days|] == days;
      forall r | r in old(rows)
        ensures Midnight(r.at) in Behind(days, cut.value) <==> r.at < cut.value
      {
        BehindHas(days, cut.value, Midnight(r.at));
        DayBehind(r.at, cut.value);
      }
      assert rows == KeepFrom(old(rows), cut.value);
      forall r | r in rows
        ensures cut.value < Midnight(r.at) + DAY && Midnight(Midnight(r.at) + DAY) == Midnight(r.at) + DAY
      {
        NextMidnight(r.at);
      }
      if dropped > 0 {
        rows := rows + {record};
      }
    }

    /** Stage the accounting row, then delete every row before the sealed window that holds the cutoff. */
    method PruneRows(s: Settings, now: Instant, record: Row)
      modifies this`rows
      ensures record.at >= now && s.days >= 0 ==> old(rows) <= rows || record in rows
      ensures var cut := DeleteCut(chain, s, now);
              rows == if cut.None? || KeepFrom(old(rows), cut.value) == old(rows) then old(rows)
                      else KeepFrom(old(rows) + {record}, cut.value)
      ensures !Permitted(chain, s) ==> rows == old(rows)
      ensures forall r :: r in old(rows) && r !in rows ==> OldEnough(chain, s, now, r.at + 1)
    {
      DeleteCutLaw(chain, s, now);
      var cut := DeleteCut(chain, s, now);
      if cut.Some? && exists r :: r in rows && r.at < cut.value {
        rows := rows + {record};
        rows := KeepFrom(rows, cut.value);
      }
    }
  }
}
