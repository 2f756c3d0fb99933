/** Every run of the audit log: rows staged and published while maintenance seals, crashes, changes its settings
    and prunes. */
module AuditRuns {
  import opened Wrappers
  import opened AuditTime
  import opened AuditLog
  import opened AuditChain
  import opened AuditVerify
  import opened AuditEvidence
  import opened AuditStore

  /** The database together with what only an observer knows: every row ever staged (`log`), the ones whose
      transaction is still open (`pending`), how far rows were pruned and which checkpoint allowed it (`cut`), the
      clock reading of the maintenance run in progress and the key each checkpoint was signed with. */
  datatype World = World(now: Instant, log: set<Row>, pending: set<Row>, store: Store, cut: Cut,
                         run: Option<Instant>, keys: seq<Option<Key>>)

  datatype Cut = NoCut | Cut(at: Instant, under: nat)

  datatype Step =
    | Tick(to: Instant)
    | Stage(row: Row)
    | Publish(row: Row)
    | BeginRun
    | EndRun
    | SealWindow(s: Settings)
    | CrashAfterCopy(s: Settings)
    | DropPartitions(s: Settings, databaseNow: Instant, bakedFloor: int, dropRecord: Option<Row>)
    | DeleteRows(s: Settings, record: Row)

  const Empty := Store({}, [], map[])

  ghost predicate Initial(w: World) {
    w.log == {} && w.pending == {} && w.store == Empty && w.cut == NoCut && w.run == None && w.keys == []
  }

  ghost predicate FreshKey(log: set<Row>, row: Row) {
    forall r :: r in log ==> r.at != row.at || r.id != row.id
  }

  /** Settings a run may seal under: valid, and a grace period no shorter than the longest audited transaction. */
  ghost predicate Usable(s: Settings, delay: int) {
    ValidSettings(s) && delay <= s.graceMinutes * MINUTE
  }

  /** `delay` bounds the time from staging a row to its commit; the clock never steps back. */
  ghost predicate Next(site: Site, delay: int, w: World, step: Step, w': World)
    requires DistinctKeys(w.store.rows)
  {
    match step
    case Tick(to) =>
      && w.now <= to && (forall r :: r in w.pending ==> to <= r.at + delay)
      && w' == w.(now := to)
    case Stage(row) =>
      && row.at == w.now && FreshKey(w.log, row)
      && w' == w.(log := w.log + {row}, pending := w.pending + {row})
    case Publish(row) =>
      && row in w.pending
      && w' == w.(pending := w.pending - {row}, store := w.store.(rows := w.store.rows + {row}))
    case BeginRun => w.run.None? && w' == w.(run := Some(w.now))
    case EndRun => w' == w.(run := None)
    case SealWindow(s) =>
      && w.run.Some? && Usable(s, delay)
      && var result := SealOne(site, w.store, s, w.run.value);
         w' == if result.Sealed? then w.(store := result.store, keys := w.keys + [s.key]) else w
    case CrashAfterCopy(s) =>
      && w.run.Some? && Usable(s, delay)
      && var start := NextStart(w.store, s.windowMinutes);
         start.Some? && Due(start.value, s, w.run.value) &&
         var outcome := CopyOut(site, w.store, s, start.value);
         outcome.Written? && w' == w.(store := w.store.(sink := outcome.sink), run := None)
    case DropPartitions(s, databaseNow, bakedFloor, record) =>
      && w.run.Some? && ValidSettings(s)
      && (record.Some? ==> record.value.at == w.run.value && FreshKey(w.log, record.value))
      && var cut := PartitionCut(w.store.chain, s, w.run.value, databaseNow, bakedFloor);
         && (cut.Some? && record.None? ==> KeepFrom(w.store.rows, cut.value) == w.store.rows)
         && w' == if cut.None? then w else Pruned(w, cut.value, if record.Some? then {record.value} else {})
    case DeleteRows(s, record) =>
      && w.run.Some? && ValidSettings(s)
      && record.at == w.now && FreshKey(w.log, record)
      && var cut := DeleteCut(w.store.chain, s, w.run.value);
         w' == if cut.None? || KeepFrom(w.store.rows, cut.value) == w.store.rows then w
               else Pruned(w, cut.value, {record})
  }

  function NewCut(chain: seq<Checkpoint>, before: Cut, cut: Instant): Cut {
    if chain == [] || (before.Cut? && cut <= before.at) then before else Cut(cut, |chain| - 1)
  }

  ghost function Pruned(w: World, cut: Instant, records: set<Row>): World {
    w.(log := w.log + records,
       cut := NewCut(w.store.chain, w.cut, cut),
       store := w.store.(rows := KeepFrom(w.store.rows + records, cut)))
  }

  // ---- The invariant ----

  ghost predicate LogOk(delay: int, w: World) {
    && 0 <= delay && DistinctKeys(w.log) && w.pending <= w.log
    && (forall r :: r in w.log ==> r.at <= w.now)
    && (forall r :: r in w.pending ==> w.now <= r.at + delay)
  }

  ghost predicate Survives(cut: Cut, r: Row) {
    cut.Cut? ==> cut.at <= r.at
  }

  /** The table holds exactly the committed rows that no prune removed. */
  ghost predicate RowsOk(w: World) {
    forall r :: r in w.store.rows <==> r in w.log && r !in w.pending && Survives(w.cut, r)
  }

  /** Every window inside one UTC day, on whole minutes. */
  ghost predicate InOneDay(c: Checkpoint) {
    OnMinute(c.start) && OnMinute(c.end) && c.end <= Midnight(c.start) + DAY
  }

  ghost predicate Tiled(chain: seq<Checkpoint>) {
    Linked(chain) && forall i :: 0 <= i < |chain| ==> InOneDay(chain[i])
  }

  /** Each checkpoint is the digest of every row its window ever held. */
  ghost predicate Faithful(p: Primitives, log: set<Row>, chain: seq<Checkpoint>)
    requires DistinctKeys(log)
  {
    chain != [] ==> RowsIntact(p, log, chain[|chain| - 1]) && Faithful(p, log, chain[..|chain| - 1])
  }

  lemma {:induction false} FaithfulAt(p: Primitives, log: set<Row>, chain: seq<Checkpoint>, i: nat)
    requires DistinctKeys(log) && Faithful(p, log, chain) && i < |chain|
    ensures RowsIntact(p, log, chain[i])
  {
    if i < |chain| - 1 {
      FaithfulAt(p, log, chain[..|chain| - 1], i);
    }
  }

  ghost predicate SignedBy(site: Site, c: Checkpoint, key: Option<Key>) {
    c == Sign(site, key, c)
  }

  ghost predicate Signed(site: Site, chain: seq<Checkpoint>, keys: seq<Option<Key>>) {
    |keys| == |chain| && forall i :: 0 <= i < |chain| ==> SignedBy(site, chain[i], keys[i])
  }

  /** Nothing can still appear in, or before, a sealed window. */
  ghost predicate Settled(w: World) {
    var chain := w.store.chain;
    && (w.run.Some? ==> w.run.value <= w.now)
    && (chain != [] ==>
          var end := chain[|chain| - 1].end;
          && end <= w.now && (w.run.Some? ==> end <= w.run.value)
          && (forall r :: r in w.pending ==> end <= r.at)
          && (forall r :: r in w.log ==> chain[0].start <= r.at))
  }

  ghost predicate Reaches(c: Checkpoint, cut: Instant) {
    AllowsPrune(c) && cut <= RetentionHorizon(c).value
  }

  ghost predicate WholeWindows(chain: seq<Checkpoint>, cut: Instant) {
    forall i :: 0 <= i < |chain| ==> chain[i].end <= cut || cut <= chain[i].start
  }

  /** Rows went only where a checkpoint allows it, and by whole windows. */
  ghost predicate CutOk(chain: seq<Checkpoint>, cut: Cut) {
    cut.Cut? ==> cut.under < |chain| && Reaches(chain[cut.under], cut.at) && WholeWindows(chain, cut.at)
  }

  ghost predicate Inv(site: Site, delay: int, w: World) {
    && LogOk(delay, w)
    && RowsOk(w)
    && Tiled(w.store.chain)
    && Faithful(site.p, w.log, w.store.chain)
    && Signed(site, w.store.chain, w.keys)
    && Settled(w)
    && CutOk(w.store.chain, w.cut)
  }

  lemma RowsDistinct(delay: int, w: World)
    requires LogOk(delay, w) && RowsOk(w)
    ensures DistinctKeys(w.store.rows)
  {}

  // ---- Facts about the chain ----

  lemma LinkedSnoc(chain: seq<Checkpoint>, c: Checkpoint)
    requires Linked(chain) && c.start < c.end && c.prevHash == LastHash(chain)
    requires chain != [] ==> c.start == chain[|chain| - 1].end
    ensures Linked(chain + [c])
  {}

  lemma LinkedFirst(chain: seq<Checkpoint>)
    requires Linked(chain) && chain != []
    ensures chain[0].start < chain[|chain| - 1].end
  {
    if |chain| > 1 {
      LinkedOrder(chain, 0, |chain| - 1);
    }
  }

  lemma AllBeforeLast(chain: seq<Checkpoint>, t: Instant)
    requires Linked(chain) && (chain != [] ==> chain[|chain| - 1].end <= t)
    ensures forall i :: 0 <= i < |chain| ==> chain[i].end <= t
  {
    forall i | 0 <= i < |chain| - 1
      ensures chain[i].end <= t
    {
      LinkedOrder(chain, i, |chain| - 1);
    }
  }

  /** A prune never reaches the window that is sealed next. */
  lemma CutBeforeNext(chain: seq<Checkpoint>, cut: Cut)
    requires Linked(chain) && CutOk(chain, cut) && cut.Cut?
    ensures cut.at < chain[|chain| - 1].end
  {
    if cut.under < |chain| - 1 {
      LinkedOrder(chain, cut.under, |chain| - 1);
    }
  }

  /** Rows added at or after the end of the chain leave every sealed digest alone. */
  lemma {:induction false} LaterRowsKeepDigests(p: Primitives, log: set<Row>, more: set<Row>, chain: seq<Checkpoint>)
    requires DistinctKeys(log) && DistinctKeys(log + more) && Faithful(p, log, chain)
    requires forall r, i :: r in more && 0 <= i < |chain| ==> chain[i].end <= r.at
    ensures Faithful(p, log + more, chain)
  {
    if chain != [] {
      var c := chain[|chain| - 1];
      assert Window(log + more, c.start, c.end) == Window(log, c.start, c.end);
      SameWindowSameDigest(p, log, log + more, c);
      LaterRowsKeepDigests(p, log, more, chain[..|chain| - 1]);
    }
  }

  // ---- Sealing ----

  /** Whatever the sink made of it, the stored checkpoint is the window's own digest under some retention. */
  lemma CopyOutShape(site: Site, st: Store, s: Settings, start: Instant)
    requires 1 <= s.windowMinutes && DistinctKeys(st.rows) && CopyOut(site, st, s, start).Written?
    ensures var c := CopyOut(site, st, s, start).c;
            c == Drafted(site, st, s, start, c.days, c.hold) && SignedBy(site, c, s.key)
  {}

  function FirstOr(chain: seq<Checkpoint>, start: Instant): Instant {
    if chain == [] then start else chain[0].start
  }

  lemma PendingAfter(delay: int, w: World, s: Settings, start: Instant)
    requires LogOk(delay, w) && w.run.Some? && w.run.value <= w.now && Usable(s, delay) && Due(start, s, w.run.value)
    ensures forall r :: r in w.pending ==> WindowEnd(start, s.windowMinutes) <= r.at
  {}

  lemma NothingEarlier(delay: int, w: World, s: Settings, start: Instant)
    requires LogOk(delay, w) && RowsOk(w) && Settled(w) && CutOk(w.store.chain, w.cut)
    requires w.run.Some? && Usable(s, delay)
    requires NextStart(w.store, s.windowMinutes) == Some(start) && Due(start, s, w.run.value)
    ensures forall r :: r in w.log ==> FirstOr(w.store.chain, start) <= r.at
  {
    if w.store.chain == [] {
      PendingAfter(delay, w, s, start);
      FirstStartOnGrid(EarliestAt(w.store.rows), s.windowMinutes);
      forall r | r in w.log
        ensures start <= r.at
      {
        assert r in w.pending || r in w.store.rows;
      }
    }
  }

  /** When a window is due, every row it will ever hold is there. */
  lemma DueWindowComplete(delay: int, w: World, s: Settings, start: Instant)
    requires LogOk(delay, w) && RowsOk(w) && Settled(w) && Linked(w.store.chain) && CutOk(w.store.chain, w.cut)
    requires w.run.Some? && Usable(s, delay)
    requires NextStart(w.store, s.windowMinutes) == Some(start) && Due(start, s, w.run.value)
    ensures var end := WindowEnd(start, s.windowMinutes);
            Window(w.store.rows, start, end) == Window(w.log, start, end)
    ensures w.cut.Cut? ==> w.cut.at <= start
  {
    PendingAfter(delay, w, s, start);
    if w.cut.Cut? {
      CutBeforeNext(w.store.chain, w.cut);
    }
  }

  /** The window a seal appends: contiguous, inside one day, no longer than the setting, past its grace. */
  lemma SealedWindow(site: Site, st: Store, s: Settings, start: Instant, c: Checkpoint, now: Instant)
    requires ValidSettings(s) && DistinctKeys(st.rows) && NextStart(st, s.windowMinutes) == Some(start)
    requires st.chain != [] ==> OnMinute(st.chain[|st.chain| - 1].end)
    requires c == Drafted(site, st, s, start, c.days, c.hold) && Due(start, s, now)
    ensures c.start == start < c.end <= start + Span(s.windowMinutes)
    ensures c.end % Span(s.windowMinutes) == 0 && InOneDay(c)
    ensures c.end + s.graceMinutes * MINUTE <= now
    ensures c.prevHash == LastHash(st.chain)
    ensures RowsIntact(site.p, st.rows, c)
  {
    WindowEndOnGrid(start, s.windowMinutes);
    if st.chain == [] {
      FirstStartOnGrid(EarliestAt(st.rows), s.windowMinutes);
    }
  }

  lemma SealOneShape(site: Site, st: Store, s: Settings, now: Instant) returns (c: Checkpoint)
    requires ValidSettings(s) && DistinctKeys(st.rows) && SealOne(site, st, s, now).Sealed?
    requires st.chain != [] ==> OnMinute(st.chain[|st.chain| - 1].end)
    ensures SealOne(site, st, s, now).store.chain == st.chain + [c] && SealOne(site, st, s, now).store.rows == st.rows
    ensures NextStart(st, s.windowMinutes) == Some(c.start) && c.end == WindowEnd(c.start, s.windowMinutes)
    ensures Due(c.start, s, now)
    ensures c.start < c.end <= c.start + Span(s.windowMinutes) && c.end % Span(s.windowMinutes) == 0 && InOneDay(c)
    ensures c.end + s.graceMinutes * MINUTE <= now
    ensures c.prevHash == LastHash(st.chain)
    ensures RowsIntact(site.p, st.rows, c) && SignedBy(site, c, s.key)
  {
    var start := NextStart(st, s.windowMinutes).value;
    c := CopyOut(site, st, s, start).c;
    CopyOutShape(site, st, s, start);
    SealedWindow(site, st, s, start, c, now);
  }

  lemma SameWindowSameDigest(p: Primitives, rows: set<Row>, log: set<Row>, c: Checkpoint)
    requires DistinctKeys(rows) && DistinctKeys(log) && RowsIntact(p, rows, c)
    requires Window(rows, c.start, c.end) == Window(log, c.start, c.end)
    ensures RowsIntact(p, log, c)
  {}

  lemma TiledSnoc(chain: seq<Checkpoint>, c: Checkpoint)
    requires Tiled(chain) && c.start < c.end && c.prevHash == LastHash(chain) && InOneDay(c)
    requires chain != [] ==> c.start == chain[|chain| - 1].end
    ensures Tiled(chain + [c])
  {
    LinkedSnoc(chain, c);
  }

  lemma FaithfulSnoc(p: Primitives, log: set<Row>, chain: seq<Checkpoint>, c: Checkpoint)
    requires DistinctKeys(log) && Faithful(p, log, chain) && RowsIntact(p, log, c)
    ensures Faithful(p, log, chain + [c])
  {
    assert (chain + [c])[..|chain + [c]| - 1] == chain;
  }

  lemma SettledSnoc(w: World, w': World, c: Checkpoint)
    requires Settled(w) && w.run.Some? && c.end <= w.run.value
    requires w' == w.(store := w'.store, keys := w'.keys) && w'.store.chain == w.store.chain + [c]
    requires forall r :: r in w.pending ==> c.end <= r.at
    requires forall r :: r in w.log ==> FirstOr(w.store.chain, c.start) <= r.at
    ensures Settled(w')
  {}

  lemma CutSnoc(chain: seq<Checkpoint>, cut: Cut, c: Checkpoint)
    requires CutOk(chain, cut) && (cut.Cut? ==> cut.at <= c.start)
    ensures CutOk(chain + [c], cut)
  {}

  lemma LastOnMinute(chain: seq<Checkpoint>)
    requires Tiled(chain)
    ensures chain != [] ==> OnMinute(chain[|chain| - 1].end)
  {
    if chain != [] {
      assert InOneDay(chain[|chain| - 1]);
    }
  }

  /** The world's half of the invariant after a seal. */
  lemma SealWorld(delay: int, w: World, s: Settings, c: Checkpoint, w': World)
    requires LogOk(delay, w) && RowsOk(w) && Settled(w) && Linked(w.store.chain) && CutOk(w.store.chain, w.cut)
    requires w.run.Some? && Usable(s, delay) && c.end <= w.run.value
    requires NextStart(w.store, s.windowMinutes) == Some(c.start) && Due(c.start, s, w.run.value)
    requires c.end == WindowEnd(c.start, s.windowMinutes)
    requires w' == w.(store := w'.store, keys := w'.keys)
    requires w'.store.rows == w.store.rows && w'.store.chain == w.store.chain + [c]
    ensures LogOk(delay, w') && RowsOk(w') && Settled(w') && CutOk(w'.store.chain, w'.cut)
    ensures Window(w.store.rows, c.start, c.end) == Window(w.log, c.start, c.end)
  {
    DueWindowComplete(delay, w, s, c.start);
    PendingAfter(delay, w, s, c.start);
    NothingEarlier(delay, w, s, c.start);
    SettledSnoc(w, w', c);
    CutSnoc(w.store.chain, w.cut, c);
  }

  /** The chain's half. */
  lemma SealChain(site: Site, log: set<Row>, chain: seq<Checkpoint>, keys: seq<Option<Key>>, c: Checkpoint, key: Option<Key>)
    requires DistinctKeys(log) && Tiled(chain) && Faithful(site.p, log, chain) && Signed(site, chain, keys)
    requires c.start < c.end && c.prevHash == LastHash(chain) && InOneDay(c)
    requires chain != [] ==> c.start == chain[|chain| - 1].end
    requires RowsIntact(site.p, log, c) && SignedBy(site, c, key)
    ensures Tiled(chain + [c]) && Faithful(site.p, log, chain + [c]) && Signed(site, chain + [c], keys + [key])
  {
    TiledSnoc(chain, c);
    FaithfulSnoc(site.p, log, chain, c);
  }

  lemma SealKeeps(site: Site, delay: int, w: World, s: Settings, w': World)
    requires Inv(site, delay, w) && DistinctKeys(w.store.rows) && Next(site, delay, w, SealWindow(s), w')
    ensures Inv(site, delay, w')
  {
    if SealOne(site, w.store, s, w.run.value).Sealed? {
      LastOnMinute(w.store.chain);
      var c := SealOneShape(site, w.store, s, w.run.value);
      SealWorld(delay, w, s, c, w');
      SameWindowSameDigest(site.p, w.store.rows, w.log, c);
      SealChain(site, w.log, w.store.chain, w.keys, c, s.key);
    }
  }

  // ---- The other steps ----

  lemma TickKeeps(site: Site, delay: int, w: World, to: Instant, w': World)
    requires Inv(site, delay, w) && DistinctKeys(w.store.rows) && Next(site, delay, w, Tick(to), w')
    ensures Inv(site, delay, w')
  {}

  lemma StageKeeps(site: Site, delay: int, w: World, row: Row, w': World)
    requires Inv(site, delay, w) && DistinctKeys(w.store.rows) && Next(site, delay, w, Stage(row), w')
    ensures Inv(site, delay, w')
  {
    StageLog(delay, w, row, w');
    StageSettled(w, row, w');
    AllBeforeLast(w.store.chain, w.now);
    LaterRowsKeepDigests(site.p, w.log, {row}, w.store.chain);
  }

  lemma StageLog(delay: int, w: World, row: Row, w': World)
    requires LogOk(delay, w) && RowsOk(w) && row.at == w.now && FreshKey(w.log, row)
    requires w' == w.(log := w.log + {row}, pending := w.pending + {row})
    ensures LogOk(delay, w') && RowsOk(w')
  {
    assert row !in w.log;
  }

  lemma StageSettled(w: World, row: Row, w': World)
    requires Linked(w.store.chain) && Settled(w) && row.at == w.now
    requires w' == w.(log := w.log + {row}, pending := w.pending + {row})
    ensures Settled(w')
  {
    if w.store.chain != [] {
      LinkedFirst(w.store.chain);
    }
  }

  lemma PublishKeeps(site: Site, delay: int, w: World, row: Row, w': World)
    requires Inv(site, delay, w) && DistinctKeys(w.store.rows) && Next(site, delay, w, Publish(row), w')
    ensures Inv(site, delay, w')
  {
    if w.cut.Cut? {
      CutBeforeNext(w.store.chain, w.cut);
    }
    assert Survives(w.cut, row);
  }

  /** Starting, ending or crashing a run, and writing only the sink, touch neither rows nor checkpoints. */
  lemma RunMarkKeeps(site: Site, delay: int, w: World, w': World)
    requires Inv(site, delay, w)
    requires w' == w.(run := w'.run, store := w.store.(sink := w'.store.sink))
    requires w'.run == None || w'.run == Some(w.now)
    ensures Inv(site, delay, w')
  {}

  /** Records a prune leaves behind: at most one row, stamped no earlier than the run. */
  ghost predicate Records(w: World, records: set<Row>) {
    && w.run.Some?
    && (forall r :: r in records ==> w.run.value <= r.at <= w.now && FreshKey(w.log, r))
    && (forall r, q :: r in records && q in records ==> r == q)
  }

  lemma PruneRowsOk(w: World, cut: Instant, records: set<Row>)
    requires RowsOk(w) && w.pending <= w.log && Records(w, records)
    requires forall r :: r in records ==> Survives(w.cut, r) && cut <= r.at
    requires w.store.chain != []
    ensures RowsOk(Pruned(w, cut, records))
  {
    assert forall r :: r in records ==> r !in w.log;
  }

  lemma PruneLog(delay: int, w: World, cut: Instant, records: set<Row>)
    requires LogOk(delay, w) && Records(w, records)
    ensures LogOk(delay, Pruned(w, cut, records))
  {}

  lemma PruneSettled(w: World, cut: Instant, records: set<Row>)
    requires Settled(w) && Linked(w.store.chain) && w.store.chain != [] && Records(w, records)
    ensures Settled(Pruned(w, cut, records))
  {
    LinkedFirst(w.store.chain);
  }

  lemma PruneCutOk(chain: seq<Checkpoint>, before: Cut, cut: Instant)
    requires CutOk(chain, before)
    requires chain != [] && Reaches(chain[|chain| - 1], cut) && WholeWindows(chain, cut)
    ensures CutOk(chain, NewCut(chain, before, cut))
  {}

  /** Pruning at a cut that a checkpoint allows and that splits no window. */
  lemma PruneKeeps(site: Site, delay: int, w: World, cut: Instant, records: set<Row>)
    requires Inv(site, delay, w) && Records(w, records)
    requires w.store.chain != [] && Reaches(w.store.chain[|w.store.chain| - 1], cut) && WholeWindows(w.store.chain, cut)
    ensures Inv(site, delay, Pruned(w, cut, records))
  {
    PruneLog(delay, w, cut, records);
    PruneSettled(w, cut, records);
    PruneCutOk(w.store.chain, w.cut, cut);
    RecordsSurvive(w, cut, records);
    PruneRowsOk(w, cut, records);
    RecordsAfterChain(w, records);
    LaterRowsKeepDigests(site.p, w.log, records, w.store.chain);
  }

  lemma RecordsAfterChain(w: World, records: set<Row>)
    requires Settled(w) && Linked(w.store.chain) && Records(w, records)
    ensures forall r, i :: r in records && 0 <= i < |w.store.chain| ==> w.store.chain[i].end <= r.at
  {
    AllBeforeLast(w.store.chain, w.run.value);
  }

  lemma RecordsSurvive(w: World, cut: Instant, records: set<Row>)
    requires Settled(w) && Linked(w.store.chain) && CutOk(w.store.chain, w.cut) && Records(w, records)
    requires w.store.chain != [] && Reaches(w.store.chain[|w.store.chain| - 1], cut) && WholeWindows(w.store.chain, cut)
    ensures forall r :: r in records ==> Survives(w.cut, r) && cut <= r.at
  {
    CutBeforeNext(w.store.chain, Cut(cut, |w.store.chain| - 1));
    if w.cut.Cut? {
      CutBeforeNext(w.store.chain, w.cut);
    }
  }

  lemma PartitionCutOk(chain: seq<Checkpoint>, s: Settings, now: Instant, databaseNow: Instant, bakedFloor: int)
    requires Tiled(chain) && PartitionCut(chain, s, now, databaseNow, bakedFloor).Some?
    ensures var cut := PartitionCut(chain, s, now, databaseNow, bakedFloor).value;
            chain != [] && Reaches(chain[|chain| - 1], cut) && WholeWindows(chain, cut)
  {
    var cutoff := RetentionCutoff(chain, s, now).value;
    var clamped := Min(cutoff, databaseNow - s.floorDays * DAY);
    DivBounds(clamped, DAY);
    forall i | 0 <= i < |chain|
      ensures chain[i].end <= Midnight(clamped) || Midnight(clamped) <= chain[i].start
    {
      assert InOneDay(chain[i]);
      MidnightOutside(chain[i].start, chain[i].end, clamped);
    }
  }

  lemma {:induction false} SealedStartFound(chain: seq<Checkpoint>, t: Instant) returns (k: nat)
    requires SealedStart(chain, t).Some?
    ensures k < |chain| && chain[k].start == SealedStart(chain, t).value <= t < chain[k].end
  {
    if chain[0].start <= t < chain[0].end {
      k := 0;
    } else {
      k := SealedStartFound(chain[1..], t);
      k := k + 1;
    }
  }

  lemma DeleteCutOk(chain: seq<Checkpoint>, s: Settings, now: Instant)
    requires Tiled(chain) && DeleteCut(chain, s, now).Some?
    ensures var cut := DeleteCut(chain, s, now).value;
            chain != [] && Reaches(chain[|chain| - 1], cut) && WholeWindows(chain, cut)
  {
    var k := SealedStartFound(chain, RetentionCutoff(chain, s, now).value);
    forall i | 0 <= i < |chain|
      ensures chain[i].end <= chain[k].start || chain[k].start <= chain[i].start
    {
      if i < k {
        LinkedOrder(chain, i, k);
      } else if k < i {
        LinkedOrder(chain, k, i);
      }
    }
  }

  lemma DropKeeps(site: Site, delay: int, w: World, step: Step, w': World)
    requires Inv(site, delay, w) && DistinctKeys(w.store.rows) && step.DropPartitions? && Next(site, delay, w, step, w')
    ensures Inv(site, delay, w')
  {
    if w' != w {
      PartitionCutOk(w.store.chain, step.s, w.run.value, step.databaseNow, step.bakedFloor);
      PruneKeeps(site, delay, w, PartitionCut(w.store.chain, step.s, w.run.value, step.databaseNow, step.bakedFloor).value,
                 if step.dropRecord.Some? then {step.dropRecord.value} else {});
    }
  }

  lemma DeleteKeeps(site: Site, delay: int, w: World, step: Step, w': World)
    requires Inv(site, delay, w) && DistinctKeys(w.store.rows) && step.DeleteRows? && Next(site, delay, w, step, w')
    ensures Inv(site, delay, w')
  {
    if w' != w {
      DeleteCutOk(w.store.chain, step.s, w.run.value);
      PruneKeeps(site, delay, w, DeleteCut(w.store.chain, step.s, w.run.value).value, {step.record});
    }
  }

  /** Every step keeps the invariant. */
  lemma StepKeeps(site: Site, delay: int, w: World, step: Step, w': World)
    requires Inv(site, delay, w) && DistinctKeys(w.store.rows) && Next(site, delay, w, step, w')
    ensures Inv(site, delay, w')
  {
    match step
    case Tick(to) => TickKeeps(site, delay, w, to, w');
    case Stage(row) => StageKeeps(site, delay, w, row, w');
    case Publish(row) => PublishKeeps(site, delay, w, row, w');
    case BeginRun => RunMarkKeeps(site, delay, w, w');
    case EndRun => RunMarkKeeps(site, delay, w, w');
    case SealWindow(s) => SealKeeps(site, delay, w, s, w');
    case CrashAfterCopy(s) => RunMarkKeeps(site, delay, w, w');
    case DropPartitions(_, _, _, _) => DropKeeps(site, delay, w, step, w');
    case DeleteRows(_, _) => DeleteKeeps(site, delay, w, step, w');
  }
}
