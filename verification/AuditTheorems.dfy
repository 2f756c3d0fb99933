/** What holds of every execution of the audit log. */
module AuditTheorems {
  import opened Wrappers
  import opened AuditTime
  import opened AuditLog
  import opened AuditChain
  import opened AuditVerify
  import opened AuditEvidence
  import opened AuditTamper
  import opened AuditStore
  import opened AuditRuns

  ghost predicate Execution(site: Site, delay: int, ws: seq<World>, steps: seq<Step>) {
    && 0 <= delay && |ws| == |steps| + 1 && Initial(ws[0])
    && forall i :: 0 <= i < |steps| ==>
         DistinctKeys(ws[i].store.rows) && Next(site, delay, ws[i], steps[i], ws[i + 1])
  }

  lemma {:induction false} ReachableInv(site: Site, delay: int, ws: seq<World>, steps: seq<Step>, i: nat)
    requires Execution(site, delay, ws, steps) && i < |ws|
    ensures Inv(site, delay, ws[i]) && DistinctKeys(ws[i].store.rows)
  {
    if i > 0 {
      ReachableInv(site, delay, ws, steps, i - 1);
      StepKeeps(site, delay, ws[i - 1], steps[i - 1], ws[i]);
    }
    RowsDistinct(delay, ws[i]);
  }

  function TableOf(site: Site, w: World): Table {
    Table(w.store.rows, w.store.chain, site.instance)
  }

  /** The verifying keys include every key the log was signed with. */
  ghost predicate Covers(site: Site, w: World, keys: Option<Verifiers>) {
    keys.Some? ==>
      && keys.value != map[]
      && forall k :: k in w.keys ==>
           k.Some? && site.p.keyId(k.value) in keys.value && keys.value[site.p.keyId(k.value)] == k.value
  }

  function VerifiersOf(keys: Option<Verifiers>): Verifiers {
    if keys.Some? then keys.value else map[]
  }

  lemma SignaturesVerify(site: Site, w: World, keys: Option<Verifiers>, i: nat)
    requires Signed(site, w.store.chain, w.keys) && Covers(site, w, keys) && keys.Some? && i < |w.store.chain|
    ensures SignatureOk(site.p, keys.value, w.store.chain[i], site.instance)
  {
    assert SignedBy(site, w.store.chain[i], w.keys[i]);
    assert w.keys[i] in w.keys;
  }

  /** The horizon verification computes reaches every prune that was made. */
  lemma HorizonReachesCut(site: Site, w: World, keys: Option<Verifiers>)
    requires Signed(site, w.store.chain, w.keys) && Covers(site, w, keys)
    requires CutOk(w.store.chain, w.cut) && w.cut.Cut?
    ensures var h := PruningHorizon(site.p, VerifiersOf(keys), w.store.chain, site.instance);
            h.Some? && w.cut.at <= h.value
  {
    if keys.Some? {
      SignaturesVerify(site, w, keys, w.cut.under);
    }
    PruningHorizonBounds(site.p, VerifiersOf(keys), w.store.chain, site.instance, w.cut.under);
  }

  lemma WindowOfLog(delay: int, w: World, i: nat)
    requires LogOk(delay, w) && RowsOk(w) && Settled(w) && Linked(w.store.chain) && CutOk(w.store.chain, w.cut)
    requires i < |w.store.chain|
    ensures var c := w.store.chain[i];
            if w.cut.Cut? && c.end <= w.cut.at then Window(w.store.rows, c.start, c.end) == {}
            else Window(w.store.rows, c.start, c.end) == Window(w.log, c.start, c.end)
  {
    var c, end := w.store.chain[i], w.store.chain[|w.store.chain| - 1].end;
    AllBeforeLast(w.store.chain, end);
    assert forall r :: r in w.pending ==> c.end <= r.at;
    assert w.cut.Cut? ==> c.end <= w.cut.at || w.cut.at <= c.start;
  }

  lemma CountOfLog(p: Primitives, log: set<Row>, c: Checkpoint)
    requires DistinctKeys(log) && RowsIntact(p, log, c)
    ensures c.rowCount == |Window(log, c.start, c.end)|
  {}

  /** Every checkpoint of a reachable log is accepted: its rows are intact, or gone by a prune it can excuse. */
  lemma CheckpointAccepted(site: Site, delay: int, w: World, keys: Option<Verifiers>, i: nat)
    requires Inv(site, delay, w) && DistinctKeys(w.store.rows) && Covers(site, w, keys) && i < |w.store.chain|
    ensures Accepted(site.p, TableOf(site, w), VerifiersOf(keys), w.store.chain[i])
  {
    var c := w.store.chain[i];
    FaithfulAt(site.p, w.log, w.store.chain, i);
    WindowOfLog(delay, w, i);
    CountOfLog(site.p, w.log, c);
    if keys.Some? {
      SignaturesVerify(site, w, keys, i);
    }
    if w.cut.Cut? && c.end <= w.cut.at && c.rowCount > 0 {
      HorizonReachesCut(site, w, keys);
    } else {
      assert Window(w.store.rows, c.start, c.end) == Window(w.log, c.start, c.end);
      SameWindowSameDigest(site.p, w.log, w.store.rows, c);
    }
  }

  lemma {:induction false} FindingListed(p: Primitives, t: Table, a: nat, b: nat, i: nat, verifiers: Verifiers,
                                         horizon: Option<Instant>)
    requires DistinctKeys(t.rows) && a <= i < b <= |t.chain|
    ensures var c := t.chain[i];
            var previous := if i == 0 then None else Some(t.chain[i - 1]);
            var first := if a == 0 then None else Some(t.chain[a - 1]);
            CheckWindow(p, WindowDigest(p, t.rows, c.start, c.end, c.prevHash), c, previous, verifiers, t.instance, horizon)
            in CheckWindows(p, t, t.chain[a..b], first, verifiers, horizon)
    decreases b - a
  {
    var first := if a == 0 then None else Some(t.chain[a - 1]);
    var head := WindowFindings(p, t, t.chain[a], first, verifiers, horizon);
    var tail := CheckWindows(p, t, t.chain[a + 1..b], Some(t.chain[a]), verifiers, horizon);
    assert t.chain[a..b][0] == t.chain[a] && t.chain[a..b][1..] == t.chain[a + 1..b];
    assert CheckWindows(p, t, t.chain[a..b], first, verifiers, horizon) == head + tail;
    if a < i {
      FindingListed(p, t, a + 1, b, i, verifiers, horizon);
    } else {
      assert head[|head| - 1] in head;
    }
  }

  /** A finding that reports window `c` as fine, and as pruned exactly when its rows are gone. */
  ghost predicate Reported(findings: seq<Finding>, rows: set<Row>, c: Checkpoint) {
    exists f :: f in findings && f.start == c.start && f.end == c.end && f.status == Fine
                && (f.pruned <==> Window(rows, c.start, c.end) == {} && c.rowCount > 0)
  }

  lemma WindowReported(site: Site, delay: int, w: World, keys: Option<Verifiers>, from: Instant, to: Instant, i: nat)
    requires Inv(site, delay, w) && DistinctKeys(w.store.rows) && Covers(site, w, keys)
    requires i < |w.store.chain| && Inside(w.store.chain[i], from, to)
    requires AllFine(Findings(site.p, TableOf(site, w), VerifiersOf(keys), from, to))
    ensures Reported(Findings(site.p, TableOf(site, w), VerifiersOf(keys), from, to), w.store.rows, w.store.chain[i])
  {
    var t, v, c := TableOf(site, w), VerifiersOf(keys), w.store.chain[i];
    var h := PruningHorizon(site.p, v, t.chain, t.instance);
    var a, b := RangeIsSlice(t.chain, from, to);
    IndexInSlice(t.chain, a, b, i, from, to);
    FindingListed(site.p, t, a, b, i, v, h);
    var digest := WindowDigest(site.p, t.rows, c.start, c.end, c.prevHash);
    var f := CheckWindow(site.p, digest, c, if i == 0 then None else Some(t.chain[i - 1]), v, t.instance, h);
    assert f in Findings(site.p, t, v, from, to);
    CheckpointAccepted(site, delay, w, keys, i);
    assert f.pruned <==> Window(t.rows, c.start, c.end) == {} && c.rowCount > 0;
  }

  /** A window inside the range is one of the selected ones. */
  lemma IndexInSlice(chain: seq<Checkpoint>, a: nat, b: nat, i: nat, from: Instant, to: Instant)
    requires Linked(chain) && a <= b <= |chain| && i < |chain| && Inside(chain[i], from, to)
    requires Selected(chain, from, to) == chain[a..b]
    ensures a <= i < b
  {
    SelectedHas(chain, i, from, to);
    var k :| 0 <= k < |chain[a..b]| && chain[a..b][k] == chain[i];
    var j := a + k;
    assert chain[j] == chain[i];
    if i < j {
      LinkedOrder(chain, i, j);
    } else if j < i {
      LinkedOrder(chain, j, i);
    }
  }

  lemma {:induction false} SelectedHas(chain: seq<Checkpoint>, i: nat, from: Instant, to: Instant)
    requires i < |chain| && Inside(chain[i], from, to)
    ensures chain[i] in Selected(chain, from, to)
  {
    if i > 0 {
      SelectedHas(chain[1..], i - 1, from, to);
    }
  }

  /** No false alarms. In every execution, with any settings changes, crashes and completed prunes, verifying any
      range finds nothing wrong, and each window in the range is reported: as pruned exactly when its rows are gone. */
  lemma NoFalseAlarms(site: Site, delay: int, ws: seq<World>, steps: seq<Step>, keys: Option<Verifiers>,
                      from: Instant, to: Instant)
    requires Execution(site, delay, ws, steps)
    requires from <= to && to - from <= MAX_VERIFY_RANGE
    requires Covers(site, ws[|steps|], keys)
    ensures var w := ws[|steps|];
            && DistinctKeys(w.store.rows)
            && var report := Verify(site.p, TableOf(site, w), keys, from, to);
               && report.Report? && report.ok
               && forall i :: 0 <= i < |w.store.chain| && Inside(w.store.chain[i], from, to) ==>
                    Reported(report.findings, w.store.rows, w.store.chain[i])
  {
    var w := ws[|steps|];
    ReachableInv(site, delay, ws, steps, |steps|);
    forall i | 0 <= i < |w.store.chain|
      ensures Accepted(site.p, TableOf(site, w), VerifiersOf(keys), w.store.chain[i])
    {
      CheckpointAccepted(site, delay, w, keys, i);
    }
    IntactLogPasses(site.p, TableOf(site, w), keys, from, to);
    forall i | 0 <= i < |w.store.chain| && Inside(w.store.chain[i], from, to)
      ensures Reported(Verify(site.p, TableOf(site, w), keys, from, to).findings, w.store.rows, w.store.chain[i])
    {
      WindowReported(site, delay, w, keys, from, to, i);
    }
  }

  /** Retention removes no row that was never sealed: every committed row that is gone lies in a sealed window. */
  lemma PrunedRowsWereSealed(site: Site, delay: int, ws: seq<World>, steps: seq<Step>, r: Row)
    requires Execution(site, delay, ws, steps)
    requires var w := ws[|steps|]; r in w.log && r !in w.pending && r !in w.store.rows
    ensures exists i :: 0 <= i < |ws[|steps|].store.chain|
                     && ws[|steps|].store.chain[i].start <= r.at < ws[|steps|].store.chain[i].end
  {
    var w := ws[|steps|];
    ReachableInv(site, delay, ws, steps, |steps|);
    CutBeforeNext(w.store.chain, w.cut);
    InSomeWindow(w.store.chain, r.at);
  }

  lemma {:induction false} InSomeWindow(chain: seq<Checkpoint>, t: Instant)
    requires Linked(chain) && chain != [] && chain[0].start <= t < chain[|chain| - 1].end
    ensures exists i :: 0 <= i < |chain| && chain[i].start <= t < chain[i].end
  {
    var n := |chain| - 1;
    if t < chain[n].start {
      var shorter := chain[..n];
      InSomeWindow(shorter, t);
      var i :| 0 <= i < |shorter| && shorter[i].start <= t < shorter[i].end;
      assert chain[i] == shorter[i];
    }
  }

  // ---- Retention ----

  /** Of the windows back to back, some one holds the limit of what is old enough. */
  lemma {:induction false} WindowAtLimit(chain: seq<Checkpoint>, s: Settings, now: Instant, k: nat) returns (m: nat)
    requires Linked(chain) && k < |chain| && OldEnough(chain, s, now, chain[k].end) && !OldEnough(chain, s, now, chain[|chain| - 1].end)
    ensures k < m < |chain| && OldEnough(chain, s, now, chain[m].start) && !OldEnough(chain, s, now, chain[m].end)
    decreases |chain| - k
  {
    if OldEnough(chain, s, now, chain[k + 1].end) {
      m := WindowAtLimit(chain, s, now, k + 1);
    } else {
      m := k + 1;
    }
  }

  /** Where a DELETE cuts: at the start of the one window that is only partly old enough. */
  lemma {:induction false} DeleteTakesWholeWindows(chain: seq<Checkpoint>, s: Settings, now: Instant, k: nat)
    requires Linked(chain) && Permitted(chain, s) && k < |chain| && OldEnough(chain, s, now, chain[k].end)
    ensures DeleteCut(chain, s, now).Some? && chain[k].end <= DeleteCut(chain, s, now).value
  {
    DeleteCutLaw(chain, s, now);
    var m := WindowAtLimit(chain, s, now, k);
    var cut := DeleteCut(chain, s, now).value;
    var i :| 0 <= i < |chain| && cut == chain[i].start && !OldEnough(chain, s, now, chain[i].end);
    if i < k {
      LinkedOrder(chain, i, k);
    } else if k < i {
      LinkedOrder(chain, k, i);
    }
  }

  ghost predicate Prunes(step: Step) {
    step.DropPartitions? || step.DeleteRows?
  }

  /** Retention does what the settings say, in every execution. Under a legal hold, with retention off, or when the
      newest checkpoint does not allow it, a prune changes nothing; what it takes is old enough, both under the settings
      in force and under what the newest checkpoint recorded, and beyond the database's floor on the partition path. */
  lemma RetentionObeysSettings(site: Site, delay: int, ws: seq<World>, steps: seq<Step>, i: nat, r: Row)
    requires Execution(site, delay, ws, steps) && i < |steps| && Prunes(steps[i])
    ensures ws[i].run.Some?
    ensures !Permitted(ws[i].store.chain, steps[i].s) ==> ws[i + 1] == ws[i]
    ensures r in ws[i].store.rows && r !in ws[i + 1].store.rows ==>
              && OldEnough(ws[i].store.chain, steps[i].s, ws[i].run.value, r.at + 1)
              && (steps[i].DropPartitions? ==> r.at + steps[i].s.floorDays * DAY < steps[i].databaseNow)
  {
    OneStepOf(site, delay, ws, steps, i);
    var w, s := ws[i], steps[i].s;
    if steps[i].DropPartitions? {
      PartitionCutLaw(w.store.chain, s, w.run.value, steps[i].databaseNow, steps[i].bakedFloor);
    } else {
      DeleteCutLaw(w.store.chain, s, w.run.value);
    }
  }

  lemma OneStepOf(site: Site, delay: int, ws: seq<World>, steps: seq<Step>, i: nat)
    requires Execution(site, delay, ws, steps) && i < |steps|
    ensures DistinctKeys(ws[i].store.rows) && Next(site, delay, ws[i], steps[i], ws[i + 1])
  {}

  /** No row is pruned without a record of the prune, which is in the table and was not before. */
  lemma PrunesAreRecorded(site: Site, delay: int, ws: seq<World>, steps: seq<Step>, i: nat, gone: Row)
    requires Execution(site, delay, ws, steps) && i < |steps| && Prunes(steps[i])
    requires gone in ws[i].store.rows && gone !in ws[i + 1].store.rows
    ensures RecordedIn(ws[i], ws[i + 1])
  {
    OneStepOf(site, delay, ws, steps, i);
    ReachableInv(site, delay, ws, steps, i);
    if steps[i].DropPartitions? {
      DropRecorded(site, delay, ws[i], steps[i], ws[i + 1], gone);
    } else {
      DeleteRecorded(site, delay, ws[i], steps[i], ws[i + 1], gone);
    }
  }

  ghost predicate RecordedIn(w: World, w': World) {
    exists r :: r in w'.store.rows && r !in w.store.rows && (r.at == w.now || w.run == Some(r.at))
  }

  lemma DropRecorded(site: Site, delay: int, w: World, step: Step, w': World, gone: Row)
    requires Inv(site, delay, w) && DistinctKeys(w.store.rows) && Next(site, delay, w, step, w') && step.DropPartitions?
    requires gone in w.store.rows && gone !in w'.store.rows
    ensures RecordedIn(w, w')
  {
    var r := step.dropRecord.value;
    PartitionCutOk(w.store.chain, step.s, w.run.value, step.databaseNow, step.bakedFloor);
    RecordsSurvive(w, PartitionCut(w.store.chain, step.s, w.run.value, step.databaseNow, step.bakedFloor).value, {r});
    assert r in w'.store.rows && r !in w.store.rows;
  }

  lemma DeleteRecorded(site: Site, delay: int, w: World, step: Step, w': World, gone: Row)
    requires Inv(site, delay, w) && DistinctKeys(w.store.rows) && Next(site, delay, w, step, w') && step.DeleteRows?
    requires gone in w.store.rows && gone !in w'.store.rows
    ensures RecordedIn(w, w')
  {
    DeleteCutOk(w.store.chain, step.s, w.run.value);
    RecordsSurvive(w, DeleteCut(w.store.chain, step.s, w.run.value).value, {step.record});
    assert step.record in w'.store.rows && step.record !in w.store.rows;
  }

  /** And it takes all it should. After a permitted DELETE no row is left of any sealed window that is old enough, */
  lemma RowPruneIsComplete(site: Site, delay: int, ws: seq<World>, steps: seq<Step>, i: nat, r: Row, k: nat)
    requires Execution(site, delay, ws, steps) && i < |steps| && steps[i].DeleteRows?
    requires Permitted(ws[i].store.chain, steps[i].s) && r in ws[i].store.rows && r in ws[i + 1].store.rows
    ensures ws[i].run.Some?
    ensures k < |ws[i].store.chain| && OldEnough(ws[i].store.chain, steps[i].s, ws[i].run.value, ws[i].store.chain[k].end)
            ==> ws[i].store.chain[k].end <= r.at
  {
    OneStepOf(site, delay, ws, steps, i);
    ReachableInv(site, delay, ws, steps, i);
    DeleteIsComplete(site, delay, ws[i], steps[i], ws[i + 1], r);
  }

  /** and after a permitted partition drop none of any day that is, which the routine's floor refuses only when it is
      higher than the one in the settings. */
  lemma PartitionPruneIsComplete(site: Site, delay: int, ws: seq<World>, steps: seq<Step>, i: nat, r: Row)
    requires Execution(site, delay, ws, steps) && i < |steps| && steps[i].DropPartitions?
    requires Permitted(ws[i].store.chain, steps[i].s) && r in ws[i].store.rows && r in ws[i + 1].store.rows
    requires steps[i].bakedFloor <= steps[i].s.floorDays
    ensures ws[i].run.Some?
    ensures !(OldEnough(ws[i].store.chain, steps[i].s, ws[i].run.value, Midnight(r.at) + DAY)
              && Midnight(r.at) + DAY + steps[i].s.floorDays * DAY <= steps[i].databaseNow)
  {
    OneStepOf(site, delay, ws, steps, i);
    DropIsComplete(site, delay, ws[i], steps[i], ws[i + 1], r);
  }

  lemma DropIsComplete(site: Site, delay: int, w: World, step: Step, w': World, r: Row)
    requires DistinctKeys(w.store.rows) && Next(site, delay, w, step, w') && step.DropPartitions?
    requires Permitted(w.store.chain, step.s) && r in w.store.rows && r in w'.store.rows && step.bakedFloor <= step.s.floorDays
    ensures !(OldEnough(w.store.chain, step.s, w.run.value, Midnight(r.at) + DAY)
              && Midnight(r.at) + DAY + step.s.floorDays * DAY <= step.databaseNow)
  {
    PartitionCutLaw(w.store.chain, step.s, w.run.value, step.databaseNow, step.bakedFloor);
    NextMidnight(r.at);
    NeverRefused(w.store.chain, step.s, w.run.value, step.databaseNow, step.bakedFloor);
    var cut := PartitionCut(w.store.chain, step.s, w.run.value, step.databaseNow, step.bakedFloor);
    assert cut.value <= r.at;
  }

  lemma NeverRefused(chain: seq<Checkpoint>, s: Settings, now: Instant, databaseNow: Instant, bakedFloor: int)
    requires Permitted(chain, s) && bakedFloor <= s.floorDays
    ensures PartitionCut(chain, s, now, databaseNow, bakedFloor).Some?
  {}

  lemma DeleteIsComplete(site: Site, delay: int, w: World, step: Step, w': World, r: Row)
    requires DistinctKeys(w.store.rows) && Linked(w.store.chain) && Next(site, delay, w, step, w') && step.DeleteRows?
    requires Permitted(w.store.chain, step.s) && r in w.store.rows && r in w'.store.rows
    ensures forall k :: 0 <= k < |w.store.chain| && OldEnough(w.store.chain, step.s, w.run.value, w.store.chain[k].end)
                        ==> w.store.chain[k].end <= r.at
  {
    var chain := w.store.chain;
    forall k | 0 <= k < |chain| && OldEnough(chain, step.s, w.run.value, chain[k].end)
      ensures chain[k].end <= r.at
    {
      DeleteTakesWholeWindows(chain, step.s, w.run.value, k);
      var cut := DeleteCut(chain, step.s, w.run.value).value;
      assert r in KeepFrom(w.store.rows, cut) || KeepFrom(w.store.rows, cut) != w.store.rows;
    }
  }

  // ---- What the chain stands for ----

  /** In every execution the sealed chain is genuine for the rows ever logged, pruned ones included, and ordered by
      start: it is what tampering is measured against. */
  lemma SealedIsGenuine(site: Site, delay: int, ws: seq<World>, steps: seq<Step>, i: nat)
    requires Execution(site, delay, ws, steps) && i < |ws|
    ensures DistinctKeys(ws[i].log) && ByStart(ws[i].store.chain)
    ensures Genuine(site.p, ws[i].store.chain, Present(ws[i].log, ws[i].store.chain))
  {
    ReachableInv(site, delay, ws, steps, i);
    var chain := ws[i].store.chain;
    forall k | 0 <= k < |chain|
      ensures Digests(site.p, chain[k], Present(ws[i].log, chain)[k])
    {
      FaithfulAt(site.p, ws[i].log, chain, k);
    }
    forall j, k | 0 <= j < k < |chain|
      ensures chain[j].start < chain[k].start
    {
      LinkedOrder(chain, j, k);
    }
  }

  // ---- Tiling ----

  /** Each seal of an execution appends a window that continues the chain, is no longer than the setting in force,
      ends on its grid, stays in one UTC day and is past its grace; the guard against a chain ahead of the clock
      never fires. */
  lemma WindowTiling(site: Site, delay: int, ws: seq<World>, steps: seq<Step>, i: nat)
    requires Execution(site, delay, ws, steps) && i < |steps|
    ensures Tiled(ws[i].store.chain)
    ensures ws[i].run.Some? ==> !ChainAhead(ws[i].store.chain, ws[i].run.value)
    ensures ws[i + 1].store.chain != ws[i].store.chain ==>
              && steps[i].SealWindow?
              && var s, before, after := steps[i].s, ws[i].store.chain, ws[i + 1].store.chain;
                 && |after| == |before| + 1 && after[..|before|] == before
                 && var c := after[|before|];
                    && (before != [] ==> c.start == before[|before| - 1].end)
                    && c.start < c.end <= c.start + Span(s.windowMinutes)
                    && c.end % Span(s.windowMinutes) == 0
                    && c.end <= Midnight(c.start) + DAY
                    && c.end + s.graceMinutes * MINUTE <= ws[i].run.value <= ws[i].now
  {
    ReachableInv(site, delay, ws, steps, i);
    if ws[i + 1].store.chain != ws[i].store.chain {
      OnlySealsGrow(site, delay, ws[i], steps[i], ws[i + 1]);
      LastOnMinute(ws[i].store.chain);
      var c := SealOneShape(site, ws[i].store, steps[i].s, ws[i].run.value);
      assert ws[i + 1].store.chain == ws[i].store.chain + [c];
    }
  }

  lemma OnlySealsGrow(site: Site, delay: int, w: World, step: Step, w': World)
    requires DistinctKeys(w.store.rows) && Next(site, delay, w, step, w') && w'.store.chain != w.store.chain
    ensures step.SealWindow? && w.run.Some? && ValidSettings(step.s)
    ensures SealOne(site, w.store, step.s, w.run.value) == Sealed(w'.store)
  {}
}
