/** The double write: the external copy before the database, across crashes and any change of settings. */
module AuditCrash {
  import opened Wrappers
  import opened AuditTime
  import opened AuditLog
  import opened AuditChain
  import opened AuditVerify
  import opened AuditEvidence
  import opened AuditStore
  import opened AuditRuns
  import opened AuditTheorems

  /** Every stored checkpoint has its copy. */
  ghost predicate Copied(site: Site, st: Store) {
    forall i :: 0 <= i < |st.chain| ==>
      var name := SinkName(st.chain[i].start, site.instance);
      name in st.sink && st.sink[name] == Copy(site.instance, st.chain[i])
  }

  ghost predicate NameSealed(site: Site, chain: seq<Checkpoint>, name: Name) {
    exists i :: 0 <= i < |chain| && name == SinkName(chain[i].start, site.instance)
  }

  /** A copy whose checkpoint could be the next one: its window starts where the next one does, nothing can still
      appear in it, and it digests the rows and names the link that are there now. */
  ghost predicate Pending(site: Site, w: World, c: Checkpoint)
    requires DistinctKeys(w.store.rows)
  {
    var st := w.store;
    && c.start < c.end <= w.now && (w.run.Some? ==> c.end <= w.run.value)
    && (forall r :: r in w.pending ==> c.end <= r.at)
    && (if st.chain == [] then st.rows != {} && c.start <= EarliestAt(st.rows) < c.end
        else c.start == st.chain[|st.chain| - 1].end)
    && c.prevHash == LastHash(st.chain)
    && WindowDigest(site.p, st.rows, c.start, c.end, c.prevHash) == Digest(c.rowCount, c.hash)
  }

  /** A copy the chain has gone past: no window starts there any more. */
  ghost predicate Passed(chain: seq<Checkpoint>, c: Checkpoint) {
    chain != [] && c.start < chain[|chain| - 1].end
  }

  /** A copy without its checkpoint, left by a run that died between the two writes. */
  ghost predicate Orphan(site: Site, w: World, name: Name)
    requires DistinctKeys(w.store.rows)
  {
    && name in w.store.sink && w.store.sink[name].Copy? && w.store.sink[name].instance == site.instance
    && var c := w.store.sink[name].c;
       OnMinute(c.start) && name == SinkName(c.start, site.instance) && (Passed(w.store.chain, c) || Pending(site, w, c))
  }

  ghost predicate SinkInv(site: Site, w: World)
    requires DistinctKeys(w.store.rows)
  {
    && Copied(site, w.store)
    && forall name :: name in w.store.sink ==> NameSealed(site, w.store.chain, name) || Orphan(site, w, name)
  }

  /** Window starts are whole minutes, so their names to the second are distinct. */
  lemma NamesDistinct(a: Instant, b: Instant, instance: string)
    requires OnMinute(a) && OnMinute(b) && a < b
    ensures SinkName(a, instance) != SinkName(b, instance)
  {
    assert a + MINUTE <= b;
    assert a / SECOND < b / SECOND;
  }

  lemma NextStartOnMinute(st: Store, minutes: int, start: Instant)
    requires ValidWindow(minutes) && Tiled(st.chain) && NextStart(st, minutes) == Some(start)
    ensures OnMinute(start)
  {
    LastOnMinute(st.chain);
    if st.chain == [] {
      FirstStartOnGrid(EarliestAt(st.rows), minutes);
    }
  }

  /** The next window's name is not the name of a sealed one. */
  lemma NextNameFree(site: Site, st: Store, minutes: int, start: Instant)
    requires ValidWindow(minutes) && Tiled(st.chain) && NextStart(st, minutes) == Some(start)
    ensures !NameSealed(site, st.chain, SinkName(start, site.instance))
  {
    NextStartOnMinute(st, minutes, start);
    forall i | 0 <= i < |st.chain|
      ensures SinkName(st.chain[i].start, site.instance) != SinkName(start, site.instance)
    {
      AllBeforeLast(st.chain, start);
      assert InOneDay(st.chain[i]);
      NamesDistinct(st.chain[i].start, start, site.instance);
    }
  }

  // ---- What the sink accepts ----

  /** What a taken name accepts: a checkpoint that, resealed under the copy's retention, is the copy. */
  lemma TakenNameAccepts(site: Site, sink: Sink, c: Checkpoint, stored: Checkpoint, key: Option<Key>)
    requires var name := SinkName(c.start, site.instance); name in sink && sink[name] == Copy(site.instance, stored)
    requires c == Sign(site, key, c)
    ensures CopyToSink(site, sink, c, key).Written? <==>
              stored == Sign(site, key, c.(days := stored.days, hold := stored.hold))
  {
    assert c == stored ==> c.(days := stored.days, hold := stored.hold) == c;
  }

  /** Where a window's name is taken at all, it is by the copy of a window that starts at the same instant. */
  lemma NextNameTaken(site: Site, w: World, minutes: int, start: Instant)
    requires DistinctKeys(w.store.rows) && SinkInv(site, w) && ValidWindow(minutes) && Tiled(w.store.chain)
    requires NextStart(w.store, minutes) == Some(start) && SinkName(start, site.instance) in w.store.sink
    ensures var name := SinkName(start, site.instance);
            && Orphan(site, w, name)
            && w.store.sink[name].c.start == start && Pending(site, w, w.store.sink[name].c)
  {
    NextNameFree(site, w.store, minutes, start);
    NextStartOnMinute(w.store, minutes, start);
    var c := w.store.sink[SinkName(start, site.instance)].c;
    if c.start < start {
      NamesDistinct(c.start, start, site.instance);
    } else if start < c.start {
      NamesDistinct(start, c.start, site.instance);
    }
  }

  /** Redrafting a pending window under its recorded retention gives the copy exactly when it ends where the copy
      does and the key signs the same. */
  lemma RedraftIff(site: Site, w: World, s: Settings, c: Checkpoint)
    requires DistinctKeys(w.store.rows) && ValidSettings(s) && Pending(site, w, c)
    ensures Drafted(site, w.store, s, c.start, c.days, c.hold) == c <==>
            WindowEnd(c.start, s.windowMinutes) == c.end && Sign(site, s.key, c) == c
  {
    var end := WindowEnd(c.start, s.windowMinutes);
    var d := Drafted(site, w.store, s, c.start, c.days, c.hold);
    assert d.end == end && d.prevHash == c.prevHash;
    if end == c.end {
      assert d == Sign(site, s.key, c);
    }
  }

  /** Whether the next window's copy is refused, for every state a run can be in. */
  lemma CopyRefusedIff(site: Site, w: World, s: Settings, start: Instant)
    requires DistinctKeys(w.store.rows) && SinkInv(site, w) && ValidSettings(s) && Tiled(w.store.chain) && site.sinkOn
    requires NextStart(w.store, s.windowMinutes) == Some(start)
    ensures CopyOut(site, w.store, s, start) == Conflict <==> Disagrees(site, w.store, s, start)
  {
    var name := SinkName(start, site.instance);
    if name in w.store.sink {
      NextNameTaken(site, w, s.windowMinutes, start);
      var stored := w.store.sink[name].c;
      var c := Drafted(site, w.store, s, start, s.days, s.hold);
      TakenNameAccepts(site, w.store.sink, c, stored, s.key);
      assert Sign(site, s.key, c.(days := stored.days, hold := stored.hold))
          == Drafted(site, w.store, s, start, stored.days, stored.hold);
      RedraftIff(site, w, s, stored);
    }
  }

  /** A copy lies under the window's name and ends elsewhere, or is signed differently from what the key signs now. */
  ghost predicate Disagrees(site: Site, st: Store, s: Settings, start: Instant)
    requires 1 <= s.windowMinutes
  {
    var name := SinkName(start, site.instance);
    name in st.sink &&
    (!st.sink[name].Copy?
     || st.sink[name].c.end != WindowEnd(start, s.windowMinutes) || Sign(site, s.key, st.sink[name].c) != st.sink[name].c)
  }

  /** What an accepted copy does to the sink: nothing, or one new name; and the name then holds what is stored. */
  lemma CopyWritten(site: Site, st: Store, s: Settings, start: Instant)
    requires 1 <= s.windowMinutes && DistinctKeys(st.rows) && site.sinkOn && CopyOut(site, st, s, start).Written?
    ensures var out, name := CopyOut(site, st, s, start), SinkName(start, site.instance);
            && out.c.start == start && name in out.sink && out.sink[name] == Copy(site.instance, out.c)
            && (out.sink == st.sink || (name !in st.sink && out.sink == st.sink[name := Copy(site.instance, out.c)]))
  {}

  // ---- Preservation ----

  /** A row beyond the orphan's end does not move the start of the first window. */
  lemma FirstStartStable(rows: set<Row>, rows': set<Row>)
    requires rows != {} && rows <= rows'
    requires forall r :: r in rows' && r !in rows ==> EarliestAt(rows) <= r.at
    ensures rows' != {} && EarliestAt(rows') == EarliestAt(rows)
  {
    var r :| r in rows && r.at == EarliestAt(rows);
    assert r in rows';
  }

  /** Rows may come at or after a pending copy's end and go before its start; the copy stays pending. */
  lemma PendingSurvives(site: Site, w: World, w': World, c: Checkpoint)
    requires DistinctKeys(w.store.rows) && DistinctKeys(w'.store.rows) && Pending(site, w, c)
    requires w'.store.chain == w.store.chain && w.now <= w'.now
    requires w'.run.Some? ==> c.end <= w'.run.value
    requires forall r :: r in w'.pending ==> c.end <= r.at
    requires forall r :: r in w'.store.rows && r !in w.store.rows ==> c.end <= r.at
    requires forall r :: r in w.store.rows && r !in w'.store.rows ==> w.store.chain != [] && r.at < c.start
    ensures Pending(site, w', c)
  {
    assert Window(w.store.rows, c.start, c.end) == Window(w'.store.rows, c.start, c.end);
    if w.store.chain == [] {
      FirstStartStable(w.store.rows, w'.store.rows);
    }
  }

  /** The shape of every step that neither seals nor writes the sink. */
  ghost predicate Quiet(w: World, w': World) {
    && w'.store.chain == w.store.chain && w'.store.sink == w.store.sink && w.now <= w'.now
    && (w'.run.Some? ==> w'.run == w.run || w'.run.value == w.now)
    && (forall r :: r in w'.pending && r !in w.pending ==> r.at == w.now)
    && (forall r :: r in w'.store.rows && r !in w.store.rows ==>
          r in w.pending || r.at == w.now || (w.run.Some? && r.at == w.run.value))
    && (forall r :: r in w.store.rows && r !in w'.store.rows ==>
          w.store.chain != [] && r.at < w.store.chain[|w.store.chain| - 1].end)
  }

  lemma QuietKeepsSink(site: Site, w: World, w': World)
    requires DistinctKeys(w.store.rows) && DistinctKeys(w'.store.rows) && SinkInv(site, w) && Quiet(w, w')
    ensures SinkInv(site, w')
  {
    forall name | name in w'.store.sink && !NameSealed(site, w'.store.chain, name)
      ensures Orphan(site, w', name)
    {
      assert Orphan(site, w, name);
      if Pending(site, w, w.store.sink[name].c) {
        PendingSurvives(site, w, w', w.store.sink[name].c);
      }
    }
  }

  lemma PrunedQuiet(w: World, cut: Instant, records: set<Row>)
    requires w.store.chain != [] && Linked(w.store.chain) && w.run.Some?
    requires Reaches(w.store.chain[|w.store.chain| - 1], cut) && WholeWindows(w.store.chain, cut)
    requires forall r :: r in records ==> r.at == w.now || r.at == w.run.value
    ensures Quiet(w, Pruned(w, cut, records))
  {
    CutBeforeNext(w.store.chain, Cut(cut, |w.store.chain| - 1));
  }

  lemma DropQuiet(site: Site, delay: int, w: World, step: Step, w': World)
    requires Tiled(w.store.chain) && DistinctKeys(w.store.rows) && step.DropPartitions? && Next(site, delay, w, step, w')
    ensures Quiet(w, w')
  {
    if w' != w {
      PartitionCutOk(w.store.chain, step.s, w.run.value, step.databaseNow, step.bakedFloor);
      PrunedQuiet(w, PartitionCut(w.store.chain, step.s, w.run.value, step.databaseNow, step.bakedFloor).value,
                  if step.dropRecord.Some? then {step.dropRecord.value} else {});
    }
  }

  lemma DeleteQuiet(site: Site, delay: int, w: World, step: Step, w': World)
    requires Tiled(w.store.chain) && DistinctKeys(w.store.rows) && step.DeleteRows? && Next(site, delay, w, step, w')
    ensures Quiet(w, w')
  {
    if w' != w {
      DeleteCutOk(w.store.chain, step.s, w.run.value);
      PrunedQuiet(w, DeleteCut(w.store.chain, step.s, w.run.value).value, {step.record});
    }
  }

  /** The copy a run leaves when it dies is pending. */
  lemma CrashLeavesPending(site: Site, delay: int, w: World, s: Settings, w': World, start: Instant)
    requires Inv(site, delay, w) && DistinctKeys(w.store.rows) && site.sinkOn
    requires Next(site, delay, w, CrashAfterCopy(s), w') && NextStart(w.store, s.windowMinutes) == Some(start)
    ensures Pending(site, w', CopyOut(site, w.store, s, start).c)
  {
    var c := CopyOut(site, w.store, s, start).c;
    CopyOutShape(site, w.store, s, start);
    PendingAfter(delay, w, s, start);
    SealedWindow(site, w.store, s, start, c, w.run.value);
    if w.store.chain == [] {
      FirstStartOnGrid(EarliestAt(w.store.rows), s.windowMinutes);
    }
  }

  lemma CopiedKept(site: Site, st: Store, sink: Sink, name: Name, c: Checkpoint)
    requires Copied(site, st) && !NameSealed(site, st.chain, name)
    requires sink == st.sink || sink == st.sink[name := Copy(site.instance, c)]
    ensures Copied(site, st.(sink := sink))
  {
    forall i | 0 <= i < |st.chain|
      ensures var n := SinkName(st.chain[i].start, site.instance); n in sink && sink[n] == Copy(site.instance, st.chain[i])
    {
      assert NameSealed(site, st.chain, SinkName(st.chain[i].start, site.instance));
    }
  }

  lemma CrashKeepsSink(site: Site, delay: int, w: World, s: Settings, w': World)
    requires Inv(site, delay, w) && DistinctKeys(w.store.rows) && site.sinkOn && SinkInv(site, w)
    requires Next(site, delay, w, CrashAfterCopy(s), w')
    ensures SinkInv(site, w')
  {
    var start := NextStart(w.store, s.windowMinutes).value;
    var name, c := SinkName(start, site.instance), CopyOut(site, w.store, s, start).c;
    CopyWritten(site, w.store, s, start);
    NextNameFree(site, w.store, s.windowMinutes, start);
    NextStartOnMinute(w.store, s.windowMinutes, start);
    CopiedKept(site, w.store, w'.store.sink, name, c);
    CrashLeavesPending(site, delay, w, s, w', start);
    forall n | n in w'.store.sink && !NameSealed(site, w'.store.chain, n)
      ensures Orphan(site, w', n)
    {
      if n != name {
        assert Orphan(site, w, n);
        CrashKeepsOthers(site, w, w', n);
      }
    }
  }

  lemma CrashKeepsOthers(site: Site, w: World, w': World, n: Name)
    requires DistinctKeys(w.store.rows) && Orphan(site, w, n)
    requires n in w'.store.sink && w'.store.sink[n] == w.store.sink[n]
    requires w'.store.rows == w.store.rows && w'.store.chain == w.store.chain && w'.now == w.now && w'.pending == w.pending
    requires w'.run.None?
    ensures Orphan(site, w', n)
  {}

  /** Once the next window is sealed, every other copy without a checkpoint lies behind the chain. */
  lemma SealPassesOrphan(site: Site, w: World, w': World, c: Checkpoint, n: Name)
    requires DistinctKeys(w.store.rows) && DistinctKeys(w'.store.rows) && Orphan(site, w, n)
    requires n in w'.store.sink && w'.store.sink[n] == w.store.sink[n] && w'.store.chain == w.store.chain + [c]
    requires if w.store.chain == [] then w.store.rows != {} ==> EarliestAt(w.store.rows) < c.end
             else c.start == w.store.chain[|w.store.chain| - 1].end && c.start < c.end
    ensures Orphan(site, w', n)
  {
    assert Passed(w'.store.chain, w.store.sink[n].c);
  }

  lemma SealedNext(site: Site, delay: int, w: World, s: Settings, start: Instant)
    requires Inv(site, delay, w) && DistinctKeys(w.store.rows) && ValidSettings(s) && w.run.Some?
    requires NextStart(w.store, s.windowMinutes) == Some(start) && Due(start, s, w.run.value)
    requires CopyOut(site, w.store, s, start).Written?
    ensures var c := CopyOut(site, w.store, s, start).c;
            if w.store.chain == [] then w.store.rows != {} ==> EarliestAt(w.store.rows) < c.end
            else c.start == w.store.chain[|w.store.chain| - 1].end && c.start < c.end
  {
    CopyOutShape(site, w.store, s, start);
    LastOnMinute(w.store.chain);
    SealedWindow(site, w.store, s, start, CopyOut(site, w.store, s, start).c, w.run.value);
    if w.store.chain == [] {
      FirstStartOnGrid(EarliestAt(w.store.rows), s.windowMinutes);
    }
  }

  lemma SealKeepsSink(site: Site, delay: int, w: World, s: Settings, w': World)
    requires Inv(site, delay, w) && DistinctKeys(w.store.rows) && site.sinkOn && SinkInv(site, w)
    requires Next(site, delay, w, SealWindow(s), w')
    ensures SinkInv(site, w')
  {
    if SealOne(site, w.store, s, w.run.value).Sealed? {
      var start := NextStart(w.store, s.windowMinutes).value;
      var out := CopyOut(site, w.store, s, start);
      CopyWritten(site, w.store, s, start);
      SealedNext(site, delay, w, s, start);
      NextNameFree(site, w.store, s.windowMinutes, start);
      AfterSeal(site, w, w', out.c, out.sink);
    }
  }

  lemma AfterSeal(site: Site, w: World, w': World, c: Checkpoint, sink: Sink)
    requires DistinctKeys(w.store.rows) && SinkInv(site, w) && w'.store == Store(w.store.rows, w.store.chain + [c], sink)
    requires var name := SinkName(c.start, site.instance);
             && name in sink && sink[name] == Copy(site.instance, c) && !NameSealed(site, w.store.chain, name)
             && (sink == w.store.sink || sink == w.store.sink[name := Copy(site.instance, c)])
    requires if w.store.chain == [] then w.store.rows != {} ==> EarliestAt(w.store.rows) < c.end
             else c.start == w.store.chain[|w.store.chain| - 1].end && c.start < c.end
    ensures SinkInv(site, w')
  {
    CopiedKept(site, w.store, sink, SinkName(c.start, site.instance), c);
    CopiedSnoc(site, w.store.(sink := sink), c);
    forall n | n in sink && !NameSealed(site, w'.store.chain, n)
      ensures Orphan(site, w', n)
    {
      SealedBefore(site, w.store.chain, c, n);
      SealPassesOrphan(site, w, w', c, n);
    }
  }

  lemma CopiedSnoc(site: Site, st: Store, c: Checkpoint)
    requires Copied(site, st)
    requires var name := SinkName(c.start, site.instance); name in st.sink && st.sink[name] == Copy(site.instance, c)
    ensures Copied(site, st.(chain := st.chain + [c]))
  {}

  lemma SealedBefore(site: Site, chain: seq<Checkpoint>, c: Checkpoint, name: Name)
    ensures NameSealed(site, chain + [c], name) <==> NameSealed(site, chain, name) || name == SinkName(c.start, site.instance)
  {
    assert (chain + [c])[|chain|] == c;
    forall i | 0 <= i < |chain|
      ensures (chain + [c])[i] == chain[i]
    {}
  }

  lemma StepKeepsSink(site: Site, delay: int, w: World, step: Step, w': World)
    requires Inv(site, delay, w) && DistinctKeys(w.store.rows) && site.sinkOn && SinkInv(site, w)
    requires Next(site, delay, w, step, w') && DistinctKeys(w'.store.rows)
    ensures SinkInv(site, w')
  {
    match step
    case SealWindow(s) => SealKeepsSink(site, delay, w, s, w');
    case CrashAfterCopy(s) => CrashKeepsSink(site, delay, w, s, w');
    case DropPartitions(_, _, _, _) =>
      DropQuiet(site, delay, w, step, w');
      QuietKeepsSink(site, w, w');
    case DeleteRows(_, _) =>
      DeleteQuiet(site, delay, w, step, w');
      QuietKeepsSink(site, w, w');
    case _ =>
      assert Quiet(w, w');
      QuietKeepsSink(site, w, w');
  }

  // ---- Executions ----

  lemma {:induction false} ReachableSink(site: Site, delay: int, ws: seq<World>, steps: seq<Step>, i: nat)
    requires Execution(site, delay, ws, steps) && site.sinkOn && i < |ws|
    ensures DistinctKeys(ws[i].store.rows) && SinkInv(site, ws[i])
  {
    if i == 0 {
      InitialSink(site, ws[0]);
    } else {
      ReachableSink(site, delay, ws, steps, i - 1);
      SinkStep(site, delay, ws, steps, i - 1);
    }
  }

  lemma InitialSink(site: Site, w: World)
    requires Initial(w)
    ensures DistinctKeys(w.store.rows) && SinkInv(site, w)
  {}

  lemma SinkStep(site: Site, delay: int, ws: seq<World>, steps: seq<Step>, i: nat)
    requires Execution(site, delay, ws, steps) && site.sinkOn && i < |steps|
    requires DistinctKeys(ws[i].store.rows) && SinkInv(site, ws[i])
    ensures DistinctKeys(ws[i + 1].store.rows) && SinkInv(site, ws[i + 1])
  {
    ReachableInv(site, delay, ws, steps, i);
    ReachableInv(site, delay, ws, steps, i + 1);
    OneStep(site, delay, ws, steps, i);
    StepKeepsSink(site, delay, ws[i], steps[i], ws[i + 1]);
  }

  lemma OneStep(site: Site, delay: int, ws: seq<World>, steps: seq<Step>, i: nat)
    requires Execution(site, delay, ws, steps) && i < |steps|
    ensures DistinctKeys(ws[i].store.rows) && Next(site, delay, ws[i], steps[i], ws[i + 1])
  {}

  /** Crash-safe double write, for every execution: whatever crashes and whatever changes between retries, window
      length and signing key included, the sink is never missing a checkpoint that the database has. */
  lemma CrashSafeDoubleWrite(site: Site, delay: int, ws: seq<World>, steps: seq<Step>, i: nat)
    requires Execution(site, delay, ws, steps) && site.sinkOn && i < |ws|
    ensures Copied(site, ws[i].store)
  {
    ReachableSink(site, delay, ws, steps, i);
  }

  /** Exactly when a seal is refused, in every execution: a copy without its checkpoint lies under the next window's
      name, and the window would now end elsewhere or be signed differently. */
  lemma RetryConflictsIff(site: Site, delay: int, ws: seq<World>, steps: seq<Step>, i: nat)
    requires Execution(site, delay, ws, steps) && site.sinkOn && i < |steps| && steps[i].SealWindow?
    ensures DistinctKeys(ws[i].store.rows) && ws[i].run.Some? && ValidSettings(steps[i].s)
    ensures var w, s := ws[i], steps[i].s; var start := NextStart(w.store, s.windowMinutes);
            SealOne(site, w.store, s, w.run.value) == SinkConflict <==>
              start.Some? && Due(start.value, s, w.run.value) && Disagrees(site, w.store, s, start.value)
    ensures var w, s := ws[i], steps[i].s; var start := NextStart(w.store, s.windowMinutes);
            start.Some? && Disagrees(site, w.store, s, start.value) ==>
              Orphan(site, w, SinkName(start.value, site.instance))
              && !NameSealed(site, w.store.chain, SinkName(start.value, site.instance))
  {
    ReachableSink(site, delay, ws, steps, i);
    ReachableInv(site, delay, ws, steps, i);
    OneStep(site, delay, ws, steps, i);
    var w, s := ws[i], steps[i].s;
    var start := NextStart(w.store, s.windowMinutes);
    if start.Some? {
      CopyRefusedIff(site, w, s, start.value);
      NextNameFree(site, w.store, s.windowMinutes, start.value);
      if SinkName(start.value, site.instance) in w.store.sink {
        NextNameTaken(site, w, s.windowMinutes, start.value);
      }
    }
  }

  // ---- Where a copy without checkpoint comes from ----

  /** The run that died after copying a window of that name out, under the retention then in force. */
  ghost predicate LeftBy(site: Site, w: World, s: Settings, name: Name, c: Checkpoint)
    requires DistinctKeys(w.store.rows)
  {
    1 <= s.windowMinutes && c.days == s.days && c.hold == s.hold && c.end == WindowEnd(c.start, s.windowMinutes) && Sign(site, s.key, c) == c
    && NextStart(w.store, s.windowMinutes) == Some(c.start) && name == SinkName(c.start, site.instance)
  }

  lemma {:induction false} CopyHasOrigin(site: Site, delay: int, ws: seq<World>, steps: seq<Step>, i: nat, name: Name)
    returns (k: nat)
    requires Execution(site, delay, ws, steps) && site.sinkOn && i < |ws|
    requires name in ws[i].store.sink && !NameSealed(site, ws[i].store.chain, name)
    ensures k < i && steps[k].CrashAfterCopy? && DistinctKeys(ws[k].store.rows)
    ensures ws[i].store.sink[name].Copy? && LeftBy(site, ws[k], steps[k].s, name, ws[i].store.sink[name].c)
  {
    OriginStep(site, delay, ws, steps, i, name);
    if Inherits(site, ws[i - 1], ws[i], name) {
      k := CopyHasOrigin(site, delay, ws, steps, i - 1, name);
    } else {
      k := i - 1;
    }
  }

  ghost predicate Inherits(site: Site, w: World, w': World, name: Name) {
    && name in w.store.sink && name in w'.store.sink && w'.store.sink[name] == w.store.sink[name]
    && !NameSealed(site, w.store.chain, name)
  }

  lemma OriginStep(site: Site, delay: int, ws: seq<World>, steps: seq<Step>, i: nat, name: Name)
    requires Execution(site, delay, ws, steps) && site.sinkOn && i < |ws|
    requires name in ws[i].store.sink && !NameSealed(site, ws[i].store.chain, name)
    ensures i > 0 && DistinctKeys(ws[i - 1].store.rows)
    ensures || Inherits(site, ws[i - 1], ws[i], name)
            || (steps[i - 1].CrashAfterCopy? && ws[i].store.sink[name].Copy?
                && LeftBy(site, ws[i - 1], steps[i - 1].s, name, ws[i].store.sink[name].c))
  {
    assert i > 0;
    OneStep(site, delay, ws, steps, i - 1);
    NewNames(site, delay, ws[i - 1], steps[i - 1], ws[i], name);
  }

  /** A step leaves an unsealed name alone, unless it is the crash that writes it. */
  lemma NewNames(site: Site, delay: int, w: World, step: Step, w': World, name: Name)
    requires DistinctKeys(w.store.rows) && site.sinkOn && Next(site, delay, w, step, w')
    requires name in w'.store.sink && !NameSealed(site, w'.store.chain, name)
    ensures || Inherits(site, w, w', name)
            || (step.CrashAfterCopy? && w'.store.sink[name].Copy? && LeftBy(site, w, step.s, name, w'.store.sink[name].c))
  {
    if step.CrashAfterCopy? {
      var start := NextStart(w.store, step.s.windowMinutes).value;
      CopyWritten(site, w.store, step.s, start);
      CopyOutShape(site, w.store, step.s, start);
    } else if step.SealWindow? && SealOne(site, w.store, step.s, w.run.value).Sealed? {
      var start := NextStart(w.store, step.s.windowMinutes).value;
      var c := CopyOut(site, w.store, step.s, start).c;
      CopyWritten(site, w.store, step.s, start);
      SealedBefore(site, w.store.chain, c, name);
    }
  }

  /** The runs that died on the window which step `i` seals used the same window end and key. Any other run may have
      used what it liked, and retention and legal hold may differ even here. */
  ghost predicate RetriedAlike(site: Site, delay: int, ws: seq<World>, steps: seq<Step>, i: nat)
    requires Execution(site, delay, ws, steps) && i < |steps| && steps[i].SealWindow?
  {
    forall k :: 0 <= k < i && steps[k].CrashAfterCopy? ==> AlikeAt(site, delay, ws, steps, k, i)
  }

  ghost predicate AlikeAt(site: Site, delay: int, ws: seq<World>, steps: seq<Step>, k: nat, i: nat)
    requires Execution(site, delay, ws, steps) && k < i < |steps| && steps[i].SealWindow? && steps[k].CrashAfterCopy?
  {
    var a, b := steps[k].s, steps[i].s;
    1 <= a.windowMinutes && 1 <= b.windowMinutes &&
    (NextStart(ws[k].store, a.windowMinutes) == NextStart(ws[i].store, b.windowMinutes) ==>
       a.key == b.key && (NextStart(ws[k].store, a.windowMinutes).Some? ==>
         var start := NextStart(ws[k].store, a.windowMinutes).value;
         WindowEnd(start, a.windowMinutes) == WindowEnd(start, b.windowMinutes)))
  }

  /** A retry that seals the window as the crashed run did never ends in a conflict. */
  lemma RetryNeverConflicts(site: Site, delay: int, ws: seq<World>, steps: seq<Step>, i: nat)
    requires Execution(site, delay, ws, steps) && site.sinkOn && i < |steps| && steps[i].SealWindow?
    requires RetriedAlike(site, delay, ws, steps, i)
    ensures DistinctKeys(ws[i].store.rows) && ws[i].run.Some? && 1 <= steps[i].s.windowMinutes
    ensures SealOne(site, ws[i].store, steps[i].s, ws[i].run.value) != SinkConflict
  {
    RetryConflictsIff(site, delay, ws, steps, i);
    var w, s := ws[i], steps[i].s;
    var start := NextStart(w.store, s.windowMinutes);
    if start.Some? && SinkName(start.value, site.instance) in w.store.sink {
      var name := SinkName(start.value, site.instance);
      ReachableSink(site, delay, ws, steps, i);
      ReachableInv(site, delay, ws, steps, i);
      NextNameFree(site, w.store, s.windowMinutes, start.value);
      NextNameTaken(site, w, s.windowMinutes, start.value);
      var k := CopyHasOrigin(site, delay, ws, steps, i, name);
      assert AlikeAt(site, delay, ws, steps, k, i);
    }
  }

  // ---- Which retention a checkpoint records ----

  /** The retention and hold a checkpoint records are those in force when its window was first copied out: the sealing
      run's own, or those of the run that died after leaving the copy. Never anything else. */
  lemma RecordedRetention(site: Site, delay: int, ws: seq<World>, steps: seq<Step>, i: nat) returns (k: nat)
    requires Execution(site, delay, ws, steps) && site.sinkOn && i < |steps|
    requires ws[i + 1].store.chain != ws[i].store.chain
    ensures steps[i].SealWindow? && |ws[i + 1].store.chain| == |ws[i].store.chain| + 1
    ensures var c := ws[i + 1].store.chain[|ws[i].store.chain|]; var name := SinkName(c.start, site.instance);
            && (name !in ws[i].store.sink ==> c.days == steps[i].s.days && c.hold == steps[i].s.hold)
            && (name in ws[i].store.sink ==>
                  && k < i && steps[k].CrashAfterCopy? && DistinctKeys(ws[k].store.rows)
                  && c.days == steps[k].s.days && c.hold == steps[k].s.hold
                  && LeftBy(site, ws[k], steps[k].s, name, c))
  {
    OneStep(site, delay, ws, steps, i);
    OnlySealsGrow(site, delay, ws[i], steps[i], ws[i + 1]);
    var w, s := ws[i], steps[i].s;
    var start := NextStart(w.store, s.windowMinutes).value;
    var name := SinkName(start, site.instance);
    CopyWritten(site, w.store, s, start);
    k := 0;
    if name in w.store.sink {
      ReachableInv(site, delay, ws, steps, i);
      NextNameFree(site, w.store, s.windowMinutes, start);
      k := CopyHasOrigin(site, delay, ws, steps, i, name);
    }
  }

  /** Without a sink there is no copy to follow: a checkpoint records the sealing run's own retention. */
  lemma RecordedWithoutSink(site: Site, delay: int, ws: seq<World>, steps: seq<Step>, i: nat)
    requires Execution(site, delay, ws, steps) && !site.sinkOn && i < |steps|
    requires ws[i + 1].store.chain != ws[i].store.chain
    ensures steps[i].SealWindow? && |ws[i + 1].store.chain| == |ws[i].store.chain| + 1
    ensures var c := ws[i + 1].store.chain[|ws[i].store.chain|]; c.days == steps[i].s.days && c.hold == steps[i].s.hold
  {
    OneStep(site, delay, ws, steps, i);
    OnlySealsGrow(site, delay, ws[i], steps[i], ws[i + 1]);
  }

  /** When a seal appends a checkpoint, exactly: there is something to seal, the first grid point after its start lies a
      grace period back, and no copy disagrees. Nothing that is due is left. */
  lemma SealsExactlyWhatIsDue(site: Site, delay: int, ws: seq<World>, steps: seq<Step>, i: nat)
    requires Execution(site, delay, ws, steps) && site.sinkOn && i < |steps| && steps[i].SealWindow?
    ensures ws[i].run.Some? && ValidSettings(steps[i].s)
    ensures ws[i + 1].store.chain != ws[i].store.chain <==>
              var w, s := ws[i], steps[i].s;
              && (w.store.chain != [] || w.store.rows != {})
              && var start := if w.store.chain != [] then w.store.chain[|w.store.chain| - 1].end
                              else FirstStart(EarliestAt(w.store.rows), s.windowMinutes);
                 && WindowEnd(start, s.windowMinutes) + s.graceMinutes * MINUTE <= w.run.value
                 && !Disagrees(site, w.store, s, start)
  {
    RetryConflictsIff(site, delay, ws, steps, i);
    OneStep(site, delay, ws, steps, i);
  }
}
