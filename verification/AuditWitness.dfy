/** A run in which a retry is refused: the window length changed between the crash and the retry. */
module AuditWitness {
  import opened Wrappers
  import opened AuditTime
  import opened AuditLog
  import opened AuditChain
  import opened AuditVerify
  import opened AuditStore
  import opened AuditRuns
  import opened AuditTheorems

  function Every(minutes: int): Settings {
    Settings(0, 1, false, minutes, 1, None)
  }

  const TheRow := Row(0, "a", "{}")

  lemma FirstWindow(minutes: int)
    requires 1 <= minutes
    ensures EarliestAt({TheRow}) == 0 && FirstStart(0, minutes) == 0 && WindowEnd(0, minutes) == minutes * MINUTE
  {
    assert TheRow in {TheRow};
    var s := Span(minutes);
    assert 0 % s == 0 && 0 / s == 0;
    assert (0 + 1) * s == s;
  }

  const Later: Instant := 61 * MINUTE

  /** The world once the row is committed, at a given time and stage of a run. */
  ghost function Settled(now: Instant, run: Option<Instant>, sink: Sink): World {
    World(now, {TheRow}, {}, Store({TheRow}, [], sink), NoCut, run, [])
  }

  const Blank := World(0, {}, {}, Empty, NoCut, None, [])
  const Staged := World(0, {TheRow}, {TheRow}, Empty, NoCut, None, [])

  lemma Commits(site: Site)
    ensures Next(site, 0, Blank, Stage(TheRow), Staged)
    ensures Next(site, 0, Staged, Publish(TheRow), Settled(0, None, map[]))
    ensures Next(site, 0, Settled(0, None, map[]), Tick(Later), Settled(Later, None, map[]))
    ensures Next(site, 0, Settled(Later, None, map[]), BeginRun, Settled(Later, Some(Later), map[]))
  {
    assert {} + {TheRow} == {TheRow} && {TheRow} - {TheRow} == {};
  }

  /** The run that copies the whole hour out and dies. */
  lemma Crashes(site: Site) returns (c: Checkpoint)
    requires site.sinkOn
    ensures c.start == 0 && c.end == 60 * MINUTE
    ensures var sink: Sink := map[SinkName(0, site.instance) := Copy(site.instance, c)];
            Next(site, 0, Settled(Later, Some(Later), map[]), CrashAfterCopy(Every(60)), Settled(Later, None, sink))
  {
    FirstWindow(60);
    var w := Settled(Later, Some(Later), map[]);
    c := Drafted(site, w.store, Every(60), 0, 0, false);
    assert NextStart(w.store, 60) == Some(0) && Due(0, Every(60), Later);
    var name := SinkName(0, site.instance);
    assert CopyOut(site, w.store, Every(60), 0) == Written(map[][name := Copy(site.instance, c)], c);
  }

  /** Executions grow by one step at a time. */
  ghost predicate ReachedBy(site: Site, ws: seq<World>, steps: seq<Step>, n: nat, w: World) {
    Execution(site, 0, ws, steps) && |steps| == n && ws[n] == w && DistinctKeys(w.store.rows)
  }

  lemma Extends(site: Site, ws: seq<World>, steps: seq<Step>, n: nat, w: World, step: Step, w': World)
    requires ReachedBy(site, ws, steps, n, w) && Next(site, 0, w, step, w') && DistinctKeys(w'.store.rows)
    ensures ReachedBy(site, ws + [w'], steps + [step], n + 1, w')
  {
    var ws', steps' := ws + [w'], steps + [step];
    forall i | 0 <= i < n + 1
      ensures DistinctKeys(ws'[i].store.rows) && Next(site, 0, ws'[i], steps'[i], ws'[i + 1])
    {
      assert i < n ==> ws'[i] == ws[i] && ws'[i + 1] == ws[i + 1] && steps'[i] == steps[i];
      assert i == n ==> ws'[i] == w && ws'[i + 1] == w' && steps'[i] == step;
    }
  }

  lemma RunBegins(site: Site) returns (ws: seq<World>, steps: seq<Step>)
    ensures ReachedBy(site, ws, steps, 4, Settled(Later, Some(Later), map[]))
  {
    Commits(site);
    ws, steps := [Blank], [];
    Extends(site, ws, steps, 0, Blank, Stage(TheRow), Staged);
    ws, steps := ws + [Staged], steps + [Stage(TheRow)];
    var w2, w3, w4 := Settled(0, None, map[]), Settled(Later, None, map[]), Settled(Later, Some(Later), map[]);
    Extends(site, ws, steps, 1, Staged, Publish(TheRow), w2);
    ws, steps := ws + [w2], steps + [Publish(TheRow)];
    Extends(site, ws, steps, 2, w2, Tick(Later), w3);
    ws, steps := ws + [w3], steps + [Tick(Later)];
    Extends(site, ws, steps, 3, w3, BeginRun, w4);
    ws, steps := ws + [w4], steps + [BeginRun];
  }

  lemma RunDies(site: Site) returns (ws: seq<World>, steps: seq<Step>, c: Checkpoint)
    requires site.sinkOn
    ensures c.start == 0 && c.end == 60 * MINUTE
    ensures ReachedBy(site, ws, steps, 6, Settled(Later, Some(Later), map[SinkName(0, site.instance) := Copy(site.instance, c)]))
  {
    ws, steps := RunBegins(site);
    c := Crashes(site);
    var sink: Sink := map[SinkName(0, site.instance) := Copy(site.instance, c)];
    var w5, w6 := Settled(Later, None, sink), Settled(Later, Some(Later), sink);
    Extends(site, ws, steps, 4, Settled(Later, Some(Later), map[]), CrashAfterCopy(Every(60)), w5);
    ws, steps := ws + [w5], steps + [CrashAfterCopy(Every(60))];
    assert Next(site, 0, w5, BeginRun, w6);
    Extends(site, ws, steps, 5, w5, BeginRun, w6);
    ws, steps := ws + [w6], steps + [BeginRun];
  }

  /** One row, an hour later a run that dies after copying the hour out, and a retry that seals half hours: it
      is refused, and nothing changes. */
  lemma WindowChangeConflicts(site: Site) returns (ws: seq<World>, steps: seq<Step>, w: World)
    requires site.sinkOn
    ensures Execution(site, 0, ws, steps) && |steps| == 7 && ws[6] == ws[7] == w && steps[6] == SealWindow(Every(30))
    ensures DistinctKeys(w.store.rows) && w.run.Some? && SealOne(site, w.store, Every(30), w.run.value) == SinkConflict
  {
    var c;
    ws, steps, c := RunDies(site);
    w := Settled(Later, Some(Later), map[SinkName(0, site.instance) := Copy(site.instance, c)]);
    Refused(site, w, c, Later);
    assert Next(site, 0, w, SealWindow(Every(30)), w);
    Extends(site, ws, steps, 6, w, SealWindow(Every(30)), w);
    assert ws[6] == w;
    ws, steps := ws + [w], steps + [SealWindow(Every(30))];
  }

  lemma Refused(site: Site, w: World, c: Checkpoint, later: Instant)
    requires site.sinkOn && later == 61 * MINUTE && c.start == 0 && c.end == 60 * MINUTE
    requires w.store == Store({TheRow}, [], map[SinkName(0, site.instance) := Copy(site.instance, c)])
    ensures DistinctKeys(w.store.rows) && SealOne(site, w.store, Every(30), later) == SinkConflict
  {
    FirstWindow(30);
    assert NextStart(w.store, 30) == Some(0) && Due(0, Every(30), later);
    var d := Drafted(site, w.store, Every(30), 0, 0, false);
    assert d.end == 30 * MINUTE != c.end;
  }
}
