/** Verification of a range of checkpoints against the rows the log holds now. */
module AuditVerify {
  import opened Wrappers
  import opened Sequences
  import opened AuditTime
  import opened AuditLog
  import opened AuditChain

  const MAX_VERIFY_RANGE: int := 366 * DAY

  datatype Status = Fine | RowMismatch | MissingWindow | BrokenChain | BadSignature

  datatype Finding = Finding(start: Instant, end: Instant, status: Status, pruned: bool,
                             expected: Option<nat>, actual: Option<nat>)

  datatype Report = Refused | Report(ok: bool, signed: bool, findings: seq<Finding>)

  type Verifiers = map<string, Key>

  /** Everything one verification reads besides the range. */
  datatype Table = Table(rows: set<Row>, chain: seq<Checkpoint>, instance: string)

  function MessageOf(c: Checkpoint, instance: string): Message {
    Message(instance, c.start, c.end, c.rowCount, c.hash, c.prevHash, c.days, c.hold)
  }

  predicate SignatureOk(p: Primitives, verifiers: Verifiers, c: Checkpoint, instance: string) {
    && c.keyId.Some? && c.keyId.value in verifiers
    && c.signature.Some?
    && c.signature.value == p.sign(verifiers[c.keyId.value], MessageOf(c, instance))
  }

  /** How far retention may have pruned under a checkpoint. */
  function RetentionHorizon(c: Checkpoint): Option<Instant> {
    if c.days >= (c.end - EARLIEST) / DAY then None else Some(c.end - c.days * DAY)
  }

  predicate AllowsPrune(c: Checkpoint) {
    c.days > 0 && !c.hold && RetentionHorizon(c).Some?
  }

  predicate Trusted(p: Primitives, verifiers: Verifiers, c: Checkpoint, instance: string) {
    verifiers == map[] || SignatureOk(p, verifiers, c, instance)
  }

  predicate Excuses(p: Primitives, verifiers: Verifiers, c: Checkpoint, instance: string) {
    AllowsPrune(c) && Trusted(p, verifiers, c, instance)
  }

  /** The latest window end any accepted checkpoint allows to have been pruned. */
  function PruningHorizon(p: Primitives, verifiers: Verifiers, chain: seq<Checkpoint>, instance: string)
    : Option<Instant>
  {
    if chain == [] then None else
      var rest := PruningHorizon(p, verifiers, chain[1..], instance);
      if !Excuses(p, verifiers, chain[0], instance) then rest else
        var h := RetentionHorizon(chain[0]).value;
        if rest.Some? && rest.value >= h then rest else Some(h)
  }

  /** `PruningHorizon` is the maximum over the checkpoints that excuse anything: an upper bound, */
  lemma {:induction false} PruningHorizonBounds(p: Primitives, verifiers: Verifiers, chain: seq<Checkpoint>,
                                                instance: string, i: nat)
    requires i < |chain| && Excuses(p, verifiers, chain[i], instance)
    ensures var h := PruningHorizon(p, verifiers, chain, instance);
            h.Some? && RetentionHorizon(chain[i]).value <= h.value
  {
    if i > 0 {
      PruningHorizonBounds(p, verifiers, chain[1..], instance, i - 1);
    }
  }

  /** and one that is attained. */
  lemma {:induction false} PruningHorizonAttained(p: Primitives, verifiers: Verifiers, chain: seq<Checkpoint>,
                                                  instance: string) returns (i: nat)
    requires PruningHorizon(p, verifiers, chain, instance).Some?
    ensures i < |chain| && Excuses(p, verifiers, chain[i], instance)
    ensures RetentionHorizon(chain[i]) == PruningHorizon(p, verifiers, chain, instance)
  {
    if PruningHorizon(p, verifiers, chain, instance) == PruningHorizon(p, verifiers, chain[1..], instance) {
      i := PruningHorizonAttained(p, verifiers, chain[1..], instance);
      i := i + 1;
    } else {
      i := 0;
    }
  }

  type Candidate = (Instant, Checkpoint)

  function Candidates(chain: seq<Checkpoint>): (s: seq<Candidate>)
    ensures forall k :: 0 <= k < |s| ==>
      s[k].1 in chain && AllowsPrune(s[k].1) && s[k].0 == RetentionHorizon(s[k].1).value
    ensures forall c :: c in chain && AllowsPrune(c) ==> (RetentionHorizon(c).value, c) in s
  {
    if chain == [] then [] else
      assert forall c :: c in chain ==> c == chain[0] || c in chain[1..];
      (if AllowsPrune(chain[0]) then [(RetentionHorizon(chain[0]).value, chain[0])] else []) + Candidates(chain[1..])
  }

  ghost predicate Descending(s: seq<Candidate>) {
    forall i, j :: 0 <= i < j < |s| ==> s[i].0 >= s[j].0
  }

  function InsertDescending(c: Candidate, s: seq<Candidate>): (t: seq<Candidate>)
    requires Descending(s)
    ensures Descending(t) && forall x :: x in t <==> x == c || x in s
  {
    if s == [] || c.0 >= s[0].0 then [c] + s else
      assert forall x :: x in s <==> x == s[0] || x in s[1..];
      var rest := InsertDescending(c, s[1..]);
      assert forall x :: x in rest ==> x.0 <= s[0].0;
      assert forall k :: 0 <= k < |rest| ==> rest[k] in rest;
      [s[0]] + rest
  }

  /** `sorted(..., reverse=True)` on the horizon. */
  function SortDescending(s: seq<Candidate>): (t: seq<Candidate>)
    ensures Descending(t) && forall x :: x in t <==> x in s
  {
    if s == [] then [] else
      assert forall x :: x in s <==> x == s[0] || x in s[1..];
      InsertDescending(s[0], SortDescending(s[1..]))
  }

  /** The candidates are the checkpoints that allow a prune, each with its horizon, furthest first. */
  ghost predicate Ranked(chain: seq<Checkpoint>, candidates: seq<Candidate>) {
    && Descending(candidates)
    && (forall k :: 0 <= k < |candidates| ==>
          candidates[k].1 in chain && AllowsPrune(candidates[k].1)
          && candidates[k].0 == RetentionHorizon(candidates[k].1).value)
    && (forall i :: 0 <= i < |chain| && AllowsPrune(chain[i]) ==>
          exists k :: 0 <= k < |candidates| && candidates[k].1 == chain[i])
  }

  lemma SortedRanked(chain: seq<Checkpoint>)
    ensures Ranked(chain, SortDescending(Candidates(chain)))
  {
    var unsorted := Candidates(chain);
    var candidates := SortDescending(unsorted);
    forall k | 0 <= k < |candidates|
      ensures candidates[k].1 in chain && AllowsPrune(candidates[k].1)
      ensures candidates[k].0 == RetentionHorizon(candidates[k].1).value
    {
      assert candidates[k] in unsorted;
    }
    forall i | 0 <= i < |chain| && AllowsPrune(chain[i])
      ensures exists k :: 0 <= k < |candidates| && candidates[k].1 == chain[i]
    {
      assert chain[i] in chain;
      assert (RetentionHorizon(chain[i]).value, chain[i]) in candidates;
    }
  }

  /** No checkpoint that excuses reaches beyond the first accepted candidate. */
  lemma NoneBefore(p: Primitives, verifiers: Verifiers, chain: seq<Checkpoint>, instance: string,
                   candidates: seq<Candidate>, i: nat, b: nat)
    requires Ranked(chain, candidates) && i <= |candidates|
    requires forall k :: 0 <= k < i ==> !Trusted(p, verifiers, candidates[k].1, instance)
    requires b < |chain| && Excuses(p, verifiers, chain[b], instance)
    ensures i < |candidates| && RetentionHorizon(chain[b]).value <= candidates[i].0
  {
    var k :| 0 <= k < |candidates| && candidates[k].1 == chain[b];
    assert i <= k;
  }

  lemma FirstExcusing(p: Primitives, verifiers: Verifiers, chain: seq<Checkpoint>, instance: string,
                      candidates: seq<Candidate>, i: nat)
    requires Ranked(chain, candidates) && i <= |candidates|
    requires forall k :: 0 <= k < i ==> !Trusted(p, verifiers, candidates[k].1, instance)
    requires i < |candidates| ==> Trusted(p, verifiers, candidates[i].1, instance)
    ensures PruningHorizon(p, verifiers, chain, instance) == if i < |candidates| then Some(candidates[i].0) else None
  {
    if PruningHorizon(p, verifiers, chain, instance).Some? {
      var b := PruningHorizonAttained(p, verifiers, chain, instance);
      NoneBefore(p, verifiers, chain, instance, candidates, i, b);
    }
    if i < |candidates| {
      var j :| 0 <= j < |chain| && chain[j] == candidates[i].1;
      PruningHorizonBounds(p, verifiers, chain, instance, j);
    }
  }

  /** Tries the candidates from the furthest horizon down and stops at the first whose signature verifies. */
  method FindPruningHorizon(p: Primitives, verifiers: Verifiers, chain: seq<Checkpoint>, instance: string)
    returns (horizon: Option<Instant>)
    ensures horizon == PruningHorizon(p, verifiers, chain, instance)
  {
    var candidates := SortDescending(Candidates(chain));
    var i := 0;
    while i < |candidates| && !Trusted(p, verifiers, candidates[i].1, instance)
      invariant 0 <= i <= |candidates|
      invariant forall k :: 0 <= k < i ==> !Trusted(p, verifiers, candidates[k].1, instance)
    {
      i := i + 1;
    }
    SortedRanked(chain);
    FirstExcusing(p, verifiers, chain, instance, candidates, i);
    return if i < |candidates| then Some(candidates[i].0) else None;
  }

  function Missing(start: Instant, end: Instant): Finding {
    Finding(start, end, MissingWindow, false, None, None)
  }

  function GapBefore(previous: Option<Checkpoint>, c: Checkpoint): seq<Finding> {
    if previous.Some? && previous.value.end != c.start then [Missing(previous.value.end, c.start)] else []
  }

  predicate IsPruned(digest: Digest, c: Checkpoint, horizon: Option<Instant>) {
    && !(digest.rowCount == c.rowCount && digest.hash == c.hash)
    && digest.rowCount == 0 && c.rowCount > 0
    && horizon.Some? && c.end <= horizon.value
  }

  /** The verdict on one window, in the order the checks override each other. */
  function CheckWindow(p: Primitives, digest: Digest, c: Checkpoint, previous: Option<Checkpoint>,
                       verifiers: Verifiers, instance: string, horizon: Option<Instant>): Finding
  {
    var rowsMatch := digest.rowCount == c.rowCount && digest.hash == c.hash;
    var pruned := IsPruned(digest, c, horizon);
    var expectedPrev: Option<string> := if previous.Some? then Some(previous.value.hash) else None;
    var status :=
      if !(rowsMatch || pruned) then RowMismatch
      else if verifiers != map[] && !SignatureOk(p, verifiers, c, instance) then BadSignature
      else if c.prevHash != expectedPrev then BrokenChain
      else Fine;
    Finding(c.start, c.end, status, pruned, Some(c.rowCount), if pruned then None else Some(digest.rowCount))
  }

  /** What one window contributes: the gap in front of it, if any, and its own verdict. */
  ghost function WindowFindings(p: Primitives, t: Table, c: Checkpoint, previous: Option<Checkpoint>,
                                verifiers: Verifiers, horizon: Option<Instant>): seq<Finding>
    requires DistinctKeys(t.rows)
  {
    var digest := WindowDigest(p, t.rows, c.start, c.end, c.prevHash);
    GapBefore(previous, c) + [CheckWindow(p, digest, c, previous, verifiers, t.instance, horizon)]
  }

  /** Every selected window in turn, each against the one before it. */
  ghost function CheckWindows(p: Primitives, t: Table, selected: seq<Checkpoint>, previous: Option<Checkpoint>,
                              verifiers: Verifiers, horizon: Option<Instant>): seq<Finding>
    requires DistinctKeys(t.rows)
  {
    if selected == [] then [] else
      WindowFindings(p, t, selected[0], previous, verifiers, horizon)
        + CheckWindows(p, t, selected[1..], Some(selected[0]), verifiers, horizon)
  }

  // The queries; the table is listed by its primary key, window_start.

  ghost predicate ByStart(chain: seq<Checkpoint>) {
    forall i, j :: 0 <= i < j < |chain| ==> chain[i].start < chain[j].start
  }

  predicate Inside(c: Checkpoint, from: Instant, to: Instant) {
    from <= c.start && c.end <= to
  }

  /** The checkpoints whose window lies inside the range. */
  function Selected(chain: seq<Checkpoint>, from: Instant, to: Instant): seq<Checkpoint> {
    if chain == [] then [] else
      (if Inside(chain[0], from, to) then [chain[0]] else []) + Selected(chain[1..], from, to)
  }

  /** The newest checkpoint that starts before `t`. */
  function Predecessor(chain: seq<Checkpoint>, t: Instant): Option<Checkpoint> {
    if chain == [] then None
    else if chain[|chain| - 1].start < t then Some(chain[|chain| - 1])
    else Predecessor(chain[..|chain| - 1], t)
  }

  /** The oldest checkpoint that starts at or after `t`. */
  function Successor(chain: seq<Checkpoint>, t: Instant): Option<Checkpoint> {
    if chain == [] then None
    else if chain[0].start >= t then Some(chain[0])
    else Successor(chain[1..], t)
  }

  /** Rows dated before the first checkpoint. */
  function Orphans(t: Table, from: Instant, to: Instant): seq<Finding>
    requires t.chain != []
  {
    var first := t.chain[0].start;
    if first <= from then [] else
      var end := if first <= to then first else to;
      var n := |Window(t.rows, from, end)|;
      if n == 0 then [] else [Finding(from, end, RowMismatch, false, Some(0), Some(n))]
  }

  /** The gap after the last window checked, when a later checkpoint exists. */
  function TrailingGap(chain: seq<Checkpoint>, last: Option<Checkpoint>, to: Instant): seq<Finding> {
    if last.None? || last.value.end >= to then [] else
      var following := Successor(chain, last.value.end);
      if following.Some? && following.value.start != last.value.end
      then [Missing(last.value.end, following.value.start)] else []
  }

  function LastChecked(selected: seq<Checkpoint>, previous: Option<Checkpoint>): Option<Checkpoint> {
    if selected == [] then previous else Some(selected[|selected| - 1])
  }

  ghost function Findings(p: Primitives, t: Table, verifiers: Verifiers, from: Instant, to: Instant): seq<Finding>
    requires DistinctKeys(t.rows) && t.chain != []
  {
    var selected := Selected(t.chain, from, to);
    var previous := Predecessor(t.chain, from);
    var horizon := PruningHorizon(p, verifiers, t.chain, t.instance);
    Orphans(t, from, to) + CheckWindows(p, t, selected, previous, verifiers, horizon)
      + TrailingGap(t.chain, LastChecked(selected, previous), to)
  }

  predicate AllFine(findings: seq<Finding>) {
    forall f :: f in findings ==> f.status == Fine
  }

  /** Keys to check signatures with: none at all, or at least one. */
  ghost function Verify(p: Primitives, t: Table, keys: Option<Verifiers>, from: Instant, to: Instant): Report
    requires DistinctKeys(t.rows)
  {
    if from > to || to - from > MAX_VERIFY_RANGE || (keys.Some? && keys.value == map[]) then Refused else
      var verifiers := if keys.Some? then keys.value else map[];
      if t.chain == [] then Report(true, verifiers != map[], []) else
        var findings := Findings(p, t, verifiers, from, to);
        Report(AllFine(findings), verifiers != map[], findings)
  }

  lemma {:induction false} CheckWindowsSnoc(p: Primitives, t: Table, s: seq<Checkpoint>, c: Checkpoint,
                                            previous: Option<Checkpoint>, verifiers: Verifiers,
                                            horizon: Option<Instant>)
    requires DistinctKeys(t.rows)
    ensures CheckWindows(p, t, s + [c], previous, verifiers, horizon)
         == CheckWindows(p, t, s, previous, verifiers, horizon)
          + WindowFindings(p, t, c, LastChecked(s, previous), verifiers, horizon)
  {
    if s == [] {
      assert s + [c] == [c] && [c][1..] == [];
      assert CheckWindows(p, t, [], Some(c), verifiers, horizon) == [];
    } else {
      var a := WindowFindings(p, t, s[0], previous, verifiers, horizon);
      var b := CheckWindows(p, t, s[1..], Some(s[0]), verifiers, horizon);
      var d := WindowFindings(p, t, c, LastChecked(s, previous), verifiers, horizon);
      CheckWindowsSnoc(p, t, s[1..], c, Some(s[0]), verifiers, horizon);
      assert (s + [c])[1..] == s[1..] + [c];
      assert LastChecked(s, previous) == LastChecked(s[1..], Some(s[0]));
      assert CheckWindows(p, t, s + [c], previous, verifiers, horizon) == a + (b + d);
      Associates(a, b, d);
    }
  }

  method CheckOne(p: Primitives, t: Table, c: Checkpoint, previous: Option<Checkpoint>, verifiers: Verifiers,
                  horizon: Option<Instant>) returns (found: seq<Finding>)
    requires DistinctKeys(t.rows)
    ensures found == WindowFindings(p, t, c, previous, verifiers, horizon)
  {
    var digest := ComputeDigest(p, t.rows, c.start, c.end, c.prevHash);
    found := GapBefore(previous, c) + [CheckWindow(p, digest, c, previous, verifiers, t.instance, horizon)];
  }

  /** The loop over the selected windows; each window's rows arrive in whatever order the database likes. */
  method CheckSelected(p: Primitives, t: Table, checkpoints: seq<Checkpoint>, before: Option<Checkpoint>,
                       verifiers: Verifiers, horizon: Option<Instant>)
    returns (results: seq<Finding>, previous: Option<Checkpoint>)
    requires DistinctKeys(t.rows)
    ensures results == CheckWindows(p, t, checkpoints, before, verifiers, horizon)
    ensures previous == LastChecked(checkpoints, before)
  {
    results, previous := [], before;
    ghost var all := CheckWindows(p, t, checkpoints, before, verifiers, horizon);
    for i := 0 to |checkpoints|
      invariant previous == if i == 0 then before else Some(checkpoints[i - 1])
      invariant results + CheckWindows(p, t, checkpoints[i..], previous, verifiers, horizon) == all
    {
      var found := CheckOne(p, t, checkpoints[i], previous, verifiers, horizon);
      CheckWindowsHead(p, t, checkpoints, i, previous, verifiers, horizon, results);
      results, previous := results + found, Some(checkpoints[i]);
    }
  }

  lemma CheckWindowsHead(p: Primitives, t: Table, s: seq<Checkpoint>, i: nat, previous: Option<Checkpoint>,
                         verifiers: Verifiers, horizon: Option<Instant>, before: seq<Finding>)
    requires DistinctKeys(t.rows) && i < |s|
    ensures before + CheckWindows(p, t, s[i..], previous, verifiers, horizon)
         == before + WindowFindings(p, t, s[i], previous, verifiers, horizon)
          + CheckWindows(p, t, s[i + 1..], Some(s[i]), verifiers, horizon)
  {
    assert s[i..][0] == s[i] && s[i..][1..] == s[i + 1..];
    Associates(before, WindowFindings(p, t, s[i], previous, verifiers, horizon),
               CheckWindows(p, t, s[i + 1..], Some(s[i]), verifiers, horizon));
  }

  /** Recompute the windows of a range and report each. */
  method VerifyCheckpoints(p: Primitives, t: Table, keys: Option<Verifiers>, from: Instant, to: Instant)
    returns (report: Report)
    requires DistinctKeys(t.rows)
    ensures report == Verify(p, t, keys, from, to)
  {
    if from > to || to - from > MAX_VERIFY_RANGE || (keys.Some? && keys.value == map[]) {
      return Refused;
    }
    var verifiers := if keys.Some? then keys.value else map[];
    if t.chain == [] {
      return Report(true, verifiers != map[], []);
    }
    var orphans := Orphans(t, from, to);
    var horizon := FindPruningHorizon(p, verifiers, t.chain, t.instance);
    var windows, previous :=
      CheckSelected(p, t, Selected(t.chain, from, to), Predecessor(t.chain, from), verifiers, horizon);
    var results := orphans + windows + TrailingGap(t.chain, previous, to);
    report := Report(AllFine(results), verifiers != map[], results);
  }
}
