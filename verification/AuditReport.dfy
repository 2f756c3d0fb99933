/** What a verification report means, read off the table alone: for every table, range and set of keys, when it says
    that all is well and what it says of each window. */
module AuditReport {
  import opened Wrappers
  import opened Sequences
  import opened AuditTime
  import opened AuditLog
  import opened AuditChain
  import opened AuditVerify
  import opened AuditEvidence
  import opened AuditTamper

  // ---- The requirements on one window ----

  ghost function RowsOf(t: Table, c: Checkpoint): set<Row> {
    set r | r in t.rows && c.start <= r.at < c.end
  }

  /** The window's rows, in order and with its link, hash to what the checkpoint records. */
  ghost predicate Intact(p: Primitives, t: Table, c: Checkpoint)
    requires DistinctKeys(t.rows)
  {
    && c.rowCount == |RowsOf(t, c)|
    && c.hash == p.sha(Preimage(p, Ordered(RowsOf(t, c)), c.prevHash))
  }

  /** One of the keys has signed the deployment, the window, its rows, its link and its retention. */
  predicate Signed(p: Primitives, keys: Verifiers, c: Checkpoint, instance: string) {
    && c.keyId.Some? && c.keyId.value in keys
    && c.signature == Some(p.sign(keys[c.keyId.value],
                                  Message(instance, c.start, c.end, c.rowCount, c.hash, c.prevHash, c.days, c.hold)))
  }

  /** The checkpoint lets rows before `t` go: not under legal hold, retention on, its own window `days` past `t`, and
      signed when there are keys. */
  predicate LetsGo(p: Primitives, keys: Verifiers, c: Checkpoint, instance: string, t: Instant) {
    && !c.hold && 0 < c.days < (c.end - EARLIEST) / DAY && t + c.days * DAY <= c.end
    && (keys == map[] || Signed(p, keys, c, instance))
  }

  /** All rows are gone, there were some, and a checkpoint of the table lets them go. */
  ghost predicate Excused(p: Primitives, t: Table, keys: Verifiers, c: Checkpoint) {
    && RowsOf(t, c) == {} && c.rowCount > 0
    && exists i :: 0 <= i < |t.chain| && LetsGo(p, keys, t.chain[i], t.instance, c.end)
  }

  /** The checkpoint read just before: the newest one below `n` that starts before the range or lies inside it. */
  function Before(chain: seq<Checkpoint>, from: Instant, to: Instant, n: nat): (i: int)
    requires n <= |chain|
    ensures -1 <= i < n
    ensures i >= 0 ==> Read(chain[i], from, to)
    ensures forall k :: i < k < n ==> !Read(chain[k], from, to)
  {
    if n == 0 then -1 else if Read(chain[n - 1], from, to) then n - 1 else Before(chain, from, to, n - 1)
  }

  predicate Read(c: Checkpoint, from: Instant, to: Instant) {
    c.start < from || (from <= c.start && c.end <= to)
  }

  /** The checkpoint names the hash of the one read before it, and nothing when there is none. */
  predicate LinkRight(chain: seq<Checkpoint>, from: Instant, to: Instant, i: nat)
    requires i < |chain|
  {
    var j := Before(chain, from, to, i);
    chain[i].prevHash == if j < 0 then None else Some(chain[j].hash)
  }

  /** Its window starts where that one ends. */
  predicate NoGap(chain: seq<Checkpoint>, from: Instant, to: Instant, i: nat)
    requires i < |chain|
  {
    var j := Before(chain, from, to, i);
    j >= 0 ==> chain[j].end == chain[i].start
  }

  /** After the last checkpoint read, the next window in the table starts where it ends, if the range goes on. */
  ghost predicate NoGapBehind(chain: seq<Checkpoint>, from: Instant, to: Instant) {
    var j := Before(chain, from, to, |chain|);
    j >= 0 && chain[j].end < to ==>
      forall k :: 0 <= k < |chain| && chain[k].start >= chain[j].end && (forall m :: 0 <= m < k ==> chain[m].start < chain[j].end)
                  ==> chain[k].start == chain[j].end
  }

  /** No row of the range lies before the first window. */
  ghost predicate NoneUnsealed(t: Table, from: Instant, to: Instant)
    requires t.chain != []
  {
    forall r :: r in t.rows ==> !(from <= r.at < t.chain[0].start && r.at < to)
  }

  ghost predicate InRange(c: Checkpoint, from: Instant, to: Instant) {
    from <= c.start && c.end <= to
  }

  ghost predicate WindowRight(p: Primitives, t: Table, keys: Verifiers, from: Instant, to: Instant, i: nat)
    requires DistinctKeys(t.rows) && i < |t.chain|
  {
    var c := t.chain[i];
    && (Intact(p, t, c) || Excused(p, t, keys, c))
    && (keys != map[] ==> Signed(p, keys, c, t.instance))
    && LinkRight(t.chain, from, to, i) && NoGap(t.chain, from, to, i)
  }

  /** What an `ok` report stands for. */
  ghost predicate AllRight(p: Primitives, t: Table, keys: Verifiers, from: Instant, to: Instant)
    requires DistinctKeys(t.rows)
  {
    t.chain == [] ||
    (&& NoneUnsealed(t, from, to) && NoGapBehind(t.chain, from, to)
     && forall i :: 0 <= i < |t.chain| && InRange(t.chain[i], from, to) ==> WindowRight(p, t, keys, from, to, i))
  }

  // ---- The horizon and the signature ----

  lemma {:induction false} SignedIsOk(p: Primitives, keys: Verifiers, c: Checkpoint, instance: string)
    ensures SignatureOk(p, keys, c, instance) <==> Signed(p, keys, c, instance)
  {}

  lemma {:induction false} ExcusesIff(p: Primitives, keys: Verifiers, c: Checkpoint, instance: string, t: Instant)
    ensures Excuses(p, keys, c, instance) && t <= RetentionHorizon(c).value <==> LetsGo(p, keys, c, instance, t)
  {}

  /** A window end is behind the horizon exactly when some checkpoint lets it go. */
  lemma {:induction false} BehindHorizonIff(p: Primitives, t: Table, keys: Verifiers, end: Instant)
    ensures var h := PruningHorizon(p, keys, t.chain, t.instance);
            h.Some? && end <= h.value <==> exists i :: 0 <= i < |t.chain| && LetsGo(p, keys, t.chain[i], t.instance, end)
  {
    var h := PruningHorizon(p, keys, t.chain, t.instance);
    if h.Some? && end <= h.value {
      var i := PruningHorizonAttained(p, keys, t.chain, t.instance);
      ExcusesIff(p, keys, t.chain[i], t.instance, end);
    }
    if i :| 0 <= i < |t.chain| && LetsGo(p, keys, t.chain[i], t.instance, end) {
      ExcusesIff(p, keys, t.chain[i], t.instance, end);
      PruningHorizonBounds(p, keys, t.chain, t.instance, i);
    }
  }

  lemma {:induction false} IntactIff(p: Primitives, t: Table, c: Checkpoint)
    requires DistinctKeys(t.rows)
    ensures WindowDigest(p, t.rows, c.start, c.end, c.prevHash) == Digest(c.rowCount, c.hash) <==> Intact(p, t, c)
    ensures WindowDigest(p, t.rows, c.start, c.end, c.prevHash).rowCount == |RowsOf(t, c)|
  {
    assert RowsOf(t, c) == Window(t.rows, c.start, c.end);
  }

  lemma {:induction false} PrunedIff(p: Primitives, t: Table, keys: Verifiers, c: Checkpoint)
    requires DistinctKeys(t.rows)
    ensures IsPruned(WindowDigest(p, t.rows, c.start, c.end, c.prevHash), c, PruningHorizon(p, keys, t.chain, t.instance))
            <==> Excused(p, t, keys, c)
  {
    IntactIff(p, t, c);
    BehindHorizonIff(p, t, keys, c.end);
    assert |RowsOf(t, c)| == 0 <==> RowsOf(t, c) == {};
  }

  // ---- One window's verdict ----

  /** What is reported of a window: the first of its defects, and whether its rows were let go. */
  ghost predicate Verdict(p: Primitives, t: Table, keys: Verifiers, c: Checkpoint, linked: bool, f: Finding)
    requires DistinctKeys(t.rows)
  {
    var rows := Intact(p, t, c) || Excused(p, t, keys, c);
    var signed := keys != map[] ==> Signed(p, keys, c, t.instance);
    && f.start == c.start && f.end == c.end && f.expected == Some(c.rowCount)
    && (f.pruned <==> Excused(p, t, keys, c))
    && f.actual == (if f.pruned then None else Some(|RowsOf(t, c)|))
    && (f.status == RowMismatch <==> !rows)
    && (f.status == BadSignature <==> rows && !signed)
    && (f.status == BrokenChain <==> rows && signed && !linked)
    && (f.status == Fine <==> rows && signed && linked)
  }

  lemma {:induction false} CheckedWindow(p: Primitives, t: Table, keys: Verifiers, c: Checkpoint, previous: Option<Checkpoint>)
    requires DistinctKeys(t.rows)
    ensures var horizon := PruningHorizon(p, keys, t.chain, t.instance);
            var f := CheckWindow(p, WindowDigest(p, t.rows, c.start, c.end, c.prevHash), c, previous, keys, t.instance, horizon);
            Verdict(p, t, keys, c, c.prevHash == (if previous.None? then None else Some(previous.value.hash)), f)
  {
    IntactIff(p, t, c);
    PrunedIff(p, t, keys, c);
    SignedIsOk(p, keys, c, t.instance);
  }

  // ---- Which checkpoints are read ----

  lemma {:induction false} SelectedSnoc(chain: seq<Checkpoint>, n: nat, from: Instant, to: Instant)
    requires n < |chain|
    ensures Selected(chain[..n + 1], from, to)
         == Selected(chain[..n], from, to) + (if InRange(chain[n], from, to) then [chain[n]] else [])
  {
    assert chain[..n + 1] == chain[..n] + [chain[n]];
    SelectedConcat(chain[..n], [chain[n]], from, to);
    assert [chain[n]][1..] == [] && Selected([], from, to) == [];
    assert Selected([chain[n]], from, to) == if InRange(chain[n], from, to) then [chain[n]] else [];
  }

  lemma {:induction false} NothingSelected(chain: seq<Checkpoint>, from: Instant, to: Instant, n: nat)
    requires ByStart(chain) && 0 < n <= |chain| && chain[n - 1].start < from && (n == |chain| || chain[n].start >= from)
    ensures Selected(chain[..n], from, to) == [] && Predecessor(chain, from) == Some(chain[n - 1])
  {
    forall i | 0 <= i < n
      ensures chain[..n][i].start < from
    {
      assert i < n - 1 ==> chain[i].start < chain[n - 1].start;
    }
    SelectedNone(chain[..n], from, to);
    forall i | n <= i < |chain|
      ensures chain[i].start >= from
    {
      assert i > n ==> chain[n].start < chain[i].start;
    }
    PredecessorAt(chain, n, from);
  }

  /** The checkpoint a window is compared with is the one read before it. */
  lemma {:induction false} ReadBefore(chain: seq<Checkpoint>, from: Instant, to: Instant, n: nat)
    requires ByStart(chain) && n <= |chain| && (n == |chain| || chain[n].start >= from)
    ensures var j := Before(chain, from, to, n);
            LastChecked(Selected(chain[..n], from, to), Predecessor(chain, from)) == if j < 0 then None else Some(chain[j])
  {
    if n == 0 {
      assert forall i :: 0 <= i < |chain| ==> chain[i].start >= from;
      PredecessorAt(chain, 0, from);
    } else if chain[n - 1].start < from {
      NothingSelected(chain, from, to, n);
    } else {
      SelectedSnoc(chain, n - 1, from, to);
      if !InRange(chain[n - 1], from, to) {
        ReadBefore(chain, from, to, n - 1);
        Trimmed(Selected(chain[..n - 1], from, to));
      }
    }
  }

  // ---- All windows ----

  ghost predicate RightUpTo(p: Primitives, t: Table, keys: Verifiers, from: Instant, to: Instant, n: nat)
    requires DistinctKeys(t.rows) && n <= |t.chain|
  {
    n > 0 ==>
      && RightUpTo(p, t, keys, from, to, n - 1)
      && (InRange(t.chain[n - 1], from, to) ==> WindowRight(p, t, keys, from, to, n - 1))
  }

  lemma {:induction false} RightUpToMeans(p: Primitives, t: Table, keys: Verifiers, from: Instant, to: Instant, n: nat)
    requires DistinctKeys(t.rows) && n <= |t.chain|
    ensures RightUpTo(p, t, keys, from, to, n) <==>
            forall i :: 0 <= i < n && InRange(t.chain[i], from, to) ==> WindowRight(p, t, keys, from, to, i)
  {
    if n > 0 {
      RightUpToMeans(p, t, keys, from, to, n - 1);
    }
  }

  lemma {:induction false} OneWindowFine(p: Primitives, t: Table, keys: Verifiers, from: Instant, to: Instant, i: nat)
    requires DistinctKeys(t.rows) && ByStart(t.chain) && i < |t.chain| && InRange(t.chain[i], from, to)
    ensures var previous := LastChecked(Selected(t.chain[..i], from, to), Predecessor(t.chain, from));
            AllFine(WindowFindings(p, t, t.chain[i], previous, keys, PruningHorizon(p, keys, t.chain, t.instance)))
            <==> WindowRight(p, t, keys, from, to, i)
  {
    var c, previous := t.chain[i], LastChecked(Selected(t.chain[..i], from, to), Predecessor(t.chain, from));
    var horizon := PruningHorizon(p, keys, t.chain, t.instance);
    ReadBefore(t.chain, from, to, i);
    CheckedWindow(p, t, keys, c, previous);
    var f := CheckWindow(p, WindowDigest(p, t.rows, c.start, c.end, c.prevHash), c, previous, keys, t.instance, horizon);
    assert WindowFindings(p, t, c, previous, keys, horizon) == GapBefore(previous, c) + [f];
    AllFineConcat(GapBefore(previous, c), [f]);
    assert f in [f];
    assert AllFine(GapBefore(previous, c)) <==> NoGap(t.chain, from, to, i) by {
      if previous.Some? && previous.value.end != c.start {
        assert Missing(previous.value.end, c.start) in GapBefore(previous, c);
      }
    }
  }

  lemma {:induction false} WindowsFine(p: Primitives, t: Table, keys: Verifiers, from: Instant, to: Instant, n: nat)
    requires DistinctKeys(t.rows) && ByStart(t.chain) && n <= |t.chain|
    ensures var horizon := PruningHorizon(p, keys, t.chain, t.instance);
            AllFine(CheckWindows(p, t, Selected(t.chain[..n], from, to), Predecessor(t.chain, from), keys, horizon))
            <==> RightUpTo(p, t, keys, from, to, n)
  {
    if n > 0 {
      WindowsFine(p, t, keys, from, to, n - 1);
      if InRange(t.chain[n - 1], from, to) {
        OneMoreWindow(p, t, keys, from, to, n - 1);
      } else {
        SelectedSnoc(t.chain, n - 1, from, to);
        Trimmed(Selected(t.chain[..n - 1], from, to));
      }
    }
  }

  lemma {:induction false} OneMoreWindow(p: Primitives, t: Table, keys: Verifiers, from: Instant, to: Instant, i: nat)
    requires DistinctKeys(t.rows) && ByStart(t.chain) && i < |t.chain| && InRange(t.chain[i], from, to)
    ensures var horizon, previous := PruningHorizon(p, keys, t.chain, t.instance), Predecessor(t.chain, from);
            AllFine(CheckWindows(p, t, Selected(t.chain[..i + 1], from, to), previous, keys, horizon))
            <==> AllFine(CheckWindows(p, t, Selected(t.chain[..i], from, to), previous, keys, horizon))
                 && WindowRight(p, t, keys, from, to, i)
  {
    var horizon, previous := PruningHorizon(p, keys, t.chain, t.instance), Predecessor(t.chain, from);
    var s := Selected(t.chain[..i], from, to);
    SelectedSnoc(t.chain, i, from, to);
    CheckWindowsSnoc(p, t, s, t.chain[i], previous, keys, horizon);
    OneWindowFine(p, t, keys, from, to, i);
    AllFineConcat(CheckWindows(p, t, s, previous, keys, horizon),
                  WindowFindings(p, t, t.chain[i], LastChecked(s, previous), keys, horizon));
  }

  // ---- The ends of the range ----

  lemma {:induction false} OrphansIff(t: Table, from: Instant, to: Instant)
    requires t.chain != []
    ensures AllFine(Orphans(t, from, to)) <==> NoneUnsealed(t, from, to)
  {
    var first := t.chain[0].start;
    var end := if first <= to then first else to;
    var w := Window(t.rows, from, end);
    assert forall r :: r in w <==> r in t.rows && from <= r.at < end;
    assert |w| == 0 <==> w == {};
    if first > from && w != {} {
      var r :| r in w;
      assert Orphans(t, from, to)[0] in Orphans(t, from, to);
    }
  }

  lemma {:induction false} SuccessorIs(chain: seq<Checkpoint>, t: Instant) returns (k: nat)
    ensures k <= |chain| && forall m :: 0 <= m < k ==> chain[m].start < t
    ensures k < |chain| ==> chain[k].start >= t && Successor(chain, t) == Some(chain[k])
    ensures k == |chain| ==> Successor(chain, t) == None
  {
    if chain == [] || chain[0].start >= t {
      k := 0;
    } else {
      k := SuccessorIs(chain[1..], t);
      k := k + 1;
    }
  }

  lemma {:induction false} TrailingIff(chain: seq<Checkpoint>, from: Instant, to: Instant)
    requires ByStart(chain)
    ensures AllFine(TrailingGap(chain, LastChecked(Selected(chain, from, to), Predecessor(chain, from)), to))
            <==> NoGapBehind(chain, from, to)
  {
    assert chain[..|chain|] == chain;
    ReadBefore(chain, from, to, |chain|);
    var j := Before(chain, from, to, |chain|);
    if j >= 0 && chain[j].end < to {
      var k := SuccessorIs(chain, chain[j].end);
      var gap := TrailingGap(chain, Some(chain[j]), to);
      if k < |chain| && chain[k].start != chain[j].end {
        assert gap[0] in gap;
      }
      forall n | 0 <= n < |chain| && chain[n].start >= chain[j].end && forall m :: 0 <= m < n ==> chain[m].start < chain[j].end
        ensures n == k
      {}
    }
  }

  // ---- The theorems ----

  function KeysOf(keys: Option<Verifiers>): Verifiers {
    if keys.Some? then keys.value else map[]
  }

  /** Exactly what `ok` means. For every table, and whether or not keys are given: no unsealed rows, no gap in front of,
      between or behind the windows, and each window of the range intact or legitimately emptied, signed when there are
      keys, and linked to the one read before it. A range or a set of keys that is not admissible is refused. */
  lemma {:induction false} OkIff(p: Primitives, t: Table, keys: Option<Verifiers>, from: Instant, to: Instant)
    requires DistinctKeys(t.rows) && ByStart(t.chain)
    ensures var report := Verify(p, t, keys, from, to);
            && (report.Refused? <==> from > to || to - from > 366 * DAY || keys == Some(map[]))
            && (report.Report? ==>
                  && (report.signed <==> keys.Some?)
                  && (report.ok <==> AllRight(p, t, KeysOf(keys), from, to)))
  {
    if Verify(p, t, keys, from, to).Report? && t.chain != [] {
      var verifiers := KeysOf(keys);
      var horizon, previous := PruningHorizon(p, verifiers, t.chain, t.instance), Predecessor(t.chain, from);
      var selected := Selected(t.chain, from, to);
      assert t.chain[..|t.chain|] == t.chain;
      WindowsFine(p, t, verifiers, from, to, |t.chain|);
      RightUpToMeans(p, t, verifiers, from, to, |t.chain|);
      OrphansIff(t, from, to);
      TrailingIff(t.chain, from, to);
      var a, b, d := Orphans(t, from, to), CheckWindows(p, t, selected, previous, verifiers, horizon),
                     TrailingGap(t.chain, LastChecked(selected, previous), to);
      AllFineConcat(a + b, d);
      AllFineConcat(a, b);
    }
  }

  /** A report with keys that is `ok` vouches for the signature of every checkpoint it covers. */
  lemma {:induction false} OkMeansSigned(p: Primitives, t: Table, keys: Verifiers, from: Instant, to: Instant, i: nat)
    requires DistinctKeys(t.rows) && ByStart(t.chain) && i < |t.chain| && InRange(t.chain[i], from, to)
    requires Verify(p, t, Some(keys), from, to).Report? && Verify(p, t, Some(keys), from, to).ok
    ensures Signed(p, keys, t.chain[i], t.instance)
  {
    OkIff(p, t, Some(keys), from, to);
  }

  lemma {:induction false} ReportedAmong(p: Primitives, t: Table, s: seq<Checkpoint>, c: Checkpoint, r: seq<Checkpoint>,
                                         previous: Option<Checkpoint>, keys: Verifiers, horizon: Option<Instant>, f: Finding)
    requires DistinctKeys(t.rows) && f in WindowFindings(p, t, c, LastChecked(s, previous), keys, horizon)
    ensures f in CheckWindows(p, t, s + ([c] + r), previous, keys, horizon)
  {
    var all := s + ([c] + r);
    if s == [] {
      assert all[0] == c;
    } else {
      assert all[0] == s[0] && all[1..] == s[1..] + ([c] + r);
      assert LastChecked(s[1..], Some(s[0])) == LastChecked(s, previous);
      ReportedAmong(p, t, s[1..], c, r, Some(s[0]), keys, horizon, f);
    }
  }

  /** What is said of each window, for every table: its verdict, and the gap in front of it if there is one. */
  lemma {:induction false} EachWindowReported(p: Primitives, t: Table, keys: Option<Verifiers>, from: Instant, to: Instant, i: nat)
    returns (f: Finding)
    requires DistinctKeys(t.rows) && ByStart(t.chain) && Verify(p, t, keys, from, to).Report?
    requires i < |t.chain| && InRange(t.chain[i], from, to)
    ensures f in Verify(p, t, keys, from, to).findings
    ensures Verdict(p, t, KeysOf(keys), t.chain[i], LinkRight(t.chain, from, to, i), f)
    ensures !NoGap(t.chain, from, to, i) ==>
              Finding(t.chain[Before(t.chain, from, to, i)].end, t.chain[i].start, MissingWindow, false, None, None)
              in Verify(p, t, keys, from, to).findings
  {
    var verifiers, c := KeysOf(keys), t.chain[i];
    var horizon, previous := PruningHorizon(p, verifiers, t.chain, t.instance), Predecessor(t.chain, from);
    var s, r := Selected(t.chain[..i], from, to), Selected(t.chain[i + 1..], from, to);
    SelectedAround(t.chain, i, from, to);
    ReadBefore(t.chain, from, to, i);
    CheckedWindow(p, t, verifiers, c, LastChecked(s, previous));
    f := CheckWindow(p, WindowDigest(p, t.rows, c.start, c.end, c.prevHash), c, LastChecked(s, previous), verifiers, t.instance, horizon);
    ReportedAmong(p, t, s, c, r, previous, verifiers, horizon, f);
    if !NoGap(t.chain, from, to, i) {
      var gap := Finding(t.chain[Before(t.chain, from, to, i)].end, c.start, MissingWindow, false, None, None);
      assert gap in GapBefore(LastChecked(s, previous), c);
      ReportedAmong(p, t, s, c, r, previous, verifiers, horizon, gap);
    }
  }

  /** What is said of the time around the windows: rows dated before the first one, counted, and the gap behind the last. */
  lemma {:induction false} EdgesReported(p: Primitives, t: Table, keys: Option<Verifiers>, from: Instant, to: Instant)
    requires DistinctKeys(t.rows) && ByStart(t.chain) && Verify(p, t, keys, from, to).Report? && t.chain != []
    ensures !NoneUnsealed(t, from, to) ==>
              var end := if t.chain[0].start <= to then t.chain[0].start else to;
              Finding(from, end, RowMismatch, false, Some(0), Some(|set r | r in t.rows && from <= r.at < end|))
              in Verify(p, t, keys, from, to).findings
    ensures !NoGapBehind(t.chain, from, to) ==>
              exists k :: 0 <= k < |t.chain|
                && Finding(t.chain[Before(t.chain, from, to, |t.chain|)].end, t.chain[k].start, MissingWindow, false, None, None)
                   in Verify(p, t, keys, from, to).findings
  {
    var verifiers := KeysOf(keys);
    var selected, previous := Selected(t.chain, from, to), Predecessor(t.chain, from);
    var windows := CheckWindows(p, t, selected, previous, verifiers, PruningHorizon(p, verifiers, t.chain, t.instance));
    var first, last := Orphans(t, from, to), TrailingGap(t.chain, LastChecked(selected, previous), to);
    assert Findings(p, t, verifiers, from, to) == first + windows + last;
    assert forall f :: f in first || f in last ==> f in first + windows + last;
    OrphansIff(t, from, to);
    if !NoneUnsealed(t, from, to) {
      var end := if t.chain[0].start <= to then t.chain[0].start else to;
      assert Window(t.rows, from, end) == set r | r in t.rows && from <= r.at < end;
      assert first[0] in first;
    }
    if !NoGapBehind(t.chain, from, to) {
      assert t.chain[..|t.chain|] == t.chain;
      ReadBefore(t.chain, from, to, |t.chain|);
      TrailingIff(t.chain, from, to);
      var k := SuccessorIs(t.chain, t.chain[Before(t.chain, from, to, |t.chain|)].end);
      assert last[0] in last;
    }
  }

  // ---- What a signature binds ----

  /** Under a key that signs no two messages alike, one signature vouches for one deployment, window, row count, hash,
      link and retention: none of them can be changed, and no checkpoint replayed elsewhere. */
  lemma {:induction false} SignatureBinds(p: Primitives, keys: Verifiers, c: Checkpoint, instance: string, d: Checkpoint, other: string)
    requires forall k, m, n :: p.sign(k, m) == p.sign(k, n) ==> m == n
    requires SignatureOk(p, keys, c, instance) && SignatureOk(p, keys, d, other)
    requires c.keyId == d.keyId && c.signature == d.signature
    ensures instance == other && c == d
  {}
}
