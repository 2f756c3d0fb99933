/** The ranges that verification reads, and why an intact log is never reported. */
module AuditEvidence {
  import opened Wrappers
  import opened AuditTime
  import opened AuditLog
  import opened AuditChain
  import opened AuditVerify

  // ---- No false alarms ----

  /** The table a correct sealer leaves: windows back to back, each naming the hash before it. */
  ghost predicate Linked(chain: seq<Checkpoint>) {
    && (forall i :: 0 <= i < |chain| ==> chain[i].start < chain[i].end)
    && (forall i :: 0 < i < |chain| ==>
          chain[i].start == chain[i - 1].end && chain[i].prevHash == Some(chain[i - 1].hash))
    && (chain != [] ==> chain[0].prevHash == None)
  }

  ghost predicate RowsIntact(p: Primitives, rows: set<Row>, c: Checkpoint)
    requires DistinctKeys(rows)
  {
    WindowDigest(p, rows, c.start, c.end, c.prevHash) == Digest(c.rowCount, c.hash)
  }

  ghost predicate RowsExcused(rows: set<Row>, c: Checkpoint, horizon: Option<Instant>) {
    Window(rows, c.start, c.end) == {} && c.rowCount > 0 && horizon.Some? && c.end <= horizon.value
  }

  ghost predicate Accepted(p: Primitives, t: Table, verifiers: Verifiers, c: Checkpoint)
    requires DistinctKeys(t.rows)
  {
    && (RowsIntact(p, t.rows, c)
        || RowsExcused(t.rows, c, PruningHorizon(p, verifiers, t.chain, t.instance)))
    && (verifiers != map[] ==> SignatureOk(p, verifiers, c, t.instance))
  }

  lemma {:induction false} LinkedOrder(chain: seq<Checkpoint>, i: nat, j: nat)
    requires Linked(chain) && i < j < |chain|
    ensures chain[i].end <= chain[j].start
  {
    if i + 1 < j {
      LinkedOrder(chain, i, j - 1);
    }
  }

  lemma {:induction false} SelectedConcat(s: seq<Checkpoint>, t: seq<Checkpoint>, from: Instant, to: Instant)
    ensures Selected(s + t, from, to) == Selected(s, from, to) + Selected(t, from, to)
  {
    if s == [] {
      assert s + t == t;
    } else {
      SelectedConcat(s[1..], t, from, to);
      assert (s + t)[0] == s[0] && (s + t)[1..] == s[1..] + t;
      var head := if Inside(s[0], from, to) then [s[0]] else [];
      var a, b := Selected(s[1..], from, to), Selected(t, from, to);
      assert head + (a + b) == (head + a) + b;
    }
  }

  lemma {:induction false} SelectedNone(s: seq<Checkpoint>, from: Instant, to: Instant)
    requires forall i :: 0 <= i < |s| ==> !Inside(s[i], from, to)
    ensures Selected(s, from, to) == []
  {
    if s != [] {
      SelectedNone(s[1..], from, to);
    }
  }

  lemma {:induction false} SelectedEvery(s: seq<Checkpoint>, from: Instant, to: Instant)
    requires forall i :: 0 <= i < |s| ==> Inside(s[i], from, to)
    ensures Selected(s, from, to) == s
  {
    if s != [] {
      SelectedEvery(s[1..], from, to);
      assert s == [s[0]] + s[1..];
    }
  }

  /** The predecessor query on a prefix whose newest element still starts before `t`. */
  lemma {:induction false} PredecessorAt(chain: seq<Checkpoint>, a: nat, t: Instant)
    requires a <= |chain|
    requires forall i :: a <= i < |chain| ==> chain[i].start >= t
    requires a > 0 ==> chain[a - 1].start < t
    ensures Predecessor(chain, t) == if a == 0 then None else Some(chain[a - 1])
    decreases |chain|
  {
    if a < |chain| {
      var shorter := chain[..|chain| - 1];
      PredecessorAt(shorter, a, t);
    }
  }

  lemma {:induction false} SuccessorAt(chain: seq<Checkpoint>, b: nat, t: Instant)
    requires b < |chain| && chain[b].start >= t
    requires forall i :: 0 <= i < b ==> chain[i].start < t
    ensures Successor(chain, t) == Some(chain[b])
  {
    if b > 0 {
      SuccessorAt(chain[1..], b - 1, t);
    }
  }

  lemma {:induction false} SuccessorNone(chain: seq<Checkpoint>, t: Instant)
    requires forall i :: 0 <= i < |chain| ==> chain[i].start < t
    ensures Successor(chain, t) == None
  {
    if chain != [] {
      SuccessorNone(chain[1..], t);
    }
  }

  function CutBefore(chain: seq<Checkpoint>, from: Instant): (a: nat)
    ensures a <= |chain|
    ensures forall i :: 0 <= i < a ==> chain[i].start < from
    ensures a < |chain| ==> chain[a].start >= from
  {
    if chain == [] || chain[0].start >= from then 0 else 1 + CutBefore(chain[1..], from)
  }

  function CutAfter(chain: seq<Checkpoint>, to: Instant): (b: nat)
    ensures b <= |chain|
    ensures forall i :: 0 <= i < b ==> chain[i].end <= to
    ensures b < |chain| ==> chain[b].end > to
  {
    if chain == [] || chain[0].end > to then 0 else 1 + CutAfter(chain[1..], to)
  }

  lemma LinkedStarts(chain: seq<Checkpoint>, k: nat, t: Instant)
    requires Linked(chain) && (k < |chain| ==> chain[k].start >= t)
    ensures forall i :: k <= i < |chain| ==> chain[i].start >= t
  {
    forall i | k < i < |chain|
      ensures chain[i].start >= t
    {
      LinkedOrder(chain, k, i);
    }
  }

  lemma LinkedEnds(chain: seq<Checkpoint>, k: nat, t: Instant)
    requires Linked(chain) && (k < |chain| ==> chain[k].end > t)
    ensures forall i :: k <= i < |chain| ==> chain[i].end > t
  {
    forall i | k < i < |chain|
      ensures chain[i].end > t
    {
      LinkedOrder(chain, k, i);
    }
  }

  lemma SelectedSlice(chain: seq<Checkpoint>, a: nat, b: nat, from: Instant, to: Instant)
    requires a <= b <= |chain|
    requires forall i :: 0 <= i < a || b <= i < |chain| ==> !Inside(chain[i], from, to)
    requires forall i :: a <= i < b ==> Inside(chain[i], from, to)
    ensures Selected(chain, from, to) == chain[a..b]
  {
    var x, y, z := chain[..a], chain[a..b], chain[b..];
    assert chain == (x + y) + z;
    SelectedConcat(x + y, z, from, to);
    SelectedConcat(x, y, from, to);
    SelectedNone(x, from, to);
    SelectedNone(z, from, to);
    SelectedEvery(y, from, to);
  }

  /** On a linked table the range queries cut out a slice and name the checkpoint just before it. */
  lemma RangeIsSlice(chain: seq<Checkpoint>, from: Instant, to: Instant) returns (a: nat, b: nat)
    requires Linked(chain)
    ensures a <= b <= |chain|
    ensures Selected(chain, from, to) == chain[a..b]
    ensures Predecessor(chain, from) == if a == 0 then None else Some(chain[a - 1])
  {
    a := CutBefore(chain, from);
    var k := CutAfter(chain, to);
    b := if k < a then a else k;
    LinkedStarts(chain, a, from);
    LinkedEnds(chain, k, to);
    PredecessorAt(chain, a, from);
    SelectedSlice(chain, a, b, from, to);
  }

  lemma WindowFine(p: Primitives, t: Table, i: nat, verifiers: Verifiers)
    requires DistinctKeys(t.rows) && Linked(t.chain) && i < |t.chain|
    requires Accepted(p, t, verifiers, t.chain[i])
    ensures var previous := if i == 0 then None else Some(t.chain[i - 1]);
            var horizon := PruningHorizon(p, verifiers, t.chain, t.instance);
            AllFine(WindowFindings(p, t, t.chain[i], previous, verifiers, horizon))
  {
    EmptyWindowDigest(p, t.rows, t.chain[i]);
  }

  lemma EmptyWindowDigest(p: Primitives, rows: set<Row>, c: Checkpoint)
    requires DistinctKeys(rows)
    ensures WindowDigest(p, rows, c.start, c.end, c.prevHash).rowCount == |Window(rows, c.start, c.end)|
  {}

  lemma AllFineConcat(s: seq<Finding>, t: seq<Finding>)
    ensures AllFine(s + t) <==> AllFine(s) && AllFine(t)
  {
    assert forall f :: f in s + t <==> f in s || f in t;
  }

  lemma {:induction false} SliceFine(p: Primitives, t: Table, a: nat, b: nat, verifiers: Verifiers)
    requires DistinctKeys(t.rows) && Linked(t.chain) && a <= b <= |t.chain|
    requires forall i :: a <= i < b ==> Accepted(p, t, verifiers, t.chain[i])
    ensures var previous := if a == 0 then None else Some(t.chain[a - 1]);
            var horizon := PruningHorizon(p, verifiers, t.chain, t.instance);
            AllFine(CheckWindows(p, t, t.chain[a..b], previous, verifiers, horizon))
    decreases b - a
  {
    if a < b {
      WindowFine(p, t, a, verifiers);
      SliceFine(p, t, a + 1, b, verifiers);
      var previous := if a == 0 then None else Some(t.chain[a - 1]);
      var horizon := PruningHorizon(p, verifiers, t.chain, t.instance);
      assert t.chain[a..b][1..] == t.chain[a + 1..b] && t.chain[a..b][0] == t.chain[a];
      AllFineConcat(WindowFindings(p, t, t.chain[a], previous, verifiers, horizon),
                    CheckWindows(p, t, t.chain[a + 1..b], Some(t.chain[a]), verifiers, horizon));
    }
  }

  lemma TrailingFine(chain: seq<Checkpoint>, b: nat, to: Instant)
    requires Linked(chain) && b <= |chain|
    ensures TrailingGap(chain, if b == 0 then None else Some(chain[b - 1]), to) == []
  {
    if b > 0 {
      forall i | 0 <= i < b
        ensures chain[i].start < chain[b - 1].end
      {
        if i < b - 1 {
          LinkedOrder(chain, i, b - 1);
        }
      }
      if b < |chain| {
        SuccessorAt(chain, b, chain[b - 1].end);
      } else {
        SuccessorNone(chain, chain[b - 1].end);
      }
    }
  }

  lemma NoOrphans(t: Table, from: Instant, to: Instant)
    requires t.chain != [] && forall r :: r in t.rows ==> r.at >= t.chain[0].start
    ensures Orphans(t, from, to) == []
  {
    var first := t.chain[0].start;
    var end := if first <= to then first else to;
    assert first > from ==> Window(t.rows, from, end) == {};
  }

  lemma IntactFindings(p: Primitives, t: Table, verifiers: Verifiers, from: Instant, to: Instant)
    requires DistinctKeys(t.rows) && Linked(t.chain) && t.chain != []
    requires forall r :: r in t.rows ==> r.at >= t.chain[0].start
    requires forall i :: 0 <= i < |t.chain| ==> Accepted(p, t, verifiers, t.chain[i])
    ensures AllFine(Findings(p, t, verifiers, from, to))
  {
    var a, b := RangeIsSlice(t.chain, from, to);
    SliceFine(p, t, a, b, verifiers);
    TrailingFine(t.chain, b, to);
    NoOrphans(t, from, to);
    var selected, previous := Selected(t.chain, from, to), Predecessor(t.chain, from);
    LastOfSlice(t.chain, a, b, previous);
    var windows := CheckWindows(p, t, selected, previous, verifiers,
                                PruningHorizon(p, verifiers, t.chain, t.instance));
    assert Findings(p, t, verifiers, from, to)
        == Orphans(t, from, to) + windows + TrailingGap(t.chain, LastChecked(selected, previous), to);
    assert [] + windows + [] == windows;
  }

  lemma LastOfSlice(chain: seq<Checkpoint>, a: nat, b: nat, previous: Option<Checkpoint>)
    requires a <= b <= |chain| && previous == if a == 0 then None else Some(chain[a - 1])
    ensures LastChecked(chain[a..b], previous) == if b == 0 then None else Some(chain[b - 1])
  {}

  /** An intact or legitimately pruned log passes verification of every admissible range. */
  lemma IntactLogPasses(p: Primitives, t: Table, keys: Option<Verifiers>, from: Instant, to: Instant)
    requires DistinctKeys(t.rows) && Linked(t.chain)
    requires from <= to && to - from <= MAX_VERIFY_RANGE
    requires keys.Some? ==> keys.value != map[]
    requires t.chain != [] ==> forall r :: r in t.rows ==> r.at >= t.chain[0].start
    requires var verifiers := if keys.Some? then keys.value else map[];
             forall i :: 0 <= i < |t.chain| ==> Accepted(p, t, verifiers, t.chain[i])
    ensures Verify(p, t, keys, from, to).Report? && Verify(p, t, keys, from, to).ok
  {
    if t.chain != [] {
      IntactFindings(p, t, if keys.Some? then keys.value else map[], from, to);
    }
  }
}
