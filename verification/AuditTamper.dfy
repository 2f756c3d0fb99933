/** What clean verification reports prove about the rows: read in one range or in many, from the head of the chain or
    from wherever retention has left it, they pin the rows down to a hash collision. */
module AuditTamper {
  import opened Wrappers
  import opened Sequences
  import opened AuditTime
  import opened AuditLog
  import opened AuditChain
  import opened AuditVerify
  import opened AuditEvidence

  /** Windows that are the digests of given rows, each naming the hash before it. What the first one names is open. */
  ghost predicate Segment(p: Primitives, chain: seq<Checkpoint>, contents: seq<seq<Row>>) {
    && |chain| == |contents|
    && (forall i :: 0 <= i < |chain| ==> Digests(p, chain[i], contents[i]))
    && (forall i :: 0 < i < |chain| ==> chain[i].prevHash == Some(chain[i - 1].hash))
  }

  predicate Digests(p: Primitives, c: Checkpoint, rows: seq<Row>) {
    c.rowCount == |rows| && c.hash == DigestOf(p, rows, c.prevHash)
  }

  /** What the sealer hashed: the rows of each window in order, chained from the very first one. */
  ghost predicate Genuine(p: Primitives, chain: seq<Checkpoint>, contents: seq<seq<Row>>) {
    Segment(p, chain, contents) && (chain != [] ==> chain[0].prevHash == None)
  }

  /** The rows the table holds now for each window. */
  ghost function Present(rows: set<Row>, chain: seq<Checkpoint>): (contents: seq<seq<Row>>)
    requires DistinctKeys(rows)
    ensures |contents| == |chain|
    ensures forall i :: 0 <= i < |chain| ==> contents[i] == Ordered(Window(rows, chain[i].start, chain[i].end))
  {
    seq(|chain|, i requires 0 <= i < |chain| => Ordered(Window(rows, chain[i].start, chain[i].end)))
  }

  // ---- What clean reports say about one window ----

  ghost predicate NoFindings(findings: seq<Finding>) {
    forall f :: f in findings ==> f.status == Fine && !f.pruned
  }

  /** A range that a hash-only verification accepts and reports nothing on, nothing pruned either. */
  ghost predicate Clean(p: Primitives, t: Table, range: (Instant, Instant))
    requires DistinctKeys(t.rows)
  {
    && range.0 <= range.1 && range.1 - range.0 <= MAX_VERIFY_RANGE
    && NoFindings(Verify(p, t, None, range.0, range.1).findings)
  }

  /** One window without finding is the digest of its rows, linked to the checkpoint before it. */
  lemma CleanWindow(p: Primitives, t: Table, c: Checkpoint, previous: Option<Checkpoint>, horizon: Option<Instant>)
    requires DistinctKeys(t.rows) && NoFindings(WindowFindings(p, t, c, previous, map[], horizon))
    ensures Digests(p, c, Ordered(Window(t.rows, c.start, c.end)))
    ensures c.prevHash == if previous.None? then None else Some(previous.value.hash)
  {
    var digest := WindowDigest(p, t.rows, c.start, c.end, c.prevHash);
    var f := CheckWindow(p, digest, c, previous, map[], t.instance, horizon);
    assert f in WindowFindings(p, t, c, previous, map[], horizon);
    assert f.status == Fine && !f.pruned;
  }

  /** Each selected window is checked against the one selected before it. */
  lemma {:induction false} CheckedAmong(p: Primitives, t: Table, s: seq<Checkpoint>, c: Checkpoint, r: seq<Checkpoint>,
                                        previous: Option<Checkpoint>, horizon: Option<Instant>)
    requires DistinctKeys(t.rows) && NoFindings(CheckWindows(p, t, s + ([c] + r), previous, map[], horizon))
    ensures NoFindings(WindowFindings(p, t, c, LastChecked(s, previous), map[], horizon))
  {
    var all := s + ([c] + r);
    var head, tail := WindowFindings(p, t, all[0], previous, map[], horizon),
                      CheckWindows(p, t, all[1..], Some(all[0]), map[], horizon);
    assert forall f :: f in head || f in tail ==> f in head + tail;
    if s != [] {
      assert all[0] == s[0] && all[1..] == s[1..] + ([c] + r);
      CheckedAmong(p, t, s[1..], c, r, Some(s[0]), horizon);
      assert LastChecked(s[1..], Some(s[0])) == LastChecked(s, previous);
    }
  }

  lemma SelectedAround(chain: seq<Checkpoint>, i: nat, from: Instant, to: Instant)
    requires i < |chain| && Inside(chain[i], from, to)
    ensures Selected(chain, from, to)
         == Selected(chain[..i], from, to) + ([chain[i]] + Selected(chain[i + 1..], from, to))
  {
    assert chain == chain[..i] + chain[i..] && chain[i..][0] == chain[i] && chain[i..][1..] == chain[i + 1..];
    SelectedConcat(chain[..i], chain[i..], from, to);
  }

  /** A clean range checks a window inside it against its neighbour in the table, if the neighbour starts before the
      range or lies inside it too. */
  lemma CheckedInRange(p: Primitives, t: Table, range: (Instant, Instant), i: nat)
    requires DistinctKeys(t.rows) && ByStart(t.chain) && Clean(p, t, range)
    requires i < |t.chain| && Inside(t.chain[i], range.0, range.1)
    ensures Digests(p, t.chain[i], Ordered(Window(t.rows, t.chain[i].start, t.chain[i].end)))
    ensures i == 0 ==> t.chain[i].prevHash == None
    ensures i > 0 && (t.chain[i - 1].start < range.0 || Inside(t.chain[i - 1], range.0, range.1)) ==>
              t.chain[i].prevHash == Some(t.chain[i - 1].hash)
  {
    var (from, to) := range;
    var before, after := Selected(t.chain[..i], from, to), Selected(t.chain[i + 1..], from, to);
    var previous, horizon := Predecessor(t.chain, from), PruningHorizon(p, map[], t.chain, t.instance);
    SelectedAround(t.chain, i, from, to);
    assert NoFindings(CheckWindows(p, t, before + ([t.chain[i]] + after), previous, map[], horizon)) by {
      var windows := CheckWindows(p, t, Selected(t.chain, from, to), previous, map[], horizon);
      assert forall f :: f in windows ==> f in Findings(p, t, map[], from, to);
    }
    CheckedAmong(p, t, before, t.chain[i], after, previous, horizon);
    CleanWindow(p, t, t.chain[i], LastChecked(before, previous), horizon);
    NeighbourChecked(t.chain, i, from, to);
  }

  lemma NeighbourChecked(chain: seq<Checkpoint>, i: nat, from: Instant, to: Instant)
    requires ByStart(chain) && i < |chain| && Inside(chain[i], from, to)
    ensures var last := LastChecked(Selected(chain[..i], from, to), Predecessor(chain, from));
            && (i == 0 ==> last == None)
            && (i > 0 && (chain[i - 1].start < from || Inside(chain[i - 1], from, to)) ==> last == Some(chain[i - 1]))
  {
    if i == 0 {
      PredecessorAt(chain, 0, from);
    } else if chain[i - 1].start < from {
      SelectedNone(chain[..i], from, to);
      PredecessorAt(chain, i, from);
    } else if Inside(chain[i - 1], from, to) {
      var shorter := chain[..i];
      assert shorter[i - 1] == chain[i - 1] && shorter[i..] == [];
      SelectedAround(shorter, i - 1, from, to);
      assert Selected(shorter[i..], from, to) == [];
    }
  }

  // ---- Ranges that together cover a stretch of the chain ----

  ghost predicate CoveredAt(t: Table, ranges: seq<(Instant, Instant)>, i: nat)
    requires i < |t.chain|
  {
    exists k :: 0 <= k < |ranges| && Inside(t.chain[i], ranges[k].0, ranges[k].1)
  }

  /** Every window of `[a, b)` lies inside one of the ranges, and each range was reported clean. */
  ghost predicate CleanCover(p: Primitives, t: Table, ranges: seq<(Instant, Instant)>, a: nat, b: nat)
    requires DistinctKeys(t.rows)
  {
    && a <= b <= |t.chain|
    && (forall k :: 0 <= k < |ranges| ==> Clean(p, t, ranges[k]))
    && (forall i :: a <= i < b ==> CoveredAt(t, ranges, i))
  }

  /** Ranges need not meet: of two neighbouring windows some range always checks one against the other. */
  lemma CoveredWindow(p: Primitives, t: Table, ranges: seq<(Instant, Instant)>, a: nat, b: nat, i: nat)
    requires DistinctKeys(t.rows) && ByStart(t.chain) && CleanCover(p, t, ranges, a, b) && a <= i < b
    ensures Digests(p, t.chain[i], Ordered(Window(t.rows, t.chain[i].start, t.chain[i].end)))
    ensures i == 0 ==> t.chain[i].prevHash == None
    ensures i > a ==> t.chain[i].prevHash == Some(t.chain[i - 1].hash)
  {
    assert CoveredAt(t, ranges, i);
    var k :| 0 <= k < |ranges| && Inside(t.chain[i], ranges[k].0, ranges[k].1);
    CheckedInRange(p, t, ranges[k], i);
    if i > a && t.chain[i - 1].start >= ranges[k].0 && t.chain[i - 1].end > ranges[k].1 {
      assert CoveredAt(t, ranges, i - 1);
      var m :| 0 <= m < |ranges| && Inside(t.chain[i - 1], ranges[m].0, ranges[m].1);
      CheckedInRange(p, t, ranges[m], i);
    }
  }

  /** Clean reports mean that every stored checkpoint they cover is the digest of the rows the table holds now. */
  lemma ReportMeansGenuine(p: Primitives, t: Table, ranges: seq<(Instant, Instant)>, a: nat, b: nat)
    requires DistinctKeys(t.rows) && ByStart(t.chain) && CleanCover(p, t, ranges, a, b)
    ensures Segment(p, t.chain[a..b], Present(t.rows, t.chain[a..b]))
    ensures a == 0 ==> Genuine(p, t.chain[a..b], Present(t.rows, t.chain[a..b]))
  {
    var chain := t.chain[a..b];
    forall i | 0 <= i < |chain|
      ensures Digests(p, chain[i], Present(t.rows, chain)[i])
      ensures i > 0 ==> chain[i].prevHash == Some(chain[i - 1].hash)
      ensures a == 0 && i == 0 ==> chain[i].prevHash == None
    {
      CoveredWindow(p, t, ranges, a, b, a + i);
    }
  }

  // ---- Counting back from one known hash ----

  ghost predicate CollisionBetween(p: Primitives, c: seq<Checkpoint>, x: seq<seq<Row>>, d: seq<Checkpoint>,
                                   y: seq<seq<Row>>)
    requires |c| == |x| && |d| == |y|
  {
    exists i, j :: 0 <= i < |c| && 0 <= j < |d|
                && Collision(p, Preimage(p, x[i], c[i].prevHash), Preimage(p, y[j], d[j].prevHash))
  }

  predicate SameWindow(c: Checkpoint, rows: seq<Row>, d: Checkpoint, rows': seq<Row>) {
    rows == rows' && LinkText(c.prevHash) == LinkText(d.prevHash) && c.hash == d.hash && c.rowCount == d.rowCount
  }

  /** The windows of `c` are the last ones of `d`: rows, links and hashes. */
  ghost predicate SameTail(c: seq<Checkpoint>, x: seq<seq<Row>>, d: seq<Checkpoint>, y: seq<seq<Row>>)
    requires |c| == |x| && |d| == |y|
  {
    |c| <= |d| && forall i :: 0 <= i < |c| ==> SameWindow(c[i], x[i], d[|d| - |c| + i], y[|d| - |c| + i])
  }

  lemma LaterLinks(p: Primitives, chain: seq<Checkpoint>, contents: seq<seq<Row>>, i: nat)
    requires Segment(p, chain, contents) && 0 < i < |chain|
    ensures OneLine(LinkText(chain[i].prevHash)) && LinkText(chain[i].prevHash) != []
    ensures LinkText(chain[i].prevHash) == chain[i - 1].hash
  {
    assert Digests(p, chain[i - 1], contents[i - 1]);
    var h := chain[i - 1].hash;
    assert |h| == 64 && OneLine(h);
  }

  lemma SegmentPrefix(p: Primitives, chain: seq<Checkpoint>, contents: seq<seq<Row>>)
    requires Segment(p, chain, contents) && chain != []
    ensures Segment(p, chain[..|chain| - 1], contents[..|chain| - 1])
  {}

  lemma CollisionInPrefix(p: Primitives, c: seq<Checkpoint>, x: seq<seq<Row>>, d: seq<Checkpoint>, y: seq<seq<Row>>,
                          m: nat, n: nat)
    requires |c| == |x| && |d| == |y| && m <= |c| && n <= |d|
    requires CollisionBetween(p, c[..m], x[..m], d[..n], y[..n])
    ensures CollisionBetween(p, c, x, d, y)
  {
    var i, j :| 0 <= i < m && 0 <= j < n
                && Collision(p, Preimage(p, x[..m][i], c[..m][i].prevHash), Preimage(p, y[..n][j], d[..n][j].prevHash));
    assert Collision(p, Preimage(p, x[i], c[i].prevHash), Preimage(p, y[j], d[j].prevHash));
  }

  lemma SameTailSnoc(c: seq<Checkpoint>, x: seq<seq<Row>>, d: seq<Checkpoint>, y: seq<seq<Row>>, m: nat, n: nat)
    requires |c| == |x| == m + 1 && |d| == |y| == n + 1
    requires SameTail(c[..m], x[..m], d[..n], y[..n]) && SameWindow(c[m], x[m], d[n], y[n])
    ensures SameTail(c, x, d, y)
  {
    forall i | 0 <= i < m
      ensures SameWindow(c[i], x[i], d[n - m + i], y[n - m + i])
    {
      assert SameWindow(c[..m][i], x[..m][i], d[..n][n - m + i], y[..n][n - m + i]);
    }
  }

  /** A stretch of windows that ends in the hash of a genuine chain is the end of that chain, over the same rows, or
      shows a collision. All it needs is that the stretch's first link is one line. */
  lemma {:induction false} EqualHashEqualTail(p: Primitives, c: seq<Checkpoint>, x: seq<seq<Row>>, d: seq<Checkpoint>,
                                              y: seq<seq<Row>>)
    requires InjectiveCanon(p) && Segment(p, c, x) && Genuine(p, d, y) && c != [] && d != []
    requires OneLine(LinkText(c[0].prevHash)) && c[|c| - 1].hash == d[|d| - 1].hash
    ensures SameTail(c, x, d, y) || CollisionBetween(p, c, x, d, y)
    decreases |c|
  {
    var m, n := |c| - 1, |d| - 1;
    if !Collision(p, Preimage(p, x[m], c[m].prevHash), Preimage(p, y[n], d[n].prevHash)) {
      LastWindowsAgree(p, c, x, d, y);
      if m == 0 {
        assert SameTail(c[..0], x[..0], d[..n], y[..n]);
        SameTailSnoc(c, x, d, y, m, n);
      } else {
        SegmentPrefix(p, c, x);
        SegmentPrefix(p, d, y);
        EqualHashEqualTail(p, c[..m], x[..m], d[..n], y[..n]);
        if CollisionBetween(p, c[..m], x[..m], d[..n], y[..n]) {
          CollisionInPrefix(p, c, x, d, y, m, n);
        } else {
          SameTailSnoc(c, x, d, y, m, n);
        }
      }
    }
  }

  /** Equal hashes, no collision: the same rows and link. So the windows before them agree in their hash again. */
  lemma LastWindowsAgree(p: Primitives, c: seq<Checkpoint>, x: seq<seq<Row>>, d: seq<Checkpoint>, y: seq<seq<Row>>)
    requires InjectiveCanon(p) && Segment(p, c, x) && Genuine(p, d, y) && c != [] && d != []
    requires OneLine(LinkText(c[0].prevHash)) && c[|c| - 1].hash == d[|d| - 1].hash
    requires !Collision(p, Preimage(p, x[|c| - 1], c[|c| - 1].prevHash), Preimage(p, y[|d| - 1], d[|d| - 1].prevHash))
    ensures SameWindow(c[|c| - 1], x[|c| - 1], d[|d| - 1], y[|d| - 1])
    ensures |c| > 1 ==> |d| > 1 && c[|c| - 2].hash == d[|d| - 2].hash
  {
    var m, n := |c| - 1, |d| - 1;
    assert Digests(p, c[m], x[m]) && Digests(p, d[n], y[n]);
    if m > 0 {
      LaterLinks(p, c, x, m);
    }
    if n > 0 {
      LaterLinks(p, d, y, n);
    }
    DigestBinding(p, x[m], c[m].prevHash, y[n], d[n].prevHash);
  }

  // ---- The theorems ----

  /** Evidence anchored anywhere. Whoever rewrote rows and checkpoints but could not change the hash of one checkpoint
      kept outside: if clean hash-only reports cover the windows from `a` up to that checkpoint, then each of them holds,
      counting back, exactly the rows that were sealed, in order and under the same link, or the rewriter found two
      texts with one SHA-256. The windows before `a` may be pruned, rewritten or gone. */
  lemma AnchoredEvidence(p: Primitives, t: Table, a: nat, b: nat, ranges: seq<(Instant, Instant)>,
                         sealed: seq<Checkpoint>, contents: seq<seq<Row>>)
    requires InjectiveCanon(p) && DistinctKeys(t.rows) && ByStart(t.chain)
    requires Genuine(p, sealed, contents) && sealed != []
    requires a < b && CleanCover(p, t, ranges, a, b) && OneLine(LinkText(t.chain[a].prevHash))
    requires t.chain[b - 1].hash == sealed[|sealed| - 1].hash
    ensures var stored := t.chain[a..b]; var present := Present(t.rows, stored);
            SameTail(stored, present, sealed, contents) || CollisionBetween(p, stored, present, sealed, contents)
  {
    ReportMeansGenuine(p, t, ranges, a, b);
    EqualHashEqualTail(p, t.chain[a..b], Present(t.rows, t.chain[a..b]), sealed, contents);
  }

  /** Evidence from the head of the chain: the same, and no window was added or removed. The reports may be as many
      as the range limit asks for. */
  lemma TamperEvidence(p: Primitives, t: Table, n: nat, ranges: seq<(Instant, Instant)>,
                       sealed: seq<Checkpoint>, contents: seq<seq<Row>>)
    requires InjectiveCanon(p) && DistinctKeys(t.rows) && ByStart(t.chain)
    requires Genuine(p, sealed, contents) && sealed != []
    requires 0 < n && CleanCover(p, t, ranges, 0, n) && t.chain[n - 1].hash == sealed[|sealed| - 1].hash
    ensures var stored := t.chain[..n]; var present := Present(t.rows, stored);
            (n == |sealed| && SameTail(stored, present, sealed, contents)
             && forall i :: 0 <= i < n ==> stored[i].prevHash == sealed[i].prevHash)
            || CollisionBetween(p, stored, present, sealed, contents)
  {
    var stored := t.chain[0..n];
    var present := Present(t.rows, stored);
    assert stored == t.chain[..n];
    ReportMeansGenuine(p, t, ranges, 0, n);
    AnchoredEvidence(p, t, 0, n, ranges, sealed, contents);
    if SameTail(stored, present, sealed, contents) {
      WholeChain(p, stored, present, sealed, contents);
    }
  }

  /** A genuine chain that is the end of another one is all of it. */
  lemma WholeChain(p: Primitives, c: seq<Checkpoint>, x: seq<seq<Row>>, d: seq<Checkpoint>, y: seq<seq<Row>>)
    requires Genuine(p, c, x) && Genuine(p, d, y) && c != [] && SameTail(c, x, d, y)
    ensures |c| == |d| && forall i :: 0 <= i < |c| ==> c[i].prevHash == d[i].prevHash
  {
    var k := |d| - |c|;
    assert SameWindow(c[0], x[0], d[k + 0], y[k + 0]);
    if k > 0 {
      LaterLinks(p, d, y, k);
    }
    forall i | 0 < i < |c|
      ensures c[i].prevHash == d[i].prevHash
    {
      assert SameWindow(c[i - 1], x[i - 1], d[k + (i - 1)], y[k + (i - 1)]);
    }
  }
}
