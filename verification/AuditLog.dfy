/** The append-only log and the order its rows are hashed in. */
module AuditLog {
  import opened AuditTime
  import Text

  /** One audit row: its sort key and the remaining columns. */
  datatype Row = Row(at: Instant, id: string, body: string)

  predicate KeyLess(a: Row, b: Row) {
    a.at < b.at || (a.at == b.at && Text.Less(a.id, b.id))
  }

  ghost predicate DistinctKeys(rows: set<Row>) {
    forall r, s :: r in rows && s in rows && r.at == s.at && r.id == s.id ==> r == s
  }

  ghost predicate Ascending(s: seq<Row>) {
    forall i, j :: 0 <= i < j < |s| ==> KeyLess(s[i], s[j])
  }

  /** What the database guarantees of a fetched window: ordered by time, nothing said about ties. */
  ghost predicate OrderedByTime(s: seq<Row>) {
    forall i, j :: 0 <= i < j < |s| ==> s[i].at <= s[j].at
  }

  ghost predicate NoDuplicates(s: seq<Row>) {
    forall i, j :: 0 <= i < j < |s| ==> s[i] != s[j]
  }

  function Members(s: seq<Row>): set<Row> {
    set r | r in s
  }

  /** The rows of the half-open window `[start, end)`. */
  function Window(rows: set<Row>, start: Instant, end: Instant): set<Row> {
    set r | r in rows && start <= r.at < end
  }

  lemma MembersConcat(s: seq<Row>, t: seq<Row>)
    ensures Members(s + t) == Members(s) + Members(t)
  {
    assert forall r :: r in s + t <==> r in s || r in t;
  }

  lemma KeyLessTransitive(a: Row, b: Row, c: Row)
    requires KeyLess(a, b) && KeyLess(b, c)
    ensures KeyLess(a, c)
  {
    if a.at == b.at == c.at {
      Text.LessTransitive(a.id, b.id, c.id);
    }
  }

  lemma KeyLessIrreflexive(a: Row)
    ensures !KeyLess(a, a)
  {
    Text.LessIrreflexive(a.id);
  }

  lemma KeyLessTotal(a: Row, b: Row)
    ensures (a.at == b.at && a.id == b.id) || KeyLess(a, b) || KeyLess(b, a)
  {
    Text.LessTotal(a.id, b.id);
  }

  ghost predicate IsLeast(r: Row, rows: set<Row>) {
    r in rows && forall s :: s in rows && s != r ==> KeyLess(r, s)
  }

  lemma {:induction false} LeastExists(rows: set<Row>) returns (least: Row)
    requires rows != {} && DistinctKeys(rows)
    ensures IsLeast(least, rows)
    decreases |rows|
  {
    var r :| r in rows;
    var rest := rows - {r};
    if rest == {} {
      assert rows == {r};
      return r;
    }
    var m := LeastExists(rest);
    KeyLessTotal(r, m);
    if KeyLess(m, r) {
      return m;
    }
    forall s | s in rows && s != r
      ensures KeyLess(r, s)
    {
      if s != m {
        KeyLessTransitive(r, m, s);
      }
    }
    return r;
  }

  /** The one ascending sequence of the rows: what a window's digest is taken over. */
  ghost function Ordered(rows: set<Row>): (s: seq<Row>)
    requires DistinctKeys(rows)
    ensures Ascending(s) && Members(s) == rows && |s| == |rows|
    decreases |rows|
  {
    if rows == {} then [] else
      var least := LeastOf(rows);
      var rest := Ordered(rows - {least});
      PrependLeast(least, rest);
      [least] + rest
  }

  lemma PrependLeast(least: Row, rest: seq<Row>)
    requires Ascending(rest) && forall r :: r in Members(rest) ==> KeyLess(least, r)
    ensures Ascending([least] + rest) && Members([least] + rest) == {least} + Members(rest)
  {
    MembersConcat([least], rest);
    assert forall i :: 0 <= i < |rest| ==> rest[i] in Members(rest);
  }

  ghost function LeastOf(rows: set<Row>): (r: Row)
    requires rows != {} && DistinctKeys(rows)
    ensures IsLeast(r, rows)
  {
    assert exists r :: IsLeast(r, rows) by {
      var m := LeastExists(rows);
      assert IsLeast(m, rows);
    }
    var r :| IsLeast(r, rows);
    r
  }

  /** Two ascending sequences of the same rows are the same sequence. */
  lemma {:induction false} AscendingUnique(s: seq<Row>, t: seq<Row>)
    requires Ascending(s) && Ascending(t) && Members(s) == Members(t)
    ensures s == t
  {
    if s == [] {
      assert forall i :: 0 <= i < |t| ==> t[i] in Members(t);
      return;
    }
    assert s[0] in Members(t);
    HeadIsLeast(s);
    HeadIsLeast(t);
    assert t[0] in Members(s);
    if s[0] != t[0] {
      KeyLessTransitive(s[0], t[0], s[0]);
      KeyLessIrreflexive(s[0]);
      assert false;
    }
    TailMembers(s);
    TailMembers(t);
    AscendingUnique(s[1..], t[1..]);
    assert s == [s[0]] + s[1..] && t == [t[0]] + t[1..];
  }

  lemma AscendingIsOrdered(s: seq<Row>, rows: set<Row>)
    requires Ascending(s) && Members(s) == rows && DistinctKeys(rows)
    ensures s == Ordered(rows)
  {
    AscendingUnique(s, Ordered(rows));
  }

  lemma HeadIsLeast(s: seq<Row>)
    requires Ascending(s) && s != []
    ensures forall r :: r in s && r != s[0] ==> KeyLess(s[0], r)
  {}

  lemma TailMembers(s: seq<Row>)
    requires Ascending(s) && s != []
    ensures Ascending(s[1..]) && Members(s[1..]) == Members(s) - {s[0]}
  {
    KeyLessIrreflexive(s[0]);
    assert forall i :: 0 < i < |s| ==> KeyLess(s[0], s[i]) && s[i] != s[0];
    assert forall r :: r in s[1..] ==> exists i :: 0 < i < |s| && s[i] == r;
    forall r | r in s && r != s[0]
      ensures r in s[1..]
    {
      var i :| 0 <= i < |s| && s[i] == r;
      assert s[1..][i - 1] == r;
    }
  }

  /** The database's answer: every row of the window once, ordered by time, ties in whatever order it likes. */
  method SelectWindow(rows: set<Row>, start: Instant, end: Instant) returns (fetched: seq<Row>)
    ensures OrderedByTime(fetched) && NoDuplicates(fetched)
    ensures Members(fetched) == Window(rows, start, end)
  {
    var remaining := Window(rows, start, end);
    fetched := [];
    while remaining != {}
      invariant OrderedByTime(fetched) && NoDuplicates(fetched)
      invariant Members(fetched) + remaining == Window(rows, start, end)
      invariant Members(fetched) !! remaining
      invariant forall r, s :: r in Members(fetched) && s in remaining ==> r.at <= s.at
      decreases |remaining|
    {
      var next := PickEarliest(remaining);
      AppendLatest(fetched, next);
      fetched, remaining := fetched + [next], remaining - {next};
    }
  }

  method PickEarliest(rows: set<Row>) returns (next: Row)
    requires rows != {}
    ensures next in rows && forall s :: s in rows ==> next.at <= s.at
  {
    EarliestExists(rows);
    next :| next in rows && forall s :: s in rows ==> next.at <= s.at;
  }

  lemma AppendLatest(fetched: seq<Row>, next: Row)
    requires OrderedByTime(fetched) && NoDuplicates(fetched)
    requires next !in Members(fetched) && forall r :: r in Members(fetched) ==> r.at <= next.at
    ensures OrderedByTime(fetched + [next]) && NoDuplicates(fetched + [next])
    ensures Members(fetched + [next]) == Members(fetched) + {next}
  {
    MembersConcat(fetched, [next]);
    assert forall i :: 0 <= i < |fetched| ==> fetched[i] in Members(fetched);
  }

  lemma {:induction false} EarliestExists(rows: set<Row>)
    requires rows != {}
    ensures exists r :: r in rows && forall s :: s in rows ==> r.at <= s.at
    decreases |rows|
  {
    var r :| r in rows;
    var rest := rows - {r};
    if rest == {} {
      assert rows == {r};
    } else {
      EarliestExists(rest);
      var m :| m in rest && forall s :: s in rest ==> m.at <= s.at;
      var best := if r.at <= m.at then r else m;
      assert best in rows && forall s :: s in rows ==> best.at <= s.at;
    }
  }

  /** `sorted(group, key=row.id)` for rows of one instant. */
  function SortById(group: seq<Row>): (sorted: seq<Row>)
    requires forall i, j :: 0 <= i < |group| && 0 <= j < |group| ==> group[i].at == group[j].at
    ensures |sorted| == |group| && Members(sorted) == Members(group)
  {
    if group == [] then [] else
      MembersConcat(group[..1], group[1..]);
      assert group == group[..1] + group[1..];
      InsertById(group[0], SortById(group[1..]))
  }

  function InsertById(r: Row, s: seq<Row>): (t: seq<Row>)
    ensures |t| == |s| + 1 && Members(t) == Members(s) + {r}
  {
    if s == [] || Text.Less(r.id, s[0].id) then
      MembersConcat([r], s);
      [r] + s
    else
      MembersConcat([s[0]], InsertById(r, s[1..]));
      MembersConcat([s[0]], s[1..]);
      assert s == [s[0]] + s[1..];
      [s[0]] + InsertById(r, s[1..])
  }

  lemma {:induction false} InsertByIdAscending(r: Row, s: seq<Row>)
    requires Ascending(s) && forall x :: x in s ==> x.at == r.at && x.id != r.id
    ensures Ascending(InsertById(r, s))
  {
    if s == [] {
      return;
    }
    if Text.Less(r.id, s[0].id) {
      forall x | x in s
        ensures KeyLess(r, x)
      {
        if x != s[0] {
          HeadIsLeast(s);
          KeyLessTransitive(r, s[0], x);
        }
      }
    } else {
      Text.LessTotal(r.id, s[0].id);
      assert s[0] in s;
      TailMembers(s);
      InsertByIdAscending(r, s[1..]);
      var t := InsertById(r, s[1..]);
      assert forall x :: x in t ==> x in Members(s[1..]) + {r};
      assert forall x :: x in t ==> KeyLess(s[0], x) by { HeadIsLeast(s); KeyLessIrreflexive(s[0]); }
    }
  }

  lemma {:induction false} SortByIdAscending(group: seq<Row>)
    requires forall i, j :: 0 <= i < |group| && 0 <= j < |group| ==> group[i].at == group[j].at
    requires NoDuplicates(group) && DistinctKeys(Members(group))
    ensures Ascending(SortById(group))
  {
    if group != [] {
      var rest := group[1..];
      assert forall x :: x in rest ==> x in group && exists i :: 0 < i < |group| && group[i] == x;
      assert DistinctKeys(Members(rest));
      SortByIdAscending(rest);
      var s := SortById(rest);
      forall x | x in s
        ensures x.at == group[0].at && x.id != group[0].id
      {
        assert x in Members(rest);
        var i :| 0 < i < |group| && group[i] == x;
      }
      InsertByIdAscending(group[0], s);
    }
  }

  /** Where the group of rows that share the instant of row `i` ends. */
  method GroupEnd(fetched: seq<Row>, i: nat) returns (j: nat)
    requires i < |fetched| && OrderedByTime(fetched)
    ensures i < j <= |fetched|
    ensures forall k :: i <= k < j ==> fetched[k].at == fetched[i].at
    ensures j < |fetched| ==> fetched[i].at < fetched[j].at
  {
    j := i + 1;
    while j < |fetched| && fetched[j].at == fetched[i].at
      invariant i < j <= |fetched|
      invariant forall k :: i <= k < j ==> fetched[k].at == fetched[i].at
    {
      j := j + 1;
    }
  }

  /** The tie-break done outside the database: group by instant, sort each group by id. Whatever order the
      database chose inside an instant, the result is the one canonical order of the rows. */
  method WindowRows(fetched: seq<Row>) returns (ordered: seq<Row>)
    requires OrderedByTime(fetched) && NoDuplicates(fetched) && DistinctKeys(Members(fetched))
    ensures ordered == Ordered(Members(fetched))
  {
    ordered := [];
    var i := 0;
    while i < |fetched|
      invariant 0 <= i <= |fetched|
      invariant Ascending(ordered) && Members(ordered) == Members(fetched[..i])
      invariant i < |fetched| ==> forall r :: r in Members(ordered) ==> r.at < fetched[i].at
    {
      var j := GroupEnd(fetched, i);
      GroupSorted(fetched, i, j);
      var sorted := SortById(fetched[i..j]);
      JoinAscending(ordered, sorted);
      JoinMembers(fetched, i, j);
      ordered, i := ordered + sorted, j;
    }
    assert fetched[..i] == fetched;
    AscendingIsOrdered(ordered, Members(fetched));
  }

  lemma GroupSorted(fetched: seq<Row>, i: nat, j: nat)
    requires i < j <= |fetched|
    requires NoDuplicates(fetched) && DistinctKeys(Members(fetched))
    requires forall k :: i <= k < j ==> fetched[k].at == fetched[i].at
    ensures Ascending(SortById(fetched[i..j]))
    ensures Members(SortById(fetched[i..j])) == Members(fetched[i..j])
    ensures forall r :: r in Members(SortById(fetched[i..j])) ==> r.at == fetched[i].at
  {
    var group := fetched[i..j];
    assert forall k :: 0 <= k < |group| ==> group[k] == fetched[i + k];
    assert forall r :: r in group ==> r in fetched;
    assert DistinctKeys(Members(group));
    SortByIdAscending(group);
  }

  lemma JoinMembers(fetched: seq<Row>, i: nat, j: nat)
    requires i <= j <= |fetched|
    ensures Members(fetched[..j]) == Members(fetched[..i]) + Members(fetched[i..j])
  {
    MembersConcat(fetched[..i], fetched[i..j]);
    assert fetched[..j] == fetched[..i] + fetched[i..j];
  }

  lemma JoinAscending(s: seq<Row>, t: seq<Row>)
    requires Ascending(s) && Ascending(t)
    requires forall a, b :: a in Members(s) && b in Members(t) ==> a.at < b.at
    ensures Ascending(s + t) && Members(s + t) == Members(s) + Members(t)
  {
    MembersConcat(s, t);
    assert forall i :: 0 <= i < |s| ==> s[i] in Members(s);
    assert forall i :: 0 <= i < |t| ==> t[i] in Members(t);
  }
}
