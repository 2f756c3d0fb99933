/** Keyset paging over the audit log: following cursors visits every row once, newest first. */
module Paging {
  import opened Wrappers
  import opened AuditTime
  import opened AuditLog
  import opened Cursors
  import Text

  const MaxPageSize: nat := 500

  /** `next` is the cursor for the page that follows. */
  datatype Page = Page(entries: seq<Row>, next: Option<string>)

  datatype Listing = Listed(page: Page) | ValueError

  function KeyOf(r: Row): Key {
    Key(r.at, r.id)
  }

  /** The rows strictly below a decoded cursor, or all of them. */
  predicate Below(r: Row, bound: Option<Key>) {
    bound.None? || KeyLess(r, Row(bound.value.at, bound.value.id, ""))
  }

  ghost predicate Descending(s: seq<Row>) {
    forall i, j :: 0 <= i < j < |s| ==> KeyLess(s[j], s[i])
  }

  /** Older than every entry. */
  ghost predicate Under(r: Row, entries: seq<Row>) {
    forall e :: e in entries ==> KeyLess(r, e)
  }

  /** The newest rows below the bound, `limit` of them or all there are; `more` tells whether any are left. */
  ghost predicate IsPage(rows: set<Row>, bound: Option<Key>, limit: nat, entries: seq<Row>, more: bool) {
    && Descending(entries) && |entries| <= limit && (more ==> |entries| == limit)
    && (forall r :: r in entries ==> r in rows && Below(r, bound))
    && (forall r :: r in rows && Below(r, bound) && r !in entries ==> more && Under(r, entries))
    && (more ==> exists r :: r in rows && Below(r, bound) && r !in entries)
  }

  /** Fetches up to `limit + 1` rows in order, newest first, as the database does. */
  method SelectNewest(rows: set<Row>, bound: Option<Key>, count: nat) returns (s: seq<Row>)
    requires DistinctKeys(rows)
    ensures Descending(s) && |s| <= count
    ensures forall r :: r in s ==> r in rows && Below(r, bound)
    ensures forall r :: r in rows && Below(r, bound) && r !in s ==> |s| == count && Under(r, s)
  {
    var left := set r | r in rows && Below(r, bound);
    s := [];
    while left != {} && |s| < count
      invariant Descending(s) && |s| <= count
      invariant left <= rows && forall r :: r in rows && Below(r, bound) ==> r in left || r in s
      invariant forall r :: r in left ==> Below(r, bound)
      invariant forall r :: r in s ==> r in rows && Below(r, bound)
      invariant forall r, e :: r in left && e in s ==> KeyLess(r, e)
      decreases |left|
    {
      var top := Newest(left);
      assert forall i :: 0 <= i < |s| ==> s[i] in s;
      s, left := s + [top], left - {top};
    }
  }

  method Newest(rows: set<Row>) returns (top: Row)
    requires DistinctKeys(rows) && rows != {}
    ensures top in rows && forall r :: r in rows && r != top ==> KeyLess(r, top)
  {
    top :| top in rows;
    var left := rows - {top};
    while left != {}
      invariant top in rows && top !in left && left <= rows
      invariant forall r :: r in rows && r !in left && r != top ==> KeyLess(r, top)
      decreases |left|
    {
      var r :| r in left;
      KeyLessTotal(r, top);
      ghost var before := top;
      if top.at < r.at || (top.at == r.at && Text.Less(top.id, r.id)) {
        forall x | x in rows && x !in left && x != top
          ensures KeyLess(x, r)
        {
          KeyLessTransitive(x, top, r);
        }
        top := r;
      }
      left := left - {r};
    }
  }

  /** One page: checks the limit, decodes the cursor, and looks one row ahead to know whether to give another. */
  method ListEntries(j: Json, rows: set<Row>, cursor: Option<string>, limit: int) returns (l: Listing)
    requires DistinctKeys(rows)
    ensures l == ValueError <==> !(1 <= limit <= 500) || (cursor.Some? && Decode(j, cursor.value).None?)
    ensures l.Listed? ==>
              && IsPage(rows, Bound(j, cursor), limit, l.page.entries, l.page.next.Some?)
              && (l.page.next.Some? ==> l.page.entries != [] && l.page.next.value == Encode(j, KeyOf(l.page.entries[|l.page.entries| - 1])))
  {
    if !(1 <= limit <= MaxPageSize) {
      return ValueError;
    }
    if cursor.Some? && Decode(j, cursor.value).None? {
      return ValueError;
    }
    var fetched := SelectNewest(rows, Bound(j, cursor), limit + 1);
    if |fetched| > limit {
      CutOff(rows, Bound(j, cursor), limit, fetched);
      return Listed(Page(fetched[..limit], Some(Encode(j, KeyOf(fetched[limit - 1])))));
    }
    return Listed(Page(fetched, None));
  }

  function Bound(j: Json, cursor: Option<string>): Option<Key> {
    if cursor.None? then None else Decode(j, cursor.value)
  }

  lemma {:induction false} CutOff(rows: set<Row>, bound: Option<Key>, limit: nat, fetched: seq<Row>)
    requires Descending(fetched) && |fetched| == limit + 1
    requires forall r :: r in fetched ==> r in rows && Below(r, bound)
    requires forall r :: r in rows && Below(r, bound) && r !in fetched ==> Under(r, fetched)
    ensures IsPage(rows, bound, limit, fetched[..limit], true)
  {
    var entries, extra := fetched[..limit], fetched[limit];
    assert fetched == entries + [extra];
    forall e | e in entries
      ensures KeyLess(extra, e) && e != extra
    {
      var i :| 0 <= i < limit && fetched[i] == e;
      KeyLessIrreflexive(e);
    }
    assert extra in fetched && extra !in entries;
  }

  // ---- A walk through the pages ----

  /** One page of a walk: the rows the query saw then, the limit asked for, and the page it got. */
  datatype Visit = Visit(rows: set<Row>, limit: nat, page: Page)

  /** A visit made with `cursor`. */
  ghost predicate Made(j: Json, cursor: Option<string>, v: Visit) {
    && (cursor.Some? ==> Decode(j, cursor.value).Some?)
    && v.limit >= 1 && IsPage(v.rows, Bound(j, cursor), v.limit, v.page.entries, v.page.next.Some?)
    && (v.page.next.Some? ==> v.page.entries != [] && v.page.next.value == Encode(j, KeyOf(v.page.entries[|v.page.entries| - 1])))
  }

  /** Each visit follows the cursor the one before it returned. */
  ghost predicate Walk(j: Json, cursor: Option<string>, visits: seq<Visit>)
    decreases |visits|
  {
    visits == [] ||
    (&& Made(j, cursor, visits[0])
     && (|visits| > 1 ==> visits[0].page.next.Some?)
     && Walk(j, visits[0].page.next, visits[1..]))
  }

  ghost function Visited(visits: seq<Visit>): seq<Row> {
    if visits == [] then [] else visits[0].page.entries + Visited(visits[1..])
  }

  /** Every row a query could see, with keys that make usable cursors. */
  ghost predicate Sound(j: Json, universe: set<Row>, visits: seq<Visit>) {
    && (forall r :: r in universe ==> Citable(j, r))
    && (forall v :: v in visits ==> v.rows <= universe)
  }

  predicate Citable(j: Json, r: Row) {
    r.id != "" && |Encode(j, KeyOf(r))| <= MaxCursorLength
  }

  lemma {:induction false} CursorBounds(j: Json, r: Row, cursor: string)
    requires Faithful(j) && cursor == Encode(j, KeyOf(r)) && r.id != "" && |cursor| <= MaxCursorLength
    ensures Bound(j, Some(cursor)) == Some(KeyOf(r))
    ensures forall x :: Below(x, Bound(j, Some(cursor))) <==> KeyLess(x, r)
  {
    DecodesIff(j, KeyOf(r));
  }

  lemma {:induction false} LastIsLeast(s: seq<Row>, r: Row)
    requires Descending(s) && s != [] && r in s
    ensures r == s[|s| - 1] || KeyLess(s[|s| - 1], r)
  {}

  lemma {:induction false} DescendingConcat(a: seq<Row>, b: seq<Row>)
    requires Descending(a) && Descending(b) && forall y :: y in b ==> Under(y, a)
    ensures Descending(a + b)
  {
    assert forall i :: 0 <= i < |a| ==> a[i] in a;
    assert forall i :: 0 <= i < |b| ==> b[i] in b;
  }

  /** What the next page starts below: the last entry of this one. */
  lemma {:induction false} NextBound(j: Json, universe: set<Row>, cursor: Option<string>, v: Visit) returns (last: Row)
    requires Faithful(j) && Made(j, cursor, v) && v.page.next.Some? && v.rows <= universe
    requires forall r :: r in universe ==> Citable(j, r)
    ensures last in v.page.entries && Below(last, Bound(j, cursor))
    ensures forall x :: Below(x, Bound(j, v.page.next)) <==> KeyLess(x, last)
    ensures forall x :: x in v.page.entries ==> x == last || KeyLess(last, x)
  {
    last := v.page.entries[|v.page.entries| - 1];
    assert last in v.page.entries;
    assert Citable(j, last);
    CursorBounds(j, last, v.page.next.value);
    forall x | x in v.page.entries
      ensures x == last || KeyLess(last, x)
    {
      LastIsLeast(v.page.entries, x);
    }
  }

  /** A row below the next bound is below every entry and below the bound before. */
  lemma {:induction false} DropsBelow(bound: Option<Key>, entries: seq<Row>, last: Row, y: Row)
    requires KeyLess(y, last) && Below(last, bound) && forall x :: x in entries ==> x == last || KeyLess(last, x)
    ensures Under(y, entries) && Below(y, bound)
  {
    forall x | x in entries
      ensures KeyLess(y, x)
    {
      if x != last {
        KeyLessTransitive(y, last, x);
      }
    }
    if bound.Some? {
      KeyLessTransitive(y, last, Row(bound.value.at, bound.value.id, ""));
    }
  }

  /** The pages together are strictly descending, lie below the cursor they started from, and come from the log. */
  lemma {:induction false} NewestFirst(j: Json, universe: set<Row>, cursor: Option<string>, visits: seq<Visit>)
    requires Faithful(j) && Walk(j, cursor, visits) && Sound(j, universe, visits)
    ensures Descending(Visited(visits))
    ensures forall r :: r in Visited(visits) ==> r in universe && Below(r, Bound(j, cursor))
    decreases |visits|
  {
    if visits != [] {
      var v, rest := visits[0], Visited(visits[1..]);
      assert v in visits;
      NewestFirst(j, universe, v.page.next, visits[1..]);
      if v.page.next.Some? {
        var last := NextBound(j, universe, cursor, v);
        forall y | y in rest
          ensures Under(y, v.page.entries) && Below(y, Bound(j, cursor))
        {
          DropsBelow(Bound(j, cursor), v.page.entries, last, y);
        }
      } else {
        assert rest == [];
      }
      DescendingConcat(v.page.entries, rest);
    }
  }

  lemma {:induction false} StillThere(j: Json, universe: set<Row>, visits: seq<Visit>, r: Row)
    requires Sound(j, universe, visits) && visits != [] && visits[0].page.next.Some?
    requires visits[|visits| - 1].page.next.None? && forall v :: v in visits ==> r in v.rows
    ensures var rest := visits[1..];
            && rest != [] && rest[|rest| - 1] == visits[|visits| - 1] && Sound(j, universe, rest)
            && forall v :: v in rest ==> r in v.rows
  {}

  /** A row present at every visit and below the cursor has been visited once the walk ends without a cursor. */
  lemma {:induction false} NothingMissed(j: Json, universe: set<Row>, cursor: Option<string>, visits: seq<Visit>, r: Row)
    requires Faithful(j) && Walk(j, cursor, visits) && Sound(j, universe, visits) && visits != []
    requires visits[|visits| - 1].page.next.None?
    requires (forall v :: v in visits ==> r in v.rows) && Below(r, Bound(j, cursor))
    ensures r in Visited(visits)
    decreases |visits|
  {
    var v, rest := visits[0], visits[1..];
    assert v in visits;
    if r !in v.page.entries {
      assert v.page.next.Some? && Under(r, v.page.entries);
      var last := NextBound(j, universe, cursor, v);
      StillThere(j, universe, visits, r);
      NothingMissed(j, universe, v.page.next, rest, r);
    }
  }

  lemma {:induction false} DescendingOnce(s: seq<Row>, r: Row)
    requires Descending(s) && r in s
    ensures multiset(s)[r] == 1
  {
    var i :| 0 <= i < |s| && s[i] == r;
    var a, b := s[..i], s[i + 1..];
    assert s == a + [r] + b;
    KeyLessIrreflexive(r);
    assert r !in a && r !in b;
  }

  /** For any page sizes, and whatever is inserted meanwhile: every row there throughout is returned exactly once,
      newest first, and nothing that was never there is returned. */
  lemma {:induction false} EveryRowOnce(j: Json, universe: set<Row>, visits: seq<Visit>, r: Row)
    requires Faithful(j) && Walk(j, None, visits) && Sound(j, universe, visits)
    requires visits != [] && visits[|visits| - 1].page.next.None?
    ensures Descending(Visited(visits))
    ensures (forall v :: v in visits ==> r in v.rows) ==> multiset(Visited(visits))[r] == 1
    ensures multiset(Visited(visits))[r] <= 1 && (r in Visited(visits) ==> r in universe)
  {
    NewestFirst(j, universe, None, visits);
    if forall v :: v in visits ==> r in v.rows {
      NothingMissed(j, universe, None, visits, r);
    }
    if r in Visited(visits) {
      DescendingOnce(Visited(visits), r);
    }
  }

  lemma {:induction false} DescendingSize(s: seq<Row>, universe: set<Row>)
    requires Descending(s) && forall r :: r in s ==> r in universe
    ensures |s| <= |universe|
  {
    if s != [] {
      KeyLessIrreflexive(s[0]);
      var rest := s[1..];
      forall r | r in rest
        ensures r in universe - {s[0]}
      {
        var i :| 0 <= i < |rest| && rest[i] == r;
        assert s[i + 1] == r && r in s;
      }
      assert s[0] in s;
      DescendingSize(rest, universe - {s[0]});
    }
  }

  lemma {:induction false} VisitsBounded(j: Json, cursor: Option<string>, visits: seq<Visit>)
    requires Walk(j, cursor, visits)
    ensures |visits| <= |Visited(visits)| + 1
    decreases |visits|
  {
    if visits != [] {
      VisitsBounded(j, visits[0].page.next, visits[1..]);
    }
  }

  /** No walk is longer than one page per row and a last one. */
  lemma {:induction false} WalksEnd(j: Json, universe: set<Row>, visits: seq<Visit>)
    requires Faithful(j) && Walk(j, None, visits) && Sound(j, universe, visits)
    ensures |visits| <= |universe| + 1
  {
    NewestFirst(j, universe, None, visits);
    DescendingSize(Visited(visits), universe);
    VisitsBounded(j, None, visits);
  }

  /** And none is refused on the way: the cursor a page returns is always one the next call accepts. */
  lemma {:induction false} NextCursorAccepted(j: Json, universe: set<Row>, cursor: Option<string>, visits: seq<Visit>, v: Visit)
    requires Faithful(j) && Walk(j, cursor, visits) && Sound(j, universe, visits) && v in visits && v.page.next.Some?
    ensures Decode(j, v.page.next.value).Some?
    decreases |visits|
  {
    if v == visits[0] {
      var last := NextBound(j, universe, cursor, v);
      assert Citable(j, last);
      DecodesIff(j, KeyOf(v.page.entries[|v.page.entries| - 1]));
      assert Citable(j, v.page.entries[|v.page.entries| - 1]);
    } else {
      NextCursorAccepted(j, universe, visits[0].page.next, visits[1..], v);
    }
  }
}
