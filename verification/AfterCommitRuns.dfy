/** For every sequence of session events: exactly which callbacks run, how often and in which order. */
module AfterCommitRuns {
  import opened Sequences
  import opened AfterCommit

  // ---- Each event keeps the invariant ----

  lemma {:induction false} EntryPush(e: Entry, s: Session, kind: Kind)
    requires EntryOk(e, s)
    ensures EntryOk(e, Opened(s, kind))
  {
    var tx := Tx(s.next, kind);
    assert tx !in e.path;
    DepthPush(e.path, s.stack, tx);
  }

  lemma {:induction false} EmptyStackDecided(l: Ledger, s: Session)
    requires LedgerOk(l, s) && s.stack == []
    ensures forall i :: 0 <= i < |l.entries| ==> l.entries[i].fate != Undecided
  {
    forall i | 0 <= i < |l.entries|
      ensures l.entries[i].fate != Undecided
    {
      assert EntryOk(l.entries[i], s);
    }
  }

  lemma {:induction false} BeginKeepsLedger(l: Ledger, s: Session, kind: Kind)
    requires StackOk(s) && LedgerOk(l, s) && Possible(s, Begin(kind))
    ensures StackOk(Opened(s, kind)) && LedgerOk(Account(l, s, Begin(kind)), Opened(s, kind))
    ensures forall e :: e in l.entries ==> Tx(s.next, kind) !in e.path
  {
    if s.stack == [] {
      EmptyStackDecided(l, s);
    }
    forall i | 0 <= i < |l.entries|
      ensures EntryOk(l.entries[i], Opened(s, kind)) && Tx(s.next, kind) !in l.entries[i].path
    {
      EntryPush(l.entries[i], s, kind);
    }
  }

  lemma {:induction false} BeginKeeps(l: Ledger, s: Session, kind: Kind)
    requires Inv(l, s) && Possible(s, Begin(kind))
    ensures Inv(Account(l, s, Begin(kind)), Opened(s, kind))
  {
    BeginKeepsLedger(l, s, kind);
    WaitingPush(l.entries, s.stack, Tx(s.next, kind));
  }

  lemma {:induction false} NewEntry(s: Session, e: Entry)
    requires StackOk(s) && s.stack != []
    requires e == Entry(s.serial, s.stack[..OwnerIndex(s.stack) + 1], Undecided)
    ensures EntryOk(e, s)
    ensures AsPending(e, s.stack) == [Pending(s.stack[OwnerIndex(s.stack)], s.serial)]
    ensures !Delivered(e)
  {
    var k := OwnerIndex(s.stack) + 1;
    DepthOwn(s.stack, k);
    assert e.path[Depth(e.path, s.stack)..] == [];
    forall i | 0 <= i < |s.stack| && s.stack[i] in e.path
      ensures i < k
    {
      var j :| 0 <= j < k && s.stack[j] == s.stack[i];
      assert j == i;
    }
  }

  lemma {:induction false} OneEntry(e: Entry, stack: seq<Tx>)
    requires !Delivered(e)
    ensures WaitingList([e], stack) == AsPending(e, stack) && DeliveredList([e]) == []
  {
    assert [e][1..] == [];
    assert WaitingList([], stack) == [];
    assert AsPending(e, stack) + [] == AsPending(e, stack);
  }

  lemma {:induction false} RegisterKeepsLedger(l: Ledger, s: Session, e: Entry)
    requires StackOk(s) && LedgerOk(l, s) && s.stack != []
    requires e.cb == s.serial && e.fate == Undecided && EntryOk(e, s)
    ensures LedgerOk(l.(entries := l.entries + [e]), Registered(s))
  {
    forall i | 0 <= i < |l.entries + [e]|
      ensures (l.entries + [e])[i].cb == i && EntryOk((l.entries + [e])[i], Registered(s))
    {
      assert i < |l.entries| ==> EntryOk(l.entries[i], s);
    }
  }

  lemma {:induction false} RegisterLists(entries: seq<Entry>, e: Entry, stack: seq<Tx>)
    requires !Delivered(e)
    ensures WaitingList(entries + [e], stack) == WaitingList(entries, stack) + AsPending(e, stack)
    ensures DeliveredList(entries + [e]) == DeliveredList(entries)
  {
    OneEntry(e, stack);
    WaitingConcat(entries, [e], stack);
    DeliveredConcat(entries, [e]);
    Trimmed(DeliveredList(entries));
  }

  lemma {:induction false} RegisterShape(l: Ledger, s: Session, e: Entry)
    requires s.stack != [] && e == Entry(s.serial, s.stack[..OwnerIndex(s.stack) + 1], Undecided)
    ensures Account(l, s, Register) == l.(entries := l.entries + [e])
    ensures Registered(s) == s.(pending := s.pending + [Pending(s.stack[OwnerIndex(s.stack)], s.serial)], serial := s.serial + 1)
  {}

  lemma {:induction false} RegisterOpenKeeps(l: Ledger, s: Session)
    requires Inv(l, s) && s.stack != []
    ensures Inv(Account(l, s, Register), Registered(s))
  {
    var e := Entry(s.serial, s.stack[..OwnerIndex(s.stack) + 1], Undecided);
    NewEntry(s, e);
    RegisterShape(l, s, e);
    RegisterKeepsLedger(l, s, e);
    RegisterLists(l.entries, e, s.stack);
  }

  lemma {:induction false} RegisterKeeps(l: Ledger, s: Session)
    requires Inv(l, s)
    ensures Inv(Account(l, s, Register), Registered(s))
  {
    if s.stack == [] {
      BeginKeeps(l, s, Root);
      RegisterOpenKeeps(Account(l, s, Begin(Root)), Opened(s, Root));
    } else {
      RegisterOpenKeeps(l, s);
    }
  }

  lemma {:induction false} EntryFits(e: Entry, s: Session, rest: seq<Tx>, tx: Tx)
    requires StackOk(s) && EntryOk(e, s) && s.stack == rest + [tx]
    ensures Fits(e, rest, tx)
  {
    assert s.stack[|rest|] == tx;
    forall i | 0 <= i < |rest|
      ensures rest[i] != tx
    {
      assert s.stack[i] == rest[i];
    }
  }

  lemma {:induction false} EntryPop(e: Entry, rest: seq<Tx>, tx: Tx, next: nat, commit: bool)
    requires EntryOn(e, rest + [tx], next) && (rest == [] ==> tx.kind == Root)
    ensures EntryOn(Decide(e, tx, commit), rest, next)
  {
    var stack := rest + [tx];
    DepthPop(e.path, rest, tx);
    forall i | 0 <= i < |rest| && rest[i] in e.path
      ensures i < Depth(e.path, rest)
    {
      assert stack[i] == rest[i];
    }
    if rest == [] && e.fate == Undecided {
      assert e.path[0] == e.path[..Depth(e.path, stack)][0] == stack[0] == tx;
    }
  }

  lemma {:induction false} EndKeepsLedger(l: Ledger, s: Session, commit: bool)
    requires StackOk(s) && LedgerOk(l, s) && Possible(s, End(commit))
    ensures StackOk(Ended(s, commit)) && LedgerOk(Account(l, s, End(commit)), Ended(s, commit))
    ensures var n := |s.stack| - 1; forall e :: e in l.entries ==> Fits(e, s.stack[..n], s.stack[n])
  {
    var rest, tx := s.stack[..|s.stack| - 1], s.stack[|s.stack| - 1];
    assert s.stack == rest + [tx];
    assert Ended(s, commit).stack == rest && Ended(s, commit).next == s.next;
    forall i | 0 <= i < |l.entries|
      ensures EntryOk(Decide(l.entries[i], tx, commit), Ended(s, commit)) && Fits(l.entries[i], rest, tx)
    {
      assert EntryOk(l.entries[i], s);
      EntryPop(l.entries[i], rest, tx, s.next, commit);
      EntryFits(l.entries[i], s, rest, tx);
    }
  }

  /** Only the root's commit delivers anything. */
  lemma {:induction false} DeliveredUnchanged(entries: seq<Entry>, tx: Tx, commit: bool)
    requires tx.kind == Root ==> !commit
    ensures DeliveredList(DecideAll(entries, tx, commit)) == DeliveredList(entries)
  {
    if entries != [] {
      DeliveredUnchanged(entries[1..], tx, commit);
      assert DecideAll(entries, tx, commit)[1..] == DecideAll(entries[1..], tx, commit);
    }
  }

  lemma {:induction false} NothingWaits(entries: seq<Entry>)
    ensures WaitingList(entries, []) == []
  {
    if entries != [] {
      NothingWaits(entries[1..]);
    }
  }

  lemma {:induction false} InnerEndKeeps(l: Ledger, s: Session, commit: bool)
    requires Inv(l, s) && Possible(s, End(commit)) && |s.stack| > 1
    ensures Inv(Account(l, s, End(commit)), Ended(s, commit))
  {
    var rest, tx := s.stack[..|s.stack| - 1], s.stack[|s.stack| - 1];
    assert s.stack == rest + [tx];
    EndKeepsLedger(l, s, commit);
    DeliveredUnchanged(l.entries, tx, commit);
    if commit && tx.kind == Savepoint {
      ReleaseAll(l.entries, rest, tx);
    } else {
      DropAll(l.entries, rest, tx, commit);
    }
  }

  lemma {:induction false} DecidedWait(entries: seq<Entry>, stack: seq<Tx>)
    requires forall e :: e in entries ==> e.fate != Undecided
    ensures WaitingList(entries, stack) == []
  {
    if entries != [] {
      assert entries[0] in entries;
      DecidedWait(entries[1..], stack);
    }
  }

  lemma {:induction false} DecidedStay(entries: seq<Entry>, tx: Tx, commit: bool)
    requires forall e :: e in entries ==> e.fate != Undecided
    ensures DecideAll(entries, tx, commit) == entries
  {
    forall i | 0 <= i < |entries|
      ensures Decide(entries[i], tx, commit) == entries[i]
    {
      assert entries[i] in entries;
    }
  }

  /** At the root's commit a registration under it is delivered exactly if it still waits. */
  lemma {:induction false} RootOne(e: Entry, root: Tx)
    requires root.kind == Root && e.path != [] && e.fate != Durable
    requires e.fate == Undecided ==> Depth(e.path, [root]) > 0
    ensures (if Delivered(Decide(e, root, true)) then [e.cb] else []) == Callbacks(AsPending(e, [root]))
  {
    var d := Depth(e.path, [root]);
    if e.fate == Undecided {
      assert d == 1 && e.path[0] == root && root in e.path;
      assert e.path == [root] + e.path[1..];
    }
  }

  lemma {:induction false} CallbacksConcat(a: seq<Pending>, b: seq<Pending>)
    ensures Callbacks(a + b) == Callbacks(a) + Callbacks(b)
  {
    if a == [] {
      assert a + b == b;
    } else {
      CallbacksConcat(a[1..], b);
      assert (a + b)[0] == a[0] && (a + b)[1..] == a[1..] + b;
    }
  }

  lemma {:induction false} RootAll(entries: seq<Entry>, root: Tx)
    requires root.kind == Root
    requires forall e :: e in entries ==>
               e.path != [] && e.fate != Durable && (e.fate == Undecided ==> Depth(e.path, [root]) > 0)
    ensures DeliveredList(DecideAll(entries, root, true)) == Callbacks(WaitingList(entries, [root]))
    ensures DeliveredList(entries) == []
  {
    if entries != [] {
      assert entries[0] in entries;
      RootOne(entries[0], root);
      RootAll(entries[1..], root);
      CallbacksConcat(AsPending(entries[0], [root]), WaitingList(entries[1..], [root]));
      DecideTail(entries, root, true);
    }
  }

  lemma DecideTail(entries: seq<Entry>, tx: Tx, commit: bool)
    requires entries != []
    ensures DecideAll(entries, tx, commit)[0] == Decide(entries[0], tx, commit)
    ensures DecideAll(entries, tx, commit)[1..] == DecideAll(entries[1..], tx, commit)
    ensures Decide(entries[0], tx, commit).cb == entries[0].cb
  {}

  lemma DecideConcat(a: seq<Entry>, b: seq<Entry>, tx: Tx, commit: bool)
    ensures DecideAll(a + b, tx, commit) == DecideAll(a, tx, commit) + DecideAll(b, tx, commit)
  {}

  lemma {:induction false} SplitDelivers(a: seq<Entry>, b: seq<Entry>, root: Tx)
    requires root.kind == Root && forall e :: e in a ==> e.fate != Undecided
    requires forall e :: e in b ==>
               e.path != [] && e.fate != Durable && (e.fate == Undecided ==> Depth(e.path, [root]) > 0)
    ensures DeliveredList(DecideAll(a + b, root, true)) == DeliveredList(a + b) + Callbacks(WaitingList(a + b, [root]))
  {
    DecidedStay(a, root, true);
    DecidedWait(a, [root]);
    RootAll(b, root);
    WaitingConcat(a, b, [root]);
    DeliveredConcat(a, b);
    DecideConcat(a, b, root, true);
    DeliveredConcat(a, DecideAll(b, root, true));
    Trimmed(WaitingList(b, [root]));
    Trimmed(DeliveredList(a));
  }

  lemma {:induction false} RootCommitDelivers(l: Ledger, s: Session)
    requires Inv(l, s) && |s.stack| == 1
    ensures DeliveredList(DecideAll(l.entries, s.stack[0], true)) == s.launched + Callbacks(s.pending)
  {
    var root := s.stack[0];
    assert s.stack == [root];
    var a, b := l.entries[..l.since], l.entries[l.since..];
    assert l.entries == a + b;
    forall e | e in b
      ensures e.path != [] && e.fate != Durable && (e.fate == Undecided ==> Depth(e.path, [root]) > 0)
    {
      var i :| 0 <= i < |b| && b[i] == e;
      assert EntryOk(l.entries[l.since + i], s);
    }
    SplitDelivers(a, b, root);
  }

  lemma {:induction false} RootEndKeeps(l: Ledger, s: Session, commit: bool)
    requires Inv(l, s) && Possible(s, End(commit)) && |s.stack| == 1
    ensures Inv(Account(l, s, End(commit)), Ended(s, commit))
  {
    EndKeepsLedger(l, s, commit);
    NothingWaits(DecideAll(l.entries, s.stack[0], commit));
    if commit {
      RootCommitDelivers(l, s);
    } else {
      DeliveredUnchanged(l.entries, s.stack[0], commit);
    }
  }

  lemma {:induction false} StepKeeps(l: Ledger, s: Session, e: Event)
    requires Inv(l, s) && Possible(s, e)
    ensures Inv(Account(l, s, e), Apply(s, e))
  {
    match e
    case Begin(kind) => BeginKeeps(l, s, kind);
    case Register => RegisterKeeps(l, s);
    case End(commit) =>
      if |s.stack| == 1 {
        RootEndKeeps(l, s, commit);
      } else {
        InnerEndKeeps(l, s, commit);
      }
    case RunNext =>
      forall i | 0 <= i < |l.entries|
        ensures EntryOk(l.entries[i], RanNext(s))
      {
        assert EntryOk(l.entries[i], s);
      }
  }

  // ---- Batches: every launched callback is called once ----

  function Flatten(batches: seq<seq<Callback>>): seq<Callback> {
    if batches == [] then [] else Flatten(batches[..|batches| - 1]) + batches[|batches| - 1]
  }

  /** Nothing is lost or duplicated between becoming ready and being called. */
  ghost predicate Conserved(s: Session) {
    multiset(s.ran) + multiset(Flatten(s.batches)) == multiset(s.launched)
  }

  lemma {:induction false} FlattenPush(batches: seq<seq<Callback>>, batch: seq<Callback>)
    ensures Flatten(batches + [batch]) == Flatten(batches) + batch
  {
    assert (batches + [batch])[..|batches|] == batches;
  }

  lemma {:induction false} EndConserves(s: Session, commit: bool)
    requires Conserved(s) && s.stack != []
    ensures Conserved(Ended(s, commit))
  {
    var t := Ended(s, commit);
    if |s.stack| == 1 && commit && s.stack[0].kind != Flush {
      var ready := Callbacks(s.pending);
      assert s.stack[..0] == [];
      FlattenPush(s.batches, ready);
      assert t.batches == s.batches + [ready] && t.launched == s.launched + ready && t.ran == s.ran;
    } else {
      assert t.batches == s.batches && t.launched == s.launched + [] && t.ran == s.ran;
      assert s.launched + [] == s.launched;
    }
  }

  lemma {:induction false} RunNextConserves(s: Session)
    requires Conserved(s) && s.batches != []
    ensures Conserved(RanNext(s))
  {
    var outer, batch := s.batches[..|s.batches| - 1], s.batches[|s.batches| - 1];
    assert s.batches == outer + [batch];
    FlattenPush(outer, batch);
    if batch == [] {
      assert Flatten(outer) + batch == Flatten(outer);
    } else {
      FlattenPush(outer, batch[1..]);
      assert batch == [batch[0]] + batch[1..];
    }
  }

  lemma {:induction false} StepConserves(s: Session, e: Event)
    requires Conserved(s) && Possible(s, e)
    ensures Conserved(Apply(s, e))
  {
    match e
    case Begin(_) =>
    case Register =>
    case End(commit) => EndConserves(s, commit);
    case RunNext => RunNextConserves(s);
  }

  // ---- Runs ----

  ghost predicate Runs(s: Session, events: seq<Event>)
    decreases |events|
  {
    events == [] || (Possible(s, events[0]) && Runs(Apply(s, events[0]), events[1..]))
  }

  ghost function Run(s: Session, events: seq<Event>): Session
    requires Runs(s, events)
    decreases |events|
  {
    if events == [] then s else Run(Apply(s, events[0]), events[1..])
  }

  ghost function Ledgered(l: Ledger, s: Session, events: seq<Event>): Ledger
    requires Runs(s, events)
    decreases |events|
  {
    if events == [] then l else Ledgered(Account(l, s, events[0]), Apply(s, events[0]), events[1..])
  }

  const Blank := Ledger([], 0)

  lemma {:induction false} RunKeeps(l: Ledger, s: Session, events: seq<Event>)
    requires Inv(l, s) && Conserved(s) && Runs(s, events)
    ensures Inv(Ledgered(l, s, events), Run(s, events)) && Conserved(Run(s, events))
    decreases |events|
  {
    if events != [] {
      StepKeeps(l, s, events[0]);
      StepConserves(s, events[0]);
      RunKeeps(Account(l, s, events[0]), Apply(s, events[0]), events[1..]);
    }
  }

  predicate Ascending(s: seq<Callback>) {
    forall i, j :: 0 <= i < j < |s| ==> s[i] < s[j]
  }

  lemma {:induction false} DeliveredMember(entries: seq<Entry>, base: nat, c: Callback)
    requires forall i :: 0 <= i < |entries| ==> entries[i].cb == base + i
    ensures c in DeliveredList(entries) <==> base <= c < base + |entries| && Delivered(entries[c - base])
  {
    if entries != [] {
      DeliveredMember(entries[1..], base + 1, c);
      var head := if Delivered(entries[0]) then [entries[0].cb] else [];
      assert c in DeliveredList(entries) <==> c in head || c in DeliveredList(entries[1..]);
      assert c > base && c < base + |entries| ==> entries[1..][c - base - 1] == entries[c - base];
    }
  }

  /** The delivered callbacks are listed in registration order, each once. */
  lemma {:induction false} DeliveredAscending(entries: seq<Entry>, base: nat)
    requires forall i :: 0 <= i < |entries| ==> entries[i].cb == base + i
    ensures Ascending(DeliveredList(entries))
  {
    if entries != [] {
      var rest := DeliveredList(entries[1..]);
      DeliveredAscending(entries[1..], base + 1);
      forall k | 0 <= k < |rest|
        ensures rest[k] > base
      {
        assert rest[k] in rest;
        DeliveredMember(entries[1..], base + 1, rest[k]);
      }
    }
  }

  lemma {:induction false} AscendingOnce(s: seq<Callback>, c: Callback)
    requires Ascending(s)
    ensures multiset(s)[c] == if c in s then 1 else 0
  {
    if s != [] {
      var n := |s| - 1;
      assert s == s[..n] + [s[n]];
      AscendingOnce(s[..n], c);
    }
  }

  /** The fate of registration `c` after any sequence of events. */
  ghost function FateOf(events: seq<Event>, c: Callback): Entry
    requires Runs(Start, events) && c < |Ledgered(Blank, Start, events).entries|
  {
    Ledgered(Blank, Start, events).entries[c]
  }

  lemma {:induction false} Started()
    ensures Inv(Blank, Start) && Conserved(Start)
  {}

  /** After-commit delivery, exactly. A callback becomes ready once if its transaction and every enclosing one
      committed and no flush encloses its savepoint, and never otherwise; ready callbacks are in registration
      order; each is called at most once, and exactly once when no batch is left to run. */
  lemma {:induction false} DeliveredExactly(events: seq<Event>, c: Callback)
    requires Runs(Start, events) && c < Run(Start, events).serial
    ensures |Ledgered(Blank, Start, events).entries| == Run(Start, events).serial
    ensures var s := Run(Start, events);
            && (c in s.launched <==> Delivered(FateOf(events, c)))
            && Ascending(s.launched)
            && multiset(s.ran)[c] <= (if Delivered(FateOf(events, c)) then 1 else 0)
            && (s.batches == [] ==> multiset(s.ran)[c] == if Delivered(FateOf(events, c)) then 1 else 0)
  {
    Started();
    RunKeeps(Blank, Start, events);
    DeliveredNow(Ledgered(Blank, Start, events), Run(Start, events), c);
  }

  lemma {:induction false} DeliveredNow(l: Ledger, s: Session, c: Callback)
    requires Inv(l, s) && Conserved(s) && c < s.serial
    ensures |l.entries| == s.serial && (c in s.launched <==> Delivered(l.entries[c])) && Ascending(s.launched)
    ensures multiset(s.ran)[c] <= (if Delivered(l.entries[c]) then 1 else 0)
    ensures s.batches == [] ==> multiset(s.ran)[c] == if Delivered(l.entries[c]) then 1 else 0
  {
    DeliveredAscending(l.entries, 0);
    DeliveredMember(l.entries, 0, c);
    AscendingOnce(s.launched, c);
    assert multiset(s.launched)[c] == multiset(s.ran)[c] + multiset(Flatten(s.batches))[c];
  }

  /** The promise "runs if and only if its transaction and every enclosing one commit", for a callback whose
      enclosing transactions are known: kept for every callback no flush encloses, and broken for every other
      one whose transactions commit. */
  lemma {:induction false} PromiseKeptIff(events: seq<Event>, c: Callback)
    requires Runs(Start, events) && c < Run(Start, events).serial && Run(Start, events).batches == []
    ensures |Ledgered(Blank, Start, events).entries| == Run(Start, events).serial
    ensures var e := FateOf(events, c);
            (multiset(Run(Start, events).ran)[c] == (if e.fate == Durable then 1 else 0))
            <==> (NoFlush(e.path) || e.fate != Durable)
  {
    DeliveredExactly(events, c);
  }

  /** Runs one event at a time. */
  lemma {:induction false} Unfold(l: Ledger, s: Session, e: Event, rest: seq<Event>)
    requires Possible(s, e) && Runs(Apply(s, e), rest)
    ensures Runs(s, [e] + rest)
    ensures Run(s, [e] + rest) == Run(Apply(s, e), rest)
    ensures Ledgered(l, s, [e] + rest) == Ledgered(Account(l, s, e), Apply(s, e), rest)
  {
    assert ([e] + rest)[1..] == rest;
  }

  /** A savepoint opened inside a flush: everything commits and the callback is gone. */
  lemma {:induction false} LostInsideFlush()
    ensures var events := [Begin(Root), Begin(Flush), Begin(Savepoint), Register, End(true), End(true), End(true), RunNext];
            && Runs(Start, events)
            && Run(Start, events).ran == [] && Run(Start, events).batches == []
            && Ledgered(Blank, Start, events).entries == [Entry(0, [Tx(0, Root), Tx(1, Flush), Tx(2, Savepoint)], Durable)]
  {
    var r, f, p := Tx(0, Root), Tx(1, Flush), Tx(2, Savepoint);
    var s3 := Session(3, [r, f, p], [], 0, [], [], []);
    var e3 := [Register, End(true), End(true), End(true), RunNext];
    LostFrom(s3, r, f, p);
    OpenThree(s3, e3);
    assert [Begin(Root), Begin(Flush), Begin(Savepoint)] + e3
        == [Begin(Root), Begin(Flush), Begin(Savepoint), Register, End(true), End(true), End(true), RunNext];
  }

  lemma {:induction false} OpenThree(s3: Session, rest: seq<Event>)
    requires s3 == Session(3, [Tx(0, Root), Tx(1, Flush), Tx(2, Savepoint)], [], 0, [], [], []) && Runs(s3, rest)
    ensures var events := [Begin(Root), Begin(Flush), Begin(Savepoint)] + rest;
            Runs(Start, events) && Run(Start, events) == Run(s3, rest)
            && Ledgered(Blank, Start, events) == Ledgered(Blank, s3, rest)
  {
    var s1 := Session(1, [Tx(0, Root)], [], 0, [], [], []);
    var s2 := Session(2, [Tx(0, Root), Tx(1, Flush)], [], 0, [], [], []);
    assert Apply(s2, Begin(Savepoint)) == s3 && Apply(s1, Begin(Flush)) == s2 && Apply(Start, Begin(Root)) == s1;
    var e2 := [Begin(Savepoint)] + rest;
    var e1 := [Begin(Flush)] + e2;
    Unfold(Blank, s2, Begin(Savepoint), rest);
    Unfold(Blank, s1, Begin(Flush), e2);
    Unfold(Blank, Start, Begin(Root), e1);
    assert [Begin(Root)] + e1 == [Begin(Root), Begin(Flush), Begin(Savepoint)] + rest;
  }

  lemma {:induction false} LostFrom(s3: Session, r: Tx, f: Tx, p: Tx)
    requires r == Tx(0, Root) && f == Tx(1, Flush) && p == Tx(2, Savepoint)
    requires s3 == Session(3, [r, f, p], [], 0, [], [], [])
    ensures var events := [Register, End(true), End(true), End(true), RunNext];
            && Runs(s3, events)
            && Run(s3, events).ran == [] && Run(s3, events).batches == []
            && Ledgered(Blank, s3, events).entries == [Entry(0, [r, f, p], Durable)]
  {
    var s4 := s3.(pending := [Pending(p, 0)], serial := 1);
    var e := Entry(0, [r, f, p], Undecided);
    assert Apply(s3, Register) == s4 && Account(Blank, s3, Register) == Ledger([e], 0) by {
      assert OwnerIndex(s3.stack) == 2;
      assert s3.stack[..3] == [r, f, p];
    }
    LostEnds(s4, r, f, p, e);
    Unfold(Blank, s3, Register, [End(true), End(true), End(true), RunNext]);
    assert [Register] + [End(true), End(true), End(true), RunNext]
        == [Register, End(true), End(true), End(true), RunNext];
  }

  lemma {:induction false} LostEnds(s4: Session, r: Tx, f: Tx, p: Tx, e: Entry)
    requires r == Tx(0, Root) && f == Tx(1, Flush) && p == Tx(2, Savepoint) && e == Entry(0, [r, f, p], Undecided)
    requires s4 == Session(3, [r, f, p], [Pending(p, 0)], 1, [], [], [])
    ensures var events := [End(true), End(true), End(true), RunNext];
            && Runs(s4, events)
            && Run(s4, events).ran == [] && Run(s4, events).batches == []
            && Ledgered(Ledger([e], 0), s4, events).entries == [e.(fate := Durable)]
  {
    var l := Ledger([e], 0);
    var s5 := s4.(stack := [r, f], pending := [Pending(f, 0)]);
    var s6 := s5.(stack := [r], pending := []);
    var s7 := s6.(stack := [], batches := [[]]);
    assert Apply(s4, End(true)) == s5 by {
      assert s4.stack[..2] == [r, f];
      assert s4.pending[1..] == [] && Reparent([], p, f) == [];
    }
    assert Apply(s5, End(true)) == s6 by {
      assert s5.stack[..1] == [r];
      assert s5.pending[1..] == [] && Discard([], f) == [];
    }
    assert Apply(s6, End(true)) == s7;
    assert Apply(s7, RunNext) == s7.(batches := []);
    assert Account(l, s4, End(true)) == l && Account(l, s5, End(true)) == l;
    assert Account(l, s6, End(true)).entries == [e.(fate := Durable)];
    var l7 := Account(l, s6, End(true));
    Unfold(l7, s7, RunNext, []);
    Unfold(l, s6, End(true), [RunNext] + []);
    Unfold(l, s5, End(true), [End(true)] + ([RunNext] + []));
    Unfold(l, s4, End(true), [End(true)] + ([End(true)] + ([RunNext] + [])));
    assert [End(true)] + ([End(true)] + ([End(true)] + ([RunNext] + []))) == [End(true), End(true), End(true), RunNext];
  }
}
