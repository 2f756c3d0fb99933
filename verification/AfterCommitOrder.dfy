/** The order of the calls: callbacks of one outermost transaction run in registration order, even when callbacks
    open, fill and commit further transactions while their batch is still being run. */
module AfterCommitOrder {
  import opened AfterCommit
  import opened AfterCommitRuns

  /** `c` belongs to an outermost transaction that is over. */
  ghost predicate Over(l: Ledger, s: Session, c: Callback) {
    && c < |l.entries| && l.entries[c].path != [] && l.entries[c].path[0].id < s.next
    && (s.stack != [] ==> c < l.since && l.entries[c].path[0].id < s.stack[0].id)
  }

  ghost predicate AllOver(l: Ledger, s: Session) {
    && (forall c :: c in s.ran ==> Over(l, s, c))
    && (forall k, c :: 0 <= k < |s.batches| && c in s.batches[k] ==> Over(l, s, c))
  }

  ghost predicate SameRoot(l: Ledger, c: Callback, d: Callback) {
    && c < |l.entries| && d < |l.entries| && l.entries[c].path != [] && l.entries[d].path != []
    && l.entries[c].path[0] == l.entries[d].path[0]
  }

  ghost predicate RanInOrder(l: Ledger, ran: seq<Callback>) {
    forall i, j :: 0 <= i < j < |ran| && SameRoot(l, ran[i], ran[j]) ==> ran[i] < ran[j]
  }

  ghost predicate BatchesInOrder(l: Ledger, ran: seq<Callback>, batches: seq<seq<Callback>>) {
    && (forall k :: 0 <= k < |batches| ==> Ascending(batches[k]))
    && (forall c, k, d :: c in ran && 0 <= k < |batches| && d in batches[k] && SameRoot(l, c, d) ==> c < d)
    && (forall k, m, c, d :: 0 <= k < m < |batches| && c in batches[k] && d in batches[m] ==> !SameRoot(l, c, d))
  }

  ghost predicate Order(l: Ledger, s: Session) {
    AllOver(l, s) && RanInOrder(l, s.ran) && BatchesInOrder(l, s.ran, s.batches)
  }

  /** Later ledgers keep every path. */
  ghost predicate Extends(l: Ledger, m: Ledger) {
    |l.entries| <= |m.entries| && forall i :: 0 <= i < |l.entries| ==> m.entries[i].path == l.entries[i].path
  }

  lemma {:induction false} OrderExtends(l: Ledger, m: Ledger, s: Session)
    requires Order(l, s) && Extends(l, m)
    ensures RanInOrder(m, s.ran) && BatchesInOrder(m, s.ran, s.batches)
  {
    forall c, d | Over(l, s, c) && Over(l, s, d)
      ensures SameRoot(m, c, d) <==> SameRoot(l, c, d)
    {}
    forall i | 0 <= i < |s.ran|
      ensures Over(l, s, s.ran[i])
    {
      assert s.ran[i] in s.ran;
    }
  }

  lemma {:induction false} AccountExtends(l: Ledger, s: Session, e: Event)
    requires Possible(s, e)
    ensures Extends(l, Account(l, s, e))
  {}

  lemma {:induction false} OverKept(l: Ledger, s: Session, e: Event, c: Callback)
    requires LedgerOk(l, s) && Possible(s, e) && Over(l, s, c)
    ensures Over(Account(l, s, e), Apply(s, e), c)
  {
    assert EntryOk(l.entries[c], s);
    if e.End? {
      var rest := s.stack[..|s.stack| - 1];
      assert rest != [] ==> rest[0] == s.stack[0];
    }
  }

  lemma {:induction false} AllOverKept(l: Ledger, s: Session, e: Event)
    requires LedgerOk(l, s) && Possible(s, e) && AllOver(l, s)
    ensures forall c :: c in s.ran ==> Over(Account(l, s, e), Apply(s, e), c)
    ensures forall k, c :: 0 <= k < |s.batches| && c in s.batches[k] ==> Over(Account(l, s, e), Apply(s, e), c)
  {
    forall c | Over(l, s, c)
      ensures Over(Account(l, s, e), Apply(s, e), c)
    {
      OverKept(l, s, e, c);
    }
  }

  // ---- The batch a root commit makes ready ----

  lemma {:induction false} WaitingMember(entries: seq<Entry>, stack: seq<Tx>, base: nat, c: Callback)
    requires forall i :: 0 <= i < |entries| ==> entries[i].cb == base + i
    requires c in Callbacks(WaitingList(entries, stack))
    ensures base <= c < base + |entries|
    ensures entries[c - base].fate == Undecided && Depth(entries[c - base].path, stack) > 0
  {
    if entries != [] {
      var head, tail := AsPending(entries[0], stack), WaitingList(entries[1..], stack);
      CallbacksConcat(head, tail);
      if c in Callbacks(tail) {
        WaitingMember(entries[1..], stack, base + 1, c);
      } else {
        assert c in Callbacks(head);
        assert head != [] && head[1..] == [] && Callbacks(head) == [entries[0].cb] + Callbacks([]);
      }
    }
  }

  /** What becomes ready was registered under the root that commits, after everything already over. */
  lemma {:induction false} ReadyIsNew(l: Ledger, s: Session, c: Callback)
    requires Inv(l, s) && |s.stack| == 1 && c in Callbacks(s.pending)
    ensures l.since <= c < |l.entries| && l.entries[c].path != [] && l.entries[c].path[0] == s.stack[0]
  {
    WaitingMember(l.entries, s.stack, 0, c);
    var path := l.entries[c].path;
    var d := Depth(path, s.stack);
    assert path[0] == path[..d][0] == s.stack[..d][0];
  }

  lemma {:induction false} ReadyAscending(l: Ledger, s: Session)
    requires Inv(l, s) && |s.stack| == 1
    ensures Ascending(Callbacks(s.pending))
  {
    RootCommitDelivers(l, s);
    var entries := DecideAll(l.entries, s.stack[0], true);
    if s.stack[0].kind == Root {
      DeliveredAscending(entries, 0);
      var all, ready := s.launched + Callbacks(s.pending), Callbacks(s.pending);
      assert forall i :: 0 <= i < |ready| ==> ready[i] == all[|s.launched| + i];
    }
  }

  lemma {:induction false} NewBatchInOrder(l: Ledger, s: Session, ready: seq<Callback>)
    requires Order(l, s) && s.stack != [] && Ascending(ready)
    requires forall c :: c in ready ==>
               l.since <= c < |l.entries| && l.entries[c].path != [] && l.entries[c].path[0] == s.stack[0]
    ensures BatchesInOrder(l, s.ran, s.batches + [ready])
  {
    var batches := s.batches + [ready];
    forall c, k, d | c in s.ran && 0 <= k < |batches| && d in batches[k] && SameRoot(l, c, d)
      ensures c < d
    {
      assert Over(l, s, c);
    }
    forall k, m, c, d | 0 <= k < m < |batches| && c in batches[k] && d in batches[m]
      ensures !SameRoot(l, c, d)
    {
      assert c in s.batches[k] && Over(l, s, c);
    }
  }

  lemma {:induction false} CommitEndsAll(l: Ledger, s: Session, ready: seq<Callback>)
    requires LedgerOk(l, s) && AllOver(l, s) && |s.stack| == 1 && s.stack[0].kind == Root && StackOk(s) && Possible(s, End(true))
    requires Ended(s, true).batches == s.batches + [ready] && Ended(s, true).ran == s.ran
    requires forall c :: c in ready ==> c < |l.entries| && l.entries[c].path != [] && l.entries[c].path[0] == s.stack[0]
    ensures AllOver(Account(l, s, End(true)), Ended(s, true))
  {
    var m, t := Account(l, s, End(true)), Ended(s, true);
    AccountExtends(l, s, End(true));
    assert s.stack[..0] == [] && t.stack == [] && t.next == s.next;
    assert m.entries == DecideAll(l.entries, s.stack[0], true);
    forall k, c | 0 <= k < |t.batches| && c in t.batches[k]
      ensures Over(m, t, c)
    {
      if k < |s.batches| {
        assert c in s.batches[k];
        OverKept(l, s, End(true), c);
      } else {
        assert c in ready;
        assert s.stack[0].id < s.next;
        assert m.entries[c].path == l.entries[c].path;
      }
    }
  }

  lemma {:induction false} OrderSame(l: Ledger, m: Ledger, ran: seq<Callback>, batches: seq<seq<Callback>>)
    requires RanInOrder(l, ran) && BatchesInOrder(l, ran, batches)
    requires |m.entries| == |l.entries| && Extends(l, m)
    ensures RanInOrder(m, ran) && BatchesInOrder(m, ran, batches)
  {
    forall c, d
      ensures SameRoot(m, c, d) <==> SameRoot(l, c, d)
    {}
  }

  lemma {:induction false} CommitKeepsOrder(l: Ledger, s: Session)
    requires Inv(l, s) && Order(l, s) && |s.stack| == 1 && Possible(s, End(true))
    ensures Order(Account(l, s, End(true)), Ended(s, true))
  {
    var ready := Callbacks(s.pending);
    assert s.stack[0].kind == Root && s.stack[..0] == [];
    assert Ended(s, true).batches == s.batches + [ready] && Ended(s, true).ran == s.ran;
    ReadyAscending(l, s);
    forall c | c in ready
      ensures l.since <= c < |l.entries| && l.entries[c].path != [] && l.entries[c].path[0] == s.stack[0]
    {
      ReadyIsNew(l, s, c);
    }
    NewBatchInOrder(l, s, ready);
    AccountExtends(l, s, End(true));
    OrderSame(l, Account(l, s, End(true)), s.ran, s.batches + [ready]);
    CommitEndsAll(l, s, ready);
  }

  // ---- Calling the next callback ----

  lemma {:induction false} CallKeepsOrder(l: Ledger, ran: seq<Callback>, outer: seq<seq<Callback>>, batch: seq<Callback>)
    requires RanInOrder(l, ran) && BatchesInOrder(l, ran, outer + [batch]) && batch != []
    ensures RanInOrder(l, ran + [batch[0]]) && BatchesInOrder(l, ran + [batch[0]], outer + [batch[1..]])
  {
    var before, after := outer + [batch], outer + [batch[1..]];
    assert before[|outer|] == batch && batch[0] in before[|outer|];
    assert forall i :: 0 <= i < |ran| ==> ran[i] in ran;
    forall k | 0 <= k < |after|
      ensures Ascending(after[k])
      ensures forall d :: d in after[k] ==> d in before[k]
    {
      assert Ascending(before[k]);
    }
    forall c, k, d | c in ran + [batch[0]] && 0 <= k < |after| && d in after[k] && SameRoot(l, c, d)
      ensures c < d
    {
      assert k < |outer| ==> d in before[k] && !SameRoot(l, d, batch[0]);
      assert SameRoot(l, c, d) == SameRoot(l, d, c);
      if c !in ran && k == |outer| {
        var i :| 0 <= i < |batch| - 1 && batch[1..][i] == d;
        assert Ascending(before[k]) && batch[1 + i] == d;
      }
    }
  }

  lemma {:induction false} RunNextKeepsOrder(l: Ledger, s: Session)
    requires Order(l, s) && s.batches != []
    ensures Order(l, RanNext(s))
  {
    var n := |s.batches| - 1;
    var outer, batch := s.batches[..n], s.batches[n];
    assert s.batches == outer + [batch];
    assert forall c :: Over(l, s, c) <==> Over(l, RanNext(s), c);
    if batch != [] {
      CallKeepsOrder(l, s.ran, outer, batch);
      assert batch[0] in s.batches[n];
      assert forall d :: d in batch[1..] ==> d in batch;
    }
  }

  lemma {:induction false} StepKeepsOrder(l: Ledger, s: Session, e: Event)
    requires Inv(l, s) && Order(l, s) && Possible(s, e)
    ensures Order(Account(l, s, e), Apply(s, e))
  {
    if e.RunNext? {
      RunNextKeepsOrder(l, s);
    } else if e == End(true) && |s.stack| == 1 {
      CommitKeepsOrder(l, s);
    } else {
      AccountExtends(l, s, e);
      OrderExtends(l, Account(l, s, e), s);
      AllOverKept(l, s, e);
      assert Apply(s, e).ran == s.ran && Apply(s, e).batches == s.batches;
    }
  }

  lemma {:induction false} RunKeepsOrder(l: Ledger, s: Session, events: seq<Event>)
    requires Inv(l, s) && Order(l, s) && Runs(s, events)
    ensures Order(Ledgered(l, s, events), Run(s, events))
    decreases |events|
  {
    if events != [] {
      StepKeeps(l, s, events[0]);
      StepKeepsOrder(l, s, events[0]);
      RunKeepsOrder(Account(l, s, events[0]), Apply(s, events[0]), events[1..]);
    }
  }

  /** Two callbacks of one outermost transaction are called in the order they were registered. */
  lemma {:induction false} RunInRegistrationOrder(events: seq<Event>, i: nat, j: nat)
    requires Runs(Start, events) && i < j < |Run(Start, events).ran|
    ensures var s, l := Run(Start, events), Ledgered(Blank, Start, events);
            && s.ran[i] < |l.entries| && s.ran[j] < |l.entries|
            && l.entries[s.ran[i]].path != [] && l.entries[s.ran[j]].path != []
            && (l.entries[s.ran[i]].path[0] == l.entries[s.ran[j]].path[0] ==> s.ran[i] < s.ran[j])
  {
    Started();
    RunKeepsOrder(Blank, Start, events);
    var s, l := Run(Start, events), Ledgered(Blank, Start, events);
    assert Over(l, s, s.ran[i]) && Over(l, s, s.ran[j]);
  }
}
