/** Callbacks that wait for a session's outermost commit, over savepoints and flush subtransactions. */
module AfterCommit {
  import opened Wrappers
  import opened Sequences

  /** What SQLAlchemy opens: the root transaction, savepoints, and the subtransaction around a flush. */
  datatype Kind = Root | Savepoint | Flush
  datatype Tx = Tx(id: nat, kind: Kind)

  /** A registered callback; each registration has its own serial number. */
  type Callback = nat
  datatype Pending = Pending(tx: Tx, cb: Callback)

  /** Everything registered under `tx` now belongs to `parent`. */
  function Reparent(pending: seq<Pending>, tx: Tx, parent: Tx): seq<Pending> {
    if pending == [] then [] else
      [if pending[0].tx == tx then Pending(parent, pending[0].cb) else pending[0]] + Reparent(pending[1..], tx, parent)
  }

  /** Any other end of an inner transaction discards its own. */
  function Discard(pending: seq<Pending>, tx: Tx): seq<Pending> {
    if pending == [] then [] else
      (if pending[0].tx == tx then [] else [pending[0]]) + Discard(pending[1..], tx)
  }

  function Callbacks(pending: seq<Pending>): seq<Callback> {
    if pending == [] then [] else [pending[0].cb] + Callbacks(pending[1..])
  }

  /** The callback's transaction: the innermost savepoint, wherever it lies, else the root. */
  function OwnerIndex(stack: seq<Tx>): (i: nat)
    requires stack != []
    ensures i < |stack|
  {
    if |stack| == 1 || stack[|stack| - 1].kind == Savepoint then |stack| - 1 else OwnerIndex(stack[..|stack| - 1])
  }

  /** The law of the stack: a registration belongs to the root or to a savepoint, and no savepoint lies above it. */
  predicate Innermost(stack: seq<Tx>, i: nat) {
    && i < |stack| && (i == 0 || stack[i].kind == Savepoint)
    && forall j :: i < j < |stack| ==> stack[j].kind != Savepoint
  }

  /** The callback's transaction obeys that law, and only one position does. */
  lemma {:induction false} OwnerIsInnermost(stack: seq<Tx>, i: nat)
    requires stack != []
    ensures Innermost(stack, OwnerIndex(stack))
    ensures Innermost(stack, i) ==> i == OwnerIndex(stack)
  {
    var n := |stack| - 1;
    if n > 0 && stack[n].kind != Savepoint {
      var shorter := stack[..n];
      OwnerIsInnermost(shorter, if i < n then i else 0);
      assert forall j :: 0 <= j < n ==> shorter[j] == stack[j];
    }
  }

  /** The part of `Session.info` the two listeners keep. */
  class Hooks {
    var pending: seq<Pending>
    var committed: bool

    constructor ()
      ensures pending == [] && !committed
    {
      pending, committed := [], false;
    }

    method RunAfterCommit(stack: seq<Tx>, cb: Callback)
      requires stack != []
      modifies this
      ensures pending == old(pending) + [Pending(stack[OwnerIndex(stack)], cb)] && committed == old(committed)
      ensures Innermost(stack, OwnerIndex(stack))
    {
      OwnerIsInnermost(stack, 0);
      pending := pending + [Pending(stack[OwnerIndex(stack)], cb)];
    }

    method OnCommit()
      modifies this
      ensures committed && pending == old(pending)
    {
      committed := true;
    }

    /** Settles what was registered under `tx`; at the root's commit everything left becomes ready, in order. */
    method OnTransactionEnd(tx: Tx, parent: Option<Tx>) returns (ready: seq<Callback>)
      modifies this
      ensures !committed
      ensures (pending, ready) == Settle(old(pending), old(committed), tx, parent)
    {
      var wasCommitted := committed;
      committed := false;
      if pending == [] {
        return [];
      }
      if parent.Some? {
        pending := if wasCommitted then Reparent(pending, tx, parent.value) else Discard(pending, tx);
        return [];
      }
      ready := if wasCommitted then Callbacks(pending) else [];
      pending := [];
    }
  }

  function Settle(pending: seq<Pending>, committed: bool, tx: Tx, parent: Option<Tx>): (seq<Pending>, seq<Callback>) {
    if parent.None? then ([], if committed then Callbacks(pending) else [])
    else (if committed then Reparent(pending, tx, parent.value) else Discard(pending, tx), [])
  }

  // ---- Every sequence of session events ----

  /** `stack` is SQLAlchemy's own; `batches` are the ready lists
      being run, innermost last; `launched` lists every callback that became ready, `ran` every one that was called. */
  datatype Session = Session(next: nat, stack: seq<Tx>, pending: seq<Pending>,
                             serial: nat, batches: seq<seq<Callback>>, launched: seq<Callback>, ran: seq<Callback>)

  datatype Event =
    | Begin(kind: Kind)
    | Register
    | End(commit: bool)
    | RunNext

  const Start := Session(0, [], [], 0, [], [], [])

  /** Which events the session can issue. A flush ends with `commit` telling whether it succeeded. */
  predicate Possible(s: Session, e: Event) {
    match e
    case Begin(kind) => (kind == Root) == (s.stack == [])
    case Register => true
    case End(_) => s.stack != []
    case RunNext => s.batches != []
  }

  function Opened(s: Session, kind: Kind): Session {
    s.(stack := s.stack + [Tx(s.next, kind)], next := s.next + 1)
  }

  /** `after_commit` fires for the root and for savepoints, never for the flush subtransaction. */
  function Ended(s: Session, commit: bool): Session
    requires s.stack != []
  {
    var tx, rest := s.stack[|s.stack| - 1], s.stack[..|s.stack| - 1];
    var fired := commit && tx.kind != Flush;
    var parent: Option<Tx> := if rest == [] then None else Some(rest[|rest| - 1]);
    var (pending, ready) := Settle(s.pending, fired, tx, parent);
    s.(stack := rest, pending := pending,
       batches := if rest == [] && fired then s.batches + [ready] else s.batches,
       launched := s.launched + ready)
  }

  function Registered(s: Session): Session {
    var t := if s.stack == [] then Opened(s, Root) else s;
    t.(pending := t.pending + [Pending(t.stack[OwnerIndex(t.stack)], t.serial)], serial := t.serial + 1)
  }

  function RanNext(s: Session): Session
    requires s.batches != []
  {
    var outer, batch := s.batches[..|s.batches| - 1], s.batches[|s.batches| - 1];
    if batch == [] then s.(batches := outer)
    else s.(batches := outer + [batch[1..]], ran := s.ran + [batch[0]])
  }

  function Apply(s: Session, e: Event): Session
    requires Possible(s, e)
  {
    match e
    case Begin(kind) => Opened(s, kind)
    case Register => Registered(s)
    case End(commit) => Ended(s, commit)
    case RunNext => RanNext(s)
  }

  // ---- The promise, kept in a ledger that knows nothing of re-parenting ----

  datatype Fate = Undecided | Lost | Durable

  /** One registration: its callback, the transactions that enclosed it from the root to its own, and what became of it. */
  datatype Entry = Entry(cb: Callback, path: seq<Tx>, fate: Fate)

  /** `since` counts the registrations made before the current root transaction began. */
  datatype Ledger = Ledger(entries: seq<Entry>, since: nat)

  /** A callback is lost as soon as its own or an enclosing transaction ends without committing, and durable once
      the root commits. A flush is part of the transaction around it. */
  function Decide(e: Entry, tx: Tx, commit: bool): Entry {
    if e.fate != Undecided || tx !in e.path || tx.kind == Flush then e
    else if !commit then e.(fate := Lost)
    else if tx.kind == Root then e.(fate := Durable)
    else e
  }

  function DecideAll(entries: seq<Entry>, tx: Tx, commit: bool): (out: seq<Entry>)
    ensures |out| == |entries|
    ensures forall i :: 0 <= i < |entries| ==> out[i] == Decide(entries[i], tx, commit)
  {
    seq(|entries|, i requires 0 <= i < |entries| => Decide(entries[i], tx, commit))
  }

  /** The transactions around a registration, from the root to the one it belongs to, by the law of the stack. */
  ghost function PathOf(stack: seq<Tx>): (path: seq<Tx>)
    requires stack != []
    ensures path == stack[..OwnerIndex(stack) + 1]
  {
    assert Innermost(stack, OwnerIndex(stack)) by { OwnerIsInnermost(stack, 0); }
    var i :| Innermost(stack, i);
    OwnerIsInnermost(stack, i);
    stack[..i + 1]
  }

  ghost function Account(l: Ledger, s: Session, e: Event): Ledger
    requires Possible(s, e)
  {
    match e
    case Begin(kind) => if kind == Root then l.(since := |l.entries|) else l
    case Register =>
      var t := if s.stack == [] then Opened(s, Root) else s;
      var entry := Entry(s.serial, PathOf(t.stack), Undecided);
      Ledger(l.entries + [entry], if s.stack == [] then |l.entries| else l.since)
    case End(commit) => l.(entries := DecideAll(l.entries, s.stack[|s.stack| - 1], commit))
    case RunNext => l
  }

  // ---- What the code does, read off the ledger ----

  predicate NoFlush(path: seq<Tx>) {
    forall t :: t in path ==> t.kind != Flush
  }

  /** How much of a registration's path is still open. */
  function Depth(path: seq<Tx>, stack: seq<Tx>): (d: nat)
    ensures d <= |path| && d <= |stack| && path[..d] == stack[..d]
    ensures d < |path| && d < |stack| ==> path[d] != stack[d]
  {
    if path == [] || stack == [] || path[0] != stack[0] then 0 else
      var d := Depth(path[1..], stack[1..]);
      assert path[..d + 1] == [path[0]] + path[1..][..d] && stack[..d + 1] == [stack[0]] + stack[1..][..d];
      d + 1
  }

  /** Still waiting, as the code sees it: undecided, and no flush on its path has ended yet. */
  predicate Waiting(e: Entry, stack: seq<Tx>) {
    e.fate == Undecided && NoFlush(e.path[Depth(e.path, stack)..])
  }

  function AsPending(e: Entry, stack: seq<Tx>): seq<Pending> {
    var d := Depth(e.path, stack);
    if Waiting(e, stack) && d > 0 then [Pending(e.path[d - 1], e.cb)] else []
  }

  function WaitingList(entries: seq<Entry>, stack: seq<Tx>): seq<Pending> {
    if entries == [] then [] else AsPending(entries[0], stack) + WaitingList(entries[1..], stack)
  }

  /** The promise restricted to callbacks no flush encloses. */
  predicate Delivered(e: Entry) {
    e.fate == Durable && NoFlush(e.path)
  }

  function DeliveredList(entries: seq<Entry>): seq<Callback> {
    if entries == [] then [] else (if Delivered(entries[0]) then [entries[0].cb] else []) + DeliveredList(entries[1..])
  }

  // ---- The invariant ----

  ghost predicate StackOk(s: Session) {
    && (forall i, j :: 0 <= i < j < |s.stack| ==> s.stack[i].id < s.stack[j].id)
    && (forall i :: 0 <= i < |s.stack| ==> s.stack[i].id < s.next && (s.stack[i].kind == Root <==> i == 0))
  }

  ghost predicate EntryOn(e: Entry, stack: seq<Tx>, next: nat) {
    && e.path != [] && e.path[0].kind == Root
    && (forall t :: t in e.path ==> t.id < next)
    && (forall i :: 0 <= i < |stack| && stack[i] in e.path ==> i < Depth(e.path, stack))
    && (e.fate == Undecided ==> Depth(e.path, stack) > 0)
  }

  ghost predicate EntryOk(e: Entry, s: Session) {
    EntryOn(e, s.stack, s.next)
  }

  ghost predicate LedgerOk(l: Ledger, s: Session) {
    && |l.entries| == s.serial && l.since <= |l.entries|
    && (forall i :: 0 <= i < |l.entries| ==> l.entries[i].cb == i && EntryOk(l.entries[i], s))
    && (forall i :: 0 <= i < l.since ==> l.entries[i].fate != Undecided)
    && (s.stack != [] ==> forall i :: l.since <= i < |l.entries| ==> l.entries[i].fate != Durable)
  }

  ghost predicate Inv(l: Ledger, s: Session) {
    && StackOk(s) && LedgerOk(l, s)
    && s.pending == WaitingList(l.entries, s.stack)
    && s.launched == DeliveredList(l.entries)
  }

  // ---- Pushing and popping ----

  lemma {:induction false} DepthPush(path: seq<Tx>, stack: seq<Tx>, tx: Tx)
    requires tx !in path
    ensures Depth(path, stack + [tx]) == Depth(path, stack)
  {
    if path != [] && stack != [] && path[0] == stack[0] {
      DepthPush(path[1..], stack[1..], tx);
      assert (stack + [tx])[1..] == stack[1..] + [tx];
    }
  }

  lemma {:induction false} DepthPop(path: seq<Tx>, rest: seq<Tx>, tx: Tx)
    ensures var d := Depth(path, rest + [tx]);
            Depth(path, rest) == if d == |rest| + 1 then |rest| else d
  {
    if path == [] {
    } else if rest == [] {
      assert (rest + [tx])[1..] == [];
    } else if path[0] == rest[0] {
      DepthPop(path[1..], rest[1..], tx);
      assert (rest + [tx])[1..] == rest[1..] + [tx] && (rest + [tx])[0] == rest[0];
    }
  }

  lemma {:induction false} DepthOwn(stack: seq<Tx>, k: nat)
    requires k <= |stack|
    ensures Depth(stack[..k], stack) == k
  {
    if k > 0 {
      DepthOwn(stack[1..], k - 1);
      assert stack[..k][1..] == stack[1..][..k - 1];
    }
  }

  lemma {:induction false} WaitingConcat(a: seq<Entry>, b: seq<Entry>, stack: seq<Tx>)
    ensures WaitingList(a + b, stack) == WaitingList(a, stack) + WaitingList(b, stack)
  {
    if a == [] {
      assert a + b == b;
    } else {
      WaitingConcat(a[1..], b, stack);
      assert (a + b)[0] == a[0] && (a + b)[1..] == a[1..] + b;
      Associates(AsPending(a[0], stack), WaitingList(a[1..], stack), WaitingList(b, stack));
    }
  }

  lemma {:induction false} DeliveredConcat(a: seq<Entry>, b: seq<Entry>)
    ensures DeliveredList(a + b) == DeliveredList(a) + DeliveredList(b)
  {
    if a == [] {
      assert a + b == b;
    } else {
      DeliveredConcat(a[1..], b);
      assert (a + b)[0] == a[0] && (a + b)[1..] == a[1..] + b;
      Associates(if Delivered(a[0]) then [a[0].cb] else [], DeliveredList(a[1..]), DeliveredList(b));
    }
  }

  /** Opening a transaction moves no callback. */
  lemma {:induction false} WaitingPush(entries: seq<Entry>, stack: seq<Tx>, tx: Tx)
    requires forall e :: e in entries ==> tx !in e.path
    ensures WaitingList(entries, stack + [tx]) == WaitingList(entries, stack)
  {
    if entries != [] {
      assert entries[0] in entries;
      DepthPush(entries[0].path, stack, tx);
      WaitingPush(entries[1..], stack, tx);
    }
  }

  // ---- What the end of a transaction does to one registration ----

  ghost predicate Fits(e: Entry, rest: seq<Tx>, tx: Tx) {
    && e.path != [] && (e.fate == Undecided ==> Depth(e.path, rest + [tx]) > 0)
    && (forall i :: 0 <= i < |rest| ==> rest[i] != tx)
    && (tx in e.path && e.fate == Undecided ==> Depth(e.path, rest + [tx]) == |rest| + 1)
  }

  /** A savepoint's release, seen on one entry: re-parented when it was the entry's transaction. */
  lemma {:induction false} ReleaseOne(e: Entry, rest: seq<Tx>, tx: Tx)
    requires Fits(e, rest, tx) && rest != [] && tx.kind == Savepoint
    ensures AsPending(Decide(e, tx, true), rest) == Reparent(AsPending(e, rest + [tx]), tx, rest[|rest| - 1])
  {
    DepthPop(e.path, rest, tx);
    var d := Depth(e.path, rest + [tx]);
    if d == |rest| + 1 {
      PathEndsHere(e.path, rest, tx);
    }
  }

  /** What is left of a path once its open part ends at the closing transaction. */
  lemma {:induction false} PathEndsHere(path: seq<Tx>, rest: seq<Tx>, tx: Tx)
    requires Depth(path, rest + [tx]) == |rest| + 1
    ensures |path| > |rest| && path[|rest|] == tx && path[|rest|..] == [tx] + path[|rest| + 1..] && tx in path[|rest|..]
    ensures rest != [] ==> path[|rest| - 1] == rest[|rest| - 1]
  {
    var d := |rest| + 1;
    assert path[..d] == (rest + [tx])[..d] == rest + [tx];
    assert path[|rest|] == path[..d][|rest|];
    assert rest != [] ==> path[|rest| - 1] == path[..d][|rest| - 1];
    assert path[|rest|..][0] == tx;
  }

  /** A rollback, or the end of a flush: the entry is gone when that was its transaction. */
  lemma {:induction false} DropOne(e: Entry, rest: seq<Tx>, tx: Tx, commit: bool)
    requires Fits(e, rest, tx) && rest != [] && tx.kind != Root && (tx.kind == Flush || !commit)
    ensures AsPending(Decide(e, tx, commit), rest) == Discard(AsPending(e, rest + [tx]), tx)
  {
    DepthPop(e.path, rest, tx);
    var d := Depth(e.path, rest + [tx]);
    if d == |rest| + 1 {
      PathEndsHere(e.path, rest, tx);
    } else if d > 0 {
      assert e.path[d - 1] == e.path[..d][d - 1] == (rest + [tx])[d - 1] == rest[d - 1];
    }
  }

  lemma {:induction false} ReparentConcat(a: seq<Pending>, b: seq<Pending>, tx: Tx, parent: Tx)
    ensures Reparent(a + b, tx, parent) == Reparent(a, tx, parent) + Reparent(b, tx, parent)
  {
    if a == [] {
      assert a + b == b;
    } else {
      ReparentConcat(a[1..], b, tx, parent);
      assert (a + b)[0] == a[0] && (a + b)[1..] == a[1..] + b;
      var head := Reparent(a, tx, parent)[..1];
      Associates(head, Reparent(a[1..], tx, parent), Reparent(b, tx, parent));
    }
  }

  lemma {:induction false} DiscardConcat(a: seq<Pending>, b: seq<Pending>, tx: Tx)
    ensures Discard(a + b, tx) == Discard(a, tx) + Discard(b, tx)
  {
    if a == [] {
      assert a + b == b;
    } else {
      DiscardConcat(a[1..], b, tx);
      assert (a + b)[0] == a[0] && (a + b)[1..] == a[1..] + b;
      Associates(if a[0].tx == tx then [] else [a[0]], Discard(a[1..], tx), Discard(b, tx));
    }
  }

  lemma {:induction false} ReleaseAll(entries: seq<Entry>, rest: seq<Tx>, tx: Tx)
    requires rest != [] && tx.kind == Savepoint && forall e :: e in entries ==> Fits(e, rest, tx)
    ensures WaitingList(DecideAll(entries, tx, true), rest)
         == Reparent(WaitingList(entries, rest + [tx]), tx, rest[|rest| - 1])
  {
    if entries != [] {
      assert entries[0] in entries;
      ReleaseOne(entries[0], rest, tx);
      ReleaseAll(entries[1..], rest, tx);
      ReparentConcat(AsPending(entries[0], rest + [tx]), WaitingList(entries[1..], rest + [tx]), tx, rest[|rest| - 1]);
      assert DecideAll(entries, tx, true)[1..] == DecideAll(entries[1..], tx, true);
    }
  }

  lemma {:induction false} DropAll(entries: seq<Entry>, rest: seq<Tx>, tx: Tx, commit: bool)
    requires rest != [] && tx.kind != Root && (tx.kind == Flush || !commit)
    requires forall e :: e in entries ==> Fits(e, rest, tx)
    ensures WaitingList(DecideAll(entries, tx, commit), rest) == Discard(WaitingList(entries, rest + [tx]), tx)
  {
    if entries != [] {
      assert entries[0] in entries;
      DropOne(entries[0], rest, tx, commit);
      DropAll(entries[1..], rest, tx, commit);
      DiscardConcat(AsPending(entries[0], rest + [tx]), WaitingList(entries[1..], rest + [tx]), tx);
      assert DecideAll(entries, tx, commit)[1..] == DecideAll(entries[1..], tx, commit);
    }
  }
}
