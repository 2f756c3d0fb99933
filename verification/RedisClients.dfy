/** The clients a process shares: one per address, counted by the references its platforms hold. */
module RedisClients {
  import opened Wrappers

  /** An address and whether responses are decoded. */
  datatype Key = Key(uri: string, decode: bool)

  /** `clients` maps each key to the client it has open, `refs` to its count; `made` numbers the clients. */
  datatype State = State(clients: map<Key, nat>, refs: map<Key, nat>, made: nat)

  function Count(s: State, key: Key): nat {
    if key in s.refs then s.refs[key] else 0
  }

  /** One more reference, to the client that is open or to a new one. */
  function Acquired(s: State, key: Key): State {
    State(if key in s.clients then s.clients else s.clients[key := s.made],
          s.refs[key := Count(s, key) + 1],
          if key in s.clients then s.made else s.made + 1)
  }

  function Released(s: State, key: Key): State {
    if Count(s, key) == 0 then s
    else if Count(s, key) > 1 then s.(refs := s.refs[key := Count(s, key) - 1])
    else s.(refs := s.refs - {key}, clients := s.clients - {key})
  }

  function ReleasedAll(s: State, keys: seq<Key>): State {
    if keys == [] then s else Released(ReleasedAll(s, keys[..|keys| - 1]), keys[|keys| - 1])
  }

  /** The clients that lose their last reference, in order. */
  function Closing(s: State, keys: seq<Key>): seq<nat> {
    if keys == [] then [] else
      var before, key := ReleasedAll(s, keys[..|keys| - 1]), keys[|keys| - 1];
      Closing(s, keys[..|keys| - 1]) + (if Count(before, key) == 1 && key in before.clients then [before.clients[key]] else [])
  }

  predicate Paired(s: State) {
    s.clients.Keys == s.refs.Keys && forall k :: k in s.refs ==> s.refs[k] > 0
  }

  class SharedClients {
    var clients: map<Key, nat>
    var refs: map<Key, nat>
    var made: nat

    function View(): State
      reads this
    {
      State(clients, refs, made)
    }

    constructor ()
      ensures View() == State(map[], map[], 0)
    {
      clients, refs, made := map[], map[], 0;
    }

    /** `reachable` is whether a new client, if one is needed, can be created. */
    method GetSharedClient(key: Key, reachable: bool) returns (client: Option<nat>)
      modifies this
      ensures client.None? <==> key !in old(clients) && !reachable
      ensures View() == if client.None? then old(View()) else Acquired(old(View()), key)
      ensures client.Some? ==> key in clients && clients[key] == client.value
    {
      if key !in clients {
        if !reachable {
          return None;
        }
        clients, made := clients[key := made], made + 1;
      }
      refs := refs[key := (if key in refs then refs[key] else 0) + 1];
      return Some(clients[key]);
    }

    /** Gives back one reference per key and tells which clients are now to be closed. */
    method ReleaseSharedClients(keys: seq<Key>) returns (closing: seq<nat>)
      requires Paired(View())
      modifies this
      ensures View() == ReleasedAll(old(View()), keys) && Paired(View())
      ensures closing == Closing(old(View()), keys)
    {
      closing := [];
      for i := 0 to |keys|
        invariant View() == ReleasedAll(old(View()), keys[..i]) && Paired(View())
        invariant closing == Closing(old(View()), keys[..i])
      {
        var key := keys[i];
        assert keys[..i + 1][..i] == keys[..i];
        ReleasedPaired(View(), key);
        var count := if key in refs then refs[key] else 0;
        if count > 1 {
          refs := refs[key := count - 1];
        } else if count == 1 {
          closing := closing + [clients[key]];
          refs, clients := refs - {key}, clients - {key};
        }
      }
      assert keys[..|keys|] == keys;
    }
  }

  /** A platform's own list of the references it took. */
  class Platform {
    var shared: seq<Key>

    constructor (acquired: seq<Key>)
      ensures shared == acquired
    {
      shared := acquired;
    }

    method CopyList() returns (taken: seq<Key>)
      ensures taken == shared
    {
      taken := shared;
    }

    method ClearList()
      modifies this
      ensures shared == []
    {
      shared := [];
    }

    /** The whole of a close that no other close of this platform runs into: one after it finds the list empty. */
    method Close(pool: SharedClients) returns (closing: seq<nat>)
      requires Paired(pool.View())
      modifies this, pool
      ensures shared == [] && Paired(pool.View())
      ensures pool.View() == ReleasedAll(old(pool.View()), old(shared)) && closing == Closing(old(pool.View()), old(shared))
      ensures old(shared) == [] ==> pool.View() == old(pool.View()) && closing == []
    {
      var taken := CopyList();
      ClearList();
      closing := pool.ReleaseSharedClients(taken);
    }
  }

  lemma {:induction false} ReleasedPaired(s: State, key: Key)
    requires Paired(s)
    ensures Paired(Released(s, key))
  {}

  // ---- Platforms ----

  /** A reference as its holder knows it: the key it gives back and the client it uses. */
  datatype Ref = Ref(key: Key, client: nat)

  /** A platform being built, one that is open (or closed: then it holds nothing), a close that has copied a platform's
      list but not cleared it yet, and one that has done both and is about to give the references back. */
  datatype Status = Building | Open | Copied(from: nat) | Returning | Gone
  datatype Holder = Holder(status: Status, refs: seq<Ref>)

  datatype World = World(s: State, holders: seq<Holder>, closed: seq<nat>)

  datatype Step =
    | StartBuild
    | Take(p: nat, key: Key, reachable: bool)
    | FinishBuild(p: nat)
    | FailBuild(p: nat)
    | CopyList(p: nat)
    | ClearList(q: nat)
    | GiveBack(q: nat)

  const Empty := World(State(map[], map[], 0), [], [])

  predicate Is(w: World, p: nat, status: Status) {
    p < |w.holders| && w.holders[p].status == status
  }

  predicate Possible(w: World, step: Step) {
    match step
    case StartBuild => true
    case Take(p, _, _) => Is(w, p, Building)
    case FinishBuild(p) => Is(w, p, Building)
    case FailBuild(p) => Is(w, p, Building)
    case CopyList(p) => Is(w, p, Open)
    case ClearList(q) => q < |w.holders| && w.holders[q].status.Copied? && Is(w, w.holders[q].status.from, Open)
    case GiveBack(q) => Is(w, q, Returning)
  }

  function KeysOf(refs: seq<Ref>): seq<Key> {
    if refs == [] then [] else KeysOf(refs[..|refs| - 1]) + [refs[|refs| - 1].key]
  }

  function GivenBack(w: World, p: nat): World
    requires p < |w.holders|
  {
    var keys := KeysOf(w.holders[p].refs);
    World(ReleasedAll(w.s, keys), w.holders[p := Holder(Gone, [])], w.closed + Closing(w.s, keys))
  }

  /** A close is three steps: copy the list, clear it, give the copy back. Closes of one platform may overlap. */
  function Next(w: World, step: Step): World
    requires Possible(w, step)
  {
    match step
    case StartBuild => w.(holders := w.holders + [Holder(Building, [])])
    case Take(p, key, reachable) =>
      if key !in w.s.clients && !reachable then w
      else
        var s := Acquired(w.s, key);
        w.(s := s, holders := w.holders[p := Holder(Building, w.holders[p].refs + [Ref(key, s.clients[key])])])
    case FinishBuild(p) => w.(holders := w.holders[p := Holder(Open, w.holders[p].refs)])
    case FailBuild(p) => GivenBack(w, p)
    case CopyList(p) => w.(holders := w.holders + [Holder(Copied(p), w.holders[p].refs)])
    case ClearList(q) =>
      w.(holders := w.holders[w.holders[q].status.from := Holder(Open, [])][q := Holder(Returning, w.holders[q].refs)])
    case GiveBack(q) => GivenBack(w, q)
  }

  // ---- Conservation ----

  predicate BeingCopied(holders: seq<Holder>, p: nat) {
    exists q :: 0 <= q < |holders| && holders[q].status == Copied(p)
  }

  /** The references a holder will give back, if nobody else does it for it: a list that a close has copied is that
      close's to give back. */
  function ClaimOf(holders: seq<Holder>, p: nat): seq<Ref>
    requires p < |holders|
  {
    if BeingCopied(holders, p) then [] else holders[p].refs
  }

  function Claims(holders: seq<Holder>): (lists: seq<seq<Ref>>)
    ensures |lists| == |holders|
    ensures forall p :: 0 <= p < |holders| ==> lists[p] == ClaimOf(holders, p)
  {
    seq(|holders|, p requires 0 <= p < |holders| => ClaimOf(holders, p))
  }

  function CountIn(refs: seq<Ref>, key: Key): nat {
    if refs == [] then 0 else CountIn(refs[..|refs| - 1], key) + (if refs[|refs| - 1].key == key then 1 else 0)
  }

  function Total(lists: seq<seq<Ref>>, key: Key): nat {
    if lists == [] then 0 else Total(lists[..|lists| - 1], key) + CountIn(lists[|lists| - 1], key)
  }

  /** How many references to `key` are held. */
  function Held(holders: seq<Holder>, key: Key): nat {
    Total(Claims(holders), key)
  }

  lemma {:induction false} TotalUpdate(lists: seq<seq<Ref>>, p: nat, refs: seq<Ref>, key: Key)
    requires p < |lists|
    ensures Total(lists[p := refs], key) + CountIn(lists[p], key) == Total(lists, key) + CountIn(refs, key)
  {
    var n := |lists| - 1;
    if p == n {
      assert lists[p := refs][..n] == lists[..n];
    } else {
      TotalUpdate(lists[..n], p, refs, key);
      assert lists[p := refs][..n] == lists[..n][p := refs];
    }
  }

  lemma {:induction false} TotalSnoc(lists: seq<seq<Ref>>, refs: seq<Ref>, key: Key)
    ensures Total(lists + [refs], key) == Total(lists, key) + CountIn(refs, key)
  {
    assert (lists + [refs])[..|lists|] == lists;
  }

  lemma {:induction false} TotalMember(lists: seq<seq<Ref>>, p: nat, key: Key)
    requires p < |lists|
    ensures Total(lists, key) >= CountIn(lists[p], key)
  {
    TotalUpdate(lists, p, [], key);
  }

  lemma {:induction false} CountMember(refs: seq<Ref>, i: nat)
    requires i < |refs|
    ensures CountIn(refs, refs[i].key) > 0
  {
    if i < |refs| - 1 {
      CountMember(refs[..|refs| - 1], i);
    }
  }

  /** Every count is the number of references held, and the two maps have the same keys. */
  ghost predicate Conserved(s: State, lists: seq<seq<Ref>>) {
    Paired(s) && forall k :: Count(s, k) == Total(lists, k)
  }

  ghost predicate Attached(s: State, refs: seq<Ref>) {
    forall i :: 0 <= i < |refs| ==> refs[i].key in s.clients && s.clients[refs[i].key] == refs[i].client
  }

  ghost predicate AllAttached(s: State, lists: seq<seq<Ref>>) {
    forall p :: 0 <= p < |lists| ==> Attached(s, lists[p])
  }

  ghost predicate ClientsOk(s: State, closed: seq<nat>) {
    && (forall k :: k in s.clients ==> s.clients[k] < s.made && s.clients[k] !in closed)
    && (forall k, m :: k in s.clients && m in s.clients && s.clients[k] == s.clients[m] ==> k == m)
    && (forall c :: c in closed ==> c < s.made)
  }

  /** A close copies the list of an open platform. */
  ghost predicate Structured(holders: seq<Holder>) {
    forall q :: 0 <= q < |holders| && holders[q].status.Copied? ==>
      holders[q].status.from < |holders| && holders[holders[q].status.from].status == Open
  }

  ghost predicate Inv(w: World) {
    && Structured(w.holders) && Conserved(w.s, Claims(w.holders)) && ClientsOk(w.s, w.closed)
    && AllAttached(w.s, Claims(w.holders))
  }

  // ---- Giving back ----

  /** Releasing what one holder has takes exactly its own references; a client is closed only when none is left. */
  lemma {:induction false} ReleasedCounts(s: State, refs: seq<Ref>, k: Key)
    requires Paired(s) && CountIn(refs, k) <= Count(s, k)
    ensures Paired(ReleasedAll(s, KeysOf(refs))) && Count(ReleasedAll(s, KeysOf(refs)), k) == Count(s, k) - CountIn(refs, k)
    ensures Count(s, k) > CountIn(refs, k) ==> k in ReleasedAll(s, KeysOf(refs)).clients
  {
    if refs != [] {
      var n := |refs| - 1;
      ReleasedCounts(s, refs[..n], k);
      assert KeysOf(refs)[..|KeysOf(refs)| - 1] == KeysOf(refs[..n]);
      ReleasedPaired(ReleasedAll(s, KeysOf(refs[..n])), refs[n].key);
    }
  }

  lemma {:induction false} ReleasedClients(s: State, keys: seq<Key>, closed: seq<nat>)
    requires Paired(s) && ClientsOk(s, closed)
    ensures var t := ReleasedAll(s, keys);
            && Paired(t) && ClientsOk(t, closed + Closing(s, keys)) && t.made == s.made
            && forall k :: k in t.clients ==> k in s.clients && t.clients[k] == s.clients[k]
  {
    if keys == [] {
      assert closed + Closing(s, keys) == closed;
    } else {
      var n := |keys| - 1;
      var t := ReleasedAll(s, keys[..n]);
      var more := closed + Closing(s, keys[..n]);
      ReleasedClients(s, keys[..n], closed);
      ReleasedPaired(t, keys[n]);
      ReleasedOne(t, keys[n], more);
      var last := if Count(t, keys[n]) == 1 then [t.clients[keys[n]]] else [];
      assert closed + (Closing(s, keys[..n]) + last) == more + last;
    }
  }

  lemma {:induction false} ReleasedOne(t: State, key: Key, closed: seq<nat>)
    requires Paired(t) && ClientsOk(t, closed)
    ensures ClientsOk(Released(t, key), closed + if Count(t, key) == 1 then [t.clients[key]] else [])
  {}

  // ---- What each step does to the claims ----

  /** A holder that no close copies, replaced by one that copies nothing, changes its own claim only. */
  lemma {:induction false} ClaimsUpdate(holders: seq<Holder>, p: nat, h: Holder)
    requires Structured(holders) && p < |holders| && holders[p].status != Open && !holders[p].status.Copied? && !h.status.Copied?
    ensures Claims(holders[p := h]) == Claims(holders)[p := h.refs] && Structured(holders[p := h])
  {
    var after := holders[p := h];
    forall r | 0 <= r < |holders|
      ensures BeingCopied(after, r) == BeingCopied(holders, r)
    {
      assert forall q :: 0 <= q < |holders| && q != p ==> after[q] == holders[q];
      if BeingCopied(holders, r) {
        var q :| 0 <= q < |holders| && holders[q].status == Copied(r);
        assert after[q].status == Copied(r);
      }
    }
    assert !BeingCopied(holders, p);
  }

  lemma {:induction false} ClaimsCopy(holders: seq<Holder>, p: nat)
    requires Structured(holders) && p < |holders| && holders[p].status == Open
    ensures var after := holders + [Holder(Copied(p), holders[p].refs)];
            Structured(after) && Claims(after) == Claims(holders)[p := []] + [holders[p].refs]
  {
    var n := |holders|;
    var after := holders + [Holder(Copied(p), holders[p].refs)];
    assert after[n].status == Copied(p) && !BeingCopied(after, n);
    forall r | 0 <= r < n
      ensures BeingCopied(after, r) <==> BeingCopied(holders, r) || r == p
    {
      if BeingCopied(holders, r) {
        var q :| 0 <= q < n && holders[q].status == Copied(r);
        assert after[q].status == Copied(r);
      }
    }
  }

  lemma {:induction false} ClaimsClear(holders: seq<Holder>, q: nat)
    requires Structured(holders) && q < |holders| && holders[q].status.Copied?
    ensures var after := holders[holders[q].status.from := Holder(Open, [])][q := Holder(Returning, holders[q].refs)];
            Structured(after) && Claims(after) == Claims(holders)
  {
    var p := holders[q].status.from;
    var after := holders[p := Holder(Open, [])][q := Holder(Returning, holders[q].refs)];
    assert p != q && BeingCopied(holders, p);
    forall r | 0 <= r < |holders|
      ensures ClaimOf(after, r) == ClaimOf(holders, r)
    {
      assert !BeingCopied(holders, q) && !BeingCopied(after, q);
      if r != p && BeingCopied(holders, r) {
        var c :| 0 <= c < |holders| && holders[c].status == Copied(r);
        assert c != p && c != q && after[c].status == Copied(r);
      }
    }
  }

  lemma {:induction false} ClaimsStart(holders: seq<Holder>)
    requires Structured(holders)
    ensures var after := holders + [Holder(Building, [])]; Structured(after) && Claims(after) == Claims(holders) + [[]]
  {
    var after := holders + [Holder(Building, [])];
    forall r | 0 <= r <= |holders|
      ensures BeingCopied(after, r) == BeingCopied(holders, r)
    {
      if BeingCopied(holders, r) {
        var q :| 0 <= q < |holders| && holders[q].status == Copied(r);
        assert after[q].status == Copied(r);
      }
    }
    assert !BeingCopied(holders, |holders|);
  }

  // ---- Each step ----

  lemma {:induction false} GiveBackKeeps(w: World, p: nat)
    requires Inv(w) && p < |w.holders| && (w.holders[p].status == Building || w.holders[p].status == Returning)
    ensures Inv(GivenBack(w, p))
  {
    var refs, v, lists := w.holders[p].refs, GivenBack(w, p), Claims(w.holders);
    ClaimsUpdate(w.holders, p, Holder(Gone, []));
    assert !BeingCopied(w.holders, p) && lists[p] == refs;
    ReleasedClients(w.s, KeysOf(refs), w.closed);
    forall k
      ensures Count(v.s, k) == Total(lists[p := []], k)
    {
      TotalMember(lists, p, k);
      TotalUpdate(lists, p, [], k);
      ReleasedCounts(w.s, refs, k);
    }
    StillAttached(w.s, v.s, lists, p);
  }

  lemma {:induction false} StillAttached(s: State, t: State, lists: seq<seq<Ref>>, p: nat)
    requires AllAttached(s, lists) && p < |lists| && Conserved(t, lists[p := []])
    requires forall k :: k in t.clients ==> k in s.clients && t.clients[k] == s.clients[k]
    ensures AllAttached(t, lists[p := []])
  {
    var after: seq<seq<Ref>> := lists[p := []];
    forall q: int, i: int | 0 <= q < |after| && 0 <= i < |after[q]|
      ensures after[q][i].key in t.clients && t.clients[after[q][i].key] == after[q][i].client
    {
      assert after[q] == lists[q] && Attached(s, lists[q]);
      CountMember(after[q], i);
      TotalMember(after, q, after[q][i].key);
    }
  }

  lemma {:induction false} AcquiredClients(s: State, key: Key, closed: seq<nat>)
    requires Paired(s) && ClientsOk(s, closed)
    ensures Paired(Acquired(s, key)) && ClientsOk(Acquired(s, key), closed)
    ensures key in Acquired(s, key).clients
    ensures forall k :: k in s.clients ==> k in Acquired(s, key).clients && Acquired(s, key).clients[k] == s.clients[k]
  {}

  lemma {:induction false} TakeCounts(s: State, lists: seq<seq<Ref>>, p: nat, key: Key, client: nat, k: Key)
    requires Conserved(s, lists) && p < |lists|
    ensures Count(Acquired(s, key), k) == Total(lists[p := lists[p] + [Ref(key, client)]], k)
  {
    var refs := lists[p] + [Ref(key, client)];
    TotalUpdate(lists, p, refs, k);
    assert refs[..|refs| - 1] == lists[p];
    assert Count(s, k) == Total(lists, k);
  }

  lemma {:induction false} TakeKeeps(w: World, p: nat, key: Key)
    requires Inv(w) && Is(w, p, Building)
    ensures var s := Acquired(w.s, key);
            key in s.clients
            && Inv(w.(s := s, holders := w.holders[p := Holder(Building, w.holders[p].refs + [Ref(key, s.clients[key])])]))
  {
    AcquiredClients(w.s, key, w.closed);
    var s, lists := Acquired(w.s, key), Claims(w.holders);
    var refs := w.holders[p].refs + [Ref(key, s.clients[key])];
    ClaimsUpdate(w.holders, p, Holder(Building, refs));
    assert !BeingCopied(w.holders, p) && lists[p] == w.holders[p].refs;
    forall k
      ensures Count(s, k) == Total(lists[p := refs], k)
    {
      TakeCounts(w.s, lists, p, key, s.clients[key], k);
    }
    var after := lists[p := refs];
    forall q | 0 <= q < |after|
      ensures Attached(s, after[q])
    {
      assert Attached(w.s, lists[q]);
    }
  }

  /** A close that copies a list which another close has copied and not cleared, the list not being empty. */
  predicate Overlaps(w: World, step: Step) {
    step.CopyList? && step.p < |w.holders| && BeingCopied(w.holders, step.p) && w.holders[step.p].refs != []
  }

  lemma {:induction false} CopyCounts(lists: seq<seq<Ref>>, p: nat, refs: seq<Ref>, k: Key)
    requires p < |lists|
    ensures Total(lists[p := []] + [refs], k) + CountIn(lists[p], k) == Total(lists, k) + CountIn(refs, k)
  {
    TotalUpdate(lists, p, [], k);
    TotalSnoc(lists[p := []], refs, k);
  }

  lemma {:induction false} CopyKeepsIff(w: World, p: nat)
    requires Inv(w) && Is(w, p, Open)
    ensures Overlaps(w, CopyList(p)) ==> !Conserved(w.s, Claims(Next(w, CopyList(p)).holders))
    ensures !Overlaps(w, CopyList(p)) ==> Inv(Next(w, CopyList(p)))
  {
    var lists, refs := Claims(w.holders), w.holders[p].refs;
    ClaimsCopy(w.holders, p);
    var after := lists[p := []] + [refs];
    if Overlaps(w, CopyList(p)) {
      var k := refs[0].key;
      CopyCounts(lists, p, refs, k);
      CountMember(refs, 0);
      assert Count(w.s, k) == Total(lists, k) && CountIn(lists[p], k) == 0;
    } else {
      forall k
        ensures Count(w.s, k) == Total(after, k)
      {
        CopyCounts(lists, p, refs, k);
        assert Count(w.s, k) == Total(lists, k);
      }
      forall q | 0 <= q < |after|
        ensures Attached(w.s, after[q])
      {
        assert Attached(w.s, lists[p]) && (q < |lists| ==> Attached(w.s, lists[q]));
      }
    }
  }

  lemma {:induction false} StartKeeps(w: World)
    requires Inv(w)
    ensures Inv(Next(w, StartBuild))
  {
    var lists := Claims(w.holders);
    ClaimsStart(w.holders);
    forall k
      ensures Count(w.s, k) == Total(lists + [[]], k)
    {
      TotalSnoc(lists, [], k);
    }
    forall q | 0 <= q <= |lists|
      ensures Attached(w.s, (lists + [[]])[q])
    {
      assert q < |lists| ==> Attached(w.s, lists[q]);
    }
  }

  /** A step keeps every count right exactly when it is not such an overlapping copy. */
  lemma {:induction false} StepKeeps(w: World, step: Step)
    requires Inv(w) && Possible(w, step)
    ensures Conserved(Next(w, step).s, Claims(Next(w, step).holders)) <==> !Overlaps(w, step)
    ensures !Overlaps(w, step) ==> Inv(Next(w, step))
  {
    match step
    case StartBuild => StartKeeps(w);
    case Take(p, key, reachable) => TakeKeeps(w, p, key);
    case FinishBuild(p) =>
      ClaimsUpdate(w.holders, p, Holder(Open, w.holders[p].refs));
      assert !BeingCopied(w.holders, p);
      var lists := Claims(w.holders);
      assert lists[p := w.holders[p].refs] == lists;
    case FailBuild(p) => GiveBackKeeps(w, p);
    case CopyList(p) => CopyKeepsIff(w, p);
    case ClearList(q) => ClaimsClear(w.holders, q);
    case GiveBack(q) => GiveBackKeeps(w, q);
  }

  // ---- Runs ----

  ghost predicate Runnable(w: World, steps: seq<Step>)
    decreases |steps|
  {
    steps == [] || (Possible(w, steps[0]) && Runnable(Next(w, steps[0]), steps[1..]))
  }

  ghost function Run(w: World, steps: seq<Step>): World
    requires Runnable(w, steps)
    decreases |steps|
  {
    if steps == [] then w else Run(Next(w, steps[0]), steps[1..])
  }

  /** No close copies a non-empty list between another close's copy of it and its clearing. */
  ghost predicate Apart(w: World, steps: seq<Step>)
    requires Runnable(w, steps)
    decreases |steps|
  {
    steps == [] || (!Overlaps(w, steps[0]) && Apart(Next(w, steps[0]), steps[1..]))
  }

  ghost predicate AlwaysConserved(w: World, steps: seq<Step>)
    requires Runnable(w, steps)
    decreases |steps|
  {
    Conserved(w.s, Claims(w.holders)) && (steps == [] || AlwaysConserved(Next(w, steps[0]), steps[1..]))
  }

  lemma {:induction false} RunKeepsIff(w: World, steps: seq<Step>)
    requires Inv(w) && Runnable(w, steps)
    ensures AlwaysConserved(w, steps) <==> Apart(w, steps)
    ensures Apart(w, steps) ==> Inv(Run(w, steps))
    decreases |steps|
  {
    if steps != [] {
      StepKeeps(w, steps[0]);
      if !Overlaps(w, steps[0]) {
        RunKeepsIff(Next(w, steps[0]), steps[1..]);
      } else {
        assert !AlwaysConserved(Next(w, steps[0]), steps[1..]);
      }
    }
  }

  lemma {:induction false} EmptyOk()
    ensures Inv(Empty)
  {}

  /** Over every run of builds, failed builds and closes, interleaved as they may be, the counts are the references
      held at every moment if and only if no two closes of one platform overlap. */
  lemma {:induction false} ConservedIff(steps: seq<Step>)
    requires Runnable(Empty, steps)
    ensures AlwaysConserved(Empty, steps) <==> Apart(Empty, steps)
  {
    EmptyOk();
    RunKeepsIff(Empty, steps);
  }

  /** In every such run each count is the number of references held, the two maps have the same keys, and no client
      that somebody still holds has been closed. */
  lemma {:induction false} ReferencesConserved(steps: seq<Step>)
    requires Runnable(Empty, steps) && Apart(Empty, steps)
    ensures var w := Run(Empty, steps); var lists := Claims(w.holders);
            && w.s.clients.Keys == w.s.refs.Keys
            && (forall k :: Count(w.s, k) == Held(w.holders, k))
            && (forall p, i :: 0 <= p < |lists| && 0 <= i < |lists[p]| ==>
                  lists[p][i].key in w.s.clients && w.s.clients[lists[p][i].key] == lists[p][i].client
                  && lists[p][i].client !in w.closed)
  {
    EmptyOk();
    RunKeepsIff(Empty, steps);
    var w := Run(Empty, steps);
    var lists: seq<seq<Ref>> := Claims(w.holders);
    forall p: int, i: int | 0 <= p < |lists| && 0 <= i < |lists[p]|
      ensures lists[p][i].key in w.s.clients && w.s.clients[lists[p][i].key] == lists[p][i].client
    {
      assert Attached(w.s, lists[p]);
    }
  }

  // ---- Every client is closed once ----

  predicate IsOpen(s: State, c: nat) {
    exists k :: k in s.clients && s.clients[k] == c
  }

  /** Every client ever made is open or has been closed, and none was closed twice. */
  ghost predicate Accounted(s: State, closed: seq<nat>) {
    && Paired(s) && ClientsOk(s, closed)
    && (forall c: nat :: c < s.made ==> IsOpen(s, c) || c in closed)
    && (forall i, j :: 0 <= i < j < |closed| ==> closed[i] != closed[j])
  }

  lemma {:induction false} ReleasedAccounted(s: State, keys: seq<Key>, closed: seq<nat>)
    requires Accounted(s, closed)
    ensures Accounted(ReleasedAll(s, keys), closed + Closing(s, keys))
  {
    if keys == [] {
      assert closed + Closing(s, keys) == closed;
    } else {
      var n := |keys| - 1;
      var t, more := ReleasedAll(s, keys[..n]), closed + Closing(s, keys[..n]);
      ReleasedAccounted(s, keys[..n], closed);
      OneAccounted(t, keys[n], more);
      var last := if Count(t, keys[n]) == 1 then [t.clients[keys[n]]] else [];
      assert closed + (Closing(s, keys[..n]) + last) == more + last;
    }
  }

  lemma {:induction false} OneAccounted(t: State, key: Key, closed: seq<nat>)
    requires Accounted(t, closed)
    ensures Accounted(Released(t, key), closed + if Count(t, key) == 1 then [t.clients[key]] else [])
  {
    ReleasedPaired(t, key);
    ReleasedOne(t, key, closed);
    var u, last := Released(t, key), if Count(t, key) == 1 then [t.clients[key]] else [];
    forall c: nat | c < t.made
      ensures IsOpen(u, c) || c in closed + last
    {
      if IsOpen(t, c) {
        var k :| k in t.clients && t.clients[k] == c;
        assert k in u.clients ==> u.clients[k] == c;
        assert k !in u.clients ==> k == key && last == [c];
      }
    }
  }

  lemma {:induction false} TakeAccounted(s: State, key: Key, closed: seq<nat>)
    requires Accounted(s, closed)
    ensures Accounted(Acquired(s, key), closed)
  {
    AcquiredClients(s, key, closed);
    var u := Acquired(s, key);
    forall c: nat | c < u.made
      ensures IsOpen(u, c) || c in closed
    {
      if c < s.made && IsOpen(s, c) {
        var k :| k in s.clients && s.clients[k] == c;
        assert u.clients[k] == c;
      } else if c == s.made {
        assert u.clients[key] == c;
      }
    }
  }

  lemma {:induction false} RunAccounted(w: World, steps: seq<Step>)
    requires Accounted(w.s, w.closed) && Runnable(w, steps)
    ensures Accounted(Run(w, steps).s, Run(w, steps).closed)
    decreases |steps|
  {
    if steps != [] {
      match steps[0] {
        case Take(p, key, reachable) => TakeAccounted(w.s, key, w.closed);
        case FailBuild(p) => ReleasedAccounted(w.s, KeysOf(w.holders[p].refs), w.closed);
        case GiveBack(q) => ReleasedAccounted(w.s, KeysOf(w.holders[q].refs), w.closed);
        case _ =>
      }
      RunAccounted(Next(w, steps[0]), steps[1..]);
    }
  }

  /** In every run, overlapping closes included: each client ever made is either open under one key or has been closed,
      never both, and was closed once. None is dropped without being closed. */
  lemma {:induction false} EveryClientClosedOnce(steps: seq<Step>, c: nat)
    requires Runnable(Empty, steps) && c < Run(Empty, steps).s.made
    ensures var w := Run(Empty, steps);
            && (c in w.closed <==> forall k :: k in w.s.clients ==> w.s.clients[k] != c)
            && forall i, j :: 0 <= i < j < |w.closed| ==> w.closed[i] != w.closed[j]
  {
    RunAccounted(Empty, steps);
    var w := Run(Empty, steps);
    assert IsOpen(w.s, c) || c in w.closed;
  }

  // ---- Two closes of one platform ----

  lemma {:induction false} Prepend(w: World, step: Step, rest: seq<Step>)
    requires Possible(w, step) && Runnable(Next(w, step), rest)
    ensures Runnable(w, [step] + rest) && Run(w, [step] + rest) == Run(Next(w, step), rest)
  {
    assert ([step] + rest)[1..] == rest;
  }

  /** Two open platforms on one client. */
  function TwoOpen(key: Key): World {
    World(State(map[key := 0], map[key := 2], 1), [Holder(Open, [Ref(key, 0)]), Holder(Open, [Ref(key, 0)])], [])
  }

  function BothBuilding(first: seq<Ref>, s: State): World {
    World(s, [Holder(Building, first), Holder(Building, [])], [])
  }

  lemma {:induction false} BothStarted(key: Key, rest: seq<Step>)
    requires Runnable(BothBuilding([Ref(key, 0)], State(map[key := 0], map[key := 1], 1)), rest)
    ensures var steps := [StartBuild, StartBuild, Take(0, key, true)] + rest;
            Runnable(Empty, steps)
            && Run(Empty, steps) == Run(BothBuilding([Ref(key, 0)], State(map[key := 0], map[key := 1], 1)), rest)
  {
    var s1 := State(map[key := 0], map[key := 1], 1);
    var w1 := World(Empty.s, [Holder(Building, [])], []);
    var w2, w3 := BothBuilding([], Empty.s), BothBuilding([Ref(key, 0)], s1);
    assert [] + [Ref(key, 0)] == [Ref(key, 0)] && Acquired(Empty.s, key) == s1;
    assert Next(w2, Take(0, key, true)) == w3 && Next(w1, StartBuild) == w2 && Next(Empty, StartBuild) == w1;
    var r2 := [Take(0, key, true)] + rest;
    var r1 := [StartBuild] + r2;
    Prepend(w2, Take(0, key, true), rest);
    Prepend(w1, StartBuild, r2);
    Prepend(Empty, StartBuild, r1);
    assert [StartBuild] + r1 == [StartBuild, StartBuild, Take(0, key, true)] + rest;
  }

  lemma {:induction false} BothFinished(key: Key, rest: seq<Step>)
    requires Runnable(TwoOpen(key), rest)
    ensures var w := BothBuilding([Ref(key, 0)], State(map[key := 0], map[key := 1], 1));
            var steps := [Take(1, key, true), FinishBuild(0), FinishBuild(1)] + rest;
            Runnable(w, steps) && Run(w, steps) == Run(TwoOpen(key), rest)
  {
    var one := [Ref(key, 0)];
    var s1, s2 := State(map[key := 0], map[key := 1], 1), State(map[key := 0], map[key := 2], 1);
    var w3 := BothBuilding(one, s1);
    var w4 := World(s2, [Holder(Building, one), Holder(Building, one)], []);
    var w5 := World(s2, [Holder(Open, one), Holder(Building, one)], []);
    assert [] + one == one && Acquired(s1, key) == s2;
    assert Next(w5, FinishBuild(1)) == TwoOpen(key) && Next(w4, FinishBuild(0)) == w5 && Next(w3, Take(1, key, true)) == w4;
    var r5 := [FinishBuild(1)] + rest;
    var r4 := [FinishBuild(0)] + r5;
    Prepend(w5, FinishBuild(1), rest);
    Prepend(w4, FinishBuild(0), r5);
    Prepend(w3, Take(1, key, true), r4);
    assert [Take(1, key, true)] + r4 == [Take(1, key, true), FinishBuild(0), FinishBuild(1)] + rest;
  }

  /** Both closes hold the list of the first platform, which is clear by now. */
  function BothCleared(key: Key): World {
    World(TwoOpen(key).s, [Holder(Open, []), Holder(Open, [Ref(key, 0)]), Holder(Returning, [Ref(key, 0)]),
                           Holder(Returning, [Ref(key, 0)])], [])
  }

  lemma {:induction false} CopiedTwice(key: Key, rest: seq<Step>)
    requires Runnable(BothCleared(key), rest)
    ensures var steps := [CopyList(0), CopyList(0), ClearList(2), ClearList(3)] + rest;
            Runnable(TwoOpen(key), steps) && Run(TwoOpen(key), steps) == Run(BothCleared(key), rest)
  {
    var one := [Ref(key, 0)];
    var s := TwoOpen(key).s;
    var a, b, c := Holder(Open, one), Holder(Open, []), Holder(Copied(0), one);
    var w1 := World(s, [a, a, c], []);
    var w2 := World(s, [a, a, c, c], []);
    var w3 := World(s, [b, a, Holder(Returning, one), c], []);
    assert Next(TwoOpen(key), CopyList(0)) == w1 && Next(w1, CopyList(0)) == w2;
    assert Next(w2, ClearList(2)) == w3 && Next(w3, ClearList(3)) == BothCleared(key);
    var r3 := [ClearList(3)] + rest;
    var r2 := [ClearList(2)] + r3;
    var r1 := [CopyList(0)] + r2;
    Prepend(w3, ClearList(3), rest);
    Prepend(w2, ClearList(2), r3);
    Prepend(w1, CopyList(0), r2);
    Prepend(TwoOpen(key), CopyList(0), r1);
    assert [CopyList(0)] + r1 == [CopyList(0), CopyList(0), ClearList(2), ClearList(3)] + rest;
  }

  lemma {:induction false} BothGiven(key: Key)
    ensures var steps := [GiveBack(2), GiveBack(3)];
            && Runnable(BothCleared(key), steps)
            && var w := Run(BothCleared(key), steps);
               w.closed == [0] && key !in w.s.clients && |w.holders| == 4 && w.holders[1] == Holder(Open, [Ref(key, 0)])
  {
    var one := [Ref(key, 0)];
    var a, b, gone := Holder(Open, one), Holder(Open, []), Holder(Gone, []);
    var w5 := World(State(map[key := 0], map[key := 1], 1), [b, a, gone, Holder(Returning, one)], []);
    var w6 := World(State(map[], map[], 1), [b, a, gone, gone], [0]);
    GiveOne(key);
    assert Next(BothCleared(key), GiveBack(2)) == w5 && Next(w5, GiveBack(3)) == w6;
    Prepend(w5, GiveBack(3), []);
    assert [GiveBack(3)] + [] == [GiveBack(3)];
    Prepend(BothCleared(key), GiveBack(2), [GiveBack(3)]);
    assert [GiveBack(2)] + [GiveBack(3)] == [GiveBack(2), GiveBack(3)];
  }

  lemma {:induction false} GiveOne(key: Key)
    ensures KeysOf([Ref(key, 0)]) == [key]
    ensures ReleasedAll(State(map[key := 0], map[key := 2], 1), [key]) == State(map[key := 0], map[key := 1], 1)
    ensures ReleasedAll(State(map[key := 0], map[key := 1], 1), [key]) == State(map[], map[], 1)
    ensures Closing(State(map[key := 0], map[key := 2], 1), [key]) == []
    ensures Closing(State(map[key := 0], map[key := 1], 1), [key]) == [0]
  {
    assert [key][..0] == [] && [Ref(key, 0)][..0] == [];
    assert map[key := 0] - {key} == map[] && map[key := 1] - {key} == map[];
  }

  /** The run in which two overlapping closes of one platform close the client under another: copy, copy, clear,
      clear, and each gives the one list back. */
  lemma {:induction false} OverlappingClosesSteal(key: Key)
    ensures var steps := [StartBuild, StartBuild, Take(0, key, true)]
                         + ([Take(1, key, true), FinishBuild(0), FinishBuild(1)]
                            + ([CopyList(0), CopyList(0), ClearList(2), ClearList(3)] + [GiveBack(2), GiveBack(3)]));
            && Runnable(Empty, steps)
            && var w := Run(Empty, steps);
               w.closed == [0] && key !in w.s.clients && |w.holders| == 4 && w.holders[1] == Holder(Open, [Ref(key, 0)])
  {
    BothGiven(key);
    CopiedTwice(key, [GiveBack(2), GiveBack(3)]);
    var closes := [CopyList(0), CopyList(0), ClearList(2), ClearList(3)] + [GiveBack(2), GiveBack(3)];
    BothFinished(key, closes);
    BothStarted(key, [Take(1, key, true), FinishBuild(0), FinishBuild(1)] + closes);
  }

  // ---- Releasing twice ----

  /** Giving back a reference that was given back before keeps the counts right if and only if nobody else holds
      that client: otherwise it takes another user's reference. */
  lemma {:induction false} ReleasedTwiceIff(steps: seq<Step>, key: Key)
    requires Runnable(Empty, steps) && Apart(Empty, steps)
    ensures var w := Run(Empty, steps);
            Conserved(Released(w.s, key), Claims(w.holders)) <==> Held(w.holders, key) == 0
  {
    EmptyOk();
    RunKeepsIff(Empty, steps);
    var w := Run(Empty, steps);
    assert Count(w.s, key) == Held(w.holders, key);
    if Held(w.holders, key) > 0 {
      assert Count(Released(w.s, key), key) == Held(w.holders, key) - 1;
    }
  }

  /** Two platforms on one client: a repeated release closes it under the second. */
  lemma {:induction false} RepeatedReleaseCloses(key: Key)
    ensures var s := Acquired(Acquired(State(map[], map[], 0), key), key);
            && Closing(s, [key]) == [] && Closing(s, [key, key]) == [0] && ReleasedAll(s, [key, key]).clients == map[]
  {
    var s := Acquired(Acquired(State(map[], map[], 0), key), key);
    assert s == State(map[key := 0], map[key := 2], 1);
    assert [key][..0] == [] && [key, key][..1] == [key];
    assert ReleasedAll(s, [key]) == State(map[key := 0], map[key := 1], 1);
    assert Closing(s, [key]) == [];
    assert Closing(s, [key, key]) == [] + [0];
    assert map[key := 0] - {key} == map[];
  }
}
