/** The operations of one storage area, with input/output that may fail at any change. */
module LocalArea {
  import opened Wrappers
  import opened Octets
  import opened LocalStorage

  datatype Outcome = Success | Conflict | Unavailable

  /** `a` names a directory on the way to `b`. */
  predicate Above(a: Key, b: Key) {
    a + "/" <= b
  }

  /** A file and a directory cannot share a name. */
  ghost predicate Placeable(flat: map<Key, Bytes>) {
    forall a, b :: a in flat && b in flat ==> !Above(a, b)
  }

  ghost predicate Clashes(keys: set<Key>, key: Key) {
    exists k :: k in keys && (Above(k, key) || Above(key, k))
  }

  /** No key twice. */
  predicate Apart(keys: seq<Key>) {
    forall i, j :: 0 <= i < j < |keys| ==> keys[i] != keys[j]
  }

  lemma {:induction false} ApartConcat(a: seq<Key>, b: seq<Key>)
    requires Apart(a) && Apart(b) && forall k :: k in a ==> k !in b
    ensures Apart(a + b)
  {
    assert forall i :: 0 <= i < |a| ==> a[i] in a;
    assert forall j :: 0 <= j < |b| ==> b[j] in b;
  }

  function Least(a: nat, b: nat): nat {
    if a < b then a else b
  }

  /** An interrupted save of a new object may have its identity file taken away again. */
  function Abandoned(d: Disk, key: Key, tidy: bool): Disk {
    if tidy && key !in d.hashed then d.(ids := d.ids - {key}) else d
  }

  /** The disk after a save in which `budget` changes succeed before input/output fails. */
  function SavedDisk(c: Config, d: Disk, key: Key, data: Bytes, budget: nat, tidy: bool): Disk {
    var changes := SaveChanges(c, d, key, data);
    var e := ApplyAll(d, changes[..Least(budget, |changes|)]);
    if !c.plain && budget + 1 == CommitPoint(c) then Abandoned(e, key, tidy) else e
  }

  function SaveOutcome(c: Config, key: Key, data: Bytes, budget: nat): Outcome {
    if budget < |CommitChanges(c, key, data)| then Unavailable else Success
  }

  function DeletedDisk(c: Config, d: Disk, key: Key, budget: nat): Disk {
    var changes := DeleteChanges(c, d, key);
    ApplyAll(d, changes[..Least(budget, |changes|)])
  }

  class Area {
    const config: Config
    var flat: map<Key, Bytes>
    var hashed: map<Key, Bytes>
    var ids: set<Key>
    var areaId: bool

    function OnDisk(): Disk
      reads this
    {
      Disk(flat, hashed, ids, areaId)
    }

    ghost predicate Valid()
      reads this
    {
      Good(OnDisk()) && Placeable(flat)
    }

    function Visible(): map<Key, Bytes>
      reads this
    {
      View(config, OnDisk())
    }

    constructor (config: Config, found: Disk)
      requires Good(found) && Placeable(found.flat)
      ensures this.config == config && OnDisk() == found && Valid()
    {
      this.config := config;
      flat, hashed, ids, areaId := found.flat, found.hashed, found.ids, found.areaId;
    }

    /** Looks through the layers in their order of precedence. */
    method Get(key: Key) returns (data: Option<Bytes>)
      requires Valid()
      ensures data == if key in Visible() then Some(Visible()[key]) else None
    {
      if config.plain && key in flat {
        return Some(flat[key]);
      }
      if key in hashed {
        assert key in ids && areaId;
        return Some(hashed[key]);
      }
      if config.plain || !config.legacy {
        return None;
      }
      if key in flat {
        return Some(flat[key]);
      }
      return None;
    }

    /** Whether `key` would be a file and a directory at once, across both layouts. */
    method HasKeyConflict(key: Key) returns (conflict: bool)
      requires Valid()
      ensures conflict <==> Clashes(flat.Keys + hashed.Keys, key)
    {
      conflict := false;
      for i := 0 to |key|
        invariant !conflict
        invariant forall k :: k in flat && |k| < i && Above(k, key) ==> false
        invariant forall k :: k in hashed && |k| < i && Above(k, key) ==> false
      {
        if key[i] == '/' && (key[..i] in flat || key[..i] in hashed) {
          assert Above(key[..i], key);
          return true;
        }
        assert forall k :: Above(k, key) && |k| == i ==> k == key[..i] && key[i] == '/';
      }
      assert forall k :: Above(k, key) ==> |k| < |key|;
      conflict := (exists k :: k in flat.Keys && Above(key, k)) || (exists k :: k in hashed.Keys && Above(key, k));
    }

    /** Publishes `data` under `key`, then removes what it supersedes if it can. */
    method Save(key: Key, data: Bytes, budget: nat, tidy: bool) returns (r: Outcome)
      requires Valid()
      modifies this
      ensures Valid()
      ensures r == Conflict <==> config.plain && Clashes(old(flat).Keys + old(hashed).Keys, key)
      ensures OnDisk() == (if r == Conflict then old(OnDisk()) else SavedDisk(config, old(OnDisk()), key, data, budget, tidy))
      ensures r != Conflict ==> r == SaveOutcome(config, key, data, budget)
      ensures r == Success ==> Visible() == old(Visible())[key := data]
      ensures r != Success ==> Visible() == old(Visible()) || Visible() == old(Visible())[key := data]
      ensures budget < CommitPoint(config) ==> Visible() == old(Visible())
      ensures r == Success <==> r != Conflict && budget >= (if config.plain then 1 else 5)
      ensures r == Success ==> key in (if config.plain then flat else hashed) && (!config.plain ==> key in ids && areaId)
    {
      ghost var d := OnDisk();
      SavedDiskSteps(config, d, key, data, budget, tidy);
      if config.plain {
        var conflict := HasKeyConflict(key);
        if conflict {
          return Conflict;
        }
        r := SavePlain(key, data, budget, tidy);
      } else {
        r := SaveHashed(key, data, budget, tidy);
      }
      SavedDiskViews(config, d, key, data, budget, tidy);
    }

    /** A write that is refused once its object has been prepared: the check for conflicts and the identity files are
        done, nothing is installed, and the identity of a new object may be taken away again. */
    method Prepare(key: Key, budget: nat, tidy: bool) returns (r: Outcome)
      requires Valid()
      modifies this
      ensures Valid() && Visible() == old(Visible())
      ensures r == Conflict <==> config.plain && Clashes(old(flat).Keys + old(hashed).Keys, key)
      ensures r == Success <==> r != Conflict && budget >= CommitPoint(config) - 1
      ensures OnDisk() == if r == Conflict then old(OnDisk())
                          else SavedDisk(config, old(OnDisk()), key, [], Least(budget, CommitPoint(config) - 1), tidy)
    {
      var outcome := Save(key, [], Least(budget, CommitPoint(config) - 1), tidy);
      return if outcome == Conflict then Conflict else if budget >= CommitPoint(config) - 1 then Success else Unavailable;
    }

    /** The browsable layout: the move itself publishes the object. */
    method SavePlain(key: Key, data: Bytes, budget: nat, ghost tidy: bool) returns (r: Outcome)
      requires config.plain
      modifies this
      ensures OnDisk() == SavedDisk(config, old(OnDisk()), key, data, budget, tidy)
      ensures r == SaveOutcome(config, key, data, budget)
      ensures flat == old(flat) || flat == old(flat)[key := data]
    {
      SavedDiskSteps(config, OnDisk(), key, data, budget, tidy);
      if budget == 0 {
        return Unavailable;
      }
      flat := flat[key := data];
      var _ := RemoveOpaqueObject(key, budget - 1);
      return Success;
    }

    /** The versioned layout: identities before the payload, and again after it. */
    method SaveHashed(key: Key, data: Bytes, budget: nat, tidy: bool) returns (r: Outcome)
      requires !config.plain
      modifies this
      ensures OnDisk() == SavedDisk(config, old(OnDisk()), key, data, budget, tidy)
      ensures r == SaveOutcome(config, key, data, budget)
      ensures flat == old(flat) || flat == old(flat) - {key}
    {
      SavedDiskSteps(config, OnDisk(), key, data, budget, tidy);
      if budget == 0 {
        return Unavailable;
      }
      areaId := true;
      if budget == 1 {
        return Unavailable;
      }
      ids := ids + {key};
      if budget == 2 {
        if tidy && key !in hashed {
          ids := ids - {key};
        }
        return Unavailable;
      }
      hashed := hashed[key := data];
      if budget < 5 {
        return Unavailable;
      }
      if config.legacy && key in flat && budget > 5 {
        flat := flat - {key};
      }
      return Success;
    }

    /** Unlinks the payload, then its identity; `done` tells whether nothing failed. */
    method RemoveOpaqueObject(key: Key, budget: nat) returns (done: bool)
      modifies this
      ensures done == (key in old(hashed) ==> budget >= 2)
      ensures OnDisk() == if key !in old(hashed) || budget == 0 then old(OnDisk())
                          else old(OnDisk()).(hashed := old(hashed) - {key},
                                              ids := if budget == 1 then old(ids) else old(ids) - {key})
    {
      if key !in hashed {
        return true;
      }
      if budget == 0 {
        return false;
      }
      hashed := hashed - {key};
      if budget == 1 {
        return false;
      }
      ids := ids - {key};
      return true;
    }

    /** Takes the visible copy, then whatever lies under it. A missing object is not an error. */
    method Delete(key: Key, budget: nat) returns (r: Outcome)
      requires Valid()
      modifies this
      ensures Valid()
      ensures OnDisk() == DeletedDisk(config, old(OnDisk()), key, budget)
      ensures r == if budget < |DeleteChanges(config, old(OnDisk()), key)| then Unavailable else Success
      ensures r == Success ==> Visible() == old(Visible()) - {key}
      ensures r == Success ==> key !in hashed && (config.plain || config.legacy ==> key !in flat)
    {
      ghost var d := OnDisk();
      DeletedDiskViews(config, d, key, budget);
      if config.plain {
        PlainDeletedSteps(config, d, key, budget);
      } else {
        HashedDeletedSteps(config, d, key, budget);
      }
      var left := budget;
      if config.plain {
        if key in flat {
          if left == 0 {
            return Unavailable;
          }
          flat, left := flat - {key}, left - 1;
        }
        var done := RemoveOpaqueObject(key, left);
        return if done then Success else Unavailable;
      }
      if key in hashed {
        var done := RemoveOpaqueObject(key, left);
        if !done {
          return Unavailable;
        }
        left := left - 2;
      }
      if config.legacy && key in flat {
        if left == 0 {
          return Unavailable;
        }
        flat := flat - {key};
      }
      return Success;
    }

    /** Every visible key with the prefix, each once, layer by layer. */
    method ListKeys(prefix: string) returns (keys: seq<Key>)
      requires Valid()
      ensures Apart(keys)
      ensures forall k :: k in keys <==> k in Visible() && prefix <= k
    {
      keys := [];
      if config.plain {
        keys := Collect(flat.Keys, {}, prefix);
        var rest := Collect(hashed.Keys, flat.Keys, prefix);
        ApartConcat(keys, rest);
        keys := keys + rest;
      } else {
        keys := Collect(hashed.Keys, {}, prefix);
        if config.legacy {
          var rest := Collect(flat.Keys, hashed.Keys, prefix);
          ApartConcat(keys, rest);
          keys := keys + rest;
        }
      }
    }

    /** One layer's keys in whatever order the directory gives them, leaving out those already `seen`. */
    method Collect(layer: set<Key>, seen: set<Key>, prefix: string) returns (keys: seq<Key>)
      ensures Apart(keys)
      ensures forall k :: k in keys <==> k in layer && k !in seen && prefix <= k
    {
      keys := [];
      var todo := layer;
      while todo != {}
        invariant todo <= layer
        invariant Apart(keys)
        invariant forall k :: k in keys <==> k in layer - todo && k !in seen && prefix <= k
        decreases |todo|
      {
        var k :| k in todo;
        todo := todo - {k};
        if k !in seen && prefix <= k {
          keys := keys + [k];
        }
      }
    }

    /** Deletes the object at `prefix` and everything below it, one at a time. */
    method DeletePrefix(prefix: Key) returns (count: nat)
      requires Valid()
      modifies this
      ensures Valid()
      ensures Visible() == old(Visible()) - AtOrBelow(old(Visible()).Keys, prefix)
      ensures count == |AtOrBelow(old(Visible()).Keys, prefix)|
    {
      var listed := ListKeys(prefix);
      var keys := Filtered(listed, prefix);
      ApartSize(keys);
      assert AtOrBelow(Visible().Keys, prefix) == KeySet(keys);
      DeleteEach(keys);
      count := |keys|;
    }

    method DeleteEach(keys: seq<Key>)
      requires Valid()
      modifies this
      ensures Valid() && Visible() == old(Visible()) - KeySet(keys)
    {
      for i := 0 to |keys|
        invariant Valid() && Visible() == old(Visible()) - KeySet(keys[..i])
      {
        assert keys[..i + 1] == keys[..i] + [keys[i]];
        RemoveMore(old(Visible()), KeySet(keys[..i]), keys[i]);
        var _ := Delete(keys[i], |DeleteChanges(config, OnDisk(), keys[i])|);
        assert KeySet(keys[..i]) + {keys[i]} == KeySet(keys[..i + 1]);
      }
      assert keys[..|keys|] == keys;
    }
  }

  function KeySet(keys: seq<Key>): set<Key> {
    set k | k in keys
  }

  function AtOrBelow(keys: set<Key>, prefix: Key): set<Key> {
    set k | k in keys && (k == prefix || Above(prefix, k))
  }

  method Filtered(listed: seq<Key>, prefix: Key) returns (keys: seq<Key>)
    requires Apart(listed)
    ensures Apart(keys) && forall k :: k in keys <==> k in listed && (k == prefix || Above(prefix, k))
  {
    keys := [];
    for i := 0 to |listed|
      invariant Apart(keys) && forall k :: k in keys <==> k in listed[..i] && (k == prefix || Above(prefix, k))
    {
      assert listed[..i + 1] == listed[..i] + [listed[i]];
      assert listed[i] !in listed[..i];
      if listed[i] == prefix || prefix + "/" <= listed[i] {
        keys := keys + [listed[i]];
      }
    }
    assert listed[..|listed|] == listed;
  }

  lemma {:induction false} ApartSize(keys: seq<Key>)
    requires Apart(keys)
    ensures |KeySet(keys)| == |keys|
  {
    if keys != [] {
      var n := |keys| - 1;
      ApartSize(keys[..n]);
      assert keys == keys[..n] + [keys[n]];
      assert KeySet(keys) == KeySet(keys[..n]) + {keys[n]};
    }
  }

  lemma RemoveMore(m: map<Key, Bytes>, gone: set<Key>, key: Key)
    ensures m - gone - {key} == m - (gone + {key})
  {}

  // ---- The methods' changes, written out ----

  function HashedSave(c: Config, d: Disk, key: Key, data: Bytes, budget: nat, tidy: bool): Disk {
    if budget == 0 then d
    else if budget == 1 then d.(areaId := true)
    else if budget == 2 then Abandoned(d.(areaId := true, ids := d.ids + {key}), key, tidy)
    else d.(areaId := true, ids := d.ids + {key}, hashed := d.hashed[key := data],
            flat := if c.legacy && key in d.flat && budget > 5 then d.flat - {key} else d.flat)
  }

  lemma {:induction false} SavedDiskViews(c: Config, d: Disk, key: Key, data: Bytes, budget: nat, tidy: bool)
    requires Good(d)
    ensures var e := SavedDisk(c, d, key, data, budget, tidy);
            && Good(e)
            && View(c, e) == (if budget < CommitPoint(c) then View(c, d) else View(c, d)[key := data])
  {
    SaveIsAtomic(c, d, key, data, Least(budget, |SaveChanges(c, d, key, data)|));
  }

  lemma {:induction false} SavedDiskSteps(c: Config, d: Disk, key: Key, data: Bytes, budget: nat, tidy: bool)
    ensures !c.plain ==> SavedDisk(c, d, key, data, budget, tidy) == HashedSave(c, d, key, data, budget, tidy)
    ensures c.plain && budget == 0 ==> SavedDisk(c, d, key, data, budget, tidy) == d
    ensures c.plain && budget > 0 ==>
              SavedDisk(c, d, key, data, budget, tidy).flat == d.flat[key := data]
              && SavedDisk(c, d, key, data, budget, tidy) ==
                 (if key !in d.hashed || budget == 1 then d.(flat := d.flat[key := data])
                  else d.(flat := d.flat[key := data], hashed := d.hashed - {key},
                          ids := if budget == 2 then d.ids else d.ids - {key}))
  {
    var commit, cleanup := CommitChanges(c, key, data), CleanupChanges(c, d, key);
    var n := Least(budget, |commit + cleanup|);
    if n <= |commit| {
      assert (commit + cleanup)[..n] == commit[..n];
    } else {
      assert (commit + cleanup)[..n] == commit + cleanup[..n - |commit|];
      ApplyConcat(d, commit, cleanup[..n - |commit|]);
    }
    assert commit[..|commit|] == commit;
    if c.plain {
      assert commit[..0] == [];
      ApplySnoc(d, [], InstallFlat(key, data));
      assert commit == [] + [InstallFlat(key, data)];
      RemovalPrefix(d, d.(flat := d.flat[key := data]), key, if n > 0 then n - 1 else 0);
    } else {
      OpaquePrefix(d, key, data, Least(n, 5));
      RemovalPrefix(d, ApplyAll(d, commit), key, if n > 5 then n - 5 else 0);
    }
  }

  lemma {:induction false} DeletedDiskViews(c: Config, d: Disk, key: Key, budget: nat)
    requires Good(d)
    ensures var e := DeletedDisk(c, d, key, budget);
            Good(e) && (budget >= |DeleteChanges(c, d, key)| ==> View(c, e) == View(c, d) - {key})
  {
    DeletePartial(c, d, key, Least(budget, |DeleteChanges(c, d, key)|));
  }

  function AfterFlat(d: Disk, key: Key, gone: bool): Disk {
    if gone then d.(flat := d.flat - {key}) else d
  }

  function AfterHashed(d: Disk, key: Key, n: nat): Disk {
    if n == 0 || key !in d.hashed then d
    else d.(hashed := d.hashed - {key}, ids := if n == 1 then d.ids else d.ids - {key})
  }

  /** Two removals in a row, cut short after `n` changes. */
  lemma {:induction false} CutShort(d: Disk, first: seq<Change>, second: seq<Change>, budget: nat)
    ensures ApplyAll(d, (first + second)[..Least(budget, |first + second|)]) ==
            if budget <= |first| then ApplyAll(d, first[..budget])
            else ApplyAll(ApplyAll(d, first), second[..Least(budget - |first|, |second|)])
  {
    var n := Least(budget, |first + second|);
    if budget <= |first| {
      assert (first + second)[..n] == first[..n];
    } else {
      var m := Least(budget - |first|, |second|);
      assert (first + second)[..n] == first + second[..m];
      ApplyConcat(d, first, second[..m]);
    }
  }

  lemma {:induction false} PlainDeletedSteps(c: Config, d: Disk, key: Key, budget: nat)
    requires c.plain
    ensures DeletedDisk(c, d, key, budget) ==
            if key !in d.flat then AfterHashed(d, key, budget)
            else if budget == 0 then d else AfterHashed(AfterFlat(d, key, true), key, budget - 1)
  {
    var first, second := RemoveFlat(d, key), RemoveOpaque(d, key);
    CutShort(d, first, second, budget);
    RemovalPrefix(d, d, key, Least(budget, |first|));
    assert first[..|first|] == first;
    if budget >= |first| {
      var m := Least(budget - |first|, |second|);
      RemovalPrefix(d, d, key, |first|);
      RemovalPrefix(d, ApplyAll(d, first), key, m);
      assert second[..0] == [];
    }
  }

  lemma {:induction false} HashedDeletedSteps(c: Config, d: Disk, key: Key, budget: nat)
    requires !c.plain
    ensures DeletedDisk(c, d, key, budget) ==
            if key !in d.hashed then AfterFlat(d, key, c.legacy && key in d.flat && budget > 0)
            else AfterFlat(AfterHashed(d, key, budget), key, c.legacy && key in d.flat && budget > 2)
  {
    var first, second := RemoveOpaque(d, key), if c.legacy then RemoveFlat(d, key) else [];
    CutShort(d, first, second, budget);
    RemovalPrefix(d, d, key, Least(budget, |first|));
    assert first[..|first|] == first;
    if budget >= |first| {
      var m := Least(budget - |first|, |second|);
      RemovalPrefix(d, d, key, |first|);
      RemovalPrefix(d, ApplyAll(d, first), key, m);
      assert second[..0] == [];
    }
  }

  /** A refused or failed write of a new key, tidied up after, leaves nothing of that key behind: no identity either. */
  lemma {:induction false} FailedWriteLeavesNothing(c: Config, d: Disk, key: Key, data: Bytes)
    requires !c.plain && Good(d) && key !in d.ids
    ensures SavedDisk(c, d, key, data, CommitPoint(c) - 1, true) == d.(areaId := true)
    ensures key in SavedDisk(c, d, key, data, CommitPoint(c) - 1, false).ids
  {
    SavedDiskSteps(c, d, key, data, 2, true);
    SavedDiskSteps(c, d, key, data, 2, false);
    assert d.ids + {key} - {key} == d.ids;
  }

  // ---- Every run of successful operations ----

  datatype Op = SaveOp(key: Key, data: Bytes, cleaned: nat) | DeleteOp(key: Key)

  /** `cleaned` says how far the best-effort removal got. */
  function Perform(c: Config, d: Disk, op: Op): Disk {
    match op
    case SaveOp(key, data, cleaned) => SavedDisk(c, d, key, data, |CommitChanges(c, key, data)| + cleaned, false)
    case DeleteOp(key) => DeletedDisk(c, d, key, |DeleteChanges(c, d, key)|)
  }

  function PerformAll(c: Config, d: Disk, ops: seq<Op>): Disk {
    if ops == [] then d else Perform(c, PerformAll(c, d, ops[..|ops| - 1]), ops[|ops| - 1])
  }

  /** The single map all of this stands for. */
  function MapAfter(m: map<Key, Bytes>, ops: seq<Op>): map<Key, Bytes> {
    if ops == [] then m else
      var before, op := MapAfter(m, ops[..|ops| - 1]), ops[|ops| - 1];
      match op
      case SaveOp(key, data, _) => before[key := data]
      case DeleteOp(key) => before - {key}
  }

  /** Both layouts together are one map: whatever cleanup fails, no stale value is read and nothing comes back. */
  lemma {:induction false} RefinesOneMap(c: Config, d: Disk, ops: seq<Op>)
    requires Good(d)
    ensures Good(PerformAll(c, d, ops)) && View(c, PerformAll(c, d, ops)) == MapAfter(View(c, d), ops)
  {
    if ops != [] {
      var n := |ops| - 1;
      RefinesOneMap(c, d, ops[..n]);
      var e := PerformAll(c, d, ops[..n]);
      match ops[n]
      case SaveOp(key, data, cleaned) => SavedDiskViews(c, e, key, data, |CommitChanges(c, key, data)| + cleaned, false);
      case DeleteOp(key) => DeletedDiskViews(c, e, key, |DeleteChanges(c, e, key)|);
    }
  }

  // ---- Changing an area's layout ----

  /** Every key in both layouts has the same bytes there. */
  predicate Agreeing(d: Disk) {
    forall k :: k in d.flat && k in d.hashed ==> d.flat[k] == d.hashed[k]
  }

  /** Nothing is in the flat layout only. */
  predicate NothingFlatOnly(d: Disk) {
    forall k :: k in d.flat ==> k in d.hashed
  }

  predicate ReadsFlat(c: Config) {
    c.plain || c.legacy
  }

  /** When a change of settings leaves an area's contents as they were, for every pair of settings: changing which
      layout wins needs the two to agree, and no longer reading the flat one needs nothing to be there alone. */
  lemma {:induction false} ReconfigureKeepsIff(c: Config, c': Config, d: Disk)
    ensures View(c, d) == View(c', d) <==>
            && (c.plain != c'.plain ==> Agreeing(d))
            && (ReadsFlat(c) != ReadsFlat(c') ==> NothingFlatOnly(d))
  {
    var plain, legacy := d.hashed + d.flat, d.flat + d.hashed;
    assert forall k :: k in d.flat && k in d.hashed ==> plain[k] == d.flat[k] && legacy[k] == d.hashed[k];
    assert Agreeing(d) ==> plain == legacy;
    assert NothingFlatOnly(d) <==> legacy == d.hashed by {
      assert forall k :: k in d.flat ==> k in legacy;
    }
    assert plain == d.hashed ==> NothingFlatOnly(d) && Agreeing(d) by {
      assert forall k :: k in d.flat ==> k in plain && plain[k] == d.flat[k];
    }
  }

  /** Both layouts hold nothing in common. */
  predicate Disjoint(d: Disk) {
    forall k :: k in d.flat ==> k !in d.hashed
  }

  /** As long as every cleanup succeeds, an area may be turned plain and back without any change in what is read. */
  lemma {:induction false} CleanRunsReconfigure(c: Config, c': Config, d: Disk, ops: seq<Op>)
    requires Good(d) && Disjoint(d) && ReadsFlat(c) && ReadsFlat(c')
    requires forall op :: op in ops && op.SaveOp? ==> op.cleaned >= 2
    ensures Disjoint(PerformAll(c, d, ops)) && View(c', PerformAll(c, d, ops)) == View(c, PerformAll(c, d, ops))
  {
    if ops != [] {
      var n := |ops| - 1;
      var e := PerformAll(c, d, ops[..n]);
      CleanRunsReconfigure(c, c', d, ops[..n]);
      assert ops[n] in ops;
      match ops[n]
      case SaveOp(key, data, cleaned) =>
        SavedDiskSteps(c, e, key, data, |CommitChanges(c, key, data)| + cleaned, false);
      case DeleteOp(key) =>
        if c.plain {
          PlainDeletedSteps(c, e, key, |DeleteChanges(c, e, key)|);
        } else {
          HashedDeletedSteps(c, e, key, |DeleteChanges(c, e, key)|);
        }
    }
    ReconfigureKeepsIff(c, c', PerformAll(c, d, ops));
  }

  /** An object saved in the versioned layout and overwritten after its area became plain, the cleanup failing: a delete
      that stops after its first change brings the old bytes back, and so does turning the area back. */
  lemma {:induction false} OldBytesReturn(key: Key, before: Bytes, after: Bytes)
    requires before != after
    ensures var hashed, plain := Config(false, true), Config(true, true);
            var saved := SavedDisk(plain, SavedDisk(hashed, Disk(map[], map[], {}, false), key, before, 5, false), key, after, 1, false);
            && View(plain, saved) == map[key := after]
            && View(plain, DeletedDisk(plain, saved, key, 1)) == map[key := before]
            && View(hashed, saved) == map[key := before]
  {
    var hashed, plain := Config(false, true), Config(true, true);
    var empty := Disk(map[], map[], {}, false);
    var one := Disk(map[], map[key := before], {key}, true);
    var saved := Disk(map[key := after], map[key := before], {key}, true);
    SavedDiskSteps(hashed, empty, key, before, 5, false);
    assert {} + {key} == {key};
    assert SavedDisk(hashed, empty, key, before, 5, false) == one;
    SavedDiskSteps(plain, one, key, after, 1, false);
    assert SavedDisk(plain, one, key, after, 1, false) == saved;
    PlainDeletedSteps(plain, saved, key, 1);
    assert map[key := after] - {key} == map[];
    assert DeletedDisk(plain, saved, key, 1) == saved.(flat := map[]);
  }
}
