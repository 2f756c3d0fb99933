/** One storage area on disk: a browsable flat layout and an opaque one, read as layers of a single map. */
module LocalStorage {
  import opened Wrappers
  import opened Octets

  /** A canonical slash-delimited key. */
  type Key = string

  /** Whether the area is plain, and whether flat files count in an area that is not. */
  datatype Config = Config(plain: bool, legacy: bool)

  /** `flat` are the files under the area's own directory, `hashed` the payloads of the versioned layout, `ids` the
      keys with an identity file beside their payload, and `areaId` whether the area's own identity is written. */
  datatype Disk = Disk(flat: map<Key, Bytes>, hashed: map<Key, Bytes>, ids: set<Key>, areaId: bool)

  /** Every payload can be read back: its identity is there to be verified. */
  predicate Good(d: Disk) {
    d.hashed.Keys <= d.ids && (d.hashed != map[] ==> d.areaId)
  }

  /** The map a reader sees. */
  function View(c: Config, d: Disk): map<Key, Bytes> {
    if c.plain then d.hashed + d.flat else if c.legacy then d.flat + d.hashed else d.hashed
  }

  // ---- What an operation does to the disk, one atomic change at a time ----

  datatype Change =
    | WriteAreaId
    | WriteKeyId(key: Key)
    | InstallOpaque(key: Key, data: Bytes)
    | InstallFlat(key: Key, data: Bytes)
    | UnlinkOpaque(key: Key)
    | UnlinkKeyId(key: Key)
    | UnlinkFlat(key: Key)

  function Apply(d: Disk, change: Change): Disk {
    match change
    case WriteAreaId => d.(areaId := true)
    case WriteKeyId(key) => d.(ids := d.ids + {key})
    case InstallOpaque(key, data) => d.(hashed := d.hashed[key := data])
    case InstallFlat(key, data) => d.(flat := d.flat[key := data])
    case UnlinkOpaque(key) => d.(hashed := d.hashed - {key})
    case UnlinkKeyId(key) => d.(ids := d.ids - {key})
    case UnlinkFlat(key) => d.(flat := d.flat - {key})
  }

  function ApplyAll(d: Disk, changes: seq<Change>): Disk {
    if changes == [] then d else Apply(ApplyAll(d, changes[..|changes| - 1]), changes[|changes| - 1])
  }

  function RemoveOpaque(d: Disk, key: Key): seq<Change> {
    if key in d.hashed then [UnlinkOpaque(key), UnlinkKeyId(key)] else []
  }

  function RemoveFlat(d: Disk, key: Key): seq<Change> {
    if key in d.flat then [UnlinkFlat(key)] else []
  }

  /** The changes that publish an object: `CommitPoint` of them make it visible, and the identity is written again. */
  function CommitChanges(c: Config, key: Key, data: Bytes): seq<Change> {
    if c.plain then [InstallFlat(key, data)]
    else [WriteAreaId, WriteKeyId(key), InstallOpaque(key, data), WriteAreaId, WriteKeyId(key)]
  }

  function CommitPoint(c: Config): nat {
    if c.plain then 1 else 3
  }

  /** The best-effort removal of the representation the new object supersedes. */
  function CleanupChanges(c: Config, d: Disk, key: Key): seq<Change> {
    if c.plain then RemoveOpaque(d, key) else if c.legacy then RemoveFlat(d, key) else []
  }

  function SaveChanges(c: Config, d: Disk, key: Key, data: Bytes): seq<Change> {
    CommitChanges(c, key, data) + CleanupChanges(c, d, key)
  }

  /** A delete takes the visible layer first. */
  function DeleteChanges(c: Config, d: Disk, key: Key): seq<Change> {
    if c.plain then RemoveFlat(d, key) + RemoveOpaque(d, key)
    else RemoveOpaque(d, key) + (if c.legacy then RemoveFlat(d, key) else [])
  }

  // ---- Layers ----

  lemma LayersUpdate(bottom: map<Key, Bytes>, top: map<Key, Bytes>, key: Key, data: Bytes)
    ensures bottom + top[key := data] == (bottom + top)[key := data]
  {}

  lemma LayersRemove(bottom: map<Key, Bytes>, top: map<Key, Bytes>, key: Key)
    ensures (bottom - {key}) + (top - {key}) == (bottom + top) - {key}
    ensures key in top ==> (bottom - {key}) + top == bottom + top
    ensures bottom + (top - {key}) == if key in bottom then (bottom + top)[key := bottom[key]] else (bottom + top) - {key}
  {}

  // ---- Prefixes of those changes ----

  lemma {:induction false} ApplySnoc(d: Disk, changes: seq<Change>, change: Change)
    ensures ApplyAll(d, changes + [change]) == Apply(ApplyAll(d, changes), change)
  {
    assert (changes + [change])[..|changes|] == changes;
  }

  lemma {:induction false} ApplyConcat(d: Disk, a: seq<Change>, b: seq<Change>)
    ensures ApplyAll(d, a + b) == ApplyAll(ApplyAll(d, a), b)
  {
    if b == [] {
      assert a + b == a;
    } else {
      var n := |b| - 1;
      ApplyConcat(d, a, b[..n]);
      assert (a + b)[..|a + b| - 1] == a + b[..n];
    }
  }

  /** The disk after the first changes of a commit, for every number of them. */
  lemma {:induction false} CommitPrefix(c: Config, d: Disk, key: Key, data: Bytes, n: nat)
    requires Good(d) && n <= |CommitChanges(c, key, data)|
    ensures var e := ApplyAll(d, CommitChanges(c, key, data)[..n]);
            && Good(e)
            && View(c, e) == (if n < CommitPoint(c) then View(c, d) else View(c, d)[key := data])
            && (n >= CommitPoint(c) ==> key in (if c.plain then e.flat else e.hashed))
  {
    var changes := CommitChanges(c, key, data);
    if c.plain {
      assert changes[..0] == [];
      ApplySnoc(d, [], changes[0]);
      assert n == 1 ==> changes[..n] == [] + [changes[0]];
      LayersUpdate(d.hashed, d.flat, key, data);
    } else {
      OpaquePrefix(d, key, data, n);
      LayersUpdate(d.flat, d.hashed, key, data);
    }
  }

  /** The disk after the first `n` changes of a commit to the versioned layout. */
  function PublishedTo(d: Disk, key: Key, data: Bytes, n: nat): Disk {
    d.(areaId := d.areaId || n > 0, ids := if n > 1 then d.ids + {key} else d.ids,
       hashed := if n > 2 then d.hashed[key := data] else d.hashed)
  }

  lemma {:induction false} PublishStep(d: Disk, key: Key, data: Bytes, n: nat, change: Change)
    requires change == match n case 0 => WriteAreaId case 1 => WriteKeyId(key) case 2 => InstallOpaque(key, data)
                               case 3 => WriteAreaId case _ => WriteKeyId(key)
    ensures Apply(PublishedTo(d, key, data, n), change) == PublishedTo(d, key, data, n + 1)
  {
    assert d.ids + {key} + {key} == d.ids + {key};
  }

  lemma {:induction false} OpaquePrefix(d: Disk, key: Key, data: Bytes, n: nat)
    requires n <= 5
    ensures var changes := [WriteAreaId, WriteKeyId(key), InstallOpaque(key, data), WriteAreaId, WriteKeyId(key)];
            ApplyAll(d, changes[..n]) == PublishedTo(d, key, data, n)
  {
    var changes := [WriteAreaId, WriteKeyId(key), InstallOpaque(key, data), WriteAreaId, WriteKeyId(key)];
    if n > 0 {
      OpaquePrefix(d, key, data, n - 1);
      assert changes[..n] == changes[..n - 1] + [changes[n - 1]];
      ApplySnoc(d, changes[..n - 1], changes[n - 1]);
      PublishStep(d, key, data, n - 1, changes[n - 1]);
    }
  }

  /** What remains of a removal's effect after `n` of its changes. */
  lemma {:induction false} RemovalPrefix(d: Disk, from: Disk, key: Key, n: nat)
    ensures n <= |RemoveFlat(d, key)| ==>
              ApplyAll(from, RemoveFlat(d, key)[..n]) == (if n == 0 then from else from.(flat := from.flat - {key}))
    ensures n <= |RemoveOpaque(d, key)| ==>
              ApplyAll(from, RemoveOpaque(d, key)[..n]) == (if n == 0 then from
                                                            else from.(hashed := from.hashed - {key}, ids := if n == 1 then from.ids else from.ids - {key}))
  {
    ApplySnoc(from, [], UnlinkFlat(key));
    ApplySnoc(from, [], UnlinkOpaque(key));
    ApplySnoc(from, [UnlinkOpaque(key)], UnlinkKeyId(key));
    assert [] + [UnlinkFlat(key)] == [UnlinkFlat(key)] && [] + [UnlinkOpaque(key)] == [UnlinkOpaque(key)];
    assert [UnlinkOpaque(key)] + [UnlinkKeyId(key)] == [UnlinkOpaque(key), UnlinkKeyId(key)];
    if n <= |RemoveFlat(d, key)| {
      assert n == 0 ==> RemoveFlat(d, key)[..n] == [];
      assert n == 1 ==> RemoveFlat(d, key)[..n] == [UnlinkFlat(key)];
    }
    if n <= |RemoveOpaque(d, key)| {
      assert n == 0 ==> RemoveOpaque(d, key)[..n] == [];
      assert n == 1 ==> RemoveOpaque(d, key)[..n] == [UnlinkOpaque(key)];
      assert n == 2 ==> RemoveOpaque(d, key)[..n] == [UnlinkOpaque(key), UnlinkKeyId(key)];
    }
  }

  /** However much of the cleanup gets done, the superseded copy is never seen. */
  lemma {:induction false} CleanupUnseen(c: Config, d: Disk, e: Disk, key: Key, n: nat)
    requires Good(e) && key in (if c.plain then e.flat else e.hashed) && n <= |CleanupChanges(c, d, key)|
    ensures var f := ApplyAll(e, CleanupChanges(c, d, key)[..n]); Good(f) && View(c, f) == View(c, e)
  {
    if !c.plain && !c.legacy {
      assert CleanupChanges(c, d, key)[..n] == [];
    } else {
      RemovalPrefix(d, e, key, n);
      LayersRemove(e.hashed, e.flat, key);
      LayersRemove(e.flat, e.hashed, key);
    }
  }

  /** A save that stops after any number of its changes, for whatever reason, shows the old map or the new one;
      from the commit point on, the new one. */
  lemma {:induction false} SaveIsAtomic(c: Config, d: Disk, key: Key, data: Bytes, n: nat)
    requires Good(d) && n <= |SaveChanges(c, d, key, data)|
    ensures var e := ApplyAll(d, SaveChanges(c, d, key, data)[..n]);
            && Good(e)
            && View(c, e) == (if n < CommitPoint(c) then View(c, d) else View(c, d)[key := data])
  {
    var commit, cleanup := CommitChanges(c, key, data), CleanupChanges(c, d, key);
    if n <= |commit| {
      assert SaveChanges(c, d, key, data)[..n] == commit[..n];
      CommitPrefix(c, d, key, data, n);
    } else {
      CommitPrefix(c, d, key, data, |commit|);
      assert commit[..|commit|] == commit;
      assert SaveChanges(c, d, key, data)[..n] == commit + cleanup[..n - |commit|];
      ApplyConcat(d, commit, cleanup[..n - |commit|]);
      CleanupUnseen(c, d, ApplyAll(d, commit), key, n - |commit|);
    }
  }

  /** The copy that a save left behind under the visible one, if any. */
  function Superseded(c: Config, d: Disk, key: Key): Option<Bytes> {
    if c.plain then if key in d.flat && key in d.hashed then Some(d.hashed[key]) else None
    else if c.legacy && key in d.hashed && key in d.flat then Some(d.flat[key]) else None
  }

  /** How many changes take the visible copy away, and how many leave nothing at all. */
  function TopChanges(c: Config, d: Disk, key: Key): nat {
    if c.plain then |RemoveFlat(d, key)| else |RemoveOpaque(d, key)|
  }

  /** What a partial delete shows, exactly: nothing has happened before its first change; after that the key is gone
      unless a superseded copy comes back, which lasts until the change that unlinks it. A completed delete removes
      the key and nothing else. */
  lemma {:induction false} DeletePartial(c: Config, d: Disk, key: Key, n: nat)
    requires Good(d) && n <= |DeleteChanges(c, d, key)|
    ensures var e := ApplyAll(d, DeleteChanges(c, d, key)[..n]);
            && Good(e)
            && View(c, e) == (if n == 0 then View(c, d)
                              else if n <= TopChanges(c, d, key) && Superseded(c, d, key).Some?
                              then View(c, d)[key := Superseded(c, d, key).value]
                              else View(c, d) - {key})
    ensures n == |DeleteChanges(c, d, key)| ==> View(c, ApplyAll(d, DeleteChanges(c, d, key)[..n])) == View(c, d) - {key}
  {
    var changes, top := DeleteChanges(c, d, key), TopChanges(c, d, key);
    if n == 0 {
      assert changes[..0] == [];
      assert |changes| == 0 ==> key !in View(c, d);
      assert key !in View(c, d) ==> View(c, d) - {key} == View(c, d);
    } else if n <= top {
      TopRemoved(c, d, key, n);
    } else {
      BothRemoved(c, d, key, n);
    }
  }

  lemma {:induction false} TopRemoved(c: Config, d: Disk, key: Key, n: nat)
    requires Good(d) && 0 < n <= TopChanges(c, d, key)
    ensures var e := ApplyAll(d, DeleteChanges(c, d, key)[..n]);
            && Good(e)
            && View(c, e) == (if Superseded(c, d, key).Some? then View(c, d)[key := Superseded(c, d, key).value]
                              else View(c, d) - {key})
    ensures n == |DeleteChanges(c, d, key)| ==> Superseded(c, d, key).None?
  {
    RemovalPrefix(d, d, key, n);
    LayersRemove(d.hashed, d.flat, key);
    LayersRemove(d.flat, d.hashed, key);
    if c.plain {
      assert DeleteChanges(c, d, key)[..n] == RemoveFlat(d, key)[..n];
    } else {
      assert DeleteChanges(c, d, key)[..n] == RemoveOpaque(d, key)[..n];
    }
  }

  /** With both layers' files gone, the key is gone. */
  lemma {:induction false} GoneFromView(c: Config, d: Disk, e: Disk, key: Key)
    requires Good(d) && (c.plain || c.legacy)
    requires e.flat == d.flat - {key} && e.hashed == d.hashed - {key} && e.areaId == d.areaId && d.ids - {key} <= e.ids
    ensures Good(e) && View(c, e) == View(c, d) - {key}
  {
    LayersRemove(d.hashed, d.flat, key);
    LayersRemove(d.flat, d.hashed, key);
  }

  lemma {:induction false} BothRemoved(c: Config, d: Disk, key: Key, n: nat)
    requires Good(d) && TopChanges(c, d, key) < n <= |DeleteChanges(c, d, key)|
    ensures var e := ApplyAll(d, DeleteChanges(c, d, key)[..n]); Good(e) && View(c, e) == View(c, d) - {key}
  {
    AbsentRemove(d.hashed, key);
    AbsentRemove(d.flat, key);
    if c.plain {
      var mid := TwoRemovals(d, RemoveFlat(d, key), RemoveOpaque(d, key), n);
      RemovalPrefix(d, d, key, |RemoveFlat(d, key)|);
      RemovalPrefix(d, mid, key, n - |RemoveFlat(d, key)|);
    } else {
      assert c.legacy;
      var mid := TwoRemovals(d, RemoveOpaque(d, key), RemoveFlat(d, key), n);
      RemovalPrefix(d, d, key, |RemoveOpaque(d, key)|);
      RemovalPrefix(d, mid, key, n - |RemoveOpaque(d, key)|);
    }
    GoneFromView(c, d, ApplyAll(d, DeleteChanges(c, d, key)[..n]), key);
  }

  lemma {:induction false} TwoRemovals(d: Disk, top: seq<Change>, bottom: seq<Change>, n: nat) returns (mid: Disk)
    requires |top| < n <= |top + bottom|
    ensures mid == ApplyAll(d, top[..|top|])
    ensures ApplyAll(d, (top + bottom)[..n]) == ApplyAll(mid, bottom[..n - |top|])
  {
    mid := ApplyAll(d, top);
    assert top[..|top|] == top;
    assert (top + bottom)[..n] == top + bottom[..n - |top|];
    ApplyConcat(d, top, bottom[..n - |top|]);
  }

  lemma AbsentRemove(m: map<Key, Bytes>, key: Key)
    ensures key !in m ==> m - {key} == m
  {}
}
