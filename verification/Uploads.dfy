/** Resumable uploads: parts staged in any order, replaced at will, and joined into one object. */
module Uploads {
  import opened Wrappers
  import opened Octets
  import opened StorageStreams
  import opened LocalStorage
  import opened LocalArea

  datatype Limits = Limits(minPart: nat, maxPart: nat, maxParts: nat)

  const LocalLimits := Limits(5 * 1024 * 1024, 5 * 1024 * 1024 * 1024, 10_000)

  datatype PartRef = PartRef(number: int, size: int, validator: string)

  datatype Reply =
    | Part(ref: PartRef)
    | Completed(total: nat)
    | BadRequest
    | TooBig
    | SessionError
    | StorageError(outcome: Outcome)

  type Parts = map<nat, Bytes>

  /** The staged parts up to number `n`, joined in ascending order. */
  function Joined(parts: Parts, n: nat): Bytes {
    if n == 0 then [] else Joined(parts, n - 1) + (if n in parts then parts[n] else [])
  }

  predicate InRange(parts: Parts, n: nat) {
    forall p :: p in parts ==> 1 <= p <= n
  }

  // ---- Adding, replacing and counting ----

  lemma {:induction false} JoinedSame(parts: Parts, p: nat, n: nat)
    requires n < p
    ensures Joined(parts - {p}, n) == Joined(parts, n)
  {
    if n > 0 {
      JoinedSame(parts, p, n - 1);
    }
  }

  /** A part's bytes are counted once. */
  lemma {:induction false} JoinedWithout(parts: Parts, p: nat, n: nat)
    requires p in parts && 1 <= p <= n
    ensures |Joined(parts, n)| == |Joined(parts - {p}, n)| + |parts[p]|
  {
    if p == n {
      JoinedSame(parts, p, n - 1);
    } else {
      JoinedWithout(parts, p, n - 1);
    }
  }

  lemma {:induction false} JoinedReplaced(parts: Parts, p: nat, data: Bytes, n: nat)
    requires 1 <= p <= n
    ensures |Joined(parts[p := data], n)| == |Joined(parts - {p}, n)| + |data|
  {
    JoinedWithout(parts[p := data], p, n);
    assert parts[p := data] - {p} == parts - {p};
  }

  lemma {:induction false} JoinedNothing(n: nat)
    ensures Joined(map[], n) == []
  {
    if n > 0 {
      JoinedNothing(n - 1);
    }
  }

  /** No parts between two numbers: nothing is added. */
  lemma {:induction false} JoinedGap(parts: Parts, a: nat, b: nat)
    requires a <= b && forall p :: a < p <= b ==> p !in parts
    ensures Joined(parts, b) == Joined(parts, a)
  {
    if a < b {
      JoinedGap(parts, a, b - 1);
    }
  }

  // ---- What completion checks ----

  predicate Numbered(refs: seq<PartRef>, limits: Limits) {
    && refs != [] && |refs| <= limits.maxParts
    && (forall i :: 0 <= i < |refs| ==> 1 <= refs[i].number <= limits.maxParts)
    && forall i :: 0 < i < |refs| ==> refs[i - 1].number < refs[i].number
  }

  predicate Sized(refs: seq<PartRef>, limits: Limits) {
    && (forall i :: 0 <= i < |refs| ==> 0 <= refs[i].size <= limits.maxPart && refs[i].validator != "")
    && forall i :: 0 <= i < |refs| - 1 ==> refs[i].size >= limits.minPart
  }

  function TotalSize(refs: seq<PartRef>): int {
    if refs == [] then 0 else TotalSize(refs[..|refs| - 1]) + refs[|refs| - 1].size
  }

  lemma {:induction false} NumbersAscend(refs: seq<PartRef>, limits: Limits, i: nat, j: nat)
    requires Numbered(refs, limits) && i < j < |refs|
    ensures refs[i].number < refs[j].number
  {
    if i + 1 < j {
      NumbersAscend(refs, limits, i, j - 1);
    }
  }

  predicate Named(refs: seq<PartRef>, p: nat) {
    exists i :: 0 <= i < |refs| && refs[i].number == p
  }

  /** One reference against the part it names: there, and of that size. */
  predicate SizeFits(ref: PartRef, parts: Parts) {
    ref.number >= 0 && ref.number in parts && |parts[ref.number]| == ref.size
  }

  predicate Faithful(ref: PartRef, parts: Parts, digest: Bytes -> string) {
    SizeFits(ref, parts) && digest(parts[ref.number]) == ref.validator
  }

  /** The references name exactly the staged parts, with their sizes. */
  predicate NamesAll(refs: seq<PartRef>, parts: Parts) {
    (forall p :: p in parts ==> Named(refs, p)) && forall i :: 0 <= i < |refs| ==> SizeFits(refs[i], parts)
  }

  /** The references name exactly the staged parts, with their sizes and digests. */
  predicate Matches(refs: seq<PartRef>, parts: Parts, digest: Bytes -> string) {
    (forall p :: p in parts ==> Named(refs, p)) && forall i :: 0 <= i < |refs| ==> Faithful(refs[i], parts, digest)
  }

  /** The bytes of the first `k` references, one after another. */
  function Referenced(refs: seq<PartRef>, k: nat, parts: Parts): Bytes
    requires k <= |refs|
  {
    if k == 0 then [] else
      Referenced(refs, k - 1, parts)
      + (if refs[k - 1].number >= 0 && refs[k - 1].number in parts then parts[refs[k - 1].number] else [])
  }

  function LastNumber(refs: seq<PartRef>, k: nat): int
    requires k <= |refs|
  {
    if k == 0 then 0 else refs[k - 1].number
  }

  /** Between one reference and the next no other part is joined. */
  lemma {:induction false} NextPart(refs: seq<PartRef>, k: nat, parts: Parts, digest: Bytes -> string, limits: Limits)
    requires Numbered(refs, limits) && Matches(refs, parts, digest) && k < |refs| && LastNumber(refs, k) >= 0
    ensures refs[k].number > 0 && SizeFits(refs[k], parts)
    ensures Joined(parts, refs[k].number) == Joined(parts, LastNumber(refs, k)) + parts[refs[k].number]
  {
    var before, number := LastNumber(refs, k), refs[k].number;
    assert Faithful(refs[k], parts, digest);
    assert before < number;
    forall p | before < p < number
      ensures p !in parts
    {
      NothingBetween(refs, parts, digest, limits, k, p);
    }
    JoinedGap(parts, before, number - 1);
  }

  /** Copying the references one after another gives the staged parts in ascending order. */
  lemma {:induction false} ReferencedIsJoined(refs: seq<PartRef>, k: nat, parts: Parts, digest: Bytes -> string, limits: Limits)
    requires Numbered(refs, limits) && Matches(refs, parts, digest) && k <= |refs|
    ensures LastNumber(refs, k) >= 0 && Referenced(refs, k, parts) == Joined(parts, LastNumber(refs, k))
    ensures |Referenced(refs, k, parts)| == TotalSize(refs[..k])
  {
    if k > 0 {
      ReferencedIsJoined(refs, k - 1, parts, digest, limits);
      NextPart(refs, k - 1, parts, digest, limits);
      assert refs[..k][..k - 1] == refs[..k - 1];
    }
  }

  lemma {:induction false} NothingBetween(refs: seq<PartRef>, parts: Parts, digest: Bytes -> string, limits: Limits, k: nat, p: nat)
    requires Numbered(refs, limits) && Matches(refs, parts, digest) && k < |refs|
    requires LastNumber(refs, k) < p < refs[k].number
    ensures p !in parts
  {
    forall i | 0 <= i < |refs|
      ensures refs[i].number != p
    {
      if i > k {
        NumbersAscend(refs, limits, k, i);
      } else if i + 1 < k {
        NumbersAscend(refs, limits, i, k - 1);
      }
    }
    assert !Named(refs, p);
  }

  lemma {:induction false} AllReferenced(refs: seq<PartRef>, parts: Parts, digest: Bytes -> string, limits: Limits)
    requires Numbered(refs, limits) && Matches(refs, parts, digest)
    ensures Referenced(refs, |refs|, parts) == Joined(parts, limits.maxParts)
    ensures |Referenced(refs, |refs|, parts)| == TotalSize(refs)
  {
    ReferencedIsJoined(refs, |refs|, parts, digest, limits);
    assert refs[..|refs|] == refs;
    var last := refs[|refs| - 1].number;
    forall p | last < p <= limits.maxParts
      ensures p !in parts
    {
      forall i | 0 <= i < |refs|
        ensures refs[i].number != p
      {
        if i < |refs| - 1 {
          NumbersAscend(refs, limits, i, |refs| - 1);
        }
      }
      assert !Named(refs, p);
    }
    JoinedGap(parts, last, limits.maxParts);
  }

  // ---- Every run of part uploads ----

  /** A part upload that committed. */
  datatype Commit = Commit(number: nat, data: Bytes)

  function Staged(commits: seq<Commit>): Parts {
    if commits == [] then map[] else
      var n := |commits| - 1;
      Staged(commits[..n])[commits[n].number := commits[n].data]
  }

  /** Lower numbers come first. */
  lemma {:induction false} JoinedInOrder(a: nat, x: Bytes, b: nat, y: Bytes, n: nat)
    requires 1 <= a < b <= n
    ensures Joined(map[a := x, b := y], n) == x + y
  {
    var parts := map[a := x, b := y];
    JoinedNothingBelow(parts, a - 1);
    JoinedGap(parts, a, b - 1);
    JoinedGap(parts, b, n);
    assert [] + x == x;
  }

  lemma {:induction false} JoinedNothingBelow(parts: Parts, n: nat)
    requires forall p :: p in parts ==> p > n
    ensures Joined(parts, n) == []
  {
    JoinedGap(parts, 0, n);
  }

  /** Where the last commit under a number is, -1 when there is none. */
  function LastIndex(commits: seq<Commit>, p: nat): (i: int)
    ensures -1 <= i < |commits|
    ensures i >= 0 ==> commits[i].number == p
    ensures forall j :: i < j < |commits| ==> commits[j].number != p
  {
    if commits == [] then -1
    else if commits[|commits| - 1].number == p then |commits| - 1
    else LastIndex(commits[..|commits| - 1], p)
  }

  /** The content committed last under each number from 1 to `n`, joined in ascending order. */
  function LastCommitted(commits: seq<Commit>, n: nat): Bytes {
    if n == 0 then [] else
      var i := LastIndex(commits, n);
      LastCommitted(commits, n - 1) + (if i >= 0 then commits[i].data else [])
  }

  /** What a run of uploads leaves under each number is the content that was committed there last. */
  lemma {:induction false} LastCommitWins(commits: seq<Commit>, i: nat)
    requires i < |commits| && forall j :: i < j < |commits| ==> commits[j].number != commits[i].number
    ensures commits[i].number in Staged(commits) && Staged(commits)[commits[i].number] == commits[i].data
  {
    if i < |commits| - 1 {
      LastCommitWins(commits[..|commits| - 1], i);
    }
  }

  lemma {:induction false} OnlyCommitsStaged(commits: seq<Commit>, p: nat)
    requires forall i :: 0 <= i < |commits| ==> commits[i].number != p
    ensures p !in Staged(commits)
  {
    if commits != [] {
      OnlyCommitsStaged(commits[..|commits| - 1], p);
    }
  }

  /** The staged parts, joined, are the last commits, joined. */
  lemma {:induction false} JoinedIsLastCommitted(commits: seq<Commit>, n: nat)
    ensures Joined(Staged(commits), n) == LastCommitted(commits, n)
  {
    if n > 0 {
      JoinedIsLastCommitted(commits, n - 1);
      var i := LastIndex(commits, n);
      if i >= 0 {
        LastCommitWins(commits, i);
      } else {
        OnlyCommitsStaged(commits, n);
      }
    }
  }

  // ---- The session ----

  class Session {
    const limits: Limits
    const maxBytes: Option<nat>
    const key: Key
    var active: bool
    var parts: Parts
    /** Every part upload that has committed so far. */
    ghost var history: seq<Commit>

    ghost predicate Valid()
      reads this
    {
      && parts == Staged(history)
      && InRange(parts, limits.maxParts)
      && (forall p :: p in parts ==> |parts[p]| <= limits.maxPart)
      && (maxBytes.Some? ==> |Joined(parts, limits.maxParts)| <= maxBytes.value)
    }

    constructor (key: Key, limits: Limits, maxBytes: Option<nat>)
      ensures Valid() && active && history == []
      ensures this.key == key && this.limits == limits && this.maxBytes == maxBytes
    {
      this.key, this.limits, this.maxBytes := key, limits, maxBytes;
      active, parts, history := true, map[], [];
      JoinedNothing(limits.maxParts);
    }

    /** The bytes staged under every other number, summed in whatever order the directory lists them. */
    method OtherBytes(number: nat) returns (total: nat)
      requires Valid()
      ensures total == |Joined(parts - {number}, limits.maxParts)|
    {
      total := 0;
      var left := parts - {number};
      while left != map[]
        invariant InRange(left, limits.maxParts)
        invariant total + |Joined(left, limits.maxParts)| == |Joined(parts - {number}, limits.maxParts)|
        decreases |left|
      {
        var p :| p in left;
        JoinedWithout(left, p, limits.maxParts);
        total := total + |left[p]|;
        Smaller(left, p);
        left := left - {p};
      }
      JoinedNothing(limits.maxParts);
    }

    /** Stages one part, replacing what its number held. `installs` is whether the final rename succeeds. */
    method UploadPart(number: int, source: Source, size: int, digest: Bytes -> string, installs: bool) returns (r: Reply)
      requires Valid()
      modifies this, source
      ensures Valid() && active == old(active)
      ensures r.Part? ==>
                && 1 <= number <= limits.maxParts && |old(source.rest)| == size && old(active)
                && parts == old(parts)[number := old(source.rest)]
                && history == old(history) + [Commit(number, old(source.rest))]
                && r.ref == PartRef(number, size, digest(old(source.rest)))
      ensures !r.Part? ==> parts == old(parts) && history == old(history)
      ensures r == BadRequest <== !(1 <= number <= limits.maxParts) || size < 0
      ensures 1 <= number <= limits.maxParts && size >= 0 ==>
                && (size > limits.maxPart ==> r == TooBig)
                && (size <= limits.maxPart && !old(active) ==> r == SessionError)
                && (size <= limits.maxPart && old(active) ==>
                      var fits := maxBytes.Some? ==> |Joined(old(parts) - {number}, limits.maxParts)| + size <= maxBytes.value;
                      && (!fits ==> r == TooBig)
                      && (fits && |old(source.rest)| != size ==> r == BadRequest)
                      && (fits && |old(source.rest)| == size && source.honest && !installs ==> r == StorageError(Unavailable)))
      ensures && old(active) && 1 <= number <= limits.maxParts && installs && source.honest
              && |old(source.rest)| == size <= limits.maxPart
              && (maxBytes.Some? ==> |Joined(old(parts) - {number}, limits.maxParts)| + size <= maxBytes.value)
              ==> r.Part?
    {
      if !(1 <= number <= limits.maxParts) || size < 0 {
        return BadRequest;
      }
      if size > limits.maxPart {
        return TooBig;
      }
      if !active {
        return SessionError;
      }
      var others := OtherBytes(number);
      if maxBytes.Some? && others + size > maxBytes.value {
        return TooBig;
      }
      var copy := CopyExactly(source, size);
      if copy.None? {
        return BadRequest;
      }
      if !installs {
        return StorageError(Unavailable);
      }
      JoinedReplaced(parts, number, copy.value, limits.maxParts);
      parts, history := parts[number := copy.value], history + [Commit(number, copy.value)];
      assert history[..|history| - 1] == old(history);
      return Part(PartRef(number, size, digest(copy.value)));
    }

    /** Whether the references are unique, ordered, and of legal sizes, and their sum. */
    method ValidateCompletion(refs: seq<PartRef>) returns (r: Reply)
      ensures r.Completed? <==> Numbered(refs, limits) && Sized(refs, limits) && (maxBytes.Some? ==> TotalSize(refs) <= maxBytes.value)
      ensures r.Completed? ==> r.total == TotalSize(refs)
      ensures r == BadRequest <==> !(Numbered(refs, limits) && Sized(refs, limits))
      ensures r == TooBig <==>
                Numbered(refs, limits) && Sized(refs, limits) && maxBytes.Some? && TotalSize(refs) > maxBytes.value
    {
      var numbered := CheckNumbers(refs);
      if !numbered {
        return BadRequest;
      }
      var sized, total := SumSizes(refs);
      if !sized {
        return BadRequest;
      }
      if maxBytes.Some? && total > maxBytes.value {
        return TooBig;
      }
      return Completed(total);
    }

    method CheckNumbers(refs: seq<PartRef>) returns (ok: bool)
      ensures ok <==> Numbered(refs, limits)
    {
      if refs == [] || |refs| > limits.maxParts {
        return false;
      }
      var previous := 0;
      for i := 0 to |refs|
        invariant previous == if i == 0 then 0 else refs[i - 1].number
        invariant forall k :: 0 <= k < i ==> 1 <= refs[k].number <= limits.maxParts
        invariant forall k :: 0 < k < i ==> refs[k - 1].number < refs[k].number
      {
        if !(1 <= refs[i].number <= limits.maxParts) || refs[i].number <= previous {
          return false;
        }
        previous := refs[i].number;
      }
      return true;
    }

    method SumSizes(refs: seq<PartRef>) returns (ok: bool, total: int)
      ensures ok <==> Sized(refs, limits)
      ensures ok ==> total == TotalSize(refs) >= 0
    {
      total := 0;
      for i := 0 to |refs|
        invariant total == TotalSize(refs[..i]) >= 0
        invariant forall k :: 0 <= k < i ==> 0 <= refs[k].size <= limits.maxPart && refs[k].validator != ""
        invariant forall k :: 0 <= k < i && k < |refs| - 1 ==> refs[k].size >= limits.minPart
      {
        if refs[i].size < 0 || refs[i].size > limits.maxPart || refs[i].validator == ""
           || (i < |refs| - 1 && refs[i].size < limits.minPart) {
          return false, total;
        }
        assert refs[..i + 1][..i] == refs[..i];
        total := total + refs[i].size;
      }
      assert refs[..|refs|] == refs;
      ok := true;
    }

    /** Whether the references name every staged part once, with its size. */
    method CheckStaged(refs: seq<PartRef>) returns (ok: bool)
      ensures ok <==> NamesAll(refs, parts)
    {
      if exists p :: p in parts.Keys && !Named(refs, p) {
        return false;
      }
      for i := 0 to |refs|
        invariant forall k :: 0 <= k < i ==> SizeFits(refs[k], parts)
      {
        if !SizeFits(refs[i], parts) {
          return false;
        }
      }
      ok := true;
    }

    /** Copies the parts in the order of the references, checking each digest. */
    method CopyParts(refs: seq<PartRef>, digest: Bytes -> string) returns (ok: bool, data: Bytes)
      requires Valid() && Numbered(refs, limits) && NamesAll(refs, parts)
      ensures ok <==> Matches(refs, parts, digest)
      ensures ok ==> data == Joined(parts, limits.maxParts) && |data| == TotalSize(refs)
    {
      data := [];
      for i := 0 to |refs|
        invariant forall k :: 0 <= k < i ==> Faithful(refs[k], parts, digest)
        invariant data == Referenced(refs, i, parts)
      {
        assert SizeFits(refs[i], parts);
        if digest(parts[refs[i].number]) != refs[i].validator {
          assert !Faithful(refs[i], parts, digest);
          return false, data;
        }
        data := data + parts[refs[i].number];
      }
      AllReferenced(refs, parts, digest, limits);
      ok := true;
    }

    /** Joins the staged parts into the object. It succeeds only with every part named as it was last committed, and
        then stores the last commits' bytes in ascending order; a refusal leaves what readers see alone, and so does
        a failure before the object is in place. */
    method CompleteUpload(area: Area, refs: seq<PartRef>, digest: Bytes -> string, budget: nat, tidy: bool, removed: bool)
      returns (r: Reply)
      requires Valid() && area.Valid()
      modifies this, area
      ensures Valid() && area.Valid()
      ensures r.Completed? ==>
                && Complete(refs, old(active), old(parts), digest)
                && area.Visible() == old(area.Visible())[key := LastCommitted(old(history), limits.maxParts)]
                && r.total == |LastCommitted(old(history), limits.maxParts)|
                && (removed ==> !active && history == [])
      ensures !r.Completed? && !(r == StorageError(Unavailable) && budget >= CommitPoint(area.config)) ==>
                area.Visible() == old(area.Visible())
      ensures !old(active) ==> r == SessionError
      ensures old(active) ==>
                && (r == BadRequest <==> !(Numbered(refs, limits) && Sized(refs, limits)))
                && (r == TooBig <==>
                      Numbered(refs, limits) && Sized(refs, limits) && maxBytes.Some? && TotalSize(refs) > maxBytes.value)
      ensures r == SessionError && old(active) ==> !Matches(refs, old(parts), digest)
      ensures r == StorageError(Unavailable) ==>
                || area.Visible() == old(area.Visible())
                || area.Visible() == old(area.Visible())[key := LastCommitted(old(history), limits.maxParts)]
      ensures !r.Completed? ==> active == old(active) && history == old(history)
      ensures && Complete(refs, old(active), old(parts), digest) && budget >= |CommitChanges(area.config, key, [])|
              && !(area.config.plain && Clashes(old(area.flat).Keys + old(area.hashed).Keys, key))
              ==> r.Completed?
    {
      if !active {
        return SessionError;
      }
      r := ValidateCompletion(refs);
      if !r.Completed? {
        return;
      }
      var staged := CheckStaged(refs);
      if !staged {
        return SessionError;
      }
      var ok, data := CopyParts(refs, digest);
      if !ok {
        var prepared := area.Prepare(key, budget, tidy);
        return if prepared == Success then SessionError else StorageError(prepared);
      }
      JoinedIsLastCommitted(history, limits.maxParts);
      r := Publish(area, data, budget, tidy, removed);
    }

    /** The last part of a completion: the object is put in place and the session removed. */
    method Publish(area: Area, data: Bytes, budget: nat, tidy: bool, removed: bool) returns (r: Reply)
      requires Valid() && area.Valid()
      modifies this, area
      ensures Valid() && area.Valid() && (r.Completed? || r.StorageError?)
      ensures r.Completed? ==>
                && area.Visible() == old(area.Visible())[key := data] && r.total == |data|
                && (removed ==> !active && history == [])
      ensures !r.Completed? && !(r == StorageError(Unavailable) && budget >= CommitPoint(area.config)) ==>
                area.Visible() == old(area.Visible())
      ensures r == StorageError(Unavailable) ==>
                area.Visible() == old(area.Visible()) || area.Visible() == old(area.Visible())[key := data]
      ensures !r.Completed? ==> active == old(active) && history == old(history) && parts == old(parts)
      ensures && budget >= |CommitChanges(area.config, key, data)|
              && !(area.config.plain && Clashes(old(area.flat).Keys + old(area.hashed).Keys, key))
              ==> r.Completed?
    {
      var outcome := area.Save(key, data, budget, tidy);
      if outcome != Success {
        return StorageError(outcome);
      }
      if removed {
        active, parts, history := false, map[], [];
        JoinedNothing(limits.maxParts);
      }
      return Completed(|data|);
    }

    /** What a completion has to present. */
    predicate Complete(refs: seq<PartRef>, active: bool, parts: Parts, digest: Bytes -> string) {
      && active && Numbered(refs, limits) && Sized(refs, limits)
      && (maxBytes.Some? ==> TotalSize(refs) <= maxBytes.value) && Matches(refs, parts, digest)
    }

    method AbortUpload()
      modifies this
      ensures !active && history == [] && Valid()
    {
      active, parts, history := false, map[], [];
      JoinedNothing(limits.maxParts);
    }
  }

  /** Opens a session for an object that could be stored: its key clashes with none, and the limits are the ones that
      every backend keeps: parts of 5 MiB to 5 GiB, ten thousand of them. */
  method BeginUpload(area: Area, key: Key, maxBytes: Option<int>) returns (r: Reply, session: Session?)
    requires area.Valid()
    ensures r == BadRequest || r == StorageError(Conflict) || r == Completed(0)
    ensures r == StorageError(Conflict) <==> area.config.plain && Clashes(area.flat.Keys + area.hashed.Keys, key)
    ensures r == BadRequest ==> maxBytes.Some? && maxBytes.value < 0
    ensures maxBytes.Some? && maxBytes.value < 0 ==> session == null
    ensures session == null <==> r != Completed(0)
    ensures session != null ==>
              && fresh(session) && session.Valid() && session.active && session.history == [] && session.key == key
              && session.limits == Limits(5_242_880, 5_368_709_120, 10_000)
              && (maxBytes.Some? <==> session.maxBytes.Some?) && (maxBytes.Some? ==> session.maxBytes.value == maxBytes.value)
  {
    if area.config.plain {
      var conflict := area.HasKeyConflict(key);
      if conflict {
        return StorageError(Conflict), null;
      }
    }
    if maxBytes.Some? && maxBytes.value < 0 {
      return BadRequest, null;
    }
    session := new Session(key, LocalLimits, if maxBytes.Some? then Some(maxBytes.value as nat) else None);
    r := Completed(0);
  }

  lemma {:induction false} Smaller(m: Parts, p: nat)
    requires p in m
    ensures |m - {p}| < |m|
  {
    assert (m - {p}).Keys == m.Keys - {p};
    assert |(m - {p}).Keys| < |m.Keys|;
  }

  // ---- The references that uploads return ----

  /** One reference for each part up to `n`, as the upload of its last content returned it. */
  function RefsOf(parts: Parts, digest: Bytes -> string, n: nat): seq<PartRef> {
    if n == 0 then [] else
      RefsOf(parts, digest, n - 1) + (if n in parts then [PartRef(n, |parts[n]|, digest(parts[n]))] else [])
  }

  lemma {:induction false} RefsFaithful(parts: Parts, digest: Bytes -> string, n: nat)
    ensures var refs := RefsOf(parts, digest, n);
            && |refs| <= n
            && (forall i :: 0 <= i < |refs| ==> 1 <= refs[i].number <= n && Faithful(refs[i], parts, digest))
            && (forall i :: 0 < i < |refs| ==> refs[i - 1].number < refs[i].number)
  {
    if n > 0 {
      RefsFaithful(parts, digest, n - 1);
    }
  }

  lemma {:induction false} RefsTotal(parts: Parts, digest: Bytes -> string, n: nat)
    ensures TotalSize(RefsOf(parts, digest, n)) == |Joined(parts, n)|
  {
    if n > 0 {
      RefsTotal(parts, digest, n - 1);
      var before, refs := RefsOf(parts, digest, n - 1), RefsOf(parts, digest, n);
      if n in parts {
        assert refs[..|refs| - 1] == before;
      } else {
        assert refs == before;
      }
    }
  }

  lemma {:induction false} RefsNamed(parts: Parts, digest: Bytes -> string, n: nat, p: nat)
    requires p in parts && 1 <= p <= n
    ensures Named(RefsOf(parts, digest, n), p)
  {
    var before, refs := RefsOf(parts, digest, n - 1), RefsOf(parts, digest, n);
    if p < n {
      RefsNamed(parts, digest, n - 1, p);
      var i :| 0 <= i < |before| && before[i].number == p;
      assert refs[i].number == p;
    } else {
      assert refs[|before|].number == p;
    }
  }

  lemma {:induction false} RefsMatch(session: Session, digest: Bytes -> string)
    requires session.Valid()
    ensures Matches(RefsOf(session.parts, digest, session.limits.maxParts), session.parts, digest)
  {
    RefsFaithful(session.parts, digest, session.limits.maxParts);
    forall p | p in session.parts
      ensures Named(RefsOf(session.parts, digest, session.limits.maxParts), p)
    {
      RefsNamed(session.parts, digest, session.limits.maxParts, p);
    }
  }

  /** Whoever hands back what the uploads returned, in order, can complete: the references of any session with parts are
      accepted unless a part before the last is too small. */
  lemma {:induction false} ReturnedRefsComplete(session: Session, digest: Bytes -> string)
    requires session.Valid() && session.active && session.parts != map[] && forall d :: digest(d) != ""
    ensures var refs := RefsOf(session.parts, digest, session.limits.maxParts);
            session.Complete(refs, session.active, session.parts, digest) <==>
              forall i :: 0 <= i < |refs| - 1 ==> refs[i].size >= session.limits.minPart
  {
    var refs := RefsOf(session.parts, digest, session.limits.maxParts);
    RefsFaithful(session.parts, digest, session.limits.maxParts);
    RefsTotal(session.parts, digest, session.limits.maxParts);
    RefsMatch(session, digest);
    var p :| p in session.parts;
    assert Named(refs, p);
    forall i | 0 <= i < |refs|
      ensures 0 <= refs[i].size <= session.limits.maxPart && refs[i].validator != ""
    {
      assert Faithful(refs[i], session.parts, digest);
    }
  }
}
