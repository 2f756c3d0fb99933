/** Reading a source exactly once under a declared size. */
module StorageStreams {
  import opened Wrappers
  import opened Octets

  /** A byte source the caller owns: `rest` is what it still holds. A read gives at least one byte until the end;
      an honest source never gives more than was asked for, and either kind may give less. */
  class Source {
    var rest: Bytes
    const honest: bool

    constructor (content: Bytes, honest: bool)
      ensures rest == content && this.honest == honest
    {
      rest := content;
      this.honest := honest;
    }

    method Read(n: nat) returns (data: Bytes)
      requires n > 0
      modifies this
      ensures old(rest) == data + rest
      ensures data == [] <==> old(rest) == []
      ensures honest ==> |data| <= n
    {
      if rest == [] {
        return [];
      }
      var k: nat :| 0 < k <= |rest| && (honest ==> k <= n) by {
        assert 0 < 1 <= |rest|;
      }
      data, rest := rest[..k], rest[k..];
    }
  }

  datatype Chunk = Chunk(data: Bytes) | Refused

  class ExactSizeReader {
    const source: Source
    const size: nat
    var remaining: nat
    var eofVerified: bool
    ghost var consumed: Bytes
    ghost const content: Bytes

    /** The bytes handed out so far and those to come are the source's own. */
    ghost predicate Valid()
      reads this, source
    {
      && remaining <= size && |consumed| == size - remaining
      && content == consumed + source.rest
      && (eofVerified ==> remaining == 0 && source.rest == [])
    }

    constructor (source: Source, size: nat)
      ensures Valid() && this.source == source && this.size == size && content == source.rest && consumed == []
      ensures remaining == size && !eofVerified
    {
      this.source, this.size, remaining, eofVerified := source, size, size, false;
      consumed, content := [], source.rest;
    }

    method VerifyEof() returns (ok: bool)
      requires Valid() && remaining == 0
      modifies this, source
      ensures remaining == old(remaining) && consumed == old(consumed)
      ensures ok ==> Valid() && eofVerified
      ensures ok <==> |content| == size
    {
      if !eofVerified {
        var extra := source.Read(1);
        if extra != [] {
          return false;
        }
        eofVerified := true;
      }
      ok := true;
    }

    method VerifyComplete() returns (ok: bool)
      requires Valid()
      modifies this, source
      ensures consumed == old(consumed)
      ensures ok ==> Valid() && eofVerified
      ensures ok <==> remaining == 0 && |content| == size
      ensures remaining == old(remaining)
    {
      if remaining != 0 {
        return false;
      }
      ok := VerifyEof();
    }

    /** Up to `n` bytes of the declared size, everything that remains when `n` is negative. Empty only when asked for
        nothing, or at a verified end. */
    method Read(n: int) returns (r: Chunk)
      requires Valid()
      modifies this, source
      ensures r.Chunk? ==> Valid() && consumed == old(consumed) + r.data
      ensures r.Chunk? && r.data == [] ==> (remaining == 0 && eofVerified) || (n == 0 && remaining == old(remaining))
      ensures r.Chunk? && n >= 0 ==> |r.data| <= n
      ensures r.Chunk? && r.data != [] ==> remaining < old(remaining)
      ensures r.Chunk? && r.data != [] && remaining == 0 ==> eofVerified && |content| == size
      ensures source.honest && |content| == size ==> r.Chunk?
    {
      if remaining == 0 {
        var ok := VerifyComplete();
        return if ok then Chunk([]) else Refused;
      }
      if n == 0 {
        return Chunk([]);
      }
      var wanted := if n < 0 || n > remaining then remaining else n;
      var data := source.Read(wanted);
      if data == [] {
        return Refused;
      }
      if |data| > wanted {
        return Refused;
      }
      remaining := remaining - |data|;
      consumed := consumed + data;
      if remaining == 0 {
        var ok := VerifyEof();
        if !ok {
          return Refused;
        }
      }
      return Chunk(data);
    }
  }

  const ChunkBytes: nat := 1024 * 1024

  /** Copies a source of a declared size. It succeeds only for a source that holds exactly that many bytes, and for
      every honest one that does; the copy is then the source's content, however it was cut up. */
  method CopyExactly(source: Source, size: int) returns (copy: Option<Bytes>)
    modifies source
    ensures copy.Some? ==> copy.value == old(source.rest) && |copy.value| == size
    ensures source.honest && |old(source.rest)| == size ==> copy.Some?
  {
    if size < 0 {
      return None;
    }
    var reader := new ExactSizeReader(source, size);
    var written: Bytes := [];
    var chunk := reader.Read(ChunkBytes);
    while chunk.Chunk? && chunk.data != []
      invariant chunk.Chunk? ==> reader.Valid() && reader.consumed == written + chunk.data
      invariant chunk.Chunk? && chunk.data == [] ==> reader.eofVerified
      invariant reader.source == source && reader.size == size && reader.content == old(source.rest)
      invariant source.honest && |reader.content| == size ==> chunk.Chunk?
      decreases if chunk.Chunk? && chunk.data != [] then 1 else 0, reader.remaining
      modifies reader, source
    {
      written := written + chunk.data;
      chunk := reader.Read(ChunkBytes);
    }
    if chunk.Refused? {
      return None;
    }
    assert reader.content == written + [] + source.rest;
    var complete := reader.VerifyComplete();
    if !complete {
      return None;
    }
    return Some(written);
  }

  datatype Streamed = Streamed(data: Bytes) | TooLarge | BadLimit

  /** Copies a source of unknown size under a limit, never asking for more than one byte beyond it. */
  method CopyWithin(source: Source, maxBytes: Option<int>) returns (r: Streamed)
    modifies source
    ensures r == if maxBytes.Some? && maxBytes.value < 0 then BadLimit
                 else if maxBytes.Some? && |old(source.rest)| > maxBytes.value then TooLarge
                 else Streamed(old(source.rest))
  {
    if maxBytes.Some? && maxBytes.value < 0 {
      return BadLimit;
    }
    var copied: Bytes := [];
    while true
      invariant old(source.rest) == copied + source.rest
      invariant maxBytes.Some? ==> |copied| <= maxBytes.value
      decreases |source.rest|
      modifies source
    {
      var wanted := ChunkBytes;
      if maxBytes.Some? && maxBytes.value - |copied| + 1 < wanted {
        wanted := maxBytes.value - |copied| + 1;
      }
      var chunk := source.Read(wanted);
      if chunk == [] {
        assert copied + [] == copied;
        return Streamed(copied);
      }
      if maxBytes.Some? && |copied| + |chunk| > maxBytes.value {
        return TooLarge;
      }
      copied := copied + chunk;
    }
  }
}
