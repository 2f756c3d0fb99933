/** Page cursors: a position in the log as text that a client hands back. */
module Cursors {
  import opened Wrappers
  import opened Octets
  import Base64
  import opened AuditTime

  const MaxCursorLength: nat := 512

  datatype Key = Key(at: Instant, id: string)

  /** The JSON array of an ISO timestamp and an id, as bytes and back. `load` gives nothing for any other document. */
  datatype Json = Json(dump: Key -> Bytes, load: Bytes -> Option<Key>)

  /** JSON and ISO timestamps lose nothing, and an array of two strings is never the empty document. */
  ghost predicate Faithful(j: Json) {
    forall k :: j.load(j.dump(k)) == Some(k) && j.dump(k) != []
  }

  function Encode(j: Json, k: Key): string {
    Base64.Encode(j.dump(k))
  }

  /** `None` is the refusal of a cursor this module did not produce. */
  function Decode(j: Json, cursor: string): Option<Key> {
    if cursor == "" || |cursor| > MaxCursorLength then None
    else
      var bytes := Base64.Decode(cursor);
      if bytes.None? then None
      else
        var key := j.load(bytes.value);
        if key.None? || key.value.id == "" then None else key
  }

  /** A cursor decodes to exactly what was encoded if and only if the id is not empty and the text is not too long. */
  lemma {:induction false} DecodesIff(j: Json, k: Key)
    requires Faithful(j)
    ensures Decode(j, Encode(j, k)) == Some(k) <==> k.id != "" && |Encode(j, k)| <= MaxCursorLength
    ensures Decode(j, Encode(j, k)).Some? ==> Decode(j, Encode(j, k)) == Some(k)
  {
    Base64.RoundTrip(j.dump(k));
    assert j.load(j.dump(k)) == Some(k);
    assert Encode(j, k) != "";
  }

  /** The same condition on the document itself, before it is encoded. */
  lemma {:induction false} LengthIff(j: Json, k: Key)
    ensures |Encode(j, k)| <= MaxCursorLength <==> |j.dump(k)| <= 384
  {
    Base64.RoundTrip(j.dump(k));
  }

  /** A row without an id gets a cursor, and that cursor is refused. */
  lemma {:induction false} EmptyIdRefused(j: Json, at: Instant)
    requires Faithful(j)
    ensures Encode(j, Key(at, "")) != "" && Decode(j, Encode(j, Key(at, ""))) == None
  {
    Base64.RoundTrip(j.dump(Key(at, "")));
    assert j.load(j.dump(Key(at, ""))) == Some(Key(at, ""));
    assert j.dump(Key(at, "")) != [];
    DecodesIff(j, Key(at, ""));
  }
}
