/** Checkpoints, what their hash covers, and why the chain is tamper-evident. */
module AuditChain {
  import opened Wrappers
  import opened AuditTime
  import opened AuditLog

  ghost predicate OneLine(s: string) {
    '\n' !in s
  }

  /** A canonical row: JSON on one line. */
  type Line = s: string | OneLine(s) ghost witness []
  /** A SHA-256 digest in hexadecimal. */
  type Hex = s: string | |s| == 64 && OneLine(s) ghost witness seq(64, i => '0')

  type Key = nat
  type Signature = string

  /** What a checkpoint's signature covers. */
  datatype Message = Message(instance: string, start: Instant, end: Instant, rowCount: nat, hash: string,
                             prevHash: Option<string>, days: int, hold: bool)

  /** The library functions the code calls: any total functions of the right shape. */
  datatype Primitives = Primitives(
    sha: string -> Hex,
    canon: Row -> Line,
    sign: (Key, Message) -> Signature,
    keyId: Key -> string)

  /** One row of the checkpoint table, as stored: nothing in it can be trusted. */
  datatype Checkpoint = Checkpoint(start: Instant, end: Instant, rowCount: nat, hash: string,
                                   prevHash: Option<string>, days: int, hold: bool,
                                   signature: Option<Signature>, keyId: Option<string>)

  function LinkText(prev: Option<string>): string {
    if prev.Some? then prev.value else ""
  }

  /** The bytes hashed for a window: every canonical row and a newline, then the previous hash. */
  function Encode(lines: seq<string>, link: string): string {
    if lines == [] then link else lines[0] + "\n" + Encode(lines[1..], link)
  }

  function Lines(p: Primitives, rows: seq<Row>): (lines: seq<string>)
    ensures |lines| == |rows|
  {
    seq(|rows|, i requires 0 <= i < |rows| => p.canon(rows[i]))
  }

  function Preimage(p: Primitives, rows: seq<Row>, prev: Option<string>): string {
    Encode(Lines(p, rows), LinkText(prev))
  }

  function DigestOf(p: Primitives, rows: seq<Row>, prev: Option<string>): string {
    p.sha(Preimage(p, rows, prev))
  }

  datatype Digest = Digest(rowCount: nat, hash: string)

  /** The digest of a window of a table, through the canonical order. */
  ghost function WindowDigest(p: Primitives, rows: set<Row>, start: Instant, end: Instant, prev: Option<string>): Digest
    requires DistinctKeys(rows)
  {
    var ordered := Ordered(Window(rows, start, end));
    Digest(|ordered|, DigestOf(p, ordered, prev))
  }

  lemma {:induction false} EncodeAppend(lines: seq<string>, line: string, link: string)
    ensures Encode(lines + [line], link) == Encode(lines, "") + line + "\n" + link
  {
    if lines == [] {
      assert Encode([line], link) == line + "\n" + Encode([], link);
    } else {
      EncodeAppend(lines[1..], line, link);
      assert (lines + [line])[1..] == lines[1..] + [line];
      assert lines[0] + "\n" + (Encode(lines[1..], "") + line + "\n" + link)
          == (lines[0] + "\n" + Encode(lines[1..], "")) + line + "\n" + link;
    }
  }

  lemma {:induction false} EncodeLink(lines: seq<string>, link: string)
    ensures Encode(lines, "") + link == Encode(lines, link)
  {
    if lines != [] {
      EncodeLink(lines[1..], link);
      assert lines[0] + "\n" + Encode(lines[1..], "") + link == lines[0] + "\n" + (Encode(lines[1..], "") + link);
    }
  }

  lemma HashedPrefix(p: Primitives, rows: seq<Row>, i: nat)
    requires i < |rows|
    ensures Encode(Lines(p, rows[..i + 1]), "") == Encode(Lines(p, rows[..i]), "") + (p.canon(rows[i]) + "\n")
  {
    EncodeAppend(Lines(p, rows[..i]), p.canon(rows[i]), "");
    assert Lines(p, rows[..i + 1]) == Lines(p, rows[..i]) + [p.canon(rows[i])];
  }

  /** Reads, orders, feeds the hasher row by row and counts: the same digest whatever order the database used. */
  method ComputeDigest(p: Primitives, rows: set<Row>, start: Instant, end: Instant, prev: Option<string>)
    returns (digest: Digest)
    requires DistinctKeys(rows)
    ensures digest == WindowDigest(p, rows, start, end, prev)
  {
    var fetched := SelectWindow(rows, start, end);
    var ordered := WindowRows(fetched);
    var content, count := "", 0;
    assert Lines(p, ordered[..0]) == [];
    for i := 0 to |ordered|
      invariant count == i
      invariant content == Encode(Lines(p, ordered[..i]), "")
    {
      HashedPrefix(p, ordered, i);
      content, count := content + (p.canon(ordered[i]) + "\n"), count + 1;
    }
    assert ordered[..|ordered|] == ordered;
    EncodeLink(Lines(p, ordered), LinkText(prev));
    content := content + LinkText(prev);
    digest := Digest(count, p.sha(content));
  }

  /** Newline-terminated lines followed by a one-line link decode in one way only. */
  lemma {:induction false} EncodeInjective(a: seq<string>, x: string, b: seq<string>, y: string)
    requires (forall l :: l in a ==> OneLine(l)) && (forall l :: l in b ==> OneLine(l))
    requires OneLine(x) && OneLine(y)
    requires Encode(a, x) == Encode(b, y)
    ensures a == b && x == y
  {
    if a == [] || b == [] {
      EncodeOneLine(a, x);
      EncodeOneLine(b, y);
    } else {
      var e, f := Encode(a[1..], x), Encode(b[1..], y);
      assert OneLine(a[0]) && OneLine(b[0]);
      FirstLine(a[0], e, b[0], f);
      EncodeInjective(a[1..], x, b[1..], y);
      assert a == [a[0]] + a[1..] && b == [b[0]] + b[1..];
    }
  }

  lemma EncodeOneLine(a: seq<string>, x: string)
    requires OneLine(x)
    ensures OneLine(Encode(a, x)) <==> a == []
  {
    if a != [] {
      assert Encode(a, x)[|a[0]|] == '\n';
    }
  }

  lemma FirstLine(a: string, e: string, b: string, f: string)
    requires OneLine(a) && OneLine(b) && a + "\n" + e == b + "\n" + f
    ensures a == b && e == f
  {
    var s := a + "\n" + e;
    assert s[|a|] == '\n' && s[|b|] == '\n';
    assert forall i :: 0 <= i < |a| ==> s[i] == a[i];
    assert forall i :: 0 <= i < |b| ==> s[i] == b[i] by { assert s == b + "\n" + f; }
    assert |a| == |b|;
    assert a == s[..|a|] && b == (b + "\n" + f)[..|b|];
    assert e == s[|a| + 1..] && f == (b + "\n" + f)[|b| + 1..];
  }

  /** Two different inputs with one digest. */
  ghost predicate Collision(p: Primitives, x: string, y: string) {
    x != y && p.sha(x) == p.sha(y)
  }

  ghost predicate InjectiveCanon(p: Primitives) {
    forall r, s :: p.canon(r) == p.canon(s) ==> r == s
  }

  /** Equal digests come from equal rows and equal links, or exhibit a collision. */
  lemma DigestBinding(p: Primitives, rows: seq<Row>, prev: Option<string>, rows': seq<Row>, prev': Option<string>)
    requires InjectiveCanon(p)
    requires OneLine(LinkText(prev)) && OneLine(LinkText(prev'))
    requires DigestOf(p, rows, prev) == DigestOf(p, rows', prev')
    requires !Collision(p, Preimage(p, rows, prev), Preimage(p, rows', prev'))
    ensures rows == rows' && LinkText(prev) == LinkText(prev')
  {
    EncodeInjective(Lines(p, rows), LinkText(prev), Lines(p, rows'), LinkText(prev'));
    assert |rows| == |Lines(p, rows)| == |rows'|;
    forall i | 0 <= i < |rows|
      ensures rows[i] == rows'[i]
    {
      assert Lines(p, rows)[i] == p.canon(rows[i]) && Lines(p, rows')[i] == p.canon(rows'[i]);
    }
  }
}
