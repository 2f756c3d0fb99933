/** URL-safe base64 of section 5 of RFC 4648: padded encoding, and a decoder as strict as the library's. */
module Base64 {
  import opened Wrappers
  import opened Octets

  function CharOf(v: nat): char
    requires v < 64
  {
    if v < 26 then 'A' + v as char
    else if v < 52 then 'a' + (v - 26) as char
    else if v < 62 then '0' + (v - 52) as char
    else if v == 62 then '-' else '_'
  }

  /** The value of a character; the two characters of the ordinary alphabet are accepted as well. */
  function ValueOf(c: char): (v: Option<nat>)
    ensures v.Some? ==> v.value < 64
  {
    if 'A' <= c <= 'Z' then Some(c as int - 'A' as int)
    else if 'a' <= c <= 'z' then Some(c as int - 'a' as int + 26)
    else if '0' <= c <= '9' then Some(c as int - '0' as int + 52)
    else if c == '-' || c == '+' then Some(62)
    else if c == '_' || c == '/' then Some(63)
    else None
  }

  lemma CharValue(v: nat)
    requires v < 64
    ensures ValueOf(CharOf(v)) == Some(v) && CharOf(v) != '='
  {}

  function Group1(x: Byte): (s: string)
    ensures |s| == 4
  {
    [CharOf(x as int / 4), CharOf(x as int % 4 * 16), '=', '=']
  }

  function Group2(x: Byte, y: Byte): (s: string)
    ensures |s| == 4
  {
    [CharOf(x as int / 4), CharOf(x as int % 4 * 16 + y as int / 16), CharOf(y as int % 16 * 4), '=']
  }

  function Group3(x: Byte, y: Byte, z: Byte): (s: string)
    ensures |s| == 4
  {
    [CharOf(x as int / 4), CharOf(x as int % 4 * 16 + y as int / 16), CharOf(y as int % 16 * 4 + z as int / 64),
     CharOf(z as int % 64)]
  }

  /** Every three bytes become four characters; a last group of one or two is padded. */
  function Padded(b: Bytes): string {
    if |b| == 0 then ""
    else if |b| == 1 then Group1(b[0])
    else if |b| == 2 then Group2(b[0], b[1])
    else Group3(b[0], b[1], b[2]) + Padded(b[3..])
  }

  function Stripped(s: string): string {
    if s != [] && s[|s| - 1] == '=' then Stripped(s[..|s| - 1]) else s
  }

  /** Encoded without padding. */
  function Encode(b: Bytes): string {
    Stripped(Padded(b))
  }

  function One(p: nat, q: nat): Bytes
    requires p < 64 && q < 64
  {
    [(p * 4 + q / 16) as Byte]
  }

  function Two(p: nat, q: nat, r: nat): Bytes
    requires p < 64 && q < 64 && r < 64
  {
    One(p, q) + [(q % 16 * 16 + r / 4) as Byte]
  }

  function Three(p: nat, q: nat, r: nat, s: nat): Bytes
    requires p < 64 && q < 64 && r < 64 && s < 64
  {
    Two(p, q, r) + [(r % 4 * 64 + s) as Byte]
  }

  /** Whole groups of four; padding only at the very end, at most two of it. */
  function DecodePadded(s: string): Option<Bytes> {
    if s == "" then Some([])
    else if |s| < 4 || ValueOf(s[0]).None? || ValueOf(s[1]).None? then None
    else
      var p, q := ValueOf(s[0]).value, ValueOf(s[1]).value;
      if s[2] == '=' then if s[3] == '=' && |s| == 4 then Some(One(p, q)) else None
      else if ValueOf(s[2]).None? then None
      else if s[3] == '=' then if |s| == 4 then Some(Two(p, q, ValueOf(s[2]).value)) else None
      else if ValueOf(s[3]).None? then None
      else
        var rest := DecodePadded(s[4..]);
        if rest.None? then None else Some(Three(p, q, ValueOf(s[2]).value, ValueOf(s[3]).value) + rest.value)
  }

  function Pads(n: nat): string {
    if n == 0 then "" else Pads(n - 1) + "="
  }

  /** Puts back the padding that brings the length to a multiple of four. */
  function Decode(s: string): Option<Bytes> {
    DecodePadded(s + Pads((4 - |s| % 4) % 4))
  }

  // ---- Round trip ----

  /** How many groups `n` bytes make, and how much padding the last one has. */
  function Groups(n: nat): nat {
    if n == 0 then 0 else if n < 3 then 1 else 1 + Groups(n - 3)
  }

  function PadCount(n: nat): (k: nat)
    ensures k <= 2
  {
    if n == 0 then 0 else if n < 3 then 3 - n else PadCount(n - 3)
  }

  lemma {:induction false} GroupsCount(n: nat)
    ensures 3 * Groups(n) == n + PadCount(n)
  {
    if n >= 3 {
      GroupsCount(n - 3);
    }
  }

  lemma {:induction false} StrippedPads(s: string, n: nat)
    requires s == "" || s[|s| - 1] != '='
    ensures Stripped(s + Pads(n)) == s
  {
    if n == 0 {
      assert s + Pads(0) == s;
    } else {
      assert (s + Pads(n))[..|s + Pads(n)| - 1] == s + Pads(n - 1);
      StrippedPads(s, n - 1);
    }
  }

  predicate Bare(s: string) {
    forall i :: 0 <= i < |s| ==> s[i] != '='
  }

  /** The padded text is the bare one and its padding. */
  lemma {:induction false} PaddedSplits(b: Bytes) returns (bare: string)
    ensures Padded(b) == bare + Pads(PadCount(|b|)) && Bare(bare) && |Padded(b)| == 4 * Groups(|b|)
  {
    if |b| < 3 {
      bare := LastSplits(b);
    } else {
      var tail := PaddedSplits(b[3..]);
      bare := Group3(b[0], b[1], b[2]) + tail;
      Prepends(Group3(b[0], b[1], b[2]), tail, Pads(PadCount(|b|)));
    }
  }

  lemma {:induction false} LastSplits(b: Bytes) returns (bare: string)
    requires |b| < 3
    ensures Padded(b) == bare + Pads(PadCount(|b|)) && Bare(bare) && |Padded(b)| == 4 * Groups(|b|)
  {
    assert Pads(0) == "" && Pads(1) == "=" && Pads(2) == "==";
    if |b| == 0 {
      bare := "";
    } else if |b| == 1 {
      bare := Group1(b[0])[..2];
      assert Group1(b[0]) == bare + "==";
    } else {
      bare := Group2(b[0], b[1])[..3];
      assert Group2(b[0], b[1]) == bare + "=";
    }
  }

  lemma Prepends(head: string, tail: string, pads: string)
    ensures head + (tail + pads) == (head + tail) + pads
  {}

  // Six-bit values back into eight-bit ones.

  lemma {:induction false} Regroup2(x: nat, y: nat)
    requires x < 256 && y < 256
    ensures var q := x % 4 * 16 + y / 16; q < 64 && q / 16 == x % 4 && q % 16 == y / 16
  {
    var a, b := x % 4, y / 16;
    assert b < 16;
    assert (a * 16 + b) / 16 == a;
  }

  lemma {:induction false} Regroup3(y: nat, z: nat)
    requires y < 256 && z < 256
    ensures var r := y % 16 * 4 + z / 64; r < 64 && r / 4 == y % 16 && r % 4 == z / 64
  {
    var a, b := y % 16, z / 64;
    assert b < 4;
    assert (a * 4 + b) / 4 == a;
  }

  lemma {:induction false} CharsDecode(p: nat, q: nat, r: nat, s: nat, rest: string)
    requires p < 64 && q < 64 && r < 64 && s < 64 && DecodePadded(rest).Some?
    ensures DecodePadded([CharOf(p), CharOf(q), CharOf(r), CharOf(s)] + rest)
         == Some(Three(p, q, r, s) + DecodePadded(rest).value)
  {
    CharValue(p);
    CharValue(q);
    CharValue(r);
    CharValue(s);
    var text := [CharOf(p), CharOf(q), CharOf(r), CharOf(s)] + rest;
    assert text[4..] == rest;
    assert text[0] == CharOf(p) && text[1] == CharOf(q) && text[2] == CharOf(r) && text[3] == CharOf(s);
  }

  lemma {:induction false} LastCharsDecode(p: nat, q: nat, r: nat)
    requires p < 64 && q < 64 && r < 64
    ensures DecodePadded([CharOf(p), CharOf(q), '=', '=']) == Some(One(p, q))
    ensures DecodePadded([CharOf(p), CharOf(q), CharOf(r), '=']) == Some(Two(p, q, r))
  {
    CharValue(p);
    CharValue(q);
    CharValue(r);
  }

  lemma {:induction false} Group1Decodes(x: Byte)
    ensures DecodePadded(Group1(x)) == Some([x])
  {
    var n := x as int;
    LastCharsDecode(n / 4, n % 4 * 16, 0);
    assert n % 4 * 16 / 16 == n % 4;
  }

  lemma {:induction false} Group2Decodes(x: Byte, y: Byte)
    ensures DecodePadded(Group2(x, y)) == Some([x, y])
  {
    var a := y as int % 16;
    var p, q, r := x as int / 4, x as int % 4 * 16 + y as int / 16, a * 4;
    Regroup2(x as int, y as int);
    assert r / 4 == a;
    LastCharsDecode(p, q, r);
    assert Two(p, q, r) == [x, y];
  }

  lemma {:induction false} Group3Decodes(x: Byte, y: Byte, z: Byte, rest: string)
    requires DecodePadded(rest).Some?
    ensures DecodePadded(Group3(x, y, z) + rest) == Some([x, y, z] + DecodePadded(rest).value)
  {
    Regroup2(x as int, y as int);
    Regroup3(y as int, z as int);
    var p, q, r, s := x as int / 4, x as int % 4 * 16 + y as int / 16, y as int % 16 * 4 + z as int / 64, z as int % 64;
    CharsDecode(p, q, r, s, rest);
    assert Three(p, q, r, s) == [x, y, z];
  }

  lemma {:induction false} DecodesPadded(b: Bytes)
    ensures DecodePadded(Padded(b)) == Some(b)
  {
    if |b| == 1 {
      Group1Decodes(b[0]);
      assert b == [b[0]];
    } else if |b| == 2 {
      Group2Decodes(b[0], b[1]);
      assert b == [b[0], b[1]];
    } else if |b| >= 3 {
      DecodesPadded(b[3..]);
      Group3Decodes(b[0], b[1], b[2], Padded(b[3..]));
      assert b == [b[0], b[1], b[2]] + b[3..];
    }
  }

  /** Every byte string is recovered, through text without padding. */
  lemma {:induction false} RoundTrip(b: Bytes)
    ensures Decode(Encode(b)) == Some(b)
    ensures Bare(Encode(b)) && 3 * |Encode(b)| + PadCount(|b|) * 3 == 4 * (|b| + PadCount(|b|))
  {
    var bare := PaddedSplits(b);
    StrippedPads(bare, PadCount(|b|));
    PadsLength(PadCount(|b|));
    GroupsCount(|b|);
    MissingPads(|bare|, Groups(|b|), PadCount(|b|));
    DecodesPadded(b);
  }

  lemma MissingPads(n: nat, groups: nat, pads: nat)
    requires n + pads == 4 * groups && pads <= 2
    ensures (4 - n % 4) % 4 == pads
  {}

  lemma {:induction false} PadsLength(n: nat)
    ensures |Pads(n)| == n
  {
    if n > 0 {
      PadsLength(n - 1);
    }
  }

  // ---- The alphabet, the bits, and what is refused ----

  /** Table 2 of section 5 of RFC 4648: letters, digits, minus and underscore, in that order. */
  const Upper := "ABCDEFGHIJKLMNOPQRSTUVWXYZ"
  const Lower := "abcdefghijklmnopqrstuvwxyz"
  const Rest := "0123456789-_"
  const Alphabet := Upper + Lower + Rest

  /** A value is the place of its character in the alphabet. Besides those, only the plus and the slash of the ordinary
      alphabet are read, as the last two. */
  lemma {:induction false} AlphabetPlaces(v: nat, c: char)
    requires v < 64
    ensures |Alphabet| == 64 && CharOf(v) == Alphabet[v]
    ensures ValueOf(c) == Some(v) <==> c == Alphabet[v] || (v == 62 && c == '+') || (v == 63 && c == '/')
  {
    assert Alphabet[v] == if v < 26 then Upper[v] else if v < 52 then Lower[v - 26] else Rest[v - 52];
    if v < 26 {
      UpperCase(v);
    } else if v < 52 {
      LowerCase(v - 26);
    } else if v < 62 {
      Figures(v - 52);
    }
  }

  lemma {:induction false} UpperCase(k: nat)
    requires k < 26
    ensures Upper[k] as int == 'A' as int + k
  {
    assert k == 0 || k == 1 || k == 2 || k == 3 || k == 4 || k == 5 || k == 6 || k == 7 || k == 8 || k == 9 || k == 10
        || k == 11 || k == 12 || k == 13 || k == 14 || k == 15 || k == 16 || k == 17 || k == 18 || k == 19 || k == 20
        || k == 21 || k == 22 || k == 23 || k == 24 || k == 25;
  }

  lemma {:induction false} LowerCase(k: nat)
    requires k < 26
    ensures Lower[k] as int == 'a' as int + k
  {
    assert k == 0 || k == 1 || k == 2 || k == 3 || k == 4 || k == 5 || k == 6 || k == 7 || k == 8 || k == 9 || k == 10
        || k == 11 || k == 12 || k == 13 || k == 14 || k == 15 || k == 16 || k == 17 || k == 18 || k == 19 || k == 20
        || k == 21 || k == 22 || k == 23 || k == 24 || k == 25;
  }

  lemma {:induction false} Figures(k: nat)
    requires k < 10
    ensures Rest[k] as int == '0' as int + k
  {
    assert k == 0 || k == 1 || k == 2 || k == 3 || k == 4 || k == 5 || k == 6 || k == 7 || k == 8 || k == 9;
  }

  /** Three bytes and their four characters are one 24-bit number, most significant part first. */
  lemma {:induction false} GroupIsNumber(x: Byte, y: Byte, z: Byte)
    ensures var g := Group3(x, y, z);
            && (forall i :: 0 <= i < 4 ==> ValueOf(g[i]).Some?)
            && ((ValueOf(g[0]).value * 64 + ValueOf(g[1]).value) * 64 + ValueOf(g[2]).value) * 64 + ValueOf(g[3]).value
               == (x as int * 256 + y as int) * 256 + z as int
  {
    var a, b, c := x as int, y as int, z as int;
    CharValue(a / 4);
    CharValue(a % 4 * 16 + b / 16);
    CharValue(b % 16 * 4 + c / 64);
    CharValue(c % 64);
    assert a == a / 4 * 4 + a % 4 && b == b / 16 * 16 + b % 16 && c == c / 64 * 64 + c % 64;
  }

  /** The text of a decodable input: whole groups of the alphabet, at most two padding characters at the very end. */
  predicate WellFormed(s: string) {
    && |s| % 4 == 0
    && forall i :: 0 <= i < |s| ==> PlacedRight(s, i)
  }

  predicate PlacedRight(s: string, i: nat)
    requires i < |s|
  {
    ValueOf(s[i]).Some? || (s[i] == '=' && (i == |s| - 1 || (i == |s| - 2 && s[|s| - 1] == '=')))
  }

  /** Only the last group may be padded. */
  lemma {:induction false} FirstGroup(s: string)
    requires |s| > 4
    ensures WellFormed(s) <==>
            && WellFormed(s[4..])
            && ValueOf(s[0]).Some? && ValueOf(s[1]).Some? && ValueOf(s[2]).Some? && ValueOf(s[3]).Some?
  {
    var t := s[4..];
    if |s| % 4 == 0 {
      assert forall i :: 0 <= i < 4 ==> (PlacedRight(s, i) <==> ValueOf(s[i]).Some?);
      forall i | 0 <= i < |t|
        ensures PlacedRight(t, i) <==> PlacedRight(s, i + 4)
      {}
      assert forall i :: 4 <= i < |s| ==> (PlacedRight(s, i) <==> PlacedRight(t, i - 4));
    }
  }

  /** Everything else is refused. */
  lemma {:induction false} DecodesOnlyWellFormed(s: string)
    ensures DecodePadded(s).Some? <==> WellFormed(s)
  {
    if |s| > 4 {
      DecodesOnlyWellFormed(s[4..]);
      FirstGroup(s);
    } else if |s| == 4 {
      LastGroup(s);
    } else if |s| > 0 {
      assert !WellFormed(s);
    }
  }

  lemma {:induction false} LastGroup(s: string)
    requires |s| == 4
    ensures DecodePadded(s).Some? <==> WellFormed(s)
  {
    assert s[4..] == "" && DecodePadded("") == Some([]);
    assert WellFormed(s) <==> PlacedRight(s, 0) && PlacedRight(s, 1) && PlacedRight(s, 2) && PlacedRight(s, 3);
    assert ValueOf('=').None?;
  }
}
