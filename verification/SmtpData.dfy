/** The mail body as it goes over the wire, and the receiver of section 4.5.2 of RFC 5321. */
module SmtpData {
  import opened Wrappers
  import opened Sequences
  import opened Octets

  const Dot: Byte := 46
  const Cr: Byte := 13
  const Lf: Byte := 10
  const Crlf: Bytes := [Cr, Lf]
  const End: Bytes := [Dot, Cr, Lf]

  /** Doubles each dot that comes first or right after a line feed. */
  function Stuffed(s: Bytes, first: bool): Bytes {
    if s == [] then []
    else if first && s[0] == Dot then [Dot, Dot] + Stuffed(s[1..], false)
    else [s[0]] + Stuffed(s[1..], s[0] == Lf)
  }

  predicate EndsInCrlf(s: Bytes) {
    |s| >= 2 && s[|s| - 2] == Cr && s[|s| - 1] == Lf
  }

  predicate AtCrlf(s: Bytes) {
    |s| >= 2 && s[0] == Cr && s[1] == Lf
  }

  predicate AtEnd(s: Bytes) {
    |s| >= 3 && s[0] == Dot && s[1] == Cr && s[2] == Lf
  }

  /** The line end that a body without one is given. */
  function Tail(ended: bool): Bytes {
    if ended then [] else Crlf
  }

  function Closing(ended: bool): Bytes {
    Tail(ended) + End
  }

  function Payload(body: Bytes): Bytes {
    var stuffed := Stuffed(body, true);
    stuffed + Closing(EndsInCrlf(stuffed))
  }

  /** Takes lines up to one that is a lone dot, dropping one leading dot from each; gives the text and what follows. */
  function Receive(s: Bytes, start: bool): Option<(Bytes, Bytes)> {
    if start && AtEnd(s) then Some(([], s[3..]))
    else if s == [] then None
    else if start && s[0] == Dot then Receive(s[1..], false)
    else if AtCrlf(s) then Prefixed(Crlf, Receive(s[2..], true))
    else Prefixed([s[0]], Receive(s[1..], false))
  }

  function Prefixed(p: Bytes, r: Option<(Bytes, Bytes)>): Option<(Bytes, Bytes)> {
    if r.None? then None else Some((p + r.value.0, r.value.1))
  }

  // ---- What arrives, for any body ----

  /** The body as it is received: a dot after a line feed that ends no line stays doubled. `start` is the start of a
      line; `bare` says that such a line feed comes just before. */
  function Echo(s: Bytes, start: bool, bare: bool): Bytes {
    if s == [] then []
    else if s[0] == Dot && bare then [Dot, Dot] + Echo(s[1..], false, false)
    else if AtCrlf(s) then Crlf + Echo(s[2..], true, false)
    else [s[0]] + Echo(s[1..], false, s[0] == Lf)
  }

  predicate OnBoundary(s: Bytes, start: bool, ended: bool) {
    ended == ((s == [] && start) || EndsInCrlf(s))
  }

  lemma {:induction false} StuffedCrlf(s: Bytes, first: bool)
    requires AtCrlf(s)
    ensures Stuffed(s, first) == Crlf + Stuffed(s[2..], true)
  {
    assert s[1..][0] == Lf && s[1..][1..] == s[2..];
    assert Stuffed(s[1..], false) == [Lf] + Stuffed(s[2..], true);
    assert [Cr] + ([Lf] + Stuffed(s[2..], true)) == Crlf + Stuffed(s[2..], true);
  }

  lemma {:induction false} ReceiveCrlf(t: Bytes, start: bool)
    ensures Receive(Crlf + t, start) == Prefixed(Crlf, Receive(t, true))
  {
    var s := Crlf + t;
    assert s[0] == Cr && s[1] == Lf && s[2..] == t;
  }

  lemma {:induction false} ReceiveEnd(start: bool)
    ensures Receive(Closing(false), start) == Some((Crlf, []))
    ensures Receive(Closing(true), true) == Some(([], []))
  {
    Trimmed(End);
    assert End[3..] == [];
    assert Receive(End, true) == Some(([], []));
    ReceiveCrlf(End, start);
    Trimmed(Crlf);
  }

  /** An ordinary byte. */
  lemma {:induction false} ReceiveByte(x: Byte, t: Bytes, start: bool)
    requires x == Dot ==> !start
    requires x == Cr && t != [] ==> t[0] != Lf
    ensures Receive([x] + t, start) == Prefixed([x], Receive(t, false))
  {
    var s := [x] + t;
    assert s[0] == x && s[1..] == t && (t != [] ==> s[1] == t[0]);
    assert !AtCrlf(s) && !(start && AtEnd(s));
  }

  /** A doubled dot at the start of a line loses one; elsewhere it keeps both. */
  lemma {:induction false} ReceiveDots(t: Bytes, start: bool)
    ensures Receive([Dot, Dot] + t, start) == Prefixed(if start then [Dot] else [Dot, Dot], Receive(t, false))
  {
    var s := [Dot, Dot] + t;
    assert s[0] == Dot && s[1] == Dot && s[1..] == [Dot] + t;
    ReceiveByte(Dot, t, false);
    if !start {
      assert s == [Dot] + ([Dot] + t);
      ReceiveByte(Dot, [Dot] + t, false);
      var r := Receive(t, false);
      if r.Some? {
        assert [Dot] + ([Dot] + r.value.0) == [Dot, Dot] + r.value.0;
      }
    }
  }

  /** The received text when the stuffed rest of a body and its closing follow. */
  ghost predicate Arrives(s: Bytes, start: bool, bare: bool, ended: bool) {
    Receive(Stuffed(s, start || bare) + Closing(ended), start) == Some((Echo(s, start, bare) + Tail(ended), []))
  }

  lemma {:induction false} EchoArrives(s: Bytes, start: bool, bare: bool, ended: bool)
    requires OnBoundary(s, start, ended) && !(start && bare)
    ensures Arrives(s, start, bare, ended)
    decreases |s|
  {
    if s == [] {
      ReceiveEnd(start);
      Trimmed(Closing(ended));
      Trimmed(Tail(ended));
    } else if s[0] == Dot && (start || bare) {
      EchoArrives(s[1..], false, false, ended);
      EchoDot(s, start, bare, ended);
    } else if AtCrlf(s) {
      EchoArrives(s[2..], true, false, ended);
      EchoCrlf(s, start, bare, ended);
    } else {
      EchoArrives(s[1..], false, s[0] == Lf, ended);
      EchoByte(s, start, bare, ended);
    }
  }

  lemma {:induction false} EchoDot(s: Bytes, start: bool, bare: bool, ended: bool)
    requires !(start && bare) && s != [] && s[0] == Dot && (start || bare)
    requires Arrives(s[1..], false, false, ended)
    ensures Arrives(s, start, bare, ended)
  {
    var t := s[1..];
    Associates([Dot, Dot], Stuffed(t, false), Closing(ended));
    ReceiveDots(Stuffed(t, false) + Closing(ended), start);
    Associates(if start then [Dot] else [Dot, Dot], Echo(t, false, false), Tail(ended));
    assert Echo(s, start, bare) == (if start then [Dot] else [Dot, Dot]) + Echo(t, false, false);
  }

  lemma {:induction false} EchoCrlf(s: Bytes, start: bool, bare: bool, ended: bool)
    requires AtCrlf(s) && Arrives(s[2..], true, false, ended)
    ensures Arrives(s, start, bare, ended)
  {
    var t := s[2..];
    StuffedCrlf(s, start || bare);
    Associates(Crlf, Stuffed(t, true), Closing(ended));
    ReceiveCrlf(Stuffed(t, true) + Closing(ended), start);
    Associates(Crlf, Echo(t, true, false), Tail(ended));
  }

  lemma {:induction false} EchoByte(s: Bytes, start: bool, bare: bool, ended: bool)
    requires s != [] && !AtCrlf(s) && !(s[0] == Dot && (start || bare))
    requires Arrives(s[1..], false, s[0] == Lf, ended)
    ensures Arrives(s, start, bare, ended)
  {
    var x, t := s[0], s[1..];
    var stuffed := Stuffed(t, x == Lf);
    Associates([x], stuffed, Closing(ended));
    if x == Cr {
      NoLf(s, ended);
    }
    ReceiveByte(x, stuffed + Closing(ended), start);
    Associates([x], Echo(t, false, x == Lf), Tail(ended));
  }

  /** A carriage return that ends no line is not made to. */
  lemma {:induction false} NoLf(s: Bytes, ended: bool)
    requires s != [] && !AtCrlf(s) && s[0] == Cr
    ensures (Stuffed(s[1..], false) + Closing(ended))[0] != Lf
  {
    var t := s[1..];
    assert Closing(ended)[0] == if ended then Dot else Cr;
    if t == [] {
      Trimmed(Closing(ended));
    } else {
      assert t[0] == s[1] && Stuffed(t, false)[0] == t[0];
    }
  }

  // ---- When the body survives ----

  /** A line feed that ends no line, with a dot right after it. */
  predicate BareLfDot(s: Bytes, i: nat) {
    i + 1 < |s| && s[i] == Lf && s[i + 1] == Dot && (i == 0 || s[i - 1] != Cr)
  }

  predicate Transparent(s: Bytes) {
    forall i :: 0 <= i < |s| ==> !BareLfDot(s, i)
  }

  lemma {:induction false} EchoGrows(s: Bytes, start: bool, bare: bool)
    ensures |Echo(s, start, bare)| >= |s|
    decreases |s|
  {
    if s != [] {
      if s[0] == Dot && bare {
        EchoGrows(s[1..], false, false);
      } else if AtCrlf(s) {
        EchoGrows(s[2..], true, false);
      } else {
        EchoGrows(s[1..], false, s[0] == Lf);
      }
    }
  }

  /** Nothing is doubled for good exactly when no bare line feed precedes a dot. */
  lemma {:induction false} EchoIsSame(s: Bytes, start: bool, bare: bool)
    ensures Echo(s, start, bare) == s <==> Transparent(s) && !(bare && s != [] && s[0] == Dot)
    decreases |s|
  {
    if s != [] {
      if s[0] == Dot && bare {
        EchoGrows(s[1..], false, false);
        assert |Echo(s, start, bare)| > |s|;
      } else if AtCrlf(s) {
        var t := s[2..];
        EchoIsSame(t, true, false);
        TransparentCrlf(s);
        assert s == Crlf + t;
        SamePrefix(Crlf, Echo(t, true, false), t);
      } else {
        var t := s[1..];
        EchoIsSame(t, false, s[0] == Lf);
        TransparentStep(s);
        assert s == [s[0]] + t;
        SamePrefix([s[0]], Echo(t, false, s[0] == Lf), t);
      }
    }
  }

  lemma SamePrefix(p: Bytes, a: Bytes, b: Bytes)
    ensures p + a == p + b <==> a == b
  {
    if p + a == p + b {
      assert a == (p + a)[|p|..] && b == (p + b)[|p|..];
    }
  }

  lemma {:induction false} TransparentStep(s: Bytes)
    requires s != [] && !AtCrlf(s)
    ensures Transparent(s) <==> Transparent(s[1..]) && !(s[0] == Lf && |s| > 1 && s[1] == Dot)
  {
    var t := s[1..];
    forall i | 0 <= i < |t|
      ensures BareLfDot(t, i) <==> BareLfDot(s, i + 1)
    {}
    assert BareLfDot(s, 0) <==> s[0] == Lf && |s| > 1 && s[1] == Dot;
    assert Transparent(s) ==> Transparent(t);
    assert forall i :: 0 < i < |s| ==> BareLfDot(s, i) == BareLfDot(t, i - 1);
  }

  lemma {:induction false} TransparentCrlf(s: Bytes)
    requires AtCrlf(s)
    ensures Transparent(s) <==> Transparent(s[2..])
  {
    var t := s[2..];
    assert s[0] == Cr && s[1] == Lf;
    forall i | 0 <= i < |t|
      ensures BareLfDot(t, i) <==> BareLfDot(s, i + 2)
    {}
    assert !BareLfDot(s, 0) && !BareLfDot(s, 1);
    assert forall i :: 2 <= i < |s| ==> BareLfDot(s, i) == BareLfDot(t, i - 2);
  }

  lemma {:induction false} StuffedEnds(s: Bytes, first: bool)
    ensures EndsInCrlf(Stuffed(s, first)) == EndsInCrlf(s) && |Stuffed(s, first)| >= |s|
  {
    if s != [] {
      var dotted := first && s[0] == Dot;
      var next := !dotted && s[0] == Lf;
      var head, rest := if dotted then [Dot, Dot] else [s[0]], Stuffed(s[1..], next);
      StuffedEnds(s[1..], next);
      assert Stuffed(s, first) == head + rest;
      if |s| == 2 {
        assert s[1..][1..] == [];
        assert rest == if next && s[1] == Dot then [Dot, Dot] else [s[1]];
      }
      assert |s| == 1 ==> s[1..] == [] && rest == [];
    }
  }

  /** The receiver reads the whole payload and stops at its end, for every body; it recovers exactly the body, with
      a final line end if that was missing, if and only if no bare line feed is followed by a dot. */
  lemma {:induction false} TransparencyIff(body: Bytes)
    ensures Receive(Payload(body), true).Some? && Receive(Payload(body), true).value.1 == []
    ensures Receive(Payload(body), true) == Some((body + Tail(EndsInCrlf(body)), [])) <==> Transparent(body)
  {
    var ended := EndsInCrlf(body);
    var echo := Echo(body, true, false);
    StuffedEnds(body, true);
    if body == [] {
      ReceiveEnd(true);
      Trimmed(Closing(false));
      Trimmed(Crlf);
    } else {
      EchoArrives(body, true, false, ended);
    }
    assert Receive(Payload(body), true) == Some((echo + Tail(ended), []));
    EchoIsSame(body, true, false);
    SameSuffix(echo, body, Tail(ended));
  }

  lemma SameSuffix(a: Bytes, b: Bytes, p: Bytes)
    ensures a + p == b + p <==> a == b
  {
    if a + p == b + p {
      assert |a| == |b|;
      assert a == (a + p)[..|a|] && b == (b + p)[..|b|];
    }
  }

  /** In particular every body whose line feeds all belong to line ends. */
  lemma {:induction false} CrlfBodiesSurvive(body: Bytes)
    requires forall i :: 0 <= i < |body| && body[i] == Lf ==> i > 0 && body[i - 1] == Cr
    ensures Receive(Payload(body), true) == Some((body + Tail(EndsInCrlf(body)), []))
  {
    TransparencyIff(body);
  }

  /** A bare line feed before a dot: the receiver gets one dot too many. */
  lemma {:induction false} BareLineFeedChanges()
    ensures !Transparent([Lf, Dot])
    ensures Receive(Payload([Lf, Dot]), true) == Some(([Lf, Dot, Dot, Cr, Lf], []))
  {
    var body := [Lf, Dot];
    assert BareLfDot(body, 0);
    StuffedEnds(body, true);
    EchoArrives(body, true, false, false);
    assert body[1..] == [Dot] && [Dot][1..] == [];
    assert Echo([Dot], false, true) == [Dot, Dot] + Echo([], false, false);
    assert Echo(body, true, false) == [Lf, Dot, Dot];
    assert Payload(body) == Stuffed(body, true) + Closing(false);
    assert [Lf, Dot, Dot] + Tail(false) == [Lf, Dot, Dot, Cr, Lf];
  }
}
