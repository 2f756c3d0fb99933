/** Time-ordered identifiers: version 7 UUIDs of RFC 9562, strictly increasing within a process. */
module Uuid7 {
  import opened Bits
  import Text

  const CounterLimit: nat := 4096
  const CounterStart: nat := 2048

  datatype State = State(milliseconds: nat, counter: nat)

  /** What one call finds: the clock in milliseconds, and two random draws. */
  datatype Input = Input(clock: int, draw: nat, random: nat)

  const Fresh := State(0, 0)

  function Advance(s: State, i: Input): State {
    if i.clock > s.milliseconds then State(i.clock, And(i.draw, CounterStart - 1))
    else if s.counter + 1 >= CounterLimit then State(s.milliseconds + 1, 0)
    else State(s.milliseconds, s.counter + 1)
  }

  /** The packed value, `tail` being the width of the random field: 62 bits in a UUID. */
  function Packed(milliseconds: nat, counter: nat, random: nat, tail: nat): nat {
    Or(Or(Or(Or(Shl(milliseconds, tail + 18), Shl(7, tail + 14)), Shl(counter, tail + 2)), Shl(2, tail)), random)
  }

  /** How many bits hold the timestamp and how many the random field. */
  datatype Layout = Layout(time: nat, tail: nat)

  const Version7 := Layout(48, 62)

  function Value(l: Layout, s: State, random: nat): nat {
    Packed(And(s.milliseconds, Pow2(l.time) - 1), s.counter, And(random, Pow2(l.tail) - 1), l.tail)
  }

  class Generator {
    var milliseconds: nat
    var counter: nat

    function View(): State
      reads this
    {
      State(milliseconds, counter)
    }

    constructor ()
      ensures View() == Fresh
    {
      milliseconds, counter := 0, 0;
    }

    method Next(i: Input) returns (value: nat)
      modifies this
      ensures View() == Advance(old(View()), i) && value == Value(Version7, View(), i.random)
    {
      if i.clock > milliseconds {
        milliseconds, counter := i.clock, And(i.draw, CounterStart - 1);
      } else {
        counter := counter + 1;
        if counter >= CounterLimit {
          milliseconds, counter := milliseconds + 1, 0;
        }
      }
      value := Value(Version7, View(), i.random);
    }
  }

  // ---- The fields of a value ----

  lemma {:induction false} PackedIsSum(ms: nat, c: nat, r: nat, tail: nat)
    requires c < 4096 && r < Pow2(tail)
    ensures Packed(ms, c, r, tail) == Shl(((ms * 16 + 7) * 4096 + c) * 4 + 2, tail) + r
  {
    var a := ms * 16 + 7;
    var b := a * 4096 + c;
    assert Pow2(2) == 4 && Pow2(4) == 16 && Pow2(12) == 4096;
    ShlBound(7, 4, tail + 14);
    ShlBound(c, 12, tail + 2);
    ShlBound(2, 2, tail);
    Joins(ms, 7, 4, tail + 14);
    ShlIsProduct(ms, 4);
    Joins(a, c, 12, tail + 2);
    ShlIsProduct(a, 12);
    Joins(b, 2, 2, tail);
    ShlIsProduct(b, 2);
    OrDisjoint(b * 4 + 2, tail, r);
  }

  /** A field of `j` bits placed below another one. */
  lemma {:induction false} Joins(a: nat, b: nat, j: nat, k: nat)
    requires b < Pow2(j)
    ensures Or(Shl(a, k + j), Shl(b, k)) == Shl(Shl(a, j) + b, k)
  {
    ShlBound(b, j, k);
    OrDisjoint(a, k + j, Shl(b, k));
    ShlTwice(a, j, k);
    ShlAdd(Shl(a, j), b, k);
  }

  /** Timestamp, version, counter and variant, read as one number above the random field. */
  function Head(s: State): nat {
    ((s.milliseconds * 16 + 7) * 4096 + s.counter) * 4 + 2
  }

  predicate InTime(l: Layout, s: State) {
    s.milliseconds < Pow2(l.time) && s.counter < CounterLimit
  }

  lemma {:induction false} ValueIsHead(l: Layout, s: State, random: nat) returns (r: nat)
    requires InTime(l, s)
    ensures r < Pow2(l.tail) && Value(l, s, random) == Shl(Head(s), l.tail) + r && r == random % Pow2(l.tail)
  {
    AndMask(random, l.tail);
    MaskFits(s.milliseconds, l.time);
    MaskFits(random, l.tail);
    r := And(random, Pow2(l.tail) - 1);
    PackedIsSum(s.milliseconds, s.counter, r, l.tail);
  }

  lemma {:induction false} HeadFields(ms: nat, c: nat)
    requires c < 4096
    ensures var head := ((ms * 16 + 7) * 4096 + c) * 4 + 2;
            && head % 4 == 2 && head / 4 % 4096 == c && head / 16384 % 16 == 7 && head / 262144 == ms
            && head < 262144 * (ms + 1)
  {
    var head := ((ms * 16 + 7) * 4096 + c) * 4 + 2;
    assert head / 4 == (ms * 16 + 7) * 4096 + c;
    assert head / 16384 == ms * 16 + 7;
  }

  lemma {:induction false} HeadFits(l: Layout, s: State)
    requires InTime(l, s)
    ensures Head(s) < Pow2(18 + l.time)
  {
    HeadFields(s.milliseconds, s.counter);
    assert Pow2(9) == 512;
    PowersMultiply(9, 9);
    PowersMultiply(18, l.time);
  }

  /** The layout of section 5.7 of RFC 9562: the time, version 7, 12 bits of counter, variant 2, the low bits of the
      random draw, and nothing above. */
  lemma {:induction false} FieldsAreRight(l: Layout, s: State, random: nat)
    requires InTime(l, s)
    ensures var head := Value(l, s, random) / Pow2(l.tail);
            head % 4 == 2 && head / 4 % 4096 == s.counter && head / 16384 % 16 == 7 && head / 262144 == s.milliseconds
    ensures Value(l, s, random) % Pow2(l.tail) == random % Pow2(l.tail)
    ensures Value(l, s, random) < Pow2(18 + l.time + l.tail)
  {
    var r := ValueIsHead(l, s, random);
    ShlDivides(Head(s), l.tail, r);
    HeadFields(s.milliseconds, s.counter);
    HeadFits(l, s);
    ShlOrder(Head(s), Pow2(18 + l.time), l.tail);
    ShlIsProduct(Pow2(18 + l.time), l.tail);
    PowersMultiply(18 + l.time, l.tail);
  }

  lemma {:induction false} HeadDecides(l: Layout, a: State, ra: nat, b: State, rb: nat)
    requires InTime(l, a) && InTime(l, b) && Head(a) < Head(b)
    ensures Value(l, a, ra) < Value(l, b, rb)
  {
    var x := ValueIsHead(l, a, ra);
    var y := ValueIsHead(l, b, rb);
    ShlOrder(Head(a), Head(b), l.tail);
  }

  // ---- Strictly increasing ----

  predicate Before(a: State, b: State) {
    a.milliseconds < b.milliseconds || (a.milliseconds == b.milliseconds && a.counter < b.counter)
  }

  lemma {:induction false} AdvanceIncreases(s: State, i: Input)
    requires s.counter < CounterLimit
    ensures Before(s, Advance(s, i)) && Advance(s, i).counter < CounterLimit
  {
    LowCounter(i.draw);
  }

  /** What a call does to time and counter: a clock that has moved on is taken over with a counter drawn from the low
      eleven bits; any other makes the pair, read as one number, go up by one. */
  lemma {:induction false} AdvanceMeans(s: State, i: Input)
    requires s.counter < 4096
    ensures i.clock > s.milliseconds ==> Advance(s, i) == State(i.clock, i.draw % 2048)
    ensures i.clock <= s.milliseconds ==>
              Advance(s, i).milliseconds * 4096 + Advance(s, i).counter == s.milliseconds * 4096 + s.counter + 1
              && Advance(s, i).counter < 4096
  {
    assert Pow2(11) == 2048;
    AndMask(i.draw, 11);
  }

  /** A fresh millisecond starts the counter in its lower half. */
  lemma {:induction false} LowCounter(draw: nat)
    ensures And(draw, CounterStart - 1) < CounterStart
  {
    assert Pow2(11) == CounterStart;
    AndMask(draw, 11);
  }

  /** The state after `n` calls. */
  function After(inputs: seq<Input>, n: nat): State
    requires n <= |inputs|
  {
    if n == 0 then Fresh else Advance(After(inputs, n - 1), inputs[n - 1])
  }

  lemma {:induction false} StatesIncrease(inputs: seq<Input>, m: nat, n: nat)
    requires m < n <= |inputs|
    ensures After(inputs, m).counter < CounterLimit && After(inputs, n).counter < CounterLimit
    ensures Before(After(inputs, m), After(inputs, n))
  {
    if m + 1 < n {
      StatesIncrease(inputs, m, n - 1);
    } else if m > 0 {
      StatesIncrease(inputs, m - 1, m);
    }
    AdvanceIncreases(After(inputs, n - 1), inputs[n - 1]);
  }

  // ---- How far the timestamp runs ahead of the clock ----

  function MaxClock(inputs: seq<Input>, n: nat): nat
    requires n <= |inputs|
  {
    if n == 0 then 0 else
      var m := MaxClock(inputs, n - 1);
      if inputs[n - 1].clock > m then inputs[n - 1].clock else m
  }

  function Excess(s: State): nat {
    if s.counter < CounterStart then 0 else s.counter - (CounterStart - 1)
  }

  /** Each millisecond borrowed from the future was paid for by the upper half of the counter. */
  lemma {:induction false} LeadIsPaidFor(inputs: seq<Input>, n: nat)
    requires n <= |inputs|
    ensures var s := After(inputs, n);
            && s.counter < CounterLimit && MaxClock(inputs, n) <= s.milliseconds
            && CounterStart * (s.milliseconds - MaxClock(inputs, n)) + Excess(s) <= n
  {
    if n > 0 {
      LeadIsPaidFor(inputs, n - 1);
      LowCounter(inputs[n - 1].draw);
    }
  }

  /** After `n` calls the timestamp leads the largest clock reading by at most n / 2048 milliseconds. */
  lemma {:induction false} LeadBound(inputs: seq<Input>, n: nat)
    requires n <= |inputs|
    ensures 2048 * (After(inputs, n).milliseconds - MaxClock(inputs, n)) <= n
  {
    LeadIsPaidFor(inputs, n);
  }

  // ---- The text form ----

  function HexDigit(d: nat): char
    requires d < 16
  {
    if d < 10 then '0' + d as char else 'a' + (d - 10) as char
  }

  predicate DashBefore(n: nat) {
    n == 8 || n == 12 || n == 16 || n == 20
  }

  /** The first `n` hexadecimal digits, grouped eight, four, four, four and the rest. */
  function Digits(v: nat, n: nat): string {
    if n == 0 then "" else
      Digits(v / 16, n - 1) + (if DashBefore(n - 1) then "-" else "") + [HexDigit(v % 16)]
  }

  function UuidText(v: nat): string {
    Digits(v, 32)
  }

  lemma {:induction false} LessExtends(a: string, b: string, x: string, y: string)
    requires Text.Less(a, b) && |a| == |b|
    ensures Text.Less(a + x, b + y)
  {
    assert (a + x)[0] == a[0] && (b + y)[0] == b[0];
    if a[0] == b[0] {
      LessExtends(a[1..], b[1..], x, y);
      assert (a + x)[1..] == a[1..] + x && (b + y)[1..] == b[1..] + y;
    }
  }

  /** Numbers that fit in `n` digits compare as their texts do. */
  lemma {:induction false} DigitsOrder(v: nat, w: nat, n: nat)
    requires v < w < Pow2(4 * n)
    ensures |Digits(v, n)| == |Digits(w, n)| && Text.Less(Digits(v, n), Digits(w, n))
  {
    if n > 0 {
      var dash := if DashBefore(n - 1) then "-" else "";
      var x, y := dash + [HexDigit(v % 16)], dash + [HexDigit(w % 16)];
      assert Digits(v, n) == Digits(v / 16, n - 1) + x && Digits(w, n) == Digits(w / 16, n - 1) + y;
      assert Pow2(4 * n) == 16 * Pow2(4 * (n - 1)) by { ShlFour(n); }
      if v / 16 < w / 16 {
        DigitsOrder(v / 16, w / 16, n - 1);
        LessExtends(Digits(v / 16, n - 1), Digits(w / 16, n - 1), x, y);
      } else {
        Text.LessAfterPrefix(Digits(v / 16, n - 1), x, y);
        Text.LessAfterPrefix(dash, [HexDigit(v % 16)], [HexDigit(w % 16)]);
      }
    }
  }

  lemma {:induction false} ShlFour(n: nat)
    requires n > 0
    ensures Pow2(4 * n) == 16 * Pow2(4 * (n - 1))
  {
    var k := 4 * (n - 1);
    assert Pow2(k + 4) == 2 * Pow2(k + 3) && Pow2(k + 3) == 2 * Pow2(k + 2);
    assert Pow2(k + 2) == 2 * Pow2(k + 1) && Pow2(k + 1) == 2 * Pow2(k);
  }

  function HexValue(c: char): nat {
    if '0' <= c <= '9' then c as nat - '0' as nat else if 'a' <= c <= 'f' then c as nat - 'a' as nat + 10 else 0
  }

  /** A text read as a hexadecimal number, its dashes passed over. */
  function ReadHex(s: string): nat {
    if s == "" then 0
    else if s[|s| - 1] == '-' then ReadHex(s[..|s| - 1])
    else 16 * ReadHex(s[..|s| - 1]) + HexValue(s[|s| - 1])
  }

  /** The text says the number. */
  lemma {:induction false} DigitsRead(v: nat, n: nat)
    requires v < Pow2(4 * n)
    ensures ReadHex(Digits(v, n)) == v
  {
    if n > 0 {
      ShlFour(n);
      DigitsRead(v / 16, n - 1);
      var head, dash, c := Digits(v / 16, n - 1), if DashBefore(n - 1) then "-" else "", HexDigit(v % 16);
      var t := head + dash;
      assert t[..|t|] == t && (t + [c])[..|t|] == t;
      assert Digits(v, n) == t + [c];
      if DashBefore(n - 1) {
        assert t[..|t| - 1] == head;
      } else {
        assert t == head;
      }
    }
  }

  /** How far into the text `n` digits reach: one more place for each dash before them. */
  function Places(n: nat): nat {
    n + (if n > 8 then 1 else 0) + (if n > 12 then 1 else 0) + (if n > 16 then 1 else 0) + (if n > 20 then 1 else 0)
  }

  lemma {:induction false} DigitsGrouped(v: nat, n: nat)
    ensures |Digits(v, n)| == Places(n)
    ensures forall k :: 0 <= k < |Digits(v, n)| ==> (Digits(v, n)[k] == '-' <==> k == 8 || k == 13 || k == 18 || k == 23)
  {
    if n > 0 {
      DigitsGrouped(v / 16, n - 1);
      assert Digits(v, n) == Digits(v / 16, n - 1) + (if DashBefore(n - 1) then "-" else "") + [HexDigit(v % 16)];
    }
  }

  /** The text form: 36 characters, grouped 8-4-4-4-12, that say the value. */
  lemma {:induction false} TextSaysValue(v: nat)
    requires v < Pow2(4 * 32)
    ensures |UuidText(v)| == 36 && ReadHex(UuidText(v)) == v
    ensures forall k :: 0 <= k < 36 ==> (UuidText(v)[k] == '-' <==> k == 8 || k == 13 || k == 18 || k == 23)
  {
    DigitsRead(v, 32);
    DigitsGrouped(v, 32);
  }

  // ---- Monotonicity over every run ----

  /** Every clock reading leaves room for the timestamp to run ahead. */
  predicate ClockInRange(l: Layout, inputs: seq<Input>) {
    2048 * MaxClock(inputs, |inputs|) + |inputs| < 2048 * Pow2(l.time)
  }

  lemma {:induction false} MaxClockGrows(inputs: seq<Input>, n: nat)
    requires n <= |inputs|
    ensures MaxClock(inputs, n) <= MaxClock(inputs, |inputs|)
    decreases |inputs| - n
  {
    if n < |inputs| {
      MaxClockGrows(inputs, n + 1);
    }
  }

  /** Then the timestamp never outgrows its field. */
  lemma {:induction false} AlwaysInTime(l: Layout, inputs: seq<Input>, n: nat)
    requires ClockInRange(l, inputs) && n <= |inputs|
    ensures InTime(l, After(inputs, n))
  {
    LeadIsPaidFor(inputs, n);
    MaxClockGrows(inputs, n);
  }

  /** The value the `n`th call returns. */
  function Returned(l: Layout, inputs: seq<Input>, n: nat): nat
    requires n < |inputs|
  {
    Value(l, After(inputs, n + 1), inputs[n].random)
  }

  /** Whatever the clock does, backwards included, and whatever is drawn: every value is greater than every earlier
      one, as a number and as text, and carries version, variant and a counter below 4096. */
  lemma {:induction false} StrictlyIncreasing(l: Layout, inputs: seq<Input>, m: nat, n: nat)
    requires 18 + l.time + l.tail == 128
    requires m < n < |inputs| && After(inputs, n + 1).milliseconds < Pow2(l.time)
    ensures Returned(l, inputs, m) < Returned(l, inputs, n)
    ensures Text.Less(UuidText(Returned(l, inputs, m)), UuidText(Returned(l, inputs, n)))
  {
    var a, b := After(inputs, m + 1), After(inputs, n + 1);
    StatesIncrease(inputs, m + 1, n + 1);
    HeadDecides(l, a, inputs[m].random, b, inputs[n].random);
    FieldsAreRight(l, b, inputs[n].random);
    assert 18 + l.time + l.tail == 4 * 32;
    DigitsOrder(Returned(l, inputs, m), Returned(l, inputs, n), 32);
  }

  /** The same for the layout in use, under a clock that leaves the 48-bit field room. */
  lemma {:induction false} Version7Increases(inputs: seq<Input>, m: nat, n: nat)
    requires ClockInRange(Version7, inputs) && m < n < |inputs|
    ensures Returned(Version7, inputs, m) < Returned(Version7, inputs, n)
    ensures Text.Less(UuidText(Returned(Version7, inputs, m)), UuidText(Returned(Version7, inputs, n)))
  {
    AlwaysInTime(Version7, inputs, n + 1);
    StrictlyIncreasing(Version7, inputs, m, n);
  }
}
