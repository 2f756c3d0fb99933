/** Counters as text: what is written for an integer, and what is read back as one. */
module Decimal {
  import opened Wrappers

  function DigitOf(d: nat): (c: char)
    requires d < 10
    ensures '0' <= c <= '9' && c as int - '0' as int == d
  {
    '0' + d as char
  }

  predicate IsDigit(c: char) {
    '0' <= c <= '9'
  }

  function Digits(n: nat): string {
    if n < 10 then [DigitOf(n)] else Digits(n / 10) + [DigitOf(n % 10)]
  }

  /** `str(n)`. */
  function Format(n: int): string {
    if n < 0 then "-" + Digits(-n) else Digits(n)
  }

  /** A single zero, or digits that do not start with one. */
  predicate Natural(s: string) {
    s == "0" || (s != [] && s[0] != '0' && forall i :: 0 <= i < |s| ==> IsDigit(s[i]))
  }

  function DigitValue(c: char): nat
    requires IsDigit(c)
  {
    c as int - '0' as int
  }

  function Value(s: string): nat
    requires forall i :: 0 <= i < |s| ==> IsDigit(s[i])
  {
    if s == [] then 0 else 10 * Value(s[..|s| - 1]) + DigitValue(s[|s| - 1])
  }

  /** An optional minus sign and a natural, with nothing around it; `None` is refused. */
  function Parse(s: string): Option<int> {
    if s != [] && s[0] == '-' then
      if Natural(s[1..]) then Some(0 - Value(s[1..]) as int) else None
    else if Natural(s) then Some(Value(s)) else None
  }

  lemma {:induction false} DigitsRead(n: nat)
    ensures Natural(Digits(n)) && Value(Digits(n)) == n && (n > 0 ==> Digits(n)[0] != '0')
  {
    if n < 10 {
      assert Digits(n)[..0] == [];
    } else {
      DigitsRead(n / 10);
      assert Digits(n)[..|Digits(n)| - 1] == Digits(n / 10);
    }
  }

  /** Every integer survives being written and read. */
  lemma {:induction false} ParseFormat(n: int)
    ensures Parse(Format(n)) == Some(n)
  {
    DigitsRead(if n < 0 then -n else n);
    if n < 0 {
      assert Format(n)[1..] == Digits(-n);
    }
  }

  lemma {:induction false} DigitsWritten(s: string)
    requires Natural(s)
    ensures Digits(Value(s)) == s && (s != "0" ==> Value(s) > 0)
  {
    var k := |s| - 1;
    var d := DigitValue(s[k]);
    assert s == s[..k] + [s[k]] && DigitOf(d) == s[k];
    if k == 0 {
      assert Value(s[..0]) == 0;
    } else {
      DigitsWritten(s[..k]);
      assert (10 * Value(s[..k]) + d) / 10 == Value(s[..k]);
    }
  }

  /** Reading accepts exactly what writing produces, and one more spelling of zero. */
  lemma {:induction false} ParseAccepts(s: string)
    ensures Parse(s).Some? <==> s == "-0" || exists n: int :: s == Format(n)
    ensures Parse(s).Some? && s != "-0" ==> Format(Parse(s).value) == s
  {
    if Parse(s).Some? && s != "-0" {
      if s[0] == '-' {
        DigitsWritten(s[1..]);
        assert s == "-" + s[1..];
      } else {
        DigitsWritten(s);
      }
      assert s == Format(Parse(s).value);
    }
    if n: int :| s == Format(n) {
      ParseFormat(n);
    }
    assert "-0"[1..] == "0";
  }
}
