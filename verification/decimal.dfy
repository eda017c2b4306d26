/** Decimal numerals: writing numbers, reading them, and padding with zeros. */
module Decimal {

  predicate IsDigit(c: char) { '0' <= c <= '9' }

  /** A numeral: at least one digit, and digits only. */
  predicate Numeral(s: string) { s != "" && forall i | 0 <= i < |s| :: IsDigit(s[i]) }

  function DigitOf(n: nat): (c: char)
    requires n < 10
    ensures IsDigit(c) && (c as int) - ('0' as int) == n
  {
    (('0' as int) + n) as char
  }

  function ValueOf(c: char): nat
    requires IsDigit(c)
  {
    (c as int) - ('0' as int)
  }

  /** The number a numeral stands for. */
  function Read(s: string): nat
    requires forall i | 0 <= i < |s| :: IsDigit(s[i])
  {
    if s == "" then 0 else 10 * Read(s[..|s| - 1]) + ValueOf(s[|s| - 1])
  }

  /** The numeral of a number, without leading zeros. */
  function Dec(n: nat): (s: string)
    ensures Numeral(s)
  {
    if n < 10 then [DigitOf(n)] else Dec(n / 10) + [DigitOf(n % 10)]
  }

  /** No leading zero, except for zero itself. */
  predicate Canonical(s: string) { Numeral(s) && (s[0] == '0' ==> |s| == 1) }

  lemma {:induction false} ReadDec(n: nat)
    ensures Read(Dec(n)) == n && Canonical(Dec(n))
    ensures n > 0 ==> Dec(n)[0] != '0'
  {
    if n < 10 {
      assert Dec(n)[..0] == "";
    } else {
      ReadDec(n / 10);
      assert Dec(n)[..|Dec(n)| - 1] == Dec(n / 10);
    }
  }

  lemma {:induction false} ReadIsPositive(s: string)
    requires Numeral(s) && s[0] != '0'
    ensures Read(s) > 0
  {
    if |s| == 1 {
      assert s[..0] == "";
    } else {
      ReadIsPositive(s[..|s| - 1]);
    }
  }

  /** Canonical numerals are those that are written for a number. */
  lemma {:induction false} DecRead(s: string)
    requires Numeral(s)
    ensures Dec(Read(s)) == s <==> Canonical(s)
  {
    ReadDec(Read(s));
    if Canonical(s) { DecReadCanonical(s); }
  }

  lemma {:induction false} DecReadCanonical(s: string)
    requires Canonical(s)
    ensures Dec(Read(s)) == s
  {
    var n := |s| - 1;
    if n == 0 {
      assert s[..0] == "";
      assert s == [s[0]] && DigitOf(ValueOf(s[0])) == s[0];
    } else {
      var front, last := s[..n], s[n];
      DecReadCanonical(front);
      ReadIsPositive(front);
      assert Read(s) == 10 * Read(front) + ValueOf(last);
      assert Read(s) / 10 == Read(front) && Read(s) % 10 == ValueOf(last);
      assert DigitOf(ValueOf(last)) == last && s == front + [last];
    }
  }

  lemma {:induction false} DecGrows(m: nat, n: nat)
    requires m <= n
    ensures |Dec(m)| <= |Dec(n)|
    decreases n
  {
    if n >= 10 && m >= 10 { DecGrows(m / 10, n / 10); }
  }

  /** No numeral of a number is shorter than the one without leading zeros. */
  lemma {:induction false} DecIsShortest(s: string)
    requires Numeral(s)
    ensures |Dec(Read(s))| <= |s|
  {
    var n := |s| - 1;
    if n == 0 {
      assert s[..0] == "";
    } else {
      DecIsShortest(s[..n]);
      var front := Read(s[..n]);
      assert Read(s) == 10 * front + ValueOf(s[n]);
      assert Read(s) / 10 == front;
    }
  }

  /** Zeros in front, up to a width. */
  function Pad(s: string, width: nat): (p: string)
    requires Numeral(s)
    ensures Numeral(p) && |p| == if |s| < width then width else |s|
    decreases width - |s|
  {
    if |s| < width then Pad("0" + s, width) else s
  }

  lemma {:induction false} ReadZero(s: string)
    requires Numeral(s)
    ensures Numeral("0" + s) && Read("0" + s) == Read(s)
  {
    var n := |s| - 1;
    assert ("0" + s)[..|"0" + s| - 1] == "0" + s[..n];
    if n == 0 {
      assert s[..0] == "" && "0" + "" == "0" && "0"[..0] == "";
    } else {
      ReadZero(s[..n]);
    }
  }

  /** Padding does not change the number. */
  lemma {:induction false} ReadPad(s: string, width: nat)
    requires Numeral(s)
    ensures Read(Pad(s, width)) == Read(s)
    decreases width - |s|
  {
    if |s| < width {
      ReadZero(s);
      ReadPad("0" + s, width);
    }
  }
}
