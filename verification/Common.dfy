/** Small vocabulary shared by the models: optional values and decimal text. */
module Common {

  datatype Option<+T> = None | Some(value: T)

  const INT_MAX: int := 2147483647

  /** The decimal digits of a natural number, as printed by `%u`. */
  function Digits(n: nat): (s: string)
    ensures |s| >= 1
    ensures forall i :: 0 <= i < |s| ==> '0' <= s[i] <= '9'
    ensures n != 0 ==> s[0] != '0'
    decreases n
  {
    var last := [('0' as int + n % 10) as char];
    if n < 10 then last else Digits(n / 10) + last
  }

  /** What `%d` prints. */
  function Decimal(n: int): (s: string)
    ensures |s| >= 1
  {
    if n < 0 then "-" + Digits(-n) else Digits(n)
  }

  predicate IsDigit(c: char) {
    '0' <= c <= '9'
  }

  /** The number a run of decimal digits denotes. */
  function DigitsValue(s: string): nat
    requires forall i :: 0 <= i < |s| ==> IsDigit(s[i])
  {
    if s == [] then 0
    else
      assert IsDigit(s[|s| - 1]);
      DigitsValue(s[..|s| - 1]) * 10 + (s[|s| - 1] as int - '0' as int)
  }

  lemma {:induction false} DigitsRoundTrip(n: nat)
    ensures DigitsValue(Digits(n)) == n
  {
    var s := Digits(n);
    if n >= 10 {
      DigitsRoundTrip(n / 10);
      assert s[..|s| - 1] == Digits(n / 10);
    } else {
      assert s[..|s| - 1] == [];
    }
  }

  /** A number is printed as its digits, behind a minus sign if it is negative. */
  lemma DecimalMeans(n: int)
    ensures n >= 0 ==> (forall i :: 0 <= i < |Decimal(n)| ==> '0' <= Decimal(n)[i] <= '9') && DigitsValue(Decimal(n)) == n
    ensures n < 0 ==>
      && Decimal(n)[0] == '-' && (forall i :: 1 <= i < |Decimal(n)| ==> '0' <= Decimal(n)[i] <= '9')
      && DigitsValue(Decimal(n)[1..]) == -n
  {
    if n >= 0 {
      DigitsRoundTrip(n);
    } else {
      DigitsRoundTrip(-n);
      assert Decimal(n)[1..] == Digits(-n);
    }
  }

  lemma DecimalInjective(m: int, n: int)
    requires Decimal(m) == Decimal(n)
    ensures m == n
  {
    DecimalMeans(m);
    DecimalMeans(n);
  }

  function Pow10(k: nat): nat {
    if k == 0 then 1 else 10 * Pow10(k - 1)
  }

  /** A number below 10^k prints in at most k digits. */
  lemma {:induction false} DigitsLength(n: nat, k: nat)
    requires k >= 1 && n < Pow10(k)
    ensures |Digits(n)| <= k
  {
    if n >= 10 {
      DigitsLength(n / 10, k - 1);
    }
  }

  /** `$n` is never longer than eleven bytes while n fits a C int. */
  lemma DecimalAtMostTenDigits(n: nat)
    requires n <= INT_MAX
    ensures |Decimal(n)| <= 10
  {
    assert Pow10(3) == 1000;
    assert Pow10(6) == 1000000;
    assert Pow10(9) == 1000000000;
    DigitsLength(n, 10);
  }
}
