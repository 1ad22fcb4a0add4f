/** Shared vocabulary: optional values, service outcomes, sequences and decimal numerals. */
module Base {

  datatype Option<+T> = None | Some(value: T)

  /** What a service call ends with: a value, or the exception it raises. */
  datatype Outcome<+T, +E> = Ok(value: T) | Err(error: E)

  function Last<T>(s: seq<T>): T
    requires s != []
  {
    s[|s| - 1]
  }

  lemma Associate<T>(a: seq<T>, b: seq<T>, c: seq<T>)
    ensures a + b + c == a + (b + c)
  {
  }

  lemma SliceOfDrop<T>(s: seq<T>, k: nat, i: nat, j: nat)
    requires k <= |s| && i <= j <= |s| - k
    ensures s[k..][i..j] == s[k + i..k + j]
  {
  }

  lemma SliceOfTake<T>(s: seq<T>, k: nat, i: nat, j: nat)
    requires i <= j <= k <= |s|
    ensures s[..k][i..j] == s[i..j]
  {
  }

  predicate NoRepeats<T(==)>(s: seq<T>) {
    forall i, j | 0 <= i < j < |s| :: s[i] != s[j]
  }

  /** How often an entry was written. */
  function Times<T(==)>(s: seq<T>, x: T): nat {
    multiset(s)[x]
  }

  lemma TimesAppend<T>(s: seq<T>, t: seq<T>, x: T)
    ensures Times(s + t, x) == Times(s, x) + Times(t, x)
  {
  }

  lemma NeverWritten<T>(s: seq<T>, x: T)
    requires x !in s
    ensures Times(s, x) == 0
  {
  }

  // ---------------------------------------------------------------------------------------------
  // Decimal numerals, as Python's f-strings print a non-negative integer

  const DIGITS := "0123456789"

  function Decimal(n: nat): (s: string)
    ensures forall i | 0 <= i < |s| :: s[i] in DIGITS
    ensures 0 < |s| && (|s| == 1 <==> n < 10) && (n >= 10 ==> s[0] != '0')
  {
    if n < 10 then [DIGITS[n]] else Decimal(n / 10) + [DIGITS[n % 10]]
  }

  /** The number a numeral denotes. */
  function ReadDecimal(s: string): int {
    if s == "" then 0 else ReadDecimal(s[..|s| - 1]) * 10 + (Last(s) as int - '0' as int)
  }

  lemma {:induction false} DecimalReadsBack(n: nat)
    ensures ReadDecimal(Decimal(n)) == n
  {
    if n < 10 {
      assert [DIGITS[n]][..0] == "" && Last([DIGITS[n]]) == DIGITS[n];
    } else {
      DecimalReadsBack(n / 10);
      var front := Decimal(n / 10);
      assert (front + [DIGITS[n % 10]])[..|front|] == front && Last(front + [DIGITS[n % 10]]) == DIGITS[n % 10];
    }
  }

  lemma DigitsAreDistinct(i: nat, j: nat)
    requires i < 10 && j < 10 && DIGITS[i] == DIGITS[j]
    ensures i == j
  {
  }

  lemma {:induction false} DecimalIsInjective(n: nat, m: nat)
    requires Decimal(n) == Decimal(m)
    ensures n == m
    decreases n
  {
    if n >= 10 && m >= 10 {
      var a, b := Decimal(n / 10), Decimal(m / 10);
      assert Last(a + [DIGITS[n % 10]]) == DIGITS[n % 10] && Last(b + [DIGITS[m % 10]]) == DIGITS[m % 10];
      DigitsAreDistinct(n % 10, m % 10);
      assert (a + [DIGITS[n % 10]])[..|a|] == a && (b + [DIGITS[m % 10]])[..|b|] == b;
      DecimalIsInjective(n / 10, m / 10);
    } else if n < 10 && m < 10 {
      DigitsAreDistinct(n, m);
    }
  }
}
