/**
 * The page header: a notification bell whose badge shows the number of pending alerts, capped
 * at `99+`.  The initials next to the user's name are `Initials.Initials`.
 */
module Header {
  import opened Types

  /** The label of a count above the cap. */
  const Capped: string := "99+"

  predicate IsDecimalDigit(c: char)
  {
    '0' <= c <= '9'
  }

  /** How JavaScript writes a non-negative integer: its decimal digits, with no leading zero. */
  function Decimal(n: nat): (s: string)
    ensures |s| >= 1
    ensures forall i :: 0 <= i < |s| ==> IsDecimalDigit(s[i])
    ensures |s| > 1 ==> s[0] != '0'
    ensures n < 10 <==> |s| == 1
    decreases n
  {
    if n < 10 then [('0' as int + n) as char]
    else Decimal(n / 10) + [('0' as int + n % 10) as char]
  }

  /** The number a string of decimal digits stands for. */
  function DecimalValue(s: string): nat
    requires forall i :: 0 <= i < |s| ==> IsDecimalDigit(s[i])
  {
    if s == [] then 0
    else 10 * DecimalValue(s[..|s| - 1]) + DigitValue(s[|s| - 1])
  }

  function DigitValue(c: char): (d: nat)
    requires IsDecimalDigit(c)
    ensures d < 10
  {
    c as int - '0' as int
  }

  /** Reading the digits back gives the number: no two counts get the same label. */
  lemma {:induction false} DecimalRoundTrip(n: nat)
    ensures DecimalValue(Decimal(n)) == n
    decreases n
  {
    if n >= 10 {
      DecimalRoundTrip(n / 10);
      var s := Decimal(n);
      assert s[..|s| - 1] == Decimal(n / 10);
    }
  }

  /**
   * The badge of `alertsCount` (by default 0): no badge for a count that is not positive,
   * `99+` above 99, and the count itself otherwise.
   */
  function Badge(alertsCount: Option<int>): (badge: Option<string>)
    ensures var count := if alertsCount.Some? then alertsCount.value else 0;
            && (badge.None? <==> count <= 0)
            && (badge == Some(Capped) <==> count > 99)
            && (0 < count <= 99 ==> badge == Some(Decimal(count)) && 1 <= |badge.value| <= 2)
  {
    var count := if alertsCount.Some? then alertsCount.value else 0;
    if count <= 0 then None
    else if count > 99 then Some(Capped)
    else
      assert Decimal(count) != Capped by {
        assert IsDecimalDigit(Decimal(count)[|Decimal(count)| - 1]);
      }
      DecimalLength(count);
      Some(Decimal(count))
  }

  /** A proof step for `Badge`: a count below 100 has at most two digits. */
  lemma DecimalLength(n: nat)
    requires n < 100
    ensures |Decimal(n)| <= 2
  {
    if n >= 10 {
      assert Decimal(n) == Decimal(n / 10) + Decimal(n % 10);
    }
  }

  /** Without a count the header shows no badge. */
  lemma NoCountNoBadge()
    ensures Badge(None).None?
  {
  }

  /** Two counts from 1 to 99 with the same badge are the same count. */
  lemma BadgeTellsCountsApart(a: int, b: int)
    requires 0 < a <= 99 && 0 < b <= 99
    requires Badge(Some(a)) == Badge(Some(b))
    ensures a == b
  {
    DecimalRoundTrip(a);
    DecimalRoundTrip(b);
  }
}
