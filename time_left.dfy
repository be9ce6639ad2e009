/**
 * The arithmetic both countdown versions share: a positive millisecond
 * difference split into days, hours, minutes and seconds by floor division
 * and remainder. `Date.getTime()` values are integer milliseconds, so the
 * difference is an `int`.
 */
module TimeLeftCalc {
  import opened Arithmetic

  const MsPerSecond: int := 1000
  const MsPerMinute: int := 1000 * 60
  const MsPerHour: int := 1000 * 60 * 60
  const MsPerDay: int := 1000 * 60 * 60 * 24

  /** The displayed countdown record. */
  datatype TimeLeft = TimeLeft(days: nat, hours: nat, minutes: nat, seconds: nat)

  /** The initial record, and the one shown once the event has passed. */
  const Zero := TimeLeft(0, 0, 0, 0)

  /** Every field below the point where the next larger unit takes over. */
  predicate InRange(t: TimeLeft) {
    t.hours < 24 && t.minutes < 60 && t.seconds < 60
  }

  /** The number of milliseconds a record stands for. */
  function Millis(t: TimeLeft): int {
    t.days * MsPerDay + t.hours * MsPerHour + t.minutes * MsPerMinute + t.seconds * MsPerSecond
  }

  /** The breakdown of a positive difference: its fields are in range and
      account for the whole difference, short of less than one second. */
  function Breakdown(difference: int): (t: TimeLeft)
    requires difference > 0
    ensures InRange(t)
    ensures Millis(t) <= difference < Millis(t) + MsPerSecond
  {
    var t := TimeLeft(difference / MsPerDay,
                      (difference / MsPerHour) % 24,
                      (difference / MsPerMinute) % 60,
                      (difference / MsPerSecond) % 60);
    BreakdownAccounts(difference);
    t
  }

  /** The breakdown is the only in-range record that accounts for the difference. */
  lemma BreakdownUnique(difference: int, t: TimeLeft)
    requires difference > 0 && InRange(t)
    requires Millis(t) <= difference < Millis(t) + MsPerSecond
    ensures t == Breakdown(difference)
  {
    var h := t.days * 24 + t.hours;
    var m := h * 60 + t.minutes;
    var sec := m * 60 + t.seconds;
    assert Millis(t) == sec * 1000;
    DivUnique(difference, 1000, sec, difference - sec * 1000);
    DivUnique(sec, 60, m, t.seconds);
    DivUnique(m, 60, h, t.minutes);
    DivUnique(h, 24, t.days, t.hours);
    DivDiv(difference, 1000, 60);
    DivDiv(difference, 1000 * 60, 60);
    DivDiv(difference, 1000 * 60 * 60, 24);
  }

  /** A difference of one day, one hour, one minute and one second. */
  lemma BreakdownExample()
    ensures Breakdown(90061000) == TimeLeft(1, 1, 1, 1)
  {
  }

  lemma BreakdownAccounts(d: int)
    requires d > 0
    ensures var t := TimeLeft(d / MsPerDay, (d / MsPerHour) % 24, (d / MsPerMinute) % 60, (d / MsPerSecond) % 60);
            Millis(t) <= d < Millis(t) + MsPerSecond
  {
    var s := d / 1000;
    var m := s / 60;
    var h := m / 60;
    assert d / MsPerMinute == m;
    assert d / MsPerHour == h;
    assert d / MsPerDay == h / 24;
  }

  /** Rounding toward zero, which JavaScript's `%` uses for its quotient. */
  function Trunc(x: real): int {
    if x >= 0.0 then x.Floor else -((-x).Floor)
  }

  /** JavaScript's `a % b` on numbers: the result takes the sign of `a`. */
  function JsRemainder(a: real, b: real): real
    requires b != 0.0
  {
    a - b * (Trunc(a / b) as real)
  }

  /** A fraction of a positive amount is below that amount. */
  lemma ScaleFraction(b: real, x: real)
    requires b > 0.0 && 0.0 <= x < 1.0
    ensures 0.0 <= b * x < b
  {
    assert b * (1.0 - x) > 0.0;
    assert b * (1.0 - x) == b - b * x;
  }

  /** A non-negative dividend leaves a remainder in [0, b). */
  lemma JsRemainderNonNegative(a: real, b: real)
    requires a >= 0.0 && b > 0.0
    ensures 0.0 <= JsRemainder(a, b) < b
  {
    var q := a / b;
    var t := Trunc(q) as real;
    var x := q - t;
    ScaleFraction(b, x);
    var bx := b * x;
    assert bx == b * q - b * t;
    assert b * q == a;
    assert JsRemainder(a, b) == bx;
  }

  /** A negative dividend leaves a remainder in (-b, 0]: the sign follows the dividend. */
  lemma JsRemainderNonPositive(a: real, b: real)
    requires a < 0.0 && b > 0.0
    ensures -b < JsRemainder(a, b) <= 0.0
  {
    var q := a / b;
    var t := Trunc(q) as real;
    var x := t - q;
    ScaleFraction(b, x);
    var bx := b * x;
    assert bx == b * t - b * q;
    assert b * q == a;
    assert JsRemainder(a, b) == -bx;
  }

  /** Truncation commutes with negation. */
  lemma TruncNegate(y: real)
    ensures Trunc(-y) == -Trunc(y)
  {
  }

  /** The divisor's sign does not matter. */
  lemma JsRemainderIgnoresDivisorSign(a: real, b: real)
    requires b != 0.0
    ensures JsRemainder(a, -b) == JsRemainder(a, b)
  {
    assert a / -b == -(a / b);
    TruncNegate(a / b);
  }

  /** Unlike Dafny's Euclidean `%`, JavaScript's remainder keeps the dividend's sign
      and ignores the divisor's, and it applies to fractional operands. */
  lemma JsRemainderFollowsDividend()
    ensures JsRemainder(-7.0, 3.0) == -1.0 && -7 % 3 == 2
    ensures JsRemainder(7.0, -3.0) == 1.0
    ensures JsRemainder(7.5, 2.0) == 1.5
  {
  }

  /** The source's four expressions (`Math.floor` of quotients and
      remainders of the difference), evaluated in exact real arithmetic:
      for a non-negative difference they are integer division and
      Euclidean remainder on the milliseconds. */
  function SourceFields(difference: int): (r: (int, int, int, int))
    ensures difference >= 0 ==>
              r == (difference / MsPerDay, (difference / MsPerHour) % 24,
                    (difference / MsPerMinute) % 60, (difference / MsPerSecond) % 60)
  {
    var d := difference as real;
    var r := ((d / (1000.0 * 60.0 * 60.0 * 24.0)).Floor,
              JsRemainder(d / (1000.0 * 60.0 * 60.0), 24.0).Floor,
              JsRemainder(d / 1000.0 / 60.0, 60.0).Floor,
              JsRemainder(d / 1000.0, 60.0).Floor);
    if difference < 0 then r
    else
      assert r.0 == difference / MsPerDay by {
        assert 1000.0 * 60.0 * 60.0 * 24.0 == MsPerDay as real;
        FloorOfQuotient(difference, MsPerDay);
      }
      assert r.1 == (difference / MsPerHour) % 24 by {
        assert 1000.0 * 60.0 * 60.0 == MsPerHour as real;
        RemainderAfterQuotient(difference, MsPerHour, 24);
      }
      assert r.2 == (difference / MsPerMinute) % 60 by {
        assert d / 1000.0 / 60.0 == d / (MsPerMinute as real);
        RemainderAfterQuotient(difference, MsPerMinute, 60);
      }
      assert r.3 == (difference / MsPerSecond) % 60 by {
        RemainderAfterQuotient(difference, MsPerSecond, 60);
      }
      r
  }

  /** With integer milliseconds the source's expressions are the integer breakdown. */
  lemma BreakdownMatchesSource(difference: int)
    requires difference > 0
    ensures var t := Breakdown(difference);
            SourceFields(difference) == (t.days, t.hours, t.minutes, t.seconds)
  {
  }

  lemma FloorOfQuotient(n: int, k: int)
    requires n >= 0 && k > 0
    ensures (n as real / k as real).Floor == n / k
  {
    var q, r := n / k, n % k;
    assert n as real == (q as real) * (k as real) + r as real;
    assert (n as real) / (k as real) == q as real + (r as real) / (k as real);
    assert 0.0 <= (r as real) / (k as real) < 1.0;
  }

  lemma RemainderAfterQuotient(n: int, k: int, m: int)
    requires n >= 0 && k > 0 && m > 0
    ensures JsRemainder(n as real / k as real, m as real).Floor == (n / k) % m
  {
    var x := n as real / k as real;
    assert x / (m as real) == n as real / ((k * m) as real);
    FloorOfQuotient(n, k);
    FloorOfQuotient(n, k * m);
    DivDiv(n, k, m);
    assert Trunc(x / (m as real)) == (n / k) / m;
  }
}
