/**
 * How the countdown record is shown: each value in a unit box, padded to
 * two digits below ten, under its unit label, with an unpadded aria-label.
 * React renders a number as its decimal text, modelled by `IntToDecimal`.
 */
module CountdownView {
  import opened TimeLeftCalc

  predicate IsDigit(c: char) {
    '0' <= c <= '9'
  }

  predicate AllDigits(s: string) {
    forall i :: 0 <= i < |s| ==> IsDigit(s[i])
  }

  function DigitChar(d: int): (c: char)
    requires 0 <= d < 10
    ensures IsDigit(c)
  {
    ('0' as int + d) as char
  }

  function DigitValue(c: char): (d: int)
    requires IsDigit(c)
    ensures 0 <= d < 10 && DigitChar(d) == c
  {
    c as int - '0' as int
  }

  /** Decimal text of a natural number, without leading zeros. */
  function NatToDecimal(n: nat): (s: string)
    ensures 1 <= |s| && AllDigits(s)
    ensures |s| == 1 <==> n < 10
    ensures s[0] == '0' ==> n == 0
    decreases n
  {
    if n < 10 then [DigitChar(n)] else NatToDecimal(n / 10) + [DigitChar(n % 10)]
  }

  /** Decimal text of an integer, as template literals print it. */
  function IntToDecimal(v: int): string {
    if v < 0 then "-" + NatToDecimal(-v) else NatToDecimal(v)
  }

  /** The value a string of decimal digits denotes. */
  function ParseDecimal(s: string): nat
    requires AllDigits(s)
  {
    if s == [] then 0 else ParseDecimal(s[..|s| - 1]) * 10 + DigitValue(s[|s| - 1])
  }


  lemma {:induction false} DecimalRoundTrip(n: nat)
    ensures ParseDecimal(NatToDecimal(n)) == n
    decreases n
  {
    var s := NatToDecimal(n);
    if n >= 10 {
      DecimalRoundTrip(n / 10);
      assert s[..|s| - 1] == NatToDecimal(n / 10);
      assert DigitValue(s[|s| - 1]) == n % 10;
    } else {
      assert s[..0] == [];
    }
  }

  /** A leading zero does not change the value of a digit string. */
  lemma {:induction false} LeadingZeroIgnored(s: string)
    requires AllDigits(s)
    ensures ParseDecimal("0" + s) == ParseDecimal(s)
    decreases |s|
  {
    if s == [] {
      assert ("0" + s)[..0] == [];
    } else {
      LeadingZeroIgnored(s[..|s| - 1]);
      assert ("0" + s)[..|"0" + s| - 1] == "0" + s[..|s| - 1];
    }
  }

  /** A value below ten is shown as `0` followed by its digit. */
  lemma PadBelowTen(v: int)
    requires 0 <= v < 10
    ensures Pad(v) == ['0', DigitChar(v)]
  {
  }

  /** A value of ten or more is shown as plain decimal, with no leading zero. */
  lemma PadTenOrMore(v: int)
    requires v >= 10
    ensures Pad(v) == NatToDecimal(v) && Pad(v)[0] != '0'
  {
  }

  /** The text shown in a unit box: `0` in front of values below ten. A
      non-negative value is shown as digits that denote it, led by `0`
      exactly when it is below ten. */
  function Pad(v: int): (r: string)
    ensures v >= 0 ==> AllDigits(r) && ParseDecimal(r) == v
    ensures v >= 0 ==> |r| >= 1 && (r[0] == '0' <==> v < 10)
  {
    if v >= 0 then
      DecimalRoundTrip(v);
      if v < 10 then
        LeadingZeroIgnored(NatToDecimal(v));
        "0" + IntToDecimal(v)
      else IntToDecimal(v)
    else "0" + IntToDecimal(v)
  }

  /** Values 0..99 are shown in exactly two digits that denote them. */
  lemma PadTwoDigits(v: int)
    requires 0 <= v < 100
    ensures |Pad(v)| == 2 && AllDigits(Pad(v)) && ParseDecimal(Pad(v)) == v
  {
    if v >= 10 {
      assert NatToDecimal(v) == NatToDecimal(v / 10) + [DigitChar(v % 10)];
    }
  }

  /** One unit box: the padded value, the unit caption under it and its aria-label. */
  datatype UnitView = UnitView(text: string, caption: string, ariaLabel: string)

  /** The record's fields in display order. */
  function Fields(t: TimeLeft): seq<nat> {
    [t.days, t.hours, t.minutes, t.seconds]
  }

  const Labels: seq<string> := ["D\U{ed}as", "Hrs", "Min", "Seg"]
  const AriaUnits: seq<string> := ["d\U{ed}as", "horas", "minutos", "segundos"]

  /** The box for the `k`-th unit showing `v`. */
  function Box(v: nat, k: int): (b: UnitView)
    requires 0 <= k < 4
    ensures b.caption == Labels[k]
    ensures b.text == Pad(v)
    ensures AllDigits(b.text) && ParseDecimal(b.text) == v
    ensures b.ariaLabel == NatToDecimal(v) + " " + AriaUnits[k] + " restantes"
  {
    UnitView(Pad(v), Labels[k], IntToDecimal(v) + " " + AriaUnits[k] + " restantes")
  }

  /** The four boxes, days first and seconds last. */
  function Units(t: TimeLeft): (r: seq<UnitView>)
    ensures |r| == 4
    ensures forall k :: 0 <= k < 4 ==> r[k].caption == Labels[k]
    ensures forall k :: 0 <= k < 4 ==> r[k].text == Pad(Fields(t)[k])
    ensures forall k :: 0 <= k < 4 ==>
              AllDigits(r[k].text) && ParseDecimal(r[k].text) == Fields(t)[k]
    ensures forall k :: 0 <= k < 4 ==>
              r[k].ariaLabel == NatToDecimal(Fields(t)[k]) + " " + AriaUnits[k] + " restantes"
  {
    seq(4, k requires 0 <= k < 4 => Box(Fields(t)[k], k))
  }
}
