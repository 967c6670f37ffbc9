/**
 * Calendar dates as day numbers (days since 1970-01-01), and the text Python
 * prints for a midnight timestamp of such a day.
 */
module Dates {
  import opened Strings

  /** Proleptic Gregorian (year, month, day-of-month) of day number `d`. */
  function Civil(d: int): (ymd: (int, int, int))
    ensures 1 <= ymd.1 <= 12 && 1 <= ymd.2 <= 31
  {
    var z := d + 719468;
    var era := z / 146097;
    var doe := z - era * 146097;
    var yoe := (doe - doe / 1460 + doe / 36524 - doe / 146096) / 365;
    var doy := doe - (365 * yoe + yoe / 4 - yoe / 100);
    var mp := (5 * doy + 2) / 153;
    var day := doy - (153 * mp + 2) / 5 + 1;
    var month := if mp < 10 then mp + 3 else mp - 9;
    (yoe + era * 400 + (if month <= 2 then 1 else 0), month, day)
  }

  function Zeros(n: int): string
    decreases n
  {
    if n <= 0 then "" else "0" + Zeros(n - 1)
  }

  /** Python's `%0<w>d` formatting of `n`. */
  function Padded(n: int, w: nat): string {
    if n < 0 then IntText(n) else Zeros(w - |NatText(n)|) + NatText(n)
  }

  function Pow10(k: nat): nat {
    if k == 0 then 1 else 10 * Pow10(k - 1)
  }

  /** A number below `10^w` has at most `w` decimal digits. */
  lemma {:induction false} NatTextLength(n: nat, w: nat)
    requires 1 <= w && n < Pow10(w)
    ensures |NatText(n)| <= w
  {
    if n >= 10 {
      assert w >= 2;
      assert n / 10 < Pow10(w - 1);
      NatTextLength(n / 10, w - 1);
    }
  }

  lemma {:induction false} ZerosShape(k: nat)
    ensures |Zeros(k)| == k && AllDigits(Zeros(k))
  {
    if k > 0 {
      ZerosShape(k - 1);
    }
  }

  /** Zero-padding a number below `10^w` gives exactly `w` digits. */
  lemma PaddedShape(n: nat, w: nat)
    requires 1 <= w && n < Pow10(w)
    ensures |Padded(n, w)| == w && AllDigits(Padded(n, w))
  {
    NatTextLength(n, w);
    ZerosShape(w - |NatText(n)|);
  }

  /** `str()` of the midnight timestamp of day `d`: "YYYY-MM-DD 00:00:00". */
  function TimestampText(d: int): string {
    var (y, m, day) := Civil(d);
    Padded(y, 4) + "-" + Padded(m, 2) + "-" + Padded(day, 2) + " 00:00:00"
  }

  /**
   * For a day in years 0 to 9999 the text has the fixed layout
   * "YYYY-MM-DD 00:00:00": nineteen characters, digits in the date fields.
   */
  lemma TimestampShape(d: int)
    requires 0 <= Civil(d).0 <= 9999
    ensures var t := TimestampText(d);
      |t| == 19 && t[4] == '-' && t[7] == '-' && t[10] == ' ' && t[11..] == "00:00:00"
      && AllDigits(t[..4]) && AllDigits(t[5..7]) && AllDigits(t[8..10])
  {
    var (y, m, day) := Civil(d);
    assert Pow10(4) == 10000 && Pow10(2) == 100;
    PaddedShape(y, 4);
    PaddedShape(m, 2);
    PaddedShape(day, 2);
    var t := TimestampText(d);
    assert t == Padded(y, 4) + "-" + Padded(m, 2) + "-" + Padded(day, 2) + " 00:00:00";
    assert t[..4] == Padded(y, 4);
    assert t[5..7] == Padded(m, 2);
    assert t[8..10] == Padded(day, 2);
  }
}
