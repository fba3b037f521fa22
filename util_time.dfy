/**
 * Durations and instants as `time.Duration` and `time.Time` hold them
 * (`pkg/util/time.go`): integers counting nanoseconds, an instant counted
 * from the Unix epoch. Differences saturate at the 64-bit bounds, as
 * `Time.Sub` and `Duration.Abs` do, and division truncates toward zero, as
 * Go's `/` on integers does.
 */
module TimeUtil {
  import opened Strings

  const Second: int := 1_000_000_000
  const Minute: int := 60 * Second
  const Hour: int := 60 * Minute

  /** An integer forced into the 64-bit range. */
  function Clamp64(x: int): (r: int)
    ensures MinInt64 <= r <= MaxInt64
    ensures MinInt64 <= x <= MaxInt64 ==> r == x
  {
    if x < MinInt64 then MinInt64 else if x > MaxInt64 then MaxInt64 else x
  }

  /** `t.Sub(u)`: the duration from `u` to `t`, saturated. */
  function Sub(t: int, u: int): (d: int)
    ensures MinInt64 <= d <= MaxInt64
  {
    Clamp64(t - u)
  }

  /** `Duration.Abs`: the most negative duration maps to the largest one. */
  function Abs(d: int): (r: int)
    requires MinInt64 <= d <= MaxInt64
    ensures 0 <= r <= MaxInt64
    ensures d > MinInt64 ==> r == d || r == -d
  {
    if d == MinInt64 then MaxInt64 else if d < 0 then -d else d
  }

  /** Go's `a / b` for a positive divisor: the quotient truncated toward zero. */
  function Quo(a: int, b: int): (q: int)
    requires b > 0
    ensures a >= 0 ==> q == a / b
    ensures a < 0 ==> q == -((-a) / b)
  {
    if a >= 0 then a / b else -((-a) / b)
  }

  /** `fmt`'s `%02d`: at least two characters, zero-padded on the left; a sign counts toward the width. */
  function Pad2(n: int): (r: string)
    ensures |r| >= 2
  {
    if n < 0 then "-" + Decimal(-n)
    else if n < 10 then "0" + Decimal(n)
    else Decimal(n)
  }

  /**
   * `HumanizeDuration`: whole hours and the whole minutes left over, as
   * `HH:MM`. The rest of the last minute is dropped.
   */
  function HumanizeDuration(d: int): string {
    var (h, m) := Fields(d, Minute);
    Pad2(h) + ":" + Pad2(m)
  }

  /** The hours and left-over minutes of `d`, for a minute of `unit` nanoseconds, with Go's truncating division. */
  function Fields(d: int, unit: int): (int, int)
    requires unit > 0
  {
    var h := Quo(d, 60 * unit);
    var rest := d - h * (60 * unit);
    (h, Quo(rest, unit))
  }

  /** Euclid's division is unique: a quotient and a remainder in range are the ones `/` and `%` give. */
  lemma DivModUnique(a: int, b: int, q: int, r: int)
    requires b > 0 && 0 <= r < b && a == q * b + r
    ensures a / b == q && a % b == r
  {
    var q', r' := a / b, a % b;
    assert q' * b + r' == q * b + r;
    if q' < q {
      MulLe(q' + 1, q, b);
      Distrib(q', 1, b);
      assert false;
    } else if q' > q {
      MulLe(q + 1, q', b);
      Distrib(q, 1, b);
      assert false;
    }
  }

  /** Go's truncating quotient of a non-negative number leaves the Euclidean remainder. */
  lemma QuoRest(a: int, b: int)
    requires a >= 0 && b > 0
    ensures Quo(a, b) == a / b && a - Quo(a, b) * b == a % b
  {
  }

  /** A number below `k` units holds fewer than `k` whole units. */
  lemma UnitsBelow(x: int, k: int, b: int)
    requires b > 0 && 0 <= x < k * b
    ensures 0 <= x / b < k
  {
  }

  /** For a non-negative duration the fields are the whole hours and the whole minutes within the hour. */
  lemma FieldsNonNegative(d: int, unit: int)
    requires d >= 0 && unit > 0
    ensures Fields(d, unit) == (d / (60 * unit), d % (60 * unit) / unit)
    ensures 0 <= d % (60 * unit) / unit < 60
  {
    QuoRest(d, 60 * unit);
    QuoRest(d % (60 * unit), unit);
    UnitsBelow(d % (60 * unit), 60, unit);
  }

  /** For a non-negative duration the fields are the hours and the minutes within the hour, below 60. */
  lemma HumanizeNonNegative(d: int)
    requires d >= 0
    ensures HumanizeDuration(d) == Pad2(d / Hour) + ":" + Pad2(d % Hour / Minute)
    ensures 0 <= d % Hour / Minute < 60
  {
    FieldsNonNegative(d, Minute);
  }

  /** Adding less than one unit to a whole number of units changes neither the sixtieths nor the units within them. */
  lemma WithinUnit(k: int, s: int, b: int)
    requires k >= 0 && b > 0 && 0 <= s < b
    ensures (k * b + s) / (60 * b) == (k * b) / (60 * b)
    ensures (k * b + s) % (60 * b) / b == (k * b) % (60 * b) / b
  {
    var q, r := k / 60, k % 60;
    assert k == q * 60 + r;
    assert k * b == q * (60 * b) + r * b by { Distrib(q * 60, r, b); }
    assert r * b + s < 60 * b by { MulLe(r + 1, 60, b); }
    DivModUnique(k * b + s, 60 * b, q, r * b + s);
    DivModUnique(k * b, 60 * b, q, r * b);
    DivModUnique(r * b + s, b, r, s);
    DivModUnique(r * b, b, r, 0);
  }

  lemma Distrib(x: int, y: int, b: int)
    ensures (x + y) * b == x * b + y * b
  {
  }

  lemma MulLe(x: int, y: int, b: int)
    requires x <= y && b >= 0
    ensures x * b <= y * b
  {
  }

  /** Durations that differ only below the minute render the same. */
  lemma HumanizeDropsSeconds(d: int, s: int)
    requires d >= 0 && d % Minute == 0 && 0 <= s < Minute
    ensures HumanizeDuration(d + s) == HumanizeDuration(d)
  {
    DropsBelowUnit(d, s, Minute);
  }

  lemma DropsBelowUnit(d: int, s: int, b: int)
    requires d >= 0 && b > 0 && d % b == 0 && 0 <= s < b
    ensures Fields(d + s, b) == Fields(d, b)
  {
    var k := d / b;
    DivModUnique(d, b, k, 0);
    WithinUnit(k, s, b);
    FieldsNonNegative(d, b);
    FieldsNonNegative(d + s, b);
  }

  /** A padded field reads back as the number it prints, and is wider than two only when the number needs it. */
  lemma Pad2RoundTrip(n: int)
    requires 0 <= n <= MaxInt64
    ensures ParseInt(Pad2(n)) == Parsed(n)
    ensures |Pad2(n)| == if n < 10 then 2 else |Decimal(n)|
    ensures ':' !in Pad2(n)
  {
    Pad2Shape(n);
    Pad2Value(n);
  }

  /** A padded natural number is all digits, so it holds no `:`. */
  lemma Pad2Shape(n: nat)
    ensures AllDigits(Pad2(n)) && ':' !in Pad2(n)
    ensures |Pad2(n)| == if n < 10 then 2 else |Decimal(n)|
  {
    var p := Pad2(n);
    assert AllDigits(p) by {
      if n < 10 {
        assert p == "0" + Decimal(n);
      } else {
        assert p == Decimal(n);
      }
    }
    assert forall i :: 0 <= i < |p| ==> p[i] != ':' by {
      assert forall i :: 0 <= i < |p| ==> IsDigit(p[i]);
    }
  }

  /** A padded natural number parses back to itself. */
  lemma {:induction false} Pad2Value(n: int)
    requires 0 <= n <= MaxInt64
    ensures ParseInt(Pad2(n)) == Parsed(n)
  {
    var p := Pad2(n);
    DecimalValue(n);
    if n < 10 {
      assert p == "0" + Decimal(n);
      assert AllDigits(p) && DigitsValue(p) == n by {
        assert p[..|p| - 1] == "0";
        assert DigitsValue("0") == 0 by { assert "0"[..0] == []; }
      }
      ParseIntOfDigits(p);
    } else {
      assert p == Decimal(n);
      ParseIntOfDecimal(n);
    }
  }

  /** Splitting at a separator that occurs exactly once gives the two sides. */
  lemma SplitOnce(a: string, b: string, sep: char)
    requires sep !in a && sep !in b
    ensures Split(a + [sep] + b, sep) == [a, b]
  {
    var s := a + [sep] + b;
    assert sep in s by { assert s[|a|] == sep; }
    var i := IndexOf(s, sep);
    assert s[i + 1..] == b;
    assert s[..i] == a;
  }

  /** The rendering of a non-negative duration splits at `:` into two numbers: the hours and the minutes. */
  lemma HumanizeDurationRoundTrip(d: int)
    requires 0 <= d <= MaxInt64
    ensures var parts := Split(HumanizeDuration(d), ':');
      && |parts| == 2
      && ParseInt(parts[0]) == Parsed(d / Hour)
      && ParseInt(parts[1]) == Parsed(d % Hour / Minute)
  {
    HumanizeNonNegative(d);
    DivLe(d, Hour);
    DivLe(d % Hour, Minute);
    FieldsRoundTrip(d / Hour, d % Hour / Minute);
  }

  lemma DivLe(a: int, b: int)
    requires a >= 0 && b >= 1
    ensures 0 <= a / b <= a && a % b <= a
  {
  }

  lemma FieldsRoundTrip(h: int, m: int)
    requires 0 <= h <= MaxInt64 && 0 <= m <= MaxInt64
    ensures var parts := Split(Pad2(h) + ":" + Pad2(m), ':');
      && |parts| == 2 && ParseInt(parts[0]) == Parsed(h) && ParseInt(parts[1]) == Parsed(m)
  {
    Pad2RoundTrip(h);
    Pad2RoundTrip(m);
    SplitOnce(Pad2(h), Pad2(m), ':');
  }

  /** A negative duration keeps the sign on each field: minus ninety seconds renders as `00:-1`. */
  lemma NegativeDurationRendering()
    ensures HumanizeDuration(-90 * Second) == "00:-1"
  {
    assert Quo(-90 * Second, Hour) == 0;
    assert Quo(-90 * Second, Minute) == -1;
    assert Decimal(1) == "1";
    assert Decimal(0) == "0";
  }
}
