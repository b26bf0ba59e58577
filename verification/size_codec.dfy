/**
 * The size codec of app.go: `formatFileSize` renders a byte count with a unit,
 * `parseSize` reads such a rendering back into a signed byte count.
 *
 * A rendered size is kept as structured text rather than as characters: the
 * fixed failure label, a number followed by a unit token, or text whose
 * number cannot be scanned. The number is held in hundredths, which is exactly
 * what `%.2f` prints; for the byte unit the printed integer `n` is `100 * n`
 * hundredths.
 */
module SizeCodec {

  const KiB: int := 1024
  const MiB: int := 1048576
  const GiB: int := 1073741824

  /** A rendered size, as `parseSize` sees its input. */
  datatype SizeText =
    | Sentinel                                  // the fixed failure label "获取失败"
    | Measured(hundredths: int, unit: string)   // "<number> <unit>", the number in hundredths
    | Unscannable                               // text whose leading number does not scan

  /** The unit tokens that `parseSize` recognises. */
  predicate KnownUnit(unit: string) {
    unit == "GB" || unit == "MB" || unit == "KB" || unit == "B"
  }

  /** Bytes per unit for the recognised tokens. */
  function Scale(unit: string): (s: int)
    requires KnownUnit(unit)
    ensures s >= 1
  {
    if unit == "GB" then GiB
    else if unit == "MB" then MiB
    else if unit == "KB" then KiB
    else 1
  }

  /** `h` hundredths of a unit of `scale` bytes is a nearest two-decimal rendering of `size` bytes. */
  predicate NearestHundredth(h: int, scale: int, size: int) {
    2 * (h * scale - 100 * size) <= scale && 2 * (100 * size - h * scale) <= scale
  }

  /**
   * The decimal rounding of `%.2f`: `num / den` to the nearest integer, an
   * exact half going to the even neighbour.
   */
  function RoundHalfEven(num: nat, den: nat): (q: nat)
    requires den > 0
    ensures 2 * (q * den - num) <= den && 2 * (num - q * den) <= den
    ensures 2 * (num - q * den) == den || 2 * (q * den - num) == den ==> q % 2 == 0
  {
    var d, m := num / den, num % den;
    Neighbours(num, den, d, m);
    if 2 * m > den || (2 * m == den && d % 2 == 1) then
      var up := d + 1;
      assert up * den - num == den - m;
      assert 2 * m == den ==> up % 2 == 0;
      up
    else
      assert num - d * den == m;
      assert 2 * m == den ==> d % 2 == 0;
      d
  }

  /** The distances from `num` to the two multiples of `den` around it. */
  lemma Neighbours(num: int, den: int, d: int, m: int)
    requires den > 0 && d == num / den && m == num % den
    ensures num - d * den == m && 0 <= m < den
    ensures (d + 1) * den - num == den - m
  {
  }

  /**
   * formatFileSize: the largest unit among GB, MB and KB whose size is at least
   * one, printed to two decimals; below one KB the integer byte count.
   */
  function Format(size: int): (r: SizeText)
    ensures r.Measured? && KnownUnit(r.unit)
    ensures r.unit == "GB" <==> size >= GiB
    ensures r.unit == "MB" <==> MiB <= size < GiB
    ensures r.unit == "KB" <==> KiB <= size < MiB
    ensures r.unit == "B" <==> size < KiB
    ensures r.unit == "B" ==> r.hundredths == 100 * size
    ensures r.unit != "B" ==> r.hundredths >= 100 && NearestHundredth(r.hundredths, Scale(r.unit), size)
    ensures r.unit == "MB" || r.unit == "KB" ==> r.hundredths <= 102400
  {
    if size >= GiB then Measured(RoundHalfEven(100 * size, GiB), "GB")
    else if size >= MiB then Measured(RoundHalfEven(100 * size, MiB), "MB")
    else if size >= KiB then Measured(RoundHalfEven(100 * size, KiB), "KB")
    else Measured(100 * size, "B")
  }

  /** Go's integer conversion of a quotient: division truncating toward zero. */
  function TruncDiv(a: int, b: int): (q: int)
    requires b > 0
    ensures a >= 0 ==> q * b <= a < q * b + b
    ensures a < 0 ==> q * b - b < a <= q * b
  {
    if a >= 0 then a / b else -((-a) / b)
  }

  /**
   * parseSize: -1 for the failure label; for a recognised unit the number
   * times the unit's size, truncated toward zero; 0 for anything else.
   */
  function Parse(t: SizeText): (r: int)
    ensures t.Sentinel? ==> r == -1
    ensures t.Unscannable? ==> r == 0
    ensures t.Measured? && !KnownUnit(t.unit) ==> r == 0
    ensures t.Measured? && KnownUnit(t.unit) && t.hundredths >= 0 ==>
              100 * r <= t.hundredths * Scale(t.unit) < 100 * r + 100
    ensures t.Measured? && KnownUnit(t.unit) && t.hundredths < 0 ==>
              100 * r - 100 < t.hundredths * Scale(t.unit) <= 100 * r
  {
    match t
    case Sentinel => -1
    case Unscannable => 0
    case Measured(h, unit) =>
      if unit == "GB" then TruncDiv(h * GiB, 100)
      else if unit == "MB" then TruncDiv(h * MiB, 100)
      else if unit == "KB" then TruncDiv(h * KiB, 100)
      else if unit == "B" then TruncDiv(h, 100)
      else 0
  }

  /** Below one KB the rendering is an integer, so parsing gives back the byte count exactly. */
  lemma ParseFormatBytes(size: int)
    requires size < KiB
    ensures Parse(Format(size)) == size
  {
  }

  /**
   * From one KB upward the round trip is exact up to the two-decimal precision
   * of the unit: at most half a hundredth of a unit above, and less than that
   * plus one byte below.
   */
  lemma ParseFormatWithin(size: int)
    requires size >= KiB
    ensures var s, p := Scale(Format(size).unit), Parse(Format(size));
            200 * (p - size) <= s && 200 * (size - p) < s + 200
  {
  }

  /** A positive byte count renders to text that parses to a positive count. */
  lemma ParseFormatPositive(size: int)
    requires size >= 1
    ensures Parse(Format(size)) >= 1
  {
  }

  /** Each unit's parsed values lie between that unit's threshold and the next one. */
  lemma ParseFormatBand(size: int)
    ensures var p := Parse(Format(size));
            && (size >= GiB ==> p >= GiB)
            && (MiB <= size < GiB ==> MiB <= p <= GiB)
            && (KiB <= size < MiB ==> KiB <= p <= MiB)
            && (size < KiB ==> p == size)
  {
  }

  /** Rendering then parsing never reverses the order of two byte counts. */
  lemma ParseFormatMonotone(a: int, b: int)
    requires a <= b
    ensures Parse(Format(a)) <= Parse(Format(b))
  {
    var ta, tb := Format(a), Format(b);
    ParseFormatBand(a);
    ParseFormatBand(b);
    if ta.unit == tb.unit && ta.unit != "B" {
      var s := Scale(ta.unit);
      // two nearest renderings of a <= b cannot be a whole hundredth out of order
      assert ta.hundredths <= tb.hundredths;
      assert ta.hundredths * s <= tb.hundredths * s;
    }
  }

  /** Two renderings worked out: 2000000 bytes is "1.91 MB"; 1152 bytes, exactly 1.125 KB, is "1.12 KB". */
  lemma FormatExamples()
    ensures Format(2000000) == Measured(191, "MB")
    ensures Format(1152) == Measured(112, "KB")
    ensures Format(500) == Measured(50000, "B")
  {
  }
}
