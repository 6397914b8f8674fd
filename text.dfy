/**
 * The `Display` renderings that appear inside error messages: unsigned
 * numbers in decimal, UUIDs in their hyphenated lower-case hexadecimal
 * form and dates in chrono's `%Y-%m-%d` form.
 */
module Text {
  import opened Types

  function DigitChar(d: nat): char
    requires d < 10
  {
    "0123456789"[d]
  }

  /** The decimal digits of `n`, without leading zeros. */
  function NatText(n: nat): (r: string)
    ensures |r| >= 1
    ensures forall i :: 0 <= i < |r| ==> '0' <= r[i] <= '9'
  {
    if n < 10 then [DigitChar(n)] else NatText(n / 10) + [DigitChar(n % 10)]
  }

  /** `NatText(n)` with zeros in front, up to `width` characters. */
  function ZeroPadded(n: nat, width: nat): (r: string)
    ensures |r| >= width
  {
    var digits := NatText(n);
    if |digits| >= width then digits else seq(width - |digits|, _ => '0') + digits
  }

  /** The lowest `width` hexadecimal digits of `n`, most significant first. */
  function HexDigits(n: nat, width: nat): (r: string)
    ensures |r| == width
  {
    if width == 0 then "" else HexDigits(n / 16, width - 1) + [HexDigit(n % 16)]
  }

  /** A UUID as 8-4-4-4-12 groups of lower-case hexadecimal digits. */
  function UuidText(u: Uuid): (r: string)
    ensures |r| == 36
  {
    var h := HexDigits(u, 32);
    h[..8] + "-" + h[8..12] + "-" + h[12..16] + "-" + h[16..20] + "-" + h[20..]
  }

  /**
   * The `NotFound` error for a record missing by id: `what`, the id as
   * `UuidText` writes it, then " not found".
   */
  function IdNotFound(what: string, id: Uuid): (e: DomainError)
    ensures e.NotFound? && |e.message| == |what| + 46
    ensures e.message[..|what|] == what && e.message[|what|..|what| + 36] == UuidText(id)
  {
    var m := what + UuidText(id) + " not found";
    assert m[..|what|] == what && m[|what|..|what| + 36] == UuidText(id);
    NotFound(m)
  }

  /** The proleptic Gregorian year, month and day of a day number. */
  function Civil(d: Date): (ymd: (int, int, int))
  {
    var z := d + 719468;
    var era := z / 146097;
    var doe := z - era * 146097;
    var yoe := (doe - doe / 1460 + doe / 36524 - doe / 146096) / 365;
    var doy := doe - (365 * yoe + yoe / 4 - yoe / 100);
    var mp := (5 * doy + 2) / 153;
    var day := doy - (153 * mp + 2) / 5 + 1;
    var month := if mp < 10 then mp + 3 else mp - 9;
    var year := yoe + era * 400 + (if month <= 2 then 1 else 0);
    (year, month, day)
  }

  /** Two digits of a month or a day number. */
  function TwoDigits(n: int): string
  {
    if n < 0 then "00" else ZeroPadded(n, 2)
  }

  /** A date as `YYYY-MM-DD`; years outside 0..9999 carry a sign. */
  function DateText(d: Date): string
  {
    var (year, month, day) := Civil(d);
    var yearText :=
      if 0 <= year <= 9999 then ZeroPadded(year, 4)
      else if year < 0 then "-" + ZeroPadded(-year, 4)
      else "+" + ZeroPadded(year, 4);
    yearText + "-" + TwoDigits(month) + "-" + TwoDigits(day)
  }

  /** Day 19737 is 2024-01-15. */
  lemma KnownDate()
    ensures Civil(Jan15th2024) == (2024, 1, 15)
  {
    assert 739205 / 146097 == 5;
    assert 8715 / 365 == 23 && 8720 / 1460 == 5 && 8720 / 36524 == 0 && 8720 / 146096 == 0;
    assert 23 / 4 == 5 && 23 / 100 == 0;
    assert 1602 / 153 == 10 && 1532 / 5 == 306;
  }
}
