/**
 * Shared vocabulary of the scheduling system: identifiers, dates, the three
 * enumerations of the shared crate, the domain error type with its two
 * renderings, and the calendar arithmetic every scheduling component uses.
 */
module Types {

  /** Identifiers are opaque but totally ordered, as `Uuid` is in Rust. */
  type Uuid = nat

  /** A calendar date as a day number: day 0 is 1970-01-01, a Thursday. */
  type Date = int

  /** An instant in time; only ever produced by the caller's clock. */
  type Timestamp = int

  datatype StaffStatus = Active | Inactive

  datatype Shift = Morning | Evening | DayOff

  datatype JobStatus = Pending | Processing | Completed | Failed

  datatype Option<T> = None | Some(value: T)
  {
    function GetOr(default: T): T
    {
      if Some? then value else default
    }

    /** Rust's `Option::or`: this value if present, otherwise `other`. */
    function Or(other: Option<T>): Option<T>
    {
      if Some? then this else other
    }
  }

  /**
   * The domain error of shared/src/error.rs. `ValidationError` is the extra
   * variant the greedy scheduler raises; the shared enum does not declare it.
   */
  datatype DomainError =
    | NotFound(message: string)
    | InvalidInput(message: string)
    | DatabaseError(message: string)
    | ExternalServiceError(message: string)
    | InternalError(message: string)
    | ValidationError(message: string)

  datatype Result<T> = Ok(value: T) | Err(error: DomainError)

  /** The outcome of an operation that yields no value: `DomainResult<()>`. */
  datatype Outcome = Pass | Fail(error: DomainError)

  /** The `Display` text of an error, as its `#[error]` attribute writes it. */
  function Display(e: DomainError): (text: string)
    ensures |e.message| < |text| && text[|text| - |e.message|..] == e.message
  {
    match e
    case NotFound(m) => "Resource not found: " + m
    case InvalidInput(m) => "Invalid input: " + m
    case DatabaseError(m) => "Database error: " + m
    case ExternalServiceError(m) => "External service error: " + m
    case InternalError(m) => "Internal error: " + m
    case ValidationError(m) => "Validation error: " + m
  }

  /**
   * The derived `Debug` text of an error: the variant name and the payload
   * written as a Rust string literal, which reads back as the message.
   */
  function Debug(e: DomainError): (text: string)
    ensures |text| >= |VariantName(e)| + |e.message| + 4
    ensures text[..|VariantName(e)|] == VariantName(e)
    ensures text[|VariantName(e)|..|VariantName(e)| + 2] == "(\"" && text[|text| - 2..] == "\")"
  {
    EscapeDebugLonger(e.message);
    QuotedSlices(VariantName(e), EscapeDebug(e.message));
    VariantName(e) + "(\"" + EscapeDebug(e.message) + "\")"
  }

  /** Between the brackets and quotes, `Debug` holds the message as a string literal that reads back. */
  lemma DebugReadsBack(e: DomainError)
    ensures var text := Debug(e);
            UnescapeDebug(text[|VariantName(e)| + 2..|text| - 2]) == Some(e.message)
  {
    EscapeDebugRoundTrip(e.message);
    QuotedSlices(VariantName(e), EscapeDebug(e.message));
  }

  /** Where the name, the brackets and the payload sit in `name("payload")`. */
  lemma QuotedSlices(name: string, payload: string)
    ensures var text := name + "(\"" + payload + "\")";
            text[..|name|] == name && text[|name|..|name| + 2] == "(\"" &&
            text[|name| + 2..|text| - 2] == payload && text[|text| - 2..] == "\")"
  {
    var text := name + "(\"" + payload + "\")";
    assert text[..|name|] == name;
    assert text[|name|..|name| + 2] == "(\"";
    assert text[|name| + 2..|text| - 2] == payload;
  }

  // ------------------------------------------------- string literal escaping

  /**
   * A character as `{:?}` writes it inside a string literal: the short
   * escapes for NUL, tab, carriage return and line feed, a backslash before
   * `\` and `"`, `\u{..}` in lower-case hex for the other control
   * characters (C0, DEL and C1), and every other character as itself.
   */
  function EscapeChar(c: char): (t: string)
    ensures |t| >= 1 && (t[0] == '\\' <==> |t| > 1)
  {
    if c in EscapeLetters then ['\\', EscapeLetters[c]]
    else if IsControl(c) then "\\u{" + Hex(c as int) + "}"
    else [c]
  }

  /** The characters with a one-letter escape, and the letter after the backslash. */
  const EscapeLetters: map<char, char> := map['\0' := '0', '\t' := 't', '\r' := 'r', '\n' := 'n', '\\' := '\\', '"' := '"']

  /** The characters Rust's `char::is_control` selects. */
  predicate IsControl(c: char)
  {
    c as int < 0x20 || 0x7f <= c as int < 0xa0
  }

  /** A number below 256 in lower-case hex, without leading zeros. */
  function Hex(n: int): (h: string)
    requires 0 <= n < 0x100
    ensures 1 <= |h| <= 2 && forall i :: 0 <= i < |h| ==> IsHexDigit(h[i])
  {
    if n < 16 then [HexDigit(n)] else [HexDigit(n / 16), HexDigit(n % 16)]
  }

  function HexDigit(d: int): (c: char)
    requires 0 <= d < 16
    ensures IsHexDigit(c) && HexValue(c) == d
  {
    if d < 10 then '0' + d as char else 'a' + (d - 10) as char
  }

  predicate IsHexDigit(c: char)
  {
    '0' <= c <= '9' || 'a' <= c <= 'f'
  }

  function HexValue(c: char): (d: int)
    requires IsHexDigit(c)
    ensures 0 <= d < 16
  {
    if c <= '9' then c as int - '0' as int else c as int - 'a' as int + 10
  }

  /** A string's characters, each as `EscapeChar` writes it. */
  function EscapeDebug(s: string): (t: string)
  {
    Concat(seq(|s|, i requires 0 <= i < |s| => EscapeChar(s[i])))
  }

  /** The strings of `parts`, one after the other. */
  function Concat(parts: seq<string>): string
  {
    if parts == [] then [] else parts[0] + Concat(parts[1..])
  }

  /** Escaping never shortens a string. */
  lemma {:induction false} EscapeDebugLonger(s: string)
    ensures |EscapeDebug(s)| >= |s|
  {
    if s != [] {
      EscapeDebugCons(s);
      EscapeDebugLonger(s[1..]);
    }
  }

  /** Escaping a non-empty string escapes its first character, then the rest. */
  lemma EscapeDebugCons(s: string)
    requires s != []
    ensures EscapeDebug(s) == EscapeChar(s[0]) + EscapeDebug(s[1..])
  {
    var parts := seq(|s|, i requires 0 <= i < |s| => EscapeChar(s[i]));
    assert parts[1..] == seq(|s[1..]|, i requires 0 <= i < |s[1..]| => EscapeChar(s[1..][i]));
  }

  function Prepend(c: char, rest: Option<string>): Option<string>
  {
    if rest.Some? then Some([c] + rest.value) else None
  }

  /**
   * Reads a string literal's body back: the inverse of `EscapeDebug`,
   * `None` at a backslash that starts none of the escapes it writes.
   */
  function UnescapeDebug(t: string): (s: Option<string>)
    decreases |t|
  {
    if t == [] then Some([])
    else if t[0] != '\\' then Prepend(t[0], UnescapeDebug(t[1..]))
    else if |t| >= 2 && t[1] in ShortEscapes then Prepend(ShortEscapes[t[1]], UnescapeDebug(t[2..]))
    else if |t| >= 5 && t[1] == 'u' && t[2] == '{' && IsHexDigit(t[3]) && t[4] == '}' then
      Prepend(HexValue(t[3]) as char, UnescapeDebug(t[5..]))
    else if |t| >= 6 && t[1] == 'u' && t[2] == '{' && IsHexDigit(t[3]) && IsHexDigit(t[4]) && t[5] == '}' then
      Prepend((16 * HexValue(t[3]) + HexValue(t[4])) as char, UnescapeDebug(t[6..]))
    else None
  }

  /** The one-letter escapes, by the letter after the backslash. */
  const ShortEscapes: map<char, char> := map['0' := '\0', 't' := '\t', 'r' := '\r', 'n' := '\n', '\\' := '\\', '"' := '"']

  /** One escaped character, followed by anything, reads back as that character first. */
  lemma EscapeCharRoundTrip(c: char, rest: string)
    ensures UnescapeDebug(EscapeChar(c) + rest) == Prepend(c, UnescapeDebug(rest))
  {
    var t := EscapeChar(c) + rest;
    if c in EscapeLetters {
      assert t[2..] == rest;
      assert EscapeLetters[c] in ShortEscapes && ShortEscapes[EscapeLetters[c]] == c;
    } else if IsControl(c) {
      var h := Hex(c as int);
      assert t == "\\u{" + h + "}" + rest;
      if |h| == 1 {
        assert t[5..] == rest;
      } else {
        assert t[6..] == rest;
        assert 16 * HexValue(t[3]) + HexValue(t[4]) == c as int;
      }
    } else {
      assert t[1..] == rest;
    }
  }

  /** Escaping a string and reading it back gives the string. */
  lemma {:induction false} EscapeDebugRoundTrip(s: string)
    ensures UnescapeDebug(EscapeDebug(s)) == Some(s)
  {
    if s != [] {
      EscapeDebugCons(s);
      EscapeDebugRoundTrip(s[1..]);
      EscapeCharRoundTrip(s[0], EscapeDebug(s[1..]));
      assert [s[0]] + s[1..] == s;
    }
  }

  function VariantName(e: DomainError): string
  {
    match e
    case NotFound(_) => "NotFound"
    case InvalidInput(_) => "InvalidInput"
    case DatabaseError(_) => "DatabaseError"
    case ExternalServiceError(_) => "ExternalServiceError"
    case InternalError(_) => "InternalError"
    case ValidationError(_) => "ValidationError"
  }

  // ---------------------------------------------------------------- calendar

  /** 1970-01-05, the first Monday of the day-number scale. */
  const MondayEpoch: Date := 4

  /** Days from Monday: 0 for a Monday, 6 for a Sunday (`num_days_from_monday`). */
  function Weekday(d: Date): (w: nat)
    ensures w < 7
  {
    (d - MondayEpoch) % 7
  }

  predicate IsMonday(d: Date)
  {
    Weekday(d) == 0
  }

  /** The Monday on or before `d`. */
  function WeekStart(d: Date): (ws: Date)
    ensures IsMonday(ws) && ws <= d < ws + 7
  {
    d - Weekday(d)
  }

  /** Adding whole weeks keeps the weekday. */
  lemma WeekdayShift(d: Date, k: int)
    ensures Weekday(d + 7 * k) == Weekday(d)
  {
  }

  /** Every date of a Monday-to-Sunday week has that week's Monday as start. */
  lemma {:induction false} WeekStartUnique(monday: Date, d: Date)
    requires IsMonday(monday) && monday <= d < monday + 7
    ensures WeekStart(d) == monday
    ensures Weekday(d) == d - monday
  {
    var q := (monday - MondayEpoch) / 7;
    assert monday - MondayEpoch == 7 * q;
    assert d - MondayEpoch == 7 * q + (d - monday);
  }

  /** Moving one element from `left` to `done` keeps `done` the complement of `left` in `all`. */
  lemma PartitionStep<T>(all: set<T>, left: set<T>, done: set<T>, x: T)
    requires left <= all && done == all - left && x in left
    ensures left - {x} <= all && done + {x} == all - (left - {x})
    ensures x !in done && |done + {x}| == |done| + 1
  {
  }

  /** A non-empty set of dates has a member to pick. */
  lemma SomeDateIn(dates: set<Date>)
    requires dates != {}
    ensures exists d :: d in dates
  {
    assert (forall d :: d !in dates) ==> dates == {};
  }

  /** The set of dates `from`, …, `from + n - 1`. */
  function DateRange(from: Date, n: nat): (r: set<Date>)
    ensures forall d :: d in r <==> from <= d < from + n
  {
    if n == 0 then {} else DateRange(from, n - 1) + {from + n - 1}
  }

  lemma {:induction false} DateRangeSize(from: Date, n: nat)
    ensures |DateRange(from, n)| == n
  {
    if n > 0 {
      DateRangeSize(from, n - 1);
    }
  }

  /** `k` copies of `width` added up, to keep products out of loop invariants. */
  function Times(width: nat, k: nat): nat
  {
    if k == 0 then 0 else Times(width, k - 1) + width
  }

  lemma {:induction false} TimesIsProduct(width: nat, k: nat)
    ensures Times(width, k) == width * k
  {
    if k > 0 {
      TimesIsProduct(width, k - 1);
    }
  }

  /** 2024-01-15, a Monday. */
  const Jan15th2024: Date := 19737

  /** 2026-02-09, the Monday the integration tests schedule from. */
  const Feb9th2026: Date := 20493

  lemma KnownMondays()
    ensures IsMonday(Jan15th2024) && IsMonday(Feb9th2026)
    ensures !IsMonday(Jan15th2024 + 1)
  {
  }
}
