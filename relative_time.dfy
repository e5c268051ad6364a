/** `formatDistance`: the phrase the client shows for how far one instant is
    from another ("3 hours ago", "in a few seconds"). Instants are whole
    milliseconds since the epoch, as `Date.getTime()` gives them. */
module RelativeTime {

  const MINUTE: nat := 60
  const HOUR: nat := MINUTE * 60
  const DAY: nat := HOUR * 24
  const WEEK: nat := DAY * 7
  const MONTH: nat := DAY * 30
  const YEAR: nat := DAY * 365

  function Abs(x: int): nat
  {
    if x < 0 then -x else x
  }

  /** `Math.round(ms / 1000)` for a non-negative `ms`: halves round up. */
  function RoundedSeconds(ms: nat): (s: nat)
    ensures 1000 * s <= ms + 500 < 1000 * s + 1000
  {
    (ms + 500) / 1000
  }

  /** The whole seconds between the two instants, whichever comes first. */
  function ElapsedSeconds(date: int, baseDate: int): nat
  {
    RoundedSeconds(Abs(baseDate - date))
  }

  // ---------------------------------------------------------------------------
  // Units

  datatype Unit = Minute | Hour | Day | Week | Month | Year

  function Size(u: Unit): nat
  {
    match u
    case Minute => MINUTE
    case Hour => HOUR
    case Day => DAY
    case Week => WEEK
    case Month => MONTH
    case Year => YEAR
  }

  function Singular(u: Unit): string
  {
    match u
    case Minute => "minute"
    case Hour => "hour"
    case Day => "day"
    case Week => "week"
    case Month => "month"
    case Year => "year"
  }

  function Plural(u: Unit): string
  {
    match u
    case Minute => "minutes"
    case Hour => "hours"
    case Day => "days"
    case Week => "weeks"
    case Month => "months"
    case Year => "years"
  }

  /** The unit of the `else if` chain for a distance of at least a minute: each
      unit covers the half-open range from its own size to the next unit's. */
  function UnitFor(seconds: nat): (u: Unit)
    requires seconds >= MINUTE
    ensures u == Minute <==> seconds < 3600
    ensures u == Hour <==> 3600 <= seconds < 86400
    ensures u == Day <==> 86400 <= seconds < 604800
    ensures u == Week <==> 604800 <= seconds < 2592000
    ensures u == Month <==> 2592000 <= seconds < 31536000
    ensures u == Year <==> 31536000 <= seconds
  {
    if seconds < HOUR then Minute
    else if seconds < DAY then Hour
    else if seconds < WEEK then Day
    else if seconds < MONTH then Week
    else if seconds < YEAR then Month
    else Year
  }

  /** `value === 1 ? 'minute' : 'minutes'` and its five siblings. */
  function UnitWord(u: Unit, value: nat): (w: string)
    ensures w == Singular(u) <==> value == 1
    ensures value != 1 ==> w == Singular(u) + "s"
  {
    if value == 1 then Singular(u) else Plural(u)
  }

  // ---------------------------------------------------------------------------
  // Decimal numerals, as `${value}` writes a non-negative integer

  predicate IsDigit(c: char)
  {
    '0' <= c <= '9'
  }

  function DigitChar(d: nat): (c: char)
    requires d < 10
    ensures IsDigit(c)
  {
    ('0' as int + d) as char
  }

  function DigitValue(c: char): (d: nat)
    requires IsDigit(c)
    ensures d < 10
  {
    c as int - '0' as int
  }

  /** The decimal numeral of `n`, most significant digit first. */
  function Numeral(n: nat): (s: string)
    ensures |s| >= 1
    ensures forall i :: 0 <= i < |s| ==> IsDigit(s[i])
  {
    if n < 10 then [DigitChar(n)] else Numeral(n / 10) + [DigitChar(n % 10)]
  }

  /** The value of a string of decimal digits. */
  function ParseNumeral(s: string): nat
    requires forall i :: 0 <= i < |s| ==> IsDigit(s[i])
  {
    if s == [] then 0 else 10 * ParseNumeral(s[..|s| - 1]) + DigitValue(s[|s| - 1])
  }

  /** Reading a numeral back gives the number that was written. */
  lemma {:induction false} NumeralRoundTrip(n: nat)
    ensures ParseNumeral(Numeral(n)) == n
  {
    var s := Numeral(n);
    if n < 10 {
      assert s[..0] == [];
    } else {
      NumeralRoundTrip(n / 10);
      assert s[..|s| - 1] == Numeral(n / 10);
      assert DigitValue(s[|s| - 1]) == n % 10;
    }
  }

  /** How many digits `s` starts with. */
  function DigitRun(s: string): (k: nat)
    ensures k <= |s|
    ensures forall i :: 0 <= i < k ==> IsDigit(s[i])
  {
    if s == [] || !IsDigit(s[0]) then 0 else 1 + DigitRun(s[1..])
  }

  /** The number a phrase starts with: the value of its leading digits. */
  function LeadingNumber(s: string): nat
  {
    ParseNumeral(s[..DigitRun(s)])
  }

  lemma {:induction false} DigitRunOfDigits(d: string, rest: string)
    requires forall i :: 0 <= i < |d| ==> IsDigit(d[i])
    requires rest == [] || !IsDigit(rest[0])
    ensures DigitRun(d + rest) == |d|
  {
    if d != [] {
      assert (d + rest)[1..] == d[1..] + rest;
      DigitRunOfDigits(d[1..], rest);
    } else {
      assert d + rest == rest;
    }
  }

  // ---------------------------------------------------------------------------
  // The formatter

  function Suffix(isPast: bool): string
  {
    if isPast then "ago" else "from now"
  }

  /** `formatDistance(date, baseDate)`: the phrase starts with a count exactly
      from a minute on. */
  function FormatDistance(date: int, baseDate: int): (r: string)
    ensures |r| > 0 && (IsDigit(r[0]) <==> ElapsedSeconds(date, baseDate) >= MINUTE)
  {
    var seconds := ElapsedSeconds(date, baseDate);
    var isPast := date < baseDate;
    if seconds < MINUTE then
      if isPast then "just now" else "in a few seconds"
    else
      var unit := UnitFor(seconds);
      var value := seconds / Size(unit);
      Numeral(value) + " " + UnitWord(unit, value) + " " + Suffix(isPast)
  }

  /** The phrase depends only on the distance and on which instant is earlier. */
  lemma FormatDependsOnDistanceAndSide(d1: int, b1: int, d2: int, b2: int)
    requires Abs(b1 - d1) == Abs(b2 - d2) && (d1 < b1 <==> d2 < b2)
    ensures FormatDistance(d1, b1) == FormatDistance(d2, b2)
  {
  }

  /** Under a minute the phrase is "just now" for a past date and "in a few
      seconds" otherwise, the equal instants included. */
  lemma UnderAMinute(date: int, baseDate: int)
    requires Abs(baseDate - date) < 59500
    ensures FormatDistance(date, baseDate) == (if date < baseDate then "just now" else "in a few seconds")
    ensures FormatDistance(date, date) == "in a few seconds"
  {
  }

  /** The count in a phrase is at least one, and bounded by the next unit up. */
  lemma ValueBounds(seconds: nat)
    requires seconds >= MINUTE
    ensures var u := UnitFor(seconds); var v := seconds / Size(u);
      && v >= 1
      && (u == Minute ==> v <= 59)
      && (u == Hour ==> v <= 23)
      && (u == Day ==> v <= 6)
      && (u == Week ==> v <= 4)
      && (u == Month ==> v <= 12)
  {
  }

  /** A phrase that starts with a numeral and a space reads back as that number. */
  lemma {:induction false} PhraseReadsBack(v: nat, tail: string)
    ensures LeadingNumber(Numeral(v) + " " + tail) == v
  {
    var n := Numeral(v);
    var rest := " " + tail;
    var r := n + rest;
    assert r == Numeral(v) + " " + tail;
    DigitRunOfDigits(n, rest);
    assert r[..DigitRun(r)] == n;
    NumeralRoundTrip(v);
  }

  /** From a minute on, the phrase is the count, its unit (singular exactly when
      the count is one) and the suffix, and its leading number reads back as
      `floor(seconds / unit size)`. */
  lemma FormatReadsBack(date: int, baseDate: int)
    requires ElapsedSeconds(date, baseDate) >= MINUTE
    ensures var seconds := ElapsedSeconds(date, baseDate);
            var u := UnitFor(seconds);
            var v := seconds / Size(u);
            var r := FormatDistance(date, baseDate);
            && LeadingNumber(r) == v
            && r == Numeral(v) + " " + UnitWord(u, v) + " " + Suffix(date < baseDate)
  {
    var seconds := ElapsedSeconds(date, baseDate);
    var u := UnitFor(seconds);
    var v := seconds / Size(u);
    var tail := UnitWord(u, v) + " " + Suffix(date < baseDate);
    PhraseReadsBack(v, tail);
    assert Numeral(v) + " " + tail == Numeral(v) + " " + UnitWord(u, v) + " " + Suffix(date < baseDate);
  }

  /** The phrase says "ago" or "just now" exactly when `date` is before `baseDate`. */
  lemma {:induction false} PastIffAgo(date: int, baseDate: int)
    ensures var r := FormatDistance(date, baseDate);
            date < baseDate <==> (r == "just now" || (|r| >= 3 && r[|r| - 3..] == "ago"))
  {
    var r := FormatDistance(date, baseDate);
    var seconds := ElapsedSeconds(date, baseDate);
    if seconds >= MINUTE {
      var u := UnitFor(seconds);
      var v := seconds / Size(u);
      var head := Numeral(v) + " " + UnitWord(u, v) + " ";
      assert r == head + Suffix(date < baseDate);
      if date < baseDate {
        assert r[|r| - 3..] == "ago";
      } else {
        assert r[|r| - 1] == 'w';
        assert r[|r| - 3..][2] == 'w';
      }
    }
  }
}
