/** The `useDuration` hook: the length of a period, at year/month
    granularity, rendered as localized text such as "1 year y 6 months".

    A JavaScript `Date` is reduced to what `getFullYear()` and `getMonth()`
    read from it, plus the day and time of day, which the calculation never
    looks at. Parsing date strings, time zones and the clock are not part of
    the model: the caller passes `now` explicitly. */
module Duration {
  import opened Optional

  /** What `Date.prototype.getMonth` returns: 0 for January to 11 for December. */
  type MonthIndex = m: int | 0 <= m < 12

  /** A calendar instant: year and month index, then the parts the duration ignores. */
  datatype Date = Date(year: int, month: MonthIndex, day: int, timeOfDay: int)

  /** The localized words the hook is given (`LiteralsType`). */
  datatype Literals = Literals(year: string, years: string, month: string, months: string)

  /** The separator between the years and months fragments, in every language. */
  const Separator: string := " y "

  /** Whole years and the remaining months of a period. */
  datatype Span = Span(years: int, months: int)

  /** Months since the start of year 0: a linear index of (year, month). */
  function MonthNumber(d: Date): int
  {
    d.year * 12 + d.month
  }

  /** The end of the period: `end` when given, otherwise the current instant. */
  function EndOrNow(end: Option<Date>, now: Date): (e: Date)
    ensures end.Some? ==> e == end.value
    ensures end.None? ==> e == now
  {
    end.GetOr(now)
  }

  /** Subtract years and months, then borrow twelve months when the month
      difference is negative. The borrow keeps the total number of months and
      leaves the months part in 0..11; the two together fix the span. */
  function Difference(s: Date, e: Date): (d: Span)
    ensures 0 <= d.months < 12
    ensures d.years * 12 + d.months == MonthNumber(e) - MonthNumber(s)
  {
    var years := e.year - s.year;
    var months := e.month - s.month;
    if months < 0 then Span(years - 1, months + 12) else Span(years, months)
  }

  /** The span is the quotient and remainder of the month count by twelve. */
  lemma DifferenceIsDivMod(s: Date, e: Date)
    ensures Difference(s, e).years == (MonthNumber(e) - MonthNumber(s)) / 12
    ensures Difference(s, e).months == (MonthNumber(e) - MonthNumber(s)) % 12
  {
  }

  /** An end that is not earlier than the start, at month granularity, gives
      a non-negative number of years, and only such an end does. */
  lemma YearsNonNegativeIff(s: Date, e: Date)
    ensures Difference(s, e).years >= 0 <==> MonthNumber(s) <= MonthNumber(e)
  {
  }

  /** The decimal digit for 0..9. */
  function DigitChar(n: int): (c: char)
    requires 0 <= n < 10
    ensures '0' <= c <= '9'
  {
    "0123456789"[n]
  }

  function DigitValue(c: char): int
  {
    c as int - '0' as int
  }

  /** `${n}` for a natural number: its decimal digits, without leading zeros. */
  function NatToString(n: nat): (r: string)
    ensures |r| > 0
    ensures forall i :: 0 <= i < |r| ==> '0' <= r[i] <= '9'
    ensures r[0] == '0' ==> n == 0
  {
    if n < 10 then [DigitChar(n)] else NatToString(n / 10) + [DigitChar(n % 10)]
  }

  /** The value of a string of decimal digits. */
  function ParseDecimal(s: string): int
  {
    if s == [] then 0 else ParseDecimal(s[..|s| - 1]) * 10 + DigitValue(s[|s| - 1])
  }

  /** Reading back the rendered number gives the number. */
  lemma {:induction false} NatToStringRoundTrip(n: nat)
    ensures ParseDecimal(NatToString(n)) == n
  {
    var r := NatToString(n);
    if n < 10 {
      assert r[..|r| - 1] == [];
    } else {
      NatToStringRoundTrip(n / 10);
      assert r[..|r| - 1] == NatToString(n / 10);
    }
  }

  /** Different numbers render differently. */
  lemma NatToStringInjective(m: nat, n: nat)
    requires NatToString(m) == NatToString(n)
    ensures m == n
  {
    NatToStringRoundTrip(m);
    NatToStringRoundTrip(n);
  }

  /** One fragment: "<n> <singular>" for one, "<n> <plural>" for more, and
      the empty string when `n` is zero or negative. */
  function Fragment(n: int, singular: string, plural: string): (r: string)
    ensures r == "" <==> n <= 0
    ensures n > 0 ==> |r| > |NatToString(n)| && r[..|NatToString(n)|] == NatToString(n)
  {
    if n > 0 then NatToString(n) + " " + (if n > 1 then plural else singular) else ""
  }

  /** The parts that are not empty (`filter(Boolean)` on strings), in order. */
  function NonEmpty(parts: seq<string>): (r: seq<string>)
    ensures forall i :: 0 <= i < |r| ==> r[i] != ""
    ensures |r| <= |parts|
    ensures r == [] <==> forall i :: 0 <= i < |parts| ==> parts[i] == ""
    ensures forall p :: p in r ==> p in parts
    ensures forall p :: p in parts && p != "" ==> p in r
    ensures (forall i :: 0 <= i < |parts| ==> parts[i] != "") ==> r == parts
  {
    if parts == [] then []
    else if parts[0] == "" then NonEmpty(parts[1..])
    else [parts[0]] + NonEmpty(parts[1..])
  }

  /** Filtering distributes over concatenation, so the kept parts stay in
      their original order. */
  lemma {:induction false} NonEmptyAppend(a: seq<string>, b: seq<string>)
    ensures NonEmpty(a + b) == NonEmpty(a) + NonEmpty(b)
  {
    if a == [] {
      assert a + b == b;
    } else {
      assert (a + b)[0] == a[0] && (a + b)[1..] == a[1..] + b;
      NonEmptyAppend(a[1..], b);
    }
  }

  /** `Array.prototype.join(sep)`. */
  function Join(parts: seq<string>, sep: string): (r: string)
    ensures parts == [] ==> r == ""
    ensures |parts| == 1 ==> r == parts[0]
    ensures |parts| == 2 ==> r == parts[0] + sep + parts[1]
    ensures |parts| > 1 ==> |r| >= |parts[0]| + |sep|
  {
    if parts == [] then ""
    else if |parts| == 1 then parts[0]
    else parts[0] + sep + Join(parts[1..], sep)
  }

  /** `[yearsText, monthsText].filter(Boolean).join(" y ")`. */
  function JoinFragments(yearsText: string, monthsText: string): (r: string)
    ensures r == "" <==> yearsText == "" && monthsText == ""
    ensures yearsText == "" ==> r == monthsText
    ensures monthsText == "" ==> r == yearsText
    ensures yearsText != "" && monthsText != "" ==> r == yearsText + Separator + monthsText
  {
    var both := [yearsText, monthsText];
    assert both[1..] == [monthsText] && [monthsText][1..] == [];
    var tail := NonEmpty([monthsText]);
    assert tail == if monthsText == "" then [] else [monthsText];
    var kept := NonEmpty(both);
    assert kept == if yearsText == "" then tail else [yearsText] + tail;
    Join(kept, Separator)
  }

  /** The text for a span: the joined fragments, or "0 <month>" when both
      are empty. */
  function SpanText(lits: Literals, d: Span): (r: string)
    ensures |r| > 0
  {
    var yearsText := Fragment(d.years, lits.year, lits.years);
    var monthsText := Fragment(d.months, lits.month, lits.months);
    var joined := JoinFragments(yearsText, monthsText);
    if joined == "" then "0 " + lits.month else joined
  }

  /** `calculate(start, end)`: the duration from `start` to `end`, or to
      `now` when `end` is missing. The text is never empty. */
  function Calculate(lits: Literals, start: Date, end: Option<Date>, now: Date): (r: string)
    ensures |r| > 0
  {
    SpanText(lits, Difference(start, EndOrNow(end, now)))
  }

  /** A missing end is the current instant. */
  lemma MissingEndMeansNow(lits: Literals, start: Date, now: Date)
    ensures Calculate(lits, start, None, now) == Calculate(lits, start, Some(now), now)
  {
  }

  /** Only the year and month of each date matter: the day, the time of day
      and, when an end is given, the current instant do not change the text. */
  lemma OnlyYearAndMonthMatter(lits: Literals, s: Date, e: Date, s': Date, e': Date, now: Date, now': Date)
    requires s.year == s'.year && s.month == s'.month
    requires e.year == e'.year && e.month == e'.month
    ensures Calculate(lits, s, Some(e), now) == Calculate(lits, s', Some(e'), now')
  {
  }

  /** The four shapes of the text, by the sign of each part of the span. */
  lemma {:induction false} CalculateCases(lits: Literals, s: Date, e: Date, now: Date)
    ensures var d := Difference(s, e);
            var r := Calculate(lits, s, Some(e), now);
            var y := Fragment(d.years, lits.year, lits.years);
            var m := Fragment(d.months, lits.month, lits.months);
            && (d.years > 0 && d.months > 0 ==> r == y + Separator + m)
            && (d.years > 0 && d.months == 0 ==> r == y)
            && (d.years <= 0 && d.months > 0 ==> r == m)
            && (d.years <= 0 && d.months == 0 ==> r == "0 " + lits.month)
  {
  }

  /** The singular word is used for exactly one, the plural for more. */
  lemma FragmentWords(n: int, singular: string, plural: string)
    requires n > 0
    ensures n == 1 ==> Fragment(n, singular, plural) == "1 " + singular
    ensures n > 1 ==> Fragment(n, singular, plural) == NatToString(n) + " " + plural
  {
  }

  /** An end before the start is not rejected: the years part goes negative
      and its fragment is dropped, so only the borrowed months are shown. */
  lemma EndBeforeStart(lits: Literals, s: Date, e: Date, now: Date)
    requires MonthNumber(e) < MonthNumber(s)
    ensures Difference(s, e).years < 0
    ensures Calculate(lits, s, Some(e), now) ==
            if Difference(s, e).months == 0 then "0 " + lits.month
            else Fragment(Difference(s, e).months, lits.month, lits.months)
  {
  }

  /** From June 2021 to December 2022 is one year and six months. */
  lemma ExampleYearAndMonths(lits: Literals, now: Date)
    ensures Calculate(lits, Date(2021, 5, 1, 0), Some(Date(2022, 11, 1, 0)), now)
         == "1 " + lits.year + Separator + "6 " + lits.months
  {
  }

  /** A period that starts and ends in the same month reads "0 <month>". */
  lemma ExampleSameMonth(lits: Literals, now: Date)
    ensures Calculate(lits, Date(2020, 0, 1, 0), Some(Date(2020, 0, 1, 0)), now) == "0 " + lits.month
  {
  }

  /** An end one month before the start reads as eleven months. */
  lemma ExampleOneMonthBackwards(lits: Literals, now: Date)
    ensures Calculate(lits, Date(2022, 1, 1, 0), Some(Date(2022, 0, 1, 0)), now) == "11 " + lits.months
  {
  }
}
