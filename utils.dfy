/** `Utils`: the path-id validator, and the date conversion every mapper uses, together
    with the pieces of `java.lang.Long` and `java.time` those two rely on. */
module Utils {
  import opened Common

  // ---------------------------------------------------------------------------
  // Digits and the id validator
  // ---------------------------------------------------------------------------

  /** A decimal digit. Only the ASCII digits are modelled. */
  predicate IsDigit(c: char) {
    '0' <= c <= '9'
  }

  predicate AllDigits(s: string) {
    forall i | 0 <= i < |s| :: IsDigit(s[i])
  }

  /** What `contemApenasNumeros` decides: the text is present, non-empty and made of digits only. */
  predicate OnlyDigits(texto: Option<string>) {
    texto.Some? && |texto.value| > 0 && AllDigits(texto.value)
  }

  /** `contemApenasNumeros`: null and "" are rejected up front, then every character is checked in turn. */
  method ContemApenasNumeros(texto: Option<string>) returns (b: bool)
    ensures b <==> OnlyDigits(texto)
  {
    if texto.None? || |texto.value| == 0 {
      return false;
    }
    var s := texto.value;
    for i := 0 to |s|
      invariant forall j | 0 <= j < i :: IsDigit(s[j])
    {
      if !IsDigit(s[i]) {
        return false;
      }
    }
    return true;
  }

  /** The fixtures "1" (a valid id) and "abc" (an invalid one), null and the empty string. */
  lemma ContemApenasNumerosExamples()
    ensures OnlyDigits(Some("1"))
    ensures !OnlyDigits(Some("abc")) && !OnlyDigits(Some("")) && !OnlyDigits(None)
  {
    assert !IsDigit("abc"[0]);
  }

  /** Appending a digit keeps a string accepted. */
  lemma AppendDigitKeepsAccepted(s: string, c: char)
    requires OnlyDigits(Some(s)) && IsDigit(c)
    ensures OnlyDigits(Some(s + [c]))
  {
    assert forall i | 0 <= i < |s| :: (s + [c])[i] == s[i];
  }

  /** One non-digit anywhere rejects the whole string. */
  lemma NonDigitRejects(s: string, i: int)
    requires 0 <= i < |s| && !IsDigit(s[i])
    ensures !OnlyDigits(Some(s))
  {
  }

  function DigitValue(c: char): nat
    requires IsDigit(c)
  {
    (c as int) - ('0' as int)
  }

  function DigitChar(d: nat): (c: char)
    requires d < 10
    ensures IsDigit(c) && DigitValue(c) == d
  {
    (('0' as int) + d) as char
  }

  /** The value of a digit string, most significant digit first (leading zeros allowed). */
  function DigitsValue(s: string): nat
    requires AllDigits(s)
    decreases |s|
  {
    if |s| == 0 then 0 else DigitsValue(s[..|s| - 1]) * 10 + DigitValue(s[|s| - 1])
  }

  function Pow10(w: nat): (p: nat)
    ensures p >= 1
  {
    if w == 0 then 1 else 10 * Pow10(w - 1)
  }

  /** The last `w` decimal digits of `n`, zero-padded on the left. */
  function PaddedDigits(n: nat, w: nat): (r: string)
    ensures |r| == w && AllDigits(r)
  {
    if w == 0 then "" else PaddedDigits(n / 10, w - 1) + [DigitChar(n % 10)]
  }

  /** The shortest decimal spelling of `n`, as `Long.toString` prints it. */
  function NatToString(n: nat): (r: string)
    ensures |r| >= 1 && AllDigits(r)
  {
    if n < 10 then [DigitChar(n)] else NatToString(n / 10) + [DigitChar(n % 10)]
  }

  lemma {:induction false} PaddedDigitsRoundTrip(n: nat, w: nat)
    requires n < Pow10(w)
    ensures DigitsValue(PaddedDigits(n, w)) == n
  {
    if w > 0 {
      var p := PaddedDigits(n / 10, w - 1);
      var s := p + [DigitChar(n % 10)];
      assert s[..|s| - 1] == p;
      PaddedDigitsRoundTrip(n / 10, w - 1);
    }
  }

  lemma {:induction false} NatToStringRoundTrip(n: nat)
    ensures DigitsValue(NatToString(n)) == n
  {
    if n >= 10 {
      var p := NatToString(n / 10);
      var s := p + [DigitChar(n % 10)];
      assert s[..|s| - 1] == p;
      NatToStringRoundTrip(n / 10);
    } else {
      var s := [DigitChar(n)];
      assert s[..0] == [];
    }
  }

  /** A number at least 10^k needs more than k digits; one below 10^k needs at most k. */
  lemma {:induction false} NatToStringLength(n: nat, k: nat)
    ensures n >= Pow10(k) ==> |NatToString(n)| > k
    ensures 1 <= k && n < Pow10(k) ==> |NatToString(n)| <= k
  {
    if n >= 10 && k >= 1 {
      NatToStringLength(n / 10, k - 1);
    }
  }

  // ---------------------------------------------------------------------------
  // java.lang.Long: the id a path segment or a request field names
  // ---------------------------------------------------------------------------

  const MinLong: int := -0x8000_0000_0000_0000
  const MaxLong: int := 0x7fff_ffff_ffff_ffff

  /** A Java `long`. */
  type Long = x: int | MinLong <= x <= MaxLong

  /** `Long.valueOf(s)`: an optional sign, then one or more digits, whose value must fit
      in 64 bits; anything else throws `NumberFormatException` (here `None`). */
  function LongValueOf(s: string): Option<Long> {
    var v: int :=
      if |s| > 1 && (s[0] == '-' || s[0] == '+') && AllDigits(s[1..]) then
        (if s[0] == '-' then 0 - DigitsValue(s[1..]) as int else DigitsValue(s[1..]))
      else if |s| > 0 && AllDigits(s) then DigitsValue(s)
      else MaxLong + 1;
    if MinLong <= v <= MaxLong then Some(v) else None
  }

  /** `String.valueOf(Long)`: "null" for null, the decimal spelling otherwise. */
  function StringValueOf(x: Option<Long>): string {
    match x
    case None => "null"
    case Some(v) => if v < 0 then "-" + NatToString(-(v as int)) else NatToString(v)
  }

  /** `Long.valueOf(String.valueOf(x))` gives `x` back, and fails exactly for null. */
  lemma LongValueOfStringValueOf(x: Option<Long>)
    ensures LongValueOf(StringValueOf(x)) == x
  {
    match x
    case None =>
      assert !IsDigit("null"[0]);
    case Some(v) =>
      if v < 0 {
        var w := -(v as int);
        var s := "-" + NatToString(w);
        assert s[1..] == NatToString(w);
        assert !IsDigit(s[0]);
        NatToStringRoundTrip(w);
      } else {
        NatToStringRoundTrip(v);
        assert IsDigit(NatToString(v)[0]);
      }
  }

  /** An id accepted by `contemApenasNumeros` is parsed by `Long.valueOf` to its digit
      value, unless that value overflows 64 bits. */
  lemma LongValueOfValidId(id: Option<string>)
    requires OnlyDigits(id)
    ensures DigitsValue(id.value) <= MaxLong ==> LongValueOf(id.value) == Some(DigitsValue(id.value))
    ensures DigitsValue(id.value) > MaxLong ==> LongValueOf(id.value).None?
  {
    assert IsDigit(id.value[0]);
  }

  /** The id a path segment names, as `Long.valueOf` reads it; null does not parse. */
  function Key(id: Option<string>): Option<Long> {
    match id
    case None => None
    case Some(s) => LongValueOf(s)
  }

  /** An id that passes `contemApenasNumeros` and fits in 64 bits names the row under its
      digit value. */
  lemma KeyOfValidId(id: Option<string>)
    requires OnlyDigits(id) && DigitsValue(id.value) <= MaxLong
    ensures Key(id) == Some(DigitsValue(id.value))
  {
    LongValueOfValidId(id);
  }

  // ---------------------------------------------------------------------------
  // java.time: dates and their "yyyy-MM-dd" parsing
  // ---------------------------------------------------------------------------

  datatype LocalDate = LocalDate(year: int, month: int, day: int)

  datatype LocalDateTime = LocalDateTime(date: LocalDate, hour: int, minute: int, second: int, nano: int)

  /** The largest year `java.time` represents. */
  const MaxYear := 999_999_999

  predicate IsLeapYear(year: int) {
    year % 4 == 0 && (year % 100 != 0 || year % 400 == 0)
  }

  function LengthOfMonth(year: int, month: int): (n: int)
    ensures 28 <= n <= 31
  {
    if month == 2 then (if IsLeapYear(year) then 29 else 28)
    else if month == 4 || month == 6 || month == 9 || month == 11 then 30
    else 31
  }

  /** A real calendar date in the range `LocalDate` accepts from this pattern. */
  predicate IsValidDate(d: LocalDate) {
    1 <= d.year <= MaxYear && 1 <= d.month <= 12 && 1 <= d.day <= LengthOfMonth(d.year, d.month)
  }

  predicate IsStartOfDay(t: LocalDateTime) {
    t.hour == 0 && t.minute == 0 && t.second == 0 && t.nano == 0
  }

  function AtStartOfDay(d: LocalDate): (t: LocalDateTime)
    ensures IsStartOfDay(t) && t.date == d
  {
    LocalDateTime(d, 0, 0, 0, 0)
  }

  /** The `yyyy` field under strict parsing: exactly four digits, or '+' followed by
      five to nineteen digits (a sign is only taken once the width exceeds four). */
  function ParseYearField(y: string): Option<int> {
    if |y| == 4 && AllDigits(y) then Some(DigitsValue(y))
    else if 6 <= |y| <= 20 && y[0] == '+' && AllDigits(y[1..]) then Some(DigitsValue(y[1..]))
    else None
  }

  /** The three fields of "yyyy-MM-dd" as the strict pattern cuts them: the text ends
      with '-', two digits, '-', two digits, and the year field is what comes before. */
  function DateFields(s: string): (r: Option<(string, string, string)>)
    ensures r.Some? ==> |r.value.1| == 2 && |r.value.2| == 2 && AllDigits(r.value.1) && AllDigits(r.value.2)
  {
    if |s| < 10 then None
    else
      var n := |s| - 6;
      if s[n] != '-' || s[n + 3] != '-' || !AllDigits(s[n + 1..n + 3]) || !AllDigits(s[n + 4..]) then None
      else Some((s[..n], s[n + 1..n + 3], s[n + 4..]))
  }

  /** The SMART resolver: a year from 1 to `MaxYear`, a month from 1 to 12 and a day from
      1 to 31, a day past the end of its month moved back to the month's last day. */
  function ResolveDate(year: int, month: int, day: int): (r: Option<LocalDate>)
    ensures r.Some? ==> IsValidDate(r.value)
    ensures r.Some? <==> 1 <= year <= MaxYear && 1 <= month <= 12 && 1 <= day <= 31
  {
    if year < 1 || year > MaxYear || month < 1 || month > 12 || day < 1 || day > 31 then None
    else Some(LocalDate(year, month, if day <= LengthOfMonth(year, month) then day else LengthOfMonth(year, month)))
  }

  /** A date the resolver leaves alone is exactly a valid one. */
  lemma ResolveValidDate(d: LocalDate)
    ensures ResolveDate(d.year, d.month, d.day) == Some(d) <==> IsValidDate(d)
  {
  }

  /** `LocalDate.parse(text, ofPattern("yyyy-MM-dd"))`: the fields cut apart, the year
      field read, the date resolved. Null and every other failure are `None`. */
  function ParseLocalDate(text: Option<string>): (r: Option<LocalDate>)
    ensures r.Some? ==> IsValidDate(r.value)
  {
    if text.None? then None
    else
      match DateFields(text.value)
      case None => None
      case Some(f) =>
        match ParseYearField(f.0)
        case None => None
        case Some(year) => ResolveDate(year, DigitsValue(f.1), DigitsValue(f.2))
  }

  /** `convertStringToLocalDateTime`: the parsed date at the start of its day. */
  function ConvertStringToLocalDateTime(text: Option<string>): (r: Option<LocalDateTime>)
    ensures r.Some? <==> ParseLocalDate(text).Some?
    ensures r.Some? ==> IsStartOfDay(r.value) && IsValidDate(r.value.date) && r.value.date == ParseLocalDate(text).value
  {
    match ParseLocalDate(text)
    case None => None
    case Some(d) => Some(AtStartOfDay(d))
  }

  /** The text names a calendar date, so the conversion above succeeds. */
  predicate DateParses(s: Option<string>) {
    ParseLocalDate(s).Some?
  }

  /** The year as `LocalDate.toString()` writes it: four zero-padded digits up to 9999,
      '+' and the digits above that. */
  function YearText(year: nat): string {
    if year <= 9999 then PaddedDigits(year, 4) else "+" + NatToString(year)
  }

  /** `LocalDate.toString()`: the year, then "-MM-dd". */
  function FormatLocalDate(d: LocalDate): string
    requires IsValidDate(d)
  {
    YearText(d.year) + "-" + PaddedDigits(d.month, 2) + "-" + PaddedDigits(d.day, 2)
  }

  /** The year field reads back every year `java.time` holds. */
  lemma YearTextParses(year: nat)
    requires 1 <= year <= MaxYear
    ensures |YearText(year)| >= 4 && ParseYearField(YearText(year)) == Some(year)
  {
    assert Pow10(4) == 10000;
    if year <= 9999 {
      PaddedDigitsRoundTrip(year, 4);
    } else {
      var y := YearText(year);
      assert Pow10(9) == 1_000_000_000;
      NatToStringLength(year, 4);
      NatToStringLength(year, 9);
      NatToStringRoundTrip(year);
      assert y[1..] == NatToString(year);
    }
  }

  /** The pattern cuts "year-MM-dd" back into its three fields. */
  lemma DateFieldsOf(y: string, mm: string, dd: string)
    requires |y| >= 4 && |mm| == 2 && |dd| == 2 && AllDigits(mm) && AllDigits(dd)
    ensures DateFields(y + "-" + mm + "-" + dd) == Some((y, mm, dd))
  {
    var s := y + "-" + mm + "-" + dd;
    var tail := ['-', mm[0], mm[1], '-', dd[0], dd[1]];
    assert s == y + tail;
    var n := |y|;
    assert s[..n] == y;
    assert s[n + 1..n + 3] == mm;
    assert s[n + 4..] == dd;
  }

  /** Every valid date survives format-then-parse: parsing is exact on well-formed input. */
  lemma ParseFormatRoundTrip(d: LocalDate)
    requires IsValidDate(d)
    ensures ParseLocalDate(Some(FormatLocalDate(d))) == Some(d)
    ensures ConvertStringToLocalDateTime(Some(FormatLocalDate(d))) == Some(AtStartOfDay(d))
  {
    assert Pow10(2) == 100;
    PaddedDigitsRoundTrip(d.month, 2);
    PaddedDigitsRoundTrip(d.day, 2);
    YearTextParses(d.year);
    DateFieldsOf(YearText(d.year), PaddedDigits(d.month, 2), PaddedDigits(d.day, 2));
    ResolveValidDate(d);
  }

  lemma DigitsValueOfTwo(a: char, b: char)
    requires IsDigit(a) && IsDigit(b)
    ensures DigitsValue([a, b]) == 10 * DigitValue(a) + DigitValue(b)
  {
    assert [a, b][..1] == [a];
    assert [a][..0] == [];
    assert DigitsValue([a]) == DigitValue(a);
  }

  lemma DigitsValueOfFour(a: char, b: char, c: char, d: char)
    requires IsDigit(a) && IsDigit(b) && IsDigit(c) && IsDigit(d)
    ensures DigitsValue([a, b, c, d]) == 1000 * DigitValue(a) + 100 * DigitValue(b) + 10 * DigitValue(c) + DigitValue(d)
  {
    assert [a, b, c, d][..3] == [a, b, c];
    assert [a, b, c][..2] == [a, b];
    DigitsValueOfTwo(a, b);
    assert DigitsValue([a, b, c]) == 100 * DigitValue(a) + 10 * DigitValue(b) + DigitValue(c);
  }

  /** The fixture date: "2024-05-01" is midnight of 1 May 2024. */
  lemma ConvertFixtureDate()
    ensures ConvertStringToLocalDateTime(Some("2024-05-01")) == Some(LocalDateTime(LocalDate(2024, 5, 1), 0, 0, 0, 0))
  {
    var a := "2024-05-01";
    assert a[..4] == ['2', '0', '2', '4'] && a[5..7] == ['0', '5'] && a[8..] == ['0', '1'];
    DigitsValueOfFour('2', '0', '2', '4');
    DigitsValueOfTwo('0', '5');
    DigitsValueOfTwo('0', '1');
    assert ParseYearField(a[..4]) == Some(2024);
  }

  /** "9999-99-99" names month 99 and is rejected; so is null. */
  lemma ConvertRejectsInvalid()
    ensures ConvertStringToLocalDateTime(Some("9999-99-99")).None?
    ensures ConvertStringToLocalDateTime(None).None?
  {
    var b := "9999-99-99";
    assert b[5..7] == ['9', '9'];
    DigitsValueOfTwo('9', '9');
  }

  /** The SMART resolver turns 30 February into the last day of February. */
  lemma ConvertClampsDay()
    ensures ConvertStringToLocalDateTime(Some("2023-02-30")) == Some(LocalDateTime(LocalDate(2023, 2, 28), 0, 0, 0, 0))
  {
    var c := "2023-02-30";
    assert c[..4] == ['2', '0', '2', '3'] && c[5..7] == ['0', '2'] && c[8..] == ['3', '0'];
    DigitsValueOfFour('2', '0', '2', '3');
    DigitsValueOfTwo('0', '2');
    DigitsValueOfTwo('3', '0');
    assert ParseYearField(c[..4]) == Some(2023);
  }

  // ---------------------------------------------------------------------------
  // Ordering of LocalDateTime (`isBefore`, used by the ORDER BY queries)
  // ---------------------------------------------------------------------------

  /** `a.isBefore(b)`: lexicographic on year, month, day, hour, minute, second, nanosecond. */
  predicate IsBefore(a: LocalDateTime, b: LocalDateTime) {
    if a.date.year != b.date.year then a.date.year < b.date.year
    else if a.date.month != b.date.month then a.date.month < b.date.month
    else if a.date.day != b.date.day then a.date.day < b.date.day
    else if a.hour != b.hour then a.hour < b.hour
    else if a.minute != b.minute then a.minute < b.minute
    else if a.second != b.second then a.second < b.second
    else a.nano < b.nano
  }

  /** Ascending order: `a` does not come after `b`. */
  predicate NotAfter(a: LocalDateTime, b: LocalDateTime) {
    !IsBefore(b, a)
  }

  lemma NotAfterTotal(a: LocalDateTime, b: LocalDateTime)
    ensures NotAfter(a, b) || NotAfter(b, a)
  {
  }

  lemma NotAfterTransitive(a: LocalDateTime, b: LocalDateTime, c: LocalDateTime)
    requires NotAfter(a, b) && NotAfter(b, c)
    ensures NotAfter(a, c)
  {
  }

  /** Two instants each not after the other are the same instant. */
  lemma NotAfterAntisymmetric(a: LocalDateTime, b: LocalDateTime)
    requires NotAfter(a, b) && NotAfter(b, a)
    ensures a == b
  {
  }
}
