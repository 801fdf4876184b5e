/**
 The strict IMF-fixdate parser (src/ldp/conditional.rs), section 5.6.7 of RFC 9110.

 `FormatHttpDate` writes the one text of an instant.  Parsing is proved to be its exact
 inverse: every second of the years 0000 to 9999 parses back from its text, and every
 accepted header is, after trimming, the text of its result.
 */
module HttpDate {
  import opened Text
  import opened Calendar

  function DigitValue(c: char): int { c as int - '0' as int }

  function TwoDigits(b: string, at: nat): Option<int>
    requires at + 2 <= |b|
  {
    if IsAsciiDigit(b[at]) && IsAsciiDigit(b[at + 1])
    then Some(DigitValue(b[at]) * 10 + DigitValue(b[at + 1]))
    else None
  }

  /** The number written by a run of characters, if all of them are digits. */
  function DigitsValue(s: string): Option<int> {
    if s == "" then Some(0)
    else
      match DigitsValue(s[..|s| - 1])
      case None => None
      case Some(v) => if IsAsciiDigit(s[|s| - 1]) then Some(v * 10 + DigitValue(s[|s| - 1])) else None
  }

  lemma {:induction false} DigitsValueNone(s: string, i: nat)
    requires i < |s| && !IsAsciiDigit(s[i])
    ensures DigitsValue(s) == None
  {
    if i < |s| - 1 { DigitsValueNone(s[..|s| - 1], i); }
  }

  /** The accumulator loop over the four year digits. */
  method FourDigits(b: string, at: nat) returns (r: Option<int>)
    requires at + 4 <= |b|
    ensures r == DigitsValue(b[at..at + 4])
  {
    var acc := 0;
    for i := 0 to 4
      invariant DigitsValue(b[at..at + 4][..i]) == Some(acc)
    {
      if !IsAsciiDigit(b[at + i]) {
        DigitsValueNone(b[at..at + 4], i);
        return None;
      }
      assert b[at..at + 4][..i + 1][..i] == b[at..at + 4][..i];
      acc := acc * 10 + DigitValue(b[at + i]);
    }
    assert b[at..at + 4][..4] == b[at..at + 4];
    return Some(acc);
  }

  const MONTHS: seq<string> :=
    ["Jan", "Feb", "Mar", "Apr", "May", "Jun", "Jul", "Aug", "Sep", "Oct", "Nov", "Dec"]

  function MonthFromAbbrev(m: string): Option<int> {
    if m == "Jan" then Some(1) else if m == "Feb" then Some(2) else if m == "Mar" then Some(3)
    else if m == "Apr" then Some(4) else if m == "May" then Some(5) else if m == "Jun" then Some(6)
    else if m == "Jul" then Some(7) else if m == "Aug" then Some(8) else if m == "Sep" then Some(9)
    else if m == "Oct" then Some(10) else if m == "Nov" then Some(11) else if m == "Dec" then Some(12)
    else None
  }

  function DayNameFor(days: int): string {
    ["Thu", "Fri", "Sat", "Sun", "Mon", "Tue", "Wed"][days % 7]
  }

  predicate IsAscii(s: string) { forall c :: c in s ==> c < '\U{0080}' }

  /** The separators at their fixed positions. */
  predicate Skeleton(v: string) {
    && |v| == 29
    && v[3..5] == ", " && v[7] == ' ' && v[11] == ' ' && v[16] == ' '
    && v[19] == ':' && v[22] == ':' && v[25..29] == " GMT"
  }

  datatype Fields = Fields(date: Date, hour: int, minute: int, second: int)

  function ReadFields(v: string): Option<Fields>
    requires Skeleton(v)
  {
    match (TwoDigits(v, 5), MonthFromAbbrev(v[8..11]), DigitsValue(v[12..16]),
           TwoDigits(v, 17), TwoDigits(v, 20), TwoDigits(v, 23))
    case (Some(day), Some(month), Some(year), Some(hh), Some(mm), Some(ss)) =>
      Some(Fields(Date(year, month, day), hh, mm, ss))
    case _ => None
  }

  predicate FieldsInRange(f: Fields) {
    && f.date.day != 0 && f.date.day <= DaysInMonth(f.date.year, f.date.month)
    && f.hour <= 23 && f.minute <= 59 && f.second <= 59
  }

  function Seconds(f: Fields): int {
    Days(f.date) * 86400 + f.hour * 3600 + f.minute * 60 + f.second
  }

  function ParseTrimmed(v: string): Option<int> {
    if !IsAscii(v) || !Skeleton(v) then None
    else
      match ReadFields(v)
      case None => None
      case Some(f) =>
        if !FieldsInRange(f) || DayNameFor(Days(f.date)) != v[0..3] then None
        else Some(Seconds(f))
  }

  function ParseHttpDate(value: string): Option<int> { ParseTrimmed(Trim(value)) }

  // --- Writing dates -------------------------------------------------------------------------

  function Digit(n: int): char
    requires 0 <= n <= 9
  {
    ('0' as int + n) as char
  }

  function Two(n: int): string
    requires 0 <= n <= 99
  {
    [Digit(n / 10), Digit(n % 10)]
  }

  function Four(n: int): string
    requires 0 <= n <= 9999
  {
    [Digit(n / 1000), Digit(n / 100 % 10), Digit(n / 10 % 10), Digit(n % 10)]
  }

  predicate WritableFields(f: Fields) {
    ValidDate(f.date) && 0 <= f.date.year <= 9999
    && 0 <= f.hour <= 23 && 0 <= f.minute <= 59 && 0 <= f.second <= 59
  }

  function Assemble(name: string, day: string, month: string, year: string, h: string, m: string, s: string): string {
    name + ", " + day + " " + month + " " + year + " " + h + ":" + m + ":" + s + " GMT"
  }

  function Write(f: Fields): string
    requires WritableFields(f)
  {
    Assemble(DayNameFor(Days(f.date)), Two(f.date.day), MONTHS[f.date.month - 1], Four(f.date.year),
             Two(f.hour), Two(f.minute), Two(f.second))
  }

  function FieldsOf(t: int): Fields {
    var s := t % 86400;
    Fields(DateOf(t / 86400), s / 3600, s / 60 % 60, s % 60)
  }

  /** The seconds of the years 0000 to 9999. */
  predicate Representable(t: int) {
    Days(Date(0, 1, 1)) * 86400 <= t < (Days(Date(9999, 12, 31)) + 1) * 86400
  }

  lemma YearBounds(d: Date)
    requires ValidDate(d)
    ensures 0 <= d.year <= 9999 <==> Days(Date(0, 1, 1)) <= Days(d) <= Days(Date(9999, 12, 31))
  {
    DaysOrder(d, Date(0, 1, 1));
    DaysOrder(Date(9999, 12, 31), d);
  }

  lemma ClockSplit(t: int)
    ensures var s := t % 86400;
            && t == (t / 86400) * 86400 + (s / 3600) * 3600 + (s / 60 % 60) * 60 + s % 60
            && 0 <= s / 3600 <= 23 && 0 <= s / 60 % 60 <= 59 && 0 <= s % 60 <= 59
  {
  }

  lemma ClockUnique(d: int, h: int, m: int, s: int, d': int, h': int, m': int, s': int)
    requires 0 <= h <= 23 && 0 <= m <= 59 && 0 <= s <= 59 && 0 <= h' <= 23 && 0 <= m' <= 59 && 0 <= s' <= 59
    requires d * 86400 + h * 3600 + m * 60 + s == d' * 86400 + h' * 3600 + m' * 60 + s'
    ensures d == d' && h == h' && m == m' && s == s'
  {
  }

  lemma FieldsOfSeconds(t: int)
    ensures Seconds(FieldsOf(t)) == t
    ensures Representable(t) <==> WritableFields(FieldsOf(t))
  {
    ClockSplit(t);
    YearBounds(DateOf(t / 86400));
    DayRange(t, Days(Date(0, 1, 1)), Days(Date(9999, 12, 31)));
  }

  lemma DayRange(t: int, lo: int, hi: int)
    ensures lo * 86400 <= t < (hi + 1) * 86400 <==> lo <= t / 86400 <= hi
  {
  }

  lemma SecondsInjective(f: Fields, g: Fields)
    requires WritableFields(f) && WritableFields(g) && Seconds(f) == Seconds(g)
    ensures f == g
  {
    ClockUnique(Days(f.date), f.hour, f.minute, f.second, Days(g.date), g.hour, g.minute, g.second);
    DaysOrder(f.date, g.date);
  }

  function FormatHttpDate(t: int): string
    requires Representable(t)
  {
    FieldsOfSeconds(t);
    Write(FieldsOf(t))
  }

  // --- Parsing and writing are inverse -------------------------------------------------------

  lemma TwoWritten(b: string, at: nat, n: int)
    requires at + 2 <= |b| && 0 <= n <= 99 && b[at..at + 2] == Two(n)
    ensures TwoDigits(b, at) == Some(n)
  {
  }

  lemma TwoRead(b: string, at: nat)
    requires at + 2 <= |b| && TwoDigits(b, at).Some?
    ensures 0 <= TwoDigits(b, at).value <= 99 && b[at..at + 2] == Two(TwoDigits(b, at).value)
  {
  }

  predicate AllDigits(s: string) { forall i :: 0 <= i < |s| ==> IsAsciiDigit(s[i]) }

  lemma DigitsValueFour(s: string)
    requires |s| == 4
    ensures DigitsValue(s) == if AllDigits(s)
              then Some(1000 * DigitValue(s[0]) + 100 * DigitValue(s[1]) + 10 * DigitValue(s[2]) + DigitValue(s[3]))
              else None
  {
    assert s[..3][..2] == s[..2] && s[..2][..1] == s[..1] && s[..1][..0] == "";
    if AllDigits(s) {
      assert DigitsValue(s[..1]) == Some(DigitValue(s[0]));
      assert DigitsValue(s[..2]) == Some(DigitValue(s[0]) * 10 + DigitValue(s[1]));
      assert DigitsValue(s[..3]) == Some(DigitValue(s[0]) * 100 + DigitValue(s[1]) * 10 + DigitValue(s[2]));
    } else {
      var i :| 0 <= i < |s| && !IsAsciiDigit(s[i]);
      DigitsValueNone(s, i);
    }
  }

  lemma DecimalDigits(n: int, a: int, b: int, c: int, d: int)
    requires 0 <= a <= 9 && 0 <= b <= 9 && 0 <= c <= 9 && 0 <= d <= 9
    requires n == 1000 * a + 100 * b + 10 * c + d
    ensures n / 1000 == a && n / 100 % 10 == b && n / 10 % 10 == c && n % 10 == d
  {
    assert n / 10 == 100 * a + 10 * b + c;
    assert n / 100 == 10 * a + b;
  }

  lemma DecimalSum(n: int)
    requires 0 <= n <= 9999
    ensures n == 1000 * (n / 1000) + 100 * (n / 100 % 10) + 10 * (n / 10 % 10) + n % 10
  {
    assert n / 100 == 10 * (n / 1000) + n / 100 % 10;
    assert n / 10 == 10 * (n / 100) + n / 10 % 10;
  }

  lemma FourWritten(n: int)
    requires 0 <= n <= 9999
    ensures DigitsValue(Four(n)) == Some(n)
  {
    DecimalSum(n);
    DigitsValueFour(Four(n));
  }

  lemma FourRead(s: string)
    requires |s| == 4 && DigitsValue(s).Some?
    ensures 0 <= DigitsValue(s).value <= 9999 && s == Four(DigitsValue(s).value)
  {
    DigitsValueFour(s);
    DecimalDigits(DigitsValue(s).value, DigitValue(s[0]), DigitValue(s[1]), DigitValue(s[2]), DigitValue(s[3]));
  }

  lemma MonthNames(m: int)
    requires 1 <= m <= 12
    ensures |MONTHS[m - 1]| == 3 && MonthFromAbbrev(MONTHS[m - 1]) == Some(m) && IsAscii(MONTHS[m - 1])
  {
  }

  lemma MonthNameRead(s: string)
    requires MonthFromAbbrev(s).Some?
    ensures 1 <= MonthFromAbbrev(s).value <= 12 && s == MONTHS[MonthFromAbbrev(s).value - 1]
  {
  }

  /** The text has the separators and the seven fields of `f` at their places. */
  predicate Carries(v: string, f: Fields) {
    && WritableFields(f) && Skeleton(v)
    && v[0..3] == DayNameFor(Days(f.date)) && v[5..7] == Two(f.date.day)
    && v[8..11] == MONTHS[f.date.month - 1] && v[12..16] == Four(f.date.year)
    && v[17..19] == Two(f.hour) && v[20..22] == Two(f.minute) && v[23..25] == Two(f.second)
  }

  lemma Layout(name: string, day: string, month: string, year: string, h: string, m: string, s: string)
    requires |name| == 3 && |day| == 2 && |month| == 3 && |year| == 4 && |h| == 2 && |m| == 2 && |s| == 2
    ensures var v := Assemble(name, day, month, year, h, m, s);
            && Skeleton(v)
            && v[0..3] == name && v[5..7] == day && v[8..11] == month && v[12..16] == year
            && v[17..19] == h && v[20..22] == m && v[23..25] == s
  {
  }

  lemma WriteCarries(f: Fields)
    requires WritableFields(f)
    ensures Carries(Write(f), f)
  {
    MonthNames(f.date.month);
    Layout(DayNameFor(Days(f.date)), Two(f.date.day), MONTHS[f.date.month - 1], Four(f.date.year),
           Two(f.hour), Two(f.minute), Two(f.second));
  }

  lemma AssembleAscii(name: string, day: string, month: string, year: string, h: string, m: string, s: string)
    requires IsAscii(name) && IsAscii(day) && IsAscii(month) && IsAscii(year) && IsAscii(h) && IsAscii(m) && IsAscii(s)
    ensures IsAscii(Assemble(name, day, month, year, h, m, s))
  {
  }

  lemma WriteIsAscii(f: Fields)
    requires WritableFields(f)
    ensures IsAscii(Write(f))
  {
    MonthNames(f.date.month);
    AssembleAscii(DayNameFor(Days(f.date)), Two(f.date.day), MONTHS[f.date.month - 1], Four(f.date.year),
                  Two(f.hour), Two(f.minute), Two(f.second));
  }

  lemma Pieces(v: string)
    requires Skeleton(v)
    ensures v == Assemble(v[0..3], v[5..7], v[8..11], v[12..16], v[17..19], v[20..22], v[23..25])
  {
  }

  lemma CarriesDetermines(v: string, w: string, f: Fields)
    requires Carries(v, f) && Carries(w, f)
    ensures v == w
  {
    Pieces(v);
    Pieces(w);
  }

  lemma CarriedIsRead(v: string, f: Fields)
    requires Carries(v, f)
    ensures ReadFields(v) == Some(f)
  {
    TwoWritten(v, 5, f.date.day);
    TwoWritten(v, 17, f.hour);
    TwoWritten(v, 20, f.minute);
    TwoWritten(v, 23, f.second);
    MonthNames(f.date.month);
    FourWritten(f.date.year);
  }

  lemma ReadIsCarried(v: string, f: Fields)
    requires Skeleton(v) && ReadFields(v) == Some(f) && FieldsInRange(f)
    requires DayNameFor(Days(f.date)) == v[0..3]
    ensures Carries(v, f)
  {
    TwoRead(v, 5);
    TwoRead(v, 17);
    TwoRead(v, 20);
    TwoRead(v, 23);
    MonthNameRead(v[8..11]);
    FourRead(v[12..16]);
  }

  lemma WriteIsPlain(f: Fields)
    requires WritableFields(f)
    ensures Trim(Write(f)) == Write(f)
  {
  }

  /** Every second of the years 0000 to 9999 is the result of its own 29-byte text. */
  lemma ParseOfFormat(t: int)
    requires Representable(t)
    ensures |FormatHttpDate(t)| == 29 && ParseHttpDate(FormatHttpDate(t)) == Some(t)
  {
    FieldsOfSeconds(t);
    var f := FieldsOf(t);
    WriteIsPlain(f);
    WriteIsAscii(f);
    WriteCarries(f);
    CarriedIsRead(Write(f), f);
  }

  /** An accepted header is, after trimming, the text of the instant it denotes. */
  lemma FormatOfParse(value: string)
    requires ParseHttpDate(value).Some?
    ensures Representable(ParseHttpDate(value).value)
    ensures Trim(value) == FormatHttpDate(ParseHttpDate(value).value)
  {
    var v := Trim(value);
    var f := ReadFields(v).value;
    ReadIsCarried(v, f);
    var t := Seconds(f);
    FieldsOfSeconds(t);
    SecondsRepresentable(f);
    SecondsInjective(f, FieldsOf(t));
    WriteCarries(f);
    CarriesDetermines(v, Write(f), f);
  }

  lemma SecondsRepresentable(f: Fields)
    requires WritableFields(f)
    ensures Representable(Seconds(f))
  {
    YearBounds(f.date);
  }

  /** Two accepted headers with the same result are the same text after trimming. */
  lemma ParseInjective(a: string, b: string)
    requires ParseHttpDate(a).Some? && ParseHttpDate(a) == ParseHttpDate(b)
    ensures Trim(a) == Trim(b)
  {
    FormatOfParse(a);
    FormatOfParse(b);
  }
}
