/**
 * Dates as day numbers, and the parts of Python's `datetime`, `timedelta`, `strptime` and
 * `relativedelta` that the addons use. A day number is Python's `date.toordinal()`:
 * 0001-01-01 is day 1, and adding `timedelta(days=k)` adds k.
 */
module Calendar {
  import opened Wrappers
  import opened Text

  type Day = int

  datatype CivilDate = CivilDate(year: int, month: int, day: int)

  predicate IsLeap(y: int) {
    y % 4 == 0 && (y % 100 != 0 || y % 400 == 0)
  }

  function DaysInMonth(y: int, m: int): (r: int)
    ensures 28 <= r <= 31
  {
    if m == 2 then (if IsLeap(y) then 29 else 28)
    else if m == 4 || m == 6 || m == 9 || m == 11 then 30
    else 31
  }

  /** Days in the months of a common year before month `m` (Python's `_DAYS_BEFORE_MONTH`). */
  function CommonDaysBeforeMonth(m: int): int {
    if m <= 1 then 0 else if m == 2 then 31 else if m == 3 then 59 else if m == 4 then 90
    else if m == 5 then 120 else if m == 6 then 151 else if m == 7 then 181
    else if m == 8 then 212 else if m == 9 then 243 else if m == 10 then 273
    else if m == 11 then 304 else 334
  }

  function DaysBeforeMonth(y: int, m: int): int {
    CommonDaysBeforeMonth(m) + (if m > 2 && IsLeap(y) then 1 else 0)
  }

  function DaysBeforeYear(y: int): int {
    var y1 := y - 1;
    y1 * 365 + y1 / 4 - y1 / 100 + y1 / 400
  }

  /** A calendar date that `datetime.date` accepts. */
  predicate ValidDate(y: int, m: int, d: int) {
    1 <= y <= 9999 && 1 <= m <= 12 && 1 <= d <= DaysInMonth(y, m)
  }

  /** `date(y, m, d).toordinal()` */
  function Ordinal(y: int, m: int, d: int): Day {
    DaysBeforeYear(y) + DaysBeforeMonth(y, m) + d
  }

  /** Later days of one month have larger day numbers. */
  lemma OrdinalWithinMonth(y: int, m: int, d: int, e: int)
    requires d <= e
    ensures Ordinal(y, m, e) - Ordinal(y, m, d) == e - d
  {
  }

  /** `date.fromordinal(n)`: Python's `_ord2ymd`, step for step. */
  function FromOrdinal(n: Day): CivilDate {
    var n0 := n - 1;
    var n400, r400 := n0 / 146097, n0 % 146097;
    var n100, r100 := r400 / 36524, r400 % 36524;
    var n4, r4 := r100 / 1461, r100 % 1461;
    var n1, r1 := r4 / 365, r4 % 365;
    var year := n400 * 400 + 1 + n100 * 100 + n4 * 4 + n1;
    if n1 == 4 || n100 == 4 then CivilDate(year - 1, 12, 31)
    else
      var leap := n1 == 3 && (n4 != 24 || n100 == 3);
      var guess := (r1 + 50) / 32;
      var preceding := CommonDaysBeforeMonth(guess) + (if guess > 2 && leap then 1 else 0);
      if preceding > r1 then
        var month := guess - 1;
        var preceding' := preceding - (if month == 2 && leap then 29 else DaysInMonth(1, month));
        CivilDate(year, month, r1 - preceding' + 1)
      else CivilDate(year, guess, r1 - preceding + 1)
  }

  /**
   * `fields.Date.add(d, months=k)`, i.e. `d + relativedelta(months=k)`: move k months and
   * clamp the day to the length of the target month.
   */
  function AddMonths(d: Day, k: int): Day {
    var c := FromOrdinal(d);
    var total := (c.month - 1) + k;
    var y := c.year + total / 12;
    var m := total % 12 + 1;
    var day := if c.day <= DaysInMonth(y, m) then c.day else DaysInMonth(y, m);
    Ordinal(y, m, day)
  }

  /** `d.replace(day=1)` */
  function MonthStart(d: Day): Day {
    var c := FromOrdinal(d);
    Ordinal(c.year, c.month, 1)
  }

  // ---------------------------------------------------------------- strptime

  /** The two formats the importers try: `'%Y-%m-%d'` and `'%d/%m/%Y'`. */
  datatype DateFormat = YearMonthDay | DayMonthYear

  predicate IsDigit(c: char) { '0' <= c <= '9' }

  predicate AllDigits(s: string) {
    forall i :: 0 <= i < |s| ==> IsDigit(s[i])
  }

  function DigitValue(c: char): nat
    requires IsDigit(c)
  {
    (c as int - '0' as int) as nat
  }

  function DigitsValue(s: string): nat
    requires AllDigits(s)
  {
    if s == [] then 0 else DigitsValue(s[..|s| - 1]) * 10 + DigitValue(s[|s| - 1])
  }

  /** strptime's `%Y`: exactly four digits. */
  function YearField(s: string): Option<int> {
    if |s| == 4 && AllDigits(s) then Some(DigitsValue(s)) else None
  }

  /** strptime's `%m`, the regex `1[0-2]|0[1-9]|[1-9]` covering the whole field. */
  function MonthField(s: string): Option<int> {
    if 1 <= |s| <= 2 && AllDigits(s) && 1 <= DigitsValue(s) <= 12 then Some(DigitsValue(s))
    else None
  }

  /** strptime's `%d`, the regex `3[01]|[12]\d|0[1-9]|[1-9]| [1-9]` covering the whole field. */
  function DayField(s: string): Option<int> {
    if 1 <= |s| <= 2 && AllDigits(s) && 1 <= DigitsValue(s) <= 31 then Some(DigitsValue(s))
    else if |s| == 2 && s[0] == ' ' && '1' <= s[1] <= '9' then Some(DigitValue(s[1]))
    else None
  }

  /** `datetime.date(y, m, d)`, which raises ValueError on an impossible date. */
  function MakeDate(y: Option<int>, m: Option<int>, d: Option<int>): Option<Day> {
    if y.Some? && m.Some? && d.Some? && ValidDate(y.value, m.value, d.value)
    then Some(Ordinal(y.value, m.value, d.value))
    else None
  }

  /**
   * `datetime.strptime(s, fmt).date()`, or None where it raises ValueError. The separators
   * are literal, so each field is the text up to the next separator.
   */
  function ParseDate(s: string, fmt: DateFormat): Option<Day> {
    match fmt
    case YearMonthDay =>
      if |s| < 5 || s[4] != '-' then None
      else
        var rest := s[5..];
        (match IndexOf(rest, '-')
         case None => None
         case Some(k) => MakeDate(YearField(s[..4]), MonthField(rest[..k]), DayField(rest[k + 1..])))
    case DayMonthYear =>
      match IndexOf(s, '/')
      case None => None
      case Some(i) =>
        var rest := s[i + 1..];
        (match IndexOf(rest, '/')
         case None => None
         case Some(k) => MakeDate(YearField(rest[k + 1..]), MonthField(rest[..k]), DayField(s[..i])))
  }

  // ---------------------------------------------------------------- formatting, the partner of ParseDate

  function DigitChar(v: int): (c: char)
    requires 0 <= v <= 9
    ensures IsDigit(c) && DigitValue(c) == v
  {
    ('0' as int + v) as char
  }

  /** The last `width` decimal digits of `v`, zero-padded: `'%0{width}d' % v`. */
  function PadDigits(v: nat, width: nat): (s: string)
    ensures |s| == width && AllDigits(s)
  {
    if width == 0 then [] else PadDigits(v / 10, width - 1) + [DigitChar(v % 10)]
  }

  function Pow10(k: nat): (r: nat)
    ensures r >= 1
  {
    if k == 0 then 1 else 10 * Pow10(k - 1)
  }

  lemma {:induction false} PadDigitsValue(v: nat, width: nat)
    requires v < Pow10(width)
    ensures DigitsValue(PadDigits(v, width)) == v
  {
    if width > 0 {
      PadDigitsValue(v / 10, width - 1);
      var s := PadDigits(v, width);
      assert s[..|s| - 1] == PadDigits(v / 10, width - 1);
    }
  }

  /** `date.strftime('%Y-%m-%d')` */
  function FormatIso(y: nat, m: nat, d: nat): string {
    PadDigits(y, 4) + "-" + PadDigits(m, 2) + "-" + PadDigits(d, 2)
  }

  /** `date.strftime('%d/%m/%Y')` */
  function FormatDmy(y: nat, m: nat, d: nat): string {
    PadDigits(d, 2) + "/" + PadDigits(m, 2) + "/" + PadDigits(y, 4)
  }

  lemma DigitsHaveNoSeparator(s: string, c: char)
    requires AllDigits(s) && !IsDigit(c)
    ensures IndexOf(s + [c], c) == Some(|s|)
  {
    var t := s + [c];
    assert c !in s;
    assert t[..|s|] == s;
  }

  lemma FieldsOfPaddedDate(y: nat, m: nat, d: nat)
    requires ValidDate(y, m, d)
    ensures YearField(PadDigits(y, 4)) == Some(y)
    ensures MonthField(PadDigits(m, 2)) == Some(m)
    ensures DayField(PadDigits(d, 2)) == Some(d)
  {
    assert Pow10(4) == 10000 && Pow10(2) == 100;
    PadDigitsValue(y, 4);
    PadDigitsValue(m, 2);
    PadDigitsValue(d, 2);
  }

  /** Parsing an ISO rendering of a valid date gives that date back. */
  lemma ParseFormatIso(y: nat, m: nat, d: nat)
    requires ValidDate(y, m, d)
    ensures ParseDate(FormatIso(y, m, d), YearMonthDay) == Some(Ordinal(y, m, d))
  {
    var ys, ms, ds := PadDigits(y, 4), PadDigits(m, 2), PadDigits(d, 2);
    var s := FormatIso(y, m, d);
    assert s == ys + "-" + ms + "-" + ds;
    assert s[..4] == ys && s[4] == '-';
    var rest := s[5..];
    assert rest == ms + "-" + ds;
    DigitsHaveNoSeparator(ms, '-');
    assert rest[..3] == ms + "-";
    assert IndexOf(rest, '-') == Some(2) by {
      assert rest[2] == '-' && '-' !in rest[..2];
    }
    assert rest[..2] == ms && rest[3..] == ds;
    FieldsOfPaddedDate(y, m, d);
  }

  /** Parsing a DD/MM/YYYY rendering of a valid date gives that date back. */
  lemma ParseFormatDmy(y: nat, m: nat, d: nat)
    requires ValidDate(y, m, d)
    ensures ParseDate(FormatDmy(y, m, d), DayMonthYear) == Some(Ordinal(y, m, d))
  {
    var ys, ms, ds := PadDigits(y, 4), PadDigits(m, 2), PadDigits(d, 2);
    var s := FormatDmy(y, m, d);
    assert s == ds + "/" + ms + "/" + ys;
    assert IndexOf(s, '/') == Some(2) by {
      assert s[2] == '/' && '/' !in s[..2];
    }
    var rest := s[3..];
    assert rest == ms + "/" + ys;
    assert IndexOf(rest, '/') == Some(2) by {
      assert rest[2] == '/' && '/' !in rest[..2];
    }
    assert s[..2] == ds && rest[..2] == ms && rest[3..] == ys;
    FieldsOfPaddedDate(y, m, d);
  }

  /** An ISO date text holds no slash, so no text is accepted by both formats: the order in
      which `_clean_date` tries them only decides between acceptance and rejection. */
  lemma FormatsDisjoint(s: string)
    ensures ParseDate(s, YearMonthDay).None? || ParseDate(s, DayMonthYear).None?
  {
    if ParseDate(s, YearMonthDay).Some? {
      var rest := s[5..];
      var k := IndexOf(rest, '-').value;
      var dayText := rest[k + 1..];
      assert DayField(dayText).Some?;
      forall j | 0 <= j < |s| ensures s[j] != '/' {
        if j < 4 {
          assert s[j] == s[..4][j];
        } else if 5 <= j < 5 + k {
          assert s[j] == rest[..k][j - 5];
        } else if j > 5 + k {
          assert s[j] == dayText[j - 6 - k];
        }
      }
    }
  }
}
