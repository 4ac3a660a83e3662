/**
 * The field cleaners of the property CSV import wizard
 * (custom_addons/property_listings/models/property_import_wizard.py): placeholder detection,
 * amounts with 'lacs'/'cr' suffixes, integers, dates tried in several formats, and the
 * per-field selection tables. The lead import wizard carries an identical `_clean_string`;
 * both use `CleanString` here.
 */
module Cleaning {
  import opened Wrappers
  import opened Text
  import opened Calendar
  import opened Listings

  /** A row of `csv.DictReader`: column header to cell text. */
  type Row = map<string, string>

  /** `row.get(key)` */
  function Cell(row: Row, key: string): Option<string> {
    if key in row then Some(row[key]) else None
  }

  /** `row.get(key, default)` */
  function CellOr(row: Row, key: string, default: string): string {
    if key in row then row[key] else default
  }

  /** The texts that `_clean_string` treats as "no value", compared after trim and lower-case. */
  predicate IsPlaceholder(t: string) {
    t == "" || t == "not filled" || t == "n/a" || t == "null"
  }

  /** `_clean_string(val, to_lower)` */
  function CleanString(val: Option<string>, toLower: bool): (r: Option<string>)
    ensures r.None? <==> val.None? || IsPlaceholder(Lower(Strip(val.value)))
    ensures r.Some? ==> r.value != [] && Stripped(r.value) && ILikeEq(r.value, Strip(val.value))
    ensures r.Some? && toLower ==> Lower(r.value) == r.value
    ensures r.Some? && !toLower ==> r.value == Strip(val.value)
  {
    if val.None? || val.value == [] then None
    else
      var clean := Strip(val.value);
      if IsPlaceholder(Lower(clean)) then None
      else
        LowerIdempotent(clean);
        LowerAt(clean);
        if toLower then Some(Lower(clean)) else Some(clean)
  }

  lemma LowerIdempotent(s: string)
    ensures Lower(Lower(s)) == Lower(s)
  {
    LowerAt(s);
    LowerAt(Lower(s));
  }

  /** Cleaning an already clean value changes nothing. */
  lemma CleanStringIdempotent(val: Option<string>, toLower: bool)
    requires CleanString(val, toLower).Some?
    ensures CleanString(CleanString(val, toLower), toLower) == CleanString(val, toLower)
  {
    var c := CleanString(val, toLower).value;
    assert [] + c + [] == c;
    StripExact([], c, []);
    LowerIdempotent(Strip(val.value));
  }

  // ---------------------------------------------------------------- numbers

  /** `float(t)` on a plain decimal: digits with at most one point and at least one digit. */
  function ParseUnsignedDecimal(t: string): Option<real> {
    match IndexOf(t, '.')
    case None => if t != [] && AllDigits(t) then Some(DigitsValue(t) as real) else None
    case Some(i) =>
      var whole, frac := t[..i], t[i + 1..];
      if |whole| + |frac| >= 1 && AllDigits(whole) && AllDigits(frac)
      then Some(DigitsValue(whole) as real + DigitsValue(frac) as real / Pow10(|frac|) as real)
      else None
  }

  /** Python's `float(s)`, or None where it raises ValueError. */
  function ParseFloat(s: string): Option<real> {
    var t := Strip(s);
    if t != [] && (t[0] == '+' || t[0] == '-') then
      match ParseUnsignedDecimal(t[1..])
      case None => None
      case Some(v) => Some(if t[0] == '-' then -v else v)
    else ParseUnsignedDecimal(t)
  }

  /** Python's `int(s)`, or None where it raises ValueError. */
  function ParseInt(s: string): Option<int> {
    var t := Strip(s);
    if t != [] && (t[0] == '+' || t[0] == '-') then
      var digits := t[1..];
      if digits != [] && AllDigits(digits)
      then Some(if t[0] == '-' then -(DigitsValue(digits) as int) else DigitsValue(digits))
      else None
    else if t != [] && AllDigits(t) then Some(DigitsValue(t))
    else None
  }

  function Scaled(v: Option<real>, factor: real): Option<real> {
    match v
    case None => None
    case Some(x) => Some(x * factor)
  }

  /** The text `_clean_float` hands to `float()`: lower-cased, commas and spaces removed. */
  function AmountText(cleaned: string): string {
    RemoveAll(RemoveAll(Lower(cleaned), ","), " ")
  }

  /** The `try` block of `_clean_float`: 'lacs' is looked for before 'cr'. */
  function ParseAmount(t: string): Option<real> {
    if Contains(t, "lacs") then Scaled(ParseFloat(RemoveAll(t, "lacs")), 100000.0)
    else if Contains(t, "cr") then Scaled(ParseFloat(RemoveAll(t, "cr")), 10000000.0)
    else ParseFloat(t)
  }

  /** `_clean_float(val, default)`: never raises; a missing or unreadable amount gives `default`. */
  function CleanFloat(val: Option<string>, default: real): (r: real)
    ensures CleanString(val, false).None? ==> r == default
    ensures CleanString(val, false).Some? ==>
              (ParseAmount(AmountText(CleanString(val, false).value)).None? ==> r == default)
  {
    match CleanString(val, false)
    case None => default
    case Some(c) => ParseAmount(AmountText(c)).GetOr(default)
  }

  /** `_clean_int(val, default)`: never raises; a missing or unreadable number gives `default`. */
  function CleanInt(val: Option<string>, default: int): (r: int)
    ensures CleanString(val, false).None? ==> r == default
    ensures CleanString(val, false).Some? ==>
              (ParseInt(RemoveAll(CleanString(val, false).value, ",")).None? ==> r == default)
  {
    match CleanString(val, false)
    case None => default
    case Some(c) => ParseInt(RemoveAll(c, ",")).GetOr(default)
  }

  // ---------------------------------------------------------------- lemmas on amounts

  /** A number written with digits and a decimal point only. */
  predicate NumeralText(num: string) {
    num != [] && forall i :: 0 <= i < |num| ==> IsDigit(num[i]) || num[i] == '.'
  }

  lemma {:induction false} LowerAppend(a: string, b: string)
    ensures Lower(a + b) == Lower(a) + Lower(b)
  {
    assert |Lower(a + b)| == |Lower(a) + Lower(b)|;
    LowerAt(a + b);
    LowerAt(a);
    LowerAt(b);
    forall i | 0 <= i < |a + b| ensures Lower(a + b)[i] == (Lower(a) + Lower(b))[i] {
      if i < |a| {
        assert (a + b)[i] == a[i];
      } else {
        assert (a + b)[i] == b[i - |a|];
      }
    }
  }

  lemma {:induction false} RemoveCharAppend(a: string, b: string, c: char)
    ensures RemoveAll(a + b, [c]) == RemoveAll(a, [c]) + RemoveAll(b, [c])
    decreases |a|
  {
    if a == [] {
      assert a + b == b;
    } else {
      assert (a + b)[1..] == a[1..] + b;
      assert (a + b)[..1] == a[..1];
      RemoveCharAppend(a[1..], b, c);
    }
  }

  /** Removing a pattern from `a + p` leaves `a` when `a` cannot start an occurrence. */
  lemma {:induction false} RemoveTrailingPattern(a: string, p: string)
    requires p != [] && p[0] !in a
    ensures RemoveAll(a + p, p) == a
    decreases |a|
  {
    if a == [] {
      assert (a + p)[..|p|] == p;
      assert (a + p)[|p|..] == [];
    } else {
      assert (a + p)[0] == a[0] != p[0];
      assert (a + p)[..|p|] != p;
      assert (a + p)[1..] == a[1..] + p;
      RemoveTrailingPattern(a[1..], p);
    }
  }

  lemma NumeralUnchangedByLower(num: string)
    requires NumeralText(num)
    ensures Lower(num) == num
  {
  }

  lemma NumeralHasNoComma(num: string)
    requires NumeralText(num)
    ensures RemoveAll(num, ",") == num && RemoveAll(num, " ") == num
  {
    RemoveCharKeepsOthers(num, ',');
    RemoveCharKeepsOthers(num, ' ');
  }

  lemma {:induction false} NumeralLacksLetters(num: string, p: string)
    requires NumeralText(num) && p != [] && IsLetter(p[0])
    ensures !Contains(num, p)
  {
    ContainsOccurs(num, p);
    forall i | 0 <= i < |num| ensures !OccursAt(num, p, i) {
      if i + |p| <= |num| {
        assert num[i..i + |p|][0] == num[i];
      }
    }
  }

  lemma ContainsSuffix(a: string, p: string)
    ensures Contains(a + p, p)
  {
    assert OccursAt(a + p, p, |a|) by {
      assert (a + p)[|a|..|a| + |p|] == p;
    }
    ContainsOccurs(a + p, p);
  }

  /** A numeral followed by a unit suffix is cleaned to itself followed by the suffix. */
  /** Blanks between an amount and its unit. */
  predicate Blanks(spacing: string) {
    forall j :: 0 <= j < |spacing| ==> spacing[j] == ' '
  }

  /** A unit word such as "Lacs" or "Cr". */
  predicate Word(suffix: string) {
    suffix != [] && forall j :: 0 <= j < |suffix| ==> IsLetter(suffix[j])
  }

  lemma {:induction false} RemoveBlanks(spacing: string)
    requires Blanks(spacing)
    ensures RemoveAll(spacing, " ") == []
    decreases |spacing|
  {
    if spacing != [] {
      assert spacing[..1] == " ";
      RemoveBlanks(spacing[1..]);
    }
  }

  lemma LowerOfSuffixed(num: string, spacing: string, suffix: string)
    requires NumeralText(num) && Blanks(spacing) && Word(suffix)
    ensures Lower(num + spacing + suffix) == num + spacing + Lower(suffix)
  {
    LowerAppend(num + spacing, suffix);
    LowerAppend(num, spacing);
    NumeralUnchangedByLower(num);
    LowerAt(spacing);
    assert Lower(spacing) == spacing;
  }

  lemma CleanSuffixed(num: string, spacing: string, suffix: string)
    requires NumeralText(num) && Blanks(spacing) && Word(suffix)
    ensures CleanString(Some(num + spacing + suffix), false) == Some(num + spacing + suffix)
  {
    var text := num + spacing + suffix;
    assert Strip(text) == text by {
      assert [] + text + [] == text;
      StripExact([], text, []);
    }
    NotPlaceholder(Lower(text));
  }

  /** A numeral has no white space to strip. */
  lemma NumeralStripped(num: string)
    requires NumeralText(num)
    ensures Strip(num) == num
  {
    assert [] + num + [] == num;
    StripExact([], num, []);
  }

  /** Every placeholder is empty or starts with 'n'. */
  lemma NotPlaceholder(t: string)
    requires t != [] && t[0] != 'n'
    ensures !IsPlaceholder(t)
  {
    assert "not filled"[0] == 'n' && "n/a"[0] == 'n' && "null"[0] == 'n';
  }

  lemma DespaceSuffixed(num: string, spacing: string, lowered: string)
    requires NumeralText(num) && Blanks(spacing) && Word(lowered)
    ensures RemoveAll(RemoveAll(num + spacing + lowered, ","), " ") == num + lowered
  {
    RemoveCharKeepsOthers(num + spacing + lowered, ',');
    RemoveCharAppend(num + spacing, lowered, ' ');
    RemoveCharAppend(num, spacing, ' ');
    NumeralHasNoComma(num);
    RemoveBlanks(spacing);
    RemoveCharKeepsOthers(lowered, ' ');
    assert num + [] == num;
  }

  /** A numeral followed by a unit word is kept by `_clean_string` and read as numeral and unit. */
  lemma AmountTextOfSuffixed(num: string, spacing: string, suffix: string)
    requires NumeralText(num) && Blanks(spacing) && Word(suffix)
    ensures CleanString(Some(num + spacing + suffix), false) == Some(num + spacing + suffix)
    ensures AmountText(num + spacing + suffix) == num + Lower(suffix)
  {
    CleanSuffixed(num, spacing, suffix);
    LowerOfSuffixed(num, spacing, suffix);
    assert Word(Lower(suffix)) by {
      LowerAt(suffix);
      forall j | 0 <= j < |suffix| ensures IsLetter(Lower(suffix)[j]) {
        assert IsLetter(suffix[j]);
      }
    }
    DespaceSuffixed(num, spacing, Lower(suffix));
  }

  /** "12.5 Lacs": a numeral followed by 'lacs' is scaled by one hundred thousand. */
  lemma CleanFloatLakhs(num: string, spacing: string, suffix: string, default: real)
    requires NumeralText(num) && Blanks(spacing) && Word(suffix)
    requires Lower(suffix) == "lacs"
    ensures CleanFloat(Some(num + spacing + suffix), default)
              == if ParseFloat(num).Some? then ParseFloat(num).value * 100000.0 else default
  {
    AmountTextOfSuffixed(num, spacing, suffix);
    ContainsSuffix(num, "lacs");
    RemoveTrailingPattern(num, "lacs");
  }

  /** "1.2Cr": a numeral followed by 'cr' is scaled by ten million. */
  lemma CleanFloatCrores(num: string, spacing: string, suffix: string, default: real)
    requires NumeralText(num) && Blanks(spacing) && Word(suffix)
    requires Lower(suffix) == "cr"
    ensures CleanFloat(Some(num + spacing + suffix), default)
              == if ParseFloat(num).Some? then ParseFloat(num).value * 10000000.0 else default
  {
    var text := num + spacing + suffix;
    AmountTextOfSuffixed(num, spacing, suffix);
    var t := num + "cr";
    assert AmountText(text) == t;
    assert ParseAmount(t) == Scaled(ParseFloat(RemoveAll(t, "cr")), 10000000.0) by {
      CroresNotLakhs(num);
      ContainsSuffix(num, "cr");
    }
    assert RemoveAll(t, "cr") == num by {
      assert 'c' !in num;
      RemoveTrailingPattern(num, "cr");
    }
  }

  lemma CroresNotLakhs(num: string)
    requires NumeralText(num)
    ensures !Contains(num + "cr", "lacs")
  {
    var t := num + "cr";
    ContainsOccurs(t, "lacs");
    forall i | 0 <= i < |t| ensures !OccursAt(t, "lacs", i) {
      if i + 4 <= |t| {
        assert t[i..i + 4][0] == t[i];
        assert t[i] == num[i];
      }
    }
  }

  /** A numeral without a suffix is read as it stands. */
  lemma CleanFloatPlain(num: string, default: real)
    requires NumeralText(num)
    ensures CleanFloat(Some(num), default)
              == if ParseFloat(num).Some? then ParseFloat(num).value else default
  {
    assert num == num + [] + [];
    AmountTextOfSuffixedNone(num);
    NumeralLacksLetters(num, "lacs");
    NumeralLacksLetters(num, "cr");
  }

  lemma AmountTextOfSuffixedNone(num: string)
    requires NumeralText(num)
    ensures CleanString(Some(num), false) == Some(num)
    ensures AmountText(num) == num
  {
    NumeralStripped(num);
    NumeralUnchangedByLower(num);
    NotPlaceholder(num);
    NumeralHasNoComma(num);
  }

  lemma DigitsTwelve()
    ensures DigitsValue("12") == 12
  {
    assert "12"[..1] == "1";
    assert DigitsValue("1") == 1 by { assert "1"[..0] == ""; }
  }

  lemma DecimalTwelveAndAHalf()
    ensures ParseUnsignedDecimal("12.5") == Some(12.5)
  {
    var t := "12.5";
    assert t[0] == '1' && t[1] == '2' && t[2] == '.';
    DigitsTwelve();
    assert DigitsValue("5") == 5 by { assert "5"[..0] == ""; }
    assert t[..2] == "12" && t[3..] == "5";
    assert Pow10(1) == 10;
  }

  /** The decimal reading of a numeral: "12.5" is twelve and a half. */
  lemma ParseTwelveAndAHalf()
    ensures ParseFloat("12.5") == Some(12.5)
  {
    var t := "12.5";
    assert [] + t + [] == t;
    StripExact([], t, []);
    DecimalTwelveAndAHalf();
  }

  lemma TwelveAndAHalf(num: string)
    requires num == "12.5"
    ensures NumeralText(num) && ParseFloat(num) == Some(12.5)
  {
    assert NumeralText(num);
    ParseTwelveAndAHalf();
  }

  lemma LacsUnit(spacing: string, suffix: string)
    requires spacing == " " && suffix == "Lacs"
    ensures Blanks(spacing) && Word(suffix) && Lower(suffix) == "lacs"
  {
    var l := Lower(suffix);
    LowerAt(suffix);
    assert |l| == 4 && l[0] == 'l' && l[1] == 'a' && l[2] == 'c' && l[3] == 's';
  }

  /** "12.5 Lacs", an amount with the 'Lacs' suffix the cleaner's docstring names, is 1,250,000. */
  lemma CleanFloatExample(num: string, spacing: string, suffix: string)
    requires num == "12.5" && spacing == " " && suffix == "Lacs"
    ensures CleanFloat(Some(num + spacing + suffix), 0.0) == 1250000.0
  {
    TwelveAndAHalf(num);
    LacsUnit(spacing, suffix);
    CleanFloatLakhs(num, spacing, suffix, 0.0);
  }

  // ---------------------------------------------------------------- integers

  /** Digits grouped by commas, as in "1,200": a leading digit, then digits and commas. */
  predicate GroupedDigits(t: string) {
    t != [] && IsDigit(t[0]) && forall i :: 0 <= i < |t| ==> IsDigit(t[i]) || t[i] == ','
  }

  /** Dropping the commas from digits and commas leaves digits only, the first one kept. */
  lemma {:induction false} DropCommas(t: string)
    requires forall i :: 0 <= i < |t| ==> IsDigit(t[i]) || t[i] == ','
    ensures AllDigits(RemoveAll(t, ","))
    ensures t != [] && IsDigit(t[0]) ==> RemoveAll(t, ",") != [] && RemoveAll(t, ",")[0] == t[0]
    decreases |t|
  {
    if t != [] {
      assert t[..1] == [t[0]];
      DropCommas(t[1..]);
    }
  }

  /** Grouped digits hold nothing for `_clean_string` to trim or to take for a placeholder. */
  lemma GroupedDigitsClean(t: string)
    requires GroupedDigits(t)
    ensures CleanString(Some(t), false) == Some(t)
  {
    assert [] + t + [] == t;
    StripExact([], t, []);
    LowerAt(t);
    NotPlaceholder(Lower(t));
  }

  /** `int()` reads a run of digits as the number they write. */
  lemma ParseIntDigits(d: string)
    requires d != [] && AllDigits(d)
    ensures ParseInt(d) == Some(DigitsValue(d))
  {
    assert [] + d + [] == d;
    StripExact([], d, []);
  }

  /** "1,200": digits, grouped by commas or not, are read as the number they write. */
  lemma CleanIntGrouped(t: string, default: int)
    requires GroupedDigits(t)
    ensures AllDigits(RemoveAll(t, ","))
    ensures CleanInt(Some(t), default) == DigitsValue(RemoveAll(t, ","))
  {
    DropCommas(t);
    GroupedDigitsClean(t);
    ParseIntDigits(RemoveAll(t, ","));
  }

  // ---------------------------------------------------------------- dates

  /** The default `date_formats` of `_clean_date`. */
  const DefaultDateFormats: seq<DateFormat> := [YearMonthDay, DayMonthYear]

  /**
   * What `_clean_date` promises for a cleaned text: the date read by the first format, in list
   * order, that accepts the text, or today when no format does.
   */
  predicate FirstParsed(text: string, formats: seq<DateFormat>, today: Day, r: Option<Day>) {
    || (exists k :: 0 <= k < |formats| && ParseDate(text, formats[k]).Some? && ParseDate(text, formats[k]) == r
                     && forall j :: 0 <= j < k ==> ParseDate(text, formats[j]).None?)
    || (r == Some(today) && forall j :: 0 <= j < |formats| ==> ParseDate(text, formats[j]).None?)
  }

  /** The loop of `_clean_date` over the formats. */
  method ParseFirstFormat(text: string, formats: seq<DateFormat>, today: Day) returns (r: Option<Day>)
    ensures r.Some? && FirstParsed(text, formats, today, r)
  {
    for i := 0 to |formats|
      invariant forall j :: 0 <= j < i ==> ParseDate(text, formats[j]).None?
    {
      var parsed := ParseDate(text, formats[i]);
      if parsed.Some? {
        return parsed;
      }
    }
    return Some(today);
  }

  /** `_clean_date(val, date_formats)`: a missing value gives None. */
  method CleanDate(val: Option<string>, formats: seq<DateFormat>, today: Day) returns (r: Option<Day>)
    ensures r.None? <==> CleanString(val, false).None?
    ensures CleanString(val, false).Some? ==> FirstParsed(CleanString(val, false).value, formats, today, r)
  {
    var cleaned := CleanString(val, false);
    if cleaned.None? {
      return None;
    }
    r := ParseFirstFormat(cleaned.value, formats, today);
  }

  /** When some format accepts the text, `FirstParsed` admits exactly one result. */
  lemma {:induction false} FirstParsedUnique(text: string, formats: seq<DateFormat>, today: Day, r1: Option<Day>, r2: Option<Day>)
    requires FirstParsed(text, formats, today, r1) && FirstParsed(text, formats, today, r2)
    requires exists k :: 0 <= k < |formats| && ParseDate(text, formats[k]).Some?
    ensures r1 == r2
  {
    var k1 :| 0 <= k1 < |formats| && ParseDate(text, formats[k1]).Some? && ParseDate(text, formats[k1]) == r1
              && forall j :: 0 <= j < k1 ==> ParseDate(text, formats[j]).None?;
    var k2 :| 0 <= k2 < |formats| && ParseDate(text, formats[k2]).Some? && ParseDate(text, formats[k2]) == r2
              && forall j :: 0 <= j < k2 ==> ParseDate(text, formats[j]).None?;
    if k1 < k2 {
      assert false;
    } else if k2 < k1 {
      assert false;
    }
  }

  /** With the default formats, an ISO date text is read as that date. */
  lemma DefaultFormatsReadIso(y: nat, m: nat, d: nat, today: Day, r: Option<Day>)
    requires ValidDate(y, m, d)
    requires FirstParsed(FormatIso(y, m, d), DefaultDateFormats, today, r)
    ensures r == Some(Ordinal(y, m, d))
  {
    ParseFormatIso(y, m, d);
    var text := FormatIso(y, m, d);
    assert FirstParsed(text, DefaultDateFormats, today, Some(Ordinal(y, m, d))) by {
      assert ParseDate(text, DefaultDateFormats[0]) == Some(Ordinal(y, m, d));
    }
    assert ParseDate(text, DefaultDateFormats[0]).Some?;
    FirstParsedUnique(text, DefaultDateFormats, today, r, Some(Ordinal(y, m, d)));
  }

  /** With the default formats, a DD/MM/YYYY date text is read as that date. */
  lemma DefaultFormatsReadDmy(y: nat, m: nat, d: nat, today: Day, r: Option<Day>)
    requires ValidDate(y, m, d)
    requires FirstParsed(FormatDmy(y, m, d), DefaultDateFormats, today, r)
    ensures r == Some(Ordinal(y, m, d))
  {
    ParseFormatDmy(y, m, d);
    var text := FormatDmy(y, m, d);
    FormatsDisjoint(text);
    assert FirstParsed(text, DefaultDateFormats, today, Some(Ordinal(y, m, d))) by {
      assert ParseDate(text, DefaultDateFormats[1]) == Some(Ordinal(y, m, d));
      assert ParseDate(text, DefaultDateFormats[0]).None?;
    }
    assert ParseDate(text, DefaultDateFormats[1]).Some?;
    FirstParsedUnique(text, DefaultDateFormats, today, r, Some(Ordinal(y, m, d)));
  }

  // ---------------------------------------------------------------- selection fields

  /** The inputs `_map_selection_field` rejects before any lookup: compared lower-cased, untrimmed. */
  predicate IsBlankSelection(t: string) {
    t == "" || t == "not filled" || t == "n/a"
  }

  /** The per-field tables of `_map_selection_field`, keyed by lower-cased input. */
  function SelectionLookup(field: string, key: string): Option<string> {
    if field == "current_status" then
      if key == "tenant-occupied" then Some("tenant_occupied")
      else if key == "self-occupied" then Some("self_occupied")
      else if key == "empty" then Some("empty")
      else None
    else if field == "property_status" then
      if key == "live-property" || key == "live" then Some("live")
      else if key == "sold-cd" || key == "sold" then Some("sold")
      else if key == "service-expired" || key == "expired" then Some("expired")
      else None
    else if field == "furniture_details" then
      if key == "semi-furnished" then Some("semi_furnished")
      else if key == "full-furnished" || key == "fully_furnished" || key == "furnished" then Some("furnished")
      else if key == "unfurnished" then Some("unfurnished")
      else None
    else if field == "service_validity" then
      if key == "1-month" || key == "1" then Some("1")
      else if key == "3-months" || key == "4-months" || key == "5-months" || key == "3" then Some("3")
      else if key == "6-months" || key == "6" then Some("6")
      else if key == "12-months" || key == "12" then Some("12")
      else None
    else if field == "listing_type" then
      if key == "sell" || key == "rent" then Some(key) else None
    else if field == "property_type" then
      if key == "residential" || key == "commercial" then Some(key) else None
    else if field == "gst_status" then
      if key == "gst" || key == "no_gst" then Some(key) else None
    else None
  }

  /** `_map_selection_field(value, field_name)` */
  function MapSelectionField(value: Option<string>, field: string): (r: Option<string>)
    ensures r.Some? ==> SelectionKey(field, r.value)
    ensures value.None? || IsBlankSelection(Lower(value.value)) ==> r.None?
    ensures value.Some? && !IsBlankSelection(Lower(value.value)) ==> r == SelectionLookup(field, Lower(value.value))
  {
    if value.None? || value.value == [] || IsBlankSelection(Lower(value.value)) then None
    else SelectionLookup(field, Lower(value.value))
  }

  /** The lookup ignores case: a value and its lower-cased form map alike. */
  lemma MapSelectionIgnoresCase(value: string, field: string)
    ensures MapSelectionField(Some(value), field) == MapSelectionField(Some(Lower(value)), field)
  {
    LowerIdempotent(value);
  }

  /** A field without a table maps every value to None. */
  lemma MapSelectionUnknownField(value: Option<string>, field: string)
    requires field !in ["current_status", "property_status", "furniture_details", "service_validity",
                        "listing_type", "property_type", "gst_status"]
    ensures MapSelectionField(value, field).None?
  {
  }

  /** "4-Months" and "5-Months" become three months of service validity. */
  lemma MapSelectionFourMonths(value: string)
    requires value == "4-Months" || value == "5-Months"
    ensures MapSelectionField(Some(value), "service_validity") == Some("3")
  {
    var l := Lower(value);
    LowerAt(value);
    assert |l| == 8 && l[0] == value[0] && l[1] == '-' && l[2] == 'm' && l[3] == 'o';
    assert l[4] == 'n' && l[5] == 't' && l[6] == 'h' && l[7] == 's';
    assert l == "4-months" || l == "5-months";
  }

  /** The value is not trimmed before the lookup: " live" is not recognised. */
  lemma MapSelectionUntrimmed(value: string)
    requires value == " live"
    ensures MapSelectionField(Some(value), "property_status").None?
  {
    var l := Lower(value);
    assert |l| == 5 && l[0] == ' ';
  }
}
