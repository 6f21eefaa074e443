/** Page-number settings and formatting
    (`pyword/pyword/features/page_numbers.py`). */
module PageNumbers {
  import opened Common
  import opened Numerals
  import opened Json

  datatype Position = TopLeft | TopCenter | TopRight | BottomLeft | BottomCenter | BottomRight | PageXOfY

  datatype Format = Numeric | LowerRoman | UpperRoman | LowerAlpha | UpperAlpha

  const AllPositions: set<Position> := {TopLeft, TopCenter, TopRight, BottomLeft, BottomCenter, BottomRight, PageXOfY}

  lemma AllPositionsComplete(p: Position)
    ensures p in AllPositions
  {
  }

  /** The enum member names, as `to_dict` writes them. */
  function PositionName(p: Position): string
  {
    match p
    case TopLeft => "TOP_LEFT"
    case TopCenter => "TOP_CENTER"
    case TopRight => "TOP_RIGHT"
    case BottomLeft => "BOTTOM_LEFT"
    case BottomCenter => "BOTTOM_CENTER"
    case BottomRight => "BOTTOM_RIGHT"
    case PageXOfY => "PAGE_X_OF_Y"
  }

  /** `PageNumberPosition[name]`; None where Python raises KeyError. */
  function PositionNamed(name: string): (r: Option<Position>)
    ensures r.Some? ==> PositionName(r.value) == name
  {
    if name == "TOP_LEFT" then Some(TopLeft)
    else if name == "TOP_CENTER" then Some(TopCenter)
    else if name == "TOP_RIGHT" then Some(TopRight)
    else if name == "BOTTOM_LEFT" then Some(BottomLeft)
    else if name == "BOTTOM_CENTER" then Some(BottomCenter)
    else if name == "BOTTOM_RIGHT" then Some(BottomRight)
    else if name == "PAGE_X_OF_Y" then Some(PageXOfY)
    else None
  }

  lemma PositionNameRoundTrip(p: Position)
    ensures PositionNamed(PositionName(p)) == Some(p)
  {
  }

  function FormatName(f: Format): string
  {
    match f
    case Numeric => "NUMERIC"
    case LowerRoman => "LOWER_ROMAN"
    case UpperRoman => "UPPER_ROMAN"
    case LowerAlpha => "LOWER_ALPHA"
    case UpperAlpha => "UPPER_ALPHA"
  }

  /** `PageNumberFormat[name]`; None where Python raises KeyError. */
  function FormatNamed(name: string): (r: Option<Format>)
    ensures r.Some? ==> FormatName(r.value) == name
  {
    if name == "NUMERIC" then Some(Numeric)
    else if name == "LOWER_ROMAN" then Some(LowerRoman)
    else if name == "UPPER_ROMAN" then Some(UpperRoman)
    else if name == "LOWER_ALPHA" then Some(LowerAlpha)
    else if name == "UPPER_ALPHA" then Some(UpperAlpha)
    else None
  }

  lemma FormatNameRoundTrip(f: Format)
    ensures FormatNamed(FormatName(f)) == Some(f)
  {
  }

  datatype Settings = Settings(
    enabled: bool,
    position: Position,
    format: Format,
    startFrom: int,
    showOnFirstPage: bool,
    formatStrings: map<Position, string>)

  function DefaultFormatStrings(): (m: map<Position, string>)
    ensures m.Keys == AllPositions
  {
    map p | p in AllPositions :: if p == PageXOfY then "Page {number} of {total}" else "{number}"
  }

  /** `PageNumberSettings()`. */
  function DefaultSettings(): (s: Settings)
    ensures !s.enabled && s.position == BottomCenter && s.format == Numeric
    ensures s.startFrom == 1 && s.showOnFirstPage
    ensures s.formatStrings.Keys == AllPositions
    ensures s.formatStrings[PageXOfY] == "Page {number} of {total}"
    ensures forall p :: p in s.formatStrings && p != PageXOfY ==> s.formatStrings[p] == "{number}"
  {
    Settings(false, BottomCenter, Numeric, 1, true, DefaultFormatStrings())
  }

  function FormatStringsToValue(m: map<Position, string>): (v: Value)
    ensures v.Obj? && forall p :: p in m <==> PositionName(p) in v.fields
  {
    Obj(map p | p in m :: PositionName(p) := Str(m[p]))
  }

  function ToDict(s: Settings): (d: Dict)
    ensures d.Keys == {"enabled", "position", "format", "start_from", "show_on_first_page", "format_strings"}
  {
    map[
      "enabled" := Bool(s.enabled),
      "position" := Str(PositionName(s.position)),
      "format" := Str(FormatName(s.format)),
      "start_from" := Int(s.startFrom),
      "show_on_first_page" := Bool(s.showOnFirstPage),
      "format_strings" := FormatStringsToValue(s.formatStrings)]
  }

  /** The format strings `from_dict` ends up with: each default entry is
      overwritten by a stored string under its position name; stored
      entries with other names are skipped. */
  function LoadFormatStrings(stored: Dict): (m: map<Position, string>)
    ensures m.Keys == AllPositions
    ensures forall p :: p in m ==>
      m[p] == (if PositionName(p) in stored && stored[PositionName(p)].Str? then stored[PositionName(p)].s
               else DefaultFormatStrings()[p])
  {
    map p | p in AllPositions ::
      if PositionName(p) in stored && stored[PositionName(p)].Str? then stored[PositionName(p)].s
      else DefaultFormatStrings()[p]
  }

  /** `PageNumberSettings.from_dict`; None where an unknown position or
      format name makes the source raise KeyError. */
  function FromDict(d: Dict): (r: Option<Settings>)
    ensures r.None? <==> PositionNamed(GetStr(d, "position", "BOTTOM_CENTER")).None? ||
                         FormatNamed(GetStr(d, "format", "NUMERIC")).None?
    ensures r.Some? ==> r.value.formatStrings.Keys == AllPositions
    ensures r.Some? && "start_from" !in d ==> r.value.startFrom == 1
    ensures r.Some? && "enabled" !in d ==> !r.value.enabled
    ensures r.Some? && "show_on_first_page" !in d ==> r.value.showOnFirstPage
  {
    var pos := PositionNamed(GetStr(d, "position", "BOTTOM_CENTER"));
    var fmt := FormatNamed(GetStr(d, "format", "NUMERIC"));
    if pos.None? || fmt.None? then None
    else Some(Settings(
      GetBool(d, "enabled", false),
      pos.value,
      fmt.value,
      GetInt(d, "start_from", 1),
      GetBool(d, "show_on_first_page", true),
      LoadFormatStrings(GetObj(d, "format_strings"))))
  }

  lemma FormatStringsRoundTrip(m: map<Position, string>)
    requires m.Keys == AllPositions
    ensures LoadFormatStrings(FormatStringsToValue(m).fields) == m
  {
    var stored := FormatStringsToValue(m).fields;
    var back := LoadFormatStrings(stored);
    forall p | p in AllPositions
      ensures back[p] == m[p]
    {
      PositionNameRoundTrip(p);
      NameOf(m, p);
    }
  }

  lemma NameOf(m: map<Position, string>, p: Position)
    requires p in m
    ensures PositionName(p) in FormatStringsToValue(m).fields
    ensures FormatStringsToValue(m).fields[PositionName(p)] == Str(m[p])
  {
    var f := FormatStringsToValue(m).fields;
    assert PositionName(p) in f;
    var v := f[PositionName(p)];
    var q :| q in m && PositionName(q) == PositionName(p) && v == Str(m[q]);
    PositionNameRoundTrip(p);
    PositionNameRoundTrip(q);
  }

  /** Every settings value that keeps all seven format strings (as every
      settings value the source builds does) survives a save and load. */
  lemma SettingsRoundTrip(s: Settings)
    requires s.formatStrings.Keys == AllPositions
    ensures FromDict(ToDict(s)) == Some(s)
  {
    PositionNameRoundTrip(s.position);
    FormatNameRoundTrip(s.format);
    ToDictEntries(s);
    FormatStringsRoundTrip(s.formatStrings);
  }

  /** What each key of a saved settings value reads back as. */
  lemma ToDictEntries(s: Settings)
    ensures GetBool(ToDict(s), "enabled", false) == s.enabled
    ensures GetStr(ToDict(s), "position", "BOTTOM_CENTER") == PositionName(s.position)
    ensures GetStr(ToDict(s), "format", "NUMERIC") == FormatName(s.format)
    ensures GetInt(ToDict(s), "start_from", 1) == s.startFrom
    ensures GetBool(ToDict(s), "show_on_first_page", true) == s.showOnFirstPage
    ensures GetObj(ToDict(s), "format_strings") == FormatStringsToValue(s.formatStrings).fields
  {
    var d := ToDict(s);
    assert d["enabled"] == Bool(s.enabled);
    assert d["position"] == Str(PositionName(s.position));
    assert d["format"] == Str(FormatName(s.format));
    assert d["start_from"] == Int(s.startFrom);
    assert d["show_on_first_page"] == Bool(s.showOnFirstPage);
    assert d["format_strings"] == FormatStringsToValue(s.formatStrings);
  }

  /** A stored format string under a name that is no position is skipped. */
  lemma UnknownFormatStringSkipped(stored: Dict, name: string)
    requires PositionNamed(name).None?
    ensures LoadFormatStrings(stored) == LoadFormatStrings(stored - {name})
  {
    var a := LoadFormatStrings(stored);
    var b := LoadFormatStrings(stored - {name});
    forall p | p in AllPositions
      ensures a[p] == b[p]
    {
      var k := PositionName(p);
      PositionNameRoundTrip(p);
      assert k != name;
      assert (k in stored) == (k in stored - {name});
      if k in stored {
        assert (stored - {name})[k] == stored[k];
      }
    }
  }

  /** `_to_roman` for any integer; nothing for numbers below 1. */
  function RomanText(n: int): string
  {
    if n > 0 then Roman(n) else ""
  }

  /** `_to_alpha` for any integer: "A" for numbers below 1. */
  function AlphaText(n: int): string
  {
    if n > 0 then Alpha(n) else "A"
  }

  /** `_format_page_number` as a function of the format and the number
      `start_from + page_num - 1`. */
  function PageNumberText(f: Format, num: int): string
  {
    match f
    case Numeric => IntToString(num)
    case LowerRoman => Lower(RomanText(num))
    case UpperRoman => RomanText(num)
    case LowerAlpha => Lower(AlphaText(num))
    case UpperAlpha => AlphaText(num)
  }

  /** What each format shows, read back: decimal digits for their number,
      the digit-by-digit Roman numeral, bijective base-26 letters, and the
      lower-case styles are the upper-case strings in lower case. */
  lemma PageNumberReadsBack(f: Format, num: int)
    requires num >= 1
    ensures f == Numeric ==> DigitsValue(PageNumberText(f, num)) == num
    ensures f == UpperRoman ==> PageNumberText(f, num) == RomanDigits(num)
    ensures f == UpperAlpha ==> AllCapitals(PageNumberText(f, num)) && AlphaValue(PageNumberText(f, num)) == num
    ensures f == LowerRoman ==> Upper(PageNumberText(f, num)) == PageNumberText(UpperRoman, num)
    ensures f == LowerAlpha ==> Upper(PageNumberText(f, num)) == PageNumberText(UpperAlpha, num)
  {
    NatToStringValue(num);
    RomanIsDigitwise(num);
    AlphaValueOfAlpha(num);
    UpperLowerCapitals(Alpha(num));
    RomanFromLetters(num, 0);
    UpperLowerRoman(Roman(num));
  }

  lemma UpperLowerCapitals(s: string)
    requires AllCapitals(s)
    ensures Upper(Lower(s)) == s
  {
    assert forall i :: 0 <= i < |s| ==> UpperChar(LowerChar(s[i])) == s[i];
  }

  lemma UpperLowerRoman(s: string)
    requires RomanLetters(s)
    ensures Upper(Lower(s)) == s
  {
    assert forall i :: 0 <= i < |s| ==> UpperChar(LowerChar(s[i])) == s[i];
  }

  /** `_to_alpha` on the listed examples. */
  lemma AlphaTextExamples()
    ensures AlphaText(1) == "A" && AlphaText(26) == "Z" && AlphaText(27) == "AA"
    ensures AlphaText(52) == "AZ" && AlphaText(53) == "BA"
    ensures forall n :: n <= 0 ==> AlphaText(n) == "A"
  {
    AlphaExamples();
  }

  /** One numeral of entry `i`. */
  lemma EmitStep(n: nat, i: nat, s: string, m: int, k: nat, q: nat, rest: int)
    requires i < 13 && k < q && 0 <= rest
    requires m >= 0 && m == rest + (q - k) * RomanValues[i]
    requires RomanFrom(n, i) == s + RomanFrom(m, i)
    ensures m >= RomanValues[i] && m - RomanValues[i] == rest + (q - (k + 1)) * RomanValues[i]
    ensures RomanFrom(n, i) == (s + RomanSymbols[i]) + RomanFrom(m - RomanValues[i], i)
  {
    TakeOne(m, k, q, RomanValues[i], rest);
  }

  /** The inner loop of `_to_roman`: entry `i` is emitted `n // value`
      times. */
  method EmitEntry(n: int, i: nat) returns (s: string, m: int)
    requires i < 13 && n >= 0
    ensures m == n % RomanValues[i] && 0 <= m < RomanValues[i]
    ensures RomanFrom(n, i) == s + RomanFrom(m, i + 1)
  {
    var v := RomanValues[i];
    var q := n / v;
    var rest := n % v;
    DivModFacts(n, v);
    s := "";
    m := n;
    for k := 0 to q
      invariant m >= 0 && m == rest + (q - k) * v
      invariant RomanFrom(n, i) == s + RomanFrom(m, i)
    {
      EmitStep(n, i, s, m, k, q, rest);
      s := s + RomanSymbols[i];
      m := m - v;
    }
    assert m == rest;
    RomanFromSkip(m, i, i + 1);
  }

  /** `_to_roman`. */
  method ToRoman(num: int) returns (result: string)
    ensures result == RomanText(num)
  {
    var n := num;
    var i := 0;
    result := "";
    while n > 0
      invariant 0 <= i <= 13
      invariant num <= 0 ==> n == num && result == ""
      invariant num > 0 ==> n >= 0 && Roman(num) == result + RomanFrom(n, i)
      invariant n > 0 ==> i < 13
      decreases 13 - i
    {
      var s, m := EmitEntry(n, i);
      result := result + s;
      n := m;
      i := i + 1;
    }
    if num > 0 {
      RomanFromSkip(0, i, 13);
    }
  }

  /** `_to_alpha`: 0-based remainders taken from the right. */
  method ToAlpha(num: int) returns (result: string)
    ensures result == AlphaText(num)
  {
    var n := num - 1;
    result := "";
    while n >= 0
      invariant num > 0 ==> n >= -1
      invariant num <= 0 ==> n == num - 1 && result == ""
      invariant num > 0 ==> Alpha(num) == Alpha(n + 1) + result
      decreases n + 1
    {
      var remainder := n % 26;
      assert Alpha(n + 1) == Alpha(n / 26) + [(65 + remainder) as char];
      result := [(65 + remainder) as char] + result;
      n := n / 26 - 1;
    }
    if result == "" {
      result := "A";
    }
  }

  class PageNumberManager {
    var settings: Settings

    /** The format strings always cover all seven positions, and the
        start number is at least 1. */
    predicate Valid()
      reads this
    {
      settings.formatStrings.Keys == AllPositions && settings.startFrom >= 1
    }

    constructor ()
      ensures Valid() && settings == DefaultSettings()
    {
      settings := DefaultSettings();
    }

    method SetEnabled(enabled: bool)
      modifies this
      ensures settings == old(settings).(enabled := enabled)
    {
      if settings.enabled != enabled {
        settings := settings.(enabled := enabled);
      }
    }

    method SetPosition(position: Position)
      modifies this
      ensures settings == old(settings).(position := position)
    {
      if settings.position != position {
        settings := settings.(position := position);
      }
    }

    method SetFormat(format: Format)
      modifies this
      ensures settings == old(settings).(format := format)
    {
      if settings.format != format {
        settings := settings.(format := format);
      }
    }

    /** `set_start_from`: a new value is stored as at least 1. */
    method SetStartFrom(start: int)
      modifies this
      ensures old(settings).startFrom != start ==>
        settings == old(settings).(startFrom := if start >= 1 then start else 1)
      ensures old(settings).startFrom == start ==> settings == old(settings)
      ensures old(Valid()) ==> Valid()
    {
      if settings.startFrom != start {
        settings := settings.(startFrom := if start >= 1 then start else 1);
      }
    }

    method SetShowOnFirstPage(show: bool)
      modifies this
      ensures settings == old(settings).(showOnFirstPage := show)
    {
      if settings.showOnFirstPage != show {
        settings := settings.(showOnFirstPage := show);
      }
    }

    /** `set_format_string` only replaces an entry that exists. */
    method SetFormatString(position: Position, formatStr: string)
      modifies this
      ensures position in old(settings).formatStrings ==>
        settings == old(settings).(formatStrings := old(settings).formatStrings[position := formatStr])
      ensures position !in old(settings).formatStrings ==> settings == old(settings)
      ensures old(Valid()) ==> Valid()
    {
      if position in settings.formatStrings && settings.formatStrings[position] != formatStr {
        settings := settings.(formatStrings := settings.formatStrings[position := formatStr]);
      }
    }

    /** `_format_page_number`. */
    method FormatPageNumber(pageNum: int) returns (r: string)
      ensures r == PageNumberText(settings.format, settings.startFrom + pageNum - 1)
    {
      var num := settings.startFrom + pageNum - 1;
      match settings.format {
        case Numeric =>
          r := IntToString(num);
        case LowerRoman =>
          r := ToRoman(num);
          r := Lower(r);
        case UpperRoman =>
          r := ToRoman(num);
        case LowerAlpha =>
          r := ToAlpha(num);
          r := Lower(r);
        case UpperAlpha =>
          r := ToAlpha(num);
      }
    }
  }
}
