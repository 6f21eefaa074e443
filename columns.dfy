/** Multi-column layout (`pyword/pyword/features/columns.py`): the preset
    layouts and their relative widths, the settings record and its
    dictionary form, and the column manager's setters together with the
    choice of column count and widths that `_update_columns` hands to the
    document's root frame. Widths are exact reals here. */
module Columns {
  import opened Common
  import opened Json

  datatype ColumnLayout = OneColumn | TwoColumns | ThreeColumns | Left | Right

  /** The enum value: the column count for the first three layouts, a
      negative tag for the two asymmetric ones. */
  function LayoutValue(l: ColumnLayout): int
  {
    match l
    case OneColumn => 1
    case TwoColumns => 2
    case ThreeColumns => 3
    case Left => -1
    case Right => -2
  }

  function LayoutName(l: ColumnLayout): string
  {
    match l
    case OneColumn => "ONE_COLUMN"
    case TwoColumns => "TWO_COLUMNS"
    case ThreeColumns => "THREE_COLUMNS"
    case Left => "LEFT"
    case Right => "RIGHT"
  }

  /** `ColumnLayout[name]`: `None` where the lookup raises KeyError. */
  function LayoutFromName(name: string): (r: Option<ColumnLayout>)
    ensures r.Some? ==> LayoutName(r.value) == name
  {
    if name == "ONE_COLUMN" then Some(OneColumn)
    else if name == "TWO_COLUMNS" then Some(TwoColumns)
    else if name == "THREE_COLUMNS" then Some(ThreeColumns)
    else if name == "LEFT" then Some(Left)
    else if name == "RIGHT" then Some(Right)
    else None
  }

  lemma LayoutNameRoundTrip(l: ColumnLayout)
    ensures LayoutFromName(LayoutName(l)) == Some(l)
  {
  }

  predicate AllPositive(ws: seq<real>)
  {
    forall i :: 0 <= i < |ws| ==> ws[i] > 0.0
  }

  /** `get_column_widths`: the relative widths of a preset. */
  function PresetWidths(l: ColumnLayout): (ws: seq<real>)
    ensures |ws| >= 1 && AllPositive(ws)
  {
    match l
    case OneColumn => [1.0]
    case TwoColumns => [0.5, 0.5]
    case ThreeColumns => [0.33, 0.34, 0.33]
    case Left => [0.33, 0.67]
    case Right => [0.67, 0.33]
  }

  lemma SumPair(a: real, b: real)
    ensures Sum([a, b]) == a + b
  {
    assert [b][1..] == [];
    assert Sum([b]) == b;
    assert [a, b][1..] == [b];
  }

  /** Every preset's widths fill the whole width. */
  lemma PresetWidthsSum(l: ColumnLayout)
    ensures Sum(PresetWidths(l)) == 1.0
  {
    match l
    case OneColumn => assert [1.0][1..] == [];
    case TwoColumns => SumPair(0.5, 0.5);
    case ThreeColumns =>
      assert [0.33, 0.34, 0.33][1..] == [0.34, 0.33];
      SumPair(0.34, 0.33);
    case Left => SumPair(0.33, 0.67);
    case Right => SumPair(0.67, 0.33);
  }

  /** `num_columns = abs(layout.value)`, as written. */
  function ColumnCountAsWritten(l: ColumnLayout): nat
  {
    Abs(LayoutValue(l))
  }

  /** As written, the LEFT layout ("two columns, narrow left") is given one
      column but two widths. */
  lemma LeftCountMismatch()
    ensures ColumnCountAsWritten(Left) == 1
    ensures |PresetWidths(Left)| == 2
  {
  }

  /** Every other preset's value is its number of widths. */
  lemma PresetCountsAgree(l: ColumnLayout)
    requires l != Left
    ensures ColumnCountAsWritten(l) == |PresetWidths(l)|
  {
  }

  /** The corrected count: as many columns as widths, which two-column LEFT
      needs (and the custom-widths branch already does). */
  function ColumnCount(l: ColumnLayout): (n: nat)
    ensures n == |PresetWidths(l)|
    ensures l != Left ==> n == ColumnCountAsWritten(l)
    ensures l == Left ==> n == 2
  {
    |PresetWidths(l)|
  }

  datatype ColumnSettings = ColumnSettings(layout: ColumnLayout, spacing: real, lineBetween: bool,
                                           equalWidth: bool, customWidths: seq<real>)

  /** `ColumnSettings()`: one column, 12 pt spacing, no line, equal widths. */
  const DefaultSettings: ColumnSettings := ColumnSettings(OneColumn, 12.0, false, true, [])

  function RealsValue(ws: seq<real>): (v: Value)
    ensures v.Arr? && |v.items| == |ws|
  {
    Arr(seq(|ws|, i requires 0 <= i < |ws| => Real(ws[i])))
  }

  /** The numbers of a stored list; other items are dropped. */
  function AsReals(items: seq<Value>): (ws: seq<real>)
    ensures |ws| <= |items|
  {
    if items == [] then []
    else (if items[0].Real? then [items[0].r] else if items[0].Int? then [items[0].i as real] else [])
         + AsReals(items[1..])
  }

  lemma {:induction false} AsRealsValue(ws: seq<real>)
    ensures AsReals(RealsValue(ws).items) == ws
  {
    if ws != [] {
      assert RealsValue(ws).items[1..] == RealsValue(ws[1..]).items;
      AsRealsValue(ws[1..]);
      assert ws == [ws[0]] + ws[1..];
    }
  }

  function SettingsToDict(s: ColumnSettings): (d: Dict)
    ensures d.Keys == {"layout", "spacing", "line_between", "equal_width", "custom_widths"}
  {
    map["layout" := Str(LayoutName(s.layout)), "spacing" := Real(s.spacing),
        "line_between" := Bool(s.lineBetween), "equal_width" := Bool(s.equalWidth),
        "custom_widths" := RealsValue(s.customWidths)]
  }

  /** `ColumnSettings.from_dict`: an unknown layout name falls back to one
      column; every key is optional. */
  function SettingsFromDict(d: Dict): (s: ColumnSettings)
    ensures LayoutFromName(GetStr(d, "layout", "ONE_COLUMN")).None? ==> s.layout == OneColumn
    ensures d == map[] ==> s == DefaultSettings
  {
    var layout := match LayoutFromName(GetStr(d, "layout", "ONE_COLUMN"))
      case Some(l) => l
      case None => OneColumn;
    var widths := if "custom_widths" in d && d["custom_widths"].Arr? then AsReals(d["custom_widths"].items) else [];
    ColumnSettings(layout, GetReal(d, "spacing", 12.0), GetBool(d, "line_between", false),
                   GetBool(d, "equal_width", true), widths)
  }

  lemma SettingsRoundTrip(s: ColumnSettings)
    ensures SettingsFromDict(SettingsToDict(s)) == s
  {
    LayoutNameRoundTrip(s.layout);
    AsRealsValue(s.customWidths);
  }

  /** `int(x)`: truncation toward zero. */
  function Trunc(x: real): int
  {
    if x >= 0.0 then x.Floor else -((-x).Floor)
  }

  /** The column properties of the root frame's format. */
  datatype FrameLayout = FrameLayout(columnCount: nat, columnWidths: seq<int>, spacing: real, border: bool)

  /** The widths `_update_columns` uses: the preset's when equal widths are
      asked for or there are no custom widths, the custom ones otherwise. */
  function SelectedWidths(s: ColumnSettings): (ws: seq<real>)
    ensures s.equalWidth || s.customWidths == [] ==> ws == PresetWidths(s.layout)
    ensures !s.equalWidth && s.customWidths != [] ==> ws == s.customWidths
    ensures |ws| >= 1
  {
    if s.equalWidth || s.customWidths == [] then PresetWidths(s.layout) else s.customWidths
  }

  /** `_update_columns` applied to a frame format: one column resets the
      count and the first width only; any other layout sets count, widths
      (scaled by 5000 and truncated), spacing and the separator line, which
      needs more than one column. The count is `abs(layout.value)` for the
      preset widths and the number of widths for custom ones. */
  function UpdateFrame(f: FrameLayout, s: ColumnSettings): (r: FrameLayout)
    ensures s.layout == OneColumn ==> r == f.(columnCount := 1, columnWidths := [0])
    ensures s.layout != OneColumn && (s.equalWidth || s.customWidths == []) ==>
      r.columnCount == ColumnCountAsWritten(s.layout) && |r.columnWidths| == |PresetWidths(s.layout)|
    ensures s.layout != OneColumn && !s.equalWidth && s.customWidths != [] ==>
      r.columnCount == |s.customWidths| && |r.columnWidths| == |s.customWidths|
    ensures s.layout != OneColumn ==> r.spacing == s.spacing && (r.border <==> s.lineBetween && r.columnCount > 1)
  {
    if s.layout == OneColumn then f.(columnCount := 1, columnWidths := [0])
    else
      var ws := SelectedWidths(s);
      var n := if s.equalWidth || s.customWidths == [] then ColumnCountAsWritten(s.layout) else |ws|;
      FrameLayout(n, seq(|ws|, i requires 0 <= i < |ws| => Trunc(ws[i] * 5000.0)), s.spacing, s.lineBetween && n > 1)
  }

  /** As written, the LEFT preset reaches the frame as one column with two
      widths, and the separator line is dropped even when it is asked for. */
  lemma LeftFrameAsWritten(f: FrameLayout, spacing: real, line: bool, custom: seq<real>)
    ensures var r := UpdateFrame(f, ColumnSettings(Left, spacing, line, true, custom));
            r.columnCount == 1 && |r.columnWidths| == 2 && !r.border
  {
  }

  /** With the corrected count the frame's column count always equals the
      number of widths it is given. */
  lemma CorrectedCountFitsFrame(f: FrameLayout, s: ColumnSettings)
    requires s.layout != OneColumn
    ensures var r := UpdateFrame(f, s);
            |r.columnWidths| == if s.equalWidth || s.customWidths == [] then ColumnCount(s.layout) else r.columnCount
  {
  }

  /** The preset widths of a layout reach the frame scaled to whole units. */
  lemma PresetFrameWidths(f: FrameLayout, l: ColumnLayout, spacing: real, line: bool)
    requires l == TwoColumns
    ensures UpdateFrame(f, ColumnSettings(l, spacing, line, true, [])).columnWidths == [2500, 2500]
  {
  }

  class ColumnManager {
    var settings: ColumnSettings
    var frame: FrameLayout
    /** How many times `columnLayoutChanged` was emitted. */
    var changes: nat

    /** A manager over a document whose root frame currently has `initial`. */
    constructor (initial: FrameLayout)
      ensures settings == DefaultSettings && frame == initial && changes == 0
    {
      settings := DefaultSettings;
      frame := initial;
      changes := 0;
    }

    /** `_update_columns`. */
    method UpdateColumns()
      modifies this`frame
      ensures frame == UpdateFrame(old(frame), settings)
    {
      frame := UpdateFrame(frame, settings);
    }

    /** `set_layout`: a new layout is stored, the frame updated and the
        change signalled; the current one changes nothing. */
    method SetLayout(l: ColumnLayout)
      modifies this
      ensures l == old(settings.layout) ==> settings == old(settings) && frame == old(frame) && changes == old(changes)
      ensures l != old(settings.layout) ==> settings == old(settings).(layout := l)
      ensures l != old(settings.layout) ==> frame == UpdateFrame(old(frame), settings) && changes == old(changes) + 1
    {
      if settings.layout != l {
        settings := settings.(layout := l);
        UpdateColumns();
        changes := changes + 1;
      }
    }

    /** `set_spacing`. */
    method SetSpacing(spacing: real)
      modifies this
      ensures spacing == old(settings.spacing) ==> settings == old(settings) && frame == old(frame) && changes == old(changes)
      ensures spacing != old(settings.spacing) ==> settings == old(settings).(spacing := spacing)
      ensures spacing != old(settings.spacing) ==> frame == UpdateFrame(old(frame), settings) && changes == old(changes) + 1
    {
      if settings.spacing != spacing {
        settings := settings.(spacing := spacing);
        UpdateColumns();
        changes := changes + 1;
      }
    }

    /** `set_line_between`. */
    method SetLineBetween(enabled: bool)
      modifies this
      ensures enabled == old(settings.lineBetween) ==> settings == old(settings) && frame == old(frame) && changes == old(changes)
      ensures enabled != old(settings.lineBetween) ==> settings == old(settings).(lineBetween := enabled)
      ensures enabled != old(settings.lineBetween) ==> frame == UpdateFrame(old(frame), settings) && changes == old(changes) + 1
    {
      if settings.lineBetween != enabled {
        settings := settings.(lineBetween := enabled);
        UpdateColumns();
        changes := changes + 1;
      }
    }

    /** `set_equal_width`. */
    method SetEqualWidth(enabled: bool)
      modifies this
      ensures enabled == old(settings.equalWidth) ==> settings == old(settings) && frame == old(frame) && changes == old(changes)
      ensures enabled != old(settings.equalWidth) ==> settings == old(settings).(equalWidth := enabled)
      ensures enabled != old(settings.equalWidth) ==> frame == UpdateFrame(old(frame), settings) && changes == old(changes) + 1
    {
      if settings.equalWidth != enabled {
        settings := settings.(equalWidth := enabled);
        UpdateColumns();
        changes := changes + 1;
      }
    }

    /** `set_custom_widths`: raises ValueError (False here) and changes
        nothing unless the widths are all positive and sum to exactly 1;
        otherwise stores them and turns equal widths off. */
    method SetCustomWidths(widths: seq<real>) returns (ok: bool)
      modifies this
      ensures ok <==> Sum(widths) == 1.0 && AllPositive(widths)
      ensures !ok ==> settings == old(settings) && frame == old(frame) && changes == old(changes)
      ensures ok ==> settings == old(settings).(customWidths := widths, equalWidth := false)
      ensures ok ==> frame == UpdateFrame(old(frame), settings) && changes == old(changes) + 1
      ensures ok && settings.layout != OneColumn ==> frame.columnCount == |widths|
    {
      if Sum(widths) != 1.0 || exists i :: 0 <= i < |widths| && widths[i] <= 0.0 {
        return false;
      }
      settings := settings.(customWidths := widths, equalWidth := false);
      assert widths != [];
      UpdateColumns();
      changes := changes + 1;
      ok := true;
    }

    /** `insert_column_break`: past the break block and frame it inserts
        into the document, the frame is brought up to date. */
    method InsertColumnBreak()
      modifies this`frame
      ensures frame == UpdateFrame(old(frame), settings)
    {
      UpdateColumns();
    }

    function ToDict(): (d: Dict)
      reads this
      ensures SettingsFromDict(d) == settings
    {
      SettingsRoundTrip(settings);
      SettingsToDict(settings)
    }

    /** `from_dict`: the settings are replaced by those read, the frame
        updated and the change signalled. */
    method FromDict(d: Dict)
      modifies this
      ensures settings == SettingsFromDict(d)
      ensures frame == UpdateFrame(old(frame), settings) && changes == old(changes) + 1
      ensures d == SettingsToDict(old(settings)) ==> settings == old(settings)
    {
      SettingsRoundTrip(settings);
      settings := SettingsFromDict(d);
      UpdateColumns();
      changes := changes + 1;
    }
  }
}
