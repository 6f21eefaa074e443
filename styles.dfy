/** Named paragraph styles and colour themes of the document
    (`pyword/pyword/features/styles.py`). A style records which text format
    properties it sets; an unset property is `None`. */
module Styles {
  import opened Common

  datatype FontWeight = NormalWeight | Bold

  datatype CharFormat = CharFormat(pointSize: Option<int>, weight: Option<FontWeight>, italic: Option<bool>,
                                   family: Option<string>, fixedPitch: Option<bool>, lightGrayBackground: bool)

  /** A fresh `QTextCharFormat`: nothing set. */
  const Unset: CharFormat := CharFormat(None, None, None, None, None, false)

  datatype Margins = Margins(left: int, right: int, top: int, bottom: int)

  /** A character format, or the block and character formats of a quote. */
  datatype Style = CharStyle(format: CharFormat) | BlockStyle(margins: Margins, format: CharFormat)

  /** `_create_heading_style`. */
  function HeadingStyle(size: int, bold: bool, italic: bool): (s: Style)
    ensures s.CharStyle? && s.format.pointSize == Some(size) && s.format.italic == Some(italic)
    ensures s.format.weight == Some(if bold then Bold else NormalWeight)
  {
    CharStyle(Unset.(pointSize := Some(size), weight := Some(if bold then Bold else NormalWeight), italic := Some(italic)))
  }

  const NormalStyle: Style := CharStyle(Unset.(pointSize := Some(12)))
  /** `_create_quote_style`: 25 pt side margins, 10 pt above and below, italic. */
  const QuoteStyle: Style := BlockStyle(Margins(25, 25, 10, 10), Unset.(italic := Some(true)))
  /** `_create_code_style`: fixed-pitch Courier on light gray. */
  const CodeStyle: Style := CharStyle(Unset.(family := Some("Courier"), fixedPitch := Some(true), lightGrayBackground := true))

  const StyleNames: set<string> := {"Normal", "Heading 1", "Heading 2", "Heading 3", "Quote", "Code"}

  function DefaultStyles(): (m: map<string, Style>)
    ensures m.Keys == StyleNames
  {
    map["Normal" := NormalStyle, "Heading 1" := HeadingStyle(18, true, false),
        "Heading 2" := HeadingStyle(16, true, false), "Heading 3" := HeadingStyle(14, true, true),
        "Quote" := QuoteStyle, "Code" := CodeStyle]
  }

  /** Headings shrink from level 1 to level 3, and only level 3 is italic. */
  lemma HeadingSizes()
    ensures DefaultStyles()["Heading 1"].format.pointSize == Some(18)
    ensures DefaultStyles()["Heading 2"].format.pointSize == Some(16)
    ensures DefaultStyles()["Heading 3"].format.pointSize == Some(14)
    ensures DefaultStyles()["Heading 3"].format.italic == Some(true)
    ensures DefaultStyles()["Heading 1"].format.italic == Some(false)
  {
  }

  type Colors = map<string, string>

  const ColorRoles: set<string> := {"background", "text", "highlight", "accent"}

  function Theme(background: string, text: string, highlight: string, accent: string): (c: Colors)
    ensures c.Keys == ColorRoles
  {
    map["background" := background, "text" := text, "highlight" := highlight, "accent" := accent]
  }

  function DefaultThemes(): (m: map<string, Colors>)
    ensures m.Keys == {"Light", "Dark", "Sepia"}
    ensures forall t :: t in m ==> m[t].Keys == ColorRoles
  {
    map["Light" := Theme("#ffffff", "#000000", "#e6f3ff", "#0078d7"),
        "Dark" := Theme("#2d2d2d", "#e0e0e0", "#3e4a52", "#4fa6ed"),
        "Sepia" := Theme("#f4ecd8", "#5b4636", "#e4d4b1", "#9c786c")]
  }

  class DocumentStyles {
    var styles: map<string, Style>
    var currentTheme: string
    var themes: map<string, Colors>

    /** The fallbacks the lookups evaluate are present. */
    predicate Valid()
      reads this
    {
      "Normal" in styles && "Light" in themes
    }

    constructor ()
      ensures styles == DefaultStyles() && themes == DefaultThemes() && currentTheme == "Light"
      ensures Valid()
    {
      styles := DefaultStyles();
      currentTheme := "Light";
      themes := DefaultThemes();
    }

    /** `get_style`: the named style, or Normal for an unknown name (the
        Normal entry is looked up in either case). */
    function GetStyle(name: string): (s: Style)
      requires "Normal" in styles
      reads this
      ensures name in styles ==> s == styles[name]
      ensures name !in styles ==> s == styles["Normal"]
    {
      if name in styles then styles[name] else styles["Normal"]
    }

    /** `set_theme`: a known theme becomes current; an unknown one changes
        nothing. */
    method SetTheme(name: string) returns (ok: bool)
      modifies this`currentTheme
      ensures ok <==> name in themes
      ensures ok ==> currentTheme == name
      ensures !ok ==> currentTheme == old(currentTheme)
    {
      if name in themes {
        currentTheme := name;
        return true;
      }
      return false;
    }

    /** `get_theme_colors`: the current theme's colours, or Light's. With
        the themes the document starts with, every role has a colour. */
    function GetThemeColors(): (c: Colors)
      requires "Light" in themes
      reads this
      ensures currentTheme in themes ==> c == themes[currentTheme]
      ensures currentTheme !in themes ==> c == themes["Light"]
      ensures themes == DefaultThemes() ==> c.Keys == ColorRoles
    {
      if currentTheme in themes then themes[currentTheme] else themes["Light"]
    }
  }
}
