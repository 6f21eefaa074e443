/** Paper size, orientation and margins (`pyword/core/page_setup.py`).
    Python floats are modelled as exact reals. */
module PageSetup {
  import opened Common
  import opened Json

  datatype Orientation = Portrait | Landscape

  function OrientationName(o: Orientation): string
  {
    match o
    case Portrait => "PORTRAIT"
    case Landscape => "LANDSCAPE"
  }

  /** `PageOrientation[name]`; None where Python raises KeyError. */
  function OrientationNamed(name: string): (r: Option<Orientation>)
    ensures r.Some? ==> OrientationName(r.value) == name
    ensures r.None? <==> name != "PORTRAIT" && name != "LANDSCAPE"
  {
    if name == "PORTRAIT" then Some(Portrait)
    else if name == "LANDSCAPE" then Some(Landscape)
    else None
  }

  /** Margins in points. */
  datatype Margins = Margins(left: real, right: real, top: real, bottom: real, header: real, footer: real, gutter: real)

  /** `PageMargins()`: one inch all round, half an inch for header and
      footer, no gutter. */
  const DefaultMargins := Margins(72.0, 72.0, 72.0, 72.0, 36.0, 36.0, 0.0)

  function MarginsToDict(m: Margins): (d: Dict)
    ensures d.Keys == {"left", "right", "top", "bottom", "header", "footer", "gutter"}
  {
    map["left" := Real(m.left), "right" := Real(m.right), "top" := Real(m.top), "bottom" := Real(m.bottom),
        "header" := Real(m.header), "footer" := Real(m.footer), "gutter" := Real(m.gutter)]
  }

  /** `PageMargins.from_dict`: each missing key takes its default. */
  function MarginsFromDict(d: Dict): (m: Margins)
    ensures d == map[] ==> m == DefaultMargins
  {
    Margins(GetReal(d, "left", 72.0), GetReal(d, "right", 72.0), GetReal(d, "top", 72.0), GetReal(d, "bottom", 72.0),
            GetReal(d, "header", 36.0), GetReal(d, "footer", 36.0), GetReal(d, "gutter", 0.0))
  }

  lemma MarginsRoundTrip(m: Margins)
    ensures MarginsFromDict(MarginsToDict(m)) == m
  {
  }

  /** Each key is read on its own: dropping one key resets exactly that
      margin to its default. */
  lemma MarginsMissingKey(m: Margins)
    ensures MarginsFromDict(MarginsToDict(m) - {"gutter"}) == m.(gutter := 0.0)
    ensures MarginsFromDict(MarginsToDict(m) - {"header"}) == m.(header := 36.0)
    ensures MarginsFromDict(MarginsToDict(m) - {"left"}) == m.(left := 72.0)
  {
  }

  datatype Setup = Setup(paperSize: string, orientation: Orientation, margins: Margins, pageWidth: real, pageHeight: real)

  /** `PageSetup()`: A4 portrait, 595 by 842 points. */
  const DefaultSetup := Setup("A4", Portrait, DefaultMargins, 595.0, 842.0)

  function Min(a: real, b: real): real { if a <= b then a else b }
  function Max(a: real, b: real): real { if a >= b then a else b }

  /** `get_effective_page_size`: the two page dimensions, the larger first
      in landscape and the smaller first in portrait. */
  function EffectivePageSize(s: Setup): (r: (real, real))
    ensures (r.0 == s.pageWidth && r.1 == s.pageHeight) || (r.0 == s.pageHeight && r.1 == s.pageWidth)
    ensures s.orientation == Landscape ==> r.0 >= r.1
    ensures s.orientation == Portrait ==> r.0 <= r.1
  {
    if s.orientation == Landscape then (Max(s.pageWidth, s.pageHeight), Min(s.pageWidth, s.pageHeight))
    else (Min(s.pageWidth, s.pageHeight), Max(s.pageWidth, s.pageHeight))
  }

  /** The effective size does not depend on which dimension was stored as
      the width. */
  lemma EffectiveSizeSwap(s: Setup)
    ensures EffectivePageSize(s.(pageWidth := s.pageHeight, pageHeight := s.pageWidth)) == EffectivePageSize(s)
  {
  }

  function SetupToDict(s: Setup): (d: Dict)
    ensures d.Keys == {"paper_size", "orientation", "margins", "page_width", "page_height"}
  {
    map["paper_size" := Str(s.paperSize), "orientation" := Str(OrientationName(s.orientation)),
        "margins" := Obj(MarginsToDict(s.margins)), "page_width" := Real(s.pageWidth),
        "page_height" := Real(s.pageHeight)]
  }

  /** `PageSetup.from_dict`; None where an unknown orientation name makes
      the source raise KeyError. */
  function SetupFromDict(d: Dict): (r: Option<Setup>)
    ensures r.None? <==> OrientationNamed(GetStr(d, "orientation", "PORTRAIT")).None?
    ensures d == map[] ==> r == Some(DefaultSetup)
  {
    match OrientationNamed(GetStr(d, "orientation", "PORTRAIT"))
    case None => None
    case Some(o) =>
      Some(Setup(GetStr(d, "paper_size", "A4"), o, MarginsFromDict(GetObj(d, "margins")),
                 GetReal(d, "page_width", 595.0), GetReal(d, "page_height", 842.0)))
  }

  lemma SetupRoundTrip(s: Setup)
    ensures SetupFromDict(SetupToDict(s)) == Some(s)
  {
    MarginsRoundTrip(s.margins);
    assert GetObj(SetupToDict(s), "margins") == MarginsToDict(s.margins);
    assert GetStr(SetupToDict(s), "orientation", "PORTRAIT") == OrientationName(s.orientation);
  }
}
