/** Sections and section breaks (`pyword/pyword/features/sections.py`).
    A section is an object that the manager's list holds and that callers
    update in place. Cursor positions are parameters: the position of the
    cursor when a break is inserted or looked up, and the text of the line
    under it when a break is deleted. The document text itself is not part
    of this model; `InsertSectionBreak` returns the block it would insert. */
module Sections {
  import opened Common
  import opened Json

  const NextPage: string := "Next Page"
  const Continuous: string := "Continuous"
  const EvenPage: string := "Even Page"
  const OddPage: string := "Odd Page"

  /** The attributes of a `Section`. `header`, `footer` and `margins` hold
      whatever value was last assigned to them. */
  datatype SectionData = SectionData(breakType: string, startPosition: int, endPosition: int,
                                     header: Value, footer: Value, pageOrientation: string,
                                     margins: Value, columns: int, pageNumberingStart: int,
                                     differentFirstPage: bool, differentOddEven: bool)

  const DefaultMargins: Value :=
    Obj(map["top" := Real(1.0), "bottom" := Real(1.0), "left" := Real(1.0), "right" := Real(1.0)])

  /** `Section()`: a Next Page section from 0 to the end (-1), portrait,
      one-inch margins, one column, numbering from 1. */
  const DefaultSection: SectionData :=
    SectionData(NextPage, 0, -1, Null, Null, "Portrait", DefaultMargins, 1, 1, false, false)

  /** The attributes a section has, one per field. */
  datatype Attr = BreakTypeAttr | StartPositionAttr | EndPositionAttr | HeaderAttr | FooterAttr
                | PageOrientationAttr | MarginsAttr | ColumnsAttr | PageNumberingStartAttr
                | DifferentFirstPageAttr | DifferentOddEvenAttr

  /** The attribute's name as `getattr` and `setattr` spell it. */
  function AttrName(a: Attr): string
  {
    match a
    case BreakTypeAttr => "break_type"
    case StartPositionAttr => "start_position"
    case EndPositionAttr => "end_position"
    case HeaderAttr => "header"
    case FooterAttr => "footer"
    case PageOrientationAttr => "page_orientation"
    case MarginsAttr => "margins"
    case ColumnsAttr => "columns"
    case PageNumberingStartAttr => "page_numbering_start"
    case DifferentFirstPageAttr => "different_first_page"
    case DifferentOddEvenAttr => "different_odd_even"
  }

  /** The attribute names a section has. */
  const AttributeNames: set<string> :=
    {"break_type", "start_position", "end_position", "header", "footer", "page_orientation",
     "margins", "columns", "page_numbering_start", "different_first_page", "different_odd_even"}

  /** `hasattr(section, name)`: the attribute a name denotes, if any. */
  function AttrNamed(name: string): (a: Option<Attr>)
    ensures a.Some? <==> name in AttributeNames
    ensures a.Some? ==> AttrName(a.value) == name
  {
    if name == "break_type" then Some(BreakTypeAttr)
    else if name == "start_position" then Some(StartPositionAttr)
    else if name == "end_position" then Some(EndPositionAttr)
    else if name == "header" then Some(HeaderAttr)
    else if name == "footer" then Some(FooterAttr)
    else if name == "page_orientation" then Some(PageOrientationAttr)
    else if name == "margins" then Some(MarginsAttr)
    else if name == "columns" then Some(ColumnsAttr)
    else if name == "page_numbering_start" then Some(PageNumberingStartAttr)
    else if name == "different_first_page" then Some(DifferentFirstPageAttr)
    else if name == "different_odd_even" then Some(DifferentOddEvenAttr)
    else None
  }

  /** Every attribute is found again under its own name. */
  lemma AttrNameRoundTrip(a: Attr)
    ensures AttrNamed(AttrName(a)) == Some(a)
  {
  }

  /** The field an attribute reads. */
  function Get(d: SectionData, a: Attr): Value
  {
    match a
    case BreakTypeAttr => Str(d.breakType)
    case StartPositionAttr => Int(d.startPosition)
    case EndPositionAttr => Int(d.endPosition)
    case HeaderAttr => d.header
    case FooterAttr => d.footer
    case PageOrientationAttr => Str(d.pageOrientation)
    case MarginsAttr => d.margins
    case ColumnsAttr => Int(d.columns)
    case PageNumberingStartAttr => Int(d.pageNumberingStart)
    case DifferentFirstPageAttr => Bool(d.differentFirstPage)
    case DifferentOddEvenAttr => Bool(d.differentOddEven)
  }

  /** The value of a named attribute, as `getattr` would give it. */
  function Attribute(d: SectionData, name: string): (v: Option<Value>)
    ensures v.Some? <==> name in AttributeNames
  {
    match AttrNamed(name)
    case Some(a) => Some(Get(d, a))
    case None => None
  }

  /** A value the attribute's type can hold. */
  predicate Fits(a: Attr, v: Value)
  {
    match a
    case BreakTypeAttr => v.Str?
    case PageOrientationAttr => v.Str?
    case StartPositionAttr => v.Int?
    case EndPositionAttr => v.Int?
    case ColumnsAttr => v.Int?
    case PageNumberingStartAttr => v.Int?
    case DifferentFirstPageAttr => v.Bool?
    case DifferentOddEvenAttr => v.Bool?
    case _ => true
  }

  /** The field an attribute writes; a value of the wrong type is not
      stored. */
  function Put(d: SectionData, a: Attr, v: Value): (r: SectionData)
    ensures !Fits(a, v) ==> r == d
  {
    if !Fits(a, v) then d
    else match a
      case BreakTypeAttr => d.(breakType := v.s)
      case StartPositionAttr => d.(startPosition := v.i)
      case EndPositionAttr => d.(endPosition := v.i)
      case HeaderAttr => d.(header := v)
      case FooterAttr => d.(footer := v)
      case PageOrientationAttr => d.(pageOrientation := v.s)
      case MarginsAttr => d.(margins := v)
      case ColumnsAttr => d.(columns := v.i)
      case PageNumberingStartAttr => d.(pageNumberingStart := v.i)
      case DifferentFirstPageAttr => d.(differentFirstPage := v.b)
      case DifferentOddEvenAttr => d.(differentOddEven := v.b)
  }

  /** Writing one field and reading any field back. */
  lemma PutGet(d: SectionData, a: Attr, v: Value, b: Attr)
    ensures Get(Put(d, a, v), b) == if a == b && Fits(a, v) then v else Get(d, b)
  {
  }

  /** `if hasattr(section, key): setattr(section, key, value)`. */
  function SetAttribute(d: SectionData, name: string, v: Value): (r: SectionData)
    ensures name !in AttributeNames ==> r == d
  {
    match AttrNamed(name)
    case Some(a) => Put(d, a, v)
    case None => d
  }

  /** Setting an attribute gives it the new value and leaves every other
      attribute as it was. */
  lemma SetAttributeEffect(d: SectionData, name: string, v: Value, other: string)
    requires name in AttributeNames && Fits(AttrNamed(name).value, v)
    ensures Attribute(SetAttribute(d, name, v), name) == Some(v)
    ensures other != name ==> Attribute(SetAttribute(d, name, v), other) == Attribute(d, other)
  {
    var a := AttrNamed(name).value;
    PutGet(d, a, v, a);
    if AttrNamed(other).Some? {
      var b := AttrNamed(other).value;
      PutGet(d, a, v, b);
    }
  }

  /** The keyword arguments of `update_section_properties`, applied in
      order. */
  function SetAttributes(d: SectionData, props: seq<(string, Value)>): SectionData
    decreases |props|
  {
    if props == [] then d else SetAttributes(SetAttribute(d, props[0].0, props[0].1), props[1..])
  }

  predicate Names(props: seq<(string, Value)>, name: string)
  {
    exists i :: 0 <= i < |props| && props[i].0 == name
  }

  /** An attribute no argument names keeps its value; in particular only
      existing attributes are ever set. */
  lemma {:induction false} SetAttributesUnnamed(d: SectionData, props: seq<(string, Value)>, name: string)
    requires !Names(props, name)
    ensures Attribute(SetAttributes(d, props), name) == Attribute(d, name)
    decreases |props|
  {
    if props != [] {
      assert props[0].0 != name;
      if props[0].0 in AttributeNames && Fits(AttrNamed(props[0].0).value, props[0].1) {
        SetAttributeEffect(d, props[0].0, props[0].1, name);
      }
      assert !Names(props[1..], name) by {
        forall i | 0 <= i < |props[1..]| ensures props[1..][i].0 != name {
          assert props[1..][i] == props[i + 1];
        }
      }
      SetAttributesUnnamed(SetAttribute(d, props[0].0, props[0].1), props[1..], name);
    }
  }

  /** Arguments naming no attribute change nothing. */
  lemma {:induction false} SetAttributesUnknown(d: SectionData, props: seq<(string, Value)>)
    requires forall i :: 0 <= i < |props| ==> props[i].0 !in AttributeNames
    ensures SetAttributes(d, props) == d
    decreases |props|
  {
    if props != [] {
      assert props[0].0 !in AttributeNames;
      SetAttributesUnknown(d, props[1..]);
    }
  }

  /** The block `insert_section_break` inserts: whether it starts a new
      page, and its marker text. */
  datatype BreakBlock = BreakBlock(pageBreakBefore: bool, text: string)

  /** The block for each known break type; an unknown type inserts none. */
  function BreakMarker(t: string): (r: Option<BreakBlock>)
    ensures r.Some? <==> t == NextPage || t == Continuous || t == EvenPage || t == OddPage
    ensures r.Some? ==> (r.value.pageBreakBefore <==> t != Continuous)
  {
    if t == NextPage || t == EvenPage || t == OddPage then
      Some(BreakBlock(true, MarkerText(DoubleRule, t)))
    else if t == Continuous then
      Some(BreakBlock(false, MarkerText(SingleRule, t)))
    else None
  }

  const BreakText: string := "Section Break"
  const DoubleRule: string := "\U{2550}\U{2550}\U{2550}"
  const SingleRule: string := "\U{2500}\U{2500}\U{2500}"

  /** The marker line: the break text and type between two rules. */
  function MarkerText(rule: string, t: string): string
  {
    "\n" + rule + " " + BreakText + " (" + t + ") " + rule + "\n"
  }

  /** Every marker carries the text `delete_section_break` looks for. */
  lemma MarkerDetected(t: string)
    requires BreakMarker(t).Some?
    ensures Contains(BreakMarker(t).value.text, BreakText)
  {
    var rule := if t == Continuous then SingleRule else DoubleRule;
    var a := "\n" + rule + " ";
    var b := " (" + t + ") " + rule + "\n";
    assert BreakMarker(t).value.text == a + BreakText + b;
    ContainsInside(a, BreakText, b);
  }

  /** A section's start and end position; an end of -1 is open. */
  type Span = (int, int)

  predicate InSpan(sp: Span, pos: int)
  {
    sp.0 <= pos && (sp.1 == -1 || pos <= sp.1)
  }

  /** The index `get_current_section` settles on: the first section whose
      span holds the position. */
  function SectionAt(spans: seq<Span>, pos: int): (r: Option<nat>)
    ensures r.Some? ==> r.value < |spans| && InSpan(spans[r.value], pos)
    ensures r.Some? ==> forall j :: 0 <= j < r.value ==> !InSpan(spans[j], pos)
    ensures r.None? <==> forall j :: 0 <= j < |spans| ==> !InSpan(spans[j], pos)
  {
    FirstIndex(spans, (sp: Span) => InSpan(sp, pos))
  }

  /** The spans of a list of sections. */
  function SpansOf(ss: seq<Section>): (r: seq<Span>)
    reads ss
    ensures |r| == |ss|
    ensures forall i :: 0 <= i < |ss| ==> r[i] == (ss[i].startPosition, ss[i].endPosition)
  {
    seq(|ss|, i reads ss requires 0 <= i < |ss| => (ss[i].startPosition, ss[i].endPosition))
  }

  /** The section `get_current_section` returns: the one at `at`, or the
      last one when no span holds the position. */
  function BreakTarget(ss: seq<Section>, at: Option<nat>): (s: Section?)
    requires at.Some? ==> at.value < |ss|
    ensures at.Some? ==> s == ss[at.value]
    ensures at.None? ==> s == if |ss| > 0 then ss[|ss| - 1] else null
  {
    if at.Some? then ss[at.value] else if |ss| > 0 then ss[|ss| - 1] else null
  }

  class Section {
    var breakType: string
    var startPosition: int
    var endPosition: int
    var header: Value
    var footer: Value
    var pageOrientation: string
    var margins: Value
    var columns: int
    var pageNumberingStart: int
    var differentFirstPage: bool
    var differentOddEven: bool

    function Data(): SectionData
      reads this
    {
      SectionData(breakType, startPosition, endPosition, header, footer, pageOrientation,
                  margins, columns, pageNumberingStart, differentFirstPage, differentOddEven)
    }

    constructor ()
      ensures Data() == DefaultSection
    {
      breakType, startPosition, endPosition := NextPage, 0, -1;
      header, footer, pageOrientation, margins := Null, Null, "Portrait", DefaultMargins;
      columns, pageNumberingStart := 1, 1;
      differentFirstPage, differentOddEven := false, false;
    }

    /** `apply_formatting`: only a Next Page section asks for a page break
        before its block (an Even or Odd Page one does not, unlike the
        block inserted with it). */
    function AppliesPageBreak(): (b: bool)
      reads this
      ensures b <==> breakType == NextPage
      ensures b ==> BreakMarker(breakType).value.pageBreakBefore
      ensures (breakType == EvenPage || breakType == OddPage) ==> !b && BreakMarker(breakType).value.pageBreakBefore
    {
      breakType == NextPage
    }

    /** One `setattr` of `update_section_properties`. */
    method SetAttr(name: string, v: Value)
      modifies this
      ensures Data() == SetAttribute(old(Data()), name, v)
    {
      var attr := AttrNamed(name);
      if attr.Some? && Fits(attr.value, v) {
        match attr.value
        case BreakTypeAttr => breakType := v.s;
        case StartPositionAttr => startPosition := v.i;
        case EndPositionAttr => endPosition := v.i;
        case HeaderAttr => header := v;
        case FooterAttr => footer := v;
        case PageOrientationAttr => pageOrientation := v.s;
        case MarginsAttr => margins := v;
        case ColumnsAttr => columns := v.i;
        case PageNumberingStartAttr => pageNumberingStart := v.i;
        case DifferentFirstPageAttr => differentFirstPage := v.b;
        case DifferentOddEvenAttr => differentOddEven := v.b;
      }
    }
  }

  class SectionManager {
    var sections: seq<Section>
    var currentSectionIndex: nat

    /** The current section as a set of at most one (none when the index
        is past the end). */
    function CurrentFrame(): set<Section>
      reads this
    {
      if currentSectionIndex < |sections| then {sections[currentSectionIndex]} else {}
    }

    function Spans(): (r: seq<Span>)
      reads this`sections, sections
      ensures |r| == |sections|
      ensures forall i :: 0 <= i < |sections| ==> r[i] == (sections[i].startPosition, sections[i].endPosition)
    {
      SpansOf(sections)
    }

    /** There is a section, and the current index points at one. */
    predicate Valid()
      reads this
    {
      |sections| > 0 && currentSectionIndex < |sections|
    }

    /** A new manager holds one default section, which is current. */
    constructor ()
      ensures |sections| == 1 && fresh(sections[0]) && sections[0].Data() == DefaultSection
      ensures currentSectionIndex == 0 && Valid()
    {
      var s := new Section();
      sections := [s];
      currentSectionIndex := 0;
    }

    /** `insert_section_break` with the cursor at `cursor` (`None` for a
        null cursor, which inserts nothing): the current section now ends
        there, and a new section of the given type starts there, appended
        and made current. */
    method InsertSectionBreak(breakType: string, cursor: Option<int>) returns (s: Section?, block: Option<BreakBlock>)
      modifies this`sections, this`currentSectionIndex, CurrentFrame()`endPosition
      ensures cursor.None? ==> s == null && block == None
      ensures cursor.None? ==> sections == old(sections) && currentSectionIndex == old(currentSectionIndex)
      ensures cursor.Some? ==> s != null && fresh(s) && block == BreakMarker(breakType)
      ensures cursor.Some? ==> s.Data() == DefaultSection.(breakType := breakType, startPosition := cursor.value)
      ensures cursor.Some? ==> sections == old(sections) + [s] && currentSectionIndex == |sections| - 1
      ensures old(Valid()) || cursor.Some? ==> Valid()
      ensures cursor.Some? && old(currentSectionIndex) < |old(sections)| ==>
        old(sections)[old(currentSectionIndex)].Data() ==
          old(sections[currentSectionIndex].Data()).(endPosition := cursor.value)
    {
      if cursor.None? {
        return null, None;
      }
      var pos := cursor.value;
      s := new Section();
      s.breakType := breakType;
      s.startPosition := pos;
      if currentSectionIndex < |sections| {
        sections[currentSectionIndex].endPosition := pos;
      }
      block := BreakMarker(breakType);
      sections := sections + [s];
      currentSectionIndex := |sections| - 1;
    }

    /** `get_current_section` at `pos`: the first section whose span holds
        it, which becomes current; failing that the last section (the
        index stays), or null when there are none. */
    method GetCurrentSection(pos: int) returns (s: Section?)
      modifies this`currentSectionIndex
      ensures SectionAt(Spans(), pos).Some? ==>
        s == sections[SectionAt(Spans(), pos).value] && currentSectionIndex == SectionAt(Spans(), pos).value
      ensures SectionAt(Spans(), pos).None? ==> currentSectionIndex == old(currentSectionIndex)
      ensures SectionAt(Spans(), pos).None? ==> s == if |sections| > 0 then sections[|sections| - 1] else null
    {
      var i := 0;
      while i < |sections|
        invariant 0 <= i <= |sections|
        invariant forall j :: 0 <= j < i ==> !InSpan(Spans()[j], pos)
      {
        var sec := sections[i];
        if sec.startPosition <= pos && (sec.endPosition == -1 || pos <= sec.endPosition) {
          currentSectionIndex := i;
          assert InSpan(Spans()[i], pos);
          FirstIndexAt(Spans(), (sp: Span) => InSpan(sp, pos), i);
          return sec;
        }
        i := i + 1;
      }
      s := if |sections| > 0 then sections[|sections| - 1] else null;
    }

    /** `get_section_by_index`: null out of range. */
    function GetSectionByIndex(index: int): (s: Section?)
      reads this
      ensures 0 <= index < |sections| ==> s == sections[index]
      ensures !(0 <= index < |sections|) ==> s == null
    {
      if 0 <= index < |sections| then sections[index] else null
    }

    /** `get_section_count`. */
    function GetSectionCount(): (n: nat)
      reads this
      ensures n == |sections|
      ensures Valid() ==> n >= 1 && GetSectionByIndex(n - 1) != null && GetSectionByIndex(n) == null
    {
      |sections|
    }

    /** `delete_section_break` with `lineText` the line under the cursor and
        `pos` the cursor position once that line is removed: only a line
        with a break marker counts; the section `get_current_section`
        finds (the first whose span holds `pos`, else the last, the lookup
        making the found one current) is removed unless it is the first
        one, and the current index then moves back by one, floored at 0. */
    method DeleteSectionBreak(lineText: string, pos: int) returns (ok: bool)
      modifies this`sections, this`currentSectionIndex
      ensures ok <==> Contains(lineText, BreakText)
      ensures !ok ==> sections == old(sections) && currentSectionIndex == old(currentSectionIndex)
      ensures |old(sections)| > 0 ==> |sections| > 0 && sections[0] == old(sections)[0]
      ensures |sections| == |old(sections)| || |sections| == |old(sections)| - 1
      ensures forall x :: x in sections ==> x in old(sections)
      ensures sections == old(sections) ||
        exists x :: x in old(sections) && x != old(sections)[0] && sections == RemoveFirst(old(sections), x)
      ensures ok ==>
        var at := SectionAt(old(Spans()), pos);
        var target := BreakTarget(old(sections), at);
        var index := if at.Some? then at.value else old(currentSectionIndex);
        if target != null && target != old(sections)[0]
        then sections == RemoveFirst(old(sections), target as Section) && currentSectionIndex == (if index >= 1 then index - 1 else 0)
        else sections == old(sections) && currentSectionIndex == index
      ensures old(Valid()) ==> Valid()
    {
      if !Contains(lineText, BreakText) {
        return false;
      }
      ok := true;
      ghost var at := SectionAt(Spans(), pos);
      var section := GetCurrentSection(pos);
      assert section == BreakTarget(sections, at);
      if section != null && section != sections[0] {
        var sec: Section := section;
        sections := RemoveFirst(sections, sec);
        currentSectionIndex := if currentSectionIndex >= 1 then currentSectionIndex - 1 else 0;
      }
    }

    /** `update_section_properties`: each argument naming an attribute of the
        section sets it, in order. */
    method UpdateSectionProperties(section: Section, props: seq<(string, Value)>)
      modifies section
      ensures section.Data() == SetAttributes(old(section.Data()), props)
    {
      var i := 0;
      while i < |props|
        invariant 0 <= i <= |props|
        invariant SetAttributes(section.Data(), props[i..]) == SetAttributes(old(section.Data()), props)
      {
        assert props[i..][1..] == props[i + 1..];
        section.SetAttr(props[i].0, props[i].1);
        i := i + 1;
      }
      assert props[i..] == [];
    }

    /** `navigate_to_section`: in range, the cursor moves to the section's
        start (returned) and the section becomes current; otherwise False
        and nothing changes. */
    method NavigateToSection(index: int) returns (ok: bool, cursorPos: Option<int>)
      modifies this`currentSectionIndex
      ensures ok <==> 0 <= index < |sections|
      ensures ok ==> currentSectionIndex == index && cursorPos == Some(sections[index].startPosition)
      ensures old(Valid()) ==> Valid()
      ensures !ok ==> currentSectionIndex == old(currentSectionIndex) && cursorPos == None
    {
      if 0 <= index < |sections| {
        currentSectionIndex := index;
        return true, Some(sections[index].startPosition);
      }
      return false, None;
    }
  }
}
