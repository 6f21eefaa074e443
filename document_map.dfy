/** The heading scan of the document map panel
    (`DocumentMapPanel.extract_headings` in
    `pyword/pyword/ui/panels/document_map_panel.py`). */
module DocumentMap {
  import opened Common

  /** What the panel was given: nothing, an editor exposing
      `toPlainText()`, a document exposing `content`, or an object with
      neither. */
  datatype Source = NoDocument | PlainText(text: string) | Content(content: string) | Opaque

  /** One `{'level', 'text', 'line'}` dictionary. */
  datatype Heading = Heading(level: int, text: string, line: int)

  /** A stripped line that starts with `#`. */
  predicate IsHashLine(line: string)
  {
    line != [] && line[0] == '#'
  }

  /** The all-capitals rule: `line.isupper()` and a length from 4 to 99. */
  predicate IsCapsLine(line: string)
  {
    IsUpper(line) && 3 < |line| < 100
  }

  /** How one line, numbered `num`, is classified. */
  function Classify(raw: string, num: int): (r: Option<Heading>)
    ensures r.Some? ==> r.value.line == num && 1 <= r.value.level <= 6 && r.value.text != []
  {
    var line := Strip(raw);
    if IsHashLine(line) then HashHeading(line, num)
    else if IsCapsLine(line) then Some(Heading(1, line, num))
    else None
  }

  /** A `#` line: its level is the mark count capped at 6, its text what
      is left after the marks, stripped; no text, no heading. */
  function HashHeading(line: string, num: int): (r: Option<Heading>)
    requires IsHashLine(line)
    ensures r.Some? ==> r.value.line == num && 1 <= r.value.level <= 6 && r.value.text != []
  {
    var level := |line| - |LStripChar(line, '#')|;
    var text := Strip(LStripChar(line, '#'));
    if text != [] then Some(Heading(if level < 6 then level else 6, text, num)) else None
  }

  /** What `Classify` reports, stated against the stripped line: a `#`
      line is a heading exactly when something is left after its marks,
      and then carries the capped mark count and that remainder; any
      other line is a heading exactly when the all-capitals rule holds,
      and then is level 1 with the whole stripped line. */
  lemma ClassifyLine(raw: string, num: int)
    ensures var line := Strip(raw);
      Classify(raw, num).Some? <==> (IsHashLine(line) && Strip(LStripChar(line, '#')) != []) || (!IsHashLine(line) && IsCapsLine(line))
    ensures var line := Strip(raw);
      var count := |line| - |LStripChar(line, '#')|;
      Classify(raw, num).Some? && IsHashLine(line) ==>
        Classify(raw, num).value == Heading(if count < 6 then count else 6, Strip(LStripChar(line, '#')), num)
    ensures Classify(raw, num).Some? && !IsHashLine(Strip(raw)) ==> Classify(raw, num).value == Heading(1, Strip(raw), num)
  {
    var line := Strip(raw);
    var r := Classify(raw, num);
    if IsHashLine(line) {
      var rest := LStripChar(line, '#');
      var count := |line| - |rest|;
      var text := Strip(rest);
      assert r == HashHeading(line, num);
      assert r == if text != [] then Some(Heading(if count < 6 then count else 6, text, num)) else None;
    } else {
      assert r == if IsCapsLine(line) then Some(Heading(1, line, num)) else None;
    }
  }

  /** Each line's classification, lines numbered from 1. */
  function Classified(lines: seq<string>): (cs: seq<Option<Heading>>)
    ensures |cs| == |lines|
    ensures forall i :: 0 <= i < |lines| ==> cs[i] == Classify(lines[i], i + 1)
  {
    NumberLines(lines, Classify)
  }

  /** `f` applied to each line and its one-based number. */
  function NumberLines<T>(lines: seq<string>, f: (string, int) -> T): (r: seq<T>)
    ensures |r| == |lines|
    ensures forall i :: 0 <= i < |lines| ==> r[i] == f(lines[i], i + 1)
  {
    seq(|lines|, i requires 0 <= i < |lines| => f(lines[i], i + 1))
  }

  /** The headings among the classifications, in order. */
  function Collect(cs: seq<Option<Heading>>): seq<Heading>
  {
    if cs == [] then []
    else
      var prior := Collect(cs[..|cs| - 1]);
      match cs[|cs| - 1]
      case Some(h) => prior + [h]
      case None => prior
  }

  /** One more classification adds its heading, if any, at the end. */
  lemma CollectStep(cs: seq<Option<Heading>>, i: nat)
    requires i < |cs|
    ensures Collect(cs[..i + 1]) == Collect(cs[..i]) + (if cs[i].Some? then [cs[i].value] else [])
  {
    assert cs[..i + 1][..i] == cs[..i];
  }

  /** The headings `extract_headings` reports for the given lines. */
  function HeadingsOf(lines: seq<string>): seq<Heading>
  {
    Collect(Classified(lines))
  }

  /** Classifications as `Classify` makes them: a heading found at
      position `i` carries line number `i + 1` and a level from 1 to 6. */
  predicate Numbered(cs: seq<Option<Heading>>)
  {
    forall i :: 0 <= i < |cs| && cs[i].Some? ==> cs[i].value.line == i + 1 && 1 <= cs[i].value.level <= 6
  }

  /** A heading is reported exactly when some position classifies to it. */
  lemma {:induction false} CollectMembers(cs: seq<Option<Heading>>)
    ensures forall h :: h in Collect(cs) <==> exists i :: 0 <= i < |cs| && cs[i] == Some(h)
  {
    if cs != [] {
      var last := |cs| - 1;
      CollectMembers(cs[..last]);
      forall h
        ensures h in Collect(cs) <==> exists i :: 0 <= i < |cs| && cs[i] == Some(h)
      {
        if h in Collect(cs) {
          if h in Collect(cs[..last]) {
            var i :| 0 <= i < last && cs[..last][i] == Some(h);
            assert cs[i] == Some(h);
          }
        }
        if i :| 0 <= i < |cs| && cs[i] == Some(h) {
          if i < last {
            assert cs[..last][i] == Some(h);
          }
        }
      }
    }
  }

  /** Reported headings have strictly increasing line numbers, from 1 up
      to the number of lines, and levels from 1 to 6. */
  lemma {:induction false} CollectOrdered(cs: seq<Option<Heading>>)
    requires Numbered(cs)
    ensures forall x :: 0 <= x < |Collect(cs)| ==> 1 <= Collect(cs)[x].line <= |cs| && 1 <= Collect(cs)[x].level <= 6
    ensures forall x, y :: 0 <= x < y < |Collect(cs)| ==> Collect(cs)[x].line < Collect(cs)[y].line
  {
    if cs != [] {
      var last := |cs| - 1;
      assert Numbered(cs[..last]);
      CollectOrdered(cs[..last]);
    }
  }

  lemma ClassifiedNumbered(lines: seq<string>)
    ensures Numbered(Classified(lines))
  {
  }

  /** Each reported heading is the classification of the line it names,
      and every line that classifies as a heading is reported; line
      numbers increase strictly and levels lie in 1..6. */
  lemma ExtractedHeadings(lines: seq<string>)
    ensures forall h :: h in HeadingsOf(lines) <==> 1 <= h.line <= |lines| && Classify(lines[h.line - 1], h.line) == Some(h)
    ensures forall x, y :: 0 <= x < y < |HeadingsOf(lines)| ==> HeadingsOf(lines)[x].line < HeadingsOf(lines)[y].line
    ensures forall x :: 0 <= x < |HeadingsOf(lines)| ==> 1 <= HeadingsOf(lines)[x].level <= 6
  {
    var cs := Classified(lines);
    ClassifiedNumbered(lines);
    CollectExactly(cs);
    forall h
      ensures h in HeadingsOf(lines) <==> 1 <= h.line <= |lines| && Classify(lines[h.line - 1], h.line) == Some(h)
    {
      if 1 <= h.line <= |lines| {
        assert cs[h.line - 1] == Classify(lines[h.line - 1], h.line);
      }
    }
  }

  /** Over any numbered classification: a heading is collected exactly when
      the position of its line holds it. */
  lemma CollectExactly(cs: seq<Option<Heading>>)
    requires Numbered(cs)
    ensures forall h :: h in Collect(cs) <==> 1 <= h.line <= |cs| && cs[h.line - 1] == Some(h)
    ensures forall x, y :: 0 <= x < y < |Collect(cs)| ==> Collect(cs)[x].line < Collect(cs)[y].line
    ensures forall x :: 0 <= x < |Collect(cs)| ==> 1 <= Collect(cs)[x].level <= 6
  {
    CollectMembers(cs);
    CollectOrdered(cs);
    forall h | h in Collect(cs) ensures 1 <= h.line <= |cs| && cs[h.line - 1] == Some(h) {
      var i :| 0 <= i < |cs| && cs[i] == Some(h);
      assert h.line == i + 1;
    }
  }

  /** The text the panel reads, or None when it returns `[]` before
      reading any. */
  function SourceText(doc: Source): (r: Option<string>)
    ensures r.None? <==> doc.NoDocument? || doc.Opaque?
  {
    match doc
    case NoDocument => None
    case PlainText(t) => Some(t)
    case Content(t) => Some(t)
    case Opaque => None
  }

  /** `extract_headings`: split the text on `\n`, number the lines from 1
      and classify each stripped line. */
  method ExtractHeadings(doc: Source) returns (headings: seq<Heading>)
    ensures SourceText(doc).None? ==> headings == []
    ensures SourceText(doc).Some? ==>
      var lines := SplitOn(SourceText(doc).value, '\n');
      headings == HeadingsOf(lines)
  {
    headings := [];
    var text: string;
    match doc {
      case NoDocument => return;
      case Opaque => return;
      case PlainText(t) => text := t;
      case Content(t) => text := t;
    }
    var lines := SplitOn(text, '\n');
    headings := CollectHeadings(Classified(lines));
  }

  /** The loop of `extract_headings` over the classified lines: each
      heading found is appended in turn. */
  method CollectHeadings(cs: seq<Option<Heading>>) returns (headings: seq<Heading>)
    ensures headings == Collect(cs)
  {
    headings := [];
    var i := 0;
    while i < |cs|
      invariant 0 <= i <= |cs|
      invariant headings == Collect(cs[..i])
    {
      CollectStep(cs, i);
      if cs[i].Some? {
        headings := headings + [cs[i].value];
      }
      i := i + 1;
    }
    assert cs[..|cs|] == cs;
  }

  /** The `#` test wins over the all-capitals test: a `#` line with
      nothing after its marks is dropped even when it is in capitals. */
  lemma HashWins(raw: string, num: int)
    requires IsHashLine(Strip(raw)) && Strip(LStripChar(Strip(raw), '#')) == []
    ensures Classify(raw, num) == None
  {
  }

  /** An all-capitals line of the right length without `#` is a level-1
      heading carrying the whole stripped line. */
  lemma CapsLineIsTopLevel(raw: string, num: int)
    requires !IsHashLine(Strip(raw)) && IsCapsLine(Strip(raw))
    ensures Classify(raw, num) == Some(Heading(1, Strip(raw), num))
  {
  }

  /** Empty text still has one (empty) line, which is no heading. */
  lemma EmptyTextHasNoHeadings()
    ensures HeadingsOf(SplitOn([], '\n')) == []
  {
    assert SplitOn([], '\n') == [[]];
    assert Strip([]) == [];
    assert !IsUpper([]);
  }
}
