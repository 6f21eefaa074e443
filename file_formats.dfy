/** RTF and HTML export strings and the extension-to-handler table
    (`pyword/core/file_formats.py`). The DOCX, ODT and PDF writers and
    every importer are foreign libraries and are not part of this model;
    which optional libraries are installed is a parameter. */
module FileFormats {
  import opened Common
  import opened Document

  // ---------------------------------------------------------------
  // RTF escaping: the control symbols `\\`, `\{` and `\}` of the RTF
  // Specification 1.9.1 (RTF Syntax).
  // ---------------------------------------------------------------

  const Backslash: char := '\\'

  /** `_escape_rtf`: three `str.replace` calls, backslashes first. */
  function EscapeRtf(text: string): string
  {
    ReplaceAll(ReplaceAll(ReplaceAll(text, [Backslash], [Backslash, Backslash]), "{", [Backslash, '{']), "}", [Backslash, '}'])
  }

  /** The escape of one character. */
  function RtfChar(c: char): (r: string)
  {
    if c == Backslash || c == '{' || c == '}' then [Backslash, c] else [c]
  }

  /** Character-by-character escaping, the reference the chain of
      replacements is proved equal to. */
  function RtfEscaped(s: string): (r: string)
    ensures |r| == |s| + Count(s, Backslash) + Count(s, '{') + Count(s, '}')
  {
    if s == [] then [] else RtfChar(s[0]) + RtfEscaped(s[1..])
  }

  lemma SubstAbsent(s: string, c: char, rep: string)
    requires c !in s
    ensures SubstChar(s, c, rep) == s
  {
    if s != [] {
      SubstAbsent(s[1..], c, rep);
    }
  }

  lemma SubstSingle(x: char, c: char, rep: string)
    ensures SubstChar([x], c, rep) == if x == c then rep else [x]
  {
    assert [x][1..] == [];
  }

  /** The three substitutions, as character substitutions. */
  function RtfChain(s: string): string
  {
    SubstChar(SubstChar(SubstChar(s, Backslash, [Backslash, Backslash]), '{', [Backslash, '{']), '}', [Backslash, '}'])
  }

  lemma RtfChainAppend(a: string, b: string)
    ensures RtfChain(a + b) == RtfChain(a) + RtfChain(b)
  {
    var s1a, s1b := SubstChar(a, Backslash, [Backslash, Backslash]), SubstChar(b, Backslash, [Backslash, Backslash]);
    SubstCharAppend(a, b, Backslash, [Backslash, Backslash]);
    var s2a, s2b := SubstChar(s1a, '{', [Backslash, '{']), SubstChar(s1b, '{', [Backslash, '{']);
    SubstCharAppend(s1a, s1b, '{', [Backslash, '{']);
    SubstCharAppend(s2a, s2b, '}', [Backslash, '}']);
  }

  lemma RtfChainChar(c: char)
    ensures RtfChain([c]) == RtfChar(c)
  {
    SubstSingle(c, Backslash, [Backslash, Backslash]);
    var s1 := SubstChar([c], Backslash, [Backslash, Backslash]);
    if c == Backslash {
      assert s1 == [Backslash, Backslash];
      SubstAbsent(s1, '{', [Backslash, '{']);
      SubstAbsent(s1, '}', [Backslash, '}']);
    } else {
      assert s1 == [c];
      SubstSingle(c, '{', [Backslash, '{']);
      var s2 := SubstChar(s1, '{', [Backslash, '{']);
      if c == '{' {
        assert s2 == [Backslash, '{'];
        SubstAbsent(s2, '}', [Backslash, '}']);
      } else {
        assert s2 == [c];
        SubstSingle(c, '}', [Backslash, '}']);
      }
    }
  }

  /** The chain of replacements escapes each character on its own:
      doubling backslashes first means no backslash added for a brace is
      doubled again. */
  lemma {:induction false} EscapeRtfIsCharwise(s: string)
    ensures EscapeRtf(s) == RtfEscaped(s)
  {
    ReplaceCharIsSubst(s, Backslash, [Backslash, Backslash]);
    ReplaceCharIsSubst(SubstChar(s, Backslash, [Backslash, Backslash]), '{', [Backslash, '{']);
    ReplaceCharIsSubst(SubstChar(SubstChar(s, Backslash, [Backslash, Backslash]), '{', [Backslash, '{']), '}', [Backslash, '}']);
    RtfChainIsEscaped(s);
  }

  lemma {:induction false} RtfChainIsEscaped(s: string)
    ensures RtfChain(s) == RtfEscaped(s)
  {
    if s != [] {
      assert s == [s[0]] + s[1..];
      RtfChainAppend([s[0]], s[1..]);
      RtfChainChar(s[0]);
      RtfChainIsEscaped(s[1..]);
    }
  }

  /** Reading the control symbols `\\`, `\{` and `\}` back as the
      characters they stand for. */
  function UnescapeRtf(s: string): (r: string)
    decreases |s|
  {
    if s == [] then []
    else if s[0] == Backslash && |s| >= 2 && (s[1] == Backslash || s[1] == '{' || s[1] == '}') then [s[1]] + UnescapeRtf(s[2..])
    else [s[0]] + UnescapeRtf(s[1..])
  }

  /** Decoding the escaped text gives the text back, and the escaped text
      is one character longer for every backslash and brace. */
  lemma {:induction false} RtfRoundTrip(s: string)
    ensures UnescapeRtf(EscapeRtf(s)) == s
    ensures |EscapeRtf(s)| == |s| + Count(s, Backslash) + Count(s, '{') + Count(s, '}')
  {
    EscapeRtfIsCharwise(s);
    UnescapeEscaped(s);
  }

  lemma {:induction false} UnescapeEscaped(s: string)
    ensures UnescapeRtf(RtfEscaped(s)) == s
  {
    if s != [] {
      UnescapeEscaped(s[1..]);
      UnescapeRtfHead(s[0], RtfEscaped(s[1..]));
    }
  }

  lemma UnescapeRtfHead(x: char, t: string)
    ensures UnescapeRtf(RtfChar(x) + t) == [x] + UnescapeRtf(t)
  {
    var s := RtfChar(x) + t;
    if x == Backslash || x == '{' || x == '}' {
      assert s[0] == Backslash && s[1] == x && s[2..] == t;
    } else {
      assert s[0] == x && s[1..] == t;
    }
  }

  // ---------------------------------------------------------------
  // Group structure of RTF text. A backslash starts a control symbol or
  // control word, so the character after it is never a group delimiter.
  // ---------------------------------------------------------------

  /** Scan `s` from group depth `d`: None if a `}` closes a group that
      is not open, otherwise the depth at the end. */
  function Scan(s: string, d: nat): (r: Option<nat>)
    decreases |s|
  {
    if s == [] then Some(d)
    else if s[0] == Backslash then (if |s| >= 2 then Scan(s[2..], d) else Some(d))
    else if s[0] == '{' then Scan(s[1..], d + 1)
    else if s[0] == '}' then (if d == 0 then None else Scan(s[1..], d - 1))
    else Scan(s[1..], d)
  }

  /** No backslash at the end is left without the character it escapes. */
  predicate Clean(s: string)
    decreases |s|
  {
    if s == [] then true
    else if s[0] == Backslash then |s| >= 2 && Clean(s[2..])
    else Clean(s[1..])
  }

  /** Every `{` is closed by a later `}` and no `}` is unmatched. */
  predicate Balanced(s: string) { Scan(s, 0) == Some(0) }

  function Then(r: Option<nat>, b: string): Option<nat>
  {
    match r
    case None => None
    case Some(d) => Scan(b, d)
  }

  lemma {:induction false} ScanAppend(a: string, b: string, d: nat)
    requires Clean(a)
    ensures Scan(a + b, d) == Then(Scan(a, d), b)
    ensures Clean(b) ==> Clean(a + b)
    decreases |a|
  {
    if a == [] {
      assert a + b == b;
    } else if a[0] == Backslash {
      assert (a + b)[2..] == a[2..] + b;
      ScanAppend(a[2..], b, d);
    } else {
      assert (a + b)[1..] == a[1..] + b;
      if a[0] == '{' {
        ScanAppend(a[1..], b, d + 1);
      } else if a[0] == '}' {
        if d > 0 {
          ScanAppend(a[1..], b, d - 1);
        } else {
          assert Scan(a + b, d) == None;
          ScanAppend(a[1..], b, 0);
        }
      } else {
        ScanAppend(a[1..], b, d);
      }
    }
  }

  predicate NoBraces(s: string)
  {
    '{' !in s && '}' !in s
  }

  /** Text without braces that does not end in a backslash leaves the
      depth alone. */
  lemma {:induction false} PlainScan(s: string, d: nat)
    requires NoBraces(s)
    requires s == [] || s[|s| - 1] != Backslash
    ensures Clean(s) && Scan(s, d) == Some(d)
    decreases |s|
  {
    if s != [] {
      if s[0] == Backslash {
        PlainScan(s[2..], d);
      } else {
        PlainScan(s[1..], d);
      }
    }
  }

  /** Escaped text never changes the group depth. */
  lemma {:induction false} EscapedScan(s: string, d: nat)
    ensures Clean(RtfEscaped(s)) && Scan(RtfEscaped(s), d) == Some(d)
  {
    if s != [] {
      EscapedScan(s[1..], d);
      var e := RtfEscaped(s);
      var t := RtfEscaped(s[1..]);
      assert e == RtfChar(s[0]) + t;
      if s[0] == Backslash || s[0] == '{' || s[0] == '}' {
        assert e[2..] == t;
      } else {
        assert e[1..] == t;
      }
    }
  }

  // ---------------------------------------------------------------
  // `_create_rtf`. The source writes the raw two-character sequence
  // backslash, `n` after every line (an RTF control word `\n`, not a
  // newline character).
  // ---------------------------------------------------------------

  const RawN: string := [Backslash, 'n']
  function RtfGroup(x: string): string { "{" + x + "}" }
  /** `{\rtf1\ansi\deff0`: the document group, left open. */
  const RtfOpen: string := "{" + "\\rtf1\\ansi\\deff0"
  /** `{\fonttbl{\f0 Times New Roman;}}` */
  const FontTable: string := RtfGroup("\\fonttbl" + RtfGroup("\\f0 Times New Roman;"))
  const RtfHeader: string := RtfOpen + FontTable + RawN
  const Par: string := "\\par"
  const Ql: string := "\\ql\\n"

  /** One paragraph: omitted when it is whitespace only. The builders
      use the character-wise form of `_escape_rtf`, equal to the chain of
      replacements by `EscapeRtfIsCharwise`. */
  function RtfParagraph(p: string): string
  {
    if Strip(p) != [] then RtfEscaped(p) + Par + RawN else []
  }

  /** The paragraphs of `text.split('\n')`, in order. */
  function RtfParagraphs(ps: seq<string>): string
  {
    if ps == [] then [] else RtfParagraph(ps[0]) + RtfParagraphs(ps[1..])
  }

  /** `if text:` followed by the paragraph loop. */
  function RtfBody(text: string): string
  {
    if text != [] then RtfParagraphs(SplitOn(text, '\n')) else []
  }

  /** Level 1 is `\fs28`, level 2 `\fs26`, any other level plain bold. */
  function RtfHeading(s: Section): string
  {
    if s.level == 1 then "\\b\\fs28 " + RtfEscaped(s.name) + "\\b0\\fs24\\par"
    else if s.level == 2 then "\\b\\fs26 " + RtfEscaped(s.name) + "\\b0\\fs24\\par"
    else "\\b " + RtfEscaped(s.name) + "\\b0\\par"
  }

  function RtfSection(s: Section): string
  {
    RtfHeading(s) + RawN + RtfBody(s.content)
  }

  function RtfSections(ss: seq<Section>): string
  {
    if ss == [] then [] else RtfSection(ss[0]) + RtfSections(ss[1..])
  }

  function RtfTitle(d: Doc): string
  {
    if d.title != [] then "\\qc\\b\\fs32 " + RtfEscaped(d.title) + "\\b0\\fs24\\par" + RawN else []
  }

  function RtfAuthor(d: Doc): string
  {
    if d.author != [] then "\\qc\\i By " + RtfEscaped(d.author) + "\\i0\\par" + RawN else []
  }

  /** Everything before the sections. */
  function RtfFront(d: Doc): string
  {
    RtfHeader + RtfTitle(d) + RtfAuthor(d) + Ql + RtfBody(d.content)
  }

  /** The whole RTF text of a document. */
  function Rtf(d: Doc): string
  {
    RtfFront(d) + RtfSections(d.sections) + "}"
  }

  /** `_create_rtf`: a string accumulated paragraph by paragraph. */
  method CreateRtf(d: Doc) returns (rtf: string)
    ensures rtf == Rtf(d)
  {
    rtf := RtfFrontLoop(d);
    assert d.sections[..0] == [];
    for k := 0 to |d.sections|
      invariant rtf == RtfFront(d) + RtfSections(d.sections[..k])
    {
      var section := RtfSectionLoop(d.sections[k]);
      RtfSectionStep(d.sections, k);
      AppendAssoc(RtfFront(d), RtfSections(d.sections[..k]), section);
      rtf := rtf + section;
    }
    TakeAll(d.sections);
    rtf := rtf + "}";
  }

  /** The header, title, author and content part of `_create_rtf`. */
  method RtfFrontLoop(d: Doc) returns (rtf: string)
    ensures rtf == RtfFront(d)
  {
    rtf := RtfOpen;
    rtf := rtf + FontTable;
    rtf := rtf + RawN;
    ghost var before := rtf;
    if d.title != [] {
      rtf := rtf + ("\\qc\\b\\fs32 " + RtfEscaped(d.title) + "\\b0\\fs24\\par");
      rtf := rtf + RawN;
      AppendAssoc(before, "\\qc\\b\\fs32 " + RtfEscaped(d.title) + "\\b0\\fs24\\par", RawN);
    }
    assert rtf == RtfHeader + RtfTitle(d);
    before := rtf;
    if d.author != [] {
      rtf := rtf + ("\\qc\\i By " + RtfEscaped(d.author) + "\\i0\\par");
      rtf := rtf + RawN;
      AppendAssoc(before, "\\qc\\i By " + RtfEscaped(d.author) + "\\i0\\par", RawN);
    }
    assert rtf == RtfHeader + RtfTitle(d) + RtfAuthor(d);
    rtf := rtf + Ql;
    var body := RtfParagraphLoop(d.content);
    rtf := rtf + body;
  }

  /** One iteration of the section loop of `_create_rtf`. */
  method RtfSectionLoop(s: Section) returns (rtf: string)
    ensures rtf == RtfSection(s)
  {
    if s.level == 1 {
      rtf := "\\b\\fs28 " + RtfEscaped(s.name) + "\\b0\\fs24\\par";
    } else if s.level == 2 {
      rtf := "\\b\\fs26 " + RtfEscaped(s.name) + "\\b0\\fs24\\par";
    } else {
      rtf := "\\b " + RtfEscaped(s.name) + "\\b0\\par";
    }
    rtf := rtf + RawN;
    var body := RtfParagraphLoop(s.content);
    rtf := rtf + body;
  }

  /** The paragraph loop shared by the content and every section. */
  method RtfParagraphLoop(text: string) returns (out: string)
    ensures out == RtfBody(text)
  {
    out := [];
    if text != [] {
      var paragraphs := SplitOn(text, '\n');
      for i := 0 to |paragraphs|
        invariant out == RtfParagraphs(paragraphs[..i])
      {
        var para := paragraphs[i];
        RtfParagraphStep(paragraphs, i);
        if Strip(para) != [] {
          ghost var before := out;
          out := out + (RtfEscaped(para) + Par);
          out := out + RawN;
          AppendAssoc(before, RtfEscaped(para) + Par, RawN);
        }
      }
      TakeAll(paragraphs);
    }
  }

  lemma {:induction false} RtfParagraphsAppend(a: seq<string>, b: seq<string>)
    ensures RtfParagraphs(a + b) == RtfParagraphs(a) + RtfParagraphs(b)
  {
    if a == [] {
      assert a + b == b;
    } else {
      var h := RtfParagraph(a[0]);
      assert (a + b)[0] == a[0] && (a + b)[1..] == a[1..] + b;
      assert RtfParagraphs(a + b) == h + RtfParagraphs(a[1..] + b);
      RtfParagraphsAppend(a[1..], b);
      AppendAssoc(h, RtfParagraphs(a[1..]), RtfParagraphs(b));
    }
  }

  lemma RtfParagraphStep(ps: seq<string>, i: nat)
    requires i < |ps|
    ensures RtfParagraphs(ps[..i + 1]) == RtfParagraphs(ps[..i]) + RtfParagraph(ps[i])
  {
    TakeSnoc(ps, i);
    RtfParagraphsAppend(ps[..i], [ps[i]]);
    assert [ps[i]][1..] == [];
  }

  lemma {:induction false} RtfSectionsAppend(a: seq<Section>, b: seq<Section>)
    ensures RtfSections(a + b) == RtfSections(a) + RtfSections(b)
  {
    if a == [] {
      assert a + b == b;
    } else {
      assert (a + b)[1..] == a[1..] + b;
      RtfSectionsAppend(a[1..], b);
    }
  }

  lemma RtfSectionStep(ss: seq<Section>, k: nat)
    requires k < |ss|
    ensures RtfSections(ss[..k + 1]) == RtfSections(ss[..k]) + RtfSection(ss[k])
  {
    TakeSnoc(ss, k);
    RtfSectionsAppend(ss[..k], [ss[k]]);
    assert [ss[k]][1..] == [];
  }

  /** A whitespace-only paragraph contributes nothing: removing it from
      the paragraph list leaves the output unchanged. */
  lemma BlankParagraphOmitted(a: seq<string>, p: string, b: seq<string>)
    requires AllSpace(p)
    ensures RtfParagraphs(a + [p] + b) == RtfParagraphs(a + b)
  {
    BlankParagraphEmpty(p);
    RtfParagraphsAppend(a + [p], b);
    RtfParagraphsAppend(a, [p]);
    RtfParagraphsAppend(a, b);
  }

  lemma BlankParagraphEmpty(p: string)
    requires AllSpace(p)
    ensures RtfParagraphs([p]) == []
  {
    StripEmpty(p);
    assert [p][1..] == [];
  }

  lemma {:induction false} ParagraphsScan(ps: seq<string>, d: nat)
    ensures Clean(RtfParagraphs(ps)) && Scan(RtfParagraphs(ps), d) == Some(d)
  {
    if ps != [] {
      ParagraphsScan(ps[1..], d);
      ParagraphScan(ps[0], d);
      ScanAppend(RtfParagraph(ps[0]), RtfParagraphs(ps[1..]), d);
    }
  }

  lemma ParagraphScan(p: string, d: nat)
    ensures Clean(RtfParagraph(p)) && Scan(RtfParagraph(p), d) == Some(d)
  {
    if Strip(p) != [] {
      EscapedScan(p, d);
      PlainScan(Par, d);
      PlainScan(RawN, d);
      Join2(RtfEscaped(p), Par, d);
      Join2(RtfEscaped(p) + Par, RawN, d);
    }
  }

  lemma BodyScan(text: string, d: nat)
    ensures Clean(RtfBody(text)) && Scan(RtfBody(text), d) == Some(d)
  {
    if text != [] {
      ParagraphsScan(SplitOn(text, '\n'), d);
    }
  }

  /** Joining depth-preserving clean pieces. */
  lemma Join2(a: string, b: string, d: nat)
    requires Clean(a) && Scan(a, d) == Some(d)
    requires Clean(b) && Scan(b, d) == Some(d)
    ensures Clean(a + b) && Scan(a + b, d) == Some(d)
  {
    ScanAppend(a, b, d);
  }

  /** Escaped text between two brace-free pieces keeps the depth. */
  lemma Wrapped(open: string, text: string, close: string, d: nat)
    requires NoBraces(open) && open != [] && open[|open| - 1] != Backslash
    requires NoBraces(close) && close != [] && close[|close| - 1] != Backslash
    ensures Clean(open + RtfEscaped(text) + close) && Scan(open + RtfEscaped(text) + close, d) == Some(d)
  {
    PlainScan(open, d);
    PlainScan(close, d);
    EscapedScan(text, d);
    Join2(open, RtfEscaped(text), d);
    Join2(open + RtfEscaped(text), close, d);
  }

  lemma SectionScan(s: Section, d: nat)
    ensures Clean(RtfSection(s)) && Scan(RtfSection(s), d) == Some(d)
  {
    if s.level == 1 {
      Wrapped("\\b\\fs28 ", s.name, "\\b0\\fs24\\par", d);
    } else if s.level == 2 {
      Wrapped("\\b\\fs26 ", s.name, "\\b0\\fs24\\par", d);
    } else {
      Wrapped("\\b ", s.name, "\\b0\\par", d);
    }
    PlainScan(RawN, d);
    BodyScan(s.content, d);
    Join2(RtfHeading(s), RawN, d);
    Join2(RtfHeading(s) + RawN, RtfBody(s.content), d);
  }

  lemma {:induction false} SectionsScan(ss: seq<Section>, d: nat)
    ensures Clean(RtfSections(ss)) && Scan(RtfSections(ss), d) == Some(d)
  {
    if ss != [] {
      SectionsScan(ss[1..], d);
      SectionScan(ss[0], d);
      ScanAppend(RtfSection(ss[0]), RtfSections(ss[1..]), d);
    }
  }

  lemma TitleScan(d: Doc, k: nat)
    ensures Clean(RtfTitle(d)) && Scan(RtfTitle(d), k) == Some(k)
  {
    if d.title != [] {
      Wrapped("\\qc\\b\\fs32 ", d.title, "\\b0\\fs24\\par", k);
      PlainScan(RawN, k);
      Join2("\\qc\\b\\fs32 " + RtfEscaped(d.title) + "\\b0\\fs24\\par", RawN, k);
    }
  }

  lemma AuthorScan(d: Doc, k: nat)
    ensures Clean(RtfAuthor(d)) && Scan(RtfAuthor(d), k) == Some(k)
  {
    if d.author != [] {
      Wrapped("\\qc\\i By ", d.author, "\\i0\\par", k);
      PlainScan(RawN, k);
      Join2("\\qc\\i By " + RtfEscaped(d.author) + "\\i0\\par", RawN, k);
    }
  }

  /** A clean piece that reaches depth `d` from `d0`, followed by one that
      keeps depth `d`. */
  lemma Extend(a: string, b: string, d0: nat, d: nat)
    requires Clean(a) && Scan(a, d0) == Some(d)
    requires Clean(b) && Scan(b, d) == Some(d)
    ensures Clean(a + b) && Scan(a + b, d0) == Some(d)
  {
    ScanAppend(a, b, d0);
  }

  /** A brace pair around a depth-preserving piece preserves the depth. */
  lemma GroupScan(x: string, d: nat)
    requires Clean(x) && Scan(x, d + 1) == Some(d + 1)
    ensures Clean(RtfGroup(x)) && Scan(RtfGroup(x), d) == Some(d)
  {
    assert ("{" + x)[1..] == x;
    ScanAppend("{" + x, "}", d);
    assert "}"[1..] == [];
  }

  /** The header leaves exactly the document group open. */
  lemma HeaderScan()
    ensures Clean(RtfHeader) && Scan(RtfHeader, 0) == Some(1)
  {
    OpenScan();
    FontTableScan();
    PlainScan(RawN, 1);
    Extend(RtfOpen, FontTable, 0, 1);
    Extend(RtfOpen + FontTable, RawN, 0, 1);
  }

  lemma OpenScan()
    ensures Clean(RtfOpen) && Scan(RtfOpen, 0) == Some(1)
  {
    var v := "\\rtf1\\ansi\\deff0";
    PlainScan(v, 1);
    assert ("{" + v)[1..] == v;
  }

  lemma FontScan()
    ensures Clean(RtfGroup("\\f0 Times New Roman;")) && Scan(RtfGroup("\\f0 Times New Roman;"), 2) == Some(2)
  {
    PlainScan("\\f0 Times New Roman;", 3);
    GroupScan("\\f0 Times New Roman;", 2);
  }

  lemma FontTableScan()
    ensures Clean(FontTable) && Scan(FontTable, 1) == Some(1)
  {
    FontScan();
    PlainScan("\\fonttbl", 2);
    Join2("\\fonttbl", RtfGroup("\\f0 Times New Roman;"), 2);
    GroupScan("\\fonttbl" + RtfGroup("\\f0 Times New Roman;"), 1);
  }

  /** Everything before the sections leaves the document group open. */
  lemma FrontScan(d: Doc)
    ensures Clean(RtfFront(d)) && Scan(RtfFront(d), 0) == Some(1)
  {
    HeaderScan();
    TitleScan(d, 1);
    AuthorScan(d, 1);
    PlainScan(Ql, 1);
    BodyScan(d.content, 1);
    Extend(RtfHeader, RtfTitle(d), 0, 1);
    Extend(RtfHeader + RtfTitle(d), RtfAuthor(d), 0, 1);
    Extend(RtfHeader + RtfTitle(d) + RtfAuthor(d), Ql, 0, 1);
    Extend(RtfHeader + RtfTitle(d) + RtfAuthor(d) + Ql, RtfBody(d.content), 0, 1);
  }

  /** The RTF text opens with the header, closes with `}`, and its groups
      are balanced once escaped braces are read as text. */
  lemma RtfBalanced(d: Doc)
    ensures StartsWith(Rtf(d), RtfHeader)
    ensures EndsWith(Rtf(d), "}")
    ensures Clean(Rtf(d)) && Balanced(Rtf(d))
  {
    FrontScan(d);
    SectionsScan(d.sections, 1);
    var fs := RtfFront(d) + RtfSections(d.sections);
    Extend(RtfFront(d), RtfSections(d.sections), 0, 1);
    ScanAppend(fs, "}", 0);
    assert "}"[1..] == [];
    AffixesOfAppend(fs, "}");
    HeaderPrefix(d);
  }

  lemma HeaderPrefix(d: Doc)
    ensures StartsWith(Rtf(d), RtfHeader)
  {
    var a := RtfHeader + RtfTitle(d);
    var b := a + RtfAuthor(d);
    AffixesOfAppend(RtfHeader, RtfTitle(d));
    StartsWithAppend(a, RtfAuthor(d), RtfHeader);
    StartsWithAppend(b, Ql, RtfHeader);
    StartsWithAppend(b + Ql, RtfBody(d.content), RtfHeader);
    StartsWithAppend(RtfFront(d), RtfSections(d.sections), RtfHeader);
    StartsWithAppend(RtfFront(d) + RtfSections(d.sections), "}", RtfHeader);
  }

  // ---------------------------------------------------------------
  // HTML escaping: the predefined entities `&amp;`, `&lt;`, `&gt;` and
  // `&quot;` of XML 1.0 (section 4.6) and the character reference
  // `&#39;` (section 4.1).
  // ---------------------------------------------------------------

  const Amp: string := "&amp;"
  const Lt: string := "&lt;"
  const Gt: string := "&gt;"
  const Quot: string := "&quot;"
  const Apos: string := "&#39;"

  /** `_escape_html`: five `str.replace` calls, `&` first. */
  function EscapeHtml(text: string): string
  {
    ReplaceAll(ReplaceAll(ReplaceAll(ReplaceAll(ReplaceAll(text, "&", Amp), "<", Lt), ">", Gt), "\"", Quot), "'", Apos)
  }

  function HtmlChar(c: char): (r: string)
  {
    if c == '&' then Amp
    else if c == '<' then Lt
    else if c == '>' then Gt
    else if c == '"' then Quot
    else if c == '\'' then Apos
    else [c]
  }

  /** Character-by-character escaping. */
  function HtmlEscaped(s: string): (r: string)
    ensures forall i :: 0 <= i < |r| ==> r[i] != '<' && r[i] != '>' && r[i] != '"' && r[i] != '\''
  {
    if s == [] then [] else HtmlChar(s[0]) + HtmlEscaped(s[1..])
  }

  function HtmlChain(s: string): string
  {
    SubstChar(SubstChar(SubstChar(SubstChar(SubstChar(s, '&', Amp), '<', Lt), '>', Gt), '"', Quot), '\'', Apos)
  }

  lemma HtmlChainAppend(a: string, b: string)
    ensures HtmlChain(a + b) == HtmlChain(a) + HtmlChain(b)
  {
    var a1, b1 := SubstChar(a, '&', Amp), SubstChar(b, '&', Amp);
    SubstCharAppend(a, b, '&', Amp);
    var a2, b2 := SubstChar(a1, '<', Lt), SubstChar(b1, '<', Lt);
    SubstCharAppend(a1, b1, '<', Lt);
    var a3, b3 := SubstChar(a2, '>', Gt), SubstChar(b2, '>', Gt);
    SubstCharAppend(a2, b2, '>', Gt);
    var a4, b4 := SubstChar(a3, '"', Quot), SubstChar(b3, '"', Quot);
    SubstCharAppend(a3, b3, '"', Quot);
    SubstCharAppend(a4, b4, '\'', Apos);
  }

  /** The stages after `c`'s own leave its replacement alone, because no
      reference contains `<`, `>`, `"` or `'`. */
  lemma HtmlChainChar(c: char)
    ensures HtmlChain([c]) == HtmlChar(c)
  {
    SubstSingle(c, '&', Amp);
    if c == '&' {
      HtmlLater(Amp, 1);
    } else {
      SubstSingle(c, '<', Lt);
      if c == '<' {
        HtmlLater(Lt, 2);
      } else {
        SubstSingle(c, '>', Gt);
        if c == '>' {
          HtmlLater(Gt, 3);
        } else {
          SubstSingle(c, '"', Quot);
          if c == '"' {
            HtmlLater(Quot, 4);
          } else {
            SubstSingle(c, '\'', Apos);
          }
        }
      }
    }
  }

  /** The stages after stage `k` leave a string free of their
      characters alone. */
  lemma HtmlLater(t: string, k: nat)
    requires 1 <= k <= 4
    requires k <= 1 ==> '<' !in t
    requires k <= 2 ==> '>' !in t
    requires k <= 3 ==> '"' !in t
    requires '\'' !in t
    ensures k <= 1 ==> SubstChar(t, '<', Lt) == t
    ensures k <= 2 ==> SubstChar(t, '>', Gt) == t
    ensures k <= 3 ==> SubstChar(t, '"', Quot) == t
    ensures SubstChar(t, '\'', Apos) == t
  {
    if k <= 1 { SubstAbsent(t, '<', Lt); }
    if k <= 2 { SubstAbsent(t, '>', Gt); }
    if k <= 3 { SubstAbsent(t, '"', Quot); }
    SubstAbsent(t, '\'', Apos);
  }

  lemma {:induction false} HtmlChainIsEscaped(s: string)
    ensures HtmlChain(s) == HtmlEscaped(s)
  {
    if s != [] {
      assert s == [s[0]] + s[1..];
      HtmlChainAppend([s[0]], s[1..]);
      HtmlChainChar(s[0]);
      HtmlChainIsEscaped(s[1..]);
    }
  }

  lemma EscapeHtmlIsCharwise(s: string)
    ensures EscapeHtml(s) == HtmlEscaped(s)
  {
    var s1 := SubstChar(s, '&', Amp);
    var s2 := SubstChar(s1, '<', Lt);
    var s3 := SubstChar(s2, '>', Gt);
    var s4 := SubstChar(s3, '"', Quot);
    ReplaceCharIsSubst(s, '&', Amp);
    ReplaceCharIsSubst(s1, '<', Lt);
    ReplaceCharIsSubst(s2, '>', Gt);
    ReplaceCharIsSubst(s3, '"', Quot);
    ReplaceCharIsSubst(s4, '\'', Apos);
    HtmlChainIsEscaped(s);
  }

  /** Reading the five references back, left to right. */
  function UnescapeHtml(s: string): (r: string)
    decreases |s|
  {
    if s == [] then []
    else if StartsWith(s, Amp) then "&" + UnescapeHtml(s[5..])
    else if StartsWith(s, Lt) then "<" + UnescapeHtml(s[4..])
    else if StartsWith(s, Gt) then ">" + UnescapeHtml(s[4..])
    else if StartsWith(s, Quot) then "\"" + UnescapeHtml(s[6..])
    else if StartsWith(s, Apos) then "'" + UnescapeHtml(s[5..])
    else [s[0]] + UnescapeHtml(s[1..])
  }

  lemma {:induction false} UnescapeHtmlEscaped(s: string)
    ensures UnescapeHtml(HtmlEscaped(s)) == s
  {
    if s != [] {
      UnescapeHtmlEscaped(s[1..]);
      UnescapeHead(s[0], HtmlEscaped(s[1..]));
    }
  }

  /** Decoding reads one escaped character back. */
  lemma UnescapeHead(x: char, t: string)
    ensures UnescapeHtml(HtmlChar(x) + t) == [x] + UnescapeHtml(t)
  {
    if x == '&' {
      UnescapeAmp(t);
    } else if x == '<' {
      UnescapeLt(t);
    } else if x == '>' {
      UnescapeGt(t);
    } else if x == '"' {
      UnescapeQuot(t);
    } else if x == '\'' {
      UnescapeApos(t);
    } else {
      assert HtmlChar(x) == [x];
      UnescapePlain(x, t);
    }
  }

  /** A character other than `&` starts no reference and is kept. */
  lemma UnescapePlain(x: char, t: string)
    requires x != '&'
    ensures UnescapeHtml([x] + t) == [x] + UnescapeHtml(t)
  {
    var s := [x] + t;
    assert s[0] == x && s[1..] == t;
    LeadSkip(s, Amp);
    LeadSkip(s, Lt);
    LeadSkip(s, Gt);
    LeadSkip(s, Quot);
    LeadSkip(s, Apos);
  }

  lemma LeadSkip(s: string, r: string)
    requires s != [] && r != [] && s[0] != r[0]
    ensures !StartsWith(s, r)
  {
  }

  /** References are told apart by their second character. */
  lemma RefSkip(s: string, r: string)
    requires |s| >= 2 && |r| >= 2 && s[1] != r[1]
    ensures !StartsWith(s, r)
  {
  }

  /** The text after a reference that leads `s`. */
  lemma RefLeads(r: string, t: string)
    ensures StartsWith(r + t, r) && (r + t)[|r|..] == t
  {
    assert (r + t)[..|r|] == r;
  }

  lemma UnescapeAmp(t: string)
    ensures UnescapeHtml(Amp + t) == "&" + UnescapeHtml(t)
  {
    RefLeads(Amp, t);
  }

  lemma UnescapeLt(t: string)
    ensures UnescapeHtml(Lt + t) == "<" + UnescapeHtml(t)
  {
    var s := Lt + t;
    assert s[1] == 'l';
    RefSkip(s, Amp);
    RefLeads(Lt, t);
  }

  lemma UnescapeGt(t: string)
    ensures UnescapeHtml(Gt + t) == ">" + UnescapeHtml(t)
  {
    var s := Gt + t;
    assert s[1] == 'g';
    RefSkip(s, Amp);
    RefSkip(s, Lt);
    RefLeads(Gt, t);
  }

  lemma UnescapeQuot(t: string)
    ensures UnescapeHtml(Quot + t) == "\"" + UnescapeHtml(t)
  {
    var s := Quot + t;
    assert s[1] == 'q';
    RefSkip(s, Amp);
    RefSkip(s, Lt);
    RefSkip(s, Gt);
    RefLeads(Quot, t);
  }

  lemma UnescapeApos(t: string)
    ensures UnescapeHtml(Apos + t) == "'" + UnescapeHtml(t)
  {
    var s := Apos + t;
    assert s[1] == '#';
    RefSkip(s, Amp);
    RefSkip(s, Lt);
    RefSkip(s, Gt);
    RefSkip(s, Quot);
    RefLeads(Apos, t);
  }

  /** The escaped text holds no `<`, `>`, `"` or `'`, and decoding the
      references gives the text back. */
  lemma HtmlRoundTrip(s: string)
    ensures UnescapeHtml(EscapeHtml(s)) == s
    ensures forall i :: 0 <= i < |EscapeHtml(s)| ==> EscapeHtml(s)[i] !in "<>\"'"
  {
    EscapeHtmlIsCharwise(s);
    UnescapeHtmlEscaped(s);
  }

  // ---------------------------------------------------------------
  // `_create_html`
  // ---------------------------------------------------------------

  const HtmlHead: string := "<!DOCTYPE html>\n<html>\n<head>\n" + "    <meta charset=\"UTF-8\">\n"
  const HtmlStyle: string :=
    "    <style>\n"
    + "        body { font-family: Arial, sans-serif; line-height: 1.6; max-width: 800px; margin: 0 auto; padding: 20px; }\n"
    + "        h1 { color: #333; }\n"
    + "        h2 { color: #555; }\n"
    + "        h3 { color: #777; }\n"
    + "        p { margin: 10px 0; }\n"
    + "    </style>\n"
    + "</head>\n<body>\n"
  const HtmlFoot: string := "</body>\n</html>"

  /** One paragraph; the builders use the character-wise form of
      `_escape_html`, equal to the chain by `EscapeHtmlIsCharwise`. */
  function HtmlParagraph(p: string): string
  {
    if Strip(p) != [] then "    <p>" + HtmlEscaped(p) + "</p>\n" else []
  }

  function HtmlParagraphs(ps: seq<string>): string
  {
    if ps == [] then [] else HtmlParagraph(ps[0]) + HtmlParagraphs(ps[1..])
  }

  function HtmlBody(text: string): string
  {
    if text != [] then HtmlParagraphs(SplitOn(text, '\n')) else []
  }

  /** Level 1 is `h2`, level 2 `h3`, any other level `h4`. */
  function HtmlHeading(s: Section): string
  {
    if s.level == 1 then "    <h2>" + HtmlEscaped(s.name) + "</h2>\n"
    else if s.level == 2 then "    <h3>" + HtmlEscaped(s.name) + "</h3>\n"
    else "    <h4>" + HtmlEscaped(s.name) + "</h4>\n"
  }

  function HtmlSection(s: Section): string
  {
    HtmlHeading(s) + HtmlBody(s.content)
  }

  function HtmlSections(ss: seq<Section>): string
  {
    if ss == [] then [] else HtmlSection(ss[0]) + HtmlSections(ss[1..])
  }

  function HtmlTitle(d: Doc): string
  {
    "    <title>" + HtmlEscaped(d.title) + "</title>\n"
  }

  function HtmlAuthorMeta(d: Doc): string
  {
    if d.author != [] then "    <meta name=\"author\" content=\"" + HtmlEscaped(d.author) + "\">\n" else []
  }

  /** The keywords joined with `", "`. */
  function HtmlKeywordsMeta(d: Doc): string
  {
    if d.keywords != [] then "    <meta name=\"keywords\" content=\"" + HtmlEscaped(Join(", ", d.keywords)) + "\">\n" else []
  }

  function HtmlH1(d: Doc): string
  {
    if d.title != [] then "    <h1>" + HtmlEscaped(d.title) + "</h1>\n" else []
  }

  function HtmlByline(d: Doc): string
  {
    if d.author != [] then "    <p><em>By " + HtmlEscaped(d.author) + "</em></p>\n" else []
  }

  /** Everything before the sections. */
  function HtmlFront(d: Doc): string
  {
    HtmlHead + HtmlTitle(d) + HtmlAuthorMeta(d) + HtmlKeywordsMeta(d) + HtmlStyle + HtmlH1(d) + HtmlByline(d) + HtmlBody(d.content)
  }

  /** The whole HTML text of a document. */
  function Html(d: Doc): string
  {
    HtmlFront(d) + HtmlSections(d.sections) + HtmlFoot
  }

  /** `_create_html`: a string accumulated line by line. */
  method CreateHtml(d: Doc) returns (html: string)
    ensures html == Html(d)
  {
    html := HtmlFrontLoop(d);
    assert d.sections[..0] == [];
    for k := 0 to |d.sections|
      invariant html == HtmlFront(d) + HtmlSections(d.sections[..k])
    {
      var section := HtmlSectionLoop(d.sections[k]);
      HtmlSectionStep(d.sections, k);
      AppendAssoc(HtmlFront(d), HtmlSections(d.sections[..k]), section);
      html := html + section;
    }
    TakeAll(d.sections);
    html := html + HtmlFoot;
  }

  /** The head, the style block, the title, the byline and the content,
      in the order the source appends them. */
  method HtmlFrontLoop(d: Doc) returns (html: string)
    ensures html == HtmlFront(d)
  {
    html := HtmlHeadLoop(d);
    html := html + HtmlStyle;
    if d.title != [] {
      html := html + ("    <h1>" + HtmlEscaped(d.title) + "</h1>\n");
    }
    assert html == HtmlHead + HtmlTitle(d) + HtmlAuthorMeta(d) + HtmlKeywordsMeta(d) + HtmlStyle + HtmlH1(d);
    if d.author != [] {
      html := html + ("    <p><em>By " + HtmlEscaped(d.author) + "</em></p>\n");
    }
    assert html == HtmlHead + HtmlTitle(d) + HtmlAuthorMeta(d) + HtmlKeywordsMeta(d) + HtmlStyle + HtmlH1(d) + HtmlByline(d);
    var body := HtmlParagraphLoop(d.content);
    html := html + body;
  }

  /** The doctype, the charset, the title and the meta lines. */
  method HtmlHeadLoop(d: Doc) returns (html: string)
    ensures html == HtmlHead + HtmlTitle(d) + HtmlAuthorMeta(d) + HtmlKeywordsMeta(d)
  {
    html := "<!DOCTYPE html>\n<html>\n<head>\n";
    html := html + "    <meta charset=\"UTF-8\">\n";
    html := html + ("    <title>" + HtmlEscaped(d.title) + "</title>\n");
    if d.author != [] {
      html := html + ("    <meta name=\"author\" content=\"" + HtmlEscaped(d.author) + "\">\n");
    }
    assert html == HtmlHead + HtmlTitle(d) + HtmlAuthorMeta(d);
    if d.keywords != [] {
      html := html + ("    <meta name=\"keywords\" content=\"" + HtmlEscaped(Join(", ", d.keywords)) + "\">\n");
    }
  }

  /** One iteration of the section loop of `_create_html`. */
  method HtmlSectionLoop(s: Section) returns (html: string)
    ensures html == HtmlSection(s)
  {
    if s.level == 1 {
      html := "    <h2>" + HtmlEscaped(s.name) + "</h2>\n";
    } else if s.level == 2 {
      html := "    <h3>" + HtmlEscaped(s.name) + "</h3>\n";
    } else {
      html := "    <h4>" + HtmlEscaped(s.name) + "</h4>\n";
    }
    var body := HtmlParagraphLoop(s.content);
    html := html + body;
  }

  method HtmlParagraphLoop(text: string) returns (out: string)
    ensures out == HtmlBody(text)
  {
    out := [];
    if text != [] {
      var paragraphs := SplitOn(text, '\n');
      for i := 0 to |paragraphs|
        invariant out == HtmlParagraphs(paragraphs[..i])
      {
        var para := paragraphs[i];
        HtmlParagraphStep(paragraphs, i);
        if Strip(para) != [] {
          out := out + ("    <p>" + HtmlEscaped(para) + "</p>\n");
        }
      }
      TakeAll(paragraphs);
    }
  }

  lemma {:induction false} HtmlParagraphsAppend(a: seq<string>, b: seq<string>)
    ensures HtmlParagraphs(a + b) == HtmlParagraphs(a) + HtmlParagraphs(b)
  {
    if a == [] {
      assert a + b == b;
    } else {
      var h := HtmlParagraph(a[0]);
      assert (a + b)[0] == a[0] && (a + b)[1..] == a[1..] + b;
      assert HtmlParagraphs(a + b) == h + HtmlParagraphs(a[1..] + b);
      HtmlParagraphsAppend(a[1..], b);
      AppendAssoc(h, HtmlParagraphs(a[1..]), HtmlParagraphs(b));
    }
  }

  lemma HtmlParagraphStep(ps: seq<string>, i: nat)
    requires i < |ps|
    ensures HtmlParagraphs(ps[..i + 1]) == HtmlParagraphs(ps[..i]) + HtmlParagraph(ps[i])
  {
    TakeSnoc(ps, i);
    HtmlParagraphsAppend(ps[..i], [ps[i]]);
    assert [ps[i]][1..] == [];
  }

  lemma {:induction false} HtmlSectionsAppend(a: seq<Section>, b: seq<Section>)
    ensures HtmlSections(a + b) == HtmlSections(a) + HtmlSections(b)
  {
    if a == [] {
      assert a + b == b;
    } else {
      assert (a + b)[1..] == a[1..] + b;
      HtmlSectionsAppend(a[1..], b);
    }
  }

  lemma HtmlSectionStep(ss: seq<Section>, k: nat)
    requires k < |ss|
    ensures HtmlSections(ss[..k + 1]) == HtmlSections(ss[..k]) + HtmlSection(ss[k])
  {
    TakeSnoc(ss, k);
    HtmlSectionsAppend(ss[..k], [ss[k]]);
    assert [ss[k]][1..] == [];
  }

  /** Whitespace-only paragraphs are left out of the HTML as well. */
  lemma BlankHtmlParagraphOmitted(a: seq<string>, p: string, b: seq<string>)
    requires AllSpace(p)
    ensures HtmlParagraphs(a + [p] + b) == HtmlParagraphs(a + b)
  {
    var x := a + [p];
    BlankHtmlParagraphEmpty(p);
    HtmlParagraphsAppend(a, [p]);
    assert HtmlParagraphs(x) == HtmlParagraphs(a);
    HtmlParagraphsAppend(x, b);
    HtmlParagraphsAppend(a, b);
  }

  lemma BlankHtmlParagraphEmpty(p: string)
    requires AllSpace(p)
    ensures HtmlParagraphs([p]) == []
  {
    StripEmpty(p);
    assert [p][1..] == [];
  }

  /** The HTML text starts with the doctype and the charset declaration
      and ends by closing the body and the document. */
  lemma HtmlFrame(d: Doc)
    ensures StartsWith(Html(d), HtmlHead)
    ensures EndsWith(Html(d), HtmlFoot)
  {
    HtmlFrontPrefix(d);
    StartsWithAppend(HtmlFront(d), HtmlSections(d.sections), HtmlHead);
    StartsWithAppend(HtmlFront(d) + HtmlSections(d.sections), HtmlFoot, HtmlHead);
    AffixesOfAppend(HtmlFront(d) + HtmlSections(d.sections), HtmlFoot);
  }

  lemma HtmlFrontPrefix(d: Doc)
    ensures StartsWith(HtmlFront(d), HtmlHead)
  {
    var a := HtmlHead + HtmlTitle(d);
    var b := a + HtmlAuthorMeta(d);
    var c := b + HtmlKeywordsMeta(d);
    var e := c + HtmlStyle;
    var f := e + HtmlH1(d);
    AffixesOfAppend(HtmlHead, HtmlTitle(d));
    StartsWithAppend(a, HtmlAuthorMeta(d), HtmlHead);
    StartsWithAppend(b, HtmlKeywordsMeta(d), HtmlHead);
    StartsWithAppend(c, HtmlStyle, HtmlHead);
    StartsWithAppend(e, HtmlH1(d), HtmlHead);
    StartsWithAppend(f, HtmlByline(d), HtmlHead);
    StartsWithAppend(f + HtmlByline(d), HtmlBody(d.content), HtmlHead);
  }

  // ---------------------------------------------------------------
  // `FileFormatManager`
  // ---------------------------------------------------------------

  datatype Handler = DocxHandler | OdtHandler | PdfHandler | RtfHandler | HtmlHandler

  /** Which optional libraries imported successfully (python-docx, odfpy,
      reportlab, striprtf, BeautifulSoup). */
  datatype Libraries = Libraries(docx: bool, odt: bool, pdf: bool, rtf: bool, html: bool)

  /** `handler.can_import()`: PDF import is never offered. */
  function CanImportWith(h: Handler, libs: Libraries): bool
  {
    match h
    case DocxHandler => libs.docx
    case OdtHandler => libs.odt
    case PdfHandler => false
    case RtfHandler => libs.rtf
    case HtmlHandler => libs.html
  }

  /** `handler.can_export()`: RTF and HTML export need no library. */
  function CanExportWith(h: Handler, libs: Libraries): bool
  {
    match h
    case DocxHandler => libs.docx
    case OdtHandler => libs.odt
    case PdfHandler => libs.pdf
    case RtfHandler => true
    case HtmlHandler => true
  }

  /** The handler table, in insertion order. */
  const Handlers: seq<(string, Handler)> :=
    [("docx", DocxHandler), ("odt", OdtHandler), ("pdf", PdfHandler), ("rtf", RtfHandler), ("html", HtmlHandler), ("htm", HtmlHandler)]

  /** `dict.get`: the handler stored under `key`, if any. */
  function Lookup(table: seq<(string, Handler)>, key: string): (r: Option<Handler>)
    ensures r.None? <==> forall i :: 0 <= i < |table| ==> table[i].0 != key
    ensures r.Some? ==> exists i :: 0 <= i < |table| && table[i] == (key, r.value)
  {
    if table == [] then None
    else if table[0].0 == key then Some(table[0].1)
    else
      var r := Lookup(table[1..], key);
      assert r.Some? ==> exists i :: 1 <= i < |table| && table[i] == (key, r.value) by {
        if r.Some? {
          var j :| 0 <= j < |table[1..]| && table[1..][j] == (key, r.value);
          assert table[j + 1] == (key, r.value);
        }
      }
      r
  }

  /** `extension.lower().lstrip('.')` */
  function NormaliseExtension(ext: string): string
  {
    LStripChar(Lower(ext), '.')
  }

  /** `get_handler` */
  function GetHandler(ext: string): (r: Option<Handler>)
  {
    Lookup(Handlers, NormaliseExtension(ext))
  }

  /** `FileFormatManager.can_import` */
  function CanImport(ext: string, libs: Libraries): bool
  {
    match GetHandler(ext)
    case None => false
    case Some(h) => CanImportWith(h, libs)
  }

  /** `FileFormatManager.can_export` */
  function CanExport(ext: string, libs: Libraries): bool
  {
    match GetHandler(ext)
    case None => false
    case Some(h) => CanExportWith(h, libs)
  }

  /** Table keys whose handler can import, in table order. */
  function ImportKeys(table: seq<(string, Handler)>, libs: Libraries): seq<string>
  {
    if table == [] then []
    else (if CanImportWith(table[0].1, libs) then [table[0].0] else []) + ImportKeys(table[1..], libs)
  }

  /** Table keys whose handler can export, in table order. */
  function ExportKeys(table: seq<(string, Handler)>, libs: Libraries): seq<string>
  {
    if table == [] then []
    else (if CanExportWith(table[0].1, libs) then [table[0].0] else []) + ExportKeys(table[1..], libs)
  }

  lemma {:induction false} KeysAppend(a: seq<(string, Handler)>, b: seq<(string, Handler)>, libs: Libraries)
    ensures ImportKeys(a + b, libs) == ImportKeys(a, libs) + ImportKeys(b, libs)
    ensures ExportKeys(a + b, libs) == ExportKeys(a, libs) + ExportKeys(b, libs)
  {
    if a == [] {
      assert a + b == b;
    } else {
      assert (a + b)[1..] == a[1..] + b;
      KeysAppend(a[1..], b, libs);
    }
  }

  lemma KeysStep(table: seq<(string, Handler)>, i: nat, libs: Libraries)
    requires i < |table|
    ensures ImportKeys(table[..i + 1], libs) == ImportKeys(table[..i], libs) + (if CanImportWith(table[i].1, libs) then [table[i].0] else [])
    ensures ExportKeys(table[..i + 1], libs) == ExportKeys(table[..i], libs) + (if CanExportWith(table[i].1, libs) then [table[i].0] else [])
  {
    TakeSnoc(table, i);
    KeysAppend(table[..i], [table[i]], libs);
    assert [table[i]][1..] == [];
  }

  /** `get_supported_import_formats` */
  method SupportedImportFormats(libs: Libraries) returns (formats: seq<string>)
    ensures formats == ImportKeys(Handlers, libs)
  {
    formats := [];
    for i := 0 to |Handlers|
      invariant formats == ImportKeys(Handlers[..i], libs)
    {
      var (ext, handler) := Handlers[i];
      KeysStep(Handlers, i, libs);
      if CanImportWith(handler, libs) {
        formats := formats + [ext];
      }
    }
    TakeAll(Handlers);
  }

  /** `get_supported_export_formats` */
  method SupportedExportFormats(libs: Libraries) returns (formats: seq<string>)
    ensures formats == ExportKeys(Handlers, libs)
  {
    formats := [];
    for i := 0 to |Handlers|
      invariant formats == ExportKeys(Handlers[..i], libs)
    {
      var (ext, handler) := Handlers[i];
      KeysStep(Handlers, i, libs);
      if CanExportWith(handler, libs) {
        formats := formats + [ext];
      }
    }
    TakeAll(Handlers);
  }

  /** With distinct keys, a key is listed exactly when the handler stored
      under it can import (or export). */
  lemma {:induction false} KeysSpec(table: seq<(string, Handler)>, libs: Libraries, k: string)
    requires forall i, j :: 0 <= i < j < |table| ==> table[i].0 != table[j].0
    ensures k in ImportKeys(table, libs) <==> Lookup(table, k).Some? && CanImportWith(Lookup(table, k).value, libs)
    ensures k in ExportKeys(table, libs) <==> Lookup(table, k).Some? && CanExportWith(Lookup(table, k).value, libs)
  {
    if table != [] {
      KeysSpec(table[1..], libs, k);
      if table[0].0 == k {
        assert Lookup(table[1..], k).None?;
      }
    }
  }

  lemma HandlerKeysDistinct()
    ensures forall i, j :: 0 <= i < j < |Handlers| ==> Handlers[i].0 != Handlers[j].0
  {
  }

  /** An unknown extension has no handler, so it can be neither imported
      nor exported. */
  lemma UnknownExtension(ext: string, libs: Libraries)
    requires NormaliseExtension(ext) !in {"docx", "odt", "pdf", "rtf", "html", "htm"}
    ensures GetHandler(ext) == None
    ensures !CanImport(ext, libs) && !CanExport(ext, libs)
  {
    LookupUnknown(NormaliseExtension(ext));
  }

  lemma LookupUnknown(k: string)
    requires k !in {"docx", "odt", "pdf", "rtf", "html", "htm"}
    ensures Lookup(Handlers, k) == None
  {
    assert forall i :: 0 <= i < |Handlers| ==> Handlers[i].0 in {"docx", "odt", "pdf", "rtf", "html", "htm"};
  }

  /** The supported-format lists agree with `can_import` and `can_export`
      on every normalised extension. */
  lemma SupportedFormats(libs: Libraries)
    ensures forall k :: NormaliseExtension(k) == k ==> (k in ImportKeys(Handlers, libs) <==> CanImport(k, libs))
    ensures forall k :: NormaliseExtension(k) == k ==> (k in ExportKeys(Handlers, libs) <==> CanExport(k, libs))
  {
    HandlerKeysDistinct();
    forall k | NormaliseExtension(k) == k
      ensures k in ImportKeys(Handlers, libs) <==> CanImport(k, libs)
      ensures k in ExportKeys(Handlers, libs) <==> CanExport(k, libs)
    {
      KeysSpec(Handlers, libs, k);
    }
  }

  /** In a table with distinct keys, each key finds its own handler. */
  lemma {:induction false} LookupAt(table: seq<(string, Handler)>, i: nat)
    requires forall i, j :: 0 <= i < j < |table| ==> table[i].0 != table[j].0
    requires i < |table|
    ensures Lookup(table, table[i].0) == Some(table[i].1)
  {
    if i > 0 {
      assert table[0].0 != table[i].0;
      assert table[1..][i - 1] == table[i];
      LookupAt(table[1..], i - 1);
    }
  }

  /** PDF is never listed for import, whatever libraries are installed. */
  lemma PdfNeverImported(libs: Libraries)
    ensures "pdf" !in ImportKeys(Handlers, libs)
  {
    HandlerKeysDistinct();
    LookupAt(Handlers, 2);
    KeysSpec(Handlers, libs, "pdf");
  }

  /** RTF, HTML and HTM are always listed for export, whatever libraries
      are installed. */
  lemma AlwaysExported(libs: Libraries)
    ensures "rtf" in ExportKeys(Handlers, libs) && "html" in ExportKeys(Handlers, libs) && "htm" in ExportKeys(Handlers, libs)
  {
    HandlerKeysDistinct();
    AlwaysExportedAt(libs, 3);
    AlwaysExportedAt(libs, 4);
    AlwaysExportedAt(libs, 5);
  }

  lemma AlwaysExportedAt(libs: Libraries, i: nat)
    requires 3 <= i < |Handlers|
    ensures Handlers[i].0 in ExportKeys(Handlers, libs)
  {
    HandlerKeysDistinct();
    LookupAt(Handlers, i);
    KeysSpec(Handlers, libs, Handlers[i].0);
  }
}
