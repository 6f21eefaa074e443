/** Captions for figures, tables, equations and listings
    (`pyword/pyword/features/captions.py`): number formatting and the
    caption list with its per-type renumbering. */
module Captions {
  import opened Common
  import opened Numerals
  import opened Ranking

  datatype Caption = Caption(
    id: string,
    text: string,
    captionType: string,
    position: int,
    number: Option<int>,
    captionLabel: Option<string>,
    chapterNumber: Option<int>,
    created: string)
  {
    /** `get_formatted_number`: the number in the chosen style, with a
        "chapter." prefix when asked for and the chapter number is set and
        non-zero; the empty string while the caption is unnumbered. */
    function FormattedNumber(style: string, includeChapter: bool): (r: string)
      ensures number.None? ==> r == ""
      ensures number.Some? && !(includeChapter && chapterNumber.Some? && chapterNumber.value != 0) ==>
        r == NumberText(number.value, style)
      ensures number.Some? && includeChapter && chapterNumber.Some? && chapterNumber.value != 0 ==>
        r == IntToString(chapterNumber.value) + "." + NumberText(number.value, style)
    {
      match number
      case None => ""
      case Some(n) =>
        if includeChapter && chapterNumber.Some? && chapterNumber.value != 0 then
          IntToString(chapterNumber.value) + "." + NumberText(n, style)
        else NumberText(n, style)
    }
  }

  /** The number alone: decimal for "arabic" and for any unknown style. */
  function NumberText(n: int, style: string): string
  {
    if style == "roman" then RomanOfInt(n)
    else if style == "alphabetic" then AlphaOfInt(n)
    else IntToString(n)
  }

  /** Each style can be read back: decimal digits give the number, the
      Roman form is the digit-by-digit numeral, letters decode in base 26. */
  lemma NumberTextReadsBack(n: nat, style: string)
    ensures style != "roman" && style != "alphabetic" ==> DigitsValue(NumberText(n, style)) == n
    ensures style == "roman" ==> NumberText(n, style) == RomanDigits(n)
    ensures style == "alphabetic" ==> AllCapitals(NumberText(n, style)) && AlphaValue(NumberText(n, style)) == n
  {
    NatToStringValue(n);
    RomanIsDigitwise(n);
    AlphaValueOfAlpha(n);
  }

  /** The chapter prefix is the only difference between the two forms, and
      it appears only with a non-zero chapter number. */
  lemma ChapterPrefix(c: Caption, style: string)
    ensures c.number.Some? && c.chapterNumber.Some? && c.chapterNumber.value != 0 ==>
      c.FormattedNumber(style, true) == IntToString(c.chapterNumber.value) + "." + c.FormattedNumber(style, false)
    ensures !(c.chapterNumber.Some? && c.chapterNumber.value != 0) ==>
      c.FormattedNumber(style, true) == c.FormattedNumber(style, false)
  {
  }

  /** `_to_roman`: one pass over the thirteen-entry table, appending each
      numeral as many times as it fits. */
  method ToRoman(number: int) returns (result: string)
    ensures result == RomanOfInt(number)
    ensures number >= 0 ==> result == Roman(number)
  {
    var n := number;
    result := "";
    for i := 0 to 13
      invariant i == 0 ==> n == number && result == ""
      invariant i > 0 ==> n >= 0 && RomanOfInt(number) == result + RomanFrom(n, i)
    {
      var value := RomanValues[i];
      var count := n / value;
      RomanLoopStep(number, n, i, result);
      if count != 0 {
        result := result + (if count > 0 then Repeat(RomanSymbols[i], count) else "");
        n := n - value * count;
      }
    }
  }

  /** One pass of the `_to_roman` loop keeps its invariant. */
  lemma RomanLoopStep(number: int, n: int, i: nat, result: string)
    requires i < 13
    requires i == 0 ==> n == number && result == ""
    requires i > 0 ==> n >= 0 && RomanOfInt(number) == result + RomanFrom(n, i)
    ensures var count := n / RomanValues[i];
            var n' := if count != 0 then n - RomanValues[i] * count else n;
            var result' := if count != 0 then result + (if count > 0 then Repeat(RomanSymbols[i], count) else "") else result;
            n' >= 0 && RomanOfInt(number) == result' + RomanFrom(n', i + 1)
  {
    if i == 0 && number < 0 {
      assert RomanValues[0] == 1000;
      NegativeFirstEntry(n);
    } else {
      var m: nat := n;
      assert RomanOfInt(number) == result + RomanFrom(m, i);
      TableEntry(m, i);
      var run, rest := Repeat(RomanSymbols[i], m / RomanValues[i]), RomanFrom(m % RomanValues[i], i + 1);
      if m / RomanValues[i] == 0 {
        assert run == "";
      } else {
        assert result + (run + rest) == (result + run) + rest;
      }
    }
  }

  /** Arithmetic of one table entry on a non-negative remainder. */
  lemma TableEntry(n: nat, i: nat)
    requires i < 13
    ensures n / RomanValues[i] >= 0
    ensures n - RomanValues[i] * (n / RomanValues[i]) == n % RomanValues[i]
    ensures n / RomanValues[i] == 0 ==> n % RomanValues[i] == n
    ensures RomanFrom(n, i) == Repeat(RomanSymbols[i], n / RomanValues[i]) + RomanFrom(n % RomanValues[i], i + 1)
  {
    RomanFromStep(n, i);
  }

  /** A negative number has a negative floor quotient by 1000. */
  lemma NegativeFirstEntry(n: int)
    requires n < 0
    ensures n / 1000 < 0
    ensures n - 1000 * (n / 1000) == n % 1000
  {
  }

  /** `_to_alphabetic`: bijective base 26, built from the last letter. */
  method ToAlphabetic(number: int) returns (result: string)
    ensures result == AlphaOfInt(number)
    ensures number <= 0 ==> result == ""
  {
    var n := number;
    result := "";
    while n > 0
      invariant number <= 0 ==> n == number && result == ""
      invariant number > 0 ==> n >= 0 && Alpha(number) == Alpha(n) + result
      decreases if n > 0 then n else 0
    {
      ghost var prev := n;
      n := n - 1;
      result := [('A' as int + n % 26) as char] + result;
      assert Alpha(prev) == Alpha(n / 26) + [('A' as int + n % 26) as char];
      n := n / 26;
    }
  }

  /** The grouping key of each caption: its type and its position. */
  function Keys(cs: seq<Caption>): (ks: seq<Key>)
    ensures |ks| == |cs|
    ensures forall i :: 0 <= i < |cs| ==> ks[i] == Key(cs[i].captionType, cs[i].position)
  {
    seq(|cs|, i requires 0 <= i < |cs| => Key(cs[i].captionType, cs[i].position))
  }

  /** The number `_renumber_captions` gives caption `i`: 1 when numbering
      restarts each chapter, otherwise its one-based rank among the
      captions of its type. */
  function NumberFor(cs: seq<Caption>, i: nat, restart: bool): int
    requires i < |cs|
  {
    if restart then 1 else Rank(Keys(cs), i) + 1
  }

  /** The caption list after `_renumber_captions`. */
  function Renumbered(cs: seq<Caption>, restart: bool): (r: seq<Caption>)
    ensures |r| == |cs|
  {
    seq(|cs|, i requires 0 <= i < |cs| =>
      cs[i].(number := Some(NumberFor(cs, i, restart)), chapterNumber := Some(1)))
  }

  function OfType(t: string): Caption -> bool
  {
    (c: Caption) => c.captionType == t
  }

  lemma {:induction false} GroupSizeOfType(cs: seq<Caption>, t: string, k: nat)
    requires k <= |cs|
    ensures GroupSize(Keys(cs), t, k) == |Filter(cs[..k], OfType(t))|
  {
    if k > 0 {
      GroupSizeOfType(cs, t, k - 1);
      assert cs[..k] == cs[..k - 1] + [cs[k - 1]];
      FilterAppend(cs[..k - 1], [cs[k - 1]], OfType(t));
      assert [cs[k - 1]][1..] == [];
    }
  }

  /** Renumbering touches only the number and the chapter number, always
      sets the chapter number to 1, and keeps every caption's type and
      position, so a second renumbering changes nothing. */
  lemma RenumberedFields(cs: seq<Caption>, restart: bool)
    ensures forall i :: 0 <= i < |cs| ==>
      Renumbered(cs, restart)[i].(number := cs[i].number, chapterNumber := cs[i].chapterNumber) == cs[i]
    ensures forall i :: 0 <= i < |cs| ==> Renumbered(cs, restart)[i].chapterNumber == Some(1)
    ensures Keys(Renumbered(cs, restart)) == Keys(cs)
    ensures Renumbered(Renumbered(cs, restart), restart) == Renumbered(cs, restart)
  {
    var r := Renumbered(cs, restart);
    assert Keys(r) == Keys(cs);
  }

  /** With restart_each_chapter every caption is number 1. */
  lemma RenumberedRestart(cs: seq<Caption>)
    ensures forall i :: 0 <= i < |cs| ==> Renumbered(cs, true)[i].number == Some(1)
  {
  }

  /** Without restart, the captions of each type are numbered 1..k where k
      is the number of captions of that type. */
  lemma RenumberedRange(cs: seq<Caption>, i: nat)
    requires i < |cs|
    ensures 1 <= Renumbered(cs, false)[i].number.value <= |Filter(cs, OfType(cs[i].captionType))|
  {
    RankBound(Keys(cs), i);
    GroupSizeOfType(cs, cs[i].captionType, |cs|);
    assert cs[..|cs|] == cs;
  }

  /** Without restart, numbers within a type follow position order, ties
      going to the caption that comes first in the list; types are
      numbered independently of each other. */
  lemma RenumberedOrder(cs: seq<Caption>, i: nat, j: nat)
    requires i < |cs| && j < |cs| && cs[i].captionType == cs[j].captionType
    ensures Renumbered(cs, false)[j].number.value < Renumbered(cs, false)[i].number.value <==>
      (cs[j].position < cs[i].position || (cs[j].position == cs[i].position && j < i))
  {
    RankOrder(Keys(cs), i, j);
  }

  /** Without restart, every number 1..k is used by some caption of the
      type, so the numbers of a type are exactly 1..k. */
  lemma RenumberedOnto(cs: seq<Caption>, t: string, k: nat)
    requires 1 <= k <= |Filter(cs, OfType(t))|
    ensures exists i :: 0 <= i < |cs| && cs[i].captionType == t && Renumbered(cs, false)[i].number == Some(k)
  {
    GroupSizeOfType(cs, t, |cs|);
    assert cs[..|cs|] == cs;
    RanksFillGroup(Keys(cs), t, k - 1);
    var i :| 0 <= i < |cs| && Keys(cs)[i].group == t && Rank(Keys(cs), i) == k - 1;
    var r := Renumbered(cs, false);
    assert NumberFor(cs, i, false) == k;
    assert r[i] == cs[i].(number := Some(NumberFor(cs, i, false)), chapterNumber := Some(1));
  }

  /** The renumbering loop of `_renumber_captions` over a caption list. */
  method RenumberList(cs: seq<Caption>, restart: bool) returns (out: seq<Caption>)
    ensures out == Renumbered(cs, restart)
  {
    var ks := Keys(cs);
    out := [];
    for i := 0 to |cs|
      invariant |out| == i
      invariant forall j :: 0 <= j < i ==> out[j] == Renumbered(cs, restart)[j]
    {
      var n := 1;
      if !restart {
        var rank := ComputeRank(ks, i);
        n := rank + 1;
      }
      out := out + [cs[i].(number := Some(n), chapterNumber := Some(1))];
    }
  }

  const DefaultPrefixes: map<string, string> :=
    map["figure" := "Figure", "table" := "Table", "equation" := "Equation", "listing" := "Listing"]

  function HasId(id: string): Caption -> bool
  {
    (c: Caption) => c.id == id
  }

  function HasLabel(wanted: Option<string>): Caption -> bool
  {
    (c: Caption) => c.captionLabel == wanted
  }

  class CaptionsManager {
    var captions: seq<Caption>
    var numberingStyle: string
    var includeChapter: bool
    var restartEachChapter: bool
    var prefixes: map<string, string>
    var separator: string

    constructor ()
      ensures captions == [] && numberingStyle == "arabic"
      ensures !includeChapter && !restartEachChapter
      ensures prefixes == DefaultPrefixes && separator == ": "
    {
      captions := [];
      numberingStyle := "arabic";
      includeChapter := false;
      restartEachChapter := false;
      prefixes := DefaultPrefixes;
      separator := ": ";
    }

    /** `_renumber_captions`. */
    method RenumberCaptions()
      modifies this
      ensures captions == Renumbered(old(captions), restartEachChapter)
      ensures numberingStyle == old(numberingStyle) && includeChapter == old(includeChapter)
      ensures restartEachChapter == old(restartEachChapter)
      ensures prefixes == old(prefixes) && separator == old(separator)
    {
      captions := RenumberList(captions, restartEachChapter);
    }

    /** `add_caption`: appends an unnumbered caption and renumbers. */
    method AddCaption(id: string, text: string, captionType: string, position: int,
                      wanted: Option<string>, created: string) returns (c: Caption)
      modifies this
      ensures captions == Renumbered(old(captions) + [Caption(id, text, captionType, position, None, wanted, None, created)], restartEachChapter)
      ensures c == captions[|captions| - 1]
      ensures numberingStyle == old(numberingStyle) && includeChapter == old(includeChapter)
      ensures restartEachChapter == old(restartEachChapter)
      ensures prefixes == old(prefixes) && separator == old(separator)
    {
      captions := captions + [Caption(id, text, captionType, position, None, wanted, None, created)];
      RenumberCaptions();
      c := captions[|captions| - 1];
    }

    /** `edit_caption`: replaces the text of the first caption with `id`. */
    method EditCaption(id: string, newText: string) returns (ok: bool)
      modifies this
      ensures ok <==> FirstIndex(old(captions), HasId(id)).Some?
      ensures ok ==> captions == old(captions)[FirstIndex(old(captions), HasId(id)).value :=
        old(captions)[FirstIndex(old(captions), HasId(id)).value].(text := newText)]
      ensures !ok ==> captions == old(captions)
      ensures numberingStyle == old(numberingStyle) && includeChapter == old(includeChapter)
      ensures restartEachChapter == old(restartEachChapter)
      ensures prefixes == old(prefixes) && separator == old(separator)
    {
      var k := FirstIndex(captions, HasId(id));
      if k.Some? {
        captions := captions[k.value := captions[k.value].(text := newText)];
        ok := true;
      } else {
        ok := false;
      }
    }

    /** `delete_caption`: removes the first caption with `id` and renumbers;
        an unknown id changes nothing. */
    method DeleteCaption(id: string) returns (ok: bool)
      modifies this
      ensures ok <==> FirstIndex(old(captions), HasId(id)).Some?
      ensures ok ==> captions == Renumbered(RemoveAt(old(captions), FirstIndex(old(captions), HasId(id)).value), restartEachChapter)
      ensures !ok ==> captions == old(captions)
      ensures numberingStyle == old(numberingStyle) && includeChapter == old(includeChapter)
      ensures restartEachChapter == old(restartEachChapter)
      ensures prefixes == old(prefixes) && separator == old(separator)
    {
      var k := FirstIndex(captions, HasId(id));
      if k.Some? {
        captions := RemoveAt(captions, k.value);
        RenumberCaptions();
        ok := true;
      } else {
        ok := false;
      }
    }

    /** `get_caption_by_id`: the first caption with that id. */
    function GetCaptionById(id: string): (r: Option<Caption>)
      reads this
      ensures r.Some? ==> r.value in captions && r.value.id == id
      ensures r.None? <==> forall i :: 0 <= i < |captions| ==> captions[i].id != id
    {
      match FirstIndex(captions, HasId(id))
      case None => None
      case Some(i) => Some(captions[i])
    }

    /** `get_caption_by_label`: the first caption whose label equals
        `wanted` (which may be `None`). */
    function GetCaptionByLabel(wanted: Option<string>): (r: Option<Caption>)
      reads this
      ensures r.Some? ==> exists i :: 0 <= i < |captions| && captions[i] == r.value && r.value.captionLabel == wanted &&
                                      (forall j :: 0 <= j < i ==> captions[j].captionLabel != wanted)
      ensures r.None? <==> forall i :: 0 <= i < |captions| ==> captions[i].captionLabel != wanted
    {
      match FirstIndex(captions, HasLabel(wanted))
      case None => None
      case Some(i) => Some(captions[i])
    }

    /** `get_captions_by_type`: the captions of one type, in list order. */
    function GetCaptionsByType(t: string): (r: seq<Caption>)
      reads this
      ensures forall c :: c in r <==> c in captions && c.captionType == t
    {
      Filter(captions, OfType(t))
    }

    /** The reference prefix: the configured one, or the capitalised type. */
    function PrefixFor(t: string): (p: string)
      reads this
      ensures t in prefixes ==> p == prefixes[t]
      ensures t !in prefixes ==> p == Capitalize(t)
    {
      if t in prefixes then prefixes[t] else Capitalize(t)
    }

    /** `get_caption_reference`: "Prefix number" for the first caption with
        `id`, `None` for an unknown id. */
    function GetCaptionReference(id: string): (r: Option<string>)
      reads this
      ensures r.None? <==> GetCaptionById(id).None?
      ensures r.Some? ==>
        r.value == PrefixFor(GetCaptionById(id).value.captionType) + " " +
                   GetCaptionById(id).value.FormattedNumber(numberingStyle, includeChapter)
    {
      match GetCaptionById(id)
      case None => None
      case Some(c) => Some(PrefixFor(c.captionType) + " " + c.FormattedNumber(numberingStyle, includeChapter))
    }
  }

  /** A freshly renumbered "figure" caption in the default settings is
      referred to as "Figure k", with k its rank among the figures. */
  lemma DefaultFigureReference(m: CaptionsManager, cs: seq<Caption>, id: string, i: nat)
    requires m.captions == Renumbered(cs, false)
    requires m.numberingStyle == "arabic" && !m.includeChapter && m.prefixes == DefaultPrefixes
    requires i < |cs| && cs[i].id == id && cs[i].captionType == "figure"
    requires forall j :: 0 <= j < i ==> cs[j].id != id
    ensures m.GetCaptionReference(id) == Some("Figure " + NatToString(Rank(Keys(cs), i) + 1))
  {
    RenumberedFields(cs, false);
    var r := Renumbered(cs, false);
    assert r[i].id == id;
    forall j | 0 <= j < i
      ensures r[j].id != id
    {
      assert r[j].id == cs[j].id;
    }
    var k := FirstIndex(r, HasId(id));
    assert k == Some(i);
    assert m.GetCaptionById(id) == Some(r[i]);
    assert r[i].captionType == "figure" && r[i].number == Some(Rank(Keys(cs), i) + 1);
    assert m.PrefixFor("figure") == "Figure";
    assert r[i].FormattedNumber("arabic", false) == NatToString(Rank(Keys(cs), i) + 1);
    assert "Figure" + " " == "Figure ";
  }
}
