/** Footnotes and endnotes with styled, position-ordered numbering
    (`pyword/features/footnotes.py`). */
module Footnotes {
  import opened Common
  import opened Numerals
  import opened Ranking

  datatype Note = Note(
    id: string,
    text: string,
    noteType: string,
    position: int,
    referenceMark: Option<string>,
    number: Option<string>,
    created: string,
    modified: string)

  /** The six reference symbols: asterisk, dagger, double dagger, section
      sign, pilcrow and number sign. */
  const Symbols: seq<char> := ['*', '\U{2020}', '\U{2021}', '\U{00A7}', '\U{00B6}', '#']

  /** The "symbols" style. Up to 6 a single symbol is picked by Python
      indexing (`symbols[n - 1]`, negative indices counting from the end);
      below -5 that index raises IndexError, which is None here. Above 6
      the symbol `(n-1) % 6` is repeated `(n-1) // 6 + 1` times. */
  function SymbolMark(n: int): (r: Option<string>)
    ensures r.None? <==> n < -5
    ensures r.Some? ==> |r.value| >= 1 && r.value[0] == Symbols[(n - 1) % 6]
  {
    if n < -5 then None
    else if n <= 6 then Some([Symbols[(n - 1) % 6]])
    else Some(Repeat([Symbols[(n - 1) % 6]], (n - 1) / 6 + 1))
  }

  /** `_format_number` as a function of its inputs; None where the symbols
      style raises. */
  function NoteNumberText(n: int, style: string): (r: Option<string>)
    ensures r.None? <==> style == "symbols" && n < -5
  {
    if style == "numeric" then Some(IntToString(n))
    else if style == "alphabetic" then Some(Lower(AlphaOfInt(n)))
    else if style == "roman" then Some(Lower(RomanOfInt(n)))
    else if style == "symbols" then SymbolMark(n)
    else Some(IntToString(n))
  }

  /** For every positive number both branches of the symbols style are the
      one rule: symbol `(n-1) % 6`, repeated `(n-1) // 6 + 1` times. */
  lemma SymbolMarkUniform(n: int)
    requires n >= 1
    ensures SymbolMark(n) == Some(Repeat([Symbols[(n - 1) % 6]], (n - 1) / 6 + 1))
  {
    if n <= 6 {
      assert (n - 1) / 6 == 0;
      var c := Symbols[(n - 1) % 6];
      assert Repeat([c], 0) == [];
      assert Repeat([c], 1) == [c];
      assert SymbolMark(n) == Some([c]);
    }
  }

  lemma {:induction false} RepeatCharAt(c: char, k: nat, j: nat)
    requires j < k
    ensures |Repeat([c], k)| == k && Repeat([c], k)[j] == c
  {
    if j > 0 {
      RepeatCharAt(c, k - 1, j - 1);
    }
  }

  /** Distinct positive numbers get distinct symbol marks. */
  lemma SymbolMarkInjective(a: int, b: int)
    requires a >= 1 && b >= 1 && SymbolMark(a) == SymbolMark(b)
    ensures a == b
  {
    SymbolMarkUniform(a);
    SymbolMarkUniform(b);
    var qa, ra := (a - 1) / 6, (a - 1) % 6;
    var qb, rb := (b - 1) / 6, (b - 1) % 6;
    RepeatCharAt(Symbols[ra], qa + 1, 0);
    RepeatCharAt(Symbols[rb], qb + 1, 0);
    assert Symbols[ra] == Symbols[rb];
    assert ra == rb;
    assert qa == qb;
  }

  /** The lower-case letter styles read back: the letters decode to `n`. */
  lemma AlphabeticReadsBack(n: nat)
    ensures NoteNumberText(n, "alphabetic").Some? && Upper(NoteNumberText(n, "alphabetic").value) == Alpha(n)
  {
    var a := Alpha(n);
    var l := Lower(a);
    assert forall i :: 0 <= i < |a| ==> UpperChar(LowerChar(a[i])) == a[i];
    assert Upper(l) == a;
  }

  /** `_to_roman`: the table loop of the captions module, lower-cased. */
  method ToRoman(number: int) returns (result: string)
    ensures result == Lower(RomanOfInt(number))
  {
    var n := number;
    var upper := "";
    for i := 0 to 13
      invariant i == 0 ==> n == number && upper == ""
      invariant i > 0 ==> n >= 0 && RomanOfInt(number) == upper + RomanFrom(n, i)
    {
      var value := RomanValues[i];
      var count := n / value;
      if i == 0 && number < 0 {
        NegativeQuotient(n);
      } else {
        EntryStep(n, i);
      }
      if count != 0 {
        upper := upper + (if count > 0 then Repeat(RomanSymbols[i], count) else "");
        n := n - value * count;
      }
    }
    result := Lower(upper);
  }

  lemma EntryStep(n: nat, i: nat)
    requires i < 13
    ensures n / RomanValues[i] >= 0
    ensures n - RomanValues[i] * (n / RomanValues[i]) == n % RomanValues[i]
    ensures n / RomanValues[i] == 0 ==> n % RomanValues[i] == n
    ensures RomanFrom(n, i) == Repeat(RomanSymbols[i], n / RomanValues[i]) + RomanFrom(n % RomanValues[i], i + 1)
  {
    RomanFromStep(n, i);
  }

  lemma NegativeQuotient(n: int)
    requires n < 0
    ensures n / 1000 < 0
    ensures n - 1000 * (n / 1000) == n % 1000
  {
  }

  /** The lower-case letter loop of `_format_number`. */
  method ToLowerAlpha(number: int) returns (r: string)
    ensures r == Lower(AlphaOfInt(number))
  {
    var n := number;
    r := "";
    while n > 0
      invariant number <= 0 ==> n == number && r == ""
      invariant number > 0 ==> n >= 0 && Lower(Alpha(number)) == Lower(Alpha(n)) + r
      decreases if n > 0 then n else 0
    {
      AlphaStep(n);
      n := n - 1;
      var c := ('a' as int + n % 26) as char;
      r := [c] + r;
      n := n / 26;
    }
  }

  /** One letter of the loop: the last letter of `n`, lower-cased, follows
      the letters of its quotient. */
  lemma AlphaStep(n: nat)
    requires n > 0
    ensures (n - 1) / 26 < n
    ensures Lower(Alpha(n)) == Lower(Alpha((n - 1) / 26)) + [('a' as int + (n - 1) % 26) as char]
  {
    var up := [('A' as int + (n - 1) % 26) as char];
    assert Alpha(n) == Alpha((n - 1) / 26) + up;
    LowerAppend(Alpha((n - 1) / 26), up);
    assert Lower(up) == [('a' as int + (n - 1) % 26) as char];
  }

  /** `_format_number`. */
  method FormatNumber(number: int, style: string) returns (r: Option<string>)
    ensures r == NoteNumberText(number, style)
  {
    if style == "numeric" {
      r := Some(IntToString(number));
    } else if style == "alphabetic" {
      var t := ToLowerAlpha(number);
      r := Some(t);
    } else if style == "roman" {
      var t := ToRoman(number);
      r := Some(t);
    } else if style == "symbols" {
      if number < -5 {
        r := None;
      } else if number <= 6 {
        r := Some([Symbols[(number - 1) % 6]]);
      } else {
        r := Some(Repeat([Symbols[(number - 1) % 6]], (number - 1) / 6 + 1));
      }
    } else {
      r := Some(IntToString(number));
    }
  }

  /** The grouping key of each note: its type and its position. */
  function Keys(ns: seq<Note>): (ks: seq<Key>)
    ensures |ks| == |ns|
    ensures forall i :: 0 <= i < |ns| ==> ks[i] == Key(ns[i].noteType, ns[i].position)
  {
    seq(|ns|, i requires 0 <= i < |ns| => Key(ns[i].noteType, ns[i].position))
  }

  /** Numbering settings of one note type. */
  datatype Numbering = Numbering(style: string, start: int)

  predicate Fits(s: Numbering)
  {
    s.style == "symbols" ==> s.start >= -5
  }

  /** The numbering settings that apply to a note type: footnotes and
      endnotes have their own, other types are never renumbered. */
  function NumberingFor(t: string, foot: Numbering, end: Numbering): (r: Option<Numbering>)
    ensures t == "footnote" ==> r == Some(foot)
    ensures t == "endnote" ==> r == Some(end)
    ensures t != "footnote" && t != "endnote" ==> r == None
  {
    if t == "footnote" then Some(foot) else if t == "endnote" then Some(end) else None
  }

  /** The number `_renumber_notes` writes on note `i`, if any: a footnote
      or endnote without a custom mark gets its rank among the notes of its
      type plus that type's start number, in that type's style. */
  function NoteNumberFor(ns: seq<Note>, i: nat, foot: Numbering, end: Numbering): Option<string>
    requires i < |ns| && Fits(foot) && Fits(end)
  {
    if ns[i].referenceMark.Some? then None
    else match NumberingFor(ns[i].noteType, foot, end)
      case None => None
      case Some(s) => NoteNumberText(Rank(Keys(ns), i) + s.start, s.style)
  }

  /** The note list after `_renumber_notes`. */
  function RenumberedNotes(ns: seq<Note>, foot: Numbering, end: Numbering): (r: seq<Note>)
    requires Fits(foot) && Fits(end)
    ensures |r| == |ns|
  {
    seq(|ns|, i requires 0 <= i < |ns| =>
      match NoteNumberFor(ns, i, foot, end)
      case None => ns[i]
      case Some(t) => ns[i].(number := Some(t)))
  }

  /** Renumbering changes only numbers, and only of footnotes and endnotes
      without a custom mark; every other note keeps its old number. */
  lemma RenumberedNotesFields(ns: seq<Note>, foot: Numbering, end: Numbering, i: nat)
    requires Fits(foot) && Fits(end) && i < |ns|
    ensures RenumberedNotes(ns, foot, end)[i].(number := ns[i].number) == ns[i]
    ensures ns[i].referenceMark.Some? ==> RenumberedNotes(ns, foot, end)[i] == ns[i]
    ensures ns[i].noteType != "footnote" && ns[i].noteType != "endnote" ==> RenumberedNotes(ns, foot, end)[i] == ns[i]
  {
  }

  /** Footnotes are numbered from the footnote start and endnotes from the
      endnote start, each type by its own ranks in position order; a note
      with a custom mark keeps its number yet still counts in the ranks of
      the others. */
  lemma NoteNumbers(ns: seq<Note>, foot: Numbering, end: Numbering, i: nat, s: Numbering)
    requires Fits(foot) && Fits(end) && i < |ns| && ns[i].referenceMark.None?
    requires NumberingFor(ns[i].noteType, foot, end) == Some(s)
    ensures NoteNumberText(Rank(Keys(ns), i) + s.start, s.style).Some?
    ensures RenumberedNotes(ns, foot, end)[i].number == NoteNumberText(Rank(Keys(ns), i) + s.start, s.style)
  {
  }

  /** With `k` notes of a type, the counters run from the start number to
      start + k - 1. */
  lemma NoteCounterRange(ns: seq<Note>, i: nat, start: int)
    requires i < |ns|
    ensures start <= Rank(Keys(ns), i) + start < start + GroupSize(Keys(ns), ns[i].noteType, |ns|)
  {
    RankBound(Keys(ns), i);
  }

  /** Within a type, the counters handed to the formatter follow position
      order, ties broken by list order, in both directions. */
  lemma NoteRankOrder(ns: seq<Note>, i: nat, j: nat)
    requires i < |ns| && j < |ns| && ns[i].noteType == ns[j].noteType
    ensures Rank(Keys(ns), j) < Rank(Keys(ns), i) <==>
      (ns[j].position < ns[i].position || (ns[j].position == ns[i].position && j < i))
  {
    RankOrder(Keys(ns), i, j);
  }

  /** Under the numeric style two unmarked footnotes never share a number. */
  lemma NumericFootnotesDistinct(ns: seq<Note>, foot: Numbering, end: Numbering, i: nat, j: nat)
    requires Fits(foot) && Fits(end) && foot.style == "numeric" && foot.start >= 1
    requires i < |ns| && j < |ns| && i != j
    requires ns[i].noteType == "footnote" && ns[j].noteType == "footnote"
    requires ns[i].referenceMark.None? && ns[j].referenceMark.None?
    ensures RenumberedNotes(ns, foot, end)[i].number != RenumberedNotes(ns, foot, end)[j].number
  {
    var ks := Keys(ns);
    assert ks[i].group == ks[j].group;
    RankInjective(ks, i, j);
    var a := Rank(ks, i) + foot.start;
    var b := Rank(ks, j) + foot.start;
    NoteNumbers(ns, foot, end, i, foot);
    NoteNumbers(ns, foot, end, j, foot);
    var rs := RenumberedNotes(ns, foot, end);
    assert rs[i].number == Some(IntToString(a));
    assert rs[j].number == Some(IntToString(b));
    NumeralsDiffer(a, b);
  }

  lemma NumeralsDiffer(a: int, b: int)
    requires a >= 0 && b >= 0 && a != b
    ensures NoteNumberText(a, "numeric") != NoteNumberText(b, "numeric")
  {
    if NatToString(a) == NatToString(b) {
      NatToStringInjective(a, b);
    }
  }

  function HasId(id: string): Note -> bool
  {
    (n: Note) => n.id == id
  }

  function OfType(t: string): Note -> bool
  {
    (n: Note) => n.noteType == t
  }

  /** The number one note receives. */
  method NumberNote(ns: seq<Note>, ks: seq<Key>, i: nat, foot: Numbering, end: Numbering) returns (note: Note)
    requires Fits(foot) && Fits(end) && i < |ns| && ks == Keys(ns)
    ensures note == RenumberedNotes(ns, foot, end)[i]
  {
    note := ns[i];
    var s := NumberingFor(note.noteType, foot, end);
    if note.referenceMark.None? && s.Some? {
      var rank := ComputeRank(ks, i);
      var t := FormatNumber(rank + s.value.start, s.value.style);
      note := note.(number := t);
    }
  }

  /** The renumbering loop over a note list. */
  method RenumberList(ns: seq<Note>, foot: Numbering, end: Numbering) returns (out: seq<Note>)
    requires Fits(foot) && Fits(end)
    ensures out == RenumberedNotes(ns, foot, end)
  {
    var ks := Keys(ns);
    ghost var target := RenumberedNotes(ns, foot, end);
    out := [];
    for i := 0 to |ns|
      invariant out == target[..i]
    {
      var note := NumberNote(ns, ks, i, foot, end);
      assert target[..i + 1] == target[..i] + [note];
      out := out + [note];
    }
    assert target[..|ns|] == target;
  }

  class FootnotesManager {
    var notes: seq<Note>
    var footnoteNumbering: string
    var endnoteNumbering: string
    var footnoteStartNumber: int
    var endnoteStartNumber: int

    /** The start numbers the symbols style can format. The program sets
        them only from spin boxes whose minimum is 1, so every renumbering
        it runs keeps to this. */
    predicate Valid()
      reads this
    {
      Fits(Numbering(footnoteNumbering, footnoteStartNumber)) && Fits(Numbering(endnoteNumbering, endnoteStartNumber))
    }

    function Foot(): Numbering
      reads this
    {
      Numbering(footnoteNumbering, footnoteStartNumber)
    }

    function End(): Numbering
      reads this
    {
      Numbering(endnoteNumbering, endnoteStartNumber)
    }

    constructor ()
      ensures Valid()
      ensures notes == [] && footnoteNumbering == "numeric" && endnoteNumbering == "numeric"
      ensures footnoteStartNumber == 1 && endnoteStartNumber == 1
    {
      notes := [];
      footnoteNumbering := "numeric";
      endnoteNumbering := "numeric";
      footnoteStartNumber := 1;
      endnoteStartNumber := 1;
    }

    /** `_renumber_notes`. */
    method RenumberNotes()
      requires Valid()
      modifies this
      ensures Valid() && Foot() == old(Foot()) && End() == old(End())
      ensures notes == RenumberedNotes(old(notes), Foot(), End())
    {
      notes := RenumberList(notes, Foot(), End());
    }

    /** `add_footnote`: appends a footnote at `position` and renumbers; the
        result is the new note as renumbered. */
    method AddFootnote(id: string, text: string, position: int, customMark: Option<string>, now: string)
      returns (note: Note)
      requires Valid()
      modifies this
      ensures Valid() && Foot() == old(Foot()) && End() == old(End())
      ensures notes == RenumberedNotes(old(notes) + [Note(id, text, "footnote", position, customMark, None, now, now)], Foot(), End())
      ensures note == notes[|notes| - 1]
    {
      notes := notes + [Note(id, text, "footnote", position, customMark, None, now, now)];
      RenumberNotes();
      note := notes[|notes| - 1];
    }

    /** `add_endnote`. */
    method AddEndnote(id: string, text: string, position: int, customMark: Option<string>, now: string)
      returns (note: Note)
      requires Valid()
      modifies this
      ensures Valid() && Foot() == old(Foot()) && End() == old(End())
      ensures notes == RenumberedNotes(old(notes) + [Note(id, text, "endnote", position, customMark, None, now, now)], Foot(), End())
      ensures note == notes[|notes| - 1]
    {
      notes := notes + [Note(id, text, "endnote", position, customMark, None, now, now)];
      RenumberNotes();
      note := notes[|notes| - 1];
    }

    /** `edit_note`: new text and modification time for the first note with
        `id`; False for an unknown id. */
    method EditNote(id: string, newText: string, now: string) returns (ok: bool)
      modifies this
      ensures Foot() == old(Foot()) && End() == old(End())
      ensures ok <==> FirstIndex(old(notes), HasId(id)).Some?
      ensures ok ==> notes == old(notes)[FirstIndex(old(notes), HasId(id)).value :=
        old(notes)[FirstIndex(old(notes), HasId(id)).value].(text := newText, modified := now)]
      ensures !ok ==> notes == old(notes)
    {
      var k := FirstIndex(notes, HasId(id));
      if k.Some? {
        notes := notes[k.value := notes[k.value].(text := newText, modified := now)];
        ok := true;
      } else {
        ok := false;
      }
    }

    /** `delete_note`: removes the first note with `id` and renumbers. */
    method DeleteNote(id: string) returns (ok: bool)
      requires Valid()
      modifies this
      ensures Valid() && Foot() == old(Foot()) && End() == old(End())
      ensures ok <==> FirstIndex(old(notes), HasId(id)).Some?
      ensures ok ==> notes == RenumberedNotes(RemoveAt(old(notes), FirstIndex(old(notes), HasId(id)).value), Foot(), End())
      ensures !ok ==> notes == old(notes)
    {
      var k := FirstIndex(notes, HasId(id));
      if k.Some? {
        notes := RemoveAt(notes, k.value);
        RenumberNotes();
        ok := true;
      } else {
        ok := false;
      }
    }

    /** `get_note_by_id`. */
    function GetNoteById(id: string): (r: Option<Note>)
      reads this
      ensures r.Some? ==> r.value in notes && r.value.id == id
      ensures r.None? <==> forall i :: 0 <= i < |notes| ==> notes[i].id != id
    {
      match FirstIndex(notes, HasId(id))
      case None => None
      case Some(i) => Some(notes[i])
    }

    /** `get_notes_by_type`; `get_footnotes` and `get_endnotes` are this
        with "footnote" and "endnote". */
    function GetNotesByType(t: string): (r: seq<Note>)
      reads this
      ensures forall n :: n in r <==> n in notes && n.noteType == t
    {
      Filter(notes, OfType(t))
    }

    /** `convert_footnote_to_endnote`: only a footnote is converted, and the
        notes are renumbered. */
    method ConvertFootnoteToEndnote(id: string) returns (ok: bool)
      requires Valid()
      modifies this
      ensures Valid() && Foot() == old(Foot()) && End() == old(End())
      ensures ok <==> FirstIndex(old(notes), HasId(id)).Some? &&
                      old(notes)[FirstIndex(old(notes), HasId(id)).value].noteType == "footnote"
      ensures ok ==> notes == RenumberedNotes(old(notes)[FirstIndex(old(notes), HasId(id)).value :=
        old(notes)[FirstIndex(old(notes), HasId(id)).value].(noteType := "endnote")], Foot(), End())
      ensures !ok ==> notes == old(notes)
    {
      var k := FirstIndex(notes, HasId(id));
      if k.Some? && notes[k.value].noteType == "footnote" {
        notes := notes[k.value := notes[k.value].(noteType := "endnote")];
        RenumberNotes();
        ok := true;
      } else {
        ok := false;
      }
    }

    /** `convert_endnote_to_footnote`: the symmetric conversion. */
    method ConvertEndnoteToFootnote(id: string) returns (ok: bool)
      requires Valid()
      modifies this
      ensures Valid() && Foot() == old(Foot()) && End() == old(End())
      ensures ok <==> FirstIndex(old(notes), HasId(id)).Some? &&
                      old(notes)[FirstIndex(old(notes), HasId(id)).value].noteType == "endnote"
      ensures ok ==> notes == RenumberedNotes(old(notes)[FirstIndex(old(notes), HasId(id)).value :=
        old(notes)[FirstIndex(old(notes), HasId(id)).value].(noteType := "footnote")], Foot(), End())
      ensures !ok ==> notes == old(notes)
    {
      var k := FirstIndex(notes, HasId(id));
      if k.Some? && notes[k.value].noteType == "endnote" {
        notes := notes[k.value := notes[k.value].(noteType := "footnote")];
        RenumberNotes();
        ok := true;
      } else {
        ok := false;
      }
    }
  }
}
