/** Bookmarks and cross-references to bookmarks, captions, headings and
    footnotes (`pyword/features/cross_references.py`). Identifiers and
    timestamps, which the source draws from `uuid4` and the clock, are
    parameters. */
module CrossReferences {
  import opened Common
  import opened Json
  import Captions
  import Footnotes

  datatype CrossRef = CrossRef(
    id: string,
    targetType: string,
    targetId: string,
    referenceType: string,
    position: int,
    created: string)

  datatype Bookmark = Bookmark(id: string, name: string, position: int, length: int, created: string)

  // ---------------------------------------------------------------
  // Serialisation
  // ---------------------------------------------------------------

  function CrossRefToDict(r: CrossRef): (d: Dict)
    ensures d.Keys == {"id", "target_type", "target_id", "reference_type", "position", "created"}
  {
    map["id" := Str(r.id), "target_type" := Str(r.targetType), "target_id" := Str(r.targetId),
        "reference_type" := Str(r.referenceType), "position" := Int(r.position), "created" := Str(r.created)]
  }

  /** `CrossReference.from_dict`: None where the source raises KeyError
      (no `target_type`, `target_id` or `id`); the reference type defaults
      to "number", the position to 0 and the creation time to `now`. */
  function CrossRefFromDict(d: Dict, now: string): (r: Option<CrossRef>)
    ensures r.None? <==> "target_type" !in d || "target_id" !in d || "id" !in d
    ensures r.Some? && "reference_type" !in d ==> r.value.referenceType == "number"
    ensures r.Some? && "created" !in d ==> r.value.created == now
  {
    if "target_type" !in d || "target_id" !in d || "id" !in d then None
    else
      Some(CrossRef(GetStr(d, "id", ""), GetStr(d, "target_type", ""), GetStr(d, "target_id", ""),
                    GetStr(d, "reference_type", "number"), GetInt(d, "position", 0), GetStr(d, "created", now)))
  }

  lemma CrossRefRoundTrip(r: CrossRef, now: string)
    ensures CrossRefFromDict(CrossRefToDict(r), now) == Some(r)
  {
  }

  function BookmarkToDict(b: Bookmark): (d: Dict)
    ensures d.Keys == {"id", "name", "position", "length", "created"}
  {
    map["id" := Str(b.id), "name" := Str(b.name), "position" := Int(b.position),
        "length" := Int(b.length), "created" := Str(b.created)]
  }

  /** `Bookmark.from_dict`: None without `name` or `id`; position and
      length default to 0 and the creation time to `now`. */
  function BookmarkFromDict(d: Dict, now: string): (b: Option<Bookmark>)
    ensures b.None? <==> "name" !in d || "id" !in d
    ensures b.Some? && "position" !in d ==> b.value.position == 0
    ensures b.Some? && "length" !in d ==> b.value.length == 0
  {
    if "name" !in d || "id" !in d then None
    else Some(Bookmark(GetStr(d, "id", ""), GetStr(d, "name", ""), GetInt(d, "position", 0),
                       GetInt(d, "length", 0), GetStr(d, "created", now)))
  }

  lemma BookmarkRoundTrip(b: Bookmark, now: string)
    ensures BookmarkFromDict(BookmarkToDict(b), now) == Some(b)
  {
  }

  // ---------------------------------------------------------------
  // Reference text
  // ---------------------------------------------------------------

  /** The page estimate `position // 3000 + 1` (floor division). */
  function PageOf(position: int): (p: int)
    ensures (p - 1) * 3000 <= position < p * 3000
  {
    position / 3000 + 1
  }

  function PageText(position: int): string
  {
    "page " + IntToString(PageOf(position))
  }

  /** The anchor and position of `QTextCursor(document)` after
      `setPosition(p)` and `setPosition(e, KeepAnchor)`, in a text of `n`
      characters: the cursor starts at 0, and each call ignores a position
      outside `0..n` and leaves the cursor where it was. */
  function SelectionEnds(n: nat, p: int, e: int): (r: (nat, nat))
    ensures r.0 <= n && r.1 <= n
    ensures 0 <= p <= n ==> r.0 == p
    ensures !(0 <= p <= n) ==> r.0 == 0
    ensures 0 <= e <= n ==> r.1 == e
    ensures !(0 <= e <= n) ==> r.1 == r.0
  {
    var anchor := if 0 <= p <= n then p else 0;
    (anchor, if 0 <= e <= n then e else anchor)
  }

  /** What `selectedText()` gives for the plain text `s`: a paragraph
      break reads as U+2029, the paragraph separator. */
  function QtSelected(s: string): (r: string)
    ensures |r| == |s|
    ensures forall i :: 0 <= i < |s| ==> r[i] == if s[i] == '\n' then '\U{2029}' else s[i]
    ensures '\n' !in r
  {
    seq(|s|, i requires 0 <= i < |s| => if s[i] == '\n' then '\U{2029}' else s[i])
  }

  /** The text of a bookmark spanning `length` characters from
      `position`, selected as `_get_reference_text` selects it. */
  function SelectedText(doc: string, position: int, length: int): (r: string)
    ensures |r| <= |doc|
    ensures var e := position + length;
            0 <= position <= |doc| && 0 <= e <= |doc| ==>
              r == QtSelected(if position <= e then doc[position..e] else doc[e..position])
    ensures 0 <= position <= |doc| && !(0 <= position + length <= |doc|) ==> r == []
    ensures !(0 <= position <= |doc|) && 0 <= position + length <= |doc| ==> r == QtSelected(doc[..position + length])
    ensures !(0 <= position <= |doc|) && !(0 <= position + length <= |doc|) ==> r == []
  {
    var (a, b) := SelectionEnds(|doc|, position, position + length);
    QtSelected(if a <= b then doc[a..b] else doc[b..a])
  }

  /** On the text "abc": an end past the text is ignored, so nothing is
      selected; a start past the text is ignored, so the selection runs
      from 0; a paragraph break reads as U+2029. */
  lemma SelectedTextExamples()
    ensures SelectedText("abc", 1, 5) == []
    ensures SelectedText("abc", 2, -5) == []
    ensures SelectedText("abc", 10, -8) == "ab"
    ensures SelectedText("abc", 2, -2) == "ab"
    ensures SelectedText("a\nb", 0, 3) == "a\U{2029}b"
  {
    assert "abc"[..2] == "ab";
    assert "abc"[0..2] == "ab";
    assert "a\nb"[0..3] == "a\nb";
  }

  /** A footnote's mark: its custom mark when that is set and non-empty,
      else its number, or "None" while it has none. */
  function MarkText(n: Footnotes.Note): string
  {
    if n.referenceMark.Some? && n.referenceMark.value != "" then n.referenceMark.value
    else if n.number.Some? then n.number.value
    else "None"
  }

  predicate IsCaptionTarget(t: string)
  {
    t == "figure" || t == "table" || t == "equation" || t == "listing"
  }

  const UnknownReference: string := "[Unknown Reference]"

  /** The text `find_broken_references` counts as broken. */
  predicate Bracketed(s: string)
  {
    StartsWith(s, "[") && EndsWith(s, "]")
  }

  /** The text `update_cross_references` counts as updated. */
  predicate Resolved(s: string)
  {
    s != [] && !StartsWith(s, "[")
  }

  lemma ResolvedNotBracketed(s: string)
    ensures Resolved(s) ==> !Bracketed(s)
  {
  }

  function NotTargeting(bookmarkId: string): CrossRef -> bool
  {
    (r: CrossRef) => !(r.targetType == "bookmark" && r.targetId == bookmarkId)
  }

  function BookmarkHasId(id: string): Bookmark -> bool
  {
    (b: Bookmark) => b.id == id
  }

  function BookmarkHasName(name: string): Bookmark -> bool
  {
    (b: Bookmark) => b.name == name
  }

  function RefHasId(id: string): CrossRef -> bool
  {
    (r: CrossRef) => r.id == id
  }

  class CrossReferencesManager {
    var crossReferences: seq<CrossRef>
    var bookmarks: seq<Bookmark>
    var captions: Captions.CaptionsManager?
    var footnotes: Footnotes.FootnotesManager?
    /** Whether a table-of-contents manager is attached. Its entries
        carry no `id`, so no heading reference ever resolves. */
    var hasToc: bool

    constructor ()
      ensures crossReferences == [] && bookmarks == []
      ensures captions == null && footnotes == null && !hasToc
    {
      crossReferences := [];
      bookmarks := [];
      captions := null;
      footnotes := null;
      hasToc := false;
    }

    /** Bookmark names are unique; `add_bookmark` keeps them so. */
    predicate NamesUnique()
      reads this
    {
      forall i, j :: 0 <= i < j < |bookmarks| ==> bookmarks[i].name != bookmarks[j].name
    }

    /** `set_managers`. */
    method SetManagers(c: Captions.CaptionsManager?, f: Footnotes.FootnotesManager?, toc: bool)
      modifies this
      ensures captions == c && footnotes == f && hasToc == toc
      ensures crossReferences == old(crossReferences) && bookmarks == old(bookmarks)
    {
      captions := c;
      footnotes := f;
      hasToc := toc;
    }

    /** `get_bookmark_by_id`: the first bookmark with that id. */
    function BookmarkById(id: string): (r: Option<Bookmark>)
      reads this
      ensures r.Some? ==> r.value in bookmarks && r.value.id == id
      ensures r.None? <==> forall i :: 0 <= i < |bookmarks| ==> bookmarks[i].id != id
    {
      match FirstIndex(bookmarks, BookmarkHasId(id))
      case None => None
      case Some(i) => Some(bookmarks[i])
    }

    /** `get_bookmark_by_name`: the first bookmark with that name. */
    function BookmarkByName(name: string): (r: Option<Bookmark>)
      reads this
      ensures r.Some? ==> r.value in bookmarks && r.value.name == name
      ensures r.None? <==> forall i :: 0 <= i < |bookmarks| ==> bookmarks[i].name != name
    {
      match FirstIndex(bookmarks, BookmarkHasName(name))
      case None => None
      case Some(i) => Some(bookmarks[i])
    }

    /** `add_bookmark` with the position and selection length already
        taken from the cursor: refused (None, nothing changes) when the
        name is taken, otherwise appended. */
    method AddBookmark(id: string, name: string, position: int, length: int, now: string) returns (b: Option<Bookmark>)
      modifies this
      ensures old(BookmarkByName(name)).Some? ==> b.None? && bookmarks == old(bookmarks)
      ensures old(BookmarkByName(name)).None? ==>
        b == Some(Bookmark(id, name, position, length, now)) && bookmarks == old(bookmarks) + [b.value]
      ensures old(NamesUnique()) ==> NamesUnique()
      ensures crossReferences == old(crossReferences)
      ensures captions == old(captions) && footnotes == old(footnotes) && hasToc == old(hasToc)
    {
      if BookmarkByName(name).Some? {
        return None;
      }
      var bookmark := Bookmark(id, name, position, length, now);
      bookmarks := bookmarks + [bookmark];
      b := Some(bookmark);
    }

    /** `delete_bookmark`: drops the first bookmark with the id and every
        cross-reference to it; False, with nothing changed, for an
        unknown id. */
    method DeleteBookmark(bookmarkId: string) returns (ok: bool)
      modifies this
      ensures ok <==> old(BookmarkById(bookmarkId)).Some?
      ensures !ok ==> bookmarks == old(bookmarks) && crossReferences == old(crossReferences)
      ensures ok ==> (exists k :: 0 <= k < |old(bookmarks)| && old(bookmarks)[k].id == bookmarkId &&
                        (forall j :: 0 <= j < k ==> old(bookmarks)[j].id != bookmarkId) &&
                        bookmarks == RemoveAt(old(bookmarks), k))
      ensures ok ==> crossReferences == Filter(old(crossReferences), NotTargeting(bookmarkId))
      ensures captions == old(captions) && footnotes == old(footnotes) && hasToc == old(hasToc)
    {
      match FirstIndex(bookmarks, BookmarkHasId(bookmarkId)) {
        case None =>
          return false;
        case Some(k) =>
          crossReferences := Filter(crossReferences, NotTargeting(bookmarkId));
          bookmarks := RemoveAt(bookmarks, k);
          return true;
      }
    }

    /** `delete_cross_reference`: drops the first reference with the id;
        False, with nothing changed, for an unknown id. */
    method DeleteCrossReference(refId: string) returns (ok: bool)
      modifies this
      ensures ok <==> exists i :: 0 <= i < |old(crossReferences)| && old(crossReferences)[i].id == refId
      ensures !ok ==> crossReferences == old(crossReferences)
      ensures ok ==> (exists k :: 0 <= k < |old(crossReferences)| && old(crossReferences)[k].id == refId &&
                        (forall j :: 0 <= j < k ==> old(crossReferences)[j].id != refId) &&
                        crossReferences == RemoveAt(old(crossReferences), k))
      ensures bookmarks == old(bookmarks)
      ensures captions == old(captions) && footnotes == old(footnotes) && hasToc == old(hasToc)
    {
      match FirstIndex(crossReferences, RefHasId(refId)) {
        case None =>
          return false;
        case Some(k) =>
          crossReferences := RemoveAt(crossReferences, k);
          return true;
      }
    }

    /** `_get_reference_text` for a bookmark target. */
    function BookmarkText(r: CrossRef, doc: string): string
      reads this
    {
      match BookmarkById(r.targetId)
      case None => "[Invalid Bookmark]"
      case Some(b) =>
        if r.referenceType == "text" then SelectedText(doc, b.position, b.length)
        else if r.referenceType == "page" then PageText(b.position)
        else b.name
    }

    /** `_get_reference_text` for a figure, table, equation or listing. */
    function CaptionText(r: CrossRef): string
      reads this, captions
    {
      if captions == null then "[No Caption Manager]"
      else
        match captions.GetCaptionById(r.targetId)
        case None => "[Invalid Caption]"
        case Some(c) =>
          var prefix := captions.PrefixFor(c.captionType);
          var number := c.FormattedNumber(captions.numberingStyle, captions.includeChapter);
          if r.referenceType == "number" then prefix + " " + number
          else if r.referenceType == "page" then PageText(c.position)
          else if r.referenceType == "text" then c.text
          else if r.referenceType == "number_and_page" then prefix + " " + number + " on page " + IntToString(PageOf(c.position))
          else if r.referenceType == "full" then prefix + " " + number + ": " + c.text
          else UnknownReference
    }

    /** `_get_reference_text` for a footnote target. */
    function FootnoteText(r: CrossRef): string
      reads this, footnotes
    {
      if footnotes == null then "[No Footnotes Manager]"
      else
        match footnotes.GetNoteById(r.targetId)
        case None => "[Invalid Footnote]"
        case Some(n) =>
          if r.referenceType == "number" then MarkText(n)
          else if r.referenceType == "text" then n.text
          else if r.referenceType == "page" then PageText(n.position)
          else UnknownReference
    }

    /** `_get_reference_text`, with `doc` the document's text. */
    function ReferenceText(r: CrossRef, doc: string): string
      reads this, captions, footnotes
    {
      if r.targetType == "bookmark" then BookmarkText(r, doc)
      else if IsCaptionTarget(r.targetType) then CaptionText(r)
      else if r.targetType == "heading" then (if hasToc then "[Invalid Heading]" else "[No TOC Manager]")
      else if r.targetType == "footnote" then FootnoteText(r)
      else UnknownReference
    }

    /** `insert_cross_reference` with the position already taken from the
        cursor: the reference is always recorded, and returned when its
        text is non-empty. */
    method InsertCrossReference(id: string, targetType: string, targetId: string, referenceType: string,
                                position: int, now: string, doc: string) returns (r: Option<CrossRef>)
      modifies this
      ensures crossReferences == old(crossReferences) + [CrossRef(id, targetType, targetId, referenceType, position, now)]
      ensures r.Some? <==> ReferenceText(CrossRef(id, targetType, targetId, referenceType, position, now), doc) != []
      ensures r.Some? ==> r.value == CrossRef(id, targetType, targetId, referenceType, position, now)
      ensures bookmarks == old(bookmarks)
      ensures captions == old(captions) && footnotes == old(footnotes) && hasToc == old(hasToc)
    {
      var crossRef := CrossRef(id, targetType, targetId, referenceType, position, now);
      crossReferences := crossReferences + [crossRef];
      var text := ReferenceText(crossRef, doc);
      r := if text != [] then Some(crossRef) else None;
    }

    /** The references among `rs` whose text is bracketed, in order. */
    function BrokenAmong(rs: seq<CrossRef>, doc: string): (out: seq<CrossRef>)
      reads this, captions, footnotes
      ensures forall x :: x in out <==> x in rs && Bracketed(ReferenceText(x, doc))
    {
      if rs == [] then []
      else
        var last := rs[|rs| - 1];
        BrokenAmong(rs[..|rs| - 1], doc) + if Bracketed(ReferenceText(last, doc)) then [last] else []
    }

    /** How many of `rs` have a non-empty text not starting with `[`. */
    function ResolvedCount(rs: seq<CrossRef>, doc: string): (n: nat)
      reads this, captions, footnotes
      ensures n <= |rs|
    {
      if rs == [] then 0
      else ResolvedCount(rs[..|rs| - 1], doc) + if Resolved(ReferenceText(rs[|rs| - 1], doc)) then 1 else 0
    }

    /** No reference is both broken and updated, so the two together
        never exceed the number of references. */
    lemma {:induction false} BrokenPlusResolved(rs: seq<CrossRef>, doc: string)
      ensures |BrokenAmong(rs, doc)| + ResolvedCount(rs, doc) <= |rs|
    {
      if rs != [] {
        BrokenPlusResolved(rs[..|rs| - 1], doc);
        ResolvedNotBracketed(ReferenceText(rs[|rs| - 1], doc));
      }
    }

    /** `find_broken_references`. */
    method FindBrokenReferences(doc: string) returns (broken: seq<CrossRef>)
      ensures broken == BrokenAmong(crossReferences, doc)
    {
      broken := [];
      var i := 0;
      while i < |crossReferences|
        invariant 0 <= i <= |crossReferences|
        invariant broken == BrokenAmong(crossReferences[..i], doc)
      {
        var crossRef := crossReferences[i];
        var text := ReferenceText(crossRef, doc);
        assert crossReferences[..i + 1][..i] == crossReferences[..i];
        if StartsWith(text, "[") && EndsWith(text, "]") {
          broken := broken + [crossRef];
        }
        i := i + 1;
      }
      assert crossReferences[..i] == crossReferences;
    }

    /** `update_cross_references`: the number of references whose text
        resolves. */
    method UpdateCrossReferences(doc: string) returns (count: nat)
      ensures count == ResolvedCount(crossReferences, doc)
    {
      count := 0;
      var i := 0;
      while i < |crossReferences|
        invariant 0 <= i <= |crossReferences|
        invariant count == ResolvedCount(crossReferences[..i], doc)
      {
        var text := ReferenceText(crossReferences[i], doc);
        assert crossReferences[..i + 1][..i] == crossReferences[..i];
        if text != [] && !StartsWith(text, "[") {
          count := count + 1;
        }
        i := i + 1;
      }
      assert crossReferences[..i] == crossReferences;
    }

    /** Whether the target of `r` exists: the intent that
        `find_broken_references` states for itself. */
    predicate TargetExists(r: CrossRef)
      reads this, captions, footnotes
    {
      if r.targetType == "bookmark" then BookmarkById(r.targetId).Some?
      else if IsCaptionTarget(r.targetType) then captions != null && captions.GetCaptionById(r.targetId).Some?
      else if r.targetType == "footnote" then footnotes != null && footnotes.GetNoteById(r.targetId).Some?
      else false
    }

    /** The references among `rs` whose target does not exist. */
    function MissingAmong(rs: seq<CrossRef>): (out: seq<CrossRef>)
      reads this, captions, footnotes
      ensures forall x :: x in out <==> x in rs && !TargetExists(x)
    {
      if rs == [] then []
      else
        var last := rs[|rs| - 1];
        MissingAmong(rs[..|rs| - 1]) + if !TargetExists(last) then [last] else []
    }

    /** `find_broken_references` as its documentation describes it: the
        references whose target does not exist. */
    method FindMissingTargets() returns (missing: seq<CrossRef>)
      ensures missing == MissingAmong(crossReferences)
    {
      missing := [];
      var i := 0;
      while i < |crossReferences|
        invariant 0 <= i <= |crossReferences|
        invariant missing == MissingAmong(crossReferences[..i])
      {
        var crossRef := crossReferences[i];
        assert crossReferences[..i + 1][..i] == crossReferences[..i];
        if !TargetExists(crossRef) {
          missing := missing + [crossRef];
        }
        i := i + 1;
      }
      assert crossReferences[..i] == crossReferences;
    }

    /** A reference whose target is missing always reads as bracketed, so
        the text test finds every reference the intended test finds. */
    lemma MissingIsBracketed(r: CrossRef, doc: string)
      requires !TargetExists(r)
      ensures Bracketed(ReferenceText(r, doc))
    {
    }

    /** Heading references never resolve. */
    lemma HeadingNeverResolves(r: CrossRef, doc: string)
      requires r.targetType == "heading"
      ensures ReferenceText(r, doc) == (if hasToc then "[Invalid Heading]" else "[No TOC Manager]")
      ensures !TargetExists(r)
    {
    }
  }

  /** The text test also flags a reference whose target exists: a
      bookmark named "[Draft]", referred to by name. */
  lemma BracketedNameFlagged(m: CrossReferencesManager, doc: string)
    requires m.bookmarks == [Bookmark("b1", "[Draft]", 0, 0, "")]
    ensures var r := CrossRef("r1", "bookmark", "b1", "number", 0, "");
      m.TargetExists(r) && Bracketed(m.ReferenceText(r, doc))
  {
    var r := CrossRef("r1", "bookmark", "b1", "number", 0, "");
    assert m.bookmarks[0].id == "b1";
    assert m.BookmarkById("b1") == Some(Bookmark("b1", "[Draft]", 0, 0, ""));
    assert m.ReferenceText(r, doc) == "[Draft]";
  }
}
