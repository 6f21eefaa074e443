/** The table of contents of `pyword/pyword/features/references.py`: the
    entry tree, its serialisation, the `#`-heading rule, the stack-based
    hierarchy builder, the preorder flattening and the text and Markdown
    exports. Reading headings out of the Qt document is not modelled; the
    builder takes the scanned headings as its input. */
module References {
  import opened Common
  import opened Json

  /** `TOCEntry`; the `children` list is part of the value. */
  datatype Entry = Entry(text: string, level: int, position: int, pageNumber: int, children: seq<Entry>)

  // ---------------------------------------------------------------
  // `to_dict` / `from_dict`
  // ---------------------------------------------------------------

  function EntryToDict(e: Entry): (d: Dict)
    ensures d.Keys == {"text", "level", "position", "page_number", "children"}
    decreases e
  {
    map["text" := Str(e.text), "level" := Int(e.level), "position" := Int(e.position),
        "page_number" := Int(e.pageNumber), "children" := Arr(EntriesToValues(e.children))]
  }

  function EntriesToValues(es: seq<Entry>): (vs: seq<Value>)
    ensures |vs| == |es|
    decreases es
  {
    if es == [] then [] else [Obj(EntryToDict(es[0]))] + EntriesToValues(es[1..])
  }

  /** Nesting depth: a leaf has height 1. */
  function Height(e: Entry): nat
    decreases e
  {
    1 + Heights(e.children)
  }

  function Heights(es: seq<Entry>): nat
    decreases es
  {
    if es == [] then 0
    else
      var h := Height(es[0]);
      var t := Heights(es[1..]);
      if h >= t then h else t
  }

  /** `TOCEntry.from_dict`: None where the source raises (a missing
      `text`, `level` or `position`, a child that is not a dict);
      `page_number` defaults to 1 and `children` to none. Nesting deeper
      than `fuel` reads as None. */
  function EntryFromDict(d: Dict, fuel: nat): (r: Option<Entry>)
    ensures r.Some? ==> "text" in d && "level" in d && "position" in d
    ensures r.Some? ==> r.value.pageNumber == GetInt(d, "page_number", 1)
    decreases fuel, 0
  {
    if fuel == 0 || "text" !in d || "level" !in d || "position" !in d then None
    else
      match EntriesFromValues(GetArr(d, "children"), fuel - 1)
      case None => None
      case Some(cs) =>
        Some(Entry(GetStr(d, "text", ""), GetInt(d, "level", 0), GetInt(d, "position", 0), GetInt(d, "page_number", 1), cs))
  }

  function EntriesFromValues(vs: seq<Value>, fuel: nat): (r: Option<seq<Entry>>)
    ensures r.Some? ==> |r.value| == |vs|
    decreases fuel, |vs| + 1
  {
    if vs == [] then Some([])
    else if !vs[0].Obj? then None
    else
      match EntryFromDict(vs[0].fields, fuel)
      case None => None
      case Some(e) =>
        match EntriesFromValues(vs[1..], fuel)
        case None => None
        case Some(rest) => Some([e] + rest)
  }

  /** `from_dict(to_dict(e))` restores the whole tree. */
  lemma {:induction false} EntryRoundTrip(e: Entry, fuel: nat)
    requires fuel >= Height(e)
    ensures EntryFromDict(EntryToDict(e), fuel) == Some(e)
    decreases e
  {
    EntriesRoundTrip(e.children, fuel - 1);
  }

  lemma {:induction false} EntriesRoundTrip(es: seq<Entry>, fuel: nat)
    requires fuel >= Heights(es)
    ensures EntriesFromValues(EntriesToValues(es), fuel) == Some(es)
    decreases es
  {
    if es != [] {
      var vs := EntriesToValues(es);
      assert vs[0] == Obj(EntryToDict(es[0]));
      assert vs[1..] == EntriesToValues(es[1..]);
      EntryRoundTrip(es[0], fuel);
      EntriesRoundTrip(es[1..], fuel);
      assert [es[0]] + es[1..] == es;
    }
  }

  /** A missing key makes `from_dict` fail. */
  lemma MissingKeyFails(e: Entry, fuel: nat)
    ensures EntryFromDict(EntryToDict(e) - {"text"}, fuel) == None
    ensures EntryFromDict(EntryToDict(e) - {"position"}, fuel) == None
  {
  }

  // ---------------------------------------------------------------
  // `get_entries_flat`
  // ---------------------------------------------------------------

  /** Preorder: each entry, then its children's entries, then its later
      siblings'. */
  function Flatten(es: seq<Entry>): (r: seq<Entry>)
    ensures |r| >= |es|
    decreases es
  {
    if es == [] then [] else FlattenEntry(es[0]) + Flatten(es[1..])
  }

  function FlattenEntry(e: Entry): (r: seq<Entry>)
    ensures r != [] && r[0] == e
    decreases e
  {
    [e] + Flatten(e.children)
  }

  lemma {:induction false} FlattenAppend(a: seq<Entry>, b: seq<Entry>)
    ensures Flatten(a + b) == Flatten(a) + Flatten(b)
  {
    if a == [] {
      assert a + b == b;
    } else {
      assert (a + b)[1..] == a[1..] + b;
      FlattenAppend(a[1..], b);
      AppendAssoc(FlattenEntry(a[0]), Flatten(a[1..]), Flatten(b));
    }
  }

  lemma FlattenStep(es: seq<Entry>, i: nat)
    requires i < |es|
    ensures Flatten(es[..i + 1]) == Flatten(es[..i]) + FlattenEntry(es[i])
  {
    TakeSnoc(es, i);
    FlattenAppend(es[..i], [es[i]]);
    assert [es[i]][1..] == [];
  }

  /** The nested `flatten` helper: it appends each entry and then,
      recursively, its children. */
  method FlattenInto(es: seq<Entry>, acc: seq<Entry>) returns (out: seq<Entry>)
    ensures out == acc + Flatten(es)
    decreases es
  {
    out := acc;
    for i := 0 to |es|
      invariant out == acc + Flatten(es[..i])
    {
      var entry := es[i];
      FlattenStep(es, i);
      AppendAssoc(acc, Flatten(es[..i]), FlattenEntry(entry));
      out := out + [entry];
      if entry.children != [] {
        out := FlattenInto(entry.children, out);
      }
      AppendAssoc(acc + Flatten(es[..i]), [entry], Flatten(entry.children));
    }
    TakeAll(es);
  }

  /** `get_entries_flat` */
  method GetEntriesFlat(entries: seq<Entry>) returns (flat: seq<Entry>)
    ensures flat == Flatten(entries)
  {
    flat := FlattenInto(entries, []);
  }

  /** Every entry of the forest, at any depth, is in the flat list. */
  lemma {:induction false} FlattenContains(es: seq<Entry>, i: nat)
    requires i < |es|
    ensures es[i] in Flatten(es)
    ensures forall c :: c in es[i].children ==> c in Flatten(es)
    decreases es
  {
    if i == 0 {
      forall c | c in es[0].children
        ensures c in Flatten(es)
      {
        var j :| 0 <= j < |es[0].children| && es[0].children[j] == c;
        FlattenContains(es[0].children, j);
      }
    } else {
      FlattenContains(es[1..], i - 1);
      assert es[1..][i - 1] == es[i];
    }
  }

  // ---------------------------------------------------------------
  // `_export_text` and `_export_markdown`
  // ---------------------------------------------------------------

  function Indent(depth: nat): string { Repeat("  ", depth) }

  /** The line `_export_text` writes for an entry at `depth`. */
  function TextLine(e: Entry, depth: nat, showPageNumbers: bool): string
  {
    if showPageNumbers then Indent(depth) + e.text + " ... " + IntToString(e.pageNumber)
    else Indent(depth) + e.text
  }

  /** The line `_export_markdown` writes for an entry at `depth`. */
  function MarkdownLine(e: Entry, depth: nat): string
  {
    Indent(depth) + "- [" + e.text + "](#pos_" + IntToString(e.position) + ")"
  }

  /** Preorder with each entry's depth below the top level. */
  function WithDepth(es: seq<Entry>, depth: nat): (r: seq<(Entry, nat)>)
    decreases es
  {
    if es == [] then [] else EntryWithDepth(es[0], depth) + WithDepth(es[1..], depth)
  }

  function EntryWithDepth(e: Entry, depth: nat): (r: seq<(Entry, nat)>)
    decreases e
  {
    [(e, depth)] + WithDepth(e.children, depth + 1)
  }

  /** The depth-annotated preorder lists exactly the flat entries. */
  lemma {:induction false} WithDepthFlatten(es: seq<Entry>, depth: nat)
    ensures |WithDepth(es, depth)| == |Flatten(es)|
    ensures forall t :: 0 <= t < |Flatten(es)| ==> WithDepth(es, depth)[t].0 == Flatten(es)[t]
    decreases es
  {
    if es != [] {
      WithDepthFlatten(es[0].children, depth + 1);
      WithDepthFlatten(es[1..], depth);
    }
  }

  /** The lines of `process_entries` in `_export_markdown`. */
  function MarkdownLines(es: seq<Entry>, depth: nat): seq<string>
    decreases es
  {
    if es == [] then [] else MarkdownEntry(es[0], depth) + MarkdownLines(es[1..], depth)
  }

  function MarkdownEntry(e: Entry, depth: nat): seq<string>
    decreases e
  {
    [MarkdownLine(e, depth)] + MarkdownLines(e.children, depth + 1)
  }

  /** One Markdown line per entry in preorder, indented two spaces per
      level of depth. */
  lemma {:induction false} MarkdownLinesPreorder(es: seq<Entry>, depth: nat)
    ensures |MarkdownLines(es, depth)| == |WithDepth(es, depth)|
    ensures forall t :: 0 <= t < |WithDepth(es, depth)| ==>
      MarkdownLines(es, depth)[t] == MarkdownLine(WithDepth(es, depth)[t].0, WithDepth(es, depth)[t].1)
    decreases es
  {
    if es != [] {
      var e, f := es[0], (x: Entry, d: nat) => MarkdownLine(x, d);
      MarkdownLinesPreorder(e.children, depth + 1);
      MarkdownLinesPreorder(es[1..], depth);
      LinesOfAppend([MarkdownLine(e, depth)], MarkdownLines(e.children, depth + 1), [(e, depth)], WithDepth(e.children, depth + 1), f);
      LinesOfAppend(MarkdownEntry(e, depth), MarkdownLines(es[1..], depth), EntryWithDepth(e, depth), WithDepth(es[1..], depth), f);
    }
  }

  /** `lines` are the lines `f` writes for the entries and depths of `ps`. */
  predicate LinesOf(lines: seq<string>, ps: seq<(Entry, nat)>, f: (Entry, nat) -> string)
  {
    |lines| == |ps| && forall t :: 0 <= t < |ps| ==> lines[t] == f(ps[t].0, ps[t].1)
  }

  lemma LinesOfAppend(a: seq<string>, b: seq<string>, pa: seq<(Entry, nat)>, pb: seq<(Entry, nat)>, f: (Entry, nat) -> string)
    requires LinesOf(a, pa, f) && LinesOf(b, pb, f)
    ensures LinesOf(a + b, pa + pb, f)
  {
    forall t | 0 <= t < |pa + pb| ensures (a + b)[t] == f((pa + pb)[t].0, (pa + pb)[t].1) {
      if t < |pa| {
        assert (a + b)[t] == a[t] && (pa + pb)[t] == pa[t];
      } else {
        assert (a + b)[t] == b[t - |a|] && (pa + pb)[t] == pb[t - |pa|];
      }
    }
  }

  function TextLines(es: seq<Entry>, depth: nat, showPageNumbers: bool): seq<string>
    decreases es
  {
    if es == [] then [] else TextEntry(es[0], depth, showPageNumbers) + TextLines(es[1..], depth, showPageNumbers)
  }

  function TextEntry(e: Entry, depth: nat, showPageNumbers: bool): seq<string>
    decreases e
  {
    [TextLine(e, depth, showPageNumbers)] + TextLines(e.children, depth + 1, showPageNumbers)
  }

  /** One text line per entry in preorder. */
  lemma {:induction false} TextLinesPreorder(es: seq<Entry>, depth: nat, showPageNumbers: bool)
    ensures |TextLines(es, depth, showPageNumbers)| == |WithDepth(es, depth)|
    ensures forall t :: 0 <= t < |WithDepth(es, depth)| ==>
      TextLines(es, depth, showPageNumbers)[t] == TextLine(WithDepth(es, depth)[t].0, WithDepth(es, depth)[t].1, showPageNumbers)
    decreases es
  {
    if es != [] {
      var e, f := es[0], (x: Entry, d: nat) => TextLine(x, d, showPageNumbers);
      TextLinesPreorder(e.children, depth + 1, showPageNumbers);
      TextLinesPreorder(es[1..], depth, showPageNumbers);
      LinesOfAppend([TextLine(e, depth, showPageNumbers)], TextLines(e.children, depth + 1, showPageNumbers),
                    [(e, depth)], WithDepth(e.children, depth + 1), f);
      LinesOfAppend(TextEntry(e, depth, showPageNumbers), TextLines(es[1..], depth, showPageNumbers),
                    EntryWithDepth(e, depth), WithDepth(es[1..], depth), f);
    }
  }

  lemma {:induction false} MarkdownLinesAppend(a: seq<Entry>, b: seq<Entry>, depth: nat)
    ensures MarkdownLines(a + b, depth) == MarkdownLines(a, depth) + MarkdownLines(b, depth)
  {
    if a == [] {
      assert a + b == b;
    } else {
      assert (a + b)[1..] == a[1..] + b;
      MarkdownLinesAppend(a[1..], b, depth);
      AppendAssoc(MarkdownEntry(a[0], depth), MarkdownLines(a[1..], depth), MarkdownLines(b, depth));
    }
  }

  lemma {:induction false} TextLinesAppend(a: seq<Entry>, b: seq<Entry>, depth: nat, show: bool)
    ensures TextLines(a + b, depth, show) == TextLines(a, depth, show) + TextLines(b, depth, show)
  {
    if a == [] {
      assert a + b == b;
    } else {
      assert (a + b)[1..] == a[1..] + b;
      TextLinesAppend(a[1..], b, depth, show);
      AppendAssoc(TextEntry(a[0], depth, show), TextLines(a[1..], depth, show), TextLines(b, depth, show));
    }
  }

  lemma MarkdownStep(es: seq<Entry>, i: nat, depth: nat)
    requires i < |es|
    ensures MarkdownLines(es[..i + 1], depth) == MarkdownLines(es[..i], depth) + MarkdownEntry(es[i], depth)
  {
    TakeSnoc(es, i);
    MarkdownLinesAppend(es[..i], [es[i]], depth);
    assert [es[i]][1..] == [];
  }

  lemma TextStep(es: seq<Entry>, i: nat, depth: nat, show: bool)
    requires i < |es|
    ensures TextLines(es[..i + 1], depth, show) == TextLines(es[..i], depth, show) + TextEntry(es[i], depth, show)
  {
    TakeSnoc(es, i);
    TextLinesAppend(es[..i], [es[i]], depth, show);
    assert [es[i]][1..] == [];
  }

  /** `process_entries` of `_export_markdown`. */
  method MarkdownInto(es: seq<Entry>, depth: nat, lines: seq<string>) returns (out: seq<string>)
    ensures out == lines + MarkdownLines(es, depth)
    decreases es
  {
    out := lines;
    for i := 0 to |es|
      invariant out == lines + MarkdownLines(es[..i], depth)
    {
      var entry := es[i];
      MarkdownStep(es, i, depth);
      var prior := out;
      out := out + [Indent(depth) + "- [" + entry.text + "](#pos_" + IntToString(entry.position) + ")"];
      if entry.children != [] {
        out := MarkdownInto(entry.children, depth + 1, out);
      }
      AppendAssoc(prior, [MarkdownLine(entry, depth)], MarkdownLines(entry.children, depth + 1));
      AppendAssoc(lines, MarkdownLines(es[..i], depth), MarkdownEntry(entry, depth));
    }
    TakeAll(es);
  }

  /** `process_entries` of `_export_text`. */
  method TextInto(es: seq<Entry>, depth: nat, showPageNumbers: bool, lines: seq<string>) returns (out: seq<string>)
    ensures out == lines + TextLines(es, depth, showPageNumbers)
    decreases es
  {
    out := lines;
    for i := 0 to |es|
      invariant out == lines + TextLines(es[..i], depth, showPageNumbers)
    {
      var entry := es[i];
      TextStep(es, i, depth, showPageNumbers);
      var prior := out;
      var indent := Repeat("  ", depth);
      if showPageNumbers {
        out := out + [indent + entry.text + " ... " + IntToString(entry.pageNumber)];
      } else {
        out := out + [indent + entry.text];
      }
      if entry.children != [] {
        out := TextInto(entry.children, depth + 1, showPageNumbers, out);
      }
      AppendAssoc(prior, [TextLine(entry, depth, showPageNumbers)], TextLines(entry.children, depth + 1, showPageNumbers));
      AppendAssoc(lines, TextLines(es[..i], depth, showPageNumbers), TextEntry(entry, depth, showPageNumbers));
    }
    TakeAll(es);
  }

  const TextTitle: string := "Table of Contents\n"
  const MarkdownTitle: string := "# Table of Contents\n"

  /** `_export_text` over the current entries. */
  method ExportText(entries: seq<Entry>, showPageNumbers: bool) returns (s: string)
    ensures s == Join("\n", [TextTitle] + TextLines(entries, 0, showPageNumbers))
  {
    var lines := TextInto(entries, 0, showPageNumbers, [TextTitle]);
    s := Join("\n", lines);
  }

  /** `_export_markdown` over the current entries. */
  method ExportMarkdown(entries: seq<Entry>) returns (s: string)
    ensures s == Join("\n", [MarkdownTitle] + MarkdownLines(entries, 0))
  {
    var lines := MarkdownInto(entries, 0, [MarkdownTitle]);
    s := Join("\n", lines);
  }

  /** Both exports open with their title line. */
  lemma ExportsOpenWithTitle(entries: seq<Entry>, show: bool)
    ensures StartsWith(Join("\n", [MarkdownTitle] + MarkdownLines(entries, 0)), MarkdownTitle)
    ensures StartsWith(Join("\n", [TextTitle] + TextLines(entries, 0, show)), TextTitle)
  {
    JoinStartsWith("\n", [MarkdownTitle] + MarkdownLines(entries, 0));
    JoinStartsWith("\n", [TextTitle] + TextLines(entries, 0, show));
  }

  // ---------------------------------------------------------------
  // `_get_heading_level`, the `#` branch
  // ---------------------------------------------------------------

  /** The `#` test of `_get_heading_level` on a block's text: None when
      the stripped text does not start with `#` (the source then goes on
      to the font checks, which are not modelled), otherwise the number of
      leading `#` characters, at most 9. */
  method HashHeadingLevel(blockText: string) returns (level: Option<int>)
    ensures level.Some? <==> Strip(blockText) != [] && Strip(blockText)[0] == '#'
    ensures level.Some? ==> 1 <= level.value <= 9
    ensures level.Some? ==> exists n :: LeadingHashes(Strip(blockText), n) && level.value == (if n < 9 then n else 9)
  {
    var text := Strip(blockText);
    if !(text != [] && text[0] == '#') {
      return None;
    }
    var count := 0;
    while count < |text| && text[count] == '#'
      invariant 0 <= count <= |text|
      invariant forall j :: 0 <= j < count ==> text[j] == '#'
    {
      count := count + 1;
    }
    level := Some(if count < 9 then count else 9);
    assert LeadingHashes(text, count);
  }

  /** `s` starts with exactly `n` copies of `#`. */
  predicate LeadingHashes(s: string, n: int)
  {
    0 < n <= |s| && (forall j :: 0 <= j < n ==> s[j] == '#') && (n == |s| || s[n] != '#')
  }

  /** At most one count of leading `#` fits a text. */
  lemma LeadingHashesUnique(s: string, n: int, m: int)
    requires LeadingHashes(s, n) && LeadingHashes(s, m)
    ensures n == m
  {
  }

  // ---------------------------------------------------------------
  // `_build_hierarchy`
  // ---------------------------------------------------------------

  /** The levels `_build_hierarchy` can file: `stack[level]` indexes a
      ten-slot list, and scanned headings have a level of at least 1. */
  predicate LevelsInRange(lv: seq<int>)
  {
    forall k :: 0 <= k < |lv| ==> 1 <= lv[k] <= 9
  }

  function Levels(hs: seq<Entry>): (lv: seq<int>)
    ensures |lv| == |hs|
    ensures forall k :: 0 <= k < |hs| ==> lv[k] == hs[k].level
  {
    seq(|hs|, k requires 0 <= k < |hs| => hs[k].level)
  }

  /** The index of the last level in `p` that is at most `i`, or -1. */
  function LatestAtMost(p: seq<int>, i: int): (r: int)
    ensures -1 <= r < |p|
    ensures r >= 0 ==> p[r] <= i
    ensures forall t :: r < t < |p| ==> p[t] > i
  {
    if p == [] then -1
    else if p[|p| - 1] <= i then |p| - 1
    else LatestAtMost(p[..|p| - 1], i)
  }

  /** The three properties above determine `LatestAtMost`. */
  lemma LatestAtMostUnique(p: seq<int>, i: int, r: int)
    requires -1 <= r < |p|
    requires r >= 0 ==> p[r] <= i
    requires forall t :: r < t < |p| ==> p[t] > i
    ensures LatestAtMost(p, i) == r
  {
  }

  /** The entry that entry `k` is filed under: the nearest earlier entry
      with a strictly lower level, or -1 when there is none (a root). */
  function Parent(lv: seq<int>, k: int): (r: int)
    requires 0 <= k < |lv|
    ensures -1 <= r < k
    ensures r >= 0 ==> lv[r] < lv[k]
    ensures forall t :: r < t < k ==> lv[t] >= lv[k]
  {
    LatestAtMost(lv[..k], lv[k] - 1)
  }

  function LevelAt(lv: seq<int>, j: int): int
    requires -1 <= j < |lv|
  {
    if j < 0 then 0 else lv[j]
  }

  /** Entry `j` (or the root, -1) is the parent of `k` exactly when it
      sits below `k`'s level and no entry strictly between them does. */
  lemma ParentIs(lv: seq<int>, k: int, j: int)
    requires 0 <= k < |lv| && -1 <= j < k
    requires LevelAt(lv, j) < lv[k]
    requires forall t :: j < t < k ==> lv[t] >= lv[k]
    ensures Parent(lv, k) == j
  {
    if j >= 0 {
      LatestAtMostUnique(lv[..k], lv[k] - 1, j);
    } else {
      assert lv[k] >= 1;
      LatestAtMostUnique(lv[..k], lv[k] - 1, -1);
    }
  }

  /** Level-1 entries are always roots. */
  lemma LevelOneIsRoot(lv: seq<int>, k: int)
    requires LevelsInRange(lv) && 0 <= k < |lv| && lv[k] == 1
    ensures Parent(lv, k) == -1
  {
  }

  /** What `stack[i]` holds once the entries with levels `p` are filed:
      the last entry at level `i`, unless a later entry at a level at
      most `i` replaced or cleared it; -1 for `None`. */
  function Slot(p: seq<int>, i: int): (r: int)
    ensures -1 <= r < |p|
    ensures r >= 0 ==> p[r] == i && forall t :: r < t < |p| ==> p[t] > i
  {
    var l := LatestAtMost(p, i);
    if l >= 0 && p[l] == i then l else -1
  }

  /** Filing an entry at level `x` puts it in slot `x`, clears the slots
      above and leaves the slots below alone. */
  lemma SlotSnoc(p: seq<int>, x: int, s: int)
    ensures Slot(p + [x], s) == if s == x then |p| else if s > x then -1 else Slot(p, s)
  {
    assert (p + [x])[..|p|] == p;
  }

  /** Below a level, the slots hold -1 down to the level of the latest
      shallower entry, whose slot holds that entry. */
  lemma SlotsBelow(p: seq<int>, level: int)
    ensures var l := LatestAtMost(p, level - 1);
      (l >= 0 ==> Slot(p, p[l]) == l && forall s :: p[l] < s < level ==> Slot(p, s) == -1) &&
      (l < 0 ==> forall s :: s < level ==> Slot(p, s) == -1)
  {
    var l := LatestAtMost(p, level - 1);
    if l >= 0 {
      LatestAtMostUnique(p, p[l], l);
      forall s | p[l] < s < level
        ensures Slot(p, s) == -1
      {
        LatestAtMostUnique(p, s, l);
      }
    } else {
      forall s | s < level
        ensures Slot(p, s) == -1
      {
        LatestAtMostUnique(p, s, -1);
      }
    }
  }

  /** Scanning the slots downwards from `level - 1`, the first one in
      use holds the parent; if none is in use there is no parent. */
  lemma ParentSearch(p: seq<int>, level: int, i: int)
    requires forall t :: 0 <= t < |p| ==> p[t] >= 1
    requires 0 <= i < level
    requires forall s :: i < s < level ==> Slot(p, s) == -1
    requires i > 0 ==> Slot(p, i) != -1
    ensures (if i > 0 then Slot(p, i) else -1) == LatestAtMost(p, level - 1)
  {
    SlotsBelow(p, level);
  }

  /** The entries among positions `a..e` filed under `j`, in the order
      `_build_hierarchy` appends them. */
  function Kids(lv: seq<int>, j: int, a: int, e: int): (r: seq<int>)
    requires 0 <= a && e <= |lv|
    ensures forall x :: 0 <= x < |r| ==> a <= r[x] < e
    decreases e - a
  {
    if e <= a then [] else Kids(lv, j, a, e - 1) + (if Parent(lv, e - 1) == j then [e - 1] else [])
  }

  /** `Kids` holds exactly the positions in range whose parent is `j`,
      in increasing order. */
  lemma {:induction false} KidsMembers(lv: seq<int>, j: int, a: int, e: int)
    requires 0 <= a && e <= |lv|
    ensures forall m :: m in Kids(lv, j, a, e) <==> a <= m < e && Parent(lv, m) == j
    decreases e - a
  {
    if e > a {
      KidsMembers(lv, j, a, e - 1);
    }
  }

  lemma {:induction false} KidsIncreasing(lv: seq<int>, j: int, a: int, e: int)
    requires 0 <= a && e <= |lv|
    ensures forall x, y :: 0 <= x < y < |Kids(lv, j, a, e)| ==> Kids(lv, j, a, e)[x] < Kids(lv, j, a, e)[y]
    decreases e - a
  {
    if e > a {
      KidsIncreasing(lv, j, a, e - 1);
      var prior, last := Kids(lv, j, a, e - 1), if Parent(lv, e - 1) == j then [e - 1] else [];
      assert Kids(lv, j, a, e) == prior + last;
      IncreasingAppend(prior, last, e - 1);
    }
  }

  /** An increasing sequence below `b`, followed by nothing or by `b`, is
      increasing. */
  lemma IncreasingAppend(s: seq<int>, t: seq<int>, b: int)
    requires forall x, y :: 0 <= x < y < |s| ==> s[x] < s[y]
    requires forall x :: 0 <= x < |s| ==> s[x] < b
    requires t == [] || t == [b]
    ensures forall x, y :: 0 <= x < y < |s + t| ==> (s + t)[x] < (s + t)[y]
  {
    forall x, y | 0 <= x < y < |s + t| ensures (s + t)[x] < (s + t)[y] {
      if y < |s| {
        assert (s + t)[x] == s[x] && (s + t)[y] == s[y];
      } else {
        assert (s + t)[x] == s[x] && (s + t)[y] == b;
      }
    }
  }

  lemma KidsSnoc(lv: seq<int>, j: int, k: int)
    requires 0 <= k < |lv|
    ensures Kids(lv, j, 0, k + 1) == Kids(lv, j, 0, k) + if Parent(lv, k) == j then [k] else []
  {
  }

  lemma {:induction false} KidsSplit(lv: seq<int>, j: int, a: int, m: int, e: int)
    requires 0 <= a <= m <= e <= |lv|
    ensures Kids(lv, j, a, e) == Kids(lv, j, a, m) + Kids(lv, j, m, e)
    decreases e - m
  {
    if e > m {
      KidsSplit(lv, j, a, m, e - 1);
    }
  }

  lemma {:induction false} KidsNone(lv: seq<int>, j: int, a: int, e: int)
    requires 0 <= a && e <= |lv|
    requires forall m :: a <= m < e ==> Parent(lv, m) != j
    ensures Kids(lv, j, a, e) == []
    decreases e - a
  {
    if e > a {
      KidsNone(lv, j, a, e - 1);
    }
  }

  /** The first position after `j` whose level is at most `j`'s (or the
      end): the entries strictly between are the ones nested under `j`. */
  function End(lv: seq<int>, j: int): (r: int)
    requires -1 <= j < |lv|
    ensures j < r <= |lv|
    ensures forall t :: j < t < r ==> lv[t] > LevelAt(lv, j)
    ensures r < |lv| ==> lv[r] <= LevelAt(lv, j)
  {
    EndFrom(lv, j, j + 1)
  }

  function EndFrom(lv: seq<int>, j: int, m: int): (r: int)
    requires -1 <= j < m <= |lv|
    requires forall t :: j < t < m ==> lv[t] > LevelAt(lv, j)
    ensures m <= r <= |lv|
    ensures forall t :: j < t < r ==> lv[t] > LevelAt(lv, j)
    ensures r < |lv| ==> lv[r] <= LevelAt(lv, j)
    decreases |lv| - m
  {
    if m == |lv| || lv[m] <= LevelAt(lv, j) then m else EndFrom(lv, j, m + 1)
  }

  /** A position nested under `a` closes no later than `a` does. */
  lemma EndNested(lv: seq<int>, a: int, c: int)
    requires 0 <= a < |lv| && a < c < End(lv, a)
    ensures End(lv, c) <= End(lv, a)
  {
  }

  /** Every root-level entry is nested under the root. */
  lemma EndOfRoot(lv: seq<int>)
    requires LevelsInRange(lv)
    ensures End(lv, -1) == |lv|
  {
  }

  /** The chain `a`, `End(a)`, `End(End(a))`, ... of positions below `e`. */
  function Chain(lv: seq<int>, a: int, e: int): (r: seq<int>)
    requires 0 <= a && e <= |lv|
    ensures forall x :: 0 <= x < |r| ==> a <= r[x] < e
    decreases e - a
  {
    if a >= e then [] else [a] + Chain(lv, End(lv, a), e)
  }

  /** Nothing between `j` and `a` is shallower than `a`. */
  predicate Visible(lv: seq<int>, j: int, a: int)
    requires -1 <= j && 0 <= a < |lv|
  {
    forall t :: j < t < a ==> lv[t] >= lv[a]
  }

  /** The entry after `a`'s nested run is still nested under `j`, and it
      is visible from `j` too. */
  lemma NextInChain(lv: seq<int>, j: int, a: int)
    requires -1 <= j < |lv| && j < a < End(lv, j) && Visible(lv, j, a)
    ensures End(lv, a) <= End(lv, j)
    ensures End(lv, a) < End(lv, j) ==> Visible(lv, j, End(lv, a))
  {
    var e := End(lv, j);
    var b := End(lv, a);
    if e < |lv| {
      assert lv[e] <= LevelAt(lv, j) < lv[a];
    }
    if b < e {
      assert lv[b] <= lv[a];
    }
  }

  /** A visible entry inside `j` is a child of `j`, and the entries it
      encloses are not. */
  lemma KidsFrom(lv: seq<int>, j: int, a: int)
    requires -1 <= j < |lv| && j < a < End(lv, j) && Visible(lv, j, a)
    requires End(lv, a) <= End(lv, j)
    ensures Kids(lv, j, a, End(lv, j)) == [a] + Kids(lv, j, End(lv, a), End(lv, j))
  {
    var e := End(lv, j);
    var b := End(lv, a);
    KidsSplit(lv, j, a, a + 1, e);
    KidsSplit(lv, j, a + 1, b, e);
    FirstKid(lv, j, a);
    Enclosed(lv, j, a);
    var rest := Kids(lv, j, a + 1, e);
    assert rest == Kids(lv, j, b, e) by {
      assert rest == [] + Kids(lv, j, b, e);
    }
  }

  lemma FirstKid(lv: seq<int>, j: int, a: int)
    requires -1 <= j < |lv| && j < a < End(lv, j) && Visible(lv, j, a)
    ensures Kids(lv, j, a, a + 1) == [a]
  {
    ParentIs(lv, a, j);
  }

  /** The entries nested under a child are not children themselves. */
  lemma Enclosed(lv: seq<int>, j: int, a: int)
    requires -1 <= j < a < |lv|
    ensures Kids(lv, j, a + 1, End(lv, a)) == []
  {
    forall m | a + 1 <= m < End(lv, a)
      ensures Parent(lv, m) != j
    {
      assert lv[m] > lv[a];
    }
    KidsNone(lv, j, a + 1, End(lv, a));
  }

  /** Inside `j`, the children of `j` from a visible position `a` on are
      the chain from `a`. */
  lemma {:induction false} KidsChain(lv: seq<int>, j: int, a: int)
    requires -1 <= j < |lv| && j < a <= End(lv, j)
    requires a < End(lv, j) ==> Visible(lv, j, a)
    ensures Kids(lv, j, a, End(lv, j)) == Chain(lv, a, End(lv, j))
    decreases End(lv, j) - a
  {
    var e := End(lv, j);
    if a < e {
      NextInChain(lv, j, a);
      KidsFrom(lv, j, a);
      KidsChain(lv, j, End(lv, a));
      assert Chain(lv, a, e) == [a] + Chain(lv, End(lv, a), e);
    }
  }

  /** The children `_build_hierarchy` gives entry `j` (or the roots, for
      `j == -1`) are the chain of positions nested directly under it. */
  lemma ChildrenAreChain(lv: seq<int>, j: int)
    requires LevelsInRange(lv) && -1 <= j < |lv|
    ensures Kids(lv, j, 0, |lv|) == Chain(lv, j + 1, End(lv, j))
  {
    var e := End(lv, j);
    KidsSplit(lv, j, 0, j + 1, |lv|);
    KidsSplit(lv, j, j + 1, e, |lv|);
    KidsNone(lv, j, 0, j + 1);
    forall m | e <= m < |lv|
      ensures Parent(lv, m) != j
    {
      if j < 0 {
        EndOfRoot(lv);
      }
    }
    KidsNone(lv, j, e, |lv|);
    KidsChain(lv, j, j + 1);
  }

  /** Every child sits at a strictly deeper level than its parent. */
  lemma ChildDeeper(lv: seq<int>, j: int, c: int)
    requires 0 <= j < |lv|
    requires c in Kids(lv, j, 0, |lv|)
    ensures j < c < |lv| && lv[c] > lv[j]
  {
    KidsMembers(lv, j, 0, |lv|);
  }

  /** The parent search of one iteration: scans `stack` from
      `level - 1` down to 1 and returns the first filled slot, or -1. */
  method FindParent(stack: array<int>, level: int, ghost p: seq<int>) returns (parent: int)
    requires stack.Length == 10 && 1 <= level <= 9
    requires forall t :: 0 <= t < |p| ==> p[t] >= 1
    requires forall s :: 0 <= s < 10 ==> stack[s] == Slot(p, s)
    ensures parent == LatestAtMost(p, level - 1)
  {
    var i := level - 1;
    while i > 0 && stack[i] == -1
      invariant 0 <= i < level
      invariant forall s :: i < s < level ==> stack[s] == -1
    {
      i := i - 1;
    }
    parent := if i > 0 then stack[i] else -1;
    ParentSearch(p, level, i);
  }

  /** `for i in range(level + 1, 10): stack[i] = None`. */
  method ClearAbove(stack: array<int>, level: int)
    requires stack.Length == 10 && 0 <= level
    modifies stack
    ensures forall s :: 0 <= s < 10 ==> stack[s] == if s > level then -1 else old(stack[s])
  {
    var i := level + 1;
    while i < 10
      invariant level + 1 <= i || i == level + 1
      invariant forall s :: 0 <= s < 10 ==> stack[s] == if level < s < i then -1 else old(stack[s])
    {
      stack[i] := -1;
      i := i + 1;
    }
  }

  /** `stack[level] = entry`, then the slots above are cleared: the
      stack now describes the levels `p + [level]`. */
  method FileInStack(stack: array<int>, level: int, k: int, ghost p: seq<int>)
    requires stack.Length == 10 && 0 <= level < 10 && k == |p|
    requires forall s :: 0 <= s < 10 ==> stack[s] == Slot(p, s)
    modifies stack
    ensures forall s :: 0 <= s < 10 ==> stack[s] == Slot(p + [level], s)
  {
    stack[level] := k;
    ClearAbove(stack, level);
    forall s | 0 <= s < 10
      ensures stack[s] == Slot(p + [level], s)
    {
      SlotSnoc(p, level, s);
    }
  }

  /** `_build_hierarchy` on the scanned headings. The result is the
      object graph it leaves: the positions of the root entries and, for
      each entry, the positions of its children, each in the order they
      were appended. */
  method BuildHierarchy(headings: seq<Entry>) returns (roots: seq<int>, children: seq<seq<int>>)
    requires LevelsInRange(Levels(headings))
    ensures |children| == |headings|
    ensures roots == Kids(Levels(headings), -1, 0, |headings|)
    ensures forall j :: 0 <= j < |headings| ==> children[j] == Kids(Levels(headings), j, 0, |headings|)
  {
    var lv := Levels(headings);
    var n := |headings|;
    roots := [];
    children := seq(n, _ => []);
    if n == 0 {
      return;
    }
    var stack := new int[10](_ => -1);
    var k := 0;
    while k < n
      invariant 0 <= k <= n
      invariant |children| == n
      invariant roots == Kids(lv, -1, 0, k)
      invariant forall j :: 0 <= j < n ==> children[j] == Kids(lv, j, 0, k)
      invariant forall s :: 0 <= s < 10 ==> stack[s] == Slot(lv[..k], s)
    {
      roots, children := FileEntry(stack, lv, k, roots, children);
      k := k + 1;
    }
  }

  /** One pass of the loop of `_build_hierarchy`: entry `k` is appended to
      its parent's children, or to the roots, and filed in the stack. */
  method FileEntry(stack: array<int>, lv: seq<int>, k: nat, roots: seq<int>, children: seq<seq<int>>)
    returns (roots': seq<int>, children': seq<seq<int>>)
    requires stack.Length == 10 && LevelsInRange(lv) && k < |lv| && |children| == |lv|
    requires roots == Kids(lv, -1, 0, k)
    requires forall j :: 0 <= j < |lv| ==> children[j] == Kids(lv, j, 0, k)
    requires forall s :: 0 <= s < 10 ==> stack[s] == Slot(lv[..k], s)
    modifies stack
    ensures |children'| == |lv| && roots' == Kids(lv, -1, 0, k + 1)
    ensures forall j :: 0 <= j < |lv| ==> children'[j] == Kids(lv, j, 0, k + 1)
    ensures forall s :: 0 <= s < 10 ==> stack[s] == Slot(lv[..k + 1], s)
  {
    var level := lv[k];
    var parent := FindParent(stack, level, lv[..k]);
    assert parent == Parent(lv, k);
    roots', children' := roots, children;
    if parent >= 0 {
      children' := children[parent := children[parent] + [k]];
    } else {
      roots' := roots + [k];
    }
    ChildrenStep(lv, children, children', k);
    KidsSnoc(lv, -1, k);
    FileInStack(stack, level, k, lv[..k]);
    TakeSnoc(lv, k);
  }

  /** Appending entry `k` to its parent's children keeps every child list
      equal to the children found so far. */
  lemma ChildrenStep(lv: seq<int>, ch: seq<seq<int>>, next: seq<seq<int>>, k: nat)
    requires k < |lv| && |ch| == |lv|
    requires forall j :: 0 <= j < |lv| ==> ch[j] == Kids(lv, j, 0, k)
    requires Parent(lv, k) >= 0 ==> next == ch[Parent(lv, k) := ch[Parent(lv, k)] + [k]]
    requires Parent(lv, k) < 0 ==> next == ch
    ensures |next| == |lv|
    ensures forall j :: 0 <= j < |lv| ==> next[j] == Kids(lv, j, 0, k + 1)
  {
    forall j | 0 <= j < |lv| ensures next[j] == Kids(lv, j, 0, k + 1) {
      KidsSnoc(lv, j, k);
    }
  }

  /** An entry without its children. */
  function Bare(e: Entry): Entry
  {
    e.(children := [])
  }

  function Bares(es: seq<Entry>): (r: seq<Entry>)
    ensures |r| == |es|
  {
    if es == [] then [] else [Bare(es[0])] + Bares(es[1..])
  }

  lemma {:induction false} BaresAppend(a: seq<Entry>, b: seq<Entry>)
    ensures Bares(a + b) == Bares(a) + Bares(b)
  {
    if a != [] {
      assert (a + b)[0] == a[0];
      assert (a + b)[1..] == a[1..] + b;
      BaresAppend(a[1..], b);
      assert Bares(a + b) == [Bare(a[0])] + Bares(a[1..] + b);
      assert Bares(a) == [Bare(a[0])] + Bares(a[1..]);
      AppendAssoc([Bare(a[0])], Bares(a[1..]), Bares(b));
    } else {
      assert a + b == b;
    }
  }

  lemma BaresThree(x: Entry, a: seq<Entry>, b: seq<Entry>)
    ensures Bares([x] + a + b) == [Bare(x)] + Bares(a) + Bares(b)
  {
    BaresAppend([x] + a, b);
    BaresAppend([x], a);
  }

  lemma {:induction false} BaresOfBare(es: seq<Entry>)
    requires forall k :: 0 <= k < |es| ==> es[k].children == []
    ensures Bares(es) == es
  {
    if es != [] {
      BaresOfBare(es[1..]);
    }
  }

  /** Entry `j` with the children the graph gives it, as a value. */
  function TreeAt(hs: seq<Entry>, j: int): (t: Entry)
    requires 0 <= j < |hs|
    decreases |hs| - j, 0
  {
    hs[j].(children := TreesIn(hs, j + 1, End(Levels(hs), j)))
  }

  function TreesIn(hs: seq<Entry>, a: int, e: int): (ts: seq<Entry>)
    requires 0 <= a && e <= |hs|
    decreases |hs| - a, 1
  {
    if a >= e then [] else [TreeAt(hs, a)] + TreesIn(hs, End(Levels(hs), a), e)
  }

  /** The hierarchy `_build_hierarchy` leaves in `entries`, as values. */
  function Forest(hs: seq<Entry>): seq<Entry>
  {
    TreesIn(hs, 0, |hs|)
  }

  lemma {:induction false} TreesInChain(hs: seq<Entry>, a: int, e: int)
    requires 0 <= a && e <= |hs|
    ensures |TreesIn(hs, a, e)| == |Chain(Levels(hs), a, e)|
    ensures forall i :: 0 <= i < |TreesIn(hs, a, e)| ==> TreesIn(hs, a, e)[i] == TreeAt(hs, Chain(Levels(hs), a, e)[i])
    decreases e - a
  {
    if a < e {
      TreesInChain(hs, End(Levels(hs), a), e);
    }
  }

  /** The value hierarchy is the graph `BuildHierarchy` returns: its roots
      are the root entries, and each entry's children are the entries the
      graph lists for it, in the same order. */
  lemma ForestIsGraph(hs: seq<Entry>, j: int)
    requires LevelsInRange(Levels(hs)) && 0 <= j < |hs|
    ensures var roots := Kids(Levels(hs), -1, 0, |hs|);
      |Forest(hs)| == |roots| && forall i :: 0 <= i < |roots| ==> Forest(hs)[i] == TreeAt(hs, roots[i])
    ensures var kids := Kids(Levels(hs), j, 0, |hs|);
      |TreeAt(hs, j).children| == |kids| && forall i :: 0 <= i < |kids| ==> TreeAt(hs, j).children[i] == TreeAt(hs, kids[i])
  {
    ChildrenAreChain(Levels(hs), -1);
    EndOfRoot(Levels(hs));
    TreesInChain(hs, 0, |hs|);
    ChildrenAreChain(Levels(hs), j);
    TreesInChain(hs, j + 1, End(Levels(hs), j));
  }

  /** Flattening the trees from `a` to `e` in preorder gives back the
      entries from `a` to `e`, provided every entry in the range closes
      inside it. */
  lemma {:induction false} TreesPreorder(hs: seq<Entry>, a: int, e: int)
    requires 0 <= a <= e <= |hs|
    requires forall c :: a <= c < e ==> End(Levels(hs), c) <= e
    ensures Bares(Flatten(TreesIn(hs, a, e))) == Bares(hs[a..e])
    decreases e - a
  {
    if a < e {
      var lv := Levels(hs);
      var b := End(lv, a);
      var ts := TreesIn(hs, a, e);
      assert ts[1..] == TreesIn(hs, b, e);
      forall c | a + 1 <= c < b
        ensures End(lv, c) <= b
      {
        EndNested(lv, a, c);
      }
      TreesPreorder(hs, a + 1, b);
      TreesPreorder(hs, b, e);
      var inner := Flatten(TreesIn(hs, a + 1, b));
      var rest := Flatten(TreesIn(hs, b, e));
      assert Flatten(ts) == [TreeAt(hs, a)] + inner + rest;
      SliceThree(hs, a, b, e);
      BaresThree(TreeAt(hs, a), inner, rest);
      BaresThree(hs[a], hs[a + 1..b], hs[b..e]);
    }
  }

  /** `get_entries_flat` after `_build_hierarchy` returns the scanned
      headings in their original order. */
  lemma FlattenForest(hs: seq<Entry>)
    requires forall k :: 0 <= k < |hs| ==> hs[k].children == []
    ensures Bares(Flatten(Forest(hs))) == hs
  {
    TreesPreorder(hs, 0, |hs|);
    assert hs[0..|hs|] == hs;
    BaresOfBare(hs);
  }
}
