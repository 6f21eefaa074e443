/** The citation library, its references in the document and the
    style-specific formatters (`pyword/features/citations.py`). Ids and
    timestamps are parameters; the text insertion through a cursor is
    not modelled. */
module Citations {
  import opened Common
  import opened Json

  /** A citation's `created` attribute: a `datetime` (given by its ISO
      form), or the bare ISO string `edit_citation` leaves behind. */
  datatype Stamp = DateTime(iso: string) | IsoText(text: string)

  datatype Citation = Citation(
    id: string,
    citationType: string,
    author: string,
    title: string,
    year: string,
    publisher: string,
    place: string,
    edition: string,
    isbn: string,
    journal: string,
    volume: string,
    issue: string,
    pages: string,
    doi: string,
    url: string,
    accessDate: string,
    editor: string,
    translator: string,
    notes: string,
    created: Stamp,
    usedCount: int)

  /** `Citation(citation_type)`: every text field empty, never cited. */
  function NewCitation(id: string, citationType: string, now: string): (c: Citation)
    ensures c.id == id && c.citationType == citationType && c.usedCount == 0 && c.created == DateTime(now)
    ensures c.author == "" && c.title == "" && c.year == "" && c.doi == "" && c.pages == ""
  {
    Citation(id, citationType, "", "", "", "", "", "", "", "", "", "", "", "", "", "", "", "", "", DateTime(now), 0)
  }

  /** `CitationReference`: the page number is always 1 when inserted. */
  datatype CitationRef = CitationRef(id: string, citationId: string, position: int, pageNumber: int)

  // ---------------------------------------------------------------
  // Serialisation
  // ---------------------------------------------------------------

  /** `Citation.to_dict`; None where `created` is a string and
      `self.created.isoformat()` raises AttributeError. */
  function CitationToDict(c: Citation): (r: Option<Dict>)
    ensures r.None? <==> c.created.IsoText?
    ensures r.Some? ==> "id" in r.value && "created" in r.value && "used_count" in r.value
  {
    match c.created
    case IsoText(_) => None
    case DateTime(iso) =>
      Some(map[
        "id" := Str(c.id), "citation_type" := Str(c.citationType), "author" := Str(c.author),
        "title" := Str(c.title), "year" := Str(c.year), "publisher" := Str(c.publisher),
        "place" := Str(c.place), "edition" := Str(c.edition), "isbn" := Str(c.isbn),
        "journal" := Str(c.journal), "volume" := Str(c.volume), "issue" := Str(c.issue),
        "pages" := Str(c.pages), "doi" := Str(c.doi), "url" := Str(c.url),
        "access_date" := Str(c.accessDate), "editor" := Str(c.editor), "translator" := Str(c.translator),
        "notes" := Str(c.notes), "created" := Str(iso), "used_count" := Int(c.usedCount)])
  }

  /** `Citation.from_dict`: None without `id` (KeyError); the type
      defaults to "book", text fields to "", the use count to 0 and the
      creation time to `now`. */
  function CitationFromDict(d: Dict, now: string): (r: Option<Citation>)
    ensures r.None? <==> "id" !in d
    ensures r.Some? ==> r.value.created.DateTime?
    ensures r.Some? && "citation_type" !in d ==> r.value.citationType == "book"
    ensures r.Some? && "used_count" !in d ==> r.value.usedCount == 0
  {
    if "id" !in d then None
    else
      Some(Citation(
        GetStr(d, "id", ""), GetStr(d, "citation_type", "book"), GetStr(d, "author", ""),
        GetStr(d, "title", ""), GetStr(d, "year", ""), GetStr(d, "publisher", ""),
        GetStr(d, "place", ""), GetStr(d, "edition", ""), GetStr(d, "isbn", ""),
        GetStr(d, "journal", ""), GetStr(d, "volume", ""), GetStr(d, "issue", ""),
        GetStr(d, "pages", ""), GetStr(d, "doi", ""), GetStr(d, "url", ""),
        GetStr(d, "access_date", ""), GetStr(d, "editor", ""), GetStr(d, "translator", ""),
        GetStr(d, "notes", ""), DateTime(GetStr(d, "created", now)), GetInt(d, "used_count", 0)))
  }

  // The serialised form read back one group of keys at a time.

  lemma LookupsA(c: Citation)
    requires c.created.DateTime?
    ensures var d := CitationToDict(c).value;
      GetStr(d, "id", "") == c.id && GetStr(d, "citation_type", "book") == c.citationType &&
      GetStr(d, "author", "") == c.author && GetStr(d, "title", "") == c.title
  {
  }

  lemma LookupsB(c: Citation)
    requires c.created.DateTime?
    ensures var d := CitationToDict(c).value;
      GetStr(d, "year", "") == c.year && GetStr(d, "publisher", "") == c.publisher &&
      GetStr(d, "place", "") == c.place && GetStr(d, "edition", "") == c.edition
  {
  }

  lemma LookupsC(c: Citation)
    requires c.created.DateTime?
    ensures var d := CitationToDict(c).value;
      GetStr(d, "isbn", "") == c.isbn && GetStr(d, "journal", "") == c.journal &&
      GetStr(d, "volume", "") == c.volume && GetStr(d, "issue", "") == c.issue
  {
  }

  lemma LookupsD(c: Citation)
    requires c.created.DateTime?
    ensures var d := CitationToDict(c).value;
      GetStr(d, "pages", "") == c.pages && GetStr(d, "doi", "") == c.doi &&
      GetStr(d, "url", "") == c.url && GetStr(d, "access_date", "") == c.accessDate
  {
  }

  lemma LookupsE(c: Citation, now: string)
    requires c.created.DateTime?
    ensures var d := CitationToDict(c).value;
      GetStr(d, "editor", "") == c.editor && GetStr(d, "translator", "") == c.translator &&
      GetStr(d, "notes", "") == c.notes && GetStr(d, "created", now) == c.created.iso &&
      GetInt(d, "used_count", 0) == c.usedCount
  {
  }

  lemma CitationRoundTrip(c: Citation, now: string)
    requires c.created.DateTime?
    ensures CitationToDict(c).Some? && CitationFromDict(CitationToDict(c).value, now) == Some(c)
  {
    LookupsA(c);
    LookupsB(c);
    LookupsC(c);
    LookupsD(c);
    LookupsE(c, now);
  }

  /** `edit_citation` as written copies every `to_dict` value except the
      id onto the citation, so `created` becomes the ISO string. */
  function EditedAsWritten(c: Citation, u: Citation): (r: Option<Citation>)
    ensures r.None? <==> u.created.IsoText?
    ensures r.Some? ==> r.value.id == c.id && r.value.created == IsoText(u.created.iso)
  {
    match CitationToDict(u)
    case None => None
    case Some(_) => Some(u.(id := c.id, created := IsoText(u.created.iso)))
  }

  /** After an edit as written the citation can no longer be serialised. */
  lemma EditedAsWrittenCannotSerialise(c: Citation, u: Citation)
    requires u.created.DateTime?
    ensures EditedAsWritten(c, u).Some? && CitationToDict(EditedAsWritten(c, u).value).None?
  {
  }

  /** The intended edit: every attribute but the id taken from `u`, the
      creation time kept a `datetime`. */
  function Edited(c: Citation, u: Citation): (r: Citation)
    ensures r.id == c.id && r.created == u.created && r.usedCount == u.usedCount
    ensures r.(id := u.id) == u
  {
    u.(id := c.id)
  }

  /** The corrected edit keeps the citation serialisable, and its
      serialised form is `u`'s apart from the id. */
  lemma EditedSerialises(c: Citation, u: Citation, now: string)
    requires u.created.DateTime?
    ensures CitationToDict(Edited(c, u)).Some?
    ensures CitationFromDict(CitationToDict(Edited(c, u)).value, now) == Some(Edited(c, u))
  {
    CitationRoundTrip(Edited(c, u), now);
  }

  // ---------------------------------------------------------------
  // Inline citations
  // ---------------------------------------------------------------

  /** `citation.author.split(',')[0] if citation.author else "Unknown"`. */
  function AuthorPart(c: Citation): string
  {
    if c.author != "" then Before(c.author, ',') else "Unknown"
  }

  /** The author part is the author's text up to its first comma, or
      "Unknown" for an empty author. */
  lemma AuthorPartSpec(c: Citation)
    ensures c.author == "" ==> AuthorPart(c) == "Unknown"
    ensures c.author != "" ==> AuthorPart(c) <= c.author && ',' !in AuthorPart(c)
    ensures c.author != "" && |AuthorPart(c)| < |c.author| ==> c.author[|AuthorPart(c)|] == ','
    ensures ',' !in c.author && c.author != "" ==> AuthorPart(c) == c.author
  {
    BeforePrefix(c.author, ',');
  }

  function ApaInline(c: Citation): string
  {
    " (" + AuthorPart(c) + ", " + c.year + ")"
  }

  function MlaInline(c: Citation): string
  {
    if c.pages != "" then " (" + AuthorPart(c) + " " + c.pages + ")" else " (" + AuthorPart(c) + ")"
  }

  /** Chicago and Harvard share this form. */
  function AuthorYearInline(c: Citation): string
  {
    " (" + AuthorPart(c) + " " + c.year + ")"
  }

  /** The inline form for an unrecognised style. */
  function PlainInline(c: Citation): string
  {
    " (" + c.author + ", " + c.year + ")"
  }

  /** `_format_ieee_inline` against the sorted library: the 1-based
      position of the first equal entry, or "?" when there is none. */
  function IeeeInline(sorted: seq<Citation>, c: Citation): (r: string)
    ensures c !in sorted ==> r == " [?]"
    ensures c in sorted ==> (exists i :: 0 <= i < |sorted| && sorted[i] == c &&
                               (forall j :: 0 <= j < i ==> sorted[j] != c) && r == " [" + IntToString(i + 1) + "]")
  {
    match FirstIndex(sorted, (x: Citation) => x == c)
    case None => " [?]"
    case Some(i) => " [" + IntToString(i + 1) + "]"
  }

  /** The BibTeX key: the author part before the first comma, then the
      year, with every space removed. */
  function CiteKey(c: Citation): (k: string)
    ensures ' ' !in k
  {
    var raw := Before(c.author, ',') + c.year;
    ReplaceCharIsSubst(raw, ' ', "");
    NoSpaceLeft(raw);
    ReplaceAll(raw, " ", "")
  }

  lemma {:induction false} NoSpaceLeft(s: string)
    ensures ' ' !in SubstChar(s, ' ', "")
  {
    if s != [] {
      NoSpaceLeft(s[1..]);
    }
  }

  /** The key deletes exactly the spaces: the author part and the year
      each lose theirs and are otherwise kept. */
  lemma CiteKeyParts(c: Citation)
    ensures CiteKey(c) == SubstChar(Before(c.author, ','), ' ', "") + SubstChar(c.year, ' ', "")
    ensures ' ' !in c.year && ' ' !in c.author ==> CiteKey(c) == Before(c.author, ',') + c.year
  {
    ReplaceCharIsSubst(Before(c.author, ',') + c.year, ' ', "");
    SubstCharAppend(Before(c.author, ','), c.year, ' ', "");
    if ' ' !in c.year && ' ' !in c.author {
      BeforePrefix(c.author, ',');
      SubstCharAbsent(c.year, ' ');
      SubstCharAbsent(Before(c.author, ','), ' ');
    }
  }

  lemma {:induction false} SubstCharAbsent(s: string, c: char)
    requires c !in s
    ensures SubstChar(s, c, "") == s
  {
    if s != [] {
      SubstCharAbsent(s[1..], c);
    }
  }

  // ---------------------------------------------------------------
  // Bibliography entries
  // ---------------------------------------------------------------

  function Part<T>(cond: bool, s: T): seq<T>
  {
    if cond then [s] else []
  }

  /** Every part is non-empty. */
  predicate Parts(ps: seq<string>)
  {
    [] !in ps
  }

  function ApaTitle(c: Citation): string
  {
    if c.citationType == "book" then "<i>" + c.title + "</i>." else c.title + "."
  }

  function ApaJournal(c: Citation): string
  {
    "<i>" + c.journal + "</i>"
      + (if c.volume != "" then ", " + c.volume else "")
      + (if c.issue != "" then "(" + c.issue + ")" else "")
      + (if c.pages != "" then ", " + c.pages else "")
  }

  /** The parts `_format_apa_bibliography` collects, in order. */
  function ApaParts(c: Citation): seq<string>
  {
    Part(c.author != "", c.author + ".")
      + Part(c.year != "", "(" + c.year + ").")
      + Part(c.title != "", ApaTitle(c))
      + (if c.citationType == "book" then Part(c.publisher != "", c.publisher + ".")
         else if c.citationType == "article" then Part(c.journal != "", ApaJournal(c) + ".")
         else [])
      + Part(c.doi != "", "https://doi.org/" + c.doi)
  }

  /** No style emits an empty part, so the entry's parts are separated
      by single spaces. */
  lemma PartsNonEmpty(c: Citation, number: int)
    ensures Parts(ApaParts(c)) && Parts(MlaParts(c))
    ensures Parts(ChicagoParts(c)) && Parts(IeeeParts(c, number))
  {
    ApaPartsNonEmpty(c);
    MlaPartsNonEmpty(c);
  }

  lemma ApaPartsNonEmpty(c: Citation)
    ensures Parts(ApaParts(c))
  {
    var venue := if c.citationType == "book" then Part(c.publisher != "", c.publisher + ".")
                 else if c.citationType == "article" then Part(c.journal != "", ApaJournal(c) + ".")
                 else [];
    NonEmptyPart(c.author != "", c.author, ".");
    NonEmptyPart(c.year != "", "(" + c.year, ").");
    assert ApaTitle(c) == (if c.citationType == "book" then "<i>" + c.title + "</i>" else c.title) + ".";
    NonEmptyPart(c.title != "", if c.citationType == "book" then "<i>" + c.title + "</i>" else c.title, ".");
    NonEmptyPart(c.publisher != "", c.publisher, ".");
    NonEmptyPart(c.journal != "", ApaJournal(c), ".");
    assert |"https://doi.org/" + c.doi| > 0;
    assert Parts(Part(c.doi != "", "https://doi.org/" + c.doi));
    assert Parts(venue);
    assert ApaParts(c) == Part(c.author != "", c.author + ".") + Part(c.year != "", "(" + c.year + ").")
      + Part(c.title != "", ApaTitle(c)) + venue + Part(c.doi != "", "https://doi.org/" + c.doi);
  }

  lemma MlaPartsNonEmpty(c: Citation)
    ensures Parts(MlaParts(c))
  {
    var journal := if c.citationType == "article" && c.journal != "" then
                     ["<i>" + c.journal + "</i>,"] + Part(c.volume != "", "vol. " + c.volume + ",") + Part(c.issue != "", "no. " + c.issue + ",")
                   else [];
    NonEmptyPart(c.author != "", c.author, ".");
    NonEmptyPart(c.volume != "", "vol. " + c.volume, ",");
    NonEmptyPart(c.issue != "", "no. " + c.issue, ",");
    NonEmptyPart(c.publisher != "", c.publisher, ",");
    NonEmptyPart(c.year != "", c.year, ".");
    NonEmptyPart(c.pages != "", "pp. " + c.pages, ".");
    assert "<i>" + c.journal + "</i>," != [];
    assert Parts(journal);
    assert MlaTitle(c) != [];
    var p1, p2 := Part(c.author != "", c.author + "."), Part(c.title != "", MlaTitle(c));
    var p4, p5, p6 := Part(c.publisher != "", c.publisher + ","), Part(c.year != "", c.year + "."), Part(c.pages != "", "pp. " + c.pages + ".");
    assert MlaParts(c) == p1 + p2 + journal + p4 + p5 + p6;
    PartsAppend(p1, p2);
    PartsAppend(p1 + p2, journal);
    PartsAppend(p1 + p2 + journal, p4);
    PartsAppend(p1 + p2 + journal + p4, p5);
    PartsAppend(p1 + p2 + journal + p4 + p5, p6);
  }

  lemma PartsAppend(a: seq<string>, b: seq<string>)
    requires Parts(a) && Parts(b)
    ensures Parts(a + b)
  {
  }

  /** A part that ends in a non-empty suffix is never empty. */
  lemma NonEmptyPart(cond: bool, s: string, tail: string)
    requires tail != []
    ensures Parts(Part(cond, s + tail))
  {
    assert |s + tail| == |s| + |tail|;
  }

  function ApaBibliography(c: Citation): string
  {
    Join(" ", ApaParts(c))
  }

  /** The APA entry starts with "author." when there is an author, shows a
      book's title in italics, and ends with the DOI link when there is a
      DOI. */
  lemma ApaShape(c: Citation)
    ensures c.author != "" ==> StartsWith(ApaBibliography(c), c.author + ".")
    ensures c.doi != "" ==> EndsWith(ApaBibliography(c), "https://doi.org/" + c.doi)
    ensures c.citationType == "book" && c.title != "" ==> "<i>" + c.title + "</i>." in ApaParts(c)
    ensures (c.author == "" && c.year == "" && c.title == "" && c.doi == "" &&
             (c.citationType == "book" ==> c.publisher == "") && (c.citationType == "article" ==> c.journal == "")) ==>
            ApaBibliography(c) == ""
  {
    var ps := ApaParts(c);
    if c.author != "" {
      assert ps[0] == c.author + ".";
      JoinStartsWith(" ", ps);
    }
    if c.doi != "" {
      assert ps[|ps| - 1] == "https://doi.org/" + c.doi;
      JoinEndsWith(" ", ps);
    }
    if c.citationType == "book" && c.title != "" {
      assert ApaTitle(c) in Part(c.title != "", ApaTitle(c));
    }
  }

  function MlaTitle(c: Citation): string
  {
    if c.citationType == "book" then "<i>" + c.title + "</i>." else "\"" + c.title + ".\""
  }

  /** The parts `_format_mla_bibliography` collects, in order. */
  function MlaParts(c: Citation): seq<string>
  {
    Part(c.author != "", c.author + ".")
      + Part(c.title != "", MlaTitle(c))
      + (if c.citationType == "article" && c.journal != "" then
           ["<i>" + c.journal + "</i>,"] + Part(c.volume != "", "vol. " + c.volume + ",") + Part(c.issue != "", "no. " + c.issue + ",")
         else [])
      + Part(c.publisher != "", c.publisher + ",")
      + Part(c.year != "", c.year + ".")
      + Part(c.pages != "", "pp. " + c.pages + ".")
  }

  function ChicagoJournal(c: Citation): string
  {
    "<i>" + c.journal + "</i>"
      + (if c.volume != "" then " " + c.volume else "")
      + (if c.issue != "" then ", no. " + c.issue else "")
  }

  /** The parts `_format_chicago_bibliography` collects, in order. */
  function ChicagoParts(c: Citation): seq<string>
  {
    Part(c.author != "", c.author + ".")
      + Part(c.title != "", MlaTitle(c))
      + Part(c.citationType == "article" && c.journal != "", ChicagoJournal(c))
      + Part(c.place != "", c.place + ":")
      + Part(c.publisher != "", c.publisher + ",")
      + Part(c.year != "", c.year + ".")
  }

  function IeeeJournal(c: Citation): string
  {
    "<i>" + c.journal + "</i>"
      + (if c.volume != "" then ", vol. " + c.volume else "")
      + (if c.issue != "" then ", no. " + c.issue else "")
      + (if c.pages != "" then ", pp. " + c.pages else "")
      + ","
  }

  /** The parts `_format_ieee_bibliography` collects: the bracketed number
      always comes first. */
  function IeeeParts(c: Citation, number: int): (ps: seq<string>)
    ensures ps != [] && ps[0] == "[" + IntToString(number) + "]"
  {
    ["[" + IntToString(number) + "]"]
      + Part(c.author != "", c.author + ",")
      + Part(c.title != "", "\"" + c.title + ",\"")
      + Part(c.citationType == "article" && c.journal != "", IeeeJournal(c))
      + Part(c.year != "", c.year + ".")
  }

  /** An IEEE entry starts with its bracketed number. */
  lemma IeeeStartsWithNumber(c: Citation, number: int)
    ensures StartsWith(Join(" ", IeeeParts(c, number)), "[" + IntToString(number) + "]")
  {
    JoinStartsWith(" ", IeeeParts(c, number));
  }

  /** The entry for an unrecognised style. */
  function PlainBibliography(c: Citation): string
  {
    c.author + ". (" + c.year + "). " + c.title + "."
  }

  /** The bibliography heading for a style. */
  function BibliographyTitle(style: string): (t: string)
    ensures style == "MLA" ==> t == "Works Cited"
    ensures style == "Chicago" ==> t == "Bibliography"
    ensures style != "MLA" && style != "Chicago" ==> t == "References"
  {
    if style == "APA" || style == "Harvard" then "References"
    else if style == "MLA" then "Works Cited"
    else if style == "Chicago" then "Bibliography"
    else "References"
  }

  /** `_format_bibliography_entry` for a style; Harvard entries are APA
      entries. */
  function EntryInStyle(style: string, c: Citation, number: int): string
  {
    if style == "APA" || style == "Harvard" then ApaBibliography(c)
    else if style == "MLA" then Join(" ", MlaParts(c))
    else if style == "Chicago" then Join(" ", ChicagoParts(c))
    else if style == "IEEE" then Join(" ", IeeeParts(c, number))
    else PlainBibliography(c)
  }

  /** The entries for `cs`, numbered from 1. */
  function Entries(style: string, cs: seq<Citation>): (es: seq<string>)
    ensures |es| == |cs|
  {
    if cs == [] then [] else Entries(style, cs[..|cs| - 1]) + [EntryInStyle(style, cs[|cs| - 1], |cs|)]
  }

  /** Entry `j` formats citation `j` with number `j + 1`. */
  lemma {:induction false} EntriesAt(style: string, cs: seq<Citation>, j: nat)
    requires j < |cs|
    ensures Entries(style, cs)[j] == EntryInStyle(style, cs[j], j + 1)
  {
    if j < |cs| - 1 {
      EntriesAt(style, cs[..|cs| - 1], j);
    }
  }

  /** The loop of `insert_bibliography`. */
  method FormatEntries(style: string, sorted: seq<Citation>) returns (entries: seq<string>)
    ensures entries == Entries(style, sorted)
  {
    entries := [];
    var i := 0;
    while i < |sorted|
      invariant 0 <= i <= |sorted|
      invariant entries == Entries(style, sorted[..i])
    {
      assert sorted[..i + 1][..i] == sorted[..i];
      entries := entries + [EntryInStyle(style, sorted[i], i + 1)];
      i := i + 1;
    }
    assert sorted[..i] == sorted;
  }

  // ---------------------------------------------------------------
  // Sorting
  // ---------------------------------------------------------------

  /** Whether `_get_sorted_citations` sorts at all for this key name. */
  predicate KnownSortKey(sortBy: string)
  {
    sortBy == "author" || sortBy == "title" || sortBy == "year"
  }

  /** The sort key; an empty field sorts as "". */
  function Key(sortBy: string, c: Citation): string
  {
    if sortBy == "author" then Lower(c.author)
    else if sortBy == "title" then Lower(c.title)
    else c.year
  }

  predicate SortedBy(sortBy: string, s: seq<Citation>)
  {
    forall i, j :: 0 <= i < j < |s| ==> StrLe(Key(sortBy, s[i]), Key(sortBy, s[j]))
  }

  /** Insert `x` before the first element whose key is not smaller. */
  function Insert(sortBy: string, x: Citation, t: seq<Citation>): (r: seq<Citation>)
    ensures multiset(r) == multiset(t) + multiset{x}
  {
    if t == [] || StrLe(Key(sortBy, x), Key(sortBy, t[0])) then [x] + t
    else
      assert t == [t[0]] + t[1..];
      [t[0]] + Insert(sortBy, x, t[1..])
  }

  /** Python's `sorted(..., key=...)`, a stable insertion sort. */
  function Sort(sortBy: string, s: seq<Citation>): (r: seq<Citation>)
    ensures multiset(r) == multiset(s)
  {
    if s == [] then []
    else
      assert s == [s[0]] + s[1..];
      Insert(sortBy, s[0], Sort(sortBy, s[1..]))
  }

  lemma {:induction false} InsertSorted(sortBy: string, x: Citation, t: seq<Citation>)
    requires SortedBy(sortBy, t)
    ensures SortedBy(sortBy, Insert(sortBy, x, t))
  {
    var kx := Key(sortBy, x);
    if t == [] || StrLe(kx, Key(sortBy, t[0])) {
      forall j | 0 < j < |t| + 1
        ensures StrLe(kx, Key(sortBy, ([x] + t)[j]))
      {
        if j > 1 {
          StrLeTrans(kx, Key(sortBy, t[0]), Key(sortBy, t[j - 1]));
        }
      }
    } else {
      StrLeTotal(kx, Key(sortBy, t[0]));
      InsertSorted(sortBy, x, t[1..]);
      var rest := Insert(sortBy, x, t[1..]);
      forall j | 0 <= j < |rest|
        ensures StrLe(Key(sortBy, t[0]), Key(sortBy, rest[j]))
      {
        assert rest[j] in multiset(rest);
        if rest[j] != x {
          assert rest[j] in multiset(t[1..]);
          var k :| 0 <= k < |t[1..]| && t[1..][k] == rest[j];
          assert t[k + 1] == rest[j];
        }
      }
    }
  }

  /** The result of the sort is ordered by the key. */
  lemma {:induction false} SortSorted(sortBy: string, s: seq<Citation>)
    ensures SortedBy(sortBy, Sort(sortBy, s))
  {
    if s != [] {
      SortSorted(sortBy, s[1..]);
      InsertSorted(sortBy, s[0], Sort(sortBy, s[1..]));
    }
  }

  /** The citations of `s` whose key is `k`, in order. */
  function WithKey(sortBy: string, s: seq<Citation>, k: string): seq<Citation>
  {
    if s == [] then [] else Part(Key(sortBy, s[0]) == k, s[0]) + WithKey(sortBy, s[1..], k)
  }

  lemma WithKeyCons(sortBy: string, x: Citation, t: seq<Citation>, k: string)
    ensures WithKey(sortBy, [x] + t, k) == Part(Key(sortBy, x) == k, x) + WithKey(sortBy, t, k)
  {
    assert ([x] + t)[0] == x;
    assert ([x] + t)[1..] == t;
  }

  lemma {:induction false} InsertStable(sortBy: string, x: Citation, t: seq<Citation>, k: string)
    ensures WithKey(sortBy, Insert(sortBy, x, t), k) == Part(Key(sortBy, x) == k, x) + WithKey(sortBy, t, k)
  {
    if t == [] || StrLe(Key(sortBy, x), Key(sortBy, t[0])) {
      WithKeyCons(sortBy, x, t, k);
    } else {
      InsertStable(sortBy, x, t[1..], k);
      InsertStableStep(sortBy, x, t, k);
    }
  }

  /** The step of `InsertStable` where `x` moves past `t[0]`: the two
      cannot share the key, as the key order is reflexive. */
  lemma InsertStableStep(sortBy: string, x: Citation, t: seq<Citation>, k: string)
    requires t != [] && !StrLe(Key(sortBy, x), Key(sortBy, t[0]))
    requires WithKey(sortBy, Insert(sortBy, x, t[1..]), k) == Part(Key(sortBy, x) == k, x) + WithKey(sortBy, t[1..], k)
    ensures WithKey(sortBy, Insert(sortBy, x, t), k) == Part(Key(sortBy, x) == k, x) + WithKey(sortBy, t, k)
  {
    var t0 := t[0];
    var kx := Key(sortBy, x);
    var k0 := Key(sortBy, t0);
    StrLeRefl(k0);
    var inserted := Insert(sortBy, x, t[1..]);
    assert Insert(sortBy, x, t) == [t0] + inserted;
    WithKeyCons(sortBy, t0, inserted, k);
    WithKeyCons(sortBy, t0, t[1..], k);
    assert [t0] + t[1..] == t;
    var rest := WithKey(sortBy, t[1..], k);
    if kx == k {
      assert WithKey(sortBy, Insert(sortBy, x, t), k) == [x] + rest;
      assert WithKey(sortBy, t, k) == rest;
    } else if k0 == k {
      assert WithKey(sortBy, inserted, k) == rest;
      assert WithKey(sortBy, Insert(sortBy, x, t), k) == [t0] + rest;
      assert WithKey(sortBy, t, k) == [t0] + rest;
    } else {
      assert WithKey(sortBy, Insert(sortBy, x, t), k) == rest;
      assert WithKey(sortBy, t, k) == rest;
    }
  }

  /** The sort is stable: the citations sharing any one key keep their
      relative order. */
  lemma {:induction false} SortStable(sortBy: string, s: seq<Citation>, k: string)
    ensures WithKey(sortBy, Sort(sortBy, s), k) == WithKey(sortBy, s, k)
  {
    if s != [] {
      SortStable(sortBy, s[1..], k);
      InsertStable(sortBy, s[0], Sort(sortBy, s[1..]), k);
      WithKeyCons(sortBy, s[0], s[1..], k);
      assert [s[0]] + s[1..] == s;
    }
  }

  function NotCiting(citationId: string): CitationRef -> bool
  {
    (r: CitationRef) => r.citationId != citationId
  }

  function HasId(id: string): Citation -> bool
  {
    (c: Citation) => c.id == id
  }

  function IdIn(ids: set<string>): Citation -> bool
  {
    (c: Citation) => c.id in ids
  }

  /** The citation ids referenced in the document. */
  function UsedIds(refs: seq<CitationRef>): (ids: set<string>)
    ensures forall id :: id in ids <==> exists i :: 0 <= i < |refs| && refs[i].citationId == id
  {
    set i | 0 <= i < |refs| :: refs[i].citationId
  }

  /** A bibliography: its title and formatted entries. */
  datatype Bibliography = Bibliography(title: string, entries: seq<string>)

  class CitationsManager {
    var citations: seq<Citation>
    var references: seq<CitationRef>
    var citationStyle: string
    var sortBibliography: bool
    var sortBy: string
    var indentHanging: bool

    constructor ()
      ensures citations == [] && references == []
      ensures citationStyle == "APA" && sortBibliography && sortBy == "author" && indentHanging
    {
      citations := [];
      references := [];
      citationStyle := "APA";
      sortBibliography := true;
      sortBy := "author";
      indentHanging := true;
    }

    /** `get_citation_by_id`: the first citation with that id. */
    function CitationById(id: string): (r: Option<Citation>)
      reads this
      ensures r.Some? ==> r.value in citations && r.value.id == id
      ensures r.None? <==> forall i :: 0 <= i < |citations| ==> citations[i].id != id
    {
      match FirstIndex(citations, HasId(id))
      case None => None
      case Some(i) => Some(citations[i])
    }

    /** `add_citation`. */
    method AddCitation(c: Citation) returns (r: Citation)
      modifies this
      ensures r == c && citations == old(citations) + [c]
      ensures references == old(references)
      ensures citationStyle == old(citationStyle) && sortBibliography == old(sortBibliography) && sortBy == old(sortBy)
    {
      citations := citations + [c];
      r := c;
    }

    /** `edit_citation`, as written: False for an unknown id; otherwise
        the update is serialised first, which raises (`None`, nothing
        changed) when its creation time is already a string, and then
        every attribute but the id is copied from that dictionary, so the
        creation time is stored as its ISO string. */
    method EditCitation(citationId: string, updated: Citation) returns (r: Option<bool>)
      modifies this
      ensures r == Some(false) <==> old(CitationById(citationId)).None?
      ensures r.None? <==> old(CitationById(citationId)).Some? && updated.created.IsoText?
      ensures r != Some(true) ==> citations == old(citations)
      ensures r == Some(true) ==>
        (exists k :: 0 <= k < |old(citations)| && old(citations)[k].id == citationId &&
           (forall j :: 0 <= j < k ==> old(citations)[j].id != citationId) &&
           EditedAsWritten(old(citations)[k], updated).Some? &&
           citations == old(citations)[k := EditedAsWritten(old(citations)[k], updated).value])
      ensures references == old(references)
      ensures citationStyle == old(citationStyle) && sortBibliography == old(sortBibliography) && sortBy == old(sortBy)
    {
      match FirstIndex(citations, HasId(citationId)) {
        case None =>
          return Some(false);
        case Some(k) =>
          match EditedAsWritten(citations[k], updated) {
            case None =>
              return None;
            case Some(e) =>
              citations := citations[k := e];
              return Some(true);
          }
      }
    }

    /** `delete_citation`: drops the first citation with the id and every
        reference to it; False, with nothing changed, for an unknown id. */
    method DeleteCitation(citationId: string) returns (ok: bool)
      modifies this
      ensures ok <==> old(CitationById(citationId)).Some?
      ensures !ok ==> citations == old(citations) && references == old(references)
      ensures ok ==> (exists k :: 0 <= k < |old(citations)| && old(citations)[k].id == citationId &&
                        (forall j :: 0 <= j < k ==> old(citations)[j].id != citationId) &&
                        citations == RemoveAt(old(citations), k))
      ensures ok ==> references == Filter(old(references), NotCiting(citationId))
      ensures citationStyle == old(citationStyle) && sortBibliography == old(sortBibliography) && sortBy == old(sortBy)
    {
      match FirstIndex(citations, HasId(citationId)) {
        case None =>
          return false;
        case Some(k) =>
          references := Filter(references, NotCiting(citationId));
          citations := RemoveAt(citations, k);
          return true;
      }
    }

    /** `insert_citation` with the position given: for a known id, one
        reference on page 1 is appended and the citation's use count goes
        up by one; `mark` is the inline text then inserted. */
    method InsertCitation(citationId: string, refId: string, position: int) returns (r: Option<CitationRef>, mark: string)
      modifies this
      ensures r.None? <==> old(CitationById(citationId)).None?
      ensures r.None? ==> citations == old(citations) && references == old(references)
      ensures r.Some? ==> r.value == CitationRef(refId, citationId, position, 1) && references == old(references) + [r.value]
      ensures r.Some? ==> var k := old(FirstIndex(citations, HasId(citationId))).value;
        citations == old(citations)[k := old(citations)[k].(usedCount := old(citations)[k].usedCount + 1)]
      ensures r.Some? ==> CitationById(citationId).Some? && CitationById(citationId).value.usedCount == old(CitationById(citationId)).value.usedCount + 1
      ensures r.Some? ==> mark == InlineCitation(CitationById(citationId).value)
      ensures citationStyle == old(citationStyle) && sortBibliography == old(sortBibliography) && sortBy == old(sortBy)
    {
      match FirstIndex(citations, HasId(citationId)) {
        case None =>
          return None, "";
        case Some(k) =>
          var reference := CitationRef(refId, citationId, position, 1);
          references := references + [reference];
          var cited := citations[k].(usedCount := citations[k].usedCount + 1);
          citations := citations[k := cited];
          FirstIndexAt(citations, HasId(citationId), k);
          mark := InlineCitation(cited);
          r := Some(reference);
      }
    }

    /** `_get_sorted_citations(cs)`. */
    function SortedCitations(cs: seq<Citation>): seq<Citation>
      reads this
    {
      if sortBibliography && KnownSortKey(sortBy) then Sort(sortBy, cs) else cs
    }

    /** The sorted list is a permutation, ordered by the key when sorting
        is on and the key is known, and the list itself otherwise. */
    lemma SortedCitationsSpec(cs: seq<Citation>)
      ensures multiset(SortedCitations(cs)) == multiset(cs)
      ensures sortBibliography && KnownSortKey(sortBy) ==> SortedBy(sortBy, SortedCitations(cs))
      ensures !(sortBibliography && KnownSortKey(sortBy)) ==> SortedCitations(cs) == cs
    {
      if sortBibliography && KnownSortKey(sortBy) {
        SortSorted(sortBy, cs);
      }
    }

    /** `_get_used_citations`: the library's citations that some reference
        names, in library order. */
    function UsedCitations(): (r: seq<Citation>)
      reads this
      ensures forall c :: c in r <==> c in citations && exists i :: 0 <= i < |references| && references[i].citationId == c.id
    {
      Filter(citations, IdIn(UsedIds(references)))
    }

    /** `_format_inline_citation`. */
    function InlineCitation(c: Citation): string
      reads this
    {
      if citationStyle == "APA" then ApaInline(c)
      else if citationStyle == "MLA" then MlaInline(c)
      else if citationStyle == "Chicago" || citationStyle == "Harvard" then AuthorYearInline(c)
      else if citationStyle == "IEEE" then IeeeInline(SortedCitations(citations), c)
      else PlainInline(c)
    }

    /** The inline form each style gives: the author part and year for
        APA, the author part and any pages for MLA, author part and year
        without a comma for Chicago and Harvard, and the raw author and
        year for an unrecognised style. */
    lemma InlineForms(c: Citation)
      ensures citationStyle == "APA" ==> InlineCitation(c) == " (" + AuthorPart(c) + ", " + c.year + ")"
      ensures citationStyle == "MLA" && c.pages != "" ==> InlineCitation(c) == " (" + AuthorPart(c) + " " + c.pages + ")"
      ensures citationStyle == "MLA" && c.pages == "" ==> InlineCitation(c) == " (" + AuthorPart(c) + ")"
      ensures citationStyle == "Chicago" || citationStyle == "Harvard" ==> InlineCitation(c) == " (" + AuthorPart(c) + " " + c.year + ")"
      ensures citationStyle !in {"APA", "MLA", "Chicago", "Harvard", "IEEE"} ==> InlineCitation(c) == " (" + c.author + ", " + c.year + ")"
    {
    }

    /** The IEEE inline number is the 1-based place of the citation in the
        sorted library, and "?" for a citation not in the library. */
    lemma IeeeNumbering(c: Citation)
      requires citationStyle == "IEEE"
      ensures c !in citations ==> InlineCitation(c) == " [?]"
      ensures c in citations ==> var sorted := SortedCitations(citations);
        exists i :: 0 <= i < |sorted| && sorted[i] == c && InlineCitation(c) == " [" + IntToString(i + 1) + "]"
    {
      var sorted := SortedCitations(citations);
      SortedCitationsSpec(citations);
      assert c in citations <==> c in multiset(sorted);
    }

    /** `_format_bibliography_entry`; Harvard entries are APA entries. */
    function BibliographyEntry(c: Citation, number: int): string
      reads this
    {
      EntryInStyle(citationStyle, c, number)
    }

    /** `insert_bibliography` without the cursor: None when no citation
        is used; else the style's title and one entry per used citation in
        sorted order, numbered from 1. */
    method InsertBibliography() returns (r: Option<Bibliography>)
      ensures r.None? <==> UsedCitations() == []
      ensures r.Some? ==> r.value.title == BibliographyTitle(citationStyle)
      ensures r.Some? ==> r.value.entries == Entries(citationStyle, SortedCitations(UsedCitations()))
    {
      var used := UsedCitations();
      if used == [] {
        return None;
      }
      var title := BibliographyTitle(citationStyle);
      var sorted := SortedCitations(used);
      var entries := FormatEntries(citationStyle, sorted);
      r := Some(Bibliography(title, entries));
    }
  }
}
