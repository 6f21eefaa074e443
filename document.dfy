/** The document model and the open-document session
    (`pyword/core/document.py`). */
module Document {
  import opened Common
  import opened Json

  datatype DocType = Text | Rtf | Html | Docx | Odt

  /** The MIME type each document type stands for. */
  function MimeType(t: DocType): string
  {
    match t
    case Text => "text/plain"
    case Rtf => "text/rtf"
    case Html => "text/html"
    case Docx => "application/vnd.openxmlformats-officedocument.wordprocessingml.document"
    case Odt => "application/vnd.oasis.opendocument.text"
  }

  /** `DocumentType(value)`; None where Python raises ValueError. */
  function DocTypeOfMime(v: string): (r: Option<DocType>)
    ensures r.Some? ==> MimeType(r.value) == v
  {
    if v == MimeType(Text) then Some(Text)
    else if v == MimeType(Rtf) then Some(Rtf)
    else if v == MimeType(Html) then Some(Html)
    else if v == MimeType(Docx) then Some(Docx)
    else if v == MimeType(Odt) then Some(Odt)
    else None
  }

  lemma MimeRoundTrip(t: DocType)
    ensures DocTypeOfMime(MimeType(t)) == Some(t)
  {
  }

  /** The extension table of `from_extension`, keyed after lower-casing and
      stripping the leading dots. */
  function ExtensionType(key: string): (r: DocType)
    ensures r == Html <==> key == "html" || key == "htm"
    ensures r == Rtf <==> key == "rtf"
    ensures r == Docx <==> key == "docx"
    ensures r == Odt <==> key == "odt"
  {
    if key == "txt" then Text
    else if key == "rtf" then Rtf
    else if key == "html" || key == "htm" then Html
    else if key == "docx" then Docx
    else if key == "odt" then Odt
    else Text
  }

  /** `DocumentType.from_extension`. */
  function FromExtension(ext: string): DocType
  {
    ExtensionType(LStripChar(Lower(ext), '.'))
  }

  /** Leading dots make no difference. */
  lemma FromExtensionDot(ext: string)
    ensures FromExtension("." + ext) == FromExtension(ext)
  {
    LowerAppend(".", ext);
    assert Lower(".") == ".";
    var l := Lower(ext);
    assert Lower("." + ext) == "." + l;
    assert LStripChar("." + l, '.') == LStripChar(l, '.');
  }

  /** Letter case makes no difference. */
  lemma FromExtensionCase(ext: string)
    ensures FromExtension(Upper(ext)) == FromExtension(ext)
  {
    LowerUpper(ext);
  }

  /** Anything but the six known extensions is plain text. */
  lemma FromExtensionKnown(ext: string)
    ensures FromExtension(ext) != Text ==> LStripChar(Lower(ext), '.') in {"rtf", "html", "htm", "docx", "odt"}
  {
  }

  lemma LowerUpper(s: string)
    ensures Lower(Upper(s)) == Lower(s)
  {
    assert forall i :: 0 <= i < |s| ==> LowerChar(UpperChar(s[i])) == LowerChar(s[i]);
  }

  datatype Section = Section(name: string, content: string, level: int, metadata: Dict)

  function SectionToDict(s: Section): (d: Dict)
    ensures d.Keys == {"name", "content", "level", "metadata"}
  {
    map["name" := Str(s.name), "content" := Str(s.content), "level" := Int(s.level), "metadata" := Obj(s.metadata)]
  }

  /** `DocumentSection.from_dict`, with defaults "", "", 1 and {}. */
  function SectionFromDict(d: Dict): (s: Section)
    ensures d == map[] ==> s == Section("", "", 1, map[])
  {
    Section(GetStr(d, "name", ""), GetStr(d, "content", ""), GetInt(d, "level", 1), GetObj(d, "metadata"))
  }

  lemma SectionRoundTrip(s: Section)
    ensures SectionFromDict(SectionToDict(s)) == s
  {
  }

  /** The section a document starts with when it is given none. */
  const MainSection := Section("Main", "", 1, map[])

  /** A document. Timestamps are ISO strings; the page setup and the
      header/footer and note managers are not part of this model.
      `contentType` is the `_content_type` cache, "" while nothing is
      cached. */
  datatype Doc = Doc(
    filePath: Option<string>,
    title: string,
    content: string,
    sections: seq<Section>,
    modified: bool,
    createdAt: string,
    modifiedAt: string,
    docType: DocType,
    metadata: Dict,
    version: string,
    author: string,
    keywords: seq<string>,
    template: Option<string>,
    readOnly: bool,
    contentType: string)

  /** `p` without its trailing '/' characters. */
  function StripTrailingSlashes(p: string): (r: string)
    ensures |r| <= |p| && r == p[..|r|]
    ensures r == [] || r[|r| - 1] != '/'
    ensures forall j :: |r| <= j < |p| ==> p[j] == '/'
  {
    if p != [] && p[|p| - 1] == '/' then StripTrailingSlashes(p[..|p| - 1]) else p
  }

  /** What follows the last '/' of `p`. */
  function LastComponent(p: string): (r: string)
    ensures '/' !in r
    ensures |r| <= |p| && r == p[|p| - |r|..]
    ensures |r| < |p| ==> p[|p| - |r| - 1] == '/'
  {
    if p == [] then []
    else if p[|p| - 1] == '/' then []
    else LastComponent(p[..|p| - 1]) + [p[|p| - 1]]
  }

  /** `Path(p).name`: the last component of a path, trailing slashes
      ignored. */
  function PathName(p: string): (r: string)
    ensures '/' !in r
    ensures |r| <= |p|
  {
    LastComponent(StripTrailingSlashes(p))
  }

  /** A trailing slash does not change the name. */
  lemma PathNameTrailingSlash(p: string)
    ensures PathName(p + "/") == PathName(p)
  {
    assert (p + "/")[..|p|] == p;
  }

  /** The name of `dir/name` is `name`. */
  lemma {:induction false} PathNameJoin(dir: string, name: string)
    requires '/' !in name && name != []
    ensures PathName(dir + "/" + name) == name
  {
    var p := dir + "/" + name;
    assert StripTrailingSlashes(p) == p;
    LastComponentJoin(dir, name);
  }

  lemma {:induction false} LastComponentJoin(dir: string, name: string)
    requires '/' !in name
    ensures LastComponent(dir + "/" + name) == name
  {
    var p := dir + "/" + name;
    if name == [] {
      assert p[|p| - 1] == '/';
    } else {
      var init := name[..|name| - 1];
      assert p[..|p| - 1] == dir + "/" + init;
      LastComponentJoin(dir, init);
      assert name == init + [name[|name| - 1]];
    }
  }

  /** Index of the last '.' in `s`, if any. */
  function LastDot(s: string): (r: Option<nat>)
    ensures r.Some? ==> r.value < |s| && s[r.value] == '.'
    ensures r.Some? ==> forall j :: r.value < j < |s| ==> s[j] != '.'
    ensures r.None? ==> '.' !in s
  {
    if s == [] then None
    else if s[|s| - 1] == '.' then Some(|s| - 1)
    else LastDot(s[..|s| - 1])
  }

  /** A file name split before its final suffix; a leading or trailing dot
      starts no suffix. */
  function SplitSuffix(name: string): (r: (string, string))
    ensures r.0 + r.1 == name
    ensures r.1 == [] || (r.1[0] == '.' && '.' !in r.1[1..] && 2 <= |r.1| < |name|)
  {
    match LastDot(name)
    case Some(i) =>
      if 0 < i < |name| - 1 then
        assert name[..i] + name[i..] == name;
        (name[..i], name[i..])
      else (name, "")
    case None => (name, "")
  }

  /** `Path(p).stem`: the last component without its final suffix. */
  function PathStem(p: string): (r: string)
    ensures |r| <= |PathName(p)|
    ensures r + PathSuffix(p) == PathName(p)
  {
    SplitSuffix(PathName(p)).0
  }

  /** `Path(p).suffix`: the final suffix of the last component, dot
      included, or "" when there is none. */
  function PathSuffix(p: string): (r: string)
    ensures r == [] || (r[0] == '.' && '.' !in r[1..] && 2 <= |r| < |PathName(p)|)
  {
    SplitSuffix(PathName(p)).1
  }

  /** `__post_init__` (its Qt-free part): a document with a non-empty file
      path takes the path's stem as its title and, while nothing is cached,
      caches the MIME type its suffix stands for; a document without
      sections gets the single section "Main". */
  function PostInit(d: Doc): (r: Doc)
    ensures |d.sections| == 0 ==> r.sections == [MainSection]
    ensures |d.sections| > 0 ==> r.sections == d.sections
    ensures d.filePath.Some? && d.filePath.value != "" ==> r.title == PathStem(d.filePath.value)
    ensures r.contentType ==
      if d.filePath.Some? && d.filePath.value != "" && d.contentType == ""
      then MimeType(FromExtension(PathSuffix(d.filePath.value))) else d.contentType
    ensures r.(title := d.title, sections := d.sections, contentType := d.contentType) == d
  {
    var titled :=
      if d.filePath.Some? && d.filePath.value != "" then
        var path := d.filePath.value;
        d.(title := PathStem(path),
           contentType := if d.contentType == "" then MimeType(FromExtension(PathSuffix(path))) else d.contentType)
      else d;
    if d.sections == [] then titled.(sections := [MainSection]) else titled
  }

  /** A document opened from a file starts with the content type of its
      suffix, whatever its document type. */
  lemma OpenedContentType(path: string, t: DocType, now: string)
    requires path != ""
    ensures ContentType(PostInit(Doc(Some(path), "Untitled", "", [], false, now, now, t, map[], "1.0", "", [],
                                     None, false, ""))).0
         == MimeType(FromExtension(PathSuffix(path)))
  {
    var d := PostInit(Doc(Some(path), "Untitled", "", [], false, now, now, t, map[], "1.0", "", [], None, false, ""));
    assert d.contentType == MimeType(FromExtension(PathSuffix(path)));
    assert d.contentType != "";
  }

  /** `Document(title=title)` built at time `now`: the dataclass defaults
      with the section `__post_init__` adds (NewDocIsPostInit). */
  function NewDoc(title: string, now: string): (d: Doc)
    ensures d.title == title && d.sections == [MainSection] && !d.modified
    ensures d.filePath.None? && d.docType == Rtf && d.content == "" && d.contentType == ""
  {
    Doc(None, title, "", [MainSection], false, now, now, Rtf, map[], "1.0", "", [], None, false, "")
  }

  /** A new document is what `__post_init__` makes of the dataclass
      defaults: without a path the title stays and the section Main is added. */
  lemma NewDocIsPostInit(title: string, now: string)
    ensures NewDoc(title, now)
         == PostInit(Doc(None, title, "", [], false, now, now, Rtf, map[], "1.0", "", [], None, false, ""))
  {
  }

  /** The `content_type` getter: the cached string or, when nothing is
      cached, the document type's MIME type, which it then caches. */
  function ContentType(d: Doc): (r: (string, Doc))
    ensures d.contentType != "" ==> r.0 == d.contentType
    ensures d.contentType == "" ==> DocTypeOfMime(r.0) == Some(d.docType)
    ensures r.1 == d.(contentType := r.0)
  {
    MimeRoundTrip(d.docType);
    var t := if d.contentType == "" then MimeType(d.docType) else d.contentType;
    (t, d.(contentType := t))
  }

  /** Reading the content type twice gives the same string, and the second
      read changes nothing. */
  lemma ContentTypeStable(d: Doc)
    ensures ContentType(ContentType(d).1) == (ContentType(d).0, ContentType(d).1)
  {
  }

  /** The `content_type` setter: the string is cached, and a known MIME type
      also sets the document type; any other string leaves it. */
  function SetContentType(d: Doc, value: string): (r: Doc)
    ensures r.(docType := d.docType, contentType := d.contentType) == d
    ensures r.contentType == value
    ensures DocTypeOfMime(value).Some? ==> MimeType(r.docType) == value
    ensures DocTypeOfMime(value).None? ==> r.docType == d.docType
  {
    match DocTypeOfMime(value)
    case Some(t) => d.(docType := t, contentType := value)
    case None => d.(contentType := value)
  }

  /** After setting a non-empty content type the getter returns it, and
      for a known MIME type it agrees with the document type even once the
      cache is cleared. */
  lemma ContentTypeAfterSet(d: Doc, value: string)
    requires value != ""
    ensures ContentType(SetContentType(d, value)).0 == value
    ensures DocTypeOfMime(value).Some? ==> ContentType(SetContentType(d, value).(contentType := "")).0 == value
  {
  }

  /** `add_section`: exactly one section more, at the end, and the
      document is marked modified. */
  function AddSection(d: Doc, name: string, content: string, level: int, metadata: Option<Dict>): (r: (Doc, Section))
    ensures r.0.sections == d.sections + [r.1]
    ensures r.1 == Section(name, content, level, if metadata.Some? then metadata.value else map[])
    ensures r.0.modified
    ensures r.0.(sections := d.sections, modified := d.modified) == d
  {
    var s := Section(name, content, level, if metadata.Some? then metadata.value else map[]);
    (d.(sections := d.sections + [s], modified := true), s)
  }

  predicate HasName(name: string, s: Section) { s.name == name }

  /** `get_section`: the first section with that name. */
  function GetSection(d: Doc, name: string): (r: Option<Section>)
    ensures r.Some? ==> r.value in d.sections && r.value.name == name
    ensures r.None? <==> forall i :: 0 <= i < |d.sections| ==> d.sections[i].name != name
    ensures r.Some? ==> exists i :: 0 <= i < |d.sections| && d.sections[i] == r.value &&
                                  forall j :: 0 <= j < i ==> d.sections[j].name != name
  {
    match FirstIndex(d.sections, s => HasName(name, s))
    case None => None
    case Some(i) => Some(d.sections[i])
  }

  /** `update_metadata`: new keys override old ones. */
  function UpdateMetadata(d: Doc, kwargs: Dict): (r: Doc)
    ensures r.modified && r.metadata.Keys == d.metadata.Keys + kwargs.Keys
    ensures forall k :: k in kwargs ==> r.metadata[k] == kwargs[k]
    ensures forall k :: k in d.metadata && k !in kwargs ==> r.metadata[k] == d.metadata[k]
    ensures r.(metadata := d.metadata, modified := d.modified) == d
  {
    d.(metadata := d.metadata + kwargs, modified := true)
  }

  function SectionsToValue(ss: seq<Section>): (v: Value)
    ensures v.Arr? && |v.items| == |ss|
  {
    Arr(seq(|ss|, i requires 0 <= i < |ss| => Obj(SectionToDict(ss[i]))))
  }

  /** The stored sections, each read by `DocumentSection.from_dict`;
      `None` where an item is not a dictionary, on which `data.get` raises
      AttributeError. */
  function SectionsFromValues(items: seq<Value>): (r: Option<seq<Section>>)
    ensures r.Some? <==> forall i :: 0 <= i < |items| ==> items[i].Obj?
    ensures r.Some? ==> |r.value| == |items|
    ensures r.Some? ==> forall i :: 0 <= i < |items| ==> r.value[i] == SectionFromDict(items[i].fields)
  {
    if forall i :: 0 <= i < |items| ==> items[i].Obj? then
      Some(seq(|items|, i requires 0 <= i < |items| => SectionFromDict(if items[i].Obj? then items[i].fields else map[])))
    else None
  }

  lemma SectionsRoundTrip(ss: seq<Section>)
    ensures SectionsFromValues(SectionsToValue(ss).items) == Some(ss)
  {
    var items := SectionsToValue(ss).items;
    assert forall i :: 0 <= i < |items| ==> items[i].Obj?;
    var back := SectionsFromValues(items).value;
    forall i | 0 <= i < |ss|
      ensures back[i] == ss[i]
    {
      SectionRoundTrip(ss[i]);
    }
    assert back == ss;
  }

  /** `to_dict`: the file path and the modified flag are not saved. */
  function ToDict(d: Doc): (r: Dict)
    ensures "file_path" !in r && "modified" !in r
    ensures r.Keys == {"title", "content", "sections", "created_at", "modified_at", "document_type",
                       "metadata", "version", "author", "keywords", "template", "read_only"}
  {
    map[
      "title" := Str(d.title),
      "content" := Str(d.content),
      "sections" := SectionsToValue(d.sections),
      "created_at" := Str(d.createdAt),
      "modified_at" := Str(d.modifiedAt),
      "document_type" := Str(MimeType(d.docType)),
      "metadata" := Obj(d.metadata),
      "version" := Str(d.version),
      "author" := Str(d.author),
      "keywords" := StrList(d.keywords),
      "template" := OptStrValue(d.template),
      "read_only" := Bool(d.readOnly)]
  }

  /** `Document.from_dict` at time `now`: the document is built without
      sections, so it first receives "Main", and the stored sections are
      appended after it. None where an unknown document type makes the
      source raise ValueError, or where a stored section is not a
      dictionary. */
  function FromDict(data: Dict, now: string): (r: Option<Doc>)
    ensures r.None? <==> DocTypeOfMime(GetStr(data, "document_type", MimeType(Rtf))).None? ||
                         SectionsFromValues(GetArr(data, "sections")).None?
    ensures r.Some? ==> r.value.filePath.None? && !r.value.modified
    ensures r.Some? ==> |r.value.sections| >= 1 && r.value.sections[0] == MainSection
    ensures r.Some? ==> r.value.sections[1..] == SectionsFromValues(GetArr(data, "sections")).value
    ensures r.Some? && "created_at" !in data ==> r.value.createdAt == now
  {
    match DocTypeOfMime(GetStr(data, "document_type", MimeType(Rtf)))
    case None => None
    case Some(t) =>
      var base := PostInit(Doc(None, GetStr(data, "title", "Untitled"), GetStr(data, "content", ""), [], false,
                               now, now, t, GetObj(data, "metadata"), GetStr(data, "version", "1.0"),
                               GetStr(data, "author", ""), GetStrList(data, "keywords", []),
                               GetOptStr(data, "template"), GetBool(data, "read_only", false), ""));
      match SectionsFromValues(GetArr(data, "sections"))
      case None => None
      case Some(stored) =>
      Some(base.(
        sections := base.sections + stored,
        createdAt := if "created_at" in data then GetStr(data, "created_at", now) else now,
        modifiedAt := if "modified_at" in data then GetStr(data, "modified_at", now) else now))
  }

  lemma ToDictText(d: Doc)
    ensures GetStr(ToDict(d), "title", "Untitled") == d.title
    ensures GetStr(ToDict(d), "content", "") == d.content
    ensures GetStr(ToDict(d), "version", "1.0") == d.version
    ensures GetStr(ToDict(d), "author", "") == d.author
    ensures GetStr(ToDict(d), "document_type", MimeType(Rtf)) == MimeType(d.docType)
  {
  }

  lemma ToDictRest(d: Doc, now: string)
    ensures GetArr(ToDict(d), "sections") == SectionsToValue(d.sections).items
    ensures GetObj(ToDict(d), "metadata") == d.metadata
    ensures GetOptStr(ToDict(d), "template") == d.template
    ensures GetBool(ToDict(d), "read_only", false) == d.readOnly
    ensures GetStrList(ToDict(d), "keywords", []) == d.keywords
    ensures "created_at" in ToDict(d) && GetStr(ToDict(d), "created_at", now) == d.createdAt
    ensures "modified_at" in ToDict(d) && GetStr(ToDict(d), "modified_at", now) == d.modifiedAt
  {
    GetStrListOf(ToDict(d), "keywords", d.keywords, []);
  }

  /** Saving and loading keeps every saved field, and the sections come
      back after the default "Main" section; the file path is lost and the
      document is unmodified. */
  lemma DocRoundTrip(d: Doc, now: string)
    ensures FromDict(ToDict(d), now) ==
      Some(d.(filePath := None, modified := false, sections := [MainSection] + d.sections, contentType := ""))
  {
    MimeRoundTrip(d.docType);
    ToDictText(d);
    ToDictRest(d, now);
    SectionsRoundTrip(d.sections);
  }

  /** Word count of the sections' contents. */
  function SectionWords(ss: seq<Section>): nat
  {
    if ss == [] then 0 else SectionWords(ss[..|ss| - 1]) + WordCount(ss[|ss| - 1].content)
  }

  function SectionChars(ss: seq<Section>): nat
  {
    if ss == [] then 0 else SectionChars(ss[..|ss| - 1]) + |ss[|ss| - 1].content|
  }

  /** All the text of the sections, in order. */
  function SectionText(ss: seq<Section>): string
  {
    if ss == [] then "" else SectionText(ss[..|ss| - 1]) + ss[|ss| - 1].content
  }

  /** The character count is the length of the document's whole text: the
      content followed by every section's content. */
  lemma {:induction false} SectionCharsIsLength(ss: seq<Section>)
    ensures SectionChars(ss) == |SectionText(ss)|
  {
    if ss != [] {
      SectionCharsIsLength(ss[..|ss| - 1]);
    }
  }

  /** Sections are counted independently of one another. */
  lemma {:induction false} SectionWordsAppend(a: seq<Section>, b: seq<Section>)
    ensures SectionWords(a + b) == SectionWords(a) + SectionWords(b)
    decreases |b|
  {
    if b == [] {
      assert a + b == a;
    } else {
      assert (a + b)[..|a + b| - 1] == a + b[..|b| - 1];
      SectionWordsAppend(a, b[..|b| - 1]);
    }
  }

  /** The computed part of `get_metadata`. */
  function MetadataBase(d: Doc, wordCount: nat, charCount: nat, sectionCount: nat): (r: Dict)
    ensures "word_count" in r && r["word_count"] == Int(wordCount)
    ensures "char_count" in r && r["char_count"] == Int(charCount)
    ensures "section_count" in r && r["section_count"] == Int(sectionCount)
    ensures "title" in r && r["title"] == Str(d.title)
  {
    map[
      "title" := Str(d.title),
      "file_path" := OptStrValue(d.filePath),
      "created_at" := Str(d.createdAt),
      "modified_at" := Str(d.modifiedAt),
      "document_type" := Str(MimeType(d.docType)),
      "word_count" := Int(wordCount),
      "char_count" := Int(charCount),
      "section_count" := Int(sectionCount),
      "version" := Str(d.version),
      "author" := Str(d.author),
      "keywords" := StrList(d.keywords),
      "template" := OptStrValue(d.template),
      "read_only" := Bool(d.readOnly)]
  }

  /** `get_metadata`: counts over the content and every section, then the
      document's own metadata, whose keys override the computed ones. */
  method GetMetadata(d: Doc) returns (r: Dict)
    ensures "word_count" !in d.metadata ==> "word_count" in r && r["word_count"] == Int(WordCount(d.content) + SectionWords(d.sections))
    ensures "char_count" !in d.metadata ==> "char_count" in r && r["char_count"] == Int(|d.content + SectionText(d.sections)|)
    ensures "section_count" !in d.metadata ==> "section_count" in r && r["section_count"] == Int(|d.sections|)
    ensures "title" !in d.metadata ==> "title" in r && r["title"] == Str(d.title)
    ensures forall k :: k in d.metadata ==> k in r && r[k] == d.metadata[k]
  {
    var wordCount := WordCount(d.content);
    var charCount := |d.content|;
    var sectionCount := |d.sections|;
    for i := 0 to |d.sections|
      invariant wordCount == WordCount(d.content) + SectionWords(d.sections[..i])
      invariant charCount == |d.content| + SectionChars(d.sections[..i])
    {
      assert d.sections[..i + 1][..i] == d.sections[..i];
      wordCount := wordCount + WordCount(d.sections[i].content);
      charCount := charCount + |d.sections[i].content|;
    }
    assert d.sections[..|d.sections|] == d.sections;
    SectionCharsIsLength(d.sections);
    r := MetadataBase(d, wordCount, charCount, sectionCount) + d.metadata;
  }

  /** An entry of the recent-documents list. */
  datatype Recent = Recent(path: string, title: string, timestamp: string)

  predicate NotPath(path: string, e: Recent) { e.path != path }

  /** `_add_to_recent` at time `now`: drop the entries for the path, put a
      new one first, and cut the list to `maxRecent` entries when it is
      longer (a negative bound is a Python slice from the end). */
  function RecentAfter(recent: seq<Recent>, d: Doc, maxRecent: int, now: string): seq<Recent>
  {
    if d.filePath.None? || d.filePath.value == "" then recent
    else
      var l := [Recent(d.filePath.value, d.title, now)] + Filter(recent, e => NotPath(d.filePath.value, e));
      if |l| > maxRecent then Prefix(l, maxRecent) else l
  }

  /** The recent list after `_add_to_recent`: with a path and room for at
      least one entry, the path comes first, appears exactly once, the
      list is no longer than the bound, and the other entries are earlier
      ones for other paths. Without a path nothing changes. */
  lemma RecentAfterSpec(recent: seq<Recent>, d: Doc, maxRecent: int, now: string)
    ensures d.filePath.None? || d.filePath.value == "" ==> RecentAfter(recent, d, maxRecent, now) == recent
    ensures d.filePath.Some? && d.filePath.value != "" && maxRecent >= 1 ==>
      var r := RecentAfter(recent, d, maxRecent, now);
      |r| >= 1 && r[0] == Recent(d.filePath.value, d.title, now) && |r| <= maxRecent &&
      (forall i :: 1 <= i < |r| ==> r[i].path != d.filePath.value && r[i] in recent)
  {
    if d.filePath.Some? && d.filePath.value != "" && maxRecent >= 1 {
      var p := d.filePath.value;
      var f := Filter(recent, e => NotPath(p, e));
      var l := [Recent(p, d.title, now)] + f;
      var r := RecentAfter(recent, d, maxRecent, now);
      assert r <= l;
      forall i | 1 <= i < |r|
        ensures r[i].path != p && r[i] in recent
      {
        assert r[i] == l[i] == f[i - 1];
        assert f[i - 1] in f;
      }
    }
  }

  /** What `close_document` is asked to close. */
  datatype CloseTarget = Current | At(index: int) | Object(doc: Doc)

  predicate SameDoc(d: Doc, e: Doc) { e == d }

  /** The index `close_document` resolves its argument to; a document object
      is found by dataclass equality, and None where `list.index` fails. */
  function TargetIndex(docs: seq<Doc>, current: int, t: CloseTarget): (r: Option<int>)
    ensures t.Current? ==> r == Some(current)
    ensures t.At? ==> r == Some(t.index)
    ensures t.Object? ==> (r.None? <==> t.doc !in docs)
    ensures t.Object? && r.Some? ==> 0 <= r.value < |docs| && docs[r.value] == t.doc
  {
    match t
    case Current => Some(current)
    case At(i) => Some(i)
    case Object(d) =>
      match FirstIndex(docs, e => SameDoc(d, e))
      case None => None
      case Some(i) => Some(i)
  }

  class DocumentManager {
    var documents: seq<Doc>
    var currentIndex: int
    var recent: seq<Recent>
    var maxRecent: int

    constructor (maxRecentDocs: int)
      ensures documents == [] && currentIndex == -1 && recent == [] && maxRecent == maxRecentDocs
    {
      documents := [];
      currentIndex := -1;
      recent := [];
      maxRecent := maxRecentDocs;
    }

    /** `current_document`. */
    function CurrentDocument(): (r: Option<Doc>)
      reads this
      ensures r.Some? <==> 0 <= currentIndex < |documents|
      ensures r.Some? ==> r.value == documents[currentIndex]
    {
      if 0 <= currentIndex < |documents| then Some(documents[currentIndex]) else None
    }

    /** `has_unsaved_changes`. */
    function HasUnsavedChanges(): (r: bool)
      reads this
      ensures r <==> exists i :: 0 <= i < |documents| && documents[i].modified
    {
      AnyModified(documents)
    }

    /** `document_count`. */
    function DocumentCount(): (n: nat)
      reads this
      ensures n == |documents|
      ensures n == 0 ==> CurrentDocument().None? && !HasUnsavedChanges()
    {
      |documents|
    }

    /** `create_document` at time `now`: the new document is appended and
        becomes current. Loading a template is file input and not part of
        this model. */
    method CreateDocument(title: string, now: string) returns (doc: Doc)
      modifies this
      ensures doc == NewDoc(title, now)
      ensures documents == old(documents) + [doc]
      ensures currentIndex == |documents| - 1
      ensures recent == old(recent) && maxRecent == old(maxRecent)
    {
      doc := NewDoc(title, now);
      var n := |documents|;
      documents := documents + [doc];
      currentIndex := n;
    }

    /** `_add_to_recent`. */
    method AddToRecent(d: Doc, now: string)
      modifies this
      ensures recent == RecentAfter(old(recent), d, maxRecent, now)
      ensures documents == old(documents) && currentIndex == old(currentIndex) && maxRecent == old(maxRecent)
    {
      if d.filePath.None? || d.filePath.value == "" {
        return;
      }
      var p := d.filePath.value;
      recent := Filter(recent, e => NotPath(p, e));
      recent := [Recent(p, d.title, now)] + recent;
      if |recent| > maxRecent {
        recent := Prefix(recent, maxRecent);
      }
    }

    /** `close_document`. Listeners return None, so a modified document is
        closed whether or not `force` is set. An index out of range closes
        nothing; otherwise exactly that document goes, and the current
        index is pulled back only when it falls off the end. */
    method CloseDocument(t: CloseTarget, force: bool) returns (ok: bool)
      modifies this
      ensures var k := TargetIndex(old(documents), old(currentIndex), t);
        ok <==> k.Some? && 0 <= k.value < |old(documents)|
      ensures ok ==> documents == RemoveAt(old(documents), TargetIndex(old(documents), old(currentIndex), t).value)
      ensures ok ==> currentIndex == if old(currentIndex) >= |documents| then
                                        (if |documents| - 1 >= 0 then |documents| - 1 else 0)
                                      else old(currentIndex)
      ensures !ok ==> documents == old(documents) && currentIndex == old(currentIndex)
      ensures recent == old(recent) && maxRecent == old(maxRecent)
    {
      var k := TargetIndex(documents, currentIndex, t);
      if k.None? || !(0 <= k.value < |documents|) {
        return false;
      }
      documents := RemoveAt(documents, k.value);
      if currentIndex >= |documents| {
        currentIndex := if |documents| - 1 >= 0 then |documents| - 1 else 0;
      }
      ok := true;
    }

    /** `close_all_documents`. */
    method CloseAllDocuments(force: bool) returns (ok: bool)
      modifies this
      ensures ok && documents == [] && currentIndex == -1
      ensures recent == old(recent) && maxRecent == old(maxRecent)
    {
      documents := [];
      currentIndex := -1;
      ok := true;
    }

    /** `get_recent_documents`. */
    function GetRecentDocuments(maxDocs: Option<int>): (r: seq<Recent>)
      reads this
      ensures r <= recent
      ensures maxDocs.None? ==> r == recent
      ensures maxDocs.Some? && 0 <= maxDocs.value <= |recent| ==> |r| == maxDocs.value
    {
      if maxDocs.Some? then Prefix(recent, maxDocs.value) else recent
    }

    /** `clear_recent_documents`. */
    method ClearRecentDocuments()
      modifies this`recent
      ensures recent == []
      ensures GetRecentDocuments(None) == []
    {
      recent := [];
    }
  }

  function AnyModified(ds: seq<Doc>): (r: bool)
    ensures r <==> exists i :: 0 <= i < |ds| && ds[i].modified
  {
    if ds == [] then false
    else ds[0].modified || (assert forall i :: 0 <= i < |ds[1..]| ==> ds[1..][i] == ds[i + 1]; AnyModified(ds[1..]))
  }

  /** Closing a document keeps the current index in range whenever a
      document is left open. */
  lemma CloseKeepsCurrentInRange(docs: seq<Doc>, current: int, k: nat)
    requires k < |docs| && 0 <= current < |docs|
    ensures var rest := RemoveAt(docs, k);
      var c := if current >= |rest| then (if |rest| - 1 >= 0 then |rest| - 1 else 0) else current;
      |rest| > 0 ==> 0 <= c < |rest|
  {
  }
}
