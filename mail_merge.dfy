/** Mail merge (`pyword/pyword/features/mail_merge.py`): data sources
    holding records, the `«field»` markers written into the document, and
    their substitution record by record. A record keeps each value as the
    text `str` gives it when a marker is replaced, for the strings,
    integers, booleans and nulls a stored record can hold. */
module MailMerge {
  import opened Common
  import opened Json

  // ---------------------------------------------------------------------
  // Records

  /** One `name: value` entry of a record. */
  datatype Field = Field(name: string, value: string)

  /** A record: a dict, in insertion order. */
  type Record = seq<Field>

  function Keys(r: Record): (ks: seq<string>)
    ensures |ks| == |r|
    ensures forall i :: 0 <= i < |r| ==> ks[i] == r[i].name
  {
    if r == [] then [] else [r[0].name] + Keys(r[1..])
  }

  /** `record.get(name, default)`. */
  function Get(r: Record, name: string, default: string): (v: string)
    ensures name !in Keys(r) ==> v == default
    ensures name in Keys(r) ==> Field(name, v) in r
  {
    if r == [] then default
    else if r[0].name == name then r[0].value
    else Get(r[1..], name, default)
  }

  /** The field names after `add_manual_record` walks a record's keys:
      each key not yet present is appended, in key order. */
  function ExtendNames(names: seq<string>, keys: seq<string>): seq<string>
    decreases |keys|
  {
    if keys == [] then names
    else ExtendNames(if keys[0] in names then names else names + [keys[0]], keys[1..])
  }

  /** The old names stay first and in order, the result holds exactly the
      old names and the keys, and no name appears twice that did not
      already. */
  lemma {:induction false} ExtendNamesSpec(names: seq<string>, keys: seq<string>)
    ensures |names| <= |ExtendNames(names, keys)| && ExtendNames(names, keys)[..|names|] == names
    ensures forall k :: k in ExtendNames(names, keys) <==> k in names || k in keys
    ensures Distinct(names) ==> Distinct(ExtendNames(names, keys))
    decreases |keys|
  {
    if keys != [] {
      var next := if keys[0] in names then names else names + [keys[0]];
      if keys[0] !in names && Distinct(names) {
        DistinctSnoc(names, keys[0]);
      }
      ExtendNamesSpec(next, keys[1..]);
      var r := ExtendNames(names, keys);
      assert r == ExtendNames(next, keys[1..]);
      assert r[..|names|] == r[..|next|][..|names|];
      assert forall k :: k in keys <==> k == keys[0] || k in keys[1..];
    }
  }

  // ---------------------------------------------------------------------
  // Markers

  const Open: char := '«'
  const Close: char := '»'

  /** The text `_insert_field_marker` writes and `_replace_merge_fields`
      looks for: the field name between the two delimiters. */
  function Marker(name: string): (m: string)
    ensures |m| == |name| + 2 && m[0] == Open && m[|m| - 1] == Close
    ensures m[1..|m| - 1] == name
  {
    [Open] + name + [Close]
  }

  predicate NoDelims(name: string) { Open !in name && Close !in name }

  /** The loop of `_replace_merge_fields`: for each field name in order,
      every occurrence of its marker is replaced by the record's value,
      or by the empty string when the record lacks the field. */
  function ReplaceFields(text: string, names: seq<string>, rec: Record): string
    decreases |names|
  {
    if names == [] then text
    else ReplaceFields(ReplaceAll(text, Marker(names[0]), Get(rec, names[0], "")), names[1..], rec)
  }

  /** `_replace_merge_fields` leaves a text without any opening delimiter
      unchanged. */
  lemma {:induction false} ReplaceFieldsNoMarkers(text: string, names: seq<string>, rec: Record)
    requires Open !in text
    ensures ReplaceFields(text, names, rec) == text
    decreases |names|
  {
    if names != [] {
      NoOpenNoMarker(text, names[0]);
      ReplaceAbsent(text, Marker(names[0]), Get(rec, names[0], ""));
      ReplaceFieldsNoMarkers(text, names[1..], rec);
    }
  }

  lemma {:induction false} NoOpenNoMarker(s: string, name: string)
    requires Open !in s
    ensures !Contains(s, Marker(name))
    decreases |s|
  {
    if s != [] {
      assert s[0] != Open;
      NoOpenNoMarker(s[1..], name);
    }
  }

  /** `get_merge_fields_in_document`: the non-greedy pattern `«(.*?)»`, in
      which `.` matches anything but a newline. At an opening delimiter
      the name runs to the first closing one; if a newline comes first
      there is no match there and the search resumes one character on. */
  function MarkerNames(s: string): seq<string>
    decreases |s|
  {
    if s == [] then []
    else if s[0] == Open then
      match CloseAt(s[1..])
      case Some(j) => [s[1..1 + j]] + MarkerNames(s[2 + j..])
      case None => MarkerNames(s[1..])
    else MarkerNames(s[1..])
  }

  /** The index of the first closing delimiter, when no newline precedes it. */
  function CloseAt(s: string): (r: Option<nat>)
    ensures r.Some? ==> r.value < |s| && s[r.value] == Close
    ensures r.Some? ==> Close !in s[..r.value] && '\n' !in s[..r.value]
  {
    if s == [] then None
    else if s[0] == Close then Some(0)
    else if s[0] == '\n' then None
    else match CloseAt(s[1..])
      case None => None
      case Some(j) =>
        assert s[..j + 1] == [s[0]] + s[1..][..j];
        Some(j + 1)
  }

  // ---------------------------------------------------------------------
  // Templates: a document as literal text and markers

  /** A piece of a merge template: literal text, or the marker of a field. */
  datatype Part = Text(s: string) | Mark(name: string)

  function PartText(p: Part): string
  {
    match p
    case Text(s) => s
    case Mark(n) => Marker(n)
  }

  function Template(parts: seq<Part>): string
  {
    if parts == [] then [] else PartText(parts[0]) + Template(parts[1..])
  }

  /** Literal text holds no opening delimiter and names no delimiter, so
      every opening delimiter of the template starts a marker. */
  predicate CleanParts(parts: seq<Part>)
  {
    forall i :: 0 <= i < |parts| ==>
      match parts[i]
      case Text(s) => Open !in s
      case Mark(n) => NoDelims(n)
  }

  /** Marker names that the pattern can find: no newline inside. */
  predicate SingleLine(parts: seq<Part>)
  {
    forall i :: 0 <= i < |parts| ==> parts[i].Mark? ==> '\n' !in parts[i].name
  }

  /** Record values that cannot start a marker. */
  predicate CleanRecord(rec: Record)
  {
    forall f :: f in rec ==> Open !in f.value
  }

  predicate CleanNames(names: seq<string>)
  {
    forall n :: n in names ==> NoDelims(n)
  }

  /** The names of the template's markers, in order. */
  function MarkNames(parts: seq<Part>): (r: seq<string>)
    ensures forall n :: n in r <==> Mark(n) in parts
  {
    if parts == [] then []
    else (if parts[0].Mark? then [parts[0].name] else []) + MarkNames(parts[1..])
  }

  /** The names of the markers whose field is not among `names`, in order. */
  function UnknownMarks(parts: seq<Part>, names: seq<string>): (r: seq<string>)
    ensures forall n :: n in r <==> Mark(n) in parts && n !in names
  {
    if parts == [] then []
    else (if parts[0].Mark? && parts[0].name !in names then [parts[0].name] else [])
         + UnknownMarks(parts[1..], names)
  }

  /** Independent reference for a whole merge: a marker of a known field
      becomes the record's value for it, everything else stays. */
  function Render(p: Part, names: seq<string>, rec: Record): Part
  {
    if p.Mark? && p.name in names then Text(Get(rec, p.name, "")) else p
  }

  function RenderAll(parts: seq<Part>, names: seq<string>, rec: Record): (r: seq<Part>)
    ensures |r| == |parts|
    ensures forall i :: 0 <= i < |parts| ==> r[i] == Render(parts[i], names, rec)
  {
    if parts == [] then [] else [Render(parts[0], names, rec)] + RenderAll(parts[1..], names, rec)
  }

  /** One replacement pass, on parts: the markers of `n` become `v`. */
  function Subst(parts: seq<Part>, n: string, v: string): (r: seq<Part>)
    ensures |r| == |parts|
    ensures forall i :: 0 <= i < |parts| ==> r[i] == if parts[i] == Mark(n) then Text(v) else parts[i]
  {
    if parts == [] then []
    else [if parts[0] == Mark(n) then Text(v) else parts[0]] + Subst(parts[1..], n, v)
  }

  lemma TemplateCons(p: Part, ps: seq<Part>)
    ensures Template([p] + ps) == PartText(p) + Template(ps)
  {
    assert ([p] + ps)[1..] == ps;
  }

  /** Replacing passes over literal text that holds no opening delimiter. */
  lemma {:induction false} ReplaceLit(s: string, rest: string, pat: string, rep: string)
    requires pat != [] && pat[0] == Open && Open !in s
    ensures ReplaceAll(s + rest, pat, rep) == s + ReplaceAll(rest, pat, rep)
    decreases |s|
  {
    if s == [] {
      assert s + rest == rest;
    } else {
      var t := s + rest;
      if |t| < |pat| {
        assert ReplaceAll(rest, pat, rep) == rest;
      } else {
        assert t[..|pat|][0] == s[0];
        assert t[1..] == s[1..] + rest;
        ReplaceLit(s[1..], rest, pat, rep);
        assert t == [s[0]] + t[1..];
        assert s == [s[0]] + s[1..];
      }
    }
  }

  /** Two different names without delimiters give markers that cannot
      start one another. */
  lemma MarkerMismatch(m: string, n: string, t: string)
    requires NoDelims(m) && NoDelims(n) && m != n
    requires |t| >= |n| + 2 && |t| >= |m| + 2 && t[..|m| + 2] == Marker(m)
    ensures t[..|n| + 2] != Marker(n)
  {
    var a, b := t[..|n| + 2], Marker(n);
    if |m| < |n| {
      assert a[|m| + 1] == Marker(m)[|m| + 1] == Close;
      assert b[|m| + 1] == n[|m|] != Close;
    } else if |m| > |n| {
      assert b[|n| + 1] == Close;
      assert a[|n| + 1] == Marker(m)[|n| + 1] == m[|n|] != Close;
    } else {
      assert a[1..|m| + 1] == Marker(m)[1..|m| + 1] == m;
      assert b[1..|n| + 1] == n;
    }
  }

  lemma ReplaceSameMark(n: string, rest: string, rep: string)
    ensures ReplaceAll(Marker(n) + rest, Marker(n), rep) == rep + ReplaceAll(rest, Marker(n), rep)
  {
    var t := Marker(n) + rest;
    assert t[..|Marker(n)|] == Marker(n);
    assert t[|Marker(n)|..] == rest;
  }

  lemma ReplaceOtherMark(m: string, rest: string, n: string, rep: string)
    requires NoDelims(m) && NoDelims(n) && m != n
    ensures ReplaceAll(Marker(m) + rest, Marker(n), rep) == Marker(m) + ReplaceAll(rest, Marker(n), rep)
  {
    var t := Marker(m) + rest;
    var pat := Marker(n);
    if |t| < |pat| {
      assert ReplaceAll(rest, pat, rep) == rest;
    } else {
      ReplaceOtherLong(m, rest, n, rep);
    }
  }

  lemma ReplaceOtherLong(m: string, rest: string, n: string, rep: string)
    requires NoDelims(m) && NoDelims(n) && m != n
    requires |Marker(m) + rest| >= |Marker(n)|
    ensures ReplaceAll(Marker(m) + rest, Marker(n), rep) == Marker(m) + ReplaceAll(rest, Marker(n), rep)
  {
    var t, pat, tail := Marker(m) + rest, Marker(n), m + [Close];
    assert t[..|m| + 2] == Marker(m);
    MarkerMismatch(m, n, t);
    assert ReplaceAll(t, pat, rep) == [Open] + ReplaceAll(t[1..], pat, rep);
    assert t[1..] == tail + rest;
    ReplaceLit(tail, rest, pat, rep);
    assert Marker(m) == [Open] + tail;
  }

  /** A marker is replaced exactly when it is the marker looked for. */
  lemma ReplaceMark(m: string, rest: string, n: string, rep: string)
    requires NoDelims(m) && NoDelims(n)
    ensures ReplaceAll(Marker(m) + rest, Marker(n), rep)
         == (if m == n then rep else Marker(m)) + ReplaceAll(rest, Marker(n), rep)
  {
    if m == n {
      ReplaceSameMark(n, rest, rep);
    } else {
      ReplaceOtherMark(m, rest, n, rep);
    }
  }

  /** One replacement pass over a clean template is the substitution of
      that field's markers. */
  lemma {:induction false} ReplaceTemplate(parts: seq<Part>, n: string, v: string)
    requires CleanParts(parts) && NoDelims(n)
    ensures ReplaceAll(Template(parts), Marker(n), v) == Template(Subst(parts, n, v))
  {
    if parts != [] {
      var p, ps := parts[0], parts[1..];
      assert parts == [p] + ps;
      assert CleanParts(ps) by {
        forall i | 0 <= i < |ps| ensures match ps[i] case Text(s) => Open !in s case Mark(k) => NoDelims(k) {
          assert ps[i] == parts[i + 1];
        }
      }
      ReplaceTemplate(ps, n, v);
      var sub := Subst(parts, n, v);
      assert sub == [sub[0]] + Subst(ps, n, v);
      TemplateCons(sub[0], Subst(ps, n, v));
      match p
      case Text(s) =>
        assert parts[0] == Text(s);
        ReplaceLit(s, Template(ps), Marker(n), v);
      case Mark(m) =>
        assert parts[0] == Mark(m);
        ReplaceMark(m, Template(ps), n, v);
    }
  }

  /** A pass with a value that cannot start a marker keeps the template clean. */
  lemma SubstClean(parts: seq<Part>, n: string, v: string)
    requires CleanParts(parts) && Open !in v
    ensures CleanParts(Subst(parts, n, v))
  {
    var r := Subst(parts, n, v);
    forall i | 0 <= i < |r| ensures match r[i] case Text(s) => Open !in s case Mark(k) => NoDelims(k) {
      assert r[i] == if parts[i] == Mark(n) then Text(v) else parts[i];
    }
  }

  /** Substituting the first field and then rendering the rest renders all. */
  lemma {:induction false} RenderSubst(parts: seq<Part>, n: string, rest: seq<string>, rec: Record)
    ensures RenderAll(Subst(parts, n, Get(rec, n, "")), rest, rec) == RenderAll(parts, [n] + rest, rec)
  {
    var a := RenderAll(Subst(parts, n, Get(rec, n, "")), rest, rec);
    var b := RenderAll(parts, [n] + rest, rec);
    forall i | 0 <= i < |parts| ensures a[i] == b[i] {
      assert forall k :: k in [n] + rest <==> k == n || k in rest;
    }
  }

  /** `_replace_merge_fields` on a clean template with clean record values
      computes the reference rendering: each marker of a listed field
      becomes the record's value (or the empty string), other markers and
      all literal text stay. */
  lemma {:induction false} ReplaceFieldsRenders(parts: seq<Part>, names: seq<string>, rec: Record)
    requires CleanParts(parts) && CleanNames(names) && CleanRecord(rec)
    ensures ReplaceFields(Template(parts), names, rec) == Template(RenderAll(parts, names, rec))
    decreases |names|
  {
    if names == [] {
      assert RenderAll(parts, names, rec) == parts;
    } else {
      var n, rest := names[0], names[1..];
      var v := Get(rec, n, "");
      assert Open !in v;
      ReplaceTemplate(parts, n, v);
      SubstClean(parts, n, v);
      ReplaceFieldsRenders(Subst(parts, n, v), rest, rec);
      RenderSubst(parts, n, rest, rec);
      assert names == [n] + rest;
    }
  }

  lemma {:induction false} MarkerNamesLit(s: string, rest: string)
    requires Open !in s
    ensures MarkerNames(s + rest) == MarkerNames(rest)
    decreases |s|
  {
    if s != [] {
      assert (s + rest)[1..] == s[1..] + rest;
      MarkerNamesLit(s[1..], rest);
    } else {
      assert s + rest == rest;
    }
  }

  lemma {:induction false} CloseAfterName(m: string, rest: string)
    requires Close !in m && '\n' !in m
    ensures CloseAt(m + [Close] + rest) == Some(|m|)
    decreases |m|
  {
    if m != [] {
      assert (m + [Close] + rest)[1..] == m[1..] + [Close] + rest;
      CloseAfterName(m[1..], rest);
    }
  }

  lemma MarkerNamesMark(m: string, rest: string)
    requires NoDelims(m) && '\n' !in m
    ensures MarkerNames(Marker(m) + rest) == [m] + MarkerNames(rest)
  {
    var t := Marker(m) + rest;
    assert t[1..] == m + [Close] + rest;
    CloseAfterName(m, rest);
    assert t[1..1 + |m|] == m;
    assert t[2 + |m|..] == rest;
  }

  /** On a clean template the pattern finds exactly the template's markers. */
  lemma {:induction false} MarkerNamesTemplate(parts: seq<Part>)
    requires CleanParts(parts) && SingleLine(parts)
    ensures MarkerNames(Template(parts)) == MarkNames(parts)
  {
    if parts != [] {
      var p, ps := parts[0], parts[1..];
      assert parts == [p] + ps;
      assert CleanParts(ps) && SingleLine(ps) by {
        forall i | 0 <= i < |ps| ensures ps[i] == parts[i + 1] { }
      }
      MarkerNamesTemplate(ps);
      match p
      case Text(s) =>
        assert parts[0] == Text(s);
        MarkerNamesLit(s, Template(ps));
      case Mark(m) =>
        assert parts[0] == Mark(m);
        MarkerNamesMark(m, Template(ps));
    }
  }

  /** The markers left after rendering are the unknown ones. */
  lemma {:induction false} MarkNamesRendered(parts: seq<Part>, names: seq<string>, rec: Record)
    ensures MarkNames(RenderAll(parts, names, rec)) == UnknownMarks(parts, names)
  {
    if parts != [] {
      MarkNamesRendered(parts[1..], names, rec);
      assert RenderAll(parts, names, rec)[1..] == RenderAll(parts[1..], names, rec);
    }
  }

  /** The rendering of a clean template with a clean record is clean, and
      its markers still have single-line names. */
  lemma RenderClean(parts: seq<Part>, names: seq<string>, rec: Record)
    requires CleanParts(parts) && SingleLine(parts) && CleanRecord(rec)
    ensures CleanParts(RenderAll(parts, names, rec)) && SingleLine(RenderAll(parts, names, rec))
  {
    var r := RenderAll(parts, names, rec);
    forall i | 0 <= i < |r| ensures
      (match r[i] case Text(s) => Open !in s case Mark(k) => NoDelims(k)) &&
      (r[i].Mark? ==> '\n' !in r[i].name)
    {
      assert r[i] == Render(parts[i], names, rec);
      if parts[i].Mark? && parts[i].name in names {
        assert Open !in Get(rec, parts[i].name, "");
      }
    }
  }

  /** After the merge, the pattern finds exactly the markers whose field
      the data source does not have, in document order. */
  lemma MergeLeavesUnknownMarkers(parts: seq<Part>, names: seq<string>, rec: Record)
    requires CleanParts(parts) && SingleLine(parts) && CleanNames(names) && CleanRecord(rec)
    ensures MarkerNames(ReplaceFields(Template(parts), names, rec)) == UnknownMarks(parts, names)
  {
    ReplaceFieldsRenders(parts, names, rec);
    RenderClean(parts, names, rec);
    MarkerNamesTemplate(RenderAll(parts, names, rec));
    MarkNamesRendered(parts, names, rec);
  }

  // ---------------------------------------------------------------------
  // Validation

  /** `validate_merge_fields` given the names found in the document: the
      invalid ones are those the data source lacks. Python's `set` makes
      the order of the returned list unspecified, so it is a set here. */
  function ValidateFields(found: seq<string>, names: seq<string>): (r: (bool, set<string>))
    ensures forall f :: f in r.1 <==> f in found && f !in names
    ensures r.0 <==> r.1 == {}
  {
    var invalid := set f | f in found && f !in names;
    (invalid == {}, invalid)
  }

  /** An unknown marker is a missing reference: validation passes on a
      clean template exactly when merging leaves no marker behind. */
  lemma ValidationMeansComplete(parts: seq<Part>, names: seq<string>, rec: Record)
    requires CleanParts(parts) && SingleLine(parts) && CleanNames(names) && CleanRecord(rec)
    ensures ValidateFields(MarkerNames(Template(parts)), names).0
        <==> MarkerNames(ReplaceFields(Template(parts), names, rec)) == []
  {
    MarkerNamesTemplate(parts);
    MergeLeavesUnknownMarkers(parts, names, rec);
    var u := UnknownMarks(parts, names);
    if u != [] {
      assert u[0] in u;
      assert u[0] in ValidateFields(MarkerNames(Template(parts)), names).1;
    }
  }

  // ---------------------------------------------------------------------
  // Serialisation

  function RecordValue(r: Record): (v: Value)
    ensures v.Pairs? && |v.entries| == |r|
  {
    Pairs(seq(|r|, i requires 0 <= i < |r| => (r[i].name, Str(r[i].value))))
  }

  /** `str(v)` for the scalar values a stored record can hold; `None` for
      floats, lists and dicts, whose Python text form is not modelled. */
  function PyStr(v: Value): (r: Option<string>)
    ensures r.Some? <==> v.Str? || v.Int? || v.Bool? || v.Null?
    ensures v.Str? ==> r == Some(v.s)
    ensures v.Int? ==> r.Some? && |r.value| >= 1
  {
    match v
    case Str(t) => Some(t)
    case Int(i) => Some(IntToString(i))
    case Bool(b) => Some(if b then "True" else "False")
    case Null => Some("None")
    case _ => None
  }

  /** The entries of a stored record, in order, each value as the text the
      merge substitutes for it. */
  function AsRecord(entries: seq<(string, Value)>): (r: Record)
    ensures |r| <= |entries|
    ensures (forall i :: 0 <= i < |entries| ==> entries[i].1.Str?) ==> |r| == |entries|
  {
    if entries == [] then []
    else (match PyStr(entries[0].1)
          case Some(t) => [Field(entries[0].0, t)]
          case None => []) + AsRecord(entries[1..])
  }

  /** Numbers, booleans and nulls merge as Python prints them. */
  lemma AsRecordScalars()
    ensures AsRecord([("n", Int(-3)), ("ok", Bool(true)), ("x", Null)]) ==
            [Field("n", "-3"), Field("ok", "True"), Field("x", "None")]
  {
    var e := [("n", Int(-3)), ("ok", Bool(true)), ("x", Null)];
    assert DigitChar(3) == '3';
    assert NatToString(3) == "3";
    assert IntToString(-3) == "-" + "3";
    assert "-" + "3" == "-3";
    assert PyStr(Int(-3)) == Some("-3");
    assert e[1..][1..][1..] == [];
    assert AsRecord(e[1..][1..]) == [Field("x", "None")] + [];
    assert AsRecord(e[1..]) == [Field("ok", "True")] + [Field("x", "None")];
    assert AsRecord(e) == [Field("n", "-3")] + [Field("ok", "True"), Field("x", "None")];
  }

  lemma {:induction false} AsRecordValue(r: Record)
    ensures AsRecord(RecordValue(r).entries) == r
  {
    if r != [] {
      assert RecordValue(r).entries[1..] == RecordValue(r[1..]).entries;
      AsRecordValue(r[1..]);
    }
  }

  function RecordsValue(rs: seq<Record>): (v: Value)
    ensures v.Arr? && |v.items| == |rs|
  {
    Arr(seq(|rs|, i requires 0 <= i < |rs| => RecordValue(rs[i])))
  }

  /** The records of a stored list, one per item, so that record indexes
      are kept; an item that is not a dict reads as the empty record, which
      the merge treats like the falsy value it stands for. */
  function AsRecords(items: seq<Value>): (r: seq<Record>)
    ensures |r| == |items|
    ensures forall i :: 0 <= i < |items| && items[i].Pairs? ==> r[i] == AsRecord(items[i].entries)
    ensures forall i :: 0 <= i < |items| && !items[i].Pairs? ==> r[i] == []
  {
    if items == [] then []
    else [if items[0].Pairs? then AsRecord(items[0].entries) else []] + AsRecords(items[1..])
  }

  lemma {:induction false} AsRecordsValue(rs: seq<Record>)
    ensures AsRecords(RecordsValue(rs).items) == rs
  {
    if rs != [] {
      assert RecordsValue(rs).items[1..] == RecordsValue(rs[1..]).items;
      AsRecordValue(rs[0]);
      AsRecordsValue(rs[1..]);
    }
  }

  /** What `DataSource.to_dict` writes and `from_dict` reads back. */
  datatype SourceData = SourceData(id: string, name: string, sourceType: string, filePath: Option<string>,
                                   records: seq<Record>, fieldNames: seq<string>, created: string)

  function SourceToDict(s: SourceData): (d: Dict)
    ensures d.Keys == {"id", "name", "source_type", "file_path", "records", "field_names", "created"}
  {
    map["id" := Str(s.id), "name" := Str(s.name), "source_type" := Str(s.sourceType),
        "file_path" := OptStrValue(s.filePath), "records" := RecordsValue(s.records),
        "field_names" := StrList(s.fieldNames), "created" := Str(s.created)]
  }

  /** `DataSource.from_dict`: `name` and `id` are required (a missing one
      raises KeyError, here `None`); the type defaults to 'csv', the path to
      None, the lists to empty, and the creation time to `now`. */
  function SourceFromDict(d: Dict, now: string): (r: Option<SourceData>)
    ensures r.Some? <==> "name" in d && "id" in d
    ensures r.Some? && "source_type" !in d ==> r.value.sourceType == "csv"
    ensures r.Some? && "file_path" !in d ==> r.value.filePath == None
    ensures r.Some? && "records" !in d ==> r.value.records == []
    ensures r.Some? && "field_names" !in d ==> r.value.fieldNames == []
    ensures r.Some? && "created" !in d ==> r.value.created == now
  {
    if "name" !in d || "id" !in d then None
    else Some(SourceData(
      GetStr(d, "id", ""), GetStr(d, "name", ""), GetStr(d, "source_type", "csv"),
      GetOptStr(d, "file_path"),
      if "records" in d && d["records"].Arr? then AsRecords(d["records"].items) else [],
      GetStrList(d, "field_names", []), GetStr(d, "created", now)))
  }

  /** `DataSource.from_dict(ds.to_dict())` restores every attribute. */
  lemma SourceRoundTrip(s: SourceData, now: string)
    ensures SourceFromDict(SourceToDict(s), now) == Some(s)
  {
    var d := SourceToDict(s);
    AsRecordsValue(s.records);
    GetStrListOf(d, "field_names", s.fieldNames, []);
  }

  /** A merge field: the marker's field name and where it was inserted. */
  datatype MergeField = MergeField(id: string, fieldName: string, position: int, formatString: Option<string>)

  function MergeFieldToDict(f: MergeField): (d: Dict)
    ensures d.Keys == {"id", "field_name", "position", "format_string"}
  {
    map["id" := Str(f.id), "field_name" := Str(f.fieldName), "position" := Int(f.position),
        "format_string" := OptStrValue(f.formatString)]
  }

  /** `MergeField.from_dict`: `field_name` and `id` are required, the
      position defaults to 0 and the format to None. */
  function MergeFieldFromDict(d: Dict): (r: Option<MergeField>)
    ensures r.Some? <==> "field_name" in d && "id" in d
    ensures r.Some? && "position" !in d ==> r.value.position == 0
    ensures r.Some? && "format_string" !in d ==> r.value.formatString == None
  {
    if "field_name" !in d || "id" !in d then None
    else Some(MergeField(GetStr(d, "id", ""), GetStr(d, "field_name", ""), GetInt(d, "position", 0),
                         GetOptStr(d, "format_string")))
  }

  lemma MergeFieldRoundTrip(f: MergeField)
    ensures MergeFieldFromDict(MergeFieldToDict(f)) == Some(f)
  {
  }

  // ---------------------------------------------------------------------
  // Data sources and the manager

  class DataSource {
    var id: string
    var name: string
    var sourceType: string
    var filePath: Option<string>
    var records: seq<Record>
    var fieldNames: seq<string>
    var created: string

    /** `id` is the uuid4 and `now` the creation time. */
    constructor (id0: string, name0: string, sourceType0: string, now: string)
      ensures id == id0 && name == name0 && sourceType == sourceType0 && filePath == None
      ensures records == [] && fieldNames == [] && created == now
    {
      id := id0;
      name := name0;
      sourceType := sourceType0;
      filePath := None;
      records := [];
      fieldNames := [];
      created := now;
    }

    function State(): SourceData
      reads this
    {
      SourceData(id, name, sourceType, filePath, records, fieldNames, created)
    }

    /** `add_manual_record`: new keys join the field names, in key order,
        and the record is appended. */
    method AddManualRecord(record: Record)
      modifies this`records, this`fieldNames
      ensures records == old(records) + [record]
      ensures fieldNames == ExtendNames(old(fieldNames), Keys(record))
    {
      var keys := Keys(record);
      var i := 0;
      assert keys[i..] == keys;
      while i < |keys|
        invariant 0 <= i <= |keys|
        invariant ExtendNames(fieldNames, keys[i..]) == ExtendNames(old(fieldNames), keys)
        invariant records == old(records)
      {
        assert keys[i..][1..] == keys[i + 1..];
        if keys[i] !in fieldNames {
          fieldNames := fieldNames + [keys[i]];
        }
        i := i + 1;
      }
      assert keys[i..] == [];
      records := records + [record];
    }

    /** `get_record`: the record at an in-range index, otherwise None. */
    function GetRecord(index: int): (r: Option<Record>)
      reads this
      ensures r.Some? <==> 0 <= index < |records|
      ensures r.Some? ==> r.value == records[index]
    {
      if 0 <= index < |records| then Some(records[index]) else None
    }

    /** `get_field_value`: the empty string for a missing or empty record
        and for a missing field. */
    function GetFieldValue(recordIndex: int, fieldName: string): (v: string)
      reads this
      ensures !(0 <= recordIndex < |records|) ==> v == ""
      ensures 0 <= recordIndex < |records| && fieldName !in Keys(records[recordIndex]) ==> v == ""
      ensures 0 <= recordIndex < |records| && fieldName in Keys(records[recordIndex]) ==>
        Field(fieldName, v) in records[recordIndex]
    {
      match GetRecord(recordIndex)
      case None => ""
      case Some(r) => if r == [] then "" else Get(r, fieldName, "")
    }

    function ToDict(): (d: Dict)
      reads this
      ensures SourceFromDict(d, created) == Some(State())
    {
      SourceRoundTrip(State(), created);
      SourceToDict(State())
    }

    /** `DataSource.from_dict`, building a new object. */
    static method FromDict(d: Dict, newId: string, now: string) returns (ds: DataSource?)
      ensures ds == null <==> SourceFromDict(d, now).None?
      ensures ds != null ==> fresh(ds) && ds.State() == SourceFromDict(d, now).value
    {
      match SourceFromDict(d, now)
      case None =>
        ds := null;
      case Some(s) =>
        ds := new DataSource(newId, s.name, s.sourceType, now);
        ds.id := s.id;
        ds.filePath := s.filePath;
        ds.records := s.records;
        ds.fieldNames := s.fieldNames;
        ds.created := s.created;
    }
  }

  /** The ids of a list of data sources, in order. */
  function IdsOf(ss: seq<DataSource>): (r: seq<string>)
    reads ss
    ensures |r| == |ss|
    ensures forall i :: 0 <= i < |ss| ==> r[i] == ss[i].id
  {
    if ss == [] then [] else [ss[0].id] + IdsOf(ss[1..])
  }

  /** The first position of `x` in `xs`. */
  function IndexOf(xs: seq<string>, x: string): (k: nat)
    requires x in xs
    ensures k < |xs| && xs[k] == x
    ensures forall j :: 0 <= j < k ==> xs[j] != x
  {
    if xs[0] == x then 0 else 1 + IndexOf(xs[1..], x)
  }

  /** The path `save_merged_documents` writes document `i` (counted from 1) to. */
  function MergedPath(outputDir: string, baseName: string, i: nat): string
  {
    outputDir + "/" + baseName + "_" + NatToString(i) + ".txt"
  }

  lemma MergedPathInjective(outputDir: string, baseName: string, i: nat, j: nat)
    requires MergedPath(outputDir, baseName, i) == MergedPath(outputDir, baseName, j)
    ensures i == j
  {
    var pre := outputDir + "/" + baseName + "_";
    var a, b := MergedPath(outputDir, baseName, i), MergedPath(outputDir, baseName, j);
    assert a == pre + NatToString(i) + ".txt";
    assert b == pre + NatToString(j) + ".txt";
    assert |NatToString(i)| == |NatToString(j)|;
    assert a[|pre|..|a| - 4] == NatToString(i);
    assert b[|pre|..|b| - 4] == NatToString(j);
    NatToStringInjective(i, j);
  }

  /** The paths saved, in order: those of the documents whose write
      succeeded (`written`), numbered from `first`. */
  function SavedPaths(outputDir: string, baseName: string, written: seq<bool>, first: nat): (r: seq<string>)
    ensures |r| <= |written|
    ensures forall p :: p in r ==> exists i :: first <= i < first + |written| && p == MergedPath(outputDir, baseName, i)
  {
    if written == [] then []
    else (if written[0] then [MergedPath(outputDir, baseName, first)] else [])
         + SavedPaths(outputDir, baseName, written[1..], first + 1)
  }

  /** No file is reported twice. */
  lemma {:induction false} SavedPathsDistinct(outputDir: string, baseName: string, written: seq<bool>, first: nat)
    ensures Distinct(SavedPaths(outputDir, baseName, written, first))
    decreases |written|
  {
    if written != [] {
      var rest := SavedPaths(outputDir, baseName, written[1..], first + 1);
      SavedPathsDistinct(outputDir, baseName, written[1..], first + 1);
      if written[0] {
        var p := MergedPath(outputDir, baseName, first);
        if p in rest {
          var i :| first + 1 <= i < first + |written| && p == MergedPath(outputDir, baseName, i);
          MergedPathInjective(outputDir, baseName, first, i);
        }
        var r := [p] + rest;
        forall a, b | 0 <= a < b < |r| ensures r[a] != r[b] {
          if a > 0 {
            assert r[a] == rest[a - 1] && r[b] == rest[b - 1];
          } else {
            assert r[b] == rest[b - 1] && r[b] in rest;
          }
        }
      }
    }
  }

  /** Every successful write is reported, with its own number. */
  lemma {:induction false} SavedPathsComplete(outputDir: string, baseName: string, written: seq<bool>, first: nat, k: nat)
    requires k < |written| && written[k]
    ensures MergedPath(outputDir, baseName, first + k) in SavedPaths(outputDir, baseName, written, first)
    decreases |written|
  {
    if k > 0 {
      SavedPathsComplete(outputDir, baseName, written[1..], first + 1, k - 1);
    }
  }

  class MailMergeManager {
    var dataSources: seq<DataSource>
    var activeDataSource: DataSource?
    var mergeFields: seq<MergeField>
    var previewRecordIndex: int
    /** The editor's plain text. */
    var document: string

    constructor (text: string)
      ensures dataSources == [] && activeDataSource == null && mergeFields == []
      ensures previewRecordIndex == 0 && document == text
    {
      dataSources := [];
      activeDataSource := null;
      mergeFields := [];
      previewRecordIndex := 0;
      document := text;
    }

    /** `add_data_source`: appended; it becomes active only if none is. */
    method AddDataSource(ds: DataSource) returns (r: DataSource)
      modifies this`dataSources, this`activeDataSource
      ensures r == ds && dataSources == old(dataSources) + [ds]
      ensures old(activeDataSource) == null ==> activeDataSource == ds
      ensures old(activeDataSource) != null ==> activeDataSource == old(activeDataSource)
    {
      dataSources := dataSources + [ds];
      if activeDataSource == null {
        activeDataSource := ds;
      }
      r := ds;
    }

    /** `set_active_data_source`: the first source with the id becomes
        active; an unknown id gives False and changes nothing. */
    method SetActiveDataSource(dataSourceId: string) returns (ok: bool)
      modifies this`activeDataSource
      ensures ok <==> dataSourceId in IdsOf(dataSources)
      ensures ok ==> activeDataSource == dataSources[IndexOf(IdsOf(dataSources), dataSourceId)]
      ensures !ok ==> activeDataSource == old(activeDataSource)
    {
      var i := 0;
      while i < |dataSources| && dataSources[i].id != dataSourceId
        invariant 0 <= i <= |dataSources|
        invariant forall j :: 0 <= j < i ==> dataSources[j].id != dataSourceId
      {
        i := i + 1;
      }
      if i == |dataSources| {
        return false;
      }
      IndexOfAt(IdsOf(dataSources), dataSourceId, i);
      activeDataSource := dataSources[i];
      return true;
    }

    /** `get_data_source_by_id`. */
    method GetDataSourceById(dataSourceId: string) returns (ds: DataSource?)
      ensures ds == null <==> dataSourceId !in IdsOf(dataSources)
      ensures ds != null ==> ds == dataSources[IndexOf(IdsOf(dataSources), dataSourceId)]
    {
      var i := 0;
      while i < |dataSources|
        invariant 0 <= i <= |dataSources|
        invariant forall j :: 0 <= j < i ==> dataSources[j].id != dataSourceId
      {
        if dataSources[i].id == dataSourceId {
          IndexOfAt(IdsOf(dataSources), dataSourceId, i);
          return dataSources[i];
        }
        i := i + 1;
      }
      return null;
    }

    /** `insert_merge_field`: refused (None) without an active source or
        for a field it does not have. Otherwise the field is recorded and
        its marker is inserted at the given position, or at the editor's
        cursor when none is given. A given position outside the document
        leaves the new text cursor at 0, where the marker then goes. */
    method InsertMergeField(fieldName: string, position: Option<int>, cursor: int, newId: string)
      returns (r: Option<MergeField>)
      requires 0 <= cursor <= |document|
      modifies this`mergeFields, this`document
      ensures activeDataSource == null || fieldName !in activeDataSource.fieldNames ==>
        r == None && mergeFields == old(mergeFields) && document == old(document)
      ensures activeDataSource != null && fieldName in activeDataSource.fieldNames ==>
        var pos := if position.Some? then position.value else cursor;
        var at := if position.None? then cursor else if 0 <= pos <= |old(document)| then pos else 0;
        r == Some(MergeField(newId, fieldName, pos, None)) &&
        mergeFields == old(mergeFields) + [r.value] &&
        document == old(document)[..at] + Marker(fieldName) + old(document)[at..]
    {
      if activeDataSource == null || fieldName !in activeDataSource.fieldNames {
        return None;
      }
      var pos := if position.Some? then position.value else cursor;
      var at := if position.None? then cursor else if 0 <= pos <= |document| then pos else 0;
      var f := MergeField(newId, fieldName, pos, None);
      mergeFields := mergeFields + [f];
      document := document[..at] + Marker(fieldName) + document[at..];
      r := Some(f);
    }

    /** `preview_merge`: False without an active source or when the index
        (by default the preview index) is not below the record count. The
        merged text itself is not kept. */
    function PreviewMerge(recordIndex: Option<int>): (ok: bool)
      reads this, activeDataSource
      ensures activeDataSource == null ==> !ok
      ensures activeDataSource != null ==>
        (ok <==> (if recordIndex.Some? then recordIndex.value else previewRecordIndex) < |activeDataSource.records|)
    {
      if activeDataSource == null then false
      else
        var i := if recordIndex.Some? then recordIndex.value else previewRecordIndex;
        i < |activeDataSource.records|
    }

    /** What `_replace_merge_fields` returns: the text itself without an
        active source, for an index with no record and for an empty record;
        otherwise the text with the record's values put in. */
    function MergedText(text: string, recordIndex: int): (r: string)
      reads this, activeDataSource
      ensures activeDataSource == null ==> r == text
      ensures activeDataSource != null && activeDataSource.GetRecord(recordIndex).None? ==> r == text
      ensures activeDataSource != null && activeDataSource.GetRecord(recordIndex) == Some([]) ==> r == text
    {
      if activeDataSource == null then text
      else match activeDataSource.GetRecord(recordIndex)
        case None => text
        case Some(rec) =>
          if rec == [] then text else ReplaceFields(text, activeDataSource.fieldNames, rec)
    }

    /** `_replace_merge_fields`, with its loop over the field names. */
    method ReplaceMergeFields(text: string, recordIndex: int) returns (result: string)
      ensures result == MergedText(text, recordIndex)
    {
      if activeDataSource == null {
        return text;
      }
      var record := activeDataSource.GetRecord(recordIndex);
      if record.None? || record.value == [] {
        return text;
      }
      var rec := record.value;
      var names := activeDataSource.fieldNames;
      result := text;
      var i := 0;
      assert names[i..] == names;
      while i < |names|
        invariant 0 <= i <= |names|
        invariant ReplaceFields(result, names[i..], rec) == ReplaceFields(text, names, rec)
      {
        assert names[i..][1..] == names[i + 1..];
        result := ReplaceAll(result, Marker(names[i]), Get(rec, names[i], ""));
        i := i + 1;
      }
      assert names[i..] == [];
    }

    /** `complete_merge`: no documents without an active source or without
        records; otherwise one merged text per record, in record order. */
    method CompleteMerge() returns (docs: seq<string>)
      ensures activeDataSource == null ==> docs == []
      ensures activeDataSource != null ==> |docs| == |activeDataSource.records|
      ensures forall i :: 0 <= i < |docs| ==> docs[i] == MergedText(document, i)
    {
      if activeDataSource == null || activeDataSource.records == [] {
        return [];
      }
      var template := document;
      var n := |activeDataSource.records|;
      docs := [];
      var i := 0;
      while i < n
        invariant 0 <= i <= n && |docs| == i
        invariant forall j :: 0 <= j < i ==> docs[j] == MergedText(template, j)
      {
        var merged := ReplaceMergeFields(template, i);
        docs := docs + [merged];
        i := i + 1;
      }
    }

    /** `get_merge_fields_in_document`, as the set of names found. */
    function MergeFieldsInDocument(): (r: set<string>)
      reads this
      ensures forall f :: f in r <==> f in MarkerNames(document)
    {
      set f | f in MarkerNames(document)
    }

    /** `validate_merge_fields`: without an active source the answer is
        False with the one message; otherwise the document's fields the
        source lacks, valid exactly when there are none. */
    function ValidateMergeFields(): (r: (bool, set<string>))
      reads this, activeDataSource
      ensures activeDataSource == null ==> r == (false, {"No data source selected"})
      ensures activeDataSource != null ==>
        (forall f :: f in r.1 <==> f in MarkerNames(document) && f !in activeDataSource.fieldNames) &&
        (r.0 <==> r.1 == {})
    {
      if activeDataSource == null then (false, {"No data source selected"})
      else ValidateFields(MarkerNames(document), activeDataSource.fieldNames)
    }

    /** `save_merged_documents`: each document goes to its numbered path;
        `written[i]` says whether that write succeeded. */
    method SaveMergedDocuments(documents: seq<string>, outputDir: string, baseName: string, written: seq<bool>)
      returns (saved: seq<string>)
      requires |written| == |documents|
      ensures saved == SavedPaths(outputDir, baseName, written, 1)
    {
      saved := [];
      var i := 0;
      while i < |documents|
        invariant 0 <= i <= |documents|
        invariant saved + SavedPaths(outputDir, baseName, written[i..], i + 1) == SavedPaths(outputDir, baseName, written, 1)
      {
        assert written[i..][1..] == written[i + 1..];
        if written[i] {
          saved := saved + [MergedPath(outputDir, baseName, i + 1)];
        }
        i := i + 1;
      }
      assert written[i..] == [];
    }
  }

  lemma IndexOfAt(xs: seq<string>, x: string, i: nat)
    requires i < |xs| && xs[i] == x
    requires forall j :: 0 <= j < i ==> xs[j] != x
    ensures IndexOf(xs, x) == i
  {
  }
}
