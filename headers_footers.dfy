/** Headers and footers (`pyword/features/headers_footers.py`), for a
    manager created without a document: every setter changes only the
    manager's dictionary of the six header and footer entries, and no frame
    of a document is touched. */
module HeadersFooters {
  import opened Common
  import opened Json

  datatype HeaderFooterType =
    | Header | Footer | FirstPageHeader | FirstPageFooter | EvenPageHeader | EvenPageFooter

  /** The enum member's name, the key `to_dict` writes. */
  function TypeName(t: HeaderFooterType): string
  {
    match t
    case Header => "HEADER"
    case Footer => "FOOTER"
    case FirstPageHeader => "FIRST_PAGE_HEADER"
    case FirstPageFooter => "FIRST_PAGE_FOOTER"
    case EvenPageHeader => "EVEN_PAGE_HEADER"
    case EvenPageFooter => "EVEN_PAGE_FOOTER"
  }

  /** `HeaderFooterType[name]`: `None` where the lookup raises KeyError. */
  function TypeFromName(name: string): (r: Option<HeaderFooterType>)
    ensures r.Some? ==> TypeName(r.value) == name
    ensures r.None? ==> forall t :: TypeName(t) != name
  {
    if name == "HEADER" then Some(Header)
    else if name == "FOOTER" then Some(Footer)
    else if name == "FIRST_PAGE_HEADER" then Some(FirstPageHeader)
    else if name == "FIRST_PAGE_FOOTER" then Some(FirstPageFooter)
    else if name == "EVEN_PAGE_HEADER" then Some(EvenPageHeader)
    else if name == "EVEN_PAGE_FOOTER" then Some(EvenPageFooter)
    else None
  }

  lemma TypeNameRoundTrip(t: HeaderFooterType)
    ensures TypeFromName(TypeName(t)) == Some(t)
  {
  }

  const AllTypes: set<HeaderFooterType> :=
    {Header, Footer, FirstPageHeader, FirstPageFooter, EvenPageHeader, EvenPageFooter}

  lemma AllTypesComplete(t: HeaderFooterType)
    ensures t in AllTypes
  {
  }

  /** The order in which a new manager's dictionary holds the types. */
  const TypeOrder: seq<HeaderFooterType> :=
    [FirstPageHeader, FirstPageFooter, Header, Footer, EvenPageHeader, EvenPageFooter]

  /** The position of a type in `TypeOrder`. */
  function Rank(t: HeaderFooterType): (r: nat)
    ensures r < |TypeOrder| && TypeOrder[r] == t
  {
    match t
    case FirstPageHeader => 0
    case FirstPageFooter => 1
    case Header => 2
    case Footer => 3
    case EvenPageHeader => 4
    case EvenPageFooter => 5
  }

  /** Advancing through `TypeOrder` by one position passes exactly the type
      at that position. */
  lemma RankStep(i: nat)
    requires i < |TypeOrder|
    ensures Rank(TypeOrder[i]) == i
    ensures forall t :: Rank(t) < i + 1 ==> Rank(t) < i || t == TypeOrder[i]
    ensures forall t :: Rank(t) >= i && t != TypeOrder[i] ==> Rank(t) >= i + 1
  {
  }

  predicate IsHeader(t: HeaderFooterType)
  {
    t == Header || t == FirstPageHeader || t == EvenPageHeader
  }

  predicate IsFooter(t: HeaderFooterType)
  {
    t == Footer || t == FirstPageFooter || t == EvenPageFooter
  }

  /** Position is in millimetres from the top (header) or bottom (footer). */
  datatype HeaderFooter = HeaderFooter(content: string, isLinkedToPrevious: bool, position: real)

  function EntryToDict(h: HeaderFooter): (d: Dict)
    ensures d.Keys == {"content", "is_linked_to_previous", "position"}
  {
    map["content" := Str(h.content), "is_linked_to_previous" := Bool(h.isLinkedToPrevious),
        "position" := Real(h.position)]
  }

  /** `HeaderFooter.from_dict`: every key is optional, with the dataclass
      defaults. */
  function EntryFromDict(d: Dict): (h: HeaderFooter)
    ensures "content" !in d ==> h.content == ""
    ensures "is_linked_to_previous" !in d ==> h.isLinkedToPrevious
    ensures "position" !in d ==> h.position == 0.0
  {
    HeaderFooter(GetStr(d, "content", ""), GetBool(d, "is_linked_to_previous", true), GetReal(d, "position", 0.0))
  }

  lemma EntryRoundTrip(h: HeaderFooter)
    ensures EntryFromDict(EntryToDict(h)) == h
  {
  }

  /** The entries of a new manager: first-page ones unlinked, the rest
      linked, all empty at 12.7 mm. */
  function DefaultHeaders(): (m: map<HeaderFooterType, HeaderFooter>)
    ensures forall t :: t in m ==> m[t].content == "" && m[t].position == 127.0 / 10.0
    ensures forall t :: t in m ==> (!m[t].isLinkedToPrevious <==> t == FirstPageHeader || t == FirstPageFooter)
  {
    map[FirstPageHeader := HeaderFooter("", false, 127.0 / 10.0),
        FirstPageFooter := HeaderFooter("", false, 127.0 / 10.0),
        Header := HeaderFooter("", true, 127.0 / 10.0),
        Footer := HeaderFooter("", true, 127.0 / 10.0),
        EvenPageHeader := HeaderFooter("", true, 127.0 / 10.0),
        EvenPageFooter := HeaderFooter("", true, 127.0 / 10.0)]
  }

  /** A new manager has an entry for every type. */
  lemma DefaultHeadersComplete(t: HeaderFooterType)
    ensures t in DefaultHeaders()
  {
    match t
    case Header =>
    case Footer =>
    case FirstPageHeader =>
    case FirstPageFooter =>
    case EvenPageHeader =>
    case EvenPageFooter =>
  }

  /** The stored entries `from_dict` would apply, keyed by the type they
      name: a known name whose value is a dictionary. */
  predicate Applies(fields: map<string, Value>, t: HeaderFooterType)
  {
    TypeName(t) in fields && fields[TypeName(t)].Obj?
  }

  /** `from_dict` raises (AttributeError) on a known name whose value is not
      a dictionary; unknown names are skipped. */
  predicate Loadable(fields: map<string, Value>)
  {
    forall t :: TypeName(t) in fields ==> fields[TypeName(t)].Obj?
  }

  /** The entries after a `from_dict` that does not raise: each named type
      is replaced and every other keeps its value. */
  function Loaded(m: map<HeaderFooterType, HeaderFooter>, fields: map<string, Value>)
    : (r: map<HeaderFooterType, HeaderFooter>)
    ensures r.Keys == m.Keys
    ensures forall t :: t in r && !Applies(fields, t) ==> r[t] == m[t]
    ensures forall t :: t in r && Applies(fields, t) ==> r[t] == EntryFromDict(fields[TypeName(t)].fields)
  {
    map t | t in m ::
      if Applies(fields, t) then EntryFromDict(fields[TypeName(t)].fields) else m[t]
  }

  /** The `headers` object `to_dict` writes. */
  function HeadersValue(m: map<HeaderFooterType, HeaderFooter>): (fields: map<string, Value>)
    requires forall t :: t in m
    ensures forall t :: TypeName(t) in fields && fields[TypeName(t)] == Obj(EntryToDict(m[t]))
  {
    map["FIRST_PAGE_HEADER" := Obj(EntryToDict(m[FirstPageHeader])),
        "FIRST_PAGE_FOOTER" := Obj(EntryToDict(m[FirstPageFooter])),
        "HEADER" := Obj(EntryToDict(m[Header])),
        "FOOTER" := Obj(EntryToDict(m[Footer])),
        "EVEN_PAGE_HEADER" := Obj(EntryToDict(m[EvenPageHeader])),
        "EVEN_PAGE_FOOTER" := Obj(EntryToDict(m[EvenPageFooter]))]
  }

  /** What `to_dict` writes, `from_dict` restores in full. */
  lemma HeadersRoundTrip(m: map<HeaderFooterType, HeaderFooter>, current: map<HeaderFooterType, HeaderFooter>)
    requires forall t :: t in m && t in current
    ensures Loadable(HeadersValue(m)) && Loaded(current, HeadersValue(m)) == m
  {
    LoadedFromWritten(m, current, HeadersValue(m));
  }

  /** Any object holding every entry as `to_dict` writes it loads back to
      those entries. */
  lemma LoadedFromWritten(m: map<HeaderFooterType, HeaderFooter>, current: map<HeaderFooterType, HeaderFooter>,
                          fields: map<string, Value>)
    requires forall t :: t in m && t in current
    requires forall t :: TypeName(t) in fields && fields[TypeName(t)] == Obj(EntryToDict(m[t]))
    ensures Loadable(fields) && Loaded(current, fields) == m
  {
    forall t ensures Applies(fields, t) && Loaded(current, fields)[t] == m[t] {
      EntryRoundTrip(m[t]);
    }
  }

  /** Names that are no entry type change nothing. */
  lemma UnknownNamesIgnored(m: map<HeaderFooterType, HeaderFooter>, fields: map<string, Value>)
    requires forall name :: name in fields ==> TypeFromName(name).None?
    ensures Loadable(fields) && Loaded(m, fields) == m
  {
    forall t ensures !Applies(fields, t) {
      TypeNameRoundTrip(t);
    }
  }

  /** The stored `headers` dictionary: empty when missing, `None` when it
      is not a dictionary (its `items()` raises). */
  function HeaderFields(data: Dict): (r: Option<map<string, Value>>)
    ensures "headers" !in data ==> r == Some(map[])
  {
    if "headers" !in data then Some(map[])
    else if data["headers"].Obj? then Some(data["headers"].fields)
    else None
  }

  class HeaderFooterManager {
    var headers: map<HeaderFooterType, HeaderFooter>

    /** All six entries are present; nothing removes one. */
    predicate Valid()
      reads this
    {
      forall t :: t in headers
    }

    constructor ()
      ensures headers == DefaultHeaders() && Valid()
    {
      headers := DefaultHeaders();
      new;
      forall t ensures t in headers {
        DefaultHeadersComplete(t);
      }
    }

    /** `set_header`: sets the content of a header entry; a footer type is
        ignored. */
    method SetHeader(content: string, t: HeaderFooterType)
      requires Valid()
      modifies this
      ensures Valid()
      ensures IsHeader(t) ==> headers == old(headers)[t := old(headers)[t].(content := content)]
      ensures !IsHeader(t) ==> headers == old(headers)
    {
      if IsHeader(t) {
        headers := headers[t := headers[t].(content := content)];
      }
    }

    /** `set_footer`: symmetric to `SetHeader`. */
    method SetFooter(content: string, t: HeaderFooterType)
      requires Valid()
      modifies this
      ensures Valid()
      ensures IsFooter(t) ==> headers == old(headers)[t := old(headers)[t].(content := content)]
      ensures !IsFooter(t) ==> headers == old(headers)
    {
      if IsFooter(t) {
        headers := headers[t := headers[t].(content := content)];
      }
    }

    /** `set_header_footer_content`: every type is a header or a footer, so
        the content of the named entry is always set. */
    method SetHeaderFooterContent(t: HeaderFooterType, content: string)
      requires Valid()
      modifies this
      ensures Valid()
      ensures headers == old(headers)[t := old(headers)[t].(content := content)]
    {
      if IsHeader(t) {
        SetHeader(content, t);
      } else if IsFooter(t) {
        SetFooter(content, t);
      }
    }

    /** `set_position`: only the named entry changes. */
    method SetPosition(position: real, t: HeaderFooterType)
      modifies this
      ensures t in old(headers) ==> headers == old(headers)[t := old(headers)[t].(position := position)]
      ensures t !in old(headers) ==> headers == old(headers)
      ensures old(Valid()) ==> Valid()
    {
      if t in headers {
        headers := headers[t := headers[t].(position := position)];
      }
    }

    /** `set_linked_to_previous`: only the named entry changes. */
    method SetLinkedToPrevious(linked: bool, t: HeaderFooterType)
      modifies this
      ensures t in old(headers) ==> headers == old(headers)[t := old(headers)[t].(isLinkedToPrevious := linked)]
      ensures t !in old(headers) ==> headers == old(headers)
      ensures old(Valid()) ==> Valid()
    {
      if t in headers {
        headers := headers[t := headers[t].(isLinkedToPrevious := linked)];
      }
    }

    /** `get_header_footer`. */
    function GetHeaderFooter(t: HeaderFooterType): (r: Option<HeaderFooter>)
      reads this
      ensures t in headers ==> r == Some(headers[t])
      ensures t !in headers ==> r == None
    {
      if t in headers then Some(headers[t]) else None
    }

    /** `to_dict`: one entry per type, under the type's name. */
    function ToDict(): (d: Dict)
      requires Valid()
      reads this
      ensures d.Keys == {"headers"} && d["headers"].Obj?
      ensures forall t :: TypeName(t) in d["headers"].fields
    {
      var fields := HeadersValue(headers);
      var d := map["headers" := Obj(fields)];
      assert d.Keys == {"headers"} && d["headers"].fields == fields;
      d
    }

    /** The loop of `from_dict` over the stored entries, visiting the known
        names in the dictionary's own order of types. */
    method LoadEntries(fields: map<string, Value>) returns (ok: bool)
      requires Valid()
      modifies this
      ensures Valid()
      ensures ok <==> Loadable(fields)
      ensures forall t :: headers[t] == old(headers)[t] || headers[t] == Loaded(old(headers), fields)[t]
      ensures ok ==> forall t :: headers[t] == Loaded(old(headers), fields)[t]
    {
      ghost var target := Loaded(headers, fields);
      var h := headers;
      var i := 0;
      while i < |TypeOrder|
        invariant 0 <= i <= |TypeOrder|
        invariant forall t :: t in h
        invariant forall t :: Rank(t) >= i ==> h[t] == old(headers)[t]
        invariant forall t :: Rank(t) < i ==> h[t] == target[t]
        invariant forall t :: Rank(t) < i && TypeName(t) in fields ==> fields[TypeName(t)].Obj?
      {
        var t := TypeOrder[i];
        RankStep(i);
        var name := TypeName(t);
        if name in fields {
          if !fields[name].Obj? {
            headers := h;
            return false;
          }
          h := h[t := EntryFromDict(fields[name].fields)];
        }
        assert h[t] == target[t];
        i := i + 1;
      }
      headers := h;
      ok := true;
    }

    /** `from_dict`: each stored entry under a known name replaces that
        entry; unknown names are skipped. A known name whose value is not a
        dictionary raises (False here) after the entries the loop reached
        first were replaced, so each entry is then either old or loaded. A
        `headers` value that is not a dictionary raises before anything
        changes. */
    method FromDict(data: Dict) returns (ok: bool)
      requires Valid()
      modifies this
      ensures Valid()
      ensures HeaderFields(data).None? ==> !ok && headers == old(headers)
      ensures HeaderFields(data).Some? ==> (ok <==> Loadable(HeaderFields(data).value))
      ensures ok ==> headers == Loaded(old(headers), HeaderFields(data).value)
      ensures HeaderFields(data).Some? ==> var fields := HeaderFields(data).value;
        forall t :: headers[t] == old(headers)[t] ||
                    (Applies(fields, t) && headers[t] == EntryFromDict(fields[TypeName(t)].fields))
    {
      var hf := HeaderFields(data);
      if hf.None? {
        return false;
      }
      ok := LoadEntries(hf.value);
      if ok {
        assert headers == Loaded(old(headers), hf.value);
      }
    }
  }
}
