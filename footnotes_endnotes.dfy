/** The simple note manager of `pyword/features/footnotes_endnotes.py`: two
    lists of notes numbered 1, 2, ... in list order. */
module FootnotesEndnotes {
  import opened Common
  import opened Numerals
  import opened Json

  datatype Note = Note(number: int, text: string, position: int)

  function NoteToDict(n: Note): (d: Dict)
    ensures d.Keys == {"number", "text", "position"}
  {
    map["number" := Int(n.number), "text" := Str(n.text), "position" := Int(n.position)]
  }

  /** `Note.from_dict`, with defaults 0, "" and 0. */
  function NoteFromDict(d: Dict): (n: Note)
    ensures "number" !in d ==> n.number == 0
    ensures "text" !in d ==> n.text == ""
    ensures "position" !in d ==> n.position == 0
  {
    Note(GetInt(d, "number", 0), GetStr(d, "text", ""), GetInt(d, "position", 0))
  }

  lemma NoteRoundTrip(n: Note)
    ensures NoteFromDict(NoteToDict(n)) == n
  {
  }

  /** The state every add, remove and renumber keeps: note `i` carries the
      number `i + 1`. */
  predicate Sequential(ns: seq<Note>)
  {
    forall i :: 0 <= i < |ns| ==> ns[i].number == i + 1
  }

  predicate HasNumber(number: int, n: Note) { n.number == number }

  /** In a sequentially numbered list the note numbered `k` is the one at
      index `k - 1`, and no other number is present. */
  lemma LookupSequential(ns: seq<Note>, number: int)
    ensures Sequential(ns) ==> (FirstIndex(ns, n => HasNumber(number, n)).Some? <==> 1 <= number <= |ns|)
    ensures Sequential(ns) && 1 <= number <= |ns| ==> FirstIndex(ns, n => HasNumber(number, n)) == Some(number - 1)
  {
    if !Sequential(ns) {
      return;
    }
    var r := FirstIndex(ns, n => HasNumber(number, n));
    if 1 <= number <= |ns| {
      assert HasNumber(number, ns[number - 1]);
      assert r.Some?;
      if r.value != number - 1 {
        assert ns[r.value].number == r.value + 1;
      }
    } else if r.Some? {
      assert ns[r.value].number == r.value + 1;
    }
  }

  /** The list as `to_dict` writes it. */
  function NotesToValue(ns: seq<Note>): (v: Value)
    ensures v.Arr? && |v.items| == |ns|
  {
    Arr(seq(|ns|, i requires 0 <= i < |ns| => Obj(NoteToDict(ns[i]))))
  }

  /** The list as `from_dict` reads it back, each item by `Note.from_dict`;
      `None` where an item is not a dictionary, on which `data.get` raises
      AttributeError. */
  function NotesFromValues(items: seq<Value>): (r: Option<seq<Note>>)
    ensures r.Some? <==> forall i :: 0 <= i < |items| ==> items[i].Obj?
    ensures r.Some? ==> |r.value| == |items|
    ensures r.Some? ==> forall i :: 0 <= i < |items| ==> r.value[i] == NoteFromDict(items[i].fields)
  {
    if forall i :: 0 <= i < |items| ==> items[i].Obj? then
      Some(seq(|items|, i requires 0 <= i < |items| => NoteFromDict(if items[i].Obj? then items[i].fields else map[])))
    else None
  }

  lemma NotesRoundTrip(ns: seq<Note>)
    ensures NotesFromValues(NotesToValue(ns).items) == Some(ns)
  {
    var items := NotesToValue(ns).items;
    assert forall i :: 0 <= i < |items| ==> items[i].Obj?;
    var back := NotesFromValues(items).value;
    forall i | 0 <= i < |ns|
      ensures back[i] == ns[i]
    {
      NoteRoundTrip(ns[i]);
    }
    assert back == ns;
  }

  /** Lower-case table of `to_roman`. */
  const LowerRomanSymbols: seq<string> := ["m", "cm", "d", "cd", "c", "xc", "l", "xl", "x", "ix", "v", "iv", "i"]

  lemma LowerTable(i: nat)
    requires i < 13
    ensures Lower(RomanSymbols[i]) == LowerRomanSymbols[i]
  {
    if i == 0 { assert Lower("M") == "m"; }
    else if i == 1 { assert Lower("CM") == "cm"; }
    else if i == 2 { assert Lower("D") == "d"; }
    else if i == 3 { assert Lower("CD") == "cd"; }
    else if i == 4 { assert Lower("C") == "c"; }
    else if i == 5 { assert Lower("XC") == "xc"; }
    else if i == 6 { assert Lower("L") == "l"; }
    else if i == 7 { assert Lower("XL") == "xl"; }
    else if i == 8 { assert Lower("X") == "x"; }
    else if i == 9 { assert Lower("IX") == "ix"; }
    else if i == 10 { assert Lower("V") == "v"; }
    else if i == 11 { assert Lower("IV") == "iv"; }
    else { assert Lower("I") == "i"; }
  }

  /** One numeral of entry `i` is emitted, in lower case. */
  lemma EmitOne(n: int, i: nat)
    requires i < 13 && n >= RomanValues[i]
    ensures Lower(RomanFrom(n, i)) == LowerRomanSymbols[i] + Lower(RomanFrom(n - RomanValues[i], i))
  {
    LowerAppend(RomanSymbols[i], RomanFrom(n - RomanValues[i], i));
    LowerTable(i);
  }

  /** The inner loop's invariant survives one more numeral. */
  lemma EmitStep(n: nat, i: nat, s: string, m: int, k: nat, q: nat, rest: int)
    requires i < 13 && k < q && 0 <= rest
    requires m >= 0 && m == rest + (q - k) * RomanValues[i]
    requires Lower(RomanFrom(n, i)) == s + Lower(RomanFrom(m, i))
    ensures m >= RomanValues[i] && m - RomanValues[i] == rest + (q - (k + 1)) * RomanValues[i]
    ensures Lower(RomanFrom(n, i)) == (s + LowerRomanSymbols[i]) + Lower(RomanFrom(m - RomanValues[i], i))
  {
    TakeOne(m, k, q, RomanValues[i], rest);
    EmitOne(m, i);
  }

  /** The inner loop of `to_roman`: entry `i` is emitted `n // value`
      times. */
  method EmitEntry(n: int, i: nat) returns (s: string, m: int)
    requires i < 13 && n >= 0
    ensures m == n % RomanValues[i] && 0 <= m < RomanValues[i]
    ensures Lower(RomanFrom(n, i)) == s + Lower(RomanFrom(m, i + 1))
  {
    var v := RomanValues[i];
    var q := n / v;
    var rest := n % v;
    DivModFacts(n, v);
    s := "";
    m := n;
    for k := 0 to q
      invariant m >= 0 && m == rest + (q - k) * v
      invariant Lower(RomanFrom(n, i)) == s + Lower(RomanFrom(m, i))
    {
      EmitStep(n, i, s, m, k, q, rest);
      s := s + LowerRomanSymbols[i];
      m := m - v;
    }
    assert m == rest;
    EmitDone(n, i, s, m, rest);
  }

  /** After the last numeral of entry `i` the rest skips on to entry `i + 1`. */
  lemma EmitDone(n: nat, i: nat, s: string, m: int, rest: int)
    requires i < 13 && 0 <= rest < RomanValues[i]
    requires m == rest
    requires Lower(RomanFrom(n, i)) == s + Lower(RomanFrom(m, i))
    ensures Lower(RomanFrom(n, i)) == s + Lower(RomanFrom(m, i + 1))
  {
    assert RomanFrom(m, i) == RomanFrom(m, i + 1);
  }

  /** `to_roman`: greedy subtraction, one numeral at a time, in lower case;
      any number below 1 gives the empty string. */
  method ToRoman(num: int) returns (result: string)
    ensures num <= 0 ==> result == ""
    ensures num >= 0 ==> result == Lower(Roman(num))
  {
    var n := num;
    var i := 0;
    result := "";
    while n > 0
      invariant 0 <= i <= 13
      invariant num <= 0 ==> n == num && result == ""
      invariant num > 0 ==> n >= 0 && Lower(Roman(num)) == result + Lower(RomanFrom(n, i))
      invariant n > 0 ==> i < 13
      decreases 13 - i
    {
      var s, m := EmitEntry(n, i);
      result := result + s;
      n := m;
      i := i + 1;
    }
    if num > 0 {
      RomanFromSkip(0, i, 13);
    }
  }

  class NoteManager {
    var footnotes: seq<Note>
    var endnotes: seq<Note>

    predicate Valid()
      reads this
    {
      Sequential(footnotes) && Sequential(endnotes)
    }

    constructor ()
      ensures Valid() && footnotes == [] && endnotes == []
    {
      footnotes := [];
      endnotes := [];
    }

    /** `add_footnote`: the new note is numbered one past the list length
        and appended. */
    method AddFootnote(text: string, position: int) returns (number: int)
      requires Valid()
      modifies this
      ensures Valid()
      ensures number == |old(footnotes)| + 1
      ensures footnotes == old(footnotes) + [Note(number, text, position)]
      ensures endnotes == old(endnotes)
    {
      number := |footnotes| + 1;
      footnotes := footnotes + [Note(number, text, position)];
    }

    /** `add_endnote`: the same on the endnote list. */
    method AddEndnote(text: string, position: int) returns (number: int)
      requires Valid()
      modifies this
      ensures Valid()
      ensures number == |old(endnotes)| + 1
      ensures endnotes == old(endnotes) + [Note(number, text, position)]
      ensures footnotes == old(footnotes)
    {
      number := |endnotes| + 1;
      endnotes := endnotes + [Note(number, text, position)];
    }

    /** `get_footnote`: the first footnote with that number. */
    function GetFootnote(number: int): (r: Option<Note>)
      reads this
      ensures r.Some? ==> r.value in footnotes && r.value.number == number
      ensures r.None? <==> forall i :: 0 <= i < |footnotes| ==> footnotes[i].number != number
      ensures Valid() ==> (r.Some? <==> 1 <= number <= |footnotes|)
      ensures Valid() && r.Some? ==> r.value == footnotes[number - 1]
    {
      LookupSequential(footnotes, number);
      match FirstIndex(footnotes, n => HasNumber(number, n))
      case None => None
      case Some(i) => Some(footnotes[i])
    }

    /** `get_endnote`. */
    function GetEndnote(number: int): (r: Option<Note>)
      reads this
      ensures r.Some? ==> r.value in endnotes && r.value.number == number
      ensures r.None? <==> forall i :: 0 <= i < |endnotes| ==> endnotes[i].number != number
      ensures Valid() ==> (r.Some? <==> 1 <= number <= |endnotes|)
      ensures Valid() && r.Some? ==> r.value == endnotes[number - 1]
    {
      LookupSequential(endnotes, number);
      match FirstIndex(endnotes, n => HasNumber(number, n))
      case None => None
      case Some(i) => Some(endnotes[i])
    }

    /** `_renumber_footnotes`: note `i` gets number `i + 1`, in place. */
    method RenumberFootnotes()
      modifies this
      ensures Valid() == Sequential(endnotes)
      ensures |footnotes| == |old(footnotes)| && Sequential(footnotes)
      ensures forall i :: 0 <= i < |footnotes| ==> footnotes[i] == old(footnotes)[i].(number := i + 1)
      ensures endnotes == old(endnotes)
    {
      for i := 0 to |footnotes|
        invariant |footnotes| == |old(footnotes)|
        invariant forall j :: 0 <= j < i ==> footnotes[j] == old(footnotes)[j].(number := j + 1)
        invariant forall j :: i <= j < |footnotes| ==> footnotes[j] == old(footnotes)[j]
        invariant endnotes == old(endnotes)
      {
        footnotes := footnotes[i := footnotes[i].(number := i + 1)];
      }
    }

    /** `_renumber_endnotes`. */
    method RenumberEndnotes()
      modifies this
      ensures Valid() == Sequential(footnotes)
      ensures |endnotes| == |old(endnotes)| && Sequential(endnotes)
      ensures forall i :: 0 <= i < |endnotes| ==> endnotes[i] == old(endnotes)[i].(number := i + 1)
      ensures footnotes == old(footnotes)
    {
      for i := 0 to |endnotes|
        invariant |endnotes| == |old(endnotes)|
        invariant forall j :: 0 <= j < i ==> endnotes[j] == old(endnotes)[j].(number := j + 1)
        invariant forall j :: i <= j < |endnotes| ==> endnotes[j] == old(endnotes)[j]
        invariant footnotes == old(footnotes)
      {
        endnotes := endnotes[i := endnotes[i].(number := i + 1)];
      }
    }

    /** `remove_footnote`: pops the first footnote with that number and
        renumbers; False, with nothing changed, when there is none. On a
        sequentially numbered list that is the note at index `number - 1`. */
    method RemoveFootnote(number: int) returns (ok: bool)
      modifies this
      ensures endnotes == old(endnotes)
      ensures ok <==> FirstIndex(old(footnotes), n => HasNumber(number, n)).Some?
      ensures !ok ==> footnotes == old(footnotes)
      ensures ok ==> Sequential(footnotes) && |footnotes| == |old(footnotes)| - 1
      ensures ok ==> forall j :: 0 <= j < |footnotes| ==>
        footnotes[j] == RemoveAt(old(footnotes), FirstIndex(old(footnotes), n => HasNumber(number, n)).value)[j].(number := j + 1)
      ensures old(Valid()) ==> Valid() && (ok <==> 1 <= number <= |old(footnotes)|)
      ensures old(Valid()) && ok ==> forall j :: 0 <= j < |footnotes| ==>
        footnotes[j].text == RemoveAt(old(footnotes), number - 1)[j].text &&
        footnotes[j].position == RemoveAt(old(footnotes), number - 1)[j].position
    {
      LookupSequential(footnotes, number);
      var k := FirstIndex(footnotes, n => HasNumber(number, n));
      if k.Some? {
        footnotes := RemoveAt(footnotes, k.value);
        RenumberFootnotes();
        ok := true;
      } else {
        ok := false;
      }
    }

    /** `remove_endnote`. */
    method RemoveEndnote(number: int) returns (ok: bool)
      modifies this
      ensures footnotes == old(footnotes)
      ensures ok <==> FirstIndex(old(endnotes), n => HasNumber(number, n)).Some?
      ensures !ok ==> endnotes == old(endnotes)
      ensures ok ==> Sequential(endnotes) && |endnotes| == |old(endnotes)| - 1
      ensures ok ==> forall j :: 0 <= j < |endnotes| ==>
        endnotes[j] == RemoveAt(old(endnotes), FirstIndex(old(endnotes), n => HasNumber(number, n)).value)[j].(number := j + 1)
      ensures old(Valid()) ==> Valid() && (ok <==> 1 <= number <= |old(endnotes)|)
      ensures old(Valid()) && ok ==> forall j :: 0 <= j < |endnotes| ==>
        endnotes[j].text == RemoveAt(old(endnotes), number - 1)[j].text &&
        endnotes[j].position == RemoveAt(old(endnotes), number - 1)[j].position
    {
      LookupSequential(endnotes, number);
      var k := FirstIndex(endnotes, n => HasNumber(number, n));
      if k.Some? {
        endnotes := RemoveAt(endnotes, k.value);
        RenumberEndnotes();
        ok := true;
      } else {
        ok := false;
      }
    }

    /** `get_all_footnotes`: a copy of the list. The model's lists are
        values, so a caller can never change the manager through it. */
    method GetAllFootnotes() returns (r: seq<Note>)
      ensures r == footnotes
    {
      r := footnotes;
    }

    method GetAllEndnotes() returns (r: seq<Note>)
      ensures r == endnotes
    {
      r := endnotes;
    }

    /** `get_footnote_count`: with sequential numbering, the count is the
        highest number in use. */
    function GetFootnoteCount(): (n: nat)
      reads this
      ensures n == |footnotes|
      ensures Valid() ==> GetFootnote(n + 1).None?
      ensures Valid() && n > 0 ==> GetFootnote(n).Some?
    {
      |footnotes|
    }

    /** `get_endnote_count`. */
    function GetEndnoteCount(): (n: nat)
      reads this
      ensures n == |endnotes|
      ensures Valid() ==> GetEndnote(n + 1).None?
      ensures Valid() && n > 0 ==> GetEndnote(n).Some?
    {
      |endnotes|
    }

    method ClearAllFootnotes()
      modifies this
      ensures footnotes == [] && endnotes == old(endnotes)
    {
      footnotes := [];
    }

    method ClearAllEndnotes()
      modifies this
      ensures endnotes == [] && footnotes == old(footnotes)
    {
      endnotes := [];
    }

    function ToDict(): (d: Dict)
      reads this
      ensures d.Keys == {"footnotes", "endnotes"}
    {
      map["footnotes" := NotesToValue(footnotes), "endnotes" := NotesToValue(endnotes)]
    }

    /** `from_dict`: the footnotes are replaced by the stored ones (empty
        when missing), then the endnotes. `ok` is false where an item that
        is not a dictionary makes the source raise; the footnotes are then
        already replaced if only the endnotes fail. */
    method FromDict(d: Dict) returns (ok: bool)
      modifies this
      ensures ok <==> NotesFromValues(GetArr(d, "footnotes")).Some? && NotesFromValues(GetArr(d, "endnotes")).Some?
      ensures footnotes == (match NotesFromValues(GetArr(d, "footnotes"))
                            case Some(fs) => fs
                            case None => old(footnotes))
      ensures endnotes == (if ok then NotesFromValues(GetArr(d, "endnotes")).value else old(endnotes))
    {
      match NotesFromValues(GetArr(d, "footnotes"))
      case None =>
        return false;
      case Some(fs) =>
        footnotes := fs;
      match NotesFromValues(GetArr(d, "endnotes"))
      case None =>
        return false;
      case Some(es) =>
        endnotes := es;
      return true;
    }
  }

  /** Loading what a manager saved reproduces both of its lists. */
  lemma ManagerRoundTrip(fs: seq<Note>, es: seq<Note>)
    ensures NotesFromValues(GetArr(map["footnotes" := NotesToValue(fs), "endnotes" := NotesToValue(es)], "footnotes")) == Some(fs)
    ensures NotesFromValues(GetArr(map["footnotes" := NotesToValue(fs), "endnotes" := NotesToValue(es)], "endnotes")) == Some(es)
  {
    NotesRoundTrip(fs);
    NotesRoundTrip(es);
  }
}
