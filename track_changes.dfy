/** Tracked changes (`pyword/features/track_changes.py`): the change
    records, their accepted/rejected flags, and the text edits that
    accepting or rejecting a change makes. The editor's plain text is a
    field of the manager; the character formats that mark changes on
    screen are not part of this model. */
module TrackChanges {
  import opened Common
  import opened Json

  const Insertion: string := "Insertion"
  const Deletion: string := "Deletion"
  const Formatting: string := "Formatting"
  const Move: string := "Move"

  const UnknownUser: string := "Unknown User"

  /** A change record. `timestamp` is the `isoformat()` text of the
      change's time. */
  datatype Change = Change(changeType: string, position: int, content: string, author: string,
                           timestamp: string, accepted: bool, rejected: bool, id: string)

  /** Pending means neither accepted nor rejected. */
  predicate Pending(c: Change) { !c.accepted && !c.rejected }

  /** The id `Change.__init__` derives: type, position and the POSIX
      timestamp (`epoch`, the text of `timestamp.timestamp()`). */
  function ChangeId(changeType: string, position: int, epoch: string): string
  {
    changeType + "_" + IntToString(position) + "_" + epoch
  }

  /** `Change(change_type, position, content, author, timestamp)`. */
  function NewChange(changeType: string, position: int, content: string, author: string,
                     iso: string, epoch: string): (c: Change)
    ensures Pending(c)
    ensures c.changeType == changeType && c.position == position && c.content == content
    ensures c.author == author && c.timestamp == iso
    ensures c.id == ChangeId(changeType, position, epoch)
  {
    Change(changeType, position, content, author, iso, false, false, ChangeId(changeType, position, epoch))
  }

  function ChangeToDict(c: Change): (d: Dict)
    ensures d.Keys == {"change_type", "position", "content", "author", "timestamp", "accepted", "rejected", "id"}
  {
    map["change_type" := Str(c.changeType), "position" := Int(c.position), "content" := Str(c.content),
        "author" := Str(c.author), "timestamp" := Str(c.timestamp), "accepted" := Bool(c.accepted),
        "rejected" := Bool(c.rejected), "id" := Str(c.id)]
  }

  /** `Change.from_dict`: the five constructor keys are required (a
      missing one raises `KeyError`, here `None`); the flags default to
      False and the id to the one the constructor derives, for which `epoch`
      is the POSIX time of the stored timestamp. */
  function ChangeFromDict(d: Dict, epoch: string): (r: Option<Change>)
    ensures r.Some? <==> (forall k :: k in ["change_type", "content", "author", "timestamp"] ==> k in d && d[k].Str?) &&
                         "position" in d && d["position"].Int?
    ensures r.Some? ==> Pending(r.value) || "accepted" in d || "rejected" in d
    ensures r.Some? && "id" !in d ==> r.value.id == ChangeId(d["change_type"].s, d["position"].i, epoch)
  {
    if "change_type" in d && d["change_type"].Str? && "position" in d && d["position"].Int? &&
       "content" in d && d["content"].Str? && "author" in d && d["author"].Str? &&
       "timestamp" in d && d["timestamp"].Str?
    then
      var c := NewChange(d["change_type"].s, d["position"].i, d["content"].s, d["author"].s, d["timestamp"].s, epoch);
      Some(c.(accepted := GetBool(d, "accepted", false), rejected := GetBool(d, "rejected", false),
              id := GetStr(d, "id", c.id)))
    else None
  }

  /** `from_dict(to_dict(c))` gives back every field, the id included. */
  lemma ChangeRoundTrip(c: Change, epoch: string)
    ensures ChangeFromDict(ChangeToDict(c), epoch) == Some(c)
  {
    var d := ChangeToDict(c);
    assert forall k :: k in ["change_type", "content", "author", "timestamp"] ==> k in d && d[k].Str?;
  }

  /** A text cursor: its anchor and its position. The selection runs
      between the two. */
  datatype Cursor = Cursor(anchor: int, position: int)

  predicate Inside(c: Cursor, n: nat) { 0 <= c.anchor <= n && 0 <= c.position <= n }

  function SelectionStart(c: Cursor): int { if c.anchor <= c.position then c.anchor else c.position }
  function SelectionEnd(c: Cursor): int { if c.anchor <= c.position then c.position else c.anchor }

  /** `x` kept inside `0..n`. */
  function Bound(x: int, n: nat): (y: nat)
    ensures y <= n && (0 <= x <= n ==> y == x)
  {
    if x < 0 then 0 else if x > n then n else x
  }

  /** `cursor = self.parent.textCursor(); cursor.setPosition(p)` in a text
      of length `n`: the copy of the editor's cursor `here` collapses onto
      an in-range `p`; Qt refuses a position outside `0..n` with a warning,
      and the copy keeps the anchor and position of `here`. */
  function SetPosition(here: Cursor, p: int, n: nat): (c: Cursor)
    ensures Inside(c, n)
    ensures 0 <= p <= n ==> c == Cursor(p, p)
    ensures !(0 <= p <= n) && Inside(here, n) ==> c == here
  {
    if 0 <= p <= n then Cursor(p, p) else Cursor(Bound(here.anchor, n), Bound(here.position, n))
  }

  /** `movePosition(Right, KeepAnchor, k)`: the position moves `k`
      characters to the right, stopping at the end of the text, and the
      anchor stays. */
  function MoveRight(c: Cursor, k: nat, n: nat): (r: Cursor)
    requires Inside(c, n)
    ensures Inside(r, n) && r.anchor == c.anchor
    ensures c.position + k <= n ==> r.position == c.position + k
    ensures c.position + k > n ==> r.position == n
  {
    Cursor(c.anchor, if c.position + k <= n then c.position + k else n)
  }

  /** `removeSelectedText()`. */
  function RemoveSelected(text: string, c: Cursor): (r: string)
    requires Inside(c, |text|)
    ensures |r| == |text| - (SelectionEnd(c) - SelectionStart(c))
    ensures r[..SelectionStart(c)] == text[..SelectionStart(c)]
    ensures r[SelectionStart(c)..] == text[SelectionEnd(c)..]
  {
    var a, b := SelectionStart(c), SelectionEnd(c);
    assert (text[..a] + text[b..])[a..] == text[b..];
    text[..a] + text[b..]
  }

  /** `insertText(s)`: the selection, if any, is replaced by `s`. */
  function InsertText(text: string, c: Cursor, s: string): (r: string)
    requires Inside(c, |text|)
    ensures |r| == |text| - (SelectionEnd(c) - SelectionStart(c)) + |s|
    ensures r[..SelectionStart(c)] == text[..SelectionStart(c)]
    ensures r[SelectionStart(c)..SelectionStart(c) + |s|] == s
    ensures r[SelectionStart(c) + |s|..] == text[SelectionEnd(c)..]
  {
    var a, b := SelectionStart(c), SelectionEnd(c);
    assert (text[..a] + s + text[b..])[a + |s|..] == text[b..];
    text[..a] + s + text[b..]
  }

  /** Place the editor cursor's copy at `p`, select `n` characters to the
      right of it and remove them. With `p` inside the text that removes
      up to `n` characters at `p`; otherwise the edit happens at `here`. */
  function RemoveRange(text: string, here: Cursor, p: int, n: nat): (r: string)
    ensures 0 <= p <= |text| ==> r == text[..p] + text[if p + n <= |text| then p + n else |text|..]
    ensures !(0 <= p <= |text|) && Inside(here, |text|) ==> r == RemoveSelected(text, MoveRight(here, n, |text|))
  {
    RemoveSelected(text, MoveRight(SetPosition(here, p, |text|), n, |text|))
  }

  /** `cursor.setPosition(p); cursor.insertText(s)`: with `p` inside the
      text, `s` goes in at `p`; otherwise it replaces the selection of
      `here`. */
  function InsertAt(text: string, here: Cursor, p: int, s: string): (r: string)
    ensures 0 <= p <= |text| ==> r == text[..p] + s + text[p..]
    ensures !(0 <= p <= |text|) && Inside(here, |text|) ==> r == InsertText(text, here, s)
  {
    InsertText(text, SetPosition(here, p, |text|), s)
  }

  /** Out of range, an edit happens at the editor's cursor, not at the end
      of the text: with the cursor at `k` and no selection, accepting a
      deletion recorded past the end removes the characters after `k`. */
  lemma OutOfRangeEditsAtCursor(text: string, k: nat, p: int, n: nat)
    requires k <= |text| && !(0 <= p <= |text|)
    ensures RemoveRange(text, Cursor(k, k), p, n) == text[..k] + text[if k + n <= |text| then k + n else |text|..]
    ensures InsertAt(text, Cursor(k, k), p, "") == text
  {
    var c := MoveRight(Cursor(k, k), n, |text|);
    assert SelectionStart(c) == k;
    var r := RemoveRange(text, Cursor(k, k), p, n);
    assert r == RemoveSelected(text, c);
    assert r == r[..k] + r[k..];
    var e := InsertAt(text, Cursor(k, k), p, "");
    assert e == e[..k] + e[k..];
    assert text == text[..k] + text[k..];
  }

  /** The text after `accept_change(c)`, `here` being the editor's cursor:
      an accepted deletion removes `len(content)` characters at the
      position; any other kind of change keeps the text (an insertion only
      loses its marking format). */
  function AcceptedText(text: string, here: Cursor, c: Change): (r: string)
    ensures c.changeType != Deletion ==> r == text
    ensures c.changeType == Deletion ==> r == RemoveRange(text, here, c.position, |c.content|)
  {
    if c.changeType == Deletion then RemoveRange(text, here, c.position, |c.content|) else text
  }

  /** The text after `reject_change(c)`: a rejected deletion puts the
      content back at the position, a rejected insertion removes
      `len(content)` characters there, and other kinds keep the text. */
  function RejectedText(text: string, here: Cursor, c: Change): (r: string)
    ensures c.changeType == Deletion ==> r == InsertAt(text, here, c.position, c.content)
    ensures c.changeType == Insertion ==> r == RemoveRange(text, here, c.position, |c.content|)
    ensures c.changeType != Deletion && c.changeType != Insertion ==> r == text
  {
    if c.changeType == Deletion then InsertAt(text, here, c.position, c.content)
    else if c.changeType == Insertion then RemoveRange(text, here, c.position, |c.content|)
    else text
  }

  /** Rejecting an insertion recorded at the START of its text, with the
      text still in place, takes it out again: the text is the one before
      the insertion. */
  lemma RejectInsertionUndoes(before: string, here: Cursor, c: Change)
    requires c.changeType == Insertion && 0 <= c.position <= |before|
    ensures RejectedText(InsertAt(before, here, c.position, c.content), here, c) == before
  {
    var p, s := c.position, c.content;
    var t := InsertAt(before, here, p, s);
    assert t == before[..p] + s + before[p..];
    assert t[..p] == before[..p];
    assert t[p + |s|..] == before[p..];
    assert before == before[..p] + before[p..];
  }

  /** `_record_insertion` as written: typing `x` at `p` leaves the cursor
      at `p + 1`, which is the position recorded. Rejecting that change
      removes the character AFTER the typed one and keeps the typed one. */
  lemma RejectRecordedInsertionAsWritten(before: string, p: nat, x: char, here: Cursor, author: string, iso: string, epoch: string)
    requires p < |before|
    ensures var c := NewChange(Insertion, p + 1, [x], author, iso, epoch);
            RejectedText(before[..p] + [x] + before[p..], here, c) == before[..p] + [x] + before[p + 1..]
  {
    var t := before[..p] + [x] + before[p..];
    assert t[..p + 1] == before[..p] + [x];
    assert t[p + 2..] == before[p + 1..];
  }

  /** The input that shows it: typing "x" at the start of "ab" and
      rejecting the recorded insertion gives "xb", not "ab". */
  lemma RejectRecordedInsertionExample(here: Cursor, author: string, iso: string, epoch: string)
    ensures RejectedText("xab", here, NewChange(Insertion, 1, "x", author, iso, epoch)) == "xb"
  {
    RejectRecordedInsertionAsWritten("ab", 0, 'x', here, author, iso, epoch);
    assert "ab"[..0] + ['x'] + "ab"[0..] == "xab";
    assert "ab"[..0] + ['x'] + "ab"[1..] == "xb";
  }

  /** The position `_record_insertion` evidently means: where the typed
      text starts, that is the cursor position less the text's length (the
      selection start once the cursor has moved left over it). */
  function InsertionStart(cursorPosition: int, content: string): (p: int)
    ensures p + |content| == cursorPosition
  {
    cursorPosition - |content|
  }

  /** With the corrected position, rejecting a recorded insertion gives
      back the text as it was before the typing. */
  lemma RejectCorrectedInsertionUndoes(before: string, p: nat, x: char, here: Cursor, author: string, iso: string, epoch: string)
    requires p <= |before|
    ensures var c := NewChange(Insertion, InsertionStart(p + 1, [x]), [x], author, iso, epoch);
            RejectedText(before[..p] + [x] + before[p..], here, c) == before
  {
    var c := NewChange(Insertion, InsertionStart(p + 1, [x]), [x], author, iso, epoch);
    assert c.position == p;
    assert InsertAt(before, here, p, [x]) == before[..p] + [x] + before[p..];
    RejectInsertionUndoes(before, here, c);
  }

  /** Rejecting a deletion, while the deleted text is a removed span,
      restores the text as it was: the deleted content returns to its
      original position. */
  lemma RejectDeletionRestores(before: string, here: Cursor, c: Change)
    requires c.changeType == Deletion && 0 <= c.position && c.position + |c.content| <= |before|
    requires before[c.position..c.position + |c.content|] == c.content
    ensures RejectedText(RemoveRange(before, here, c.position, |c.content|), here, c) == before
  {
    var p, n := c.position, |c.content|;
    var t := RemoveRange(before, here, p, n);
    assert t == before[..p] + before[p + n..];
    assert t[..p] == before[..p];
    assert t[p..] == before[p + n..];
    calc {
      RejectedText(t, here, c);
      t[..p] + c.content + t[p..];
      before[..p] + before[p..p + n] + before[p + n..];
      { assert before[..p + n] == before[..p] + before[p..p + n]; }
      before;
    }
  }

  /** Accepting a deletion and accepting it again removes twice: the
      source does not check the flag before editing. */
  lemma AcceptTwiceRemovesTwice(text: string, here: Cursor, c: Change)
    requires c.changeType == Deletion && 0 <= c.position && c.position + 2 * |c.content| <= |text|
    ensures |AcceptedText(AcceptedText(text, here, c), here, c)| == |text| - 2 * |c.content|
  {
  }

  /** The state `accept_all_changes` leaves: each pending change is
      accepted in list order, each acceptance editing the text it finds. */
  function AcceptAllText(text: string, here: Cursor, cs: seq<Change>): string
    decreases |cs|
  {
    if cs == [] then text
    else AcceptAllText(if Pending(cs[0]) then AcceptedText(text, here, cs[0]) else text, here, cs[1..])
  }

  function RejectAllText(text: string, here: Cursor, cs: seq<Change>): string
    decreases |cs|
  {
    if cs == [] then text
    else RejectAllText(if Pending(cs[0]) then RejectedText(text, here, cs[0]) else text, here, cs[1..])
  }

  function MarkAccepted(c: Change): (r: Change)
    ensures !Pending(r) && r == c.(accepted := if Pending(c) then true else c.accepted)
  {
    if Pending(c) then c.(accepted := true) else c
  }

  function MarkRejected(c: Change): (r: Change)
    ensures !Pending(r) && r == c.(rejected := if Pending(c) then true else c.rejected)
  {
    if Pending(c) then c.(rejected := true) else c
  }

  predicate ByAuthor(author: string, c: Change) { c.author == author }

  /** `get_pending_changes`: the pending changes, in list order. */
  function PendingChanges(cs: seq<Change>): (r: seq<Change>)
    ensures forall c :: c in r <==> c in cs && Pending(c)
  {
    Filter(cs, Pending)
  }

  /** `get_changes_by_author`. */
  function ChangesByAuthor(cs: seq<Change>, author: string): (r: seq<Change>)
    ensures forall c :: c in r <==> c in cs && c.author == author
  {
    Filter(cs, c => ByAuthor(author, c))
  }

  /** A change that is not pending is never pending again: nothing in the
      manager clears a flag. Accepting and then rejecting leaves both. */
  lemma FlagsNotExclusive(c: Change)
    ensures c.(accepted := true).(rejected := true).accepted && c.(accepted := true).(rejected := true).rejected
    ensures !Pending(c.(accepted := true).(rejected := true))
  {
  }

  /** What `_on_text_changed` reads when the editor emits `textChanged`:
      whether the editor's cursor holds a selection, the position it
      reports (the selection start for a deletion, the cursor position for
      an insertion), the selected text (for an insertion, the character
      left of the cursor), and the clock's `isoformat()` and POSIX texts. */
  datatype Report = Report(hasSelection: bool, position: int, content: string, iso: string, epoch: string)

  /** What the editor reports with its cursor at the start of the text and
      no selection: there is no character left of the cursor. */
  const Quiet: Report := Report(false, 0, "", "", "")

  /** The record `_on_text_changed` appends for a report while tracking is
      on: a deletion for a selection, an insertion for a non-empty typed
      text, and nothing otherwise. */
  function Recorded(r: Report, author: string): (cs: seq<Change>)
    ensures |cs| <= 1
    ensures cs == [] <==> !r.hasSelection && r.content == ""
    ensures forall k :: 0 <= k < |cs| ==> Pending(cs[k]) && cs[k].author == author && cs[k].position == r.position && cs[k].content == r.content
    ensures cs != [] ==> cs[0].changeType == (if r.hasSelection then Deletion else Insertion)
  {
    if r.hasSelection then [NewChange(Deletion, r.position, r.content, author, r.iso, r.epoch)]
    else if r.content != "" then [NewChange(Insertion, r.position, r.content, author, r.iso, r.epoch)]
    else []
  }

  datatype Decision = Accept | Reject

  /** The text after deciding `c`. */
  function Decided(d: Decision, text: string, here: Cursor, c: Change): string
  {
    match d
    case Accept => AcceptedText(text, here, c)
    case Reject => RejectedText(text, here, c)
  }

  /** A change carries exactly the flag of decision `d`. */
  predicate DecidedAs(d: Decision, c: Change)
  {
    match d
    case Accept => c.accepted && !c.rejected
    case Reject => c.rejected && !c.accepted
  }

  /** The flags a pending change gets when it is decided. */
  function Mark(d: Decision, c: Change): (r: Change)
    ensures !Pending(r)
    ensures Pending(c) ==> DecidedAs(d, r)
  {
    match d
    case Accept => MarkAccepted(c)
    case Reject => MarkRejected(c)
  }

  /** Whether deciding `c` changes the document, so that the editor emits
      `textChanged`: accepting a deletion removes, and accepting an
      insertion re-formats, the characters selected right of the position;
      rejecting an insertion removes them; rejecting a deletion inserts its
      content over the selection of the placed cursor. Each counts when it
      touches at least one character. */
  predicate Fires(d: Decision, text: string, here: Cursor, c: Change)
  {
    var at := SetPosition(here, c.position, |text|);
    var span := MoveRight(at, |c.content|, |text|);
    match d
    case Accept => (c.changeType == Deletion || c.changeType == Insertion) && SelectionStart(span) < SelectionEnd(span)
    case Reject =>
      if c.changeType == Deletion then c.content != "" || SelectionStart(at) < SelectionEnd(at)
      else c.changeType == Insertion && SelectionStart(span) < SelectionEnd(span)
  }

  /** A decision that changes the text makes the editor emit `textChanged`;
      one that does not fire leaves the text as it was. */
  lemma QuietDecisionKeepsText(d: Decision, text: string, here: Cursor, c: Change)
    ensures !Fires(d, text, here, c) ==> Decided(d, text, here, c) == text
  {
    var at := SetPosition(here, c.position, |text|);
    var span := MoveRight(at, |c.content|, |text|);
    if !Fires(d, text, here, c) {
      if c.changeType == Deletion || c.changeType == Insertion {
        if d == Accept || c.changeType == Insertion {
          var r := RemoveSelected(text, span);
          assert r == text[..SelectionStart(span)] + text[SelectionEnd(span)..];
          assert text == text[..SelectionStart(span)] + text[SelectionStart(span)..];
        } else {
          var r := InsertText(text, at, c.content);
          assert r == text[..SelectionStart(at)] + c.content + text[SelectionEnd(at)..];
          assert text == text[..SelectionStart(at)] + text[SelectionStart(at)..];
        }
      }
    }
  }

  /** The state the all-changes loops work on: the text, the live list of
      changes, and the reports of the signals still to come. */
  datatype Run = Run(text: string, changes: seq<Change>, reports: seq<Report>)

  function NextReport(reports: seq<Report>): Report
  {
    if reports == [] then Quiet else reports[0]
  }

  /** One turn of the loop of `accept_all_changes` or `reject_all_changes`
      at index `i`: a pending change is decided; when that changes the
      document while tracking is on, the next report is used up and what
      `_on_text_changed` records for it joins the end of the list. */
  function Step(d: Decision, r: Run, i: nat, here: Cursor, enabled: bool, author: string): (s: Run)
    requires i < |r.changes|
    ensures |s.reports| <= |r.reports|
    ensures |s.reports| == |r.reports| ==> |s.changes| == |r.changes|
    ensures |r.changes| <= |s.changes| <= |r.changes| + 1
    ensures forall j :: 0 <= j < |r.changes| && j != i ==> s.changes[j] == r.changes[j]
    ensures s.changes[i] == Mark(d, r.changes[i]) || (!Pending(r.changes[i]) && s == r)
    ensures forall j :: |r.changes| <= j < |s.changes| ==> Pending(s.changes[j]) && s.changes[j].author == author
  {
    var c := r.changes[i];
    if !Pending(c) then r
    else
      var fires := enabled && Fires(d, r.text, here, c);
      Run(Decided(d, r.text, here, c),
          r.changes[i := Mark(d, c)] + (if fires then Recorded(NextReport(r.reports), author) else []),
          if fires && r.reports != [] then r.reports[1..] else r.reports)
  }

  /** The loop of `accept_all_changes` or `reject_all_changes` from index
      `i` on: it runs over the live list, so the records appended on the
      way are visited too. */
  function SettleAll(d: Decision, r: Run, i: nat, here: Cursor, enabled: bool, author: string): Run
    requires i <= |r.changes|
    decreases |r.reports|, |r.changes| - i
  {
    if i == |r.changes| then r else SettleAll(d, Step(d, r, i, here, enabled, author), i + 1, here, enabled, author)
  }

  function DecideAllText(d: Decision, text: string, here: Cursor, cs: seq<Change>): string
  {
    match d
    case Accept => AcceptAllText(text, here, cs)
    case Reject => RejectAllText(text, here, cs)
  }

  /** What the loop leaves: no change pending, the changes before `i`
      untouched, the changes it started from each decided in place, and
      after them at most one record per report. */
  lemma {:induction false} SettleAllFacts(d: Decision, r: Run, i: nat, here: Cursor, enabled: bool, author: string)
    requires i <= |r.changes|
    requires forall j :: 0 <= j < i ==> !Pending(r.changes[j])
    ensures var s := SettleAll(d, r, i, here, enabled, author);
      |r.changes| <= |s.changes| <= |r.changes| + |r.reports| &&
      (forall j :: 0 <= j < |s.changes| ==> !Pending(s.changes[j])) &&
      (forall j :: 0 <= j < i ==> s.changes[j] == r.changes[j]) &&
      (forall j :: i <= j < |r.changes| ==> s.changes[j] == Mark(d, r.changes[j]))
    decreases |r.reports|, |r.changes| - i
  {
    if i < |r.changes| {
      var t := Step(d, r, i, here, enabled, author);
      assert forall j :: 0 <= j < i + 1 ==> !Pending(t.changes[j]);
      SettleAllFacts(d, t, i + 1, here, enabled, author);
      var s := SettleAll(d, t, i + 1, here, enabled, author);
      assert s == SettleAll(d, r, i, here, enabled, author);
      assert s.changes[i] == Mark(d, r.changes[i]) by {
        if !Pending(r.changes[i]) {
          match d {
            case Accept => assert MarkAccepted(r.changes[i]) == r.changes[i];
            case Reject => assert MarkRejected(r.changes[i]) == r.changes[i];
          }
        }
      }
    }
  }

  /** The records the loop appends are by the current author and carry the
      loop's decision. */
  lemma {:induction false} SettleAllRecords(d: Decision, r: Run, i: nat, here: Cursor, enabled: bool, author: string)
    requires i <= |r.changes|
    requires forall j :: 0 <= j < i ==> !Pending(r.changes[j])
    ensures var s := SettleAll(d, r, i, here, enabled, author);
      |r.changes| <= |s.changes| &&
      forall j :: |r.changes| <= j < |s.changes| ==> s.changes[j].author == author && DecidedAs(d, s.changes[j])
    decreases |r.reports|, |r.changes| - i
  {
    if i < |r.changes| {
      var t := Step(d, r, i, here, enabled, author);
      assert forall j :: 0 <= j < i + 1 ==> !Pending(t.changes[j]);
      SettleAllRecords(d, t, i + 1, here, enabled, author);
      SettleAllFacts(d, t, i + 1, here, enabled, author);
      var s := SettleAll(d, t, i + 1, here, enabled, author);
      assert s == SettleAll(d, r, i, here, enabled, author);
      forall j | |r.changes| <= j < |s.changes|
        ensures s.changes[j].author == author && DecidedAs(d, s.changes[j])
      {
        if j < |t.changes| {
          assert Pending(t.changes[j]) && t.changes[j].author == author;
          assert s.changes[j] == Mark(d, t.changes[j]);
        }
      }
    }
  }

  /** Without tracking nothing is appended, and the text is that of
      deciding the list in order. */
  lemma {:induction false} SettleAllUntracked(d: Decision, r: Run, i: nat, here: Cursor, author: string)
    requires i <= |r.changes|
    ensures var s := SettleAll(d, r, i, here, false, author);
      |s.changes| == |r.changes| && s.text == DecideAllText(d, r.text, here, r.changes[i..])
    decreases |r.reports|, |r.changes| - i
  {
    if i < |r.changes| {
      var t := Step(d, r, i, here, false, author);
      SettleAllUntracked(d, t, i + 1, here, author);
      assert t.changes[i + 1..] == r.changes[i + 1..];
      assert r.changes[i..][1..] == r.changes[i + 1..];
      match d {
        case Accept => assert t.text == (if Pending(r.changes[i]) then AcceptedText(r.text, here, r.changes[i]) else r.text);
        case Reject => assert t.text == (if Pending(r.changes[i]) then RejectedText(r.text, here, r.changes[i]) else r.text);
      }
    }
  }

  /** `SettleAllFacts` for a whole run: every change the loop started from
      is decided in place, each appended record is decided too and is by
      the current author, and none is left pending. */
  lemma SettleAllFromStart(d: Decision, r: Run, here: Cursor, enabled: bool, author: string)
    ensures var s := SettleAll(d, r, 0, here, enabled, author);
      |r.changes| <= |s.changes| <= |r.changes| + |r.reports| &&
      (forall j :: 0 <= j < |r.changes| ==> s.changes[j] == Mark(d, r.changes[j])) &&
      (forall j :: |r.changes| <= j < |s.changes| ==> s.changes[j].author == author && DecidedAs(d, s.changes[j])) &&
      PendingChanges(s.changes) == [] &&
      (!enabled ==> |s.changes| == |r.changes| && s.text == DecideAllText(d, r.text, here, r.changes))
  {
    SettleAllFacts(d, r, 0, here, enabled, author);
    SettleAllRecords(d, r, 0, here, enabled, author);
    if !enabled {
      SettleAllUntracked(d, r, 0, here, author);
    }
    assert r.changes[0..] == r.changes;
    NoneLeftPending(SettleAll(d, r, 0, here, enabled, author).changes);
  }

  class TrackChangesManager {
    var enabled: bool
    var changes: seq<Change>
    var currentAuthor: string
    var showChanges: bool
    /** The plain text of the editor the manager is attached to. */
    var text: string

    constructor (text0: string)
      ensures !enabled && changes == [] && currentAuthor == UnknownUser && showChanges && text == text0
    {
      enabled := false;
      changes := [];
      currentAuthor := UnknownUser;
      showChanges := true;
      text := text0;
    }

    /** `enable_tracking(author_name)`: a non-empty name becomes the
        author; without one, and while the author is still "Unknown User",
        the name typed into the prompt (`prompted`, `None` when cancelled)
        is taken, an empty or cancelled prompt giving "Unknown User". */
    method EnableTracking(authorName: string, prompted: Option<string>)
      modifies this
      ensures enabled
      ensures authorName != "" ==> currentAuthor == authorName
      ensures authorName == "" && old(currentAuthor) != UnknownUser ==> currentAuthor == old(currentAuthor)
      ensures authorName == "" && old(currentAuthor) == UnknownUser ==>
        currentAuthor == if prompted.Some? && prompted.value != "" then prompted.value else UnknownUser
      ensures changes == old(changes) && text == old(text) && showChanges == old(showChanges)
    {
      if authorName != "" {
        currentAuthor := authorName;
      } else if currentAuthor == UnknownUser {
        currentAuthor := if prompted.Some? && prompted.value != "" then prompted.value else UnknownUser;
      }
      enabled := true;
    }

    method DisableTracking()
      modifies this
      ensures !enabled
      ensures changes == old(changes) && text == old(text) && showChanges == old(showChanges)
      ensures currentAuthor == old(currentAuthor)
    {
      enabled := false;
    }

    /** `toggle_tracking`: off when on; otherwise `enable_tracking()`
        with no name, `prompted` being the answer to its prompt. */
    method ToggleTracking(prompted: Option<string>)
      modifies this
      ensures enabled == !old(enabled)
      ensures old(enabled) || old(currentAuthor) != UnknownUser ==> currentAuthor == old(currentAuthor)
      ensures !old(enabled) && old(currentAuthor) == UnknownUser ==>
        currentAuthor == if prompted.Some? && prompted.value != "" then prompted.value else UnknownUser
      ensures changes == old(changes) && text == old(text) && showChanges == old(showChanges)
    {
      if enabled {
        DisableTracking();
      } else {
        EnableTracking("", prompted);
      }
    }

    /** `_on_text_changed`, with what the editor's cursor reports given.
        Nothing is recorded while tracking is off or for an insertion with
        no text; a deletion is always recorded. */
    method OnTextChanged(r: Report)
      modifies this`changes
      ensures changes == old(changes) + (if enabled then Recorded(r, currentAuthor) else [])
    {
      if !enabled {
        return;
      }
      if r.hasSelection {
        changes := changes + [NewChange(Deletion, r.position, r.content, currentAuthor, r.iso, r.epoch)];
      } else if r.content != "" {
        changes := changes + [NewChange(Insertion, r.position, r.content, currentAuthor, r.iso, r.epoch)];
      }
    }

    /** `toggle_show_changes`: only the flag; the on-screen formats are
        not modelled. */
    method ToggleShowChanges()
      modifies this
      ensures showChanges == !old(showChanges)
      ensures changes == old(changes) && text == old(text) && enabled == old(enabled)
      ensures currentAuthor == old(currentAuthor)
    {
      showChanges := !showChanges;
    }

    /** `accept_change(change)` for the change at index `i` of the list; an
        index outside the list is a change the manager does not hold, and
        returns False with no effect. The flag is set and the text edited
        even when the change was already decided. `here` is the editor's
        cursor, whose copy makes the edit; when the edit changes the
        document while tracking is on, the editor's `textChanged` reaches
        `_on_text_changed`, which reads `report` and appends its record. */
    method AcceptChange(i: int, here: Cursor, report: Report) returns (ok: bool)
      modifies this
      ensures ok <==> 0 <= i < |old(changes)|
      ensures ok ==>
        changes == old(changes)[i := old(changes)[i].(accepted := true)] +
                   (if enabled && Fires(Accept, old(text), here, old(changes)[i]) then Recorded(report, currentAuthor) else [])
      ensures ok ==> text == AcceptedText(old(text), here, old(changes)[i])
      ensures !ok ==> changes == old(changes) && text == old(text)
      ensures enabled == old(enabled) && currentAuthor == old(currentAuthor) && showChanges == old(showChanges)
    {
      if 0 <= i < |changes| {
        var c, before := changes[i], text;
        changes := changes[i := c.(accepted := true)];
        if c.changeType == Deletion {
          text := RemoveRange(text, here, c.position, |c.content|);
        }
        if Fires(Accept, before, here, c) {
          OnTextChanged(report);
        }
        ok := true;
      } else {
        ok := false;
      }
    }

    /** `reject_change(change)`, for the change at index `i`. */
    method RejectChange(i: int, here: Cursor, report: Report) returns (ok: bool)
      modifies this
      ensures ok <==> 0 <= i < |old(changes)|
      ensures ok ==>
        changes == old(changes)[i := old(changes)[i].(rejected := true)] +
                   (if enabled && Fires(Reject, old(text), here, old(changes)[i]) then Recorded(report, currentAuthor) else [])
      ensures ok ==> text == RejectedText(old(text), here, old(changes)[i])
      ensures !ok ==> changes == old(changes) && text == old(text)
      ensures enabled == old(enabled) && currentAuthor == old(currentAuthor) && showChanges == old(showChanges)
    {
      if 0 <= i < |changes| {
        var c, before := changes[i], text;
        changes := changes[i := c.(rejected := true)];
        if c.changeType == Deletion {
          text := InsertAt(text, here, c.position, c.content);
        } else if c.changeType == Insertion {
          text := RemoveRange(text, here, c.position, |c.content|);
        }
        if Fires(Reject, before, here, c) {
          OnTextChanged(report);
        }
        ok := true;
      } else {
        ok := false;
      }
    }

    /** One turn of the all-changes loops: the change at index `i` is
        decided when it is pending, and the report its edit uses up, if
        any, is dropped from `rest`. */
    method DecideAt(d: Decision, i: nat, here: Cursor, rest: seq<Report>) returns (rest2: seq<Report>)
      requires i < |changes|
      modifies this
      ensures Run(text, changes, rest2) == Step(d, Run(old(text), old(changes), rest), i, here, enabled, currentAuthor)
      ensures enabled == old(enabled) && currentAuthor == old(currentAuthor) && showChanges == old(showChanges)
    {
      rest2 := rest;
      if Pending(changes[i]) {
        var fires := enabled && Fires(d, text, here, changes[i]);
        var ok;
        match d {
          case Accept => ok := AcceptChange(i, here, NextReport(rest));
          case Reject => ok := RejectChange(i, here, NextReport(rest));
        }
        if fires && rest != [] {
          rest2 := rest[1..];
        }
      }
    }

    /** `accept_all_changes`: the loop runs over the live list, accepting
        each pending change in turn, the records its edits append included;
        `reports` are what the editor reports at each `textChanged` on the
        way, and once they are used up the editor reports `Quiet`.
        Afterwards no change is pending. */
    method AcceptAllChanges(here: Cursor, reports: seq<Report>)
      modifies this
      ensures var s := SettleAll(Accept, Run(old(text), old(changes), reports), 0, here, enabled, currentAuthor);
        text == s.text && changes == s.changes
      ensures |old(changes)| <= |changes| <= |old(changes)| + |reports|
      ensures forall j :: 0 <= j < |old(changes)| ==> changes[j] == MarkAccepted(old(changes)[j])
      ensures forall j :: |old(changes)| <= j < |changes| ==> changes[j].author == currentAuthor && changes[j].accepted
      ensures PendingChanges(changes) == []
      ensures !enabled ==> |changes| == |old(changes)| && text == AcceptAllText(old(text), here, old(changes))
      ensures enabled == old(enabled) && currentAuthor == old(currentAuthor) && showChanges == old(showChanges)
    {
      ghost var goal := SettleAll(Accept, Run(text, changes, reports), 0, here, enabled, currentAuthor);
      SettleAllFromStart(Accept, Run(text, changes, reports), here, enabled, currentAuthor);
      var rest := reports;
      var i := 0;
      while i < |changes|
        invariant 0 <= i <= |changes|
        invariant SettleAll(Accept, Run(text, changes, rest), i, here, enabled, currentAuthor) == goal
        invariant enabled == old(enabled) && currentAuthor == old(currentAuthor) && showChanges == old(showChanges)
        decreases |rest|, |changes| - i
      {
        rest := DecideAt(Accept, i, here, rest);
        i := i + 1;
      }
    }

    /** `reject_all_changes`, over the live list as `accept_all_changes`. */
    method RejectAllChanges(here: Cursor, reports: seq<Report>)
      modifies this
      ensures var s := SettleAll(Reject, Run(old(text), old(changes), reports), 0, here, enabled, currentAuthor);
        text == s.text && changes == s.changes
      ensures |old(changes)| <= |changes| <= |old(changes)| + |reports|
      ensures forall j :: 0 <= j < |old(changes)| ==> changes[j] == MarkRejected(old(changes)[j])
      ensures forall j :: |old(changes)| <= j < |changes| ==> changes[j].author == currentAuthor && changes[j].rejected
      ensures PendingChanges(changes) == []
      ensures !enabled ==> |changes| == |old(changes)| && text == RejectAllText(old(text), here, old(changes))
      ensures enabled == old(enabled) && currentAuthor == old(currentAuthor) && showChanges == old(showChanges)
    {
      ghost var goal := SettleAll(Reject, Run(text, changes, reports), 0, here, enabled, currentAuthor);
      SettleAllFromStart(Reject, Run(text, changes, reports), here, enabled, currentAuthor);
      var rest := reports;
      var i := 0;
      while i < |changes|
        invariant 0 <= i <= |changes|
        invariant SettleAll(Reject, Run(text, changes, rest), i, here, enabled, currentAuthor) == goal
        invariant enabled == old(enabled) && currentAuthor == old(currentAuthor) && showChanges == old(showChanges)
        decreases |rest|, |changes| - i
      {
        rest := DecideAt(Reject, i, here, rest);
        i := i + 1;
      }
    }
  }

  /** A list with no pending change has an empty pending list. */
  lemma {:induction false} NoneLeftPending(cs: seq<Change>)
    requires forall j :: 0 <= j < |cs| ==> !Pending(cs[j])
    ensures PendingChanges(cs) == []
  {
    if cs != [] {
      NoneLeftPending(cs[1..]);
    }
  }

  /** The pending and the decided changes split the list. */
  lemma {:induction false} PendingSplit(cs: seq<Change>)
    ensures |PendingChanges(cs)| + |Filter(cs, (c: Change) => !Pending(c))| == |cs|
  {
    if cs != [] {
      PendingSplit(cs[1..]);
    }
  }
}
