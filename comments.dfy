/** Threaded document comments (`Comment` and `CommentsManager` in
    `pyword/features/comments.py`). */
module Comments {
  import opened Common
  import opened Json

  /** One comment. `parentId` names the comment it answers and `replies`
      lists the ids of its direct answers. Timestamps are ISO strings. */
  datatype Comment = Comment(
    id: string,
    text: string,
    author: string,
    positionStart: int,
    positionEnd: int,
    timestamp: string,
    parentId: Option<string>,
    resolved: bool,
    edited: bool,
    editTimestamp: Option<string>,
    replies: seq<string>,
    mentions: seq<string>,
    tags: seq<string>)

  /** `not c.parent_id`: a top-level comment. */
  predicate IsRoot(c: Comment)
  {
    !Truthy(c.parentId)
  }

  // ---------------------------------------------------------------------
  // Mentions

  /** `word[1:]` for each word that starts with `@`. */
  function MentionsOf(words: seq<string>): (r: seq<string>)
    ensures |r| <= |words|
  {
    if words == [] then []
    else (if StartsWith(words[0], "@") then [words[0][1..]] else []) + MentionsOf(words[1..])
  }

  /** The users a comment text mentions: its `@` tokens without the `@`. */
  function Mentions(text: string): seq<string>
  {
    MentionsOf(Words(text))
  }

  lemma {:induction false} MentionsOfMembers(words: seq<string>)
    ensures forall m :: m in MentionsOf(words) <==> "@" + m in words
  {
    if words != [] {
      MentionsOfMembers(words[1..]);
      var w := words[0];
      var head := if StartsWith(w, "@") then [w[1..]] else [];
      assert MentionsOf(words) == head + MentionsOf(words[1..]);
      forall m ensures m in MentionsOf(words) <==> "@" + m in words {
        if StartsWith(w, "@") {
          assert "@" + w[1..] == w;
        }
        if "@" + m == w {
          assert StartsWith(w, "@") && w[1..] == m;
        }
        assert "@" + m in words <==> "@" + m == w || "@" + m in words[1..];
      }
    }
  }

  /** A user is mentioned exactly when the text holds the token `@user`,
      and a mention never holds whitespace. */
  lemma MentionsSpec(text: string)
    ensures forall m :: m in Mentions(text) <==> "@" + m in Words(text)
    ensures forall m :: m in Mentions(text) ==> forall i :: 0 <= i < |m| ==> !IsSpace(m[i])
  {
    var ws := Words(text);
    MentionsOfMembers(ws);
    forall m | m in MentionsOf(ws) ensures forall i :: 0 <= i < |m| ==> !IsSpace(m[i]) {
      var k :| 0 <= k < |ws| && ws[k] == "@" + m;
      forall i | 0 <= i < |m| ensures !IsSpace(m[i]) {
        assert m[i] == ws[k][i + 1];
      }
    }
  }

  // ---------------------------------------------------------------------
  // Serialisation

  /** `Comment.to_dict`; a set edit timestamp is written, `None` becomes null. */
  function ToDict(c: Comment): (d: Dict)
    ensures d.Keys == {"id", "text", "author", "position_start", "position_end", "timestamp",
      "parent_id", "resolved", "edited", "edit_timestamp", "replies", "mentions", "tags"}
    ensures d["parent_id"].Null? <==> c.parentId.None?
    ensures d["edit_timestamp"].Null? <==> c.editTimestamp.None?
  {
    map[
      "id" := Str(c.id),
      "text" := Str(c.text),
      "author" := Str(c.author),
      "position_start" := Int(c.positionStart),
      "position_end" := Int(c.positionEnd),
      "timestamp" := Str(c.timestamp),
      "parent_id" := OptStrValue(c.parentId),
      "resolved" := Bool(c.resolved),
      "edited" := Bool(c.edited),
      "edit_timestamp" := OptStrValue(c.editTimestamp),
      "replies" := StrList(c.replies),
      "mentions" := StrList(c.mentions),
      "tags" := StrList(c.tags)]
  }

  /** The keys `from_dict` indexes directly (a missing one raises `KeyError`). */
  predicate HasRequiredKeys(d: Dict)
  {
    "text" in d && "author" in d && "position_start" in d && "position_end" in d
    && "timestamp" in d && "id" in d
  }

  /** `if data.get('edit_timestamp')`: only a non-empty string is read. */
  function EditStampFrom(d: Dict): (r: Option<string>)
    ensures r.Some? ==> r.value != ""
  {
    if "edit_timestamp" in d && d["edit_timestamp"].Str? && d["edit_timestamp"].s != "" then
      Some(d["edit_timestamp"].s)
    else None
  }

  /** `Comment.from_dict`: None where it raises `KeyError`; the flags default
      to False and the three lists to empty. */
  function FromDict(d: Dict): (r: Option<Comment>)
    ensures r.None? <==> !HasRequiredKeys(d)
    ensures r.Some? ==> (r.value.resolved == GetBool(d, "resolved", false)
      && r.value.replies == GetStrList(d, "replies", [])
      && r.value.tags == GetStrList(d, "tags", []))
  {
    if HasRequiredKeys(d) then
      Some(Comment(
        GetStr(d, "id", ""),
        GetStr(d, "text", ""),
        GetStr(d, "author", ""),
        GetInt(d, "position_start", 0),
        GetInt(d, "position_end", 0),
        GetStr(d, "timestamp", ""),
        GetOptStr(d, "parent_id"),
        GetBool(d, "resolved", false),
        GetBool(d, "edited", false),
        EditStampFrom(d),
        GetStrList(d, "replies", []),
        GetStrList(d, "mentions", []),
        GetStrList(d, "tags", [])))
    else None
  }

  /** An ISO timestamp is never the empty string. */
  predicate StampsWritten(c: Comment)
  {
    c.editTimestamp != Some("")
  }

  /** `Comment.from_dict(c.to_dict())` gives back every field. */
  lemma RoundTrip(c: Comment)
    requires StampsWritten(c)
    ensures FromDict(ToDict(c)) == Some(c)
  {
    var d := ToDict(c);
    ToDictEntries(c);
    GetStrListOf(d, "replies", c.replies, []);
    GetStrListOf(d, "mentions", c.mentions, []);
    GetStrListOf(d, "tags", c.tags, []);
  }

  /** What each key of a saved comment holds. */
  lemma ToDictEntries(c: Comment)
    ensures ToDict(c)["id"] == Str(c.id) && ToDict(c)["text"] == Str(c.text)
    ensures ToDict(c)["author"] == Str(c.author) && ToDict(c)["timestamp"] == Str(c.timestamp)
    ensures ToDict(c)["position_start"] == Int(c.positionStart) && ToDict(c)["position_end"] == Int(c.positionEnd)
    ensures ToDict(c)["parent_id"] == OptStrValue(c.parentId) && ToDict(c)["edit_timestamp"] == OptStrValue(c.editTimestamp)
    ensures ToDict(c)["resolved"] == Bool(c.resolved) && ToDict(c)["edited"] == Bool(c.edited)
    ensures ToDict(c)["replies"] == StrList(c.replies) && ToDict(c)["mentions"] == StrList(c.mentions)
    ensures ToDict(c)["tags"] == StrList(c.tags)
  {
  }

  // ---------------------------------------------------------------------
  // The comment list and its reply links

  /** The ids present in a comment list. */
  function IdsOf(cs: seq<Comment>): set<string>
  {
    set c | c in cs :: c.id
  }

  function HasId(x: string): Comment -> bool
  {
    (c: Comment) => c.id == x
  }

  /** `get_comment_by_id`: the first comment carrying the id. */
  function Lookup(cs: seq<Comment>, x: string): (r: Option<Comment>)
    ensures r.Some? ==> r.value in cs && r.value.id == x
    ensures r.None? <==> x !in IdsOf(cs)
  {
    match FirstIndex(cs, HasId(x))
    case Some(k) => Some(cs[k])
    case None => None
  }

  /** Where the comment with id `x` sits, or the length when it is absent. */
  function PosOf(cs: seq<Comment>, x: string): (k: nat)
    ensures k <= |cs|
  {
    match FirstIndex(cs, HasId(x))
    case Some(k) => k
    case None => |cs|
  }

  ghost predicate UniqueIds(cs: seq<Comment>)
  {
    forall i, j :: 0 <= i < j < |cs| ==> cs[i].id != cs[j].id
  }

  ghost predicate NonEmptyIds(cs: seq<Comment>)
  {
    forall i :: 0 <= i < |cs| ==> cs[i].id != ""
  }

  /** A listed reply comes later and names the listing comment as parent. */
  ghost predicate RepliesForward(cs: seq<Comment>)
  {
    forall i, j :: 0 <= i < |cs| && 0 <= j < |cs| && cs[j].id in cs[i].replies ==>
      i < j && cs[j].parentId == Some(cs[i].id)
  }

  /** A comment whose parent is present comes after it and is listed
      among its replies. */
  ghost predicate ParentsLinked(cs: seq<Comment>)
  {
    forall i, j :: 0 <= i < |cs| && 0 <= j < |cs| && cs[j].parentId == Some(cs[i].id) ==>
      i < j && cs[j].id in cs[i].replies
  }

  /** Every listed reply is present. */
  ghost predicate RepliesPresent(cs: seq<Comment>)
  {
    forall i, r :: 0 <= i < |cs| && r in cs[i].replies ==> r in IdsOf(cs)
  }

  ghost predicate ListsDistinct(cs: seq<Comment>)
  {
    forall i :: 0 <= i < |cs| ==> Distinct(cs[i].replies) && Distinct(cs[i].tags)
  }

  /** What the manager keeps true of its list: fresh non-empty ids, reply
      lists that match the parent links and point forward, and reply and
      tag lists without repeats. */
  ghost predicate Linked(cs: seq<Comment>)
  {
    UniqueIds(cs) && NonEmptyIds(cs) && RepliesForward(cs) && ParentsLinked(cs)
    && RepliesPresent(cs) && ListsDistinct(cs)
  }

  /** With distinct ids, the comment at `k` is the one `get_comment_by_id`
      finds for its id. */
  lemma PosAt(cs: seq<Comment>, k: nat)
    requires UniqueIds(cs) && k < |cs|
    ensures FirstIndex(cs, HasId(cs[k].id)) == Some(k)
    ensures PosOf(cs, cs[k].id) == k && Lookup(cs, cs[k].id) == Some(cs[k])
  {
    FirstIndexAt(cs, HasId(cs[k].id), k);
  }

  /** The comments whose ids are not in `g`, in order. */
  function Drop(cs: seq<Comment>, g: set<string>): (r: seq<Comment>)
    ensures forall c :: c in r <==> c in cs && c.id !in g
    ensures |r| <= |cs|
  {
    if cs == [] then [] else (if cs[0].id in g then [] else [cs[0]]) + Drop(cs[1..], g)
  }

  /** `f` applied to each comment. */
  function MapC(cs: seq<Comment>, f: Comment -> Comment): (r: seq<Comment>)
    ensures |r| == |cs|
    ensures forall k :: 0 <= k < |cs| ==> r[k] == f(cs[k])
  {
    if cs == [] then [] else [f(cs[0])] + MapC(cs[1..], f)
  }

  /** The comment with id `x` given the reply list `rs`. */
  function SetOne(x: string, rs: seq<string>): Comment -> Comment
  {
    (c: Comment) => if c.id == x then c.(replies := rs) else c
  }

  /** `parent.replies.remove(x)` when `c` is the comment `p` and lists `x`. */
  function TouchOne(p: string, x: string): Comment -> Comment
  {
    (c: Comment) => if c.id == p && x in c.replies then c.(replies := RemoveFirst(c.replies, x)) else c
  }

  /** Every comment with id `x` given the reply list `rs`. */
  function SetReplies(cs: seq<Comment>, x: string, rs: seq<string>): seq<Comment>
  {
    MapC(cs, SetOne(x, rs))
  }

  /** `parent.replies.remove(x)` on every comment with id `p` that lists `x`. */
  function Touched(cs: seq<Comment>, p: string, x: string): seq<Comment>
  {
    MapC(cs, TouchOne(p, x))
  }

  /** `x` unlinked from the reply list of its parent `p`, when `p` is truthy. */
  function Detach(cs: seq<Comment>, p: Option<string>, x: string): seq<Comment>
  {
    if Truthy(p) then Touched(cs, p.value, x) else cs
  }

  /** The parent id of the comment with id `x`. */
  function ParentIdOf(cs: seq<Comment>, x: string): Option<string>
  {
    match Lookup(cs, x)
    case Some(c) => c.parentId
    case None => None
  }

  /** A removed comment's replies are removed too. */
  ghost predicate DownClosed(cs: seq<Comment>, g: set<string>)
  {
    forall c, r :: c in cs && c.id in g && r in c.replies ==> r in g
  }

  /** Every removed comment other than `top` has a removed parent. */
  ghost predicate Rooted(cs: seq<Comment>, g: set<string>, top: string)
  {
    forall c :: c in cs && c.id in g ==> c.id == top || (c.parentId.Some? && c.parentId.value in g)
  }

  /** `g` is the reply subtree of `top`: it holds `top`, only ids present,
      all replies of its members, and nothing whose parent is outside it. */
  ghost predicate Subtree(cs: seq<Comment>, g: set<string>, top: string)
  {
    top in g && g <= IdsOf(cs) && DownClosed(cs, g) && Rooted(cs, g, top)
  }

  /** What deleting `x` from `before` leaves: the subtree `gone` is removed,
      `x` is unlinked from its parent, and nothing before `x` is removed. */
  ghost predicate DeletedSubtree(before: seq<Comment>, x: string, gone: set<string>, after: seq<Comment>)
  {
    Subtree(before, gone, x)
    && (forall m :: 0 <= m < PosOf(before, x) ==> before[m].id !in gone)
    && after == Detach(Drop(before, gone), ParentIdOf(before, x), x)
  }

  lemma DropCons(c: Comment, t: seq<Comment>, g: set<string>)
    ensures Drop([c] + t, g) == (if c.id in g then [] else [c]) + Drop(t, g)
  {
    assert ([c] + t)[0] == c && ([c] + t)[1..] == t;
  }

  lemma {:induction false} DropDrop(cs: seq<Comment>, a: set<string>, b: set<string>)
    ensures Drop(Drop(cs, a), b) == Drop(cs, a + b)
  {
    if cs != [] {
      DropDrop(cs[1..], a, b);
      var t := Drop(cs[1..], a);
      if cs[0].id in a {
        assert Drop(cs, a) == t;
      } else {
        assert Drop(cs, a) == [cs[0]] + t;
        DropCons(cs[0], t, b);
      }
    }
  }

  lemma {:induction false} DropAppend(u: seq<Comment>, v: seq<Comment>, g: set<string>)
    ensures Drop(u + v, g) == Drop(u, g) + Drop(v, g)
  {
    if u == [] {
      assert u + v == v;
    } else {
      assert (u + v)[0] == u[0] && (u + v)[1..] == u[1..] + v;
      DropAppend(u[1..], v, g);
    }
  }

  lemma {:induction false} DropNone(cs: seq<Comment>, g: set<string>)
    requires forall k :: 0 <= k < |cs| ==> cs[k].id !in g
    ensures Drop(cs, g) == cs
  {
    if cs != [] {
      DropNone(cs[1..], g);
    }
  }

  /** Removing nothing before index `n` keeps the first `n` comments in place. */
  lemma DropKeepsPrefix(cs: seq<Comment>, g: set<string>, n: nat)
    requires n <= |cs|
    requires forall k :: 0 <= k < n ==> cs[k].id !in g
    ensures |Drop(cs, g)| >= n && Drop(cs, g)[..n] == cs[..n]
  {
    assert cs == cs[..n] + cs[n..];
    DropAppend(cs[..n], cs[n..], g);
    DropNone(cs[..n], g);
  }

  lemma MapCons(c: Comment, t: seq<Comment>, f: Comment -> Comment)
    ensures MapC([c] + t, f) == [f(c)] + MapC(t, f)
  {
    assert ([c] + t)[0] == c && ([c] + t)[1..] == t;
  }

  /** Dropping by id commutes with a change that keeps ids. */
  lemma {:induction false} DropMap(cs: seq<Comment>, g: set<string>, f: Comment -> Comment)
    requires forall c :: f(c).id == c.id
    ensures Drop(MapC(cs, f), g) == MapC(Drop(cs, g), f)
  {
    if cs != [] {
      DropMap(cs[1..], g, f);
      var t := MapC(cs[1..], f);
      assert MapC(cs, f) == [f(cs[0])] + t;
      DropCons(f(cs[0]), t, g);
      if cs[0].id !in g {
        assert Drop(cs, g) == [cs[0]] + Drop(cs[1..], g);
        MapCons(cs[0], Drop(cs[1..], g), f);
      }
    }
  }

  lemma DropSetReplies(cs: seq<Comment>, g: set<string>, x: string, rs: seq<string>)
    ensures Drop(SetReplies(cs, x, rs), g) == SetReplies(Drop(cs, g), x, rs)
  {
    DropMap(cs, g, SetOne(x, rs));
  }

  lemma DropTouched(cs: seq<Comment>, g: set<string>, p: string, x: string)
    ensures Drop(Touched(cs, p, x), g) == Touched(Drop(cs, g), p, x)
  {
    DropMap(cs, g, TouchOne(p, x));
  }

  /** Unlinking `r` from comment `x` after giving it the list `rs` is giving
      it `rs` without `r`. */
  lemma TouchedSetReplies(cs: seq<Comment>, x: string, rs: seq<string>, r: string)
    ensures Touched(SetReplies(cs, x, rs), x, r) == SetReplies(cs, x, RemoveFirst(rs, r))
  {
  }

  lemma SetRepliesSame(cs: seq<Comment>, x: string, rs: seq<string>)
    requires forall k :: 0 <= k < |cs| && cs[k].id == x ==> cs[k].replies == rs
    ensures SetReplies(cs, x, rs) == cs
  {
  }

  lemma DropSetRepliesOwn(cs: seq<Comment>, x: string, rs: seq<string>)
    ensures Drop(SetReplies(cs, x, rs), {x}) == Drop(cs, {x})
  {
    DropSetReplies(cs, {x}, x, rs);
    SetRepliesSame(Drop(cs, {x}), x, rs);
  }

  /** With distinct ids, removing the comment at `j` is dropping its id. */
  lemma RemoveAtIsDrop(cs: seq<Comment>, j: nat)
    requires UniqueIds(cs) && j < |cs|
    ensures cs[..j] + cs[j + 1..] == Drop(cs, {cs[j].id})
  {
    var x := cs[j].id;
    var u, v := cs[..j], cs[j + 1..];
    forall k | 0 <= k < |u| ensures u[k].id != x {
      assert u[k] == cs[k];
    }
    forall k | 0 <= k < |v| ensures v[k].id != x {
      assert v[k] == cs[j + 1 + k];
    }
    DropNone(u, {x});
    DropNone(v, {x});
    SplitAt(cs, j);
    DropAppend(u, [cs[j]] + v, {x});
    DropCons(cs[j], v, {x});
    assert [] + Drop(v, {x}) == Drop(v, {x});
    assert Drop([cs[j]] + v, {x}) == v;
    calc {
      Drop(cs, {x});
      Drop(u + ([cs[j]] + v), {x});
      Drop(u, {x}) + Drop([cs[j]] + v, {x});
      u + Drop(v, {x});
      u + v;
    }
  }

  /** With distinct ids, updating the first comment with id `p` is
      `Touched`, and nothing changes when that comment does not list `x`. */
  lemma UpdateIsTouched(cs: seq<Comment>, p: string, x: string)
    requires UniqueIds(cs)
    ensures FirstIndex(cs, HasId(p)).None? ==> Touched(cs, p, x) == cs
    ensures FirstIndex(cs, HasId(p)).Some? ==>
      var k := FirstIndex(cs, HasId(p)).value;
      Touched(cs, p, x) ==
        if x in cs[k].replies then cs[k := cs[k].(replies := RemoveFirst(cs[k].replies, x))] else cs
  {
    var t := Touched(cs, p, x);
    match FirstIndex(cs, HasId(p)) {
      case None =>
        assert forall k :: 0 <= k < |cs| ==> t[k] == cs[k];
      case Some(k) =>
        var u := if x in cs[k].replies then cs[k := cs[k].(replies := RemoveFirst(cs[k].replies, x))] else cs;
        forall m | 0 <= m < |cs| ensures t[m] == u[m] {
          if m != k {
            assert cs[m].id != p;
          }
        }
    }
  }

  lemma IdsOfSetReplies(cs: seq<Comment>, x: string, rs: seq<string>)
    ensures IdsOf(SetReplies(cs, x, rs)) == IdsOf(cs)
  {
    var t := SetReplies(cs, x, rs);
    forall y | y in IdsOf(cs) ensures y in IdsOf(t) {
      var c :| c in cs && c.id == y;
      var k :| 0 <= k < |cs| && cs[k] == c;
      assert t[k].id == y;
    }
    forall y | y in IdsOf(t) ensures y in IdsOf(cs) {
      var c :| c in t && c.id == y;
      var k :| 0 <= k < |t| && t[k] == c;
      assert cs[k].id == y;
    }
  }

  // ---------------------------------------------------------------------
  // The cascading delete, one reply at a time

  /** Every removed comment has a removed parent or is a direct reply of `top`. */
  ghost predicate RootedBelow(cs: seq<Comment>, g: set<string>, top: string)
  {
    forall c :: c in cs && c.id in g ==> c.parentId.Some? && (c.parentId.value in g || c.parentId.value == top)
  }

  /** The state of `delete_comment(o[i].id)` after the subtrees of the
      first `idx` replies are gone: `g` is what is removed so far and the
      comment's reply list has lost those replies. */
  ghost predicate DeleteLoop(o: seq<Comment>, i: nat, idx: nat, g: set<string>, cs: seq<Comment>)
  {
    LoopShape(o, i, idx, g, cs) && LoopClosure(o, i, idx, g)
  }

  ghost predicate LoopShape(o: seq<Comment>, i: nat, idx: nat, g: set<string>, cs: seq<Comment>)
  {
    UniqueIds(o) && NonEmptyIds(o) && i < |o| && idx <= |o[i].replies|
    && cs == SetReplies(Drop(o, g), o[i].id, o[i].replies[idx..])
    && (forall k :: 0 <= k <= i ==> o[k].id !in g)
  }

  ghost predicate LoopClosure(o: seq<Comment>, i: nat, idx: nat, g: set<string>)
    requires i < |o| && idx <= |o[i].replies|
  {
    g <= IdsOf(o)
    && (forall r :: r in o[i].replies[..idx] ==> r in g)
    && DownClosed(o, g)
    && RootedBelow(o, g, o[i].id)
  }

  lemma {:induction false} DeleteLoopFacts(o: seq<Comment>, i: nat, idx: nat, g: set<string>, cs: seq<Comment>)
    requires LoopShape(o, i, idx, g, cs) && UniqueIds(cs)
    ensures |cs| <= |o| && i < |cs| && cs[i] == o[i].(replies := o[i].replies[idx..])
    ensures forall k :: 0 <= k <= i ==> cs[k].id == o[k].id
    ensures PosOf(cs, o[i].id) == i
  {
    var d, x, rs := Drop(o, g), o[i].id, o[i].replies[idx..];
    DropKeepsPrefix(o, g, i + 1);
    forall k | 0 <= k <= i
      ensures d[k] == o[k] && cs[k] == SetOne(x, rs)(o[k]) && cs[k].id == o[k].id
    {
      assert d[k] == d[..i + 1][k];
    }
    PosAt(cs, i);
  }

  lemma {:induction false} InSetRepliesDrop(o: seq<Comment>, g: set<string>, x: string, rs: seq<string>, c: Comment)
    requires c in o && c.id !in g && c.id != x
    ensures c in SetReplies(Drop(o, g), x, rs)
  {
    var d := Drop(o, g);
    var k :| 0 <= k < |d| && d[k] == c;
    assert SetReplies(d, x, rs)[k] == c;
  }

  lemma IdsOfDrop(o: seq<Comment>, g: set<string>)
    ensures IdsOf(Drop(o, g)) <= IdsOf(o) - g
  {
  }

  /** The next reply to delete: present after the comment, naming it as parent. */
  lemma {:induction false} StepTarget(cs: seq<Comment>, i: nat, r: string)
    requires UniqueIds(cs) && RepliesForward(cs) && RepliesPresent(cs)
    requires i < |cs| && r in cs[i].replies
    ensures var j := PosOf(cs, r);
      i < j < |cs| && cs[j].id == r && cs[j].parentId == Some(cs[i].id)
      && ParentIdOf(cs, r) == Some(cs[i].id)
      && forall c :: c in cs && c.id == r ==> c == cs[j]
  {
    assert r in IdsOf(cs);
    var j := PosOf(cs, r);
    PosAt(cs, j);
    forall c | c in cs && c.id == r ensures c == cs[j] {
      var m :| 0 <= m < |cs| && cs[m] == c;
      assert m == j;
    }
  }

  lemma {:induction false} StepEquation(o: seq<Comment>, g: set<string>, x: string, reps: seq<string>, idx: nat, sub: set<string>, cs: seq<Comment>, cs2: seq<Comment>)
    requires idx < |reps|
    requires cs == SetReplies(Drop(o, g), x, reps[idx..])
    requires cs2 == Touched(Drop(cs, sub), x, reps[idx])
    ensures cs2 == SetReplies(Drop(o, g + sub), x, reps[idx + 1..])
  {
    var r, rs, tail := reps[idx], reps[idx..], reps[idx + 1..];
    var d, e := Drop(o, g), Drop(o, g + sub);
    DropSetReplies(d, sub, x, rs);
    DropDrop(o, g, sub);
    assert cs2 == Touched(SetReplies(e, x, rs), x, r);
    TouchedSetReplies(e, x, rs, r);
    assert rs == [r] + tail;
    assert RemoveFirst(rs, r) == tail;
  }

  lemma {:induction false} StepClosure(o: seq<Comment>, g: set<string>, x: string, rs: seq<string>, r: string, sub: set<string>, cs: seq<Comment>)
    requires cs == SetReplies(Drop(o, g), x, rs)
    requires DownClosed(o, g) && RootedBelow(o, g, x)
    requires DownClosed(cs, sub) && Rooted(cs, sub, r) && x !in sub && sub <= IdsOf(cs)
    requires forall c :: c in cs && c.id == r ==> c.parentId == Some(x)
    ensures DownClosed(o, g + sub) && RootedBelow(o, g + sub, x)
  {
    IdsOfSetReplies(Drop(o, g), x, rs);
    IdsOfDrop(o, g);
    forall c, q | c in o && c.id in g + sub && q in c.replies ensures q in g + sub {
      if c.id in sub {
        InSetRepliesDrop(o, g, x, rs, c);
      }
    }
    forall c | c in o && c.id in g + sub
      ensures c.parentId.Some? && (c.parentId.value in g + sub || c.parentId.value == x)
    {
      if c.id in sub {
        InSetRepliesDrop(o, g, x, rs, c);
      }
    }
  }

  lemma {:induction false} StepPrefix(o: seq<Comment>, cs: seq<Comment>, g: set<string>, sub: set<string>, i: nat, j: nat)
    requires i < j <= |cs| && i < |o|
    requires forall k :: 0 <= k <= i ==> cs[k].id == o[k].id && o[k].id !in g
    requires forall m :: 0 <= m < j ==> cs[m].id !in sub
    ensures forall k :: 0 <= k <= i ==> o[k].id !in g + sub
  {
  }

  lemma {:induction false} StepTaken(reps: seq<string>, idx: nat, g: set<string>, sub: set<string>)
    requires idx < |reps| && reps[idx] in sub
    requires forall q :: q in reps[..idx] ==> q in g
    ensures forall q :: q in reps[..idx + 1] ==> q in g + sub
  {
    TakeSnoc(reps, idx);
  }

  lemma {:induction false} StepIds(o: seq<Comment>, g: set<string>, x: string, rs: seq<string>, cs: seq<Comment>, sub: set<string>)
    requires cs == SetReplies(Drop(o, g), x, rs)
    requires sub <= IdsOf(cs) && g <= IdsOf(o)
    ensures g + sub <= IdsOf(o)
  {
    IdsOfSetReplies(Drop(o, g), x, rs);
    IdsOfDrop(o, g);
  }

  lemma {:induction false} LoopShapeStep(o: seq<Comment>, i: nat, idx: nat, g: set<string>, cs: seq<Comment>, sub: set<string>, cs2: seq<Comment>)
    requires LoopShape(o, i, idx, g, cs) && idx < |o[i].replies|
    requires UniqueIds(cs) && RepliesForward(cs) && RepliesPresent(cs)
    requires DeletedSubtree(cs, o[i].replies[idx], sub, cs2)
    ensures LoopShape(o, i, idx + 1, g + sub, cs2)
  {
    var x, reps := o[i].id, o[i].replies;
    var r := reps[idx];
    DeleteLoopFacts(o, i, idx, g, cs);
    assert cs[i].replies == reps[idx..] && reps[idx..][0] == r;
    StepTarget(cs, i, r);
    StepPrefix(o, cs, g, sub, i, PosOf(cs, r));
    StepEquation(o, g, x, reps, idx, sub, cs, cs2);
  }

  lemma {:induction false} LoopClosureStep(o: seq<Comment>, i: nat, idx: nat, g: set<string>, cs: seq<Comment>, sub: set<string>, cs2: seq<Comment>)
    requires LoopShape(o, i, idx, g, cs) && LoopClosure(o, i, idx, g) && idx < |o[i].replies|
    requires UniqueIds(cs) && RepliesForward(cs) && RepliesPresent(cs)
    requires DeletedSubtree(cs, o[i].replies[idx], sub, cs2)
    ensures LoopClosure(o, i, idx + 1, g + sub)
  {
    var x, reps := o[i].id, o[i].replies;
    var r := reps[idx];
    DeleteLoopFacts(o, i, idx, g, cs);
    assert cs[i].replies == reps[idx..] && reps[idx..][0] == r;
    StepTarget(cs, i, r);
    assert x !in sub by {
      assert cs[i].id == x && i < PosOf(cs, r);
    }
    StepIds(o, g, x, reps[idx..], cs, sub);
    StepClosure(o, g, x, reps[idx..], r, sub, cs);
    StepTaken(reps, idx, g, sub);
  }

  /** Deleting the next reply's subtree extends the state by that subtree. */
  /** Before each turn of the loop: the next reply is a comment further
      down the list. */
  lemma {:induction false} NextReply(o: seq<Comment>, i: nat, idx: nat, g: set<string>, cs: seq<Comment>)
    requires DeleteLoop(o, i, idx, g, cs) && Linked(cs) && idx < |o[i].replies|
    ensures o[i].replies[idx] in IdsOf(cs)
    ensures i < PosOf(cs, o[i].replies[idx]) < |cs|
  {
    DeleteLoopFacts(o, i, idx, g, cs);
    assert cs[i].replies == o[i].replies[idx..] && o[i].replies[idx..][0] == o[i].replies[idx];
    StepTarget(cs, i, o[i].replies[idx]);
  }

  lemma {:induction false} DeleteLoopStep(o: seq<Comment>, i: nat, idx: nat, g: set<string>, cs: seq<Comment>, sub: set<string>, cs2: seq<Comment>)
    requires DeleteLoop(o, i, idx, g, cs) && idx < |o[i].replies|
    requires UniqueIds(cs) && RepliesForward(cs) && RepliesPresent(cs)
    requires DeletedSubtree(cs, o[i].replies[idx], sub, cs2)
    ensures DeleteLoop(o, i, idx + 1, g + sub, cs2)
  {
    LoopShapeStep(o, i, idx, g, cs, sub, cs2);
    LoopClosureStep(o, i, idx, g, cs, sub, cs2);
  }

  // ---------------------------------------------------------------------
  // The last step of a delete: unlink from the parent, remove the comment

  /** Where the comment at `a` after removing index `i` came from. */
  function Orig(a: nat, i: nat): nat
  {
    if a < i then a else a + 1
  }

  lemma RemovedIndex(u: seq<Comment>, i: nat)
    requires i < |u|
    ensures |u[..i] + u[i + 1..]| == |u| - 1
    ensures forall a :: 0 <= a < |u| - 1 ==> (u[..i] + u[i + 1..])[a] == u[Orig(a, i)]
  {
  }

  /** What unlinking `x` from its parent changes: only the parent's reply
      list, which loses `x`. */
  lemma {:induction false} DetachFacts(cs: seq<Comment>, p: Option<string>, x: string)
    requires ListsDistinct(cs)
    ensures var u := Detach(cs, p, x);
      |u| == |cs|
      && (forall k :: 0 <= k < |cs| ==>
        u[k].id == cs[k].id && u[k].parentId == cs[k].parentId && u[k].tags == cs[k].tags
        && Distinct(u[k].replies)
        && (forall y :: y in u[k].replies ==> y in cs[k].replies)
        && (forall y :: y in cs[k].replies && y != x ==> y in u[k].replies))
      && (forall k :: 0 <= k < |cs| && Truthy(p) && cs[k].id == p.value ==> x !in u[k].replies)
  {
    var u := Detach(cs, p, x);
    forall k | 0 <= k < |cs|
      ensures u[k].id == cs[k].id && u[k].parentId == cs[k].parentId && u[k].tags == cs[k].tags
      ensures Distinct(u[k].replies)
      ensures forall y :: y in u[k].replies ==> y in cs[k].replies
      ensures forall y :: y in cs[k].replies && y != x ==> y in u[k].replies
      ensures Truthy(p) && cs[k].id == p.value ==> x !in u[k].replies
    {
      RemoveFirstDistinct(cs[k].replies, x);
    }
  }

  lemma {:induction false} FinishForward(cs: seq<Comment>, u: seq<Comment>, i: nat)
    requires RepliesForward(cs) && |u| == |cs| && i < |cs|
    requires forall k :: 0 <= k < |cs| ==>
      u[k].id == cs[k].id && u[k].parentId == cs[k].parentId
      && (forall y :: y in u[k].replies ==> y in cs[k].replies)
    ensures RepliesForward(u[..i] + u[i + 1..])
  {
    RemovedIndex(u, i);
    var f := u[..i] + u[i + 1..];
    forall a, b | 0 <= a < |f| && 0 <= b < |f| && f[b].id in f[a].replies
      ensures a < b && f[b].parentId == Some(f[a].id)
    {
      assert cs[Orig(b, i)].id in cs[Orig(a, i)].replies;
    }
  }

  lemma {:induction false} FinishUnique(cs: seq<Comment>, u: seq<Comment>, i: nat)
    requires UniqueIds(cs) && NonEmptyIds(cs) && |u| == |cs| && i < |cs|
    requires forall k :: 0 <= k < |cs| ==> u[k].id == cs[k].id
    ensures UniqueIds(u[..i] + u[i + 1..]) && NonEmptyIds(u[..i] + u[i + 1..])
  {
    RemovedIndex(u, i);
    var f := u[..i] + u[i + 1..];
    forall a, b | 0 <= a < b < |f| ensures f[a].id != f[b].id {
      assert cs[Orig(a, i)].id != cs[Orig(b, i)].id;
    }
  }

  lemma {:induction false} FinishParents(cs: seq<Comment>, u: seq<Comment>, i: nat)
    requires ParentsLinked(cs) && UniqueIds(cs) && |u| == |cs| && i < |cs|
    requires forall k :: 0 <= k < |cs| ==>
      u[k].id == cs[k].id && u[k].parentId == cs[k].parentId
      && (forall y :: y in cs[k].replies && y != cs[i].id ==> y in u[k].replies)
    ensures ParentsLinked(u[..i] + u[i + 1..])
  {
    RemovedIndex(u, i);
    var f := u[..i] + u[i + 1..];
    forall a, b | 0 <= a < |f| && 0 <= b < |f| && f[b].parentId == Some(f[a].id)
      ensures a < b && f[b].id in f[a].replies
    {
      var a', b' := Orig(a, i), Orig(b, i);
      assert cs[b'].parentId == Some(cs[a'].id);
      assert cs[b'].id != cs[i].id;
    }
  }

  lemma {:induction false} FinishPresent(cs: seq<Comment>, u: seq<Comment>, i: nat)
    requires RepliesPresent(cs) && RepliesForward(cs) && UniqueIds(cs) && NonEmptyIds(cs)
    requires |u| == |cs| && i < |cs|
    requires forall k :: 0 <= k < |cs| ==>
      u[k].id == cs[k].id && (forall y :: y in u[k].replies ==> y in cs[k].replies)
    requires forall k :: 0 <= k < |cs| && Truthy(cs[i].parentId) && cs[k].id == cs[i].parentId.value ==>
      cs[i].id !in u[k].replies
    ensures RepliesPresent(u[..i] + u[i + 1..])
  {
    RemovedIndex(u, i);
    var f := u[..i] + u[i + 1..];
    forall a, r | 0 <= a < |f| && r in f[a].replies ensures r in IdsOf(f) {
      var a' := Orig(a, i);
      assert r in cs[a'].replies;
      assert r in IdsOf(cs);
      var m := PosOf(cs, r);
      PosAt(cs, m);
      assert m != i;
      var b := if m < i then m else m - 1;
      assert Orig(b, i) == m;
      assert f[b].id == r;
    }
  }

  lemma {:induction false} FinishDistinct(u: seq<Comment>, i: nat)
    requires i < |u| && forall k :: 0 <= k < |u| ==> Distinct(u[k].replies) && Distinct(u[k].tags)
    ensures ListsDistinct(u[..i] + u[i + 1..])
  {
    RemovedIndex(u, i);
  }

  /** Removing a comment that has no replies left, after unlinking it from
      its parent, keeps the list linked. */
  lemma {:induction false} FinishLinked(cs: seq<Comment>, i: nat)
    requires Linked(cs) && i < |cs| && cs[i].replies == []
    ensures var u := Detach(cs, cs[i].parentId, cs[i].id);
      Linked(u[..i] + u[i + 1..])
  {
    var x, p := cs[i].id, cs[i].parentId;
    var u := Detach(cs, p, x);
    DetachFacts(cs, p, x);
    FinishUnique(cs, u, i);
    FinishForward(cs, u, i);
    FinishParents(cs, u, i);
    FinishPresent(cs, u, i);
    FinishDistinct(u, i);
  }

  lemma DetachIds(cs: seq<Comment>, p: Option<string>, x: string)
    ensures |Detach(cs, p, x)| == |cs|
    ensures forall k :: 0 <= k < |cs| ==> Detach(cs, p, x)[k].id == cs[k].id
    ensures UniqueIds(cs) ==> UniqueIds(Detach(cs, p, x))
  {
  }

  lemma DropDetach(cs: seq<Comment>, g: set<string>, p: Option<string>, x: string)
    ensures Drop(Detach(cs, p, x), g) == Detach(Drop(cs, g), p, x)
  {
    if Truthy(p) {
      DropTouched(cs, g, p.value, x);
    }
  }

  lemma {:induction false} FinishSubtree(o: seq<Comment>, i: nat, g: set<string>)
    requires UniqueIds(o) && i < |o|
    requires LoopClosure(o, i, |o[i].replies|, g)
    ensures Subtree(o, g + {o[i].id}, o[i].id)
  {
    var x := o[i].id;
    assert o[i].replies[..|o[i].replies|] == o[i].replies;
    forall c, q | c in o && c.id in g + {x} && q in c.replies ensures q in g + {x} {
      if c.id == x {
        var m :| 0 <= m < |o| && o[m] == c;
        assert m == i;
      }
    }
  }

  lemma {:induction false} FinishEquation(o: seq<Comment>, i: nat, g: set<string>, cs: seq<Comment>)
    requires i < |o| && LoopShape(o, i, |o[i].replies|, g, cs) && UniqueIds(cs)
    ensures var x := o[i].id;
      var u := Detach(cs, o[i].parentId, x);
      i < |u| && u[i].id == x && FirstIndex(u, HasId(x)) == Some(i)
      && u[..i] + u[i + 1..] == Detach(Drop(o, g + {x}), o[i].parentId, x)
  {
    var x, p := o[i].id, o[i].parentId;
    DeleteLoopFacts(o, i, |o[i].replies|, g, cs);
    var u := Detach(cs, p, x);
    DetachIds(cs, p, x);
    PosAt(u, i);
    RemoveAtIsDrop(u, i);
    calc {
      u[..i] + u[i + 1..];
      Drop(u, {x});
      { DropDetach(cs, {x}, p, x); }
      Detach(Drop(cs, {x}), p, x);
      { DropSetRepliesOwn(Drop(o, g), x, []); }
      Detach(Drop(Drop(o, g), {x}), p, x);
      { DropDrop(o, g, {x}); }
      Detach(Drop(o, g + {x}), p, x);
    }
  }

  /** After all replies are gone, unlinking and removing the comment
      completes the delete of its subtree. */
  lemma {:induction false} DeleteFinish(o: seq<Comment>, i: nat, g: set<string>, cs: seq<Comment>)
    requires i < |o| && DeleteLoop(o, i, |o[i].replies|, g, cs) && UniqueIds(cs)
    ensures var x := o[i].id;
      var u := Detach(cs, o[i].parentId, x);
      i < |u| && u[i].id == x && FirstIndex(u, HasId(x)) == Some(i)
      && DeletedSubtree(o, x, g + {x}, u[..i] + u[i + 1..])
  {
    var x := o[i].id;
    FinishEquation(o, i, g, cs);
    PosAt(o, i);
    FinishSubtree(o, i, g);
    assert PosOf(o, x) == i;
    forall m | 0 <= m < i ensures o[m].id !in g + {x} {
      assert o[m].id != o[i].id && o[m].id !in g;
    }
  }

  lemma DeleteStart(o: seq<Comment>, i: nat)
    requires UniqueIds(o) && NonEmptyIds(o) && i < |o|
    ensures DeleteLoop(o, i, 0, {}, o)
  {
    DropNone(o, {});
    assert o[i].replies[0..] == o[i].replies;
    forall k | 0 <= k < |o| && o[k].id == o[i].id ensures o[k].replies == o[i].replies {
      PosAt(o, k);
      PosAt(o, i);
    }
    SetRepliesSame(o, o[i].id, o[i].replies);
  }

  // ---------------------------------------------------------------------
  // Queries over the comment list

  /** `get_comments_by_author`. */
  function CommentsByAuthor(cs: seq<Comment>, author: string): (r: seq<Comment>)
    ensures forall c :: c in r <==> c in cs && c.author == author
  {
    Filter(cs, (c: Comment) => c.author == author)
  }

  function IsActive(c: Comment): bool
  {
    !c.resolved && IsRoot(c)
  }

  function IsResolvedRoot(c: Comment): bool
  {
    c.resolved && IsRoot(c)
  }

  /** `get_active_comments`: unresolved top-level comments. */
  function ActiveComments(cs: seq<Comment>): (r: seq<Comment>)
    ensures forall c :: c in r <==> c in cs && !c.resolved && IsRoot(c)
  {
    Filter(cs, IsActive)
  }

  /** `get_resolved_comments`: resolved top-level comments. */
  function ResolvedComments(cs: seq<Comment>): (r: seq<Comment>)
    ensures forall c :: c in r <==> c in cs && c.resolved && IsRoot(c)
  {
    Filter(cs, IsResolvedRoot)
  }

  /** `get_all_root_comments`: comments without a (truthy) parent id. */
  function RootComments(cs: seq<Comment>): (r: seq<Comment>)
    ensures forall c :: c in r <==> c in cs && IsRoot(c)
  {
    Filter(cs, IsRoot)
  }

  /** Replies never count as active or resolved: the top-level comments
      split, in order, into the active and the resolved ones. */
  lemma ActiveResolvedPartition(cs: seq<Comment>)
    ensures ActiveComments(cs) == Filter(RootComments(cs), (c: Comment) => !c.resolved)
    ensures ResolvedComments(cs) == Filter(RootComments(cs), (c: Comment) => c.resolved)
    ensures |ActiveComments(cs)| + |ResolvedComments(cs)| == |RootComments(cs)|
  {
    FilterFilter(cs, IsRoot, (c: Comment) => !c.resolved, IsActive);
    FilterFilter(cs, IsRoot, (c: Comment) => c.resolved, IsResolvedRoot);
    FilterCount(cs, IsActive, IsResolvedRoot, IsRoot);
  }

  /** `get_mentions`: comments whose mention list names the user. */
  function Mentioning(cs: seq<Comment>, user: string): (r: seq<Comment>)
    ensures forall c :: c in r <==> c in cs && user in c.mentions
  {
    Filter(cs, (c: Comment) => user in c.mentions)
  }

  /** `get_comments_by_tag`. */
  function CommentsByTag(cs: seq<Comment>, tag: string): (r: seq<Comment>)
    ensures forall c :: c in r <==> c in cs && tag in c.tags
  {
    Filter(cs, (c: Comment) => tag in c.tags)
  }

  /** `get_replies`: one lookup per listed reply id, or nothing when the
      id is unknown. */
  function GetReplies(cs: seq<Comment>, cid: string): (r: seq<Option<Comment>>)
  {
    match Lookup(cs, cid)
    case None => []
    case Some(c) => seq(|c.replies|, j requires 0 <= j < |c.replies| => Lookup(cs, c.replies[j]))
  }

  /** In a linked list every listed reply is found, in listed order, and
      answers the comment asked about. */
  lemma RepliesAreChildren(cs: seq<Comment>, cid: string)
    requires Linked(cs)
    ensures cid !in IdsOf(cs) ==> GetReplies(cs, cid) == []
    ensures cid in IdsOf(cs) ==>
      var reps := Lookup(cs, cid).value.replies;
      |GetReplies(cs, cid)| == |reps|
      && forall j :: 0 <= j < |reps| ==>
        GetReplies(cs, cid)[j].Some? && GetReplies(cs, cid)[j].value.id == reps[j]
        && GetReplies(cs, cid)[j].value.parentId == Some(cid)
  {
    if cid in IdsOf(cs) {
      var i := PosOf(cs, cid);
      PosAt(cs, i);
      var reps := cs[i].replies;
      forall j | 0 <= j < |reps|
        ensures GetReplies(cs, cid)[j].Some? && GetReplies(cs, cid)[j].value.id == reps[j]
        ensures GetReplies(cs, cid)[j].value.parentId == Some(cid)
      {
        assert reps[j] in IdsOf(cs);
        var q := PosOf(cs, reps[j]);
        PosAt(cs, q);
      }
    }
  }

  /** `navigate_to_comment`: where the cursor is moved, if the comment exists. */
  function NavigateTarget(cs: seq<Comment>, cid: string): (r: Option<int>)
    ensures r.Some? <==> cid in IdsOf(cs)
    ensures r.Some? ==> exists c :: c in cs && c.id == cid && c.positionStart == r.value
  {
    match Lookup(cs, cid)
    case Some(c) => Some(c.positionStart)
    case None => None
  }

  // ---------------------------------------------------------------------
  // Threads

  /** Listed replies sit after the comment listing them (or are absent). */
  lemma RepliesAfter(cs: seq<Comment>, k: nat)
    requires RepliesForward(cs) && k < |cs|
    ensures forall r :: r in cs[k].replies ==> k < PosOf(cs, r)
  {
    forall r | r in cs[k].replies ensures k < PosOf(cs, r) {
      match FirstIndex(cs, HasId(r)) {
        case Some(j) =>
          assert cs[j].id in cs[k].replies;
        case None =>
      }
    }
  }

  /** `get_comment_thread`: the comment, then for each reply found, the
      thread of that reply, in reply order. Reply links point forward, so
      the recursion ends. */
  function Thread(cs: seq<Comment>, x: string): (t: seq<Comment>)
    requires RepliesForward(cs)
    ensures x !in IdsOf(cs) ==> t == []
    ensures x in IdsOf(cs) ==> t != [] && t[0] == Lookup(cs, x).value
    ensures forall c :: c in t ==> c in cs
    decreases |cs| - PosOf(cs, x), 1, 0
  {
    match FirstIndex(cs, HasId(x))
    case None => []
    case Some(k) =>
      RepliesAfter(cs, k);
      [cs[k]] + Threads(cs, cs[k].replies, k)
  }

  /** The threads of the replies `rs` of the comment at `from`, joined. */
  function Threads(cs: seq<Comment>, rs: seq<string>, from: nat): (t: seq<Comment>)
    requires RepliesForward(cs) && from < |cs|
    requires forall r :: r in rs ==> from < PosOf(cs, r)
    ensures forall c :: c in t ==> c in cs
    decreases |cs| - from, 0, |rs|
  {
    if rs == [] then [] else Thread(cs, rs[0]) + Threads(cs, rs[1..], from)
  }

  /** One turn of the loop in `get_comment_thread`: the thread of the
      next reply is appended. */
  lemma ThreadsStep(cs: seq<Comment>, rs: seq<string>, idx: nat, from: nat, before: seq<Comment>, after: seq<Comment>)
    requires RepliesForward(cs) && from < |cs| && idx < |rs|
    requires forall r :: r in rs ==> from < PosOf(cs, r)
    requires after == before + Thread(cs, rs[idx])
    ensures after + Threads(cs, rs[idx + 1..], from) == before + Threads(cs, rs[idx..], from)
  {
    var tail := rs[idx..];
    assert tail[0] == rs[idx] && tail[1..] == rs[idx + 1..];
    var u, v := Thread(cs, rs[idx]), Threads(cs, rs[idx + 1..], from);
    assert Threads(cs, tail, from) == u + v;
    calc {
      after + v;
      (before + u) + v;
      before + (u + v);
    }
  }

  lemma {:induction false} ThreadsHas(cs: seq<Comment>, rs: seq<string>, from: nat, r: string)
    requires RepliesForward(cs) && from < |cs|
    requires forall q :: q in rs ==> from < PosOf(cs, q)
    requires r in rs && r in IdsOf(cs)
    ensures Lookup(cs, r).value in Threads(cs, rs, from)
    decreases |rs|
  {
    if rs[0] != r {
      ThreadsHas(cs, rs[1..], from, r);
    }
  }

  /** A thread holds, with each comment, every present reply it lists. */
  lemma {:induction false} ThreadClosed(cs: seq<Comment>, x: string, c: Comment, r: string)
    requires RepliesForward(cs)
    requires c in Thread(cs, x) && r in c.replies && r in IdsOf(cs)
    ensures Lookup(cs, r).value in Thread(cs, x)
    decreases |cs| - PosOf(cs, x), 1, 0
  {
    var k := FirstIndex(cs, HasId(x)).value;
    RepliesAfter(cs, k);
    if c == cs[k] {
      ThreadsHas(cs, cs[k].replies, k, r);
    } else {
      ThreadsClosed(cs, cs[k].replies, k, c, r);
    }
  }

  lemma {:induction false} ThreadsClosed(cs: seq<Comment>, rs: seq<string>, from: nat, c: Comment, r: string)
    requires RepliesForward(cs) && from < |cs|
    requires forall q :: q in rs ==> from < PosOf(cs, q)
    requires c in Threads(cs, rs, from) && r in c.replies && r in IdsOf(cs)
    ensures Lookup(cs, r).value in Threads(cs, rs, from)
    decreases |cs| - from, 0, |rs|
  {
    if c in Thread(cs, rs[0]) {
      ThreadClosed(cs, rs[0], c, r);
    } else {
      ThreadsClosed(cs, rs[1..], from, c, r);
    }
  }

  /** A reply-closed set holding `x` holds all of the thread of `x`. */
  lemma {:induction false} ThreadWithin(cs: seq<Comment>, g: set<string>, x: string)
    requires RepliesForward(cs) && DownClosed(cs, g) && x in g
    ensures forall c :: c in Thread(cs, x) ==> c.id in g
    decreases |cs| - PosOf(cs, x), 1, 0
  {
    match FirstIndex(cs, HasId(x)) {
      case None =>
      case Some(k) =>
        RepliesAfter(cs, k);
        assert cs[k] in cs;
        ThreadsWithin(cs, g, cs[k].replies, k);
    }
  }

  lemma {:induction false} ThreadsWithin(cs: seq<Comment>, g: set<string>, rs: seq<string>, from: nat)
    requires RepliesForward(cs) && DownClosed(cs, g) && from < |cs|
    requires forall q :: q in rs ==> from < PosOf(cs, q) && q in g
    ensures forall c :: c in Threads(cs, rs, from) ==> c.id in g
    decreases |cs| - from, 0, |rs|
  {
    if rs != [] {
      ThreadWithin(cs, g, rs[0]);
      ThreadsWithin(cs, g, rs[1..], from);
    }
  }

  /** Every member of the reply subtree of `x` is on the thread of `x`. */
  lemma {:induction false} InThreadAt(cs: seq<Comment>, g: set<string>, x: string, j: nat)
    requires Linked(cs) && Subtree(cs, g, x) && j < |cs| && cs[j].id in g
    ensures cs[j] in Thread(cs, x)
    decreases j
  {
    PosAt(cs, j);
    assert cs[j] in cs;
    if cs[j].id != x {
      var p := cs[j].parentId.value;
      assert p in IdsOf(cs);
      var q := PosOf(cs, p);
      PosAt(cs, q);
      assert cs[j].parentId == Some(cs[q].id);
      InThreadAt(cs, g, x, q);
      ThreadClosed(cs, x, cs[q], cs[j].id);
    }
  }

  /** The reply subtree of `x` is exactly the set of ids on its thread:
      what `delete_comment` removes is what `get_comment_thread` returns. */
  lemma SubtreeIsThread(cs: seq<Comment>, g: set<string>, x: string)
    requires Linked(cs) && Subtree(cs, g, x)
    ensures g == IdsOf(Thread(cs, x))
  {
    ThreadWithin(cs, g, x);
    forall y | y in g ensures y in IdsOf(Thread(cs, x)) {
      var d :| d in cs && d.id == y;
      var j :| 0 <= j < |cs| && cs[j] == d;
      InThreadAt(cs, g, x, j);
    }
  }

  /** Deleting `x` leaves the list without the comments on its thread,
      with `x` unlinked from its parent. */
  lemma DeleteRemovesThread(before: seq<Comment>, x: string, gone: set<string>, after: seq<Comment>)
    requires Linked(before) && DeletedSubtree(before, x, gone, after)
    ensures gone == IdsOf(Thread(before, x))
    ensures after == Detach(Drop(before, IdsOf(Thread(before, x))), ParentIdOf(before, x), x)
  {
    SubtreeIsThread(before, gone, x);
  }

  // ---------------------------------------------------------------------
  // Adding a comment

  /** What `uuid.uuid4()` guarantees of a new id: it is non-empty and no
      comment carries it or names it as parent. */
  ghost predicate FreshId(cs: seq<Comment>, x: string)
  {
    x != "" && x !in IdsOf(cs) && forall k :: 0 <= k < |cs| ==> cs[k].parentId != Some(x)
  }

  /** `parent.replies.append(x)` on the first comment with id `p`, when
      `p` is truthy and such a comment exists. */
  function Attach(cs: seq<Comment>, p: Option<string>, x: string): seq<Comment>
  {
    if Truthy(p) then
      match FirstIndex(cs, HasId(p.value))
      case Some(k) => cs[k := cs[k].(replies := cs[k].replies + [x])]
      case None => cs
    else cs
  }

  /** The comment `add_comment` builds. */
  function NewComment(x: string, text: string, author: string, start: int, end: int, now: string, parentId: Option<string>): (c: Comment)
    ensures c.id == x && c.parentId == parentId && c.replies == [] && c.tags == []
    ensures !c.resolved && !c.edited && c.editTimestamp.None?
    ensures forall m :: m in c.mentions <==> "@" + m in Words(text)
  {
    MentionsSpec(text);
    Comment(x, text, author, start, end, now, parentId, false, false, None, [], Mentions(text), [])
  }

  lemma {:induction false} AttachFacts(cs: seq<Comment>, c: Comment)
    requires UniqueIds(cs) && FreshId(cs, c.id) && c.parentId != Some(c.id)
    ensures var t, p, x := cs + [c], c.parentId, c.id;
      var u := Attach(t, p, x);
      |u| == |t| && u[|cs|] == c
      && (forall m :: 0 <= m < |t| ==>
        u[m].id == t[m].id && u[m].parentId == t[m].parentId && u[m].tags == t[m].tags
        && (u[m].replies == t[m].replies || (Truthy(p) && t[m].id == p.value && u[m].replies == t[m].replies + [x])))
      && (forall m :: 0 <= m < |t| && Truthy(p) && t[m].id == p.value ==> m < |cs| && u[m].replies == t[m].replies + [x])
      && (forall m :: 0 <= m < |cs| ==>
        u[m] == if Truthy(p) && cs[m].id == p.value then cs[m].(replies := cs[m].replies + [x]) else cs[m])
  {
    var t, p, x := cs + [c], c.parentId, c.id;
    assert t[|cs|] == c;
    assert UniqueIds(t) by {
      forall a, b | 0 <= a < b < |t| ensures t[a].id != t[b].id {
        if b == |cs| {
          assert t[a] in cs;
        }
      }
    }
    if Truthy(p) {
      match FirstIndex(t, HasId(p.value)) {
        case Some(k) =>
          assert k < |cs|;
          forall m | 0 <= m < |t| && t[m].id == p.value ensures m == k {
            PosAt(t, m);
          }
        case None =>
      }
    }
  }

  lemma {:induction false} AddForward(cs: seq<Comment>, c: Comment, u: seq<Comment>)
    requires UniqueIds(cs) && RepliesForward(cs) && RepliesPresent(cs) && FreshId(cs, c.id)
    requires |u| == |cs| + 1 && u[|cs|] == c && c.replies == []
    requires forall m :: 0 <= m < |cs| ==>
      u[m].id == cs[m].id && u[m].parentId == cs[m].parentId
      && (u[m].replies == cs[m].replies || (Truthy(c.parentId) && cs[m].id == c.parentId.value && u[m].replies == cs[m].replies + [c.id]))
    ensures RepliesForward(u)
  {
    forall a, b | 0 <= a < |u| && 0 <= b < |u| && u[b].id in u[a].replies
      ensures a < b && u[b].parentId == Some(u[a].id)
    {
      assert a < |cs|;
      if b < |cs| {
        assert cs[b].id in IdsOf(cs);
        assert u[b].id in cs[a].replies;
      } else {
        assert c.id !in cs[a].replies;
      }
    }
  }

  lemma {:induction false} AddParents(cs: seq<Comment>, c: Comment, u: seq<Comment>)
    requires UniqueIds(cs) && NonEmptyIds(cs) && ParentsLinked(cs) && FreshId(cs, c.id) && c.parentId != Some(c.id)
    requires |u| == |cs| + 1 && u[|cs|] == c
    requires forall m :: 0 <= m < |cs| ==>
      u[m].id == cs[m].id && u[m].parentId == cs[m].parentId
      && (forall y :: y in cs[m].replies ==> y in u[m].replies)
    requires forall m :: 0 <= m < |cs| && Truthy(c.parentId) && cs[m].id == c.parentId.value ==> c.id in u[m].replies
    ensures ParentsLinked(u)
  {
    forall a, b | 0 <= a < |u| && 0 <= b < |u| && u[b].parentId == Some(u[a].id)
      ensures a < b && u[b].id in u[a].replies
    {
      assert a < |cs|;
      if b == |cs| {
        assert cs[a].id != "";
      } else {
        assert cs[b].parentId == Some(cs[a].id);
      }
    }
  }

  lemma {:induction false} AddPresent(cs: seq<Comment>, c: Comment, u: seq<Comment>)
    requires RepliesPresent(cs) && c.replies == []
    requires |u| == |cs| + 1 && u[|cs|] == c
    requires forall m :: 0 <= m < |cs| ==>
      u[m].id == cs[m].id
      && (forall y :: y in u[m].replies ==> y in cs[m].replies || y == c.id)
    ensures RepliesPresent(u)
  {
    forall a, r | 0 <= a < |u| && r in u[a].replies ensures r in IdsOf(u) {
      assert a < |cs|;
      if r == c.id {
        assert u[|cs|].id == r;
      } else {
        assert r in cs[a].replies;
        assert r in IdsOf(cs);
        var d :| d in cs && d.id == r;
        var m :| 0 <= m < |cs| && cs[m] == d;
        assert u[m].id == r;
      }
    }
  }

  lemma {:induction false} AddDistinct(cs: seq<Comment>, c: Comment, u: seq<Comment>)
    requires ListsDistinct(cs) && RepliesPresent(cs) && FreshId(cs, c.id) && c.replies == [] && c.tags == []
    requires |u| == |cs| + 1 && u[|cs|] == c
    requires forall m :: 0 <= m < |cs| ==>
      u[m].tags == cs[m].tags
      && (u[m].replies == cs[m].replies || u[m].replies == cs[m].replies + [c.id])
    ensures ListsDistinct(u)
  {
    forall m | 0 <= m < |u| ensures Distinct(u[m].replies) && Distinct(u[m].tags) {
      if m < |cs| && u[m].replies != cs[m].replies {
        DistinctSnoc(cs[m].replies, c.id);
      }
    }
  }

  /** Appending a comment with a fresh id and linking it into its parent's
      reply list keeps the list linked. */
  lemma {:induction false} AddLinked(cs: seq<Comment>, c: Comment)
    requires Linked(cs) && FreshId(cs, c.id) && c.parentId != Some(c.id) && c.replies == [] && c.tags == []
    ensures Linked(Attach(cs + [c], c.parentId, c.id))
  {
    var t := cs + [c];
    var u := Attach(t, c.parentId, c.id);
    AttachFacts(cs, c);
    assert forall m :: 0 <= m < |cs| ==> t[m] == cs[m];
    AddForward(cs, c, u);
    AddParents(cs, c, u);
    AddPresent(cs, c, u);
    AddDistinct(cs, c, u);
    assert UniqueIds(u) by {
      forall a, b | 0 <= a < b < |u| ensures u[a].id != u[b].id {
        if b == |cs| {
          assert cs[a] in cs;
        }
      }
    }
  }

  /** Changing a comment's text, flags or tags, but not its id, parent or
      replies, keeps the list linked, provided the tags stay distinct. */
  lemma LinkedKeep(cs: seq<Comment>, k: nat, c: Comment)
    requires Linked(cs) && k < |cs|
    requires c.id == cs[k].id && c.parentId == cs[k].parentId && c.replies == cs[k].replies && Distinct(c.tags)
    ensures Linked(cs[k := c]) && IdsOf(cs[k := c]) == IdsOf(cs)
  {
    var u := cs[k := c];
    assert forall m :: 0 <= m < |cs| ==> u[m].id == cs[m].id && u[m].parentId == cs[m].parentId && u[m].replies == cs[m].replies;
    forall y | y in IdsOf(cs) ensures y in IdsOf(u) {
      var d :| d in cs && d.id == y;
      var m :| 0 <= m < |cs| && cs[m] == d;
      assert u[m].id == y;
    }
  }

  /** `cursor.selectionStart()`, `selectionEnd()` and `hasSelection()` of
      an editor cursor given by its position and anchor. */
  datatype Cursor = Cursor(position: int, anchor: int)

  /** The span `add_comment` attaches to: the one given, else the
      selection, else the empty span at the cursor. */
  function Span(given: Option<(int, int)>, cursor: Cursor): (r: (int, int))
    ensures given.Some? ==> r == given.value
    ensures given.None? ==> r.0 <= r.1 && {r.0, r.1} == {cursor.position, cursor.anchor}
  {
    if given.Some? then given.value
    else if cursor.position != cursor.anchor then
      if cursor.position < cursor.anchor then (cursor.position, cursor.anchor)
      else (cursor.anchor, cursor.position)
    else (cursor.position, cursor.position)
  }

  /** The comment list after `resolve_comment(cid)` has marked the comment
      and the replies in `done`. */
  ghost predicate ResolveState(o: seq<Comment>, cs: seq<Comment>, cid: string, done: seq<string>)
  {
    |cs| == |o|
    && forall k :: 0 <= k < |o| ==> cs[k] == o[k].(resolved := o[k].resolved || o[k].id == cid || o[k].id in done)
  }

  /** Only the resolved marks differ. */
  lemma LinkedMarks(o: seq<Comment>, cs: seq<Comment>, cid: string, done: seq<string>)
    requires Linked(o) && ResolveState(o, cs, cid, done)
    ensures Linked(cs) && IdsOf(cs) == IdsOf(o)
  {
    assert forall k :: 0 <= k < |o| ==> cs[k].id == o[k].id && cs[k].parentId == o[k].parentId && cs[k].replies == o[k].replies && cs[k].tags == o[k].tags;
    forall y | y in IdsOf(o) ensures y in IdsOf(cs) {
      var d :| d in o && d.id == y;
      var m :| 0 <= m < |o| && o[m] == d;
      assert cs[m].id == y;
    }
  }

  /** Resolving the first comment with id `r` extends the marked replies by `r`. */
  lemma {:induction false} ResolveStep(o: seq<Comment>, cs: seq<Comment>, cid: string, reps: seq<string>, idx: nat)
    requires UniqueIds(o) && idx < |reps| && ResolveState(o, cs, cid, reps[..idx])
    ensures var q := FirstIndex(cs, HasId(reps[idx]));
      ResolveState(o, if q.Some? then cs[q.value := cs[q.value].(resolved := true)] else cs, cid, reps[..idx + 1])
  {
    var r := reps[idx];
    TakeSnoc(reps, idx);
    assert forall k :: 0 <= k < |o| ==> cs[k].id == o[k].id;
    var q := FirstIndex(cs, HasId(r));
    if q.Some? {
      forall k | 0 <= k < |o| && o[k].id == r ensures k == q.value {
        PosAt(o, k);
        PosAt(o, q.value);
      }
    }
  }

  lemma ResolveStart(o: seq<Comment>, i: nat, cid: string)
    requires UniqueIds(o) && i < |o| && o[i].id == cid
    ensures ResolveState(o, o[i := o[i].(resolved := true)], cid, [])
  {
    forall k | 0 <= k < |o| && o[k].id == cid ensures k == i {
      PosAt(o, k);
      PosAt(o, i);
    }
  }

  // ---------------------------------------------------------------------
  // The manager

  /** `CommentsManager`: the document's comments in insertion order, the
      author new comments are signed with, and whether highlights show. */
  class CommentsManager {
    var comments: seq<Comment>
    var currentAuthor: string
    var showComments: bool

    ghost predicate Valid()
      reads this
    {
      Linked(comments)
    }

    constructor ()
      ensures Valid()
      ensures comments == [] && currentAuthor == "Unknown User" && showComments
    {
      comments := [];
      currentAuthor := "Unknown User";
      showComments := true;
    }

    method SetAuthor(author: string)
      modifies this
      ensures currentAuthor == author
      ensures comments == old(comments) && showComments == old(showComments)
    {
      currentAuthor := author;
    }

    /** The tail of `delete_comment`, once the comment at `i` has no
        replies left: unlink it from its parent's reply list, then remove it. */
    method RemoveLeaf(i: nat)
      requires Valid() && i < |comments| && comments[i].replies == []
      modifies this
      ensures Valid()
      ensures currentAuthor == old(currentAuthor) && showComments == old(showComments)
      ensures var u := Detach(old(comments), old(comments[i].parentId), old(comments[i].id));
        |u| == |old(comments)| && comments == u[..i] + u[i + 1..]
    {
      var cid, parent := comments[i].id, comments[i].parentId;
      FinishLinked(comments, i);
      DetachIds(comments, parent, cid);
      if Truthy(parent) {
        UpdateIsTouched(comments, parent.value, cid);
        var pk := FirstIndex(comments, HasId(parent.value));
        if pk.Some? && cid in comments[pk.value].replies {
          comments := comments[pk.value := comments[pk.value].(replies := RemoveFirst(comments[pk.value].replies, cid))];
        }
      }
      comments := RemoveAt(comments, i);
    }

    /** The loop of `delete_comment` over a copy of the reply list of the
        comment at `i`: each reply is deleted in turn, with its subtree. */
    method DeleteReplies(i: nat) returns (ghost gone: set<string>)
      requires Valid() && i < |comments|
      modifies this
      ensures Valid()
      ensures currentAuthor == old(currentAuthor) && showComments == old(showComments)
      ensures DeleteLoop(old(comments), i, |old(comments)[i].replies|, gone, comments)
      decreases |comments| - i, 0
    {
      ghost var o := comments;
      var reps := comments[i].replies;
      DeleteStart(o, i);
      gone := {};
      var idx := 0;
      while idx < |reps|
        invariant idx <= |reps| == |o[i].replies| && reps == o[i].replies
        invariant DeleteLoop(o, i, idx, gone, comments) && Valid()
        invariant currentAuthor == old(currentAuthor) && showComments == old(showComments)
        decreases |reps| - idx
      {
        ghost var cs := comments;
        NextReply(o, i, idx, gone, cs);
        var _, sub := DeleteComment(reps[idx]);
        DeleteLoopStep(o, i, idx, gone, cs, sub, comments);
        gone := gone + sub;
        idx := idx + 1;
      }
    }

    /** `delete_comment`: removes the comment and, first, every reply below
        it, unlinking it from its parent; false when the id is unknown. */
    method DeleteComment(cid: string) returns (ok: bool, ghost gone: set<string>)
      requires Valid()
      modifies this
      ensures Valid()
      ensures currentAuthor == old(currentAuthor) && showComments == old(showComments)
      ensures ok <==> cid in old(IdsOf(comments))
      ensures !ok ==> comments == old(comments) && gone == {}
      ensures ok ==> DeletedSubtree(old(comments), cid, gone, comments)
      decreases |comments| - PosOf(comments, cid), 1
    {
      var found := FirstIndex(comments, HasId(cid));
      if found.None? {
        return false, {};
      }
      var i := found.value;
      ghost var o := comments;
      gone := DeleteReplies(i);
      ghost var cs := comments;
      DeleteLoopFacts(o, i, |o[i].replies|, gone, cs);
      DeleteFinish(o, i, gone, cs);
      RemoveLeaf(i);
      gone := gone + {cid};
      ok := true;
    }
      /** `set_author` followed by `add_comment(text, start, end, parent_id)`:
        the new comment, with id `x` and time `now`, goes at the end and is
        listed among its parent's replies. */
    method AddComment(text: string, given: Option<(int, int)>, cursor: Cursor, parentId: Option<string>, x: string, now: string)
      returns (c: Comment)
      requires Valid() && FreshId(comments, x) && parentId != Some(x)
      modifies this
      ensures Valid()
      ensures currentAuthor == old(currentAuthor) && showComments == old(showComments)
      ensures c == NewComment(x, text, currentAuthor, Span(given, cursor).0, Span(given, cursor).1, now, parentId)
      ensures |comments| == |old(comments)| + 1 && comments[|old(comments)|] == c
      ensures forall m :: 0 <= m < |old(comments)| ==>
        comments[m] == if Truthy(parentId) && old(comments)[m].id == parentId.value
          then old(comments)[m].(replies := old(comments)[m].replies + [x]) else old(comments)[m]
    {
      var span := Span(given, cursor);
      c := NewComment(x, text, currentAuthor, span.0, span.1, now, parentId);
      ghost var o := comments;
      AttachFacts(o, c);
      AddLinked(o, c);
      comments := comments + [c];
      if Truthy(parentId) {
        var k := FirstIndex(comments, HasId(parentId.value));
        if k.Some? {
          comments := comments[k.value := comments[k.value].(replies := comments[k.value].replies + [x])];
        }
      }
    }

    /** `edit_comment`: new text, the edited mark, the edit time and the
        mentions of the new text; false when the id is unknown. */
    method EditComment(cid: string, newText: string, now: string) returns (ok: bool)
      requires Valid()
      modifies this
      ensures Valid()
      ensures currentAuthor == old(currentAuthor) && showComments == old(showComments)
      ensures ok <==> cid in old(IdsOf(comments))
      ensures !ok ==> comments == old(comments)
      ensures ok ==> var k := PosOf(old(comments), cid);
        comments == old(comments)[k := old(comments)[k].(text := newText, edited := true, editTimestamp := Some(now), mentions := Mentions(newText))]
    {
      var found := FirstIndex(comments, HasId(cid));
      if found.None? {
        return false;
      }
      var k := found.value;
      var c := comments[k].(text := newText, edited := true, editTimestamp := Some(now), mentions := Mentions(newText));
      LinkedKeep(comments, k, c);
      comments := comments[k := c];
      ok := true;
    }

    /** `resolve_comment`: marks the comment and each of its direct replies
        resolved, and nothing else; false when the id is unknown. */
    method ResolveComment(cid: string) returns (ok: bool)
      requires Valid()
      modifies this
      ensures Valid()
      ensures currentAuthor == old(currentAuthor) && showComments == old(showComments)
      ensures ok <==> cid in old(IdsOf(comments))
      ensures !ok ==> comments == old(comments)
      ensures ok ==> ResolveState(old(comments), comments, cid, old(Lookup(comments, cid)).value.replies)
    {
      var found := FirstIndex(comments, HasId(cid));
      if found.None? {
        return false;
      }
      var i := found.value;
      ghost var o := comments;
      PosAt(o, i);
      ResolveStart(o, i, cid);
      var reps := comments[i].replies;
      comments := comments[i := comments[i].(resolved := true)];
      var idx := 0;
      while idx < |reps|
        invariant idx <= |reps| && reps == o[i].replies
        invariant ResolveState(o, comments, cid, reps[..idx])
        invariant currentAuthor == old(currentAuthor) && showComments == old(showComments)
      {
        ResolveStep(o, comments, cid, reps, idx);
        var q := FirstIndex(comments, HasId(reps[idx]));
        if q.Some? {
          comments := comments[q.value := comments[q.value].(resolved := true)];
        }
        idx := idx + 1;
      }
      assert reps[..idx] == reps;
      LinkedMarks(o, comments, cid, reps);
      ok := true;
    }

    /** `unresolve_comment`: clears the mark on that comment alone. */
    method UnresolveComment(cid: string) returns (ok: bool)
      requires Valid()
      modifies this
      ensures Valid()
      ensures currentAuthor == old(currentAuthor) && showComments == old(showComments)
      ensures ok <==> cid in old(IdsOf(comments))
      ensures !ok ==> comments == old(comments)
      ensures ok ==> var k := PosOf(old(comments), cid);
        comments == old(comments)[k := old(comments)[k].(resolved := false)]
    {
      var found := FirstIndex(comments, HasId(cid));
      if found.None? {
        return false;
      }
      var k := found.value;
      LinkedKeep(comments, k, comments[k].(resolved := false));
      comments := comments[k := comments[k].(resolved := false)];
      ok := true;
    }

    /** `get_comment_by_id`: a scan for the first comment with the id. */
    method GetCommentById(cid: string) returns (r: Option<Comment>)
      ensures r == Lookup(comments, cid)
    {
      var i := 0;
      while i < |comments|
        invariant i <= |comments|
        invariant forall j :: 0 <= j < i ==> comments[j].id != cid
      {
        if comments[i].id == cid {
          FirstIndexAt(comments, HasId(cid), i);
          return Some(comments[i]);
        }
        i := i + 1;
      }
      return None;
    }

    /** `add_tag`: appends a tag the comment lacks; false when the id is
        unknown or the tag is already there. */
    method AddTag(cid: string, tag: string) returns (ok: bool)
      requires Valid()
      modifies this
      ensures Valid()
      ensures currentAuthor == old(currentAuthor) && showComments == old(showComments)
      ensures ok <==> cid in old(IdsOf(comments)) && tag !in old(Lookup(comments, cid)).value.tags
      ensures !ok ==> comments == old(comments)
      ensures ok ==> var k := PosOf(old(comments), cid);
        comments == old(comments)[k := old(comments)[k].(tags := old(comments)[k].tags + [tag])]
      ensures cid in old(IdsOf(comments)) ==> Lookup(comments, cid).Some? && tag in Lookup(comments, cid).value.tags
    {
      var found := FirstIndex(comments, HasId(cid));
      if found.None? {
        return false;
      }
      var k := found.value;
      PosAt(comments, k);
      if tag in comments[k].tags {
        return false;
      }
      DistinctSnoc(comments[k].tags, tag);
      LinkedKeep(comments, k, comments[k].(tags := comments[k].tags + [tag]));
      comments := comments[k := comments[k].(tags := comments[k].tags + [tag])];
      PosAt(comments, k);
      ok := true;
    }

    /** `remove_tag`: removes a tag the comment carries; false when the id
        is unknown or the tag is absent. Tags never repeat, so afterwards
        the tag is gone. */
    method RemoveTag(cid: string, tag: string) returns (ok: bool)
      requires Valid()
      modifies this
      ensures Valid()
      ensures currentAuthor == old(currentAuthor) && showComments == old(showComments)
      ensures ok <==> cid in old(IdsOf(comments)) && tag in old(Lookup(comments, cid)).value.tags
      ensures !ok ==> comments == old(comments)
      ensures ok ==> var k := PosOf(old(comments), cid);
        comments == old(comments)[k := old(comments)[k].(tags := RemoveFirst(old(comments)[k].tags, tag))]
      ensures cid in old(IdsOf(comments)) ==> Lookup(comments, cid).Some? && tag !in Lookup(comments, cid).value.tags
    {
      var found := FirstIndex(comments, HasId(cid));
      if found.None? {
        return false;
      }
      var k := found.value;
      PosAt(comments, k);
      if tag !in comments[k].tags {
        return false;
      }
      RemoveFirstDistinct(comments[k].tags, tag);
      LinkedKeep(comments, k, comments[k].(tags := RemoveFirst(comments[k].tags, tag)));
      comments := comments[k := comments[k].(tags := RemoveFirst(comments[k].tags, tag))];
      PosAt(comments, k);
      ok := true;
    }

    /** `toggle_show_comments`; re-applying or clearing highlights is
        editor work outside this model. */
    method ToggleShowComments()
      modifies this
      ensures showComments == !old(showComments)
      ensures comments == old(comments) && currentAuthor == old(currentAuthor)
    {
      showComments := !showComments;
    }
      /** `get_comment_thread`, run against the manager's list. */
    method GetCommentThread(cid: string) returns (thread: seq<Comment>)
      requires Valid()
      ensures thread == Thread(comments, cid)
      decreases |comments| - PosOf(comments, cid), 1
    {
      var comment := GetCommentById(cid);
      if comment.None? {
        return [];
      }
      var k := FirstIndex(comments, HasId(cid)).value;
      RepliesAfter(comments, k);
      thread := [comment.value];
      var reps := comment.value.replies;
      var idx := 0;
      while idx < |reps|
        invariant idx <= |reps|
        invariant thread + Threads(comments, reps[idx..], k) == Thread(comments, cid)
      {
        ghost var before := thread;
        var reply := GetCommentById(reps[idx]);
        if reply.Some? {
          var sub := GetCommentThread(reps[idx]);
          assert [reply.value] + sub[1..] == sub;
          thread := thread + [reply.value] + sub[1..];
        }
        ThreadsStep(comments, reps, idx, k, before, thread);
        idx := idx + 1;
      }
    }
  }
}
