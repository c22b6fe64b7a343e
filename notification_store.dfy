/** The notification store: the signed-in user's ordered notification list,
    its unread count and the one-slot toast, kept in step with the remote
    feed. Remote outcomes and the signed-in user's id are parameters. */
module NotificationStore {
  import opened Wrappers
  import opened Notifications

  // ---------------------------------------------------------------------
  // The ordered list as a value
  // ---------------------------------------------------------------------

  /** Some record carries this id. */
  predicate HasId(s: seq<Notification>, id: string) {
    exists i :: 0 <= i < |s| && s[i].id == id
  }

  /** The ids present in the list. */
  function IdSet(s: seq<Notification>): set<string> {
    set i | 0 <= i < |s| :: s[i].id
  }

  /** The unread records, in list order. */
  function Unread(s: seq<Notification>): (r: seq<Notification>)
    ensures |r| <= |s|
  {
    if s == [] then []
    else (if s[0].isRead then [] else [s[0]]) + Unread(s[1..])
  }

  /** The number of unread records (`count { !it.isRead }`). */
  function UnreadCount(s: seq<Notification>): nat {
    |Unread(s)|
  }

  /** The positions of the unread records. */
  function UnreadPositions(s: seq<Notification>): set<nat> {
    set i: nat | i < |s| && !s[i].isRead
  }

  lemma {:induction false} UnreadAppend(a: seq<Notification>, b: seq<Notification>)
    ensures Unread(a + b) == Unread(a) + Unread(b)
  {
    if a == [] {
      assert a + b == b;
    } else {
      assert (a + b)[0] == a[0];
      assert (a + b)[1..] == a[1..] + b;
      UnreadAppend(a[1..], b);
    }
  }

  /** The unread records are exactly the records of the list that are unread. */
  lemma {:induction false} UnreadMembers(s: seq<Notification>)
    ensures forall n :: n in Unread(s) <==> n in s && !n.isRead
  {
    if s != [] {
      UnreadMembers(s[1..]);
      assert forall n :: n in s <==> n == s[0] || n in s[1..];
    }
  }

  /** A sequence split around position `k`. */
  lemma SplitAt<T>(s: seq<T>, k: nat)
    requires k < |s|
    ensures s == s[..k] + [s[k]] + s[k + 1..]
  {
  }

  /** Replacing the element at position `k`, as a split. */
  lemma UpdateAt<T>(s: seq<T>, k: nat, y: T)
    requires k < |s|
    ensures s[k := y] == s[..k] + [y] + s[k + 1..]
  {
  }

  /** The unread count of a list split around one record. */
  lemma UnreadCountSplit(a: seq<Notification>, x: Notification, b: seq<Notification>)
    ensures UnreadCount(a + [x] + b) == UnreadCount(a) + (if x.isRead then 0 else 1) + UnreadCount(b)
  {
    UnreadAppend(a + [x], b);
    UnreadAppend(a, [x]);
    assert Unread([x]) == if x.isRead then [] else [x];
  }

  /** The unread positions of a list with one more record at the end. */
  lemma UnreadPositionsSnoc(s: seq<Notification>)
    requires s != []
    ensures var n := |s| - 1;
            UnreadPositions(s) == UnreadPositions(s[..n]) + (if s[n].isRead then {} else {n})
            && n !in UnreadPositions(s[..n])
  {
    var n := |s| - 1;
    forall i: nat | i < n ensures s[i] == s[..n][i] {}
  }

  /** The unread count is the number of positions holding an unread record. */
  lemma {:induction false} UnreadCountIsPositionCount(s: seq<Notification>)
    ensures UnreadCount(s) == |UnreadPositions(s)|
    decreases |s|
  {
    if s != [] {
      var n := |s| - 1;
      var p := s[..n];
      assert s == p + [s[n]] + [];
      UnreadCountSplit(p, s[n], []);
      UnreadCountIsPositionCount(p);
      UnreadPositionsSnoc(s);
    }
  }

  /** A list of read records has no unread record. */
  lemma {:induction false} NoneUnread(s: seq<Notification>)
    requires forall i :: 0 <= i < |s| ==> s[i].isRead
    ensures UnreadCount(s) == 0
  {
    if s != [] {
      NoneUnread(s[1..]);
    }
  }

  /** Distinct ids: the list holds as many records as ids. */
  lemma {:induction false} UniqueIdsCount(s: seq<Notification>)
    requires IdsUnique(s)
    ensures |IdSet(s)| == |s|
  {
    if s != [] {
      var t := s[1..];
      UniqueIdsCount(t);
      assert IdSet(s) == {s[0].id} + IdSet(t) by {
        forall x | x in IdSet(s) ensures x in {s[0].id} + IdSet(t) {
          var i :| 0 <= i < |s| && s[i].id == x;
          if i > 0 { assert t[i - 1].id == x; }
        }
        forall x | x in IdSet(t) ensures x in IdSet(s) {
          var i :| 0 <= i < |t| && t[i].id == x;
          assert s[i + 1].id == x;
        }
      }
      assert s[0].id !in IdSet(t);
    }
  }

  /** `indexOfFirst { it.id == id }`: the first position with the id, or -1. */
  function IndexOfFirst(s: seq<Notification>, id: string): (k: int)
    ensures -1 <= k < |s|
    ensures k == -1 <==> !HasId(s, id)
    ensures k >= 0 ==> s[k].id == id && forall j :: 0 <= j < k ==> s[j].id != id
  {
    if s == [] then -1
    else if s[0].id == id then 0
    else
      var k := IndexOfFirst(s[1..], id);
      assert HasId(s[1..], id) ==> HasId(s, id) by {
        if HasId(s[1..], id) {
          var i :| 0 <= i < |s[1..]| && s[1..][i].id == id;
          assert s[i + 1].id == id;
        }
      }
      assert HasId(s, id) ==> HasId(s[1..], id) by {
        if HasId(s, id) {
          var i :| 0 <= i < |s| && s[i].id == id;
          assert s[1..][i - 1].id == id;
        }
      }
      if k == -1 then -1 else k + 1
  }

  // ---------------------------------------------------------------------
  // The local effect of each operation
  // ---------------------------------------------------------------------

  /** A confirmed `markAsRead(id)`: the first record with the id becomes read;
      nothing else changes. */
  function MarkFirstRead(s: seq<Notification>, id: string): (r: seq<Notification>)
    ensures |r| == |s|
    ensures forall j :: 0 <= j < |s| && j != IndexOfFirst(s, id) ==> r[j] == s[j]
    ensures HasId(s, id) ==> var k := IndexOfFirst(s, id); r[k] == s[k].(isRead := true)
    ensures forall j :: 0 <= j < |s| ==> r[j].id == s[j].id
  {
    var k := IndexOfFirst(s, id);
    if k == -1 then s else s[k := s[k].(isRead := true)]
  }

  /** Marking one record read lowers the unread count by one exactly when that
      record was unread; an unknown id leaves it as it was. */
  lemma MarkFirstReadCount(s: seq<Notification>, id: string)
    ensures var k := IndexOfFirst(s, id);
            UnreadCount(MarkFirstRead(s, id))
            == if k >= 0 && !s[k].isRead then UnreadCount(s) - 1 else UnreadCount(s)
  {
    var k := IndexOfFirst(s, id);
    if k >= 0 {
      SplitAt(s, k);
      UpdateAt(s, k, s[k].(isRead := true));
      UnreadCountSplit(s[..k], s[k], s[k + 1..]);
      UnreadCountSplit(s[..k], s[k].(isRead := true), s[k + 1..]);
    }
  }

  /** The local effect of `markAllAsRead`: every record read, nothing else changed. */
  function AllRead(s: seq<Notification>): (r: seq<Notification>)
    ensures |r| == |s|
    ensures forall j :: 0 <= j < |s| ==> r[j] == s[j].(isRead := true)
  {
    seq(|s|, j requires 0 <= j < |s| => s[j].(isRead := true))
  }

  /** After marking all read, no record is unread and the ids are those before. */
  lemma AllReadCount(s: seq<Notification>)
    ensures UnreadCount(AllRead(s)) == 0
    ensures IdsUnique(s) ==> IdsUnique(AllRead(s))
  {
    NoneUnread(AllRead(s));
  }

  /** The ids of the unread records, in list order: one remote update is issued
      for each by `markAllAsRead`. */
  function UnreadIds(s: seq<Notification>): (ids: seq<string>)
    ensures |ids| == UnreadCount(s)
  {
    var u := Unread(s);
    seq(|u|, i requires 0 <= i < |u| => u[i].id)
  }

  /** `removeIf { it.id == id }`: the records without that id, in order. */
  function RemoveId(s: seq<Notification>, id: string): (r: seq<Notification>)
    ensures |r| <= |s|
    ensures forall i :: 0 <= i < |r| ==> r[i].id != id
  {
    if s == [] then []
    else (if s[0].id == id then [] else [s[0]]) + RemoveId(s[1..], id)
  }

  /** The records kept are exactly the records without the id. */
  lemma {:induction false} RemoveIdMembers(s: seq<Notification>, id: string)
    ensures forall n :: n in RemoveId(s, id) <==> n in s && n.id != id
  {
    if s != [] {
      RemoveIdMembers(s[1..], id);
      assert forall n :: n in s <==> n == s[0] || n in s[1..];
    }
  }

  lemma {:induction false} RemoveIdAppend(a: seq<Notification>, b: seq<Notification>, id: string)
    ensures RemoveId(a + b, id) == RemoveId(a, id) + RemoveId(b, id)
  {
    if a == [] {
      assert a + b == b;
    } else {
      assert (a + b)[0] == a[0];
      assert (a + b)[1..] == a[1..] + b;
      RemoveIdAppend(a[1..], b, id);
    }
  }

  lemma {:induction false} RemoveAbsentId(s: seq<Notification>, id: string)
    requires !HasId(s, id)
    ensures RemoveId(s, id) == s
  {
    if s != [] {
      RemoveAbsentId(s[1..], id);
      assert s[0].id != id;
      assert s == [s[0]] + s[1..];
    }
  }

  /** No record before the first one with an id carries it. */
  lemma NoIdBeforeFirst(s: seq<Notification>, id: string)
    requires HasId(s, id)
    ensures !HasId(s[..IndexOfFirst(s, id)], id)
  {
    var a := s[..IndexOfFirst(s, id)];
    forall i | 0 <= i < |a| ensures a[i].id != id {
      assert a[i] == s[i];
    }
  }

  /** With distinct ids, no record after position `k` carries the id at `k`. */
  lemma NoIdAfterUnique(s: seq<Notification>, k: nat)
    requires IdsUnique(s) && k < |s|
    ensures !HasId(s[k + 1..], s[k].id)
  {
    var b := s[k + 1..];
    forall i | 0 <= i < |b| ensures b[i].id != s[k].id {
      assert b[i] == s[k + 1 + i];
    }
  }

  /** With distinct ids, the one record with the id is the only one removed. */
  lemma RemoveUniqueIdAt(s: seq<Notification>, id: string)
    requires IdsUnique(s) && HasId(s, id)
    ensures var k := IndexOfFirst(s, id); RemoveId(s, id) == s[..k] + s[k + 1..]
  {
    var k := IndexOfFirst(s, id);
    NoIdBeforeFirst(s, id);
    NoIdAfterUnique(s, k);
    RemovePastFirst(s[..k], s[k], s[k + 1..], id);
    SplitAt(s, k);
  }

  /** Removing an id from `a + [x] + b` where only `x` carries it drops `x`. */
  lemma RemovePastFirst(a: seq<Notification>, x: Notification, b: seq<Notification>, id: string)
    requires !HasId(a, id) && x.id == id && !HasId(b, id)
    ensures RemoveId(a + [x] + b, id) == a + b
  {
    RemoveIdAppend(a + [x], b, id);
    RemoveIdAppend(a, [x], id);
    RemoveAbsentId(a, id);
    RemoveAbsentId(b, id);
    assert RemoveId([x], id) == [];
  }

  /** With distinct ids, a confirmed delete removes exactly the one record with
      that id: the list shrinks by one, the rest keep their order, and the
      unread count drops by one exactly when the removed record was unread.
      An id that is not listed changes nothing. */
  lemma RemoveUniqueId(s: seq<Notification>, id: string)
    requires IdsUnique(s)
    ensures var k := IndexOfFirst(s, id);
            k >= 0 ==> (RemoveId(s, id) == s[..k] + s[k + 1..]
                        && |RemoveId(s, id)| == |s| - 1
                        && UnreadCount(RemoveId(s, id))
                           == if s[k].isRead then UnreadCount(s) else UnreadCount(s) - 1)
    ensures !HasId(s, id) ==> RemoveId(s, id) == s
  {
    var k := IndexOfFirst(s, id);
    if k >= 0 {
      RemoveUniqueIdAt(s, id);
      SplitAt(s, k);
      UnreadCountSplit(s[..k], s[k], s[k + 1..]);
      UnreadAppend(s[..k], s[k + 1..]);
    } else {
      RemoveAbsentId(s, id);
    }
  }

  /** Removing records keeps ids distinct. */
  lemma {:induction false} RemoveIdKeepsIdsUnique(s: seq<Notification>, id: string)
    requires IdsUnique(s)
    ensures IdsUnique(RemoveId(s, id))
  {
    if s != [] {
      RemoveIdKeepsIdsUnique(s[1..], id);
      RemoveIdMembers(s[1..], id);
      var rest := RemoveId(s[1..], id);
      forall n | n in rest ensures n.id != s[0].id {
        var j :| 0 <= j < |s[1..]| && s[1..][j] == n;
        assert s[j + 1] == n;
      }
    }
  }

  // ---------------------------------------------------------------------
  // The remote feed
  // ---------------------------------------------------------------------

  /** One change of a snapshot; only `Added` is acted on. */
  datatype Change = Added(doc: Document) | Modified(doc: Document) | Removed(doc: Document)

  /** The list and the toast slot together. */
  datatype Feed = Feed(list: seq<Notification>, toast: Option<Notification>)

  /** `none { it.id == n.id }` guarding `add(0, n)` and the toast: a record
      whose id is not listed goes in front and is shown; otherwise nothing happens. */
  function Admit(f: Feed, n: Notification): Feed {
    if HasId(f.list, n.id) then f else Feed([n] + f.list, Some(n))
  }

  /** Admitting one parsed record: its id joins the listed ids, distinct ids
      stay distinct, and a record whose id is listed changes nothing. */
  lemma AdmitKeepsIds(f: Feed, n: Notification)
    ensures IdsUnique(f.list) ==> IdsUnique(Admit(f, n).list)
    ensures IdSet(Admit(f, n).list) == IdSet(f.list) + {n.id}
    ensures HasId(f.list, n.id) ==> Admit(f, n) == f
  {
    var g := Admit(f, n);
    if HasId(f.list, n.id) {
      var i :| 0 <= i < |f.list| && f.list[i].id == n.id;
      assert n.id in IdSet(f.list);
    } else {
      assert IdsUnique(f.list) ==> IdsUnique(g.list) by {
        if IdsUnique(f.list) {
          forall j | 0 < j < |g.list| ensures g.list[j].id != n.id {
            assert f.list[j - 1] == g.list[j];
          }
        }
      }
      forall x | x in IdSet(g.list) ensures x in IdSet(f.list) + {n.id} {
        var i :| 0 <= i < |g.list| && g.list[i].id == x;
        if i > 0 { assert g.list[i] == f.list[i - 1]; }
      }
      forall x | x in IdSet(f.list) ensures x in IdSet(g.list) {
        var i :| 0 <= i < |f.list| && f.list[i].id == x;
        assert g.list[i + 1] == f.list[i];
      }
      assert g.list[0].id == n.id;
    }
  }

  /** A record with a new id goes to the front of the list and into the toast. */
  lemma AdmitNew(f: Feed, n: Notification)
    requires !HasId(f.list, n.id)
    ensures Admit(f, n) == Feed([n] + f.list, Some(n))
  {
  }

  /** The id a change contributes: that of a parseable ADDED document, if any. */
  function ChangeIds(c: Change, now: int): set<string> {
    if c.Added? && ParseDocument(c.doc, now).Some? then {c.doc.id} else {}
  }

  /** The effect of one change: a parseable ADDED document is admitted;
      anything else is ignored. */
  function Receive(f: Feed, c: Change, now: int): Feed {
    if c.Added? && ParseDocument(c.doc, now).Some? then Admit(f, ParseDocument(c.doc, now).value) else f
  }

  /** One change keeps ids distinct, adds the id of a parseable ADDED document,
      and either changes nothing or puts a record with a new id in front and
      into the toast. */
  lemma ReceiveStep(f: Feed, c: Change, now: int)
    ensures var g := Receive(f, c, now);
            (IdsUnique(f.list) ==> IdsUnique(g.list))
            && IdSet(g.list) == IdSet(f.list) + ChangeIds(c, now)
            && (g == f || (g.toast.Some? && g.list == [g.toast.value] + f.list && !HasId(f.list, g.toast.value.id)))
  {
    if c.Added? && ParseDocument(c.doc, now).Some? {
      AdmitKeepsIds(f, ParseDocument(c.doc, now).value);
    }
  }

  /** The changes of one snapshot, applied in delivery order. */
  function ReceiveAll(f: Feed, cs: seq<Change>, now: int): Feed
    decreases |cs|
  {
    if cs == [] then f else Receive(ReceiveAll(f, cs[..|cs| - 1], now), cs[|cs| - 1], now)
  }

  /** The ids of the parseable ADDED documents among the changes. */
  function AddedIds(cs: seq<Change>, now: int): set<string>
    decreases |cs|
  {
    if cs == [] then {} else AddedIds(cs[..|cs| - 1], now) + ChangeIds(cs[|cs| - 1], now)
  }

  /** A change that adds a record with id `x`. */
  predicate AddsId(c: Change, now: int, x: string) {
    c.Added? && ParseDocument(c.doc, now).Some? && c.doc.id == x
  }

  /** `AddedIds` collects exactly the ids of the parseable ADDED documents. */
  lemma {:induction false} AddedIdsMembers(cs: seq<Change>, now: int, x: string)
    ensures x in AddedIds(cs, now) <==> exists i :: 0 <= i < |cs| && AddsId(cs[i], now, x)
    decreases |cs|
  {
    if cs != [] {
      var n := |cs| - 1;
      var p := cs[..n];
      AddedIdsMembers(p, now, x);
      if x in AddedIds(p, now) {
        var i :| 0 <= i < n && AddsId(p[i], now, x);
        assert cs[i] == p[i];
      }
      if exists i :: 0 <= i < |cs| && AddsId(cs[i], now, x) {
        var i :| 0 <= i < |cs| && AddsId(cs[i], now, x);
        if i < n { assert p[i] == cs[i]; }
      }
    }
  }

  /** Receiving changes keeps ids distinct, and the listed ids become the earlier
      ones together with those of every parseable ADDED document: a document
      delivered twice, or already listed, is absorbed. */
  lemma {:induction false} ReceiveAllIds(f: Feed, cs: seq<Change>, now: int)
    requires IdsUnique(f.list)
    ensures IdsUnique(ReceiveAll(f, cs, now).list)
    ensures IdSet(ReceiveAll(f, cs, now).list) == IdSet(f.list) + AddedIds(cs, now)
    decreases |cs|
  {
    if cs != [] {
      ReceiveAllIds(f, cs[..|cs| - 1], now);
      ReceiveStep(ReceiveAll(f, cs[..|cs| - 1], now), cs[|cs| - 1], now);
    }
  }

  /** Spec-level size law: starting from distinct ids, the list ends up holding
      one record per distinct id, earlier or delivered. */
  lemma ReceiveAllSize(f: Feed, cs: seq<Change>, now: int)
    requires IdsUnique(f.list)
    ensures |ReceiveAll(f, cs, now).list| == |IdSet(f.list) + AddedIds(cs, now)|
  {
    ReceiveAllIds(f, cs, now);
    UniqueIdsCount(ReceiveAll(f, cs, now).list);
  }

  /** Changes whose parseable ADDED documents all carry listed ids leave the
      feed as it was. */
  lemma {:induction false} ReceiveKnownIds(f: Feed, cs: seq<Change>, now: int)
    requires forall i :: 0 <= i < |cs| && cs[i].Added? && ParseDocument(cs[i].doc, now).Some?
                         ==> HasId(f.list, cs[i].doc.id)
    ensures ReceiveAll(f, cs, now) == f
    decreases |cs|
  {
    if cs != [] {
      ReceiveKnownIds(f, cs[..|cs| - 1], now);
    }
  }

  /** The listener's first snapshot re-delivers the stored documents as ADDED;
      after a load of those same documents it is absorbed: neither the list
      nor the toast changes. */
  lemma LoadedSnapshotAbsorbed(docs: seq<Document>, toast: Option<Notification>, now: int, later: int)
    ensures var f := Feed(ParseAll(docs, now), toast);
            ReceiveAll(f, AddedAll(docs), later) == f
  {
    var f := Feed(ParseAll(docs, now), toast);
    ParseAllMembers(docs, now);
    forall i | 0 <= i < |docs| && ParseDocument(docs[i], later).Some? ensures HasId(f.list, docs[i].id) {
      var n := ParseDocument(docs[i], now).value;
      assert n in f.list;
      var j :| 0 <= j < |f.list| && f.list[j] == n;
      assert f.list[j].id == docs[i].id;
    }
    ReceiveKnownIds(f, AddedAll(docs), later);
  }

  /** A duplicate ADDED delivery changes neither the list nor the toast. */
  lemma DuplicateAddedIgnored(f: Feed, d: Document, now: int)
    requires HasId(f.list, d.id)
    ensures Receive(f, Added(d), now) == f
  {
  }

  function Reverse<T>(s: seq<T>): (r: seq<T>)
    ensures |r| == |s|
  {
    if s == [] then [] else [s[|s| - 1]] + Reverse(s[..|s| - 1])
  }

  function AddedAll(docs: seq<Document>): (cs: seq<Change>)
    ensures |cs| == |docs| && forall i :: 0 <= i < |docs| ==> cs[i] == Added(docs[i])
  {
    seq(|docs|, i requires 0 <= i < |docs| => Added(docs[i]))
  }

  lemma {:induction false} ReverseAt<T>(s: seq<T>, i: nat)
    requires i < |s|
    ensures Reverse(s)[i] == s[|s| - 1 - i]
  {
    if i > 0 {
      ReverseAt(s[..|s| - 1], i - 1);
    }
  }

  lemma HasIdAppend(a: seq<Notification>, b: seq<Notification>, id: string)
    ensures HasId(a + b, id) <==> HasId(a, id) || HasId(b, id)
  {
    if HasId(a + b, id) {
      var i :| 0 <= i < |a + b| && (a + b)[i].id == id;
      if i >= |a| { assert b[i - |a|].id == id; }
    }
    if HasId(a, id) {
      var i :| 0 <= i < |a| && a[i].id == id;
      assert (a + b)[i].id == id;
    }
    if HasId(b, id) {
      var i :| 0 <= i < |b| && b[i].id == id;
      assert (a + b)[i + |a|].id == id;
    }
  }

  /** A batch of documents none of which has the id yields no record with it. */
  lemma ReversedBatchLacksId(p: seq<Document>, id: string, now: int)
    requires forall i :: 0 <= i < |p| ==> ParseDocument(p[i], now).Some?
    requires forall i :: 0 <= i < |p| ==> p[i].id != id
    ensures !HasId(Reverse(ParseAll(p, now)), id)
  {
    ParseAllKeepsAll(p, now);
    var x := ParseAll(p, now);
    if HasId(Reverse(x), id) {
      var i :| 0 <= i < |Reverse(x)| && Reverse(x)[i].id == id;
      ReverseAt(x, i);
    }
  }

  /** A parseable ADDED document with a new id goes to the front and into the toast. */
  lemma ReceiveNew(g: Feed, d: Document, now: int)
    requires ParseDocument(d, now).Some? && !HasId(g.list, d.id)
    ensures Receive(g, Added(d), now) == Feed([ParseDocument(d, now).value] + g.list, ParseDocument(d, now))
  {
    AdmitNew(g, ParseDocument(d, now).value);
  }

  /** Receiving one more change after a prefix. */
  lemma ReceiveAllSnoc(f: Feed, cs: seq<Change>, c: Change, now: int)
    ensures ReceiveAll(f, cs + [c], now) == Receive(ReceiveAll(f, cs, now), c, now)
  {
    assert (cs + [c])[..|cs|] == cs;
  }

  lemma AddedAllSnoc(docs: seq<Document>)
    requires docs != []
    ensures AddedAll(docs) == AddedAll(docs[..|docs| - 1]) + [Added(docs[|docs| - 1])]
  {
  }

  /** The last step of a batch of new ADDED documents. */
  lemma BatchStep(f: Feed, docs: seq<Document>, now: int)
    requires docs != []
    requires forall i :: 0 <= i < |docs| ==> ParseDocument(docs[i], now).Some?
    requires forall i :: 0 <= i < |docs| - 1 ==> docs[i].id != docs[|docs| - 1].id
    requires !HasId(f.list, docs[|docs| - 1].id)
    requires ReceiveAll(f, AddedAll(docs[..|docs| - 1]), now).list
      == Reverse(ParseAll(docs[..|docs| - 1], now)) + f.list
    ensures ReceiveAll(f, AddedAll(docs), now)
      == Feed([ParseDocument(docs[|docs| - 1], now).value]
              + ReceiveAll(f, AddedAll(docs[..|docs| - 1]), now).list,
              ParseDocument(docs[|docs| - 1], now))
  {
    var n := |docs| - 1;
    var p := docs[..n];
    AddedAllSnoc(docs);
    ReceiveAllSnoc(f, AddedAll(p), Added(docs[n]), now);
    var g := ReceiveAll(f, AddedAll(p), now);
    assert forall i :: 0 <= i < |p| ==> ParseDocument(p[i], now).Some? && p[i].id != docs[n].id;
    ReversedBatchLacksId(p, docs[n].id, now);
    HasIdAppend(Reverse(ParseAll(p, now)), f.list, docs[n].id);
    ReceiveNew(g, docs[n], now);
  }

  /** ParseAll of a batch ending in a parseable document, reversed. */
  lemma ReverseParseLast(docs: seq<Document>, now: int)
    requires docs != [] && ParseDocument(docs[|docs| - 1], now).Some?
    ensures Reverse(ParseAll(docs, now))
      == [ParseDocument(docs[|docs| - 1], now).value] + Reverse(ParseAll(docs[..|docs| - 1], now))
  {
    var n := |docs| - 1;
    var x := ParseAll(docs[..n], now);
    var m := ParseDocument(docs[n], now).value;
    assert docs == docs[..n] + [docs[n]];
    ParseAllAppend(docs[..n], [docs[n]], now);
    assert (x + [m])[..|x|] == x;
  }

  /** The conditions on a batch hold for every prefix of it. */
  lemma BatchPrefix(f: Feed, docs: seq<Document>, now: int)
    requires docs != []
    requires forall i :: 0 <= i < |docs| ==> ParseDocument(docs[i], now).Some?
    requires forall i, j :: 0 <= i < j < |docs| ==> docs[i].id != docs[j].id
    requires forall i :: 0 <= i < |docs| ==> !HasId(f.list, docs[i].id)
    ensures var p := docs[..|docs| - 1];
            (forall i :: 0 <= i < |p| ==> ParseDocument(p[i], now).Some?)
            && (forall i, j :: 0 <= i < j < |p| ==> p[i].id != p[j].id)
            && (forall i :: 0 <= i < |p| ==> !HasId(f.list, p[i].id))
    ensures forall i :: 0 <= i < |docs| - 1 ==> docs[i].id != docs[|docs| - 1].id
    ensures !HasId(f.list, docs[|docs| - 1].id)
  {
    var p := docs[..|docs| - 1];
    assert forall i | 0 <= i < |p| :: p[i] == docs[i];
  }

  /** Extending a batch whose prefix is in front, reversed, by one more new document. */
  lemma BatchExtend(f: Feed, docs: seq<Document>, now: int)
    requires docs != []
    requires forall i :: 0 <= i < |docs| ==> ParseDocument(docs[i], now).Some?
    requires forall i :: 0 <= i < |docs| - 1 ==> docs[i].id != docs[|docs| - 1].id
    requires !HasId(f.list, docs[|docs| - 1].id)
    requires ReceiveAll(f, AddedAll(docs[..|docs| - 1]), now).list
      == Reverse(ParseAll(docs[..|docs| - 1], now)) + f.list
    ensures ReceiveAll(f, AddedAll(docs), now).list == Reverse(ParseAll(docs, now)) + f.list
    ensures ReceiveAll(f, AddedAll(docs), now).toast == ParseDocument(docs[|docs| - 1], now)
  {
    BatchStep(f, docs, now);
    ReverseParseLast(docs, now);
    ConsAppend(ParseDocument(docs[|docs| - 1], now).value, Reverse(ParseAll(docs[..|docs| - 1], now)), f.list);
  }

  lemma ConsAppend<T>(m: T, r: seq<T>, t: seq<T>)
    ensures [m] + (r + t) == ([m] + r) + t
  {
  }

  /** One snapshot carrying several new ADDED documents puts them in front in
      REVERSE delivery order (each is prepended in turn), and the toast shows
      the last one delivered. */
  lemma {:induction false} NewBatchReversed(f: Feed, docs: seq<Document>, now: int)
    requires forall i :: 0 <= i < |docs| ==> ParseDocument(docs[i], now).Some?
    requires forall i, j :: 0 <= i < j < |docs| ==> docs[i].id != docs[j].id
    requires forall i :: 0 <= i < |docs| ==> !HasId(f.list, docs[i].id)
    ensures ReceiveAll(f, AddedAll(docs), now).list == Reverse(ParseAll(docs, now)) + f.list
    ensures docs != [] ==> ReceiveAll(f, AddedAll(docs), now).toast == ParseDocument(docs[|docs| - 1], now)
    decreases |docs|
  {
    if docs != [] {
      var p := docs[..|docs| - 1];
      BatchPrefix(f, docs, now);
      NewBatchReversed(f, p, now);
      BatchExtend(f, docs, now);
    }
  }

  // ---------------------------------------------------------------------
  // The view model
  // ---------------------------------------------------------------------

  class NotificationViewModel {
    /** The ordered notification list, changed in place. */
    var notifications: seq<Notification>
    /** Number of unread records, recomputed after each change. */
    var unreadCount: nat
    /** The one-slot toast. */
    var currentToast: Option<Notification>
    /** A snapshot listener was registered: a user was signed in at creation. */
    const listening: bool

    /** No id is listed twice, and the unread count agrees with the list. */
    ghost predicate Valid()
      reads this
    {
      IdsUnique(notifications) && unreadCount == UnreadCount(notifications)
    }

    /** Creation registers the listener when a user is signed in, then loads;
        the documents of one collection have distinct ids. */
    constructor (userId: Option<string>, initial: Option<seq<Document>>, now: int)
      requires initial.Some? ==> DocIdsDistinct(initial.value)
      ensures Valid()
      ensures listening == userId.Some? && currentToast == None
      ensures notifications == if userId.Some? && initial.Some? then ParseAll(initial.value, now) else []
    {
      notifications := [];
      unreadCount := 0;
      currentToast := None;
      listening := userId.Some?;
      new;
      LoadNotifications(userId, initial, now);
    }

    method UpdateUnreadCount()
      requires IdsUnique(notifications)
      modifies this`unreadCount
      ensures Valid()
    {
      unreadCount := UnreadCount(notifications);
    }

    /** `loadNotifications`: with a signed-in user and a successful query, the
        list becomes the parsed query result in query order; with no user or a
        failed query nothing changes. */
    method LoadNotifications(userId: Option<string>, fetched: Option<seq<Document>>, now: int)
      requires Valid()
      requires fetched.Some? ==> DocIdsDistinct(fetched.value)
      modifies this
      ensures Valid()
      ensures notifications == if userId.Some? && fetched.Some? then ParseAll(fetched.value, now)
                               else old(notifications)
      ensures currentToast == old(currentToast)
    {
      if userId.None? || fetched.None? {
        return;
      }
      var loaded := ParseAll(fetched.value, now);
      ParseAllDistinctIds(fetched.value, now);
      notifications := loaded;
      UpdateUnreadCount();
    }

    /** The listener's handling of one snapshot: a failed snapshot, or no
        listener, changes nothing; otherwise each change is applied in turn. */
    method OnSnapshot(snapshot: Option<seq<Change>>, now: int)
      requires Valid()
      modifies this
      ensures Valid()
      ensures Feed(notifications, currentToast)
              == if listening && snapshot.Some? then ReceiveAll(old(Feed(notifications, currentToast)), snapshot.value, now)
                 else old(Feed(notifications, currentToast))
    {
      if !listening || snapshot.None? {
        return;
      }
      var changes := snapshot.value;
      ghost var start := Feed(notifications, currentToast);
      var i := 0;
      while i < |changes|
        invariant 0 <= i <= |changes|
        invariant Valid()
        invariant Feed(notifications, currentToast) == ReceiveAll(start, changes[..i], now)
      {
        assert changes[..i + 1][..i] == changes[..i];
        match changes[i] {
          case Added(d) =>
            var parsed := ParseDocument(d, now);
            if parsed.Some? {
              var n := parsed.value;
              if !HasId(notifications, n.id) {
                AdmitKeepsIds(Feed(notifications, currentToast), n);
                notifications := [n] + notifications;
                currentToast := Some(n);
                UpdateUnreadCount();
              }
            }
          case Modified(_) =>
          case Removed(_) =>
        }
        i := i + 1;
      }
      assert changes[..|changes|] == changes;
    }

    /** `markAsRead(id)`: on remote success the first record with the id is
        marked read; on failure nothing changes. */
    method MarkAsRead(id: string, remoteOk: bool)
      requires Valid()
      modifies this
      ensures Valid()
      ensures notifications == if remoteOk then MarkFirstRead(old(notifications), id) else old(notifications)
      ensures currentToast == old(currentToast)
    {
      if !remoteOk {
        return;
      }
      var index := IndexOfFirst(notifications, id);
      if index != -1 {
        notifications := notifications[index := notifications[index].(isRead := true)];
        assert notifications == MarkFirstRead(old(notifications), id);
        UpdateUnreadCount();
      }
    }

    /** `markAllAsRead`: with a signed-in user, one remote update is issued per
        unread record (returned as their ids) and, whatever their outcomes,
        every local record becomes read. Without a user nothing happens. */
    method MarkAllAsRead(userId: Option<string>) returns (issued: seq<string>)
      requires Valid()
      modifies this
      ensures Valid()
      ensures userId.None? ==> issued == [] && notifications == old(notifications)
      ensures userId.Some? ==> (issued == UnreadIds(old(notifications))
                                && notifications == AllRead(old(notifications))
                                && unreadCount == 0)
      ensures currentToast == old(currentToast)
    {
      issued := [];
      if userId.None? {
        return;
      }
      issued := UnreadIds(notifications);
      var i := 0;
      while i < |notifications|
        invariant 0 <= i <= |notifications| == |old(notifications)|
        invariant forall j :: 0 <= j < i ==> notifications[j] == old(notifications)[j].(isRead := true)
        invariant forall j :: i <= j < |notifications| ==> notifications[j] == old(notifications)[j]
        invariant currentToast == old(currentToast)
      {
        if !notifications[i].isRead {
          notifications := notifications[i := notifications[i].(isRead := true)];
        }
        i := i + 1;
      }
      assert notifications == AllRead(old(notifications));
      AllReadCount(old(notifications));
      UpdateUnreadCount();
    }

    /** `deleteNotification(id)`: on remote success every record with the id is
        removed, the rest keep their order; on failure nothing changes. */
    method DeleteNotification(id: string, remoteOk: bool)
      requires Valid()
      modifies this
      ensures Valid()
      ensures notifications == if remoteOk then RemoveId(old(notifications), id) else old(notifications)
      ensures currentToast == old(currentToast)
    {
      if !remoteOk {
        return;
      }
      RemoveIdKeepsIdsUnique(notifications, id);
      notifications := RemoveId(notifications, id);
      UpdateUnreadCount();
    }

    /** `dismissToast`: the toast slot becomes empty; nothing else changes. */
    method DismissToast()
      requires Valid()
      modifies this`currentToast
      ensures Valid()
      ensures currentToast == None
    {
      currentToast := None;
    }
  }

  /** Seed [a] (timestamp 300, unread), receive b (timestamp 400, unread):
      the list is [b, a] with two unread; confirming b read leaves one unread
      and the order unchanged. */
  lemma SeedAddMarkScenario()
    ensures var a := Notification("a", "", "", General, 300, false, None, None);
            var b := Notification("b", "", "", General, 400, false, None, None);
            var f := Receive(Feed([a], None), Added(ToDocument(b)), 0);
            f.list == [b, a] && f.toast == Some(b) && UnreadCount(f.list) == 2
            && MarkFirstRead(f.list, "b") == [b.(isRead := true), a]
            && UnreadCount(MarkFirstRead(f.list, "b")) == 1
  {
    var a := Notification("a", "", "", General, 300, false, None, None);
    var b := Notification("b", "", "", General, 400, false, None, None);
    assert !HasId([a], "b");
    var f := Receive(Feed([a], None), Added(ToDocument(b)), 0);
    assert f.list == [b, a];
    assert IndexOfFirst(f.list, "b") == 0;
    assert MarkFirstRead(f.list, "b") == [b.(isRead := true), a];
    assert Unread([a]) == [a];
    assert Unread([b.(isRead := true), a]) == [a];
  }
}
