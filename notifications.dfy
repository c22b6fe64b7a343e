/** The notification record, its closed set of kinds, and how a stored
    document becomes a record. */
module Notifications {
  import opened Wrappers

  /** The closed set of notification kinds. */
  datatype NotificationType = Marketplace | LostAndFound | Safety | Message | General

  /** Every kind, in declaration order. */
  const AllTypes: seq<NotificationType> := [Marketplace, LostAndFound, Safety, Message, General]

  /** There are exactly five kinds, each listed once. */
  lemma AllTypesComplete()
    ensures |AllTypes| == 5
    ensures forall t: NotificationType :: t in AllTypes
    ensures forall i, j :: 0 <= i < j < |AllTypes| ==> AllTypes[i] != AllTypes[j]
  {
    forall t: NotificationType ensures t in AllTypes {
      match t
      case Marketplace => assert AllTypes[0] == t;
      case LostAndFound => assert AllTypes[1] == t;
      case Safety => assert AllTypes[2] == t;
      case Message => assert AllTypes[3] == t;
      case General => assert AllTypes[4] == t;
    }
  }

  /** The enum constant's `name`, as written into and read from documents. */
  function TypeName(t: NotificationType): string
  {
    match t
    case Marketplace => "MARKETPLACE"
    case LostAndFound => "LOST_AND_FOUND"
    case Safety => "SAFETY"
    case Message => "MESSAGE"
    case General => "GENERAL"
  }

  /** `NotificationType.valueOf(name)`: the kind with exactly that name; the
      source throws for any other name, which is `None` here. */
  function ValueOf(name: string): (r: Option<NotificationType>)
    ensures r.Some? ==> TypeName(r.value) == name
  {
    if name == "MARKETPLACE" then Some(Marketplace)
    else if name == "LOST_AND_FOUND" then Some(LostAndFound)
    else if name == "SAFETY" then Some(Safety)
    else if name == "MESSAGE" then Some(Message)
    else if name == "GENERAL" then Some(General)
    else None
  }

  /** Each kind's name reads back as that kind, so names and kinds correspond one to one. */
  lemma ValueOfTypeName(t: NotificationType)
    ensures ValueOf(TypeName(t)) == Some(t)
  {
  }

  /** One notification record. `kind` is the source's `type`. */
  datatype Notification = Notification(
    id: string,
    title: string,
    message: string,
    kind: NotificationType,
    timestamp: int,
    isRead: bool,
    relatedPostId: Option<string>,
    senderName: Option<string>)

  /** No two records share an id. */
  predicate IdsUnique(s: seq<Notification>) {
    forall i, j :: 0 <= i < j < |s| ==> s[i].id != s[j].id
  }

  /** A record built with every default argument; `now` stands for the clock
      reading that defaults the timestamp. */
  function NewNotification(now: int): (n: Notification)
    ensures n.id == "" && n.title == "" && n.message == ""
    ensures n.kind == General && n.timestamp == now
    ensures !n.isRead
    ensures n.relatedPostId == None && n.senderName == None
  {
    Notification("", "", "", General, now, false, None, None)
  }

  /** A stored notification document: its id and the fields it may lack. */
  datatype Document = Document(
    id: string,
    title: Option<string>,
    message: Option<string>,
    typeName: Option<string>,
    timestamp: Option<int>,
    isRead: Option<bool>,
    relatedPostId: Option<string>,
    senderName: Option<string>)

  /** The record a document yields: missing title and message become "",
      a missing type GENERAL, a missing timestamp `now`, a missing isRead
      false; a type name that is not a kind drops the document. */
  function ParseDocument(d: Document, now: int): (r: Option<Notification>)
    ensures r.None? <==> d.typeName.Some? && ValueOf(d.typeName.value).None?
    ensures r.Some? ==> r.value.id == d.id
  {
    match ValueOf(d.typeName.GetOr("GENERAL"))
    case None => None
    case Some(kind) =>
      Some(Notification(
        d.id,
        d.title.GetOr(""),
        d.message.GetOr(""),
        kind,
        d.timestamp.GetOr(now),
        d.isRead.GetOr(false),
        d.relatedPostId,
        d.senderName))
  }

  /** Field by field: a missing title or message reads as "", a missing type as
      GENERAL, a missing timestamp as the clock and a missing isRead as false;
      every present field, and the two optional ones, are kept. */
  lemma ParseDocumentFields(d: Document, now: int)
    ensures d.typeName.None? ==> ParseDocument(d, now).Some?
    ensures ParseDocument(d, now).Some? ==>
              var n := ParseDocument(d, now).value;
              (d.typeName.None? ==> n.kind == General)
              && (d.typeName.Some? ==> TypeName(n.kind) == d.typeName.value)
              && (d.title.None? ==> n.title == "") && (d.title.Some? ==> n.title == d.title.value)
              && (d.message.None? ==> n.message == "") && (d.message.Some? ==> n.message == d.message.value)
              && (d.timestamp.None? ==> n.timestamp == now)
              && (d.timestamp.Some? ==> n.timestamp == d.timestamp.value)
              && (d.isRead.None? ==> !n.isRead) && (d.isRead.Some? ==> n.isRead == d.isRead.value)
              && n.relatedPostId == d.relatedPostId && n.senderName == d.senderName
  {
  }

  /** The document a record is stored as: every field present, the kind by name. */
  function ToDocument(n: Notification): Document
  {
    Document(n.id, Some(n.title), Some(n.message), Some(TypeName(n.kind)),
             Some(n.timestamp), Some(n.isRead), n.relatedPostId, n.senderName)
  }

  /** Storing a record and reading it back gives the same record, whatever the clock. */
  lemma ParseStoredRecord(n: Notification, now: int)
    ensures ParseDocument(ToDocument(n), now) == Some(n)
  {
  }

  /** A document with every optional field missing reads as the record built
      from the defaults, under the document's id. */
  lemma ParseEmptyDocument(id: string, now: int)
    ensures ParseDocument(Document(id, None, None, None, None, None, None, None), now)
            == Some(NewNotification(now).(id := id))
  {
  }

  /** `mapNotNull` of the parse over a query result: parsed records in query order,
      dropped documents left out. */
  function ParseAll(docs: seq<Document>, now: int): (r: seq<Notification>)
    ensures |r| <= |docs|
  {
    if docs == [] then []
    else
      var rest := ParseAll(docs[1..], now);
      match ParseDocument(docs[0], now)
      case None => rest
      case Some(n) => [n] + rest
  }

  /** Every parsed record comes from some document, and every document that
      parses contributes its record. */
  lemma {:induction false} ParseAllMembers(docs: seq<Document>, now: int)
    ensures forall n :: n in ParseAll(docs, now) ==> exists d :: d in docs && ParseDocument(d, now) == Some(n)
    ensures forall d :: d in docs && ParseDocument(d, now).Some? ==> ParseDocument(d, now).value in ParseAll(docs, now)
  {
    if docs != [] {
      ParseAllMembers(docs[1..], now);
      assert forall d :: d in docs[1..] ==> d in docs;
      assert forall d :: d in docs ==> d == docs[0] || d in docs[1..];
    }
  }

  /** Parsing a concatenation parses each part in turn: the order of the
      query result is kept. */
  lemma {:induction false} ParseAllAppend(a: seq<Document>, b: seq<Document>, now: int)
    ensures ParseAll(a + b, now) == ParseAll(a, now) + ParseAll(b, now)
  {
    if a != [] {
      assert (a + b)[0] == a[0];
      assert (a + b)[1..] == a[1..] + b;
      ParseAllAppend(a[1..], b, now);
    } else {
      assert a + b == b;
    }
  }

  /** Every document parses exactly when no document carries an unknown type
      name, and then nothing is dropped. */
  lemma {:induction false} ParseAllKeepsAll(docs: seq<Document>, now: int)
    requires forall i :: 0 <= i < |docs| ==> ParseDocument(docs[i], now).Some?
    ensures |ParseAll(docs, now)| == |docs|
    ensures forall i :: 0 <= i < |docs| ==> ParseAll(docs, now)[i] == ParseDocument(docs[i], now).value
  {
    if docs != [] {
      ParseAllKeepsAll(docs[1..], now);
    }
  }

  /** No two documents of the sequence share an id, as in one collection. */
  predicate DocIdsDistinct(docs: seq<Document>) {
    forall i, j :: 0 <= i < j < |docs| ==> docs[i].id != docs[j].id
  }

  /** Distinct document ids in the query result give distinct record ids. */
  lemma {:induction false} ParseAllDistinctIds(docs: seq<Document>, now: int)
    requires DocIdsDistinct(docs)
    ensures IdsUnique(ParseAll(docs, now))
  {
    if docs != [] {
      ParseAllDistinctIds(docs[1..], now);
      ParseAllMembers(docs[1..], now);
      var rest := ParseAll(docs[1..], now);
      forall k | 0 <= k < |rest| ensures rest[k].id != docs[0].id {
        var d :| d in docs[1..] && ParseDocument(d, now) == Some(rest[k]);
        var j :| 0 <= j < |docs[1..]| && docs[1..][j] == d;
        assert docs[j + 1] == d;
      }
      match ParseDocument(docs[0], now)
      case None =>
        assert ParseAll(docs, now) == rest;
      case Some(n) =>
        assert ParseAll(docs, now) == [n] + rest;
    }
  }
}
