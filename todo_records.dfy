/**
 * The shapes of a user's to-do documents in the per-user collection
 * `userData/{uid}/todoList`, the records the list screen keeps after a fetch,
 * and the pure pieces of the screen logic: the non-empty check on a draft,
 * the document-to-record mapping, the `createdAt` ordering of a query and the
 * removal of a document by id.
 */
module TodoRecords {

  /** The authenticated user's uid; it names the user's collection. */
  type Uid = string

  /** A document id, as assigned by the store when a document is added. */
  type DocId = nat

  /** A server timestamp: the store stamps each write with a larger one. */
  type Timestamp = nat

  /** The fields written by the creation screen. */
  datatype TodoData = TodoData(textTitle: string, textDetail: string, createdAt: Timestamp)

  /** A stored document: its id and its data. */
  datatype Doc = Doc(id: DocId, data: TodoData)

  /** A document as the list screen holds it: `{ id: doc.id, ...doc.data() }`. */
  datatype Record = Record(id: DocId, textTitle: string, textDetail: string, createdAt: Timestamp)

  /** A draft may be saved exactly when both fields are non-empty. */
  predicate IsComplete(textTitle: string, textDetail: string): (ok: bool)
    ensures ok <==> |textTitle| > 0 && |textDetail| > 0
  {
    textTitle != "" && textDetail != ""
  }

  function ToRecord(doc: Doc): Record {
    Record(doc.id, doc.data.textTitle, doc.data.textDetail, doc.data.createdAt)
  }

  /** Splits a record back into the document it was made from. */
  function ToDoc(r: Record): Doc {
    Doc(r.id, TodoData(r.textTitle, r.textDetail, r.createdAt))
  }

  /**
   * The mapping of a query's documents to records: one record per document,
   * in the same order, each tagged with its document's id and carrying
   * exactly that document's data.
   */
  function ToRecords(docs: seq<Doc>): (rs: seq<Record>)
    ensures |rs| == |docs|
    ensures forall i :: 0 <= i < |docs| ==> rs[i].id == docs[i].id && ToDoc(rs[i]) == docs[i]
  {
    if docs == [] then [] else [ToRecord(docs[0])] + ToRecords(docs[1..])
  }

  /** Documents in non-decreasing `createdAt` order. */
  predicate Ascending(docs: seq<Doc>) {
    forall i, j :: 0 <= i < j < |docs| ==> docs[i].data.createdAt <= docs[j].data.createdAt
  }

  /** Records in non-decreasing `createdAt` order. */
  predicate InCreationOrder(rs: seq<Record>) {
    forall i, j :: 0 <= i < j < |rs| ==> rs[i].createdAt <= rs[j].createdAt
  }

  /** Places `d` into the ascending sequence `s` before the first later document. */
  function Insert(d: Doc, s: seq<Doc>): (r: seq<Doc>)
    requires Ascending(s)
    ensures Ascending(r)
    ensures multiset(r) == multiset(s) + multiset{d}
  {
    if s == [] || d.data.createdAt <= s[0].data.createdAt then
      [d] + s
    else
      var rest := Insert(d, s[1..]);
      InsertBehindHead(d, s, rest);
      [s[0]] + rest
  }

  /** When `d` goes behind the head of `s`, the head stays in front of the rest. */
  lemma InsertBehindHead(d: Doc, s: seq<Doc>, rest: seq<Doc>)
    requires s != [] && Ascending(s) && s[0].data.createdAt < d.data.createdAt
    requires Ascending(rest) && multiset(rest) == multiset(s[1..]) + multiset{d}
    ensures Ascending([s[0]] + rest)
    ensures multiset([s[0]] + rest) == multiset(s) + multiset{d}
  {
    assert s == [s[0]] + s[1..];
    var r := [s[0]] + rest;
    forall j | 0 < j < |r| ensures s[0].data.createdAt <= r[j].data.createdAt {
      var y := rest[j - 1];
      assert y in multiset(rest);
      if y != d {
        assert y in multiset(s[1..]);
        assert y in s;
      }
    }
    forall i, j | 0 <= i < j < |r| ensures r[i].data.createdAt <= r[j].data.createdAt {
      if i > 0 {
        assert r[i] == rest[i - 1] && r[j] == rest[j - 1];
      }
    }
  }

  /**
   * The documents of a query ordered by `createdAt` ascending: the same
   * documents, each exactly as often, in ascending order.
   */
  function SortByCreatedAt(docs: seq<Doc>): (r: seq<Doc>)
    ensures Ascending(r)
    ensures multiset(r) == multiset(docs)
  {
    if docs == [] then []
    else
      assert docs == [docs[0]] + docs[1..];
      Insert(docs[0], SortByCreatedAt(docs[1..]))
  }

  /** Ordering an already ascending sequence changes nothing. */
  lemma {:induction false} SortAscendingIsIdentity(docs: seq<Doc>)
    requires Ascending(docs)
    ensures SortByCreatedAt(docs) == docs
  {
    if docs != [] {
      SortAscendingIsIdentity(docs[1..]);
      assert docs == [docs[0]] + docs[1..];
    }
  }

  /** The records of an ascending query are in creation order. */
  lemma AscendingRecords(docs: seq<Doc>)
    requires Ascending(docs)
    ensures InCreationOrder(ToRecords(docs))
  {
    var rs := ToRecords(docs);
    forall i, j | 0 <= i < j < |rs| ensures rs[i].createdAt <= rs[j].createdAt {
      assert ToDoc(rs[i]) == docs[i] && ToDoc(rs[j]) == docs[j];
    }
  }

  /**
   * A collection without the documents whose id is `id`: exactly the
   * documents with another id remain.
   */
  function RemoveId(docs: seq<Doc>, id: DocId): (r: seq<Doc>)
    ensures forall x :: x in r <==> x in docs && x.id != id
    ensures |r| <= |docs|
  {
    if docs == [] then []
    else
      var rest := RemoveId(docs[1..], id);
      assert docs == [docs[0]] + docs[1..];
      if docs[0].id == id then rest else [docs[0]] + rest
  }

  /** Removing an id that no document carries leaves the collection as it is. */
  lemma {:induction false} RemoveAbsentId(docs: seq<Doc>, id: DocId)
    requires forall x :: x in docs ==> x.id != id
    ensures RemoveId(docs, id) == docs
  {
    if docs != [] {
      assert docs[0] in docs;
      RemoveAbsentId(docs[1..], id);
      assert docs == [docs[0]] + docs[1..];
    }
  }

  /** Ids are unique within a collection. */
  predicate UniqueIds(docs: seq<Doc>) {
    forall i, j :: 0 <= i < j < |docs| ==> docs[i].id != docs[j].id
  }

  /** Stamps strictly increase along a collection, in the order of the writes. */
  predicate Chronological(docs: seq<Doc>) {
    forall i, j :: 0 <= i < j < |docs| ==> docs[i].data.createdAt < docs[j].data.createdAt
  }

  /**
   * Removing the id that exactly one document carries removes exactly that
   * document.
   */
  lemma {:induction false} RemovePresentId(docs: seq<Doc>, k: nat)
    requires UniqueIds(docs)
    requires k < |docs|
    ensures |RemoveId(docs, docs[k].id)| == |docs| - 1
    ensures docs[k] !in RemoveId(docs, docs[k].id)
  {
    var id := docs[k].id;
    if k == 0 {
      forall x | x in docs[1..] ensures x.id != id {
        var j :| 0 <= j < |docs[1..]| && docs[1..][j] == x;
        assert docs[j + 1] == x;
      }
      RemoveAbsentId(docs[1..], id);
    } else {
      assert docs[1..][k - 1] == docs[k];
      RemovePresentId(docs[1..], k - 1);
    }
  }

  /**
   * A document stamped before, and with an id other than, every document of a
   * well-ordered collection may be put in front of it.
   */
  lemma ConsKeepsOrder(d: Doc, rest: seq<Doc>)
    requires Chronological(rest) && UniqueIds(rest)
    requires forall y :: y in rest ==> d.data.createdAt < y.data.createdAt && d.id != y.id
    ensures Chronological([d] + rest) && UniqueIds([d] + rest)
  {
    var r := [d] + rest;
    forall i, j | 0 <= i < j < |r|
      ensures r[i].data.createdAt < r[j].data.createdAt && r[i].id != r[j].id
    {
      if i == 0 {
        assert r[j] in rest;
      } else {
        assert r[i] == rest[i - 1] && r[j] == rest[j - 1];
      }
    }
  }

  /**
   * Removing documents keeps a collection's stamps increasing and its ids
   * unique: the remaining documents keep their relative order.
   */
  lemma {:induction false} RemoveIdKeepsOrder(docs: seq<Doc>, id: DocId)
    requires Chronological(docs) && UniqueIds(docs)
    ensures Chronological(RemoveId(docs, id)) && UniqueIds(RemoveId(docs, id))
  {
    if docs != [] {
      var tail := docs[1..];
      var rest := RemoveId(tail, id);
      RemoveIdKeepsOrder(tail, id);
      if docs[0].id != id {
        forall y | y in rest
          ensures docs[0].data.createdAt < y.data.createdAt && docs[0].id != y.id
        {
          var j :| 0 <= j < |tail| && tail[j] == y;
          assert docs[j + 1] == y;
        }
        ConsKeepsOrder(docs[0], rest);
      }
    }
  }

  /**
   * Well-formedness of one user's collection in a store whose next stamp is
   * `clock` and whose next id is `nextId`.
   */
  predicate WellFormed(docs: seq<Doc>, clock: Timestamp, nextId: DocId) {
    && Chronological(docs)
    && UniqueIds(docs)
    && (forall d :: d in docs ==> d.data.createdAt < clock && d.id < nextId)
  }

  /** A chronological collection is ascending, so its ordered query is itself. */
  lemma ChronologicalIsAscending(docs: seq<Doc>)
    requires Chronological(docs)
    ensures Ascending(docs)
  {
  }

  /**
   * Appending a document stamped with the current clock and carrying the next
   * id keeps a collection well formed once both counters advance.
   */
  lemma AppendKeepsWellFormed(docs: seq<Doc>, clock: Timestamp, nextId: DocId, textTitle: string, textDetail: string)
    requires WellFormed(docs, clock, nextId)
    ensures WellFormed(docs + [Doc(nextId, TodoData(textTitle, textDetail, clock))], clock + 1, nextId + 1)
  {
    var d := Doc(nextId, TodoData(textTitle, textDetail, clock));
    var all := docs + [d];
    forall i, j | 0 <= i < j < |all|
      ensures all[i].data.createdAt < all[j].data.createdAt && all[i].id != all[j].id
    {
      if j == |docs| {
        assert all[i] in docs;
      }
    }
  }

  /** Removing documents keeps a collection well formed. */
  lemma RemoveKeepsWellFormed(docs: seq<Doc>, clock: Timestamp, nextId: DocId, id: DocId)
    requires WellFormed(docs, clock, nextId)
    ensures WellFormed(RemoveId(docs, id), clock, nextId)
  {
    RemoveIdKeepsOrder(docs, id);
  }
}
