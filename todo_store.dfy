/**
 * The remote document store the screens read and write, reduced to what they
 * use: one collection of to-do documents per user (`userData/{uid}/todoList`),
 * `add` with a server-assigned `createdAt` and a fresh document id, `delete`
 * by document id, and a query ordered by `createdAt` ascending. The server
 * timestamp is a counter that every write advances; the auto-generated
 * document id is a second counter.
 */
module TodoStore {
  import opened TodoRecords

  class Store {
    /** Each user's collection, in the order its documents were written. */
    var collections: map<Uid, seq<Doc>>
    /** The stamp the next write receives. */
    var clock: Timestamp
    /** The id the next added document receives. */
    var nextId: DocId

    /** Every collection is stamped in write order, with unique, issued ids. */
    ghost predicate Valid()
      reads this
    {
      forall uid :: uid in collections ==> WellFormed(collections[uid], clock, nextId)
    }

    /** No stored document has an empty title or an empty detail. */
    ghost predicate NoBlankRecords()
      reads this
    {
      forall uid, d :: uid in collections && d in collections[uid] ==>
        IsComplete(d.data.textTitle, d.data.textDetail)
    }

    constructor ()
      ensures Valid() && NoBlankRecords()
      ensures collections == map[] && clock == 0 && nextId == 0
    {
      collections := map[];
      clock := 0;
      nextId := 0;
    }

    /** A user's collection; a path nobody has written to reads as empty. */
    function Collection(uid: Uid): (docs: seq<Doc>)
      reads this
      requires Valid()
      ensures WellFormed(docs, clock, nextId)
    {
      if uid in collections then collections[uid] else []
    }

    /**
     * The query `orderBy('createdAt', 'asc').get()` on a user's collection:
     * because the store stamps writes in increasing order, it lists the
     * collection in the order its documents were written.
     */
    function OrderedByCreatedAt(uid: Uid): (docs: seq<Doc>)
      reads this
      requires Valid()
      ensures docs == Collection(uid)
      ensures Ascending(docs)
    {
      var all := Collection(uid);
      ChronologicalIsAscending(all);
      SortAscendingIsIdentity(all);
      SortByCreatedAt(all)
    }

    /**
     * `add`: appends one document to the user's collection, with a fresh id
     * and the current server stamp; no other collection changes.
     */
    method Add(uid: Uid, textTitle: string, textDetail: string) returns (id: DocId)
      requires Valid()
      modifies this
      ensures Valid()
      ensures id == old(nextId) && nextId == old(nextId) + 1 && clock == old(clock) + 1
      ensures collections == old(collections)[uid := old(Collection(uid)) + [Doc(id, TodoData(textTitle, textDetail, old(clock)))]]
    {
      var docs := Collection(uid);
      AppendKeepsWellFormed(docs, clock, nextId, textTitle, textDetail);
      id := nextId;
      collections := collections[uid := docs + [Doc(id, TodoData(textTitle, textDetail, clock))]];
      clock := clock + 1;
      nextId := nextId + 1;
    }

    /**
     * `doc(id).delete()`: removes the user's document with that id, if there
     * is one (deleting a missing document succeeds and changes nothing); no
     * other collection changes and the counters stay.
     */
    method Delete(uid: Uid, id: DocId)
      requires Valid()
      modifies this
      ensures Valid()
      ensures clock == old(clock) && nextId == old(nextId)
      ensures collections == old(collections)[uid := RemoveId(old(Collection(uid)), id)]
    {
      var docs := Collection(uid);
      RemoveKeepsWellFormed(docs, clock, nextId, id);
      collections := collections[uid := RemoveId(docs, id)];
    }
  }
}
