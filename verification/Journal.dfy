/** Looking up the journal events of many transitions in chunks that fit the statement's parameter budget. */
module Journal {
  import opened Rows
  import opened Database

  const JOURNAL_IN_BATCH: nat := 500

  function IdSet(ids: seq<int>): set<int> {
    set id | id in ids
  }

  /** One `SELECT ... WHERE transition_id IN (ids) ORDER BY ts_unix_ms`. */
  function Batch(rows: seq<Row<JournalEvent>>, ids: seq<int>): seq<Row<JournalEvent>> {
    SortByTs(Select(rows, ChildOf(IdSet(ids))))
  }

  function ChunkEnd(ids: seq<int>, i: nat): nat {
    if i + JOURNAL_IN_BATCH <= |ids| then i + JOURNAL_IN_BATCH else |ids|
  }

  /** In how many of the chunks from position i on does an id occur? */
  function ChunksWith(ids: seq<int>, i: nat, id: int): nat
    requires i <= |ids|
    decreases |ids| - i
  {
    if i == |ids| then 0 else
    (if id in ids[i..ChunkEnd(ids, i)] then 1 else 0) + ChunksWith(ids, ChunkEnd(ids, i), id)
  }

  /** Rows are told apart by their id. */
  lemma {:induction false} RowsOnce<T>(rows: seq<Row<T>>, e: Row<T>)
    requires IdsAscend(rows)
    ensures multiset(rows)[e] == if e in rows then 1 else 0
  {
    if rows != [] {
      var front, last := rows[..|rows| - 1], rows[|rows| - 1];
      RowsOnce(front, e);
      assert rows == front + [last];
      assert last !in front;
    }
  }

  lemma {:induction false} SelectOnce<T>(rows: seq<Row<T>>, p: Row<T> -> bool, e: Row<T>)
    requires IdsAscend(rows)
    ensures multiset(Select(rows, p))[e] == if e in rows && p(e) then 1 else 0
  {
    RowsOnce(rows, e);
    SelectCount(rows, p, e);
  }

  lemma {:induction false} BatchOnce(rows: seq<Row<JournalEvent>>, ids: seq<int>, e: Row<JournalEvent>)
    requires IdsAscend(rows)
    ensures multiset(Batch(rows, ids))[e] == if e in rows && e.body.transitionId in ids then 1 else 0
  {
    SelectOnce(rows, ChildOf(IdSet(ids)), e);
  }

  /** The batches from position i on, one after the other. */
  function Batches(rows: seq<Row<JournalEvent>>, ids: seq<int>, i: nat): seq<Row<JournalEvent>>
    requires i <= |ids|
    decreases |ids| - i
  {
    if i == |ids| then [] else
    Batch(rows, ids[i..ChunkEnd(ids, i)]) + Batches(rows, ids, ChunkEnd(ids, i))
  }

  function EventsFor(rows: seq<Row<JournalEvent>>, ids: seq<int>): seq<Row<JournalEvent>> {
    SortByTs(Batches(rows, ids, 0))
  }

  lemma {:induction false} Associate<T>(a: seq<T>, b: seq<T>, c: seq<T>)
    ensures a + (b + c) == (a + b) + c
  { }

  /** `journal_for_transitions`, and `journal_for_context_transitions` over the other journal table. */
  method JournalFor(rows: seq<Row<JournalEvent>>, ids: seq<int>) returns (events: seq<Row<JournalEvent>>)
    ensures events == EventsFor(rows, ids)
  {
    if ids == [] {
      return [];
    }
    events := [];
    var i := 0;
    while i < |ids|
      invariant 0 <= i <= |ids|
      invariant events + Batches(rows, ids, i) == Batches(rows, ids, 0)
    {
      var batch := Batch(rows, ids[i..ChunkEnd(ids, i)]);
      Associate(events, batch, Batches(rows, ids, ChunkEnd(ids, i)));
      events := events + batch;
      i := ChunkEnd(ids, i);
    }
    assert events + [] == events;
    events := SortByTs(events);
  }

  lemma {:induction false} BatchesOnce(rows: seq<Row<JournalEvent>>, ids: seq<int>, i: nat, e: Row<JournalEvent>)
    requires IdsAscend(rows) && i <= |ids|
    ensures multiset(Batches(rows, ids, i))[e] == if e in rows then ChunksWith(ids, i, e.body.transitionId) else 0
    decreases |ids| - i
  {
    if i < |ids| {
      BatchOnce(rows, ids[i..ChunkEnd(ids, i)], e);
      BatchesOnce(rows, ids, ChunkEnd(ids, i), e);
    }
  }

  /** The lookup is ordered by time and holds each stored event once per chunk that mentions its transition. */
  lemma {:induction false} EventsForMeaning(rows: seq<Row<JournalEvent>>, ids: seq<int>)
    requires IdsAscend(rows)
    ensures TsAscend(EventsFor(rows, ids))
    ensures forall e :: multiset(EventsFor(rows, ids))[e] == if e in rows then ChunksWith(ids, 0, e.body.transitionId) else 0
  {
    SortSorts(Batches(rows, ids, 0));
    forall e ensures multiset(EventsFor(rows, ids))[e] == if e in rows then ChunksWith(ids, 0, e.body.transitionId) else 0 {
      BatchesOnce(rows, ids, 0, e);
    }
  }

  ghost predicate DistinctFrom(ids: seq<int>, i: nat) {
    forall j, k :: i <= j < k < |ids| ==> ids[j] != ids[k]
  }

  lemma {:induction false} DistinctInOneChunk(ids: seq<int>, i: nat, id: int)
    requires i <= |ids| && DistinctFrom(ids, i)
    ensures ChunksWith(ids, i, id) == if id in ids[i..] then 1 else 0
    decreases |ids| - i
  {
    if i < |ids| {
      var n := ChunkEnd(ids, i);
      DistinctInOneChunk(ids, n, id);
      assert ids[i..] == ids[i..n] + ids[n..];
      if id in ids[i..n] {
        var j :| i <= j < n && ids[j] == id;
        assert id !in ids[n..];
      }
    }
  }

  lemma {:induction false} InSomeChunk(ids: seq<int>, i: nat, id: int)
    requires i <= |ids|
    ensures ChunksWith(ids, i, id) >= 1 <==> id in ids[i..]
    decreases |ids| - i
  {
    if i < |ids| {
      InSomeChunk(ids, ChunkEnd(ids, i), id);
      assert ids[i..] == ids[i..ChunkEnd(ids, i)] + ids[ChunkEnd(ids, i)..];
    }
  }

  lemma {:induction false} MultiplicitiesDecide(rows: seq<Row<JournalEvent>>, ids: seq<int>, events: seq<Row<JournalEvent>>, batch: seq<Row<JournalEvent>>)
    requires forall e :: multiset(events)[e] == if e in rows then ChunksWith(ids, 0, e.body.transitionId) else 0
    requires forall e :: multiset(batch)[e] == if e in rows && ChunksWith(ids, 0, e.body.transitionId) >= 1 then 1 else 0
    ensures multiset(events) == multiset(batch) <==> forall e :: e in rows ==> ChunksWith(ids, 0, e.body.transitionId) <= 1
  {
    if multiset(events) == multiset(batch) {
      forall e | e in rows ensures ChunksWith(ids, 0, e.body.transitionId) <= 1 {
        assert multiset(events)[e] == multiset(batch)[e];
      }
    }
    if forall e :: e in rows ==> ChunksWith(ids, 0, e.body.transitionId) <= 1 {
      forall e ensures multiset(events)[e] == multiset(batch)[e] { }
    }
  }

  /** The chunked lookup returns the same events as one unchunked query, each once, exactly when no id with a stored
      event occurs in two chunks. */
  lemma {:induction false} ChunkedIsUnchunked(rows: seq<Row<JournalEvent>>, ids: seq<int>)
    requires IdsAscend(rows)
    ensures multiset(EventsFor(rows, ids)) == multiset(Batch(rows, ids))
       <==> forall e :: e in rows ==> ChunksWith(ids, 0, e.body.transitionId) <= 1
  {
    var events, batch := EventsFor(rows, ids), Batch(rows, ids);
    EventsForMeaning(rows, ids);
    assert ids[0..] == ids;
    forall e
      ensures multiset(batch)[e] == if e in rows && ChunksWith(ids, 0, e.body.transitionId) >= 1 then 1 else 0
    {
      BatchOnce(rows, ids, e);
      InSomeChunk(ids, 0, e.body.transitionId);
    }
    MultiplicitiesDecide(rows, ids, events, batch);
  }

  /** For the duplicate-free ids of a listing of any length, the lookup is a time-ordered permutation of the one query. */
  lemma {:induction false} DistinctIdsOneQuery(rows: seq<Row<JournalEvent>>, ids: seq<int>)
    requires IdsAscend(rows) && DistinctFrom(ids, 0)
    ensures multiset(EventsFor(rows, ids)) == multiset(Batch(rows, ids)) && TsAscend(EventsFor(rows, ids))
    ensures forall e :: e in EventsFor(rows, ids) <==> e in rows && e.body.transitionId in ids
  {
    forall e | e in rows ensures ChunksWith(ids, 0, e.body.transitionId) <= 1 {
      DistinctInOneChunk(ids, 0, e.body.transitionId);
    }
    ChunkedIsUnchunked(rows, ids);
    EventsForMeaning(rows, ids);
    SameMembers(EventsFor(rows, ids), Select(rows, ChildOf(IdSet(ids))));
  }

  /** Up to 500 ids make one query, whatever repeats among them. */
  lemma {:induction false} FewIdsOneQuery(rows: seq<Row<JournalEvent>>, ids: seq<int>)
    requires IdsAscend(rows) && |ids| <= 500
    ensures multiset(EventsFor(rows, ids)) == multiset(Batch(rows, ids))
  {
    forall e | e in rows ensures ChunksWith(ids, 0, e.body.transitionId) <= 1 {
      assert ids != [] ==> ChunksWith(ids, |ids|, e.body.transitionId) == 0;
    }
    ChunkedIsUnchunked(rows, ids);
  }

  lemma {:induction false} TwoChunks(ids: seq<int>, id: int)
    requires |ids| == JOURNAL_IN_BATCH + 1 && ids[0] == id && ids[JOURNAL_IN_BATCH] == id
    ensures ChunksWith(ids, 0, id) == 2
  {
    assert ids[0..JOURNAL_IN_BATCH][0] == id && ids[JOURNAL_IN_BATCH..|ids|][0] == id;
    assert ChunksWith(ids, |ids|, id) == 0;
    assert ChunksWith(ids, JOURNAL_IN_BATCH, id) == 1;
  }

  /** Across two chunks a repeated id does repeat its events. */
  lemma {:induction false} RepeatedIdRepeatsEvents(e: Row<JournalEvent>, ids: seq<int>)
    requires |ids| == 501 && ids[0] == e.body.transitionId && ids[500] == e.body.transitionId
    ensures multiset(EventsFor([e], ids))[e] == 2 && multiset(Batch([e], ids))[e] == 1
  {
    EventsForMeaning([e], ids);
    BatchOnce([e], ids, e);
    TwoChunks(ids, e.body.transitionId);
  }

  // ---- the journal events of a listing ----

  ghost predicate ListsId<T>(listing: seq<Row<T>>, id: int) {
    exists r :: r in listing && r.id == id
  }

  /** A listing's lookup holds each stored event of its transitions once. */
  lemma {:induction false} EventsForListing<T>(events: seq<Row<JournalEvent>>, listing: seq<Row<T>>, e: Row<JournalEvent>)
    requires IdsAscend(events) && DistinctIds(listing)
    ensures multiset(EventsFor(events, Ids(listing)))[e] == if e in events && ListsId(listing, e.body.transitionId) then 1 else 0
  {
    var ids := Ids(listing);
    EventsForMeaning(events, ids);
    DistinctInOneChunk(ids, 0, e.body.transitionId);
    assert ids[0..] == ids;
    if e.body.transitionId in ids {
      var i :| 0 <= i < |ids| && ids[i] == e.body.transitionId;
      assert listing[i] in listing && listing[i].id == e.body.transitionId;
    }
    if ListsId(listing, e.body.transitionId) {
      var r :| r in listing && r.id == e.body.transitionId;
      var i :| 0 <= i < |listing| && listing[i] == r;
      assert ids[i] == e.body.transitionId;
    }
  }

  lemma {:induction false} ListingIsDistinct<T>(rows: seq<Row<T>>, p: Row<T> -> bool)
    requires IdsAscend(rows)
    ensures DistinctIds(SortByTs(Select(rows, p)))
  {
    SelectAscends(rows, p);
    SortKeepsDistinct(Select(rows, p));
  }
}
