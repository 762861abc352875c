/** What pruning and resetting keep: referential integrity after every single DELETE, exact accounting of the
    deleted rows, and every answer about a window that starts at or after the cutoff. */
module Retention {
  import opened Rows
  import opened Database

  // ---- the invariant behind the foreign keys ----

  /** Ids ascend and none exceeds the sequence, so a new id has never been used since the last reset. */
  ghost predicate Numbered<T>(t: Table<T>) {
    IdsAscend(t.rows) && forall r :: r in t.rows ==> 1 <= r.id <= t.sequence
  }

  ghost predicate AllNumbered(db: Db) {
    && Numbered(db.samples) && Numbered(db.transitions) && Numbered(db.journal)
    && Numbered(db.snapshots) && Numbered(db.values) && Numbered(db.contextTransitions)
    && Numbered(db.contextJournal) && Numbered(db.systemInfo) && Numbered(db.markers)
  }

  /** A transition carries the time and the device of the sample it was derived from. */
  ghost predicate SampleOf(db: Db, t: Row<Transition>) {
    exists s :: s in db.samples.rows && s.id == t.body.sampleId && s.ts == t.ts && s.body.device == t.body.device
  }

  /** A context row carries the time of its snapshot. */
  ghost predicate SnapshotOf(db: Db, id: int, ts: int) {
    exists s :: s in db.snapshots.rows && s.id == id && s.ts == ts
  }

  /** The foreign keys, strengthened by "a child carries its parent's time": what makes retention by time safe. */
  ghost predicate Linked(db: Db) {
    && (forall t :: t in db.transitions.rows ==> SampleOf(db, t))
    && (forall e :: e in db.journal.rows ==> HasId(db.transitions, e.body.transitionId))
    && (forall v :: v in db.values.rows ==> SnapshotOf(db, v.body.snapshotId, v.ts))
    && (forall t :: t in db.contextTransitions.rows ==> SnapshotOf(db, t.body.snapshotId, t.ts))
    && (forall e :: e in db.contextJournal.rows ==> HasId(db.contextTransitions, e.body.transitionId))
  }

  lemma {:induction false} LinkedIsIntegral(db: Db)
    requires Linked(db)
    ensures Integrity(db)
  {
    forall t | t in db.transitions.rows ensures HasId(db.samples, t.body.sampleId) { assert SampleOf(db, t); }
    forall v | v in db.values.rows ensures HasId(db.snapshots, v.body.snapshotId) {
      assert SnapshotOf(db, v.body.snapshotId, v.ts);
    }
    forall t | t in db.contextTransitions.rows ensures HasId(db.snapshots, t.body.snapshotId) {
      assert SnapshotOf(db, t.body.snapshotId, t.ts);
    }
  }

  // ---- prune, statement by statement ----

  /** Each statement touches one table and sees the others as the earlier statements left them. */
  lemma {:induction false} PruneTables(db: Db, cutoff: int, k: nat)
    requires k <= PRUNE_STATEMENTS
    ensures PruneUpTo(db, cutoff, k) == Db(
              if k > 6 then Delete(db.samples, OlderThan(cutoff)) else db.samples,
              if k > 2 then Delete(db.transitions, OlderThan(cutoff)) else db.transitions,
              if k > 0 then Delete(db.journal, ChildOf(OldIds(db.transitions, cutoff))) else db.journal,
              if k > 5 then Delete(db.snapshots, OlderThan(cutoff)) else db.snapshots,
              if k > 4 then Delete(db.values, OlderThan(cutoff)) else db.values,
              if k > 3 then Delete(db.contextTransitions, OlderThan(cutoff)) else db.contextTransitions,
              if k > 1 then Delete(db.contextJournal, ChildOf(OldIds(db.contextTransitions, cutoff))) else db.contextJournal,
              if k > 8 then Delete(db.systemInfo, OutdatedInfo(db.systemInfo.rows, cutoff)) else db.systemInfo,
              if k > 7 then Delete(db.markers, OlderThan(cutoff)) else db.markers)
  {
    if k > 0 {
      PruneTables(db, cutoff, k - 1);
      var before := PruneUpTo(db, cutoff, k - 1);
      match k - 1 {
        case 0 => assert PruneStatement(before, cutoff, 0).transitions == db.transitions;
        case 1 => assert PruneStatement(before, cutoff, 1).contextTransitions == db.contextTransitions;
        case 8 => assert PruneStatement(before, cutoff, 8).markers == before.markers;
        case _ =>
      }
    }
  }

  /** After every single DELETE of a prune, every remaining child row still has its parent. */
  lemma {:induction false} PruneStaysLinked(db: Db, cutoff: int, k: nat)
    requires Linked(db) && k <= PRUNE_STATEMENTS
    ensures Linked(PruneUpTo(db, cutoff, k))
  {
    var now := PruneUpTo(db, cutoff, k);
    PruneTables(db, cutoff, k);
    forall t | t in now.transitions.rows ensures SampleOf(now, t) {
      assert SampleOf(db, t);
      var s :| s in db.samples.rows && s.id == t.body.sampleId && s.ts == t.ts && s.body.device == t.body.device;
      assert s in now.samples.rows;
    }
    forall e | e in now.journal.rows ensures HasId(now.transitions, e.body.transitionId) {
      if k > 2 { SurvivingParent(db.transitions, cutoff, e.body.transitionId); }
    }
    forall e | e in now.contextJournal.rows ensures HasId(now.contextTransitions, e.body.transitionId) {
      if k > 3 { SurvivingParent(db.contextTransitions, cutoff, e.body.transitionId); }
    }
    forall v | v in now.values.rows ensures SnapshotOf(now, v.body.snapshotId, v.ts) {
      SurvivingSnapshot(db, cutoff, now, v.body.snapshotId, v.ts);
    }
    forall t | t in now.contextTransitions.rows ensures SnapshotOf(now, t.body.snapshotId, t.ts) {
      SurvivingSnapshot(db, cutoff, now, t.body.snapshotId, t.ts);
    }
  }

  lemma {:induction false} SurvivingParent<T>(parents: Table<T>, cutoff: int, id: int)
    requires HasId(parents, id) && id !in OldIds(parents, cutoff)
    ensures HasId(Delete(parents, OlderThan(cutoff)), id)
  {
    var r :| r in parents.rows && r.id == id;
    assert r in Delete(parents, OlderThan(cutoff)).rows;
  }

  lemma {:induction false} SurvivingSnapshot(db: Db, cutoff: int, now: Db, id: int, ts: int)
    requires SnapshotOf(db, id, ts)
    requires now.snapshots == db.snapshots || (now.snapshots == Delete(db.snapshots, OlderThan(cutoff)) && ts >= cutoff)
    ensures SnapshotOf(now, id, ts)
  {
    var s :| s in db.snapshots.rows && s.id == id && s.ts == ts;
    assert s in now.snapshots.rows;
  }

  // ---- reset, statement by statement ----

  lemma {:induction false} ResetTables(db: Db, k: nat)
    requires k < RESET_STATEMENTS
    ensures ResetUpTo(db, k) == Db(
              if k > 6 then Cleared(db.samples) else db.samples,
              if k > 2 then Cleared(db.transitions) else db.transitions,
              if k > 0 then Cleared(db.journal) else db.journal,
              if k > 5 then Cleared(db.snapshots) else db.snapshots,
              if k > 3 then Cleared(db.values) else db.values,
              if k > 4 then Cleared(db.contextTransitions) else db.contextTransitions,
              if k > 1 then Cleared(db.contextJournal) else db.contextJournal,
              if k > 7 then Cleared(db.systemInfo) else db.systemInfo,
              if k > 8 then Cleared(db.markers) else db.markers)
  {
    if k > 0 { ResetTables(db, k - 1); }
  }

  /** A reset removes children before parents at every statement, and ends in the database of a fresh file. */
  lemma {:induction false} ResetStaysLinked(db: Db, k: nat)
    requires Linked(db) && k <= RESET_STATEMENTS
    ensures Linked(ResetUpTo(db, k))
    ensures k == RESET_STATEMENTS ==> ResetUpTo(db, k) == EMPTY_DB
  {
    ResetTables(db, if k == RESET_STATEMENTS then k - 1 else k);
    var now := ResetUpTo(db, k);
    forall t | t in now.transitions.rows ensures SampleOf(now, t) { assert SampleOf(db, t); }
    forall v | v in now.values.rows ensures SnapshotOf(now, v.body.snapshotId, v.ts) {
      assert SnapshotOf(db, v.body.snapshotId, v.ts);
    }
    forall t | t in now.contextTransitions.rows ensures SnapshotOf(now, t.body.snapshotId, t.ts) {
      assert SnapshotOf(db, t.body.snapshotId, t.ts);
    }
  }

  /** In a run ordered by time, the rows at or after a cutoff are a suffix. */
  lemma {:induction false} RecentIsSuffix<T>(s: seq<Row<T>>, cutoff: int) returns (k: nat)
    requires TsAscend(s)
    ensures k <= |s| && Select(s, Not(OlderThan(cutoff))) == s[k..]
  {
    if s == [] || s[|s| - 1].ts < cutoff {
      k := |s|;
      forall x | x in s ensures !Not(OlderThan(cutoff))(x) { }
      SelectNone(s, Not(OlderThan(cutoff)));
    } else {
      var front := s[..|s| - 1];
      k := RecentIsSuffix(front, cutoff);
      assert s[k..] == front[k..] + [s[|s| - 1]];
    }
  }

  // ---- pruning twice ----

  lemma {:induction false} DeleteOldTwice<T>(t: Table<T>, c1: int, c2: int)
    ensures Delete(Delete(t, OlderThan(c1)), OlderThan(c2)) == Delete(t, OlderThan(if c1 >= c2 then c1 else c2))
  {
    SelectTwice(t.rows, Not(OlderThan(c1)), Not(OlderThan(c2)), Not(OlderThan(if c1 >= c2 then c1 else c2)));
  }

  lemma {:induction false} DeleteChildrenTwice<P>(journal: Table<JournalEvent>, parents: Table<P>, c1: int, c2: int)
    ensures Delete(Delete(journal, ChildOf(OldIds(parents, c1))), ChildOf(OldIds(Delete(parents, OlderThan(c1)), c2)))
         == Delete(journal, ChildOf(OldIds(parents, if c1 >= c2 then c1 else c2)))
  {
    var later := OldIds(Delete(parents, OlderThan(c1)), c2);
    assert OldIds(parents, c1) + later == OldIds(parents, if c1 >= c2 then c1 else c2) by {
      forall r | r in parents.rows && r.ts >= c1 ensures r in Delete(parents, OlderThan(c1)).rows { }
    }
    SelectTwice(journal.rows, Not(ChildOf(OldIds(parents, c1))), Not(ChildOf(later)),
                Not(ChildOf(OldIds(parents, if c1 >= c2 then c1 else c2))));
  }

  lemma {:induction false} DeleteInfoTwice(t: Table<string>, c1: int, c2: int)
    ensures var once := Delete(t, OutdatedInfo(t.rows, c1));
            Delete(once, OutdatedInfo(once.rows, c2)) == Delete(t, OutdatedInfo(t.rows, if c1 >= c2 then c1 else c2))
  {
    var once := Delete(t, OutdatedInfo(t.rows, c1));
    var c := if c1 >= c2 then c1 else c2;
    LatestIsNewest(t.rows);
    forall r | r in t.rows
      ensures Not(OutdatedInfo(t.rows, c))(r) == (Not(OutdatedInfo(t.rows, c1))(r) && Not(OutdatedInfo(once.rows, c2))(r))
    {
      var newest := Latest(t.rows).value;
      assert newest in once.rows;
    }
    SelectTwice(t.rows, Not(OutdatedInfo(t.rows, c1)), Not(OutdatedInfo(once.rows, c2)), Not(OutdatedInfo(t.rows, c)));
  }

  /** Pruning to one cutoff and then to another is pruning to the later of the two. */
  lemma {:induction false} PruneTwice(db: Db, c1: int, c2: int)
    ensures Prune(Prune(db, c1), c2) == Prune(db, if c1 >= c2 then c1 else c2)
  {
    var c := if c1 >= c2 then c1 else c2;
    PruneTables(db, c1, PRUNE_STATEMENTS);
    PruneTables(db, c, PRUNE_STATEMENTS);
    PruneTables(Prune(db, c1), c2, PRUNE_STATEMENTS);
    DeleteOldTwice(db.samples, c1, c2);
    DeleteOldTwice(db.transitions, c1, c2);
    DeleteChildrenTwice(db.journal, db.transitions, c1, c2);
    DeleteOldTwice(db.snapshots, c1, c2);
    DeleteOldTwice(db.values, c1, c2);
    DeleteOldTwice(db.contextTransitions, c1, c2);
    DeleteChildrenTwice(db.contextJournal, db.contextTransitions, c1, c2);
    DeleteInfoTwice(db.systemInfo, c1, c2);
    DeleteOldTwice(db.markers, c1, c2);
  }
}
