/**
 * The nightly clean-up jobs: expired files are deleted from storage and flagged
 * in the table; files no live media row uses are deleted from storage and from
 * the table after a week. Each run handles one bounded batch.
 */
module FileCleanup {
  import opened Wrappers
  import opened Storage
  import Files

  const ExpiredBatch := 100
  const OrphanBatch := 500
  const GraceDays := 7

  predicate IsExpired(f: FileRow, now: int) {
    f.expiresAt.Some? && f.expiresAt.value < now && !f.deleted
  }

  /** The live files whose expiry has passed, in table order. */
  function Expired(rows: seq<FileRow>, now: int): (r: seq<FileRow>)
    ensures forall x :: x in r <==> x in rows && IsExpired(x, now)
  {
    if |rows| == 0 then []
    else
      var x := rows[|rows| - 1];
      Expired(rows[..|rows| - 1], now) + (if IsExpired(x, now) then [x] else [])
  }

  /** Whether a live media row uses the file. */
  predicate Used(media: seq<MediaRow>, fileId: string) {
    exists i :: 0 <= i < |media| && media[i].fileId == fileId && !media[i].deleted
  }

  predicate IsOrphan(f: FileRow, media: seq<MediaRow>, safeDate: int) {
    !Used(media, f.id) && f.createdAt < safeDate && !f.deleted
  }

  /** The live files created before `safeDate` that no live media row uses, in table order. */
  function Orphans(rows: seq<FileRow>, media: seq<MediaRow>, safeDate: int): (r: seq<FileRow>)
    ensures forall x :: x in r <==> x in rows && IsOrphan(x, media, safeDate)
  {
    if |rows| == 0 then []
    else
      var x := rows[|rows| - 1];
      Orphans(rows[..|rows| - 1], media, safeDate) + (if IsOrphan(x, media, safeDate) then [x] else [])
  }

  class FileCleanupService {
    const store: FileStore

    constructor (store: FileStore)
      ensures this.store == store
    {
      this.store := store;
    }

    /**
     * `cleanExpired`: nothing at all without expired files; otherwise one
     * `deleteMany` per bucket, and only when every one succeeded are exactly the
     * batch's rows flagged. An error of storage is not caught: it ends the run,
     * returned here as the bucket that failed.
     */
    method CleanExpired(now: int, failing: set<string>) returns (r: Result<nat, string>)
      modifies store
      ensures var expired := Take(Expired(old(store.rows), now), ExpiredBatch);
        var groups := GroupByBucket(expired);
        if expired == [] then
          && r == Success(0) && store.rows == old(store.rows) && store.objects == old(store.objects)
          && store.log == old(store.log) && store.media == old(store.media)
        else
          match FirstFailing(groups, failing)
          case Some(k) =>
            && r == Failure(groups[k].0)
            && store.rows == old(store.rows) && store.media == old(store.media)
            && store.log == old(store.log) + DeleteCalls(groups[..k + 1])
            && store.objects == old(store.objects) - Removed(groups[..k], failing)
          case None =>
            && r == Success(|expired|)
            && store.rows == MarkDeleted(old(store.rows), IdsOf(expired), true) && store.media == old(store.media)
            && store.log == old(store.log) + DeleteCalls(groups)
            && store.objects == old(store.objects) - Removed(groups, failing)
    {
      var expiredFiles := Take(Expired(store.rows, now), ExpiredBatch);
      if |expiredFiles| == 0 {
        return Success(0);
      }
      var filesByBucket := GroupPaths(expiredFiles);
      var failedAt := store.DeleteGroupedUntilFailure(filesByBucket, failing);
      if failedAt.Some? {
        return Failure(filesByBucket[failedAt.value].0);
      }
      store.rows := MarkDeleted(store.rows, IdsOf(expiredFiles), true);
      r := Success(|expiredFiles|);
    }

    /**
     * `cleanOrphansAndSoftDeleted`: nothing without orphans; otherwise one
     * `deleteMany` per bucket (a failing bucket is only logged), then exactly the
     * batch's rows are removed, with the deleted media rows that still name them.
     */
    method CleanOrphans(now: int, failing: set<string>) returns (n: nat)
      modifies store
      ensures var orphans := Take(Orphans(old(store.rows), old(store.media), now - GraceDays * Files.Day), OrphanBatch);
        var groups := GroupByBucket(orphans);
        && n == |orphans| && n <= OrphanBatch
        && (orphans == [] ==>
              && store.rows == old(store.rows) && store.objects == old(store.objects)
              && store.log == old(store.log) && store.media == old(store.media))
        && (orphans != [] ==>
              && store.log == old(store.log) + DeleteCalls(groups)
              && store.objects == old(store.objects) - Removed(groups, failing)
              && store.rows == WithoutIds(old(store.rows), IdsOf(orphans))
              && store.media == WithoutFiles(old(store.media), IdsOf(orphans)))
    {
      var safeDate := now - GraceDays * Files.Day;
      var orphanFiles := Take(Orphans(store.rows, store.media, safeDate), OrphanBatch);
      n := |orphanFiles|;
      if n == 0 {
        return;
      }
      var filesByBucket := GroupPaths(orphanFiles);
      store.DeleteGrouped(filesByBucket, failing);
      store.rows := WithoutIds(store.rows, IdsOf(orphanFiles));
      store.media := WithoutFiles(store.media, IdsOf(orphanFiles));
    }
  }

  /**
   * A clean-up batch holds at most its bound of files, each of them live; the
   * expired batch only files whose expiry passed, the orphan batch only files no
   * live media row uses. In particular the orphan job never picks up a file that
   * is already soft-deleted.
   */
  lemma BatchesAreLive(rows: seq<FileRow>, media: seq<MediaRow>, now: int)
    ensures var expired := Take(Expired(rows, now), ExpiredBatch);
      |expired| <= ExpiredBatch && forall f :: f in expired ==> f in rows && !f.deleted && f.expiresAt.Some? && f.expiresAt.value < now
    ensures var safeDate := now - GraceDays * Files.Day;
      var orphans := Take(Orphans(rows, media, safeDate), OrphanBatch);
      |orphans| <= OrphanBatch && forall f :: f in orphans ==> f in rows && !f.deleted && !Used(media, f.id) && f.createdAt < safeDate
  {
    var expired := Expired(rows, now);
    var e := Take(expired, ExpiredBatch);
    forall f | f in e ensures f in expired {
      var i :| 0 <= i < |e| && e[i] == f;
      assert expired[..|e|][i] == f;
    }
    var orphans := Orphans(rows, media, now - GraceDays * Files.Day);
    var o := Take(orphans, OrphanBatch);
    forall f | f in o ensures f in orphans {
      var i :| 0 <= i < |o| && o[i] == f;
      assert orphans[..|o|][i] == f;
    }
  }

  /**
   * The cascade of an orphan run only takes media rows that are already
   * soft-deleted: every live media row stays, since a file a live row names is
   * never an orphan.
   */
  lemma OrphanCascadeKeepsLive(rows: seq<FileRow>, media: seq<MediaRow>, now: int)
    ensures var orphans := Take(Orphans(rows, media, now - GraceDays * Files.Day), OrphanBatch);
      forall m :: m in media && !m.deleted ==> m in WithoutFiles(media, IdsOf(orphans))
  {
    var safeDate := now - GraceDays * Files.Day;
    var all := Orphans(rows, media, safeDate);
    var orphans := Take(all, OrphanBatch);
    forall m | m in media && !m.deleted ensures m.fileId !in IdsOf(orphans) {
      var i :| 0 <= i < |media| && media[i] == m;
      assert Used(media, m.fileId);
      forall k | 0 <= k < |orphans| ensures IdsOf(orphans)[k] != m.fileId {
        assert orphans[k] == all[..|orphans|][k];
        assert orphans[k] in all;
      }
    }
  }

  /**
   * When no bucket fails, an expired-files run removes every object of its batch
   * and flags every row of it.
   */
  lemma ExpiredRunComplete(rows: seq<FileRow>, objects: set<(string, string)>, now: int, failing: set<string>)
    requires var expired := Take(Expired(rows, now), ExpiredBatch); FirstFailing(GroupByBucket(expired), failing).None?
    ensures var expired := Take(Expired(rows, now), ExpiredBatch);
      var after := MarkDeleted(rows, IdsOf(expired), true);
      && (forall f :: f in expired ==> (f.bucket, f.path) !in objects - Removed(GroupByBucket(expired), failing))
      && (forall i :: 0 <= i < |rows| && rows[i] in expired ==> after[i].deleted)
  {
    var expired := Take(Expired(rows, now), ExpiredBatch);
    var g := GroupByBucket(expired);
    GroupedDeleteReachesAll(expired, failing);
    forall f | f in expired ensures f.bucket !in failing {
      var i :| 0 <= i < |expired| && expired[i] == f;
      FileBucketIsKey(expired, i);
    }
    forall i | 0 <= i < |rows| && rows[i] in expired ensures rows[i].id in IdsOf(expired) {
      var k :| 0 <= k < |expired| && expired[k] == rows[i];
      assert IdsOf(expired)[k] == rows[i].id;
    }
  }
}
