/**
 * The file and media tables and the object storage behind them, shared by the
 * file, media and clean-up services. A media row's file id is a foreign key into
 * the file table that cascades on delete. A stored object is a (bucket, path) pair; every call made to
 * the storage provider is kept, in order, in a log.
 */
module Storage {
  import opened Wrappers
  import opened Collections

  datatype FileRow = FileRow(
    id: string,
    originalName: string,
    fileName: string,
    mimeType: string,
    size: nat,
    bucket: string,
    path: string,
    url: string,
    expiresAt: Option<int>,
    uploaderId: Option<string>,
    createdAt: int,
    deleted: bool)

  datatype MediaType = UserAvatar | UserCover | MessageAttachment | PostImage

  /** A media row attaches a file to a target (a user, a message, a post) under a type, at a position. */
  datatype MediaRow = MediaRow(id: nat, fileId: string, targetId: string, kind: MediaType, order: nat, deleted: bool)

  datatype StorageCall =
    | Upload(bucket: string, path: string)
    | Delete(bucket: string, path: string)
    | DeleteMany(bucket: string, paths: seq<string>)

  /** Paths grouped by bucket: one entry per bucket, in order of first appearance. */
  type Groups = seq<(string, seq<string>)>

  function Buckets(groups: Groups): (keys: seq<string>)
    ensures |keys| == |groups| && forall i :: 0 <= i < |groups| ==> keys[i] == groups[i].0
  {
    seq(|groups|, i requires 0 <= i < |groups| => groups[i].0)
  }

  /** One more path: appended to its bucket's list, or a new list at the end for a new bucket. */
  function AddPath(groups: Groups, bucket: string, path: string): (r: Groups)
    ensures bucket !in Buckets(groups) ==> r == groups + [(bucket, [path])]
    ensures bucket in Buckets(groups) ==> |r| == |groups|
  {
    if bucket in Buckets(groups) then
      seq(|groups|, i requires 0 <= i < |groups| => if groups[i].0 == bucket then (bucket, groups[i].1 + [path]) else groups[i])
    else groups + [(bucket, [path])]
  }

  /** The paths of the files, grouped by bucket. */
  function GroupByBucket(files: seq<FileRow>): Groups {
    if |files| == 0 then []
    else
      var f := files[|files| - 1];
      AddPath(GroupByBucket(files[..|files| - 1]), f.bucket, f.path)
  }

  /** The paths of the files in one bucket, in file order. */
  function PathsIn(files: seq<FileRow>, bucket: string): (ps: seq<string>)
    ensures |ps| <= |files|
  {
    if |files| == 0 then []
    else
      var f := files[|files| - 1];
      PathsIn(files[..|files| - 1], bucket) + (if f.bucket == bucket then [f.path] else [])
  }

  function Total(groups: Groups): nat {
    if |groups| == 0 then 0 else Total(groups[..|groups| - 1]) + |groups[|groups| - 1].1|
  }

  lemma {:induction false} TotalAppendOne(groups: Groups, k: nat, path: string)
    requires k < |groups|
    ensures Total(groups[k := (groups[k].0, groups[k].1 + [path])]) == Total(groups) + 1
  {
    var g := groups[k := (groups[k].0, groups[k].1 + [path])];
    var n := |groups| - 1;
    if k < n {
      TotalAppendOne(groups[..n], k, path);
      assert g[..n] == groups[..n][k := (groups[k].0, groups[k].1 + [path])];
    } else {
      assert g[..n] == groups[..n];
    }
  }

  /** Each bucket of the input is a key exactly once. */
  lemma {:induction false} GroupKeys(files: seq<FileRow>)
    ensures var g := GroupByBucket(files);
      Distinct(Buckets(g)) && forall b :: b in Buckets(g) <==> PathsIn(files, b) != []
  {
    if |files| > 0 {
      var init := files[..|files| - 1];
      var f := files[|files| - 1];
      GroupKeys(init);
      var g0 := GroupByBucket(init);
      var g := GroupByBucket(files);
      if f.bucket in Buckets(g0) {
        assert Buckets(g) == Buckets(g0);
      } else {
        assert Buckets(g) == Buckets(g0) + [f.bucket];
      }
    }
  }

  /** Each key's list is that bucket's paths in input order. */
  lemma {:induction false} GroupLists(files: seq<FileRow>)
    ensures var g := GroupByBucket(files);
      forall i :: 0 <= i < |g| ==> g[i].1 == PathsIn(files, g[i].0)
  {
    if |files| > 0 {
      var init := files[..|files| - 1];
      var f := files[|files| - 1];
      GroupLists(init);
      GroupKeys(init);
      var g0 := GroupByBucket(init);
      if f.bucket !in Buckets(g0) {
        assert PathsIn(init, f.bucket) == [];
      }
    }
  }

  /** The lists together hold one path per file. */
  lemma {:induction false} GroupTotal(files: seq<FileRow>)
    ensures Total(GroupByBucket(files)) == |files|
  {
    if |files| > 0 {
      var init := files[..|files| - 1];
      var f := files[|files| - 1];
      GroupTotal(init);
      var g0 := GroupByBucket(init);
      var g := GroupByBucket(files);
      if f.bucket in Buckets(g0) {
        var k :| 0 <= k < |g0| && g0[k].0 == f.bucket;
        GroupKeys(init);
        assert g == g0[k := (f.bucket, g0[k].1 + [f.path])];
        TotalAppendOne(g0, k, f.path);
      } else {
        assert g[..|g0|] == g0;
      }
    }
  }

  /**
   * Grouping keeps every path: each bucket of the input is a key exactly once,
   * its list is that bucket's paths in input order (so never empty), and the
   * lists together hold as many paths as there are files.
   */
  lemma GroupByBucketFacts(files: seq<FileRow>)
    ensures var g := GroupByBucket(files);
      && Distinct(Buckets(g))
      && (forall b :: b in Buckets(g) <==> PathsIn(files, b) != [])
      && (forall i :: 0 <= i < |g| ==> g[i].1 == PathsIn(files, g[i].0) && g[i].1 != [])
      && Total(g) == |files|
  {
    GroupKeys(files);
    GroupLists(files);
    GroupTotal(files);
    var g := GroupByBucket(files);
    forall i | 0 <= i < |g| ensures g[i].1 != [] {
      assert g[i].0 in Buckets(g);
    }
  }

  /** Every bucket of the input appears among the keys. */
  lemma FileBucketIsKey(files: seq<FileRow>, i: nat)
    requires i < |files|
    ensures files[i].bucket in Buckets(GroupByBucket(files)) && files[i].path in PathsIn(files, files[i].bucket)
  {
    PathListed(files, i);
    GroupKeys(files);
  }

  /** A file's path is listed under its bucket. */
  lemma {:induction false} PathListed(files: seq<FileRow>, i: nat)
    requires i < |files|
    ensures files[i].path in PathsIn(files, files[i].bucket)
  {
    var n := |files| - 1;
    var b := files[i].bucket;
    if i < n {
      PathListed(files[..n], i);
      assert files[..n][i] == files[i];
      assert PathsIn(files, b) == PathsIn(files[..n], b) + (if files[n].bucket == b then [files[n].path] else []);
    }
  }

  /**
   * A grouped delete calls storage once per distinct bucket, and every object
   * of a file whose bucket does not fail is removed.
   */
  lemma GroupedDeleteReachesAll(found: seq<FileRow>, failing: set<string>)
    ensures Distinct(Buckets(GroupByBucket(found)))
    ensures forall f :: f in found && f.bucket !in failing ==> (f.bucket, f.path) in Removed(GroupByBucket(found), failing)
  {
    GroupByBucketFacts(found);
    var g := GroupByBucket(found);
    forall f | f in found && f.bucket !in failing ensures (f.bucket, f.path) in Removed(g, failing) {
      var i :| 0 <= i < |found| && found[i] == f;
      FileBucketIsKey(found, i);
      var k :| 0 <= k < |g| && g[k].0 == f.bucket;
      RemovedIff(g, failing, f.bucket, f.path);
    }
  }

  /** The storage calls a grouped delete issues: one `deleteMany` per bucket, in group order. */
  function DeleteCalls(groups: Groups): (calls: seq<StorageCall>)
    ensures |calls| == |groups|
    ensures forall i :: 0 <= i < |groups| ==> calls[i] == DeleteMany(groups[i].0, groups[i].1)
  {
    seq(|groups|, i requires 0 <= i < |groups| => DeleteMany(groups[i].0, groups[i].1))
  }

  /** The objects one group names. */
  function GroupObjects(group: (string, seq<string>)): set<(string, string)> {
    set p | p in group.1 :: (group.0, p)
  }

  /** The objects a grouped delete removes: those of every group whose bucket does not fail. */
  function Removed(groups: Groups, failing: set<string>): set<(string, string)> {
    if |groups| == 0 then {}
    else
      var g := groups[|groups| - 1];
      Removed(groups[..|groups| - 1], failing) + (if g.0 in failing then {} else GroupObjects(g))
  }

  /** The calls and removals of one more group. */
  lemma DeleteStep(groups: Groups, j: nat, failing: set<string>)
    requires j < |groups|
    ensures DeleteCalls(groups[..j + 1]) == DeleteCalls(groups[..j]) + [DeleteMany(groups[j].0, groups[j].1)]
    ensures Removed(groups[..j + 1], failing)
         == Removed(groups[..j], failing) + (if groups[j].0 in failing then {} else GroupObjects(groups[j]))
  {
    assert groups[..j + 1][..j] == groups[..j];
  }

  /** An object is removed exactly when one of its bucket's paths in the input names it and that bucket does not fail. */
  lemma {:induction false} RemovedIff(groups: Groups, failing: set<string>, b: string, p: string)
    ensures (b, p) in Removed(groups, failing) <==> b !in failing && exists i :: 0 <= i < |groups| && groups[i].0 == b && p in groups[i].1
  {
    if |groups| > 0 {
      var n := |groups| - 1;
      RemovedIff(groups[..n], failing, b, p);
      if (b, p) in Removed(groups, failing) && (b, p) !in Removed(groups[..n], failing) {
        assert groups[n].0 == b && p in groups[n].1;
      }
      if b !in failing && exists i :: 0 <= i < |groups| && groups[i].0 == b && p in groups[i].1 {
        var i :| 0 <= i < |groups| && groups[i].0 == b && p in groups[i].1;
        if i < n {
          assert groups[..n][i] == groups[i];
        } else {
          assert (b, p) in GroupObjects(groups[n]);
        }
      }
    }
  }

  /** The rows whose id is listed, in table order. */
  function WithIds(rows: seq<FileRow>, ids: seq<string>): (r: seq<FileRow>)
    ensures |r| <= |rows| && (ids == [] ==> r == [])
    ensures forall x :: x in r <==> x in rows && x.id in ids
  {
    if |rows| == 0 then []
    else
      var x := rows[|rows| - 1];
      WithIds(rows[..|rows| - 1], ids) + (if x.id in ids then [x] else [])
  }

  /** The rows whose id is not listed, in table order. */
  function WithoutIds(rows: seq<FileRow>, ids: seq<string>): (r: seq<FileRow>)
    ensures |r| <= |rows|
    ensures forall x :: x in r <==> x in rows && x.id !in ids
  {
    if |rows| == 0 then []
    else
      var x := rows[|rows| - 1];
      WithoutIds(rows[..|rows| - 1], ids) + (if x.id !in ids then [x] else [])
  }

  /**
   * The media rows left when the listed files are removed: the foreign key from
   * media to files cascades, so every row naming one of them goes too.
   */
  function WithoutFiles(media: seq<MediaRow>, fileIds: seq<string>): (r: seq<MediaRow>)
    ensures |r| <= |media|
    ensures forall m :: m in r <==> m in media && m.fileId !in fileIds
  {
    if |media| == 0 then []
    else
      var m := media[|media| - 1];
      WithoutFiles(media[..|media| - 1], fileIds) + (if m.fileId !in fileIds then [m] else [])
  }

  /** Every media row names a file of the table: the foreign key holds. */
  predicate MediaRefsExist(rows: seq<FileRow>, media: seq<MediaRow>) {
    forall m :: m in media ==> exists f :: f in rows && f.id == m.fileId
  }

  /**
   * Removing files together with the media rows the cascade takes keeps the
   * foreign key: no media row is left naming a removed file.
   */
  lemma CascadeKeepsRefs(rows: seq<FileRow>, media: seq<MediaRow>, fileIds: seq<string>)
    requires MediaRefsExist(rows, media)
    ensures MediaRefsExist(WithoutIds(rows, fileIds), WithoutFiles(media, fileIds))
    ensures forall m :: m in WithoutFiles(media, fileIds) ==> m.fileId !in fileIds
  {
    var left := WithoutIds(rows, fileIds);
    forall m | m in WithoutFiles(media, fileIds) ensures exists f :: f in left && f.id == m.fileId {
      var f :| f in rows && f.id == m.fileId;
      assert f in left;
    }
  }

  /** Removing the listed rows drops exactly as many rows as listing them finds. */
  lemma {:induction false} SplitByIds(rows: seq<FileRow>, ids: seq<string>)
    ensures |WithIds(rows, ids)| + |WithoutIds(rows, ids)| == |rows|
  {
    if |rows| > 0 {
      SplitByIds(rows[..|rows| - 1], ids);
    }
  }

  /** The rows with a listed id get the deleted flag `d`; every other row is unchanged. */
  function MarkDeleted(rows: seq<FileRow>, ids: seq<string>, d: bool): (r: seq<FileRow>)
    ensures |r| == |rows|
    ensures forall i :: 0 <= i < |rows| ==> r[i] == (if rows[i].id in ids then rows[i].(deleted := d) else rows[i])
  {
    seq(|rows|, i requires 0 <= i < |rows| => if rows[i].id in ids then rows[i].(deleted := d) else rows[i])
  }

  function IdsOf(rows: seq<FileRow>): (ids: seq<string>)
    ensures |ids| == |rows| && forall i :: 0 <= i < |rows| ==> ids[i] == rows[i].id
  {
    seq(|rows|, i requires 0 <= i < |rows| => rows[i].id)
  }

  /** The first `n` elements, or all of them when there are fewer: the effect of `take`. */
  function Take<T>(xs: seq<T>, n: nat): (r: seq<T>)
    ensures |r| <= n && |r| <= |xs|
    ensures |xs| <= n ==> r == xs
    ensures r == xs[..|r|]
  {
    if |xs| <= n then xs else xs[..n]
  }

  /** The first group whose bucket fails. */
  function FirstFailing(groups: Groups, failing: set<string>): (r: Option<nat>)
    ensures r.Some? ==> r.value < |groups| && groups[r.value].0 in failing
                        && forall i :: 0 <= i < r.value ==> groups[i].0 !in failing
    ensures r.None? ==> forall i :: 0 <= i < |groups| ==> groups[i].0 !in failing
  {
    if |groups| == 0 then None
    else if groups[0].0 in failing then Some(0)
    else
      match FirstFailing(groups[1..], failing)
      case None => None
      case Some(k) => Some(k + 1)
  }

  /** Taking away two sets in turn takes away their union. */
  lemma MinusMore<T>(a: set<T>, r: set<T>, g: set<T>)
    ensures a - r - g == a - (r + g)
  {
  }

  /** The first failing group is the one after a run of groups that do not fail, if there is one. */
  lemma FirstFailingAt(groups: Groups, failing: set<string>, j: nat)
    requires j <= |groups| && forall i :: 0 <= i < j ==> groups[i].0 !in failing
    requires j < |groups| ==> groups[j].0 in failing
    ensures FirstFailing(groups, failing) == if j < |groups| then Some(j) else None
  {
    var r := FirstFailing(groups, failing);
    if r.Some? {
      assert r.value >= j;
    }
  }

  /** Grouping paths by bucket, one file at a time. */
  method GroupPaths(files: seq<FileRow>) returns (groups: Groups)
    ensures groups == GroupByBucket(files)
  {
    groups := [];
    for i := 0 to |files|
      invariant groups == GroupByBucket(files[..i])
    {
      assert files[..i + 1][..i] == files[..i];
      var f := files[i];
      if f.bucket in Buckets(groups) {
        groups := seq(|groups|, k requires 0 <= k < |groups| =>
          if groups[k].0 == f.bucket then (f.bucket, groups[k].1 + [f.path]) else groups[k]);
      } else {
        groups := groups + [(f.bucket, [f.path])];
      }
    }
    assert files[..|files|] == files;
  }

  /** The file and media tables and the storage provider's objects, with the log of calls made to the provider. */
  class FileStore {
    var rows: seq<FileRow>
    var objects: set<(string, string)>
    var log: seq<StorageCall>
    var media: seq<MediaRow>

    constructor (rows: seq<FileRow>, objects: set<(string, string)>, media: seq<MediaRow>)
      ensures this.rows == rows && this.objects == objects && log == [] && this.media == media
    {
      this.rows := rows;
      this.objects := objects;
      log := [];
      this.media := media;
    }

    /**
     * One `deleteMany` per group, in order; the call for a failing bucket is made
     * and its error only logged, so its objects stay.
     */
    method DeleteGrouped(groups: Groups, failing: set<string>)
      modifies this
      ensures log == old(log) + DeleteCalls(groups)
      ensures objects == old(objects) - Removed(groups, failing)
      ensures rows == old(rows) && media == old(media)
    {
      for j := 0 to |groups|
        invariant log == old(log) + DeleteCalls(groups[..j])
        invariant objects == old(objects) - Removed(groups[..j], failing)
        invariant rows == old(rows) && media == old(media)
      {
        DeleteStep(groups, j, failing);
        var (b, paths) := groups[j];
        log := log + [DeleteMany(b, paths)];
        if b !in failing {
          objects := objects - GroupObjects((b, paths));
        }
      }
      assert groups[..|groups|] == groups;
    }

    /**
     * One `deleteMany` per group, in order, with no error caught: the first
     * failing bucket's call ends the run and no later bucket is reached.
     */
    method DeleteGroupedUntilFailure(groups: Groups, failing: set<string>) returns (failedAt: Option<nat>)
      modifies this
      ensures failedAt == FirstFailing(groups, failing)
      ensures failedAt.Some? ==>
        && log == old(log) + DeleteCalls(groups[..failedAt.value + 1])
        && objects == old(objects) - Removed(groups[..failedAt.value], failing)
      ensures failedAt.None? ==> log == old(log) + DeleteCalls(groups) && objects == old(objects) - Removed(groups, failing)
      ensures rows == old(rows) && media == old(media)
    {
      var calls, left;
      calls, left, failedAt := DeleteRun(groups, failing, log, objects);
      log, objects := calls, left;
    }

    /** The calls and the objects left by the run of `DeleteGroupedUntilFailure` from a log and a set of objects. */
    static method DeleteRun(groups: Groups, failing: set<string>, log0: seq<StorageCall>, objects0: set<(string, string)>)
      returns (calls: seq<StorageCall>, left: set<(string, string)>, failedAt: Option<nat>)
      ensures failedAt == FirstFailing(groups, failing)
      ensures failedAt.Some? ==>
        && calls == log0 + DeleteCalls(groups[..failedAt.value + 1])
        && left == objects0 - Removed(groups[..failedAt.value], failing)
      ensures failedAt.None? ==> calls == log0 + DeleteCalls(groups) && left == objects0 - Removed(groups, failing)
    {
      calls := log0;
      left := objects0;
      for j := 0 to |groups|
        invariant calls == log0 + DeleteCalls(groups[..j])
        invariant left == objects0 - Removed(groups[..j], failing)
        invariant forall i :: 0 <= i < j ==> groups[i].0 !in failing
      {
        DeleteStep(groups, j, failing);
        var (b, paths) := groups[j];
        calls := calls + [DeleteMany(b, paths)];
        if b in failing {
          FirstFailingAt(groups, failing, j);
          return calls, left, Some(j);
        }
        MinusMore(objects0, Removed(groups[..j], failing), GroupObjects((b, paths)));
        left := left - GroupObjects((b, paths));
      }
      assert groups[..|groups|] == groups;
      FirstFailingAt(groups, failing, |groups|);
      failedAt := None;
    }
  }
}
