/**
 * Uploading files to object storage with a row in the file table, and deleting
 * them softly (a flag on the row) or for good (the object and the row).
 */
module Files {
  import opened Wrappers
  import opened Strings
  import opened Collections
  import opened Storage

  datatype BufferedFile = BufferedFile(originalname: string, mimetype: string, size: nat)

  /** Upload options; an absent field takes the default of the upload. */
  datatype UploadOptions = UploadOptions(folder: Option<string>, optimize: Option<bool>, retentionDays: Option<int>)

  /** The provider refusing an upload, the table refusing a save, the table refusing a removal. */
  datatype FileError = UploadFailed | SaveFailed | RemoveFailed

  /** One day in milliseconds. */
  const Day := 86400000

  const DefaultFolder := "general"

  /** The last position of `c` in `s`, or -1. */
  function LastIndexOf(s: string, c: char): (k: int)
    ensures -1 <= k < |s|
    ensures k >= 0 ==> s[k] == c && c !in s[k + 1..]
    ensures k == -1 ==> c !in s
  {
    if |s| == 0 then -1
    else if s[|s| - 1] == c then |s| - 1
    else LastIndexOf(s[..|s| - 1], c)
  }

  function StripTrailingSlashes(s: string): (r: string)
    ensures |r| <= |s| && r == s[..|r|]
    ensures r == [] || r[|r| - 1] != '/'
  {
    if |s| > 0 && s[|s| - 1] == '/' then StripTrailingSlashes(s[..|s| - 1]) else s
  }

  /** The last path segment, trailing slashes ignored. */
  function Basename(s: string): (b: string)
    ensures '/' !in b
  {
    var t := StripTrailingSlashes(s);
    t[LastIndexOf(t, '/') + 1..]
  }

  /**
   * The extension of a POSIX path: from the last '.' of its last segment to the
   * end; nothing when that segment has no '.', starts with its only '.', or is "..".
   */
  function Extname(path: string): (ext: string)
    ensures ext == [] || (ext[0] == '.' && '.' !in ext[1..] && '/' !in ext)
  {
    var base := Basename(path);
    var k := LastIndexOf(base, '.');
    if k <= 0 || base == ".." then "" else base[k..]
  }

  /**
   * For a plain file name: no '.' and a leading only '.' (a dot-file) give no
   * extension; otherwise it runs from the last '.' to the end.
   */
  lemma ExtnameOfFileName(name: string)
    requires '/' !in name
    ensures '.' !in name ==> Extname(name) == ""
    ensures |name| > 0 && name[0] == '.' && '.' !in name[1..] ==> Extname(name) == ""
    ensures forall k :: 0 < k < |name| && name[k] == '.' && '.' !in name[k + 1..] && name != ".." ==> Extname(name) == name[k..]
  {
    assert StripTrailingSlashes(name) == name;
    assert LastIndexOf(name, '/') == -1;
    assert Basename(name) == name;
    var j := LastIndexOf(name, '.');
    if j >= 0 {
      assert name[j] in name;
    }
    if |name| > 0 && name[0] == '.' && '.' !in name[1..] {
      LastIndexAt(name, '.', 0);
    }
    forall k | 0 < k < |name| && name[k] == '.' && '.' !in name[k + 1..] && name != ".."
      ensures Extname(name) == name[k..]
    {
      LastIndexAt(name, '.', k);
    }
  }

  /** A position holding `c` with no `c` after it is the last position of `c`. */
  lemma {:induction false} LastIndexAt(s: string, c: char, k: nat)
    requires k < |s| && s[k] == c && c !in s[k + 1..]
    ensures LastIndexOf(s, c) == k
    decreases |s|
  {
    if k < |s| - 1 {
      var t := s[..|s| - 1];
      assert s[|s| - 1] == s[k + 1..][|s| - 2 - k];
      assert t[k + 1..] == s[k + 1..][..|s| - 2 - k];
      LastIndexAt(t, c, k);
    }
  }

  /** Whether `s` begins with `prefix`. */
  predicate StartsWith(s: string, prefix: string) {
    |prefix| <= |s| && s[..|prefix|] == prefix
  }

  /**
   * The stored type and size: an image the caller lets be optimized and the
   * encoder turns into WebP (`transcoded` is its new size; `None` when it fails)
   * becomes `image/webp`; anything else stays as uploaded.
   */
  function Optimized(file: BufferedFile, optimize: bool, transcoded: Option<nat>): (r: (string, nat))
    ensures r.0 == "image/webp" || r == (file.mimetype, file.size)
  {
    if StartsWith(file.mimetype, "image/") && optimize && transcoded.Some? then ("image/webp", transcoded.value)
    else (file.mimetype, file.size)
  }

  function Extension(mimetype: string, originalname: string): string {
    if mimetype == "image/webp" then ".webp" else Extname(originalname)
  }

  function ObjectKey(folder: Option<string>, fileName: string): string {
    folder.GetOr(DefaultFolder) + "/" + fileName
  }

  /** The stored type, the stored name and the storage key of an upload. */
  function StoredType(file: BufferedFile, options: UploadOptions, transcoded: Option<nat>): string {
    Optimized(file, options.optimize.GetOr(true), transcoded).0
  }

  function StoredName(file: BufferedFile, options: UploadOptions, transcoded: Option<nat>, uuid: string): string {
    uuid + Extension(StoredType(file, options, transcoded), file.originalname)
  }

  function UploadKey(file: BufferedFile, options: UploadOptions, transcoded: Option<nat>, uuid: string): string {
    ObjectKey(options.folder, StoredName(file, options, transcoded, uuid))
  }

  /** An optimized image is stored as `.webp`, anything else under its original type and extension. */
  lemma UploadExtension(file: BufferedFile, options: UploadOptions, transcoded: Option<nat>)
    ensures var mime := StoredType(file, options, transcoded);
      && (StartsWith(file.mimetype, "image/") && options.optimize != Some(false) && transcoded.Some? ==>
            mime == "image/webp" && Extension(mime, file.originalname) == ".webp")
      && (mime != "image/webp" ==> mime == file.mimetype && Extension(mime, file.originalname) == Extname(file.originalname))
  {
  }

  /** The key is the folder (`general` by default) and the stored name, and it splits back into the two. */
  lemma UploadKeySplits(file: BufferedFile, options: UploadOptions, transcoded: Option<nat>, uuid: string)
    requires '/' !in uuid
    ensures var key := UploadKey(file, options, transcoded, uuid);
      && (options.folder.None? ==> StartsWith(key, "general/"))
      && ('/' !in options.folder.GetOr(DefaultFolder) ==>
            Split(key, '/') == [options.folder.GetOr(DefaultFolder), StoredName(file, options, transcoded, uuid)])
  {
    var name := StoredName(file, options, transcoded, uuid);
    var folder := options.folder.GetOr(DefaultFolder);
    var ext := Extension(StoredType(file, options, transcoded), file.originalname);
    assert '/' !in ext;
    assert name == uuid + ext;
    assert '/' !in name;
    var key := UploadKey(file, options, transcoded, uuid);
    assert key == folder + ['/'] + name;
    if '/' !in folder {
      SplitAfterPiece(folder, name, '/');
      SplitNoSeparator(name, '/');
    }
    if options.folder.None? {
      assert key[..|"general/"|] == "general/";
    }
  }

  function ExpiresAt(retentionDays: Option<int>, now: int): Option<int> {
    if retentionDays.Some? && retentionDays.value != 0 then Some(now + retentionDays.value * Day) else None
  }

  function Uploader(userId: Option<string>): Option<string> {
    if userId.Some? && userId.value != "" then userId else None
  }

  /** The row an upload saves. */
  function UploadRow(bucket: string, urlOf: (string, string) -> string, file: BufferedFile, userId: Option<string>,
                     options: UploadOptions, transcoded: Option<nat>, uuid: string, rowId: string, now: int): FileRow
  {
    var key := UploadKey(file, options, transcoded, uuid);
    FileRow(rowId, file.originalname, StoredName(file, options, transcoded, uuid), StoredType(file, options, transcoded),
            Optimized(file, options.optimize.GetOr(true), transcoded).1, bucket, key, urlOf(bucket, key),
            ExpiresAt(options.retentionDays, now), Uploader(userId), now, false)
  }

  /** The position of the first row with the id, deleted rows included. */
  function FindById(rows: seq<FileRow>, id: string): (r: Option<nat>)
    ensures r.Some? ==> r.value < |rows| && rows[r.value].id == id && forall j :: 0 <= j < r.value ==> rows[j].id != id
    ensures r.None? ==> forall j :: 0 <= j < |rows| ==> rows[j].id != id
  {
    if |rows| == 0 then None
    else if rows[0].id == id then Some(0)
    else
      match FindById(rows[1..], id)
      case None => None
      case Some(k) => Some(k + 1)
  }

  class FilesService {
    const store: FileStore
    /** The provider's bucket and the public URL it gives an object. */
    const bucket: string
    const urlOf: (string, string) -> string

    constructor (store: FileStore, bucket: string, urlOf: (string, string) -> string)
      ensures this.store == store && this.bucket == bucket && this.urlOf == urlOf
    {
      this.store := store;
      this.bucket := bucket;
      this.urlOf := urlOf;
    }

    /** The type and size after optimization, and the stored name and key they give. */
    static method Naming(file: BufferedFile, options: UploadOptions, transcoded: Option<nat>, uuid: string)
      returns (mimetype: string, size: nat, fileName: string, key: string)
      ensures (mimetype, size) == Optimized(file, options.optimize.GetOr(true), transcoded)
      ensures fileName == StoredName(file, options, transcoded, uuid)
      ensures key == UploadKey(file, options, transcoded, uuid)
    {
      var optimize := options.optimize.GetOr(true);
      mimetype := file.mimetype;
      size := file.size;
      if StartsWith(mimetype, "image/") && optimize {
        if transcoded.Some? {
          mimetype := "image/webp";
          size := transcoded.value;
        }
      }
      var ext := if mimetype == "image/webp" then ".webp" else Extname(file.originalname);
      fileName := uuid + ext;
      key := options.folder.GetOr(DefaultFolder) + "/" + fileName;
    }

    /** The row to save, from the stored type, size, name and key. */
    method NewRow(file: BufferedFile, userId: Option<string>, options: UploadOptions, transcoded: Option<nat>,
                  uuid: string, rowId: string, now: int, mimetype: string, size: nat, fileName: string, key: string)
      returns (row: FileRow)
      requires (mimetype, size) == Optimized(file, options.optimize.GetOr(true), transcoded)
      requires fileName == StoredName(file, options, transcoded, uuid)
      requires key == UploadKey(file, options, transcoded, uuid)
      ensures row == UploadRow(bucket, urlOf, file, userId, options, transcoded, uuid, rowId, now)
      ensures row.bucket == bucket && row.path == key
    {
      var expiresAt: Option<int> := None;
      if options.retentionDays.Some? && options.retentionDays.value != 0 {
        expiresAt := Some(now + options.retentionDays.value * Day);
      }
      assert expiresAt == ExpiresAt(options.retentionDays, now);
      assert mimetype == StoredType(file, options, transcoded);
      assert size == Optimized(file, options.optimize.GetOr(true), transcoded).1;
      row := FileRow(rowId, file.originalname, fileName, mimetype, size, bucket, key, urlOf(bucket, key),
                     expiresAt, Uploader(userId), now, false);
    }

    /**
     * `uploadFile`: the (possibly optimized) content is uploaded under
     * `folder/uuid.ext`, then the row is saved. A refused upload is passed on with
     * nothing stored. When saving fails the object is deleted again (a failing
     * delete is only logged) and the failure is passed on.
     */
    method UploadFile(file: BufferedFile, userId: Option<string>, options: UploadOptions, transcoded: Option<nat>,
                      uuid: string, rowId: string, now: int, uploadFails: bool, saveFails: bool, rollbackFails: bool)
      returns (r: Result<FileRow, FileError>)
      modifies store
      ensures store.media == old(store.media)
      ensures var key := UploadKey(file, options, transcoded, uuid);
        if uploadFails then
          && r == Failure(UploadFailed)
          && store.rows == old(store.rows) && store.objects == old(store.objects)
          && store.log == old(store.log) + [Upload(bucket, key)]
        else if saveFails then
          && r == Failure(SaveFailed)
          && store.rows == old(store.rows)
          && store.log == old(store.log) + [Upload(bucket, key), Delete(bucket, key)]
          && store.objects == (if rollbackFails then old(store.objects) + {(bucket, key)} else old(store.objects) - {(bucket, key)})
        else
          && r == Success(UploadRow(bucket, urlOf, file, userId, options, transcoded, uuid, rowId, now))
          && store.rows == old(store.rows) + [r.value]
          && store.log == old(store.log) + [Upload(bucket, key)]
          && store.objects == old(store.objects) + {(bucket, key)}
    {
      var key, row := Prepare(file, userId, options, transcoded, uuid, rowId, now);
      store.log := store.log + [Upload(bucket, key)];
      if uploadFails {
        return Failure(UploadFailed);
      }
      store.objects := store.objects + {(bucket, key)};
      r := SaveOrRollback(row, saveFails, rollbackFails);
    }

    /** The key an upload goes under and the row it saves, neither of which depends on the storage. */
    method Prepare(file: BufferedFile, userId: Option<string>, options: UploadOptions, transcoded: Option<nat>,
                   uuid: string, rowId: string, now: int)
      returns (key: string, row: FileRow)
      ensures key == UploadKey(file, options, transcoded, uuid)
      ensures row == UploadRow(bucket, urlOf, file, userId, options, transcoded, uuid, rowId, now)
      ensures row.bucket == bucket && row.path == key
    {
      var mimetype, size, fileName;
      mimetype, size, fileName, key := Naming(file, options, transcoded, uuid);
      row := NewRow(file, userId, options, transcoded, uuid, rowId, now, mimetype, size, fileName, key);
    }

    /**
     * The `try` block of `uploadFile`: the row is saved; when saving fails the
     * uploaded object is deleted again (a failing delete is only logged) and the
     * failure is passed on.
     */
    method SaveOrRollback(row: FileRow, saveFails: bool, rollbackFails: bool) returns (r: Result<FileRow, FileError>)
      modifies store
      ensures store.media == old(store.media)
      ensures saveFails ==>
        && r == Failure(SaveFailed)
        && store.rows == old(store.rows)
        && store.log == old(store.log) + [Delete(row.bucket, row.path)]
        && store.objects == (if rollbackFails then old(store.objects) else old(store.objects) - {(row.bucket, row.path)})
      ensures !saveFails ==>
        && r == Success(row)
        && store.rows == old(store.rows) + [row]
        && store.log == old(store.log) && store.objects == old(store.objects)
    {
      if saveFails {
        store.log := store.log + [Delete(row.bucket, row.path)];
        if !rollbackFails {
          store.objects := store.objects - {(row.bucket, row.path)};
        }
        return Failure(SaveFailed);
      }
      store.rows := store.rows + [row];
      r := Success(row);
    }

    /** `softDeleteFile`: flags the file's row; true exactly when a row had that id. */
    method SoftDeleteFile(fileId: string) returns (ok: bool)
      modifies store
      ensures store.rows == MarkDeleted(old(store.rows), [fileId], true)
      ensures store.objects == old(store.objects) && store.log == old(store.log) && store.media == old(store.media)
      ensures ok <==> exists i :: 0 <= i < |old(store.rows)| && old(store.rows)[i].id == fileId
    {
      var affected := |WithIds(store.rows, [fileId])|;
      if affected > 0 {
        assert WithIds(store.rows, [fileId])[0] in store.rows;
      }
      store.rows := MarkDeleted(store.rows, [fileId], true);
      ok := affected > 0;
    }

    /**
     * `hardDeleteFile`: false for an unknown id; otherwise the object is deleted
     * (a failing delete is only logged), then the row is removed, taking the media
     * rows that name it with it. A failing removal is passed on.
     */
    method HardDeleteFile(fileId: string, storageFails: bool, removeFails: bool) returns (r: Result<bool, FileError>)
      modifies store
      ensures FindById(old(store.rows), fileId).None? ==>
        && r == Success(false) && store.rows == old(store.rows) && store.objects == old(store.objects)
        && store.log == old(store.log) && store.media == old(store.media)
      ensures FindById(old(store.rows), fileId).Some? ==>
        var f := old(store.rows)[FindById(old(store.rows), fileId).value];
        && store.log == old(store.log) + [Delete(f.bucket, f.path)]
        && store.objects == (if storageFails then old(store.objects) else old(store.objects) - {(f.bucket, f.path)})
        && (removeFails ==> r == Failure(RemoveFailed) && store.rows == old(store.rows) && store.media == old(store.media))
        && (!removeFails ==>
              && r == Success(true)
              && store.rows == WithoutIds(old(store.rows), [fileId])
              && store.media == WithoutFiles(old(store.media), [fileId]))
    {
      var found := FindById(store.rows, fileId);
      if found.None? {
        return Success(false);
      }
      var f := store.rows[found.value];
      store.log := store.log + [Delete(f.bucket, f.path)];
      if !storageFails {
        store.objects := store.objects - {(f.bucket, f.path)};
      }
      if removeFails {
        return Failure(RemoveFailed);
      }
      store.rows := WithoutIds(store.rows, [fileId]);
      store.media := WithoutFiles(store.media, [fileId]);
      r := Success(true);
    }

    /** `softDeleteMany`: false and nothing done for no ids; otherwise flags the listed rows, true when there were any. */
    method SoftDeleteMany(fileIds: seq<string>) returns (ok: bool)
      modifies store
      ensures store.objects == old(store.objects) && store.log == old(store.log) && store.media == old(store.media)
      ensures fileIds == [] ==> !ok && store.rows == old(store.rows)
      ensures fileIds != [] ==> store.rows == MarkDeleted(old(store.rows), fileIds, true)
      ensures ok <==> WithIds(old(store.rows), fileIds) != []
    {
      if |fileIds| == 0 {
        return false;
      }
      var affected := |WithIds(store.rows, fileIds)|;
      store.rows := MarkDeleted(store.rows, fileIds, true);
      ok := affected > 0;
    }

    /**
     * `hardDeleteMany`: false for no ids or no matching row; otherwise one
     * `deleteMany` per bucket (a failing bucket is only logged), then the rows are
     * removed with the media rows that name them; a failing removal is passed on.
     */
    method HardDeleteMany(fileIds: seq<string>, failing: set<string>, removeFails: bool) returns (r: Result<bool, FileError>)
      modifies store
      ensures var found := WithIds(old(store.rows), fileIds);
        if fileIds == [] || found == [] then
          && r == Success(false) && store.rows == old(store.rows) && store.objects == old(store.objects)
          && store.log == old(store.log) && store.media == old(store.media)
        else
          var groups := GroupByBucket(found);
          && store.log == old(store.log) + DeleteCalls(groups)
          && store.objects == old(store.objects) - Removed(groups, failing)
          && (removeFails ==> r == Failure(RemoveFailed) && store.rows == old(store.rows) && store.media == old(store.media))
          && (!removeFails ==>
                && r == Success(true)
                && store.rows == WithoutIds(old(store.rows), fileIds)
                && store.media == WithoutFiles(old(store.media), fileIds))
    {
      if |fileIds| == 0 {
        return Success(false);
      }
      var files := WithIds(store.rows, fileIds);
      if |files| == 0 {
        return Success(false);
      }
      var filesByBucket := GroupPaths(files);
      store.DeleteGrouped(filesByBucket, failing);
      if removeFails {
        return Failure(RemoveFailed);
      }
      store.rows := WithoutIds(store.rows, fileIds);
      store.media := WithoutFiles(store.media, fileIds);
      r := Success(true);
    }
  }
}
