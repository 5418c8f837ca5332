/**
 * Media rows attach stored files to a target (a user, a message, a post) under a
 * media type. A target keeps either one current media of a type (an avatar) or an
 * ordered list of them (attachments).
 */
module Media {
  import opened Wrappers
  import opened Storage
  import opened Files

  predicate IsFor(m: MediaRow, targetId: string, kind: MediaType) {
    m.targetId == targetId && m.kind == kind
  }

  /** The rows of a target and type, deleted rows only when asked for, in table order. */
  function FindFor(media: seq<MediaRow>, targetId: string, kind: MediaType, withDeleted: bool): (r: seq<MediaRow>)
    ensures |r| <= |media|
  {
    if |media| == 0 then []
    else
      var m := media[|media| - 1];
      FindFor(media[..|media| - 1], targetId, kind, withDeleted)
        + (if IsFor(m, targetId, kind) && (withDeleted || !m.deleted) then [m] else [])
  }

  /** The rows found are exactly the table's rows of the target and type, deleted ones only when asked for. */
  lemma {:induction false} FindForMembers(media: seq<MediaRow>, targetId: string, kind: MediaType, withDeleted: bool)
    ensures forall m :: m in FindFor(media, targetId, kind, withDeleted) <==>
      m in media && IsFor(m, targetId, kind) && (withDeleted || !m.deleted)
  {
    if |media| > 0 {
      var n := |media| - 1;
      FindForMembers(media[..n], targetId, kind, withDeleted);
      assert media == media[..n] + [media[n]];
    }
  }

  /** The media a target currently shows for a type. */
  function LiveFor(media: seq<MediaRow>, targetId: string, kind: MediaType): seq<MediaRow> {
    FindFor(media, targetId, kind, false)
  }

  /** The rows for one file each, numbered from `firstId` and ordered by position. */
  function Attached(firstId: nat, fileIds: seq<string>, targetId: string, kind: MediaType): (r: seq<MediaRow>)
    ensures |r| == |fileIds|
  {
    seq(|fileIds|, i requires 0 <= i < |fileIds| => MediaRow(firstId + i, fileIds[i], targetId, kind, i, false))
  }

  /** Every row of the target and type gets the deleted flag `d`; every other row is unchanged. */
  function SetDeletedFor(media: seq<MediaRow>, targetId: string, kind: MediaType, d: bool): (r: seq<MediaRow>)
    ensures |r| == |media|
    ensures forall i :: 0 <= i < |media| ==> r[i] == (if IsFor(media[i], targetId, kind) then media[i].(deleted := d) else media[i])
  {
    seq(|media|, i requires 0 <= i < |media| => if IsFor(media[i], targetId, kind) then media[i].(deleted := d) else media[i])
  }

  /** The rows with one of the ids get the deleted flag `d`. */
  function SetDeletedIds(media: seq<MediaRow>, ids: set<nat>, d: bool): (r: seq<MediaRow>)
    ensures |r| == |media|
    ensures forall i :: 0 <= i < |media| ==> r[i] == (if media[i].id in ids then media[i].(deleted := d) else media[i])
  {
    seq(|media|, i requires 0 <= i < |media| => if media[i].id in ids then media[i].(deleted := d) else media[i])
  }

  /** The rows without one of the ids, in table order. */
  function WithoutMediaIds(media: seq<MediaRow>, ids: set<nat>): (r: seq<MediaRow>)
    ensures forall m :: m in r <==> m in media && m.id !in ids
  {
    if |media| == 0 then []
    else
      var m := media[|media| - 1];
      WithoutMediaIds(media[..|media| - 1], ids) + (if m.id !in ids then [m] else [])
  }

  function MediaIds(medias: seq<MediaRow>): set<nat> {
    set m | m in medias :: m.id
  }

  /** The file ids of the rows, empty ones dropped, in row order. */
  function FileIdsOf(medias: seq<MediaRow>): (ids: seq<string>)
    ensures forall x :: x in ids <==> x != "" && exists m :: m in medias && m.fileId == x
  {
    if |medias| == 0 then []
    else
      var m := medias[|medias| - 1];
      var init := FileIdsOf(medias[..|medias| - 1]);
      assert forall m' :: m' in medias <==> m' in medias[..|medias| - 1] || m' == m by {
        assert medias == medias[..|medias| - 1] + [m];
      }
      init + (if m.fileId != "" then [m.fileId] else [])
  }

  /** Attaching adds exactly the new rows, in file order, after what the target already showed. */
  lemma {:induction false} AttachAppends(media: seq<MediaRow>, created: seq<MediaRow>, targetId: string, kind: MediaType)
    requires forall i :: 0 <= i < |created| ==> IsFor(created[i], targetId, kind) && !created[i].deleted
    ensures LiveFor(media + created, targetId, kind) == LiveFor(media, targetId, kind) + created
    decreases |created|
  {
    if |created| > 0 {
      var n := |created| - 1;
      AttachAppends(media, created[..n], targetId, kind);
      AttachStep(media, created, targetId, kind);
    } else {
      assert media + created == media;
    }
  }

  /** The step of `AttachAppends`: one more live row of the target shows up last. */
  lemma AttachStep(media: seq<MediaRow>, created: seq<MediaRow>, targetId: string, kind: MediaType)
    requires |created| > 0
    requires var last := created[|created| - 1]; IsFor(last, targetId, kind) && !last.deleted
    requires var pre := created[..|created| - 1];
      LiveFor(media + pre, targetId, kind) == LiveFor(media, targetId, kind) + pre
    ensures LiveFor(media + created, targetId, kind) == LiveFor(media, targetId, kind) + created
  {
    var n := |created| - 1;
    var pre := created[..n];
    var all := media + created;
    assert all[..|all| - 1] == media + pre;
    FindForLast(all, targetId, kind, false);
    SnocAssoc(LiveFor(media, targetId, kind), created);
  }

  /** Appending a list's last element after its front is appending the list. */
  lemma SnocAssoc<T>(xs: seq<T>, ys: seq<T>)
    requires |ys| > 0
    ensures (xs + ys[..|ys| - 1]) + [ys[|ys| - 1]] == xs + ys
  {
    assert ys[..|ys| - 1] + [ys[|ys| - 1]] == ys;
  }

  /** After a single-media update the new row is the only one the target shows for the type; other targets are untouched. */
  lemma {:induction false} SingleMediaIsOnly(media: seq<MediaRow>, targetId: string, kind: MediaType, m: MediaRow)
    requires IsFor(m, targetId, kind) && !m.deleted
    ensures LiveFor(SetDeletedFor(media, targetId, kind, true) + [m], targetId, kind) == [m]
    ensures forall t, k :: !(t == targetId && k == kind) ==>
      LiveFor(SetDeletedFor(media, targetId, kind, true) + [m], t, k) == LiveFor(media, t, k)
  {
    var after := SetDeletedFor(media, targetId, kind, true);
    NoneLiveAfterDelete(media, targetId, kind);
    assert (after + [m])[..|after|] == after;
    forall t, k | !(t == targetId && k == kind)
      ensures LiveFor(after + [m], t, k) == LiveFor(media, t, k)
    {
      OtherTargetsKept(media, targetId, kind, t, k);
    }
  }

  lemma {:induction false} NoneLiveAfterDelete(media: seq<MediaRow>, targetId: string, kind: MediaType)
    ensures LiveFor(SetDeletedFor(media, targetId, kind, true), targetId, kind) == []
  {
    if |media| > 0 {
      var n := |media| - 1;
      NoneLiveAfterDelete(media[..n], targetId, kind);
      assert SetDeletedFor(media, targetId, kind, true)[..n] == SetDeletedFor(media[..n], targetId, kind, true);
    }
  }

  lemma {:induction false} OtherTargetsKept(media: seq<MediaRow>, targetId: string, kind: MediaType, t: string, k: MediaType)
    requires !(t == targetId && k == kind)
    ensures LiveFor(SetDeletedFor(media, targetId, kind, true), t, k) == LiveFor(media, t, k)
  {
    if |media| > 0 {
      var n := |media| - 1;
      OtherTargetsKept(media[..n], targetId, kind, t, k);
      OtherTargetStep(media, targetId, kind, t, k);
    }
  }

  /** The step of `OtherTargetsKept`: the last row reads the same for another target before and after. */
  lemma OtherTargetStep(media: seq<MediaRow>, targetId: string, kind: MediaType, t: string, k: MediaType)
    requires |media| > 0 && !(t == targetId && k == kind)
    requires var n := |media| - 1;
      LiveFor(SetDeletedFor(media[..n], targetId, kind, true), t, k) == LiveFor(media[..n], t, k)
    ensures LiveFor(SetDeletedFor(media, targetId, kind, true), t, k) == LiveFor(media, t, k)
  {
    var n := |media| - 1;
    var after := SetDeletedFor(media, targetId, kind, true);
    SetDeletedPrefix(media, targetId, kind, true);
    FindForLast(after, t, k, false);
    FindForLast(media, t, k, false);
    var m := media[n];
    assert after[n] == if IsFor(m, targetId, kind) then m.(deleted := true) else m;
    assert IsFor(after[n], t, k) <==> IsFor(m, t, k);
    assert IsFor(m, t, k) ==> after[n] == m;
  }

  /** Restoring a target's media undoes soft-removing it, when all of them were live before. */
  lemma RestoreUndoesRemove(media: seq<MediaRow>, targetId: string, kind: MediaType)
    requires forall m :: m in media && IsFor(m, targetId, kind) ==> !m.deleted
    ensures SetDeletedFor(SetDeletedFor(media, targetId, kind, true), targetId, kind, false) == media
  {
    var r := SetDeletedFor(SetDeletedFor(media, targetId, kind, true), targetId, kind, false);
    forall i | 0 <= i < |media| ensures r[i] == media[i] {
      assert media[i] in media;
    }
  }

  /** Restoring files undoes soft-deleting them, when the listed files were live before. */
  lemma FilesRestoreUndoesDelete(rows: seq<FileRow>, ids: seq<string>)
    requires forall f :: f in rows && f.id in ids ==> !f.deleted
    ensures MarkDeleted(MarkDeleted(rows, ids, true), ids, false) == rows
  {
    var r := MarkDeleted(MarkDeleted(rows, ids, true), ids, false);
    forall i | 0 <= i < |rows| ensures r[i] == rows[i] {
      assert rows[i] in rows;
    }
  }

  class MediaService {
    var nextId: nat
    const files: FilesService

    /** The media table lives in the same database as the files, as `files.store.media`. */
    constructor (files: FilesService, nextId: nat)
      ensures this.nextId == nextId && this.files == files
    {
      this.nextId := nextId;
      this.files := files;
    }

    /** `attachFiles`: one row per file, for the target and type, with the file's position as its order. */
    method AttachFiles(fileRows: seq<FileRow>, targetId: string, kind: MediaType) returns (created: seq<MediaRow>)
      modifies this, files.store
      ensures files.store.rows == old(files.store.rows) && files.store.objects == old(files.store.objects)
      ensures files.store.log == old(files.store.log)
      ensures created == Attached(old(nextId), IdsOf(fileRows), targetId, kind)
      ensures files.store.media == old(files.store.media) + created && nextId == old(nextId) + |fileRows|
      ensures LiveFor(files.store.media, targetId, kind) == LiveFor(old(files.store.media), targetId, kind) + created
    {
      created := [];
      for idx := 0 to |fileRows|
        invariant created == Attached(nextId, IdsOf(fileRows), targetId, kind)[..idx]
      {
        created := created + [MediaRow(nextId + idx, fileRows[idx].id, targetId, kind, idx, false)];
      }
      assert created == Attached(nextId, IdsOf(fileRows), targetId, kind);
      AttachAppends(files.store.media, created, targetId, kind);
      files.store.media := files.store.media + created;
      nextId := nextId + |fileRows|;
    }

    /** `updateSingleMedia`: the target's media of the type are soft-deleted, then one row at order 0 is added. */
    method UpdateSingleMedia(fileId: string, targetId: string, kind: MediaType) returns (m: MediaRow)
      modifies this, files.store
      ensures files.store.rows == old(files.store.rows) && files.store.objects == old(files.store.objects)
      ensures files.store.log == old(files.store.log)
      ensures m == MediaRow(old(nextId), fileId, targetId, kind, 0, false)
      ensures files.store.media == SetDeletedFor(old(files.store.media), targetId, kind, true) + [m] && nextId == old(nextId) + 1
      ensures LiveFor(files.store.media, targetId, kind) == [m]
    {
      files.store.media := SetDeletedFor(files.store.media, targetId, kind, true);
      m := MediaRow(nextId, fileId, targetId, kind, 0, false);
      SingleMediaIsOnly(old(files.store.media), targetId, kind, m);
      files.store.media := files.store.media + [m];
      nextId := nextId + 1;
    }

    /**
     * `processSingleUpload`: the file is uploaded, then becomes the target's single
     * media of the type; a failed upload leaves the media as they were.
     */
    method ProcessSingleUpload(file: BufferedFile, targetId: string, kind: MediaType, userId: string, options: UploadOptions,
                               transcoded: Option<nat>, uuid: string, rowId: string, now: int,
                               uploadFails: bool, saveFails: bool, rollbackFails: bool)
      returns (r: Result<FileRow, FileError>)
      modifies this, files.store
      ensures r.Failure? ==> files.store.media == old(files.store.media) && nextId == old(nextId)
      ensures uploadFails ==>
        var key := UploadKey(file, options, transcoded, uuid);
        && r == Failure(UploadFailed)
        && files.store.rows == old(files.store.rows) && files.store.objects == old(files.store.objects)
        && files.store.log == old(files.store.log) + [Upload(files.bucket, key)]
      ensures !uploadFails && saveFails ==>
        var key := UploadKey(file, options, transcoded, uuid);
        && r == Failure(SaveFailed)
        && files.store.rows == old(files.store.rows)
        && files.store.log == old(files.store.log) + [Upload(files.bucket, key), Delete(files.bucket, key)]
        && files.store.objects == (if rollbackFails then old(files.store.objects) + {(files.bucket, key)}
                                   else old(files.store.objects) - {(files.bucket, key)})
      ensures !uploadFails && !saveFails ==>
        var key := UploadKey(file, options, transcoded, uuid);
        && r == Success(UploadRow(files.bucket, files.urlOf, file, Some(userId), options, transcoded, uuid, rowId, now))
        && files.store.rows == old(files.store.rows) + [r.value]
        && files.store.log == old(files.store.log) + [Upload(files.bucket, key)]
        && files.store.objects == old(files.store.objects) + {(files.bucket, key)}
        && files.store.media == SetDeletedFor(old(files.store.media), targetId, kind, true) + [MediaRow(old(nextId), rowId, targetId, kind, 0, false)]
        && LiveFor(files.store.media, targetId, kind) == [MediaRow(old(nextId), rowId, targetId, kind, 0, false)]
    {
      r := files.UploadFile(file, Some(userId), options, transcoded, uuid, rowId, now, uploadFails, saveFails, rollbackFails);
      if r.Failure? {
        return;
      }
      var _ := UpdateSingleMedia(r.value.id, targetId, kind);
    }

    /**
     * `processDelete`: nothing without media of the target and type. A hard delete
     * removes the rows (deleted ones too) and then hard-deletes their files; a
     * soft delete flags the live rows and soft-deletes their files; the file step
     * is skipped when no row names a file. Removing the files also removes, by the
     * cascade, any media row of another target that names one of them. A failing
     * hard delete of the files rolls the media rows back and is passed on.
     */
    method ProcessDelete(targetId: string, kind: MediaType, hardDelete: bool, failing: set<string>, removeFails: bool)
      returns (r: Result<(), FileError>)
      modifies this, files.store
      ensures nextId == old(nextId)
      ensures var medias := FindFor(old(files.store.media), targetId, kind, hardDelete);
        var fileIds := FileIdsOf(medias);
        if medias == [] then
          r == Success(()) && files.store.media == old(files.store.media) && files.store.rows == old(files.store.rows)
          && files.store.objects == old(files.store.objects) && files.store.log == old(files.store.log)
        else if !hardDelete then
          && r == Success(())
          && files.store.media == SetDeletedIds(old(files.store.media), MediaIds(medias), true)
          && files.store.rows == (if fileIds == [] then old(files.store.rows) else MarkDeleted(old(files.store.rows), fileIds, true))
          && files.store.objects == old(files.store.objects) && files.store.log == old(files.store.log)
        else if fileIds == [] || WithIds(old(files.store.rows), fileIds) == [] then
          && r == Success(())
          && files.store.media == WithoutMediaIds(old(files.store.media), MediaIds(medias))
          && files.store.rows == old(files.store.rows)
          && files.store.objects == old(files.store.objects) && files.store.log == old(files.store.log)
        else
          var groups := GroupByBucket(WithIds(old(files.store.rows), fileIds));
          && files.store.log == old(files.store.log) + DeleteCalls(groups)
          && files.store.objects == old(files.store.objects) - Removed(groups, failing)
          && (removeFails ==> r == Failure(RemoveFailed) && files.store.media == old(files.store.media) && files.store.rows == old(files.store.rows))
          && (!removeFails ==>
                && r == Success(())
                && files.store.media == WithoutFiles(WithoutMediaIds(old(files.store.media), MediaIds(medias)), fileIds)
                && files.store.rows == WithoutIds(old(files.store.rows), fileIds))
    {
      var medias := FindFor(files.store.media, targetId, kind, hardDelete);
      if |medias| == 0 {
        return Success(());
      }
      var fileIds := FileIdsOf(medias);
      var before := files.store.media;
      if hardDelete {
        files.store.media := WithoutMediaIds(files.store.media, MediaIds(medias));
        if |fileIds| > 0 {
          var res := files.HardDeleteMany(fileIds, failing, removeFails);
          if res.Failure? {
            files.store.media := before;
            return Failure(res.error);
          }
        }
      } else {
        files.store.media := SetDeletedIds(files.store.media, MediaIds(medias), true);
        if |fileIds| > 0 {
          var _ := files.SoftDeleteMany(fileIds);
        }
      }
      r := Success(());
    }

    /**
     * `restoreMedia`: the target's media of the type are restored, then exactly
     * the files they name.
     */
    method RestoreMedia(targetId: string, kind: MediaType)
      modifies this, files.store
      ensures nextId == old(nextId)
      ensures files.store.media == SetDeletedFor(old(files.store.media), targetId, kind, false)
      ensures LiveFor(files.store.media, targetId, kind) == Undeleted(FindFor(old(files.store.media), targetId, kind, true))
      ensures files.store.rows == MarkDeleted(old(files.store.rows), FileIdsOf(FindFor(old(files.store.media), targetId, kind, true)), false)
      ensures files.store.objects == old(files.store.objects) && files.store.log == old(files.store.log)
    {
      files.store.media := SetDeletedFor(files.store.media, targetId, kind, false);
      RestoredAllLive(old(files.store.media), targetId, kind);
      var medias := LiveFor(files.store.media, targetId, kind);
      UndeletedFileIds(FindFor(old(files.store.media), targetId, kind, true));
      var fileIds := FileIdsOf(medias);
      if |fileIds| > 0 {
        files.store.rows := MarkDeleted(files.store.rows, fileIds, false);
      } else {
        assert MarkDeleted(files.store.rows, fileIds, false) == files.store.rows;
      }
    }
  }

  /** The rows with their deleted flag cleared. */
  function Undeleted(medias: seq<MediaRow>): (r: seq<MediaRow>)
    ensures |r| == |medias| && forall i :: 0 <= i < |medias| ==> r[i] == medias[i].(deleted := false)
  {
    seq(|medias|, i requires 0 <= i < |medias| => medias[i].(deleted := false))
  }

  lemma {:induction false} UndeletedFileIds(medias: seq<MediaRow>)
    ensures FileIdsOf(Undeleted(medias)) == FileIdsOf(medias)
  {
    if |medias| > 0 {
      var n := |medias| - 1;
      UndeletedFileIds(medias[..n]);
      assert Undeleted(medias)[..n] == Undeleted(medias[..n]);
    }
  }

  /** After restoring, a target shows every row it has for the type, each restored. */
  lemma {:induction false} RestoredAllLive(media: seq<MediaRow>, targetId: string, kind: MediaType)
    ensures LiveFor(SetDeletedFor(media, targetId, kind, false), targetId, kind) == Undeleted(FindFor(media, targetId, kind, true))
  {
    if |media| > 0 {
      var n := |media| - 1;
      RestoredAllLive(media[..n], targetId, kind);
      RestoredStep(media, targetId, kind);
    }
  }

  lemma FindForLast(media: seq<MediaRow>, targetId: string, kind: MediaType, withDeleted: bool)
    requires |media| > 0
    ensures var m := media[|media| - 1];
      FindFor(media, targetId, kind, withDeleted)
        == FindFor(media[..|media| - 1], targetId, kind, withDeleted) + (if IsFor(m, targetId, kind) && (withDeleted || !m.deleted) then [m] else [])
  {
  }

  lemma UndeletedAppend(medias: seq<MediaRow>, m: MediaRow)
    ensures Undeleted(medias + [m]) == Undeleted(medias) + [m.(deleted := false)]
  {
    assert Undeleted(medias + [m])[..|medias|] == Undeleted(medias);
  }

  lemma RestoredStep(media: seq<MediaRow>, targetId: string, kind: MediaType)
    requires |media| > 0
    requires var n := |media| - 1;
      LiveFor(SetDeletedFor(media[..n], targetId, kind, false), targetId, kind) == Undeleted(FindFor(media[..n], targetId, kind, true))
    ensures LiveFor(SetDeletedFor(media, targetId, kind, false), targetId, kind) == Undeleted(FindFor(media, targetId, kind, true))
  {
    var n := |media| - 1;
    var after := SetDeletedFor(media, targetId, kind, false);
    SetDeletedPrefix(media, targetId, kind, false);
    if IsFor(media[n], targetId, kind) {
      RestoredStepHit(media, after, targetId, kind);
    } else {
      RestoredStepMiss(media, after, targetId, kind);
    }
  }

  lemma SetDeletedPrefix(media: seq<MediaRow>, targetId: string, kind: MediaType, d: bool)
    requires |media| > 0
    ensures SetDeletedFor(media, targetId, kind, d)[..|media| - 1] == SetDeletedFor(media[..|media| - 1], targetId, kind, d)
  {
  }

  /** The step of `RestoredAllLive` when the last row belongs to the target: it comes back live. */
  lemma RestoredStepHit(media: seq<MediaRow>, after: seq<MediaRow>, targetId: string, kind: MediaType)
    requires |media| > 0 && after == SetDeletedFor(media, targetId, kind, false)
    requires IsFor(media[|media| - 1], targetId, kind)
    requires var n := |media| - 1;
      FindFor(after[..n], targetId, kind, false) == Undeleted(FindFor(media[..n], targetId, kind, true))
    ensures FindFor(after, targetId, kind, false) == Undeleted(FindFor(media, targetId, kind, true))
  {
    var n := |media| - 1;
    FindForLast(after, targetId, kind, false);
    FindForLast(media, targetId, kind, true);
    UndeletedAppend(FindFor(media[..n], targetId, kind, true), media[n]);
  }

  /** The step of `RestoredAllLive` when the last row belongs elsewhere: neither side grows. */
  lemma RestoredStepMiss(media: seq<MediaRow>, after: seq<MediaRow>, targetId: string, kind: MediaType)
    requires |media| > 0 && after == SetDeletedFor(media, targetId, kind, false)
    requires !IsFor(media[|media| - 1], targetId, kind)
    requires var n := |media| - 1;
      FindFor(after[..n], targetId, kind, false) == Undeleted(FindFor(media[..n], targetId, kind, true))
    ensures FindFor(after, targetId, kind, false) == Undeleted(FindFor(media, targetId, kind, true))
  {
    var n := |media| - 1;
    assert after[n] == media[n];
    FindForLast(after, targetId, kind, false);
    FindForLast(media, targetId, kind, true);
  }
}
