/**
 * SavePhotoViewModel.savePhoto: resolves the label id (inserting a new label first), inserts the
 * photo, then inserts, repoints or leaves the label's album row, and drives the save state
 * Idle -> Loading -> Success, or back to Idle when a repository call throws. The steps run in the
 * order the code awaits them; which call throws, if any, is the parameter `fault`, and
 * `LocalDateTime.now(UTC)` is the parameter `nowUtc`. The label lookup and the photo insert run in
 * `async` blocks: an exception in either fails the launched coroutine even when the catch has run,
 * and a failed photo insert whose id is never awaited races with the final emit, which the
 * parameter `photoFailsFirst` decides.
 */
module SavePhoto {
  import opened Common
  import opened RoomData

  datatype UiState = Idle | Loading | Success

  datatype Location = Location(latitude: Double, longitude: Double)

  /** The repository calls of savePhoto, each of which may throw. */
  datatype SaveStep = InsertLabelStep | GetAlbumStep | InsertPhotoStep | InsertAlbumStep | UpdateAlbumStep

  datatype SaveRequest = SaveRequest(
    uri: string,
    fileName: string,
    photoLabel: Label,
    location: Location,
    description: string,
    isRepresented: bool,
    nowUtc: LocalDateTime)

  /** `jobFailed`: the launched coroutine ends with an exception, which viewModelScope hands to its
      uncaught-exception handler. */
  datatype SaveResult = SaveResult(tables: Tables, state: UiState, jobFailed: bool)

  /** The label id the photo is saved under: the id the insert generates for a new label, the
      label's own id otherwise. */
  function ResolvedLabelId(t: Tables, photoLabel: Label): (labelId: int) {
    if photoLabel.id == NEW_LABEL then t.lastLabelId + 1 else photoLabel.id
  }

  /** The PhotoDetail the view model builds; Room generates its id on insert. */
  function NewPhotoDetail(req: SaveRequest, labelId: int): (p: PhotoDetail) {
    PhotoDetail(0, labelId, req.uri, req.fileName, req.location.latitude, req.location.longitude,
                req.description, req.nowUtc)
  }

  /** The repository calls a save from `t` makes when none of them throws. */
  function StepsRun(t: Tables, req: SaveRequest): (steps: set<SaveStep>) {
    var labelId := ResolvedLabelId(t, req.photoLabel);
    var hasRow := FirstAlbumIndex(t.albums, labelId) < |t.albums|;
    (if req.photoLabel.id == NEW_LABEL then {InsertLabelStep} else {})
    + {GetAlbumStep, InsertPhotoStep}
    + (if !hasRow then {InsertAlbumStep} else if req.isRepresented then {UpdateAlbumStep} else {})
  }

  /** Whether the save awaits the inserted photo's id: it does unless the label already has an
      album row and the photo is not representative. */
  function PhotoAwaited(t: Tables, req: SaveRequest): (b: bool) {
    FirstAlbumIndex(t.albums, ResolvedLabelId(t, req.photoLabel)) == |t.albums| || req.isRepresented
  }

  /** The tables, the final save state and the coroutine's outcome after one savePhoto call; a
      throwing call ends the body, and the writes before it stay. When the photo insert fails and
      its id is never awaited, `photoFailsFirst` says whether the failure cancels the coroutine
      before `album.await()` resumes (the await throws and the catch emits Idle) or only after
      Success has been emitted. */
  function SavePhotoEffect(t: Tables, req: SaveRequest, fault: Option<SaveStep>, photoFailsFirst: bool): (r: SaveResult)
    requires ValidTables(t)
    ensures ValidTables(r.tables)
  {
    var isNew := req.photoLabel.id == NEW_LABEL;
    if isNew && fault == Some(InsertLabelStep) then SaveResult(t, Idle, false)
    else
      var t1 := if isNew then WithLabel(t, req.photoLabel) else t;
      var labelId := ResolvedLabelId(t, req.photoLabel);
      if fault == Some(GetAlbumStep) then SaveResult(t1, Idle, true)
      else
        var album := AlbumsOf(t1.albums, labelId);
        if fault == Some(InsertPhotoStep) then
          SaveResult(t1, if album == [] || req.isRepresented || photoFailsFirst then Idle else Success, true)
        else
          var t2 := WithPhoto(t1, NewPhotoDetail(req, labelId));
          var photoDetailId := t2.lastPhotoId;
          if album == [] then
            if fault == Some(InsertAlbumStep) then SaveResult(t2, Idle, false)
            else SaveResult(WithAlbum(t2, Album(0, labelId, photoDetailId)), Success, false)
          else if req.isRepresented then
            if fault == Some(UpdateAlbumStep) then SaveResult(t2, Idle, false)
            else SaveResult(WithUpdatedAlbum(t2, album[0].(photoDetailId := photoDetailId)), Success, false)
          else SaveResult(t2, Success, false)
  }

  /** A new label is inserted, under the next generated id, exactly when its id is NEW_LABEL
      (and the insert does not throw); a stored label is used as it is. */
  lemma SavePhotoLabelResolution(t: Tables, req: SaveRequest, fault: Option<SaveStep>, photoFailsFirst: bool)
    requires ValidTables(t)
    ensures var r := SavePhotoEffect(t, req, fault, photoFailsFirst);
      && (req.photoLabel.id == NEW_LABEL && fault != Some(InsertLabelStep) ==>
            r.tables.labels == t.labels + [req.photoLabel.(id := t.lastLabelId + 1)]
            && ResolvedLabelId(t, req.photoLabel) !in LabelIds(t.labels))
      && (req.photoLabel.id == NEW_LABEL && fault == Some(InsertLabelStep) ==> r.tables == t && r.state == Idle)
      && (req.photoLabel.id != NEW_LABEL ==>
            r.tables.labels == t.labels && ResolvedLabelId(t, req.photoLabel) == req.photoLabel.id)
  {
  }

  /** The photo is inserted once, under the next generated id, carrying the resolved label id and
      the call's arguments, unless an earlier call (or its own insert) throws. */
  lemma SavePhotoInsertsOnePhoto(t: Tables, req: SaveRequest, fault: Option<SaveStep>, photoFailsFirst: bool)
    requires ValidTables(t)
    ensures var r := SavePhotoEffect(t, req, fault, photoFailsFirst);
      var inserted := !(fault.Some? && fault.value in StepsRun(t, req) &&
                        fault.value in {InsertLabelStep, GetAlbumStep, InsertPhotoStep});
      && (inserted ==> r.tables.photos == t.photos + [PhotoDetail(
            t.lastPhotoId + 1, ResolvedLabelId(t, req.photoLabel), req.uri, req.fileName,
            req.location.latitude, req.location.longitude, req.description, req.nowUtc)])
      && (!inserted ==> r.tables.photos == t.photos)
  {
    var isNew := req.photoLabel.id == NEW_LABEL;
    var t1 := if isNew then WithLabel(t, req.photoLabel) else t;
    var labelId := ResolvedLabelId(t, req.photoLabel);
    if !(isNew && fault == Some(InsertLabelStep)) && fault != Some(GetAlbumStep) && fault != Some(InsertPhotoStep) {
      var t2 := WithPhoto(t1, NewPhotoDetail(req, labelId));
      assert SavePhotoEffect(t, req, fault, photoFailsFirst).tables.photos == t2.photos;
    }
  }

  /** Album placement after a save in which nothing throws: without a row for the label one row
      pointing at the new photo is added, whatever isRepresented says; otherwise isRepresented
      repoints the label's first row alone, keeping its label id, and without it the album table
      is unchanged. */
  lemma SavePhotoAlbumPlacement(t: Tables, req: SaveRequest)
    requires ValidTables(t)
    ensures var r := SavePhotoEffect(t, req, None, false);
      var labelId := ResolvedLabelId(t, req.photoLabel);
      var photoId := t.lastPhotoId + 1;
      var k := FirstAlbumIndex(t.albums, labelId);
      && (k == |t.albums| ==> r.tables.albums == t.albums + [Album(t.lastAlbumId + 1, labelId, photoId)])
      && (k < |t.albums| && req.isRepresented ==>
            r.tables.albums == t.albums[k := Album(t.albums[k].id, labelId, photoId)])
      && (k < |t.albums| && !req.isRepresented ==> r.tables.albums == t.albums)
  {
    var labelId := ResolvedLabelId(t, req.photoLabel);
    var t1 := if req.photoLabel.id == NEW_LABEL then WithLabel(t, req.photoLabel) else t;
    AlbumsOfFirst(t.albums, labelId);
    if AlbumsOf(t.albums, labelId) != [] && req.isRepresented {
      UpdateFirstRow(WithPhoto(t1, NewPhotoDetail(req, labelId)), labelId, t.lastPhotoId + 1);
    }
  }

  /** The save ends in Success exactly when none of the calls it makes throws, and in Idle
      otherwise, except that a failed photo insert whose id is never awaited may lose the race
      against the final emit. A failure in either async block fails the coroutine, even after the
      catch; the other failures are caught. A failed save never changes the album table, and the
      writes made before the failing call are not rolled back. */
  lemma SavePhotoFinalState(t: Tables, req: SaveRequest, fault: Option<SaveStep>, photoFailsFirst: bool)
    requires ValidTables(t)
    ensures var r := SavePhotoEffect(t, req, fault, photoFailsFirst);
      var failed := fault.Some? && fault.value in StepsRun(t, req);
      var unobserved := fault == Some(InsertPhotoStep) && !PhotoAwaited(t, req) && !photoFailsFirst;
      && r.state == (if failed && !unobserved then Idle else Success)
      && r.jobFailed == (fault == Some(GetAlbumStep) || fault == Some(InsertPhotoStep))
      && (failed ==> r.tables.albums == t.albums)
      && (req.photoLabel.id == NEW_LABEL && fault != Some(InsertLabelStep) ==> |r.tables.labels| == |t.labels| + 1)
      && (fault == Some(InsertAlbumStep) || fault == Some(UpdateAlbumStep) ==> |r.tables.photos| == |t.photos| + 1)
  {
    var labelId := ResolvedLabelId(t, req.photoLabel);
    AlbumsOfFirst(t.albums, labelId);
  }

  /** Starting from at most one album row per label, a save keeps it so, whatever throws. */
  lemma SavePhotoKeepsOneAlbumPerLabel(t: Tables, req: SaveRequest, fault: Option<SaveStep>, photoFailsFirst: bool)
    requires ValidTables(t) && AtMostOneAlbumPerLabel(t.albums)
    ensures AtMostOneAlbumPerLabel(SavePhotoEffect(t, req, fault, photoFailsFirst).tables.albums)
  {
    var r := SavePhotoEffect(t, req, fault, photoFailsFirst);
    var r0 := SavePhotoEffect(t, req, None, false);
    SavePhotoFinalState(t, req, fault, photoFailsFirst);
    if r.tables.albums != t.albums {
      assert r.tables.albums == r0.tables.albums;
      SavePhotoAlbumPlacement(t, req);
      var labelId := ResolvedLabelId(t, req.photoLabel);
      var k := FirstAlbumIndex(t.albums, labelId);
      if k == |t.albums| {
        var a := r.tables.albums;
        forall i, j | 0 <= i < j < |a| ensures a[i].labelId != a[j].labelId {
          if j == |t.albums| {
            assert a[i] == t.albums[i];
          } else {
            assert a[i] == t.albums[i] && a[j] == t.albums[j];
          }
        }
      } else {
        var a := r.tables.albums;
        forall i, j | 0 <= i < j < |a| ensures a[i].labelId != a[j].labelId {
          assert a[i].labelId == t.albums[i].labelId && a[j].labelId == t.albums[j].labelId;
        }
      }
    }
  }

  /** Label "Heron" has no album: its first photo becomes the representative; a second photo not
      marked representative leaves it; a third one marked representative takes its place. */
  lemma HeronScenario(t: Tables, heron: Label, p1: SaveRequest, p2: SaveRequest, p3: SaveRequest)
    requires ValidTables(t)
    requires heron.id != NEW_LABEL && FirstAlbumIndex(t.albums, heron.id) == |t.albums|
    requires p1.photoLabel == heron && p2.photoLabel == heron && p3.photoLabel == heron
    requires !p2.isRepresented && p3.isRepresented
    ensures var t1 := SavePhotoEffect(t, p1, None, false).tables;
      var t2 := SavePhotoEffect(t1, p2, None, false).tables;
      var t3 := SavePhotoEffect(t2, p3, None, false).tables;
      && AlbumsOf(t1.albums, heron.id) == [Album(t.lastAlbumId + 1, heron.id, t.lastPhotoId + 1)]
      && AlbumsOf(t2.albums, heron.id) == [Album(t.lastAlbumId + 1, heron.id, t.lastPhotoId + 1)]
      && AlbumsOf(t3.albums, heron.id) == [Album(t.lastAlbumId + 1, heron.id, t.lastPhotoId + 3)]
  {
    var h := heron.id;
    var t1 := SavePhotoEffect(t, p1, None, false).tables;
    var t2 := SavePhotoEffect(t1, p2, None, false).tables;
    var t3 := SavePhotoEffect(t2, p3, None, false).tables;
    var a := Album(t.lastAlbumId + 1, h, t.lastPhotoId + 1);
    SavePhotoAlbumPlacement(t, p1);
    SavePhotoInsertsOnePhoto(t, p1, None, false);
    assert t1.albums == t.albums + [a];
    AlbumsOfFirst(t.albums, h);
    AlbumsOfAppend(t.albums, a, h);
    assert FirstAlbumIndex(t1.albums, h) == |t.albums| by {
      AlbumsOfFirst(t1.albums, h);
    }
    SavePhotoAlbumPlacement(t1, p2);
    SavePhotoInsertsOnePhoto(t1, p2, None, false);
    assert t2.albums == t1.albums;
    SavePhotoAlbumPlacement(t2, p3);
    SavePhotoInsertsOnePhoto(t2, p3, None, false);
    assert t2.lastPhotoId == t.lastPhotoId + 2;
    var a3 := Album(t.lastAlbumId + 1, h, t.lastPhotoId + 3);
    assert t3.albums == t.albums + [a3];
    AlbumsOfAppend(t.albums, a3, h);
  }

  class SavePhotoViewModel {
    const repository: LocalCache
    /** `_photoSaveState`. */
    var photoSaveState: UiState
    /** Every value the state flow has held, in order. */
    ghost var history: seq<UiState>
    /** How many launched saves have ended with an exception handed to viewModelScope. */
    ghost var failedJobs: nat

    constructor (repository: LocalCache)
      ensures this.repository == repository && photoSaveState == Idle && history == [Idle] && failedJobs == 0
    {
      this.repository := repository;
      photoSaveState := Idle;
      history := [Idle];
      failedJobs := 0;
    }

    method SavePhoto(uri: string, fileName: string, photoLabel: Label, location: Location,
                     description: string, isRepresented: bool, nowUtc: LocalDateTime,
                     fault: Option<SaveStep>, photoFailsFirst: bool)
      requires repository.Valid()
      modifies this, repository
      ensures repository.Valid()
      ensures var r := SavePhotoEffect(old(repository.Snapshot()),
                                       SaveRequest(uri, fileName, photoLabel, location, description, isRepresented, nowUtc),
                                       fault, photoFailsFirst);
        && repository.Snapshot() == r.tables && photoSaveState == r.state
        && failedJobs == old(failedJobs) + (if r.jobFailed then 1 else 0)
      ensures history == old(history) + [Loading, photoSaveState]
    {
      photoSaveState := Loading;
      history := history + [Loading];
      var completed, jobFailed := SaveInRepository(uri, fileName, photoLabel, location, description,
                                                   isRepresented, nowUtc, fault, photoFailsFirst);
      photoSaveState := if completed then Success else Idle;
      history := history + [photoSaveState];
      if jobFailed {
        failedJobs := failedJobs + 1;
      }
    }

    /** The body of the launched coroutine up to the final emit: `completed` is false when the
        catch runs, and `jobFailed` is true when an async block has thrown. */
    method SaveInRepository(uri: string, fileName: string, photoLabel: Label, location: Location,
                            description: string, isRepresented: bool, nowUtc: LocalDateTime,
                            fault: Option<SaveStep>, photoFailsFirst: bool)
      returns (completed: bool, jobFailed: bool)
      requires repository.Valid()
      modifies repository
      ensures repository.Valid()
      ensures var r := SavePhotoEffect(old(repository.Snapshot()),
                                       SaveRequest(uri, fileName, photoLabel, location, description, isRepresented, nowUtc),
                                       fault, photoFailsFirst);
        repository.Snapshot() == r.tables && completed == (r.state == Success) && jobFailed == r.jobFailed
    {
      var labelId: int;
      if photoLabel.id == NEW_LABEL {
        if fault == Some(InsertLabelStep) {
          return false, false;
        }
        labelId := repository.InsertLabel(photoLabel);
      } else {
        labelId := photoLabel.id;
      }
      if fault == Some(GetAlbumStep) {
        return false, true;
      }
      var album := repository.GetAlbumByLabelId(labelId);
      if fault == Some(InsertPhotoStep) {
        // Only an await of `photoDetailId`, or the cancellation reaching `album.await()`, throws.
        return album != [] && !isRepresented && !photoFailsFirst, true;
      }
      var photoDetailId := repository.InsertPhoto(
        PhotoDetail(0, labelId, uri, fileName, location.latitude, location.longitude, description, nowUtc));
      if album == [] {
        if fault == Some(InsertAlbumStep) {
          return false, false;
        }
        repository.InsertPhotoInAlbum(Album(0, labelId, photoDetailId));
      } else if isRepresented {
        if fault == Some(UpdateAlbumStep) {
          return false, false;
        }
        repository.UpdateAlbum(album[0].(photoDetailId := photoDetailId));
      }
      return true, false;
    }
  }
}
