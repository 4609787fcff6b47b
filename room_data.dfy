/**
 * The on-device repository that SavePhotoViewModel writes to. Its Room tables are kept as
 * sequences in insertion order, with one counter per table for the ids Room generates (from 1).
 */
module RoomData {
  import opened Common

  /** `Label.NEW_LABEL`: the id of a label that is not stored yet. Room's generated ids start at 1,
      so no stored label has it. */
  const NEW_LABEL: int := 0

  datatype Label = Label(id: int, name: string, backgroundColor: string, thumbnailUri: string)

  datatype PhotoDetail = PhotoDetail(
    id: int,
    labelId: int,
    photoUri: string,
    fileName: string,
    latitude: Double,
    longitude: Double,
    description: string,
    datetime: LocalDateTime)

  /** A label's representative photo. */
  datatype Album = Album(id: int, labelId: int, photoDetailId: int)

  datatype Tables = Tables(
    labels: seq<Label>,
    photos: seq<PhotoDetail>,
    albums: seq<Album>,
    lastLabelId: nat,
    lastPhotoId: nat,
    lastAlbumId: nat)

  /** Generated keys: each between 1 and the table's counter, increasing in insertion order. */
  ghost predicate Keys(ids: seq<int>, last: nat) {
    && (forall i :: 0 <= i < |ids| ==> 1 <= ids[i] <= last)
    && (forall i, j :: 0 <= i < j < |ids| ==> ids[i] < ids[j])
  }

  function LabelIds(labels: seq<Label>): seq<int> { seq(|labels|, i requires 0 <= i < |labels| => labels[i].id) }
  function PhotoIds(photos: seq<PhotoDetail>): seq<int> { seq(|photos|, i requires 0 <= i < |photos| => photos[i].id) }
  function AlbumIds(albums: seq<Album>): seq<int> { seq(|albums|, i requires 0 <= i < |albums| => albums[i].id) }

  ghost predicate ValidTables(t: Tables) {
    && Keys(LabelIds(t.labels), t.lastLabelId)
    && Keys(PhotoIds(t.photos), t.lastPhotoId)
    && Keys(AlbumIds(t.albums), t.lastAlbumId)
  }

  /** A label has at most one representative-photo row: savePhoto adds a row only for a label
      that has none, and otherwise repoints the existing one. */
  ghost predicate AtMostOneAlbumPerLabel(albums: seq<Album>) {
    forall i, j :: 0 <= i < j < |albums| ==> albums[i].labelId != albums[j].labelId
  }

  /** `insertLabel`: stores the label under the next generated id. */
  function WithLabel(t: Tables, newLabel: Label): (r: Tables)
    requires ValidTables(t)
    ensures ValidTables(r)
    ensures r.labels == t.labels + [newLabel.(id := t.lastLabelId + 1)] && r.lastLabelId == t.lastLabelId + 1
    ensures r.photos == t.photos && r.albums == t.albums
    ensures r.lastPhotoId == t.lastPhotoId && r.lastAlbumId == t.lastAlbumId
  {
    var id := t.lastLabelId + 1;
    var r := t.(labels := t.labels + [newLabel.(id := id)], lastLabelId := id);
    assert LabelIds(r.labels) == LabelIds(t.labels) + [id];
    r
  }

  /** `insertPhoto`: stores the photo under the next generated id. */
  function WithPhoto(t: Tables, photo: PhotoDetail): (r: Tables)
    requires ValidTables(t)
    ensures ValidTables(r)
    ensures r.photos == t.photos + [photo.(id := t.lastPhotoId + 1)] && r.lastPhotoId == t.lastPhotoId + 1
    ensures r.labels == t.labels && r.albums == t.albums
    ensures r.lastLabelId == t.lastLabelId && r.lastAlbumId == t.lastAlbumId
  {
    var id := t.lastPhotoId + 1;
    var r := t.(photos := t.photos + [photo.(id := id)], lastPhotoId := id);
    assert PhotoIds(r.photos) == PhotoIds(t.photos) + [id];
    r
  }

  /** `insertPhotoInAlbum`: stores the album row under the next generated id. */
  function WithAlbum(t: Tables, album: Album): (r: Tables)
    requires ValidTables(t)
    ensures ValidTables(r)
    ensures r.albums == t.albums + [album.(id := t.lastAlbumId + 1)] && r.lastAlbumId == t.lastAlbumId + 1
    ensures r.labels == t.labels && r.photos == t.photos
    ensures r.lastLabelId == t.lastLabelId && r.lastPhotoId == t.lastPhotoId
  {
    var id := t.lastAlbumId + 1;
    var r := t.(albums := t.albums + [album.(id := id)], lastAlbumId := id);
    assert AlbumIds(r.albums) == AlbumIds(t.albums) + [id];
    r
  }

  /** `updateAlbum`: rewrites the row whose primary key is the given row's. */
  function UpdateRow(albums: seq<Album>, album: Album): (r: seq<Album>)
    ensures |r| == |albums|
    ensures forall i :: 0 <= i < |albums| ==> r[i] == if albums[i].id == album.id then album else albums[i]
  {
    seq(|albums|, i requires 0 <= i < |albums| => if albums[i].id == album.id then album else albums[i])
  }

  function WithUpdatedAlbum(t: Tables, album: Album): (r: Tables)
    requires ValidTables(t)
    ensures ValidTables(r)
    ensures r.albums == UpdateRow(t.albums, album)
    ensures r.labels == t.labels && r.photos == t.photos
    ensures r.lastLabelId == t.lastLabelId && r.lastPhotoId == t.lastPhotoId && r.lastAlbumId == t.lastAlbumId
  {
    var r := t.(albums := UpdateRow(t.albums, album));
    assert AlbumIds(r.albums) == AlbumIds(t.albums);
    r
  }

  /** `getAlbumByLabelId`: the album rows of a label, in table order. */
  function AlbumsOf(albums: seq<Album>, labelId: int): (rows: seq<Album>)
    decreases |albums|
  {
    if albums == [] then []
    else (if albums[0].labelId == labelId then [albums[0]] else []) + AlbumsOf(albums[1..], labelId)
  }

  /** The position of the first row of a label, or the table's length when there is none. */
  function FirstAlbumIndex(albums: seq<Album>, labelId: int): (k: nat)
    ensures k <= |albums|
    ensures k < |albums| ==> albums[k].labelId == labelId
    ensures forall j :: 0 <= j < k ==> albums[j].labelId != labelId
    decreases |albums|
  {
    if albums == [] then 0
    else if albums[0].labelId == labelId then 0
    else 1 + FirstAlbumIndex(albums[1..], labelId)
  }

  /** The lookup finds nothing exactly when the label has no row, and otherwise starts with the
      label's first row. */
  lemma {:induction false} AlbumsOfFirst(albums: seq<Album>, labelId: int)
    ensures AlbumsOf(albums, labelId) == [] <==> FirstAlbumIndex(albums, labelId) == |albums|
    ensures AlbumsOf(albums, labelId) != [] ==>
              AlbumsOf(albums, labelId)[0] == albums[FirstAlbumIndex(albums, labelId)]
    decreases |albums|
  {
    if albums != [] && albums[0].labelId != labelId {
      AlbumsOfFirst(albums[1..], labelId);
    }
  }

  /** Every row the lookup returns belongs to the label, and every row of the label is returned. */
  lemma {:induction false} AlbumsOfMembers(albums: seq<Album>, labelId: int)
    ensures forall a :: a in AlbumsOf(albums, labelId) <==> a in albums && a.labelId == labelId
    decreases |albums|
  {
    if albums != [] {
      AlbumsOfMembers(albums[1..], labelId);
      assert albums == [albums[0]] + albums[1..];
    }
  }

  lemma {:induction false} AlbumsOfAppend(albums: seq<Album>, a: Album, labelId: int)
    ensures AlbumsOf(albums + [a], labelId) == AlbumsOf(albums, labelId) + (if a.labelId == labelId then [a] else [])
    decreases |albums|
  {
    if albums == [] {
      assert [a][1..] == [];
    } else {
      assert (albums + [a])[1..] == albums[1..] + [a];
      AlbumsOfAppend(albums[1..], a, labelId);
    }
  }

  /** With one row per label the lookup returns at most one row. */
  lemma {:induction false} AlbumsOfAtMostOne(albums: seq<Album>, labelId: int)
    requires AtMostOneAlbumPerLabel(albums)
    ensures |AlbumsOf(albums, labelId)| <= 1
    decreases |albums|
  {
    if albums != [] {
      AlbumsOfAtMostOne(albums[1..], labelId);
      if albums[0].labelId == labelId {
        AlbumsOfFirst(albums[1..], labelId);
      }
    }
  }

  /** Room updates by primary key, and keys are unique: rewriting the first row of a label with a
      new photo id changes that row alone. */
  lemma UpdateFirstRow(t: Tables, labelId: int, photoDetailId: int)
    requires ValidTables(t)
    requires AlbumsOf(t.albums, labelId) != []
    ensures var k := FirstAlbumIndex(t.albums, labelId);
      && k < |t.albums|
      && UpdateRow(t.albums, AlbumsOf(t.albums, labelId)[0].(photoDetailId := photoDetailId))
         == t.albums[k := t.albums[k].(photoDetailId := photoDetailId)]
  {
    AlbumsOfFirst(t.albums, labelId);
    var k := FirstAlbumIndex(t.albums, labelId);
    var row := t.albums[k];
    forall i | 0 <= i < |t.albums| && i != k ensures t.albums[i].id != row.id {
      assert AlbumIds(t.albums)[i] == t.albums[i].id && AlbumIds(t.albums)[k] == row.id;
    }
  }

  /** The local repository: Room's tables, updated in place. */
  class LocalCache {
    var labels: seq<Label>
    var photos: seq<PhotoDetail>
    var albums: seq<Album>
    var lastLabelId: nat
    var lastPhotoId: nat
    var lastAlbumId: nat

    function Snapshot(): Tables
      reads this
    {
      Tables(labels, photos, albums, lastLabelId, lastPhotoId, lastAlbumId)
    }

    ghost predicate Valid()
      reads this
    {
      ValidTables(Snapshot())
    }

    constructor ()
      ensures Valid() && Snapshot() == Tables([], [], [], 0, 0, 0)
    {
      labels, photos, albums := [], [], [];
      lastLabelId, lastPhotoId, lastAlbumId := 0, 0, 0;
    }

    method InsertLabel(newLabel: Label) returns (id: int)
      requires Valid()
      modifies this
      ensures Valid()
      ensures Snapshot() == WithLabel(old(Snapshot()), newLabel) && id == lastLabelId
    {
      lastLabelId := lastLabelId + 1;
      id := lastLabelId;
      labels := labels + [newLabel.(id := id)];
      assert Snapshot() == WithLabel(old(Snapshot()), newLabel);
    }

    method InsertPhoto(photo: PhotoDetail) returns (id: int)
      requires Valid()
      modifies this
      ensures Valid()
      ensures Snapshot() == WithPhoto(old(Snapshot()), photo) && id == lastPhotoId
    {
      lastPhotoId := lastPhotoId + 1;
      id := lastPhotoId;
      photos := photos + [photo.(id := id)];
      assert Snapshot() == WithPhoto(old(Snapshot()), photo);
    }

    method GetAlbumByLabelId(labelId: int) returns (rows: seq<Album>)
      ensures rows == AlbumsOf(albums, labelId)
    {
      rows := AlbumsOf(albums, labelId);
    }

    method InsertPhotoInAlbum(album: Album)
      requires Valid()
      modifies this
      ensures Valid()
      ensures Snapshot() == WithAlbum(old(Snapshot()), album)
    {
      lastAlbumId := lastAlbumId + 1;
      albums := albums + [album.(id := lastAlbumId)];
      assert Snapshot() == WithAlbum(old(Snapshot()), album);
    }

    method UpdateAlbum(album: Album)
      requires Valid()
      modifies this
      ensures Valid()
      ensures Snapshot() == WithUpdatedAlbum(old(Snapshot()), album)
    {
      albums := UpdateRow(albums, album);
      assert Snapshot() == WithUpdatedAlbum(old(Snapshot()), album);
    }
  }
}
