# Nature Album: remote store transactions and photo saving, in Dafny

This project models two pieces of the Nature Album Android app (Kotlin) and proves properties of
them.

1. **`FireBaseRepositoryImpl`** — the app's access to its remote document store (Firestore) and its
   file store (Firebase Storage). The store is a map from document references to documents, one
   partition per user id (`USER/uid`) with the sub-collections `LABEL`, `PHOTOS`, `FRIENDS` and
   `FRIEND_REQUESTS`. Every write is a `set` or `delete` on one document. A transaction is a list
   of such writes that is committed as one unit, first to last, or not at all (`Firestore.Commit`).
   The class has one method per repository operation: `createUserIfNotExists`, `insertLabel`,
   `insertPhotoInfo`, `saveImageFile`, and the friend-request transactions `sendFriendRequest`,
   `acceptFriendRequest` and `rejectFriendRequest`. Each method's postcondition gives the whole new
   store as a `Commit` of a list of writes. The lemmas in `RepositoryProperties` say what those
   commits do: which documents exist afterwards, that both mirrors carry the same timestamp, that
   nothing else changes, idempotence, how a pair of users moves through the friend-request
   lifecycle, and that every operation keeps the invariant "friend and request documents come in
   mirrored pairs".
2. **`SavePhotoViewModel.savePhoto`** — saving a captured photo to the on-device repository. The
   method resolves the label id, inserting the label first when its id is `NEW_LABEL`. It then
   inserts the `PhotoDetail`. Last, it either adds an album row for the label, repoints the label's
   first album row to the new photo, or leaves the albums alone. The save state moves from `Idle`
   to `Loading`, then to `Success`, or back to `Idle` when a repository call throws. A failed photo
   insert whose id is never awaited can still end at `Success`, and a failure inside either `async`
   block fails the launched coroutine even after the catch has emitted `Idle`. The local
   repository (Room) is an in-memory `LocalCache` class: one sequence per table plus a counter per
   table for generated ids. `SavePhoto`'s postcondition ties the new tables and state to the
   function `SavePhotoEffect`. The lemmas about that function cover label resolution, the photo
   insert, album placement, the final state, the "at most one album row per label" invariant, and
   a three-photo scenario.

Things the environment decides are method parameters. For the remote store these are whether the
SDK read, write, upload or commit succeeds, the value of `LocalDateTime.now()`, and the download
URL. For savePhoto they are which repository call throws, if any, whether a never-awaited failed photo
insert cancels the coroutine before or after the final emit, and the capture time.

Files: `common.dfy` (Option, Outcome, opaque Double/LocalDateTime/Uri), `firebase_dto.dfy`,
`firestore.dfy` (the store and its transactions), `firebase_repository.dfy` (the repository
class), `repository_properties.dfy`, `room_data.dfy` (entities, tables, `LocalCache`),
`save_photo.dfy` (the view model).

### Where the code differs from its evident intent (the model follows the code)

- `sendFriendRequest` builds a `"received"` copy of the request but never writes it. Both mirror
  documents get status `"sent"`. The `"received"` copy the method builds shows that the target's
  document was meant to say `"received"`.
  `RepositoryProperties.SendFriendRequestBothSent` states this behaviour.
- `acceptFriendRequest` does not check that a request is pending. It creates the friendship from
  any state (`RepositoryProperties.AcceptAlwaysBefriends`). `sendFriendRequest` between users who
  are already friends produces friend and request documents at the same time
  (`RepositoryProperties.SendBetweenFriends`).
- `insertLabel` and `insertPhotoInfo` do not return `false` on failure. The failed task's
  `await()` throws out of the method.
- `savePhoto` writes only to the local repository. It does not mirror the label or the photo into
  the remote store, and it does not upload the image.

## Model

| member | source | states |
|---|---|---|
| `Firestore.SegmentsInjective` | app/src/main/java/com/and04/naturealbum/data/repository/FireBaseRepository.kt:222-228 | the collection names USER, LABEL, PHOTOS, FRIENDS, FRIEND_REQUESTS address distinct documents: equal paths mean the same document |
| `Firestore.Commit` | app/src/main/java/com/and04/naturealbum/data/repository/FireBaseRepository.kt:149-160 | an empty transaction leaves the store as it is; after a commit, the document the last write names holds that write's effect |
| `FireBaseRepository.Transaction.Set` | app/src/main/java/com/and04/naturealbum/data/repository/FireBaseRepository.kt:150-159 | `transaction.set` appends one set of the document to the transaction's writes, after the earlier ones |
| `FireBaseRepository.Transaction.Delete` | app/src/main/java/com/and04/naturealbum/data/repository/FireBaseRepository.kt:207-214 | `transaction.delete` appends one delete of the document to the transaction's writes, after the earlier ones |
| `Firestore.CommitAt` | app/src/main/java/com/and04/naturealbum/data/repository/FireBaseRepository.kt:149-160 | committing a transaction leaves every document with the effect of the last write naming it; documents no write names keep their old value |
| `Firestore.CommitUntouched` | app/src/main/java/com/and04/naturealbum/data/repository/FireBaseRepository.kt:173-195 | a document that no write of the transaction names is unchanged by the commit |
| `FireBaseRepository.FireBaseRepositoryImpl.CreateUserIfNotExists` | app/src/main/java/com/and04/naturealbum/data/repository/FireBaseRepository.kt:60-81 | returns true when the read succeeds and the document already exists or the write succeeds; the store changes only by that write; a failed read or write returns false and changes nothing |
| `RepositoryProperties.CreateUserIfNotExistsEffect` | app/src/main/java/com/and04/naturealbum/data/repository/FireBaseRepository.kt:66-77 | the user document exists afterwards; an existing one is untouched; a new one has the given email, the name or "NoName User", the photo URL or ""; no other document changes |
| `RepositoryProperties.CreateUserIfNotExistsIdempotent` | app/src/main/java/com/and04/naturealbum/data/repository/FireBaseRepository.kt:67-76 | a second call, with any arguments, changes nothing |
| `FireBaseRepository.FireBaseRepositoryImpl.InsertLabel` | app/src/main/java/com/and04/naturealbum/data/repository/FireBaseRepository.kt:111-124 | sets `USER/uid/LABEL/labelName` and returns true, or throws and changes nothing |
| `RepositoryProperties.InsertLabelUpsert` | app/src/main/java/com/and04/naturealbum/data/repository/FireBaseRepository.kt:117-123 | afterwards the label document holds the given data, no other document changes, and repeating the call changes nothing |
| `FireBaseRepository.FireBaseRepositoryImpl.InsertPhotoInfo` | app/src/main/java/com/and04/naturealbum/data/repository/FireBaseRepository.kt:126-140 | sets `USER/uid/PHOTOS/fileName` and returns true, or throws and changes nothing |
| `RepositoryProperties.InsertPhotoInfoUpsert` | app/src/main/java/com/and04/naturealbum/data/repository/FireBaseRepository.kt:133-139 | afterwards the photo document holds the given data, no other document changes, and repeating the call changes nothing |
| `FireBaseRepository.FireBaseRepositoryImpl.SaveImageFile` | app/src/main/java/com/and04/naturealbum/data/repository/FireBaseRepository.kt:101-109 | a successful upload stores the file at `uid/label/fileName` and nothing else; the download URL is returned, or the call throws; the document store is untouched |
| `RepositoryProperties.StoragePathInjective` | app/src/main/java/com/and04/naturealbum/data/repository/FireBaseRepository.kt:107 | when neither the uid nor the label contains '/', the upload path determines uid, label and file name |
| `RepositoryProperties.StoragePathCollision` | app/src/main/java/com/and04/naturealbum/data/repository/FireBaseRepository.kt:107 | without that condition, two different (uid, label) pairs share a path |
| `FireBaseRepository.FireBaseRepositoryImpl.RunTransaction` | app/src/main/java/com/and04/naturealbum/data/repository/FireBaseRepository.kt:149-160 | the recorded writes are committed together when the commit succeeds; otherwise the store is unchanged |
| `FireBaseRepository.FireBaseRepositoryImpl.SendFriendRequest` | app/src/main/java/com/and04/naturealbum/data/repository/FireBaseRepository.kt:143-165 | returns true and commits both request writes, or returns false with the store unchanged; never only one mirror |
| `RepositoryProperties.SendFriendRequestEffect` | app/src/main/java/com/and04/naturealbum/data/repository/FireBaseRepository.kt:144-159 | both `uid/FRIEND_REQUESTS/t` and `t/FRIEND_REQUESTS/uid` exist with requestedAt equal to the call's time; nothing else changes |
| `RepositoryProperties.SendFriendRequestBothSent` | app/src/main/java/com/and04/naturealbum/data/repository/FireBaseRepository.kt:145-159 | as written both mirrors have status "sent", so the sent/received pair never arises in either direction |
| `RepositoryProperties.SendFriendRequestIdempotent` | app/src/main/java/com/and04/naturealbum/data/repository/FireBaseRepository.kt:149-159 | re-sending with the same time changes nothing |
| `FireBaseRepository.FireBaseRepositoryImpl.AcceptFriendRequest` | app/src/main/java/com/and04/naturealbum/data/repository/FireBaseRepository.kt:168-200 | returns true and commits the two friend writes and the two request deletes together, or returns false with the store unchanged |
| `RepositoryProperties.AcceptFriendRequestEffect` | app/src/main/java/com/and04/naturealbum/data/repository/FireBaseRepository.kt:169-195 | both FRIENDS documents exist with the same addedAt, neither FRIEND_REQUESTS document exists, nothing else changes |
| `RepositoryProperties.AcceptFriendRequestIdempotent` | app/src/main/java/com/and04/naturealbum/data/repository/FireBaseRepository.kt:173-195 | accepting again gives the same store as accepting once at the later time |
| `RepositoryProperties.AcceptFriendRequestFriends` | app/src/main/java/com/and04/naturealbum/data/repository/FireBaseRepository.kt:175-184 | each side's set of friends grows by exactly the other user |
| `FireBaseRepository.FireBaseRepositoryImpl.RejectFriendRequest` | app/src/main/java/com/and04/naturealbum/data/repository/FireBaseRepository.kt:203-220 | returns true and deletes both request documents together, or returns false with the store unchanged |
| `RepositoryProperties.RejectFriendRequestEffect` | app/src/main/java/com/and04/naturealbum/data/repository/FireBaseRepository.kt:204-216 | neither request document exists; every other document, FRIENDS included, is unchanged; with no request pending the store is unchanged |
| `RepositoryProperties.RejectFriendRequestIdempotent` | app/src/main/java/com/and04/naturealbum/data/repository/FireBaseRepository.kt:205-215 | rejecting twice is rejecting once |
| `RepositoryProperties.RejectUndoesSend` | app/src/main/java/com/and04/naturealbum/data/repository/FireBaseRepository.kt:143-220 | the target's reject of a pair's only request restores the store exactly as it was before the send |
| `RepositoryProperties.FriendRequestLifecycle` | app/src/main/java/com/and04/naturealbum/data/repository/FireBaseRepository.kt:143-220 | strangers become Pending by send; the target's accept then makes them Befriended, and the target's reject makes them Strangers again |
| `RepositoryProperties.AcceptAlwaysBefriends` | app/src/main/java/com/and04/naturealbum/data/repository/FireBaseRepository.kt:168-200 | accept makes the pair Befriended from any state, with or without a pending request |
| `RepositoryProperties.SendBetweenFriends` | app/src/main/java/com/and04/naturealbum/data/repository/FireBaseRepository.kt:143-165 | a send between friends leaves friend and request documents at the same time |
| `RepositoryProperties.SendPreservesMirrored` | app/src/main/java/com/and04/naturealbum/data/repository/FireBaseRepository.kt:149-160 | send keeps every friend and request document paired with its mirror, with equal timestamps |
| `RepositoryProperties.AcceptPreservesMirrored` | app/src/main/java/com/and04/naturealbum/data/repository/FireBaseRepository.kt:173-195 | accept keeps the mirror invariant |
| `RepositoryProperties.RejectPreservesMirrored` | app/src/main/java/com/and04/naturealbum/data/repository/FireBaseRepository.kt:205-215 | reject keeps the mirror invariant |
| `RepositoryProperties.OtherWritesPreserveMirrored` | app/src/main/java/com/and04/naturealbum/data/repository/FireBaseRepository.kt:66-139 | any commit that names no friend or request document keeps the mirror invariant |
| `RepositoryProperties.UpsertsPreserveMirrored` | app/src/main/java/com/and04/naturealbum/data/repository/FireBaseRepository.kt:66-139 | createUserIfNotExists, insertLabel and insertPhotoInfo keep the mirror invariant |
| `RoomData.WithLabel` | app/src/main/java/com/and04/naturealbum/ui/savephoto/SavePhotoViewModel.kt:49 | the label is appended under the next generated id, which keeps the id invariant; other tables are untouched |
| `RoomData.WithPhoto` | app/src/main/java/com/and04/naturealbum/ui/savephoto/SavePhotoViewModel.kt:53-64 | the photo is appended under the next generated id, which keeps the id invariant; other tables are untouched |
| `RoomData.WithAlbum` | app/src/main/java/com/and04/naturealbum/ui/savephoto/SavePhotoViewModel.kt:68-73 | the album row is appended under the next generated id, which keeps the id invariant |
| `RoomData.WithUpdatedAlbum` | app/src/main/java/com/and04/naturealbum/ui/savephoto/SavePhotoViewModel.kt:75-79 | the row with the given primary key is rewritten; keys are unchanged |
| `RoomData.FirstAlbumIndex` | app/src/main/java/com/and04/naturealbum/ui/savephoto/SavePhotoViewModel.kt:76 | the position of the label's first album row: every earlier row belongs to another label |
| `RoomData.AlbumsOfFirst` | app/src/main/java/com/and04/naturealbum/ui/savephoto/SavePhotoViewModel.kt:66-76 | the lookup is empty exactly when the label has no row; otherwise `first()` is the label's first row in table order |
| `RoomData.AlbumsOfMembers` | app/src/main/java/com/and04/naturealbum/ui/savephoto/SavePhotoViewModel.kt:52 | the lookup returns exactly the rows of the label |
| `RoomData.AlbumsOfAtMostOne` | app/src/main/java/com/and04/naturealbum/ui/savephoto/SavePhotoViewModel.kt:52 | with at most one row per label the lookup returns at most one row |
| `RoomData.UpdateFirstRow` | app/src/main/java/com/and04/naturealbum/ui/savephoto/SavePhotoViewModel.kt:75-79 | updating `first()` with a new photo id changes that row alone, because primary keys are unique |
| `RoomData.LocalCache.InsertLabel` | app/src/main/java/com/and04/naturealbum/ui/savephoto/SavePhotoViewModel.kt:49 | stores the label under a fresh id and returns that id |
| `RoomData.LocalCache.GetAlbumByLabelId` | app/src/main/java/com/and04/naturealbum/ui/savephoto/SavePhotoViewModel.kt:52 | returns the label's album rows in table order, changing nothing |
| `RoomData.LocalCache.InsertPhoto` | app/src/main/java/com/and04/naturealbum/ui/savephoto/SavePhotoViewModel.kt:53-64 | stores the photo under a fresh id and returns that id |
| `RoomData.LocalCache.InsertPhotoInAlbum` | app/src/main/java/com/and04/naturealbum/ui/savephoto/SavePhotoViewModel.kt:68-73 | stores the album row under a fresh id |
| `RoomData.LocalCache.UpdateAlbum` | app/src/main/java/com/and04/naturealbum/ui/savephoto/SavePhotoViewModel.kt:75-79 | rewrites the row with the album's primary key |
| `SavePhoto.SavePhotoEffect` | app/src/main/java/com/and04/naturealbum/ui/savephoto/SavePhotoViewModel.kt:46-87 | the tables and final state of one save; the id invariant of all three tables is kept |
| `SavePhoto.SavePhotoViewModel.SavePhoto` | app/src/main/java/com/and04/naturealbum/ui/savephoto/SavePhotoViewModel.kt:36-89 | the repository, the final state and whether the launched coroutine fails end as `SavePhotoEffect` says; the state flow holds Loading and then Success or Idle |
| `SavePhoto.SavePhotoViewModel.SaveInRepository` | app/src/main/java/com/and04/naturealbum/ui/savephoto/SavePhotoViewModel.kt:47-82 | the repository calls in await order; completed is false when the catch runs (which the race parameter decides for a never-awaited failed photo insert), and the coroutine fails exactly when an async block throws |
| `SavePhoto.SavePhotoLabelResolution` | app/src/main/java/com/and04/naturealbum/ui/savephoto/SavePhotoViewModel.kt:48-50 | a NEW_LABEL label is inserted under a fresh id, and that id is used; any other label is not inserted and its own id is used |
| `SavePhoto.SavePhotoInsertsOnePhoto` | app/src/main/java/com/and04/naturealbum/ui/savephoto/SavePhotoViewModel.kt:53-64 | exactly one PhotoDetail is added, with the resolved label id and the call's uri, file name, coordinates, description and time, unless an earlier call throws |
| `SavePhoto.SavePhotoAlbumPlacement` | app/src/main/java/com/and04/naturealbum/ui/savephoto/SavePhotoViewModel.kt:66-82 | no row for the label: one `Album(labelId, newPhoto)` is added whatever isRepresented says; rows and isRepresented: only the first row's photo id changes; rows and not isRepresented: albums unchanged |
| `SavePhoto.SavePhotoFinalState` | app/src/main/java/com/and04/naturealbum/ui/savephoto/SavePhotoViewModel.kt:83-87 | the state ends Success when none of the calls made throws and Idle when one does, except that a failed photo insert whose id is never awaited ends Success when its failure lands after the emit; a failure of the album lookup or the photo insert fails the coroutine, other failures are caught; a failed save never changes the albums; a label inserted before a later failure stays, and so does the photo when the album insert or update throws |
| `SavePhoto.SavePhotoKeepsOneAlbumPerLabel` | app/src/main/java/com/and04/naturealbum/ui/savephoto/SavePhotoViewModel.kt:66-82 | from at most one album row per label, any save, failed or not, keeps at most one row per label |
| `SavePhoto.HeronScenario` | app/src/main/java/com/and04/naturealbum/ui/savephoto/SavePhotoViewModel.kt:66-82 | a label without an album: the first photo becomes its representative, a second not-represented photo leaves it, a third represented one replaces it |

## Left out

- The Compose screens (`AlbumFolderScreen.kt`, `HomeScreen.kt`, `RoundedShapeButton.kt`, `MainActivity.kt`): rendering, permission dialogs, the camera intent and anonymous sign-in, with no store logic.
- `getGeneratedContent`: a call to the Vertex AI model, external to the app's logic.
- `getLabel`, `getLabels`, `getFriends`, `getFriendRequests`: plain SDK reads with no store change. `getFriends` and `getFriendRequests` ignore `uid` and read under a fresh random document id.
- Firestore and Storage transport: `Task`, `await`, listeners, retries of a transaction body on contention. Every SDK call is one step that succeeds or fails by a parameter.
- `InsertLabel`, `InsertPhotoInfo`: the success listener is assumed to run before `await()` resumes. The Kotlin code does not enforce that order, so the function could also return `false` after a successful write.
- `SaveImageFile`: the download URL is a parameter (an opaque value), and the uploaded bytes are the source `Uri`.
- `SavePhoto`, `SaveInRepository`, `SavePhotoEffect`, `SavePhotoFinalState`: the two `async` blocks of savePhoto run sequentially, lookup first. They touch different tables, so the order does not change the tables. When the lookup throws, the model does not run the photo insert, although concurrently it might already have completed. A failure in an async block is recorded as the coroutine failing (`jobFailed`); what the scope's uncaught-exception handler then does (on Android, by default, end the process) is not modelled. The race between a never-awaited failed photo insert and the final emit is the parameter `photoFailsFirst`, not a model of the scheduler.
- Cancellation of the view-model scope from outside the save is not modelled.
- `CreateUserIfNotExistsEffect`, `InsertLabelUpsert`, `InsertPhotoInfoUpsert`, `SendFriendRequestEffect`, `AcceptFriendRequestEffect`, `RejectFriendRequestEffect` and the mirror lemmas take every uid, label name, file name and target uid as one path segment of its own. The SDK's `document(String)` splits its argument at '/': a uid such as `"a/LABEL/x"` addresses the label document `x` of user `a`, and an empty string or a key with an odd number of segments throws `IllegalArgumentException`, which `createUserIfNotExists` and the friend-request methods catch as `false` and `insertLabel`, `insertPhotoInfo` do not catch. The model gives every string its own document, so these lemmas hold only for ids and keys that are non-empty and contain no '/'.
- `toInt()` on the generated label and photo ids is not modelled as 32-bit truncation. Ids are unbounded; truncation matters only after 2^31 rows.
- `data/room` (Label, PhotoDetail, Album entities, `NEW_LABEL`) and `DataRepository` are not part of this model. `NEW_LABEL` is taken as 0, since Room generates ids from 1. Album rows have a generated primary key `id`, which `updateAlbum` matches on. Foreign-key and uniqueness constraints of the schema are not modelled.
- `LocalDateTime.now()` values are parameters. Latitude and longitude are opaque 64-bit patterns; no floating point is modelled.
- Concurrent saves, and accept and reject racing on one request, are not modelled. Every call runs alone.
