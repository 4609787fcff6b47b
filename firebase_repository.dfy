/**
 * FireBaseRepositoryImpl: the remote half of the app. Every operation reads or writes documents of
 * the store in `Firestore`; the three friend operations run as one transaction each, and a failed
 * SDK call surfaces either as a thrown exception or, where the Kotlin code catches it, as `false`.
 * SDK failures are parameters of the methods (`readOk`, `writeOk`, `putOk`, `commitOk`), and so
 * are the values of `LocalDateTime.now()` (`now`) and of the download URL.
 */
module FireBaseRepository {
  import opened Common
  import opened FirebaseDto
  import opened Firestore

  const DEFAULT_DISPLAY_NAME: string := "NoName User"
  const DEFAULT_PHOTO_URL: string := ""
  const SENT: string := "sent"
  const RECEIVED: string := "received"

  function LabelRef(uid: Uid, labelName: string): DocRef { SubRef(uid, Labels, labelName) }
  function PhotoRef(uid: Uid, fileName: string): DocRef { SubRef(uid, Photos, fileName) }
  function FriendRef(owner: Uid, other: Uid): DocRef { SubRef(owner, Friends, other) }
  function RequestRef(owner: Uid, other: Uid): DocRef { SubRef(owner, FriendRequests, other) }

  /** The user document created for a new user, with the defaults for a missing name or photo. */
  function NewUserDoc(displayName: Option<string>, email: string, photoUrl: Option<string>): (d: Doc) {
    UserDoc(displayName.GetOr(DEFAULT_DISPLAY_NAME), email, photoUrl.GetOr(DEFAULT_PHOTO_URL))
  }

  /** The write createUserIfNotExists issues after reading `s`: none when the user document exists. */
  function CreateUserWrites(s: Store, uid: Uid, displayName: Option<string>, email: string,
                            photoUrl: Option<string>): (ws: seq<Write>)
  {
    if UserRef(uid) in s then [] else [SetDoc(UserRef(uid), NewUserDoc(displayName, email, photoUrl))]
  }

  function InsertLabelWrites(uid: Uid, labelName: string, labelData: FirebaseLabel): (ws: seq<Write>) {
    [SetDoc(LabelRef(uid, labelName), LabelDoc(labelData))]
  }

  function InsertPhotoInfoWrites(uid: Uid, fileName: string, photoData: FirebasePhotoInfo): (ws: seq<Write>) {
    [SetDoc(PhotoRef(uid, fileName), PhotoDoc(photoData))]
  }

  /** The transaction of sendFriendRequest as written: both mirrors receive the "sent" request. */
  function SendFriendRequestWrites(uid: Uid, targetUid: Uid, now: LocalDateTime): (ws: seq<Write>) {
    var friendRequest := RequestDoc(FirebaseFriendRequest(now, SENT));
    [SetDoc(RequestRef(uid, targetUid), friendRequest),
     SetDoc(RequestRef(targetUid, uid), friendRequest)]
  }

  function AcceptFriendRequestWrites(uid: Uid, targetUid: Uid, now: LocalDateTime): (ws: seq<Write>) {
    var friendData := FriendDoc(FirebaseFriend(now));
    [SetDoc(FriendRef(uid, targetUid), friendData),
     SetDoc(FriendRef(targetUid, uid), friendData),
     DeleteDoc(RequestRef(uid, targetUid)),
     DeleteDoc(RequestRef(targetUid, uid))]
  }

  function RejectFriendRequestWrites(uid: Uid, targetUid: Uid): (ws: seq<Write>) {
    [DeleteDoc(RequestRef(uid, targetUid)),
     DeleteDoc(RequestRef(targetUid, uid))]
  }

  /** The Storage path an image is uploaded to. */
  function StoragePath(uid: Uid, labelName: string, fileName: string): (path: string) {
    uid + "/" + labelName + "/" + fileName
  }

  /** The transaction handle passed to the body of `runTransaction`: it records the writes. */
  class Transaction {
    var writes: seq<Write>

    constructor ()
      ensures writes == []
    {
      writes := [];
    }

    method Set(r: DocRef, d: Doc)
      modifies this
      ensures writes == old(writes) + [SetDoc(r, d)]
    {
      writes := writes + [SetDoc(r, d)];
    }

    method Delete(r: DocRef)
      modifies this
      ensures writes == old(writes) + [DeleteDoc(r)]
    {
      writes := writes + [DeleteDoc(r)];
    }
  }

  class FireBaseRepositoryImpl {
    /** The Firestore database. */
    var docs: Store
    /** Firebase Storage: the file uploaded at each path. */
    var blobs: map<string, Uri>

    constructor (docs: Store, blobs: map<string, Uri>)
      ensures this.docs == docs && this.blobs == blobs
    {
      this.docs := docs;
      this.blobs := blobs;
    }

    /** Reads `USER/uid`; writes the default user document only when it is absent. */
    method CreateUserIfNotExists(uid: Uid, displayName: Option<string>, email: string,
                                 photoUrl: Option<string>, readOk: bool, writeOk: bool)
      returns (b: bool)
      modifies this
      ensures b == (readOk && (UserRef(uid) in old(docs) || writeOk))
      ensures docs == if b then Commit(old(docs), CreateUserWrites(old(docs), uid, displayName, email, photoUrl))
                      else old(docs)
      ensures blobs == old(blobs)
    {
      if !readOk {
        return false;
      }
      var userDocExists := UserRef(uid) in docs;
      if !userDocExists {
        if !writeOk {
          return false;
        }
        docs := docs[UserRef(uid) := NewUserDoc(displayName, email, photoUrl)];
      }
      return true;
    }

    /** Uploads `uri` to `uid/labelName/fileName` and returns the download URL; both awaits may throw. */
    method SaveImageFile(uid: Uid, labelName: string, fileName: string, uri: Uri,
                         putOk: bool, downloadUrl: Option<Uri>)
      returns (r: Outcome<Uri>)
      modifies this
      ensures blobs == if putOk then old(blobs)[StoragePath(uid, labelName, fileName) := uri] else old(blobs)
      ensures r == if putOk && downloadUrl.Some? then Returned(downloadUrl.value) else Thrown
      ensures docs == old(docs)
    {
      if !putOk {
        return Thrown;
      }
      blobs := blobs[StoragePath(uid, labelName, fileName) := uri];
      if downloadUrl.None? {
        return Thrown;
      }
      return Returned(downloadUrl.value);
    }

    /** Sets `USER/uid/LABEL/labelName`; the flag is raised by the success listener, and a failed
        write throws out of `await()`. */
    method InsertLabel(uid: Uid, labelName: string, labelData: FirebaseLabel, writeOk: bool)
      returns (r: Outcome<bool>)
      modifies this
      ensures r == if writeOk then Returned(true) else Thrown
      ensures docs == if writeOk then Commit(old(docs), InsertLabelWrites(uid, labelName, labelData))
                      else old(docs)
      ensures blobs == old(blobs)
    {
      var requestSuccess := false;
      if !writeOk {
        return Thrown;
      }
      docs := docs[LabelRef(uid, labelName) := LabelDoc(labelData)];
      requestSuccess := true;
      return Returned(requestSuccess);
    }

    /** Sets `USER/uid/PHOTOS/fileName`, like InsertLabel. */
    method InsertPhotoInfo(uid: Uid, fileName: string, photoData: FirebasePhotoInfo, writeOk: bool)
      returns (r: Outcome<bool>)
      modifies this
      ensures r == if writeOk then Returned(true) else Thrown
      ensures docs == if writeOk then Commit(old(docs), InsertPhotoInfoWrites(uid, fileName, photoData))
                      else old(docs)
      ensures blobs == old(blobs)
    {
      var requestSuccess := false;
      if !writeOk {
        return Thrown;
      }
      docs := docs[PhotoRef(uid, fileName) := PhotoDoc(photoData)];
      requestSuccess := true;
      return Returned(requestSuccess);
    }

    /** `runTransaction(...).await()`: the recorded writes are committed together or not at all. */
    method RunTransaction(tx: Transaction, commitOk: bool) returns (committed: bool)
      modifies this
      ensures committed == commitOk
      ensures docs == if commitOk then Commit(old(docs), tx.writes) else old(docs)
      ensures blobs == old(blobs)
    {
      if commitOk {
        docs := Commit(docs, tx.writes);
      }
      return commitOk;
    }

    method SendFriendRequest(uid: Uid, targetUid: Uid, now: LocalDateTime, commitOk: bool)
      returns (b: bool)
      modifies this
      ensures b == commitOk
      ensures docs == if b then Commit(old(docs), SendFriendRequestWrites(uid, targetUid, now)) else old(docs)
      ensures blobs == old(blobs)
    {
      var requestTime := now;
      var friendRequest := FirebaseFriendRequest(requestTime, SENT);
      var targetFriendRequest := friendRequest.(status := RECEIVED);  // built but never written
      var tx := new Transaction();
      tx.Set(RequestRef(uid, targetUid), RequestDoc(friendRequest));
      tx.Set(RequestRef(targetUid, uid), RequestDoc(friendRequest));
      assert tx.writes == SendFriendRequestWrites(uid, targetUid, now);
      b := RunTransaction(tx, commitOk);
    }

    method AcceptFriendRequest(uid: Uid, targetUid: Uid, now: LocalDateTime, commitOk: bool)
      returns (b: bool)
      modifies this
      ensures b == commitOk
      ensures docs == if b then Commit(old(docs), AcceptFriendRequestWrites(uid, targetUid, now)) else old(docs)
      ensures blobs == old(blobs)
    {
      var friendData := FirebaseFriend(now);
      var tx := new Transaction();
      tx.Set(FriendRef(uid, targetUid), FriendDoc(friendData));
      tx.Set(FriendRef(targetUid, uid), FriendDoc(friendData));
      tx.Delete(RequestRef(uid, targetUid));
      tx.Delete(RequestRef(targetUid, uid));
      assert tx.writes == AcceptFriendRequestWrites(uid, targetUid, now);
      b := RunTransaction(tx, commitOk);
    }

    method RejectFriendRequest(uid: Uid, targetUid: Uid, commitOk: bool) returns (b: bool)
      modifies this
      ensures b == commitOk
      ensures docs == if b then Commit(old(docs), RejectFriendRequestWrites(uid, targetUid)) else old(docs)
      ensures blobs == old(blobs)
    {
      var tx := new Transaction();
      tx.Delete(RequestRef(uid, targetUid));
      tx.Delete(RequestRef(targetUid, uid));
      assert tx.writes == RejectFriendRequestWrites(uid, targetUid);
      b := RunTransaction(tx, commitOk);
    }
  }
}
