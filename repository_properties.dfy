/**
 * What the operations of FireBaseRepositoryImpl do to the store: the document each one writes or
 * deletes, that nothing else changes, how the friend transactions move a pair of users between
 * the states of the friend-request lifecycle, and the mirror invariant they keep.
 */
module RepositoryProperties {
  import opened Common
  import opened FirebaseDto
  import opened Firestore
  import opened FireBaseRepository

  lemma CommitOne(s: Store, w: Write)
    ensures Commit(s, [w]) == Apply(s, w)
  {
  }

  lemma CommitTwo(s: Store, w1: Write, w2: Write)
    ensures Commit(s, [w1, w2]) == Apply(Apply(s, w1), w2)
  {
    assert [w1, w2][1..] == [w2];
    CommitOne(Apply(s, w1), w2);
  }

  lemma CommitFour(s: Store, w1: Write, w2: Write, w3: Write, w4: Write)
    ensures Commit(s, [w1, w2, w3, w4]) == Apply(Apply(Apply(Apply(s, w1), w2), w3), w4)
  {
    assert [w1, w2, w3, w4][1..] == [w2, w3, w4];
    assert [w2, w3, w4][1..] == [w3, w4];
    CommitTwo(Apply(Apply(s, w1), w2), w3, w4);
  }

  // ---------------------------------------------------------------- createUserIfNotExists

  /** The user document exists afterwards; an existing one is kept as it was, a missing one is
      created with the given fields and the defaults for a missing name or photo URL; no other
      document changes. */
  lemma CreateUserIfNotExistsEffect(s: Store, uid: Uid, displayName: Option<string>, email: string,
                                    photoUrl: Option<string>)
    ensures var s' := Commit(s, CreateUserWrites(s, uid, displayName, email, photoUrl));
      && UserRef(uid) in s'
      && (UserRef(uid) in s ==> s' == s)
      && (UserRef(uid) !in s ==>
            && s'[UserRef(uid)].UserDoc?
            && s'[UserRef(uid)].displayName == (if displayName.Some? then displayName.value else "NoName User")
            && s'[UserRef(uid)].email == email
            && s'[UserRef(uid)].photoUrl == (if photoUrl.Some? then photoUrl.value else ""))
      && (forall r :: r != UserRef(uid) ==> Get(s', r) == Get(s, r))
  {
    if UserRef(uid) !in s {
      CommitOne(s, SetDoc(UserRef(uid), NewUserDoc(displayName, email, photoUrl)));
    }
  }

  /** Once the user document exists, calling again (with any arguments) changes nothing. */
  lemma CreateUserIfNotExistsIdempotent(s: Store, uid: Uid, displayName: Option<string>, email: string,
                                        photoUrl: Option<string>, displayName2: Option<string>,
                                        email2: string, photoUrl2: Option<string>)
    ensures var s1 := Commit(s, CreateUserWrites(s, uid, displayName, email, photoUrl));
      Commit(s1, CreateUserWrites(s1, uid, displayName2, email2, photoUrl2)) == s1
  {
    CreateUserIfNotExistsEffect(s, uid, displayName, email, photoUrl);
  }

  // ---------------------------------------------------------------- insertLabel, insertPhotoInfo

  /** insertLabel is an upsert keyed by the label name: the document holds the given data
      afterwards, nothing else changes, and repeating the call changes nothing more. */
  lemma InsertLabelUpsert(s: Store, uid: Uid, labelName: string, labelData: FirebaseLabel)
    ensures var s' := Commit(s, InsertLabelWrites(uid, labelName, labelData));
      && Get(s', LabelRef(uid, labelName)) == Some(LabelDoc(labelData))
      && (forall r :: r != LabelRef(uid, labelName) ==> Get(s', r) == Get(s, r))
      && Commit(s', InsertLabelWrites(uid, labelName, labelData)) == s'
  {
    var w := SetDoc(LabelRef(uid, labelName), LabelDoc(labelData));
    CommitOne(s, w);
    CommitOne(Apply(s, w), w);
  }

  /** insertPhotoInfo is an upsert keyed by the file name, like insertLabel. */
  lemma InsertPhotoInfoUpsert(s: Store, uid: Uid, fileName: string, photoData: FirebasePhotoInfo)
    ensures var s' := Commit(s, InsertPhotoInfoWrites(uid, fileName, photoData));
      && Get(s', PhotoRef(uid, fileName)) == Some(PhotoDoc(photoData))
      && (forall r :: r != PhotoRef(uid, fileName) ==> Get(s', r) == Get(s, r))
      && Commit(s', InsertPhotoInfoWrites(uid, fileName, photoData)) == s'
  {
    var w := SetDoc(PhotoRef(uid, fileName), PhotoDoc(photoData));
    CommitOne(s, w);
    CommitOne(Apply(s, w), w);
  }

  // ---------------------------------------------------------------- saveImageFile

  lemma FirstSlash(a: string, b: string)
    requires '/' !in a
    ensures (a + "/" + b)[|a|] == '/'
    ensures forall i :: 0 <= i < |a| ==> (a + "/" + b)[i] != '/'
  {
  }

  lemma SplitAtSlash(a: string, b: string, c: string, d: string)
    requires '/' !in a && '/' !in c
    requires a + "/" + b == c + "/" + d
    ensures a == c && b == d
  {
    var x := a + "/" + b;
    FirstSlash(a, b);
    FirstSlash(c, d);
    assert |a| == |c|;
    assert a == x[..|a|];
    assert c == (c + "/" + d)[..|c|];
    assert b == x[|a| + 1..];
    assert d == (c + "/" + d)[|c| + 1..];
  }

  /** The upload path `uid/label/fileName` names one upload: when neither the user id nor the
      label contains a slash, the path determines all three parts. */
  lemma StoragePathInjective(uid1: Uid, label1: string, fileName1: string,
                             uid2: Uid, label2: string, fileName2: string)
    requires '/' !in uid1 && '/' !in uid2 && '/' !in label1 && '/' !in label2
    requires StoragePath(uid1, label1, fileName1) == StoragePath(uid2, label2, fileName2)
    ensures uid1 == uid2 && label1 == label2 && fileName1 == fileName2
  {
    assert StoragePath(uid1, label1, fileName1) == uid1 + "/" + (label1 + "/" + fileName1);
    assert StoragePath(uid2, label2, fileName2) == uid2 + "/" + (label2 + "/" + fileName2);
    SplitAtSlash(uid1, label1 + "/" + fileName1, uid2, label2 + "/" + fileName2);
    SplitAtSlash(label1, fileName1, label2, fileName2);
  }

  /** Without that condition two different uploads can share a path. */
  lemma StoragePathCollision()
    ensures StoragePath("a/b", "c", "d") == StoragePath("a", "b/c", "d")
  {
  }

  // ---------------------------------------------------------------- sendFriendRequest

  /** The status of the request document `owner/FRIEND_REQUESTS/other`, if there is one. */
  function RequestStatus(s: Store, owner: Uid, other: Uid): (status: Option<string>) {
    match Get(s, RequestRef(owner, other))
    case Some(RequestDoc(q)) => Some(q.status)
    case _ => None
  }

  /** The intended pending pair: the initiator holds "sent" and the target "received", the two
      requests sendFriendRequest builds. */
  predicate SentReceived(s: Store, initiator: Uid, target: Uid) {
    RequestStatus(s, initiator, target) == Some(SENT) && RequestStatus(s, target, initiator) == Some(RECEIVED)
  }

  /** Both mirror request documents exist afterwards with the same `requestedAt` (the call's
      `now`); no other document changes. */
  lemma SendFriendRequestEffect(s: Store, uid: Uid, targetUid: Uid, now: LocalDateTime)
    ensures var s' := Commit(s, SendFriendRequestWrites(uid, targetUid, now));
      && Get(s', RequestRef(uid, targetUid)).Some? && s'[RequestRef(uid, targetUid)].RequestDoc?
      && Get(s', RequestRef(targetUid, uid)).Some? && s'[RequestRef(targetUid, uid)].RequestDoc?
      && s'[RequestRef(uid, targetUid)].request.requestedAt == now
      && s'[RequestRef(targetUid, uid)].request.requestedAt == now
      && (forall r :: r != RequestRef(uid, targetUid) && r != RequestRef(targetUid, uid) ==>
            Get(s', r) == Get(s, r))
  {
    var d := RequestDoc(FirebaseFriendRequest(now, SENT));
    CommitTwo(s, SetDoc(RequestRef(uid, targetUid), d), SetDoc(RequestRef(targetUid, uid), d));
  }

  /** As written, the "received" copy is never stored: both mirrors carry status "sent", so the
      intended sent/received pair never arises from sendFriendRequest. */
  lemma SendFriendRequestBothSent(s: Store, uid: Uid, targetUid: Uid, now: LocalDateTime)
    ensures var s' := Commit(s, SendFriendRequestWrites(uid, targetUid, now));
      && RequestStatus(s', uid, targetUid) == Some("sent")
      && RequestStatus(s', targetUid, uid) == Some("sent")
      && !SentReceived(s', uid, targetUid)
      && !SentReceived(s', targetUid, uid)
  {
    var d := RequestDoc(FirebaseFriendRequest(now, SENT));
    CommitTwo(s, SetDoc(RequestRef(uid, targetUid), d), SetDoc(RequestRef(targetUid, uid), d));
    assert SENT != RECEIVED;
  }

  /** Re-sending the same request overwrites both mirrors with the same content. */
  lemma SendFriendRequestIdempotent(s: Store, uid: Uid, targetUid: Uid, now: LocalDateTime)
    ensures var s' := Commit(s, SendFriendRequestWrites(uid, targetUid, now));
      Commit(s', SendFriendRequestWrites(uid, targetUid, now)) == s'
  {
    var d := RequestDoc(FirebaseFriendRequest(now, SENT));
    var w1, w2 := SetDoc(RequestRef(uid, targetUid), d), SetDoc(RequestRef(targetUid, uid), d);
    var s' := Commit(s, [w1, w2]);
    CommitTwo(s, w1, w2);
    CommitTwo(s', w1, w2);
    StoreExtensional(Commit(s', [w1, w2]), s');
  }

  // ---------------------------------------------------------------- acceptFriendRequest

  /** Both friend documents exist afterwards with the same `addedAt`, neither request document
      exists, and no other document changes. Nothing checks that a request was pending. */
  lemma AcceptFriendRequestEffect(s: Store, uid: Uid, targetUid: Uid, now: LocalDateTime)
    ensures var s' := Commit(s, AcceptFriendRequestWrites(uid, targetUid, now));
      && Get(s', FriendRef(uid, targetUid)) == Some(FriendDoc(FirebaseFriend(now)))
      && Get(s', FriendRef(targetUid, uid)) == Some(FriendDoc(FirebaseFriend(now)))
      && Get(s', RequestRef(uid, targetUid)) == None
      && Get(s', RequestRef(targetUid, uid)) == None
      && (forall r :: r != FriendRef(uid, targetUid) && r != FriendRef(targetUid, uid) &&
                      r != RequestRef(uid, targetUid) && r != RequestRef(targetUid, uid) ==>
            Get(s', r) == Get(s, r))
  {
    var d := FriendDoc(FirebaseFriend(now));
    CommitFour(s, SetDoc(FriendRef(uid, targetUid), d), SetDoc(FriendRef(targetUid, uid), d),
               DeleteDoc(RequestRef(uid, targetUid)), DeleteDoc(RequestRef(targetUid, uid)));
  }

  /** Accepting again (at a later time) gives the same store as accepting once at that time:
      the documents are keyed by user id, so nothing is duplicated. */
  lemma AcceptFriendRequestIdempotent(s: Store, uid: Uid, targetUid: Uid, t1: LocalDateTime, t2: LocalDateTime)
    ensures Commit(Commit(s, AcceptFriendRequestWrites(uid, targetUid, t1)), AcceptFriendRequestWrites(uid, targetUid, t2))
         == Commit(s, AcceptFriendRequestWrites(uid, targetUid, t2))
  {
    var s1 := Commit(s, AcceptFriendRequestWrites(uid, targetUid, t1));
    AcceptFriendRequestEffect(s, uid, targetUid, t1);
    AcceptFriendRequestEffect(s1, uid, targetUid, t2);
    AcceptFriendRequestEffect(s, uid, targetUid, t2);
    StoreExtensional(Commit(s1, AcceptFriendRequestWrites(uid, targetUid, t2)),
                     Commit(s, AcceptFriendRequestWrites(uid, targetUid, t2)));
  }

  /** The users `u` holds a FRIENDS document for. */
  function FriendsOf(s: Store, u: Uid): (friends: set<Uid>) {
    set r | r in s && r.SubRef? && r.uid == u && r.collection == Friends :: r.key
  }

  lemma FriendsOfMember(s: Store, u: Uid, k: Uid)
    ensures k in FriendsOf(s, u) <==> FriendRef(u, k) in s
  {
  }

  /** Each side gains exactly the other as a friend; every other friend entry stays. */
  lemma AcceptFriendRequestFriends(s: Store, uid: Uid, targetUid: Uid, now: LocalDateTime)
    ensures var s' := Commit(s, AcceptFriendRequestWrites(uid, targetUid, now));
      && FriendsOf(s', uid) == FriendsOf(s, uid) + {targetUid}
      && FriendsOf(s', targetUid) == FriendsOf(s, targetUid) + {uid}
  {
    var s' := Commit(s, AcceptFriendRequestWrites(uid, targetUid, now));
    AcceptFriendRequestEffect(s, uid, targetUid, now);
    forall u, k | u == uid || u == targetUid
      ensures k in FriendsOf(s', u) <==> k in FriendsOf(s, u) || k == (if u == uid then targetUid else uid)
    {
      FriendsOfMember(s', u, k);
      FriendsOfMember(s, u, k);
      assert Get(s', FriendRef(u, k)).Some? <==> FriendRef(u, k) in s';
      assert Get(s, FriendRef(u, k)).Some? <==> FriendRef(u, k) in s;
    }
  }

  // ---------------------------------------------------------------- rejectFriendRequest

  /** Neither request document exists afterwards; every other document, the FRIENDS documents
      included, is unchanged; with no request pending the call changes nothing. */
  lemma RejectFriendRequestEffect(s: Store, uid: Uid, targetUid: Uid)
    ensures var s' := Commit(s, RejectFriendRequestWrites(uid, targetUid));
      && Get(s', RequestRef(uid, targetUid)) == None
      && Get(s', RequestRef(targetUid, uid)) == None
      && (forall r :: r != RequestRef(uid, targetUid) && r != RequestRef(targetUid, uid) ==>
            Get(s', r) == Get(s, r))
      && (forall u, v :: Get(s', FriendRef(u, v)) == Get(s, FriendRef(u, v)))
      && (Get(s, RequestRef(uid, targetUid)) == None && Get(s, RequestRef(targetUid, uid)) == None ==> s' == s)
  {
    var s' := Commit(s, RejectFriendRequestWrites(uid, targetUid));
    CommitTwo(s, DeleteDoc(RequestRef(uid, targetUid)), DeleteDoc(RequestRef(targetUid, uid)));
    if Get(s, RequestRef(uid, targetUid)) == None && Get(s, RequestRef(targetUid, uid)) == None {
      StoreExtensional(s', s);
    }
  }

  /** Rejecting twice is rejecting once. */
  lemma RejectFriendRequestIdempotent(s: Store, uid: Uid, targetUid: Uid)
    ensures var s' := Commit(s, RejectFriendRequestWrites(uid, targetUid));
      Commit(s', RejectFriendRequestWrites(uid, targetUid)) == s'
  {
    var s' := Commit(s, RejectFriendRequestWrites(uid, targetUid));
    RejectFriendRequestEffect(s, uid, targetUid);
    RejectFriendRequestEffect(s', uid, targetUid);
  }

  /** When the target rejects a request that was the pair's only one, the store is exactly as it
      was before the request was sent. */
  lemma RejectUndoesSend(s: Store, uid: Uid, targetUid: Uid, now: LocalDateTime)
    requires Get(s, RequestRef(uid, targetUid)) == None && Get(s, RequestRef(targetUid, uid)) == None
    ensures Commit(Commit(s, SendFriendRequestWrites(uid, targetUid, now)), RejectFriendRequestWrites(targetUid, uid)) == s
  {
    var s1 := Commit(s, SendFriendRequestWrites(uid, targetUid, now));
    SendFriendRequestEffect(s, uid, targetUid, now);
    RejectFriendRequestEffect(s1, targetUid, uid);
    StoreExtensional(Commit(s1, RejectFriendRequestWrites(targetUid, uid)), s);
  }

  // ---------------------------------------------------------------- the lifecycle of a pair

  datatype PairState = Strangers | Pending | Befriended | PendingWhileFriends

  /** Where the pair (a, b) stands, judged from the four documents that relate them. */
  function PairStateOf(s: Store, a: Uid, b: Uid): (p: PairState) {
    var requested := Get(s, RequestRef(a, b)).Some? || Get(s, RequestRef(b, a)).Some?;
    var friends := Get(s, FriendRef(a, b)).Some? || Get(s, FriendRef(b, a)).Some?;
    if !requested && !friends then Strangers
    else if requested && !friends then Pending
    else if !requested then Befriended
    else PendingWhileFriends
  }

  /** send takes strangers to Pending; the target's accept then takes them to Befriended, and the
      target's reject back to Strangers. */
  lemma FriendRequestLifecycle(s: Store, a: Uid, b: Uid, t1: LocalDateTime, t2: LocalDateTime)
    requires PairStateOf(s, a, b) == Strangers
    ensures var sent := Commit(s, SendFriendRequestWrites(a, b, t1));
      && PairStateOf(sent, a, b) == Pending
      && PairStateOf(Commit(sent, AcceptFriendRequestWrites(b, a, t2)), a, b) == Befriended
      && PairStateOf(Commit(sent, RejectFriendRequestWrites(b, a)), a, b) == Strangers
  {
    var sent := Commit(s, SendFriendRequestWrites(a, b, t1));
    SendFriendRequestEffect(s, a, b, t1);
    AcceptFriendRequestEffect(sent, b, a, t2);
    RejectUndoesSend(s, a, b, t1);
  }

  /** accept takes a pair to Befriended from any state: the code does not check for a pending
      request. */
  lemma AcceptAlwaysBefriends(s: Store, uid: Uid, targetUid: Uid, now: LocalDateTime)
    ensures PairStateOf(Commit(s, AcceptFriendRequestWrites(uid, targetUid, now)), uid, targetUid) == Befriended
  {
    AcceptFriendRequestEffect(s, uid, targetUid, now);
  }

  /** Nothing stops a request between friends: the pair then holds friend and request documents
      at once. */
  lemma SendBetweenFriends(s: Store, uid: Uid, targetUid: Uid, now: LocalDateTime)
    requires PairStateOf(s, uid, targetUid) == Befriended
    ensures PairStateOf(Commit(s, SendFriendRequestWrites(uid, targetUid, now)), uid, targetUid) == PendingWhileFriends
  {
    SendFriendRequestEffect(s, uid, targetUid, now);
  }

  // ---------------------------------------------------------------- the mirror invariant

  function Stamp(d: Option<Doc>): (at: Option<LocalDateTime>) {
    match d
    case Some(FriendDoc(f)) => Some(f.addedAt)
    case Some(RequestDoc(q)) => Some(q.requestedAt)
    case _ => None
  }

  predicate IsRelation(c: SubCollection) {
    c == Friends || c == FriendRequests
  }

  function Edge(s: Store, c: SubCollection, owner: Uid, other: Uid): (d: Option<Doc>) {
    Get(s, SubRef(owner, c, other))
  }

  /** Friend and request documents come in mirrored pairs: `u/C/t` exists exactly when `t/C/u`
      does, and the two carry the same timestamp. */
  ghost predicate Mirrored(s: Store) {
    forall c, u, t | IsRelation(c) ::
      Edge(s, c, u, t).Some? == Edge(s, c, t, u).Some? && Stamp(Edge(s, c, u, t)) == Stamp(Edge(s, c, t, u))
  }

  lemma SendPreservesMirrored(s: Store, uid: Uid, targetUid: Uid, now: LocalDateTime)
    requires Mirrored(s)
    ensures Mirrored(Commit(s, SendFriendRequestWrites(uid, targetUid, now)))
  {
    var s' := Commit(s, SendFriendRequestWrites(uid, targetUid, now));
    SendFriendRequestEffect(s, uid, targetUid, now);
    forall c, u, t | IsRelation(c)
      ensures Edge(s', c, u, t).Some? == Edge(s', c, t, u).Some? && Stamp(Edge(s', c, u, t)) == Stamp(Edge(s', c, t, u))
    {
      assert Edge(s, c, u, t).Some? == Edge(s, c, t, u).Some? && Stamp(Edge(s, c, u, t)) == Stamp(Edge(s, c, t, u));
    }
  }

  lemma AcceptPreservesMirrored(s: Store, uid: Uid, targetUid: Uid, now: LocalDateTime)
    requires Mirrored(s)
    ensures Mirrored(Commit(s, AcceptFriendRequestWrites(uid, targetUid, now)))
  {
    var s' := Commit(s, AcceptFriendRequestWrites(uid, targetUid, now));
    AcceptFriendRequestEffect(s, uid, targetUid, now);
    forall c, u, t | IsRelation(c)
      ensures Edge(s', c, u, t).Some? == Edge(s', c, t, u).Some? && Stamp(Edge(s', c, u, t)) == Stamp(Edge(s', c, t, u))
    {
      assert Edge(s, c, u, t).Some? == Edge(s, c, t, u).Some? && Stamp(Edge(s, c, u, t)) == Stamp(Edge(s, c, t, u));
    }
  }

  lemma RejectPreservesMirrored(s: Store, uid: Uid, targetUid: Uid)
    requires Mirrored(s)
    ensures Mirrored(Commit(s, RejectFriendRequestWrites(uid, targetUid)))
  {
    var s' := Commit(s, RejectFriendRequestWrites(uid, targetUid));
    RejectFriendRequestEffect(s, uid, targetUid);
    forall c, u, t | IsRelation(c)
      ensures Edge(s', c, u, t).Some? == Edge(s', c, t, u).Some? && Stamp(Edge(s', c, u, t)) == Stamp(Edge(s', c, t, u))
    {
      assert Edge(s, c, u, t).Some? == Edge(s, c, t, u).Some? && Stamp(Edge(s, c, u, t)) == Stamp(Edge(s, c, t, u));
    }
  }

  /** Writes that name no friend or request document keep the mirror invariant: this covers
      createUserIfNotExists, insertLabel and insertPhotoInfo. */
  lemma OtherWritesPreserveMirrored(s: Store, ws: seq<Write>)
    requires Mirrored(s)
    requires forall i :: 0 <= i < |ws| ==> !(ws[i].ref.SubRef? && IsRelation(ws[i].ref.collection))
    ensures Mirrored(Commit(s, ws))
  {
    var s' := Commit(s, ws);
    forall c, u, t | IsRelation(c)
      ensures Edge(s', c, u, t).Some? == Edge(s', c, t, u).Some? && Stamp(Edge(s', c, u, t)) == Stamp(Edge(s', c, t, u))
    {
      CommitUntouched(s, ws, SubRef(u, c, t));
      CommitUntouched(s, ws, SubRef(t, c, u));
      assert Edge(s, c, u, t).Some? == Edge(s, c, t, u).Some? && Stamp(Edge(s, c, u, t)) == Stamp(Edge(s, c, t, u));
    }
  }

  lemma UpsertsPreserveMirrored(s: Store, uid: Uid, labelName: string, labelData: FirebaseLabel,
                                fileName: string, photoData: FirebasePhotoInfo,
                                displayName: Option<string>, email: string, photoUrl: Option<string>)
    requires Mirrored(s)
    ensures Mirrored(Commit(s, InsertLabelWrites(uid, labelName, labelData)))
    ensures Mirrored(Commit(s, InsertPhotoInfoWrites(uid, fileName, photoData)))
    ensures Mirrored(Commit(s, CreateUserWrites(s, uid, displayName, email, photoUrl)))
  {
    OtherWritesPreserveMirrored(s, InsertLabelWrites(uid, labelName, labelData));
    OtherWritesPreserveMirrored(s, InsertPhotoInfoWrites(uid, fileName, photoData));
    OtherWritesPreserveMirrored(s, CreateUserWrites(s, uid, displayName, email, photoUrl));
  }
}
