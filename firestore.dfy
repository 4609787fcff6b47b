/**
 * The remote document store as the repository sees it: one partition per user id under the
 * collection USER, each partition holding the sub-collections LABEL, PHOTOS, FRIENDS and
 * FRIEND_REQUESTS, each sub-collection mapping a document key to a document. A transaction is a
 * list of set/delete writes that the store commits as one unit, in order.
 */
module Firestore {
  import opened Common
  import opened FirebaseDto

  type Uid = string

  /** The top-level collection that holds one document (and one partition) per user. */
  const USER: string := "USER"

  datatype SubCollection = Labels | Photos | Friends | FriendRequests {
    /** The collection name the repository passes to the SDK. */
    function Name(): string {
      match this
      case Labels => "LABEL"
      case Photos => "PHOTOS"
      case Friends => "FRIENDS"
      case FriendRequests => "FRIEND_REQUESTS"
    }
  }

  /** `USER/uid`, or `USER/uid/<collection>/key`. */
  datatype DocRef = UserRef(uid: Uid) | SubRef(uid: Uid, collection: SubCollection, key: string)

  /** The path segments by which the SDK addresses a document. */
  function Segments(r: DocRef): (p: seq<string>)
    ensures |p| == (if r.UserRef? then 2 else 4) && p[0] == USER && p[1] == r.uid
  {
    match r
    case UserRef(u) => [USER, u]
    case SubRef(u, c, k) => [USER, u, c.Name(), k]
  }

  /** Distinct documents have distinct paths: the collection names are pairwise different. */
  lemma SegmentsInjective(r1: DocRef, r2: DocRef)
    requires Segments(r1) == Segments(r2)
    ensures r1 == r2
  {
  }

  datatype Doc =
    | UserDoc(displayName: string, email: string, photoUrl: string)
    | LabelDoc(labelData: FirebaseLabel)
    | PhotoDoc(photoData: FirebasePhotoInfo)
    | FriendDoc(friend: FirebaseFriend)
    | RequestDoc(request: FirebaseFriendRequest)

  type Store = map<DocRef, Doc>

  function Get(s: Store, r: DocRef): (d: Option<Doc>) {
    if r in s then Some(s[r]) else None
  }

  /** Two stores that agree on every document are the same store. */
  lemma StoreExtensional(a: Store, b: Store)
    requires forall r :: Get(a, r) == Get(b, r)
    ensures a == b
  {
    assert forall r :: r in a <==> Get(a, r).Some?;
    assert a.Keys == b.Keys by {
      forall r ensures r in a <==> r in b {
        assert Get(a, r) == Get(b, r);
      }
    }
    forall r | r in a ensures a[r] == b[r] {
      assert Get(a, r) == Get(b, r);
    }
  }

  datatype Write = SetDoc(ref: DocRef, doc: Doc) | DeleteDoc(ref: DocRef)

  /** What a write leaves at the document it names. */
  function Effect(w: Write): Option<Doc> {
    if w.SetDoc? then Some(w.doc) else None
  }

  function Apply(s: Store, w: Write): (s': Store)
    ensures Get(s', w.ref) == Effect(w)
    ensures forall r :: r != w.ref ==> Get(s', r) == Get(s, r)
  {
    match w
    case SetDoc(r, d) => s[r := d]
    case DeleteDoc(r) => s - {r}
  }

  /** The store after the writes of one transaction have been committed, first to last. */
  function Commit(s: Store, ws: seq<Write>): (c: Store)
    ensures ws == [] ==> c == s
    ensures ws != [] ==> Get(c, ws[|ws| - 1].ref) == Effect(ws[|ws| - 1])
    decreases |ws|
  {
    if ws == [] then s else Commit(Apply(s, ws[0]), ws[1..])
  }

  /** The effect of the last write in `ws` on `r`, or None when no write names `r`. */
  function LastEffect(ws: seq<Write>, r: DocRef): (e: Option<Option<Doc>>)
    decreases |ws|
  {
    if ws == [] then None
    else
      var later := LastEffect(ws[1..], r);
      if later.Some? then later
      else if ws[0].ref == r then Some(Effect(ws[0]))
      else None
  }

  /** Committing a transaction gives every document the effect of its last write, and leaves every
      document that no write names as it was. */
  lemma {:induction false} CommitAt(s: Store, ws: seq<Write>, r: DocRef)
    ensures Get(Commit(s, ws), r) == LastEffect(ws, r).GetOr(Get(s, r))
    decreases |ws|
  {
    if ws != [] {
      CommitAt(Apply(s, ws[0]), ws[1..], r);
    }
  }

  /** A document named by no write of the transaction is unchanged by its commit. */
  lemma CommitUntouched(s: Store, ws: seq<Write>, r: DocRef)
    requires forall i :: 0 <= i < |ws| ==> ws[i].ref != r
    ensures Get(Commit(s, ws), r) == Get(s, r)
  {
    CommitAt(s, ws, r);
    NotNamedNoEffect(ws, r);
  }

  lemma {:induction false} NotNamedNoEffect(ws: seq<Write>, r: DocRef)
    requires forall i :: 0 <= i < |ws| ==> ws[i].ref != r
    ensures LastEffect(ws, r) == None
    decreases |ws|
  {
    if ws != [] {
      assert forall i :: 0 <= i < |ws[1..]| ==> ws[1..][i] == ws[i + 1];
      NotNamedNoEffect(ws[1..], r);
    }
  }
}
