/** The like handlers (src/controllers/like.controllers.js), over the Like
    collection: one record per (type, target, user) that liked it. */
module Likes {

  import opened Common
  import opened Seqs
  import opened Store

  /** The route's `type` parameter for each kind of target. */
  function KindName(k: LikeKind): string {
    match k
    case OnVideo => "video"
    case OnComment => "comment"
    case OnTweet => "tweet"
  }

  /** `validTypes.includes(type)`, and which reference field the type selects. */
  function ParseKind(t: string): (r: Option<LikeKind>)
    ensures r.Some? <==> t == "video" || t == "comment" || t == "tweet"
    ensures r.Some? ==> KindName(r.value) == t
  {
    if t == "video" then Some(OnVideo)
    else if t == "comment" then Some(OnComment)
    else if t == "tweet" then Some(OnTweet)
    else None
  }

  /** Every kind's name parses back to that kind. */
  lemma ParseKindName(k: LikeKind)
    ensures ParseKind(KindName(k)) == Some(k)
  {
  }

  /** The collection after a toggle of `like`: the first matching record
      deleted if there is one, else a new record appended. Nobody else's like
      and no other target's like changes. */
  function Toggled(likes: seq<Like>, like: Like): (r: seq<Like>)
    ensures forall x :: x != like ==> multiset(r)[x] == multiset(likes)[x]
    ensures like in likes ==> multiset(r)[like] == multiset(likes)[like] - 1
    ensures like !in likes ==> multiset(r)[like] == 1 && r == likes + [like]
    ensures LikesOk(likes) ==> LikesOk(r) && (like in r <==> like !in likes)
  {
    match IndexOf(likes, like)
    case Some(i) => RemoveAt(likes, i)
    case None =>
      assert likes + [like] == AppendIfAbsent(likes, like);
      likes + [like]
  }

  /** `Like.countDocuments({[type]: targetId})`: the likes of one target, by anyone. */
  function LikesOn(likes: seq<Like>, kind: LikeKind, target: Id): (r: seq<Like>)
    ensures forall l :: l in r <==> l in likes && l.kind == kind && l.target == target
  {
    Filter(likes, (l: Like) => l.kind == kind && l.target == target)
  }

  datatype LikeOutcome = Liked | Unliked

  /** toggleLike: a malformed target id (400) is rejected before an unknown
      type (400); otherwise the requester's like of the target is removed if it
      exists and created if it does not. */
  method ToggleLike(db: Database, me: Id, targetId: Id, likeType: string) returns (r: Response<LikeOutcome>)
    requires db.Valid()
    modifies db`likes
    ensures db.Valid()
    ensures !ValidId(targetId) ==> r == Error(400, "Invalid ID")
    ensures ValidId(targetId) && ParseKind(likeType).None? ==> r == Error(400, "Invalid type")
    ensures r.Error? ==> db.likes == old(db.likes)
    ensures r.Ok? <==> ValidId(targetId) && ParseKind(likeType).Some?
    ensures r.Ok? ==>
              var like := Like(ParseKind(likeType).value, targetId, me);
              && db.likes == Toggled(old(db.likes), like)
              && r == Ok(200, if like in old(db.likes) then Unliked else Liked)
  {
    if !ValidId(targetId) {
      return Error(400, "Invalid ID");
    }
    var kind := ParseKind(likeType);
    if kind.None? {
      return Error(400, "Invalid type");
    }
    var like := Like(kind.value, targetId, me);
    var existing := IndexOf(db.likes, like);
    if existing.Some? {
      db.likes := RemoveAt(db.likes, existing.value);
      return Ok(200, Unliked);
    }
    db.likes := db.likes + [like];
    r := Ok(200, Liked);
  }

  /** getLikeCount: the same two checks, then the number of likes of the target. */
  method GetLikeCount(db: Database, targetId: Id, likeType: string) returns (r: Response<nat>)
    ensures !ValidId(targetId) ==> r == Error(400, "Invalid ID")
    ensures ValidId(targetId) && ParseKind(likeType).None? ==> r == Error(400, "Invalid type")
    ensures r.Ok? <==> ValidId(targetId) && ParseKind(likeType).Some?
    ensures r.Ok? ==> r.code == 200 && r.value == |LikesOn(db.likes, ParseKind(likeType).value, targetId)|
  {
    if !ValidId(targetId) {
      return Error(400, "Invalid ID");
    }
    var kind := ParseKind(likeType);
    if kind.None? {
      return Error(400, "Invalid type");
    }
    r := Ok(200, |LikesOn(db.likes, kind.value, targetId)|);
  }

  /** Toggling a like that did not exist, then toggling again, restores the collection exactly. */
  lemma {:induction false} ToggleTwiceFromAbsent(likes: seq<Like>, like: Like)
    requires like !in likes
    ensures Toggled(Toggled(likes, like), like) == likes
  {
    RemoveAtUndoesAppend(likes, like);
  }

  /** In a collection with at most one like per (type, target, user), two
      toggles restore the same likes (the re-created record goes to the end). */
  lemma {:induction false} ToggleTwiceRestores(likes: seq<Like>, like: Like)
    requires LikesOk(likes)
    ensures multiset(Toggled(Toggled(likes, like), like)) == multiset(likes)
  {
    if like !in likes {
      ToggleTwiceFromAbsent(likes, like);
    } else {
      var once := Toggled(likes, like);
      assert like !in once;
      assert multiset(Toggled(once, like)) == multiset(once) + multiset{like};
    }
  }

  /** A toggle moves the count of its own target by exactly one, in the
      direction of its outcome, and leaves every other target's count alone. */
  lemma {:induction false} ToggleCounts(likes: seq<Like>, like: Like, kind: LikeKind, target: Id)
    ensures var before := |LikesOn(likes, kind, target)|;
            var after := |LikesOn(Toggled(likes, like), kind, target)|;
            if like.kind == kind && like.target == target then
              after == (if like in likes then before - 1 else before + 1)
            else
              after == before
  {
    var keep := (l: Like) => l.kind == kind && l.target == target;
    match IndexOf(likes, like)
    case Some(i) => FilterRemoveAtLength(likes, i, keep);
    case None => FilterAppendLength(likes, like, keep);
  }
}
