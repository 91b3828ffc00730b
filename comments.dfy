/** The comment handlers (src/controllers/comment.controllers.js). */
module Comments {

  import opened Common
  import opened Seqs
  import opened Store

  /** `Comment.find({video})`: the comments on one video, in no particular order. */
  function CommentsOn(comments: map<Id, Comment>, videoId: Id): (r: set<Comment>)
    ensures forall c :: c in r <==> c in comments.Values && c.video == videoId
  {
    set k | k in comments && comments[k].video == videoId :: comments[k]
  }

  /** The creation time by which listings are ordered. */
  function CommentTime(c: Comment): int {
    c.createdAt
  }

  /** addComment: content and video id are both required (400), the video id
      must be well formed (400); the new comment keeps the content as sent. The
      video's existence is not checked. */
  method AddComment(db: Database, me: Id, content: Option<string>, videoId: Option<string>,
                    newId: Id, now: int) returns (r: Response<Comment>)
    requires db.Valid() && newId !in db.comments
    modifies db`comments
    ensures db.Valid()
    ensures !Truthy(content) || !Truthy(videoId) ==> r == Error(400, "All fields are required")
    ensures Truthy(content) && Truthy(videoId) && !ValidId(videoId.value) ==> r == Error(400, "Invalid video ID")
    ensures r.Error? ==> db.comments == old(db.comments)
    ensures r.Ok? <==> Truthy(content) && Truthy(videoId) && ValidId(videoId.value)
    ensures r.Ok? ==> && r == Ok(201, Comment(newId, content.value, videoId.value, me, now))
                      && db.comments == old(db.comments)[newId := r.value]
  {
    if !Truthy(content) || !Truthy(videoId) {
      return Error(400, "All fields are required");
    }
    if !ValidId(videoId.value) {
      return Error(400, "Invalid video ID");
    }
    var comment := Comment(newId, content.value, videoId.value, me, now);
    db.comments := db.comments[newId := comment];
    r := Ok(201, comment);
  }

  /** getCommentsByVideo: 400 for a malformed id; otherwise every comment on
      the video, each once, newest first. */
  method GetCommentsByVideo(db: Database, videoId: Id) returns (r: Response<seq<Comment>>)
    ensures !ValidId(videoId) ==> r == Error(400, "Invalid video ID")
    ensures r.Ok? <==> ValidId(videoId)
    ensures r.Ok? ==> && r.code == 200
                      && multiset(r.value) == multiset(CommentsOn(db.comments, videoId))
                      && NewestFirst(r.value, CommentTime)
  {
    if !ValidId(videoId) {
      return Error(400, "Invalid video ID");
    }
    var listed := SortNewestFirst(CommentsOn(db.comments, videoId), CommentTime);
    r := Ok(200, listed);
  }

  /** deleteComment: malformed id (400), missing comment (404), not the owner
      (403); otherwise exactly that comment is gone. */
  method DeleteComment(db: Database, me: Id, commentId: Id) returns (r: Response<()>)
    requires db.Valid()
    modifies db`comments
    ensures db.Valid()
    ensures !ValidId(commentId) ==> r == Error(400, "Invalid comment ID")
    ensures ValidId(commentId) && commentId !in old(db.comments) ==> r == Error(404, "Comment not found")
    ensures ValidId(commentId) && commentId in old(db.comments) && old(db.comments)[commentId].owner != me ==>
              r == Error(403, "You are not authorized to delete this comment")
    ensures r.Error? ==> db.comments == old(db.comments)
    ensures r.Ok? <==> ValidId(commentId) && commentId in old(db.comments) && old(db.comments)[commentId].owner == me
    ensures r.Ok? ==> r.code == 200 && db.comments == old(db.comments) - {commentId}
  {
    if !ValidId(commentId) {
      return Error(400, "Invalid comment ID");
    }
    if commentId !in db.comments {
      return Error(404, "Comment not found");
    }
    if db.comments[commentId].owner != me {
      return Error(403, "You are not authorized to delete this comment");
    }
    db.comments := db.comments - {commentId};
    r := Ok(200, ());
  }

  /** editComment: malformed id (400), blank content (400), missing comment
      (404), not the owner (403); otherwise the content is replaced by the text
      as sent (untrimmed) and every other field kept. */
  method EditComment(db: Database, me: Id, commentId: Id, content: Option<string>) returns (r: Response<Comment>)
    requires db.Valid()
    modifies db`comments
    ensures db.Valid()
    ensures !ValidId(commentId) ==> r == Error(400, "Invalid comment ID")
    ensures ValidId(commentId) && Blank(content) ==> r == Error(400, "Comment content is required")
    ensures ValidId(commentId) && !Blank(content) && commentId !in old(db.comments) ==>
              r == Error(404, "Comment not found")
    ensures ValidId(commentId) && !Blank(content) && commentId in old(db.comments)
            && old(db.comments)[commentId].owner != me ==>
              r == Error(403, "You are not authorized to edit this comment")
    ensures r.Error? ==> db.comments == old(db.comments)
    ensures r.Ok? <==> && ValidId(commentId) && !Blank(content) && commentId in old(db.comments)
                       && old(db.comments)[commentId].owner == me
    ensures r.Ok? ==> && r == Ok(200, old(db.comments)[commentId].(content := content.value))
                      && db.comments == old(db.comments)[commentId := r.value]
  {
    if !ValidId(commentId) {
      return Error(400, "Invalid comment ID");
    }
    if Blank(content) {
      return Error(400, "Comment content is required");
    }
    if commentId !in db.comments {
      return Error(404, "Comment not found");
    }
    var comment := db.comments[commentId];
    if comment.owner != me {
      return Error(403, "You are not authorized to edit this comment");
    }
    BlankMeansWhiteSpace(content);
    comment := comment.(content := content.value);
    db.comments := db.comments[commentId := comment];
    r := Ok(200, comment);
  }

  /** Deleting a comment just added restores the collection. */
  lemma {:induction false} AddThenDeleteRestores(comments: map<Id, Comment>, c: Comment)
    requires c.id !in comments
    ensures comments[c.id := c] - {c.id} == comments
  {
    assert forall k :: k in comments[c.id := c] - {c.id} <==> k in comments;
  }
}
