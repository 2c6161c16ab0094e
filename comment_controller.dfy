/** The comment thread handlers: each runs its guards in a fixed order, every
    guard ending the request with a status, and only when all pass makes one
    change to the store. */
module CommentController {
  import opened Wrappers
  import opened Text
  import opened Records
  import opened Store

  /** The schema's and the handlers' limit on comment text, in characters. */
  const MaxTextLength: nat := 500

  /** The body checks shared by create and update: text and username both
      present and non-empty, then text no longer than the limit, measured
      before trimming. */
  function CheckTextAndUsername(text: Option<string>, username: Option<string>): (r: Option<Response>)
    ensures r.None? <==> Present(text) && Present(username) && |text.value| <= MaxTextLength
    ensures r.Some? ==> r.value.status == 400 && !r.value.Success()
    ensures !(Present(text) && Present(username)) ==>
              r == Some(Reject(400, "Please provide text and username"))
  {
    if !(Present(text) && Present(username)) then
      Some(Reject(400, "Please provide text and username"))
    else if |text.value| > MaxTextLength then
      Some(Reject(400, "Comment text cannot exceed 500 characters"))
    else
      None
  }

  /** The length boundary: 500 characters pass, 501 are refused; surrounding
      spaces count, since the length is taken before trimming. */
  lemma TextLimitBoundary(t: string, u: string)
    requires u != ""
    ensures |t| == 500 ==> CheckTextAndUsername(Some(t), Some(u)).None?
    ensures |t| == 501 ==> CheckTextAndUsername(Some(t), Some(u))
                           == Some(Reject(400, "Comment text cannot exceed 500 characters"))
    ensures |t| == 500 ==> CheckTextAndUsername(Some(t + " "), Some(u)).Some?
  {
  }

  /** GET /comments/movie/{movieId}. */
  method GetCommentsByMovieId(db: Database, movieId: string) returns (r: Response)
    requires db.Valid()
    ensures !db.validId(movieId) ==> r == Reject(404, "Invalid Movie Id!")
    ensures db.validId(movieId) && !db.online ==> r == Reject(500, "Server Error")
    ensures db.validId(movieId) && db.online ==>
              r == Reply(200, Comments(NewestFor(db.comments, movieId)))
  {
    if !db.validId(movieId) {
      return Reject(404, "Invalid Movie Id!");
    }
    if !db.online {
      return Reject(500, "Server Error");
    }
    var found := FindNewest(db.comments, movieId);
    r := Reply(200, Comments(found));
  }

  /** POST /comments/movie/{movieId}. `newId` is the identifier the engine
      generates for the new document. */
  method CreateComment(db: Database, movieId: string, text: Option<string>,
                       username: Option<string>, newId: string) returns (r: Response)
    requires db.Valid()
    modifies db`comments, db`clock
    ensures db.Valid()
    // 1. identifier format, before anything else
    ensures !db.validId(movieId) ==>
              r == Reject(404, "Invalid Movie Id!") && unchanged(db)
    // 2-3. body checks, before any store access
    ensures db.validId(movieId) && CheckTextAndUsername(text, username).Some? ==>
              r == CheckTextAndUsername(text, username).value && unchanged(db)
    // store failure
    ensures db.validId(movieId) && CheckTextAndUsername(text, username).None? && !db.online ==>
              r == Reject(500, "Server Error") && unchanged(db)
    // 4. the movie must exist
    ensures db.validId(movieId) && CheckTextAndUsername(text, username).None? && db.online
            && Lookup(db.movies, movieId).None? ==>
              r == Reject(404, "Movie not found!") && unchanged(db)
    // a generated identifier that is already taken fails the save
    ensures db.validId(movieId) && CheckTextAndUsername(text, username).None? && db.online
            && Lookup(db.movies, movieId).Some? && Lookup(old(db.comments), newId).Some? ==>
              r == Reject(500, "Server Error") && unchanged(db)
    // success: exactly one comment appended, trimmed, stamped now
    ensures db.validId(movieId) && CheckTextAndUsername(text, username).None? && db.online
            && Lookup(db.movies, movieId).Some? && Lookup(old(db.comments), newId).None? ==>
              var c := Doc(newId, old(db.clock), CommentFields(Trim(text.value), Trim(username.value), movieId));
              r == Response(201, Data(OneComment(c)), false)
              && db.comments == old(db.comments) + [c] && db.clock == old(db.clock) + 1
  {
    if !db.validId(movieId) {
      return Reject(404, "Invalid Movie Id!");
    }
    var problem := CheckTextAndUsername(text, username);
    if problem.Some? {
      return problem.value;
    }
    if !db.online {
      return Reject(500, "Server Error");
    }
    var k := IndexOf(db.movies, movieId);
    if k == |db.movies| {
      return Reject(404, "Movie not found!");
    }
    var saved := db.InsertComment(newId, CommentFields(Trim(text.value), Trim(username.value), movieId));
    if saved.None? {
      return Reject(500, "Server Error");
    }
    r := Reply(201, OneComment(saved.value));
  }

  /** DELETE /comments/{commentId} with body {username}. */
  method DeleteComment(db: Database, commentId: string, username: Option<string>) returns (r: Response)
    requires db.Valid()
    modifies db`comments
    ensures db.Valid()
    ensures !db.validId(commentId) ==>
              r == Reject(404, "Invalid Comment Id!") && unchanged(db)
    ensures db.validId(commentId) && !Present(username) ==>
              r == Reject(400, "Username is required") && unchanged(db)
    ensures db.validId(commentId) && Present(username) && !db.online ==>
              r == Reject(500, "Server Error") && unchanged(db)
    ensures db.validId(commentId) && Present(username) && db.online
            && Lookup(old(db.comments), commentId).None? ==>
              r == Reject(404, "Comment not found!") && unchanged(db)
    // ownership: exact, case-sensitive comparison with the trimmed name
    ensures db.validId(commentId) && Present(username) && db.online
            && Lookup(old(db.comments), commentId).Some?
            && Lookup(old(db.comments), commentId).value.fields.username != Trim(username.value) ==>
              r == Reject(403, "You can only delete your own comments") && unchanged(db)
    ensures db.validId(commentId) && Present(username) && db.online
            && Lookup(old(db.comments), commentId).Some?
            && Lookup(old(db.comments), commentId).value.fields.username == Trim(username.value) ==>
              r == Response(200, Done("Comment deleted successfully!"), false)
              && db.comments == WithoutId(old(db.comments), commentId)
  {
    if !db.validId(commentId) {
      return Reject(404, "Invalid Comment Id!");
    }
    if !Present(username) {
      return Reject(400, "Username is required");
    }
    if !db.online {
      return Reject(500, "Server Error");
    }
    var k := IndexOf(db.comments, commentId);
    if k == |db.comments| {
      return Reject(404, "Comment not found!");
    }
    if db.comments[k].fields.username != Trim(username.value) {
      return Reject(403, "You can only delete your own comments");
    }
    db.DeleteComment(commentId);
    r := Response(200, Done("Comment deleted successfully!"), false);
  }

  /** PUT /comments/{commentId} with body {text, username}. */
  method UpdateComment(db: Database, commentId: string, text: Option<string>,
                       username: Option<string>) returns (r: Response)
    requires db.Valid()
    modifies db`comments
    ensures db.Valid()
    ensures !db.validId(commentId) ==>
              r == Reject(404, "Invalid Comment Id!") && unchanged(db)
    ensures db.validId(commentId) && CheckTextAndUsername(text, username).Some? ==>
              r == CheckTextAndUsername(text, username).value && unchanged(db)
    ensures db.validId(commentId) && CheckTextAndUsername(text, username).None? && !db.online ==>
              r == Reject(500, "Server Error") && unchanged(db)
    ensures db.validId(commentId) && CheckTextAndUsername(text, username).None? && db.online
            && Lookup(old(db.comments), commentId).None? ==>
              r == Reject(404, "Comment not found!") && unchanged(db)
    ensures db.validId(commentId) && CheckTextAndUsername(text, username).None? && db.online
            && Lookup(old(db.comments), commentId).Some?
            && Lookup(old(db.comments), commentId).value.fields.username != Trim(username.value) ==>
              r == Reject(403, "You can only edit your own comments") && unchanged(db)
    // success: only the text of the target comment changes, to the trimmed input
    ensures db.validId(commentId) && CheckTextAndUsername(text, username).None? && db.online
            && Lookup(old(db.comments), commentId).Some?
            && Lookup(old(db.comments), commentId).value.fields.username == Trim(username.value) ==>
              var old_c := Lookup(old(db.comments), commentId).value;
              var c := old_c.(fields := old_c.fields.(text := Trim(text.value)));
              r == Response(200, Data(OneComment(c)), false)
              && db.comments == old(db.comments)[Position(old(db.comments), commentId) := c]
  {
    if !db.validId(commentId) {
      return Reject(404, "Invalid Comment Id!");
    }
    var problem := CheckTextAndUsername(text, username);
    if problem.Some? {
      return problem.value;
    }
    if !db.online {
      return Reject(500, "Server Error");
    }
    var k := IndexOf(db.comments, commentId);
    if k == |db.comments| {
      return Reject(404, "Comment not found!");
    }
    if db.comments[k].fields.username != Trim(username.value) {
      return Reject(403, "You can only edit your own comments");
    }
    var updated := db.UpdateCommentText(commentId, Trim(text.value));
    r := Reply(200, OneComment(updated.value));
  }

  /** A successful update leaves every other comment, and the target's author,
      movie, identifier and stamp, as they were. */
  lemma UpdateTouchesOnlyText(before: seq<Comment>, after: seq<Comment>, commentId: string, t: string)
    requires DistinctIds(before) && Lookup(before, commentId).Some?
    requires var c0 := Lookup(before, commentId).value;
      after == before[Position(before, commentId) := c0.(fields := c0.fields.(text := t))]
    ensures |after| == |before|
    ensures forall i :: 0 <= i < |before| && before[i].id != commentId ==> after[i] == before[i]
    ensures forall i :: 0 <= i < |before| && before[i].id == commentId ==>
              after[i] == Doc(before[i].id, before[i].createdAt,
                              CommentFields(t, before[i].fields.username, before[i].fields.movieId))
  {
  }

  /** A successful delete removes exactly the target comment. */
  lemma DeleteRemovesOnlyTarget(before: seq<Comment>, commentId: string)
    requires DistinctIds(before) && Lookup(before, commentId).Some?
    ensures |WithoutId(before, commentId)| == |before| - 1
    ensures forall c :: c in WithoutId(before, commentId) <==> c in before && c.id != commentId
  {
    WithoutIdKeepsOthers(before, commentId);
  }
}
