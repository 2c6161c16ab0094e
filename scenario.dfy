/** A client of the handlers' contracts: the catalog walk-through of a movie,
    one comment, an edit by someone else and the author's delete. */
module Scenario {
  import opened Wrappers
  import opened Records
  import opened Store
  import Text
  import CommentController
  import MovieController

  /** The identifiers the engine accepts in this walk-through. */
  predicate KnownId(s: string) {
    s == "m1" || s == "c1"
  }

  const Dune := MovieInput(Some("Dune"), Some("Sci-Fi"), Some("http://x/i.jpg"), Some("desert planet"))
  const M1: Movie := Doc("m1", 0, MovieFields("Dune", "Sci-Fi", "http://x/i.jpg", "desert planet"))
  const C1: Comment := Doc("c1", 1, CommentFields("great film", "alice", "m1"))

  /** Creating the movie answers 201 and stores it. */
  method CreateDune() returns (db: Database)
    ensures db.Valid() && db.validId == KnownId && db.online
    ensures db.movies == [M1] && db.comments == [] && db.clock == 1
    ensures fresh(db)
  {
    db := new Database(KnownId);
    var r := MovieController.CreateMovie(db, Dune, "m1");
    assert r.status == 201;
  }

  /** Alice's comment answers 201; Bob's edit of it answers 403 and changes nothing. */
  method CommentOnDune(db: Database)
    requires db.Valid() && db.validId == KnownId && db.online
    requires db.movies == [M1] && db.comments == [] && db.clock == 1
    modifies db
    ensures db.Valid() && db.validId == KnownId && db.online
    ensures db.movies == [M1] && db.comments == [C1]
  {
    Text.TrimUnpadded("great film");
    Text.TrimUnpadded("alice");
    assert Lookup(db.movies, "m1") == Some(M1);
    var r := CommentController.CreateComment(db, "m1", Some("great film"), Some("alice"), "c1");
    assert r == Reply(201, OneComment(C1));
    Text.TrimUnpadded("bob");
    assert Lookup(db.comments, "c1") == Some(C1);
    r := CommentController.UpdateComment(db, "c1", Some("even better"), Some("bob"));
    assert r.status == 403;
  }

  /** Alice's delete answers 200, and the movie's listing is then empty. */
  method AliceDeletes(db: Database)
    requires db.Valid() && db.validId == KnownId && db.online
    requires db.movies == [M1] && db.comments == [C1]
    modifies db
  {
    Text.TrimUnpadded("alice");
    assert Lookup(db.comments, "c1") == Some(C1);
    var r := CommentController.DeleteComment(db, "c1", Some("alice"));
    assert r.status == 200;
    assert db.comments == [];
    r := CommentController.GetCommentsByMovieId(db, "m1");
    assert r == Reply(200, Comments([]));
  }

  method DuneWalkthrough() {
    var db := CreateDune();
    CommentOnDune(db);
    AliceDeletes(db);
  }
}
