/** The movie catalog handlers: list, get, create, update and delete. Create
    checks that all four fields are given; update and delete check nothing
    but the identifier's format. */
module MovieController {
  import opened Wrappers
  import opened Text
  import opened Records
  import opened Store

  /** Create's completeness check: all four fields present and non-empty. */
  predicate Complete(input: MovieInput) {
    Present(input.title) && Present(input.category) && Present(input.image) && Present(input.description)
  }

  /** The fields a create stores: the body's values as given, not trimmed. */
  function NewFields(input: MovieInput): MovieFields
    requires Complete(input)
  {
    MovieFields(input.title.value, input.category.value, input.image.value, input.description.value)
  }

  /** The overwrite update applies: every supplied field replaces the stored
      one, whatever its value (the empty string included); absent fields stay. */
  function Overwrite(f: MovieFields, patch: MovieInput): (g: MovieFields)
    ensures patch == MovieInput(None, None, None, None) ==> g == f
    ensures Complete(patch) ==> g == NewFields(patch)
  {
    MovieFields(patch.title.GetOr(f.title), patch.category.GetOr(f.category),
                patch.image.GetOr(f.image), patch.description.GetOr(f.description))
  }

  /** Applying the same body twice is applying it once. */
  lemma OverwriteLaws(f: MovieFields, patch: MovieInput)
    ensures Overwrite(Overwrite(f, patch), patch) == Overwrite(f, patch)
  {
  }

  /** GET /movies: every stored movie, with caching disabled. */
  method GetMovies(db: Database) returns (r: Response)
    requires db.Valid()
    ensures db.online ==> r == Response(200, Data(Movies(db.movies)), true)
    ensures !db.online ==> r == Reject(500, "Server Error")
  {
    if !db.online {
      return Reject(500, "Server Error");
    }
    r := Response(200, Data(Movies(db.movies)), true);
  }

  /** GET /movies/{id}: a malformed and an absent identifier both give 404. */
  method GetMovieById(db: Database, id: string) returns (r: Response)
    requires db.Valid()
    ensures !db.validId(id) ==> r == Reject(404, "Invalid Movie Id!")
    ensures db.validId(id) && !db.online ==> r == Reject(500, "Server Error")
    ensures db.validId(id) && db.online && Lookup(db.movies, id).None? ==>
              r == Reject(404, "Movie not found!")
    ensures db.validId(id) && db.online && Lookup(db.movies, id).Some? ==>
              r == Reply(200, OneMovie(Lookup(db.movies, id).value))
  {
    if !db.validId(id) {
      return Reject(404, "Invalid Movie Id!");
    }
    if !db.online {
      return Reject(500, "Server Error");
    }
    var k := IndexOf(db.movies, id);
    if k == |db.movies| {
      return Reject(404, "Movie not found!");
    }
    r := Reply(200, OneMovie(db.movies[k]));
  }

  /** POST /movies. `newId` is the identifier the engine generates. */
  method CreateMovie(db: Database, input: MovieInput, newId: string) returns (r: Response)
    requires db.Valid()
    modifies db`movies, db`clock
    ensures db.Valid()
    ensures !Complete(input) ==> r == Reject(400, "Please provide all fields") && unchanged(db)
    ensures Complete(input) && !db.online ==> r == Reject(500, "Server Error") && unchanged(db)
    ensures Complete(input) && db.online && Lookup(old(db.movies), newId).Some? ==>
              r == Reject(500, "Server Error") && unchanged(db)
    ensures Complete(input) && db.online && Lookup(old(db.movies), newId).None? ==>
              var m := Doc(newId, old(db.clock), NewFields(input));
              r == Reply(201, OneMovie(m))
              && db.movies == old(db.movies) + [m] && db.clock == old(db.clock) + 1
  {
    if !Complete(input) {
      return Reject(400, "Please provide all fields");
    }
    if !db.online {
      return Reject(500, "Server Error");
    }
    var saved := db.InsertMovie(newId, NewFields(input));
    if saved.None? {
      return Reject(500, "Server Error");
    }
    r := Reply(201, OneMovie(saved.value));
  }

  /** PUT /movies/{id}: no completeness check; an absent but well-formed
      identifier still answers 200, with null data. */
  method UpdateMovie(db: Database, id: string, patch: MovieInput) returns (r: Response)
    requires db.Valid()
    modifies db`movies
    ensures db.Valid()
    ensures !db.validId(id) ==> r == Reject(404, "Invalid Movie Id!") && unchanged(db)
    ensures db.validId(id) && !db.online ==> r == Reject(500, "Server Error") && unchanged(db)
    ensures db.validId(id) && db.online && Lookup(old(db.movies), id).None? ==>
              r == Reply(200, Null) && unchanged(db)
    ensures db.validId(id) && db.online && Lookup(old(db.movies), id).Some? ==>
              var m0 := Lookup(old(db.movies), id).value;
              var m := m0.(fields := Overwrite(m0.fields, patch));
              r == Reply(200, OneMovie(m))
              && db.movies == old(db.movies)[Position(old(db.movies), id) := m]
  {
    if !db.validId(id) {
      return Reject(404, "Invalid Movie Id!");
    }
    if !db.online {
      return Reject(500, "Server Error");
    }
    var updated := db.UpdateMovie(id, f => Overwrite(f, patch));
    if updated.None? {
      return Reply(200, Null);
    }
    r := Reply(200, OneMovie(updated.value));
  }

  /** DELETE /movies/{id}: succeeds for every well-formed identifier, whether
      or not a movie has it, and leaves the comments alone. */
  method DeleteMovie(db: Database, id: string) returns (r: Response)
    requires db.Valid()
    modifies db`movies
    ensures db.Valid()
    ensures db.comments == old(db.comments)
    ensures !db.validId(id) ==> r == Reject(404, "Invalid Movie Id!") && unchanged(db)
    ensures db.validId(id) && !db.online ==> r == Reject(500, "Server Error!") && unchanged(db)
    ensures db.validId(id) && db.online ==>
              r == Response(200, Done("Movie Deleted!"), false)
              && db.movies == WithoutId(old(db.movies), id)
              && forall i :: 0 <= i < |db.movies| ==> db.movies[i].id != id
  {
    if !db.validId(id) {
      return Reject(404, "Invalid Movie Id!");
    }
    if !db.online {
      return Reject(500, "Server Error!");
    }
    WithoutIdIdempotent(db.movies, id);
    db.DeleteMovie(id);
    r := Response(200, Done("Movie Deleted!"), false);
  }

  /** What a create stores, a lookup by the new identifier returns with all
      four fields as they were sent. */
  lemma CreateThenGet(before: seq<Movie>, input: MovieInput, newId: string, clock: nat)
    requires DistinctIds(before) && Lookup(before, newId).None? && Complete(input)
    ensures var m := Lookup(before + [Doc(newId, clock, NewFields(input))], newId);
      m.Some? && m.value.fields == MovieFields(input.title.value, input.category.value,
                                               input.image.value, input.description.value)
  {
    var after := before + [Doc(newId, clock, NewFields(input))];
    assert DistinctIds(after);
    LookupFindsStored(after, Doc(newId, clock, NewFields(input)));
  }
}
