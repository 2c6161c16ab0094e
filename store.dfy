/** An in-memory stand-in for the document store the handlers call: two
    collections kept in insertion order, a clock that stamps each insert, and
    the identifier-format check of the engine, supplied from outside. */
module Store {
  import opened Wrappers
  import opened Records

  /** `.limit(100)` in the comment listing. */
  const ListLimit: nat := 100

  // ---------------------------------------------------------------------------
  // Lookup by identifier (findById)

  /** Index of the first document with identifier `id`, or `|docs|` if none has it. */
  function Position<T>(docs: seq<Doc<T>>, id: string): (k: nat)
    ensures k <= |docs|
    ensures k < |docs| ==> docs[k].id == id
    ensures forall j :: 0 <= j < k ==> docs[j].id != id
  {
    if docs == [] then 0
    else if docs[0].id == id then 0
    else 1 + Position(docs[1..], id)
  }

  /** findById: the document with identifier `id`, if there is one. */
  function Lookup<T>(docs: seq<Doc<T>>, id: string): (r: Option<Doc<T>>)
    ensures r.None? <==> forall i :: 0 <= i < |docs| ==> docs[i].id != id
    ensures r.Some? ==> r.value.id == id && r.value in docs
  {
    var k := Position(docs, id);
    if k < |docs| then Some(docs[k]) else None
  }

  /** Scans the collection for `id`, front to back. */
  method IndexOf<T>(docs: seq<Doc<T>>, id: string) returns (k: nat)
    ensures k == Position(docs, id)
  {
    k := 0;
    while k < |docs| && docs[k].id != id
      invariant k <= |docs|
      invariant forall j :: 0 <= j < k ==> docs[j].id != id
    {
      k := k + 1;
    }
  }

  /** Identifiers are unique within a collection. */
  ghost predicate DistinctIds<T>(docs: seq<Doc<T>>) {
    forall i, j :: 0 <= i < j < |docs| ==> docs[i].id != docs[j].id
  }

  /** Insertion order is creation order: stamps strictly increase. */
  ghost predicate Ascending<T>(docs: seq<Doc<T>>) {
    forall i, j :: 0 <= i < j < |docs| ==> docs[i].createdAt < docs[j].createdAt
  }

  /** Every stamp is earlier than `clock`. */
  ghost predicate StampedBefore<T>(docs: seq<Doc<T>>, clock: nat) {
    forall i :: 0 <= i < |docs| ==> docs[i].createdAt < clock
  }

  /** With unique identifiers, a stored document is what its own identifier finds. */
  lemma LookupFindsStored<T>(docs: seq<Doc<T>>, d: Doc<T>)
    requires DistinctIds(docs) && d in docs
    ensures Lookup(docs, d.id) == Some(d)
  {
    var i :| 0 <= i < |docs| && docs[i] == d;
    var k := Position(docs, d.id);
    assert k <= i;
  }

  // ---------------------------------------------------------------------------
  // Removal by identifier (findByIdAndDelete)

  /** The collection without the first document whose identifier is `id`;
      unchanged when there is none. */
  function WithoutId<T>(docs: seq<Doc<T>>, id: string): (r: seq<Doc<T>>)
    ensures (exists i :: 0 <= i < |docs| && docs[i].id == id) ==> |r| == |docs| - 1
    ensures (forall i :: 0 <= i < |docs| ==> docs[i].id != id) ==> r == docs
  {
    var k := Position(docs, id);
    if k < |docs| then docs[..k] + docs[k + 1..] else docs
  }

  /** Where position `i` of a collection with position `k` removed came from. */
  function Source(k: nat, i: nat): nat {
    if i < k then i else i + 1
  }

  lemma RemovedAt<T>(docs: seq<Doc<T>>, k: nat, i: nat)
    requires k < |docs| && i < |docs| - 1
    ensures var r := docs[..k] + docs[k + 1..];
      |r| == |docs| - 1 && r[i] == docs[Source(k, i)]
  {
  }

  /** Removal keeps identifiers unique, stamps ascending and below any bound. */
  lemma WithoutIdKeepsValid<T>(docs: seq<Doc<T>>, id: string, clock: nat)
    requires DistinctIds(docs) && StampedBefore(docs, clock)
    ensures DistinctIds(WithoutId(docs, id)) && StampedBefore(WithoutId(docs, id), clock)
    ensures Ascending(docs) ==> Ascending(WithoutId(docs, id))
  {
    var k := Position(docs, id);
    if k < |docs| {
      var r := WithoutId(docs, id);
      forall i, j | 0 <= i < j < |r|
        ensures r[i].id != r[j].id
        ensures Ascending(docs) ==> r[i].createdAt < r[j].createdAt
      {
        RemovedAt(docs, k, i);
        RemovedAt(docs, k, j);
      }
      forall i | 0 <= i < |r| ensures r[i].createdAt < clock {
        RemovedAt(docs, k, i);
      }
    }
  }

  /** What survives a removal was stored and has another identifier. */
  lemma WithoutIdOnlyKeeps<T>(docs: seq<Doc<T>>, id: string, d: Doc<T>)
    requires DistinctIds(docs) && d in WithoutId(docs, id)
    ensures d in docs && d.id != id
  {
    var k := Position(docs, id);
    var r := WithoutId(docs, id);
    var i :| 0 <= i < |r| && r[i] == d;
    if k < |docs| {
      RemovedAt(docs, k, i);
      assert docs[Source(k, i)] == d;
    }
  }

  /** Every stored document with another identifier survives a removal. */
  lemma WithoutIdKeepsRest<T>(docs: seq<Doc<T>>, id: string, d: Doc<T>)
    requires d in docs && d.id != id
    ensures d in WithoutId(docs, id)
  {
    var k := Position(docs, id);
    if k < |docs| {
      var i :| 0 <= i < |docs| && docs[i] == d;
      assert i != k;
      var j := if i < k then i else i - 1;
      RemovedAt(docs, k, j);
      assert WithoutId(docs, id)[j] == d;
    }
  }

  /** With unique identifiers, removal takes away exactly the document with `id`. */
  lemma WithoutIdKeepsOthers<T>(docs: seq<Doc<T>>, id: string)
    requires DistinctIds(docs)
    ensures forall d :: d in WithoutId(docs, id) <==> d in docs && d.id != id
  {
    forall d | d in WithoutId(docs, id) ensures d in docs && d.id != id {
      WithoutIdOnlyKeeps(docs, id, d);
    }
    forall d | d in docs && d.id != id ensures d in WithoutId(docs, id) {
      WithoutIdKeepsRest(docs, id, d);
    }
  }

  /** Deleting twice is deleting once, and afterwards nothing has that identifier. */
  lemma WithoutIdIdempotent<T>(docs: seq<Doc<T>>, id: string)
    requires DistinctIds(docs)
    ensures WithoutId(WithoutId(docs, id), id) == WithoutId(docs, id)
    ensures forall i :: 0 <= i < |WithoutId(docs, id)| ==> WithoutId(docs, id)[i].id != id
  {
    WithoutIdKeepsOthers(docs, id);
    var r := WithoutId(docs, id);
    forall i | 0 <= i < |r| ensures r[i].id != id {
      assert r[i] in r;
    }
    assert Position(r, id) == |r|;
  }

  // ---------------------------------------------------------------------------
  // Comment listing: find({movieId}).sort({createdAt: -1}).limit(100)

  /** The comments of `movieId`, in store order. */
  function Matching(comments: seq<Comment>, movieId: string): (r: seq<Comment>)
    ensures |r| <= |comments|
  {
    if comments == [] then []
    else (if comments[0].fields.movieId == movieId then [comments[0]] else [])
         + Matching(comments[1..], movieId)
  }

  function Reverse<T>(s: seq<T>): (r: seq<T>)
    ensures |r| == |s|
  {
    if s == [] then [] else Reverse(s[1..]) + [s[0]]
  }

  /** At most the first `n` elements. */
  function Take<T>(s: seq<T>, n: nat): (r: seq<T>)
    ensures |r| <= n && |r| <= |s| && r == s[..|r|]
    ensures |s| <= n ==> r == s
  {
    if |s| <= n then s else s[..n]
  }

  /** What the listing returns: the comments of `movieId`, newest first, capped. */
  function NewestFor(comments: seq<Comment>, movieId: string): seq<Comment> {
    Take(Reverse(Matching(comments, movieId)), ListLimit)
  }

  lemma {:induction false} MatchingAppend(a: seq<Comment>, b: seq<Comment>, movieId: string)
    ensures Matching(a + b, movieId) == Matching(a, movieId) + Matching(b, movieId)
  {
    if a != [] {
      assert (a + b)[0] == a[0];
      assert (a + b)[1..] == a[1..] + b;
      MatchingAppend(a[1..], b, movieId);
    } else {
      assert a + b == b;
    }
  }

  lemma {:induction false} ReverseAt<T>(s: seq<T>, i: nat)
    requires i < |s|
    ensures Reverse(s)[i] == s[|s| - 1 - i]
  {
    if i < |s| - 1 {
      ReverseAt(s[1..], i);
    }
  }

  lemma {:induction false} MatchingMembers(comments: seq<Comment>, movieId: string)
    ensures forall c :: c in Matching(comments, movieId) <==> c in comments && c.fields.movieId == movieId
  {
    if comments != [] {
      MatchingMembers(comments[1..], movieId);
      assert comments == [comments[0]] + comments[1..];
    }
  }

  lemma {:induction false} MatchingAscending(comments: seq<Comment>, movieId: string)
    requires Ascending(comments)
    ensures Ascending(Matching(comments, movieId))
  {
    if comments != [] {
      MatchingAscending(comments[1..], movieId);
      MatchingMembers(comments[1..], movieId);
      var rest := Matching(comments[1..], movieId);
      forall j | 0 <= j < |rest| ensures comments[0].createdAt < rest[j].createdAt {
        assert rest[j] in comments[1..];
      }
    }
  }

  /** The scan behind the listing: from the newest comment back, collecting
      those of `movieId` until the cap is reached. */
  method FindNewest(comments: seq<Comment>, movieId: string) returns (r: seq<Comment>)
    ensures r == NewestFor(comments, movieId)
  {
    r := [];
    var i := |comments|;
    while i > 0 && |r| < ListLimit
      invariant 0 <= i <= |comments|
      invariant r == Reverse(Matching(comments[i..], movieId))
      invariant |r| <= ListLimit
    {
      i := i - 1;
      assert comments[i..] == [comments[i]] + comments[i + 1..];
      MatchingAppend([comments[i]], comments[i + 1..], movieId);
      assert Matching([comments[i]], movieId) == if comments[i].fields.movieId == movieId then [comments[i]] else [];
      ReverseAppendOne(Matching(comments[i + 1..], movieId), Matching([comments[i]], movieId));
      r := r + Matching([comments[i]], movieId);
    }
    assert comments == comments[..i] + comments[i..];
    MatchingAppend(comments[..i], comments[i..], movieId);
    ReverseAppend(Matching(comments[..i], movieId), Matching(comments[i..], movieId));
  }

  lemma ReverseAppendOne<T>(s: seq<T>, d: seq<T>)
    requires |d| <= 1
    ensures Reverse(d + s) == Reverse(s) + d
  {
    if d != [] {
      assert d == [d[0]];
      assert (d + s)[0] == d[0];
      assert (d + s)[1..] == s;
    } else {
      assert d + s == s;
    }
  }

  /** Reversing a concatenation reverses the order of the parts; the listing
      only looks at the part that comes first. */
  lemma {:induction false} ReverseAppend<T>(a: seq<T>, b: seq<T>)
    ensures Reverse(a + b) == Reverse(b) + Reverse(a)
  {
    if a != [] {
      assert (a + b)[0] == a[0];
      assert (a + b)[1..] == a[1..] + b;
      ReverseAppend(a[1..], b);
      assert Reverse(a + b) == Reverse(b) + Reverse(a[1..]) + [a[0]];
    } else {
      assert a + b == b;
    }
  }

  /** Position `i` of the listing is the `i`-th newest comment of `movieId`. */
  lemma NewestForAt(comments: seq<Comment>, movieId: string, i: nat)
    requires i < |NewestFor(comments, movieId)|
    ensures var m := Matching(comments, movieId);
      NewestFor(comments, movieId)[i] == m[|m| - 1 - i]
  {
    ReverseAt(Matching(comments, movieId), i);
  }

  /** The listing returns at most 100 comments, each a stored comment of `movieId`. */
  lemma NewestForMembers(comments: seq<Comment>, movieId: string)
    ensures |NewestFor(comments, movieId)| <= ListLimit
    ensures forall c :: c in NewestFor(comments, movieId) ==> c in comments && c.fields.movieId == movieId
  {
    var m := Matching(comments, movieId);
    var r := NewestFor(comments, movieId);
    MatchingMembers(comments, movieId);
    forall c | c in r ensures c in comments && c.fields.movieId == movieId {
      var i :| 0 <= i < |r| && r[i] == c;
      NewestForAt(comments, movieId, i);
      assert m[|m| - 1 - i] == c;
    }
  }

  /** Newest first: stamps strictly decrease along the listing. */
  lemma NewestForDescending(comments: seq<Comment>, movieId: string)
    requires Ascending(comments)
    ensures var r := NewestFor(comments, movieId);
      forall i, j :: 0 <= i < j < |r| ==> r[i].createdAt > r[j].createdAt
  {
    var r := NewestFor(comments, movieId);
    MatchingAscending(comments, movieId);
    forall i, j | 0 <= i < j < |r| ensures r[i].createdAt > r[j].createdAt {
      NewestForAt(comments, movieId, i);
      NewestForAt(comments, movieId, j);
    }
  }

  /** A comment of `movieId` is left out only when 100 are returned, all newer than it. */
  lemma NewestForComplete(comments: seq<Comment>, movieId: string, c: Comment)
    requires Ascending(comments)
    requires c in comments && c.fields.movieId == movieId
    requires c !in NewestFor(comments, movieId)
    ensures |NewestFor(comments, movieId)| == ListLimit
    ensures forall e :: e in NewestFor(comments, movieId) ==> e.createdAt > c.createdAt
  {
    var m := Matching(comments, movieId);
    var s := Reverse(m);
    var r := NewestFor(comments, movieId);
    MatchingMembers(comments, movieId);
    MatchingAscending(comments, movieId);
    var k :| 0 <= k < |m| && m[k] == c;
    var p := |m| - 1 - k;
    ReverseAt(m, p);
    assert s[p] == c;
    assert p >= |r|;
    forall e | e in r ensures e.createdAt > c.createdAt {
      var i :| 0 <= i < |r| && r[i] == e;
      NewestForAt(comments, movieId, i);
    }
  }

  // ---------------------------------------------------------------------------
  // The store

  /** The two collections behind the handlers. `validId` is the engine's
      identifier-format check; `online` says whether calls into the engine
      succeed during the current request. */
  class Database {
    const validId: string -> bool
    var movies: seq<Movie>
    var comments: seq<Comment>
    var clock: nat
    var online: bool

    ghost predicate Valid()
      reads this
    {
      DistinctIds(movies) && DistinctIds(comments)
      && StampedBefore(movies, clock) && StampedBefore(comments, clock)
      && Ascending(comments)
    }

    constructor (validId: string -> bool)
      ensures Valid() && this.validId == validId
      ensures movies == [] && comments == [] && clock == 0 && online
    {
      this.validId := validId;
      movies, comments, clock, online := [], [], 0, true;
    }

    /** save() of a new movie: refused (a duplicate-key error) when `id` is taken;
        otherwise appended with the current stamp, and the clock advances. */
    method InsertMovie(id: string, fields: MovieFields) returns (saved: Option<Movie>)
      requires Valid()
      modifies this`movies, this`clock
      ensures Valid()
      ensures Lookup(old(movies), id).None? <==> saved.Some?
      ensures saved.None? ==> movies == old(movies) && clock == old(clock)
      ensures saved.Some? ==> saved.value == Doc(id, old(clock), fields)
                              && movies == old(movies) + [saved.value] && clock == old(clock) + 1
    {
      var k := IndexOf(movies, id);
      if k < |movies| {
        return None;
      }
      var m := Doc(id, clock, fields);
      movies, clock := movies + [m], clock + 1;
      saved := Some(m);
    }

    /** save() of a new comment, likewise. */
    method InsertComment(id: string, fields: CommentFields) returns (saved: Option<Comment>)
      requires Valid()
      modifies this`comments, this`clock
      ensures Valid()
      ensures Lookup(old(comments), id).None? <==> saved.Some?
      ensures saved.None? ==> comments == old(comments) && clock == old(clock)
      ensures saved.Some? ==> saved.value == Doc(id, old(clock), fields)
                              && comments == old(comments) + [saved.value] && clock == old(clock) + 1
    {
      var k := IndexOf(comments, id);
      if k < |comments| {
        return None;
      }
      var c := Doc(id, clock, fields);
      comments, clock := comments + [c], clock + 1;
      saved := Some(c);
    }

    /** findByIdAndUpdate(..., {new: true}) on a movie: `change` rewrites the
        fields of the matching movie; the updated movie is returned, or None
        when no movie has `id`. */
    method UpdateMovie(id: string, change: MovieFields -> MovieFields) returns (updated: Option<Movie>)
      requires Valid()
      modifies this`movies
      ensures Valid()
      ensures var k := Position(old(movies), id);
        if k < |old(movies)| then
          updated == Some(old(movies)[k].(fields := change(old(movies)[k].fields)))
          && movies == old(movies)[k := updated.value]
        else updated.None? && movies == old(movies)
    {
      var k := IndexOf(movies, id);
      if k == |movies| {
        return None;
      }
      var m := movies[k].(fields := change(movies[k].fields));
      movies := movies[k := m];
      updated := Some(m);
    }

    /** findByIdAndUpdate(commentId, {text}, {new: true}). */
    method UpdateCommentText(id: string, text: string) returns (updated: Option<Comment>)
      requires Valid()
      modifies this`comments
      ensures Valid()
      ensures var k := Position(old(comments), id);
        if k < |old(comments)| then
          updated == Some(old(comments)[k].(fields := old(comments)[k].fields.(text := text)))
          && comments == old(comments)[k := updated.value]
        else updated.None? && comments == old(comments)
    {
      var k := IndexOf(comments, id);
      if k == |comments| {
        return None;
      }
      var c := comments[k].(fields := comments[k].fields.(text := text));
      comments := comments[k := c];
      updated := Some(c);
    }

    /** findByIdAndDelete on movies; comments are left as they are. */
    method DeleteMovie(id: string)
      requires Valid()
      modifies this`movies
      ensures Valid()
      ensures movies == WithoutId(old(movies), id)
    {
      WithoutIdKeepsValid(movies, id, clock);
      movies := WithoutId(movies, id);
    }

    /** findByIdAndDelete on comments. */
    method DeleteComment(id: string)
      requires Valid()
      modifies this`comments
      ensures Valid()
      ensures comments == WithoutId(old(comments), id)
    {
      WithoutIdKeepsValid(comments, id, clock);
      comments := WithoutId(comments, id);
    }
  }
}
