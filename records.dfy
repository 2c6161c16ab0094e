/** The stored record shapes and the uniform response envelope of the backend. */
module Records {
  import opened Wrappers

  /** A stored document: the identifier the engine assigned, the creation stamp
      the store's clock gave it, and the entity's own fields. */
  datatype Doc<T> = Doc(id: string, createdAt: nat, fields: T)

  /** What the movie handlers store: title, category, image URL, description. */
  datatype MovieFields = MovieFields(title: string, category: string, image: string, description: string)

  /** What the comment handlers store: text, author name, and the movie it belongs to. */
  datatype CommentFields = CommentFields(text: string, username: string, movieId: string)

  type Movie = Doc<MovieFields>
  type Comment = Doc<CommentFields>

  /** A decoded movie request body: each of the four fields absent or a string. */
  datatype MovieInput = MovieInput(title: Option<string>, category: Option<string>,
                                   image: Option<string>, description: Option<string>)

  /** The `data` member of a successful response. `Null` is JSON null. */
  datatype Payload =
    | OneMovie(movie: Movie)
    | Movies(movies: seq<Movie>)
    | OneComment(comment: Comment)
    | Comments(comments: seq<Comment>)
    | Null

  /** `{success: false, message}`, `{success: true, data}` or `{success: true, message}`. */
  datatype Body = Fail(message: string) | Data(data: Payload) | Done(message: string)

  /** A status code, the envelope, and whether `Cache-Control: no-store` was set. */
  datatype Response = Response(status: nat, body: Body, noStore: bool) {
    /** The envelope's `success` flag. */
    predicate Success() {
      !body.Fail?
    }
  }

  function Reject(status: nat, message: string): (r: Response)
    ensures r.status == status && !r.Success() && !r.noStore
  {
    Response(status, Fail(message), false)
  }

  function Reply(status: nat, data: Payload): (r: Response)
    ensures r.status == status && r.Success() && !r.noStore
  {
    Response(status, Data(data), false)
  }

  /** The string-valued members of the JSON body a client receives:
      `message` when the envelope carries one; `data` is an object, not a string. */
  function MessageMembers(r: Response): (m: map<string, string>)
    ensures "message" in m <==> !r.body.Data?
    ensures "message" in m ==> m["message"] == r.body.message
    ensures forall k :: k in m ==> k == "message"
  {
    match r.body
    case Fail(msg) => map["message" := msg]
    case Done(msg) => map["message" := msg]
    case Data(_) => map[]
  }
}
