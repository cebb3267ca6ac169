/** The movie service of app.js: the cross-origin rule and the five /movies handlers over the
    in-memory collection. Requests arrive already parsed (path id, `genre` query, JSON body)
    and every handler answers with a status code and a JSON payload. */
module MovieApp {
  import opened Wrappers
  import opened Json
  import opened MovieSchema
  import opened MovieCollection

  /** The JSON payload of a response. */
  datatype Payload =
    | Movies(movies: seq<Movie>)
    | One(movie: Movie)
    | Message(text: string)
    | Issues(errors: Errors)

  datatype Reply = Reply(status: int, payload: Payload)

  const Ok200 := 200
  const Created201 := 201
  const NotFound404 := 404
  const Unprocessable422 := 422

  const MovieNotFoundOnGet := "Movie not found."
  const MovieNotFound := "Movie not found"
  const MovieDeleted := "Movie deleted"

  // ---------------------------------------------------------------------------
  // Cross-origin rule (app.js:13-24)

  const AcceptedOrigins: seq<string> :=
    ["http://localhost:8080", "http://localhost:8081", "https://movies.com"]

  /** A request passes when it declares no origin (a missing or empty header) or a listed one. */
  function CorsAllows(origin: Option<string>): (ok: bool)
    ensures ok <==> origin.None? || origin.value == ""
                    || origin.value in {"http://localhost:8080", "http://localhost:8081", "https://movies.com"}
  {
    match origin
    case None => true
    case Some(o) => o in AcceptedOrigins || o == ""
  }

  /** Exactly the three listed origins are accepted among the non-empty ones; the match is exact. */
  lemma CorsAcceptsOnlyListed(o: string)
    requires o != ""
    ensures CorsAllows(Some(o)) <==> o == "http://localhost:8080" || o == "http://localhost:8081" || o == "https://movies.com"
  {
  }

  // ---------------------------------------------------------------------------
  // The collection and its handlers

  class MovieStore {
    /** The collection, in insertion order. */
    var movies: seq<Movie>
    /** The URL syntax check the schema applies to `poster`. */
    const isUrl: string -> bool

    /** The collection starts as the records loaded at start-up. */
    constructor (initial: seq<Movie>, isUrl: string -> bool)
      ensures movies == initial && this.isUrl == isUrl
    {
      movies := initial;
      this.isUrl := isUrl;
    }

    /** GET /movies: the whole collection, or only the movies with a matching genre tag when a
        non-empty `genre` query is given. */
    method List(genre: Option<string>) returns (reply: Reply)
      ensures reply.status == Ok200 && reply.payload.Movies?
      ensures genre.None? || genre.value == "" ==> reply.payload.movies == movies
      ensures genre.Some? && genre.value != "" ==>
        forall m :: m in reply.payload.movies <==> m in movies && HasGenre(m, genre.value)
      ensures genre.Some? && genre.value != "" ==> reply.payload.movies == FilterByGenre(movies, genre.value)
    {
      if genre.Some? && genre.value != "" {
        return Reply(Ok200, Movies(FilterByGenre(movies, genre.value)));
      }
      reply := Reply(Ok200, Movies(movies));
    }

    /** GET /movies/:id: the first movie with that id, or 404. */
    method Get(id: string) returns (reply: Reply)
      ensures reply.status == Ok200 <==> id in Ids(movies)
      ensures reply.status == Ok200 ==> reply == Reply(Ok200, One(movies[FindIndex(movies, id)]))
      ensures reply.status != Ok200 ==> reply == Reply(NotFound404, Message(MovieNotFoundOnGet))
    {
      FindIsFirstMatch(movies, id);
      match Find(movies, id)
      case Some(m) =>
        reply := Reply(Ok200, One(m));
      case None =>
        reply := Reply(NotFound404, Message(MovieNotFoundOnGet));
    }

    /** POST /movies: a body that passes full validation is stored last under the generated id. */
    method Create(body: JValue, newId: string) returns (reply: Reply)
      modifies this
      ensures ValidateMovie(body, isUrl).Err? ==>
        reply == Reply(Unprocessable422, Issues(ValidateMovie(body, isUrl).error)) && movies == old(movies)
      ensures ValidateMovie(body, isUrl).Ok? ==>
        var m := Movie(newId, ValidateMovie(body, isUrl).value);
        reply == Reply(Created201, One(m)) && movies == old(movies) + [m]
      ensures AllWellFormed(old(movies), isUrl) ==> AllWellFormed(movies, isUrl)
      ensures UniqueIds(old(movies)) && newId !in Ids(old(movies)) ==> UniqueIds(movies)
    {
      var result := ValidateMovie(body, isUrl);
      if result.Err? {
        return Reply(Unprocessable422, Issues(result.error));
      }
      var m := Movie(newId, result.value);
      if UniqueIds(movies) && newId !in Ids(movies) {
        AppendKeepsIdsUnique(movies, m);
      }
      movies := movies + [m];
      reply := Reply(Created201, One(m));
    }

    /** PATCH /movies/:id: partial validation first, then the lookup, then the merge written back
        at the same position. */
    method Patch(id: string, body: JValue) returns (reply: Reply)
      modifies this
      ensures ValidatePartialMovie(body, isUrl).Err? ==>
        reply == Reply(Unprocessable422, Issues(ValidatePartialMovie(body, isUrl).error)) && movies == old(movies)
      ensures ValidatePartialMovie(body, isUrl).Ok? && FindIndex(old(movies), id) < 0 ==>
        reply == Reply(NotFound404, Message(MovieNotFound)) && movies == old(movies)
      ensures ValidatePartialMovie(body, isUrl).Ok? && FindIndex(old(movies), id) >= 0 ==>
        var k := FindIndex(old(movies), id);
        movies == old(movies)[k := Patched(old(movies)[k], ValidatePartialMovie(body, isUrl).value)]
        && reply == Reply(Ok200, One(movies[k]))
      ensures |movies| == |old(movies)|
      ensures AllWellFormed(old(movies), isUrl) ==> AllWellFormed(movies, isUrl)
      ensures UniqueIds(old(movies)) ==> UniqueIds(movies)
    {
      var result := ValidatePartialMovie(body, isUrl);
      if result.Err? {
        return Reply(Unprocessable422, Issues(result.error));
      }
      var k := FindIndex(movies, id);
      if k < 0 {
        return Reply(NotFound404, Message(MovieNotFound));
      }
      var updated := Patched(movies[k], result.value);
      if AllWellFormed(movies, isUrl) {
        OverlayKeepsWellFormed(movies[k].data, result.value, isUrl);
      }
      if UniqueIds(movies) {
        ReplaceKeepsIdsUnique(movies, k, updated);
      }
      movies := movies[k := updated];
      reply := Reply(Ok200, One(updated));
    }

    /** DELETE /movies/:id: the first movie with that id is spliced out, or 404. */
    method Delete(id: string) returns (reply: Reply)
      modifies this
      ensures FindIndex(old(movies), id) == -1 ==>
        reply == Reply(NotFound404, Message(MovieNotFound)) && movies == old(movies)
      ensures FindIndex(old(movies), id) != -1 ==>
        reply == Reply(Ok200, Message(MovieDeleted)) && movies == RemoveAt(old(movies), FindIndex(old(movies), id))
      ensures AllWellFormed(old(movies), isUrl) ==> AllWellFormed(movies, isUrl)
      ensures UniqueIds(old(movies)) ==> UniqueIds(movies) && id !in Ids(movies)
    {
      var k := FindIndex(movies, id);
      if k == -1 {
        return Reply(NotFound404, Message(MovieNotFound));
      }
      if UniqueIds(movies) {
        RemoveKeepsIdsUnique(movies, k);
        RemovedIsGone(movies, id);
      }
      movies := RemoveAt(movies, k);
      reply := Reply(Ok200, Message(MovieDeleted));
    }
  }

  // ---------------------------------------------------------------------------
  // A client of the handlers

  const InceptionPoster := "https://x.com/p.jpg"

  function InceptionBody(): JValue
  {
    JObj(map[
      "title" := JStr("Inception"),
      "year" := JNum(2010.0),
      "director" := JStr("Nolan"),
      "duration" := JNum(148.0),
      "poster" := JStr(InceptionPoster),
      "genre" := JArr([JStr("Action"), JStr("Sci-Fi")])])
  }

  lemma InceptionBodyValid(isUrl: string -> bool)
    requires isUrl(InceptionPoster)
    ensures ValidateMovie(InceptionBody(), isUrl)
         == Ok(MovieData("Inception", 2010, "Nolan", 148, 5.0, InceptionPoster, [Action, SciFi]))
  {
    var d := MovieData("Inception", 2010, "Nolan", 148, 5.0, InceptionPoster, [Action, SciFi]);
    var o := InceptionBody().fields;
    assert RequiredFieldsPresent(o) && RateKey !in o;
    assert GenreOk(o[GenreKey]) && IsInteger(2010.0) && IsInteger(148.0);
    assert EncodeGenres(d.genre) == o[GenreKey].items;
    EncodeGenresInjective(ValidateMovie(InceptionBody(), isUrl).value.genre, d.genre);
  }

  lemma RateNineValid(isUrl: string -> bool)
    ensures ValidatePartialMovie(JObj(map["rate" := JNum(9.0)]), isUrl) == Ok(NoChanges.(rate := Some(9.0)))
  {
  }

  /** A body whose year is 1899 is refused, and the refusal names `year` with its lower bound. */
  lemma Year1899Rejected(isUrl: string -> bool)
    ensures var r := ValidateMovie(JObj(InceptionBody().fields["year" := JNum(1899.0)]), isUrl);
      r.Err? && At(Year) in r.error && r.error[At(Year)] == YearTooSmall
  {
  }

  /** One movie's life on an empty collection: created without a rate (so rated 5), patched to
      rate 9 with nothing else changed, deleted, and then no longer found. */
  method InceptionLifecycle(isUrl: string -> bool, id: string)
    returns (created: Reply, patched: Reply, deleted: Reply, fetched: Reply)
    requires isUrl(InceptionPoster)
    ensures created == Reply(Created201, One(Movie(id, MovieData("Inception", 2010, "Nolan", 148, 5.0, InceptionPoster, [Action, SciFi]))))
    ensures patched == Reply(Ok200, One(Movie(id, MovieData("Inception", 2010, "Nolan", 148, 9.0, InceptionPoster, [Action, SciFi]))))
    ensures deleted == Reply(Ok200, Message(MovieDeleted))
    ensures fetched == Reply(NotFound404, Message(MovieNotFoundOnGet))
  {
    var store := new MovieStore([], isUrl);
    var d := MovieData("Inception", 2010, "Nolan", 148, 5.0, InceptionPoster, [Action, SciFi]);
    InceptionBodyValid(isUrl);
    RateNineValid(isUrl);
    created := store.Create(InceptionBody(), id);
    patched := store.Patch(id, JObj(map["rate" := JNum(9.0)]));
    deleted := store.Delete(id);
    fetched := store.Get(id);
  }
}
