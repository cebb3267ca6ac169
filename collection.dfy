/** The movie collection of app.js as pure sequence operations: the genre filter, the lookups by
    id, the shallow merge a patch performs and the removal a delete performs. The handlers that
    apply them to the stored collection are in module MovieApp. */
module MovieCollection {
  import opened Wrappers
  import opened MovieSchema

  /** A stored movie: the generated id followed by the validated fields. */
  datatype Movie = Movie(id: string, data: MovieData)

  // ---------------------------------------------------------------------------
  // Case-insensitive genre filter (app.js:33-42)

  /** Lower-casing of one character; only the ASCII letters A-Z are mapped. */
  function LowerChar(c: char): char
  {
    if 'A' <= c <= 'Z' then (c as int - 'A' as int + 'a' as int) as char else c
  }

  function Lower(s: string): string
  {
    seq(|s|, i requires 0 <= i < |s| => LowerChar(s[i]))
  }

  /** `tags.some(g => g.toLowerCase() === query.toLowerCase())`, scanning from the front. */
  predicate SomeTagMatches(tags: seq<GenreTag>, query: string)
    ensures SomeTagMatches(tags, query) <==>
      exists i :: 0 <= i < |tags| && Lower(GenreName(tags[i])) == Lower(query)
  {
    tags != [] && (Lower(GenreName(tags[0])) == Lower(query) || SomeTagMatches(tags[1..], query))
  }

  /** Some genre tag of the movie equals the query, ignoring case. */
  predicate HasGenre(m: Movie, query: string)
    ensures HasGenre(m, query) <==> exists g :: g in m.data.genre && Lower(GenreName(g)) == Lower(query)
  {
    SomeTagMatches(m.data.genre, query)
  }

  /** The movies with a tag matching `query`, in their original order. */
  function FilterByGenre(movies: seq<Movie>, query: string): (r: seq<Movie>)
    ensures |r| <= |movies|
    ensures forall m :: m in r <==> m in movies && HasGenre(m, query)
  {
    if movies == [] then []
    else (if HasGenre(movies[0], query) then [movies[0]] else []) + FilterByGenre(movies[1..], query)
  }

  /** Filtering distributes over concatenation: the kept movies stay in their relative order. */
  lemma {:induction false} FilterAppend(a: seq<Movie>, b: seq<Movie>, query: string)
    ensures FilterByGenre(a + b, query) == FilterByGenre(a, query) + FilterByGenre(b, query)
  {
    if a == [] {
      assert a + b == b;
    } else {
      assert (a + b)[0] == a[0] && (a + b)[1..] == a[1..] + b;
      FilterAppend(a[1..], b, query);
    }
  }

  /** Two queries that differ only in case select the same movies. */
  lemma {:induction false} FilterIgnoresCase(movies: seq<Movie>, q1: string, q2: string)
    requires Lower(q1) == Lower(q2)
    ensures FilterByGenre(movies, q1) == FilterByGenre(movies, q2)
  {
    if movies != [] {
      FilterIgnoresCase(movies[1..], q1, q2);
    }
  }

  /** The query `comedy` and the query `Comedy` list the same movies. */
  lemma ComedyInAnyCase(movies: seq<Movie>)
    ensures FilterByGenre(movies, "comedy") == FilterByGenre(movies, "Comedy")
  {
  }

  /** No tag name is empty, so the empty query on its own would select nothing. */
  lemma {:induction false} EmptyQueryMatchesNothing(movies: seq<Movie>)
    ensures FilterByGenre(movies, "") == []
  {
    if movies != [] {
      forall i | 0 <= i < |movies[0].data.genre|
        ensures Lower(GenreName(movies[0].data.genre[i])) != Lower("")
      {
        ParseGenreName(movies[0].data.genre[i]);
      }
      EmptyQueryMatchesNothing(movies[1..]);
    }
  }

  // ---------------------------------------------------------------------------
  // Lookup by id (app.js:44-49, 74, 91)

  /** The index of the first movie with this id, or -1 when there is none (Array.prototype.findIndex). */
  function FindIndex(movies: seq<Movie>, id: string): (k: int)
    ensures -1 <= k < |movies|
    ensures k == -1 <==> forall i :: 0 <= i < |movies| ==> movies[i].id != id
    ensures 0 <= k ==> movies[k].id == id && forall i :: 0 <= i < k ==> movies[i].id != id
  {
    if movies == [] then -1
    else if movies[0].id == id then 0
    else
      var k := FindIndex(movies[1..], id);
      if k == -1 then -1 else k + 1
  }

  /** The first movie with this id, if any (Array.prototype.find). */
  function Find(movies: seq<Movie>, id: string): (r: Option<Movie>)
    ensures r.Some? <==> exists i :: 0 <= i < |movies| && movies[i].id == id
    ensures r.Some? ==> r.value.id == id && r.value in movies
  {
    if movies == [] then None
    else if movies[0].id == id then Some(movies[0])
    else Find(movies[1..], id)
  }

  /** `find` returns the element at the index `findIndex` reports: the first match. */
  lemma {:induction false} FindIsFirstMatch(movies: seq<Movie>, id: string)
    ensures Find(movies, id) == if FindIndex(movies, id) < 0 then None else Some(movies[FindIndex(movies, id)])
  {
    if movies != [] && movies[0].id != id {
      FindIsFirstMatch(movies[1..], id);
    }
  }

  function Ids(movies: seq<Movie>): set<string>
  {
    set i | 0 <= i < |movies| :: movies[i].id
  }

  predicate UniqueIds(movies: seq<Movie>)
  {
    forall i, j :: 0 <= i < j < |movies| ==> movies[i].id != movies[j].id
  }

  /** Every stored record keeps the bounds the full schema enforces. */
  predicate AllWellFormed(movies: seq<Movie>, isUrl: string -> bool)
  {
    forall i :: 0 <= i < |movies| ==> WellFormed(movies[i].data, isUrl)
  }

  // ---------------------------------------------------------------------------
  // Create: appending a new record (app.js:58-63)

  /** A record appended under an unused id is the one a lookup of that id finds. */
  lemma AppendedIsFound(movies: seq<Movie>, m: Movie)
    requires m.id !in Ids(movies)
    ensures Find(movies + [m], m.id) == Some(m)
    ensures FindIndex(movies + [m], m.id) == |movies|
  {
    var s := movies + [m];
    forall i | 0 <= i < |movies| ensures s[i].id != m.id {
      assert movies[i].id in Ids(movies);
    }
    assert s[|movies|] == m;
    var k := FindIndex(s, m.id);
    assert k == |movies|;
    FindIsFirstMatch(s, m.id);
  }

  lemma AppendKeepsIdsUnique(movies: seq<Movie>, m: Movie)
    requires UniqueIds(movies) && m.id !in Ids(movies)
    ensures UniqueIds(movies + [m])
  {
  }

  // ---------------------------------------------------------------------------
  // Patch: shallow merge written back in place (app.js:77-82)

  /** `{...d, ...p}`: every field the partial record carries replaces the stored one. */
  function Overlay(d: MovieData, p: PartialMovie): (r: MovieData)
    ensures p.title.Some? ==> r.title == p.title.value
    ensures p.title.None? ==> r.title == d.title
    ensures p.year.Some? ==> r.year == p.year.value
    ensures p.year.None? ==> r.year == d.year
    ensures p.director.Some? ==> r.director == p.director.value
    ensures p.director.None? ==> r.director == d.director
    ensures p.duration.Some? ==> r.duration == p.duration.value
    ensures p.duration.None? ==> r.duration == d.duration
    ensures p.rate.Some? ==> r.rate == p.rate.value
    ensures p.rate.None? ==> r.rate == d.rate
    ensures p.poster.Some? ==> r.poster == p.poster.value
    ensures p.poster.None? ==> r.poster == d.poster
    ensures p.genre.Some? ==> r.genre == p.genre.value
    ensures p.genre.None? ==> r.genre == d.genre
  {
    MovieData(
      p.title.GetOr(d.title),
      p.year.GetOr(d.year),
      p.director.GetOr(d.director),
      p.duration.GetOr(d.duration),
      p.rate.GetOr(d.rate),
      p.poster.GetOr(d.poster),
      p.genre.GetOr(d.genre))
  }

  /** The patched record keeps its id: the validated partial data never carries one. */
  function Patched(m: Movie, p: PartialMovie): (r: Movie)
    ensures r.id == m.id
    ensures p == NoChanges ==> r == m
  {
    Movie(m.id, Overlay(m.data, p))
  }

  /** A patch that validated keeps a well-formed record well-formed. */
  lemma OverlayKeepsWellFormed(d: MovieData, p: PartialMovie, isUrl: string -> bool)
    requires WellFormed(d, isUrl) && PartialWellFormed(p, isUrl)
    ensures WellFormed(Overlay(d, p), isUrl)
  {
  }

  /** Applying the same patch twice is the same as applying it once. */
  lemma OverlayIdempotent(d: MovieData, p: PartialMovie)
    ensures Overlay(Overlay(d, p), p) == Overlay(d, p)
  {
  }

  /** A patch carrying every field replaces the record's data, except `rate` when it was absent. */
  lemma OverlayAllFields(d: MovieData, e: MovieData, withRate: bool)
    ensures Overlay(d, AsChanges(e, withRate)) == if withRate then e else e.(rate := d.rate)
  {
  }

  lemma ReplaceKeepsIdsUnique(movies: seq<Movie>, k: int, m: Movie)
    requires 0 <= k < |movies| && m.id == movies[k].id
    requires UniqueIds(movies)
    ensures UniqueIds(movies[k := m])
  {
  }

  // ---------------------------------------------------------------------------
  // Delete: splicing one record out (app.js:95)

  /** `movies.splice(k, 1)`: the record at k removed, all others kept in order. */
  function RemoveAt(movies: seq<Movie>, k: int): (r: seq<Movie>)
    requires 0 <= k < |movies|
    ensures |r| == |movies| - 1
    ensures forall i :: 0 <= i < k ==> r[i] == movies[i]
    ensures forall i :: k <= i < |r| ==> r[i] == movies[i + 1]
  {
    movies[..k] + movies[k + 1..]
  }

  lemma RemoveKeepsIdsUnique(movies: seq<Movie>, k: int)
    requires 0 <= k < |movies| && UniqueIds(movies)
    ensures UniqueIds(RemoveAt(movies, k))
  {
  }

  /** With unique ids, a record that was deleted is no longer found. */
  lemma RemovedIsGone(movies: seq<Movie>, id: string)
    requires UniqueIds(movies) && FindIndex(movies, id) >= 0
    ensures FindIndex(RemoveAt(movies, FindIndex(movies, id)), id) == -1
    ensures Find(RemoveAt(movies, FindIndex(movies, id)), id) == None
  {
  }
}
