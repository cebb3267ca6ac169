# Movie service: a verified model

This project models the core of a small HTTP movie service. An in-memory, insertion-ordered
collection of movie records is exposed under `/movies`. Clients can list it (optionally filtered
by genre, ignoring case), fetch one record by id, create a record, patch one, and delete one.
Create and patch bodies are checked against a movie schema. Create uses full mode: every field
but `rate` is required, and a missing `rate` becomes 5. Patch uses partial mode: every field is
optional, but a field that is present must pass its rule.

Files and modules:

- `wrappers.dfy` (`Wrappers`): `Option` and `Result`.
- `json.dfy` (`Json`): parsed JSON request bodies (`JValue`) and the type names a validator reports.
- `schema.dfy` (`MovieSchema`): the field-constraint table (`CheckTitle` … `CheckGenre`), the two
  validation modes (`ValidateMovie`, `ValidatePartialMovie`) and their properties. Each property
  is stated against declarative rule predicates (`YearOk`, `PresentFieldsOk`, …).
- `collection.dfy` (`MovieCollection`): the pure sequence operations the handlers perform:
  - the genre filter and the lookups by id (`find` / `findIndex`);
  - the shallow merge of a patch (`Overlay`, `Patched`);
  - the splice of a delete (`RemoveAt`);
  - id uniqueness and record well-formedness, and the lemmas that these operations keep them.
- `app.dfy` (`MovieApp`): the cross-origin rule and the class `MovieStore`. The class holds the
  collection as a `seq<Movie>` field. It has one method per handler; each returns a
  `Reply(status, payload)`. The state-changing handlers state the whole new collection in terms
  of the old one. The file ends with a client, `InceptionLifecycle`, that runs create, patch,
  delete and get on one movie.

Modelling decisions:

- The validator's error output is a map from `Path` (the whole body, or one field) to one
  message. The message is that of the first issue on that field. The texts are the schema's own
  custom messages, or the validator's default ones (`Required`, `Expected number, received
  string`, …).
- `isUrl` stands for the validator's URL check. It is a parameter of the schema functions and a
  constant field of the store.
- The id a create assigns is a parameter of `Create`. It has no precondition. Uniqueness of ids
  is promised only when that id is unused.
- Numbers are exact reals. `year` and `duration` must be integers in the sense of
  `Number.isInteger`.
- Keys that are not schema fields are dropped by both modes, as the validator strips unknown
  keys. So a patch can never change `id`.

Rules one might expect that the code does not enforce:

- `title` may be the empty string, and `genre` may be an empty list. Neither rule is enforced.
- `rate` has no lower bound. `.min()` is called with no argument
  (`MovieSchema.RateHasNoLowerBound`).
- The records loaded at start-up are never validated. So "every stored record satisfies the
  schema" (`AllWellFormed`) and "ids are unique" (`UniqueIds`) are proved as invariants that each
  handler preserves, not as facts about every collection.
- A delete followed by a get of the same id is 404 only when ids are unique. Otherwise the
  next record with that id is found (`MovieCollection.RemovedIsGone`).
- A `genre` query that is present but empty lists the whole collection, because the handler tests
  the query for truthiness. A cross-origin request with an empty `Origin` header is accepted for
  the same reason.

## Model

| member | source | states |
|---|---|---|
| MovieSchema.ParseGenre | schemas/movies.js:14 | a tag is accepted exactly when it is one of the nine spellings, and it is read back to the genre of that name |
| MovieSchema.ParseGenreName | schemas/movies.js:14 | every genre's name is one of the accepted spellings and parses back to that genre |
| MovieSchema.CheckTitle | schemas/movies.js:4-7 | a present title passes exactly when it is a string; otherwise the message is the custom wrong-type one |
| MovieSchema.CheckYear | schemas/movies.js:8 | a year passes exactly when it is an integral number in [1900, 2024], and the result is that number |
| MovieSchema.CheckDirector | schemas/movies.js:9 | a director passes exactly when it is a string, returned unchanged |
| MovieSchema.CheckDuration | schemas/movies.js:10 | a duration passes exactly when it is an integral number strictly above 0 |
| MovieSchema.CheckRate | schemas/movies.js:11 | a rate passes exactly when it is a number at most 10; no lower bound |
| MovieSchema.CheckPoster | schemas/movies.js:12 | a poster passes exactly when it is a string the URL check accepts; a string that is not a URL gets the custom URL message |
| MovieSchema.CheckTag | schemas/movies.js:14 | one genre element passes exactly when it is a string naming one of the nine tags, and it yields that tag |
| MovieSchema.CheckTags | schemas/movies.js:13-18 | a list passes exactly when every element does; the result re-encodes to the input list; a failure reports the first bad element's message |
| MovieSchema.CheckGenre | schemas/movies.js:13-18 | genre passes exactly when it is an array of valid tags, and the result encodes back to that array |
| MovieSchema.Collect | schemas/movies.js:21-28 | the error map has an entry under a field exactly when that field's check failed, carrying that check's message, and never one for the whole body |
| MovieSchema.Optional | schemas/movies.js:25-27 | in partial mode an absent field passes as absent, and a present one passes exactly when its check passes |
| MovieSchema.ValidateMovie | schemas/movies.js:21-23 | full mode succeeds exactly when the body is an object with every required field present and every present field valid; the record is well formed and carries the body's own values, with rate 5 when absent; a failure is a non-empty error map |
| MovieSchema.ValidatePartialMovie | schemas/movies.js:25-28 | partial mode succeeds exactly when the body is an object whose present fields are all valid; the result carries exactly the present fields with their values; a failure is a non-empty error map |
| MovieSchema.FullErrorsNameFailingFields | schemas/movies.js:3-23 | full mode succeeds exactly when no field fails; on failure the error map names exactly the missing-and-required or present-and-invalid fields |
| MovieSchema.CustomMessages | schemas/movies.js:4-18 | a missing title and a non-string title get their two distinct messages; a missing genre gets its own message; a non-URL poster gets the URL message |
| MovieSchema.PartialErrorsNameFailingFields | schemas/movies.js:25-28 | partial mode succeeds exactly when no present field breaks its rule; on failure the error map names exactly the present-and-invalid fields and never the whole body |
| MovieSchema.PartialErrorsWithinFull | schemas/movies.js:21-28 | whatever partial mode rejects, full mode rejects with the same message on each field; full mode only adds required fields that are missing |
| MovieSchema.ValidateEncodeRoundTrip | schemas/movies.js:21-23 | every record within the schema's bounds, sent as JSON, validates back to itself |
| MovieSchema.FullImpliesPartial | schemas/movies.js:21-28 | a body full mode accepts is accepted by partial mode with every field set to the same value, except rate when the body has none |
| MovieSchema.EmptyBodyChangesNothing | schemas/movies.js:25-28 | the empty object passes partial validation as a patch with no fields |
| MovieSchema.RateHasNoLowerBound | schemas/movies.js:11 | replacing the rate of a valid body by any number up to 10, negative ones included, still validates and keeps that rate |
| MovieCollection.HasGenre | app.js:37 | a movie matches exactly when some tag of it equals the query after ASCII lower-casing of both |
| MovieCollection.FilterByGenre | app.js:36-38 | the filtered list holds exactly the movies having a tag equal to the query ignoring case, and is no longer than the collection |
| MovieCollection.FilterAppend | app.js:36-38 | filtering distributes over concatenation, so the kept movies keep their relative order |
| MovieCollection.FilterIgnoresCase | app.js:37 | two queries with the same lower-case form select the same movies |
| MovieCollection.ComedyInAnyCase | app.js:37 | the queries "comedy" and "Comedy" select the same movies |
| MovieCollection.EmptyQueryMatchesNothing | app.js:35-41 | filtering by the empty query would select nothing; the truthiness test at app.js:35 returns the whole list instead |
| MovieCollection.FindIndex | app.js:74 | the index of the first movie with the id, or -1 exactly when no movie has it |
| MovieCollection.Find | app.js:46 | a movie is found exactly when some movie has the id; the one found has that id and is in the collection |
| MovieCollection.FindIsFirstMatch | app.js:46 | the movie found is the one at the first matching index |
| MovieCollection.AppendedIsFound | app.js:58-63 | a record appended under an unused id is found by that id, at the last index |
| MovieCollection.AppendKeepsIdsUnique | app.js:58-63 | appending a record with an unused id keeps ids unique |
| MovieCollection.Overlay | app.js:77-80 | each field the patch carries replaces the stored one, and each field it does not carry is kept |
| MovieCollection.Patched | app.js:77-80 | the merged record keeps the stored id, and a patch with no fields leaves the record equal to before |
| MovieCollection.OverlayKeepsWellFormed | app.js:77-82 | merging a validated patch into a well-formed record gives a well-formed record |
| MovieCollection.OverlayIdempotent | app.js:77-80 | applying the same patch twice equals applying it once |
| MovieCollection.OverlayAllFields | app.js:77-80 | a patch carrying every field replaces all data, except a rate it does not carry |
| MovieCollection.ReplaceKeepsIdsUnique | app.js:82 | writing back a record with the same id keeps ids unique |
| MovieCollection.RemoveAt | app.js:95 | splicing removes one record and keeps the records before and after it in order |
| MovieCollection.RemoveKeepsIdsUnique | app.js:95 | removing a record keeps ids unique |
| MovieCollection.RemovedIsGone | app.js:91-95 | with unique ids, the deleted id is no longer found |
| MovieApp.CorsAllows | app.js:15-20 | a request passes exactly when its origin is absent, empty, or one of the three listed origins |
| MovieApp.CorsAcceptsOnlyListed | app.js:15-20 | a non-empty origin is accepted exactly when it is one of the three listed origins |
| MovieApp.MovieStore.constructor | app.js:4 | the collection starts as the records given at start-up |
| MovieApp.MovieStore.List | app.js:33-42 | 200 with the whole collection when the query is missing or empty; otherwise exactly the matching movies in collection order |
| MovieApp.MovieStore.Get | app.js:44-49 | 200 with the first movie of that id exactly when the id occurs; otherwise 404 "Movie not found." |
| MovieApp.MovieStore.Create | app.js:53-65 | an invalid body gives 422 with the error map and no change; a valid one gives 201 and appends the new record (the given id plus the validated fields) last, earlier records unchanged; well-formedness kept; id uniqueness kept when the id is unused |
| MovieApp.MovieStore.Patch | app.js:69-85 | validation first: an invalid body gives 422 with no change, even for an unknown id; then an unknown id gives 404 with no change; otherwise only the first matching position is replaced by the merged record, returned with 200; length, well-formedness and id uniqueness kept |
| MovieApp.MovieStore.Delete | app.js:89-97 | an unknown id gives 404 with no change; otherwise the first matching record is spliced out, the rest kept in order, with 200 "Movie deleted"; with unique ids the id is gone afterwards |
| MovieApp.Year1899Rejected | schemas/movies.js:8 | a body with year 1899 is refused with a `year` entry giving its lower bound |
| MovieApp.InceptionLifecycle | app.js:53-97 | on an empty collection: create gives 201 with rate defaulted to 5; a patch of rate 9 changes only the rate; delete gives 200 "Movie deleted"; a later get gives 404 |

## Left out

- Server bootstrap: the Express application, JSON body parsing, the `x-powered-by` switch, `listen` and the port default. This is transport; handlers take already-parsed inputs.
- The root route `GET /` and its fixed greeting. It has no logic.
- Cross-origin handling is only the acceptance predicate `CorsAllows`. The middleware and its error path are transport.
- Loading `json/movies.json`: the initial collection is a constructor parameter. It is assumed to be already typed as movie records.
- `crypto.randomUUID()`: the new id is a parameter of `Create`. Its randomness and UUID format are not modelled.
- The internals of zod, the validation library. The URL check is the parameter `isUrl`. The error report is a map from field to message, not the library's array of issues.
- MovieSchema.ValidateMovie: keeps only the first issue per field, while the library reports every issue, e.g. both "not an integer" and "below 1900" for 1899.5.
- MovieSchema.ValidatePartialMovie: keeps only the first issue per field, as above.
- `toLowerCase` is modelled as ASCII lowering only. A non-ASCII character whose lower-case form contains ASCII letters mostly keeps a non-ASCII part as well: U+0130 lowers to "i" followed by U+0307, and the combining mark stays in the query, so it still matches no genre name. The only non-ASCII character whose lower-case form is pure ASCII is U+212A (Kelvin sign), which lowers to "k", and no genre name contains "k". So filter results agree for all queries. This is argued, not proved.
- Floating point: numbers are exact reals, with no NaN, infinities or rounding.
- A `genre` query given more than once arrives as an array. The handler then fails when it lower-cases it. This transport-level crash is not modelled; the query is `Option<string>`.
- Concurrency: every handler runs to completion before the next starts, as on a single event loop.
