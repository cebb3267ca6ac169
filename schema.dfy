/** The movie record schema (schemas/movies.js): one table of per-field rules
    (the Check* functions) used in two modes. Full mode (ValidateMovie) guards
    creation: every field but `rate` is required, and a missing `rate` becomes 5.
    Partial mode (ValidatePartialMovie) guards updates: every field is optional,
    and a field that is present obeys the same rule as in full mode.

    A failed validation yields a map from field name to the message of the first
    issue on that field; a body that is not a JSON object is reported under the
    empty key (the root of the document). Keys outside the schema are dropped. */
module MovieSchema {
  import opened Wrappers
  import opened Json

  // ---------------------------------------------------------------------------
  // Genres: the closed enumeration of schemas/movies.js:14

  datatype GenreTag = Action | Adventure | Comedy | Drama | Fantasy | Horror | Thriller | SciFi | Crime

  function GenreName(g: GenreTag): string
  {
    match g
    case Action => "Action"
    case Adventure => "Adventure"
    case Comedy => "Comedy"
    case Drama => "Drama"
    case Fantasy => "Fantasy"
    case Horror => "Horror"
    case Thriller => "Thriller"
    case SciFi => "Sci-Fi"
    case Crime => "Crime"
  }

  /** The tag names the enumeration accepts, spelled exactly. */
  const GenreNames: set<string> :=
    {"Action", "Adventure", "Comedy", "Drama", "Fantasy", "Horror", "Thriller", "Sci-Fi", "Crime"}

  /** Reads a tag name back into a genre; only the nine exact spellings are accepted. */
  function ParseGenre(s: string): (r: Option<GenreTag>)
    ensures r.Some? <==> s in GenreNames
    ensures r.Some? ==> GenreName(r.value) == s
  {
    if s == "Action" then Some(Action)
    else if s == "Adventure" then Some(Adventure)
    else if s == "Comedy" then Some(Comedy)
    else if s == "Drama" then Some(Drama)
    else if s == "Fantasy" then Some(Fantasy)
    else if s == "Horror" then Some(Horror)
    else if s == "Thriller" then Some(Thriller)
    else if s == "Sci-Fi" then Some(SciFi)
    else if s == "Crime" then Some(Crime)
    else None
  }

  /** Every genre's name is accepted and parses back to that genre. */
  lemma ParseGenreName(g: GenreTag)
    ensures GenreName(g) in GenreNames
    ensures ParseGenre(GenreName(g)) == Some(g)
  {
  }

  // ---------------------------------------------------------------------------
  // Field names, bounds and messages (schemas/movies.js:3-19)

  /** The seven fields of the schema. */
  datatype Field = Title | Year | Director | Duration | Rate | Poster | Genre

  /** The JSON key of a field. */
  function Key(f: Field): string
  {
    match f
    case Title => "title"
    case Year => "year"
    case Director => "director"
    case Duration => "duration"
    case Rate => "rate"
    case Poster => "poster"
    case Genre => "genre"
  }

  const TitleKey := Key(Title)
  const YearKey := Key(Year)
  const DirectorKey := Key(Director)
  const DurationKey := Key(Duration)
  const RateKey := Key(Rate)
  const PosterKey := Key(Poster)
  const GenreKey := Key(Genre)

  /** Where an issue is reported: the body as a whole, or one of its fields. */
  datatype Path = Whole | At(field: Field)

  const MinYear := 1900
  const MaxYear := 2024
  const MaxRate := 10
  const DefaultRate := 5

  const TitleRequired := "Movie title is require."
  const TitleNotString := "Movie title must be a string"
  const PosterNotUrl := "Poster must be a valid URL"
  const GenreRequired := "Movie genre is required"
  /** The validator's default messages for the rules that carry no custom one. */
  const Required := "Required"
  const NotInteger := "Expected integer, received float"
  const YearTooSmall := "Number must be greater than or equal to 1900"
  const YearTooBig := "Number must be less than or equal to 2024"
  const NotPositive := "Number must be greater than 0"
  const RateTooBig := "Number must be less than or equal to 10"
  const GenreOptions :=
    "'Action' | 'Adventure' | 'Comedy' | 'Drama' | 'Fantasy' | 'Horror' | 'Thriller' | 'Sci-Fi' | 'Crime'"

  function Expected(expected: string, v: JValue): string
  {
    "Expected " + expected + ", received " + TypeName(v)
  }

  function NotAGenre(s: string): string
  {
    "Invalid enum value. Expected " + GenreOptions + ", received '" + s + "'"
  }

  // ---------------------------------------------------------------------------
  // Records

  /** A movie as the full schema produces it (no id). */
  datatype MovieData = MovieData(
    title: string,
    year: int,
    director: string,
    duration: int,
    rate: real,
    poster: string,
    genre: seq<GenreTag>)

  /** A movie as the partial schema produces it: only the fields the body carried. */
  datatype PartialMovie = PartialMovie(
    title: Option<string>,
    year: Option<int>,
    director: Option<string>,
    duration: Option<int>,
    rate: Option<real>,
    poster: Option<string>,
    genre: Option<seq<GenreTag>>)

  const NoChanges := PartialMovie(None, None, None, None, None, None, None)

  type Errors = map<Path, string>

  // ---------------------------------------------------------------------------
  // The rules, stated declaratively: what a present value must be

  predicate TitleOk(v: JValue) { v.JStr? }
  predicate YearOk(v: JValue) { v.JNum? && IsInteger(v.n) && MinYear as real <= v.n <= MaxYear as real }
  predicate DirectorOk(v: JValue) { v.JStr? }
  predicate DurationOk(v: JValue) { v.JNum? && IsInteger(v.n) && v.n > 0.0 }
  /** `.min()` is given no bound, so no lower limit is enforced. */
  predicate RateOk(v: JValue) { v.JNum? && v.n <= MaxRate as real }
  predicate PosterOk(v: JValue, isUrl: string -> bool) { v.JStr? && isUrl(v.s) }
  predicate GenreOk(v: JValue)
  {
    v.JArr? && forall i :: 0 <= i < |v.items| ==> v.items[i].JStr? && v.items[i].s in GenreNames
  }

  /** The rule of a field, applied to the value the body carries for it. */
  predicate FieldOk(f: Field, v: JValue, isUrl: string -> bool)
  {
    match f
    case Title => TitleOk(v)
    case Year => YearOk(v)
    case Director => DirectorOk(v)
    case Duration => DurationOk(v)
    case Rate => RateOk(v)
    case Poster => PosterOk(v, isUrl)
    case Genre => GenreOk(v)
  }

  /** What partial mode demands: every schema field that is present obeys its rule. */
  predicate PresentFieldsOk(o: map<string, JValue>, isUrl: string -> bool)
  {
    (TitleKey in o ==> TitleOk(o[TitleKey]))
    && (YearKey in o ==> YearOk(o[YearKey]))
    && (DirectorKey in o ==> DirectorOk(o[DirectorKey]))
    && (DurationKey in o ==> DurationOk(o[DurationKey]))
    && (RateKey in o ==> RateOk(o[RateKey]))
    && (PosterKey in o ==> PosterOk(o[PosterKey], isUrl))
    && (GenreKey in o ==> GenreOk(o[GenreKey]))
  }

  /** What full mode demands in addition: every field but `rate` is present. */
  predicate RequiredFieldsPresent(o: map<string, JValue>)
  {
    TitleKey in o && YearKey in o && DirectorKey in o && DurationKey in o
    && PosterKey in o && GenreKey in o
  }

  /** A field fails full validation when it is missing and required, or present and breaking its rule. */
  predicate FailsFull(o: map<string, JValue>, f: Field, isUrl: string -> bool)
  {
    if Key(f) in o then !FieldOk(f, o[Key(f)], isUrl) else f != Rate
  }

  /** A field fails partial validation when it is present and breaks its rule. */
  predicate FailsPartial(o: map<string, JValue>, f: Field, isUrl: string -> bool)
  {
    Key(f) in o && !FieldOk(f, o[Key(f)], isUrl)
  }

  /** The invariant of a validated record: the bounds the schema enforces. */
  predicate WellFormed(d: MovieData, isUrl: string -> bool)
  {
    MinYear <= d.year <= MaxYear && d.duration > 0 && d.rate <= MaxRate as real && isUrl(d.poster)
  }

  /** The same bounds for the fields a partial record carries. */
  predicate PartialWellFormed(p: PartialMovie, isUrl: string -> bool)
  {
    (p.year.Some? ==> MinYear <= p.year.value <= MaxYear)
    && (p.duration.Some? ==> p.duration.value > 0)
    && (p.rate.Some? ==> p.rate.value <= MaxRate as real)
    && (p.poster.Some? ==> isUrl(p.poster.value))
  }

  // ---------------------------------------------------------------------------
  // The field-constraint table: one check per field, on a value that is present

  function CheckTitle(v: JValue): (r: Result<string, string>)
    ensures r.Ok? <==> TitleOk(v)
    ensures r.Ok? ==> v == JStr(r.value)
    ensures r.Err? ==> r.error == TitleNotString
  {
    if v.JStr? then Ok(v.s) else Err(TitleNotString)
  }

  function CheckYear(v: JValue): (r: Result<int, string>)
    ensures r.Ok? <==> YearOk(v)
    ensures r.Ok? ==> v == JNum(r.value as real) && MinYear <= r.value <= MaxYear
  {
    if !v.JNum? then Err(Expected("number", v))
    else if !IsInteger(v.n) then Err(NotInteger)
    else if v.n < MinYear as real then Err(YearTooSmall)
    else if v.n > MaxYear as real then Err(YearTooBig)
    else Ok(v.n.Floor)
  }

  function CheckDirector(v: JValue): (r: Result<string, string>)
    ensures r.Ok? <==> DirectorOk(v)
    ensures r.Ok? ==> v == JStr(r.value)
  {
    if v.JStr? then Ok(v.s) else Err(Expected("string", v))
  }

  function CheckDuration(v: JValue): (r: Result<int, string>)
    ensures r.Ok? <==> DurationOk(v)
    ensures r.Ok? ==> v == JNum(r.value as real) && r.value > 0
  {
    if !v.JNum? then Err(Expected("number", v))
    else if !IsInteger(v.n) then Err(NotInteger)
    else if v.n <= 0.0 then Err(NotPositive)
    else Ok(v.n.Floor)
  }

  function CheckRate(v: JValue): (r: Result<real, string>)
    ensures r.Ok? <==> RateOk(v)
    ensures r.Ok? ==> v == JNum(r.value) && r.value <= MaxRate as real
  {
    if !v.JNum? then Err(Expected("number", v))
    else if v.n > MaxRate as real then Err(RateTooBig)
    else Ok(v.n)
  }

  /** `isUrl` stands for the validator's URL syntax check, which is not modelled. */
  function CheckPoster(v: JValue, isUrl: string -> bool): (r: Result<string, string>)
    ensures r.Ok? <==> PosterOk(v, isUrl)
    ensures r.Ok? ==> v == JStr(r.value) && isUrl(r.value)
    ensures v.JStr? && !isUrl(v.s) ==> r == Err(PosterNotUrl)
  {
    if !v.JStr? then Err(Expected("string", v))
    else if !isUrl(v.s) then Err(PosterNotUrl)
    else Ok(v.s)
  }

  function CheckTag(v: JValue): (r: Result<GenreTag, string>)
    ensures r.Ok? <==> v.JStr? && v.s in GenreNames
    ensures r.Ok? ==> v == JStr(GenreName(r.value))
  {
    if !v.JStr? then Err(Expected(GenreOptions, v))
    else match ParseGenre(v.s)
      case Some(g) => Ok(g)
      case None => Err(NotAGenre(v.s))
  }

  /** The JSON form of a list of genres. */
  function EncodeGenres(gs: seq<GenreTag>): (r: seq<JValue>)
    ensures |r| == |gs|
  {
    seq(|gs|, i requires 0 <= i < |gs| => JStr(GenreName(gs[i])))
  }

  /** Checks every element; the message reported is that of the first bad element. */
  function CheckTags(items: seq<JValue>): (r: Result<seq<GenreTag>, string>)
    ensures r.Ok? <==> forall i :: 0 <= i < |items| ==> CheckTag(items[i]).Ok?
    ensures r.Ok? ==> items == EncodeGenres(r.value)
    ensures r.Err? ==> exists i :: 0 <= i < |items| && CheckTag(items[i]) == Err(r.error)
                                  && forall j :: 0 <= j < i ==> CheckTag(items[j]).Ok?
  {
    if items == [] then Ok([])
    else match CheckTag(items[0])
      case Err(e) => Err(e)
      case Ok(g) =>
        match CheckTags(items[1..])
        case Err(e) =>
          ghost var i :| 0 <= i < |items[1..]| && CheckTag(items[1..][i]) == Err(e)
                        && forall j :: 0 <= j < i ==> CheckTag(items[1..][j]).Ok?;
          assert CheckTag(items[i + 1]) == Err(e);
          Err(e)
        case Ok(gs) =>
          assert forall i :: 0 <= i < |items| ==> CheckTag(items[i]).Ok? by {
            forall i | 0 <= i < |items| ensures CheckTag(items[i]).Ok? {
              if i > 0 { assert items[i] == items[1..][i - 1]; }
            }
          }
          Ok([g] + gs)
  }

  function CheckGenre(v: JValue): (r: Result<seq<GenreTag>, string>)
    ensures r.Ok? <==> GenreOk(v)
    ensures r.Ok? ==> v == JArr(EncodeGenres(r.value))
  {
    if !v.JArr? then Err(Expected("array", v)) else CheckTags(v.items)
  }

  // ---------------------------------------------------------------------------
  // The two modes

  /** Records the issue of one field, if its check failed. */
  function AddError<T>(e: Errors, f: Field, r: Result<T, string>): Errors
  {
    if r.Err? then e[At(f) := r.error] else e
  }

  /** The error map of one validation: one entry per failed field, with that field's message. */
  function Collect<A, B, C, D, E, F, G>(
    title: Result<A, string>, year: Result<B, string>, director: Result<C, string>,
    duration: Result<D, string>, rate: Result<E, string>, poster: Result<F, string>,
    genre: Result<G, string>): (e: Errors)
    ensures Whole !in e
    ensures At(Title) in e <==> title.Err?
    ensures At(Year) in e <==> year.Err?
    ensures At(Director) in e <==> director.Err?
    ensures At(Duration) in e <==> duration.Err?
    ensures At(Rate) in e <==> rate.Err?
    ensures At(Poster) in e <==> poster.Err?
    ensures At(Genre) in e <==> genre.Err?
    ensures title.Err? ==> e[At(Title)] == title.error
    ensures year.Err? ==> e[At(Year)] == year.error
    ensures director.Err? ==> e[At(Director)] == director.error
    ensures duration.Err? ==> e[At(Duration)] == duration.error
    ensures rate.Err? ==> e[At(Rate)] == rate.error
    ensures poster.Err? ==> e[At(Poster)] == poster.error
    ensures genre.Err? ==> e[At(Genre)] == genre.error
  {
    var e := AddError(map[], Title, title);
    var e := AddError(e, Year, year);
    var e := AddError(e, Director, director);
    var e := AddError(e, Duration, duration);
    var e := AddError(e, Rate, rate);
    var e := AddError(e, Poster, poster);
    AddError(e, Genre, genre)
  }

  /** The record of seven field checks when all passed, otherwise the error map. */
  function Assemble(
    title: Result<string, string>, year: Result<int, string>, director: Result<string, string>,
    duration: Result<int, string>, rate: Result<real, string>, poster: Result<string, string>,
    genre: Result<seq<GenreTag>, string>): (r: Result<MovieData, Errors>)
    ensures r.Ok? <==> title.Ok? && year.Ok? && director.Ok? && duration.Ok? && rate.Ok? && poster.Ok? && genre.Ok?
    ensures r.Ok? ==> r.value == MovieData(title.value, year.value, director.value, duration.value, rate.value, poster.value, genre.value)
    ensures r.Err? ==> r.error == Collect(title, year, director, duration, rate, poster, genre) && r.error != map[]
  {
    if title.Ok? && year.Ok? && director.Ok? && duration.Ok? && rate.Ok? && poster.Ok? && genre.Ok? then
      Ok(MovieData(title.value, year.value, director.value, duration.value, rate.value, poster.value, genre.value))
    else
      Err(Collect(title, year, director, duration, rate, poster, genre))
  }

  /** The partial record of seven optional field checks when all passed, otherwise the error map. */
  function AssemblePartial(
    title: Result<Option<string>, string>, year: Result<Option<int>, string>, director: Result<Option<string>, string>,
    duration: Result<Option<int>, string>, rate: Result<Option<real>, string>, poster: Result<Option<string>, string>,
    genre: Result<Option<seq<GenreTag>>, string>): (r: Result<PartialMovie, Errors>)
    ensures r.Ok? <==> title.Ok? && year.Ok? && director.Ok? && duration.Ok? && rate.Ok? && poster.Ok? && genre.Ok?
    ensures r.Ok? ==> r.value == PartialMovie(title.value, year.value, director.value, duration.value, rate.value, poster.value, genre.value)
    ensures r.Err? ==> r.error == Collect(title, year, director, duration, rate, poster, genre) && r.error != map[]
  {
    if title.Ok? && year.Ok? && director.Ok? && duration.Ok? && rate.Ok? && poster.Ok? && genre.Ok? then
      Ok(PartialMovie(title.value, year.value, director.value, duration.value, rate.value, poster.value, genre.value))
    else
      Err(Collect(title, year, director, duration, rate, poster, genre))
  }

  /** Full mode's view of a required field: a missing value fails with `missing`. */
  function Mandatory<T>(o: map<string, JValue>, f: Field, missing: string, check: JValue -> Result<T, string>)
    : Result<T, string>
  {
    if Key(f) in o then check(o[Key(f)]) else Err(missing)
  }

  /** Partial mode's view of a field: a missing value is fine, a present one is checked. */
  function Optional<T>(o: map<string, JValue>, f: Field, check: JValue -> Result<T, string>)
    : (r: Result<Option<T>, string>)
    ensures r.Ok? <==> Key(f) !in o || check(o[Key(f)]).Ok?
    ensures r.Ok? ==> r.value == if Key(f) in o then Some(check(o[Key(f)]).value) else None
    ensures r.Err? ==> r.error == check(o[Key(f)]).error
  {
    if Key(f) !in o then Ok(None)
    else match check(o[Key(f)])
      case Ok(x) => Ok(Some(x))
      case Err(e) => Err(e)
  }

  /** Full validation (schemas/movies.js:21-23). */
  function ValidateMovie(body: JValue, isUrl: string -> bool): (r: Result<MovieData, Errors>)
    ensures r.Ok? <==> body.JObj? && RequiredFieldsPresent(body.fields) && PresentFieldsOk(body.fields, isUrl)
    ensures r.Ok? ==> WellFormed(r.value, isUrl) && Describes(body.fields, r.value)
    ensures r.Err? ==> r.error != map[]
  {
    match body
    case JObj(o) =>
      var title := Mandatory(o, Title, TitleRequired, CheckTitle);
      var year := Mandatory(o, Year, Required, CheckYear);
      var director := Mandatory(o, Director, Required, CheckDirector);
      var duration := Mandatory(o, Duration, Required, CheckDuration);
      var rate := if RateKey in o then CheckRate(o[RateKey]) else Ok(DefaultRate as real);
      var poster := Mandatory(o, Poster, Required, v => CheckPoster(v, isUrl));
      var genre := Mandatory(o, Genre, GenreRequired, CheckGenre);
      Assemble(title, year, director, duration, rate, poster, genre)
    case _ =>
      var e := map[Whole := Expected("object", body)];
      assert Whole in e;
      Err(e)
  }

  /** Partial validation (schemas/movies.js:25-28). */
  function ValidatePartialMovie(body: JValue, isUrl: string -> bool): (r: Result<PartialMovie, Errors>)
    ensures r.Ok? <==> body.JObj? && PresentFieldsOk(body.fields, isUrl)
    ensures r.Ok? ==> PartialWellFormed(r.value, isUrl) && DescribesPartially(body.fields, r.value)
    ensures r.Err? ==> r.error != map[]
  {
    match body
    case JObj(o) =>
      var title := Optional(o, Title, CheckTitle);
      var year := Optional(o, Year, CheckYear);
      var director := Optional(o, Director, CheckDirector);
      var duration := Optional(o, Duration, CheckDuration);
      var rate := Optional(o, Rate, CheckRate);
      var poster := Optional(o, Poster, v => CheckPoster(v, isUrl));
      var genre := Optional(o, Genre, CheckGenre);
      AssemblePartial(title, year, director, duration, rate, poster, genre)
    case _ =>
      var e := map[Whole := Expected("object", body)];
      assert Whole in e;
      Err(e)
  }

  // ---------------------------------------------------------------------------
  // What the two modes promise

  /** The record `d` is exactly what the object `o` carries for the schema's fields,
      with the default rate standing in for a missing one. */
  predicate Describes(o: map<string, JValue>, d: MovieData)
  {
    RequiredFieldsPresent(o)
    && o[TitleKey] == JStr(d.title)
    && o[YearKey] == JNum(d.year as real)
    && o[DirectorKey] == JStr(d.director)
    && o[DurationKey] == JNum(d.duration as real)
    && (if RateKey in o then o[RateKey] == JNum(d.rate) else d.rate == DefaultRate as real)
    && o[PosterKey] == JStr(d.poster)
    && o[GenreKey] == JArr(EncodeGenres(d.genre))
  }

  /** The partial record `p` carries exactly the schema fields present in `o`, with their values. */
  predicate DescribesPartially(o: map<string, JValue>, p: PartialMovie)
  {
    (p.title.Some? <==> TitleKey in o) && (p.title.Some? ==> o[TitleKey] == JStr(p.title.value))
    && (p.year.Some? <==> YearKey in o) && (p.year.Some? ==> o[YearKey] == JNum(p.year.value as real))
    && (p.director.Some? <==> DirectorKey in o) && (p.director.Some? ==> o[DirectorKey] == JStr(p.director.value))
    && (p.duration.Some? <==> DurationKey in o) && (p.duration.Some? ==> o[DurationKey] == JNum(p.duration.value as real))
    && (p.rate.Some? <==> RateKey in o) && (p.rate.Some? ==> o[RateKey] == JNum(p.rate.value))
    && (p.poster.Some? <==> PosterKey in o) && (p.poster.Some? ==> o[PosterKey] == JStr(p.poster.value))
    && (p.genre.Some? <==> GenreKey in o) && (p.genre.Some? ==> o[GenreKey] == JArr(EncodeGenres(p.genre.value)))
  }

  /** Full validation fails exactly on the fields that are missing-and-required or present-and-wrong,
      and names each of them in its error map. */
  lemma FullErrorsNameFailingFields(o: map<string, JValue>, isUrl: string -> bool)
    ensures ValidateMovie(JObj(o), isUrl).Ok? <==> forall f :: !FailsFull(o, f, isUrl)
    ensures ValidateMovie(JObj(o), isUrl).Err? ==>
      Whole !in ValidateMovie(JObj(o), isUrl).error
      && forall f :: At(f) in ValidateMovie(JObj(o), isUrl).error <==> FailsFull(o, f, isUrl)
  {
    var r := ValidateMovie(JObj(o), isUrl);
    forall f ensures r.Err? ==> (At(f) in r.error <==> FailsFull(o, f, isUrl)) {
      match f
      case Title =>
      case Year =>
      case Director =>
      case Duration =>
      case Rate =>
      case Poster =>
      case Genre =>
    }
  }

  /** Partial mode fails exactly when some present field breaks its rule, and its error map names
      exactly those fields. */
  lemma PartialErrorsNameFailingFields(o: map<string, JValue>, isUrl: string -> bool)
    ensures ValidatePartialMovie(JObj(o), isUrl).Ok? <==> forall f :: !FailsPartial(o, f, isUrl)
    ensures ValidatePartialMovie(JObj(o), isUrl).Err? ==>
      Whole !in ValidatePartialMovie(JObj(o), isUrl).error
      && forall f :: At(f) in ValidatePartialMovie(JObj(o), isUrl).error <==> FailsPartial(o, f, isUrl)
  {
    var r := ValidatePartialMovie(JObj(o), isUrl);
    forall f ensures r.Err? ==> (At(f) in r.error <==> FailsPartial(o, f, isUrl)) {
      match f
      case Title =>
      case Year =>
      case Director =>
      case Duration =>
      case Rate =>
      case Poster =>
      case Genre =>
    }
  }

  /** The messages the schema spells out: a missing title and a title of the wrong type are told
      apart, a missing genre list has its own message, and so does a poster that is no URL. */
  lemma CustomMessages(o: map<string, JValue>, isUrl: string -> bool)
    ensures TitleKey !in o ==> ValidateMovie(JObj(o), isUrl) .Err? && ValidateMovie(JObj(o), isUrl).error[At(Title)] == TitleRequired
    ensures TitleKey in o && !o[TitleKey].JStr? ==>
      ValidateMovie(JObj(o), isUrl).Err? && ValidateMovie(JObj(o), isUrl).error[At(Title)] == TitleNotString
    ensures GenreKey !in o ==> ValidateMovie(JObj(o), isUrl).Err? && ValidateMovie(JObj(o), isUrl).error[At(Genre)] == GenreRequired
    ensures PosterKey in o && o[PosterKey].JStr? && !isUrl(o[PosterKey].s) ==>
      ValidateMovie(JObj(o), isUrl).Err? && ValidateMovie(JObj(o), isUrl).error[At(Poster)] == PosterNotUrl
  {
  }

  /** Anything partial mode rejects, full mode rejects too, with the same message on every field
      partial mode names; the extra fields full mode names are the required ones that are missing. */
  lemma PartialErrorsWithinFull(body: JValue, isUrl: string -> bool)
    requires ValidatePartialMovie(body, isUrl).Err?
    ensures ValidateMovie(body, isUrl).Err?
    ensures forall p :: p in ValidatePartialMovie(body, isUrl).error ==>
      p in ValidateMovie(body, isUrl).error && ValidateMovie(body, isUrl).error[p] == ValidatePartialMovie(body, isUrl).error[p]
    ensures body.JObj? ==> forall f :: At(f) in ValidateMovie(body, isUrl).error && At(f) !in ValidatePartialMovie(body, isUrl).error
                                  ==> Key(f) !in body.fields && f != Rate
  {
    if body.JObj? {
      var fe, pe := ValidateMovie(body, isUrl).error, ValidatePartialMovie(body, isUrl).error;
      forall p | p in pe ensures p in fe && fe[p] == pe[p] {
        match p
        case Whole =>
        case At(f) => match f
          case Title =>
          case Year =>
          case Director =>
          case Duration =>
          case Rate =>
          case Poster =>
          case Genre =>
      }
      forall f | At(f) in fe && At(f) !in pe ensures Key(f) !in body.fields && f != Rate {
        match f
        case Title =>
        case Year =>
        case Director =>
        case Duration =>
        case Rate =>
        case Poster =>
        case Genre =>
      }
    }
  }

  /** The JSON object that carries a record's fields under the schema's keys. */
  function Encode(d: MovieData): JValue
  {
    JObj(map[
      TitleKey := JStr(d.title),
      YearKey := JNum(d.year as real),
      DirectorKey := JStr(d.director),
      DurationKey := JNum(d.duration as real),
      RateKey := JNum(d.rate),
      PosterKey := JStr(d.poster),
      GenreKey := JArr(EncodeGenres(d.genre))])
  }

  lemma {:induction false} EncodeGenresInjective(a: seq<GenreTag>, b: seq<GenreTag>)
    requires EncodeGenres(a) == EncodeGenres(b)
    ensures a == b
  {
    assert |a| == |b|;
    forall i | 0 <= i < |a| ensures a[i] == b[i] {
      assert EncodeGenres(a)[i] == EncodeGenres(b)[i];
      ParseGenreName(a[i]);
      ParseGenreName(b[i]);
    }
  }

  /** Full validation accepts every record that keeps the schema's bounds, given as JSON,
      and gives back that very record: the schema admits all of them and loses nothing. */
  lemma ValidateEncodeRoundTrip(d: MovieData, isUrl: string -> bool)
    requires WellFormed(d, isUrl)
    ensures ValidateMovie(Encode(d), isUrl) == Ok(d)
  {
    var o := Encode(d).fields;
    forall i | 0 <= i < |d.genre| ensures GenreName(d.genre[i]) in GenreNames {
      ParseGenreName(d.genre[i]);
    }
    assert GenreOk(o[GenreKey]);
    assert IsInteger(d.year as real) && IsInteger(d.duration as real);
    var r := ValidateMovie(Encode(d), isUrl);
    EncodeGenresInjective(r.value.genre, d.genre);
  }

  /** The partial record that changes every field to the record's value; `rate` only when the
      body carried one, since partial mode supplies no default. */
  function AsChanges(d: MovieData, withRate: bool): PartialMovie
  {
    PartialMovie(Some(d.title), Some(d.year), Some(d.director), Some(d.duration),
                 if withRate then Some(d.rate) else None, Some(d.poster), Some(d.genre))
  }

  /** Whatever full mode accepts, partial mode accepts too, with the same field values. */
  lemma FullImpliesPartial(body: JValue, isUrl: string -> bool)
    requires ValidateMovie(body, isUrl).Ok?
    ensures ValidatePartialMovie(body, isUrl)
         == Ok(AsChanges(ValidateMovie(body, isUrl).value, RateKey in body.fields))
  {
  }

  /** An empty body passes partial validation and changes nothing. */
  lemma EmptyBodyChangesNothing(isUrl: string -> bool)
    ensures ValidatePartialMovie(JObj(map[]), isUrl) == Ok(NoChanges)
  {
  }

  /** `rate` is bounded above only: `.min()` is called without a bound, so any rate up to 10,
      however negative, is accepted and kept as given. */
  lemma RateHasNoLowerBound(body: JValue, isUrl: string -> bool, rate: real)
    requires ValidateMovie(body, isUrl).Ok? && rate <= MaxRate as real
    ensures ValidateMovie(JObj(body.fields[RateKey := JNum(rate)]), isUrl)
         == Ok(ValidateMovie(body, isUrl).value.(rate := rate))
  {
  }
}
