/** The Book record (project.py:11-26): seven fields, fixed defaults for the
    absent ones, and a score that must lie in 1..10 when it is given.
    Construction goes through one smart constructor, `Construct`, which either
    yields a Book or the list of field errors a pydantic `ValidationError`
    carries; copying a Book with a new score goes through the same constructor. */
module BookModel {
  import opened Results

  /** The catalog's `averageRating`, a float that is only ever displayed:
      `shown` is the text `str()` prints for it. */
  datatype Rating = Rating(shown: string)

  datatype Book = Book(
    title: string,
    authors: seq<string>,
    description: string,
    categories: seq<string>,
    averageRating: Option<Rating>,
    pageCount: Option<int>,
    score: Option<int>)

  const DefaultAuthors: seq<string> := ["Unknown author"]
  const DefaultDescription: string := "No description"
  const DefaultCategories: seq<string> := ["No categories"]

  /** The score rule of `is_valid_score`: absent, or an integer from 1 to 10. */
  predicate ValidScore(v: Option<int>) {
    v.None? || 1 <= v.value <= 10
  }

  predicate Valid(b: Book) {
    ValidScore(b.score)
  }

  predicate AllValid(books: seq<Book>) {
    forall j :: 0 <= j < |books| ==> Valid(books[j])
  }

  /** The key/value mapping `Book(**mapping)` is called with: `None` is a key
      that is absent (or, for the three optional fields, present as null).
      Keys other than these seven are ignored by the model class. */
  datatype Fields = Fields(
    title: Option<string>,
    authors: Option<seq<string>>,
    description: Option<string>,
    categories: Option<seq<string>>,
    averageRating: Option<Rating>,
    pageCount: Option<int>,
    score: Option<int>)

  /** The empty mapping `{}`. */
  const NoFields: Fields := Fields(None, None, None, None, None, None, None)

  /** One entry of a `ValidationError`: the required title is missing, or the
      given score is outside 1..10. */
  datatype FieldError = MissingTitle | ScoreOutOfRange(given: int)

  /** Every field error of a mapping, in field order (title before score). */
  function Validate(f: Fields): (errs: seq<FieldError>)
    ensures MissingTitle in errs <==> f.title.None?
    ensures forall v :: ScoreOutOfRange(v) in errs <==> f.score == Some(v) && !(1 <= v <= 10)
    ensures errs == [] <==> f.title.Some? && ValidScore(f.score)
  {
    (if f.title.None? then [MissingTitle] else [])
    + (if ValidScore(f.score) then [] else [ScoreOutOfRange(f.score.value)])
  }

  /** `Book(**f)`: the validated record, or the errors it is rejected with. */
  function Construct(f: Fields): (r: Result<Book, seq<FieldError>>)
    ensures r.Ok? <==> f.title.Some? && ValidScore(f.score)
    ensures r.Ok? ==> Valid(r.value)
    ensures r.Err? ==> r.error == Validate(f) && r.error != []
  {
    var errs := Validate(f);
    if errs != [] then Err(errs)
    else Ok(Book(
      f.title.value,
      f.authors.GetOr(DefaultAuthors),
      f.description.GetOr(DefaultDescription),
      f.categories.GetOr(DefaultCategories),
      f.averageRating,
      f.pageCount,
      f.score))
  }

  /** `book.model_dump()`: the mapping of all seven fields. */
  function Dump(b: Book): Fields {
    Fields(Some(b.title), Some(b.authors), Some(b.description), Some(b.categories),
           b.averageRating, b.pageCount, b.score)
  }

  /** `b.model_copy(update={"score": v})` followed by re-validation: it is
      built afresh from the old fields with the new score through `Construct`. */
  function WithScore(b: Book, v: int): (r: Result<Book, seq<FieldError>>)
    ensures r.Ok? <==> 1 <= v <= 10
    ensures r.Ok? ==> r.value == b.(score := Some(v)) && Valid(r.value)
    ensures r.Err? ==> r.error == [ScoreOutOfRange(v)]
  {
    Construct(Dump(b).(score := Some(v)))
  }

  /** A mapping holding only a title gets every default, and no rating,
      page count or score. */
  lemma ConstructDefaults(t: string)
    ensures Construct(NoFields.(title := Some(t)))
         == Ok(Book(t, ["Unknown author"], "No description", ["No categories"], None, None, None))
  {
  }

  /** Every field given in the mapping is carried into the Book unchanged, and
      each absent one of authors, description and categories takes its own
      default whatever else is given. */
  lemma ConstructKeepsGiven(f: Fields)
    requires Construct(f).Ok?
    ensures var b := Construct(f).value;
      Some(b.title) == f.title
      && (f.authors.Some? ==> b.authors == f.authors.value)
      && (f.description.Some? ==> b.description == f.description.value)
      && (f.categories.Some? ==> b.categories == f.categories.value)
      && (f.authors.None? ==> b.authors == ["Unknown author"])
      && (f.description.None? ==> b.description == "No description")
      && (f.categories.None? ==> b.categories == ["No categories"])
      && b.averageRating == f.averageRating
      && b.pageCount == f.pageCount
      && b.score == f.score
  {
  }

  /** For a titled mapping, the score decides: construction succeeds exactly
      when the score is absent or lies in 1..10. */
  lemma {:induction false} ScoreDecides(f: Fields, v: int)
    requires f.title.Some?
    ensures Construct(f.(score := None)).Ok?
    ensures Construct(f.(score := Some(v))).Ok? <==> 1 <= v <= 10
  {
  }

  /** Scores 0, 11 and -1 are rejected; 1 and 10 are accepted. */
  lemma ScoreBoundaries(f: Fields)
    requires f.title.Some?
    ensures Construct(f.(score := Some(11))) == Err([ScoreOutOfRange(11)])
    ensures Construct(f.(score := Some(0))) == Err([ScoreOutOfRange(0)])
    ensures Construct(f.(score := Some(-1))) == Err([ScoreOutOfRange(-1)])
    ensures Construct(f.(score := Some(1))).Ok? && Construct(f.(score := Some(10))).Ok?
  {
    forall v: int | !(1 <= v <= 10)
      ensures Validate(f.(score := Some(v))) == [ScoreOutOfRange(v)]
    {
      assert [] + [ScoreOutOfRange(v)] == [ScoreOutOfRange(v)];
    }
  }

  /** Dumping a Book and constructing from the dump gives the same Book back
      exactly when the Book is valid: the record-level half of save-then-load. */
  lemma DumpConstruct(b: Book)
    ensures Construct(Dump(b)).Ok? <==> Valid(b)
    ensures Valid(b) ==> Construct(Dump(b)) == Ok(b)
  {
  }
}
