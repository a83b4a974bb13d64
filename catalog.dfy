/** The pure part of `fetch_books` (project.py:29-39): turning an already
    decoded catalog response into Books, and the list comprehension that
    rebuilds the completed list from the decoded file (project.py:120-125). */
module Catalog {
  import opened Results
  import opened BookModel

  /** One entry of the response's `items` list; `volumeInfo` may be absent. */
  datatype Item = Item(volumeInfo: Option<Fields>)

  /** The decoded response object; `items` is `None` when the key is absent. */
  datatype Response = Response(items: Option<seq<Item>>)

  /** `item.get("volumeInfo", {})`. */
  function InfoOf(item: Item): Fields {
    item.volumeInfo.GetOr(NoFields)
  }

  /** The mappings the loop constructs Books from, in response order. */
  function Infos(items: seq<Item>): (fs: seq<Fields>)
    ensures |fs| == |items|
  {
    seq(|items|, j requires 0 <= j < |items| => InfoOf(items[j]))
  }

  /** Constructing a Book from each mapping in turn, left to right; the first
      mapping that fails validation raises, and its errors are the result. */
  function BuildAll(records: seq<Fields>): Result<seq<Book>, seq<FieldError>>
    decreases |records|
  {
    if records == [] then Ok([])
    else
      match BuildAll(records[..|records| - 1])
      case Err(e) => Err(e)
      case Ok(books) =>
        match Construct(records[|records| - 1])
        case Err(e) => Err(e)
        case Ok(b) => Ok(books + [b])
  }

  /** All mappings constructing is exactly what makes the whole list construct;
      then there is one Book per mapping, in order. */
  lemma {:induction false} BuildAllOk(records: seq<Fields>)
    ensures BuildAll(records).Ok? <==> forall j :: 0 <= j < |records| ==> Construct(records[j]).Ok?
    ensures BuildAll(records).Ok? ==>
      |BuildAll(records).value| == |records|
      && forall j :: 0 <= j < |records| ==> BuildAll(records).value[j] == Construct(records[j]).value
    decreases |records|
  {
    if records != [] {
      var init := records[..|records| - 1];
      var last := records[|records| - 1];
      BuildAllOk(init);
      assert forall j :: 0 <= j < |init| ==> init[j] == records[j];
      if BuildAll(init).Err? {
        assert BuildAll(records).Err?;
      } else if Construct(last).Err? {
        assert BuildAll(records).Err?;
      } else {
        assert BuildAll(records) == Ok(BuildAll(init).value + [Construct(last).value]);
      }
    }
  }

  /** A failing list fails with the errors of its first failing mapping. */
  lemma {:induction false} BuildAllFirstError(records: seq<Fields>)
    requires BuildAll(records).Err?
    ensures exists k :: 0 <= k < |records|
                     && Construct(records[k]) == Err(BuildAll(records).error)
                     && forall j :: 0 <= j < k ==> Construct(records[j]).Ok?
    decreases |records|
  {
    var init := records[..|records| - 1];
    var last := |records| - 1;
    assert forall j :: 0 <= j < |init| ==> init[j] == records[j];
    var k: nat;
    if BuildAll(init).Err? {
      assert BuildAll(records) == BuildAll(init);
      BuildAllFirstError(init);
      k :| k < |init| && Construct(init[k]) == Err(BuildAll(init).error)
        && forall j :: 0 <= j < k ==> Construct(init[j]).Ok?;
    } else {
      BuildAllOk(init);
      assert BuildAll(records) == Err(Construct(records[last]).error);
      k := last;
    }
    assert Construct(records[k]) == Err(BuildAll(records).error);
    assert forall j :: 0 <= j < k ==> Construct(records[j]).Ok?;
  }

  /** Once a prefix fails, the whole list fails with the same errors. */
  lemma {:induction false} BuildAllPrefixErr(records: seq<Fields>, i: nat)
    requires i <= |records|
    requires BuildAll(records[..i]).Err?
    ensures BuildAll(records) == BuildAll(records[..i])
    decreases |records| - i
  {
    if i < |records| {
      assert records[..i + 1][..i] == records[..i];
      BuildAllPrefixErr(records, i + 1);
    } else {
      assert records[..i] == records;
    }
  }

  /** What `fetch_books` returns for a decoded response, or the errors it raises. */
  function ResponseBooks(response: Response): Result<seq<Book>, seq<FieldError>> {
    match response.items
    case None => Ok([])
    case Some(items) => BuildAll(Infos(items))
  }

  /** The item loop of `fetch_books`: append one Book per item, in order; a
      rejected item raises out of the loop. */
  method FetchBooks(response: Response) returns (r: Result<seq<Book>, seq<FieldError>>)
    ensures r == ResponseBooks(response)
  {
    var books: seq<Book> := [];
    if response.items.Some? {
      var items := response.items.value;
      var infos := Infos(items);
      var i := 0;
      while i < |items|
        invariant 0 <= i <= |items|
        invariant BuildAll(infos[..i]) == Ok(books)
      {
        var book := Construct(InfoOf(items[i]));
        assert infos[..i + 1][..i] == infos[..i];
        assert infos[..i + 1][i] == InfoOf(items[i]);
        if book.Err? {
          BuildAllPrefixErr(infos, i + 1);
          return Err(book.error);
        }
        books := books + [book.value];
        i := i + 1;
      }
      assert infos[..i] == infos;
    }
    r := Ok(books);
  }

  /** A response without `items` yields no Books; one whose items all construct
      yields exactly one Book per item, in order, built from its `volumeInfo`. */
  lemma ResponseBooksShape(response: Response)
    ensures response.items.None? ==> ResponseBooks(response) == Ok([])
    ensures response.items.Some? && (forall j :: 0 <= j < |response.items.value| ==>
              Construct(InfoOf(response.items.value[j])).Ok?)
      ==> ResponseBooks(response).Ok?
          && |ResponseBooks(response).value| == |response.items.value|
          && forall j :: 0 <= j < |response.items.value| ==>
               ResponseBooks(response).value[j] == Construct(InfoOf(response.items.value[j])).value
  {
    if response.items.Some? {
      BuildAllOk(Infos(response.items.value));
    }
  }

  /** An item without `volumeInfo` becomes `Book(**{})`, which has no title:
      the whole search raises instead of yielding Books. */
  lemma MissingVolumeInfoRaises(response: Response, k: nat)
    requires response.items.Some? && k < |response.items.value|
    requires response.items.value[k].volumeInfo.None?
    ensures ResponseBooks(response).Err?
  {
    var infos := Infos(response.items.value);
    assert Construct(infos[k]).Err?;
    BuildAllOk(infos);
  }

  /** The single-item response of the test suite yields exactly that one Book. */
  lemma OneItemResponse(info: Fields)
    requires info.title == Some("Test Book") && info.authors == Some(["Test Author"])
    requires info.score.None?
    ensures var r := ResponseBooks(Response(Some([Item(Some(info))])));
      r.Ok? && |r.value| == 1
      && r.value[0].title == "Test Book" && r.value[0].authors == ["Test Author"]
      && r.value[0].score.None?
  {
    ResponseBooksShape(Response(Some([Item(Some(info))])));
  }

  /** The decoded `completed_books.json`: `None` when the file is missing or
      is not valid JSON, which counts as an empty list. */
  function LoadCompleted(file: Option<seq<Fields>>): Result<seq<Book>, seq<FieldError>> {
    match file
    case None => Ok([])
    case Some(records) => BuildAll(records)
  }

  /** Whatever is loaded successfully is a list of valid Books. */
  lemma LoadedAreValid(file: Option<seq<Fields>>)
    requires LoadCompleted(file).Ok?
    ensures AllValid(LoadCompleted(file).value)
  {
    if file.Some? {
      BuildAllOk(file.value);
    }
  }

  /** `book.model_dump()` for every Book, as `save_to_json` writes them. */
  function DumpAll(books: seq<Book>): (fs: seq<Fields>)
    ensures |fs| == |books|
  {
    seq(|books|, j requires 0 <= j < |books| => Dump(books[j]))
  }

  /** Saving a list of valid Books and loading it back gives the same list. */
  lemma SaveLoadRoundTrip(books: seq<Book>)
    requires AllValid(books)
    ensures LoadCompleted(Some(DumpAll(books))) == Ok(books)
  {
    var records := DumpAll(books);
    forall j | 0 <= j < |records|
      ensures Construct(records[j]) == Ok(books[j])
    {
      DumpConstruct(books[j]);
    }
    BuildAllOk(records);
    assert BuildAll(records).value == books;
  }
}
