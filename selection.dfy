/** How the number a user types picks a Book, as the two browsing loops of
    `main` do it. Both print the list numbered from 1. The completed-books loop
    reads Book `idx - 1` (project.py:152-153, 164); the search loop reads
    Book `idx` (project.py:202-203, 214). Both index with Python's rules, so
    negative values are accepted and count from the end. */
module Selection {
  import opened Results
  import opened BookModel
  import opened Text
  import opened Indexing
  import opened Render

  /** In the completed-books loop, every listed number selects the Book shown
      on that line of the scored listing. */
  lemma {:induction false} CompletedChoiceMatchesListing(books: seq<Book>, idx: int)
    requires 1 <= idx <= |books|
    ensures InRange(idx - 1, |books|)
    ensures var k := Slot(idx - 1, |books|);
      BookDetails(books, idx - 1) == Ok(Details(books[k]))
      && LeadingNumber(Listing(books, true)[k]) == idx
  {
    var k := idx - 1;
    assert InRange(k, |books|);
    assert Slot(k, |books|) == k;
    ListingShape(books, true, k);
  }

  /** In the completed-books loop, typing 0 is accepted and selects the last
      Book, the one the listing numbers `|books|`. */
  lemma {:induction false} CompletedZeroIsLast(books: seq<Book>)
    requires |books| >= 1
    ensures InRange(0 - 1, |books|) && Slot(0 - 1, |books|) == |books| - 1
    ensures BookDetails(books, 0 - 1) == Ok(Details(books[|books| - 1]))
    ensures LeadingNumber(Listing(books, true)[Slot(0 - 1, |books|)]) == |books|
  {
    var last := |books| - 1;
    assert InRange(0 - 1, |books|);
    assert Slot(0 - 1, |books|) == last;
    ListingShape(books, true, last);
  }

  /** The numbers the completed-books loop accepts: from `1 - |books|` to `|books|`. */
  lemma CompletedAccepts(books: seq<Book>, idx: int)
    ensures BookDetails(books, idx - 1).Ok? <==> 1 - |books| <= idx <= |books|
  {
  }

  /** In the search loop, a listed number other than the last selects the Book
      listed one line further down; the last listed number is rejected as an
      `IndexError`, and 0 selects the first Book. */
  lemma {:induction false} SearchChoiceOffByOne(books: seq<Book>, idx: int)
    requires |books| >= 1
    ensures 1 <= idx < |books| ==>
      BookDetails(books, idx) == Ok(Details(books[idx]))
      && LeadingNumber(Listing(books, false)[idx]) == idx + 1
    ensures BookDetails(books, |books|).Err?
    ensures BookDetails(books, 0) == Ok(Details(books[0]))
      && LeadingNumber(Listing(books, false)[0]) == 1
  {
    ListingShape(books, false, 0);
    if 1 <= idx < |books| {
      ListingShape(books, false, idx);
    }
  }
}
