/** The completed-books list that `main` keeps in memory and rewrites to
    `completed_books.json` after every change: delete (project.py:164),
    update a score (project.py:170-181) and mark a search result complete
    (project.py:212-223). */
module Completed {
  import opened Results
  import opened BookModel
  import opened Indexing

  /** `xs.pop(k)` on the list: the entry at `k` is gone, the others keep
      their relative order. */
  function RemoveAt(s: seq<Book>, k: nat): (r: seq<Book>)
    requires k < |s|
    ensures |r| == |s| - 1
    ensures forall j :: 0 <= j < k ==> r[j] == s[j]
    ensures forall j :: k <= j < |r| ==> r[j] == s[j + 1]
    ensures multiset(r) + multiset{s[k]} == multiset(s)
  {
    assert s == s[..k] + [s[k]] + s[k + 1..];
    s[..k] + s[k + 1..]
  }

  /** Removing an entry keeps every remaining entry valid. */
  lemma RemoveKeepsValid(s: seq<Book>, k: nat)
    requires k < |s| && AllValid(s)
    ensures AllValid(RemoveAt(s, k))
  {
  }

  /** Re-scoring entry `k` with an accepted score changes that entry's score and
      nothing else, and keeps the list valid. */
  lemma {:induction false} RescoreKeepsValid(s: seq<Book>, k: nat, v: int)
    requires k < |s| && AllValid(s) && 1 <= v <= 10
    ensures WithScore(s[k], v).Ok?
    ensures var r := s[k := WithScore(s[k], v).value];
      AllValid(r) && |r| == |s| && r[k].score == Some(v)
      && r[k].(score := s[k].score) == s[k]
      && forall j :: 0 <= j < |s| && j != k ==> r[j] == s[j]
  {
  }

  class CompletedList {
    /** The list `main` works on. */
    var books: seq<Book>
    /** The list `completed_books.json` loads back as: the whole list,
        rewritten after every change. A missing or unreadable file loads as
        the empty list (`Catalog.LoadCompleted`). */
    var saved: seq<Book>

    ghost predicate Valid()
      reads this
    {
      AllValid(books) && saved == books
    }

    /** The list as loaded at start-up (see `Catalog.LoadCompleted`). */
    constructor (loaded: seq<Book>)
      requires AllValid(loaded)
      ensures Valid() && books == loaded
    {
      books := loaded;
      saved := loaded;
    }

    /** Option 1 of the completed-books menu: `completed_books.pop(i)` for the
        Python index `i`, then save. Returns the removed Book. */
    method Delete(i: int) returns (removed: Book)
      requires Valid() && InRange(i, |books|)
      modifies this
      ensures Valid()
      ensures removed == old(books)[Slot(i, |old(books)|)]
      ensures books == RemoveAt(old(books), Slot(i, |old(books)|))
    {
      var k := Slot(i, |books|);
      removed := books[k];
      books := RemoveAt(books, k);
      RemoveKeepsValid(old(books), k);
      saved := books;
    }

    /** Option 2 of the completed-books menu: copy entry `i` with score `v`,
        re-validate, and on success replace the entry and save. A rejected
        score changes neither the list nor the file. */
    method UpdateScore(i: int, v: int) returns (r: Result<Book, seq<FieldError>>)
      requires Valid() && InRange(i, |books|)
      modifies this
      ensures Valid()
      ensures r == WithScore(old(books)[Slot(i, |old(books)|)], v)
      ensures r.Ok? <==> 1 <= v <= 10
      ensures r.Ok? ==> books == old(books)[Slot(i, |old(books)|) := r.value]
      ensures r.Err? ==> books == old(books) && saved == old(saved)
    {
      var k := Slot(i, |books|);
      r := WithScore(books[k], v);
      if r.Ok? {
        RescoreKeepsValid(books, k, v);
        books := books[k := r.value];
        saved := books;
      }
    }

    /** Option 1 of the search menu: copy search result `i` with score `v`,
        re-validate, and on success append it to the list and save. A rejected
        score changes neither the list nor the file. */
    method MarkComplete(found: seq<Book>, i: int, v: int) returns (r: Result<Book, seq<FieldError>>)
      requires Valid() && InRange(i, |found|)
      modifies this
      ensures Valid()
      ensures r == WithScore(found[Slot(i, |found|)], v)
      ensures r.Ok? <==> 1 <= v <= 10
      ensures r.Ok? ==> books == old(books) + [r.value] && r.value.score == Some(v)
      ensures r.Err? ==> books == old(books) && saved == old(saved)
    {
      r := WithScore(found[Slot(i, |found|)], v);
      if r.Ok? {
        books := books + [r.value];
        saved := books;
      }
    }
  }
}
