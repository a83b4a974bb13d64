/** The text the program shows and sends: the numbered list of Books
    (`book_list`, project.py:54-66), the detail block of one Book
    (`book_details`, project.py:42-51) and the recommendation prompt
    (project.py:76-85). */
module Render {
  import opened Results
  import opened BookModel
  import opened Text
  import opened Indexing

  /** `f"{v}"` for an optional integer: `None` when absent, otherwise the
      decimal digits of the value, without leading zeros, after a minus sign
      when it is negative. */
  function OptionText(v: Option<int>): (s: string)
    ensures |s| >= 1 && '\n' !in s
    ensures IsDigit(s[|s| - 1]) || s[|s| - 1] == 'e'
    ensures v.None? <==> s == "None"
    ensures v.Some? && v.value >= 0 ==> AllDigits(s) && s == NatToString(v.value)
    ensures v.Some? && v.value < 0 ==>
      s[0] == '-' && AllDigits(s[1..]) && s[1..] == NatToString(-v.value)
    ensures v == Some(0) ==> s == "0"
    ensures v.Some? && v.value > 0 ==> s[0] != '0'
    ensures v.Some? && v.value < 0 ==> s[1] != '0'
  {
    match v
    case None => "None"
    case Some(n) =>
      var s := IntToString(n);
      assert forall j :: 0 <= j < |s| ==> s[j] == '-' || IsDigit(s[j]);
      assert n < 0 ==> s[1..] == NatToString(-n);
      s
  }

  /** The digits `f"{v}"` prints read back as the value. */
  lemma OptionTextReadsBack(v: Option<int>)
    requires v.Some?
    ensures v.value >= 0 ==> ParseDigits(OptionText(v)) == v.value
    ensures v.value < 0 ==> ParseDigits(OptionText(v)[1..]) == -v.value
  {
    ParseNatToString(if v.value < 0 then -v.value else v.value);
  }

  /** `f"{rating}"` for the optional average rating. */
  function RatingText(r: Option<Rating>): string {
    match r
    case None => "None"
    case Some(x) => x.shown
  }

  // ---------------------------------------------------------------------
  // book_list
  // ---------------------------------------------------------------------

  /** The line of the `n`-th Book (1-based) when scores are not shown. */
  function PlainLine(n: nat, b: Book): string {
    NatToString(n) + ". Title: " + b.title + ", Authors: " + Join(", ", b.authors)
  }

  /** The line of the `n`-th Book when scores are shown. */
  function ScoredLine(n: nat, b: Book): string {
    PlainLine(n, b) + ", Score: " + OptionText(b.score) + "/10"
  }

  function Line(n: nat, b: Book, isScore: bool): string {
    if isScore then ScoredLine(n, b) else PlainLine(n, b)
  }

  /** What `book_list(books, is_score)` returns. */
  function Listing(books: seq<Book>, isScore: bool): seq<string> {
    seq(|books|, j requires 0 <= j < |books| => Line(j + 1, books[j], isScore))
  }

  /** `book_list`: one loop per setting of `is_score`, each appending one line
      per Book in order. */
  method BookList(books: seq<Book>, isScore: bool) returns (lines: seq<string>)
    ensures lines == Listing(books, isScore)
  {
    lines := [];
    if isScore {
      for i := 0 to |books|
        invariant lines == Listing(books[..i], true)
      {
        lines := lines + [ScoredLine(i + 1, books[i])];
      }
    } else {
      for i := 0 to |books|
        invariant lines == Listing(books[..i], false)
      {
        lines := lines + [PlainLine(i + 1, books[i])];
      }
    }
    assert books[..|books|] == books;
  }

  /** The line of the `n`-th Book starts with the number `n`, then `. Title: `,
      the title, `, Authors: ` and the authors joined with `, `. */
  lemma LineFacts(n: nat, b: Book, isScore: bool)
    ensures LeadingNumber(Line(n, b, isScore)) == n
    ensures NatToString(n) + ". Title: " + b.title + ", Authors: " + Join(", ", b.authors)
            <= Line(n, b, isScore)
  {
    var num := NatToString(n);
    var body := ". Title: " + b.title + ", Authors: " + Join(", ", b.authors);
    var tail := if isScore then ", Score: " + OptionText(b.score) + "/10" else "";
    assert PlainLine(n, b) == num + body;
    assert Line(n, b, isScore) == num + (body + tail);
    assert (body + tail)[0] == '.';
    NumberedLine(n, body + tail);
  }

  /** One line per Book, in order: line `j` starts with the number `j + 1`, then
      `. Title: `, the title, `, Authors: ` and the authors joined with `, `;
      with scores shown it is the same line followed by `, Score: <score>/10`. */
  lemma ListingShape(books: seq<Book>, isScore: bool, j: nat)
    requires j < |books|
    ensures |Listing(books, isScore)| == |books|
    ensures LeadingNumber(Listing(books, isScore)[j]) == j + 1
    ensures NatToString(j + 1) + ". Title: " + books[j].title + ", Authors: " + Join(", ", books[j].authors)
            <= Listing(books, isScore)[j]
    ensures Listing(books, true)[j]
         == Listing(books, false)[j] + ", Score: " + OptionText(books[j].score) + "/10"
  {
    assert Listing(books, isScore)[j] == Line(j + 1, books[j], isScore);
    assert Listing(books, true)[j] == ScoredLine(j + 1, books[j]);
    assert Listing(books, false)[j] == PlainLine(j + 1, books[j]);
    LineFacts(j + 1, books[j], isScore);
  }

  /** A Book with a score shows it as a number from 1 to 10 out of 10. */
  lemma ScoredLineOfRated(n: nat, b: Book)
    requires Valid(b) && b.score.Some?
    ensures 1 <= b.score.value <= 10
    ensures ScoredLine(n, b) == PlainLine(n, b) + ", Score: " + NatToString(b.score.value) + "/10"
  {
  }

  /** The plain line of the single test Book. */
  lemma TestBookPlainLine(b: Book)
    requires b.title == "Test Book" && b.authors == ["Test Author"]
    ensures PlainLine(1, b) == "1. Title: Test Book, Authors: Test Author"
  {
    assert NatToString(1) == "1";
    assert Join(", ", b.authors) == "Test Author";
    var s := "1" + ". Title: ";
    assert s == "1. Title: ";
    s := s + "Test Book";
    assert s == "1. Title: Test Book";
    s := s + ", Authors: ";
    assert s == "1. Title: Test Book, Authors: ";
    s := s + "Test Author";
    assert s == "1. Title: Test Book, Authors: Test Author";
  }

  /** The listing of the single test Book, with and without its score. */
  lemma ListingOfOneBook(b: Book)
    requires b.title == "Test Book" && b.authors == ["Test Author"]
    ensures Listing([b], false) == ["1. Title: Test Book, Authors: Test Author"]
    ensures b.score == Some(7) ==>
      Listing([b], true) == ["1. Title: Test Book, Authors: Test Author, Score: 7/10"]
  {
    var plain := "1. Title: Test Book, Authors: Test Author";
    TestBookPlainLine(b);
    assert Listing([b], false) == [PlainLine(1, b)];
    if b.score == Some(7) {
      assert OptionText(b.score) == "7";
      var s := plain + ", Score: ";
      assert s == "1. Title: Test Book, Authors: Test Author, Score: ";
      s := s + "7";
      assert s == "1. Title: Test Book, Authors: Test Author, Score: 7";
      s := s + "/10";
      assert s == "1. Title: Test Book, Authors: Test Author, Score: 7/10";
      assert ScoredLine(1, b) == s;
      assert Listing([b], true) == [ScoredLine(1, b)];
    }
  }

  // ---------------------------------------------------------------------
  // book_details
  // ---------------------------------------------------------------------

  /** The detail block of one Book: its seven labelled lines, each ending in
      a newline. */
  function Details(b: Book): string {
    Terminated(DetailLines(b))
  }

  /** The lines, each followed by a newline. */
  function Terminated(lines: seq<string>): string
    decreases |lines|
  {
    if lines == [] then "" else lines[0] + "\n" + Terminated(lines[1..])
  }

  /** Splitting newline-terminated lines at newlines gives the lines back, and
      one empty piece after the last newline. */
  lemma {:induction false} SplitTerminated(lines: seq<string>)
    requires forall j :: 0 <= j < |lines| ==> '\n' !in lines[j]
    ensures Split('\n', Terminated(lines)) == lines + [""]
    decreases |lines|
  {
    if lines != [] {
      var rest := Terminated(lines[1..]);
      assert Terminated(lines) == lines[0] + ['\n'] + rest;
      SplitPiece('\n', lines[0], rest);
      assert forall j :: 0 <= j < |lines[1..]| ==> lines[1..][j] == lines[j + 1];
      SplitTerminated(lines[1..]);
      assert [lines[0]] + (lines[1..] + [""]) == lines + [""];
    }
  }

  /** Python's `IndexError`. */
  datatype IndexError = IndexError

  /** `book_details(books, idx)`: the block of the Book at Python index `idx`. */
  function BookDetails(books: seq<Book>, idx: int): (r: Result<string, IndexError>)
    ensures r.Ok? <==> -|books| <= idx < |books|
    ensures r.Ok? ==> r.value == Details(books[Slot(idx, |books|)])
  {
    if InRange(idx, |books|) then Ok(Details(books[Slot(idx, |books|)])) else Err(IndexError)
  }

  const DetailLabels: seq<string> :=
    ["Title: ", "Authors: ", "Description: ", "Categories: ", "Average Rating: ", "Page Count: ", "Score: "]

  /** The seven lines of the block, without their newlines. */
  function DetailLines(b: Book): seq<string> {
    [ "Title: " + b.title,
      "Authors: " + Join(", ", b.authors),
      "Description: " + b.description,
      "Categories: " + ListRepr(b.categories),
      "Average Rating: " + RatingText(b.averageRating),
      "Page Count: " + OptionText(b.pageCount),
      "Score: " + OptionText(b.score) + "/10" ]
  }

  /** The free-text fields the block shows hold no newline. */
  predicate OneLineFields(b: Book) {
    '\n' !in b.title && '\n' !in b.description
    && (forall j :: 0 <= j < |b.authors| ==> '\n' !in b.authors[j])
    && '\n' !in RatingText(b.averageRating)
  }

  /** When the free-text fields hold no newline, the block splits into exactly
      seven lines, in the order Title, Authors, Description, Categories,
      Average Rating, Page Count, Score, with nothing after the last newline. */
  lemma DetailsSevenLines(b: Book)
    requires OneLineFields(b)
    ensures Split('\n', Details(b)) == DetailLines(b) + [""]
    ensures |DetailLines(b)| == 7
    ensures forall j :: 0 <= j < 7 ==> DetailLabels[j] <= DetailLines(b)[j]
  {
    DetailLinesOneLine(b);
    SplitTerminated(DetailLines(b));
    DetailLinesLabelled(b);
  }

  /** Each of the seven lines holds no newline when the free-text fields hold none. */
  lemma DetailLinesOneLine(b: Book)
    requires OneLineFields(b)
    ensures forall j :: 0 <= j < |DetailLines(b)| ==> '\n' !in DetailLines(b)[j]
  {
    DetailTextLinesOneLine(b);
    DetailNumberLinesOneLine(b);
  }

  /** The first five lines show text fields and the categories list. */
  lemma DetailTextLinesOneLine(b: Book)
    requires OneLineFields(b)
    ensures forall j :: 0 <= j < 5 ==> '\n' !in DetailLines(b)[j]
  {
    JoinAvoids('\n', ", ", b.authors);
    ListReprIsOneLine(b.categories);
  }

  /** The last two lines show the page count and the score. */
  lemma DetailNumberLinesOneLine(b: Book)
    ensures '\n' !in DetailLines(b)[5] && '\n' !in DetailLines(b)[6]
  {
  }

  /** Line j of the block starts with label j. */
  lemma DetailLinesLabelled(b: Book)
    ensures |DetailLines(b)| == 7
    ensures forall j :: 0 <= j < 7 ==> DetailLabels[j] <= DetailLines(b)[j]
  {
    var lines := DetailLines(b);
    forall j | 0 <= j < 7
      ensures DetailLabels[j] <= lines[j]
    {
      var rest := lines[j][|DetailLabels[j]|..];
      assert lines[j] == DetailLabels[j] + rest;
    }
  }

  // ---------------------------------------------------------------------
  // The recommendation prompt
  // ---------------------------------------------------------------------

  const PromptHeader: string :=
    "Here's a list of books I've read along with the scores I gave them on a scale of 1 to 10: \n"
  const PromptClosing: string := "Would you give me some recommendations based on my list?"

  /** The prompt line of the `n`-th Book; the authors are joined by a comma
      without a space here. */
  function PromptLine(n: nat, b: Book): string {
    NatToString(n) + ". " + b.title + " by " + Join(",", b.authors) + ", score: " + OptionText(b.score)
  }

  /** The fields a prompt line shows, title and authors, hold no newline. */
  predicate PromptOneLine(b: Book) {
    '\n' !in b.title && forall j :: 0 <= j < |b.authors| ==> '\n' !in b.authors[j]
  }

  /** A prompt line is one line when its title and authors are, and starts
      with its number. */
  lemma PromptLineFacts(n: nat, b: Book)
    requires PromptOneLine(b)
    ensures '\n' !in PromptLine(n, b)
    ensures LeadingNumber(PromptLine(n, b)) == n
  {
    PromptLineOneLine(n, b);
    PromptLineNumber(n, b);
  }

  /** No newline enters a prompt line except through its title or authors. */
  lemma PromptLineOneLine(n: nat, b: Book)
    requires PromptOneLine(b)
    ensures '\n' !in PromptLine(n, b)
  {
    var num := NatToString(n);
    JoinAvoids('\n', ",", b.authors);
    assert '\n' !in num by {
      assert forall j :: 0 <= j < |num| ==> IsDigit(num[j]);
    }
  }

  /** A prompt line starts with its number, followed by `.`. */
  lemma PromptLineNumber(n: nat, b: Book)
    ensures LeadingNumber(PromptLine(n, b)) == n
  {
    var rest := ". " + b.title + " by " + Join(",", b.authors) + ", score: " + OptionText(b.score);
    assert PromptLine(n, b) == NatToString(n) + rest;
    assert rest[0] == '.';
    NumberedLine(n, rest);
  }

  function PromptLines(books: seq<Book>): seq<string> {
    seq(|books|, j requires 0 <= j < |books| => PromptLine(j + 1, books[j]))
  }

  /** The prompt sent to the language model: the header, the Book lines joined
      by newlines, and the closing question. */
  function Prompt(books: seq<Book>): string {
    PromptHeader + Join("\n", PromptLines(books)) + PromptClosing
  }

  /** The prompt always starts with the header and ends with the closing
      question; an empty list still gives a prompt, with nothing between them. */
  lemma PromptFrame(books: seq<Book>)
    ensures PromptHeader <= Prompt(books)
    ensures |Prompt(books)| >= |PromptHeader| + |PromptClosing|
    ensures Prompt(books)[|Prompt(books)| - |PromptClosing|..] == PromptClosing
    ensures books == [] ==> Prompt(books) == PromptHeader + PromptClosing
  {
  }

  /** Between header and closing question lie exactly the Book lines, one per
      Book and in order, each numbered from 1, when titles and authors hold no
      newline. */
  lemma PromptBookLines(books: seq<Book>)
    requires |books| >= 1
    requires forall j :: 0 <= j < |books| ==> PromptOneLine(books[j])
    ensures var p := Prompt(books);
      |p| >= |PromptHeader| + |PromptClosing|
      && Split('\n', p[|PromptHeader|..|p| - |PromptClosing|]) == PromptLines(books)
    ensures forall j :: 0 <= j < |books| ==> LeadingNumber(PromptLines(books)[j]) == j + 1
  {
    var lines := PromptLines(books);
    var middle := Join("\n", lines);
    var p := Prompt(books);
    assert p == PromptHeader + middle + PromptClosing;
    assert p[|PromptHeader|..|p| - |PromptClosing|] == middle;
    forall j | 0 <= j < |lines|
      ensures '\n' !in lines[j] && LeadingNumber(lines[j]) == j + 1
    {
      PromptLineFacts(j + 1, books[j]);
    }
    SplitJoin('\n', lines);
  }

  /** A prompt line ends with the last character of its score text: a digit,
      or the `e` of `None`. */
  lemma PromptLineEnd(n: nat, b: Book)
    ensures var line := PromptLine(n, b);
      |line| >= 1 && (IsDigit(line[|line| - 1]) || line[|line| - 1] == 'e')
  {
    var score := OptionText(b.score);
    var front := NatToString(n) + ". " + b.title + " by " + Join(",", b.authors) + ", score: ";
    assert PromptLine(n, b) == front + score;
    assert (front + score)[|front + score| - 1] == score[|score| - 1];
  }

  /** The last Book line stands right before the closing question. */
  lemma {:induction false} PromptLastLine(books: seq<Book>)
    requires |books| >= 1
    ensures var p := Prompt(books); var last := PromptLine(|books|, books[|books| - 1]);
      |p| >= |PromptHeader| + |last| + |PromptClosing|
      && p[|p| - |PromptClosing| - |last| .. |p| - |PromptClosing|] == last
  {
    var lines := PromptLines(books);
    assert lines[|lines| - 1] == PromptLine(|books|, books[|books| - 1]);
    JoinEndsWithLast("\n", lines);
    FramedSuffix(PromptHeader, Join("\n", lines), PromptClosing, lines[|lines| - 1]);
  }

  /** The Book lines, joined, end with the end of the last score. */
  lemma {:induction false} PromptMiddleEnd(books: seq<Book>)
    requires |books| >= 1
    ensures var m := Join("\n", PromptLines(books));
      |m| >= 1 && (IsDigit(m[|m| - 1]) || m[|m| - 1] == 'e')
  {
    var last := PromptLine(|books|, books[|books| - 1]);
    PromptLineEnd(|books|, books[|books| - 1]);
    var lines := PromptLines(books);
    assert lines[|lines| - 1] == last;
    var middle := Join("\n", lines);
    JoinEndsWithLast("\n", lines);
    assert middle[|middle| - 1] == last[|last| - 1];
  }

  /** The character right before the closing question ends the last score. */
  lemma {:induction false} PromptCharBeforeClosing(books: seq<Book>)
    requires |books| >= 1
    ensures var p := Prompt(books); var k := |p| - |PromptClosing| - 1;
      |PromptHeader| <= k < |p|
      && (IsDigit(p[k]) || p[k] == 'e') && p[k] != '\n'
  {
    PromptMiddleEnd(books);
    FramedLastChar(PromptHeader, Join("\n", PromptLines(books)), PromptClosing);
  }

  /** The last Book line runs straight into the closing question: it is
      immediately followed by the closing text, and the character before that
      is the end of the last score (a digit, or the `e` of `None`), never a
      newline. */
  lemma {:induction false} PromptNoBreakBeforeClosing(books: seq<Book>)
    requires |books| >= 1
    ensures var p := Prompt(books); var last := PromptLine(|books|, books[|books| - 1]);
      |p| >= |PromptHeader| + |last| + |PromptClosing|
      && p[|p| - |PromptClosing| - |last| .. |p| - |PromptClosing|] == last
    ensures var p := Prompt(books); var k := |p| - |PromptClosing| - 1;
      |PromptHeader| <= k < |p|
      && (IsDigit(p[k]) || p[k] == 'e') && p[k] != '\n'
  {
    PromptLastLine(books);
    PromptCharBeforeClosing(books);
  }
}
