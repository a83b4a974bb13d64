# Book browser record-and-list layer, in Dafny

This project models the record-and-list logic of a command-line book
browser. The browser searches a book catalog, lets the user keep a list of
"completed" Books with a personal score from 1 to 10, and builds a prompt
to ask a language model for recommendations.

Modules:

- `Results`: `Option` (Python's `None`) and `Result` (a value, or the
  exception a call raises).
- `Text`: the Python string operations the renderers use. These are
  `sep.join`, `str()` of an integer, and `str()` of a list of strings, which
  prints each string as its `repr()`. The module also models Python's
  `s.split(c)`: the program does not call it, but the contracts use it to say
  what lines a text consists of. It also has a reader for the number at the
  start of a line, used to state how lines are numbered.
- `BookModel`: the `Book` record and its field defaults. `Construct` is the
  smart constructor for `Book(**mapping)`: it returns a Book or the field
  errors. `WithScore` is copy-with-new-score followed by re-validation.
  `Dump` is `model_dump()`.
- `Catalog`: how an already decoded catalog response becomes Books (the loop
  of `fetch_books`), and how the decoded list file becomes the completed list.
- `Indexing`: Python list indexing. Negative indices count from the end.
- `Render`: `book_list`, `book_details` and the recommendation prompt.
- `Selection`: how a typed number picks a Book in the two browsing loops.
- `Completed`: the class `CompletedList`, for the list that `main` changes
  in place. Its methods are delete, update score and mark complete. The field
  `saved` stands for the list the file loads back as. The file is rewritten
  whole after every change; a missing or unreadable file loads as the empty
  list.

In these places the code does not do what its field defaults, its 1-based
numbering and its recommend-mode check suggest; the model follows the code:

- `Book(**{})` does not take defaults for everything: `title` is required.
  A catalog item without `volumeInfo` therefore makes the whole search raise
  a validation error (`Catalog.MissingVolumeInfoRaises`).
- The completed-books loop reads Book `idx - 1` with Python indexing, where
  `idx` is the number typed. It accepts every number from `1 - n` to `n`,
  and 0 selects the last Book (`Selection.CompletedZeroIsLast`).
- The search loop reads Book `idx`, one past the 1-based number it prints.
  So the last printed number is rejected (`Selection.SearchChoiceOffByOne`).
- The prompt has no line break between the last Book line and the closing
  question (`Render.PromptNoBreakBeforeClosing`). The prompt joins authors
  with `,` and no space, while the list and the detail block use `, `.
- In recommend mode the empty-list branch can never run, because the loaded
  list is never `None`. An empty list still produces a prompt
  (`Render.PromptFrame`).

## Model

| member | source | states |
|---|---|---|
| `BookModel.Validate` | project.py:14-26 | the errors list holds "missing title" exactly when the title is absent, and "score out of range" exactly when a given score is outside 1..10; it is empty exactly when both checks pass |
| `BookModel.Construct` | project.py:11-26 | construction succeeds iff the title is present and the score is absent or in 1..10; a constructed Book is valid; a rejection carries the nonempty list of field errors |
| `BookModel.ConstructDefaults` | project.py:14-20 | a mapping holding only a title gives exactly the Book whose other fields are the defaults: absent fields take `["Unknown author"]`, `"No description"`, `["No categories"]`, and no rating, page count or score |
| `BookModel.ConstructKeepsGiven` | project.py:14-20 | every field given in the mapping is carried into the Book unchanged; an absent `authors`, `description` or `categories` takes its own default (`["Unknown author"]`, `"No description"`, `["No categories"]`) whatever the other fields are |
| `BookModel.ScoreDecides` | project.py:22-26 | for a titled mapping, no score is always accepted and score v is accepted iff 1 <= v <= 10 |
| `BookModel.ScoreBoundaries` | test_project.py:30-35 | scores 11, 0 and -1 are rejected with exactly that one error; 1 and 10 are accepted |
| `BookModel.WithScore` | project.py:172-175 | copying with score v and re-validating succeeds iff 1 <= v <= 10; the result equals the old Book with only the score replaced, and is valid |
| `BookModel.DumpConstruct` | project.py:69-70 | constructing from a Book's dump succeeds iff the Book is valid, and then gives the same Book back |
| `Text.NatToString` | project.py:59 | `str(n)` of a non-negative integer is at least one decimal digit, and has no leading zero unless n is 0 |
| `Text.ParseNatToString` | project.py:59 | the decimal text printed for a line number reads back as that number |
| `Text.SplitJoin` | project.py:76-79 | splitting at the separator undoes joining with it when no piece contains it |
| `Text.ListReprIsOneLine` | project.py:47 | the printed list of categories never contains a newline |
| `Catalog.BuildAllOk` | project.py:34-38 | the list of mappings constructs iff every mapping does, and then gives one Book per mapping, in order |
| `Catalog.BuildAllFirstError` | project.py:35-38 | a failing list fails with the errors of its first failing mapping, all earlier ones constructing |
| `Catalog.BuildAllPrefixErr` | project.py:35-38 | once a prefix of the items fails, the whole mapping fails with the same errors |
| `Catalog.FetchBooks` | project.py:33-39 | the appending loop returns exactly the response mapping, or the errors of the first rejected item |
| `Catalog.ResponseBooksShape` | project.py:34-39 | no `items` key gives no Books; items that all construct give one Book per item, in order, from its `volumeInfo` |
| `Catalog.MissingVolumeInfoRaises` | project.py:36-37 | an item without `volumeInfo` makes the whole search fail |
| `Catalog.OneItemResponse` | test_project.py:38-45 | the one-item test response yields exactly one Book with the test title and authors |
| `Catalog.LoadedAreValid` | project.py:120-125 | every Book of a successfully loaded list is valid |
| `Catalog.SaveLoadRoundTrip` | project.py:69-70 | dumping a valid list and loading it back gives the same list |
| `Indexing.Slot` | project.py:153 | an accepted Python index reaches the one position below the length that agrees with it modulo the length |
| `Indexing.SlotUnique` | project.py:164 | two accepted indices reach the same entry iff they agree modulo the length |
| `Render.OptionText` | project.py:50 | an absent value prints exactly as `None`; a present value prints as `str()` of the integer: its decimal digits as `Text.NatToString` gives them, after a minus sign when negative, with no leading zero (0 prints as `0`); the text is one line and ends in a digit or the `e` of `None` |
| `Render.OptionTextReadsBack` | project.py:50 | the digits printed for a present value read back as the value (as its magnitude after the minus sign when negative) |
| `Render.BookList` | project.py:54-66 | the two appending loops return exactly the listing: one line per Book, in order |
| `Render.ListingShape` | project.py:54-66 | one line per Book; line j starts with the number j+1, then `. Title: <title>, Authors: <authors joined by ", ">`; the scored line is the plain line followed by `, Score: <score>/10` |
| `Render.ScoredLineOfRated` | project.py:59 | a valid scored Book shows a score from 1 to 10, followed by `/10` |
| `Render.ListingOfOneBook` | test_project.py:72-81 | the test Book lists as `1. Title: Test Book, Authors: Test Author`, and with score 7 as the same line followed by `, Score: 7/10` |
| `Render.BookDetails` | project.py:42-51 | succeeds iff -n <= idx < n, and then gives the detail block of the Book at that Python index; otherwise an `IndexError` |
| `Render.SplitTerminated` | project.py:43-51 | newline-terminated lines split back into those lines, with one empty piece after the last newline |
| `Render.DetailsSevenLines` | project.py:43-51 | the block is exactly seven newline-terminated lines, labelled Title, Authors, Description, Categories, Average Rating, Page Count, Score, in that order |
| `Render.PromptLineFacts` | project.py:77 | a prompt line whose title and authors hold no newline is one line, and it starts with its 1-based number |
| `Render.PromptFrame` | project.py:81-85 | the prompt starts with the fixed header and ends with the closing question; an empty list gives just those two |
| `Render.PromptBookLines` | project.py:76-85 | when no title or author holds a newline, between header and closing question lie exactly the Book lines, one per Book, in order, numbered from 1 |
| `Render.PromptNoBreakBeforeClosing` | project.py:76-85 | the last Book line stands immediately before the closing question, so the character before it is the end of the last score (a digit or the `e` of `None`), never a newline |
| `Selection.CompletedChoiceMatchesListing` | project.py:150-153 | in completed mode each listed number 1..n is accepted and shows the Book on that line of the scored listing |
| `Selection.CompletedZeroIsLast` | project.py:152-153 | in completed mode typing 0 is accepted and shows the last Book |
| `Selection.CompletedAccepts` | project.py:151-156 | completed mode accepts exactly the numbers from 1-n to n |
| `Selection.SearchChoiceOffByOne` | project.py:200-203 | in search mode listed number c < n shows the Book listed as c+1; listed number n is rejected; 0 shows the first Book |
| `Completed.RemoveAt` | project.py:164 | popping entry k leaves n-1 entries: those before k in place, those after k shifted down by one, the same multiset less the removed one |
| `Completed.RemoveKeepsValid` | project.py:164 | deleting keeps every remaining entry valid |
| `Completed.RescoreKeepsValid` | project.py:170-179 | an accepted re-score changes only entry k, and only its score, and keeps the list valid |
| `Completed.CompletedList.constructor` | project.py:120-125 | the list starts as the loaded list, which is also the list the file loads back as (the empty list when the file is missing or unreadable) |
| `Completed.CompletedList.Delete` | project.py:164-166 | removes the entry at the Python index, returns it, keeps the rest in order, keeps the list valid, and saves the whole list |
| `Completed.CompletedList.UpdateScore` | project.py:170-181 | succeeds iff 1 <= v <= 10; then replaces only the chosen entry by its re-scored copy and saves; otherwise list and file are unchanged |
| `Completed.CompletedList.MarkComplete` | project.py:212-223 | succeeds iff 1 <= v <= 10; then appends the chosen search result with score v at the end and saves; otherwise list and file are unchanged |

## Left out

- HTTP: the catalog `GET` and the recommendation `POST`, the status check, `raise_for_status` and reading the reply. These are network calls. `FetchBooks` starts from the decoded response; the prompt is modelled up to the point where it is sent.
- The search URL is not modelled, including the unencoded query string. It only matters for the HTTP call.
- File I/O and JSON formatting: `open`, `json.load` and `json.dump` with indent 4. `LoadCompleted` starts from the decoded file, or `None` when the file is missing or not valid JSON. The field `CompletedList.saved` records only that the whole list is rewritten.
- Argument parsing, `.env` and environment lookup, `sys.exit`, and the `input`/`print` loops of `main`. These are console and configuration plumbing. The list operations those loops perform are modelled, and so is the way a typed number selects a Book.
- The unguarded `int(input())` of the two submenus crashes on non-numeric input. This is console behaviour; the model takes numbers as integers.
- Type checking performed by the model class: a field of the wrong JSON type, or `null` for a list field. The mapping is typed per field. Keys other than the seven fields are ignored, as the model class does.
- The `TypeError` that `book_details` raises for an index that is not an integer. The index is typed `int`, so that case cannot arise in the model.
- `averageRating` is a float and is only displayed. It is kept as the text `str()` prints for it; no arithmetic is modelled.
- `Text.StrRepr`: escapes backslashes, the chosen quote, `\n`, `\r`, `\t`, and control characters below space or 127 as `\xNN`. It does not model Python's escaping of other non-printable Unicode characters.
- `Render.DetailsSevenLines`: is stated only for Books whose title, description, authors and rating text contain no newline. A newline inside one of those fields would add lines.
- `Render.PromptBookLines`: is stated only for Books whose title and authors contain no newline. Those are the only free-text fields a prompt line shows, and a newline in one of them would split that Book's line in two.
- `Completed.CompletedList.Delete`, `UpdateScore` and `MarkComplete` take a Python index that is already accepted. In `main`, that index is established by the preceding `book_details` call, which has not raised.
