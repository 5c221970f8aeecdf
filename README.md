# Jockey Club race-results crawler, modelled in Dafny

This project models the core of `crawler.py` from a scraper of Czech horse
racing results (www.dostihyjc.cz). The scraper's `JockeyClub` class does four
things:

- it builds one results-page URL per year;
- it follows the race-day links on each year page;
- it parses the header of every race;
- it reshapes every race's result table and stacks all races into one
  seventeen-column frame.

The fetching and HTML parsing are not modelled: a `Site` value stands for
what the network would return. A header block is a list of segments, each a
bare string or an element with its text. A result table is a list of named
columns and a list of rows of cells.

Modules (one per file):

- `Wrappers`: `Option` and `Result`.
- `Strings`: the Python string operations the parser uses:
  - `str.split` with its round trip through `join`;
  - `str.strip` over the `str.isspace` characters;
  - `in`;
  - `re.search(r"\d+")` and `re.search(r"\d\.\d")`;
  - `f"{n}"`.
- `PySeq`: list slicing `xs[a:b]` with negative and out-of-range bounds, and `xs[-1]`.
- `Header`: `JockeyClub._preprocess_race_header`. Every exception it can raise
  is a `HeaderError`.
- `ResultTable`: `JockeyClub._preprocess_race_table`. It is a method with the
  source's loop over `head.items()`, proved equal to the reshaped table built
  all at once (`Reshaped`).
- `WorkedExample`: one concrete header block and result table taken through
  the parser and the reshaper.
- `Crawler`:
  - the year URLs of `__init__`;
  - the `[8:]` anchor skip of `_get_race_urls`;
  - the `[4:-2]` slice of `_get_race_tables`;
  - `zip`;
  - the class `JockeyClub` with the nested loops of `crawl_races`, proved
    equal to a first-error fold (`Crawl`).

Three behaviours of the code that the model keeps as they are:

- `crawl_races` has no `try`/`except`, so the first failed fetch, header or
  table ends the whole crawl (`CrawlError`). Failures are not skipped per race.
- `race_intraday_order` and `race_length` stay strings, as `.group()` returns
  them; they are not converted to integers.
- The year URL keeps the literal `&amp;` that the source writes in its f-string.

## Model

| member | source | states |
|---|---|---|
| Strings.Find | crawler.py:67 | the first position where the separator occurs, none exactly when it does not occur |
| Strings.Split | crawler.py:67-74 | `s.split(sep)`: at least one piece, joining the pieces with `sep` gives `s` back, no piece holds `sep`, the first piece ends at the first occurrence |
| Strings.UpTo | crawler.py:67 | the prefix of `s` that ends at the first occurrence of the separator (all of `s` exactly when there is none), free of the separator |
| Strings.After | crawler.py:69 | the suffix after the first occurrence of the separator |
| Strings.SplitFirst | crawler.py:67 | the first piece of a split is the text before the first separator |
| Strings.SplitCount | crawler.py:69 | a split has a second piece exactly when the separator occurs |
| Strings.SplitSecond | crawler.py:69 | the second piece of a split is the text between the first and second separator |
| Strings.SplitUnfold | crawler.py:72-74 | splitting at the first separator: the first piece, then the split of the rest |
| Strings.LeadingSpace | crawler.py:69 | the length of the whitespace run at the front |
| Strings.LStrip | crawler.py:69 | the leading half of `s.strip()`: the suffix of `s` after a run of whitespace, not itself starting with whitespace |
| Strings.RStrip | crawler.py:69 | a prefix followed only by whitespace, not ending in whitespace |
| Strings.Strip | crawler.py:69-73 | `s.strip()`: the infix after the leading whitespace, followed only by whitespace, with no whitespace at either end |
| Strings.StripIdempotent | crawler.py:69-73 | stripping twice is stripping once |
| Strings.FirstDigit | crawler.py:68 | the position of the first digit (the length when there is none), with no digit before it |
| Strings.DigitRun | crawler.py:68 | the longest run of digits at the front |
| Strings.SearchDigits | crawler.py:68 | `re.search(r"\d+")`: no match exactly when there is no digit; otherwise the leftmost digit and the maximal run of digits from it |
| Strings.SearchDecimal | crawler.py:78 | `re.search(r"\d\.\d")`: no match exactly when no digit-point-digit occurs; otherwise the leftmost such triple |
| Strings.NatToString | crawler.py:19 | `str(n)`: digits without a leading zero that read back as `n` |
| Strings.IntToString | crawler.py:19 | `f"{n}"`: a minus exactly for a negative `n`, then digits without a leading zero, reading back as `n` |
| Strings.NatToStringOfValue | crawler.py:19 | every digit string without a leading zero is `str` of its value, so the rendering is the only canonical form |
| Strings.IntToStringInjective | crawler.py:18-21 | distinct integers render differently |
| PySeq.SliceBound | crawler.py:37 | a missing bound is the default; a bound in `0..n` is itself; a larger one is `n`; a negative one counts from the end, and is `0` when that is still negative |
| PySeq.Slice | crawler.py:104 | `xs[a:b]`: length `hi - lo` (or 0) and element `k` is `xs[lo + k]` |
| Header.TrackQuality | crawler.py:76-80 | the track condition is absent exactly when the last child lacks "Stav dráhy" |
| Header.OrderAndStart | crawler.py:67-69 | child 0 parses only if it is a string; the order is a non-empty run of digits |
| Header.TypeAgeAndLength | crawler.py:72-75 | child 5 parses only if it is a string; the length is a non-empty run of digits |
| Header.ParseHeader | crawler.py:58-91 | a parsed block has at least six children, children 0, 2 and 5 are strings, both numerals are digit runs, the track condition is absent exactly without the marker |
| Header.OrderAndStartSpec | crawler.py:67-69 | child 0 parses exactly when it is a string with digits before the first "start" and a "start"; the order is the first digit run before "start", the start time the trimmed text between the first and second "start"; each failure raises the source's error |
| Header.TypeAgeAndLengthSpec | crawler.py:72-75 | child 5 parses exactly when it is a string holding "-" with digits in the first comma part after it; an element, a missing "-" and missing digits each raise their error |
| Header.TypeAgeAndLengthFields | crawler.py:72-75 | race type = trimmed text before the first "-"; age limit = trimmed last comma part of the text between the first and second "-"; length = first digit run of its first comma part |
| Header.PieceFacts | crawler.py:72-74 | the pieces `split("-")[0]`, `split("-")[1]` and `split("-")[1].split(",")[0]` are the texts between the delimiters |
| Header.TrackQualitySpec | crawler.py:76-80 | the last child fails exactly when it has the marker but no "d.d"; with the marker the condition is the first "d.d" substring |
| Header.ParseHeaderSucceedsIff | crawler.py:58-91 | a block parses exactly when it is well formed (six children, the right ones strings, each part matching) |
| Header.ParseHeaderFirstError | crawler.py:67-73 | an empty block raises at child 0; an element or a bad child 0 raises its error; then a block too short for child 2, an element at child 2, and a block too short for child 3 or child 5 raise in that order |
| Header.ParseHeaderLateError | crawler.py:72-79 | once children 0 to 4 are read, an element at child 5, a missing "-", missing length digits, and then a marker without a "d.d" figure in the last child raise in that order |
| Header.ParseHeaderFields | crawler.py:67-90 | the fields of a parsed header through the delimiter positions: order = first digit run before the first "start" of child 0, start = trimmed text between its first and second "start", id = child 2 trimmed, name = text of child 3, type = trimmed text of child 5 before its first "-", length = first digit run before the first comma after that "-", age limit = trimmed last comma part, track condition = first "d.d" of the last child when the marker is there, else none |
| ResultTable.HeaderItems | crawler.py:81-90 | the eight header keys in dictionary order; the track-condition cell is null exactly when the condition is absent |
| ResultTable.HeaderValues | crawler.py:81-90 | the value of each key: the parsed field of that name as a string cell, a missing track condition as a null cell |
| ResultTable.DropFirstRow | crawler.py:118 | `table.loc[1:, :]`: same columns, one row fewer (none from an empty table), rows in order |
| ResultTable.Rename | crawler.py:131 | `table.columns = cols`: succeeds exactly when the lengths agree, keeps the rows, else raises a length mismatch |
| ResultTable.SetColumn | crawler.py:134 | `table.loc[:, name] = v`: a new name becomes a last column holding `v` in every row, and raises `ValueError` (`EmptyFrame`) exactly when the frame has no rows; an existing name gets `v` in every column of that name, in every row |
| ResultTable.Reshaped | crawler.py:107-135 | succeeds exactly with nine input columns and at least two rows; the wrong column count is a length mismatch, a header-only or empty table the `EmptyFrame` error; on success seventeen named columns, one row fewer, each row = the input row's cells unchanged followed by the header values |
| ResultTable.ReshapedRectangular | crawler.py:118-134 | a reshaped table has seventeen cells in every row |
| ResultTable.KeyIsNew | crawler.py:133-134 | no header key is already a column when it is added |
| ResultTable.AddHeaderColumn | crawler.py:133-134 | one pass of the loop appends the next header key as a column and its value to every row, and fails exactly when the table has no rows |
| ResultTable.AllHeaderColumns | crawler.py:133-135 | after all eight passes the table is exactly the reshaped table |
| ResultTable.PreprocessRaceTable | crawler.py:107-135 | the rename and then the loop over `head.items()` produce exactly `Reshaped`, errors included, and keep the table rectangular |
| Crawler.YearUrl | crawler.py:19 | reading the year back from a year URL gives the year |
| Crawler.YearOfInverse | crawler.py:19 | a URL that names a year is exactly the URL built for that year, so `YearOf` accepts nothing else (no leading zeros, no "-0") |
| Crawler.YearUrls | crawler.py:18-22 | `end - start + 1` URLs (none for an empty range); entry `i` is the prefix followed by `str(start + i)` and names year `start + i` |
| Crawler.YearUrlsDistinct | crawler.py:18-21 | no two year URLs are equal |
| Crawler.DefaultYearUrls | crawler.py:15-21 | the default range gives 31 URLs, for 1989 to 2019 |
| Crawler.RaceUrls | crawler.py:36-40 | `max(0, n - 8)` URLs; URL `i` is the site address followed by href `i + 8` |
| Crawler.RaceTables | crawler.py:104 | `tables[4:-2]`: `max(0, n - 6)` tables; table `i` is input table `i + 4` |
| Crawler.Zip | crawler.py:174 | as many pairs as the shorter list; pair `k` holds the `k`-th elements |
| Crawler.Collect | crawler.py:164-177 | the fold over an empty list yields no rows |
| Crawler.RaceRows | crawler.py:174-177 | a pair succeeds exactly when its header parses and its table has nine columns and at least two rows; a bad header is reported first; a header-only table raises `EmptyFrame`; a success yields `rows - 1` rows |
| Crawler.Crawl | crawler.py:137-178 | the crawl succeeds exactly when the fold over the year pages does; its frame has the seventeen columns |
| Crawler.CollectAppend | crawler.py:166-177 | folding a concatenation is folding each part and concatenating, so output order follows input order |
| Crawler.CollectFailurePersists | crawler.py:166-177 | a failure in a prefix is the failure of the whole fold |
| Crawler.CollectFirstFailure | crawler.py:166-177 | the first failing element's error is the fold's error |
| Crawler.CollectAllSucceed | crawler.py:166-177 | when no element fails the fold succeeds |
| Crawler.CollectSuccessEach | crawler.py:166-177 | when the fold succeeds every element succeeded |
| Crawler.CollectWidth | crawler.py:177 | stacking rows of one width gives rows of that width |
| Crawler.CollectExtend | crawler.py:177 | one more successful element appends its rows to the accumulator |
| Crawler.FailsAt | crawler.py:166-177 | an element failing after a successful prefix fails the fold with its error |
| Crawler.CrawlFailsWith | crawler.py:166-177 | a failing pair, after everything before it succeeded, fails the whole crawl with its error |
| Crawler.PairsRowCount | crawler.py:174-177 | a race page yields the sum over its pairs of each table's rows less one |
| Crawler.PageRowCount | crawler.py:169-177 | a race page that crawls yields the sum of `rows - 1` over `tables[4:-2]` zipped with its headers |
| Crawler.CollectLength | crawler.py:177 | when each element yields a known number of rows, the fold yields their sum |
| Crawler.CrawlRowCount | crawler.py:166-177 | a successful crawl holds, summed over years and race pages, each paired table's rows less one |
| Crawler.CrawlSchema | crawler.py:145-177 | every row of a crawled frame has one cell per each of the seventeen columns |
| Crawler.JockeyClub.constructor | crawler.py:15-22 | `table_urls` is the year list for the given range |
| Crawler.JockeyClub.Default | crawler.py:15-22 | `table_urls` is the year list for 1989 to 2019 |
| Crawler.JockeyClub.CrawlPair | crawler.py:175-176 | parsing the header and then reshaping the table gives exactly `RaceRows`: the table's rows less the first, or the header's error before the table's |
| Crawler.JockeyClub.CrawlRaces | crawler.py:137-178 | the three nested loops with the `df` accumulator return exactly `Crawl`: the rows of every pair, in year, page and race order, or the first error |
| WorkedExample.SplitOnce | crawler.py:67 | `a + sep + b` splits into exactly `[a, b]` when the separator's first character occurs in neither `a` nor `b` |
| WorkedExample.Child0Parsed | crawler.py:67-69 | "3 start 14:30" gives order "3" and start "14:30" |
| WorkedExample.RaceId | crawler.py:70 | the id " R123 " is trimmed to "R123" |
| WorkedExample.Child5Parsed | crawler.py:72-75 | "Rovina - 1600, 4 a více" gives type "Rovina", age limit "4 a více" and length "1600" |
| WorkedExample.Child6Parsed | crawler.py:76-78 | "Stav dráhy: 2.1" gives track condition "2.1" |
| WorkedExample.ExampleParsed | crawler.py:58-91 | a complete seven-segment header block parses to its eight fields |
| WorkedExample.HeaderOnlyTable | crawler.py:118-134 | a nine-column table holding only its header row, or no row at all, fails with `EmptyFrame` |
| WorkedExample.ExampleTable | crawler.py:107-135 | a nine-column table of a header row and five horses, reshaped with that header, keeps the five horses, each with race id "R123" in the `race_id` column |

## Left out

- HTTP (`requests.get`), BeautifulSoup (`find_all`, `.contents`) and
  `pd.read_html` are foreign calls. Their results are the maps of a `Site`
  value, and a URL missing from a map stands for a failed fetch
  (`FetchFailed`).
- `_get_race_headers` is not modelled as an operation: it only fetches and
  queries the tree. Its result is `Site.heads`.
- `decorators.py` is only logging and wall-clock timing. `main.py` is the
  entry point and CSV export, and it calls a `crawl_handicaps` that
  `crawler.py` does not define. Neither file is part of this model.
- `table.loc[1:, :]` is label based. The model assumes the default `0..n-1`
  index, so it drops the first row by position. The index labels that
  `pd.concat` carries over are not modelled.
- pandas cell types (numbers, NaN, dtypes) are not modelled: a cell is a
  string or null. Concatenation is modelled as appending rows, which is what
  `pd.concat` does when both frames have the same seventeen columns.
- `ResultTable.PreprocessRaceTable`: the DataFrame that the source mutates is
  a local value that the loop reassigns. `.loc[1:, :]` gives a fresh frame,
  so there is no aliasing with the caller's table to capture.
- `Strings.IsDigit`: `\d` matches only ASCII digits here. Python also matches
  other Unicode decimal digits.
- `Header.HasTrackMarker`: for an element as last child, `"Stav dráhy" in
  child` tests the element's children, not its text. The model treats the
  marker as absent there.
- `Header.NotText`: calling a `str` method on an element raises in the
  source. The one exception is an element that has a descendant tag named
  after the method; that case is not modelled.
- `Header.ParseHeader`: a bare string at child 3 gives its own text as the
  race name, as Beautiful Soup 4.10 and later do. Earlier versions have no
  `.text` on a `NavigableString` and raise `AttributeError` there; that error
  is not modelled.
- `Header.TrackQuality`: its own contract states only when the condition is
  absent. The full characterisation is `Header.TrackQualitySpec`.
- `Crawler.Collect`: its own contract states only the empty case. The
  behaviour over non-empty lists is in the `Collect…` lemmas.
