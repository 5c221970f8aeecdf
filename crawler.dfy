/**
 * `JockeyClub`: the list of yearly result pages, the race pages linked from
 * each, and the crawl that pairs every race table with its header and stacks
 * the reshaped tables into one frame.
 *
 * What the network returns is a `Site` value: for a year page, the hrefs of
 * its `a.button-left` anchors in document order; for a race page, the tables
 * `pd.read_html` finds and the `.contents` of each `div.hlavicka_dostihu`. A
 * URL the site has no entry for is a failed fetch.
 */
module Crawler {
  import opened Wrappers
  import opened Strings
  import opened PySeq
  import opened Header
  import opened ResultTable

  /** The yearly results page, up to the year; the `&amp;` is kept literally, as the source writes it. */
  const YearPagePrefix: string := "http://www.dostihyjc.cz/vysledky.php?stat=1&amp;rok="

  /** What every race href is appended to. */
  const SiteBase: string := "http://www.dostihyjc.cz/"

  /** The default year range: the first recorded race is from 1989. */
  const DefaultStartYear: int := 1989
  const DefaultEndYear: int := 2019

  /** The anchors before the race-day links, and the tables around the results. */
  const SkippedAnchors: int := 8
  const LeadingTables: int := 4
  const TrailingTables: int := 2

  // ---------------------------------------------------------------------------
  // The year pages

  /**
   * The year a results-page URL names: the prefix followed by a year written
   * as `str` writes it (an optional minus, then digits without a leading
   * zero, and no "-0").
   */
  function YearOf(url: string): Option<int> {
    var n := |YearPagePrefix|;
    if n < |url| && url[..n] == YearPagePrefix then
      var negative := url[n] == '-';
      var digits := if negative then url[n + 1..] else url[n..];
      if Canonical(digits) && !(negative && digits == "0") then Some(NumeralValue(url[n..])) else None
    else None
  }

  /** `f"...rok={year}"`: reading the year back from the URL gives `year`. */
  function YearUrl(year: int): (url: string)
    ensures YearOf(url) == Some(year)
  {
    var url := YearPagePrefix + IntToString(year);
    assert url[..|YearPagePrefix|] == YearPagePrefix;
    assert url[|YearPagePrefix|..] == IntToString(year);
    assert year < 0 ==> NatToString(-year) != "0";
    url
  }

  /** The only URL that names a year is the one `YearUrl` builds for it. */
  lemma YearOfInverse(url: string, year: int)
    requires YearOf(url) == Some(year)
    ensures url == YearUrl(year)
  {
    var n := |YearPagePrefix|;
    var text := url[n..];
    assert url == YearPagePrefix + text;
    if text[0] == '-' {
      var digits := text[1..];
      NatToStringOfValue(digits);
      assert digits != "0";
      assert DigitsValue(digits) != 0;
      assert text == "-" + digits;
    } else {
      NatToStringOfValue(text);
    }
  }

  lemma YearUrlDecodes(year: int, url: string)
    requires url == YearUrl(year)
    ensures url == YearPagePrefix + IntToString(year)
    ensures YearOf(url) == Some(year)
  {
  }

  /**
   * `JockeyClub.__init__`: one URL per year of `range(start_year, end_year + 1)`,
   * none when the range is empty; entry `i` is the prefix followed by
   * `str(start_year + i)`, and names that year.
   */
  function YearUrls(startYear: int, endYear: int): (urls: seq<string>)
    ensures |urls| == if startYear <= endYear then endYear - startYear + 1 else 0
    ensures forall i :: 0 <= i < |urls| ==> urls[i] == YearPagePrefix + IntToString(startYear + i)
    ensures forall i :: 0 <= i < |urls| ==> YearOf(urls[i]) == Some(startYear + i)
  {
    var n := if startYear <= endYear then endYear - startYear + 1 else 0;
    var urls := seq(n, i => YearUrl(startYear + i));
    forall i | 0 <= i < n
      ensures urls[i] == YearPagePrefix + IntToString(startYear + i)
      ensures YearOf(urls[i]) == Some(startYear + i)
    {
      YearUrlDecodes(startYear + i, urls[i]);
    }
    urls
  }

  /** The year URLs are pairwise distinct, so no year is crawled twice. */
  lemma YearUrlsDistinct(startYear: int, endYear: int, i: nat, j: nat)
    requires i < j < |YearUrls(startYear, endYear)|
    ensures YearUrls(startYear, endYear)[i] != YearUrls(startYear, endYear)[j]
  {
    assert YearOf(YearUrls(startYear, endYear)[i]) != YearOf(YearUrls(startYear, endYear)[j]);
  }

  /** With the default arguments there are 31 pages, for 1989 up to 2019. */
  lemma DefaultYearUrls()
    ensures |YearUrls(DefaultStartYear, DefaultEndYear)| == 31
    ensures YearOf(YearUrls(DefaultStartYear, DefaultEndYear)[0]) == Some(1989)
    ensures YearOf(YearUrls(DefaultStartYear, DefaultEndYear)[30]) == Some(2019)
  {
  }

  // ---------------------------------------------------------------------------
  // The race pages of a year, and the tables of a race page

  /**
   * The part of `_get_race_urls` after the fetch: the first eight anchors are
   * dropped (all of them when there are fewer) and the rest, in order, are
   * prefixed with the site address.
   */
  function RaceUrls(hrefs: seq<string>): (urls: seq<string>)
    ensures |urls| == if |hrefs| <= SkippedAnchors then 0 else |hrefs| - SkippedAnchors
    ensures forall i :: 0 <= i < |urls| ==> urls[i] == SiteBase + hrefs[i + SkippedAnchors]
  {
    var kept := Slice(hrefs, Some(SkippedAnchors), None);
    seq(|kept|, i requires 0 <= i < |kept| => SiteBase + kept[i])
  }

  /**
   * The slice in `_get_race_tables`: `tables[4:-2]` keeps tables 4 to n - 3,
   * none when there are six or fewer.
   */
  function RaceTables<T>(tables: seq<T>): (kept: seq<T>)
    ensures |kept| == if |tables| <= LeadingTables + TrailingTables then 0
                      else |tables| - LeadingTables - TrailingTables
    ensures forall i :: 0 <= i < |kept| ==> kept[i] == tables[i + LeadingTables]
  {
    Slice(tables, Some(LeadingTables), Some(-TrailingTables))
  }

  /** Python's `zip`: pairs by position, stopping at the end of the shorter list. */
  function Zip<A, B>(xs: seq<A>, ys: seq<B>): (ps: seq<(A, B)>)
    ensures |ps| == if |xs| <= |ys| then |xs| else |ys|
    ensures forall k :: 0 <= k < |ps| ==> ps[k] == (xs[k], ys[k])
    decreases |xs|
  {
    if |xs| == 0 || |ys| == 0 then [] else [(xs[0], ys[0])] + Zip(xs[1..], ys[1..])
  }

  // ---------------------------------------------------------------------------
  // The crawl, as a fold that stops at the first error

  datatype Site = Site(
    anchors: map<string, seq<string>>,
    tables: map<string, seq<Frame>>,
    heads: map<string, seq<seq<Segment>>>)

  /** Everything `pd.read_html` returns is a DataFrame. */
  predicate TablesRectangular(site: Site) {
    forall u :: u in site.tables ==> forall k :: 0 <= k < |site.tables[u]| ==> Rectangular(site.tables[u][k])
  }

  /** Nothing in `crawl_races` catches an exception: the first one ends the crawl. */
  datatype CrawlError =
    | FetchFailed(url: string)
    | BadHeader(url: string, headerError: HeaderError)
    | BadTable(url: string, tableError: TableError)

  type Rows = Result<seq<Row>, CrawlError>

  /**
   * Run `f` on each element in order and concatenate what it gives, stopping
   * at the first failure (the accumulator `df` of the source's loops).
   */
  function Collect<X>(xs: seq<X>, f: X -> Rows): (r: Rows)
    ensures xs == [] ==> r == Success([])
    decreases |xs|
  {
    if xs == [] then Success([])
    else
      match Collect(xs[..|xs| - 1], f)
      case Failure(e) => Failure(e)
      case Success(acc) =>
        match f(xs[|xs| - 1])
        case Failure(e) => Failure(e)
        case Success(rows) => Success(acc + rows)
  }

  /** A table reshaped by the header parsed beside it keeps `rows - 1` rows. */
  function DroppedCount(table: Frame): nat {
    if |table.rows| == 0 then 0 else |table.rows| - 1
  }

  /**
   * One pair of a race page: the header is parsed first, then the table is
   * reshaped with it; the pair gives the table's rows less the first, and a
   * table holding only its header row raises.
   */
  function RaceRows(url: string, table: Frame, head: seq<Segment>): (r: Rows)
    ensures r.Success? <==> ParseHeader(head).Success? && |table.columns| == |BaseColumns| && |table.rows| >= 2
    ensures ParseHeader(head).Failure? ==> r == Failure(BadHeader(url, ParseHeader(head).error))
    ensures ParseHeader(head).Success? && |table.columns| == |BaseColumns| && |table.rows| <= 1 ==>
      r == Failure(BadTable(url, EmptyFrame))
    ensures r.Success? ==> |r.value| == |table.rows| - 1 == DroppedCount(table)
  {
    match ParseHeader(head)
    case Failure(e) => Failure(BadHeader(url, e))
    case Success(h) =>
      match Reshaped(table, h)
      case Failure(e) => Failure(BadTable(url, e))
      case Success(f) => Success(f.rows)
  }

  function RaceStep(url: string): ((Frame, seq<Segment>)) -> Rows {
    (p: (Frame, seq<Segment>)) => RaceRows(url, p.0, p.1)
  }

  /** One race page: its tables are fetched, then its headers, and they are paired by position. */
  function PageRows(site: Site, raceUrl: string): Rows {
    if raceUrl !in site.tables then Failure(FetchFailed(raceUrl))
    else if raceUrl !in site.heads then Failure(FetchFailed(raceUrl))
    else Collect(Zip(RaceTables(site.tables[raceUrl]), site.heads[raceUrl]), RaceStep(raceUrl))
  }

  function PageStep(site: Site): string -> Rows {
    u => PageRows(site, u)
  }

  /** One year page: its anchors are fetched, and every race page they lead to is crawled in order. */
  function YearRows(site: Site, yearUrl: string): Rows {
    if yearUrl !in site.anchors then Failure(FetchFailed(yearUrl))
    else Collect(RaceUrls(site.anchors[yearUrl]), PageStep(site))
  }

  function YearStep(site: Site): string -> Rows {
    u => YearRows(site, u)
  }

  /** The whole crawl: the year pages in order, stacked under the seventeen columns. */
  function Crawl(tableUrls: seq<string>, site: Site): (r: Result<Frame, CrawlError>)
    ensures r.Success? ==> r.value.columns == AllColumns
    ensures r.Success? <==> Collect(tableUrls, YearStep(site)).Success?
  {
    match Collect(tableUrls, YearStep(site))
    case Failure(e) => Failure(e)
    case Success(rows) => Success(Frame(AllColumns, rows))
  }

  // ---------------------------------------------------------------------------
  // Properties of the fold

  /** Folding a concatenation is folding each part, in order: the output keeps element order. */
  lemma {:induction false} CollectAppend<X>(xs: seq<X>, ys: seq<X>, f: X -> Rows)
    ensures Collect(xs + ys, f) ==
      match Collect(xs, f)
      case Failure(e) => Failure(e)
      case Success(a) =>
        match Collect(ys, f)
        case Failure(e) => Failure(e)
        case Success(b) => Success(a + b)
    decreases |ys|
  {
    if ys == [] {
      assert xs + ys == xs;
      if Collect(xs, f).Success? {
        assert Collect(xs, f).value + [] == Collect(xs, f).value;
      }
    } else {
      var ys' := ys[..|ys| - 1];
      assert (xs + ys)[..|xs + ys| - 1] == xs + ys';
      assert (xs + ys)[|xs + ys| - 1] == ys[|ys| - 1];
      CollectAppend(xs, ys', f);
      match Collect(xs, f)
      case Failure(_) =>
      case Success(a) =>
        match Collect(ys', f)
        case Failure(_) =>
        case Success(b) =>
          match f(ys[|ys| - 1])
          case Failure(_) =>
          case Success(c) =>
            assert a + b + c == a + (b + c);
    }
  }

  /** A failure in a prefix is the failure of the whole fold: later elements are never looked at. */
  lemma {:induction false} CollectFailurePersists<X>(xs: seq<X>, k: nat, f: X -> Rows)
    requires k <= |xs| && Collect(xs[..k], f).Failure?
    ensures Collect(xs, f) == Collect(xs[..k], f)
    decreases |xs| - k
  {
    if k < |xs| {
      assert xs[..k + 1][..k] == xs[..k];
      CollectFailurePersists(xs, k + 1, f);
    } else {
      assert xs[..k] == xs;
    }
  }

  /** When the element at `k` is the first to fail, the fold fails with its error. */
  lemma CollectFirstFailure<X>(xs: seq<X>, k: nat, f: X -> Rows)
    requires k < |xs| && f(xs[k]).Failure?
    requires forall j :: 0 <= j < k ==> f(xs[j]).Success?
    ensures Collect(xs, f) == Failure(f(xs[k]).error)
  {
    CollectAllSucceed(xs[..k], f);
    assert xs[..k + 1][..k] == xs[..k];
    CollectFailurePersists(xs, k + 1, f);
  }

  /** When no element fails, neither does the fold. */
  lemma {:induction false} CollectAllSucceed<X>(xs: seq<X>, f: X -> Rows)
    requires forall j :: 0 <= j < |xs| ==> f(xs[j]).Success?
    ensures Collect(xs, f).Success?
    decreases |xs|
  {
    if xs != [] {
      CollectAllSucceed(xs[..|xs| - 1], f);
    }
  }

  /** When the fold succeeds, every element did. */
  lemma {:induction false} CollectSuccessEach<X>(xs: seq<X>, f: X -> Rows)
    requires Collect(xs, f).Success?
    ensures forall j :: 0 <= j < |xs| ==> f(xs[j]).Success?
    decreases |xs|
  {
    if xs != [] {
      CollectSuccessEach(xs[..|xs| - 1], f);
    }
  }

  /** Every row has `width` cells.  */
  predicate AllWidth(rows: seq<Row>, width: nat) {
    forall i :: 0 <= i < |rows| ==> |rows[i]| == width
  }

  /** When every element gives rows of one width, so does the fold. */
  lemma {:induction false} CollectWidth<X>(xs: seq<X>, f: X -> Rows, width: nat)
    requires forall j :: 0 <= j < |xs| && f(xs[j]).Success? ==> AllWidth(f(xs[j]).value, width)
    requires Collect(xs, f).Success?
    ensures AllWidth(Collect(xs, f).value, width)
    decreases |xs|
  {
    if xs != [] {
      CollectWidth(xs[..|xs| - 1], f, width);
    }
  }

  // ---------------------------------------------------------------------------
  // Properties of the crawl

  /** The number of data rows in the tables of a list of pairs. */
  function DataRows(pairs: seq<(Frame, seq<Segment>)>): nat
    decreases |pairs|
  {
    if pairs == [] then 0 else DataRows(pairs[..|pairs| - 1]) + DroppedCount(pairs[|pairs| - 1].0)
  }

  /** A race page gives the sum over its paired tables of their row counts less one. */
  lemma {:induction false} PairsRowCount(url: string, pairs: seq<(Frame, seq<Segment>)>)
    requires Collect(pairs, RaceStep(url)).Success?
    ensures |Collect(pairs, RaceStep(url)).value| == DataRows(pairs)
    decreases |pairs|
  {
    if pairs != [] {
      PairsRowCount(url, pairs[..|pairs| - 1]);
    }
  }

  /**
   * A race page that crawls gives as many rows as its paired tables hold data
   * rows; the tables paired are `tables[4:-2]` cut to the number of headers.
   */
  lemma PageRowCount(site: Site, raceUrl: string)
    requires PageRows(site, raceUrl).Success?
    ensures raceUrl in site.tables && raceUrl in site.heads
    ensures var pairs := Zip(RaceTables(site.tables[raceUrl]), site.heads[raceUrl]);
      |PageRows(site, raceUrl).value| == DataRows(pairs)
  {
    PairsRowCount(raceUrl, Zip(RaceTables(site.tables[raceUrl]), site.heads[raceUrl]));
  }

  /** The sum of `count` over the elements of `xs`. */
  function SumOver<X>(xs: seq<X>, count: X -> nat): nat
    decreases |xs|
  {
    if xs == [] then 0 else SumOver(xs[..|xs| - 1], count) + count(xs[|xs| - 1])
  }

  /** When every element gives `count` rows, the fold gives their sum. */
  lemma {:induction false} CollectLength<X>(xs: seq<X>, f: X -> Rows, count: X -> nat)
    requires forall j :: 0 <= j < |xs| && f(xs[j]).Success? ==> |f(xs[j]).value| == count(xs[j])
    requires Collect(xs, f).Success?
    ensures |Collect(xs, f).value| == SumOver(xs, count)
    decreases |xs|
  {
    if xs != [] {
      CollectLength(xs[..|xs| - 1], f, count);
    }
  }

  /** The data rows of a race page: those of its tables paired with a header. */
  function PageDataRows(site: Site, raceUrl: string): nat {
    if raceUrl in site.tables && raceUrl in site.heads
    then DataRows(Zip(RaceTables(site.tables[raceUrl]), site.heads[raceUrl]))
    else 0
  }

  function PageCount(site: Site): string -> nat {
    u => PageDataRows(site, u)
  }

  /** The data rows of a year: those of the race pages its anchors lead to. */
  function YearDataRows(site: Site, yearUrl: string): nat {
    if yearUrl in site.anchors then SumOver(RaceUrls(site.anchors[yearUrl]), PageCount(site)) else 0
  }

  function YearCount(site: Site): string -> nat {
    u => YearDataRows(site, u)
  }

  /**
   * A successful crawl holds, summed over the years and their race pages, the
   * rows of every paired table less its first.
   */
  lemma CrawlRowCount(tableUrls: seq<string>, site: Site)
    requires Crawl(tableUrls, site).Success?
    ensures |Crawl(tableUrls, site).value.rows| == SumOver(tableUrls, YearCount(site))
  {
    forall y | 0 <= y < |tableUrls| && YearRows(site, tableUrls[y]).Success?
      ensures |YearRows(site, tableUrls[y]).value| == YearDataRows(site, tableUrls[y])
    {
      var urls := RaceUrls(site.anchors[tableUrls[y]]);
      forall p | 0 <= p < |urls| && PageRows(site, urls[p]).Success?
        ensures |PageRows(site, urls[p]).value| == PageDataRows(site, urls[p])
      {
        PageRowCount(site, urls[p]);
      }
      CollectLength(urls, PageStep(site), PageCount(site));
    }
    CollectLength(tableUrls, YearStep(site), YearCount(site));
  }

  /** Every row of a successful crawl has one cell for each of the seventeen columns. */
  lemma CrawlSchema(tableUrls: seq<string>, site: Site)
    requires TablesRectangular(site)
    requires Crawl(tableUrls, site).Success?
    ensures Crawl(tableUrls, site).value.columns == AllColumns
    ensures Rectangular(Crawl(tableUrls, site).value)
  {
    var w := |AllColumns|;
    forall y | 0 <= y < |tableUrls| && YearRows(site, tableUrls[y]).Success?
      ensures AllWidth(YearRows(site, tableUrls[y]).value, w)
    {
      var urls := RaceUrls(site.anchors[tableUrls[y]]);
      forall p | 0 <= p < |urls| && PageRows(site, urls[p]).Success?
        ensures AllWidth(PageRows(site, urls[p]).value, w)
      {
        var u := urls[p];
        var pairs := Zip(RaceTables(site.tables[u]), site.heads[u]);
        forall k | 0 <= k < |pairs| && RaceStep(u)(pairs[k]).Success?
          ensures AllWidth(RaceStep(u)(pairs[k]).value, w)
        {
          assert Rectangular(pairs[k].0);
          ReshapedRectangular(pairs[k].0, ParseHeader(pairs[k].1).value);
        }
        CollectWidth(pairs, RaceStep(u), w);
      }
      CollectWidth(urls, PageStep(site), w);
    }
    CollectWidth(tableUrls, YearStep(site), w);
  }

  lemma AppendAssoc(a: seq<Row>, b: seq<Row>, c: seq<Row>)
    ensures (a + b) + c == a + (b + c)
  {
  }

  /** An element that succeeds after a successful prefix extends the fold's rows by its own. */
  lemma CollectExtend<X>(xs: seq<X>, k: nat, f: X -> Rows, acc: seq<Row>, rows: seq<Row>)
    requires k < |xs| && Collect(xs[..k], f) == Success(acc) && f(xs[k]) == Success(rows)
    ensures Collect(xs[..k + 1], f) == Success(acc + rows)
  {
    assert xs[..k + 1][..k] == xs[..k];
  }

  /** An element that fails after a successful prefix fails the whole fold, with its error. */
  lemma FailsAt<X>(xs: seq<X>, k: nat, f: X -> Rows, e: CrawlError)
    requires k < |xs| && Collect(xs[..k], f).Success? && f(xs[k]) == Failure(e)
    ensures Collect(xs, f) == Failure(e)
  {
    assert xs[..k + 1][..k] == xs[..k];
    CollectFailurePersists(xs, k + 1, f);
  }

  /** A failing pair `k` of race page `j` of year `i`, after everything before it succeeded, fails the crawl. */
  lemma CrawlFailsWith(tableUrls: seq<string>, site: Site, i: nat, raceUrls: seq<string>, j: nat,
                       pairs: seq<(Frame, seq<Segment>)>, k: nat, e: CrawlError)
    requires i < |tableUrls| && Collect(tableUrls[..i], YearStep(site)).Success?
    requires tableUrls[i] in site.anchors && raceUrls == RaceUrls(site.anchors[tableUrls[i]])
    requires j < |raceUrls| && Collect(raceUrls[..j], PageStep(site)).Success?
    requires raceUrls[j] in site.tables && raceUrls[j] in site.heads
    requires pairs == Zip(RaceTables(site.tables[raceUrls[j]]), site.heads[raceUrls[j]])
    requires k < |pairs| && Collect(pairs[..k], RaceStep(raceUrls[j])).Success?
    requires RaceStep(raceUrls[j])(pairs[k]) == Failure(e)
    ensures Crawl(tableUrls, site) == Failure(e)
  {
    FailsAt(pairs, k, RaceStep(raceUrls[j]), e);
    assert PageStep(site)(raceUrls[j]) == Failure(e);
    FailsAt(raceUrls, j, PageStep(site), e);
    assert YearStep(site)(tableUrls[i]) == Failure(e);
    FailsAt(tableUrls, i, YearStep(site), e);
  }

  // ---------------------------------------------------------------------------
  // The crawler object

  class JockeyClub {
    /** The yearly results pages to crawl. */
    var tableUrls: seq<string>

    /** `JockeyClub(start_year, end_year)`. */
    constructor (startYear: int, endYear: int)
      ensures tableUrls == YearUrls(startYear, endYear)
    {
      tableUrls := YearUrls(startYear, endYear);
    }

    /** `JockeyClub()`: the default years 1989 to 2019. */
    constructor Default()
      ensures tableUrls == YearUrls(DefaultStartYear, DefaultEndYear)
    {
      tableUrls := YearUrls(DefaultStartYear, DefaultEndYear);
    }

    /**
     * The body of the innermost loop of `crawl_races`: parse the header, then
     * reshape the table with it; the rows it contributes, or the first error.
     */
    method CrawlPair(raceUrl: string, table: Frame, head: seq<Segment>) returns (r: Rows)
      requires Rectangular(table)
      ensures r == RaceRows(raceUrl, table, head)
    {
      var parsed := ParseHeader(head);
      if parsed.Failure? {
        return Failure(BadHeader(raceUrl, parsed.error));
      }
      var reshaped := PreprocessRaceTable(table, parsed.value);
      if reshaped.Failure? {
        return Failure(BadTable(raceUrl, reshaped.error));
      }
      r := Success(reshaped.value.rows);
    }

    /**
     * `crawl_races`: for each year page, for each race page, for each pair
     * of a table and a header, parse the header, reshape the table and append
     * its rows to `df`; the first error ends the crawl.
     */
    method CrawlRaces(site: Site) returns (r: Result<Frame, CrawlError>)
      requires TablesRectangular(site)
      ensures r == Crawl(tableUrls, site)
    {
      var df: seq<Row> := [];
      for i := 0 to |tableUrls|
        invariant Collect(tableUrls[..i], YearStep(site)) == Success(df)
      {
        var yearUrl := tableUrls[i];
        if yearUrl !in site.anchors {
          r := Failure(FetchFailed(yearUrl));
          FailsAt(tableUrls, i, YearStep(site), r.error);
          return;
        }
        var raceUrls := RaceUrls(site.anchors[yearUrl]);
        ghost var before, yearRows := df, [];
        assert df == before + yearRows;
        for j := 0 to |raceUrls|
          invariant Collect(raceUrls[..j], PageStep(site)) == Success(yearRows)
          invariant df == before + yearRows
        {
          var raceUrl := raceUrls[j];
          if raceUrl !in site.tables || raceUrl !in site.heads {
            r := Failure(FetchFailed(raceUrl));
            FailsAt(raceUrls, j, PageStep(site), r.error);
            assert raceUrls[..|raceUrls|] == raceUrls;
            FailsAt(tableUrls, i, YearStep(site), r.error);
            return;
          }
          var tables := RaceTables(site.tables[raceUrl]);
          var heads := site.heads[raceUrl];
          var pairs := Zip(tables, heads);
          ghost var pageBefore, pageRows := df, [];
          assert df == pageBefore + pageRows;
          for k := 0 to |pairs|
            invariant Collect(pairs[..k], RaceStep(raceUrl)) == Success(pageRows)
            invariant df == pageBefore + pageRows
          {
            var (table, head) := pairs[k];
            var rows := CrawlPair(raceUrl, table, head);
            assert RaceStep(raceUrl)(pairs[k]) == rows;
            if rows.Failure? {
              r := Failure(rows.error);
              CrawlFailsWith(tableUrls, site, i, raceUrls, j, pairs, k, r.error);
              return;
            }
            CollectExtend(pairs, k, RaceStep(raceUrl), pageRows, rows.value);
            AppendAssoc(pageBefore, pageRows, rows.value);
            df := df + rows.value;
            pageRows := pageRows + rows.value;
          }
          assert pairs[..|pairs|] == pairs;
          CollectExtend(raceUrls, j, PageStep(site), yearRows, pageRows);
          AppendAssoc(before, yearRows, pageRows);
          yearRows := yearRows + pageRows;
        }
        assert raceUrls[..|raceUrls|] == raceUrls;
        CollectExtend(tableUrls, i, YearStep(site), before, yearRows);
      }
      assert tableUrls[..|tableUrls|] == tableUrls;
      r := Success(Frame(AllColumns, df));
    }
  }
}
