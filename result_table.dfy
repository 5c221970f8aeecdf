/**
 * `JockeyClub._preprocess_race_table`: one race's result table loses its
 * first row (the column names scraped as data), gets the nine fixed column
 * names, and receives every parsed header field as a constant column.
 *
 * A pandas DataFrame is modelled as a value: a list of column names and a
 * list of rows of cells, where the row position stands for the default
 * 0..n-1 index.
 */
module ResultTable {
  import opened Wrappers
  import opened PySeq
  import opened Header

  /** A cell: a scraped string, or the missing value that `None` becomes. */
  datatype Value = Null | Str(s: string)

  type Row = seq<Value>

  datatype Frame = Frame(columns: seq<string>, rows: seq<Row>)

  /** Every row has one cell per column, as in any DataFrame. */
  predicate Rectangular(f: Frame) {
    forall i :: 0 <= i < |f.rows| ==> |f.rows[i]| == |f.columns|
  }

  /** The names given to the nine columns of a result table, by position. */
  const BaseColumns: seq<string> := [
    "finish_order", "horse_name", "weight", "jockey", "statement",
    "time", "starting_num", "trainer", "evq"]

  /** The keys of a parsed header, in the order the header dict lists them. */
  const HeaderKeys: seq<string> := [
    "race_intraday_order", "race_start", "race_id", "race_name",
    "race_type", "horse_age_limit", "race_length", "track_quality"]

  /** The seventeen columns of a reshaped table and of the crawled frame. */
  const AllColumns: seq<string> := BaseColumns + HeaderKeys

  /** Why reshaping a result table raises. */
  datatype TableError =
    | ColumnMismatch(expected: nat, actual: nat)  // `table.columns = names` with the wrong number of names
    | EmptyFrame                                  // a new column set to a scalar on a frame with no rows

  /** `head.items()`: each header key with its value; a missing track condition is a null cell. */
  function HeaderItems(h: ParsedHeader): (items: seq<(string, Value)>)
    ensures |items| == |HeaderKeys|
    ensures forall k :: 0 <= k < |items| ==> items[k].0 == HeaderKeys[k]
    ensures items[7].1 == Null <==> h.trackQuality.None?
  {
    [ ("race_intraday_order", Str(h.raceIntradayOrder)),
      ("race_start", Str(h.raceStart)),
      ("race_id", Str(h.raceId)),
      ("race_name", Str(h.raceName)),
      ("race_type", Str(h.raceType)),
      ("horse_age_limit", Str(h.horseAgeLimit)),
      ("race_length", Str(h.raceLength)),
      ("track_quality", if h.trackQuality.Some? then Str(h.trackQuality.value) else Null) ]
  }

  /**
   * The values of `head.items()`, in key order: each parsed field as a string
   * cell under its own key, and a missing track condition as a null cell.
   */
  function HeaderValues(h: ParsedHeader): (vs: seq<Value>)
    ensures |vs| == |HeaderKeys|
    ensures forall k :: 0 <= k < |vs| ==> vs[k] == HeaderItems(h)[k].1
    ensures vs[0] == Str(h.raceIntradayOrder) && vs[1] == Str(h.raceStart)
    ensures vs[2] == Str(h.raceId) && vs[3] == Str(h.raceName)
    ensures vs[4] == Str(h.raceType) && vs[5] == Str(h.horseAgeLimit)
    ensures vs[6] == Str(h.raceLength)
    ensures vs[7] == if h.trackQuality.Some? then Str(h.trackQuality.value) else Null
  {
    seq(|HeaderKeys|, k requires 0 <= k < |HeaderKeys| => HeaderItems(h)[k].1)
  }

  // ---------------------------------------------------------------------------
  // The three DataFrame operations the source applies

  /** `table.loc[1:, :]` on a table with the default index: every row but the first. */
  function DropFirstRow(f: Frame): (r: Frame)
    ensures r.columns == f.columns
    ensures |r.rows| == (if |f.rows| == 0 then 0 else |f.rows| - 1)
    ensures forall i :: 0 <= i < |r.rows| ==> r.rows[i] == f.rows[i + 1]
  {
    Frame(f.columns, Slice(f.rows, Some(1), None))
  }

  /** `table.columns = names`: the names replace the old ones when there are as many. */
  function Rename(f: Frame, names: seq<string>): (r: Result<Frame, TableError>)
    ensures r.Success? <==> |names| == |f.columns|
    ensures r.Success? ==> r.value == Frame(names, f.rows)
    ensures r.Failure? ==> r.error == ColumnMismatch(|names|, |f.columns|)
  {
    if |names| != |f.columns| then Failure(ColumnMismatch(|names|, |f.columns|))
    else Success(f.(columns := names))
  }

  /**
   * `table.loc[:, name] = value` with a scalar `value`: every column labelled
   * `name` gets `value` in every row; a new label becomes a last column
   * holding `value` in every row, except that pandas raises `ValueError` when
   * the frame has no rows, since it has no index to give the new column.
   */
  function SetColumn(f: Frame, name: string, value: Value): (r: Result<Frame, TableError>)
    requires Rectangular(f)
    ensures r.Failure? <==> name !in f.columns && |f.rows| == 0
    ensures r.Failure? ==> r.error == EmptyFrame
    ensures r.Success? ==> Rectangular(r.value) && |r.value.rows| == |f.rows|
    ensures r.Success? && name !in f.columns ==>
      && r.value.columns == f.columns + [name]
      && forall i :: 0 <= i < |f.rows| ==> r.value.rows[i] == f.rows[i] + [value]
    ensures r.Success? && name in f.columns ==>
      && r.value.columns == f.columns
      && forall i, j :: 0 <= i < |f.rows| && 0 <= j < |f.columns| ==>
           r.value.rows[i][j] == if f.columns[j] == name then value else f.rows[i][j]
  {
    if name in f.columns then
      Success(Frame(f.columns, seq(|f.rows|, i requires 0 <= i < |f.rows| =>
        seq(|f.rows[i]|, j requires 0 <= j < |f.rows[i]| => if f.columns[j] == name then value else f.rows[i][j]))))
    else if |f.rows| == 0 then Failure(EmptyFrame)
    else
      Success(Frame(f.columns + [name], seq(|f.rows|, i requires 0 <= i < |f.rows| => f.rows[i] + [value])))
  }

  // ---------------------------------------------------------------------------
  // What the reshaping produces

  /**
   * The reshaped table, built all at once: with nine columns and at least two
   * rows, row `i` is row `i + 1` of the input followed by the header values.
   * With the wrong number of columns the rename fails; with nine columns but
   * no row left after the first is dropped, adding the first header column
   * fails.
   */
  function Reshaped(table: Frame, head: ParsedHeader): (r: Result<Frame, TableError>)
    ensures r.Success? <==> |table.columns| == |BaseColumns| && |table.rows| >= 2
    ensures |table.columns| != |BaseColumns| ==> r == Failure(ColumnMismatch(|BaseColumns|, |table.columns|))
    ensures |table.columns| == |BaseColumns| && |table.rows| <= 1 ==> r == Failure(EmptyFrame)
    ensures r.Success? ==>
      && r.value.columns == AllColumns
      && |r.value.rows| == |table.rows| - 1
      && forall i :: 0 <= i < |r.value.rows| ==>
           && |r.value.rows[i]| == |table.rows[i + 1]| + |HeaderKeys|
           && r.value.rows[i][..|table.rows[i + 1]|] == table.rows[i + 1]
           && r.value.rows[i][|table.rows[i + 1]|..] == HeaderValues(head)
  {
    if |table.columns| != |BaseColumns| then Failure(ColumnMismatch(|BaseColumns|, |table.columns|))
    else if |table.rows| <= 1 then Failure(EmptyFrame)
    else
      var body := DropFirstRow(table).rows;
      assert forall i :: 0 <= i < |body| ==>
        (body[i] + HeaderValues(head))[..|body[i]|] == body[i] &&
        (body[i] + HeaderValues(head))[|body[i]|..] == HeaderValues(head);
      Success(Frame(AllColumns, seq(|body|, i requires 0 <= i < |body| => body[i] + HeaderValues(head))))
  }

  /** A reshaped DataFrame is again a DataFrame: every row has its seventeen cells. */
  lemma ReshapedRectangular(table: Frame, head: ParsedHeader)
    requires Rectangular(table) && Reshaped(table, head).Success?
    ensures Rectangular(Reshaped(table, head).value)
    ensures forall i :: 0 <= i < |Reshaped(table, head).value.rows| ==>
      |Reshaped(table, head).value.rows[i]| == |AllColumns|
  {
  }

  /** No header key is already a column when it is added, so each one is appended. */
  lemma KeyIsNew(k: nat)
    requires k < |HeaderKeys|
    ensures HeaderKeys[k] !in BaseColumns + HeaderKeys[..k]
  {
  }

  /**
   * One pass of the loop below: the `k`-th header field becomes the last
   * column, which fails exactly when the table has no rows.
   */
  lemma AddHeaderColumn(t: Frame, body: seq<Row>, head: ParsedHeader, k: nat)
    requires k < |HeaderKeys| && Rectangular(t)
    requires t.columns == BaseColumns + HeaderKeys[..k] && |t.rows| == |body|
    requires forall i :: 0 <= i < |body| ==> t.rows[i] == body[i] + HeaderValues(head)[..k]
    ensures var r := SetColumn(t, HeaderItems(head)[k].0, HeaderItems(head)[k].1);
      && (r.Failure? <==> |body| == 0)
      && (r.Success? ==>
           && Rectangular(r.value)
           && r.value.columns == BaseColumns + HeaderKeys[..k + 1]
           && |r.value.rows| == |body|
           && forall i :: 0 <= i < |body| ==> r.value.rows[i] == body[i] + HeaderValues(head)[..k + 1])
  {
    KeyIsNew(k);
    assert HeaderKeys[..k + 1] == HeaderKeys[..k] + [HeaderKeys[k]];
    var r := SetColumn(t, HeaderItems(head)[k].0, HeaderItems(head)[k].1);
    if r.Success? {
      forall i | 0 <= i < |body| ensures r.value.rows[i] == body[i] + HeaderValues(head)[..k + 1] {
        assert HeaderValues(head)[..k + 1] == HeaderValues(head)[..k] + [HeaderValues(head)[k]];
      }
    }
  }

  /** After all eight passes the table is the reshaped one. */
  lemma AllHeaderColumns(table: Frame, head: ParsedHeader, t: Frame)
    requires |table.columns| == |BaseColumns| && |table.rows| >= 2
    requires t.columns == BaseColumns + HeaderKeys[..|HeaderKeys|]
    requires |t.rows| == |DropFirstRow(table).rows|
    requires forall i :: 0 <= i < |t.rows| ==>
      t.rows[i] == DropFirstRow(table).rows[i] + HeaderValues(head)[..|HeaderKeys|]
    ensures Reshaped(table, head) == Success(t)
  {
    var body := DropFirstRow(table).rows;
    assert HeaderKeys[..|HeaderKeys|] == HeaderKeys;
    assert HeaderValues(head)[..|HeaderKeys|] == HeaderValues(head);
    assert t.rows == seq(|body|, i requires 0 <= i < |body| => body[i] + HeaderValues(head));
  }

  /**
   * `JockeyClub._preprocess_race_table`: drop the first row, rename the
   * columns, then add the header fields one by one.
   */
  method PreprocessRaceTable(table: Frame, head: ParsedHeader) returns (r: Result<Frame, TableError>)
    requires Rectangular(table)
    ensures r == Reshaped(table, head)
    ensures r.Success? ==> Rectangular(r.value)
  {
    var t := DropFirstRow(table);
    var renamed := Rename(t, BaseColumns);
    if renamed.Failure? {
      return Failure(renamed.error);
    }
    t := renamed.value;
    ghost var body := t.rows;
    var items := HeaderItems(head);
    for k := 0 to |items|
      invariant Rectangular(t)
      invariant t.columns == BaseColumns + HeaderKeys[..k]
      invariant |t.rows| == |body|
      invariant forall i :: 0 <= i < |body| ==> t.rows[i] == body[i] + HeaderValues(head)[..k]
      invariant k > 0 ==> |body| > 0
    {
      AddHeaderColumn(t, body, head, k);
      var added := SetColumn(t, items[k].0, items[k].1);
      if added.Failure? {
        return Failure(added.error);
      }
      t := added.value;
    }
    AllHeaderColumns(table, head, t);
    r := Success(t);
  }
}
