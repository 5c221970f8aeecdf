/**
 * A race worked through the parser and the reshaper: the header of race 3,
 * starting at 14:30, id "R123", a flat race of 1600 m for horses of four and
 * older, on a track in condition 2.1; and a result table of five horses.
 */
module WorkedExample {
  import opened Wrappers
  import opened Strings
  import opened Header
  import opened ResultTable

  /** A text without the pattern's first character does not contain the pattern. */
  lemma FindNone(s: string, pat: string)
    requires pat != [] && pat[0] !in s
    ensures Find(s, pat).None?
  {
    forall j | 0 <= j <= |s| - |pat| ensures !OccursAt(s, pat, j) {
      assert s[j] != pat[0];
    }
  }

  /**
   * A text made of a piece without the separator's first character, the
   * separator, and another such piece splits into the two pieces.
   */
  lemma SplitOnce(a: string, sep: string, b: string)
    requires sep != [] && sep[0] !in a && sep[0] !in b
    ensures Split(a + sep + b, sep) == [a, b]
  {
    var s := a + sep + b;
    assert s[|a|..|a| + |sep|] == sep;
    assert s[..|a|] == a;
    assert s[|a| + |sep|..] == b;
    forall j | 0 <= j < |a| ensures !OccursAt(s, sep, j) {
      assert s[j] == a[j];
    }
    assert OccursAt(s, sep, |a|);
    assert Find(s, sep).Some?;
    assert Find(s, sep) == Some(|a|);
    FindNone(b, sep);
    SplitUnfold(s, sep, |a|);
  }

  /** A digit-point-digit with no digit before it is what the search finds. */
  lemma DecimalFirstAt(s: string, i: nat)
    requires DecimalAt(s, i)
    requires forall k :: 0 <= k < i ==> !IsDigit(s[k])
    ensures SearchDecimal(s) == Some(Match(i, s[i..i + 3]))
  {
  }

  const Child0: string := "3 start 14:30"
  const Child2: string := " R123 "
  const Child5: string := "Rovina - 1600, 4 a v\U{00ED}ce"
  const Child6: string := "Stav dr\U{00E1}hy: 2.1"

  const ExampleBlock: seq<Segment> :=
    [Text(Child0), Text(" "), Text(Child2), Element("Velk\U{00E1} ceny"), Text(" "), Text(Child5), Text(Child6)]

  const ExampleRecord: ParsedHeader :=
    ParsedHeader("3", "14:30", "R123", "Velk\U{00E1} ceny", "Rovina", "4 a v\U{00ED}ce", "1600", Some("2.1"))

  lemma Child0Parts()
    ensures Split(Child0, StartToken) == ["3 ", " 14:30"]
  {
    assert Child0 == "3 " + StartToken + " 14:30";
    assert 's' !in "3 " && 's' !in " 14:30";
    SplitOnce("3 ", StartToken, " 14:30");
  }

  lemma OrderDigits()
    ensures SearchDigits("3 ") == Some(Match(0, "3"))
  {
    assert DigitRun("3 ") == "3";
  }

  lemma StartTime()
    ensures Strip(" 14:30") == "14:30"
  {
    assert LeadingSpace(" 14:30") == 1;
  }

  lemma Child0Parsed()
    ensures OrderAndStart(Text(Child0)) == Success(("3", "14:30"))
  {
    Child0Parts();
    OrderDigits();
    StartTime();
  }

  lemma RaceId()
    ensures Strip(Child2) == "R123"
  {
    assert LeadingSpace(Child2) == 1;
    assert RStrip("R123 ") == "R123";
  }

  lemma Child5Parts()
    ensures Split(Child5, Dash) == ["Rovina ", " 1600, 4 a v\U{00ED}ce"]
  {
    assert Child5 == "Rovina " + Dash + " 1600, 4 a v\U{00ED}ce";
    assert '-' !in "Rovina ";
    assert '-' !in " 1600, 4 a v\U{00ED}ce";
    SplitOnce("Rovina ", Dash, " 1600, 4 a v\U{00ED}ce");
  }

  lemma LengthParts()
    ensures Split(" 1600, 4 a v\U{00ED}ce", Comma) == [" 1600", " 4 a v\U{00ED}ce"]
  {
    assert " 1600, 4 a v\U{00ED}ce" == " 1600" + Comma + " 4 a v\U{00ED}ce";
    assert ',' !in " 1600" && ',' !in " 4 a v\U{00ED}ce";
    SplitOnce(" 1600", Comma, " 4 a v\U{00ED}ce");
  }

  lemma LengthDigits()
    ensures SearchDigits(" 1600") == Some(Match(1, "1600"))
  {
    assert FirstDigit(" 1600") == 1;
    assert " 1600"[1..] == "1600";
    assert DigitRun("1600") == "1600";
  }

  lemma RaceType()
    ensures Strip("Rovina ") == "Rovina"
  {
    assert LeadingSpace("Rovina ") == 0;
    assert "Rovina "[..6] == "Rovina";
    assert RStrip("Rovina ") == "Rovina";
  }

  lemma AgeLimit()
    ensures Strip(" 4 a v\U{00ED}ce") == "4 a v\U{00ED}ce"
  {
    var body := "4 a v\U{00ED}ce";
    assert " 4 a v\U{00ED}ce"[1..] == body;
    assert !IsSpace(body[0]) && !IsSpace(body[|body| - 1]);
    assert LeadingSpace(body) == 0;
    assert LeadingSpace(" 4 a v\U{00ED}ce") == 1;
    assert RStrip(body) == body;
  }

  lemma Child5Parsed()
    ensures TypeAgeAndLength(Text(Child5)) == Success(("Rovina", "4 a v\U{00ED}ce", "1600"))
  {
    Child5Parts();
    LengthParts();
    LengthDigits();
    RaceType();
    AgeLimit();
  }

  lemma TrackFigure()
    ensures SearchDecimal(Child6) == Some(Match(12, "2.1"))
  {
    assert Child6[12..15] == "2.1";
    assert DecimalAt(Child6, 12);
    assert forall k :: 0 <= k < 12 ==> !IsDigit(Child6[k]);
    DecimalFirstAt(Child6, 12);
  }

  lemma Child6Parsed()
    ensures TrackQuality(Text(Child6)) == Success(Some("2.1"))
  {
    assert OccursAt(Child6, TrackMarker, 0);
    TrackFigure();
  }

  /** The header block parses into the record its children describe. */
  lemma ExampleParsed()
    ensures ParseHeader(ExampleBlock) == Success(ExampleRecord)
  {
    var h := ExampleBlock;
    assert |h| == 7 && h[0] == Text(Child0) && h[2] == Text(Child2) && h[5] == Text(Child5) && h[6] == Text(Child6);
    assert TextOf(h[3]) == "Velk\U{00E1} ceny";
    Child0Parsed();
    RaceId();
    Child5Parsed();
    Child6Parsed();
  }

  /** A table of nine columns holding only its header row cannot be reshaped. */
  lemma HeaderOnlyTable(row: Row)
    ensures Reshaped(Frame(BaseColumns, [row]), ExampleRecord) == Failure(EmptyFrame)
    ensures Reshaped(Frame(BaseColumns, []), ExampleRecord) == Failure(EmptyFrame)
  {
  }

  /**
   * A result table of a header row and five horses, reshaped with that
   * header, keeps the five horses, each with race id "R123" in the race-id
   * column.
   */
  lemma ExampleTable(table: Frame)
    requires Rectangular(table) && |table.columns| == |BaseColumns| && |table.rows| == 6
    ensures Reshaped(table, ExampleRecord).Success?
    ensures |Reshaped(table, ExampleRecord).value.rows| == 5
    ensures forall i :: 0 <= i < 5 ==> Reshaped(table, ExampleRecord).value.rows[i][11] == Str("R123")
    ensures Reshaped(table, ExampleRecord).value.columns[11] == "race_id"
  {
    var rows := Reshaped(table, ExampleRecord).value.rows;
    forall i | 0 <= i < 5 ensures rows[i][11] == Str("R123") {
      assert |table.rows[i + 1]| == 9;
      assert rows[i][9..][2] == HeaderValues(ExampleRecord)[2];
    }
  }
}
