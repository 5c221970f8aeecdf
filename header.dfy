/**
 * The race-header parser: one scraped header block (the children of a
 * `div.hlavicka_dostihu` element) becomes a record of eight fields, taken
 * from fixed positions with `split`, `strip` and two regular-expression
 * searches.
 */
module Header {
  import opened Wrappers
  import opened Strings
  import opened PySeq

  /** One child of a header block: a bare string, or an element whose `.text` is known. */
  datatype Segment = Text(s: string) | Element(text: string)

  /** `.text` of a child: the string itself, or the element's text content. */
  function TextOf(seg: Segment): string {
    match seg
    case Text(s) => s
    case Element(t) => t
  }

  /**
   * The parsed header, one field per key of the dictionary the parser builds.
   * The two numerals stay strings, as `re.search(...).group()` returns them;
   * the track condition is absent (`None`) on races that do not publish it.
   */
  datatype ParsedHeader = ParsedHeader(
    raceIntradayOrder: string,
    raceStart: string,
    raceId: string,
    raceName: string,
    raceType: string,
    horseAgeLimit: string,
    raceLength: string,
    trackQuality: Option<string>)

  /** Why a header block cannot be parsed: the exception the parser raises. */
  datatype HeaderError =
    | MissingSegment(index: nat)  // the block has no child at this position (IndexError)
    | NotText(index: nat)         // a string method is called on an element child
    | NoOrderDigits               // no digits before the first "start" in child 0
    | NoStart                     // child 0 has no "start"
    | NoDash                      // child 5 has no "-"
    | NoLengthDigits              // no digits in the race-length part of child 5
    | NoTrackQuality              // the track-condition marker without a "d.d" figure

  const StartToken: string := "start"
  const Dash: string := "-"
  const Comma: string := ","
  /** The phrase that announces the track condition ("Stav dráhy"). */
  const TrackMarker: string := "Stav dr\U{00E1}hy"

  /** The last child announces the track condition (Python's `marker in child`). */
  predicate HasTrackMarker(seg: Segment) {
    seg.Text? && Contains(seg.s, TrackMarker)
  }

  /**
   * The track condition read from the last child: absent without the
   * marker, otherwise the first digit-point-digit figure, which must exist.
   */
  function TrackQuality(last: Segment): (r: Result<Option<string>, HeaderError>)
    ensures r == Success(None) <==> !HasTrackMarker(last)
  {
    if HasTrackMarker(last) then
      match SearchDecimal(last.s)
      case None => Failure(NoTrackQuality)
      case Some(m) => Success(Some(m.group))
    else Success(None)
  }

  predicate HasDigit(s: string) { exists k :: 0 <= k < |s| && IsDigit(s[k]) }

  ghost predicate HasDecimal(s: string) { exists k :: DecimalAt(s, k) }

  /**
   * Child 0, "<order> start <time>": the order is the first run of digits
   * before the first "start" (looked for before "start" itself is required),
   * the start time the trimmed text between the first and the second "start".
   */
  function OrderAndStart(seg: Segment): (r: Result<(string, string), HeaderError>)
    ensures r.Success? ==> seg.Text? && |r.value.0| >= 1 && AllDigits(r.value.0)
  {
    if !seg.Text? then Failure(NotText(0))
    else
      var parts := Split(seg.s, StartToken);
      match SearchDigits(parts[0])
      case None => Failure(NoOrderDigits)
      case Some(order) =>
        if |parts| < 2 then Failure(NoStart)
        else Success((order.group, Strip(parts[1])))
  }

  /**
   * Child 5, "<type> - <length>, <age limit>": the race type is the trimmed
   * text before the first "-"; of the text between the first and the second
   * "-", the length is the first run of digits in its first comma-separated
   * part and the age limit its trimmed last comma-separated part. The result
   * holds the type, the age limit and the length, in this order.
   */
  function TypeAgeAndLength(seg: Segment): (r: Result<(string, string, string), HeaderError>)
    ensures r.Success? ==> seg.Text? && |r.value.2| >= 1 && AllDigits(r.value.2)
  {
    if !seg.Text? then Failure(NotText(5))
    else
      var dashParts := Split(seg.s, Dash);
      if |dashParts| < 2 then Failure(NoDash)
      else
        var commaParts := Split(dashParts[1], Comma);
        match SearchDigits(commaParts[0])
        case None => Failure(NoLengthDigits)
        case Some(length) =>
          Success((Strip(dashParts[0]), Strip(Last(commaParts)), length.group))
  }

  /**
   * `JockeyClub._preprocess_race_header`: the children are read in the
   * source's order (0, 2, 3, 5, last), so a block that is too short or holds
   * an element where a string is needed raises at the first such child.
   */
  function ParseHeader(head: seq<Segment>): (r: Result<ParsedHeader, HeaderError>)
    ensures r.Success? ==> |head| >= 6 && head[0].Text? && head[2].Text? && head[5].Text?
    ensures r.Success? ==>
      && |r.value.raceIntradayOrder| >= 1 && AllDigits(r.value.raceIntradayOrder)
      && |r.value.raceLength| >= 1 && AllDigits(r.value.raceLength)
    ensures r.Success? ==> (r.value.trackQuality.None? <==> !HasTrackMarker(head[|head| - 1]))
  {
    if |head| == 0 then Failure(MissingSegment(0))
    else
      match OrderAndStart(head[0])
      case Failure(e) => Failure(e)
      case Success(orderAndStart) =>
        if |head| < 3 then Failure(MissingSegment(2))
        else if !head[2].Text? then Failure(NotText(2))
        else if |head| < 4 then Failure(MissingSegment(3))
        else if |head| < 6 then Failure(MissingSegment(5))
        else
          match TypeAgeAndLength(head[5])
          case Failure(e) => Failure(e)
          case Success(typeAgeLength) =>
            match TrackQuality(head[|head| - 1])
            case Failure(e) => Failure(e)
            case Success(quality) =>
              Success(ParsedHeader(
                raceIntradayOrder := orderAndStart.0,
                raceStart := orderAndStart.1,
                raceId := Strip(head[2].s),
                raceName := TextOf(head[3]),
                raceType := typeAgeLength.0,
                horseAgeLimit := typeAgeLength.1,
                raceLength := typeAgeLength.2,
                trackQuality := quality))
  }

  // ---------------------------------------------------------------------------
  // What each part of the parser reads, stated through delimiter positions

  /**
   * Child 0: it parses exactly when it is a string holding a "start" with
   * digits before it; the digits are looked for before "start" is required;
   * the order is the first run of digits before the first "start" and the
   * start time the trimmed text between the first and the second "start".
   */
  lemma OrderAndStartSpec(seg: Segment)
    ensures var r := OrderAndStart(seg);
      && (r.Success? <==> seg.Text? && Contains(seg.s, StartToken) && HasDigit(UpTo(seg.s, StartToken)))
      && (seg.Element? ==> r == Failure(NotText(0)))
      && (seg.Text? && !HasDigit(UpTo(seg.s, StartToken)) ==> r == Failure(NoOrderDigits))
      && (seg.Text? && HasDigit(UpTo(seg.s, StartToken)) && !Contains(seg.s, StartToken) ==> r == Failure(NoStart))
      && (r.Success? ==>
           && r.value.0 == SearchDigits(UpTo(seg.s, StartToken)).value.group
           && r.value.1 == Strip(SecondPiece(seg.s, StartToken)))
  {
    if seg.Text? {
      SplitFirst(seg.s, StartToken);
      SplitCount(seg.s, StartToken);
      if Contains(seg.s, StartToken) { SplitSecond(seg.s, StartToken); }
    }
  }

  /**
   * Child 5: it parses exactly when it is a string holding a "-" followed by
   * digits in the race-length part; then the type is the trimmed text before
   * the first "-", and of the text between the first and the second "-" the
   * age limit is the trimmed last comma-separated part and the length the
   * first run of digits in the first comma-separated part.
   */
  lemma TypeAgeAndLengthSpec(seg: Segment)
    ensures var r := TypeAgeAndLength(seg);
      && (r.Success? <==> seg.Text? && Contains(seg.s, Dash) && HasDigit(UpTo(SecondPiece(seg.s, Dash), Comma)))
      && (seg.Element? ==> r == Failure(NotText(5)))
      && (seg.Text? && !Contains(seg.s, Dash) ==> r == Failure(NoDash))
      && (r.Failure? && seg.Text? && Contains(seg.s, Dash) ==> r.error == NoLengthDigits)
  {
    if seg.Text? {
      SplitCount(seg.s, Dash);
      if Contains(seg.s, Dash) {
        SplitSecond(seg.s, Dash);
        SplitFirst(SecondPiece(seg.s, Dash), Comma);
      }
    }
  }

  /** The fields of child 5, as TypeAgeAndLength computes them with `split`. */
  lemma TypeAgeAndLengthSplits(seg: Segment)
    requires TypeAgeAndLength(seg).Success?
    ensures seg.Text? && |Split(seg.s, Dash)| >= 2
    ensures TypeAgeAndLength(seg).value.0 == Strip(Split(seg.s, Dash)[0])
    ensures TypeAgeAndLength(seg).value.1 == Strip(Last(Split(Split(seg.s, Dash)[1], Comma)))
    ensures SearchDigits(Split(Split(seg.s, Dash)[1], Comma)[0]).Some?
    ensures TypeAgeAndLength(seg).value.2 == SearchDigits(Split(Split(seg.s, Dash)[1], Comma)[0]).value.group
  {
  }

  /**
   * The fields of child 5 read off the delimiter positions: the type is the
   * trimmed text before the first "-"; in the text between the first and the
   * second "-", the age limit is the trimmed last comma-separated part and the
   * length the first run of digits before the first comma.
   */
  lemma TypeAgeAndLengthFields(seg: Segment)
    requires TypeAgeAndLength(seg).Success?
    ensures seg.Text? && Contains(seg.s, Dash)
    ensures TypeAgeAndLength(seg).value.0 == Strip(UpTo(seg.s, Dash))
    ensures TypeAgeAndLength(seg).value.1 == Strip(Last(Split(SecondPiece(seg.s, Dash), Comma)))
    ensures SearchDigits(UpTo(SecondPiece(seg.s, Dash), Comma)).Some?
    ensures TypeAgeAndLength(seg).value.2 == SearchDigits(UpTo(SecondPiece(seg.s, Dash), Comma)).value.group
  {
    TypeAgeAndLengthSplits(seg);
    SplitCount(seg.s, Dash);
    PieceFacts(seg.s);
    SameSearch(Split(Split(seg.s, Dash)[1], Comma)[0], UpTo(SecondPiece(seg.s, Dash), Comma));
  }

  /** Searching equal texts finds the same match (used to keep the solver from unfolding both). */
  lemma SameSearch(a: string, b: string)
    requires a == b
    ensures SearchDigits(a) == SearchDigits(b)
  {
  }

  lemma PieceFacts(s: string)
    requires Contains(s, Dash)
    ensures Split(s, Dash)[0] == UpTo(s, Dash)
    ensures |Split(s, Dash)| >= 2 && Split(s, Dash)[1] == SecondPiece(s, Dash)
    ensures Split(Split(s, Dash)[1], Comma)[0] == UpTo(SecondPiece(s, Dash), Comma)
  {
    SplitFirst(s, Dash);
    SplitSecond(s, Dash);
    SplitFirst(SecondPiece(s, Dash), Comma);
  }

  /**
   * The last child: no marker gives no track condition; a marker without a
   * "d.d" figure raises; otherwise the condition is the first such figure.
   */
  lemma TrackQualitySpec(last: Segment)
    ensures var r := TrackQuality(last);
      && (r.Failure? <==> HasTrackMarker(last) && !HasDecimal(last.s))
      && (r.Failure? ==> r.error == NoTrackQuality)
      && (r.Success? && r.value.Some? ==>
           exists k :: DecimalAt(last.s, k) && r.value.value == last.s[k..k + 3]
             && forall j :: 0 <= j < k ==> !DecimalAt(last.s, j))
  {
  }

  // ---------------------------------------------------------------------------
  // Which blocks the parser accepts

  /**
   * The blocks the parser accepts: at least six children, with children 0, 2
   * and 5 plain strings; a "start" in child 0 with digits before it; a "-" in
   * child 5 with digits in the race-length part after it; and a figure
   * wherever the track-condition marker appears.
   */
  ghost predicate WellFormedBlock(head: seq<Segment>) {
    && |head| >= 6 && head[2].Text?
    && OrderAndStartParses(head[0])
    && TypeAgeAndLengthParses(head[5])
    && (HasTrackMarker(head[|head| - 1]) ==> HasDecimal(head[|head| - 1].s))
  }

  /** Child 0 is a string holding a "start" with digits before it. */
  predicate OrderAndStartParses(seg: Segment) {
    seg.Text? && Contains(seg.s, StartToken) && HasDigit(UpTo(seg.s, StartToken))
  }

  /** Child 5 is a string holding a "-" with digits in the race-length part after it. */
  predicate TypeAgeAndLengthParses(seg: Segment) {
    seg.Text? && Contains(seg.s, Dash) && HasDigit(UpTo(SecondPiece(seg.s, Dash), Comma))
  }

  /** Parsing succeeds exactly on well-formed blocks; every other block raises. */
  lemma ParseHeaderSucceedsIff(head: seq<Segment>)
    ensures ParseHeader(head).Success? <==> WellFormedBlock(head)
  {
    if |head| >= 1 { OrderAndStartSpec(head[0]); }
    if |head| >= 6 { TypeAgeAndLengthSpec(head[5]); }
    if |head| >= 1 { TrackQualitySpec(head[|head| - 1]); }
  }

  /**
   * A block that is not well formed raises at the first child the parser
   * cannot read, in its reading order: child 0, then 2, 3 and 5, then the
   * last one.
   */
  lemma ParseHeaderFirstError(head: seq<Segment>)
    ensures |head| == 0 ==> ParseHeader(head) == Failure(MissingSegment(0))
    ensures |head| >= 1 && head[0].Element? ==> ParseHeader(head) == Failure(NotText(0))
    ensures |head| >= 1 && head[0].Text? && !HasDigit(UpTo(head[0].s, StartToken)) ==>
      ParseHeader(head) == Failure(NoOrderDigits)
    ensures |head| >= 1 && head[0].Text? && HasDigit(UpTo(head[0].s, StartToken)) && !Contains(head[0].s, StartToken) ==>
      ParseHeader(head) == Failure(NoStart)
    ensures 1 <= |head| < 3 && OrderAndStartParses(head[0]) ==> ParseHeader(head) == Failure(MissingSegment(2))
    ensures |head| >= 3 && OrderAndStartParses(head[0]) && head[2].Element? ==> ParseHeader(head) == Failure(NotText(2))
    ensures |head| == 3 && OrderAndStartParses(head[0]) && head[2].Text? ==> ParseHeader(head) == Failure(MissingSegment(3))
    ensures 4 <= |head| < 6 && OrderAndStartParses(head[0]) && head[2].Text? ==> ParseHeader(head) == Failure(MissingSegment(5))
  {
    if |head| >= 1 { OrderAndStartSpec(head[0]); }
  }

  /**
   * A block with its first six children in order fails at child 5 when that
   * child does not parse, and otherwise at the last child when the marker
   * appears there without a "d.d" figure.
   */
  lemma ParseHeaderLateError(head: seq<Segment>)
    requires |head| >= 6 && OrderAndStartParses(head[0]) && head[2].Text?
    ensures head[5].Element? ==> ParseHeader(head) == Failure(NotText(5))
    ensures head[5].Text? && !Contains(head[5].s, Dash) ==> ParseHeader(head) == Failure(NoDash)
    ensures head[5].Text? && Contains(head[5].s, Dash) && !HasDigit(UpTo(SecondPiece(head[5].s, Dash), Comma)) ==>
      ParseHeader(head) == Failure(NoLengthDigits)
    ensures TypeAgeAndLengthParses(head[5]) && HasTrackMarker(head[|head| - 1]) && !HasDecimal(head[|head| - 1].s) ==>
      ParseHeader(head) == Failure(NoTrackQuality)
  {
    OrderAndStartSpec(head[0]);
    TypeAgeAndLengthSpec(head[5]);
    TrackQualitySpec(head[|head| - 1]);
  }

  /**
   * Every field of a parsed header, read off the delimiter positions: the
   * order is the first run of digits before the first "start" of child 0 and
   * the start time the trimmed text between its first and second "start";
   * the id is child 2 trimmed and the name the text of child 3; the type is
   * the trimmed text of child 5 before its first "-", and in the text between
   * its first and second "-" the age limit is the trimmed last
   * comma-separated part and the length the first run of digits before the
   * first comma; the track condition is the first "d.d" figure of the last
   * child when it carries the marker, and absent otherwise.
   */
  lemma ParseHeaderFields(head: seq<Segment>, h: ParsedHeader)
    requires ParseHeader(head) == Success(h)
    ensures WellFormedBlock(head)
    ensures h.raceIntradayOrder == SearchDigits(UpTo(head[0].s, StartToken)).value.group
    ensures h.raceStart == Strip(SecondPiece(head[0].s, StartToken))
    ensures h.raceId == Strip(head[2].s)
    ensures h.raceName == TextOf(head[3])
    ensures h.raceType == Strip(UpTo(head[5].s, Dash))
    ensures h.horseAgeLimit == Strip(Last(Split(SecondPiece(head[5].s, Dash), Comma)))
    ensures SearchDigits(UpTo(SecondPiece(head[5].s, Dash), Comma)).Some?
    ensures h.raceLength == SearchDigits(UpTo(SecondPiece(head[5].s, Dash), Comma)).value.group
    ensures h.trackQuality ==
      if HasTrackMarker(head[|head| - 1]) then Some(SearchDecimal(head[|head| - 1].s).value.group) else None
  {
    ParseHeaderParts(head, h);
    ParseHeaderSucceedsIff(head);
    OrderAndStartFields(head[0], h.raceIntradayOrder, h.raceStart);
    TypeAgeAndLengthFields(head[5]);
    TrackQualityField(head[|head| - 1], h.trackQuality);
  }

  /** A parsed header holds what each of the three part parsers returned. */
  lemma ParseHeaderParts(head: seq<Segment>, h: ParsedHeader)
    requires ParseHeader(head) == Success(h)
    ensures |head| >= 6 && head[2].Text?
    ensures OrderAndStart(head[0]) == Success((h.raceIntradayOrder, h.raceStart))
    ensures h.raceId == Strip(head[2].s) && h.raceName == TextOf(head[3])
    ensures TypeAgeAndLength(head[5]) == Success((h.raceType, h.horseAgeLimit, h.raceLength))
    ensures TrackQuality(head[|head| - 1]) == Success(h.trackQuality)
  {
  }

  lemma OrderAndStartFields(seg: Segment, order: string, start: string)
    requires OrderAndStart(seg) == Success((order, start))
    ensures seg.Text? && Contains(seg.s, StartToken)
    ensures SearchDigits(UpTo(seg.s, StartToken)).Some?
    ensures order == SearchDigits(UpTo(seg.s, StartToken)).value.group
    ensures start == Strip(SecondPiece(seg.s, StartToken))
  {
    OrderAndStartSpec(seg);
  }

  lemma TrackQualityField(last: Segment, q: Option<string>)
    requires TrackQuality(last) == Success(q)
    ensures HasTrackMarker(last) ==> SearchDecimal(last.s).Some? && q == Some(SearchDecimal(last.s).value.group)
    ensures !HasTrackMarker(last) ==> q.None?
  {
  }
}
