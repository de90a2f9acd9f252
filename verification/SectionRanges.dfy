/** src/qualor/runtime/sections.py: logical regions between headings, and their bounded pieces. */
module SectionRanges {
  import opened Wrappers
  import opened SourceText
  import opened SpanSegments

  // ----- `_logical_regions`

  datatype Region = Region(start: nat, end: nat, headed: bool)

  /** The line without the returns and newlines at its end. */
  function StripBreak(text: Text, start: nat, end: nat): Text
    requires start <= end <= |text|
    decreases end
  {
    if start < end && (text[end - 1].Newline? || text[end - 1].Return?) then StripBreak(text, start, end - 1)
    else text[start..end]
  }

  /** Offsets of the lines that read as headings. */
  function HeadingStarts(text: Text, cursor: nat, isHeading: Text -> bool): seq<nat>
    requires cursor <= |text|
    decreases |text| - cursor
  {
    if cursor == |text| then []
    else
      var end := LineEnd(text, cursor, |text|);
      (if isHeading(StripBreak(text, cursor, end)) then [cursor] else []) + HeadingStarts(text, end, isHeading)
  }

  function HeadedRegions(text: Text, starts: seq<nat>): seq<Region> {
    if starts == [] then []
    else [Region(starts[0], if |starts| > 1 then starts[1] else |text|, true)] + HeadedRegions(text, starts[1..])
  }

  function Regions(text: Text, isHeading: Text -> bool): seq<Region> {
    var starts := HeadingStarts(text, 0, isHeading);
    if starts == [] then [Region(0, |text|, false)]
    else (if starts[0] > 0 then [Region(0, starts[0], false)] else []) + HeadedRegions(text, starts)
  }

  /** The start of a line. */
  predicate LineStart(text: Text, p: nat) { p == 0 || (p <= |text| && EndsLine(text[p - 1])) }

  ghost predicate Ascending(text: Text, starts: seq<nat>, from: nat) {
    && (forall k :: 0 <= k < |starts| ==> from <= starts[k] < |text| && LineStart(text, starts[k]))
    && (forall j, k :: 0 <= j < k < |starts| ==> starts[j] < starts[k])
  }

  lemma {:induction false} HeadingStartsAscend(text: Text, cursor: nat, isHeading: Text -> bool)
    requires cursor <= |text| && (cursor < |text| ==> LineStart(text, cursor))
    ensures Ascending(text, HeadingStarts(text, cursor, isHeading), cursor)
    decreases |text| - cursor
  {
    if cursor < |text| {
      var end := LineEnd(text, cursor, |text|);
      HeadingStartsAscend(text, end, isHeading);
    }
  }

  /** Regions follow each other without gap or overlap, and every inner edge is the start of a line. */
  ghost predicate RegionsTile(text: Text, regions: seq<Region>, from: nat)
    decreases |regions|
  {
    if regions == [] then from == |text|
    else
      var r := regions[0];
      && r.start == from && r.start <= r.end <= |text| && LineStart(text, r.start)
      && (r.start == r.end ==> |text| == 0)
      && RegionsTile(text, regions[1..], r.end)
  }

  lemma {:induction false} HeadedRegionsTile(text: Text, starts: seq<nat>, from: nat)
    requires Ascending(text, starts, from) && (starts != [] ==> starts[0] == from) && (starts == [] ==> from == |text|)
    ensures RegionsTile(text, HeadedRegions(text, starts), from)
    decreases |starts|
  {
    if starts != [] {
      var next := if |starts| > 1 then starts[1] else |text|;
      assert Ascending(text, starts[1..], next);
      HeadedRegionsTile(text, starts[1..], next);
      assert HeadedRegions(text, starts)[1..] == HeadedRegions(text, starts[1..]);
    }
  }

  lemma RegionsMeaning(text: Text, isHeading: Text -> bool)
    ensures RegionsTile(text, Regions(text, isHeading), 0)
  {
    HeadingStartsAscend(text, 0, isHeading);
    var starts := HeadingStarts(text, 0, isHeading);
    if starts == [] {
      assert Regions(text, isHeading)[1..] == [];
    } else {
      HeadedRegionsTile(text, starts, starts[0]);
      if starts[0] > 0 {
        assert Regions(text, isHeading)[1..] == HeadedRegions(text, starts);
      } else {
        assert Regions(text, isHeading) == HeadedRegions(text, starts);
      }
    }
  }

  method FindHeadings(text: Text, isHeading: Text -> bool) returns (starts: seq<nat>)
    ensures starts == HeadingStarts(text, 0, isHeading)
  {
    starts := [];
    var cursor := 0;
    while cursor < |text|
      invariant cursor <= |text| && starts + HeadingStarts(text, cursor, isHeading) == HeadingStarts(text, 0, isHeading)
      decreases |text| - cursor
    {
      var end := LineEnd(text, cursor, |text|);
      var found := if isHeading(StripBreak(text, cursor, end)) then [cursor] else [];
      AppendAssociates(starts, found, HeadingStarts(text, end, isHeading));
      starts := starts + found;
      cursor := end;
    }
  }

  method RegionsFrom(text: Text, starts: seq<nat>) returns (regions: seq<Region>)
    ensures regions == HeadedRegions(text, starts)
  {
    regions := [];
    for k := 0 to |starts|
      invariant regions + HeadedRegions(text, starts[k..]) == HeadedRegions(text, starts)
    {
      var region := Region(starts[k], if k + 1 < |starts| then starts[k + 1] else |text|, true);
      assert starts[k..][1..] == starts[k + 1..];
      AppendAssociates(regions, [region], HeadedRegions(text, starts[k + 1..]));
      regions := regions + [region];
    }
  }

  method LogicalRegions(text: Text, isHeading: Text -> bool) returns (regions: seq<Region>)
    ensures regions == Regions(text, isHeading)
  {
    var starts := FindHeadings(text, isHeading);
    if starts == [] {
      return [Region(0, |text|, false)];
    }
    var headed := RegionsFrom(text, starts);
    regions := (if starts[0] > 0 then [Region(0, starts[0], false)] else []) + headed;
  }

  // ----- `_bounded_ranges`

  /** A piece of a region; `safe` says that its end does not sever a clause. */
  datatype Piece = Piece(start: nat, end: nat, safe: bool)

  /** The end of a piece that keeps its last separator whole. */
  function Candidate(text: Text, cursor: nat, maximum: nat, separator: Text): int
    requires cursor <= maximum <= |text|
  {
    CutAfter(text, cursor, maximum, separator, |separator|)
  }

  function CutPiece(text: Text, cursor: nat, end: nat): Piece
    requires cursor < end <= |text|
  {
    GrowProgress(text, cursor, end);
    var maximum := Grow(text, cursor, cursor, end);
    var least := Minimum(cursor, maximum);
    if maximum == end then Piece(cursor, end, true)
    else if Candidate(text, cursor, maximum, PARAGRAPH) >= least then
        Piece(cursor, Candidate(text, cursor, maximum, PARAGRAPH), true)
    else if Candidate(text, cursor, maximum, LINE) >= least then
        Piece(cursor, Candidate(text, cursor, maximum, LINE), true)
    else if Candidate(text, cursor, maximum, SENTENCE) >= least then
        Piece(cursor, Candidate(text, cursor, maximum, SENTENCE), true)
    else if Candidate(text, cursor, maximum, CLAUSE) >= least then
        Piece(cursor, Candidate(text, cursor, maximum, CLAUSE), true)
    else if Candidate(text, cursor, maximum, WORD) >= least then
        Piece(cursor, Candidate(text, cursor, maximum, WORD), false)
    else Piece(cursor, maximum, false)
  }

  lemma CutPieceFits(text: Text, cursor: nat, end: nat)
    requires cursor < end <= |text|
    ensures var p := CutPiece(text, cursor, end);
            p.start == cursor < p.end <= end && Fits(text, p.start, p.end)
  {
    GrowProgress(text, cursor, end);
    var maximum := Grow(text, cursor, cursor, end);
    CutWithin(text, cursor, maximum, PARAGRAPH, |PARAGRAPH|);
    CutWithin(text, cursor, maximum, LINE, |LINE|);
    CutWithin(text, cursor, maximum, SENTENCE, |SENTENCE|);
    CutWithin(text, cursor, maximum, CLAUSE, |CLAUSE|);
    CutWithin(text, cursor, maximum, WORD, |WORD|);
    var p := CutPiece(text, cursor, end);
    FitsWithin(text, cursor, maximum, cursor, p.end);
  }

  /** The piece ends right after a paragraph, line, sentence or clause separator of its own. */
  predicate EndsWith(text: Text, start: nat, end: nat, separator: Text) {
    start + |separator| <= end <= |text| && At(text, end - |separator|, separator)
  }

  predicate EndsClause(text: Text, start: nat, end: nat) {
    || EndsWith(text, start, end, PARAGRAPH) || EndsWith(text, start, end, LINE)
    || EndsWith(text, start, end, SENTENCE) || EndsWith(text, start, end, CLAUSE)
  }

  lemma CutEnds(text: Text, start: nat, maximum: nat, separator: Text)
    requires start <= maximum <= |text|
    ensures CutAfter(text, start, maximum, separator, |separator|) >= 0 ==>
              EndsWith(text, start, CutAfter(text, start, maximum, separator, |separator|), separator)
    ensures forall e: nat :: e <= maximum && EndsWith(text, start, e, separator) ==>
              e <= CutAfter(text, start, maximum, separator, |separator|)
  {
    LastAtMeaning(text, start, maximum, separator);
    forall e: nat | e <= maximum && EndsWith(text, start, e, separator)
      ensures e <= CutAfter(text, start, maximum, separator, |separator|)
    {
      assert e - |separator| <= LastAt(text, start, maximum, separator);
    }
  }

  /** A cut is flagged safe exactly when it is the region's end or follows a clause separator. */
  lemma CutSafe(text: Text, cursor: nat, end: nat)
    requires cursor < end <= |text|
    ensures var p := CutPiece(text, cursor, end);
            p.safe <==> p.end == end || EndsClause(text, p.start, p.end)
  {
    GrowProgress(text, cursor, end);
    var maximum := Grow(text, cursor, cursor, end);
    CutEnds(text, cursor, maximum, PARAGRAPH);
    CutEnds(text, cursor, maximum, LINE);
    CutEnds(text, cursor, maximum, SENTENCE);
    CutEnds(text, cursor, maximum, CLAUSE);
    CutWithin(text, cursor, maximum, WORD, |WORD|);
  }

  function Pieces(text: Text, cursor: nat, end: nat): seq<Piece>
    requires cursor <= end <= |text|
    decreases end - cursor
  {
    if cursor == end then []
    else
      var p := CutPiece(text, cursor, end);
      CutPieceFits(text, cursor, end);
      [p] + Pieces(text, p.end, end)
  }

  /** Pieces follow each other without gap or overlap, fit both bounds and carry the right flag. */
  ghost predicate PiecesTile(text: Text, pieces: seq<Piece>, from: nat, end: nat)
    requires from <= end <= |text|
    decreases |pieces|
  {
    if pieces == [] then from == end
    else
      var p := pieces[0];
      && p.start == from && from < p.end <= end && Fits(text, p.start, p.end)
      && (p.safe <==> p.end == end || EndsClause(text, p.start, p.end))
      && PiecesTile(text, pieces[1..], p.end, end)
  }

  lemma {:induction false} PiecesMeaning(text: Text, cursor: nat, end: nat)
    requires cursor <= end <= |text|
    ensures PiecesTile(text, Pieces(text, cursor, end), cursor, end)
    decreases end - cursor
  {
    if cursor < end {
      var p := CutPiece(text, cursor, end);
      CutPieceFits(text, cursor, end);
      CutSafe(text, cursor, end);
      PiecesMeaning(text, p.end, end);
      assert ([p] + Pieces(text, p.end, end))[1..] == Pieces(text, p.end, end);
    }
  }

  /** False where the source would raise that a character exceeds the byte limit, which no character does. */
  method BoundedRanges(text: Text, start: nat, end: nat) returns (ok: bool, pieces: seq<Piece>)
    requires start <= end <= |text|
    ensures ok && pieces == Pieces(text, start, end)
  {
    pieces := [];
    var cursor := start;
    while cursor < end
      invariant start <= cursor <= end && pieces + Pieces(text, cursor, end) == Pieces(text, start, end)
      decreases end - cursor
    {
      CutPieceFits(text, cursor, end);
      GrowProgress(text, cursor, end);
      var maximum := MaximumEnd(text, cursor, end);
      if maximum <= cursor {
        return false, pieces;
      }
      var piece := ChooseCut(text, cursor, end, maximum);
      AppendAssociates(pieces, [piece], Pieces(text, piece.end, end));
      pieces := pieces + [piece];
      cursor := piece.end;
    }
    ok := true;
  }

  /** The loop over the separators, strongest first. */
  method ChooseCut(text: Text, cursor: nat, end: nat, maximum: nat) returns (piece: Piece)
    requires cursor < end <= |text| && maximum == Grow(text, cursor, cursor, end) && cursor < maximum <= end
    ensures piece == CutPiece(text, cursor, end)
  {
    if maximum == end {
      return Piece(cursor, end, true);
    }
    var least := Minimum(cursor, maximum);
    var separators := [PARAGRAPH, LINE, SENTENCE, CLAUSE, WORD];
    for k := 0 to 5
      invariant k > 0 ==> Candidate(text, cursor, maximum, PARAGRAPH) < least
      invariant k > 1 ==> Candidate(text, cursor, maximum, LINE) < least
      invariant k > 2 ==> Candidate(text, cursor, maximum, SENTENCE) < least
      invariant k > 3 ==> Candidate(text, cursor, maximum, CLAUSE) < least
      invariant k > 4 ==> Candidate(text, cursor, maximum, WORD) < least
    {
      var candidate := Candidate(text, cursor, maximum, separators[k]);
      if candidate >= least {
        return Piece(cursor, candidate, k < 4);
      }
    }
    return Piece(cursor, maximum, false);
  }
}
