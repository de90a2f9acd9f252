/** src/qualor/runtime/spans.py: cutting a range of text into exact, bounded span capabilities. */
module SpanSegments {
  import opened Wrappers
  import opened SourceText

  const MAX_SECTION_SPANS := 12

  const PARAGRAPH: Text := [Newline, Newline]
  const LINE: Text := [Newline]
  const SENTENCE: Text := [Dot, Blank]
  const CLAUSE: Text := [Semicolon, Blank]
  const WORD: Text := [Blank]

  // ----- `_semantic_end`

  /** A separator's cut: after it, or after its first character for a sentence or clause end. */
  function CutAfter(text: Text, start: nat, maximum: nat, separator: Text, kept: nat): int
    requires start <= maximum <= |text|
  {
    var p := LastAt(text, start, maximum, separator);
    if p >= 0 then p + kept else -1
  }

  function Minimum(start: nat, maximum: nat): nat
    requires start <= maximum
  {
    start + if (maximum - start) / 2 >= 1 then (maximum - start) / 2 else 1
  }

  /** The first of the separators' cuts that is late enough, or the hard maximum. */
  function SemanticEnd(text: Text, start: nat, maximum: nat, limit: nat): int
    requires start <= maximum <= limit <= |text|
  {
    var least := Minimum(start, maximum);
    if maximum == limit then maximum
    else if CutAfter(text, start, maximum, PARAGRAPH, 2) >= least then CutAfter(text, start, maximum, PARAGRAPH, 2)
    else if CutAfter(text, start, maximum, LINE, 1) >= least then CutAfter(text, start, maximum, LINE, 1)
    else if CutAfter(text, start, maximum, SENTENCE, 1) >= least then CutAfter(text, start, maximum, SENTENCE, 1)
    else if CutAfter(text, start, maximum, CLAUSE, 1) >= least then CutAfter(text, start, maximum, CLAUSE, 1)
    else if CutAfter(text, start, maximum, WORD, 1) >= least then CutAfter(text, start, maximum, WORD, 1)
    else maximum
  }

  lemma CutWithin(text: Text, start: nat, maximum: nat, separator: Text, kept: nat)
    requires start <= maximum <= |text| && kept <= |separator|
    ensures CutAfter(text, start, maximum, separator, kept) <= maximum
  {
    LastAtMeaning(text, start, maximum, separator);
  }

  lemma SemanticEndWithin(text: Text, start: nat, maximum: nat, limit: nat)
    requires start < maximum <= limit <= |text|
    ensures start < SemanticEnd(text, start, maximum, limit) <= maximum
  {
    CutWithin(text, start, maximum, PARAGRAPH, 2);
    CutWithin(text, start, maximum, LINE, 1);
    CutWithin(text, start, maximum, SENTENCE, 1);
    CutWithin(text, start, maximum, CLAUSE, 1);
    CutWithin(text, start, maximum, WORD, 1);
  }

  // ----- `_segments`

  /** The end of the segment that starts at a character that is no space. */
  function SegmentEnd(text: Text, start: nat, limit: nat): (end: nat)
    requires start < limit <= |text| && !IsSpace(text[start])
    ensures start < end <= limit
    ensures Fits(text, start, end)
    ensures !IsSpace(text[end - 1])
  {
    GrowProgress(text, start, limit);
    var maximum := Grow(text, start, start, limit);
    SemanticEndWithin(text, start, maximum, limit);
    var trimmed := TrimEnd(text, start, SemanticEnd(text, start, maximum, limit));
    assert IsSpace(text[start]) || trimmed > start;
    FitsWithin(text, start, maximum, start, trimmed);
    if trimmed <= start then maximum else trimmed
  }

  function Segments(text: Text, cursor: nat, limit: nat): seq<Range>
    requires cursor <= limit <= |text|
    decreases limit - cursor
  {
    var start := SkipSpace(text, cursor, limit);
    if start >= limit then []
    else
      var end := SegmentEnd(text, start, limit);
      [Range(start, end)] + Segments(text, end, limit)
  }

  // ----- covering: every character that is no space lies in exactly one range

  /** The ranges run through the text in order with nothing but spaces before, between and after them. */
  predicate Covers(text: Text, ranges: seq<Range>, from: nat, limit: nat)
    requires from <= limit <= |text|
    decreases |ranges|
  {
    if ranges == [] then AllSpace(text, from, limit)
    else
      var r := ranges[0];
      && from <= r.start < r.end <= limit
      && AllSpace(text, from, r.start)
      && Covers(text, ranges[1..], r.end, limit)
  }

  ghost predicate Bounded(text: Text, ranges: seq<Range>) {
    forall k :: 0 <= k < |ranges| ==>
      && ranges[k].start < ranges[k].end <= |text| && Fits(text, ranges[k].start, ranges[k].end)
      && !IsSpace(text[ranges[k].start]) && !IsSpace(text[ranges[k].end - 1])
  }

  lemma OneMoreRange(text: Text, cursor: nat, start: nat, end: nat, limit: nat, rest: seq<Range>)
    requires cursor <= start < end <= limit <= |text| && AllSpace(text, cursor, start)
    requires Fits(text, start, end) && !IsSpace(text[start]) && !IsSpace(text[end - 1])
    requires Covers(text, rest, end, limit) && Bounded(text, rest)
    ensures Covers(text, [Range(start, end)] + rest, cursor, limit)
    ensures Bounded(text, [Range(start, end)] + rest)
  {
    assert ([Range(start, end)] + rest)[1..] == rest;
  }

  /** Every run of segments is in order, within both bounds, trimmed, and leaves only spaces out. */
  lemma {:induction false} SegmentsMeaning(text: Text, cursor: nat, limit: nat)
    requires cursor <= limit <= |text|
    ensures Covers(text, Segments(text, cursor, limit), cursor, limit)
    ensures Bounded(text, Segments(text, cursor, limit))
    decreases limit - cursor
  {
    var start := SkipSpace(text, cursor, limit);
    if start < limit {
      var end := SegmentEnd(text, start, limit);
      SegmentsMeaning(text, end, limit);
      OneMoreRange(text, cursor, start, end, limit, Segments(text, end, limit));
    }
  }

  /** A range that fits is a single segment, or none when it is blank. */
  lemma FittingIsOne(text: Text, cursor: nat, limit: nat)
    requires cursor <= limit <= |text| && Fits(text, cursor, limit)
    ensures |Segments(text, cursor, limit)| <= 1
  {
    var start := SkipSpace(text, cursor, limit);
    if start < limit {
      FitsWithin(text, cursor, limit, start, limit);
      GrowProgress(text, start, limit);
      var end := SegmentEnd(text, start, limit);
      assert end == TrimEnd(text, start, limit);
      BlankTail(text, end, limit);
    }
  }

  lemma BlankTail(text: Text, cursor: nat, limit: nat)
    requires cursor <= limit <= |text| && AllSpace(text, cursor, limit)
    ensures Segments(text, cursor, limit) == []
  {
    var start := SkipSpace(text, cursor, limit);
    assert start == limit;
  }

  /** One segment: the bound, the preferred cut, and the trailing spaces dropped. */
  method CutSegment(text: Text, start: nat, limit: nat) returns (end: nat)
    requires start < limit <= |text| && !IsSpace(text[start])
    ensures end == SegmentEnd(text, start, limit)
  {
    GrowProgress(text, start, limit);
    var maximum := MaximumEnd(text, start, limit);
    SemanticEndWithin(text, start, maximum, limit);
    end := SemanticEnd(text, start, maximum, limit);
    ghost var untrimmed := end;
    while end > start && IsSpace(text[end - 1])
      invariant start <= end <= untrimmed && TrimEnd(text, start, end) == TrimEnd(text, start, untrimmed)
      decreases end
    {
      end := end - 1;
    }
    if end <= start {
      end := maximum;
    }
  }

  method SkipSpaces(text: Text, from: nat, limit: nat) returns (c: nat)
    requires from <= limit <= |text|
    ensures c == SkipSpace(text, from, limit)
  {
    c := from;
    while c < limit && IsSpace(text[c])
      invariant from <= c <= limit && SkipSpace(text, c, limit) == SkipSpace(text, from, limit)
      decreases limit - c
    {
      c := c + 1;
    }
  }

  method SegmentText(text: Text, cursor: nat, limit: nat) returns (result: seq<Range>)
    requires cursor <= limit <= |text|
    ensures result == Segments(text, cursor, limit)
  {
    result := [];
    var c := cursor;
    while c < limit
      invariant c <= limit
      invariant result + Segments(text, c, limit) == Segments(text, cursor, limit)
      decreases limit - c
    {
      ghost var before := c;
      c := SkipSpaces(text, c, limit);
      if c >= limit {
        return;
      }
      var end := CutSegment(text, c, limit);
      SegmentsStep(text, before, c, end, limit);
      AppendAssociates(result, [Range(c, end)], Segments(text, end, limit));
      result := result + [Range(c, end)];
      c := end;
    }
  }

  lemma SegmentsStep(text: Text, cursor: nat, start: nat, end: nat, limit: nat)
    requires cursor <= start < limit <= |text| && !IsSpace(text[start])
    requires SkipSpace(text, cursor, limit) == start && SegmentEnd(text, start, limit) == end
    ensures Segments(text, cursor, limit) == [Range(start, end)] + Segments(text, end, limit)
  {
  }

  // ----- `_section_segments`

  /** One line without the spaces around it: nothing, itself, or segments of it when it exceeds a bound. */
  function LineSegments(text: Text, start: nat, end: nat): seq<Range>
    requires start <= end <= |text|
  {
    var begin := SkipSpace(text, start, end);
    var stop := TrimEnd(text, begin, end);
    if begin == stop then []
    else if !Fits(text, begin, stop) then Segments(text, begin, stop)
    else [Range(begin, stop)]
  }

  function Layout(text: Text, cursor: nat, limit: nat): seq<Range>
    requires cursor <= limit <= |text|
    decreases limit - cursor
  {
    if cursor == limit then []
    else
      var end := LineEnd(text, cursor, limit);
      LineSegments(text, cursor, end) + Layout(text, end, limit)
  }

  function SectionSegments(text: Text, start: nat, end: nat): seq<Range>
    requires start <= end <= |text|
  {
    var layout := Layout(text, start, end);
    if |layout| > MAX_SECTION_SPANS then Segments(text, start, end) else layout
  }

  /** The loop over the section's lines, with the fallback when they are too many. */
  method SegmentSection(text: Text, start: nat, end: nat) returns (result: seq<Range>)
    requires start <= end <= |text|
    ensures result == SectionSegments(text, start, end)
  {
    result := [];
    var cursor := start;
    while cursor < end
      invariant start <= cursor <= end
      invariant result + Layout(text, cursor, end) == Layout(text, start, end)
      decreases end - cursor
    {
      var line := LineEnd(text, cursor, end);
      var begin := SkipSpace(text, cursor, line);
      var stop := TrimEnd(text, begin, line);
      var found := [];
      if begin != stop {
        if stop - begin > MAX_CHARACTERS || Size(text[begin..stop]) > MAX_BYTES {
          found := SegmentText(text, begin, stop);
        } else {
          found := [Range(begin, stop)];
        }
      }
      assert found == LineSegments(text, cursor, line);
      AppendAssociates(result, found, Layout(text, line, end));
      result := result + found;
      cursor := line;
    }
    if |result| > MAX_SECTION_SPANS {
      result := SegmentText(text, start, end);
    }
  }

  lemma {:induction false} CoversAppend(text: Text, a: seq<Range>, b: seq<Range>, from: nat, mid: nat, limit: nat)
    requires from <= mid <= limit <= |text| && Covers(text, a, from, mid) && Covers(text, b, mid, limit)
    ensures Covers(text, a + b, from, limit)
    decreases |a|
  {
    if a == [] {
      assert a + b == b;
      BlankPrefix(text, b, from, mid, limit);
    } else {
      assert (a + b)[1..] == a[1..] + b;
      CoversAppend(text, a[1..], b, a[0].end, mid, limit);
    }
  }

  lemma BlankPrefix(text: Text, b: seq<Range>, from: nat, mid: nat, limit: nat)
    requires from <= mid <= limit <= |text| && AllSpace(text, from, mid) && Covers(text, b, mid, limit)
    ensures Covers(text, b, from, limit)
  {
  }

  lemma {:induction false} CoversTrailing(text: Text, a: seq<Range>, from: nat, mid: nat, limit: nat)
    requires from <= mid <= limit <= |text| && Covers(text, a, from, mid) && AllSpace(text, mid, limit)
    ensures Covers(text, a, from, limit)
  {
    CoversAppend(text, a, [], from, mid, limit);
    assert a + [] == a;
  }

  lemma LineCovers(text: Text, start: nat, end: nat)
    requires start <= end <= |text|
    ensures Covers(text, LineSegments(text, start, end), start, end) && Bounded(text, LineSegments(text, start, end))
  {
    var begin := SkipSpace(text, start, end);
    var stop := TrimEnd(text, begin, end);
    if begin == stop {
      assert AllSpace(text, start, end);
    } else {
      assert !IsSpace(text[begin]) by {
        if begin == end { assert false; }
      }
      if Fits(text, begin, stop) {
        assert [Range(begin, stop)][1..] == [];
      } else {
        SegmentsMeaning(text, begin, stop);
        CoversTrailing(text, Segments(text, begin, stop), begin, stop, end);
        BlankPrefix(text, Segments(text, begin, stop), start, begin, end);
      }
    }
  }

  lemma {:induction false} LayoutCovers(text: Text, cursor: nat, limit: nat)
    requires cursor <= limit <= |text|
    ensures Covers(text, Layout(text, cursor, limit), cursor, limit) && Bounded(text, Layout(text, cursor, limit))
    decreases limit - cursor
  {
    if cursor < limit {
      var end := LineEnd(text, cursor, limit);
      LineCovers(text, cursor, end);
      LayoutCovers(text, end, limit);
      OneMoreLine(text, LineSegments(text, cursor, end), Layout(text, end, limit), Layout(text, cursor, limit),
                  cursor, end, limit);
    }
  }

  lemma OneMoreLine(text: Text, line: seq<Range>, rest: seq<Range>, all: seq<Range>, from: nat, mid: nat, limit: nat)
    requires from <= mid <= limit <= |text| && all == line + rest
    requires Covers(text, line, from, mid) && Bounded(text, line)
    requires Covers(text, rest, mid, limit) && Bounded(text, rest)
    ensures Covers(text, all, from, limit) && Bounded(text, all)
  {
    CoversAppend(text, line, rest, from, mid, limit);
    BoundedAppend(text, line, rest);
  }

  lemma BoundedAppend(text: Text, a: seq<Range>, b: seq<Range>)
    requires Bounded(text, a) && Bounded(text, b)
    ensures Bounded(text, a + b)
  {
  }

  /** Whatever the layout, a section's spans are in order, within both bounds, trimmed, and cover it. */
  lemma SectionSegmentsMeaning(text: Text, start: nat, end: nat)
    requires start <= end <= |text|
    ensures Covers(text, SectionSegments(text, start, end), start, end)
    ensures Bounded(text, SectionSegments(text, start, end))
  {
    LayoutCovers(text, start, end);
    SegmentsMeaning(text, start, end);
  }

  /** A section that fits both bounds never carries more than twelve spans. */
  lemma SectionSpanLimit(text: Text, start: nat, end: nat)
    requires start <= end <= |text| && Fits(text, start, end)
    ensures |SectionSegments(text, start, end)| <= MAX_SECTION_SPANS
  {
    FittingIsOne(text, start, end);
  }

  // ----- reading a covering

  ghost predicate Inside(r: Range, p: nat) { r.start <= p < r.end }

  /** Later ranges start where earlier ones have ended. */
  lemma {:induction false} CoversOrdered(text: Text, ranges: seq<Range>, from: nat, limit: nat, i: nat, j: nat)
    requires from <= limit <= |text| && Covers(text, ranges, from, limit) && i < j < |ranges|
    ensures from <= ranges[i].start < ranges[i].end <= ranges[j].start < ranges[j].end <= limit
    decreases |ranges|
  {
    if i > 0 {
      CoversOrdered(text, ranges[1..], ranges[0].end, limit, i - 1, j - 1);
    } else {
      CoversAfter(text, ranges[1..], ranges[0].end, limit, j - 1);
    }
  }

  lemma {:induction false} CoversAfter(text: Text, ranges: seq<Range>, from: nat, limit: nat, j: nat)
    requires from <= limit <= |text| && Covers(text, ranges, from, limit) && j < |ranges|
    ensures from <= ranges[j].start < ranges[j].end <= limit
    decreases |ranges|
  {
    if j > 0 {
      CoversAfter(text, ranges[1..], ranges[0].end, limit, j - 1);
    }
  }

  /** Every character that is no space lies in one range, and in no other. */
  lemma {:induction false} CoversExactlyOnce(
    text: Text, ranges: seq<Range>, from: nat, limit: nat, p: nat) returns (k: nat)
    requires from <= p < limit <= |text| && Covers(text, ranges, from, limit) && !IsSpace(text[p])
    ensures k < |ranges| && Inside(ranges[k], p)
    ensures forall j :: 0 <= j < |ranges| && Inside(ranges[j], p) ==> j == k
    decreases |ranges|
  {
    assert ranges != [];
    if p < ranges[0].end {
      k := 0;
      assert p >= ranges[0].start;
      forall j | 0 <= j < |ranges| && Inside(ranges[j], p) ensures j == 0 {
        if j > 0 { CoversOrdered(text, ranges, from, limit, 0, j); }
      }
    } else {
      var n := CoversExactlyOnce(text, ranges[1..], ranges[0].end, limit, p);
      k := n + 1;
      forall j | 0 <= j < |ranges| && Inside(ranges[j], p) ensures j == k {
        if j > 0 { assert ranges[j] == ranges[1..][j - 1]; }
      }
    }
  }
}
