/** Canonical source text, one character at a time: what is whitespace, what ends a line, how many bytes. */
module SourceText {

  type Utf8Size = n: nat | 1 <= n <= 4 witness 1

  /** Characters the cursor loops tell apart; every other one is a space or a letter of some size. */
  datatype Char =
    | Newline
    | Return
    | Blank
    | Dot
    | Semicolon
    | OtherSpace(code: nat, lineBreak: bool, size: Utf8Size)
    | Letter(letter: nat, bytes: Utf8Size)

  type Text = seq<Char>

  /** A half-open range of offsets. */
  datatype Range = Range(start: nat, end: nat)

  const MAX_CHARACTERS := 700
  const MAX_BYTES := 800

  function Bytes(c: Char): (n: nat)
    ensures 1 <= n <= 4
  {
    match c
    case OtherSpace(_, _, size) => size
    case Letter(_, bytes) => bytes
    case _ => 1
  }

  predicate IsSpace(c: Char) { c.Newline? || c.Return? || c.Blank? || c.OtherSpace? }

  predicate EndsLine(c: Char) { c.Newline? || c.Return? || (c.OtherSpace? && c.lineBreak) }

  function Size(text: Text): nat {
    if text == [] then 0 else Size(text[..|text| - 1]) + Bytes(text[|text| - 1])
  }

  lemma {:induction false} SizeAdds(a: Text, b: Text)
    ensures Size(a + b) == Size(a) + Size(b)
  {
    if b == [] {
      assert a + b == a;
    } else {
      assert (a + b)[..|a + b| - 1] == a + b[..|b| - 1];
      SizeAdds(a, b[..|b| - 1]);
    }
  }

  /** A range fits one span. */
  predicate Fits(text: Text, start: nat, end: nat)
    requires start <= end <= |text|
  {
    end - start <= MAX_CHARACTERS && Size(text[start..end]) <= MAX_BYTES
  }

  lemma FitsWithin(text: Text, start: nat, end: nat, from: nat, until: nat)
    requires start <= from <= until <= end <= |text| && Fits(text, start, end)
    ensures Fits(text, from, until)
  {
    assert text[start..end] == text[start..from] + text[from..until] + text[until..end];
    SizeAdds(text[start..from], text[from..until]);
    SizeAdds(text[start..from] + text[from..until], text[until..end]);
  }

  lemma SizeOneMore(text: Text, start: nat, end: nat)
    requires start <= end < |text|
    ensures Size(text[start..end + 1]) == Size(text[start..end]) + Bytes(text[end])
  {
    assert text[start..end + 1][..end - start] == text[start..end];
  }

  // ----- the size-bounded cursor

  /** The furthest end from `cursor` that keeps the range from `start` within both bounds. */
  function Grow(text: Text, start: nat, cursor: nat, end: nat): nat
    requires start <= cursor <= end <= |text|
    decreases end - cursor
  {
    if cursor < end && cursor - start < MAX_CHARACTERS
       && Size(text[start..cursor]) + Bytes(text[cursor]) <= MAX_BYTES
    then Grow(text, start, cursor + 1, end)
    else cursor
  }

  lemma {:induction false} GrowMeaning(text: Text, start: nat, cursor: nat, end: nat)
    requires start <= cursor <= end <= |text| && Fits(text, start, cursor)
    ensures var m := Grow(text, start, cursor, end);
            && cursor <= m <= end && Fits(text, start, m)
            && (m == end || m - start == MAX_CHARACTERS || Size(text[start..m]) + Bytes(text[m]) > MAX_BYTES)
    decreases end - cursor
  {
    if cursor < end && cursor - start < MAX_CHARACTERS
       && Size(text[start..cursor]) + Bytes(text[cursor]) <= MAX_BYTES
    {
      SizeOneMore(text, start, cursor);
      GrowMeaning(text, start, cursor + 1, end);
    }
  }

  /** The bound always admits one more character, and all of a range that fits. */
  lemma GrowProgress(text: Text, start: nat, end: nat)
    requires start < end <= |text|
    ensures start < Grow(text, start, start, end) <= end
    ensures Fits(text, start, Grow(text, start, start, end))
    ensures Fits(text, start, end) ==> Grow(text, start, start, end) == end
  {
    assert text[start..start] == [];
    GrowMeaning(text, start, start, end);
    var m := Grow(text, start, start, end);
    assert Grow(text, start, start, end) == Grow(text, start, start + 1, end) by {
      assert Size(text[start..start]) + Bytes(text[start]) <= MAX_BYTES;
    }
    SizeOneMore(text, start, start);
    GrowMeaning(text, start, start + 1, end);
    if Fits(text, start, end) && m < end {
      SizeOneMore(text, start, m);
      FitsWithin(text, start, end, start, m + 1);
    }
  }

  /** The cursor loop shared by `_maximum_end` and `_max_character_end`. */
  method MaximumEnd(text: Text, start: nat, end: nat) returns (cursor: nat)
    requires start <= end <= |text|
    ensures cursor == Grow(text, start, start, end)
  {
    cursor := start;
    var used := 0;
    assert text[start..start] == [];
    while cursor < end && cursor - start < MAX_CHARACTERS
      invariant start <= cursor <= end && used == Size(text[start..cursor])
      invariant Grow(text, start, cursor, end) == Grow(text, start, start, end)
      decreases end - cursor
    {
      var size := Bytes(text[cursor]);
      if used + size > MAX_BYTES { break; }
      SizeOneMore(text, start, cursor);
      used := used + size;
      cursor := cursor + 1;
    }
  }

  // ----- separators

  predicate At(text: Text, p: nat, separator: Text) {
    p + |separator| <= |text| && text[p..p + |separator|] == separator
  }

  /** `rfind` of the separator inside a range: the last position, or -1. */
  function LastAt(text: Text, from: nat, until: nat, separator: Text): int
    requires from <= until <= |text|
    decreases until
  {
    if until < from + |separator| then -1
    else if At(text, until - |separator|, separator) then until - |separator|
    else if until == from then -1
    else LastAt(text, from, until - 1, separator)
  }

  lemma {:induction false} LastAtMeaning(text: Text, from: nat, until: nat, separator: Text)
    requires from <= until <= |text|
    ensures var p := LastAt(text, from, until, separator);
            && (p >= 0 ==> from <= p && p + |separator| <= until && At(text, p, separator))
            && (p < 0 ==> p == -1)
    ensures forall q :: from <= q && q + |separator| <= until && At(text, q, separator) ==>
        q <= LastAt(text, from, until, separator)
    decreases until
  {
    var n := |separator|;
    if from < until && from + n <= until && !At(text, until - n, separator) {
      LastAtMeaning(text, from, until - 1, separator);
    }
  }

  // ----- whitespace and lines

  predicate AllSpace(text: Text, from: nat, until: nat)
    requires from <= until <= |text|
  {
    forall p :: from <= p < until ==> IsSpace(text[p])
  }

  /** The first character from `i` that is not a space. */
  function SkipSpace(text: Text, i: nat, limit: nat): (j: nat)
    requires i <= limit <= |text|
    ensures i <= j <= limit && AllSpace(text, i, j) && (j < limit ==> !IsSpace(text[j]))
    decreases limit - i
  {
    if i < limit && IsSpace(text[i]) then SkipSpace(text, i + 1, limit) else i
  }

  /** The end without trailing spaces. */
  function TrimEnd(text: Text, i: nat, end: nat): (j: nat)
    requires i <= end <= |text|
    ensures i <= j <= end && AllSpace(text, j, end) && (j > i ==> !IsSpace(text[j - 1]))
    decreases end
  {
    if end > i && IsSpace(text[end - 1]) then TrimEnd(text, i, end - 1) else end
  }

  /** The end of the line that starts at `i`, its break included; a return and a newline are one break. */
  function LineEnd(text: Text, i: nat, limit: nat): (j: nat)
    requires i < limit <= |text|
    ensures i < j <= limit
    ensures j < limit ==> EndsLine(text[j - 1])
    decreases limit - i
  {
    if text[i].Return? && i + 1 < limit && text[i + 1].Newline? then i + 2
    else if EndsLine(text[i]) || i + 1 == limit then i + 1
    else LineEnd(text, i + 1, limit)
  }
}
