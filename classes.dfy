/** Sampling one code point from a character class (reggen.go:31-72). A class is
    bounded unless one of its ranges reaches the last code point; a bounded class
    maps a drawn index through the cumulative range widths, an unbounded one draws
    from the printable characters that the class contains. */
module Classes {
  import opened Syntax
  import opened Random
  import opened Alphabet

  /** The number of code points in one range. */
  function Width(r: RuneRange): int {
    r.hi - r.lo + 1
  }

  /** Every range is non-empty, as the parser always produces them. */
  predicate WellFormed(ranges: seq<RuneRange>) {
    forall k :: 0 <= k < |ranges| ==> ranges[k].lo <= ranges[k].hi
  }

  /** The total width of the ranges before range `k`. */
  function Offset(ranges: seq<RuneRange>, k: nat): (o: int)
    requires k <= |ranges|
    ensures WellFormed(ranges) ==> o >= k
  {
    if k == 0 then 0 else Offset(ranges, k - 1) + Width(ranges[k - 1])
  }

  /** The total width of all ranges. */
  function Total(ranges: seq<RuneRange>): (t: int)
    ensures WellFormed(ranges) ==> t >= |ranges|
  {
    Offset(ranges, |ranges|)
  }

  /** Some range reaches the last code point: the class stands for a negated set. */
  predicate Unbounded(ranges: seq<RuneRange>) {
    exists k :: 0 <= k < |ranges| && ranges[k].hi == RuneRangeEnd
  }

  /** What the counting loop leaves in `sum`: -1 for an unbounded class, the total
      width otherwise. */
  function ClassSum(ranges: seq<RuneRange>): (sum: int)
    ensures WellFormed(ranges) ==> (sum == -1 <==> Unbounded(ranges))
    ensures WellFormed(ranges) && sum != -1 ==> sum >= |ranges|
  {
    if Unbounded(ranges) then -1 else Total(ranges)
  }

  predicate InClass(c: Rune, ranges: seq<RuneRange>) {
    exists k :: 0 <= k < |ranges| && ranges[k].lo <= c <= ranges[k].hi
  }

  /** The characters of `chars` that the class contains, in their original order. */
  function Filter(chars: string, ranges: seq<RuneRange>): (r: string)
    ensures |r| <= |chars|
    ensures forall c :: c in r <==> c in chars && InClass(c as Rune, ranges)
  {
    if chars == [] then []
    else
      var last := chars[|chars| - 1];
      var init := chars[..|chars| - 1];
      assert chars == init + [last];
      Filter(init, ranges) + (if InClass(last as Rune, ranges) then [last] else [])
  }

  /** The index-mapping loop, resumed at range `i` with `sum` the width already
      skipped: the first range whose end passes `r` yields `lo + (r - sum)`; if
      none does, the rune keeps its zero value. */
  function PickFrom(ranges: seq<RuneRange>, r: int, i: nat, sum: int): (p: Rune)
    requires i <= |ranges|
    ensures WellFormed(ranges) && sum <= r ==>
      p == 0 || exists k :: i <= k < |ranges| && ranges[k].lo <= p <= ranges[k].hi
    decreases |ranges| - i
  {
    if i == |ranges| then 0
    else if sum + Width(ranges[i]) > r then ranges[i].lo + (r - sum)
    else PickFrom(ranges, r, i + 1, sum + Width(ranges[i]))
  }

  /** The code point a drawn index `r` stands for: zero when no range holds the
      index, otherwise a member of the class. */
  function Pick(ranges: seq<RuneRange>, r: int): (p: Rune)
    ensures WellFormed(ranges) && 0 <= r ==> p == 0 || InClass(p, ranges)
  {
    PickFrom(ranges, r, 0, 0)
  }

  /** A sampled code point and the position of the next unread raw value. */
  datatype Picked = Picked(rune: Rune, next: nat)

  /** The whole class case: draw from the printable characters the class contains
      when the class is unbounded and some such character exists, otherwise draw
      an index below `ClassSum` (which panics when that is not positive). */
  function SampleClass(ranges: seq<RuneRange>, src: Source, pos: nat): (o: Outcome<Picked>)
    ensures o.Ok? ==> o.value.next == pos + 1
    ensures o.Panic? ==> o.bound <= 0 && o.bound == ClassSum(ranges)
  {
    var sum := ClassSum(ranges);
    var possible := Filter(PrintableChars, ranges);
    if sum == -1 && |possible| > 0 then
      var d := Draw(src, pos, |possible|).value;
      Ok(Picked(possible[d.value] as Rune, d.next))
    else
      var d :- Draw(src, pos, sum);
      Ok(Picked(Pick(ranges, d.value), d.next))
  }

  // ---------------------------------------------------------------------------
  // The three loops of the class case, each proved against its function.

  /** Counts the code points of the class, giving up with -1 at the first range
      that reaches the last code point. */
  method CountClass(ranges: seq<RuneRange>) returns (sum: int)
    ensures sum == ClassSum(ranges)
    ensures sum == -1 || !Unbounded(ranges)
  {
    sum := 0;
    var i := 0;
    while i < |ranges|
      invariant 0 <= i <= |ranges|
      invariant sum == Offset(ranges, i)
      invariant forall k :: 0 <= k < i ==> ranges[k].hi != RuneRangeEnd
    {
      sum := sum + Width(ranges[i]);
      if ranges[i].hi == RuneRangeEnd {
        sum := -1;
        break;
      }
      i := i + 1;
    }
  }

  /** The filter loop: the characters of `chars` (the printable alphabet, at the
      one call site) that fall inside some range, in order. */
  method FilterChars(chars: string, ranges: seq<RuneRange>) returns (possible: string)
    ensures possible == Filter(chars, ranges)
  {
    possible := [];
    for j := 0 to |chars|
      invariant possible == Filter(chars[..j], ranges)
    {
      var c := chars[j];
      var inside := InRanges(c as Rune, ranges);
      if inside {
        possible := possible + [c];
      }
      assert chars[..j + 1] == chars[..j] + [c];
    }
    assert chars[..|chars|] == chars;
  }

  /** The inner loop of the filter: whether `c` lies in some range, stopping at the
      first range that holds it. */
  method InRanges(c: Rune, ranges: seq<RuneRange>) returns (inside: bool)
    ensures inside == InClass(c, ranges)
  {
    inside := false;
    var i := 0;
    while i < |ranges|
      invariant 0 <= i <= |ranges|
      invariant forall k :: 0 <= k < i ==> !(ranges[k].lo <= c <= ranges[k].hi)
    {
      if ranges[i].lo <= c <= ranges[i].hi {
        inside := true;
        break;
      }
      i := i + 1;
    }
  }

  /** Maps a drawn index `r` to the code point it stands for. */
  method PickRune(ranges: seq<RuneRange>, r: int) returns (ru: Rune)
    ensures ru == Pick(ranges, r)
  {
    ru := 0;
    var sum := 0;
    var i := 0;
    while i < |ranges|
      invariant 0 <= i <= |ranges|
      invariant Pick(ranges, r) == PickFrom(ranges, r, i, sum)
    {
      var gap := Width(ranges[i]);
      if sum + gap > r {
        ru := ranges[i].lo + (r - sum);
        break;
      }
      sum := sum + gap;
      i := i + 1;
    }
  }

  // ---------------------------------------------------------------------------
  // What the index mapping means.

  /** Offsets grow by at least one per range. */
  lemma {:induction false} OffsetGrows(ranges: seq<RuneRange>, j: nat, k: nat)
    requires WellFormed(ranges) && j <= k <= |ranges|
    ensures Offset(ranges, j) + (k - j) <= Offset(ranges, k)
    decreases k - j
  {
    if j < k {
      OffsetGrows(ranges, j, k - 1);
    }
  }

  /** An index that falls inside range `k` (offset_k <= r < offset_k + width_k)
      maps to the code point at the same distance from that range's start. */
  lemma {:induction false} PickInRange(ranges: seq<RuneRange>, r: int, k: nat)
    requires WellFormed(ranges) && k < |ranges|
    requires Offset(ranges, k) <= r < Offset(ranges, k) + Width(ranges[k])
    ensures Pick(ranges, r) == ranges[k].lo + (r - Offset(ranges, k))
    ensures ranges[k].lo <= Pick(ranges, r) <= ranges[k].hi
  {
    var i := 0;
    while i < k
      invariant 0 <= i <= k
      invariant Pick(ranges, r) == PickFrom(ranges, r, i, Offset(ranges, i))
    {
      OffsetGrows(ranges, i + 1, k);
      i := i + 1;
    }
  }

  /** The range whose window holds index `r`: the first range whose end passes it. */
  lemma {:induction false} FindRange(ranges: seq<RuneRange>, r: int) returns (k: nat)
    requires 0 <= r < Total(ranges)
    ensures k < |ranges| && Offset(ranges, k) <= r < Offset(ranges, k + 1)
    ensures forall j :: 0 < j <= k ==> Offset(ranges, j) <= r
  {
    k := 0;
    while k + 1 < |ranges| && Offset(ranges, k + 1) <= r
      invariant k < |ranges| && Offset(ranges, k) <= r
      invariant forall j :: 0 < j <= k ==> Offset(ranges, j) <= r
      decreases |ranges| - k
    {
      k := k + 1;
    }
  }

  /** Every index below the total falls inside some range `k`, the first whose end
      passes it, and is mapped into that range. */
  lemma {:induction false} PickSelects(ranges: seq<RuneRange>, r: int) returns (k: nat)
    requires WellFormed(ranges) && 0 <= r < Total(ranges)
    ensures k < |ranges| && Offset(ranges, k) <= r < Offset(ranges, k) + Width(ranges[k])
    ensures forall j :: 0 <= j < k ==> Offset(ranges, j) + Width(ranges[j]) <= r
    ensures Pick(ranges, r) == ranges[k].lo + (r - Offset(ranges, k))
    ensures InClass(Pick(ranges, r), ranges)
  {
    k := FindRange(ranges, r);
    forall j | 0 <= j < k
      ensures Offset(ranges, j) + Width(ranges[j]) <= r
    {
      assert Offset(ranges, j + 1) <= r;
    }
    PickInRange(ranges, r, k);
  }

  /** Conversely every code point of the class is the image of some index below
      the total, so no member of a bounded class is out of reach. */
  lemma {:induction false} PickReaches(ranges: seq<RuneRange>, c: Rune)
    requires WellFormed(ranges) && InClass(c, ranges)
    ensures exists r :: 0 <= r < Total(ranges) && Pick(ranges, r) == c
  {
    var k :| 0 <= k < |ranges| && ranges[k].lo <= c <= ranges[k].hi;
    var r := Offset(ranges, k) + (c - ranges[k].lo);
    OffsetGrows(ranges, k + 1, |ranges|);
    OffsetGrows(ranges, 0, k);
    PickInRange(ranges, r, k);
  }

  // ---------------------------------------------------------------------------
  // What the class case yields.

  /** A bounded class draws one index below its total and yields the code point
      that index stands for, which lies in the class. */
  lemma {:induction false} SampleBounded(ranges: seq<RuneRange>, src: Source, pos: nat)
    requires WellFormed(ranges) && !Unbounded(ranges) && ranges != []
    ensures Total(ranges) >= |ranges| > 0
    ensures SampleClass(ranges, src, pos) == Ok(Picked(Pick(ranges, src(pos) % Total(ranges)), pos + 1))
    ensures InClass(Pick(ranges, src(pos) % Total(ranges)), ranges)
  {
    OffsetGrows(ranges, 0, |ranges|);
    var _ := PickSelects(ranges, src(pos) % Total(ranges));
  }

  /** A class without ranges has nothing to draw from: `rand.Intn(0)` panics. */
  lemma {:induction false} SampleEmpty(ranges: seq<RuneRange>, src: Source, pos: nat)
    requires ranges == []
    ensures SampleClass(ranges, src, pos) == Panic(0)
  {
  }

  /** An unbounded class containing some printable character yields one printable
      character of the class, after exactly one draw. */
  lemma {:induction false} SampleUnbounded(ranges: seq<RuneRange>, src: Source, pos: nat)
    requires Unbounded(ranges)
    requires exists c :: c in PrintableChars && InClass(c as Rune, ranges)
    ensures var o := SampleClass(ranges, src, pos);
      o.Ok? && o.value.next == pos + 1 && InClass(o.value.rune, ranges)
      && exists c :: c in PrintableChars && o.value.rune == c as Rune
  {
    var c :| c in PrintableChars && InClass(c as Rune, ranges);
    var possible := Filter(PrintableChars, ranges);
    assert c in possible;
    var d := src(pos) % |possible|;
    assert possible[d] in possible;
  }

  /** Conversely every printable character of an unbounded class is drawn by some
      source: the draw ranges uniformly over all of them. */
  lemma {:induction false} SampleUnboundedReaches(ranges: seq<RuneRange>, src: Source, pos: nat, c: char)
    requires Unbounded(ranges) && c in PrintableChars && InClass(c as Rune, ranges)
    ensures exists v :: SampleClass(ranges, Override(src, pos, v), pos) == Ok(Picked(c as Rune, pos + 1))
  {
    var possible := Filter(PrintableChars, ranges);
    var i :| 0 <= i < |possible| && possible[i] == c;
    DrawCovers(src, pos, |possible|, i);
    assert SampleClass(ranges, Override(src, pos, i), pos) == Ok(Picked(c as Rune, pos + 1));
  }

  /** An unbounded class containing no printable character falls through to
      `rand.Intn(-1)`, which panics. */
  lemma {:induction false} SampleDegenerate(ranges: seq<RuneRange>, src: Source, pos: nat)
    requires Unbounded(ranges)
    requires forall c :: c in PrintableChars ==> !InClass(c as Rune, ranges)
    ensures SampleClass(ranges, src, pos) == Panic(-1)
  {
    var possible := Filter(PrintableChars, ranges);
    assert forall i :: 0 <= i < |possible| ==> possible[i] in possible;
  }
}
