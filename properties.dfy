/** What each kind of node contributes to the generated text, stated against the
    generator function of reggen.go:19-148. */
module Properties {
  import opened Syntax
  import opened Ints
  import opened Random
  import opened Alphabet
  import opened Classes
  import opened Generator
  import opened Reproducibility

  // ---------------------------------------------------------------------------
  // Leaves, assertions and groups.

  /** No-match and empty-match nodes contribute nothing and draw nothing; a
      literal contributes exactly its runes, also without drawing. */
  lemma {:induction false} LeafIsFixed(limit: GoInt, re: Node, src: Source, pos: nat)
    requires re.NoMatch? || re.EmptyMatch? || re.Literal?
    ensures Gen(limit, re, src, pos) == Ok(Run(if re.Literal? then re.runes else [], re, pos))
  {
  }

  /** The six assertions match a position, not a character: they contribute
      nothing and draw nothing. */
  lemma {:induction false} AssertionYieldsNothing(limit: GoInt, re: Node, src: Source, pos: nat)
    requires re.ZeroWidth()
    ensures Gen(limit, re, src, pos) == Ok(Run([], re, pos))
  {
  }

  /** A capturing group is transparent: it yields exactly what its child yields. */
  lemma {:induction false} CaptureIsTransparent(limit: GoInt, sub: Node, src: Source, pos: nat)
    ensures var o := Gen(limit, Capture(sub), src, pos);
      match Gen(limit, sub, src, pos)
      case Ok(r) => o == Ok(Run(r.text, Capture(r.tree), r.next))
      case Panic(b) => o == Panic(b)
  {
  }

  // ---------------------------------------------------------------------------
  // Concatenation.

  /** Chaining two sequence generations: the second starts where the first stopped,
      and the texts and trees are joined in order. */
  function Then(limit: GoInt, first: Outcome<Run<seq<Node>>>, ys: seq<Node>, src: Source): Outcome<Run<seq<Node>>> {
    match first
    case Panic(b) => Panic(b)
    case Ok(a) =>
      match GenSeq(limit, ys, src, a.next)
      case Panic(b) => Panic(b)
      case Ok(b) => Ok(Run(a.text + b.text, a.tree + b.tree, b.next))
  }

  /** Splitting the children of a concatenation anywhere splits the generated text
      at the same place: children are generated left to right, each from the draws
      the previous ones left. */
  lemma {:induction false} ConcatInOrder(limit: GoInt, xs: seq<Node>, ys: seq<Node>, src: Source, pos: nat)
    ensures GenSeq(limit, xs + ys, src, pos) == Then(limit, GenSeq(limit, xs, src, pos), ys, src)
    decreases |xs|
  {
    if xs == [] {
      assert xs + ys == ys;
      match GenSeq(limit, ys, src, pos)
      case Ok(b) =>
        assert [] + b.text == b.text && [] + b.tree == b.tree;
      case Panic(_) =>
    } else {
      assert (xs + ys)[0] == xs[0] && (xs + ys)[1..] == xs[1..] + ys;
      match Gen(limit, xs[0], src, pos)
      case Panic(_) =>
      case Ok(a) =>
        ConcatInOrder(limit, xs[1..], ys, src, a.next);
        match GenSeq(limit, xs[1..], src, a.next)
        case Panic(_) =>
        case Ok(m) =>
          match GenSeq(limit, ys, src, m.next)
          case Panic(_) =>
          case Ok(b) =>
            assert a.text + (m.text + b.text) == (a.text + m.text) + b.text;
            assert [a.tree] + (m.tree + b.tree) == ([a.tree] + m.tree) + b.tree;
    }
  }

  /** A sequence of one child yields what the child yields. */
  lemma {:induction false} GenSeqSingle(limit: GoInt, x: Node, src: Source, pos: nat)
    ensures GenSeq(limit, [x], src, pos) ==
      match Gen(limit, x, src, pos)
      case Ok(r) => Ok(Run(r.text, [r.tree], r.next))
      case Panic(b) => Panic(b)
  {
    assert [x][0] == x && [x][1..] == [];
    match Gen(limit, x, src, pos)
    case Ok(r) =>
      assert r.text + [] == r.text && [r.tree] + [] == [r.tree];
    case Panic(_) =>
  }

  /** `count` copies of `runes`, one after another. */
  function Copies(runes: seq<Rune>, count: nat): seq<Rune> {
    if count == 0 then [] else runes + Copies(runes, count - 1)
  }

  /** Copies of a single rune: `count` of them and nothing else. */
  lemma {:induction false} CopiesOfOne(c: Rune, count: nat)
    ensures |Copies([c], count)| == count
    ensures forall j :: 0 <= j < count ==> Copies([c], count)[j] == c
  {
    if count > 0 {
      CopiesOfOne(c, count - 1);
    }
  }

  /** Repeating a literal yields that many copies of its runes, draws nothing and
      leaves the literal as it was. */
  lemma {:induction false} TimesLiteral(limit: GoInt, runes: seq<Rune>, count: nat, src: Source, pos: nat)
    ensures GenTimes(limit, [Literal(runes)], count, src, pos) == Ok(Run(Copies(runes, count), [Literal(runes)], pos))
    decreases count
  {
    if count > 0 {
      GenSeqSingle(limit, Literal(runes), src, pos);
      TimesLiteral(limit, runes, count - 1, src, pos);
    }
  }

  /** Anchoring a pattern at both ends (`^x$`) changes nothing in what it yields. */
  lemma {:induction false} AnchoredIsTransparent(limit: GoInt, x: Node, src: Source, pos: nat)
    ensures var o := Gen(limit, Concat([BeginText, x, EndText]), src, pos);
      match Gen(limit, x, src, pos)
      case Ok(r) => o.Ok? && o.value.text == r.text && o.value.next == r.next
      case Panic(b) => o == Panic(b)
  {
    var g := Gen(limit, x, src, pos);
    var inner := GenSeq(limit, [x, EndText], src, pos);
    var whole := GenSeq(limit, [BeginText, x, EndText], src, pos);
    TrailingEndText(limit, x, src, pos);
    assert [BeginText, x, EndText] == [BeginText] + [x, EndText];
    LeadingBeginText(limit, [x, EndText], src, pos);
    if g.Ok? {
      assert inner == Ok(Run(g.value.text, [g.value.tree, EndText], g.value.next));
      assert whole.Ok? && whole.value.text == g.value.text && whole.value.next == g.value.next;
    } else {
      assert inner == Panic(g.bound);
      assert whole == Panic(g.bound);
    }
  }

  /** A `^` in front of a sequence changes nothing in what it yields. */
  lemma {:induction false} LeadingBeginText(limit: GoInt, xs: seq<Node>, src: Source, pos: nat)
    ensures GenSeq(limit, [BeginText] + xs, src, pos) ==
      match GenSeq(limit, xs, src, pos)
      case Ok(r) => Ok(Run(r.text, [BeginText] + r.tree, r.next))
      case Panic(b) => Panic(b)
  {
    assert ([BeginText] + xs)[0] == BeginText && ([BeginText] + xs)[1..] == xs;
    match GenSeq(limit, xs, src, pos)
    case Ok(r) =>
      assert [] + r.text == r.text;
    case Panic(_) =>
  }

  /** A `$` after a single child changes nothing in what it yields. */
  lemma {:induction false} TrailingEndText(limit: GoInt, x: Node, src: Source, pos: nat)
    ensures GenSeq(limit, [x, EndText], src, pos) ==
      match Gen(limit, x, src, pos)
      case Ok(r) => Ok(Run(r.text, [r.tree, EndText], r.next))
      case Panic(b) => Panic(b)
  {
    assert [x, EndText][0] == x && [x, EndText][1..] == [EndText];
    match Gen(limit, x, src, pos)
    case Ok(r) =>
      assert [EndText][1..] == [];
      assert GenSeq(limit, [EndText], src, r.next) == Ok(Run([] + [], [EndText] + [], r.next));
      assert r.text + ([] + []) == r.text && [r.tree] + ([EndText] + []) == [r.tree, EndText];
    case Panic(_) =>
  }

  // ---------------------------------------------------------------------------
  // Alternation.

  /** An alternation draws one index below its number of branches and yields what
      that branch alone yields; with no branches the draw panics. Only the chosen
      branch's subtree can change. */
  lemma {:induction false} AlternatePicksOne(limit: GoInt, subs: seq<Node>, src: Source, pos: nat)
    ensures subs == [] ==> Gen(limit, Alternate(subs), src, pos) == Panic(0)
    ensures subs != [] ==>
      var i := src(pos) % |subs|;
      var o := Gen(limit, Alternate(subs), src, pos);
      match Gen(limit, subs[i], src, pos + 1)
      case Ok(r) => o.Ok? && o.value.text == r.text && o.value.next == r.next
        && o.value.tree == Alternate(subs[i := r.tree])
      case Panic(b) => o == Panic(b)
  {
  }

  /** Every branch is reachable: a source whose raw value at `pos` is `i` chooses
      branch `i`, which then yields what it yields from the later raw values of
      the original source. */
  lemma {:induction false} AlternateReachesEveryBranch(limit: GoInt, subs: seq<Node>, src: Source, pos: nat, i: nat)
    requires i < |subs| && Gen(limit, subs[i], src, pos + 1).Ok?
    ensures var r := Gen(limit, subs[i], src, pos + 1).value;
      Gen(limit, Alternate(subs), Override(src, pos, i), pos)
        == Ok(Run(r.text, Alternate(subs[i := r.tree]), r.next))
  {
    var src' := Override(src, pos, i);
    GenWindow(limit, subs[i], src, src', pos + 1);
    DrawCovers(src, pos, |subs|, i);
  }

  // ---------------------------------------------------------------------------
  // Repetition.

  /** The number of passes each repetition operator may make, as an inclusive
      range: `*` between 0 and the limit, `+` between 1 and the limit, `?` zero or
      one, `{min,max}` between `min` and the smaller of `max` and the limit (but
      never below `min`). */
  function CountRange(re: Node, limit: GoInt): (int, int)
    requires re.Repetition()
  {
    match re
    case Star(_) => (0, limit)
    case Plus(_) => (1, limit)
    case Quest(_) => (0, 1)
    case Repeat(_, min, max) =>
      var room := if max < limit then max - min else limit - min;
      (min, if room > 0 then min + room else min)
  }

  /** The raw values a repetition node spends on choosing its count: one, except a
      `{min,max}` whose capped maximum does not exceed `min`, which spends none. */
  function CountDraws(re: Node, limit: GoInt): nat
    requires re.Repetition()
  {
    if re.Repeat? && CapMax(re.max, limit) <= re.min then 0 else 1
  }

  /** A repetition that succeeds makes a number of passes within its range: its
      text and final children are those of that many passes over the children,
      started right after the count was drawn. */
  lemma {:induction false} RepetitionCount(limit: GoInt, re: Node, src: Source, pos: nat) returns (count: nat)
    requires re.Repetition() && Gen(limit, re, src, pos).Ok?
    ensures CountRange(re, limit).0 <= count <= CountRange(re, limit).1
    ensures var r := Gen(limit, re, src, pos).value;
      GenTimes(limit, re.subs, count, src, pos + CountDraws(re, limit))
        == Ok(Run(r.text, r.tree.subs, r.next))
  {
    match re
    case Star(subs) =>
      count := src(pos) % AddInt(limit, 1);
    case Plus(subs) =>
      count := src(pos) % limit + 1;
    case Quest(subs) =>
      count := src(pos) % 2;
    case Repeat(subs, min, max) =>
      var capped := CapMax(max, limit);
      count := if capped > min then min + src(pos) % (capped - min + 1) else min;
  }

  /** Conversely every count in an operator's range is chosen by some raw value at
      `pos`: a source yielding it there makes the repetition produce exactly what
      that many passes produce. One lemma per operator follows; this one is `*`. */
  lemma {:induction false} StarCountReachable(limit: GoInt, subs: seq<Node>, src: Source, pos: nat, count: nat)
    requires count <= limit < MaxInt
    ensures var src' := Override(src, pos, count);
      var o := Gen(limit, Star(subs), src', pos);
      match GenTimes(limit, subs, count, src', pos + 1)
      case Ok(t) => o.Ok? && o.value.text == t.text && o.value.next == t.next
      case Panic(b) => o == Panic(b)
  {
    DrawCovers(src, pos, AddInt(limit, 1), count);
  }

  /** Every count in the range of `+` is reachable. */
  lemma {:induction false} PlusCountReachable(limit: GoInt, subs: seq<Node>, src: Source, pos: nat, count: nat)
    requires 1 <= count <= limit
    ensures var src' := Override(src, pos, count - 1);
      var o := Gen(limit, Plus(subs), src', pos);
      match GenTimes(limit, subs, count, src', pos + 1)
      case Ok(t) => o.Ok? && o.value.text == t.text && o.value.next == t.next
      case Panic(b) => o == Panic(b)
  {
    DrawCovers(src, pos, limit, count - 1);
  }

  /** Every count in the range of `?` is reachable. */
  lemma {:induction false} QuestCountReachable(limit: GoInt, subs: seq<Node>, src: Source, pos: nat, count: nat)
    requires count <= 1
    ensures var src' := Override(src, pos, count);
      var o := Gen(limit, Quest(subs), src', pos);
      match GenTimes(limit, subs, count, src', pos + 1)
      case Ok(t) => o.Ok? && o.value.text == t.text && o.value.next == t.next
      case Panic(b) => o == Panic(b)
  {
    DrawCovers(src, pos, 2, count);
  }

  /** Every count in the range of `{min,max}` is reachable. */
  lemma {:induction false} RepeatCountReachable(limit: GoInt, subs: seq<Node>, min: nat, max: int, src: Source, pos: nat, count: nat)
    requires min <= count <= CountRange(Repeat(subs, min, max), limit).1
    ensures var src' := Override(src, pos, count - min);
      var o := Gen(limit, Repeat(subs, min, max), src', pos);
      match GenTimes(limit, subs, count, src', pos + CountDraws(Repeat(subs, min, max), limit))
      case Ok(t) => o.Ok? && o.value.text == t.text && o.value.next == t.next
      case Panic(b) => o == Panic(b)
  {
    var src' := Override(src, pos, count - min);
    var capped := CapMax(max, limit);
    var p := pos + CountDraws(Repeat(subs, min, max), limit);
    if capped > min {
      DrawCovers(src, pos, capped - min + 1, count - min);
    } else {
      assert count == min && p == pos;
    }
    assert Gen(limit, Repeat(subs, min, max), src', pos) ==
      match GenTimes(limit, subs, count, src', p)
      case Ok(r) => Ok(Run(r.text, Repeat(r.tree, min, capped), r.next))
      case Panic(b) => Panic(b);
  }

  /** `+` panics unless the limit is at least one, `*` unless it is at least zero
      and below the greatest int, where `limit + 1` wraps around to the least one
      (all come from `rand.Intn` refusing a bound that is not positive). */
  lemma {:induction false} RepetitionNeedsLimit(limit: GoInt, subs: seq<Node>, src: Source, pos: nat)
    ensures limit <= 0 ==> Gen(limit, Plus(subs), src, pos) == Panic(limit)
    ensures limit < 0 ==> Gen(limit, Star(subs), src, pos) == Panic(limit + 1)
    ensures limit == MaxInt ==> Gen(limit, Star(subs), src, pos) == Panic(MinInt)
  {
  }

  /** A visited `{min,max}` node is left with its maximum capped at the limit; the
      cap is idempotent, so later visits with the same limit change nothing more. */
  lemma {:induction false} RepeatWriteBack(limit: GoInt, subs: seq<Node>, min: nat, max: int, src: Source, pos: nat)
    requires Gen(limit, Repeat(subs, min, max), src, pos).Ok?
    ensures var t := Gen(limit, Repeat(subs, min, max), src, pos).value.tree;
      t.Repeat? && t.min == min && t.max <= max && t.max <= limit
      && (t.max == max || t.max == limit) && CapMax(t.max, limit) == t.max
  {
  }

  // ---------------------------------------------------------------------------
  // Nodes that yield a single code point.

  /** A literal of one rune, `.`, `(?s).` or a well-formed class. */
  predicate OneRune(x: Node) {
    (x.Literal? && |x.runes| == 1) || x.AnyChar? || x.AnyCharNotNL?
    || (x.CharClass? && WellFormed(x.ranges))
  }

  /** The code point of some character of the printable alphabet. */
  predicate Printable(c: Rune) {
    exists i :: 0 <= i < |PrintableChars| && c == PrintableChars[i] as Rune
  }

  /** The code points a single-code-point node can yield: a class yields its own
      members, and only printable ones when it is unbounded. */
  predicate Accepts(x: Node, c: Rune)
    requires OneRune(x)
  {
    match x
    case Literal(runes) => c == runes[0]
    case CharClass(ranges) => InClass(c, ranges) && (Unbounded(ranges) ==> Printable(c))
    case AnyChar => Printable(c)
    case AnyCharNotNL =>
      (exists i :: 0 <= i < |PrintableCharsNoNL| && c == PrintableCharsNoNL[i] as Rune)
      && c != '\n' as Rune && c != '\r' as Rune
  }

  /** `(?s).` yields one character of the printable alphabet and never panics. */
  lemma {:induction false} AnyCharSample(limit: GoInt, src: Source, pos: nat)
    ensures var o := Gen(limit, AnyChar, src, pos);
      o.Ok? && o.value.next == pos + 1 && o.value.tree == AnyChar
      && |o.value.text| == 1 && Accepts(AnyChar, o.value.text[0])
  {
    AlphabetFacts();
    var i := src(pos) % |PrintableChars|;
    assert Gen(limit, AnyChar, src, pos).value.text[0] == PrintableChars[i] as Rune;
  }

  /** `.` yields one character of the printable alphabet other than a newline or a
      carriage return, and never panics. */
  lemma {:induction false} AnyCharNotNLSample(limit: GoInt, src: Source, pos: nat)
    ensures var o := Gen(limit, AnyCharNotNL, src, pos);
      o.Ok? && o.value.next == pos + 1 && o.value.tree == AnyCharNotNL
      && |o.value.text| == 1 && Accepts(AnyCharNotNL, o.value.text[0])
  {
    AlphabetFacts();
    var i := src(pos) % |PrintableCharsNoNL|;
    assert Gen(limit, AnyCharNotNL, src, pos).value.text[0] == PrintableCharsNoNL[i] as Rune;
  }

  /** Conversely every character of the printable alphabet is what `(?s).` yields
      for some source. */
  lemma {:induction false} AnyCharReaches(limit: GoInt, src: Source, pos: nat, i: nat)
    requires i < |PrintableChars|
    ensures Gen(limit, AnyChar, Override(src, pos, i), pos)
      == Ok(Run([PrintableChars[i] as Rune], AnyChar, pos + 1))
  {
    DrawCovers(src, pos, |PrintableChars|, i);
  }

  /** Every character of the alphabet without newline and carriage return is what
      `.` yields for some source. */
  lemma {:induction false} AnyCharNotNLReaches(limit: GoInt, src: Source, pos: nat, i: nat)
    requires i < |PrintableCharsNoNL|
    ensures Gen(limit, AnyCharNotNL, Override(src, pos, i), pos)
      == Ok(Run([PrintableCharsNoNL[i] as Rune], AnyCharNotNL, pos + 1))
  {
    DrawCovers(src, pos, |PrintableCharsNoNL|, i);
  }

  /** A single-code-point node that succeeds yields one code point it accepts,
      spends at most one raw value, and leaves its node unchanged. */
  lemma {:induction false} OneRuneGen(limit: GoInt, x: Node, src: Source, pos: nat)
    requires OneRune(x) && Gen(limit, x, src, pos).Ok?
    ensures var r := Gen(limit, x, src, pos).value;
      |r.text| == 1 && Accepts(x, r.text[0]) && r.tree == x && r.next <= pos + 1
  {
    match x
    case Literal(_) =>
    case AnyChar => AnyCharSample(limit, src, pos);
    case AnyCharNotNL => AnyCharNotNLSample(limit, src, pos);
    case CharClass(ranges) =>
      if Unbounded(ranges) {
        var possible := Filter(PrintableChars, ranges);
        assert |possible| > 0;
        assert possible[0] in possible;
        SampleUnbounded(ranges, src, pos);
      } else {
        OffsetGrows(ranges, 0, |ranges|);
        assert SampleClass(ranges, src, pos).Ok?;
        SampleBounded(ranges, src, pos);
      }
  }

  /** `count` passes over a single-code-point node yield exactly `count` code
      points, each accepted by the node. */
  lemma {:induction false} TimesOneRune(limit: GoInt, x: Node, count: nat, src: Source, pos: nat)
    requires OneRune(x) && GenTimes(limit, [x], count, src, pos).Ok?
    ensures var r := GenTimes(limit, [x], count, src, pos).value;
      |r.text| == count && r.tree == [x] && forall j :: 0 <= j < count ==> Accepts(x, r.text[j])
    decreases count
  {
    if count > 0 {
      assert [x][0] == x && [x][1..] == [];
      var a := Gen(limit, x, src, pos).value;
      OneRuneGen(limit, x, src, pos);
      assert GenSeq(limit, [x], src, pos) == Ok(Run(a.text + [], [a.tree] + [], a.next));
      assert a.text + [] == a.text && [a.tree] + [] == [x];
      TimesOneRune(limit, x, count - 1, src, a.next);
    }
  }

  /** A repetition of a single-code-point node yields a number of code points
      within the operator's range, each accepted by the node. */
  lemma {:induction false} RepeatedRune(limit: GoInt, re: Node, src: Source, pos: nat)
    requires re.Repetition() && |re.subs| == 1 && OneRune(re.subs[0])
    requires Gen(limit, re, src, pos).Ok?
    ensures var r := Gen(limit, re, src, pos).value;
      CountRange(re, limit).0 <= |r.text| <= CountRange(re, limit).1
      && forall j :: 0 <= j < |r.text| ==> Accepts(re.subs[0], r.text[j])
  {
    var count := RepetitionCount(limit, re, src, pos);
    assert re.subs == [re.subs[0]];
    TimesOneRune(limit, re.subs[0], count, src, pos + CountDraws(re, limit));
  }

  /** A single-code-point node that cannot panic: any class in it is non-empty,
      and an unbounded class holds some printable character. */
  predicate Safe(x: Node) {
    OneRune(x)
    && (x.CharClass? ==> x.ranges != [])
    && (x.CharClass? && Unbounded(x.ranges) ==>
          exists c :: c in PrintableChars && InClass(c as Rune, x.ranges))
  }

  /** A safe node never panics. */
  lemma {:induction false} SafeRuneOk(limit: GoInt, x: Node, src: Source, pos: nat)
    requires Safe(x)
    ensures Gen(limit, x, src, pos).Ok?
  {
    match x
    case AnyChar => AnyCharSample(limit, src, pos);
    case AnyCharNotNL => AnyCharNotNLSample(limit, src, pos);
    case CharClass(ranges) =>
      if Unbounded(ranges) {
        SampleUnbounded(ranges, src, pos);
      } else {
        SampleBounded(ranges, src, pos);
      }
    case Literal(_) =>
  }

  /** Any number of passes over a safe node succeeds. */
  lemma {:induction false} TimesSafeOk(limit: GoInt, x: Node, count: nat, src: Source, pos: nat)
    requires Safe(x)
    ensures GenTimes(limit, [x], count, src, pos).Ok?
    decreases count
  {
    if count > 0 {
      assert [x][0] == x && [x][1..] == [];
      SafeRuneOk(limit, x, src, pos);
      var a := Gen(limit, x, src, pos).value;
      OneRuneGen(limit, x, src, pos);
      assert GenSeq(limit, [x], src, pos) == Ok(Run(a.text + [], [a.tree] + [], a.next));
      assert [a.tree] + [] == [x];
      TimesSafeOk(limit, x, count - 1, src, a.next);
    }
  }

  /** A repetition of a safe node panics exactly when its count is drawn with a
      bound that is not positive: `*` with a negative limit or the greatest int,
      `+` with a limit below one. */
  lemma {:induction false} RepeatedSafeRune(limit: GoInt, re: Node, src: Source, pos: nat)
    requires re.Repetition() && |re.subs| == 1 && Safe(re.subs[0])
    ensures Gen(limit, re, src, pos).Ok? <==> (re.Star? ==> 0 <= limit < MaxInt) && (re.Plus? ==> limit > 0)
  {
    var x := re.subs[0];
    assert re.subs == [x];
    match re
    case Star(_) =>
      if 0 <= limit < MaxInt {
        TimesSafeOk(limit, x, src(pos) % AddInt(limit, 1), src, pos + 1);
      }
    case Plus(_) =>
      if limit > 0 {
        TimesSafeOk(limit, x, src(pos) % limit + 1, src, pos + 1);
      }
    case Quest(_) =>
      TimesSafeOk(limit, x, src(pos) % 2, src, pos + 1);
    case Repeat(_, min, max) =>
      assert re == Repeat([x], min, max);
      RepeatSafeOk(limit, x, min, max, src, pos);
  }

  /** The `{min,max}` case of `RepeatedSafeRune`: it never panics. */
  lemma {:induction false} RepeatSafeOk(limit: GoInt, x: Node, min: nat, max: int, src: Source, pos: nat)
    requires Safe(x)
    ensures Gen(limit, Repeat([x], min, max), src, pos).Ok?
  {
    var capped := CapMax(max, limit);
    if capped > min {
      TimesSafeOk(limit, x, min + src(pos) % (capped - min + 1), src, pos + 1);
    } else {
      TimesSafeOk(limit, x, min, src, pos);
    }
  }
}
