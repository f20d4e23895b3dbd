/** What one call of the recursive generator produces (reggen.go:19-148), as a
    function of the caller's repetition limit, the tree and the raw values the
    random source will yield from position `pos` on. Besides the text, every
    result carries the position of the next unread raw value and the tree as the
    call leaves it: a Repeat node that is visited has its upper bound lowered to
    the limit (reggen.go:123). */
module Generator {
  import opened Syntax
  import opened Ints
  import opened Random
  import opened Alphabet
  import opened Classes

  /** Generated text, the tree afterwards and the next unread position. */
  datatype Run<T> = Run(text: seq<Rune>, tree: T, next: nat)

  /** The integer minimum the Repeat case writes back as the node's new maximum. */
  function CapMax(max: int, limit: GoInt): (m: int)
    ensures m <= max && m <= limit && (m == max || m == limit)
  {
    if max < limit then max else limit
  }

  /** The bound `*` evidently intends: one more than the limit, saturating at the
      greatest int where Go's `limit + 1` wraps around. With it a `*` under any
      non-negative limit draws a count between zero and the limit and never
      panics, and it agrees with the source's bound at every other limit. */
  function SaturatingStarBound(limit: GoInt): (n: GoInt)
    ensures limit >= 0 ==> 0 < n && n - 1 <= limit
    ensures limit != MaxInt ==> n == AddInt(limit, 1)
  {
    if limit == MaxInt then MaxInt else limit + 1
  }

  /** Generation of a node without children: nothing for the no-match and
      empty-match nodes and for the six assertions, the runes of a literal, and
      one sampled code point for a class or a dot. The tree is left as it was.
      `Gen` handles the nodes with children itself and never passes them here. */
  function Leaf(re: Node, src: Source, pos: nat): (o: Outcome<Run<Node>>)
    ensures o.Ok? ==> o.value.next >= pos && o.value.tree == re
  {
    match re
    case NoMatch => Ok(Run([], re, pos))
    case EmptyMatch => Ok(Run([], re, pos))
    case Literal(runes) => Ok(Run(runes, re, pos))
    case CharClass(ranges) =>
      var p :- SampleClass(ranges, src, pos);
      Ok(Run([p.rune], re, p.next))
    case AnyCharNotNL =>
      var d := Draw(src, pos, |PrintableCharsNoNL|).value;
      Ok(Run([PrintableCharsNoNL[d.value] as Rune], re, d.next))
    case AnyChar =>
      var d := Draw(src, pos, |PrintableChars|).value;
      Ok(Run([PrintableChars[d.value] as Rune], re, d.next))
    case BeginLine => Ok(Run([], re, pos))
    case EndLine => Ok(Run([], re, pos))
    case BeginText => Ok(Run([], re, pos))
    case EndText => Ok(Run([], re, pos))
    case WordBoundary => Ok(Run([], re, pos))
    case NoWordBoundary => Ok(Run([], re, pos))
    case _ => Ok(Run([], re, pos))
  }

  /** Generation of one node: the composite nodes here, the others in `Leaf`.
      The bound of `*` is Go's `limit + 1`, which wraps around to the least int
      when the limit is the greatest one. */
  function Gen(limit: GoInt, re: Node, src: Source, pos: nat): (o: Outcome<Run<Node>>)
    ensures o.Ok? ==> o.value.next >= pos && Size(o.value.tree) == Size(re)
    decreases Size(re), 0, 0
  {
    match re
    case Capture(sub) =>
      var r :- Gen(limit, sub, src, pos);
      Ok(Run(r.text, Capture(r.tree), r.next))
    case Star(subs) =>
      var c :- Draw(src, pos, AddInt(limit, 1));
      var r :- GenTimes(limit, subs, c.value, src, c.next);
      Ok(Run(r.text, Star(r.tree), r.next))
    case Plus(subs) =>
      var c :- Draw(src, pos, limit);
      var r :- GenTimes(limit, subs, c.value + 1, src, c.next);
      Ok(Run(r.text, Plus(r.tree), r.next))
    case Quest(subs) =>
      var c := Draw(src, pos, 2).value;
      var r :- GenTimes(limit, subs, c.value, src, c.next);
      Ok(Run(r.text, Quest(r.tree), r.next))
    case Repeat(subs, min, max) =>
      var capped := CapMax(max, limit);
      var extra := if capped > min then Draw(src, pos, capped - min + 1).value else Drawn(0, pos);
      var r :- GenTimes(limit, subs, min + extra.value, src, extra.next);
      Ok(Run(r.text, Repeat(r.tree, min, capped), r.next))
    case Concat(subs) =>
      var r :- GenSeq(limit, subs, src, pos);
      Ok(Run(r.text, Concat(r.tree), r.next))
    case Alternate(subs) =>
      var d :- Draw(src, pos, |subs|);
      SeqSizeElem(subs, d.value);
      var r :- Gen(limit, subs[d.value], src, d.next);
      SeqSizeUpdate(subs, d.value, r.tree);
      Ok(Run(r.text, Alternate(subs[d.value := r.tree]), r.next))
    case _ => Leaf(re, src, pos)
  }

  /** Generation of a sequence of children, in order, concatenating their texts. */
  function GenSeq(limit: GoInt, subs: seq<Node>, src: Source, pos: nat): (o: Outcome<Run<seq<Node>>>)
    ensures o.Ok? ==> o.value.next >= pos && |o.value.tree| == |subs|
    ensures o.Ok? ==> SeqSize(o.value.tree) == SeqSize(subs)
    decreases SeqSize(subs), 1, 0
  {
    if subs == [] then Ok(Run([], [], pos))
    else
      var a :- Gen(limit, subs[0], src, pos);
      var b :- GenSeq(limit, subs[1..], src, a.next);
      Ok(Run(a.text + b.text, [a.tree] + b.tree, b.next))
  }

  /** `count` successive passes over the children; each pass starts from the tree
      the previous one left behind. */
  function GenTimes(limit: GoInt, subs: seq<Node>, count: nat, src: Source, pos: nat): (o: Outcome<Run<seq<Node>>>)
    ensures o.Ok? ==> o.value.next >= pos && |o.value.tree| == |subs|
    ensures o.Ok? ==> SeqSize(o.value.tree) == SeqSize(subs)
    decreases SeqSize(subs), 2, count
  {
    if count == 0 then Ok(Run([], subs, pos))
    else
      var a :- GenSeq(limit, subs, src, pos);
      var b :- GenTimes(limit, a.tree, count - 1, src, a.next);
      Ok(Run(a.text + b.text, b.tree, b.next))
  }
}
