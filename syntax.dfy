/** The parsed form of a regular expression, as produced by the external parser
    (Go's regexp/syntax package). The generator only walks it, except that a
    Repeat node's upper bound is capped in place while generating. */
module Syntax {

  /** A Unicode code point. */
  type Rune = int

  /** The largest code point; a class range ending here marks a negated class. */
  const RuneRangeEnd: Rune := 0x10ffff

  /** An inclusive range [lo, hi] of a character class. */
  datatype RuneRange = RuneRange(lo: Rune, hi: Rune)

  /** One node of the syntax tree, tagged by its operator. `Capture` has exactly
      one child; the other composite nodes keep an ordered sequence of children.
      `Repeat` with `max == -1` is the unbounded form `{min,}`. */
  datatype Node =
    | NoMatch
    | EmptyMatch
    | Literal(runes: seq<Rune>)
    | CharClass(ranges: seq<RuneRange>)
    | AnyCharNotNL
    | AnyChar
    | BeginLine
    | EndLine
    | BeginText
    | EndText
    | WordBoundary
    | NoWordBoundary
    | Capture(sub: Node)
    | Star(subs: seq<Node>)
    | Plus(subs: seq<Node>)
    | Quest(subs: seq<Node>)
    | Repeat(subs: seq<Node>, min: nat, max: int)
    | Concat(subs: seq<Node>)
    | Alternate(subs: seq<Node>)
  {
    /** The six assertions that match a position, not a character. */
    predicate ZeroWidth() {
      BeginLine? || EndLine? || BeginText? || EndText? || WordBoundary? || NoWordBoundary?
    }

    /** Operators that repeat their children a drawn number of times. */
    predicate Repetition() {
      Star? || Plus? || Quest? || Repeat?
    }
  }

  /** The number of nodes in a tree: the measure that makes generation terminate. */
  function Size(re: Node): (n: nat)
    ensures n >= 1
  {
    match re
    case Capture(sub) => 1 + Size(sub)
    case Star(subs) => 1 + SeqSize(subs)
    case Plus(subs) => 1 + SeqSize(subs)
    case Quest(subs) => 1 + SeqSize(subs)
    case Repeat(subs, _, _) => 1 + SeqSize(subs)
    case Concat(subs) => 1 + SeqSize(subs)
    case Alternate(subs) => 1 + SeqSize(subs)
    case _ => 1
  }

  /** The number of nodes in a sequence of trees. */
  function SeqSize(subs: seq<Node>): nat
  {
    if subs == [] then 0 else Size(subs[0]) + SeqSize(subs[1..])
  }

  /** Every child is smaller than the sequence holding it. */
  lemma {:induction false} SeqSizeElem(subs: seq<Node>, i: nat)
    requires i < |subs|
    ensures Size(subs[i]) <= SeqSize(subs)
  {
    if i > 0 {
      SeqSizeElem(subs[1..], i - 1);
    }
  }

  /** Replacing a child by a tree of the same size keeps the total size. */
  lemma {:induction false} SeqSizeUpdate(subs: seq<Node>, i: nat, t: Node)
    requires i < |subs| && Size(t) == Size(subs[i])
    ensures SeqSize(subs[i := t]) == SeqSize(subs)
  {
    if i > 0 {
      assert subs[i := t][1..] == subs[1..][i - 1 := t];
      SeqSizeUpdate(subs[1..], i - 1, t);
    }
  }
}
