/** Generation is a deterministic function of the raw values it consumes: a
    successful run that read positions [pos, next) of one source gives the same
    text, tree and next position on any source that agrees there. This is what
    makes a fixed seed reproduce a string (reggen.go:152-154 seeds the source
    once per generator). */
module Reproducibility {
  import opened Syntax
  import opened Ints
  import opened Random
  import opened Classes
  import opened Generator

  /** Two sources yield the same raw values at positions lo .. hi-1. */
  predicate Agree(src1: Source, src2: Source, lo: nat, hi: nat) {
    forall k: nat :: lo <= k < hi ==> src1(k) == src2(k)
  }

  /** A sub-window of an agreeing window agrees. */
  lemma {:induction false} AgreeWithin(src1: Source, src2: Source, lo: nat, hi: nat, lo': nat, hi': nat)
    requires Agree(src1, src2, lo, hi) && lo <= lo' && hi' <= hi
    ensures Agree(src1, src2, lo', hi')
  {
  }

  /** A successful generation reads nothing outside the raw values it consumed:
      on any source that agrees on those, it yields the same text, tree and next
      position. */
  lemma {:induction false} GenWindow(limit: GoInt, re: Node, src1: Source, src2: Source, pos: nat)
    requires Gen(limit, re, src1, pos).Ok?
    requires Agree(src1, src2, pos, Gen(limit, re, src1, pos).value.next)
    ensures Gen(limit, re, src2, pos) == Gen(limit, re, src1, pos)
    decreases Size(re), 0, 0
  {
    match re
    case Capture(sub) =>
      GenWindow(limit, sub, src1, src2, pos);
    case Star(subs) =>
      LoopWindow(limit, re, src1, src2, pos);
    case Plus(subs) =>
      LoopWindow(limit, re, src1, src2, pos);
    case Quest(subs) =>
      LoopWindow(limit, re, src1, src2, pos);
    case Repeat(subs, min, max) =>
      RepeatWindow(limit, subs, min, max, src1, src2, pos);
    case Concat(subs) =>
      GenSeqWindow(limit, subs, src1, src2, pos);
    case Alternate(subs) =>
      AlternateWindow(limit, subs, src1, src2, pos);
    case _ =>
      LeafWindow(limit, re, src1, src2, pos);
  }

  /** The cases of `GenWindow` without children: at most the raw value at `pos`
      is read. */
  lemma {:induction false} LeafWindow(limit: GoInt, re: Node, src1: Source, src2: Source, pos: nat)
    requires !(re.Capture? || re.Repetition() || re.Concat? || re.Alternate?)
    requires Gen(limit, re, src1, pos).Ok?
    requires Agree(src1, src2, pos, Gen(limit, re, src1, pos).value.next)
    ensures Gen(limit, re, src2, pos) == Gen(limit, re, src1, pos)
  {
    if Gen(limit, re, src1, pos).value.next > pos {
      assert src1(pos) == src2(pos);
    }
  }

  /** The `*`, `+` and `?` cases of `GenWindow`. */
  lemma {:induction false} LoopWindow(limit: GoInt, re: Node, src1: Source, src2: Source, pos: nat)
    requires re.Star? || re.Plus? || re.Quest?
    requires Gen(limit, re, src1, pos).Ok?
    requires Agree(src1, src2, pos, Gen(limit, re, src1, pos).value.next)
    ensures Gen(limit, re, src2, pos) == Gen(limit, re, src1, pos)
    decreases SeqSize(re.subs), 3, 0
  {
    assert src1(pos) == src2(pos);
    match re
    case Star(subs) =>
      GenTimesWindow(limit, subs, src1(pos) % AddInt(limit, 1), src1, src2, pos + 1);
    case Plus(subs) =>
      GenTimesWindow(limit, subs, src1(pos) % limit + 1, src1, src2, pos + 1);
    case Quest(subs) =>
      GenTimesWindow(limit, subs, src1(pos) % 2, src1, src2, pos + 1);
  }

  /** The alternation case of `GenWindow`. */
  lemma {:induction false} AlternateWindow(limit: GoInt, subs: seq<Node>, src1: Source, src2: Source, pos: nat)
    requires Gen(limit, Alternate(subs), src1, pos).Ok?
    requires Agree(src1, src2, pos, Gen(limit, Alternate(subs), src1, pos).value.next)
    ensures Gen(limit, Alternate(subs), src2, pos) == Gen(limit, Alternate(subs), src1, pos)
    decreases SeqSize(subs), 3, 0
  {
    assert src1(pos) == src2(pos);
    var i := src1(pos) % |subs|;
    SeqSizeElem(subs, i);
    GenWindow(limit, subs[i], src1, src2, pos + 1);
  }

  /** The `{min,max}` case of `GenWindow`. */
  lemma {:induction false} RepeatWindow(limit: GoInt, subs: seq<Node>, min: nat, max: int, src1: Source, src2: Source, pos: nat)
    requires Gen(limit, Repeat(subs, min, max), src1, pos).Ok?
    requires Agree(src1, src2, pos, Gen(limit, Repeat(subs, min, max), src1, pos).value.next)
    ensures Gen(limit, Repeat(subs, min, max), src2, pos) == Gen(limit, Repeat(subs, min, max), src1, pos)
    decreases SeqSize(subs), 4, 0
  {
    var capped := CapMax(max, limit);
    if capped > min {
      assert src1(pos) == src2(pos);
      RepeatCountWindow(limit, subs, min, max, min + src1(pos) % (capped - min + 1), pos + 1, src1, src2, pos);
    } else {
      RepeatCountWindow(limit, subs, min, max, min, pos, src1, src2, pos);
    }
  }

  /** The step of `RepeatWindow` after the count is known: `count` passes starting
      at `start`, where both sources drew the same count. */
  lemma {:induction false} RepeatCountWindow(limit: GoInt, subs: seq<Node>, min: nat, max: int, count: nat, start: nat,
                                             src1: Source, src2: Source, pos: nat)
    requires var capped := CapMax(max, limit);
      if capped > min then count == min + src1(pos) % (capped - min + 1) && start == pos + 1 && src1(pos) == src2(pos)
      else count == min && start == pos
    requires Gen(limit, Repeat(subs, min, max), src1, pos).Ok?
    requires Agree(src1, src2, pos, Gen(limit, Repeat(subs, min, max), src1, pos).value.next)
    ensures Gen(limit, Repeat(subs, min, max), src2, pos) == Gen(limit, Repeat(subs, min, max), src1, pos)
    decreases SeqSize(subs), 3, 0
  {
    var next := Gen(limit, Repeat(subs, min, max), src1, pos).value.next;
    AgreeWithin(src1, src2, pos, next, start, next);
    GenTimesWindow(limit, subs, count, src1, src2, start);
  }

  lemma {:induction false} GenSeqWindow(limit: GoInt, subs: seq<Node>, src1: Source, src2: Source, pos: nat)
    requires GenSeq(limit, subs, src1, pos).Ok?
    requires Agree(src1, src2, pos, GenSeq(limit, subs, src1, pos).value.next)
    ensures GenSeq(limit, subs, src2, pos) == GenSeq(limit, subs, src1, pos)
    decreases SeqSize(subs), 1, 0
  {
    if subs != [] {
      var a := Gen(limit, subs[0], src1, pos).value;
      var b := GenSeq(limit, subs[1..], src1, a.next).value;
      AgreeWithin(src1, src2, pos, b.next, pos, a.next);
      GenWindow(limit, subs[0], src1, src2, pos);
      AgreeWithin(src1, src2, pos, b.next, a.next, b.next);
      GenSeqWindow(limit, subs[1..], src1, src2, a.next);
    }
  }

  lemma {:induction false} GenTimesWindow(limit: GoInt, subs: seq<Node>, count: nat, src1: Source, src2: Source, pos: nat)
    requires GenTimes(limit, subs, count, src1, pos).Ok?
    requires Agree(src1, src2, pos, GenTimes(limit, subs, count, src1, pos).value.next)
    ensures GenTimes(limit, subs, count, src2, pos) == GenTimes(limit, subs, count, src1, pos)
    decreases SeqSize(subs), 2, count
  {
    if count > 0 {
      var a := GenSeq(limit, subs, src1, pos).value;
      var b := GenTimes(limit, a.tree, count - 1, src1, a.next).value;
      AgreeWithin(src1, src2, pos, b.next, pos, a.next);
      GenSeqWindow(limit, subs, src1, src2, pos);
      AgreeWithin(src1, src2, pos, b.next, a.next, b.next);
      GenTimesWindow(limit, a.tree, count - 1, src1, src2, a.next);
    }
  }
}
