/** The in-place write-back of reggen.go:123 (`re.Max = min(re.Max, limit)`). A
    generation changes nothing in the tree except that every `{min,max}` node it
    visits has its maximum capped at the limit; generating again from the changed
    tree with the same limit behaves exactly as generating from the original. */
module WriteBack {
  import opened Syntax
  import opened Ints
  import opened Random
  import opened Classes
  import opened Generator

  /** `now` has the shape and contents of `orig`, except that some `{min,max}`
      nodes may have their maximum replaced by its cap at `limit`. */
  predicate Capped(orig: Node, now: Node, limit: GoInt)
    decreases orig
  {
    match orig
    case Capture(sub) => now.Capture? && Capped(sub, now.sub, limit)
    case Star(subs) => now.Star? && CappedSeq(subs, now.subs, limit)
    case Plus(subs) => now.Plus? && CappedSeq(subs, now.subs, limit)
    case Quest(subs) => now.Quest? && CappedSeq(subs, now.subs, limit)
    case Repeat(subs, min, max) =>
      now.Repeat? && now.min == min && (now.max == max || now.max == CapMax(max, limit))
      && CappedSeq(subs, now.subs, limit)
    case Concat(subs) => now.Concat? && CappedSeq(subs, now.subs, limit)
    case Alternate(subs) => now.Alternate? && CappedSeq(subs, now.subs, limit)
    case _ => now == orig
  }

  predicate CappedSeq(orig: seq<Node>, now: seq<Node>, limit: GoInt)
    decreases orig
  {
    |orig| == |now| && forall i :: 0 <= i < |orig| ==> Capped(orig[i], now[i], limit)
  }

  /** Every tree is a capped form of itself. */
  lemma {:induction false} CappedRefl(t: Node, limit: GoInt)
    ensures Capped(t, t, limit)
    decreases t
  {
    match t
    case Capture(sub) => CappedRefl(sub, limit);
    case Star(subs) => CappedSeqRefl(subs, limit);
    case Plus(subs) => CappedSeqRefl(subs, limit);
    case Quest(subs) => CappedSeqRefl(subs, limit);
    case Repeat(subs, _, _) => CappedSeqRefl(subs, limit);
    case Concat(subs) => CappedSeqRefl(subs, limit);
    case Alternate(subs) => CappedSeqRefl(subs, limit);
    case _ =>
  }

  lemma {:induction false} CappedSeqRefl(ts: seq<Node>, limit: GoInt)
    ensures CappedSeq(ts, ts, limit)
    decreases ts
  {
    forall i | 0 <= i < |ts|
      ensures Capped(ts[i], ts[i], limit)
    {
      CappedRefl(ts[i], limit);
    }
  }

  /** Capping twice is capping once: the cap is idempotent. */
  lemma {:induction false} CappedTrans(a: Node, b: Node, c: Node, limit: GoInt)
    requires Capped(a, b, limit) && Capped(b, c, limit)
    ensures Capped(a, c, limit)
    decreases a
  {
    match a
    case Capture(sub) => CappedTrans(sub, b.sub, c.sub, limit);
    case Star(subs) => CappedSeqTrans(subs, b.subs, c.subs, limit);
    case Plus(subs) => CappedSeqTrans(subs, b.subs, c.subs, limit);
    case Quest(subs) => CappedSeqTrans(subs, b.subs, c.subs, limit);
    case Repeat(subs, _, _) => CappedSeqTrans(subs, b.subs, c.subs, limit);
    case Concat(subs) => CappedSeqTrans(subs, b.subs, c.subs, limit);
    case Alternate(subs) => CappedSeqTrans(subs, b.subs, c.subs, limit);
    case _ =>
  }

  lemma {:induction false} CappedSeqTrans(xs: seq<Node>, ys: seq<Node>, zs: seq<Node>, limit: GoInt)
    requires CappedSeq(xs, ys, limit) && CappedSeq(ys, zs, limit)
    ensures CappedSeq(xs, zs, limit)
    decreases xs
  {
    forall i | 0 <= i < |xs|
      ensures Capped(xs[i], zs[i], limit)
    {
      CappedTrans(xs[i], ys[i], zs[i], limit);
    }
  }

  // ---------------------------------------------------------------------------
  // Generation only caps.

  /** The tree a successful generation leaves behind is a capped form of the tree
      it started from. */
  lemma {:induction false} GenCaps(limit: GoInt, re: Node, src: Source, pos: nat)
    requires Gen(limit, re, src, pos).Ok?
    ensures Capped(re, Gen(limit, re, src, pos).value.tree, limit)
    decreases Size(re), 0, 0
  {
    match re
    case Capture(sub) =>
      GenCaps(limit, sub, src, pos);
    case Star(subs) =>
      StarCaps(limit, subs, src, pos);
    case Plus(subs) =>
      PlusCaps(limit, subs, src, pos);
    case Quest(subs) =>
      QuestCaps(limit, subs, src, pos);
    case Repeat(subs, min, max) =>
      RepeatCaps(limit, subs, min, max, src, pos);
    case Concat(subs) =>
      GenSeqCaps(limit, subs, src, pos);
    case Alternate(subs) =>
      AlternateCaps(limit, subs, src, pos);
    case _ =>
      CappedRefl(re, limit);
  }

  /** The `*` case of `GenCaps`. */
  lemma {:induction false} StarCaps(limit: GoInt, subs: seq<Node>, src: Source, pos: nat)
    requires Gen(limit, Star(subs), src, pos).Ok?
    ensures Capped(Star(subs), Gen(limit, Star(subs), src, pos).value.tree, limit)
    decreases SeqSize(subs), 3, 0
  {
    GenTimesCaps(limit, subs, src(pos) % AddInt(limit, 1), src, pos + 1);
  }

  /** The `+` case of `GenCaps`. */
  lemma {:induction false} PlusCaps(limit: GoInt, subs: seq<Node>, src: Source, pos: nat)
    requires Gen(limit, Plus(subs), src, pos).Ok?
    ensures Capped(Plus(subs), Gen(limit, Plus(subs), src, pos).value.tree, limit)
    decreases SeqSize(subs), 3, 0
  {
    GenTimesCaps(limit, subs, src(pos) % limit + 1, src, pos + 1);
  }

  /** The `?` case of `GenCaps`. */
  lemma {:induction false} QuestCaps(limit: GoInt, subs: seq<Node>, src: Source, pos: nat)
    requires Gen(limit, Quest(subs), src, pos).Ok?
    ensures Capped(Quest(subs), Gen(limit, Quest(subs), src, pos).value.tree, limit)
    decreases SeqSize(subs), 3, 0
  {
    GenTimesCaps(limit, subs, src(pos) % 2, src, pos + 1);
  }

  /** The `{min,max}` case of `GenCaps`. */
  lemma {:induction false} RepeatCaps(limit: GoInt, subs: seq<Node>, min: nat, max: int, src: Source, pos: nat)
    requires Gen(limit, Repeat(subs, min, max), src, pos).Ok?
    ensures Capped(Repeat(subs, min, max), Gen(limit, Repeat(subs, min, max), src, pos).value.tree, limit)
    decreases SeqSize(subs), 3, 0
  {
    var capped := CapMax(max, limit);
    if capped > min {
      GenTimesCaps(limit, subs, min + src(pos) % (capped - min + 1), src, pos + 1);
    } else {
      GenTimesCaps(limit, subs, min, src, pos);
    }
  }

  /** The alternation case of `GenCaps`: only the chosen branch changes. */
  lemma {:induction false} AlternateCaps(limit: GoInt, subs: seq<Node>, src: Source, pos: nat)
    requires Gen(limit, Alternate(subs), src, pos).Ok?
    ensures Capped(Alternate(subs), Gen(limit, Alternate(subs), src, pos).value.tree, limit)
    decreases SeqSize(subs), 3, 0
  {
    var i := src(pos) % |subs|;
    SeqSizeElem(subs, i);
    GenCaps(limit, subs[i], src, pos + 1);
    var t := Gen(limit, subs[i], src, pos + 1).value.tree;
    forall j | 0 <= j < |subs|
      ensures Capped(subs[j], subs[i := t][j], limit)
    {
      if j != i {
        CappedRefl(subs[j], limit);
      }
    }
  }

  lemma {:induction false} GenSeqCaps(limit: GoInt, subs: seq<Node>, src: Source, pos: nat)
    requires GenSeq(limit, subs, src, pos).Ok?
    ensures CappedSeq(subs, GenSeq(limit, subs, src, pos).value.tree, limit)
    decreases SeqSize(subs), 1, 0
  {
    if subs != [] {
      var a := Gen(limit, subs[0], src, pos).value;
      var b := GenSeq(limit, subs[1..], src, a.next).value;
      GenCaps(limit, subs[0], src, pos);
      GenSeqCaps(limit, subs[1..], src, a.next);
      var t := [a.tree] + b.tree;
      forall j | 0 <= j < |subs|
        ensures Capped(subs[j], t[j], limit)
      {
        if j > 0 {
          assert subs[j] == subs[1..][j - 1] && t[j] == b.tree[j - 1];
        }
      }
    }
  }

  lemma {:induction false} GenTimesCaps(limit: GoInt, subs: seq<Node>, count: nat, src: Source, pos: nat)
    requires GenTimes(limit, subs, count, src, pos).Ok?
    ensures CappedSeq(subs, GenTimes(limit, subs, count, src, pos).value.tree, limit)
    decreases SeqSize(subs), 2, count
  {
    if count == 0 {
      CappedSeqRefl(subs, limit);
    } else {
      var a := GenSeq(limit, subs, src, pos).value;
      var b := GenTimes(limit, a.tree, count - 1, src, a.next).value;
      GenSeqCaps(limit, subs, src, pos);
      GenTimesCaps(limit, a.tree, count - 1, src, a.next);
      CappedSeqTrans(subs, a.tree, b.tree, limit);
    }
  }

  // ---------------------------------------------------------------------------
  // Caps at the same limit are invisible.

  /** Two outcomes agree on everything but the tree: the same panic, or the same
      text ending at the same position. */
  predicate SameRun<T>(o1: Outcome<Run<T>>, o2: Outcome<Run<T>>) {
    match o1
    case Panic(b) => o2 == Panic(b)
    case Ok(r1) => o2.Ok? && o2.value.text == r1.text && o2.value.next == r1.next
  }

  /** Generating from a capped form of a tree, with the limit it was capped at,
      yields the same text from the same draws, and the trees left behind are again
      related by capping. */
  lemma {:induction false} GenIgnoresCaps(limit: GoInt, orig: Node, now: Node, src: Source, pos: nat)
    requires Capped(orig, now, limit)
    ensures SameRun(Gen(limit, orig, src, pos), Gen(limit, now, src, pos))
    ensures Gen(limit, orig, src, pos).Ok? ==>
      Capped(Gen(limit, orig, src, pos).value.tree, Gen(limit, now, src, pos).value.tree, limit)
    decreases Size(orig), 0, 0
  {
    match orig
    case Capture(sub) =>
      assert now == Capture(now.sub);
      GenIgnoresCaps(limit, sub, now.sub, src, pos);
    case Star(subs) =>
      assert now == Star(now.subs);
      StarIgnoresCaps(limit, subs, now.subs, src, pos);
    case Plus(subs) =>
      assert now == Plus(now.subs);
      PlusIgnoresCaps(limit, subs, now.subs, src, pos);
    case Quest(subs) =>
      assert now == Quest(now.subs);
      QuestIgnoresCaps(limit, subs, now.subs, src, pos);
    case Repeat(subs, min, max) =>
      assert now == Repeat(now.subs, min, now.max);
      RepeatIgnoresCaps(limit, subs, min, max, now.subs, now.max, src, pos);
    case Concat(subs) =>
      assert now == Concat(now.subs);
      GenSeqIgnoresCaps(limit, subs, now.subs, src, pos);
    case Alternate(subs) =>
      assert now == Alternate(now.subs);
      AlternateIgnoresCaps(limit, subs, now.subs, src, pos);
    case _ =>
      assert now == orig;
      if Gen(limit, orig, src, pos).Ok? {
        CappedRefl(Gen(limit, orig, src, pos).value.tree, limit);
      }
  }

  /** The `*` case of `GenIgnoresCaps`: both trees draw the same count and repeat
      related children. */
  lemma {:induction false} StarIgnoresCaps(limit: GoInt, subs: seq<Node>, subs': seq<Node>, src: Source, pos: nat)
    requires CappedSeq(subs, subs', limit)
    ensures SameRun(Gen(limit, Star(subs), src, pos), Gen(limit, Star(subs'), src, pos))
    ensures Gen(limit, Star(subs), src, pos).Ok? ==>
      Capped(Gen(limit, Star(subs), src, pos).value.tree, Gen(limit, Star(subs'), src, pos).value.tree, limit)
    decreases SeqSize(subs), 3, 0
  {
    if limit >= 0 {
      GenTimesIgnoresCaps(limit, subs, subs', src(pos) % AddInt(limit, 1), src, pos + 1);
    }
  }

  /** The `+` case of `GenIgnoresCaps`. */
  lemma {:induction false} PlusIgnoresCaps(limit: GoInt, subs: seq<Node>, subs': seq<Node>, src: Source, pos: nat)
    requires CappedSeq(subs, subs', limit)
    ensures SameRun(Gen(limit, Plus(subs), src, pos), Gen(limit, Plus(subs'), src, pos))
    ensures Gen(limit, Plus(subs), src, pos).Ok? ==>
      Capped(Gen(limit, Plus(subs), src, pos).value.tree, Gen(limit, Plus(subs'), src, pos).value.tree, limit)
    decreases SeqSize(subs), 3, 0
  {
    if limit > 0 {
      GenTimesIgnoresCaps(limit, subs, subs', src(pos) % limit + 1, src, pos + 1);
    }
  }

  /** The `?` case of `GenIgnoresCaps`. */
  lemma {:induction false} QuestIgnoresCaps(limit: GoInt, subs: seq<Node>, subs': seq<Node>, src: Source, pos: nat)
    requires CappedSeq(subs, subs', limit)
    ensures SameRun(Gen(limit, Quest(subs), src, pos), Gen(limit, Quest(subs'), src, pos))
    ensures Gen(limit, Quest(subs), src, pos).Ok? ==>
      Capped(Gen(limit, Quest(subs), src, pos).value.tree, Gen(limit, Quest(subs'), src, pos).value.tree, limit)
    decreases SeqSize(subs), 3, 0
  {
    GenTimesIgnoresCaps(limit, subs, subs', src(pos) % 2, src, pos + 1);
  }

  /** The `{min,max}` case of `GenIgnoresCaps`: a maximum already capped at the
      limit caps to the same value, so the same count is drawn. */
  lemma {:induction false} RepeatIgnoresCaps(limit: GoInt, subs: seq<Node>, min: nat, max: int, subs': seq<Node>, max': int, src: Source, pos: nat)
    requires Capped(Repeat(subs, min, max), Repeat(subs', min, max'), limit)
    ensures SameRun(Gen(limit, Repeat(subs, min, max), src, pos), Gen(limit, Repeat(subs', min, max'), src, pos))
    ensures Gen(limit, Repeat(subs, min, max), src, pos).Ok? ==>
      Capped(Gen(limit, Repeat(subs, min, max), src, pos).value.tree, Gen(limit, Repeat(subs', min, max'), src, pos).value.tree, limit)
    decreases SeqSize(subs), 4, 0
  {
    var capped := CapMax(max, limit);
    assert CapMax(max', limit) == capped;
    if capped > min {
      RepeatCountIgnoresCaps(limit, subs, min, max, subs', max', min + src(pos) % (capped - min + 1), pos + 1, src, pos);
    } else {
      RepeatCountIgnoresCaps(limit, subs, min, max, subs', max', min, pos, src, pos);
    }
  }

  /** The step of `RepeatIgnoresCaps` after the count is known: `count` passes
      starting at `start`, where the two trees agree that the count comes from. */
  lemma {:induction false} RepeatCountIgnoresCaps(limit: GoInt, subs: seq<Node>, min: nat, max: int, subs': seq<Node>, max': int,
                                                  count: nat, start: nat, src: Source, pos: nat)
    requires CappedSeq(subs, subs', limit) && CapMax(max', limit) == CapMax(max, limit)
    requires var capped := CapMax(max, limit);
      if capped > min then count == min + src(pos) % (capped - min + 1) && start == pos + 1
      else count == min && start == pos
    ensures SameRun(Gen(limit, Repeat(subs, min, max), src, pos), Gen(limit, Repeat(subs', min, max'), src, pos))
    ensures Gen(limit, Repeat(subs, min, max), src, pos).Ok? ==>
      Capped(Gen(limit, Repeat(subs, min, max), src, pos).value.tree, Gen(limit, Repeat(subs', min, max'), src, pos).value.tree, limit)
    decreases SeqSize(subs), 3, 0
  {
    GenTimesIgnoresCaps(limit, subs, subs', count, src, start);
    var t1 := GenTimes(limit, subs, count, src, start);
    var t2 := GenTimes(limit, subs', count, src, start);
    if t1.Ok? {
      assert Capped(Repeat(t1.value.tree, min, CapMax(max, limit)), Repeat(t2.value.tree, min, CapMax(max, limit)), limit);
    }
  }

  /** The alternation case of `GenIgnoresCaps`: both trees choose the same branch. */
  lemma {:induction false} AlternateIgnoresCaps(limit: GoInt, subs: seq<Node>, subs': seq<Node>, src: Source, pos: nat)
    requires CappedSeq(subs, subs', limit)
    ensures SameRun(Gen(limit, Alternate(subs), src, pos), Gen(limit, Alternate(subs'), src, pos))
    ensures Gen(limit, Alternate(subs), src, pos).Ok? ==>
      Capped(Gen(limit, Alternate(subs), src, pos).value.tree, Gen(limit, Alternate(subs'), src, pos).value.tree, limit)
    decreases SeqSize(subs), 3, 0
  {
    if subs != [] {
      var i := src(pos) % |subs|;
      SeqSizeElem(subs, i);
      GenIgnoresCaps(limit, subs[i], subs'[i], src, pos + 1);
      var o1 := Gen(limit, subs[i], src, pos + 1);
      var o2 := Gen(limit, subs'[i], src, pos + 1);
      if o1.Ok? {
        var t1 := subs[i := o1.value.tree];
        var t2 := subs'[i := o2.value.tree];
        assert CappedSeq(t1, t2, limit);
      }
    }
  }

  lemma {:induction false} GenSeqIgnoresCaps(limit: GoInt, orig: seq<Node>, now: seq<Node>, src: Source, pos: nat)
    requires CappedSeq(orig, now, limit)
    ensures SameRun(GenSeq(limit, orig, src, pos), GenSeq(limit, now, src, pos))
    ensures GenSeq(limit, orig, src, pos).Ok? ==>
      CappedSeq(GenSeq(limit, orig, src, pos).value.tree, GenSeq(limit, now, src, pos).value.tree, limit)
    decreases SeqSize(orig), 1, 0
  {
    if orig != [] {
      GenIgnoresCaps(limit, orig[0], now[0], src, pos);
      var o1 := Gen(limit, orig[0], src, pos);
      var o2 := Gen(limit, now[0], src, pos);
      if o1.Ok? {
        assert CappedSeq(orig[1..], now[1..], limit) by {
          forall j | 0 <= j < |orig| - 1
            ensures Capped(orig[1..][j], now[1..][j], limit)
          {
            assert orig[1..][j] == orig[j + 1] && now[1..][j] == now[j + 1];
          }
        }
        GenSeqIgnoresCaps(limit, orig[1..], now[1..], src, o1.value.next);
        var b1 := GenSeq(limit, orig[1..], src, o1.value.next);
        var b2 := GenSeq(limit, now[1..], src, o1.value.next);
        if b1.Ok? {
          var t1 := [o1.value.tree] + b1.value.tree;
          var t2 := [o2.value.tree] + b2.value.tree;
          forall j | 0 <= j < |t1|
            ensures Capped(t1[j], t2[j], limit)
          {
            if j > 0 {
              assert t1[j] == b1.value.tree[j - 1] && t2[j] == b2.value.tree[j - 1];
            }
          }
        }
      }
    }
  }

  lemma {:induction false} GenTimesIgnoresCaps(limit: GoInt, orig: seq<Node>, now: seq<Node>, count: nat, src: Source, pos: nat)
    requires CappedSeq(orig, now, limit)
    ensures SameRun(GenTimes(limit, orig, count, src, pos), GenTimes(limit, now, count, src, pos))
    ensures GenTimes(limit, orig, count, src, pos).Ok? ==>
      CappedSeq(GenTimes(limit, orig, count, src, pos).value.tree, GenTimes(limit, now, count, src, pos).value.tree, limit)
    decreases SeqSize(orig), 2, count
  {
    if count > 0 {
      GenSeqIgnoresCaps(limit, orig, now, src, pos);
      var a1 := GenSeq(limit, orig, src, pos);
      var a2 := GenSeq(limit, now, src, pos);
      if a1.Ok? {
        GenTimesIgnoresCaps(limit, a1.value.tree, a2.value.tree, count - 1, src, a1.value.next);
      }
    }
  }

  /** The write-back is invisible as long as the limit does not change: running
      the generator again on the tree a run left behind gives, for every source,
      exactly what running it on the original tree gives. */
  lemma {:induction false} Regenerate(limit: GoInt, re: Node, src: Source, pos: nat, src2: Source, pos2: nat)
    requires Gen(limit, re, src, pos).Ok?
    ensures SameRun(Gen(limit, re, src2, pos2), Gen(limit, Gen(limit, re, src, pos).value.tree, src2, pos2))
  {
    GenCaps(limit, re, src, pos);
    GenIgnoresCaps(limit, re, Gen(limit, re, src, pos).value.tree, src2, pos2);
  }
}
