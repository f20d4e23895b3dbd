/** The generator as the package runs it (reggen.go:15-161): one recursive
    procedure over the tree that accumulates its text in loops and advances a
    shared random source, and the two exported entry points. Every procedure is
    proved to produce exactly what the functions of module Generator describe. */
module Reggen {
  import opened Syntax
  import opened Ints
  import opened Random
  import opened Alphabet
  import opened Classes
  import opened Generator

  /** The per-call configuration: how many times Star, Plus and a large Repeat
      may repeat. */
  datatype State = State(limit: GoInt)

  /** A pass's text placed in front of the outcome of what remains of a loop. */
  function Resume(text: seq<Rune>, trees: seq<Node>, o: Outcome<Run<seq<Node>>>): Outcome<Run<seq<Node>>> {
    match o
    case Ok(b) => Ok(Run(text + b.text, trees + b.tree, b.next))
    case Panic(n) => Panic(n)
  }

  /** Text already produced placed in front of the outcome of the remaining passes. */
  function ResumeText(text: seq<Rune>, o: Outcome<Run<seq<Node>>>): Outcome<Run<seq<Node>>> {
    match o
    case Ok(b) => Ok(Run(text + b.text, b.tree, b.next))
    case Panic(n) => Panic(n)
  }

  lemma {:induction false} ResumeNothing(o: Outcome<Run<seq<Node>>>)
    ensures Resume([], [], o) == o && ResumeText([], o) == o
  {
    match o
    case Ok(b) => assert [] + b.text == b.text && [] + b.tree == b.tree;
    case Panic(_) =>
  }

  lemma {:induction false} ResumeTwice(t1: seq<Rune>, ts1: seq<Node>, t2: seq<Rune>, ts2: seq<Node>, o: Outcome<Run<seq<Node>>>)
    ensures Resume(t1, ts1, Resume(t2, ts2, o)) == Resume(t1 + t2, ts1 + ts2, o)
    ensures ResumeText(t1, ResumeText(t2, o)) == ResumeText(t1 + t2, o)
  {
    match o
    case Ok(b) =>
      assert t1 + (t2 + b.text) == (t1 + t2) + b.text;
      assert ts1 + (ts2 + b.tree) == (ts1 + ts2) + b.tree;
    case Panic(_) =>
  }

  /** The recursive generator `generate`: the text for `re`, the tree as the call
      leaves it, and the random source advanced by one step per draw. */
  method GenerateNode(s: State, re: Node, rng: Rand) returns (o: Outcome<Run<Node>>)
    modifies rng
    ensures o == Gen(s.limit, re, rng.src, old(rng.pos))
    ensures o.Ok? ==> rng.pos == o.value.next
    decreases Size(re), 0, 0
  {
    match re {
      case NoMatch =>
        o := Ok(Run([], re, rng.pos));
      case EmptyMatch =>
        o := Ok(Run([], re, rng.pos));
      case Literal(runes) =>
        var res := GenerateLiteral(runes);
        o := Ok(Run(res, re, rng.pos));
      case CharClass(ranges) =>
        var p := GenerateClass(ranges, rng);
        if p.Panic? {
          return Panic(p.bound);
        }
        o := Ok(Run([p.value], re, rng.pos));
      case AnyCharNotNL =>
        var i := rng.Intn(|PrintableCharsNoNL|);
        o := Ok(Run([PrintableCharsNoNL[i.value] as Rune], re, rng.pos));
      case AnyChar =>
        var i := rng.Intn(|PrintableChars|);
        o := Ok(Run([PrintableChars[i.value] as Rune], re, rng.pos));
      case BeginLine =>
        o := Ok(Run([], re, rng.pos));
      case EndLine =>
        o := Ok(Run([], re, rng.pos));
      case BeginText =>
        o := Ok(Run([], re, rng.pos));
      case EndText =>
        o := Ok(Run([], re, rng.pos));
      case WordBoundary =>
        o := Ok(Run([], re, rng.pos));
      case NoWordBoundary =>
        o := Ok(Run([], re, rng.pos));
      case Capture(sub) =>
        var r := GenerateNode(s, sub, rng);
        if r.Panic? {
          return Panic(r.bound);
        }
        o := Ok(Run(r.value.text, Capture(r.value.tree), r.value.next));
      case Star(_) =>
        o := GenerateLoop(s, re, rng);
      case Plus(_) =>
        o := GenerateLoop(s, re, rng);
      case Quest(_) =>
        o := GenerateLoop(s, re, rng);
      case Repeat(subs, min, max) =>
        o := GenerateRepeat(s, subs, min, max, rng);
      case Concat(subs) =>
        var r := GenerateSeq(s, subs, rng);
        if r.Panic? {
          return Panic(r.bound);
        }
        o := Ok(Run(r.value.text, Concat(r.value.tree), r.value.next));
      case Alternate(subs) =>
        o := GenerateAlternate(s, subs, rng);
    }
  }

  /** The Star, Plus and Quest cases: draw the count (below Go's `limit + 1`, one
      more than a draw below `limit`, or below 2), then make that many passes. */
  method GenerateLoop(s: State, re: Node, rng: Rand) returns (o: Outcome<Run<Node>>)
    requires re.Star? || re.Plus? || re.Quest?
    modifies rng
    ensures o == Gen(s.limit, re, rng.src, old(rng.pos))
    ensures o.Ok? ==> rng.pos == o.value.next
    decreases SeqSize(re.subs), 3, 0
  {
    var bound := if re.Star? then AddInt(s.limit, 1) else if re.Plus? then s.limit else 2;
    var c := rng.Intn(bound);
    if c.Panic? {
      return Panic(c.bound);
    }
    var count := if re.Plus? then c.value + 1 else c.value;
    var r := GenerateTimes(s, re.subs, count, rng);
    if r.Panic? {
      return Panic(r.bound);
    }
    var tree := match re
      case Star(_) => Star(r.value.tree)
      case Plus(_) => Plus(r.value.tree)
      case Quest(_) => Quest(r.value.tree);
    o := Ok(Run(r.value.text, tree, r.value.next));
  }

  /** The Repeat case: the node's maximum is lowered to the limit before anything
      is drawn, and the count is drawn only when that leaves room above `min`. */
  method GenerateRepeat(s: State, subs: seq<Node>, min: nat, max: int, rng: Rand) returns (o: Outcome<Run<Node>>)
    modifies rng
    ensures o == Gen(s.limit, Repeat(subs, min, max), rng.src, old(rng.pos))
    ensures o.Ok? ==> rng.pos == o.value.next
    decreases SeqSize(subs), 3, 0
  {
    var capped := CapMax(max, s.limit);
    var count := 0;
    if capped > min {
      var c := rng.Intn(capped - min + 1);
      count := c.value;
    }
    // The source's guard `i < Min || i < Min + count` is `i < Min + count`,
    // since the drawn count is never negative.
    var r := GenerateTimes(s, subs, min + count, rng);
    if r.Panic? {
      return Panic(r.bound);
    }
    o := Ok(Run(r.value.text, Repeat(r.value.tree, min, capped), r.value.next));
  }

  /** The Alternate case: one branch, chosen by a draw, is generated. */
  method GenerateAlternate(s: State, subs: seq<Node>, rng: Rand) returns (o: Outcome<Run<Node>>)
    modifies rng
    ensures o == Gen(s.limit, Alternate(subs), rng.src, old(rng.pos))
    ensures o.Ok? ==> rng.pos == o.value.next
    decreases SeqSize(subs), 3, 0
  {
    var i := rng.Intn(|subs|);
    if i.Panic? {
      return Panic(i.bound);
    }
    SeqSizeElem(subs, i.value);
    var r := GenerateNode(s, subs[i.value], rng);
    if r.Panic? {
      return Panic(r.bound);
    }
    SeqSizeUpdate(subs, i.value, r.value.tree);
    o := Ok(Run(r.value.text, Alternate(subs[i.value := r.value.tree]), r.value.next));
  }

  /** The Literal case: the node's runes, one by one. */
  method GenerateLiteral(runes: seq<Rune>) returns (res: seq<Rune>)
    ensures res == runes
  {
    res := [];
    for i := 0 to |runes|
      invariant res == runes[..i]
    {
      res := res + [runes[i]];
    }
    assert runes[..|runes|] == runes;
  }

  /** The CharClass case: count the class, and either draw among the printable
      characters it contains or map a drawn index through its ranges. */
  method GenerateClass(ranges: seq<RuneRange>, rng: Rand) returns (o: Outcome<Rune>)
    modifies rng
    ensures match SampleClass(ranges, rng.src, old(rng.pos))
      case Ok(p) => o == Ok(p.rune) && rng.pos == p.next
      case Panic(n) => o == Panic(n)
  {
    var sum := CountClass(ranges);
    if sum == -1 {
      var possible := FilterChars(PrintableChars, ranges);
      if |possible| > 0 {
        var i := rng.Intn(|possible|);
        return Ok(possible[i.value] as Rune);
      }
    }
    var r := rng.Intn(sum);
    if r.Panic? {
      return Panic(r.bound);
    }
    var ru := PickRune(ranges, r.value);
    o := Ok(ru);
  }

  /** The loop `for _, r := range re.Sub { res += generate(s, r, rand) }`: the
      children in order, each replaced by the tree its generation leaves. */
  method GenerateSeq(s: State, subs: seq<Node>, rng: Rand) returns (o: Outcome<Run<seq<Node>>>)
    modifies rng
    ensures o == GenSeq(s.limit, subs, rng.src, old(rng.pos))
    ensures o.Ok? ==> rng.pos == o.value.next
    decreases SeqSize(subs), 1, 0
  {
    var res: seq<Rune> := [];
    var cur := subs;
    ResumeNothing(GenSeq(s.limit, subs, rng.src, rng.pos));
    assert subs[0..] == subs && cur[..0] == [];
    for k := 0 to |subs|
      invariant |cur| == |subs| && cur[k..] == subs[k..]
      invariant GenSeq(s.limit, subs, rng.src, old(rng.pos))
        == Resume(res, cur[..k], GenSeq(s.limit, subs[k..], rng.src, rng.pos))
    {
      assert subs[k..][0] == subs[k] && subs[k..][1..] == subs[k + 1..];
      SeqSizeElem(subs, k);
      var r := GenerateNode(s, subs[k], rng);
      if r.Panic? {
        return Panic(r.bound);
      }
      ghost var rest := GenSeq(s.limit, subs[k + 1..], rng.src, rng.pos);
      ghost var done := cur[..k];
      ResumeTwice(res, done, r.value.text, [r.value.tree], rest);
      res := res + r.value.text;
      cur := cur[k := r.value.tree];
      assert cur[..k + 1] == done + [r.value.tree];
    }
    assert subs[|subs|..] == [] && cur[..|subs|] == cur && res + [] == res && cur + [] == cur;
    o := Ok(Run(res, cur, rng.pos));
  }

  /** The loop `for i := 0; i < count; i++ { ...one pass over re.Sub... }`. */
  method GenerateTimes(s: State, subs: seq<Node>, count: nat, rng: Rand) returns (o: Outcome<Run<seq<Node>>>)
    modifies rng
    ensures o == GenTimes(s.limit, subs, count, rng.src, old(rng.pos))
    ensures o.Ok? ==> rng.pos == o.value.next
    decreases SeqSize(subs), 2, 0
  {
    var res: seq<Rune> := [];
    var cur := subs;
    ResumeNothing(GenTimes(s.limit, subs, count, rng.src, rng.pos));
    for i := 0 to count
      invariant |cur| == |subs| && SeqSize(cur) == SeqSize(subs)
      invariant GenTimes(s.limit, subs, count, rng.src, old(rng.pos))
        == ResumeText(res, GenTimes(s.limit, cur, count - i, rng.src, rng.pos))
    {
      var r := GenerateSeq(s, cur, rng);
      if r.Panic? {
        return Panic(r.bound);
      }
      ResumeTwice(res, [], r.value.text, [], GenTimes(s.limit, r.value.tree, count - i - 1, rng.src, rng.pos));
      res := res + r.value.text;
      cur := r.value.tree;
    }
    assert res + [] == res;
    o := Ok(Run(res, cur, rng.pos));
  }

  /** `Generate`: generation with a fresh state holding the caller's limit. */
  method Generate(re: Node, limit: GoInt, rng: Rand) returns (o: Outcome<Run<Node>>)
    modifies rng
    ensures o == Gen(limit, re, rng.src, old(rng.pos))
    ensures o.Ok? ==> rng.pos == o.value.next
  {
    o := GenerateNode(State(limit), re, rng);
  }

  /** What the external parser returns for a pattern. */
  datatype Parsed = Parsed(re: Node) | ParseError(message: string)

  /** Go's `error` result: nil, or the parser's error. */
  datatype Error = Nil | Error(message: string)

  /** The pair `(string, error)` returned by `GenerateFromString`. */
  datatype Output = Output(text: seq<Rune>, err: Error)

  /** `GenerateFromString` over an abstract parser: a parse error is returned with
      empty text and nothing drawn; otherwise the parsed tree is generated. */
  method GenerateFromString(pattern: string, limit: GoInt, rng: Rand, parse: string -> Parsed)
    returns (o: Outcome<Output>)
    modifies rng
    ensures parse(pattern).ParseError? ==>
      o == Ok(Output([], Error(parse(pattern).message))) && rng.pos == old(rng.pos)
    ensures parse(pattern).Parsed? ==>
      match Gen(limit, parse(pattern).re, rng.src, old(rng.pos))
      case Ok(r) => o == Ok(Output(r.text, Nil)) && rng.pos == r.next
      case Panic(n) => o == Panic(n)
  {
    var regex := parse(pattern);
    if regex.ParseError? {
      return Ok(Output([], Error(regex.message)));
    }
    var r := Generate(regex.re, limit, rng);
    if r.Panic? {
      return Panic(r.bound);
    }
    o := Ok(Output(r.value.text, Nil));
  }

  /** Two generators seeded alike give the same results, call after call: the
      source's only randomness is the stream of raw values. The calls stop at the
      first panic, which in the source ends the program. */
  method SameSeedSameResults(pattern: string, limit: GoInt, parse: string -> Parsed, src: Source, rounds: nat)
    returns (first: seq<Outcome<Output>>, second: seq<Outcome<Output>>)
    ensures first == second && |first| <= rounds
    ensures forall k :: 0 <= k < |first| - 1 ==> first[k].Ok?
    ensures |first| < rounds ==> |first| > 0 && first[|first| - 1].Panic?
  {
    var rng1 := new Rand(src);
    var rng2 := new Rand(src);
    first, second := [], [];
    var i := 0;
    while i < rounds
      invariant i <= rounds && |first| == i && first == second
      invariant rng1.src == rng2.src && rng1.pos == rng2.pos
      invariant forall k :: 0 <= k < i ==> first[k].Ok?
    {
      var o1 := GenerateFromString(pattern, limit, rng1, parse);
      var o2 := GenerateFromString(pattern, limit, rng2, parse);
      first, second := first + [o1], second + [o2];
      if o1.Panic? {
        return;
      }
      i := i + 1;
    }
  }
}
