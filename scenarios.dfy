/** Concrete patterns, as the parser would hand them to the generator, and what
    the generator makes of them for every source. */
module Scenarios {
  import opened Syntax
  import opened Ints
  import opened Random
  import opened Alphabet
  import opened Classes
  import opened Generator
  import opened Properties

  /** The code points of an ASCII string. */
  function Runes(s: string): (r: seq<Rune>)
    ensures |r| == |s| && forall i :: 0 <= i < |s| ==> r[i] == s[i] as Rune
  {
    seq(|s|, i requires 0 <= i < |s| => s[i] as Rune)
  }

  /** Converting a concatenation is concatenating the conversions. */
  lemma {:induction false} RunesAppend(s: string, t: string)
    ensures Runes(s + t) == Runes(s) + Runes(t)
  {
    assert forall i :: 0 <= i < |s + t| ==> Runes(s + t)[i] == (Runes(s) + Runes(t))[i];
  }

  /** `\d`. */
  const Digit: Node := CharClass([RuneRange('0' as Rune, '9' as Rune)])

  /** `^\d+$`. */
  const Digits: Node := Concat([BeginText, Plus([Digit]), EndText])

  /** `\d` is a bounded class of ten code points that never panics. */
  lemma DigitIsSafe()
    ensures Safe(Digit) && !Unbounded(Digit.ranges)
    ensures forall c :: InClass(c, Digit.ranges) <==> '0' as Rune <= c <= '9' as Rune
  {
    assert Digit.ranges[0].hi != RuneRangeEnd;
  }

  /** With limit 10, `\d+` yields between one and ten decimal digits. */
  lemma {:induction false} DigitRunYieldsDigits(src: Source, pos: nat)
    ensures var o := Gen(10, Plus([Digit]), src, pos);
      o.Ok? && 1 <= |o.value.text| <= 10
      && forall j :: 0 <= j < |o.value.text| ==> '0' as Rune <= o.value.text[j] <= '9' as Rune
  {
    DigitIsSafe();
    RepeatedSafeRune(10, Plus([Digit]), src, pos);
    RepeatedRune(10, Plus([Digit]), src, pos);
  }

  /** With limit 10, `^\d+$` always yields between one and ten decimal digits:
      the anchors contribute nothing. */
  lemma {:induction false} DigitsYieldDigits(src: Source, pos: nat)
    ensures var o := Gen(10, Digits, src, pos);
      o.Ok? && 1 <= |o.value.text| <= 10
      && forall j :: 0 <= j < |o.value.text| ==> '0' as Rune <= o.value.text[j] <= '9' as Rune
  {
    DigitRunYieldsDigits(src, pos);
    AnchoredIsTransparent(10, Plus([Digit]), src, pos);
  }

  /** `Z{2,5}`. */
  const Zs: Node := Repeat([Literal(['Z' as Rune])], 2, 5)

  /** With limit 10, `Z{2,5}` yields two to five Z's. */
  lemma {:induction false} ZsUnderLimitTen(src: Source, pos: nat)
    ensures var o := Gen(10, Zs, src, pos);
      o.Ok? && 2 <= |o.value.text| <= 5 && forall j :: 0 <= j < |o.value.text| ==> o.value.text[j] == 'Z' as Rune
  {
    RepeatedSafeRune(10, Zs, src, pos);
    RepeatedRune(10, Zs, src, pos);
  }

  /** With limit 1 the maximum is capped below the minimum: `Z{2,5}` yields exactly
      "ZZ" without drawing, and the node is left as `Z{2,1}`. */
  lemma {:induction false} ZsUnderLimitOne(src: Source, pos: nat)
    ensures Gen(1, Zs, src, pos) == Ok(Run(Runes("ZZ"), Repeat([Literal(['Z' as Rune])], 2, 1), pos))
  {
    TimesLiteral(1, ['Z' as Rune], 2, src, pos);
    CopiesOfOne('Z' as Rune, 2);
    assert Copies(['Z' as Rune], 2) == Runes("ZZ");
  }

  /** The cap outlives the call: later generations from the written-back node
      `Z{2,1}`, even with limit 10, still yield only "ZZ", without drawing. */
  lemma {:induction false} ZsCapOutlivesTheCall(src: Source, pos: nat)
    ensures Gen(10, Repeat([Literal(['Z' as Rune])], 2, 1), src, pos) ==
      Ok(Run(Runes("ZZ"), Repeat([Literal(['Z' as Rune])], 2, 1), pos))
  {
    TimesLiteral(10, ['Z' as Rune], 2, src, pos);
    CopiesOfOne('Z' as Rune, 2);
    assert Copies(['Z' as Rune], 2) == Runes("ZZ");
  }

  /** The original node, with limit 10, yields five Z's when the draw is 3: the cap
      to 1 is what takes these longer strings away. */
  lemma {:induction false} ZsCanYieldFive(src: Source, pos: nat)
    ensures var o := Gen(10, Zs, Override(src, pos, 3), pos);
      o.Ok? && o.value.text == Runes("ZZZZZ")
  {
    var src' := Override(src, pos, 3);
    DrawCovers(src, pos, 4, 3);
    TimesLiteral(10, ['Z' as Rune], 5, src', pos + 1);
    CopiesOfOne('Z' as Rune, 5);
    assert Copies(['Z' as Rune], 5) == Runes("ZZZZZ");
  }

  /** `(ab|bc)`. */
  const AbOrBc: Node := Capture(Alternate([Literal(Runes("ab")), Literal(Runes("bc"))]))

  /** `(ab|bc)def`. */
  const AbOrBcDef: Node := Concat([AbOrBc, Literal(Runes("def"))])

  /** `(ab|bc)` yields "ab" or "bc" after one draw, and leaves its tree as it was. */
  lemma {:induction false} AbOrBcYields(limit: GoInt, src: Source, pos: nat)
    ensures Gen(limit, AbOrBc, src, pos) ==
      Ok(Run(if src(pos) % 2 == 0 then Runes("ab") else Runes("bc"), AbOrBc, pos + 1))
  {
    var subs := [Literal(Runes("ab")), Literal(Runes("bc"))];
    var i := src(pos) % 2;
    assert subs[i := subs[i]] == subs;
  }

  /** A node followed by a literal yields the node's text followed by the
      literal's runes, and draws only what the node draws. */
  lemma {:induction false} ThenLiteral(limit: GoInt, x: Node, runes: seq<Rune>, src: Source, pos: nat)
    ensures Gen(limit, Concat([x, Literal(runes)]), src, pos) ==
      match Gen(limit, x, src, pos)
      case Ok(a) => Ok(Run(a.text + runes, Concat([a.tree, Literal(runes)]), a.next))
      case Panic(b) => Panic(b)
  {
    var lit := Literal(runes);
    assert [x, lit][0] == x && [x, lit][1..] == [lit];
    match Gen(limit, x, src, pos)
    case Ok(a) =>
      GenSeqSingle(limit, lit, src, a.next);
      assert [a.tree] + [lit] == [a.tree, lit];
    case Panic(_) =>
  }

  /** `(ab|bc)def` makes one draw, yields the chosen branch followed by "def", and
      leaves its tree as it was. */
  lemma {:induction false} AbOrBcDefRun(limit: GoInt, src: Source, pos: nat)
    ensures Gen(limit, AbOrBcDef, src, pos) ==
      Ok(Run(Runes(if src(pos) % 2 == 0 then "ab" else "bc") + Runes("def"), AbOrBcDef, pos + 1))
  {
    AbOrBcYields(limit, src, pos);
    ThenLiteral(limit, AbOrBc, Runes("def"), src, pos);
  }

  /** `(ab|bc)def` yields "abdef" or "bcdef", whatever the limit. */
  lemma {:induction false} AbOrBcDefYields(limit: GoInt, src: Source, pos: nat)
    ensures var o := Gen(limit, AbOrBcDef, src, pos);
      o.Ok? && (o.value.text == Runes("abdef") || o.value.text == Runes("bcdef"))
  {
    AbOrBcDefRun(limit, src, pos);
    RunesAppend("ab", "def");
    RunesAppend("bc", "def");
    assert "ab" + "def" == "abdef" && "bc" + "def" == "bcdef";
  }

  /** `[^1]`, as the parser represents it: everything below and above '1'. */
  const NotOne: Node := CharClass([RuneRange(0, '0' as Rune), RuneRange('2' as Rune, RuneRangeEnd)])

  /** `[^1]` is unbounded, holds the printable '0' and excludes '1'. */
  lemma NotOneIsSafe()
    ensures Safe(NotOne) && Unbounded(NotOne.ranges) && !InClass('1' as Rune, NotOne.ranges)
  {
    assert NotOne.ranges[1].hi == RuneRangeEnd;
    assert NotOne.ranges[0].lo <= '0' as Rune <= NotOne.ranges[0].hi;
    assert PrintableChars[0] == '0';
    assert '0' in PrintableChars && InClass('0' as Rune, NotOne.ranges);
  }

  /** `[^1]{3,5}` with limit 10 never panics. */
  lemma {:induction false} NotOneSucceeds(src: Source, pos: nat)
    ensures Gen(10, Repeat([NotOne], 3, 5), src, pos).Ok?
  {
    NotOneIsSafe();
    RepeatedSafeRune(10, Repeat([NotOne], 3, 5), src, pos);
  }

  /** `[^1]{3,5}` with limit 10 yields three to five printable characters, none
      of them '1': the class is unbounded, so it samples the printable alphabet. */
  lemma {:induction false} NotOneYields(src: Source, pos: nat)
    ensures var o := Gen(10, Repeat([NotOne], 3, 5), src, pos);
      o.Ok? && 3 <= |o.value.text| <= 5
      && forall j :: 0 <= j < |o.value.text| ==> Printable(o.value.text[j]) && o.value.text[j] != '1' as Rune
  {
    var re := Repeat([NotOne], 3, 5);
    NotOneSucceeds(src, pos);
    NotOneIsSafe();
    RepeatedRune(10, re, src, pos);
    var text := Gen(10, re, src, pos).value.text;
    forall j | 0 <= j < |text|
      ensures Printable(text[j]) && text[j] != '1' as Rune
    {
      assert Accepts(NotOne, text[j]);
    }
  }
}
