# reggen in Dafny

A model of the `reggen` package, which generates random strings that match a
regular expression. The package walks the syntax tree produced by Go's
`regexp/syntax` parser and emits text for each node:

- literals are copied;
- a character class yields one of its code points;
- `.` and `(?s).` yield one character of a fixed printable alphabet;
- anchors and word boundaries yield nothing;
- a group yields what its child yields;
- a concatenation yields its children in order;
- an alternation yields one randomly chosen branch;
- `*`, `+`, `?` and `{min,max}` repeat their children a random number of times, bounded by a caller-supplied limit.

Every random choice is one call of `rand.Intn` on a caller-supplied generator.

The model has two layers:

- **Specification functions** (module `Generator`). `Gen`, `GenSeq` and `GenTimes` say what one call produces. Their inputs are the limit, the tree, and the raw values the random source will yield from a given position on. Each result carries the text, the next unread position, and the tree as the call leaves it. A `{min,max}` node that is visited has its maximum lowered to the limit in place (reggen.go:123).
- **Imperative procedures** (module `Reggen`). These follow the source's loops over a `Rand` object whose position advances by one per draw. Each is proved to return exactly what the specification functions describe.

Module `Ints` holds Go's 64-bit `int` and its wrapping addition. Module `Classes` holds the class-sampling loops and what they mean. `Properties`, `Reproducibility` and `WriteBack` prove what the generator promises. `Scenarios` works through patterns from the package's own test cases.

Modelling choices:

- **Random source.** It is the stream of raw values it produces (`nat -> nat`). `Intn(n)` reads the next value modulo `n` and panics when `n <= 0`, as Go's `rand.Intn` does.
- **Integer width.** The limit is Go's `int`, taken as 64 bits wide (`Ints.GoInt`). `*` draws below Go's `limit + 1`, which wraps around to the least `int` when the limit is the greatest one. The model computes that sum with `Ints.AddInt`, so `*` panics there as the source does (see Findings).
- **Panics.** A panic is the `Panic(bound)` outcome. It propagates through every enclosing node, as a Go panic unwinds the recursion. It records only the bound, not what was drawn or written back before it (see Left out).
- **Degenerate classes.** One might expect an unbounded class with no printable member to yield the empty string. The code instead falls through to `rand.Intn(-1)`, which panics. The model follows the code (`Classes.SampleDegenerate`).
- **Tree mutation.** One might expect the tree to be read-only. The code lowers `Repeat.Max` in place, and the model follows the code (module `WriteBack`).

## Model

| member | source | states |
|---|---|---|
| Ints.AddInt | reggen.go:91 | Go's `+` on a 64-bit `int`: the one value in range congruent to the exact sum modulo 2^64, equal to it when it fits |
| Random.Draw | reggen.go:61 | `rand.Intn(n)` panics exactly when `n <= 0`, with that bound; otherwise yields a value in [0, n) and consumes one raw value |
| Random.DrawCovers | reggen.go:142 | every value below the bound is drawn by some source, so no choice the generator makes is out of reach |
| Random.Rand.Intn | reggen.go:61 | the method draws what `Draw` describes and advances the position by one, or panics and leaves it unchanged |
| Alphabet.AlphabetFacts | reggen.go:11-13 | the printable alphabet has 98 characters and ends in newline and carriage return; the alphabet without those two has 96 characters, all tabs or visible ASCII, none a newline or carriage return |
| Classes.Offset | reggen.go:33-40 | the width of the ranges before range k, at least k when every range is non-empty |
| Classes.Total | reggen.go:33-40 | the width of all ranges, at least their number when every range is non-empty |
| Classes.ClassSum | reggen.go:33-40 | the count the class case draws below: -1 exactly for a class with a range reaching U+10FFFF, otherwise at least the number of ranges |
| Classes.PickFrom | reggen.go:64-71 | the index-mapping loop resumed at a range: the rune is either the zero value or lies in some range from there on |
| Classes.Pick | reggen.go:62-71 | the code point a drawn index stands for is either the zero value or a member of the class |
| Classes.SampleClass | reggen.go:31-72 | the class case draws once when it succeeds, and panics only with the non-positive count it drew below |
| Classes.Filter | reggen.go:43-54 | the filtered characters are exactly the printable characters that lie in some range of the class |
| Classes.CountClass | reggen.go:33-40 | the counting loop leaves -1 for a class with a range reaching U+10FFFF and the total width otherwise |
| Classes.FilterChars | reggen.go:43-54 | the outer filter loop collects exactly the characters that `Filter` keeps, in order |
| Classes.InRanges | reggen.go:48-53 | the inner loop answers whether the character lies in some range of the class |
| Classes.PickRune | reggen.go:62-71 | the index-mapping loop computes the rune that `Pick` specifies |
| Classes.PickInRange | reggen.go:64-71 | an index inside range k's window maps to the code point at the same distance from that range's start, which lies in the range |
| Classes.PickSelects | reggen.go:61-72 | every index below the class total selects the first range whose end passes it and maps to a member of the class |
| Classes.PickReaches | reggen.go:61-72 | every member of a well-formed class is the image of some index below the total |
| Classes.SampleBounded | reggen.go:61-72 | a bounded non-empty class draws once, below its total, and yields a member of the class |
| Classes.SampleEmpty | reggen.go:61 | a class without ranges panics with bound 0 |
| Classes.SampleUnbounded | reggen.go:42-59 | an unbounded class with a printable member draws once and yields a printable character of the class |
| Classes.SampleUnboundedReaches | reggen.go:42-59 | every printable character of an unbounded class is yielded for some source |
| Classes.SampleDegenerate | reggen.go:42-61 | an unbounded class with no printable member panics with bound -1 |
| Generator.CapMax | reggen.go:123 | the written-back maximum is the smaller of the old maximum and the limit |
| Generator.SaturatingStarBound | reggen.go:91 | the bound `*` evidently intends: positive and at most one more than any non-negative limit, and equal to the source's bound at every limit but the greatest |
| Generator.Gen | reggen.go:19-148 | a successful generation never moves the source backwards and leaves a tree of the same size |
| Generator.Leaf | reggen.go:22-85 | a node without children never moves the source backwards and is left as it was |
| Generator.GenSeq | reggen.go:134-140 | a successful pass keeps the number and total size of the children |
| Generator.GenTimes | reggen.go:92-96 | repeated passes keep the number and total size of the children |
| Reggen.State | reggen.go:15-17 | the state threaded through one generation holds only the caller's limit, a 64-bit `int` |
| Reggen.GenerateNode | reggen.go:19-148 | the recursive procedure returns what `Gen` specifies and leaves the source at the next unread position |
| Reggen.GenerateLoop | reggen.go:88-118 | the Star, Plus and Quest cases draw the count below Go's wrapping `limit + 1`, as one more than a draw below `limit`, or below 2, and return what `Gen` specifies |
| Reggen.GenerateRepeat | reggen.go:119-133 | the Repeat case lowers the maximum to the limit, draws a count only when that leaves room above the minimum, and returns what `Gen` specifies |
| Reggen.GenerateAlternate | reggen.go:141-143 | the Alternate case draws a branch and returns what `Gen` specifies |
| Reggen.GenerateLiteral | reggen.go:25-30 | the rune-by-rune loop reproduces the literal's runes |
| Reggen.GenerateClass | reggen.go:31-72 | the class case returns what `SampleClass` specifies, advancing the source by the draws it made |
| Reggen.GenerateSeq | reggen.go:137-139 | the loop over the children returns what `GenSeq` specifies |
| Reggen.GenerateTimes | reggen.go:92-96 | the counted loop of passes returns what `GenTimes` specifies |
| Reggen.Generate | reggen.go:152-154 | `Generate` with a fresh state returns what `Gen` specifies for the caller's limit |
| Reggen.GenerateFromString | reggen.go:156-161 | a parse error is returned with empty text and no draw; otherwise the parsed tree is generated with a nil error |
| Reggen.SameSeedSameResults | reggen_test.go:55-68 | two generators seeded alike return equal results on every call, up to the first panic |
| Reproducibility.GenWindow | reggen.go:19-148 | a successful generation depends only on the raw values it consumed: any source agreeing on that window gives the same text, tree and position |
| Reproducibility.RepeatWindow | reggen.go:119-133 | the same for a `{min,max}` node |
| Reproducibility.RepeatCountWindow | reggen.go:119-133 | once both sources have drawn the same count, the passes read the same values and agree |
| Reproducibility.GenSeqWindow | reggen.go:134-140 | the same for a sequence of children |
| Reproducibility.GenTimesWindow | reggen.go:92-96 | the same for repeated passes |
| Properties.LeafIsFixed | reggen.go:22-30 | no-match and empty-match nodes yield nothing and a literal yields its runes, all without drawing |
| Properties.AssertionYieldsNothing | reggen.go:80-85 | the six assertions yield nothing, draw nothing and leave the node unchanged |
| Properties.CaptureIsTransparent | reggen.go:86-87 | a group yields exactly what its child yields, panics included |
| Properties.GenSeqSingle | reggen.go:134-140 | a one-child sequence yields what the child yields |
| Properties.AnchoredIsTransparent | reggen.go:82-83 | `^x$` yields exactly what `x` yields |
| Properties.LeadingBeginText | reggen.go:82-83 | a `^` in front of a sequence changes nothing in what it yields |
| Properties.TrailingEndText | reggen.go:82-83 | a `$` after a single child changes nothing in what it yields |
| Properties.ConcatInOrder | reggen.go:134-140 | splitting a concatenation's children anywhere splits the text there; the second part starts from the draws the first left |
| Properties.AlternatePicksOne | reggen.go:141-143 | an alternation draws below its branch count and yields only the chosen branch, whose subtree alone may change; no branches panics with bound 0 |
| Properties.AlternateReachesEveryBranch | reggen.go:141-143 | every branch is chosen by some source and then yields what it yields from the same later draws |
| Properties.RepetitionCount | reggen.go:88-133 | a successful repetition makes a number of passes within the operator's range (`*` 0..limit, `+` 1..limit, `?` 0..1, `{min,max}` min..max(min, min(max, limit))), one draw spent on the count unless the capped maximum does not exceed min |
| Properties.StarCountReachable | reggen.go:88-97 | every count from 0 to the limit is drawn by some source, for every limit below the greatest `int` |
| Properties.PlusCountReachable | reggen.go:98-107 | every count from 1 to the limit is drawn by some source |
| Properties.QuestCountReachable | reggen.go:108-118 | both counts 0 and 1 are drawn by some source |
| Properties.RepeatCountReachable | reggen.go:119-133 | every count in a `{min,max}` node's range is drawn by some source |
| Properties.RepetitionNeedsLimit | reggen.go:91-101 | `+` panics when the limit is below one, `*` when it is negative or the greatest `int`, where `limit + 1` wraps around to the least one |
| Properties.RepeatWriteBack | reggen.go:123 | a visited `{min,max}` node keeps its minimum and is left with the maximum capped at the limit, a cap that is idempotent |
| Properties.AnyCharSample | reggen.go:73-79 | `(?s).` never panics and yields one printable character after one draw |
| Properties.AnyCharNotNLSample | reggen.go:73-79 | `.` never panics and yields one printable character other than newline and carriage return |
| Properties.AnyCharReaches | reggen.go:73-79 | every character of the printable alphabet is what `(?s).` yields for some source |
| Properties.AnyCharNotNLReaches | reggen.go:73-79 | every character of the alphabet without newline and carriage return is what `.` yields for some source |
| Properties.OneRuneGen | reggen.go:25-79 | a single-code-point node yields one code point it accepts and leaves the node unchanged |
| Properties.TimesLiteral | reggen.go:92-96 | n passes over a literal yield n copies of its runes and draw nothing |
| Properties.CopiesOfOne | reggen.go:92-96 | n copies of one rune are n runes, all that rune |
| Properties.TimesOneRune | reggen.go:92-96 | n passes over a single-code-point node yield exactly n accepted code points |
| Properties.RepeatedRune | reggen.go:88-133 | a repetition of a single-code-point node yields a number of code points within the operator's range, each accepted |
| Properties.SafeRuneOk | reggen.go:31-79 | a node with a non-empty class (and a printable member if unbounded) never panics |
| Properties.TimesSafeOk | reggen.go:92-96 | any number of passes over such a node succeeds |
| Properties.RepeatedSafeRune | reggen.go:88-133 | a repetition of such a node panics exactly for `*` with a negative limit or the greatest `int`, or `+` with a limit below one |
| WriteBack.GenCaps | reggen.go:123 | the tree a generation leaves differs from the original only in `{min,max}` maxima, each either kept or capped at the limit |
| WriteBack.StarCaps | reggen.go:88-97 | the same for a `*` node: only its children change, each by capping |
| WriteBack.PlusCaps | reggen.go:98-107 | the same for a `+` node |
| WriteBack.QuestCaps | reggen.go:108-118 | the same for a `?` node |
| WriteBack.RepeatCaps | reggen.go:119-133 | the same for a `{min,max}` node |
| WriteBack.AlternateCaps | reggen.go:141-143 | the same for an alternation: only the chosen branch changes |
| WriteBack.GenSeqCaps | reggen.go:134-140 | the same for a sequence of children |
| WriteBack.GenTimesCaps | reggen.go:92-96 | the same for repeated passes, caps composing idempotently |
| WriteBack.GenIgnoresCaps | reggen.go:19-148 | generating from a tree capped at the same limit gives the same text, position and panics, and trees again related by capping |
| WriteBack.StarIgnoresCaps | reggen.go:88-97 | the same for `*`: both trees draw the same count |
| WriteBack.PlusIgnoresCaps | reggen.go:98-107 | the same for `+` |
| WriteBack.QuestIgnoresCaps | reggen.go:108-118 | the same for `?` |
| WriteBack.RepeatIgnoresCaps | reggen.go:119-133 | the same for `{min,max}`: a capped maximum caps to the same value |
| WriteBack.RepeatCountIgnoresCaps | reggen.go:119-133 | with the same count drawn, both trees run the same passes and are left related by capping |
| WriteBack.AlternateIgnoresCaps | reggen.go:141-143 | the same for an alternation |
| WriteBack.GenSeqIgnoresCaps | reggen.go:134-140 | the same for a sequence of children |
| WriteBack.GenTimesIgnoresCaps | reggen.go:92-96 | the same for repeated passes |
| WriteBack.Regenerate | reggen.go:123 | running again on the tree a run left behind, with the same limit, behaves exactly like running on the original tree |
| Scenarios.DigitIsSafe | reggen_test.go:20 | `\d` is a bounded class holding exactly '0'..'9' |
| Scenarios.DigitRunYieldsDigits | reggen_test.go:20 | with limit 10, `\d+` yields one to ten decimal digits |
| Scenarios.DigitsYieldDigits | reggen_test.go:20 | with limit 10, `^\d+$` yields one to ten decimal digits |
| Scenarios.ZsUnderLimitTen | reggen_test.go:28 | with limit 10, `Z{2,5}` yields two to five Z's |
| Scenarios.ZsUnderLimitOne | reggen_test.go:28 | with limit 1, `Z{2,5}` yields exactly "ZZ" without drawing and is left as `Z{2,1}` |
| Scenarios.ZsCapOutlivesTheCall | reggen.go:123 | after that call the node `Z{2,1}` yields exactly "ZZ" without drawing, even with limit 10 |
| Scenarios.ZsCanYieldFive | reggen_test.go:28 | with limit 10 the original `Z{2,5}` yields five Z's when the draw is 3 |
| Scenarios.AbOrBcYields | reggen_test.go:23 | the group choosing between "ab" and "bc" yields one of them after one draw and is left as it was |
| Scenarios.ThenLiteral | reggen.go:134-140 | a node followed by a literal yields the node's text followed by the literal's runes |
| Scenarios.AbOrBcDefRun | reggen_test.go:23 | that group followed by "def" makes one draw, yields the chosen branch followed by "def" and is left as it was |
| Scenarios.AbOrBcDefYields | reggen_test.go:23 | a group choosing between "ab" and "bc", followed by "def", yields "abdef" or "bcdef" |
| Scenarios.NotOneIsSafe | reggen_test.go:25 | `[^1]` is unbounded, holds a printable character and excludes '1' |
| Scenarios.NotOneSucceeds | reggen_test.go:25 | `[^1]{3,5}` with limit 10 never panics |
| Scenarios.NotOneYields | reggen_test.go:25 | `[^1]{3,5}` with limit 10 yields three to five printable characters, none of them '1' |

## Left out

- Parsing. `regexp/syntax.Parse` is not part of this model. `GenerateFromString` takes the parser as a function argument that returns a tree or an error message.
- The random number generator's algorithm. `math/rand`'s internals and its time-based seeding are left out. A source is the stream of raw values it yields, and each `Intn(n)` consumes one of them, modulo `n`.
- Floating point. `math.Min` over `float64` is modelled as the integer minimum. The two agree whenever the smaller of `Max` and the limit is exactly representable as a `float64`: for every `Max` a parsed tree holds (at most 1000) they agree at every limit from -2^53 on. Below that the source writes back the limit rounded to a `float64`, and for a caller-built `Max` beyond 2^53 the conversion back to `int` is not exact; neither is captured. Only in that range can the count bound `Max - Min + 1` overflow, so the model takes it over unbounded integers.
- Effects before a panic. A `Panic` outcome carries only its bound. The draws made and the `{min,max}` maxima lowered before the panic are not recorded. `GenerateNode` and `GenerateFromString` state nothing about the source's position on that path. The caller's tree is not returned either, although the source has already lowered some maxima in it: for `Z{2,5}x+` with limit 0, `Max` becomes 0 before `x+` panics in `rand.Intn(0)`. The package itself never recovers from the panic; a caller that recovers and reuses the tree would see the lowered maxima.
- 32-bit platforms. Go's `int` is 32 bits wide on some platforms, where `*` would panic at a smaller limit; the model fixes its width at 64 bits.
- UTF-8. Text is a sequence of code points. The encoding of Go strings and the conversion `string(rune)` are not modelled.
- Sharing. The tree is a value, and each generation returns the tree as it leaves it. Trees from the parser never share a node, so for them nothing observable is lost. `Generate` also accepts a caller-built tree, in which one `{min,max}` node may occur at several places; the source then caps it at every occurrence once any of them is visited, while the model caps only the occurrence visited. Aliasing of the tree between callers is not captured either.
- The `default` branch of the switch. It cannot occur, because the node datatype lists every operator.
- Parser flags. Flags on the nodes, such as case folding, are ignored, as the source ignores them.
- The matching check of the test suite. Re-matching generated strings with Go's `regexp` is not modelled. The scenario lemmas state what each sampled pattern yields instead.
- The seeding test's second half. That different seeds give different strings is probabilistic and is not stated.
- Reproducibility.GenWindow: it covers successful generations only. A panicking generation is deterministic too, because the specification functions are functions of the source, but what it reads up to the panic is not tracked.

## Findings

| source | as written | input that shows it | evidently intended | confidence | as-written member | corrected member |
|---|---|---|---|---|---|---|
| reggen.go:91 | `*` draws its count with `rand.Intn(s.limit + 1)` on a 64-bit `int` | `Generate` with limit `math.MaxInt` on any tree holding a `*`: `limit + 1` wraps to `math.MinInt` and `rand.Intn` panics | for every non-negative limit, a count from 0 to the limit and no panic, for instance with a bound that saturates at `math.MaxInt` | not executed | Properties.RepetitionNeedsLimit | Generator.SaturatingStarBound |

The rest of the model keeps the source's wrapping bound, so that it panics where the source panics. The corrected bound agrees with it at every limit but the greatest, so every property proved for limits below `math.MaxInt` holds of the corrected behaviour too.
