/** The pseudorandom source the generator draws from (Go's *rand.Rand). Only its
    range contract matters: `Intn(n)` yields a value in [0, n) and panics when
    `n <= 0`. A source is modelled as the stream of raw values it will produce;
    each `Intn` call consumes exactly one of them. */
module Random {

  /** The raw values a seeded generator produces, by position. */
  type Source = nat -> nat

  /** The result of a step that may hit Go's panic "invalid argument to Intn";
      `bound` is the non-positive argument that was passed. */
  datatype Outcome<+T> = Ok(value: T) | Panic(bound: int)
  {
    predicate IsFailure() {
      Panic?
    }

    function PropagateFailure<U>(): Outcome<U>
      requires Panic?
    {
      Panic(bound)
    }

    function Extract(): T
      requires Ok?
    {
      value
    }
  }

  /** A drawn value and the position of the next unread raw value. */
  datatype Drawn = Drawn(value: nat, next: nat)

  /** `rand.Intn(n)` read from position `pos` of `src`. */
  function Draw(src: Source, pos: nat, n: int): (d: Outcome<Drawn>)
    ensures d.Panic? <==> n <= 0
    ensures d.Panic? ==> d.bound == n
    ensures d.Ok? ==> d.value.value < n && d.value.next == pos + 1
  {
    if n <= 0 then Panic(n) else Ok(Drawn(src(pos) % n, pos + 1))
  }

  /** The source that yields `v` at position `pos` and agrees with `src` elsewhere. */
  function Override(src: Source, pos: nat, v: nat): (s: Source)
    ensures s(pos) == v
    ensures forall k :: k != pos ==> s(k) == src(k)
  {
    (k: nat) => if k == pos then v else src(k)
  }

  /** Every value in [0, n) is drawn by some source: no outcome is ruled out. */
  lemma {:induction false} DrawCovers(src: Source, pos: nat, n: int, v: nat)
    requires v < n
    ensures Draw(Override(src, pos, v), pos, n) == Ok(Drawn(v, pos + 1))
  {
  }

  /** The shared generator object threaded through one generation. */
  class Rand {
    const src: Source
    var pos: nat

    constructor (src: Source)
      ensures this.src == src && pos == 0
    {
      this.src := src;
      pos := 0;
    }

    /** `rand.Intn(n)`: consumes one raw value when `n > 0`. */
    method Intn(n: int) returns (r: Outcome<nat>)
      modifies this
      ensures match Draw(src, old(pos), n)
        case Ok(d) => r == Ok(d.value) && pos == d.next
        case Panic(b) => r == Panic(b) && pos == old(pos)
    {
      if n <= 0 {
        r := Panic(n);
      } else {
        r := Ok(src(pos) % n);
        pos := pos + 1;
      }
    }
  }
}
