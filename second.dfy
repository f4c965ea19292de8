/**
  The `Fib` iterator of fib_demo/src/second.rs, fixed to the 64-bit unsigned
  `usize`. The sum in the steady-state step must fit in 64 bits: `Next`
  requires it, rather than modelling the panic or wrap-around on overflow.
 */
module Second {
  import opened FibSpec

  const USIZE_MAX: nat := 0xFFFF_FFFF_FFFF_FFFF

  /** A 64-bit unsigned machine word. */
  newtype usize = x: int | 0 <= x <= 0xFFFF_FFFF_FFFF_FFFF

  class Fib {
    var current: usize
    var former: usize
    /** How many terms `Next` has handed out. */
    var count: nat

    /** The seeds the iterator was built with. */
    ghost const a: nat
    ghost const b: nat

    /** The fields hold the seeds until two terms are out, then the last two
        terms handed out. */
    ghost predicate Valid()
      reads this
    {
      PairAfter(a, b, count, former as nat, current as nat)
    }

    /** `Fib::new(former, current)`: stores both seeds as given and starts the
        count at zero. */
    constructor (former: usize, current: usize)
      ensures this.former == former && this.current == current && count == 0
      ensures a == former as nat && b == current as nat
      ensures Valid()
    {
      this.current := current;
      this.former := former;
      count := 0;
      a, b := former as nat, current as nat;
    }

    /** `Default::default`: exactly `Fib::new(0, 1)`. */
    static method Default() returns (f: Fib)
      ensures fresh(f)
      ensures f.former == 0 && f.current == 1 && f.count == 0
      ensures f.a == 0 && f.b == 1 && f.Valid()
    {
      f := new Fib(0, 1);
    }

    /** `Iterator::next`: the first two calls hand out the seeds untouched;
        every later call swaps the pair, adds the new former into the new
        current and hands out that sum, which must fit in a `usize`. It never
        signals the end. */
    method Next() returns (r: Option<usize>)
      requires Valid()
      requires count >= 2 ==> former as nat + current as nat <= USIZE_MAX
      modifies this
      ensures Valid()
      ensures count == old(count) + 1
      ensures r.Some?
      ensures old(count) == 0 ==> r.value == old(former)
      ensures old(count) == 1 ==> r.value == old(current)
      ensures old(count) <= 1 ==> former == old(former) && current == old(current)
      ensures old(count) >= 2 ==>
                (former as nat, current as nat) == Step((old(former) as nat, old(current) as nat)) &&
                r.value == current
      ensures r.value as nat == G(a, b, count)
    {
      count := count + 1;
      match count {
        case 1 => r := Some(former);
        case 2 => r := Some(current);
        case _ =>
          current, former := former, current;
          current := current + former;
          r := Some(current);
      }
    }

    /** `take(n).collect()`: the next n terms, in order, provided the last of
        them fits in a `usize` (every earlier one is then no larger). */
    method Take(n: nat) returns (xs: seq<usize>)
      requires Valid()
      requires count + n <= 2 || G(a, b, count + n) <= USIZE_MAX
      modifies this
      ensures Valid()
      ensures count == old(count) + n
      ensures |xs| == n
      ensures forall i :: 0 <= i < n ==> xs[i] as nat == G(a, b, old(count) + i + 1)
    {
      xs := [];
      var i := 0;
      while i < n
        invariant i <= n
        invariant Valid()
        invariant count == old(count) + i
        invariant |xs| == i
        invariant forall j :: 0 <= j < i ==> xs[j] as nat == G(a, b, old(count) + j + 1)
      {
        if count >= 2 {
          GMonotone(a, b, count + 1, old(count) + n);
        }
        var r := Next();
        xs := xs + [r.value];
        i := i + 1;
      }
    }
  }

  /** The revision's unit test: `Fib::default()` yields the first ten
      Fibonacci numbers. */
  method TestFibSecond() returns (actual: seq<usize>)
    ensures actual == [0, 1, 1, 2, 3, 5, 8, 13, 21, 34]
  {
    var f := Fib.Default();
    FirstTenTerms();
    assert G(0, 1, 10) == Terms(0, 1, 0, 10)[9] == 34;
    actual := f.Take(10);
    var expected: seq<usize> := [0, 1, 1, 2, 3, 5, 8, 13, 21, 34];
    forall i | 0 <= i < 10
      ensures actual[i] == expected[i]
    {
      assert actual[i] as nat == Terms(0, 1, 0, 10)[i];
    }
  }
}
