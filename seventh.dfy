/**
  The generic `Fib<T>` iterator of fib_demo/src/seventh.rs, with the numeric
  type T (bounded there by zero, one, add-assign by reference and clone, and
  used with arbitrary-precision integers) taken to be `nat`.
 */
module Seventh {
  import opened FibSpec

  class Fib {
    var current: nat
    var former: nat
    /** How many terms `Next` has handed out. */
    var count: nat

    /** The seeds the iterator was built with. */
    ghost const a: nat
    ghost const b: nat

    /** The fields hold the seeds until two terms are out, then the last two
        terms handed out. */
    ghost predicate Valid()
      reads this
    {
      PairAfter(a, b, count, former, current)
    }

    /** `Fib::new(former, current)`: stores both seeds as given and starts the
        count at zero; no seed is rejected. */
    constructor (former: nat, current: nat)
      ensures this.former == former && this.current == current && count == 0
      ensures a == former && b == current
      ensures Valid()
    {
      this.current := current;
      this.former := former;
      count := 0;
      a, b := former, current;
    }

    /** `Default::default`: exactly `Fib::new(zero, one)`. */
    static method Default() returns (f: Fib)
      ensures fresh(f)
      ensures f.former == 0 && f.current == 1 && f.count == 0
      ensures f.a == 0 && f.b == 1 && f.Valid()
    {
      f := new Fib(0, 1);
    }

    /** `Iterator::next`: the first two calls hand out the seeds untouched;
        every later call swaps the pair, adds the new former into the new
        current and hands out that sum. It never signals the end. */
    method Next() returns (r: Option<nat>)
      requires Valid()
      modifies this
      ensures Valid()
      ensures count == old(count) + 1
      ensures r.Some?
      ensures old(count) == 0 ==> r.value == old(former)
      ensures old(count) == 1 ==> r.value == old(current)
      ensures old(count) <= 1 ==> former == old(former) && current == old(current)
      ensures old(count) >= 2 ==> (former, current) == Step((old(former), old(current))) && r.value == current
      ensures r.value == G(a, b, count)
    {
      count := count + 1;
      match count {
        case 1 => r := Some(former);
        case 2 => r := Some(current);
        case _ =>
          current, former := former, current;
          current := current + former;
          r := Some(current);
      }
    }

    /** `take(n).collect()`: the next n terms, in order. */
    method Take(n: nat) returns (xs: seq<nat>)
      requires Valid()
      modifies this
      ensures Valid()
      ensures count == old(count) + n
      ensures xs == Terms(a, b, old(count), n)
    {
      xs := [];
      var i := 0;
      while i < n
        invariant i <= n
        invariant Valid()
        invariant count == old(count) + i
        invariant xs == Terms(a, b, old(count), i)
      {
        var r := Next();
        xs := xs + [r.value];
        i := i + 1;
      }
    }
  }

  /** The revision's unit test: a fresh `Fib::new(0, 1)` yields the first ten
      Fibonacci numbers. */
  method TestFibFourth() returns (actual: seq<nat>)
    ensures actual == [0, 1, 1, 2, 3, 5, 8, 13, 21, 34]
  {
    var f := new Fib(0, 1);
    actual := f.Take(10);
    FirstTenTerms();
  }
}
