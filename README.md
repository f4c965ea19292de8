# fib_demo: the `Fib` iterator, modelled and verified in Dafny

The fib_demo crate walks through successive revisions of one small iterator,
`Fib`, that produces the additive (Fibonacci-like) sequence from two seeds.
An iterator holds `former`, `current` and `count`. The first call to `next`
hands out `former`, the second hands out `current`, and every later call swaps
the pair, adds the new `former` into the new `current` and hands out the sum.
`next` always answers `Some`: the sequence never ends.

The model has one module per implemented revision, each with a `Fib` class
whose fields the methods update in place, and one shared specification module:

- `FibSpec` (fib_spec.dfy): the term function `G(a, b, k)` (`G(1) = a`,
  `G(2) = b`, `G(k) = G(k-1) + G(k-2)`), the pure pair step `Step` with its
  iteration `StepN`, the predicate `PairAfter` that is every class's object
  invariant, the window `Terms` of consecutive terms, the recurrence predicate
  `Additive`, and `Sum`, with the lemmas that relate them.
- `Seventh` (seventh.dfy): the generic revision of fib_demo/src/seventh.rs,
  with the numeric type taken to be `nat`, since the crate uses it with
  arbitrary-precision integers.
- `Second` (second.dfy): the revision of fib_demo/src/second.rs fixed to
  `usize`, modelled as a 64-bit `newtype`. `Next` requires that the sum it
  forms fits in 64 bits.
- `Fourth` (fourth.dfy): the generic revision of fib_demo/src/fourth.rs, over
  `nat`. It has no `Default`.

Every class keeps ghost copies `a`, `b` of its seeds, and `Valid()` says the
fields hold the seeds until two terms are out and `G(count - 1), G(count)`
after that. Each `Next` is proved to hand out `G(a, b, count)`. Each `Take`
(the crate's `take(n).collect()`) is proved to hand out the next `n` terms.
Each revision's unit test is a method whose postcondition is the expected
vector.

## Model

| member | source | states |
|---|---|---|
| `FibSpec.StepNWalksG` | fib_demo/src/seventh.rs:40-44 | Iterating the swap-then-add step n times from the seeds `(a, b)` gives the pair `(G(n+1), G(n+2))` |
| `FibSpec.PairAfterIsStepN` | fib_demo/src/seventh.rs:35-46 | After `count >= 2` calls, the invariant "fields are `G(count-1), G(count)`" holds exactly when the fields are the seeds advanced by `count - 2` steps |
| `FibSpec.GMonotone` | fib_demo/src/second.rs:33-35 | From the second term on the sequence never decreases, so if the last of several steady-state sums fits in a `usize`, every earlier one fits too |
| `FibSpec.Terms` | fib_demo/src/seventh.rs:35-46 | The n terms after the first `from` have length n, and the i-th of them is `G(a, b, from + i + 1)` |
| `FibSpec.TermsCharacterised` | fib_demo/src/seventh.rs:38-43 | A sequence is the output of a fresh iterator exactly when it starts with the seeds `a`, `b` and each later element is the sum of the two before it |
| `FibSpec.SumOfTerms` | fib_demo/src/second.rs:44 | The first n terms add up to `G(a, b, n + 2) - b`, which is what the driver's `take(n).sum()` computes |
| `FibSpec.FirstTenTerms` | fib_demo/src/seventh.rs:63-65 | The first ten terms for seeds `(0, 1)` are `[0, 1, 1, 2, 3, 5, 8, 13, 21, 34]` |
| `Seventh.Fib.constructor` | fib_demo/src/seventh.rs:14-20 | `new(former, current)` stores both seeds verbatim, validates nothing, starts `count` at 0 and establishes the invariant |
| `Seventh.Fib.Default` | fib_demo/src/seventh.rs:23-26 | `default()` is a fresh `new(0, 1)`: fields `(0, 1)`, `count` 0 |
| `Seventh.Fib.Next` | fib_demo/src/seventh.rs:35-46 | Always returns `Some` and raises `count` by 1; calls 1 and 2 return `former` and `current` and change neither; later calls set the pair to `(old current, old former + old current)` and return the new `current`; the value returned is `G(a, b, count)` and the invariant is kept |
| `Seventh.Fib.Take` | fib_demo/src/seventh.rs:63 | Taking n terms returns exactly `Terms(a, b, old count, n)` and advances `count` by n |
| `Seventh.TestFibFourth` | fib_demo/src/seventh.rs:61-66 | `new(0, 1)` followed by ten calls yields `[0, 1, 1, 2, 3, 5, 8, 13, 21, 34]` |
| `Second.Fib.constructor` | fib_demo/src/second.rs:9-15 | `new(former, current)` stores both `usize` seeds verbatim and starts `count` at 0 |
| `Second.Fib.Default` | fib_demo/src/second.rs:18-22 | `default()` is a fresh `new(0, 1)` |
| `Second.Fib.Next` | fib_demo/src/second.rs:27-38 | Same as the generic `next`, over `usize`, provided that the steady-state sum `former + current` fits in 64 bits; the value returned is `G(a, b, count)` |
| `Second.Fib.Take` | fib_demo/src/second.rs:54 | Taking n terms, when the last of them fits in a `usize`, returns n values whose i-th is `G(a, b, old count + i + 1)` |
| `Second.TestFibSecond` | fib_demo/src/second.rs:52-57 | `default()` followed by ten calls yields `[0, 1, 1, 2, 3, 5, 8, 13, 21, 34]` |
| `Fourth.Fib.constructor` | fib_demo/src/fourth.rs:9-15 | `new(former, current)` stores both seeds verbatim and starts `count` at 0 |
| `Fourth.Fib.Next` | fib_demo/src/fourth.rs:27-38 | Always `Some`, `count` up by 1, the seeds unchanged on calls 1 and 2, the step `(current, former + current)` after that, and the value returned is `G(a, b, count)` |
| `Fourth.Fib.Take` | fib_demo/src/fourth.rs:54 | Taking n terms returns exactly `Terms(a, b, old count, n)` |
| `Fourth.TestFibFourth` | fib_demo/src/fourth.rs:52-57 | `new(0, 1)` followed by ten calls yields `[0, 1, 1, 2, 3, 5, 8, 13, 21, 34]` |

## Left out

- fib_demo/src/first.rs: every body is `todo!()`, so it has no behaviour. Its `new(current, former)` parameter order is not followed; the model uses the `(former, current)` order of the implemented revisions.
- The `main` drivers: printing and the concrete sums of 40, 100 and 1000 terms are not modelled. `FibSpec.SumOfTerms` states the general sum instead.
- The numeric type bounds of seventh.rs (`Zero`, `One`, `AddAssign<&T>`, `Clone`) and the arbitrary-precision integer library: T is `nat`. Cloning a `nat` is the value itself.
- fourth.rs would not compile as written, because T has no bounds. Only its algorithm is modelled. Its commented-out `Default` is not live code and is not modelled.
- `Second.Fib.Next`: the panic in debug builds or the wrap-around in release builds when `former + current` exceeds 64 bits is not modelled. The method requires the sum to fit instead.
- `count`: it is a `usize` in every revision but is modelled as `nat`. Its overflow would take 2^64 calls and is not modelled.
- `Default` is modelled as a static method that allocates through the constructor, as `Self::new(0, 1)` does, not as a second constructor.
