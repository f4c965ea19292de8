/**
  The additive sequence that every revision of the `Fib` iterator produces,
  stated once and shared by the three class models.

  For seeds `a` (the `former` the iterator is built with) and `b` (its
  `current`), the terms are numbered from 1:
    G(a, b, 1) = a,  G(a, b, 2) = b,  G(a, b, k) = G(a, b, k - 1) + G(a, b, k - 2).
  The canonical Fibonacci numbers are the seeds (0, 1).
 */
module FibSpec {

  /** The value `next` hands back: the iterator protocol's "maybe a term". */
  datatype Option<T> = None | Some(value: T)

  /** The k-th term (1-based) of the additive sequence seeded with a, b. */
  function G(a: nat, b: nat, k: nat): nat
    requires k >= 1
  {
    if k == 1 then a
    else if k == 2 then b
    else G(a, b, k - 1) + G(a, b, k - 2)
  }

  /** The state the iterator is in after `count` calls to `next`, seeded with
      a, b: the seeds themselves until two terms have been handed out, then
      the last two terms handed out. */
  ghost predicate PairAfter(a: nat, b: nat, count: nat, former: nat, current: nat)
  {
    if count <= 1 then former == a && current == b
    else former == G(a, b, count - 1) && current == G(a, b, count)
  }

  /** One steady-state step of the iterator: swap the pair, then add the
      (new) former into the (new) current. */
  function Step(p: (nat, nat)): (nat, nat)
  {
    (p.1, p.0 + p.1)
  }

  /** n steady-state steps from the pair p. */
  function StepN(p: (nat, nat), n: nat): (nat, nat)
  {
    if n == 0 then p else Step(StepN(p, n - 1))
  }

  /** The pure pair step, iterated from the seeds, walks along G: after n
      steps the pair holds terms n + 1 and n + 2. */
  lemma {:induction false} StepNWalksG(a: nat, b: nat, n: nat)
    ensures StepN((a, b), n) == (G(a, b, n + 1), G(a, b, n + 2))
  {
    if n > 0 {
      StepNWalksG(a, b, n - 1);
    }
  }

  /** The state after `count >= 2` calls is the seeds advanced by `count - 2`
      steps: the iterator's invariant agrees with the pure step function. */
  lemma PairAfterIsStepN(a: nat, b: nat, count: nat, former: nat, current: nat)
    requires count >= 2
    ensures PairAfter(a, b, count, former, current) <==> (former, current) == StepN((a, b), count - 2)
  {
    StepNWalksG(a, b, count - 2);
  }

  /** From the second term on, the sequence never decreases. */
  lemma {:induction false} GMonotone(a: nat, b: nat, i: nat, j: nat)
    requires 2 <= i <= j
    ensures G(a, b, i) <= G(a, b, j)
    decreases j - i
  {
    if i < j {
      GMonotone(a, b, i, j - 1);
    }
  }

  /** The n terms that follow the first `from` terms: what `take(n)` collects
      from an iterator that has already handed out `from` terms. */
  function Terms(a: nat, b: nat, from: nat, n: nat): (r: seq<nat>)
    ensures |r| == n
    ensures forall i :: 0 <= i < n ==> r[i] == G(a, b, from + i + 1)
  {
    if n == 0 then [] else Terms(a, b, from, n - 1) + [G(a, b, from + n)]
  }

  /** A sequence that starts with the seeds and in which every later element
      is the sum of the two before it. */
  ghost predicate Additive(a: nat, b: nat, s: seq<nat>)
  {
    (|s| >= 1 ==> s[0] == a) &&
    (|s| >= 2 ==> s[1] == b) &&
    (forall i :: 2 <= i < |s| ==> s[i] == s[i - 1] + s[i - 2])
  }

  /** The outputs of a fresh iterator are exactly the sequences that begin
      with the seeds and obey the recurrence from the third term on. */
  lemma {:induction false} TermsCharacterised(a: nat, b: nat, s: seq<nat>)
    ensures Additive(a, b, s) <==> s == Terms(a, b, 0, |s|)
  {
    if Additive(a, b, s) && |s| > 0 {
      var n := |s|;
      var init := s[..n - 1];
      assert Additive(a, b, init) by {
        forall i | 2 <= i < |init|
          ensures init[i] == init[i - 1] + init[i - 2]
        {
          assert init[i] == s[i] && init[i - 1] == s[i - 1] && init[i - 2] == s[i - 2];
        }
      }
      TermsCharacterised(a, b, init);
      if n >= 3 {
        assert s[n - 2] == init[n - 2] == G(a, b, n - 1);
        assert s[n - 3] == init[n - 3] == G(a, b, n - 2);
      }
      assert s[n - 1] == G(a, b, n);
      assert s == init + [s[n - 1]];
    }
  }

  /** Sum of a sequence, added up front to back as `Iterator::sum` does. */
  function Sum(s: seq<nat>): nat
  {
    if s == [] then 0 else Sum(s[..|s| - 1]) + s[|s| - 1]
  }

  /** What the drivers compute with `take(n).sum()`: the first n terms add up
      to term n + 2 less the second seed. */
  lemma {:induction false} SumOfTerms(a: nat, b: nat, n: nat)
    ensures Sum(Terms(a, b, 0, n)) + b == G(a, b, n + 2)
  {
    if n > 0 {
      SumOfTerms(a, b, n - 1);
      assert Terms(a, b, 0, n)[..n - 1] == Terms(a, b, 0, n - 1);
    }
  }

  /** The first ten terms for the seeds (0, 1), the vector every revision's
      test expects. */
  lemma FirstTenTerms()
    ensures Terms(0, 1, 0, 10) == [0, 1, 1, 2, 3, 5, 8, 13, 21, 34]
  {
  }
}
