/** Sums over lists in a commutative monoid, independent of the order of the list. */
module Folds {

  ghost predicate IsSumOperation<T(!new)>(plus: (T, T) -> T, zero: T) {
    && (forall a :: plus(zero, a) == a && plus(a, zero) == a)
    && (forall a, b, c :: plus(plus(a, b), c) == plus(a, plus(b, c)))
    && (forall a, b, c :: plus(plus(a, b), c) == plus(plus(a, c), b))
  }

  function SumOf<A, T>(f: A -> T, plus: (T, T) -> T, zero: T, items: seq<A>): T {
    if items == [] then zero else plus(SumOf(f, plus, zero, items[..|items| - 1]), f(items[|items| - 1]))
  }

  lemma SumOfOne<A, T(!new)>(f: A -> T, plus: (T, T) -> T, zero: T, item: A)
    requires IsSumOperation(plus, zero)
    ensures SumOf(f, plus, zero, [item]) == f(item)
  {
    assert [item][..0] == [];
    assert SumOf(f, plus, zero, [item]) == plus(SumOf(f, plus, zero, [item][..0]), f(item));
  }

  lemma {:induction false} SumOfJoin<A, T(!new)>(f: A -> T, plus: (T, T) -> T, zero: T, a: seq<A>, b: seq<A>)
    requires IsSumOperation(plus, zero)
    ensures SumOf(f, plus, zero, a + b) == plus(SumOf(f, plus, zero, a), SumOf(f, plus, zero, b))
    decreases |b|
  {
    if b == [] {
      assert a + b == a;
    } else {
      assert (a + b)[..|a + b| - 1] == a + b[..|b| - 1];
      SumOfJoin(f, plus, zero, a, b[..|b| - 1]);
    }
  }

  lemma {:induction false} PullOut<A, T(!new)>(f: A -> T, plus: (T, T) -> T, zero: T, items: seq<A>, k: nat)
    requires IsSumOperation(plus, zero) && k < |items|
    ensures SumOf(f, plus, zero, items) == plus(SumOf(f, plus, zero, items[..k] + items[k + 1..]), f(items[k]))
    decreases |items|
  {
    var init, last := items[..|items| - 1], items[|items| - 1];
    if k == |items| - 1 {
      assert items[..k] + items[k + 1..] == init;
    } else {
      PullOut(f, plus, zero, init, k);
      var rest := items[..k] + items[k + 1..];
      assert rest[..|rest| - 1] == init[..k] + init[k + 1..] && rest[|rest| - 1] == last;
    }
  }

  lemma Without<A>(items: seq<A>, k: nat)
    requires k < |items|
    ensures multiset(items[..k] + items[k + 1..]) == multiset(items) - multiset{items[k]}
  {
    assert items == items[..k] + [items[k]] + items[k + 1..];
  }

  lemma {:induction false} OrderDoesNotMatter<A, T(!new)>(f: A -> T, plus: (T, T) -> T, zero: T, a: seq<A>, b: seq<A>)
    requires IsSumOperation(plus, zero) && multiset(a) == multiset(b)
    ensures SumOf(f, plus, zero, a) == SumOf(f, plus, zero, b)
    decreases |a|
  {
    assert |multiset(a)| == |a| && |multiset(b)| == |b|;
    if a != [] {
      var n := |a| - 1;
      assert a[n] in multiset(b);
      var k :| 0 <= k < |b| && b[k] == a[n];
      PullOut(f, plus, zero, b, k);
      Without(b, k);
      Without(a, n);
      assert a[..n] + a[n + 1..] == a[..n];
      OrderDoesNotMatter(f, plus, zero, a[..n], b[..k] + b[k + 1..]);
    }
  }

  // ------------------------------------------------------------------------------- step by step

  /** The state after a list of inputs. */
  function RunAll<S, A>(step: (S, A) -> S, from: S, inputs: seq<A>): S {
    if inputs == [] then from else step(RunAll(step, from, inputs[..|inputs| - 1]), inputs[|inputs| - 1])
  }

  /** One step keeps two machines related. */
  ghost predicate KeepsStep<S(!new), T(!new), A, B>(f: (S, A) -> S, g: (T, B) -> T, related: (S, T) -> bool,
                              going: T -> bool, a: A, b: B) {
    forall s, t :: related(s, t) && going(t) ==> related(f(s, a), g(t, b))
  }

  /** The second machine is going before each of its inputs. */
  ghost predicate GoesOn<T, B>(g: (T, B) -> T, from: T, inputs: seq<B>, going: T -> bool) {
    inputs != [] ==>
      GoesOn(g, from, inputs[..|inputs| - 1], going) && going(RunAll(g, from, inputs[..|inputs| - 1]))
  }

  /** Machines that every step keeps related stay related. */
  lemma {:induction false} Simulation<S(!new), T(!new), A, B>(
    f: (S, A) -> S, s: S, inputs: seq<A>, g: (T, B) -> T, t: T, others: seq<B>, related: (S, T) -> bool, going: T -> bool)
    requires |inputs| == |others| && related(s, t) && GoesOn(g, t, others, going)
    requires forall k :: 0 <= k < |inputs| ==> KeepsStep(f, g, related, going, inputs[k], others[k])
    ensures related(RunAll(f, s, inputs), RunAll(g, t, others))
    decreases |inputs|
  {
    if inputs != [] {
      var n := |inputs| - 1;
      assert forall k :: 0 <= k < n ==> inputs[..n][k] == inputs[k] && others[..n][k] == others[k];
      Simulation(f, s, inputs[..n], g, t, others[..n], related, going);
      assert KeepsStep(f, g, related, going, inputs[n], others[n]);
    }
  }
}
