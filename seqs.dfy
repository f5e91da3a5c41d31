/** Building a sequence by appending, element by element, what each input element
    contributes: the shape of every collecting loop in the login-item code. */
module Seqs {

  /** The contributions `f(x)` of the elements `x` of `xs`, concatenated in order. */
  function FlatMap<T, U>(f: T -> seq<U>, xs: seq<T>): seq<U>
  {
    if |xs| == 0 then []
    else FlatMap(f, xs[..|xs| - 1]) + f(xs[|xs| - 1])
  }

  /** One step of a collecting loop: the prefix up to `i + 1` adds `f(xs[i])`. */
  lemma FlatMapStep<T, U>(f: T -> seq<U>, xs: seq<T>, i: nat)
    requires i < |xs|
    ensures FlatMap(f, xs[..i + 1]) == FlatMap(f, xs[..i]) + f(xs[i])
  {
    assert xs[..i + 1][..i] == xs[..i];
  }

  lemma {:induction false} FlatMapAppend<T, U>(f: T -> seq<U>, a: seq<T>, b: seq<T>)
    ensures FlatMap(f, a + b) == FlatMap(f, a) + FlatMap(f, b)
  {
    if |b| == 0 {
      assert a + b == a;
    } else {
      var b', last := b[..|b| - 1], b[|b| - 1];
      var ab := a + b;
      assert ab[..|ab| - 1] == a + b';
      assert ab[|ab| - 1] == last;
      calc {
        FlatMap(f, ab);
        FlatMap(f, a + b') + f(last);
        { FlatMapAppend(f, a, b'); }
        (FlatMap(f, a) + FlatMap(f, b')) + f(last);
        FlatMap(f, a) + (FlatMap(f, b') + f(last));
        FlatMap(f, a) + FlatMap(f, b);
      }
    }
  }

  /** Element `i` contributes its part in place, between the parts of the elements before
      and after it. */
  lemma FlatMapAt<T, U>(f: T -> seq<U>, xs: seq<T>, i: nat)
    requires i < |xs|
    ensures FlatMap(f, xs) == FlatMap(f, xs[..i]) + f(xs[i]) + FlatMap(f, xs[i + 1..])
  {
    assert xs == xs[..i + 1] + xs[i + 1..];
    FlatMapAppend(f, xs[..i + 1], xs[i + 1..]);
    FlatMapStep(f, xs, i);
  }

  /** An element contributing nothing can be dropped. */
  lemma FlatMapSkip<T, U>(f: T -> seq<U>, xs: seq<T>, i: nat)
    requires i < |xs| && f(xs[i]) == []
    ensures FlatMap(f, xs) == FlatMap(f, xs[..i] + xs[i + 1..])
  {
    FlatMapAt(f, xs, i);
    FlatMapAppend(f, xs[..i], xs[i + 1..]);
  }

  /** Something is in the result if and only if some element contributed it. */
  lemma {:induction false} FlatMapMembership<T, U>(f: T -> seq<U>, xs: seq<T>, y: U)
    ensures y in FlatMap(f, xs) <==> exists i :: 0 <= i < |xs| && y in f(xs[i])
  {
    if |xs| > 0 {
      var init := xs[..|xs| - 1];
      FlatMapMembership(f, init, y);
      forall i | 0 <= i < |init| ensures init[i] == xs[i] { }
    }
  }
}
