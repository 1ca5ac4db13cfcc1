/** Facts about every place, or some place, of a sequence, stated on its
    last place so that a loop that appends one element at a time keeps
    them with one lemma call per pass. */
module Sequences {

  /** `p` holds of the elements in the same place of two sequences of the
      same length. */
  ghost predicate Pairwise<A, B>(p: (A, B) -> bool, xs: seq<A>, ys: seq<B>) {
    |xs| == |ys|
    && (|xs| == 0 || (Pairwise(p, xs[..|xs| - 1], ys[..|ys| - 1]) && p(xs[|xs| - 1], ys[|ys| - 1])))
  }

  /** One more place: the pair the loop has just produced. */
  lemma PairwiseSnoc<A, B>(p: (A, B) -> bool, xs: seq<A>, i: nat, ys: seq<B>, y: B)
    requires i < |xs| && Pairwise(p, xs[..i], ys) && p(xs[i], y)
    ensures Pairwise(p, xs[..i + 1], ys + [y])
  {
    assert xs[..i + 1][..i] == xs[..i];
    assert (ys + [y])[..|ys|] == ys;
  }

  /** `Pairwise` is `p` at every index. */
  lemma {:induction false} PairwiseEach<A, B>(p: (A, B) -> bool, xs: seq<A>, ys: seq<B>)
    requires Pairwise(p, xs, ys)
    ensures |xs| == |ys|
    ensures forall i :: 0 <= i < |xs| ==> p(xs[i], ys[i])
  {
    if |xs| > 0 {
      var n := |xs| - 1;
      PairwiseEach(p, xs[..n], ys[..n]);
      assert forall i :: 0 <= i < n ==> xs[..n][i] == xs[i] && ys[..n][i] == ys[i];
    }
  }

  /** Appending keeps a prefix a prefix. */
  lemma PrefixSnoc<A>(a: seq<A>, b: seq<A>, x: A)
    requires |a| <= |b| && b[..|a|] == a
    ensures |a| <= |b + [x]| && (b + [x])[..|a|] == a
  {
    assert (b + [x])[..|a|] == b[..|a|];
  }

  /** Regrouping three concatenated pieces. */
  lemma Regroup<A>(a: seq<A>, b: seq<A>, c: seq<A>)
    ensures a + b + c == a + (b + c)
  {
  }

  /** `f` applied to each element, in order. */
  function Mapped<A, B>(f: A -> B, xs: seq<A>): (ys: seq<B>)
    ensures |ys| == |xs|
  {
    if |xs| == 0 then [] else Mapped(f, xs[..|xs| - 1]) + [f(xs[|xs| - 1])]
  }

  /** Each place of `Mapped` holds `f` of the element in that place. */
  lemma {:induction false} MappedAt<A, B>(f: A -> B, xs: seq<A>)
    ensures forall k :: 0 <= k < |xs| ==> Mapped(f, xs)[k] == f(xs[k])
  {
    if |xs| > 0 {
      var init := xs[..|xs| - 1];
      MappedAt(f, init);
      assert forall k :: 0 <= k < |init| ==> init[k] == xs[k];
    }
  }

  /** `p` holds of some element. */
  predicate AnyOf<A>(p: A -> bool, xs: seq<A>) {
    |xs| > 0 && (AnyOf(p, xs[..|xs| - 1]) || p(xs[|xs| - 1]))
  }

  lemma AnyOfSnoc<A>(p: A -> bool, xs: seq<A>, i: nat)
    requires i < |xs|
    ensures AnyOf(p, xs[..i + 1]) == (AnyOf(p, xs[..i]) || p(xs[i]))
  {
    assert xs[..i + 1][..i] == xs[..i];
  }

  /** `AnyOf` is `p` at some index. */
  lemma {:induction false} AnyOfExists<A>(p: A -> bool, xs: seq<A>)
    ensures AnyOf(p, xs) <==> exists i :: 0 <= i < |xs| && p(xs[i])
  {
    if |xs| > 0 {
      var init := xs[..|xs| - 1];
      AnyOfExists(p, init);
      assert forall i :: 0 <= i < |init| ==> init[i] == xs[i];
    }
  }
}
