// Duplicate-free sequences, mapping and filtering.
module Sequences {

  ghost predicate NoDuplicates<T>(xs: seq<T>) {
    forall i, j :: 0 <= i < j < |xs| ==> xs[i] != xs[j]
  }

  lemma ConcatNoDuplicates<T>(xs: seq<T>, ys: seq<T>)
    requires NoDuplicates(xs) && NoDuplicates(ys) && forall x :: x in xs ==> x !in ys
    ensures NoDuplicates(xs + ys)
  {
    forall i, j | 0 <= i < j < |xs + ys|
      ensures (xs + ys)[i] != (xs + ys)[j]
    {
      if i < |xs| <= j {
        assert xs[i] in xs && ys[j - |xs|] in ys;
      }
    }
  }

  lemma SingleNoDuplicates<T>(xs: seq<T>)
    requires |xs| <= 1
    ensures NoDuplicates(xs)
  {
  }

  lemma Associative<T>(xs: seq<T>, ys: seq<T>, zs: seq<T>)
    ensures (xs + ys) + zs == xs + (ys + zs)
  {
  }

  function Mapped<T, U>(f: T -> U, xs: seq<T>): (ys: seq<U>)
    ensures |ys| == |xs| && forall i :: 0 <= i < |xs| ==> ys[i] == f(xs[i])
  {
    if xs == [] then [] else Mapped(f, xs[..|xs| - 1]) + [f(xs[|xs| - 1])]
  }

  lemma {:induction false} MappedConcat<T, U>(f: T -> U, xs: seq<T>, ys: seq<T>)
    ensures Mapped(f, xs + ys) == Mapped(f, xs) + Mapped(f, ys)
  {
    if ys == [] {
      assert xs + ys == xs;
    } else {
      MappedConcat(f, xs, ys[..|ys| - 1]);
      assert (xs + ys)[..|xs + ys| - 1] == xs + ys[..|ys| - 1];
    }
  }

  lemma {:induction false} OccursOnce<T>(xs: seq<T>, x: T)
    requires NoDuplicates(xs)
    ensures multiset(xs)[x] == if x in xs then 1 else 0
  {
    if xs != [] {
      var n := |xs| - 1;
      OccursOnce(xs[..n], x);
      assert xs == xs[..n] + [xs[n]];
    }
  }

  // Two duplicate-free listings of the same elements are permutations.
  lemma SameElements<T>(xs: seq<T>, ys: seq<T>)
    requires NoDuplicates(xs) && NoDuplicates(ys) && forall x :: x in xs <==> x in ys
    ensures multiset(xs) == multiset(ys)
  {
    forall x
      ensures multiset(xs)[x] == multiset(ys)[x]
    {
      OccursOnce(xs, x);
      OccursOnce(ys, x);
    }
  }

  lemma OccursTwice<T>(xs: seq<T>, i: nat, j: nat)
    requires i < j < |xs| && xs[i] == xs[j]
    ensures multiset(xs)[xs[i]] >= 2
  {
    assert xs == xs[..j] + xs[j..];
    assert xs[..j][i] in multiset(xs[..j]) && xs[j..][0] in multiset(xs[j..]);
  }

  lemma PermutedNoDuplicates<T>(xs: seq<T>, ys: seq<T>)
    requires NoDuplicates(xs) && multiset(xs) == multiset(ys)
    ensures NoDuplicates(ys)
  {
    forall i, j | 0 <= i < j < |ys|
      ensures ys[i] != ys[j]
    {
      if ys[i] == ys[j] {
        OccursTwice(ys, i, j);
        OccursOnce(xs, ys[i]);
      }
    }
  }

  // How many elements have the image u.
  ghost function Count<T, U>(f: T -> U, xs: seq<T>, u: U): nat {
    if xs == [] then 0
    else
      var n := |xs| - 1;
      Count(f, xs[..n], u) + if f(xs[n]) == u then 1 else 0
  }

  lemma {:induction false} CountIsMultiplicity<T, U>(f: T -> U, xs: seq<T>, u: U)
    ensures multiset(Mapped(f, xs))[u] == Count(f, xs, u)
  {
    if xs != [] {
      CountIsMultiplicity(f, xs[..|xs| - 1], u);
    }
  }

  lemma {:induction false} CountWithout<T, U>(f: T -> U, xs: seq<T>, k: nat, u: U)
    requires k < |xs|
    ensures Count(f, xs, u) == Count(f, xs[..k] + xs[k + 1..], u) + if f(xs[k]) == u then 1 else 0
  {
    var n := |xs| - 1;
    var rest := xs[..k] + xs[k + 1..];
    if k == n {
      assert rest == xs[..n];
    } else {
      CountWithout(f, xs[..n], k, u);
      assert rest[..n - 1] == xs[..n][..k] + xs[..n][k + 1..];
      assert rest[n - 1] == xs[n];
    }
  }

  lemma Without<T>(xs: seq<T>, k: nat)
    requires k < |xs|
    ensures multiset(xs[..k] + xs[k + 1..]) == multiset(xs) - multiset{xs[k]}
  {
    assert xs == xs[..k] + [xs[k]] + xs[k + 1..];
  }

  lemma {:induction false} CountPermutes<T, U>(f: T -> U, xs: seq<T>, ys: seq<T>, u: U)
    requires multiset(xs) == multiset(ys)
    ensures Count(f, xs, u) == Count(f, ys, u)
  {
    if xs == [] {
      assert |ys| == |multiset(ys)| == 0;
    } else {
      var n := |xs| - 1;
      assert xs[n] in multiset(ys);
      var k :| 0 <= k < |ys| && ys[k] == xs[n];
      assert xs[..n] + xs[n + 1..] == xs[..n];
      Without(xs, n);
      Without(ys, k);
      CountPermutes(f, xs[..n], ys[..k] + ys[k + 1..], u);
      CountWithout(f, ys, k, u);
    }
  }

  // Mapping keeps permutations.
  lemma MappedPermutes<T, U>(f: T -> U, xs: seq<T>, ys: seq<T>)
    requires multiset(xs) == multiset(ys)
    ensures multiset(Mapped(f, xs)) == multiset(Mapped(f, ys))
  {
    forall u
      ensures multiset(Mapped(f, xs))[u] == multiset(Mapped(f, ys))[u]
    {
      CountIsMultiplicity(f, xs, u);
      CountIsMultiplicity(f, ys, u);
      CountPermutes(f, xs, ys, u);
    }
    SameBag(Mapped(f, xs), Mapped(f, ys));
  }

  lemma SameBag<U>(xs: seq<U>, ys: seq<U>)
    requires forall u :: multiset(xs)[u] == multiset(ys)[u]
    ensures multiset(xs) == multiset(ys)
  {
  }

  function Filtered<T>(keep: T -> bool, xs: seq<T>): seq<T> {
    if xs == [] then []
    else
      var n := |xs| - 1;
      Filtered(keep, xs[..n]) + if keep(xs[n]) then [xs[n]] else []
  }

  lemma {:induction false} FilteredElements<T>(keep: T -> bool, xs: seq<T>)
    requires NoDuplicates(xs)
    ensures NoDuplicates(Filtered(keep, xs))
    ensures forall x :: x in Filtered(keep, xs) <==> x in xs && keep(x)
  {
    if xs != [] {
      var n := |xs| - 1;
      FilteredElements(keep, xs[..n]);
      assert xs == xs[..n] + [xs[n]];
    }
  }

  // If the image decides whether an element is kept, filtering keeps all or
  // none of the elements with image u.
  lemma {:induction false} FilteredCount<T, U>(f: T -> U, keep: T -> bool, xs: seq<T>, u: U, kept: bool)
    requires forall x :: x in xs && f(x) == u ==> keep(x) == kept
    ensures Count(f, Filtered(keep, xs), u) == if kept then Count(f, xs, u) else 0
  {
    if xs != [] {
      var n := |xs| - 1;
      var before := Filtered(keep, xs[..n]);
      assert xs[n] in xs;
      FilteredCount(f, keep, xs[..n], u, kept);
      assert (before + [xs[n]])[..|before|] == before;
      assert before + [] == before;
    }
  }
}
