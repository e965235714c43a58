/** Totals over sequences, for counting what is where. */
module Sums {
  /** The multiset union of f over a sequence. */
  ghost function Gather<A, B>(xs: seq<A>, f: A -> multiset<B>): multiset<B> {
    if xs == [] then multiset{} else f(xs[0]) + Gather(xs[1..], f)
  }

  lemma {:induction false} GatherConcat<A, B>(xs: seq<A>, ys: seq<A>, f: A -> multiset<B>)
    ensures Gather(xs + ys, f) == Gather(xs, f) + Gather(ys, f)
  {
    if xs == [] {
      assert xs + ys == ys;
    } else {
      assert (xs + ys)[1..] == xs[1..] + ys;
      GatherConcat(xs[1..], ys, f);
    }
  }

  lemma GatherAppend<A, B>(xs: seq<A>, x: A, f: A -> multiset<B>)
    ensures Gather(xs + [x], f) == Gather(xs, f) + f(x)
  {
    GatherConcat(xs, [x], f);
    assert [x][1..] == [];
  }

  /** Replacing one element exchanges its share. */
  lemma {:induction false} GatherUpdate<A, B>(xs: seq<A>, i: nat, x: A, f: A -> multiset<B>)
    requires i < |xs|
    ensures Gather(xs[i := x], f) + f(xs[i]) == Gather(xs, f) + f(x)
  {
    if i == 0 {
      assert xs[0 := x][1..] == xs[1..];
    } else {
      assert xs[i := x][1..] == xs[1..][i - 1 := x];
      GatherUpdate(xs[1..], i - 1, x, f);
      var head, old', new' := f(xs[0]), Gather(xs[1..], f), Gather(xs[i := x][1..], f);
      assert (head + new') + f(xs[i]) == head + (new' + f(xs[i])) == head + (old' + f(x)) == (head + old') + f(x);
    }
  }

  lemma Exchange<B>(a: multiset<B>, b: multiset<B>, c: multiset<B>)
    ensures (a + b) + c == a + (b + c) == (a + c) + b
  {
  }

  /** A debt moves from the first of three places to the second or to the third. */
  lemma Rotate<B>(a: multiset<B>, b: multiset<B>, c: multiset<B>)
    ensures (a + b) + c == (multiset{} + (b + a)) + c == (multiset{} + b) + (c + a)
  {
  }

  lemma Cancel<B>(a: multiset<B>, b: multiset<B>, c: multiset<B>)
    requires a + c == b + c
    ensures a == b
  {
    forall x ensures a[x] == b[x] {
      assert (a + c)[x] == a[x] + c[x] && (b + c)[x] == b[x] + c[x];
    }
  }

  /** Replacing an element by one with the same share changes nothing. */
  lemma GatherKeep<A, B>(xs: seq<A>, i: nat, x: A, f: A -> multiset<B>)
    requires i < |xs| && f(x) == f(xs[i])
    ensures Gather(xs[i := x], f) == Gather(xs, f)
  {
    GatherUpdate(xs, i, x, f);
    Cancel(Gather(xs[i := x], f), Gather(xs, f), f(x));
  }

  /** Replacing an element that has no share adds the new one's. */
  lemma GatherAdd<A, B>(xs: seq<A>, i: nat, x: A, f: A -> multiset<B>)
    requires i < |xs| && f(xs[i]) == multiset{}
    ensures Gather(xs[i := x], f) == Gather(xs, f) + f(x)
  {
    GatherUpdate(xs, i, x, f);
    assert Gather(xs[i := x], f) + multiset{} == Gather(xs[i := x], f);
  }

  /** Replacing an element by one that has no share takes the old one's away. */
  lemma GatherDrop<A, B>(xs: seq<A>, i: nat, x: A, f: A -> multiset<B>)
    requires i < |xs| && f(x) == multiset{}
    ensures Gather(xs[i := x], f) + f(xs[i]) == Gather(xs, f)
  {
    GatherUpdate(xs, i, x, f);
    assert Gather(xs, f) + multiset{} == Gather(xs, f);
  }

  lemma {:induction false} GatherSame<A, B>(xs: seq<A>, ys: seq<A>, f: A -> multiset<B>)
    requires |xs| == |ys| && forall i | 0 <= i < |xs| :: f(xs[i]) == f(ys[i])
    ensures Gather(xs, f) == Gather(ys, f)
  {
    if xs == [] {
    } else {
      GatherSame(xs[1..], ys[1..], f);
    }
  }

  lemma {:induction false} GatherEmpty<A, B>(xs: seq<A>, f: A -> multiset<B>)
    requires forall i | 0 <= i < |xs| :: f(xs[i]) == multiset{}
    ensures Gather(xs, f) == multiset{}
  {
    if xs == [] {
    } else {
      GatherEmpty(xs[1..], f);
    }
  }

  lemma {:induction false} GatherMember<A, B>(xs: seq<A>, i: nat, f: A -> multiset<B>)
    requires i < |xs|
    ensures f(xs[i]) <= Gather(xs, f)
  {
    if i > 0 {
      GatherMember(xs[1..], i - 1, f);
    }
  }

  /** Two places share no more than the whole. */
  lemma {:induction false} GatherPair<A, B>(xs: seq<A>, i: nat, j: nat, f: A -> multiset<B>)
    requires i < j < |xs|
    ensures f(xs[i]) + f(xs[j]) <= Gather(xs, f)
  {
    if i > 0 {
      GatherPair(xs[1..], i - 1, j - 1, f);
    } else {
      GatherMember(xs[1..], j - 1, f);
    }
  }

  lemma {:induction false} GatherFind<A, B>(xs: seq<A>, f: A -> multiset<B>, b: B) returns (i: nat)
    requires b in Gather(xs, f)
    ensures i < |xs| && b in f(xs[i])
  {
    if b in f(xs[0]) {
      i := 0;
    } else {
      i := GatherFind(xs[1..], f, b);
      i := i + 1;
    }
  }

  /** What occurs once in all is the share of one place. */
  lemma GatherOnce<A, B>(xs: seq<A>, f: A -> multiset<B>, b: B)
    requires Gather(xs, f)[b] <= 1
    ensures forall i, j | 0 <= i < |xs| && 0 <= j < |xs| && b in f(xs[i]) && b in f(xs[j]) :: i == j
  {
    forall i, j | 0 <= i < j < |xs| ensures b !in f(xs[i]) || b !in f(xs[j]) {
      GatherPair(xs, i, j, f);
      assert (f(xs[i]) + f(xs[j]))[b] <= Gather(xs, f)[b];
    }
  }

  // ---------------------------------------------------------------- images of multisets

  /** The multiset union of f over a multiset. */
  ghost function Image<A, B>(ms: multiset<A>, f: A -> multiset<B>): multiset<B>
    decreases |ms|
  {
    if ms == multiset{} then multiset{}
    else
      var a :| a in ms;
      f(a) + Image(ms - multiset{a}, f)
  }

  lemma TakeBoth<A>(ms: multiset<A>, a: A, b: A)
    ensures ms - multiset{a} - multiset{b} == ms - multiset{b} - multiset{a}
  {
  }

  /** Any element can be taken out first. */
  lemma {:induction false} ImageTake<A, B>(ms: multiset<A>, f: A -> multiset<B>, a: A)
    requires a in ms
    ensures Image(ms, f) == f(a) + Image(ms - multiset{a}, f)
    decreases |ms|
  {
    var first :| first in ms && Image(ms, f) == f(first) + Image(ms - multiset{first}, f);
    if first != a {
      ImageTake(ms - multiset{first}, f, a);
      ImageTake(ms - multiset{a}, f, first);
      TakeBoth(ms, first, a);
      Exchange(f(a), f(first), Image(ms - multiset{a} - multiset{first}, f));
      Exchange(f(first), f(a), Image(ms - multiset{a} - multiset{first}, f));
    }
  }

  lemma {:induction false} ImageSum<A, B>(a: multiset<A>, b: multiset<A>, f: A -> multiset<B>)
    ensures Image(a + b, f) == Image(a, f) + Image(b, f)
    decreases |a|
  {
    if a == multiset{} {
      assert a + b == b;
    } else {
      var x :| x in a;
      ImageTake(a, f, x);
      ImageTake(a + b, f, x);
      assert a + b - multiset{x} == (a - multiset{x}) + b;
      ImageSum(a - multiset{x}, b, f);
    }
  }

  lemma ImageOne<A, B>(a: A, f: A -> multiset<B>)
    ensures Image(multiset{a}, f) == f(a)
  {
    ImageTake(multiset{a}, f, a);
    assert multiset{a} - multiset{a} == multiset{};
  }

  /** The image of a sum is the sum of the images. */
  lemma {:induction false} ImageGather<A, B, C>(xs: seq<A>, f: A -> multiset<B>, g: B -> multiset<C>,
          h: A -> multiset<C>)
    requires forall i | 0 <= i < |xs| :: Image(f(xs[i]), g) == h(xs[i])
    ensures Image(Gather(xs, f), g) == Gather(xs, h)
  {
    if xs == [] {
    } else {
      ImageGather(xs[1..], f, g, h);
      ImageSum(f(xs[0]), Gather(xs[1..], f), g);
    }
  }

  lemma {:induction false} ImageEmpty<A, B>(ms: multiset<A>, f: A -> multiset<B>)
    requires forall a | a in ms :: f(a) == multiset{}
    ensures Image(ms, f) == multiset{}
    decreases |ms|
  {
    if a :| a in ms {
      ImageTake(ms, f, a);
      ImageEmpty(ms - multiset{a}, f);
    }
  }

  /** The sum of f over a sequence. */
  ghost function Total<A>(xs: seq<A>, f: A -> nat): nat {
    if xs == [] then 0 else f(xs[0]) + Total(xs[1..], f)
  }

  lemma {:induction false} TotalUpdate<A>(xs: seq<A>, i: nat, x: A, f: A -> nat)
    requires i < |xs|
    ensures Total(xs[i := x], f) + f(xs[i]) == Total(xs, f) + f(x)
  {
    if i == 0 {
      assert xs[0 := x][1..] == xs[1..];
    } else {
      assert xs[i := x][1..] == xs[1..][i - 1 := x];
      TotalUpdate(xs[1..], i - 1, x, f);
    }
  }

  lemma {:induction false} TotalBound<A>(xs: seq<A>, ys: seq<A>, f: A -> nat)
    requires |xs| == |ys| && forall i | 0 <= i < |xs| :: f(ys[i]) <= f(xs[i]) + 1
    ensures Total(ys, f) <= Total(xs, f) + |xs|
  {
    if xs == [] {
    } else {
      TotalBound(xs[1..], ys[1..], f);
    }
  }

  lemma {:induction false} TotalSame<A>(xs: seq<A>, ys: seq<A>, f: A -> nat)
    requires |xs| == |ys| && forall i | 0 <= i < |xs| :: f(xs[i]) == f(ys[i])
    ensures Total(xs, f) == Total(ys, f)
  {
    if xs == [] {
    } else {
      TotalSame(xs[1..], ys[1..], f);
    }
  }

  lemma {:induction false} TotalZero<A>(xs: seq<A>, f: A -> nat)
    requires forall i | 0 <= i < |xs| :: f(xs[i]) == 0
    ensures Total(xs, f) == 0
  {
    if xs == [] {
    } else {
      TotalZero(xs[1..], f);
    }
  }
}
