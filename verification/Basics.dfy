/** Small vocabulary shared by the other modules: optional values, results,
    the 64-bit wrap-around of Go's atomic counters, and sums over finite sets. */
module Basics {

  datatype Option<+T> = None | Some(value: T)

  /** A call that returns a value or an error whose text does not matter. */
  datatype Result<+T> = Ok(value: T) | Err

  const TWO_64: int := 0x1_0000_0000_0000_0000

  function Min(a: int, b: int): (m: int)
    ensures m <= a && m <= b && (m == a || m == b)
  {
    if a <= b then a else b
  }

  function Max(a: int, b: int): (m: int)
    ensures a <= m && b <= m && (m == a || m == b)
  {
    if a <= b then b else a
  }

  /** One increment of an atomic.Uint64. */
  function Bump(n: nat): nat { if n + 1 == TWO_64 then 0 else n + 1 }

  function Bumped(n: nat, times: nat): nat {
    if times == 0 then n else Bump(Bumped(n, times - 1))
  }

  /** The value an atomic.Uint64 shows after n increments from zero. */
  function Wrap64(n: nat): nat { Bumped(0, n) }

  lemma ModSuccessor(a: nat)
    ensures (a + 1) % TWO_64 == Bump(a % TWO_64)
  {
    var q, r := a / TWO_64, a % TWO_64;
    if r + 1 == TWO_64 {
      assert a + 1 == (q + 1) * TWO_64 + 0;
    } else {
      assert a + 1 == q * TWO_64 + (r + 1);
    }
  }

  /** Increments are addition modulo 2^64. */
  lemma {:induction false} BumpedIsModulo(n: nat, times: nat)
    requires n < TWO_64
    ensures Bumped(n, times) == (n + times) % TWO_64
  {
    if times == 0 {
    } else {
      BumpedIsModulo(n, times - 1);
      ModSuccessor(n + times - 1);
    }
  }

  lemma WrapSuccessor(n: nat)
    ensures Bump(Wrap64(n)) == Wrap64(n + 1)
  {
  }

  lemma {:induction false} WrapSmall(n: nat)
    requires n < TWO_64
    ensures Wrap64(n) == n
  {
    if n == 0 {
    } else {
      WrapSmall(n - 1);
    }
  }

  lemma {:induction false} WrapBound(n: nat)
    ensures Wrap64(n) < TWO_64
  {
    if n == 0 {
    } else {
      WrapBound(n - 1);
    }
  }

  /** A counter may be wrapped before or after it is added up. */
  lemma {:induction false} WrapPlus(a: nat, b: nat)
    ensures Wrap64(Wrap64(a) + b) == Wrap64(a + b)
  {
    if b == 0 {
      WrapBound(a);
      WrapSmall(Wrap64(a));
    } else {
      WrapPlus(a, b - 1);
      WrapSuccessor(Wrap64(a) + (b - 1));
      WrapSuccessor(a + (b - 1));
    }
  }

  lemma SubsetSize<T>(a: set<T>, b: set<T>)
    requires a <= b
    ensures |a| <= |b|
  {
    assert b == a + (b - a);
  }

  lemma Regroup<T>(a: seq<T>, b: seq<T>, c: seq<T>)
    ensures (a + b) + c == a + (b + c)
  {
  }

  ghost predicate NoDuplicates<T>(xs: seq<T>) {
    forall i, j :: 0 <= i < j < |xs| ==> xs[i] != xs[j]
  }

  /** The elements of xs in no particular order. */
  function Elements<T>(xs: seq<T>): set<T> { set x | x in xs }

  /** The elements of a set, each once, in whatever order. */
  method InSomeOrder<T(==)>(xs: set<T>) returns (out: seq<T>)
    ensures NoDuplicates(out) && Elements(out) == xs
  {
    out := [];
    var rest := xs;
    while rest != {}
      invariant rest <= xs && NoDuplicates(out) && Elements(out) == xs - rest
      decreases rest
    {
      var x :| x in rest;
      assert x !in Elements(out) && Elements(out + [x]) == Elements(out) + {x};
      out := out + [x];
      rest := rest - {x};
    }
  }

  /** Sum of f over a finite set. */
  ghost function SumOver<T(!new)>(xs: set<T>, f: T -> nat): nat {
    if xs == {} then 0
    else var x :| x in xs; f(x) + SumOver(xs - {x}, f)
  }

  /** Any element can be taken out first. */
  lemma {:induction false} SumOverRemove<T(!new)>(xs: set<T>, f: T -> nat, x: T)
    requires x in xs
    ensures SumOver(xs, f) == f(x) + SumOver(xs - {x}, f)
    decreases xs
  {
    var y :| y in xs && SumOver(xs, f) == f(y) + SumOver(xs - {y}, f);
    if x != y {
      SumOverRemove(xs - {y}, f, x);
      SumOverRemove(xs - {x}, f, y);
      assert xs - {x} - {y} == xs - {y} - {x};
    }
  }

  /** Sums only depend on the values of the summand on the set. */
  lemma {:induction false} SumOverCongruence<T(!new)>(xs: set<T>, f: T -> nat, g: T -> nat)
    requires forall x | x in xs :: f(x) == g(x)
    ensures SumOver(xs, f) == SumOver(xs, g)
    decreases xs
  {
    if xs == {} {
    } else {
      var x :| x in xs;
      SumOverRemove(xs, f, x);
      SumOverRemove(xs, g, x);
      SumOverCongruence(xs - {x}, f, g);
    }
  }

  /** Changing the summand at one element changes the sum by that difference. */
  lemma SumOverChange<T(!new)>(xs: set<T>, f: T -> nat, g: T -> nat, x: T)
    requires x in xs
    requires forall y | y in xs && y != x :: f(y) == g(y)
    ensures SumOver(xs, g) - SumOver(xs, f) == g(x) - f(x)
  {
    SumOverRemove(xs, f, x);
    SumOverRemove(xs, g, x);
    SumOverCongruence(xs - {x}, f, g);
  }

  /** Sums over two sets: union plus intersection. */
  lemma {:induction false} SumOverUnion<T(!new)>(a: set<T>, b: set<T>, f: T -> nat)
    ensures SumOver(a, f) + SumOver(b, f) == SumOver(a + b, f) + SumOver(a * b, f)
    decreases a
  {
    if a == {} {
      assert a + b == b && a * b == {};
    } else {
      var x :| x in a;
      var rest := a - {x};
      SumOverRemove(a, f, x);
      SumOverUnion(rest, b, f);
      if x in b {
        assert rest + b == a + b;
        assert (a * b) - {x} == rest * b;
        SumOverRemove(a * b, f, x);
      } else {
        assert (a + b) - {x} == rest + b;
        assert a * b == rest * b;
        SumOverRemove(a + b, f, x);
      }
    }
  }

  lemma SumOverSubset<T(!new)>(a: set<T>, b: set<T>, f: T -> nat)
    requires a <= b
    ensures SumOver(a, f) <= SumOver(b, f)
  {
    assert a + (b - a) == b && a * (b - a) == {};
    SumOverUnion(a, b - a, f);
  }

  /** Sum of f over the elements of a sequence. */
  function SumBy<T>(xs: seq<T>, f: T -> nat): nat {
    if xs == [] then 0 else SumBy(xs[..|xs| - 1], f) + f(xs[|xs| - 1])
  }

  lemma {:induction false} SumByUpdate<T>(xs: seq<T>, i: nat, x: T, f: T -> nat)
    requires i < |xs|
    ensures SumBy(xs[i := x], f) == SumBy(xs, f) - f(xs[i]) + f(x)
  {
    var n := |xs| - 1;
    if i == n {
      assert xs[i := x][..n] == xs[..n];
    } else {
      assert xs[i := x][..n] == xs[..n][i := x];
      SumByUpdate(xs[..n], i, x, f);
    }
  }

  lemma SumByAppend<T>(xs: seq<T>, x: T, f: T -> nat)
    ensures SumBy(xs + [x], f) == SumBy(xs, f) + f(x)
  {
    assert (xs + [x])[..|xs|] == xs;
  }

  lemma {:induction false} SumByZero<T>(xs: seq<T>, f: T -> nat)
    requires forall i | 0 <= i < |xs| :: f(xs[i]) == 0
    ensures SumBy(xs, f) == 0
  {
    if xs == [] {
    } else {
      SumByZero(xs[..|xs| - 1], f);
    }
  }

  lemma {:induction false} SumBySame<T>(xs: seq<T>, f: T -> nat, g: T -> nat)
    requires forall x: T :: f(x) == g(x)
    ensures SumBy(xs, f) == SumBy(xs, g)
  {
    if xs == [] {
    } else {
      SumBySame(xs[..|xs| - 1], f, g);
    }
  }
}
