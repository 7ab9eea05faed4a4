/** Go's fixed-width integers and the small counting vocabulary that several components share. */

module Option {
  datatype Option<+T> = None | Some(value: T)
}

module Int64 {
  const TWO_64: int := 0x1_0000_0000_0000_0000
  const MAX: int := 0x7FFF_FFFF_FFFF_FFFF
  const MIN: int := -0x8000_0000_0000_0000

  type int64 = x: int | -0x8000_0000_0000_0000 <= x <= 0x7FFF_FFFF_FFFF_FFFF

  predicate Fits(x: int) { MIN <= x <= MAX }

  // The two's-complement result of an operation whose exact result is x.
  function Wrap(x: int): (r: int64)
    ensures Fits(x) ==> r == x
  {
    var m := x % TWO_64;
    if m <= MAX then m else m - TWO_64
  }

  // Equal modulo 2^64, with the quotient made explicit so that the solver stays linear.
  ghost predicate Congruent(x: int, y: int) { exists q: int :: x == y + TWO_64 * q }

  lemma WrapCongruent(x: int)
    ensures Congruent(Wrap(x), x)
  {
    var q := x / TWO_64;
    assert x == TWO_64 * q + x % TWO_64;
    assert Wrap(x) == x + TWO_64 * (if x % TWO_64 <= MAX then -q else -q - 1);
  }

  // Wrapping identifies exactly the integers that agree modulo 2^64.
  lemma WrapUnique(x: int, y: int)
    ensures Wrap(x) == Wrap(y) <==> Congruent(x, y)
  {
    if Congruent(x, y) {
      var q :| x == y + TWO_64 * q;
      assert x % TWO_64 == y % TWO_64;
    }
    if Wrap(x) == Wrap(y) {
      WrapCongruent(x);
      WrapCongruent(y);
      var p :| Wrap(x) as int == x + TWO_64 * p;
      var q :| Wrap(y) as int == y + TWO_64 * q;
      assert x == y + TWO_64 * (q - p);
    }
  }

  // Wrapping early does not change a sum that is wrapped later.
  lemma WrapAdd(x: int, y: int)
    ensures Wrap(Wrap(x) + y) == Wrap(x + y)
    ensures Wrap(x + Wrap(y)) == Wrap(x + y)
  {
    WrapCongruent(x);
    var p :| Wrap(x) as int == x + TWO_64 * p;
    assert Wrap(x) + y == (x + y) + TWO_64 * p;
    WrapUnique(Wrap(x) + y, x + y);
    WrapCongruent(y);
    var q :| Wrap(y) as int == y + TWO_64 * q;
    assert x + Wrap(y) == (x + y) + TWO_64 * q;
    WrapUnique(x + Wrap(y), x + y);
  }

  lemma WrapZeroAdd(x: int, y: int)
    requires Wrap(x) == 0
    ensures Wrap(x + y) == Wrap(y)
  {
  }

  // Two pairs that cancel, added crosswise.
  lemma WrapCancel(a: int, b: int, c: int, d: int)
    requires Wrap(a + b) == 0
    ensures Wrap((a + c) + (b + d)) == Wrap(c + d)
  {
  }

  function Pow2(n: nat): (r: nat)
    ensures r >= 1
  {
    if n == 0 then 1 else 2 * Pow2(n - 1)
  }
}

module Counting {
  // How many elements of s satisfy p.
  function Count<T>(s: seq<T>, p: T -> bool): (n: nat)
    ensures n <= |s|
  {
    if |s| == 0 then 0 else Count(s[..|s| - 1], p) + if p(s[|s| - 1]) then 1 else 0
  }

  function Weight(b: bool): nat { if b then 1 else 0 }

  lemma {:induction false} CountUpdate<T>(s: seq<T>, i: nat, v: T, p: T -> bool)
    requires i < |s|
    ensures Count(s[i := v], p) == Count(s, p) - Weight(p(s[i])) + Weight(p(v))
  {
    var n := |s| - 1;
    if i == n {
      assert s[i := v][..n] == s[..n];
    } else {
      assert s[i := v][..n] == s[..n][i := v];
      CountUpdate(s[..n], i, v, p);
    }
  }

  lemma {:induction false} CountSplit<T>(a: seq<T>, b: seq<T>, p: T -> bool)
    ensures Count(a + b, p) == Count(a, p) + Count(b, p)
  {
    if b == [] {
      assert a + b == a;
    } else {
      var n := |b| - 1;
      assert (a + b)[..|a| + n] == a + b[..n];
      CountSplit(a, b[..n], p);
    }
  }

  lemma {:induction false} CountZero<T>(s: seq<T>, p: T -> bool)
    ensures Count(s, p) == 0 <==> forall i :: 0 <= i < |s| ==> !p(s[i])
  {
    if s == [] {
    } else {
      CountZero(s[..|s| - 1], p);
    }
  }

  lemma {:induction false} CountAll<T>(s: seq<T>, p: T -> bool)
    ensures Count(s, p) == |s| <==> forall i :: 0 <= i < |s| ==> p(s[i])
  {
    if s == [] {
    } else {
      CountAll(s[..|s| - 1], p);
    }
  }

  lemma CountPush<T>(s: seq<T>, v: T, p: T -> bool)
    ensures Count(s + [v], p) == Count(s, p) + Weight(p(v))
  {
    assert (s + [v])[..|s|] == s;
  }

  // The total of f over s.
  function Sum<T>(s: seq<T>, f: T -> nat): nat {
    if s == [] then 0 else Sum(s[..|s| - 1], f) + f(s[|s| - 1])
  }

  lemma {:induction false} SumUpdate<T>(s: seq<T>, i: nat, v: T, f: T -> nat)
    requires i < |s|
    ensures Sum(s[i := v], f) == Sum(s, f) - f(s[i]) + f(v)
  {
    var n := |s| - 1;
    if i == n {
      assert s[i := v][..n] == s[..n];
    } else {
      assert s[i := v][..n] == s[..n][i := v];
      SumUpdate(s[..n], i, v, f);
    }
  }
}

module Sequences {
  lemma SplitAt<T>(s: seq<T>, i: nat)
    requires i < |s|
    ensures s == (s[..i] + [s[i]]) + s[i + 1..]
  {
  }
}

module Decimal {
  function PrintNat(n: nat): string {
    (if n < 10 then "" else PrintNat(n / 10)) + [('0' as int + n % 10) as char]
  }

  function Print(a: int): string {
    if a < 0 then "-" + PrintNat(-a) else PrintNat(a)
  }
}
