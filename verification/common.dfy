/** Shared vocabulary of the model: optional values, and sums and counts over
    the lists the hooks and pages aggregate with `reduce` and `filter`. */
module Common {

  /** A value that may be missing: a `null` row, an unparsable number, a signed-out user. */
  datatype Option<+T> = None | Some(value: T)

  /** `xs.reduce((sum, x) => sum + f(x), 0)`: the sum of `f` over `xs`, left to right. */
  function SumOf<T>(xs: seq<T>, f: T -> real): real
    decreases |xs|
  {
    if |xs| == 0 then 0.0 else SumOf(xs[..|xs| - 1], f) + f(xs[|xs| - 1])
  }

  /** `xs.filter(p).length`: how many elements satisfy `p`. */
  function CountOf<T>(xs: seq<T>, p: T -> bool): (n: nat)
    ensures n <= |xs|
    ensures n == 0 <==> forall i :: 0 <= i < |xs| ==> !p(xs[i])
    ensures n == |xs| <==> forall i :: 0 <= i < |xs| ==> p(xs[i])
    decreases |xs|
  {
    if |xs| == 0 then 0
    else
      var rest := CountOf(xs[1..], p);
      assert forall i :: 1 <= i < |xs| ==> xs[i] == xs[1..][i - 1];
      if p(xs[0]) then rest + 1 else rest
  }

  /** `xs.filter(p)`: the elements that satisfy `p`, in their original order. */
  function Filter<T>(xs: seq<T>, p: T -> bool): (r: seq<T>)
    ensures |r| == CountOf(xs, p)
    ensures forall i :: 0 <= i < |r| ==> p(r[i])
    ensures multiset(r) <= multiset(xs)
    ensures forall x :: x in xs && p(x) ==> x in r
    ensures (forall i :: 0 <= i < |xs| ==> p(xs[i])) ==> r == xs
    decreases |xs|
  {
    if |xs| == 0 then []
    else
      var rest := Filter(xs[1..], p);
      assert xs == [xs[0]] + xs[1..];
      if p(xs[0]) then [xs[0]] + rest else rest
  }

  /** Counting distributes over concatenation. */
  lemma {:induction false} CountOfAppend<T>(xs: seq<T>, ys: seq<T>, p: T -> bool)
    ensures CountOf(xs + ys, p) == CountOf(xs, p) + CountOf(ys, p)
    decreases |xs|
  {
    if |xs| > 0 {
      assert (xs + ys)[1..] == xs[1..] + ys;
      CountOfAppend(xs[1..], ys, p);
    } else {
      assert xs + ys == ys;
    }
  }

  /** Filtering distributes over concatenation, so it keeps the input order. */
  lemma {:induction false} FilterAppend<T>(xs: seq<T>, ys: seq<T>, p: T -> bool)
    ensures Filter(xs + ys, p) == Filter(xs, p) + Filter(ys, p)
    decreases |xs|
  {
    if |xs| > 0 {
      assert (xs + ys)[1..] == xs[1..] + ys;
      assert (xs + ys)[0] == xs[0];
      FilterAppend(xs[1..], ys, p);
    } else {
      assert xs + ys == ys;
    }
  }

  /** `.limit(n)` on a query already ordered by the backend: its first `n` rows. */
  function Take<T>(xs: seq<T>, n: nat): (r: seq<T>)
    ensures |r| <= n && |r| <= |xs|
    ensures |r| == if |xs| < n then |xs| else n
    ensures r == xs[..|r|]
  {
    if |xs| <= n then xs else xs[..n]
  }

  /** Adding one element at the front adds its value to the sum. */
  lemma {:induction false} SumOfCons<T>(x: T, xs: seq<T>, f: T -> real)
    ensures SumOf([x] + xs, f) == f(x) + SumOf(xs, f)
    decreases |xs|
  {
    if |xs| == 0 {
      assert [x] + xs == [x];
      assert ([x] + xs)[..0] == [];
    } else {
      var ys := [x] + xs;
      assert ys[..|ys| - 1] == [x] + xs[..|xs| - 1];
      SumOfCons(x, xs[..|xs| - 1], f);
    }
  }

  /** The sum over a concatenation is the sum of the two sums. */
  lemma {:induction false} SumOfAppend<T>(xs: seq<T>, ys: seq<T>, f: T -> real)
    ensures SumOf(xs + ys, f) == SumOf(xs, f) + SumOf(ys, f)
    decreases |ys|
  {
    if |ys| == 0 {
      assert xs + ys == xs;
    } else {
      var init := ys[..|ys| - 1];
      assert (xs + ys)[..|xs + ys| - 1] == xs + init;
      SumOfAppend(xs, init, f);
    }
  }

  /** A one-element list sums to its element's value. */
  lemma SumOfSingleton<T>(x: T, f: T -> real)
    ensures SumOf([x], f) == f(x)
  {
    assert [x][..0] == [];
  }

  /** A sum of non-negative values is non-negative. */
  lemma {:induction false} SumOfNonNegative<T>(xs: seq<T>, f: T -> real)
    requires forall i :: 0 <= i < |xs| ==> f(xs[i]) >= 0.0
    ensures SumOf(xs, f) >= 0.0
    decreases |xs|
  {
    if |xs| > 0 {
      SumOfNonNegative(xs[..|xs| - 1], f);
    }
  }

  /** `SumOfNonNegative` as an implication, for use inside a function. */
  lemma SumOfNonNegativeWhen<T>(xs: seq<T>, f: T -> real)
    ensures (forall i :: 0 <= i < |xs| ==> f(xs[i]) >= 0.0) ==> SumOf(xs, f) >= 0.0
  {
    if forall i :: 0 <= i < |xs| ==> f(xs[i]) >= 0.0 {
      SumOfNonNegative(xs, f);
    }
  }

  /** Dropping elements whose values are non-negative never raises the sum. */
  lemma {:induction false} SumOfFilterBound<T>(xs: seq<T>, p: T -> bool, f: T -> real)
    requires forall i :: 0 <= i < |xs| ==> f(xs[i]) >= 0.0
    ensures SumOf(Filter(xs, p), f) <= SumOf(xs, f)
    decreases |xs|
  {
    if |xs| > 0 {
      var rest := xs[1..];
      assert xs == [xs[0]] + rest;
      SumOfFilterBound(rest, p, f);
      SumOfCons(xs[0], rest, f);
      if p(xs[0]) {
        SumOfCons(xs[0], Filter(rest, p), f);
      }
    }
  }

  /** With non-negative values, a prefix never sums to more than the whole. */
  lemma {:induction false} SumOfPrefixBound<T>(xs: seq<T>, k: nat, f: T -> real)
    requires k <= |xs|
    requires forall i :: 0 <= i < |xs| ==> f(xs[i]) >= 0.0
    ensures SumOf(xs[..k], f) <= SumOf(xs, f)
    decreases |xs| - k
  {
    if k < |xs| {
      var init := xs[..|xs| - 1];
      SumOfPrefixBound(init, k, f);
      assert init[..k] == xs[..k];
    } else {
      assert xs[..k] == xs;
    }
  }

  /** The decimal digit `d` as a character. */
  function DigitChar(d: nat): (c: char)
    requires d < 10
    ensures '0' <= c <= '9' && c as int - '0' as int == d
  {
    ('0' as int + d) as char
  }

  predicate IsDigits(s: string)
  {
    forall i :: 0 <= i < |s| ==> '0' <= s[i] <= '9'
  }

  /** Template-literal interpolation of a non-negative integer: its decimal
      digits, most significant first, without leading zeros. */
  function NatToString(n: nat): (s: string)
    ensures 1 <= |s| && IsDigits(s)
    ensures |s| > 1 ==> s[0] != '0'
    decreases n
  {
    if n < 10 then [DigitChar(n)] else NatToString(n / 10) + [DigitChar(n % 10)]
  }

  /** The number a string of decimal digits denotes. */
  function DigitsValue(s: string): nat
    requires IsDigits(s)
    decreases |s|
  {
    if |s| == 0 then 0
    else DigitsValue(s[..|s| - 1]) * 10 + (s[|s| - 1] as int - '0' as int)
  }

  /** Reading the digits back gives the number that was written. */
  lemma {:induction false} NatToStringRoundTrip(n: nat)
    ensures DigitsValue(NatToString(n)) == n
    decreases n
  {
    if n >= 10 {
      NatToStringRoundTrip(n / 10);
      var s := NatToString(n);
      assert s[..|s| - 1] == NatToString(n / 10);
    }
  }
}
