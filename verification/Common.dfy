/** Small notions that several models share. */
module Common {

  datatype Option<+T> = None | Some(value: T)

  predicate Distinct<T(==)>(s: seq<T>) {
    forall i, j :: 0 <= i < j < |s| ==> s[i] != s[j]
  }

  /** The first position of x. */
  function IndexOf<T(==)>(s: seq<T>, x: T): (i: nat)
    requires x in s
    ensures i < |s| && s[i] == x
    ensures forall j :: 0 <= j < i ==> s[j] != x
  {
    var init := s[..|s| - 1];
    assert s == init + [s[|s| - 1]];
    if x in init then IndexOf(init, x) else |init|
  }

  predicate OccursAt<T(==)>(text: seq<T>, part: seq<T>, p: nat) {
    p + |part| <= |text| && text[p..p + |part|] == part
  }

  lemma ProductGrows(a: int, b: int, n: nat)
    requires a <= b
    ensures a * n <= b * n && n * a <= n * b
  {
  }

  lemma Product(k: nat, n: nat)
    requires k > 0
    ensures k * n == (k - 1) * n + n && 0 <= (k - 1) * n
  {
  }

  lemma DivModIs(x: nat, d: nat, q: nat, r: nat)
    requires r < d && x == q * d + r
    ensures x / d == q && x % d == r
  {
    var q' := x / d;
    assert x == q' * d + x % d;
    if q' < q {
      ProductGrows(q' + 1, q, d);
      Product(q' + 1, d);
    } else if q < q' {
      ProductGrows(q + 1, q', d);
      Product(q + 1, d);
    }
  }

  lemma SliceOfSlice<T>(s: seq<T>, i: nat, j: nat, p: nat, q: nat)
    requires i <= j <= |s| && p <= q <= j - i
    ensures s[i..j][p..q] == s[i + p..i + q]
  {
    forall k | 0 <= k < q - p ensures s[i..j][p..q][k] == s[i + p..i + q][k] {
      assert s[i..j][p + k] == s[i + (p + k)];
    }
  }
}
