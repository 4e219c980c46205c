/** Shared vocabulary for the race-replay model: optional values, error
    results, and the numeric conversions the Python code performs implicitly
    (`int(x)` truncation, `min`/`max` clamping). */
module Common {

  /** A value that may be missing (Python `None`). */
  datatype Option<T> = None | Some(value: T)

  /** A computation that either yields a value or raises (Python exceptions). */
  datatype Result<T> = Ok(value: T) | Err(msg: string)

  /** Python `int(x)` on a float: truncation toward zero. */
  function Trunc(x: real): (r: int)
    ensures x >= 0.0 ==> r as real <= x < r as real + 1.0 && r >= 0
    ensures x < 0.0 ==> r as real - 1.0 < x <= r as real && r <= 0
  {
    if x >= 0.0 then x.Floor else -((-x).Floor)
  }

  /** `max(lo, min(hi, x))` on reals. */
  function ClampReal(x: real, lo: real, hi: real): (r: real)
    requires lo <= hi
    ensures lo <= r <= hi
    ensures lo <= x <= hi ==> r == x
    ensures x < lo ==> r == lo
    ensures x > hi ==> r == hi
  {
    if x < lo then lo else if x > hi then hi else x
  }

  /** `max(lo, min(hi, x))` on integers. */
  function ClampInt(x: int, lo: int, hi: int): (r: int)
    requires lo <= hi
    ensures lo <= r <= hi
    ensures lo <= x <= hi ==> r == x
    ensures x < lo ==> r == lo
    ensures x > hi ==> r == hi
  {
    if x < lo then lo else if x > hi then hi else x
  }

  function MinReal(a: real, b: real): real { if a <= b then a else b }
  function MaxReal(a: real, b: real): real { if a >= b then a else b }
  function AbsReal(a: real): real { if a < 0.0 then -a else a }

  /** v lies between a and b, in either order. */
  predicate Between(v: real, a: real, b: real)
  {
    (a <= v <= b) || (b <= v <= a)
  }

  /** Linear interpolation with t in [0, 1] stays between its ends. */
  lemma LerpBetween(a: real, b: real, t: real)
    requires 0.0 <= t <= 1.0
    ensures Between(a + t * (b - a), a, b)
  {
    if a <= b {
      assert t * (b - a) <= 1.0 * (b - a);
    } else {
      assert t * (a - b) <= 1.0 * (a - b);
    }
  }

  /** Truncating a value between two integers stays between them. */
  lemma TruncBetween(x: real, lo: int, hi: int)
    requires lo as real <= x <= hi as real
    ensures lo <= Trunc(x) <= hi
  {
  }

  /** Sum of a sequence of reals. */
  function SumReal(s: seq<real>): real
  {
    if s == [] then 0.0 else SumReal(s[..|s| - 1]) + s[|s| - 1]
  }

  /** Ascending without repetition. */
  predicate StrictlyIncreasing(s: seq<int>)
  {
    forall i, j :: 0 <= i < j < |s| ==> s[i] < s[j]
  }

  /** Putting a smaller element in front keeps a sequence ascending. */
  lemma ConsIncreasing(a: int, xs: seq<int>)
    requires StrictlyIncreasing(xs) && (xs == [] || a < xs[0])
    ensures StrictlyIncreasing([a] + xs)
  {
    forall i, j | 0 <= i < j < |[a] + xs| ensures ([a] + xs)[i] < ([a] + xs)[j] {
      if i == 0 && j > 1 {
        assert xs[0] < xs[j - 1];
      }
    }
  }

  /** The indices x with 1 <= x < k that satisfy `p`, ascending. */
  function IndicesWhere(k: int, p: int -> bool): seq<int>
    decreases k
  {
    if k <= 1 then [] else IndicesWhere(k - 1, p) + (if p(k - 1) then [k - 1] else [])
  }

  /** The list holds exactly those indices, ascending. */
  lemma {:induction false} IndicesWhereSpec(k: int, p: int -> bool)
    ensures forall x :: x in IndicesWhere(k, p) <==> 1 <= x < k && p(x)
    ensures StrictlyIncreasing(IndicesWhere(k, p))
    decreases k
  {
    if k > 1 {
      IndicesWhereSpec(k - 1, p);
      var q := IndicesWhere(k - 1, p);
      if p(k - 1) {
        var r := q + [k - 1];
        forall i, j | 0 <= i < j < |r| ensures r[i] < r[j] {
          if j == |r| - 1 { assert r[i] == q[i] && q[i] in q; }
        }
      }
    }
  }

  /** In an ascending sequence the head is below everything after it. */
  lemma HeadBelowTail(xs: seq<int>, t: int)
    requires StrictlyIncreasing(xs) && |xs| > 0 && t in xs[1..]
    ensures xs[0] < t
  {
    var j :| 0 <= j < |xs[1..]| && xs[1..][j] == t;
    assert xs[j + 1] == t;
  }

  predicate StrictlyIncreasingReal(s: seq<real>)
  {
    forall i, j :: 0 <= i < j < |s| ==> s[i] < s[j]
  }

  predicate NonDecreasing(s: seq<real>)
  {
    forall i, j :: 0 <= i < j < |s| ==> s[i] <= s[j]
  }

  /** The elements of `s` that satisfy `keep`, in order. */
  function Filter<T>(s: seq<T>, keep: T -> bool): (r: seq<T>)
    ensures |r| <= |s|
    ensures forall x :: x in r ==> x in s && keep(x)
    ensures forall x :: x in s && keep(x) ==> x in r
  {
    if s == [] then []
    else if keep(s[0]) then [s[0]] + Filter(s[1..], keep)
    else Filter(s[1..], keep)
  }

  /** When exactly one element is kept, the filter is that element. */
  lemma {:induction false} FilterOnly<T>(s: seq<T>, keep: T -> bool, k: int)
    requires 0 <= k < |s| && keep(s[k])
    requires forall j :: 0 <= j < |s| && j != k ==> !keep(s[j])
    ensures Filter(s, keep) == [s[k]]
  {
    if k > 0 {
      FilterOnly(s[1..], keep, k - 1);
    } else {
      FilterNone(s[1..], keep);
    }
  }

  /** No element occurs twice. */
  predicate Distinct<T(==)>(s: seq<T>)
  {
    forall i, j :: 0 <= i < j < |s| ==> s[i] != s[j]
  }

  /** The value of an optional, or `default` when there is none. */
  function GetOr<T>(o: Option<T>, default: T): T
  {
    if o.Some? then o.value else default
  }

  /** Python `dict.get(k, default)`. */
  function MapGet<K, V>(m: map<K, V>, k: K, default: V): V
  {
    if k in m then m[k] else default
  }

  /** `a` is `b` with some elements left out, order kept. */
  predicate IsSubsequence<T(==)>(a: seq<T>, b: seq<T>)
    decreases |b|
  {
    if a == [] then true
    else if b == [] then false
    else if a[0] == b[0] then IsSubsequence(a[1..], b[1..])
    else IsSubsequence(a, b[1..])
  }

  /** Filtering keeps the order: the result is a subsequence. */
  lemma {:induction false} FilterIsSubsequence<T>(s: seq<T>, keep: T -> bool)
    ensures IsSubsequence(Filter(s, keep), s)
  {
    if s != [] {
      FilterIsSubsequence(s[1..], keep);
    }
  }

  /** Appending the same element to both keeps a subsequence. */
  lemma {:induction false} SubsequenceAppend<T>(a: seq<T>, b: seq<T>, x: T)
    requires IsSubsequence(a, b)
    ensures IsSubsequence(a + [x], b + [x])
    decreases |b|
  {
    if a == [] {
      assert a + [x] == [x];
      SubsequenceOfSingleton(b, x);
    } else {
      assert b != [];
      assert (a + [x])[1..] == a[1..] + [x];
      assert (b + [x])[1..] == b[1..] + [x];
      if a[0] == b[0] {
        SubsequenceAppend(a[1..], b[1..], x);
      } else {
        SubsequenceAppend(a, b[1..], x);
      }
    }
  }

  lemma {:induction false} SubsequenceOfSingleton<T>(b: seq<T>, x: T)
    ensures IsSubsequence([x], b + [x])
    decreases |b|
  {
    if b != [] {
      assert (b + [x])[1..] == b[1..] + [x];
      if b[0] != x {
        SubsequenceOfSingleton(b[1..], x);
      } else {
        assert [x][1..] == [];
      }
    }
  }

  lemma {:induction false} SubsequenceExtend<T>(a: seq<T>, b: seq<T>, x: T)
    requires IsSubsequence(a, b)
    ensures IsSubsequence(a, b + [x])
    decreases |b|
  {
    if a != [] {
      assert b != [];
      assert (b + [x])[1..] == b[1..] + [x];
      if a[0] == b[0] {
        SubsequenceExtend(a[1..], b[1..], x);
      } else {
        SubsequenceExtend(a, b[1..], x);
      }
    }
  }

  /** Filtering twice is filtering once by the conjunction. */
  lemma {:induction false} FilterFilter<T>(s: seq<T>, f: T -> bool, g: T -> bool, h: T -> bool)
    requires forall x :: h(x) == (f(x) && g(x))
    ensures Filter(Filter(s, f), g) == Filter(s, h)
  {
    if s != [] {
      FilterFilter(s[1..], f, g, h);
    }
  }

  /** Filters that agree on the elements give the same result. */
  lemma {:induction false} FilterAgree<T>(s: seq<T>, f: T -> bool, g: T -> bool)
    requires forall k :: 0 <= k < |s| ==> f(s[k]) == g(s[k])
    ensures Filter(s, f) == Filter(s, g)
  {
    if s != [] {
      FilterAgree(s[1..], f, g);
    }
  }

  /** A filter every element passes keeps the sequence. */
  lemma {:induction false} FilterKeepsAll<T>(s: seq<T>, f: T -> bool)
    requires forall k :: 0 <= k < |s| ==> f(s[k])
    ensures Filter(s, f) == s
  {
    if s != [] {
      FilterKeepsAll(s[1..], f);
    }
  }

  /** A filter no element passes keeps nothing. */
  lemma {:induction false} FilterNone<T>(s: seq<T>, f: T -> bool)
    requires forall k :: 0 <= k < |s| ==> !f(s[k])
    ensures Filter(s, f) == []
  {
    if s != [] {
      FilterNone(s[1..], f);
    }
  }

  /** numpy boolean-mask indexing `s[mask]`. */
  function Select<T>(s: seq<T>, mask: seq<bool>): (r: seq<T>)
    requires |mask| == |s|
    ensures |r| <= |s|
  {
    if s == [] then []
    else (if mask[0] then [s[0]] else []) + Select(s[1..], mask[1..])
  }

  /** A mask computed element by element is a filter. */
  lemma {:induction false} SelectIsFilter<T>(s: seq<T>, mask: seq<bool>, f: T -> bool)
    requires |mask| == |s| && forall k :: 0 <= k < |s| ==> mask[k] == f(s[k])
    ensures Select(s, mask) == Filter(s, f)
  {
    if s != [] {
      SelectIsFilter(s[1..], mask[1..], f);
    }
  }

  /** Smallest element of a non-empty sequence. */
  function MinOf(s: seq<real>): (m: real)
    requires |s| > 0
    ensures m in s
    ensures forall x :: x in s ==> m <= x
  {
    if |s| == 1 then s[0]
    else
      var m := MinOf(s[1..]);
      assert forall x :: x in s ==> x == s[0] || x in s[1..];
      if s[0] <= m then s[0] else m
  }

  /** Largest element of a non-empty sequence. */
  function MaxOf(s: seq<real>): (m: real)
    requires |s| > 0
    ensures m in s
    ensures forall x :: x in s ==> x <= m
  {
    if |s| == 1 then s[0]
    else
      var m := MaxOf(s[1..]);
      assert forall x :: x in s ==> x == s[0] || x in s[1..];
      if s[0] >= m then s[0] else m
  }

  // -----------------------------------------------------------------------
  // numpy linspace
  // -----------------------------------------------------------------------

  /** `np.linspace(a, b, n)`. */
  function Linspace(a: real, b: real, n: nat): (g: seq<real>)
    ensures |g| == n
  {
    seq(n, k requires 0 <= k < n => GridPoint(a, b, n, k))
  }

  /** The k-th of n evenly spaced values from a to b. */
  function GridPoint(a: real, b: real, n: nat, k: int): real
  {
    if n == 1 then a else a + (b - a) * (k as real) / ((n - 1) as real)
  }

  /** The grid starts at a and, with two points or more, ends at b. */
  lemma LinspaceEnds(a: real, b: real, n: nat)
    ensures n >= 1 ==> Linspace(a, b, n)[0] == a
    ensures n >= 2 ==> Linspace(a, b, n)[n - 1] == b
  {
    if n >= 2 {
      GridPointLast(a, b, n);
      assert Linspace(a, b, n)[n - 1] == GridPoint(a, b, n, n - 1);
    }
  }

  lemma GridPointLast(a: real, b: real, n: nat)
    requires n >= 2
    ensures GridPoint(a, b, n, n - 1) == b
  {
    var d := (n - 1) as real;
    DivCancel(b - a, d);
  }

  /** Every grid point lies in [a, b]. */
  lemma LinspaceBounds(a: real, b: real, n: nat, k: int)
    requires a <= b && 0 <= k < n
    ensures a <= Linspace(a, b, n)[k] <= b
  {
    if n >= 2 {
      GridPointBounds(a, b, n, k);
      assert Linspace(a, b, n)[k] == GridPoint(a, b, n, k);
    }
  }

  lemma GridPointBounds(a: real, b: real, n: nat, k: int)
    requires a <= b && 0 <= k < n && n >= 2
    ensures a <= GridPoint(a, b, n, k) <= b
  {
    var d := (n - 1) as real;
    var kr := k as real;
    FractionInUnit(kr, d);
    ScaleInUnit(b - a, kr / d);
    assert (b - a) * kr / d == (b - a) * (kr / d);
    assert GridPoint(a, b, n, k) == a + (b - a) * (kr / d);
  }

  /** The grid never decreases. */
  lemma LinspaceMonotone(a: real, b: real, n: nat, j: int, k: int)
    requires a <= b && 0 <= j <= k < n
    ensures Linspace(a, b, n)[j] <= Linspace(a, b, n)[k]
  {
    if n >= 2 {
      GridStepMonotone(a, b, n, j, k);
      assert Linspace(a, b, n)[j] == GridPoint(a, b, n, j);
      assert Linspace(a, b, n)[k] == GridPoint(a, b, n, k);
    }
  }

  lemma GridStepMonotone(a: real, b: real, n: nat, j: int, k: int)
    requires a <= b && j <= k && n >= 2
    ensures GridPoint(a, b, n, j) <= GridPoint(a, b, n, k)
  {
    var d := (n - 1) as real;
    MulLeftMono(j as real, k as real, b - a);
    DivMonotone((b - a) * (j as real), (b - a) * (k as real), d);
  }

  lemma MulLeftMono(x: real, y: real, c: real)
    requires x <= y && c >= 0.0
    ensures c * x <= c * y
  {
  }

  lemma MulNonneg(a: real, b: real)
    requires 0.0 <= a && 0.0 <= b
    ensures 0.0 <= a * b
  {
  }

  lemma FractionInUnit(k: real, d: real)
    requires 0.0 <= k <= d && d > 0.0
    ensures 0.0 <= k / d <= 1.0
  {
  }

  lemma ScaleInUnit(w: real, t: real)
    requires w >= 0.0 && 0.0 <= t <= 1.0
    ensures 0.0 <= w * t <= w
  {
  }

  lemma DivCancel(w: real, d: real)
    requires d > 0.0
    ensures w * d / d == w
  {
  }

  lemma DivMonotone(a: real, b: real, d: real)
    requires a <= b && d > 0.0
    ensures a / d <= b / d
  {
  }

  // -----------------------------------------------------------------------
  // Python's ordering of strings: lexicographic by code point
  // -----------------------------------------------------------------------

  predicate StrLt(a: string, b: string)
  {
    if a == [] then b != []
    else if b == [] then false
    else if a[0] == b[0] then StrLt(a[1..], b[1..])
    else a[0] < b[0]
  }

  lemma {:induction false} StrLtIrreflexive(a: string)
    ensures !StrLt(a, a)
  {
    if a != [] { StrLtIrreflexive(a[1..]); }
  }

  lemma {:induction false} StrLtTransitive(a: string, b: string, c: string)
    requires StrLt(a, b) && StrLt(b, c)
    ensures StrLt(a, c)
  {
    if a != [] && b != [] && c != [] && a[0] == b[0] && b[0] == c[0] {
      StrLtTransitive(a[1..], b[1..], c[1..]);
    }
  }

  lemma {:induction false} StrLtTotal(a: string, b: string)
    ensures a == b || StrLt(a, b) || StrLt(b, a)
  {
    if a != [] && b != [] && a[0] == b[0] {
      StrLtTotal(a[1..], b[1..]);
      if a[1..] == b[1..] { assert a == [a[0]] + a[1..] && b == [b[0]] + b[1..]; }
    }
  }

  lemma StrLtAsymmetric(a: string, b: string)
    requires StrLt(a, b)
    ensures !StrLt(b, a)
  {
    if StrLt(b, a) {
      StrLtTransitive(a, b, a);
      StrLtIrreflexive(a);
    }
  }

  predicate StrictlyIncreasingStr(s: seq<string>)
  {
    forall i, j :: 0 <= i < j < |s| ==> StrLt(s[i], s[j])
  }

  function InsertStr(x: string, s: seq<string>): (r: seq<string>)
    requires StrictlyIncreasingStr(s)
    ensures StrictlyIncreasingStr(r)
    ensures forall y :: y in r <==> y in s || y == x
  {
    if s == [] then [x]
    else if StrLt(x, s[0]) then
      assert forall j :: 0 <= j < |s| ==> StrLt(x, s[j]) by {
        forall j | 0 < j < |s| ensures StrLt(x, s[j]) { StrLtTransitive(x, s[0], s[j]); }
      }
      [x] + s
    else if x == s[0] then s
    else
      StrLtTotal(x, s[0]);
      var rest := InsertStr(x, s[1..]);
      assert forall y :: y in rest ==> StrLt(s[0], y) by {
        forall y | y in rest ensures StrLt(s[0], y) {
          if y != x { var j :| 0 <= j < |s[1..]| && s[1..][j] == y; assert s[j + 1] == y; }
        }
      }
      assert forall k :: 0 <= k < |rest| ==> StrLt(s[0], rest[k]) by {
        forall k | 0 <= k < |rest| ensures StrLt(s[0], rest[k]) { assert rest[k] in rest; }
      }
      [s[0]] + rest
  }

  /** Python `sorted(set(s))` for strings. */
  function SortedDistinctStr(s: seq<string>): (r: seq<string>)
    ensures StrictlyIncreasingStr(r)
    ensures forall y :: y in r <==> y in s
  {
    if s == [] then []
    else
      assert forall y :: y in s <==> y == s[0] || y in s[1..];
      InsertStr(s[0], SortedDistinctStr(s[1..]))
  }

  function InsertInt(x: int, s: seq<int>): (r: seq<int>)
    requires StrictlyIncreasing(s)
    ensures StrictlyIncreasing(r)
    ensures forall y :: y in r <==> y in s || y == x
  {
    if s == [] then [x]
    else if x < s[0] then [x] + s
    else if x == s[0] then s
    else
      var rest := InsertInt(x, s[1..]);
      assert forall y :: y in rest ==> s[0] < y by {
        forall y | y in rest ensures s[0] < y {
          if y != x { var j :| 0 <= j < |s[1..]| && s[1..][j] == y; assert s[j + 1] == y; }
        }
      }
      assert rest[0] in rest;
      ConsIncreasing(s[0], rest);
      [s[0]] + rest
  }

  /** Python `sorted(set(s))` for integers. */
  function SortedDistinctInt(s: seq<int>): (r: seq<int>)
    ensures StrictlyIncreasing(r)
    ensures forall y :: y in r <==> y in s
  {
    if s == [] then []
    else
      assert forall y :: y in s <==> y == s[0] || y in s[1..];
      InsertInt(s[0], SortedDistinctInt(s[1..]))
  }

  // -----------------------------------------------------------------------
  // Substrings, Python `str.split(p)[0]` and `str(int)`
  // -----------------------------------------------------------------------

  /** p occurs in s starting at index i. */
  predicate OccursAt(s: string, p: string, i: int)
  {
    0 <= i && i + |p| <= |s| && s[i..i + |p|] == p
  }

  predicate Contains(s: string, p: string)
  {
    exists i :: 0 <= i <= |s| && OccursAt(s, p, i)
  }

  /** The first occurrence of p in s at or after `from`, or -1. */
  function IndexFrom(s: string, p: string, from: nat): (r: int)
    decreases |s| - from
    ensures r == -1 || (from <= r && OccursAt(s, p, r))
    ensures r == -1 ==> forall q :: from <= q ==> !OccursAt(s, p, q)
    ensures r >= 0 ==> forall q :: from <= q < r ==> !OccursAt(s, p, q)
  {
    if from + |p| > |s| then -1
    else if s[from..from + |p|] == p then from
    else IndexFrom(s, p, from + 1)
  }

  /** `s.split(p)[0]`: the text before the first occurrence of p, or all of s. */
  function SplitFirst(s: string, p: string): string
  {
    var i := IndexFrom(s, p, 0);
    if i < 0 then s else s[..i]
  }

  /** If p occurs in v + p + w nowhere before |v|, the split recovers v. */
  lemma SplitFirstConcat(v: string, p: string, w: string)
    requires forall q :: 0 <= q < |v| ==> !OccursAt(v + p + w, p, q)
    ensures SplitFirst(v + p + w, p) == v
  {
    var s := v + p + w;
    assert s[|v|..|v| + |p|] == p;
    assert OccursAt(s, p, |v|);
    var i := IndexFrom(s, p, 0);
    assert i == |v|;
    assert s[..|v|] == v;
  }

  /** The last occurrence of p in s, or -1 (Python `rfind`). */
  function LastIndex(s: string, p: string, upto: int): (r: int)
    requires upto <= |s|
    decreases upto + 1
    ensures r == -1 || (0 <= r <= upto && OccursAt(s, p, r))
    ensures r == -1 ==> forall q :: 0 <= q <= upto ==> !OccursAt(s, p, q)
    ensures r >= 0 ==> forall q :: r < q <= upto ==> !OccursAt(s, p, q)
  {
    if upto < 0 then -1
    else if OccursAt(s, p, upto) then upto
    else LastIndex(s, p, upto - 1)
  }

  /** `s.rsplit(p, 1)[0]`: the text before the last occurrence of p, or all of s. */
  function SplitLast(s: string, p: string): string
  {
    var i := LastIndex(s, p, |s|);
    if i < 0 then s else s[..i]
  }

  /** If p occurs in v + p + w nowhere after |v|, the split recovers v. */
  lemma SplitLastConcat(v: string, p: string, w: string)
    requires forall q :: |v| < q ==> !OccursAt(v + p + w, p, q)
    ensures SplitLast(v + p + w, p) == v
  {
    var s := v + p + w;
    assert s[|v|..|v| + |p|] == p;
    assert OccursAt(s, p, |v|);
    var i := LastIndex(s, p, |s|);
    assert i == |v|;
    assert s[..|v|] == v;
  }

  function DigitChar(d: int): char
    requires 0 <= d < 10
  {
    "0123456789"[d]
  }

  predicate IsDigit(c: char) { '0' <= c <= '9' }

  /** Decimal digits of n, without leading zeros. */
  function NatToDecimal(n: nat): (s: string)
    ensures |s| > 0
    ensures forall k :: 0 <= k < |s| ==> IsDigit(s[k])
  {
    if n < 10 then [DigitChar(n)] else NatToDecimal(n / 10) + [DigitChar(n % 10)]
  }

  /** The value of a string of decimal digits (Python `int(s)`). */
  function DecimalToNat(s: string): (n: nat)
    requires forall k :: 0 <= k < |s| ==> IsDigit(s[k])
  {
    if s == [] then 0
    else
      var c := s[|s| - 1];
      assert IsDigit(c);
      DecimalToNat(s[..|s| - 1]) * 10 + (c as int - '0' as int)
  }

  /** Reading back the decimal text of n gives n. */
  lemma {:induction false} DecimalRoundTrip(n: nat)
    ensures DecimalToNat(NatToDecimal(n)) == n
  {
    var s := NatToDecimal(n);
    if n < 10 {
      assert s[..0] == [];
    } else {
      assert s[..|s| - 1] == NatToDecimal(n / 10);
      DecimalRoundTrip(n / 10);
    }
  }

  lemma NatToDecimalInjective(a: nat, b: nat)
    requires NatToDecimal(a) == NatToDecimal(b)
    ensures a == b
  {
    DecimalRoundTrip(a);
    DecimalRoundTrip(b);
  }

  /** Python `str(i)` for an integer. */
  function IntToDecimal(i: int): (s: string)
    ensures |s| > 0
    ensures forall k :: 0 <= k < |s| ==> IsDigit(s[k]) || s[k] == '-'
  {
    if i < 0 then "-" + NatToDecimal(-i) else NatToDecimal(i)
  }

  /** Digits, with an optional leading minus sign. */
  predicate SignedDigits(s: string)
  {
    forall k :: 0 <= k < |s| ==> IsDigit(s[k]) || (k == 0 && s[k] == '-')
  }

  /** Python `int(s)` for an optional minus sign and digits. */
  function DecimalToInt(s: string): int
    requires SignedDigits(s)
  {
    if |s| > 0 && s[0] == '-' then -(DecimalToNat(s[1..]) as int) else DecimalToNat(s)
  }

  /** Reading back the decimal text of i gives i. */
  lemma IntDecimalRoundTrip(i: int)
    ensures SignedDigits(IntToDecimal(i)) && DecimalToInt(IntToDecimal(i)) == i
  {
    if i < 0 {
      var n: nat := -i;
      assert IntToDecimal(i) == "-" + NatToDecimal(n);
      NegativeDecimalRoundTrip(n);
    } else {
      var n: nat := i;
      assert IntToDecimal(i) == NatToDecimal(n);
      UnsignedDecimalRoundTrip(n);
    }
  }

  lemma UnsignedDecimalRoundTrip(n: nat)
    ensures SignedDigits(NatToDecimal(n)) && DecimalToInt(NatToDecimal(n)) == n
  {
    var s := NatToDecimal(n);
    assert IsDigit(s[0]);
    DecimalRoundTrip(n);
    assert DecimalToInt(s) == DecimalToNat(s);
  }

  lemma NegativeDecimalRoundTrip(n: nat)
    requires n > 0
    ensures var s := "-" + NatToDecimal(n); SignedDigits(s) && DecimalToInt(s) == -(n as int)
  {
    var d := NatToDecimal(n);
    var s := "-" + d;
    assert s[0] == '-' && s[1..] == d;
    forall k | 0 <= k < |s| ensures IsDigit(s[k]) || (k == 0 && s[k] == '-') {
      if k > 0 { assert s[k] == d[k - 1]; }
    }
    DecimalRoundTrip(n);
  }

  // -----------------------------------------------------------------------
  // Nearest point (the k-d tree queries)
  // -----------------------------------------------------------------------

  function SqDist(ax: real, ay: real, bx: real, bY: real): real
  {
    (ax - bx) * (ax - bx) + (ay - bY) * (ay - bY)
  }

  /** The first of the first n points of (xs, ys) nearest to (x, y). */
  function NearestAmong(xs: seq<real>, ys: seq<real>, x: real, y: real, n: nat): (i: int)
    requires |xs| == |ys| && 0 < n <= |xs|
    ensures 0 <= i < n
    ensures forall j :: 0 <= j < n ==> SqDist(xs[i], ys[i], x, y) <= SqDist(xs[j], ys[j], x, y)
  {
    if n == 1 then 0
    else
      var prev := NearestAmong(xs, ys, x, y, n - 1);
      if SqDist(xs[n - 1], ys[n - 1], x, y) < SqDist(xs[prev], ys[prev], x, y) then n - 1 else prev
  }

  /** An index of a point of (xs, ys) at minimal squared distance from (x, y). */
  function Nearest(xs: seq<real>, ys: seq<real>, x: real, y: real): (i: int)
    requires |xs| == |ys| > 0
    ensures 0 <= i < |xs|
    ensures forall j :: 0 <= j < |xs| ==> SqDist(xs[i], ys[i], x, y) <= SqDist(xs[j], ys[j], x, y)
  {
    NearestAmong(xs, ys, x, y, |xs|)
  }
}
