/** Small building blocks shared by the whole model: an optional value for the
    places where the JavaScript yields `null`/`undefined` or throws, the
    rounding and remainder operators of JavaScript stated over exact reals, and
    the two array/string queries the randomiser relies on. */
module Base {

  datatype Option<T> = None | Some(value: T)

  /** `Math.round` over the reals: the nearest integer, ties rounded upwards. */
  function Round(x: real): (n: int)
    ensures x - 0.5 < n as real <= x + 0.5
  {
    (x + 0.5).Floor
  }

  /** Rounding never leaves an integer interval that contains its argument. */
  lemma RoundWithin(x: real, lo: int, hi: int)
    ensures lo as real <= x <= hi as real ==> lo <= Round(x) <= hi
  {
  }

  lemma MulNonNegative(a: real, b: real)
    requires a >= 0.0 && b >= 0.0
    ensures a * b >= 0.0
  {
  }

  lemma MulPositive(a: real, b: real)
    requires a > 0.0 && b > 0.0
    ensures a * b > 0.0
  {
  }

  /** A factor keeps the sign of a product with a positive factor. */
  lemma SignOfFactor(x: real, m: real)
    requires m > 0.0
    ensures x * m >= 0.0 ==> x >= 0.0
    ensures x * m > 0.0 ==> x > 0.0
  {
    if x < 0.0 {
      MulPositive(-x, m);
    }
    if x == 0.0 {
      assert x * m == 0.0;
    }
  }

  function Abs(x: real): (r: real)
    ensures r >= 0.0 && (r == x || r == -x)
  {
    if x < 0.0 then -x else x
  }

  function Max(a: real, b: real): (r: real)
    ensures r >= a && r >= b && (r == a || r == b)
  {
    if a < b then b else a
  }

  function Min(a: real, b: real): (r: real)
    ensures r <= a && r <= b && (r == a || r == b)
  {
    if a < b then a else b
  }

  /** `Math.max(lo, Math.min(hi, x))`. */
  function Clamp(x: real, lo: real, hi: real): (r: real)
    requires lo <= hi
    ensures lo <= r <= hi
    ensures lo <= x <= hi ==> r == x
  {
    Max(lo, Min(hi, x))
  }

  /** Truncation towards zero, the rounding JavaScript's `%` uses. */
  function Trunc(x: real): (n: int)
    ensures Abs(n as real) <= Abs(x) < Abs(n as real) + 1.0
    ensures x >= 0.0 ==> n >= 0
    ensures x <= 0.0 ==> n <= 0
  {
    if x >= 0.0 then x.Floor else -((-x).Floor)
  }

  /** JavaScript's `x % 1`: the remainder takes the sign of the dividend and
      differs from it by a whole number. */
  function RemOne(x: real): (r: real)
    ensures x >= 0.0 ==> 0.0 <= r < 1.0
    ensures x <= 0.0 ==> -1.0 < r <= 0.0
    ensures 0.0 <= x < 1.0 ==> r == x
    ensures (x - r).Floor as real == x - r
  {
    x - Trunc(x) as real
  }

  /** `Array.prototype.filter`: keeps, in order, the elements satisfying `keep`. */
  function Filter<T(!new)>(s: seq<T>, keep: T -> bool): (r: seq<T>)
    ensures |r| <= |s|
    ensures forall x :: x in r <==> x in s && keep(x)
  {
    if |s| == 0 then []
    else (if keep(s[0]) then [s[0]] else []) + Filter(s[1..], keep)
  }

  /** A filter that keeps everything returns the list unchanged. */
  lemma {:induction false} FilterAll<T(!new)>(s: seq<T>, keep: T -> bool)
    requires forall i :: 0 <= i < |s| ==> keep(s[i])
    ensures Filter(s, keep) == s
  {
    if |s| > 0 {
      FilterAll(s[1..], keep);
    }
  }

  /** Filtering distributes over concatenation. */
  lemma {:induction false} FilterAppend<T(!new)>(a: seq<T>, b: seq<T>, keep: T -> bool)
    ensures Filter(a + b, keep) == Filter(a, keep) + Filter(b, keep)
  {
    if |a| == 0 {
      assert a + b == b;
    } else {
      assert (a + b)[1..] == a[1..] + b;
      FilterAppend(a[1..], b, keep);
    }
  }

  /** Filtering out exactly one element between two kept runs. */
  lemma FilterDropOne<T(!new)>(a: seq<T>, x: T, b: seq<T>, keep: T -> bool)
    requires forall i :: 0 <= i < |a| ==> keep(a[i])
    requires forall i :: 0 <= i < |b| ==> keep(b[i])
    requires !keep(x)
    ensures Filter(a + [x] + b, keep) == a + b
  {
    var drop := Filter([x], keep);
    assert drop == [] by {
      assert [x][1..] == [];
    }
    calc {
      Filter(a + [x] + b, keep);
    == { FilterAppend(a + [x], b, keep); }
      Filter(a + [x], keep) + Filter(b, keep);
    == { FilterAppend(a, [x], keep); }
      Filter(a, keep) + drop + Filter(b, keep);
    == { FilterAll(a, keep); FilterAll(b, keep); }
      a + [] + b;
    == { assert a + [] == a; }
      a + b;
    }
  }

  /** `sub` occurs in `s` starting at offset `i`. */
  predicate OccursAt(s: string, sub: string, i: int)
  {
    0 <= i <= |s| - |sub| && s[i..i + |sub|] == sub
  }

  /** `String.prototype.includes`, scanning `s` from the left. */
  predicate Contains(s: string, sub: string)
    decreases |s|
  {
    |sub| <= |s| && (s[..|sub|] == sub || Contains(s[1..], sub))
  }

  /** An occurrence past the start is an occurrence in the tail. */
  lemma OccursInTail(s: string, sub: string, i: int)
    requires OccursAt(s, sub, i) && i > 0
    ensures OccursAt(s[1..], sub, i - 1)
  {
    var a, b := s[1..][i - 1..i - 1 + |sub|], s[i..i + |sub|];
    forall k | 0 <= k < |a|
      ensures a[k] == b[k]
    {
      assert a[k] == s[i + k];
    }
    assert a == b;
  }

  /** An occurrence in the tail is an occurrence one further on. */
  lemma OccursPastHead(s: string, sub: string, i: int)
    requires |s| > 0 && OccursAt(s[1..], sub, i)
    ensures OccursAt(s, sub, i + 1)
  {
    var a, b := s[1..][i..i + |sub|], s[i + 1..i + 1 + |sub|];
    forall k | 0 <= k < |a|
      ensures a[k] == b[k]
    {
      assert a[k] == s[i + 1 + k];
    }
    assert a == b;
  }

  /** The scan finds `sub` exactly when it occurs at some offset. */
  lemma {:induction false} ContainsIsOccurrence(s: string, sub: string)
    decreases |s|
    ensures Contains(s, sub) <==> exists i :: OccursAt(s, sub, i)
  {
    if |sub| <= |s| {
      assert s[0..0 + |sub|] == s[..|sub|];
      if s[..|sub|] == sub {
        assert OccursAt(s, sub, 0);
      } else {
        ContainsIsOccurrence(s[1..], sub);
        assert !OccursAt(s, sub, 0);
        forall i | OccursAt(s, sub, i)
          ensures OccursAt(s[1..], sub, i - 1)
        {
          OccursInTail(s, sub, i);
        }
        forall i | OccursAt(s[1..], sub, i)
          ensures OccursAt(s, sub, i + 1)
        {
          OccursPastHead(s, sub, i);
        }
      }
    }
  }
}
