/**
  Generic sequence operations behind the pipeline's `Array.prototype.filter`
  calls and its fixed-size batching loops, with the facts the rest of the
  model relies on: filtering keeps exactly the matching elements in order,
  and batching covers the input exactly once, in order.
 */
module Seqs {

  /** Number of elements of `xs` that satisfy `p`. */
  function Count<T>(xs: seq<T>, p: T -> bool): (n: nat)
    ensures n <= |xs|
    ensures n == |xs| <==> forall i :: 0 <= i < |xs| ==> p(xs[i])
    ensures n == 0 <==> forall i :: 0 <= i < |xs| ==> !p(xs[i])
    decreases |xs|
  {
    if |xs| == 0 then 0
    else
      var rest := Count(xs[1..], p);
      assert forall i :: 1 <= i < |xs| ==> xs[i] == xs[1..][i - 1];
      (if p(xs[0]) then 1 else 0) + rest
  }

  /** `r` can be obtained from `xs` by deleting elements. */
  ghost predicate IsSubsequence<T>(r: seq<T>, xs: seq<T>)
    decreases |xs|
  {
    if |r| == 0 then true
    else if |xs| == 0 then false
    else (r[0] == xs[0] && IsSubsequence(r[1..], xs[1..])) || IsSubsequence(r, xs[1..])
  }

  /** `xs.filter(p)`: the elements satisfying `p`, in their original order. */
  function Filter<T(!new)>(xs: seq<T>, p: T -> bool): (r: seq<T>)
    ensures |r| == Count(xs, p)
    ensures forall x :: x in r <==> x in xs && p(x)
    ensures IsSubsequence(r, xs)
    decreases |xs|
  {
    if |xs| == 0 then []
    else
      var rest := Filter(xs[1..], p);
      assert forall x :: x in xs <==> x == xs[0] || x in xs[1..];
      if p(xs[0]) then
        assert ([xs[0]] + rest)[1..] == rest;
        [xs[0]] + rest
      else
        rest
  }

  /** Filtering a non-empty sequence: the first element's contribution
      followed by the filtered rest. */
  lemma FilterCons<T(!new)>(xs: seq<T>, p: T -> bool)
    requires |xs| > 0
    ensures Filter(xs, p) == (if p(xs[0]) then [xs[0]] else []) + Filter(xs[1..], p)
  {
  }

  /** A `forEach` loop that pushes `f(x)` for every element `x` satisfying
      `p`, in order. */
  function FilterMap<T, U>(xs: seq<T>, p: T -> bool, f: T -> U): (r: seq<U>)
    ensures |r| <= |xs|
    decreases |xs|
  {
    if |xs| == 0 then []
    else if p(xs[0]) then [f(xs[0])] + FilterMap(xs[1..], p, f)
    else FilterMap(xs[1..], p, f)
  }

  /** The loop emits one value per matching element, and the i-th value is
      `f` of the i-th matching element. */
  lemma {:induction false} FilterMapAt<T(!new), U>(xs: seq<T>, p: T -> bool, f: T -> U, i: int)
    ensures |FilterMap(xs, p, f)| == |Filter(xs, p)|
    ensures 0 <= i < |Filter(xs, p)| ==> FilterMap(xs, p, f)[i] == f(Filter(xs, p)[i])
    decreases |xs|
  {
    if |xs| > 0 {
      FilterCons(xs, p);
      if p(xs[0]) {
        FilterMapAt(xs[1..], p, f, i - 1);
      } else {
        FilterMapAt(xs[1..], p, f, i);
      }
    }
  }

  /** Every matching element contributes its value, and every value comes
      from a matching element. */
  lemma {:induction false} FilterMapMembers<T, U>(xs: seq<T>, p: T -> bool, f: T -> U)
    ensures forall x :: x in xs && p(x) ==> f(x) in FilterMap(xs, p, f)
    ensures forall y :: y in FilterMap(xs, p, f) ==> exists x :: x in xs && p(x) && y == f(x)
    decreases |xs|
  {
    if |xs| > 0 {
      FilterMapMembers(xs[1..], p, f);
      assert forall x :: x in xs <==> x == xs[0] || x in xs[1..];
    }
  }

  /** The loop runs element by element: on two runs of input it emits the
      values of the first run followed by those of the second. */
  lemma {:induction false} FilterMapAppend<T, U>(a: seq<T>, b: seq<T>, p: T -> bool, f: T -> U)
    ensures FilterMap(a + b, p, f) == FilterMap(a, p, f) + FilterMap(b, p, f)
    decreases |a|
  {
    if |a| == 0 {
      assert a + b == b;
    } else {
      assert (a + b)[1..] == a[1..] + b;
      FilterMapAppend(a[1..], b, p, f);
      if p(a[0]) {
        assert [f(a[0])] + (FilterMap(a[1..], p, f) + FilterMap(b, p, f))
            == ([f(a[0])] + FilterMap(a[1..], p, f)) + FilterMap(b, p, f);
      }
    }
  }

  /** Filtering and mapping with `f` then projecting each value with `proj`
      is filtering and mapping with `g`, when `proj` undoes the difference
      between `f` and `g`. */
  lemma {:induction false} FilterMapProject<T, U, V>(xs: seq<T>, p: T -> bool, f: T -> U, g: T -> V, proj: U -> V)
    requires forall x :: proj(f(x)) == g(x)
    ensures |FilterMap(xs, p, f)| == |FilterMap(xs, p, g)|
    ensures forall i :: 0 <= i < |FilterMap(xs, p, f)| ==> proj(FilterMap(xs, p, f)[i]) == FilterMap(xs, p, g)[i]
    decreases |xs|
  {
    if |xs| > 0 {
      FilterMapProject(xs[1..], p, f, g, proj);
    }
  }

  /** Counting an extended prefix adds the new element's contribution:
      the running counter of a left-to-right loop. */
  lemma {:induction false} CountSnoc<T>(xs: seq<T>, x: T, p: T -> bool)
    ensures Count(xs + [x], p) == Count(xs, p) + (if p(x) then 1 else 0)
    decreases |xs|
  {
    if |xs| > 0 {
      assert (xs + [x])[1..] == xs[1..] + [x];
      CountSnoc(xs[1..], x, p);
    } else {
      assert xs + [x] == [x];
    }
  }

  /** A subsequence made only of matching elements has at most as many
      elements as there are matches. */
  lemma {:induction false} SubsequenceCountBound<T>(r: seq<T>, xs: seq<T>, p: T -> bool)
    requires IsSubsequence(r, xs)
    requires forall i :: 0 <= i < |r| ==> p(r[i])
    ensures |r| <= Count(xs, p)
    decreases |xs|
  {
    if |r| > 0 {
      if r[0] == xs[0] && IsSubsequence(r[1..], xs[1..]) {
        SubsequenceCountBound(r[1..], xs[1..], p);
      } else {
        SubsequenceCountBound(r, xs[1..], p);
      }
    }
  }

  /** The three contract clauses of `Filter` determine its result: any
      subsequence of matching elements that is as long as the number of
      matches IS the filtered sequence. */
  lemma {:induction false} FilterUnique<T(!new)>(r: seq<T>, xs: seq<T>, p: T -> bool)
    requires IsSubsequence(r, xs)
    requires forall i :: 0 <= i < |r| ==> p(r[i])
    requires |r| == Count(xs, p)
    ensures r == Filter(xs, p)
    decreases |xs|
  {
    if |xs| > 0 {
      assert Count(xs, p) == Count(xs[1..], p) + (if p(xs[0]) then 1 else 0);
      if |r| > 0 && r[0] == xs[0] && IsSubsequence(r[1..], xs[1..]) {
        assert p(xs[0]);
        FilterUnique(r[1..], xs[1..], p);
        assert Filter(xs, p) == [xs[0]] + Filter(xs[1..], p);
        assert r == [r[0]] + r[1..];
      } else {
        if |r| > 0 {
          assert IsSubsequence(r, xs[1..]);
        }
        SubsequenceCountBound(r, xs[1..], p);
        assert !p(xs[0]);
        FilterUnique(r, xs[1..], p);
        assert Filter(xs, p) == Filter(xs[1..], p);
      }
    }
  }

  /** Concatenation of a sequence of sequences. */
  function Flatten<T>(ss: seq<seq<T>>): seq<T>
    decreases |ss|
  {
    if |ss| == 0 then [] else ss[0] + Flatten(ss[1..])
  }

  function Min(a: int, b: int): int {
    if a <= b then a else b
  }

  /** Ceiling of `n / size`, JavaScript's `Math.ceil(n / size)` on naturals. */
  function CeilDiv(n: nat, size: nat): nat
    requires size > 0
  {
    (n + size - 1) / size
  }

  /** Number of batches of at most `size` elements needed for `n` elements. */
  function NumChunks(n: nat, size: nat): nat
    requires size > 0
    decreases n
  {
    if n == 0 then 0 else if n <= size then 1 else 1 + NumChunks(n - size, size)
  }

  /** The batch count is the ceiling of `n / size`. */
  lemma {:induction false} NumChunksIsCeil(n: nat, size: nat)
    requires size > 0
    ensures NumChunks(n, size) == CeilDiv(n, size)
    decreases n
  {
    if n == 0 {
      DivUnique(size - 1, size, 0, size - 1);
    } else if n <= size {
      DivUnique(n + size - 1, size, 1, n - 1);
    } else {
      NumChunksIsCeil(n - size, size);
      DivStep(n + size - 1, size);
    }
  }

  /** Consecutive slices of `size` elements; only the last may be shorter. */
  function Chunk<T>(xs: seq<T>, size: nat): (r: seq<seq<T>>)
    requires size > 0
    ensures |r| == NumChunks(|xs|, size)
    ensures forall b :: 0 <= b < |r| ==> 0 < |r[b]| <= size
    ensures forall b :: 0 <= b < |r| - 1 ==> |r[b]| == size
    decreases |xs|
  {
    if |xs| == 0 then []
    else if |xs| <= size then [xs]
    else [xs[..size]] + Chunk(xs[size..], size)
  }

  /** The batches, concatenated in order, give back the input: every element
      lands in exactly one batch and batching never reorders. */
  lemma {:induction false} ChunkFlatten<T>(xs: seq<T>, size: nat)
    requires size > 0
    ensures Flatten(Chunk(xs, size)) == xs
    decreases |xs|
  {
    if |xs| == 0 {
    } else if |xs| <= size {
      assert Flatten([xs]) == xs + Flatten([]);
    } else {
      var rest := Chunk(xs[size..], size);
      ChunkFlatten(xs[size..], size);
      assert ([xs[..size]] + rest)[1..] == rest;
      assert xs == xs[..size] + xs[size..];
    }
  }

  lemma MulAtLeast(a: nat, d: int)
    requires d >= 1
    ensures a * d >= a
    decreases d
  {
    if d > 1 {
      MulAtLeast(a, d - 1);
      assert a * d == a * (d - 1) + a;
    }
  }

  /** Euclidean division has unique quotient and remainder. */
  lemma DivUnique(m: int, size: int, q: int, r: int)
    requires size > 0 && 0 <= r < size && m == size * q + r
    ensures m / size == q
  {
    var Q, R := m / size, m % size;
    assert m == size * Q + R;
    var d := q - Q;
    assert size * d == R - r;
    if d >= 1 {
      MulAtLeast(size, d);
    }
  }

  /** One more block of `size` adds exactly one to the quotient. */
  lemma DivStep(m: nat, size: nat)
    requires size > 0 && m >= size
    ensures (m - size) / size + 1 == m / size
  {
    var q, r := (m - size) / size, (m - size) % size;
    assert m - size == size * q + r;
    assert m == size * (q + 1) + r;
    DivUnique(m, size, q + 1, r);
  }

  /** Start of batch `b` when every batch before it holds `size` elements. */
  function Offset(b: nat, size: nat): nat {
    if b == 0 then 0 else Offset(b - 1, size) + size
  }

  lemma {:induction false} OffsetIsProduct(b: nat, size: nat)
    ensures Offset(b, size) == b * size
  {
    if b > 0 {
      OffsetIsProduct(b - 1, size);
      assert (b - 1) * size + size == b * size;
    }
  }

  /** The batches reach the end of the input, and every batch starts
      inside it. */
  lemma {:induction false} NumChunksCovers(n: nat, size: nat)
    requires size > 0
    ensures Offset(NumChunks(n, size), size) >= n
    ensures forall b: nat :: b < NumChunks(n, size) ==> Offset(b, size) < n
    decreases n
  {
    if n > size {
      NumChunksCovers(n - size, size);
      assert Offset(NumChunks(n, size), size) == Offset(NumChunks(n - size, size), size) + size;
      forall b: nat | b < NumChunks(n, size)
        ensures Offset(b, size) < n
      {
        if b > 0 {
          assert Offset(b, size) == Offset(b - 1, size) + size;
        }
      }
    } else if n > 0 {
      assert Offset(1, size) == size;
    }
  }

  lemma {:induction false} ChunkAtOffset<T>(xs: seq<T>, size: nat, b: nat)
    requires size > 0
    requires b < |Chunk(xs, size)|
    ensures Offset(b, size) < |xs|
    ensures Chunk(xs, size)[b] == xs[Offset(b, size) .. Min(Offset(b, size) + size, |xs|)]
    decreases |xs|
  {
    if b > 0 {
      assert |xs| > size;
      var ys := xs[size..];
      var rest := Chunk(ys, size);
      assert Chunk(xs, size) == [xs[..size]] + rest;
      assert |Chunk(xs, size)| == 1 + |rest|;
      assert Chunk(xs, size)[b] == rest[b - 1];
      ChunkAtOffset(ys, size, b - 1);
      var k := Offset(b - 1, size);
      var m := Min(k + size, |ys|);
      assert Offset(b, size) == k + size;
      assert Min(Offset(b, size) + size, |xs|) == m + size;
      SliceOfSuffix(xs, size, k, m);
    } else {
      if |xs| <= size {
        assert Chunk(xs, size) == [xs];
        assert xs[0..|xs|] == xs;
      } else {
        assert Chunk(xs, size) == [xs[..size]] + Chunk(xs[size..], size);
      }
    }
  }

  /** A slice of the suffix `xs[d..]` is the slice of `xs` shifted by `d`. */
  lemma SliceOfSuffix<T>(xs: seq<T>, d: nat, k: nat, m: nat)
    requires d <= |xs| && k <= m <= |xs| - d
    ensures xs[d..][k..m] == xs[k + d .. m + d]
  {
    forall j | 0 <= j < m - k
      ensures xs[d..][k..m][j] == xs[k + d .. m + d][j]
    {
      assert xs[d..][k..m][j] == xs[d..][k + j] == xs[d + k + j];
    }
  }

  /** Batch `b` of `Chunk(xs, size)` is the slice `xs[b*size .. min(b*size+size, |xs|)]`:
      the index arithmetic of a `for (i = 0; i < n; i += size)` loop. */
  lemma ChunkAt<T>(xs: seq<T>, size: nat, b: nat)
    requires size > 0
    requires b < |Chunk(xs, size)|
    ensures b * size < |xs|
    ensures Chunk(xs, size)[b] == xs[b * size .. Min(b * size + size, |xs|)]
  {
    ChunkAtOffset(xs, size, b);
    OffsetIsProduct(b, size);
  }
}
