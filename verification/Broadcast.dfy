/**
 NumPy-style broadcasting (internal/native/tensor.go): shapes, and which element of the operand each result element
 is.
 */
module Broadcast {
  type Shape = seq<int>

  ghost predicate Positive(s: Shape) { forall i :: 0 <= i < |s| ==> s[i] >= 1 }

  /** Dimensions are counts; 0 is one of them. */
  ghost predicate Counts(s: Shape) { forall i :: 0 <= i < |s| ==> s[i] >= 0 }

  /** The k-th dimension from the right; a missing one is 1. */
  function Dim(s: Shape, k: nat): int { if k < |s| then s[|s| - 1 - k] else 1 }

  function Rank(a: Shape, b: Shape): nat { if |a| < |b| then |b| else |a| }

  ghost predicate Compatible(a: Shape, b: Shape) {
    forall k: nat :: Dim(a, k) == Dim(b, k) || Dim(a, k) == 1 || Dim(b, k) == 1
  }

  /** What a size-1 dimension meets wins. */
  function Wider(da: int, db: int): int { if da == 1 then db else da }

  function Joined(a: Shape, b: Shape): (s: Shape)
    ensures |s| == Rank(a, b)
    ensures forall k: nat :: k < |s| ==> Dim(s, k) == Wider(Dim(a, k), Dim(b, k))
  {
    var n := Rank(a, b);
    seq(n, i requires 0 <= i < n => Wider(Dim(a, n - 1 - i), Dim(b, n - 1 - i)))
  }

  function Larger(da: int, db: int): int { if da > db then da else db }

  /** The shape broadcastShapes computes: the larger dimension everywhere. */
  function Largest(a: Shape, b: Shape): (s: Shape)
    ensures |s| == Rank(a, b)
    ensures forall k: nat :: k < |s| ==> Dim(s, k) == Larger(Dim(a, k), Dim(b, k))
  {
    var n := Rank(a, b);
    seq(n, i requires 0 <= i < n => Larger(Dim(a, n - 1 - i), Dim(b, n - 1 - i)))
  }

  /** A 1 meets something smaller, such as the 0 of an empty tensor. */
  ghost predicate OneMeetsLess(a: Shape, b: Shape) {
    exists k: nat :: k < Rank(a, b) && LessAt(Dim(a, k), Dim(b, k))
  }

  predicate LessAt(da: int, db: int) { (da == 1 && db < 1) || (db == 1 && da < 1) }

  lemma LargestAtExact(a: Shape, b: Shape, k: nat)
    requires Compatible(a, b) && k < Rank(a, b)
    ensures Dim(Largest(a, b), k) == Dim(Joined(a, b), k) <==> !LessAt(Dim(a, k), Dim(b, k))
  {
  }

  /** The two shape computations of the file agree exactly when no 1 meets something smaller. */
  lemma LargestExact(a: Shape, b: Shape)
    requires Compatible(a, b)
    ensures Largest(a, b) == Joined(a, b) <==> !OneMeetsLess(a, b)
  {
    hide Compatible, Largest, Joined, LessAt;
    var l, j := Largest(a, b), Joined(a, b);
    if !OneMeetsLess(a, b) {
      forall i | 0 <= i < |l|
        ensures l[i] == j[i]
      {
        var k := |l| - 1 - i;
        LargestAtExact(a, b, k);
        assert Dim(l, k) == l[i] && Dim(j, k) == j[i];
      }
    } else {
      var k: nat :| k < Rank(a, b) && LessAt(Dim(a, k), Dim(b, k));
      LargestAtExact(a, b, k);
    }
  }

  function Last(s: Shape): int
    requires s != []
  {
    s[|s| - 1]
  }

  function Init(s: Shape): Shape
    requires s != []
  {
    s[..|s| - 1]
  }

  function Total(s: Shape): int { if s == [] then 1 else Total(Init(s)) * Last(s) }

  // ---- positions and coordinates: mixed radix, last dimension fastest ----

  function Coords(i: int, s: Shape): (c: seq<int>)
    requires forall k :: 0 <= k < |s| ==> s[k] != 0
    ensures |c| == |s|
    decreases |s|
  {
    if s == [] then [] else Coords(i / Last(s), Init(s)) + [i % Last(s)]
  }

  function Flat(c: seq<int>, s: Shape): int
    requires |c| == |s|
    decreases |s|
  {
    if s == [] then 0 else Flat(Init(c), Init(s)) * Last(s) + Last(c)
  }

  ghost predicate Within(c: seq<int>, s: Shape) { |c| == |s| && forall k :: 0 <= k < |s| ==> 0 <= c[k] < s[k] }

  lemma MulMono(a: int, b: int, c: int)
    requires a <= b && c >= 0
    ensures a * c <= b * c
  {
  }

  lemma {:induction false} TotalPositive(s: Shape)
    requires Positive(s)
    ensures Total(s) >= 1
  {
    if s != [] {
      TotalPositive(Init(s));
      MulMono(1, Total(Init(s)), Last(s));
    }
  }

  /** A shape of counts has no element at all as soon as one dimension is 0. */
  lemma {:induction false} TotalCounts(s: Shape)
    requires Counts(s)
    ensures Total(s) >= 0 && (Total(s) > 0 <==> Positive(s))
  {
    if s != [] {
      var t := Init(s);
      TotalCounts(t);
      MulMono(0, Total(t), Last(s));
      if Total(t) > 0 && Last(s) > 0 {
        MulMono(1, Total(t), Last(s));
      }
      assert Positive(s) <==> Positive(t) && Last(s) >= 1 by {
        assert forall k :: 0 <= k < |t| ==> t[k] == s[k];
      }
    }
  }

  /** Coordinates within the shape and positions below the total are the same thing. */
  lemma {:induction false} FlatWithin(c: seq<int>, s: Shape)
    requires Positive(s) && Within(c, s)
    ensures 0 <= Flat(c, s) < Total(s) && Coords(Flat(c, s), s) == c
  {
    hide Flat, Coords, Total;
    Steps(c, s);
    if s != [] {
      var f := Flat(Init(c), Init(s));
      FlatWithin(Init(c), Init(s));
      FlatLess(f, Total(Init(s)), Last(s), Last(c));
      CoordsStep(f * Last(s) + Last(c), s);
      Divides(f, Last(s), Last(c));
      assert c == Init(c) + [Last(c)];
    }
  }

  lemma Steps(c: seq<int>, s: Shape)
    requires |c| == |s|
    ensures Flat(c, s) == if s == [] then 0 else Flat(Init(c), Init(s)) * Last(s) + Last(c)
    ensures Total(s) == if s == [] then 1 else Total(Init(s)) * Last(s)
    ensures s == [] ==> forall i :: Coords(i, s) == []
  {
  }

  lemma CoordsStep(i: int, s: Shape)
    requires s != [] && Positive(s)
    ensures Coords(i, s) == Coords(i / Last(s), Init(s)) + [i % Last(s)]
  {
  }

  lemma FlatLess(f: int, t: int, d: int, r: int)
    requires 0 <= f < t && 0 <= r < d
    ensures 0 <= f * d + r < t * d
  {
    MulMono(f + 1, t, d);
    MulMono(0, f, d);
    assert (f + 1) * d == f * d + d;
  }

  lemma Divides(f: int, d: int, r: int)
    requires 0 <= r < d
    ensures (f * d + r) / d == f && (f * d + r) % d == r
  {
    var x := f * d + r;
    var q, m := x / d, x % d;
    assert (q - f) * d == r - m;
    if q > f {
      MulMono(1, q - f, d);
      assert false;
    } else if q < f {
      MulMono(1, f - q, d);
      assert false;
    }
  }

  lemma {:induction false} CoordsFlat(i: int, s: Shape)
    requires Positive(s) && 0 <= i < Total(s)
    ensures Within(Coords(i, s), s) && Flat(Coords(i, s), s) == i
  {
    hide Flat, Coords, Total;
    var c := Coords(i, s);
    Steps(c, s);
    if s != [] {
      var d := Last(s);
      SplitBy(i, Total(Init(s)), d);
      CoordsStep(i, s);
      CoordsFlat(i / d, Init(s));
      assert Init(c) == Coords(i / d, Init(s)) && Last(c) == i % d;
    }
  }

  lemma SplitBy(i: int, t: int, d: int)
    requires d >= 1 && 0 <= i < t * d
    ensures i == i / d * d + i % d && 0 <= i / d < t && 0 <= i % d < d
  {
    if i / d >= t {
      MulMono(t, i / d, d);
      assert false;
    }
  }

  /** The coordinates in the operand: the last ones, 0 where the operand has size 1. */
  function Clamp(c: seq<int>, s: Shape): (r: seq<int>)
    requires |s| <= |c|
    ensures |r| == |s|
  {
    seq(|s|, k requires 0 <= k < |s| => if s[k] == 1 then 0 else c[|c| - |s| + k])
  }

  lemma ClampAt(c: seq<int>, s: Shape, k: nat)
    requires |s| <= |c| && k < |s|
    ensures Clamp(c, s)[k] == if s[k] == 1 then 0 else c[|c| - |s| + k]
  {
  }

  /** Where the element at position i of the result comes from: the defining property of broadcasting. */
  function Source(i: int, out: Shape, s: Shape): int
    requires |s| <= |out| && forall k :: 0 <= k < |out| ==> out[k] != 0
  {
    Flat(Clamp(Coords(i, out), s), s)
  }

  /** s can be stretched to out. */
  ghost predicate Stretches(s: Shape, out: Shape) {
    |s| <= |out| && forall k: nat :: k < |s| ==> Dim(s, k) == 1 || Dim(s, k) == Dim(out, k)
  }

  lemma JoinedStretches(a: Shape, b: Shape)
    requires Counts(a) && Counts(b) && Compatible(a, b)
    ensures Counts(Joined(a, b)) && Stretches(a, Joined(a, b)) && Stretches(b, Joined(a, b))
  {
    var s := Joined(a, b);
    forall i | 0 <= i < |s|
      ensures s[i] >= 0
    {
      assert s[i] == Dim(s, |s| - 1 - i);
    }
  }

  /** A shape with elements is stretched only from shapes with elements. */
  lemma StretchedPositive(out: Shape, s: Shape)
    requires Counts(out) && Total(out) > 0 && Stretches(s, out)
    ensures Positive(out) && Positive(s)
  {
    TotalCounts(out);
    forall k | 0 <= k < |s|
      ensures s[k] >= 1
    {
      assert s[k] == Dim(s, |s| - 1 - k) && out[|out| - |s| + k] == Dim(out, |s| - 1 - k);
    }
  }

  lemma {:induction false} SourceInRange(i: int, out: Shape, s: Shape)
    requires Counts(out) && Stretches(s, out) && 0 <= i < Total(out)
    ensures Positive(out) && 0 <= Source(i, out, s) < Total(s)
  {
    hide Coords, Flat, Total;
    StretchedPositive(out, s);
    CoordsFlat(i, out);
    var c := Coords(i, out);
    forall k | 0 <= k < |s|
      ensures 0 <= Clamp(c, s)[k] < s[k]
    {
      assert s[k] == Dim(s, |s| - 1 - k) && out[|out| - |s| + k] == Dim(out, |s| - 1 - k);
    }
    FlatWithin(Clamp(c, s), s);
  }

  /** Broadcasting to one's own shape moves nothing. */
  lemma {:induction false} SourceSelf(i: int, s: Shape)
    requires Counts(s) && 0 <= i < Total(s)
    ensures Positive(s) && Source(i, s, s) == i
  {
    TotalCounts(s);
    CoordsFlat(i, s);
    assert Clamp(Coords(i, s), s) == Coords(i, s);
  }

  // ---- broadcastIndex: strides ----

  function Stride(s: Shape, from: nat): int
    requires from <= |s|
    decreases |s| - from
  {
    if from == |s| then 1 else s[from] * Stride(s, from + 1)
  }

  /** Go's division, which cuts towards 0, and its remainder, which has the sign of the dividend. */
  function GoDiv(a: int, b: int): int
    requires b >= 1
  {
    if a >= 0 then a / b else -(-a / b)
  }

  function GoMod(a: int, b: int): int
    requires b >= 1
  {
    a - GoDiv(a, b) * b
  }

  /** The coordinate of dimension `od` of position i, by division by a stride. */
  function CoordAt(i: int, out: Shape, od: nat): int
    requires od < |out| && Positive(out)
  {
    StridePositive(out, od + 1);
    GoMod(GoDiv(i, Stride(out, od + 1)), out[od])
  }

  lemma {:induction false} StridePositive(s: Shape, from: nat)
    requires from <= |s| && Positive(s)
    ensures Stride(s, from) >= 1
    decreases |s| - from
  {
    if from < |s| {
      StridePositive(s, from + 1);
      MulMono(1, s[from], Stride(s, from + 1));
    }
  }

  function IndexFrom(i: int, out: Shape, s: Shape, d: nat): int
    requires |s| <= |out| && d <= |s| && Positive(out)
  {
    if d == 0 then 0 else
    IndexFrom(i, out, s, d - 1) + (if s[d - 1] == 1 then 0 else CoordAt(i, out, |out| - |s| + d - 1)) * Stride(s, d)
  }

  /** Dropping the last dimension divides every stride by it. */
  lemma {:induction false} StrideInit(s: Shape, from: nat)
    requires from < |s|
    ensures Stride(s, from) == Stride(Init(s), from) * Last(s)
    decreases |s| - from
  {
    if from < |s| - 1 {
      StrideInit(s, from + 1);
      assert s[from] * (Stride(Init(s), from + 1) * Last(s)) == s[from] * Stride(Init(s), from + 1) * Last(s);
    } else {
      assert Stride(s, from + 1) == 1;
    }
  }

  lemma DivDiv(i: int, a: int, b: int)
    requires a >= 1 && b >= 1
    ensures a * b >= 1 && i / (a * b) == i / b / a
  {
    MulMono(1, a, b);
    var q, m := i / b, i % b;
    var p, r := q / a, q % a;
    assert i == q * b + m && q == p * a + r;
    assert i == p * (a * b) + (r * b + m) by {
      assert (p * a + r) * b == p * (a * b) + r * b;
    }
    MulMono(r + 1, a, b);
    assert (r + 1) * b == r * b + b;
    MulMono(0, r, b);
    Divides(p, a * b, r * b + m);
  }

  lemma GoNonNegative(i: int, a: int, b: int)
    requires i >= 0 && a >= 1 && b >= 1
    ensures GoDiv(i, a) == i / a >= 0 && GoMod(GoDiv(i, a), b) == i / a % b
  {
  }

  lemma GoOdd(i: int, a: int, b: int)
    requires a >= 1 && b >= 1
    ensures GoMod(GoDiv(-i, a), b) == -GoMod(GoDiv(i, a), b)
  {
    GoDivOdd(i, a);
    GoDivOdd(GoDiv(i, a), b);
    var q := GoDiv(GoDiv(i, a), b);
    assert -q * b == -(q * b);
  }

  lemma GoDivOdd(i: int, a: int)
    requires a >= 1
    ensures GoDiv(-i, a) == -GoDiv(i, a)
  {
  }

  lemma {:induction false} CoordAtIs(i: int, out: Shape, od: nat)
    requires od < |out| && Positive(out) && i >= 0
    ensures CoordAt(i, out, od) == Coords(i, out)[od]
    decreases |out|
  {
    var d := Last(out);
    StridePositive(out, od + 1);
    GoNonNegative(i, Stride(out, od + 1), out[od]);
    if od == |out| - 1 {
      assert Stride(out, od + 1) == 1;
    } else {
      CoordAtIs(i / d, Init(out), od);
      StrideInit(out, od + 1);
      StridePositive(Init(out), od + 1);
      GoNonNegative(i / d, Stride(Init(out), od + 1), out[od]);
      DivDiv(i, Stride(Init(out), od + 1), d);
    }
  }

  lemma Factor(f: int, n: int, c: int, k: int)
    ensures f * (n * k) + c * k == (f * n + c) * k
  {
  }

  /** The sum of clamped coordinates times strides, up to dimension d. */
  lemma {:induction false} IndexIs(i: int, out: Shape, s: Shape, d: nat)
    requires |s| <= |out| && d <= |s| && Positive(out) && i >= 0
    ensures IndexFrom(i, out, s, d) == Flat(Clamp(Coords(i, out), s)[..d], s[..d]) * Stride(s, d)
    decreases d
  {
    hide Coords, Clamp, CoordAt;
    if d > 0 {
      IndexIs(i, out, s, d - 1);
      ClampAt(Coords(i, out), s, d - 1);
      var c := Clamp(Coords(i, out), s);
      CoordAtIs(i, out, |out| - |s| + d - 1);
      var f := Flat(c[..d - 1], s[..d - 1]);
      assert Init(c[..d]) == c[..d - 1] && Init(s[..d]) == s[..d - 1];
      Factor(f, s[d - 1], c[d - 1], Stride(s, d));
    }
  }

  function BroadcastIndex(i: int, out: Shape, s: Shape): int
    requires |s| <= |out| && Positive(out)
  {
    if s == [] then 0 else IndexFrom(i, out, s, |s|)
  }

  /** The stride formula computes the position broadcasting asks for. */
  lemma IndexExact(i: int, out: Shape, s: Shape)
    requires |s| <= |out| && Positive(out) && i >= 0
    ensures BroadcastIndex(i, out, s) == Source(i, out, s)
  {
    if s != [] {
      IndexIs(i, out, s, |s|);
      var c := Clamp(Coords(i, out), s);
      assert c[..|s|] == c && s[..|s|] == s;
    }
  }

  /** Below 0 the division cuts towards 0, so that the formula gives the mirror image of the position for -i. */
  lemma IndexMirrored(i: int, out: Shape, s: Shape)
    requires |s| <= |out| && Positive(out) && i < 0
    ensures BroadcastIndex(i, out, s) == -Source(-i, out, s)
  {
    IndexExact(-i, out, s);
    if s != [] {
      IndexOdd(-i, out, s, |s|);
    }
  }

  lemma {:induction false} IndexOdd(i: int, out: Shape, s: Shape, d: nat)
    requires |s| <= |out| && d <= |s| && Positive(out)
    ensures IndexFrom(-i, out, s, d) == -IndexFrom(i, out, s, d)
    decreases d
  {
    hide GoDiv, GoMod;
    if d > 0 {
      IndexOdd(i, out, s, d - 1);
      var od := |out| - |s| + d - 1;
      StridePositive(out, od + 1);
      GoOdd(i, Stride(out, od + 1), out[od]);
      var c, k := if s[d - 1] == 1 then 0 else CoordAt(i, out, od), Stride(s, d);
      assert -c * k == -(c * k);
    }
  }
}

/** The loops. */
module BroadcastImpl {
  import opened Broadcast

  datatype ShapeResult = Ok(shape: Shape) | Incompatible

  /** broadcastShapes takes the larger dimension. */
  method BroadcastShapes(a: Shape, b: Shape) returns (r: ShapeResult)
    ensures r.Ok? <==> Compatible(a, b)
    ensures r.Ok? ==> r.shape == Largest(a, b)
  {
    hide Largest, Compatible;
    var la, lb := |a|, |b|;
    var n := if lb > la then lb else la;
    var out := seq(n, i => 0);
    for i := 1 to n + 1
      invariant |out| == n
      invariant forall k: nat :: k < i - 1 ==> Meets(a, b, k)
      invariant forall j :: n - i < j < n ==> out[j] == Largest(a, b)[j]
    {
      var da := if i <= la then a[la - i] else 1;
      var db := if i <= lb then b[lb - i] else 1;
      assert da == Dim(a, i - 1) && db == Dim(b, i - 1);
      if da != db && da != 1 && db != 1 {
        NotCompatible(a, b, i - 1);
        return Incompatible;
      }
      assert Meets(a, b, i - 1);
      LargestAt(a, b, i - 1);
      out := out[n - i := if da > db then da else db];
    }
    MeetsAll(a, b, n);
    assert out == Largest(a, b);
    r := Ok(out);
  }

  lemma LargestAt(a: Shape, b: Shape, k: nat)
    requires k < Rank(a, b)
    ensures Largest(a, b)[Rank(a, b) - 1 - k] == Larger(Dim(a, k), Dim(b, k))
  {
    assert Dim(Largest(a, b), k) == Largest(a, b)[Rank(a, b) - 1 - k];
  }

  lemma JoinedAt(a: Shape, b: Shape, k: nat)
    requires k < Rank(a, b)
    ensures Joined(a, b)[Rank(a, b) - 1 - k] == Wider(Dim(a, k), Dim(b, k))
  {
    assert Dim(Joined(a, b), k) == Joined(a, b)[Rank(a, b) - 1 - k];
  }

  predicate Meets(a: Shape, b: Shape, k: nat) { Dim(a, k) == Dim(b, k) || Dim(a, k) == 1 || Dim(b, k) == 1 }

  lemma NotCompatible(a: Shape, b: Shape, k: nat)
    requires !Meets(a, b, k)
    ensures !Compatible(a, b)
  {
  }

  lemma MeetsAll(a: Shape, b: Shape, n: nat)
    requires n >= |a| && n >= |b| && forall k: nat :: k < n ==> Meets(a, b, k)
    ensures Compatible(a, b)
  {
    forall k: nat
      ensures Dim(a, k) == Dim(b, k) || Dim(a, k) == 1 || Dim(b, k) == 1
    {
      if k < n {
        assert Meets(a, b, k);
      }
    }
  }

  method BroadcastIndexLoop(flatIdx: int, outShape: Shape, idxShape: Shape) returns (idx: int)
    requires |idxShape| <= |outShape| && Positive(outShape)
    ensures idx == BroadcastIndex(flatIdx, outShape, idxShape)
  {
    if |idxShape| == 0 {
      return 0;
    }
    idx := 0;
    for d := 0 to |idxShape|
      invariant idx == IndexFrom(flatIdx, outShape, idxShape, d)
    {
      var od := |outShape| - |idxShape| + d;
      StridePositive(outShape, od + 1);
      var os := StrideLoop(outShape, od + 1);
      var coord := GoMod(GoDiv(flatIdx, os), outShape[od]);
      if idxShape[d] == 1 {
        coord := 0;
      }
      var step := StrideLoop(idxShape, d + 1);
      idx := idx + coord * step;
    }
  }

  method StrideLoop(shape: Shape, fromDim: nat) returns (s: int)
    requires fromDim <= |shape|
    ensures s == Stride(shape, fromDim)
  {
    s := 1;
    assert Init(shape + [0]) == shape;
    for i := fromDim to |shape|
      invariant s * Stride(shape, i) == Stride(shape, fromDim)
    {
      assert s * (shape[i] * Stride(shape, i + 1)) == s * shape[i] * Stride(shape, i + 1);
      s := s * shape[i];
    }
  }

  datatype Data<T> = Data(data: seq<T>, shape: Shape) | Unsupported

  /** The mixed-radix walk over one result position, dimensions from the last. */
  method Position(i: int, bcShape: Shape, aShape: Shape) returns (aIdx: int)
    requires Positive(bcShape) && Stretches(aShape, bcShape) && 0 <= i < Total(bcShape)
    ensures aIdx == Source(i, bcShape, aShape)
  {
    hide Source, Total;
    var ndim := |bcShape|;
    aIdx := 0;
    var astride := 1;
    var rem := i;
    var d := ndim - 1;
    ghost var left := |aShape|;
    assert bcShape[..ndim] == bcShape && aShape[..left] == aShape;
    while d >= 0
      invariant -1 <= d < ndim && 0 <= left <= |aShape|
        && left == (if d + 1 - (ndim - |aShape|) > 0 then d + 1 - (ndim - |aShape|) else 0)
      invariant 0 <= rem && Positive(bcShape[..d + 1]) && left <= d + 1
      invariant Source(i, bcShape, aShape) == aIdx + astride * Source(rem, bcShape[..d + 1], aShape[..left])
      decreases d
    {
      ghost var out, s := bcShape[..d + 1], aShape[..left];
      assert Last(out) == bcShape[d] && Init(out) == bcShape[..d];
      var coord := rem % bcShape[d];
      ghost var before := rem;
      rem := rem / bcShape[d];
      var ad := |aShape| - 1 - (ndim - 1 - d);
      if ad >= 0 {
        assert Last(s) == aShape[ad] && Init(s) == aShape[..ad];
        assert Dim(aShape, ndim - 1 - d) == aShape[ad] && Dim(bcShape, ndim - 1 - d) == bcShape[d];
        SourceStep(before, out, s);
        ghost var rest := Source(rem, Init(out), Init(s));
        ghost var c := if aShape[ad] == 1 then 0 else coord;
        Spread(astride, rest, aShape[ad], c);
        if aShape[ad] == bcShape[d] {
          aIdx := aIdx + coord * astride;
        }
        astride := astride * aShape[ad];
        left := left - 1;
      } else {
        SourceNone(before, out);
        SourceNone(rem, Init(out));
      }
      d := d - 1;
    }
    SourceNone(rem, []);
  }

  lemma Spread(k: int, rest: int, n: int, c: int)
    ensures k * (rest * n + c) == k * n * rest + c * k
  {
  }

  lemma SourceNone(i: int, out: Shape)
    requires Positive(out)
    ensures Source(i, out, []) == 0
  {
  }

  lemma SourceStep(i: int, out: Shape, s: Shape)
    requires out != [] && s != [] && |s| <= |out| && Positive(out)
    ensures Source(i, out, s) == Source(i / Last(out), Init(out), Init(s)) * Last(s) + if Last(s) == 1 then 0
      else i % Last(out)
  {
    var c := Coords(i, out);
    var k := Clamp(c, s);
    assert Init(k) == Clamp(Coords(i / Last(out), Init(out)), Init(s));
  }

  /** Element i of the result is the operand's element at the position broadcasting asks for. */
  ghost predicate Gathers<T>(data: seq<T>, shape: Shape, aData: seq<T>, aShape: Shape) {
    && |aShape| <= |shape| && |data| == Total(shape)
    && forall i :: 0 <= i < |data| ==> Gathered(i, data, shape, aData, aShape)
  }

  ghost predicate Gathered<T>(i: nat, data: seq<T>, shape: Shape, aData: seq<T>, aShape: Shape)
    requires |aShape| <= |shape| && i < |data|
  {
    Positive(shape) && 0 <= Source(i, shape, aShape) < |aData| && data[i] == aData[Source(i, shape, aShape)]
  }

  /**
   simpleBroadcast, with its two shortcuts: it fails exactly when the shapes are incompatible; otherwise the shape is
   the joint one and element i is the operand's element at the position broadcasting asks for.
   */
  method SimpleBroadcast<T>(aData: seq<T>, aShape: Shape, bShape: Shape) returns (r: Data<T>)
    requires Counts(aShape) && Counts(bShape) && |aData| == Total(aShape)
    ensures r.Data? <==> Compatible(aShape, bShape)
    ensures r.Data? ==> r.shape == Joined(aShape, bShape) && Gathers(r.data, r.shape, aData, aShape)
  {
    hide Source, Compatible, Joined, Total, Gathered;
    if aShape == bShape {
      SelfJoined(aShape);
      Shortcut(aData, aShape);
      return Data(aData, aShape);
    }
    var bc := BroadcastDims(aShape, bShape);
    if bc.Incompatible? {
      return Unsupported;
    }
    var bcShape := bc.shape;
    JoinedStretches(aShape, bShape);
    if bcShape == aShape {
      Shortcut(aData, aShape);
      return Data(aData, bcShape);
    }
    var nel := TotalLoop(bcShape);
    TotalCounts(bcShape);
    var out: seq<T> := [];
    for i := 0 to nel
      invariant |out| == i
      invariant forall j :: 0 <= j < i ==> Gathered(j, out, bcShape, aData, aShape)
    {
      var aIdx := Position(i, bcShape, aShape);
      SourceInRange(i, bcShape, aShape);
      ghost var before := out;
      out := out + [aData[aIdx]];
      GatheredNext(before, aData[aIdx], bcShape, aData, aShape);
    }
    r := Data(out, bcShape);
  }

  lemma GatheredNext<T>(data: seq<T>, x: T, shape: Shape, aData: seq<T>, aShape: Shape)
    requires |aShape| <= |shape| && Positive(shape)
    requires 0 <= Source(|data|, shape, aShape) < |aData| && x == aData[Source(|data|, shape, aShape)]
    ensures Gathered(|data|, data + [x], shape, aData, aShape)
    ensures forall j :: 0 <= j < |data| && Gathered(j, data, shape, aData, aShape) ==>
      Gathered(j, data + [x], shape, aData, aShape)
  {
  }

  method TotalLoop(shape: Shape) returns (n: int)
    ensures n == Total(shape)
  {
    n := 1;
    for i := 0 to |shape|
      invariant n == Total(shape[..i])
    {
      assert Init(shape[..i + 1]) == shape[..i];
      n := n * shape[i];
    }
    assert shape[..|shape|] == shape;
  }

  lemma SelfJoined(s: Shape)
    ensures Compatible(s, s) && Joined(s, s) == s
  {
    forall i | 0 <= i < |s|
      ensures Joined(s, s)[i] == s[i]
    {
      assert Dim(Joined(s, s), |s| - 1 - i) == Dim(s, |s| - 1 - i);
    }
  }

  lemma Shortcut<T>(data: seq<T>, s: Shape)
    requires Counts(s) && |data| == Total(s)
    ensures Gathers(data, s, data, s)
  {
    forall i | 0 <= i < |data|
      ensures Gathered(i, data, s, data, s)
    {
      SourceSelf(i, s);
    }
  }

  /** The shape loop of simpleBroadcast, which picks the dimension by cases. */
  method BroadcastDims(aShape: Shape, bShape: Shape) returns (r: ShapeResult)
    ensures r.Ok? <==> Compatible(aShape, bShape)
    ensures r.Ok? ==> r.shape == Joined(aShape, bShape)
  {
    hide Joined, Compatible;
    var ndim := |aShape|;
    if |bShape| > ndim {
      ndim := |bShape|;
    }
    var bcShape := seq(ndim, i => 0);
    for i := 0 to ndim
      invariant |bcShape| == ndim
      invariant forall k: nat :: k < i ==> Meets(aShape, bShape, k)
      invariant forall j :: ndim - i <= j < ndim ==> bcShape[j] == Joined(aShape, bShape)[j]
    {
      var ai, bi, di := |aShape| - 1 - i, |bShape| - 1 - i, ndim - 1 - i;
      var aDim, bDim := 1, 1;
      if ai >= 0 {
        aDim := aShape[ai];
      }
      if bi >= 0 {
        bDim := bShape[bi];
      }
      assert aDim == Dim(aShape, i) && bDim == Dim(bShape, i);
      JoinedAt(aShape, bShape, i);
      if aDim == bDim {
        bcShape := bcShape[di := aDim];
      } else if aDim == 1 {
        bcShape := bcShape[di := bDim];
      } else if bDim == 1 {
        bcShape := bcShape[di := aDim];
      } else {
        NotCompatible(aShape, bShape, i);
        return Incompatible;
      }
      assert Meets(aShape, bShape, i);
    }
    MeetsAll(aShape, bShape, ndim);
    assert bcShape == Joined(aShape, bShape);
    r := Ok(bcShape);
  }
}
