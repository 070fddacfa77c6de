/** The search for the tile of a convolution: shrink until it fits, then grow while it does. */
module TileSearch {
  import opened Arith

  /** Tile sizes, in the order of the search: batches, output rows, output columns, output
      channels, kernel rows, kernel columns, input channels. */
  const OROWS: nat := 1
  const OCOLS: nat := 2
  const OCHS: nat := 3
  const KCHS: nat := 6

  /** What the search works with: the convolution, the height of the array, the bytes of an
      element, and one tile's shares of the scratchpad and the accumulator in bytes. */
  datatype Conv = Conv(stride: nat, kernel: nat, dim: nat, padding: nat, precision: nat, bytes: nat, accBytes: nat)
  {
    predicate Valid() {
      0 < dim && 0 < precision
    }

    predicate Downsample() {
      stride == 2 && kernel == 1 && padding == 0
    }

    function SpadRows(): int
      requires Valid()
    {
      Positive(dim, precision);
      bytes / (dim * precision)
    }

    function AccRows(): int
      requires Valid()
    {
      accBytes / (dim * 4)
    }
  }

  /** The fixed arguments the search passes to the row formula. */
  datatype Shape = Shape(inputDilation: nat, kernelDilation: nat, transWeight: bool, transInput: bool, poolSize: nat,
                         poolStride: nat)

  const PLAIN: Shape := Shape(1, 1, false, false, 1, 1)

  function DivUp(a: int, b: nat): int
    requires 0 < b
  {
    a / b + if a % b != 0 then 1 else 0
  }

  function Dilated(k: int, dilation: int): int {
    k + (dilation - 1) * (k - 1)
  }

  /** Scratchpad or accumulator rows a tile takes. */
  function Rows(acc: bool, c: Conv, h: Shape, a: seq<nat>): int
    requires |a| == 7 && c.Valid() && 0 < h.inputDilation
  {
    var orows: int := a[1] * h.poolStride + h.poolSize - 1;
    var ocols: int := a[2] * h.poolStride + h.poolSize - 1;
    var krows: int := Dilated(a[4], h.kernelDilation);
    var kcols: int := Dilated(a[5], h.kernelDilation);
    var irows := DivUp(orows * c.stride + krows - 1, h.inputDilation);
    var icols := DivUp(ocols * c.stride + kcols - 1, h.inputDilation);
    var rows := if c.Downsample() then irows / 2 else irows;
    var cols := if c.Downsample() then icols / 2 else icols;
    var inPerBank, outPerBank, batchesPerBank := DivUp(a[6], c.dim), DivUp(a[3], c.dim), DivUp(a[0], c.dim);
    var aRows := if h.transInput then batchesPerBank * a[6] * rows * cols else inPerBank * a[0] * rows * cols;
    var bRows := if h.transWeight then inPerBank * a[5] * a[4] * a[3] else outPerBank * a[5] * a[4] * a[6];
    var cRows := outPerBank * a[0] * orows * ocols;
    if acc then cRows else aRows + bRows
  }

  /** The tile fits the scratchpad and the accumulator. */
  predicate Fits(c: Conv, a: seq<nat>)
    requires |a| == 7 && c.Valid()
  {
    Rows(false, c, PLAIN, a) <= c.SpadRows() && Rows(true, c, PLAIN, a) <= c.AccRows()
  }

  function Ones(): (a: seq<nat>)
    ensures |a| == 7 && forall i | 0 <= i < 7 :: a[i] == 1
  {
    seq(7, i => 1)
  }

  function InputBytes(c: Conv, a: seq<nat>): int
    requires |a| == 7
  {
    a[0] * (a[1] + 2 * c.padding) * (a[2] + 2 * c.padding) * a[6] * c.precision
  }

  function WeightBytes(c: Conv, a: seq<nat>): int
    requires |a| == 7
  {
    a[0] * a[3] * a[4] * a[5] * a[6] * c.precision
  }

  function Bytes(c: Conv, a: seq<nat>): int
    requires |a| == 7
  {
    InputBytes(c, a) + WeightBytes(c, a)
  }

  /** Half as much again as the tile's operands is within the share. */
  predicate SizeOk(c: Conv, a: seq<nat>)
    requires |a| == 7
  {
    Bytes(c, a) * 3 / 2 <= c.bytes
  }

  function Grown(a: seq<nat>, i: nat): (b: seq<nat>)
    requires i < |a|
    ensures |b| == |a|
  {
    a[i := a[i] + 1]
  }

  /** The code's test for growing size i: the rows are those of the grown tile, the operand
      bytes those of the tile before. */
  predicate Accepts(c: Conv, top: seq<nat>, a: seq<nat>, i: nat)
    requires |a| == 7 && |top| == 7 && i < 7 && c.Valid()
  {
    a[i] + 1 <= top[i] && Fits(c, Grown(a, i)) && SizeOk(c, a)
  }

  /** No single increment passes the test. */
  ghost predicate LocallyMaximal(c: Conv, top: seq<nat>, a: seq<nat>)
    requires |a| == 7 && |top| == 7 && c.Valid()
  {
    forall i | 0 <= i < 7 :: !Accepts(c, top, a, i)
  }

  ghost predicate Bounded(top: seq<nat>, a: seq<nat>) {
    |a| == |top| == 7 && forall i | 0 <= i < 7 :: 1 <= a[i] <= top[i]
  }

  function Sum(a: seq<nat>): nat
    requires |a| == 7
  {
    a[0] + a[1] + a[2] + a[3] + a[4] + a[5] + a[6]
  }

  lemma SumAt(a: seq<nat>, i: nat, v: nat)
    requires |a| == 7 && i < 7
    ensures Sum(a[i := v]) == Sum(a) - a[i] + v
  {}

  lemma SumBound(top: seq<nat>, a: seq<nat>)
    requires Bounded(top, a)
    ensures Sum(a) <= Sum(top)
  {}

  // ---- Shrinking ----

  /** Output columns are left alone while they fill no more than the array and rows remain. */
  predicate Considered(c: Conv, a: seq<nat>, i: nat)
    requires |a| == 7
  {
    !(i == OCOLS && a[OCOLS] <= c.dim && a[OROWS] > 1)
  }

  /** The first of the largest sizes considered. */
  method Largest(c: Conv, args: array<nat>) returns (index: nat)
    requires args.Length == 7
    ensures index < 7 && Considered(c, args[..], index)
    ensures forall j | 0 <= j < 7 && Considered(c, args[..], j) :: args[j] <= args[index]
    ensures forall j | 0 <= j < index && Considered(c, args[..], j) :: args[j] < args[index]
  {
    var best, at := -1, -1;
    for i := 0 to 7
      invariant -1 <= at < i && (at == -1 <==> best == -1) && (0 < i ==> at != -1)
      invariant at != -1 ==> best == args[at] && Considered(c, args[..], at)
      invariant forall j | 0 <= j < i && Considered(c, args[..], j) :: args[j] <= best
      invariant forall j | 0 <= j < at && Considered(c, args[..], j) :: args[j] < best
    {
      if !(i == OCOLS && args[i] <= c.dim && args[OROWS] > 1) && args[i] > best {
        best, at := args[i], i;
      }
    }
    index := at;
  }

  /** How far a size is taken down: channels to the next multiple of the array, others by one. */
  function Lowered(c: Conv, i: nat, v: nat): (w: nat)
    requires 2 <= v && c.Valid()
    ensures 1 <= w < v
  {
    if i == OCHS || i == KCHS then
      var w := if v % c.dim != 0 then v - v % c.dim else v - c.dim;
      if w == 0 then 1 else w
    else v - 1
  }

  /** Channels go down to the last multiple of the array below them, or to one when there is none. */
  lemma LoweredIs(c: Conv, i: nat, v: nat)
    requires 2 <= v && c.Valid()
    ensures i != OCHS && i != KCHS ==> Lowered(c, i, v) == v - 1
    ensures i == OCHS || i == KCHS ==>
              if v <= c.dim then Lowered(c, i, v) == 1
              else Lowered(c, i, v) % c.dim == 0 && v - c.dim <= Lowered(c, i, v)
  {
    LastMultiple(v, c.dim);
  }

  lemma LastMultiple(v: nat, dim: nat)
    requires 0 < v && 0 < dim
    ensures v % dim != 0 ==> (v - v % dim) % dim == 0 && v - dim < v - v % dim && (v - v % dim == 0 <==> v < dim)
    ensures v % dim == 0 ==> dim <= v && (v - dim) % dim == 0
  {
    var q := v / dim;
    Whole(v, dim);
    Split(q, 0, dim);
    if q == 0 { assert q * dim == 0; } else {
      Spread(q - 1, 1, dim);
      Split(q - 1, 0, dim);
    }
  }

  /** The largest size considered is above one, unless all sizes are one. */
  lemma LargestAboveOne(c: Conv, a: seq<nat>, index: nat)
    requires |a| == 7 && index < 7 && forall i | 0 <= i < 7 :: 1 <= a[i]
    requires forall j | 0 <= j < 7 && Considered(c, a, j) :: a[j] <= a[index]
    ensures 2 <= a[index] || a == Ones()
  {
    if a[index] < 2 {
      assert Considered(c, a, OROWS) && Considered(c, a, 0) && Considered(c, a, 3) && Considered(c, a, 4) &&
          Considered(c, a, 5) && Considered(c, a, 6);
      assert Considered(c, a, OCOLS);
    }
  }

  method Lower(c: Conv, args: array<nat>, i: nat)
    requires args.Length == 7 && i < 7 && 2 <= args[i] && c.Valid()
    modifies args
    ensures args[..] == old(args[..])[i := Lowered(c, i, old(args[i]))]
  {
    if i == OCHS || i == KCHS {
      if args[i] % c.dim != 0 {
        args[i] := args[i] - args[i] % c.dim;
      } else {
        args[i] := args[i] - c.dim;
      }
      args[i] := if args[i] == 0 then 1 else args[i];
    } else {
      args[i] := args[i] - 1;
    }
  }

  /** One lowering: of the first of the largest sizes considered. */
  ghost predicate LowersTo(c: Conv, a: seq<nat>, b: seq<nat>)
    requires |a| == 7 && c.Valid()
  {
    exists i: nat :: LowersAt(c, a, i, b)
  }

  ghost predicate LowersAt(c: Conv, a: seq<nat>, i: nat, b: seq<nat>)
    requires |a| == 7 && c.Valid()
  {
    && i < 7 && Considered(c, a, i) && 2 <= a[i] && b == a[i := Lowered(c, i, a[i])]
    && (forall j | 0 <= j < 7 && Considered(c, a, j) :: a[j] <= a[i])
    && (forall j | 0 <= j < i && Considered(c, a, j) :: a[j] < a[i])
  }

  /** Output columns stay while they fill no more than the array and more than one row is left;
      otherwise they go first when they are the largest. */
  lemma ColumnsKept(c: Conv, a: seq<nat>, b: seq<nat>)
    requires |a| == 7 && c.Valid() && LowersTo(c, a, b)
    ensures |b| == 7
    ensures a[OCOLS] <= c.dim && 1 < a[OROWS] ==> b[OCOLS] == a[OCOLS]
    ensures (c.dim < a[OCOLS] || a[OROWS] <= 1) && (forall j | 0 <= j < 7 && j != OCOLS :: a[j] < a[OCOLS]) ==>
              b == a[OCOLS := a[OCOLS] - 1]
  {
    var i: nat :| LowersAt(c, a, i, b);
    if (c.dim < a[OCOLS] || a[OROWS] <= 1) && (forall j | 0 <= j < 7 && j != OCOLS :: a[j] < a[OCOLS]) {
      assert Considered(c, a, OCOLS);
    }
  }

  /** Lowering by lowering, as long as the tile does not fit and no longer. */
  ghost predicate ShrinksBy(c: Conv, trail: seq<seq<nat>>)
    requires c.Valid()
  {
    && trail != [] && (forall n | 0 <= n < |trail| :: |trail[n]| == 7)
    && forall n | 0 <= n < |trail| - 1 :: !Fits(c, trail[n]) && LowersTo(c, trail[n], trail[n + 1])
  }

  ghost predicate ShrinksTo(c: Conv, from: seq<nat>, to: seq<nat>)
    requires c.Valid()
  {
    exists trail: seq<seq<nat>> :: ShrinksBy(c, trail) && trail[0] == from && trail[|trail| - 1] == to
  }

  lemma ShrinksOn(c: Conv, from: seq<nat>, a: seq<nat>, i: nat, b: seq<nat>)
    requires c.Valid() && ShrinksTo(c, from, a) && |a| == |b| == 7 && !Fits(c, a) && LowersAt(c, a, i, b)
    ensures ShrinksTo(c, from, b)
  {
    hide Fits, LowersAt;
    var trail :| ShrinksBy(c, trail) && trail[0] == from && trail[|trail| - 1] == a;
    var longer := trail + [b];
    forall n | 0 <= n < |longer| - 1 ensures !Fits(c, longer[n]) && LowersTo(c, longer[n], longer[n + 1]) {
      if n == |trail| - 1 { assert longer[n] == a && longer[n + 1] == b; }
    }
    assert ShrinksBy(c, longer) && longer[0] == from && longer[|longer| - 1] == b;
  }

  method Shrink(c: Conv, top: seq<nat>, args: array<nat>)
    requires args.Length == 7 && Bounded(top, args[..]) && c.Valid() && Fits(c, Ones())
    modifies args
    ensures Bounded(top, args[..]) && Fits(c, args[..]) && ShrinksTo(c, old(args[..]), args[..])
    ensures Fits(c, old(args[..])) ==> args[..] == old(args[..])
  {
    hide Rows, ShrinksTo, Considered;
    ShrinksNowhere(c, args[..]);
    while !Fits(c, args[..])
      invariant Bounded(top, args[..]) && ShrinksTo(c, old(args[..]), args[..])
      invariant Fits(c, old(args[..])) ==> args[..] == old(args[..])
      decreases Sum(args[..])
    {
      ghost var before := args[..];
      var i := Largest(c, args);
      LargestAboveOne(c, before, i);
      SumAt(before, i, Lowered(c, i, before[i]));
      Lower(c, args, i);
      ShrinksOn(c, old(args[..]), before, i, args[..]);
    }
  }

  lemma ShrinksNowhere(c: Conv, a: seq<nat>)
    requires c.Valid() && |a| == 7
    ensures ShrinksTo(c, a, a)
  {
    assert ShrinksBy(c, [a]) && [a][0] == a;
  }

  // ---- Growing ----

  method GrowColumns(c: Conv, top: seq<nat>, args: array<nat>)
    requires args.Length == 7 && Bounded(top, args[..]) && c.Valid() && Fits(c, args[..])
    modifies args
    ensures Bounded(top, args[..]) && Fits(c, args[..])
    ensures args[..] == old(args[..])[OCOLS := args[OCOLS]] && old(args[OCOLS]) <= args[OCOLS]
    ensures args[OCOLS] == top[OCOLS] || !Fits(c, Grown(args[..], OCOLS))
  {
    hide Rows;
    var increased := true;
    while increased
      invariant Bounded(top, args[..]) && Fits(c, args[..])
      invariant args[..] == old(args[..])[OCOLS := args[OCOLS]] && old(args[OCOLS]) <= args[OCOLS]
      invariant increased || args[OCOLS] == top[OCOLS] || !Fits(c, Grown(args[..], OCOLS))
      decreases top[OCOLS] - args[OCOLS], increased
    {
      increased := false;
      if args[OCOLS] + 1 <= top[OCOLS] && Fits(c, Grown(args[..], OCOLS)) {
        args[OCOLS] := args[OCOLS] + 1;
        increased := true;
      }
    }
  }

  /** Where growing can have led: nowhere, or to a tile whose last increment passed the test. */
  ghost predicate Led(c: Conv, top: seq<nat>, from: seq<nat>, to: seq<nat>)
    requires |from| == |to| == |top| == 7 && c.Valid()
  {
    to == from || (SizeOk(c, from) && LastStep(c, top, to))
  }

  ghost predicate LastStep(c: Conv, top: seq<nat>, to: seq<nat>)
    requires |to| == |top| == 7 && c.Valid()
  {
    exists before: seq<nat>, i: nat :: StepTo(c, top, before, i, to)
  }

  ghost predicate StepTo(c: Conv, top: seq<nat>, before: seq<nat>, i: nat, to: seq<nat>)
    requires |to| == |top| == 7 && c.Valid()
  {
    Bounded(top, before) && i < 7 && Accepts(c, top, before, i) && to == Grown(before, i)
  }

  lemma LedOn(c: Conv, top: seq<nat>, from: seq<nat>, mid: seq<nat>, to: seq<nat>)
    requires |from| == |mid| == |to| == |top| == 7 && c.Valid() && Led(c, top, from, mid) && Led(c, top, mid, to)
    ensures Led(c, top, from, to)
  {}

  /** The tile when a pass has looked at the first n sizes: each has grown by one if it passed
      the test with what had grown before it. */
  function Passed(c: Conv, top: seq<nat>, a: seq<nat>, n: nat): (b: seq<nat>)
    requires |a| == |top| == 7 && n <= 7 && c.Valid()
    ensures |b| == 7
  {
    if n == 0 then a
    else
      var b := Passed(c, top, a, n - 1);
      if Accepts(c, top, b, n - 1) then Grown(b, n - 1) else b
  }

  function Passes(c: Conv, top: seq<nat>, a: seq<nat>, k: nat): (b: seq<nat>)
    requires |a| == |top| == 7 && c.Valid()
    ensures |b| == 7
  {
    if k == 0 then a else Passed(c, top, Passes(c, top, a, k - 1), 7)
  }

  /** Passes go on until one grows nothing. */
  ghost predicate PassesTo(c: Conv, top: seq<nat>, from: seq<nat>, to: seq<nat>)
    requires |from| == |top| == 7 && c.Valid()
  {
    exists k: nat :: to == Passes(c, top, from, k)
  }

  /** One pass over all sizes, growing each that passes the test. */
  method Pass(c: Conv, top: seq<nat>, args: array<nat>) returns (increased: bool)
    requires args.Length == 7 && Bounded(top, args[..]) && c.Valid() && Fits(c, args[..])
    modifies args
    ensures Bounded(top, args[..]) && Fits(c, args[..]) && Led(c, top, old(args[..]), args[..])
    ensures args[..] == Passed(c, top, old(args[..]), 7)
    ensures if increased then Sum(old(args[..])) < Sum(args[..])
            else args[..] == old(args[..]) && LocallyMaximal(c, top, args[..])
  {
    hide Rows, InputBytes, WeightBytes, LastStep;
    increased := false;
    for i := 0 to 7
      invariant Bounded(top, args[..]) && Fits(c, args[..]) && Led(c, top, old(args[..]), args[..])
      invariant args[..] == Passed(c, top, old(args[..]), i)
      invariant if increased then Sum(old(args[..])) < Sum(args[..])
                else args[..] == old(args[..]) && forall j | 0 <= j < i :: !Accepts(c, top, args[..], j)
    {
      if args[i] + 1 <= top[i] && Fits(c, Grown(args[..], i)) &&
          (InputBytes(c, args[..]) + WeightBytes(c, args[..])) * 3 / 2 <= c.bytes {
        ghost var before := args[..];
        SumAt(before, i, before[i] + 1);
        args[i] := args[i] + 1;
        increased := true;
        assert args[..] == Grown(before, i);
        Stepped(c, top, before, i);
      }
    }
  }

  lemma Stepped(c: Conv, top: seq<nat>, before: seq<nat>, i: nat)
    requires Bounded(top, before) && i < 7 && c.Valid() && Accepts(c, top, before, i)
    ensures SizeOk(c, before) && LastStep(c, top, Grown(before, i))
  {
    assert StepTo(c, top, before, i, Grown(before, i));
  }

  method GrowAll(c: Conv, top: seq<nat>, args: array<nat>)
    requires args.Length == 7 && Bounded(top, args[..]) && c.Valid() && Fits(c, args[..])
    modifies args
    ensures Bounded(top, args[..]) && Fits(c, args[..]) && Sum(old(args[..])) <= Sum(args[..])
    ensures LocallyMaximal(c, top, args[..]) && Led(c, top, old(args[..]), args[..])
    ensures PassesTo(c, top, old(args[..]), args[..])
  {
    hide Rows, InputBytes, WeightBytes, Accepts, Led, Passed;
    LedNowhere(c, top, args[..]);
    var increased := true;
    ghost var k := 0;
    while increased
      invariant Bounded(top, args[..]) && Fits(c, args[..]) && Sum(old(args[..])) <= Sum(args[..]) <= Sum(top)
      invariant Led(c, top, old(args[..]), args[..]) && args[..] == Passes(c, top, old(args[..]), k)
      invariant increased || LocallyMaximal(c, top, args[..])
      decreases Sum(top) - Sum(args[..]), increased
    {
      ghost var mid := args[..];
      increased := Pass(c, top, args);
      LedOn(c, top, old(args[..]), mid, args[..]);
      SumBound(top, args[..]);
      k := k + 1;
    }
  }

  lemma LedNowhere(c: Conv, top: seq<nat>, a: seq<nat>)
    requires |a| == |top| == 7 && c.Valid()
    ensures Led(c, top, a, a)
  {}

  /** What the search returns for the largest tile top, and the start of its growing. */
  ghost predicate Returned(c: Conv, top: seq<nat>, start: seq<nat>, a: seq<nat>)
    requires |top| == 7 && c.Valid()
  {
    && Bounded(top, a) && Fits(c, a) && LocallyMaximal(c, top, a)
    && Bounded(top, start) && Fits(c, start) && Led(c, top, start, a)
    && (Fits(c, top) ==> a == top)
  }

  predicate RaisesColumns(a: seq<nat>, b: seq<nat>) {
    |a| == |b| == 7 && a[OCOLS] <= b[OCOLS] && b == a[OCOLS := b[OCOLS]]
  }

  /** The way the search takes: lowering sizes from the largest tile until it fits, raising the
      output columns as far as they fit, and then pass after pass over all sizes. */
  ghost predicate Takes(c: Conv, top: seq<nat>, start: seq<nat>, a: seq<nat>)
    requires |top| == 7 && c.Valid()
  {
    && |start| == 7 && PassesTo(c, top, start, a)
    && (start[OCOLS] == top[OCOLS] || !Fits(c, Grown(start, OCOLS)))
    && exists shrunk: seq<nat> :: ShrinksTo(c, top, shrunk) && RaisesColumns(shrunk, start)
  }

  /** The whole search, from the largest tile: it ends, keeps every size between one and its
      maximum, and ends at a tile that fits and that no single increment improves.  start is
      the tile the growing under the bytes test begins with; nothing grows from a start that
      fails the test, and the largest tile is kept whenever it fits. */
  method Search(c: Conv, top: seq<nat>) returns (args: array<nat>, ghost start: seq<nat>)
    requires |top| == 7 && (forall i | 0 <= i < 7 :: 1 <= top[i]) && c.Valid() && Fits(c, Ones())
    ensures args.Length == 7 && Returned(c, top, start, args[..]) && Takes(c, top, start, args[..])
  {
    hide Rows, Accepts, Led, ShrinksTo, PassesTo;
    args := new nat[7](i requires 0 <= i < 7 => top[i]);
    assert args[..] == top;
    Shrink(c, top, args);
    ghost var shrunk := args[..];
    GrowColumns(c, top, args);
    start := args[..];
    assert RaisesColumns(shrunk, start);
    if Fits(c, top) { assert start == top; }
    GrowAll(c, top, args);
    if Fits(c, top) { NothingLarger(top, args[..]); }
  }

  lemma NothingLarger(top: seq<nat>, a: seq<nat>)
    requires Bounded(top, a) && Sum(top) <= Sum(a)
    ensures a == top
  {}

  // ---- What fitting means ----

  /** The input rows of a tile hold every row its outputs look at, and reach less than a stride
      past the last. */
  lemma InputReach(outputs: nat, k: nat, stride: nat, dilation: nat, y: nat, x: nat)
    requires 1 <= dilation && y < outputs && x < k
    ensures y * stride + x * dilation + stride <= outputs * stride + Dilated(k, dilation) - 1
    ensures (outputs - 1) * stride + (k - 1) * dilation + stride == outputs * stride + Dilated(k, dilation) - 1
  {
    assert (dilation - 1) * (k - 1) == dilation * (k - 1) - (k - 1);
    assert (outputs - 1) * stride == outputs * stride - stride;
    TimesOrder(y, outputs - 1, stride, stride);
    TimesOrder(x, k - 1, dilation, dilation);
    assert (k - 1) * dilation == dilation * (k - 1);
  }

  lemma DivUpHolds(a: nat, b: nat)
    requires 0 < b
    ensures a <= DivUp(a, b) * b && 0 <= DivUp(a, b)
  {
    assert a == a / b * b + a % b;
  }

  lemma DimLast(g: int, dim: nat, x: int, y: int, z: int)
    ensures g * x * y * z * dim == g * dim * x * y * z
  {
    assert g * dim * x == g * x * dim;
    assert g * x * dim * y == g * x * y * dim;
    assert g * x * y * dim * z == g * x * y * z * dim;
  }

  /** Rows of dim elements that hold groups of dim channels hold all the channels. */
  lemma RowsHold(channels: nat, dim: nat, x: nat, y: nat, z: nat)
    requires 0 < dim
    ensures channels * x * y * z <= DivUp(channels, dim) * x * y * z * dim
  {
    DivUpHolds(channels, dim);
    var g := DivUp(channels, dim);
    DimLast(g, dim, x, y, z);
    Four(channels, x, y, z, g * dim, x, y, z);
  }

  /** A tile that fits has no more inputs, with what the kernel reaches over, and weights than
      the scratchpad has elements, and no more outputs than the accumulator has. */
  lemma FittingTileHolds(c: Conv, a: seq<nat>)
    requires |a| == 7 && c.Valid() && (forall i | 0 <= i < 7 :: 1 <= a[i]) && Fits(c, a)
    ensures var rows, cols := Halved(c, a[1] * c.stride + a[4] - 1), Halved(c, a[2] * c.stride + a[5] - 1);
            a[6] * a[0] * rows * cols + a[3] * a[5] * a[4] * a[6] <= c.SpadRows() * c.dim
    ensures a[3] * a[0] * a[1] * a[2] <= c.AccRows() * c.dim
  {
    hide Rows;
    PlainRows(false, c, a);
    PlainRows(true, c, a);
    InputRows(a[1], a[4], c.stride, c.Downsample());
    InputRows(a[2], a[5], c.stride, c.Downsample());
    var rows, cols := Halved(c, a[1] * c.stride + a[4] - 1), Halved(c, a[2] * c.stride + a[5] - 1);
    RowsHold(a[6], c.dim, a[0], rows, cols);
    RowsHold(a[3], c.dim, a[5], a[4], a[6]);
    RowsHold(a[3], c.dim, a[0], a[1], a[2]);
    var m, n := DivUp(a[6], c.dim) * a[0] * rows * cols, DivUp(a[3], c.dim) * a[5] * a[4] * a[6];
    BothHeld(a[6] * a[0] * rows * cols, a[3] * a[5] * a[4] * a[6], m, n, c.dim, c.SpadRows());
    BothHeld(a[3] * a[0] * a[1] * a[2], 0, DivUp(a[3], c.dim) * a[0] * a[1] * a[2], 0, c.dim, c.AccRows());
  }

  lemma BothHeld(x: int, y: int, m: int, n: int, dim: nat, rows: int)
    requires x <= m * dim && y <= n * dim && m + n <= rows
    ensures x + y <= rows * dim
  {
    Ordered(m + n, rows, dim);
    assert (m + n) * dim == m * dim + n * dim;
  }

  lemma WithinQuotient(x: int, y: nat, m: nat)
    requires 0 < m
    ensures x <= y / m <==> x * m <= y
  {
    Whole(y, m);
    if x <= y / m {
      Ordered(x, y / m, m);
    } else {
      Ordered(y / m + 1, x, m);
      Spread(y / m, 1, m);
    }
  }

  /** The channels with what is missing to full groups as high as the array. */
  function Filled(channels: nat, dim: nat): (f: nat)
    requires 0 < dim
    ensures channels <= f < channels + dim && f % dim == 0
  {
    DivUpHolds(channels, dim);
    Whole(channels, dim);
    assert DivUp(channels, dim) * dim < channels + dim by { Spread(channels / dim, 1, dim); }
    Split(DivUp(channels, dim), 0, dim);
    DivUp(channels, dim) * dim
  }

  /** A tile fits exactly when its elements, channels filled up to full groups, are within its
      shares: the inputs the outputs look at and the weights, and four bytes for every output. */
  lemma FitsExactly(c: Conv, a: seq<nat>)
    requires |a| == 7 && c.Valid() && forall i | 0 <= i < 7 :: 1 <= a[i]
    ensures var rows, cols := Halved(c, a[1] * c.stride + a[4] - 1), Halved(c, a[2] * c.stride + a[5] - 1);
            var ichs, ochs := Filled(a[6], c.dim), Filled(a[3], c.dim);
            Fits(c, a) <==>
              && (ichs * a[0] * rows * cols + ochs * a[5] * a[4] * a[6]) * c.precision <= c.bytes
              && 4 * (ochs * a[0] * a[1] * a[2]) <= c.accBytes
  {
    hide Rows;
    PlainRows(false, c, a);
    PlainRows(true, c, a);
    var rows, cols := Halved(c, a[1] * c.stride + a[4] - 1), Halved(c, a[2] * c.stride + a[5] - 1);
    var i, o := DivUp(a[6], c.dim), DivUp(a[3], c.dim);
    DimLast(i, c.dim, a[0], rows, cols);
    DimLast(o, c.dim, a[5], a[4], a[6]);
    DimLast(o, c.dim, a[0], a[1], a[2]);
    Positive(c.dim, c.precision);
    var m, n := i * a[0] * rows * cols, o * a[5] * a[4] * a[6];
    WithinQuotient(m + n, c.bytes, c.dim * c.precision);
    Distribute(m, n, c.dim);
    Associate(m + n, c.dim, c.precision);
    var r := o * a[0] * a[1] * a[2];
    WithinQuotient(r, c.accBytes, c.dim * 4);
    Associate(r, c.dim, 4);
  }

  /** Where growing ends: a tile is left as it is exactly when half as much again as its operands
      is over the share, or every size is the layer's or would not fit if it were one larger. */
  lemma StopsExactly(c: Conv, top: seq<nat>, a: seq<nat>)
    requires c.Valid() && Bounded(top, a)
    ensures LocallyMaximal(c, top, a) <==>
              || 2 * c.bytes + 1 < 3 * (InputBytes(c, a) + WeightBytes(c, a))
              || forall i | 0 <= i < 7 :: a[i] == top[i] || !Fits(c, a[i := a[i] + 1])
  {
    hide Rows, Fits, InputBytes, WeightBytes;
    forall i | 0 <= i < 7
      ensures Accepts(c, top, a, i) <==> a[i] != top[i] && Fits(c, a[i := a[i] + 1]) && SizeOk(c, a)
    {}
  }

  /** Only a convolution with stride two, a kernel of one and no padding reads every second row. */
  lemma HalvedIs(c: Conv, n: nat)
    ensures if c.stride == 2 && c.kernel == 1 && c.padding == 0 then 2 * Halved(c, n) <= n <= 2 * Halved(c, n) + 1
            else Halved(c, n) == n
  {}

  /** Input rows or columns, halved by a convolution that only takes every second of them. */
  function Halved(c: Conv, n: int): int {
    if c.Downsample() then n / 2 else n
  }

  // ---- What the bytes test is worth ----

  lemma Scaled(p: int, p': int, f: int, f': int, m: nat, n: nat)
    requires 0 <= p && 0 <= p' <= m * p && 0 <= f && 0 <= f' <= n * f
    requires 1 <= m && 1 <= n && m * n <= 2
    ensures 0 <= p * f && 0 <= p' * f' <= (m * n) * (p * f)
  {
    TimesOrder(p', m * p, f', n * f);
    assert (m * p) * (n * f) == (m * n) * (p * f);
    TimesOrder(0, p, 0, f);
  }

  /** One of five factors raised by at most itself at most doubles a product. */
  lemma OneDoubled(x: int, y: int, z: int, u: int, v: int, x': int, y': int, z': int, u': int, v': int, k: nat)
    requires 0 <= x && 0 <= y && 0 <= z && 0 <= u && 0 <= v && k < 5
    requires 0 <= x' <= (if k == 0 then 2 * x else x) && 0 <= y' <= (if k == 1 then 2 * y else y)
    requires 0 <= z' <= (if k == 2 then 2 * z else z) && 0 <= u' <= (if k == 3 then 2 * u else u)
    requires 0 <= v' <= if k == 4 then 2 * v else v
    ensures 0 <= x * y * z * u * v && x' * y' * z' * u' * v' <= 2 * (x * y * z * u * v)
  {
    Scaled(x, x', y, y', if k == 0 then 2 else 1, if k == 1 then 2 else 1);
    Scaled(x * y, x' * y', z, z', if k <= 1 then 2 else 1, if k == 2 then 2 else 1);
    Scaled(x * y * z, x' * y' * z', u, u', if k <= 2 then 2 else 1, if k == 3 then 2 else 1);
    Scaled(x * y * z * u, x' * y' * z' * u', v, v', if k <= 3 then 2 else 1, if k == 4 then 2 else 1);
  }

  /** One more of one size at most doubles the operands. */
  lemma GrownBytes(c: Conv, a: seq<nat>, i: nat)
    requires |a| == 7 && i < 7 && forall j | 0 <= j < 7 :: 1 <= a[j]
    ensures 0 <= Bytes(c, a) && Bytes(c, Grown(a, i)) <= 2 * Bytes(c, a)
  {
    var b := Grown(a, i);
    var d := 2 * c.padding;
    OneDoubled(a[0], a[1] + d, a[2] + d, a[6], c.precision, b[0], b[1] + d, b[2] + d, b[6], c.precision,
               if i == 0 then 0 else if i == 1 then 1 else if i == 2 then 2 else 3);
    WeightDoubled(c, a, i);
  }

  lemma WeightDoubled(c: Conv, a: seq<nat>, i: nat)
    requires |a| == 7 && i < 7 && forall j | 0 <= j < 7 :: 1 <= a[j]
    ensures 0 <= WeightBytes(c, a) && WeightBytes(c, Grown(a, i)) <= 2 * WeightBytes(c, a)
  {
    var b := Grown(a, i);
    OneDoubled(a[0], a[3], a[4], a[5], a[6], b[0], b[3], b[4], b[5], b[6],
               if i == 0 then 0 else if i == 3 then 1 else if i == 4 then 2 else if i == 5 then 3 else 4);
    TwiceScaled(a[0] * a[3] * a[4] * a[5] * a[6], b[0] * b[3] * b[4] * b[5] * b[6], c.precision);
  }

  lemma TwiceScaled(x: int, y: int, m: nat)
    requires 0 <= x && y <= 2 * x
    ensures 0 <= x * m && y * m <= 2 * (x * m)
  {
    Ordered(y, 2 * x, m);
    TimesOrder(0, x, 0, m);
    assert 2 * x * m == 2 * (x * m);
  }

  lemma FiveAscend(x: int, y: int, z: int, u: int, v: int, x': int, y': int, z': int, u': int, v': int)
    requires 0 <= x <= x' && 0 <= y <= y' && 0 <= z <= z' && 0 <= u <= u' && 0 <= v <= v'
    ensures 0 <= x * y * z * u * v <= x' * y' * z' * u' * v'
  {
    TimesOrder(x, x', y, y');
    TimesOrder(x * y, x' * y', z, z');
    TimesOrder(x * y * z, x' * y' * z', u, u');
    TimesOrder(x * y * z * u, x' * y' * z' * u', v, v');
  }

  lemma InputsAscend(c: Conv, a: seq<nat>, b: seq<nat>)
    requires |a| == |b| == 7 && forall i | 0 <= i < 7 :: a[i] <= b[i]
    ensures 0 <= InputBytes(c, a) <= InputBytes(c, b)
  {
    var d := 2 * c.padding;
    FiveAscend(a[0], a[1] + d, a[2] + d, a[6], c.precision, b[0], b[1] + d, b[2] + d, b[6], c.precision);
  }

  lemma WeightsAscend(c: Conv, a: seq<nat>, b: seq<nat>)
    requires |a| == |b| == 7 && forall i | 0 <= i < 7 :: a[i] <= b[i]
    ensures 0 <= WeightBytes(c, a) <= WeightBytes(c, b)
  {
    FiveAscend(a[0], a[3], a[4], a[5], a[6], b[0], b[3], b[4], b[5], b[6]);
    TimesOrder(a[0] * a[3] * a[4] * a[5] * a[6], b[0] * b[3] * b[4] * b[5] * b[6], c.precision, c.precision);
  }

  /** Larger tiles have more operands. */
  lemma BytesAscend(c: Conv, a: seq<nat>, b: seq<nat>)
    requires |a| == |b| == 7 && forall i | 0 <= i < 7 :: a[i] <= b[i]
    ensures 0 <= Bytes(c, a) <= Bytes(c, b)
  {
    hide InputBytes, WeightBytes;
    InputsAscend(c, a, b);
    WeightsAscend(c, a, b);
  }

  /** What can be told of the bytes test before the search.  If the whole layer fits the rows,
      the result meets the test exactly when the layer does; if the layer meets the test, so
      does the result, however much was shrunk; and no result meets it unless the smallest
      tile does. */
  lemma SizeToldBefore(c: Conv, top: seq<nat>, start: seq<nat>, a: seq<nat>)
    requires |top| == 7 && c.Valid() && Returned(c, top, start, a)
    ensures Fits(c, top) ==> (SizeOk(c, a) <==> SizeOk(c, top))
    ensures SizeOk(c, top) ==> SizeOk(c, a)
    ensures SizeOk(c, a) ==> SizeOk(c, Ones())
  {
    hide Rows, Bytes, LocallyMaximal, Led;
    BytesAscend(c, a, top);
    BytesAscend(c, Ones(), a);
  }

  /** Whatever the search returns for this layer meets the test. */
  ghost predicate MeetsTest(c: Conv, top: seq<nat>)
    requires |top| == 7 && c.Valid()
  {
    forall start: seq<nat>, a: seq<nat> :: Returned(c, top, start, a) ==> SizeOk(c, a)
  }

  /** For a layer and all smaller ones: the search meets the bytes test for each of them exactly
      when every tile of theirs that fits the rows passes it. */
  lemma MeetsTestExactly(c: Conv, top: seq<nat>)
    requires |top| == 7 && c.Valid()
    ensures (forall t: seq<nat> | Bounded(top, t) :: MeetsTest(c, t))
       <==> (forall a: seq<nat> | Bounded(top, a) :: Fits(c, a) ==> SizeOk(c, a))
  {
    hide Rows, SizeOk, Accepts;
    if forall t: seq<nat> | Bounded(top, t) :: MeetsTest(c, t) {
      forall a: seq<nat> | Bounded(top, a) ensures Fits(c, a) ==> SizeOk(c, a) {
        if Fits(c, a) {
          assert MeetsTest(c, a);
          KeptWhole(c, a);
        }
      }
    }
    if forall a: seq<nat> | Bounded(top, a) :: Fits(c, a) ==> SizeOk(c, a) {
      forall t: seq<nat> | Bounded(top, t) ensures MeetsTest(c, t) {
        forall start: seq<nat>, a: seq<nat> | Returned(c, t, start, a) ensures SizeOk(c, a) {
          assert Bounded(top, a);
        }
      }
    }
  }

  /** A layer that fits is what the search returns for it. */
  lemma KeptWhole(c: Conv, top: seq<nat>)
    requires c.Valid() && Bounded(top, top) && Fits(c, top)
    ensures Returned(c, top, top, top)
  {
    hide Rows, SizeOk;
  }

  /** The bytes test looks at the tile before the increment.  What the search returns is the
      start, or a tile at most twice the operands of one that passed: then half as much again
      as its operands is at most twice the share, give or take rounding. */
  lemma SizeWithinTwice(c: Conv, top: seq<nat>, start: seq<nat>, a: seq<nat>)
    requires |top| == 7 && Bounded(top, start) && Bounded(top, a) && c.Valid() && Led(c, top, start, a)
    ensures !SizeOk(c, start) ==> a == start
    ensures a != start ==> Bytes(c, a) * 3 <= 4 * c.bytes + 2
  {
    hide Rows, InputBytes, WeightBytes;
    if a != start {
      var before: seq<nat>, i: nat :| StepTo(c, top, before, i, a);
      GrownBytes(c, before, i);
    }
  }

  /** Fitting alone bounds the operands by the share and the padding: without padding they are
      within the share, so that the test can be missed by half at most, and with padding p the
      rows around a tile make them at most (1 + 2p) squared times as many.  Where the tile's
      kernel reaches over the padding they are within the share as well. */
  lemma OperandsWithinShare(c: Conv, top: seq<nat>, a: seq<nat>)
    requires c.Valid() && Bounded(top, a) && Fits(c, a) && top[0] == 1 && 1 <= c.stride
    ensures Bytes(c, a) <= (1 + 2 * c.padding) * (1 + 2 * c.padding) * c.bytes
    ensures 2 * c.padding < a[4] && 2 * c.padding < a[5] ==> Bytes(c, a) <= c.bytes
  {
    hide Rows, Fits;
    FittingTileHolds(c, a);
    var d := 2 * c.padding;
    var rows, cols := Halved(c, a[1] * c.stride + a[4] - 1), Halved(c, a[2] * c.stride + a[5] - 1);
    Reaches(c, a[1], a[4]);
    Reaches(c, a[2], a[5]);
    var weights := a[3] * a[5] * a[4] * a[6];
    var inputs, read := a[6] * a[0] * (a[1] + d) * (a[2] + d), a[6] * a[0] * rows * cols;
    BytesAre(c, a, inputs, weights);
    ShareHolds(c, read + weights);
    PaddedInputs(a[6] * a[0], a[1], a[2], d, rows, cols);
    var f := (1 + d) * (1 + d);
    Four(a[3], a[5], a[4], a[6], a[3], a[5], a[4], a[6]);
    WithinTimes(inputs, read, weights, f, c.precision, c.bytes);
    if d < a[4] && d < a[5] {
      Four(a[6], a[0], a[1] + d, a[2] + d, a[6], a[0], rows, cols);
      WithinTimes(inputs, read, weights, 1, c.precision, c.bytes);
    }
  }

  lemma ShareHolds(c: Conv, elements: int)
    requires c.Valid() && elements <= c.SpadRows() * c.dim
    ensures elements * c.precision <= c.bytes
  {
    Ordered(elements, c.SpadRows() * c.dim, c.precision);
    Positive(c.dim, c.precision);
    Whole(c.bytes, c.dim * c.precision);
    Spread(c.SpadRows(), c.dim, c.precision);
  }

  /** A padded side is at most 1 + d times what is read of it. */
  lemma PaddedSide(x: nat, d: nat, rows: int)
    requires 1 <= x <= rows
    ensures x + d <= (1 + d) * rows
  {
    TimesOrder(1, rows, d, d);
    Distribute(1, d, rows);
  }

  lemma Regroup(n: int, v: int, rows: int, cols: int)
    ensures n * (v * rows) * (v * cols) == v * v * (n * rows * cols)
  {
    var u := n * rows;
    assert n * (v * rows) == v * u;
    assert v * u * (v * cols) == v * (u * (v * cols));
    assert u * (v * cols) == v * (u * cols);
    assert v * (v * (u * cols)) == v * v * (u * cols);
  }

  lemma PaddedInputs(n: nat, x: nat, y: nat, d: nat, rows: int, cols: int)
    requires 1 <= x <= rows && 1 <= y <= cols
    ensures 0 <= n * rows * cols && n * (x + d) * (y + d) <= (1 + d) * (1 + d) * (n * rows * cols)
  {
    PaddedSide(x, d, rows);
    PaddedSide(y, d, cols);
    TimesOrder(n, n, x + d, (1 + d) * rows);
    TimesOrder(n * (x + d), n * ((1 + d) * rows), y + d, (1 + d) * cols);
    Regroup(n, 1 + d, rows, cols);
    TimesOrder(0, n, 0, rows);
    TimesOrder(0, n * rows, 0, cols);
  }

  lemma WithinTimes(inputs: int, read: int, weights: int, f: int, precision: nat, bytes: int)
    requires inputs <= f * read && 0 <= weights && 0 <= read && 1 <= f && (read + weights) * precision <= bytes
    ensures (inputs + weights) * precision <= f * bytes
  {
    TimesOrder(1, f, weights, weights);
    Distribute(read, weights, f);
    Ordered(inputs + weights, f * (read + weights), precision);
    assert f * (read + weights) * precision == f * ((read + weights) * precision);
    TimesOrder(f, f, 0, bytes - (read + weights) * precision);
    assert f * (bytes - (read + weights) * precision) == f * bytes - f * ((read + weights) * precision);
  }

  lemma BytesAre(c: Conv, a: seq<nat>, inputs: int, weights: int)
    requires |a| == 7 && a[0] == 1
    requires inputs == a[6] * a[0] * (a[1] + 2 * c.padding) * (a[2] + 2 * c.padding) &&
             weights == a[3] * a[5] * a[4] * a[6]
    ensures Bytes(c, a) == (inputs + weights) * c.precision
  {
    var x, y := a[1] + 2 * c.padding, a[2] + 2 * c.padding;
    assert a[6] * a[0] * x * y == a[0] * x * y * a[6] by {
      assert a[6] * x == x * a[6];
      assert x * a[6] * y == x * y * a[6];
    }
    assert a[3] * a[5] * a[4] == a[3] * a[4] * a[5];
    assert a[0] * a[3] * a[4] * a[5] * a[6] == weights;
    assert (inputs + weights) * c.precision == inputs * c.precision + weights * c.precision;
  }

  /** The rows read are at least those of the tile, and those counted in bytes when the kernel
      reaches over the padding. */
  lemma Reaches(c: Conv, o: nat, k: nat)
    requires 1 <= o && 1 <= k && 1 <= c.stride
    ensures o <= Halved(c, o * c.stride + k - 1)
    ensures 2 * c.padding < k ==> 0 <= o + 2 * c.padding <= Halved(c, o * c.stride + k - 1)
  {
    TimesOrder(o, o, 1, c.stride);
  }

  /** The largest tile is returned whenever it fits, whether or not it passes the test: here
      256 channels of two bytes fill the share and half as much again does not fit. */
  method SizeCanBeExceeded() returns (args: array<nat>)
    ensures args.Length == 7 && !SizeOk(Conv(1, 1, 1, 0, 2, 1024, 4096), args[..])
  {
    hide Rows;
    var c, top := Conv(1, 1, 1, 0, 2, 1024, 4096), [1, 1, 1, 1, 1, 1, 256];
    PlainRows(false, c, top);
    PlainRows(true, c, top);
    assert Fits(c, top);
    OnesFitFirst(c, top);
    ghost var start;
    args, start := Search(c, top);
    assert InputBytes(c, top) == 512 && WeightBytes(c, top) == 512;
  }

  lemma Ordered(x: int, y: int, m: nat)
    requires x <= y
    ensures x * m <= y * m
  {
    assert 0 <= (y - x) * m;
  }

  // ---- When the search can succeed at all ----

  lemma TimesOrder(x: int, y: int, u: int, v: int)
    requires 0 <= x <= y && 0 <= u <= v
    ensures 0 <= x * u <= y * v
  {
    assert 0 <= x * (v - u);
    assert 0 <= (y - x) * v;
    assert 0 <= x * u;
  }

  lemma DivUpAtLeastOne(a: int, b: nat)
    requires 1 <= a && 0 < b
    ensures 1 <= DivUp(a, b) && DivUp(1, b) == 1
  {
    if b == 1 {
      assert a / 1 == a;
    } else {
      assert 1 / b == 0 && 1 % b == 1;
      if a % b == 0 { assert a / b != 0; }
    }
  }

  lemma PlainRows(acc: bool, c: Conv, a: seq<nat>)
    requires |a| == 7 && c.Valid()
    ensures var irows, icols := a[1] * c.stride + a[4] - 1, a[2] * c.stride + a[5] - 1;
            var rows, cols := Halved(c, irows), Halved(c, icols);
            Rows(acc, c, PLAIN, a) == if acc then DivUp(a[3], c.dim) * a[0] * a[1] * a[2]
              else DivUp(a[6], c.dim) * a[0] * rows * cols + DivUp(a[3], c.dim) * a[5] * a[4] * a[6]
  {
    assert forall x: int :: DivUp(x, 1) == x;
    assert forall k: int :: Dilated(k, 1) == k;
  }

  /** Input rows of a tile are at least those of the smallest. */
  lemma InputRows(o: nat, k: nat, stride: nat, downsample: bool)
    requires 1 <= o && 1 <= k
    ensures var rows := o * stride + k - 1;
            0 <= stride <= rows && (if downsample then stride / 2 <= rows / 2 else true)
  {
    TimesOrder(1, o, stride, stride);
  }

  /** If any tile of sizes of at least one fits, the all-ones tile does: what the search asks
      of its caller is needed for there to be anything to find. */
  lemma OnesFitFirst(c: Conv, a: seq<nat>)
    requires |a| == 7 && c.Valid() && (forall i | 0 <= i < 7 :: 1 <= a[i]) && Fits(c, a)
    ensures Fits(c, Ones())
  {
    hide Rows;
    var n, m := DivUp(a[3], c.dim), DivUp(a[6], c.dim);
    DivUpAtLeastOne(a[3], c.dim);
    DivUpAtLeastOne(a[6], c.dim);
    InputRows(a[1], a[4], c.stride, c.Downsample());
    InputRows(a[2], a[5], c.stride, c.Downsample());
    var s := if c.Downsample() then c.stride / 2 else c.stride;
    var irows, icols := a[1] * c.stride + a[4] - 1, a[2] * c.stride + a[5] - 1;
    var rows := if c.Downsample() then irows / 2 else irows;
    var cols := if c.Downsample() then icols / 2 else icols;
    PlainRows(false, c, a);
    PlainRows(true, c, a);
    PlainRows(false, c, Ones());
    PlainRows(true, c, Ones());
    Four(1, 1, s, s, m, a[0], rows, cols);
    Four(1, 1, 1, 1, n, a[5], a[4], a[6]);
    Four(1, 1, 1, 1, n, a[0], a[1], a[2]);
  }

  lemma Four(x: int, y: int, z: int, w: int, x': int, y': int, z': int, w': int)
    requires 0 <= x <= x' && 0 <= y <= y' && 0 <= z <= z' && 0 <= w <= w'
    ensures x * y * z * w <= x' * y' * z' * w'
  {
    TimesOrder(x, x', y, y');
    TimesOrder(x * y, x' * y', z, z');
    TimesOrder(x * y * z, x' * y' * z', w, w');
  }
}
