/** The tile sizes of a matrix product: what fits the scratchpad and accumulator shares, how
    the tile counts are raised to occupy all cores, and whether the tiles still cover it. */
module GemmMapping {
  import opened Arith

  /** Array height, scratchpad and accumulator bytes, tiles in flight, element bytes, cores. */
  datatype Machine = Machine(dim: nat, spad: nat, acc: nat, depth: nat, precision: nat, cores: nat)
  {
    predicate Valid() {
      0 < dim && 0 < precision && 0 < depth && 0 < cores
    }

    function SpadRows(): (rows: nat)
      requires Valid()
      ensures Times(rows, Times(dim, precision)) <= spad / depth < Times(rows + 1, Times(dim, precision))
    {
      Positive(dim, precision);
      DivDiv(spad, depth, dim * precision);
      Positive(dim * precision, depth);
      Whole(spad, depth);
      Whole(spad / depth, dim * precision);
      Spread(spad / depth / (dim * precision), 1, dim * precision);
      spad / (dim * precision * depth)
    }

    function AccRows(): (rows: nat)
      requires Valid()
      ensures Times(rows, Times(dim, 4)) <= acc / depth < Times(rows + 1, Times(dim, 4))
    {
      Positive(dim, 4);
      DivDiv(acc, depth, dim * 4);
      Positive(dim * 4, depth);
      Whole(acc, depth);
      Whole(acc / depth, dim * 4);
      Spread(acc / depth / (dim * 4), 1, dim * 4);
      acc / (dim * 4 * depth)
    }
  }

  /** The integer part of the square root. */
  function ISqrt(n: nat): (r: nat)
    ensures r * r <= n < (r + 1) * (r + 1)
  {
    if n == 0 then 0
    else
      var r := ISqrt(n - 1);
      if (r + 1) * (r + 1) <= n then r + 1 else r
  }

  /** Array-sized blocks along one dimension. */
  function Blocks(n: nat, dim: nat): nat
    requires 0 < dim
  {
    Whole(n, dim);
    n / dim + if n % dim != 0 then 1 else 0
  }

  lemma BlocksCover(n: nat, dim: nat)
    requires 0 < dim
    ensures n <= Times(Blocks(n, dim), dim) < n + dim && (0 < n ==> 0 < Blocks(n, dim))
  {
    Whole(n, dim);
    Spread(n / dim, 1, dim);
  }

  /** Blocks of a tile's side, and of its depth, that double buffering leaves room for. */
  function Side(g: Machine): nat
    requires g.Valid()
  {
    Whole(g.AccRows(), g.dim);
    ISqrt(g.AccRows() / g.dim)
  }

  function Depth(g: Machine): nat
    requires g.Valid() && 0 < Side(g)
  {
    Whole(g.SpadRows() / 2, g.dim);
    Whole(g.SpadRows() / 2 / g.dim, Side(g));
    g.SpadRows() / 2 / g.dim / Side(g)
  }

  // ---- One dimension ----

  /** Tiles along a dimension before the cores are taken into account. */
  function Fewest(n: nat, dim: nat, blocks: nat): nat
    requires 0 < dim && 0 < blocks
  {
    Positive(blocks, dim);
    var fit := CeilDiv(n, blocks * dim);
    if Blocks(n, dim) < fit then Blocks(n, dim) else fit
  }

  /** A tile's extent, rounded down to whole blocks. */
  function Inner(n: nat, dim: nat, tiles: nat): nat
    requires 0 < dim && 0 < tiles
  {
    var inner := CeilDiv(Times(Blocks(n, dim), dim), tiles);
    Whole(inner, dim);
    inner - inner % dim
  }

  /** However many more tiles than the fewest, a tile is within the blocks there is room for. */
  lemma InnerFits(n: nat, dim: nat, blocks: nat, tiles: nat)
    requires 0 < dim && 0 < blocks && 0 < n && 0 < Fewest(n, dim, blocks) <= tiles
    ensures Inner(n, dim, tiles) <= Times(blocks, dim)
  {
    var p, t := Blocks(n, dim), Fewest(n, dim, blocks);
    BlocksCover(n, dim);
    Positive(blocks, dim);
    assert p <= Times(t, blocks) by { FewestEnough(n, dim, blocks); }
    ScaleUp(p, t, tiles, blocks, dim);
    var padded, inner := Times(p, dim), CeilDiv(Times(p, dim), tiles);
    CeilAtMost(padded, Times(blocks, dim), tiles);
    Whole(inner, dim);
  }

  lemma FewestEnough(n: nat, dim: nat, blocks: nat)
    requires 0 < dim && 0 < blocks && 0 < n
    ensures Blocks(n, dim) <= Times(Fewest(n, dim, blocks), blocks)
  {
    var p := Blocks(n, dim);
    Positive(blocks, dim);
    var fit := CeilDiv(n, blocks * dim);
    if p < fit {
      if 1 < blocks { MulOrder(1, blocks, p); }
      assert 1 * p == p && blocks * p == p * blocks;
    } else {
      Spread(fit, blocks, dim);
      BlocksCover(n, dim);
      if Times(fit, blocks) < p { MulOrder(Times(fit, blocks), p, dim); }
    }
  }

  lemma ScaleUp(p: nat, t: nat, tiles: nat, blocks: nat, dim: nat)
    requires p <= Times(t, blocks) && t <= tiles
    ensures Times(p, dim) <= Times(tiles, Times(blocks, dim))
  {
    if t < tiles { MulOrder(t, tiles, blocks); }
    var q := Times(tiles, blocks);
    if p < q { MulOrder(p, q, dim); }
    Spread(tiles, blocks, dim);
  }

  lemma CeilAtMost(a: nat, bound: nat, tiles: nat)
    requires 0 < tiles && a <= Times(tiles, bound)
    ensures CeilDiv(a, tiles) <= bound
  {
    var q := CeilDiv(a, tiles);
    assert bound * tiles == tiles * bound;
    if bound < q { MulOrder(bound, q, tiles); }
  }

  /** The inner extent survives the rounding exactly when there are not so many tiles that
      each gets less than a block. */
  lemma InnerNonZero(n: nat, dim: nat, tiles: nat)
    requires 0 < dim && 0 < tiles && 0 < n
    ensures 0 < Inner(n, dim, tiles) <==> Times(tiles, dim - 1) < Times(Blocks(n, dim), dim)
  {
    var padded := Times(Blocks(n, dim), dim);
    var inner := CeilDiv(padded, tiles);
    Whole(inner, dim);
    if inner < dim {
      Split(0, inner, dim);
      if inner < dim - 1 { MulOrder(inner, dim - 1, tiles); }
    } else {
      if inner / dim == 0 { assert 0 * dim == 0; }
      if dim - 1 < inner { MulOrder(dim - 1, inner, tiles); }
    }
    assert (dim - 1) * tiles == tiles * (dim - 1);
    if padded <= Times(tiles, dim - 1) { CeilAtMost(padded, dim - 1, tiles); }
  }

  // ---- Capacity ----

  lemma Grow(x: nat, y: nat, m: nat)
    requires x <= y
    ensures Times(x, m) <= Times(y, m)
  {
    if x < y { MulOrder(x, y, m); }
  }

  /** Tiles within the side and depth fit the accumulator and the scratchpad. */
  lemma AccumulatorFits(g: Machine, i: nat, j: nat)
    requires g.Valid() && i <= Times(Side(g), g.dim) && j <= Times(Side(g), g.dim)
    ensures Times(i, j) * 4 <= g.acc / g.depth
  {
    var m, d, rows := Side(g), g.dim, g.AccRows();
    Whole(rows, d);
    var mats := rows / d;
    Grow(i, Times(m, d), j);
    assert Times(Times(m, d), j) == Times(j, Times(m, d));
    Grow(j, Times(m, d), Times(m, d));
    assert Times(Times(m, d), Times(m, d)) == Times(m * m, d * d) by { Squares(m, d); }
    Grow(m * m, mats, d * d);
    Spread(mats, d, d);
    Grow(mats * d, rows, d);
    Spread(rows, d, 4);
  }

  lemma Squares(m: nat, d: nat)
    ensures Times(Times(m, d), Times(m, d)) == Times(m * m, d * d)
  {
    Spread(m, d, m * d);
    assert d * (m * d) == m * (d * d);
    Spread(m, m, d * d);
  }

  lemma ScratchpadFits(g: Machine, i: nat, j: nat, k: nat)
    requires g.Valid() && 0 < Side(g)
    requires i <= Times(Side(g), g.dim) && j <= Times(Side(g), g.dim) && k <= Times(Depth(g), g.dim)
    ensures Times(Times(i + j, k), g.precision) <= g.spad / g.depth
  {
    var m, n, d, rows := Side(g), Depth(g), g.dim, g.SpadRows();
    var half := rows / 2;
    Whole(half, d);
    var mats := half / d;
    Whole(mats, m);
    assert Times(n, m) <= mats;
    var side, deep := Times(m, d), Times(n, d);
    Grow(i + j, 2 * side, k);
    assert Times(2 * side, k) == Times(k, 2 * side);
    Grow(k, deep, 2 * side);
    Blocks4(n, m, d);
    Grow(Times(n, m), mats, d * d);
    Spread(mats, d, d);
    Grow(mats * d, half, d);
    assert Times(i + j, k) <= 2 * Times(half, d) <= Times(rows, d) by { Grow(2 * half, rows, d); Spread(2, half, d); }
    Grow(Times(i + j, k), Times(rows, d), g.precision);
    Spread(rows, d, g.precision);
  }

  lemma Blocks4(n: nat, m: nat, d: nat)
    ensures Times(Times(n, d), 2 * Times(m, d)) == 2 * Times(Times(n, m), d * d)
  {
    Spread(n, d, m * d);
    assert d * (m * d) == m * (d * d);
    Spread(n, m, d * d);
    assert Times(n, d) * (2 * Times(m, d)) == 2 * (Times(n, d) * Times(m, d));
  }

  /** A tile with a block more on both sides would not fit the accumulator. */
  lemma SideLargest(g: Machine)
    requires g.Valid()
    ensures var more := Times(Side(g) + 1, g.dim); g.acc / g.depth < Times(more, more) * 4
  {
    var m, d, rows := Side(g) + 1, g.dim, g.AccRows();
    Whole(rows, d);
    var mats := rows / d;
    Squares(m, d);
    Grow(mats + 1, m * m, d * d);
    Spread(mats + 1, d, d);
    Spread(mats, 1, d);
    Grow(rows + 1, (mats + 1) * d, d);
    Grow(Times(rows + 1, d), Times(m * m, d * d), 4);
    Spread(rows + 1, d, 4);
  }

  /** A tile as wide as fits with a block more of depth would not fit the scratchpad. */
  lemma DepthLargest(g: Machine)
    requires g.Valid() && 0 < Side(g)
    ensures var side, deeper := Times(Side(g), g.dim), Times(Depth(g) + 1, g.dim);
            g.spad / g.depth < Times(Times(2 * side, deeper), g.precision)
  {
    var m, n, d, rows := Side(g), Depth(g) + 1, g.dim, g.SpadRows();
    var half := rows / 2;
    Whole(half, d);
    var mats := half / d;
    Whole(mats, m);
    Spread(n - 1, 1, m);
    assert mats + 1 <= Times(n, m);
    Blocks4(n, m, d);
    assert Times(2 * Times(m, d), Times(n, d)) == Times(Times(n, d), 2 * Times(m, d));
    Grow(mats + 1, Times(n, m), d * d);
    Spread(mats + 1, d, d);
    Spread(mats, 1, d);
    Grow(half + 1, (mats + 1) * d, d);
    Grow(rows + 1, 2 * (half + 1), d);
    Spread(2, half + 1, d);
    Grow(Times(rows + 1, d), 2 * Times(Times(n, m), d * d), g.precision);
    Spread(rows + 1, d, g.precision);
  }

  /** The fewest tiles that cover a dimension, each within the blocks there is room for. */
  lemma FewestLeast(n: nat, dim: nat, blocks: nat)
    requires 0 < n && 0 < dim && 0 < blocks
    ensures 0 < Fewest(n, dim, blocks)
    ensures Times(Fewest(n, dim, blocks) - 1, Times(blocks, dim)) < n
    ensures n <= Times(Fewest(n, dim, blocks), Times(blocks, dim))
  {
    var p, t, m := Blocks(n, dim), Fewest(n, dim, blocks), Times(blocks, dim);
    FewestPositive(n, dim, blocks);
    Positive(blocks, dim);
    var fit := CeilDiv(n, m);
    Spread(fit - 1, 1, m);
    Grow(t - 1, fit - 1, m);
    FewestEnough(n, dim, blocks);
    BlocksCover(n, dim);
    Grow(p, Times(t, blocks), dim);
    Spread(t, blocks, dim);
  }

  /** A tile's extent is whole blocks, and loses less than a block by that to an even share. */
  lemma InnerShare(n: nat, dim: nat, tiles: nat)
    requires 0 < dim && 0 < tiles
    ensures var inner, padded := Inner(n, dim, tiles), Times(Blocks(n, dim), dim);
            inner % dim == 0 && Times(inner, tiles) < padded + tiles && padded <= Times(inner + dim - 1, tiles)
  {
    var padded := Times(Blocks(n, dim), dim);
    var share, inner := CeilDiv(padded, tiles), Inner(n, dim, tiles);
    Whole(share, dim);
    Split(share / dim, 0, dim);
    Grow(inner, share, tiles);
    Grow(share, inner + dim - 1, tiles);
  }

  // ---- Occupying the cores ----

  /** The tile counts of rows and columns once raised for the cores. */
  function Raised(cores: nat, i: nat, j: nat, tilesI: nat, tilesJ: nat): (r: (nat, nat))
    requires 0 < cores && 0 < Times(tilesI, tilesJ)
    ensures tilesI <= r.0 && tilesJ <= r.1
  {
    var few := Times(tilesI, tilesJ) < cores;
    var more := CeilDiv(cores, Times(tilesI, tilesJ));
    Grow(1, more, tilesI);
    Grow(1, more, tilesJ);
    var byJ, byI := j > i && j > cores, i > j && i > cores;
    var t: (nat, nat) := (if few && !byJ && byI then Times(more, tilesI) else tilesI,
                          if few && byJ then Times(more, tilesJ) else tilesJ);
    var n := Times(t.0, t.1);
    var extra := n % cores;
    if byJ then (t.0, t.1 + extra) else if byI then (t.0 + extra, t.1) else t
  }

  /** Rows are raised as columns are, the other way about. */
  lemma RaisedMirrors(cores: nat, i: nat, j: nat, tilesI: nat, tilesJ: nat)
    requires 0 < cores && 0 < Times(tilesI, tilesJ)
    ensures 0 < Times(tilesJ, tilesI)
    ensures Raised(cores, i, j, tilesI, tilesJ) ==
              (Raised(cores, j, i, tilesJ, tilesI).1, Raised(cores, j, i, tilesJ, tilesI).0)
  {
    assert Times(tilesI, tilesJ) == Times(tilesJ, tilesI);
    var more := CeilDiv(cores, Times(tilesI, tilesJ));
    assert Times(Times(more, tilesI), tilesJ) == Times(tilesJ, Times(more, tilesI));
    assert Times(tilesI, Times(more, tilesJ)) == Times(Times(more, tilesJ), tilesI);
  }

  /** Only the longer side is raised, when it is longer than there are cores: the columns by the
      least factor that gives every core a tile, and then by what is left over of a round. */
  lemma RaisedColumns(cores: nat, i: nat, j: nat, tilesI: nat, tilesJ: nat) returns (factor: nat)
    requires 0 < cores && 0 < Times(tilesI, tilesJ) && i <= j
    ensures i == j || j <= cores ==> Raised(cores, i, j, tilesI, tilesJ) == (tilesI, tilesJ)
    ensures i < j && cores < j ==>
              && Raised(cores, i, j, tilesI, tilesJ).0 == tilesI
              && Raised(cores, i, j, tilesI, tilesJ).1
                 == Times(factor, tilesJ) + Times(tilesI, Times(factor, tilesJ)) % cores
              && (if cores <= Times(tilesI, tilesJ) then factor == 1
                  else cores <= Times(factor, Times(tilesI, tilesJ)) < cores + Times(tilesI, tilesJ))
  {
    var tiles := Times(tilesI, tilesJ);
    factor := if tiles < cores then CeilDiv(cores, tiles) else 1;
    assert Times(1, tilesJ) == tilesJ;
  }

  // ---- The mapping ----

  datatype Tiles = Tiles(outer: nat, inner: nat)

  /** Outer and inner extents of the three dimensions, or the division by zero the code runs into. */
  datatype Mapping = Mapped(i: Tiles, j: Tiles, k: Tiles) | DividesByZero

  /** The raised tile counts do not leave less than a block to a tile. */
  predicate BlocksLeft(n: nat, dim: nat, tiles: nat)
    requires 0 < dim
  {
    Times(tiles, dim - 1) < Times(Blocks(n, dim), dim)
  }

  /** When the code gets through: there is room for one block each way, no dimension is
      empty, and raising the tile counts for the cores leaves each tile a block. */
  predicate Maps(g: Machine, i: nat, j: nat, k: nat)
    requires g.Valid()
  {
    && 0 < Side(g) && 0 < Depth(g) && 0 < i && 0 < j && 0 < k
    && var tilesI, tilesJ := Fewest(i, g.dim, Side(g)), Fewest(j, g.dim, Side(g));
    && 0 < Times(tilesI, tilesJ)
    && var r := Raised(g.cores, i, j, tilesI, tilesJ);
    && BlocksLeft(i, g.dim, r.0) && BlocksLeft(j, g.dim, r.1)
  }

  ghost predicate FitsAndCovers(g: Machine, i: nat, j: nat, k: nat, m: Mapping)
    requires g.Valid()
  {
    m.Mapped? ==>
      && Times(Times(m.i.inner + m.j.inner, m.k.inner), g.precision) <= g.spad / g.depth
      && Times(m.i.inner, m.j.inner) * 4 <= g.acc / g.depth
      && 0 < m.i.inner && 0 < m.j.inner && 0 < m.k.inner
      && i <= Times(m.i.outer, m.i.inner) && j <= Times(m.j.outer, m.j.inner) && k <= Times(m.k.outer, m.k.inner)
  }

  /** The extents are those of the raised tile counts, and as many tiles as cover them. */
  ghost predicate MapsTo(g: Machine, i: nat, j: nat, k: nat, m: Mapping)
    requires g.Valid()
  {
    m.Mapped? ==>
      && Maps(g, i, j, k)
      && var r := Raised(g.cores, i, j, Fewest(i, g.dim, Side(g)), Fewest(j, g.dim, Side(g)));
      && 0 < r.0 && 0 < r.1 && 0 < Fewest(k, g.dim, Depth(g))
      && m.i.inner == Inner(i, g.dim, r.0) && m.j.inner == Inner(j, g.dim, r.1)
      && m.k.inner == Inner(k, g.dim, Fewest(k, g.dim, Depth(g)))
      && Times(m.i.outer, m.i.inner) < i + m.i.inner && Times(m.j.outer, m.j.inner) < j + m.j.inner
      && Times(m.k.outer, m.k.inner) < k + m.k.inner
  }

  lemma FewestPositive(n: nat, dim: nat, blocks: nat)
    requires 0 < n && 0 < dim && 0 < blocks
    ensures 0 < Fewest(n, dim, blocks) <= Blocks(n, dim)
  {
    BlocksCover(n, dim);
    Positive(blocks, dim);
  }

  /** With the fewest tiles every tile has a block: only raising can take it away. */
  lemma FewestLeaveBlocks(n: nat, dim: nat, blocks: nat)
    requires 0 < n && 0 < dim && 0 < blocks
    ensures BlocksLeft(n, dim, Fewest(n, dim, blocks))
  {
    FewestPositive(n, dim, blocks);
    var t, p := Fewest(n, dim, blocks), Blocks(n, dim);
    Grow(t, p, dim - 1);
    assert p * dim == p * (dim - 1) + p;
  }

  method Dimension(n: nat, dim: nat, tiles: nat) returns (t: Tiles)
    requires 0 < dim && 0 < tiles && 0 < n
    ensures t.inner == Inner(n, dim, tiles)
    ensures if t.inner == 0 then t.outer == 0 else n <= Times(t.outer, t.inner) < n + t.inner
  {
    var padded := Times(Blocks(n, dim), dim);
    var inner := CeilDiv(padded, tiles);
    Whole(inner, dim);
    inner := inner - inner % dim;
    t := Tiles(if inner == 0 then 0 else CeilDiv(n, inner), inner);
  }

  method Map(g: Machine, i: nat, j: nat, k: nat) returns (m: Mapping)
    requires g.Valid()
    ensures m.Mapped? <==> Maps(g, i, j, k)
    ensures FitsAndCovers(g, i, j, k, m) && MapsTo(g, i, j, k, m)
  {
    hide Side, Depth, Fewest, Raised, Inner, Blocks;
    var side := Side(g);
    if side == 0 { return DividesByZero; }
    var depth := Depth(g);
    if depth == 0 || i == 0 || j == 0 || k == 0 { return DividesByZero; }
    var tilesI, tilesJ, tilesK := Fewest(i, g.dim, side), Fewest(j, g.dim, side), Fewest(k, g.dim, depth);
    FewestPositive(i, g.dim, side);
    FewestPositive(j, g.dim, side);
    FewestPositive(k, g.dim, depth);
    Positive(tilesI, tilesJ);
    var raisedI, raisedJ := RaiseTiles(g.cores, i, j, tilesI, tilesJ);
    var di := Dimension(i, g.dim, raisedI);
    var dj := Dimension(j, g.dim, raisedJ);
    var dk := Dimension(k, g.dim, tilesK);
    InnerNonZero(i, g.dim, raisedI);
    InnerNonZero(j, g.dim, raisedJ);
    InnerNonZero(k, g.dim, tilesK);
    FewestLeaveBlocks(k, g.dim, depth);
    if di.inner == 0 || dj.inner == 0 || dk.inner == 0 { return DividesByZero; }
    InnerFits(i, g.dim, side, raisedI);
    InnerFits(j, g.dim, side, raisedJ);
    InnerFits(k, g.dim, depth, tilesK);
    AccumulatorFits(g, di.inner, dj.inner);
    ScratchpadFits(g, di.inner, dj.inner, dk.inner);
    m := Mapped(di, dj, dk);
  }

  method RaiseTiles(cores: nat, i: nat, j: nat, rows: nat, columns: nat) returns (tilesI: nat, tilesJ: nat)
    requires 0 < cores && 0 < Times(rows, columns)
    ensures (tilesI, tilesJ) == Raised(cores, i, j, rows, columns)
  {
    tilesI, tilesJ := rows, columns;
    var tiles := Times(tilesI, tilesJ);
    if tiles < cores {
      var more := CeilDiv(cores, tiles);
      if j > i && j > cores {
        tilesJ := Times(more, tilesJ);
      } else if i > j && i > cores {
        tilesI := Times(more, tilesI);
      }
      tiles := Times(tilesI, tilesJ);
    }
    if tiles % cores != 0 {
      var more := tiles % cores;
      if j > i && j > cores {
        tilesJ := tilesJ + more;
      } else if i > j && i > cores {
        tilesI := tilesI + more;
      }
    }
  }

  /** A product of one block of columns with more columns than there are cores, two at least,
      is cut into more tiles than it has blocks, and does not map. */
  lemma OneBlockFails(g: Machine, i: nat, j: nat, k: nat)
    requires g.Valid() && 2 <= g.cores && 0 < i < j <= g.dim && g.cores < j && 0 < Side(g)
    ensures !Maps(g, i, j, k)
  {
    var d, s := g.dim, Side(g);
    Positive(s, d);
    OneBlock(i, d, s);
    OneBlock(j, d, s);
    var more := CeilDiv(g.cores, 1);
    assert more == g.cores;
    Split(1, 0, g.cores);
    Grow(2, g.cores, d - 1);
  }

  lemma OneBlock(n: nat, dim: nat, blocks: nat)
    requires 0 < n <= dim && 0 < blocks
    ensures Blocks(n, dim) == 1 && Fewest(n, dim, blocks) == 1
  {
    if n == dim { Split(1, 0, dim); } else { Split(0, n, dim); }
    FewestPositive(n, dim, blocks);
  }
}
