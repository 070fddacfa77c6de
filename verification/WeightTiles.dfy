/** Tile-major weight addresses, and their variant that gives each stream of tile rows a
    group of banks of its own. */
module WeightTiles {
  import opened Arith

  const CHUNK: nat := 16384
  const BANKS: nat := 32

  /** A weight matrix of columns columns cut into tiles. */
  datatype Tiling = Tiling(columns: nat, mTile: nat, cTile: nat, precision: nat)
  {
    predicate Valid() {
      0 < columns && 0 < mTile && 0 < cTile && 0 < precision
    }

    function PerRow(): (n: nat)
      requires Valid()
      ensures columns <= Times(n, cTile) < columns + cTile
    {
      CeilDiv(columns, cTile)
    }

    function TileSize(): nat {
      mTile * cTile
    }

    function RowBytes(): nat
      requires Valid()
    {
      Times(Times(PerRow(), TileSize()), precision)
    }
  }

  /** The tile of an element and its place in the tile. */
  function TileId(t: Tiling, m: nat, c: nat): nat
    requires t.Valid()
  {
    Whole(m, t.mTile);
    Whole(c, t.cTile);
    Times(m / t.mTile, t.PerRow()) + c / t.cTile
  }

  function InTile(t: Tiling, m: nat, c: nat): nat
    requires t.Valid()
  {
    Times(m % t.mTile, t.cTile) + c % t.cTile
  }

  function Element(t: Tiling, m: nat, c: nat): nat
    requires t.Valid()
  {
    Times(TileId(t, m, c), t.TileSize()) + InTile(t, m, c)
  }

  /** A tile is one contiguous run: every element lies in its tile's run, at its row-major place. */
  lemma TileIsRun(t: Tiling, m: nat, c: nat)
    requires t.Valid()
    ensures 0 < t.TileSize() && InTile(t, m, c) < t.TileSize()
    ensures Element(t, m, c) / t.TileSize() == TileId(t, m, c) && Element(t, m, c) % t.TileSize() == InTile(t, m, c)
  {
    Positive(t.mTile, t.cTile);
    SplitLess(m % t.mTile, c % t.cTile, t.cTile, t.mTile);
    Split(TileId(t, m, c), InTile(t, m, c), t.TileSize());
  }

  /** Different elements have different addresses. */
  lemma ElementInjective(t: Tiling, m: nat, c: nat, m': nat, c': nat)
    requires t.Valid() && c < t.columns && c' < t.columns && Element(t, m, c) == Element(t, m', c')
    ensures m == m' && c == c'
  {
    TileIsRun(t, m, c);
    TileIsRun(t, m', c');
    DivLess(c, t.PerRow(), t.cTile);
    DivLess(c', t.PerRow(), t.cTile);
    Whole(c, t.cTile);
    Whole(c', t.cTile);
    SplitUnique(m / t.mTile, c / t.cTile, m' / t.mTile, c' / t.cTile, t.PerRow());
    SplitUnique(m % t.mTile, c % t.cTile, m' % t.mTile, c' % t.cTile, t.cTile);
    Rejoin(m, m', t.mTile);
    Rejoin(c, c', t.cTile);
  }

  lemma NextWithin(x: nat, m: nat)
    requires 0 < m && x % m + 1 < m
    ensures (x + 1) / m == x / m && (x + 1) % m == x % m + 1
  {
    Whole(x, m);
    Split(x / m, x % m + 1, m);
  }

  /** Tile-major, row-major: inside a tile the element to the right comes next and the element
      below a tile's width later; the tile to the right comes next, and the tile below after a
      whole row of tiles. */
  lemma TileMajor(t: Tiling, m: nat, c: nat)
    requires t.Valid()
    ensures Element(t, 0, 0) == 0
    ensures c % t.cTile + 1 < t.cTile ==> Element(t, m, c + 1) == Element(t, m, c) + 1
    ensures m % t.mTile + 1 < t.mTile ==> Element(t, m + 1, c) == Element(t, m, c) + t.cTile
    ensures Element(t, m, c + t.cTile) == Element(t, m, c) + t.TileSize()
    ensures Element(t, m + t.mTile, c) == Element(t, m, c) + Times(t.PerRow(), t.TileSize())
  {
    var q, r, n, z := m / t.mTile, c / t.cTile, t.PerRow(), t.TileSize();
    Whole(m, t.mTile);
    Whole(c, t.cTile);
    Split(0, 0, t.mTile);
    Split(0, 0, t.cTile);
    if c % t.cTile + 1 < t.cTile { NextWithin(c, t.cTile); }
    if m % t.mTile + 1 < t.mTile {
      NextWithin(m, t.mTile);
      Spread(m % t.mTile, 1, t.cTile);
    }
    ModShift(c, 1, t.cTile);
    ModShift(m, 1, t.mTile);
    Spread(Times(q, n) + r, 1, z);
    Spread(q, 1, n);
    Spread(Times(q, n) + r, n, z);
  }

  // ---- The tile-bank variant ----

  /** Banks a stream owns. */
  function Group(streams: nat): (g: nat)
    requires 0 < streams
    ensures 1 <= g
  {
    if BANKS / streams > 1 then BANKS / streams else 1
  }

  /** Row stripes a row of tiles takes. */
  function Stripes(streams: nat, rowBytes: nat): nat
    requires 0 < streams
  {
    var chunks := (rowBytes + CHUNK - 1) / CHUNK;
    Whole(chunks + Group(streams) - 1, Group(streams));
    (chunks + Group(streams) - 1) / Group(streams)
  }

  function RowField(streams: nat, rowBytes: nat, row: nat, chunk: nat): nat
    requires 0 < streams
  {
    Whole(row, streams);
    Whole(chunk, Group(streams));
    Times(row / streams, Stripes(streams, rowBytes)) + chunk / Group(streams)
  }

  function BankSlot(streams: nat, row: nat, chunk: nat): nat
    requires 0 < streams
  {
    Times(row % streams, Group(streams)) + chunk % Group(streams)
  }

  /** Byte within of tile row row goes here. */
  function BankOffset(streams: nat, rowBytes: nat, row: nat, within: nat): nat
    requires 0 < streams
  {
    RowField(streams, rowBytes, row, within / CHUNK) * (BANKS * CHUNK) +
        BankSlot(streams, row, within / CHUNK) * CHUNK + within % CHUNK
  }

  /** Where an element is inside its row of tiles. */
  function Within(t: Tiling, m: nat, c: nat): (w: nat)
    requires t.Valid() && c < t.columns
    ensures w == Times(Element(t, m, c), t.precision) - Times(m / t.mTile, t.RowBytes()) && w < t.RowBytes()
  {
    WithinRow(t, m, c);
    Times(Element(t, m, c), t.precision) - Times(m / t.mTile, t.RowBytes())
  }

  lemma WithinRow(t: Tiling, m: nat, c: nat)
    requires t.Valid() && c < t.columns
    ensures 0 <= m / t.mTile && 0 <= c / t.cTile
    ensures Times(Element(t, m, c), t.precision)
         == Times(m / t.mTile, t.RowBytes()) + Times(Times(c / t.cTile, t.TileSize()) + InTile(t, m, c), t.precision)
    ensures Times(Times(c / t.cTile, t.TileSize()) + InTile(t, m, c), t.precision) < t.RowBytes()
  {
    var q, r, n, z := m / t.mTile, c / t.cTile, t.PerRow(), t.TileSize();
    Whole(m, t.mTile);
    Whole(c, t.cTile);
    TileIsRun(t, m, c);
    DivLess(c, n, t.cTile);
    Spread(Times(q, n), r, z);
    Spread(q, n, z);
    var x := Times(r, z) + InTile(t, m, c);
    SplitLess(r, InTile(t, m, c), z, n);
    Spread(Times(q, Times(n, z)), x, t.precision);
    Spread(q, Times(n, z), t.precision);
    MulOrder(x, Times(n, z), t.precision);
  }

  lemma BankSlotFits(streams: nat, row: nat, chunk: nat)
    requires 1 <= streams <= BANKS
    ensures BankSlot(streams, row, chunk) < BANKS
  {
    var g := Group(streams);
    Whole(BANKS, streams);
    if BANKS / streams == 0 { Split(0, BANKS, streams); }
    SplitLess(row % streams, chunk % g, g, streams);
    assert streams * g == g * streams;
  }

  lemma ChunkFits(streams: nat, rowBytes: nat, within: nat)
    requires 0 < streams && within < rowBytes
    ensures within / CHUNK / Group(streams) < Stripes(streams, rowBytes)
  {
    var g, chunks := Group(streams), (rowBytes + CHUNK - 1) / CHUNK;
    Whole(chunks + g - 1, g);
    var n := (chunks + g - 1) / g;
    assert within / CHUNK < chunks;
    assert n * g + (chunks + g - 1) % g == chunks + g - 1;
    DivLess(within / CHUNK, n, g);
  }

  /** With no more streams than banks, different bytes of the rows of tiles never meet. */
  lemma BankOffsetInjective(streams: nat, rowBytes: nat, row: nat, within: nat, row': nat, within': nat)
    requires 1 <= streams <= BANKS && within < rowBytes && within' < rowBytes
    requires BankOffset(streams, rowBytes, row, within) == BankOffset(streams, rowBytes, row', within')
    ensures row == row' && within == within'
  {
    var g, c, c' := Group(streams), within / CHUNK, within' / CHUNK;
    BankSlotFits(streams, row, c);
    BankSlotFits(streams, row', c');
    ChunkFits(streams, rowBytes, within);
    ChunkFits(streams, rowBytes, within');
    var f, b, f', b' := RowField(streams, rowBytes, row, c), BankSlot(streams, row, c),
                        RowField(streams, rowBytes, row', c'), BankSlot(streams, row', c');
    assert f == f' && b == b' && within % CHUNK == within' % CHUNK;
    Whole(row, streams);
    Whole(row', streams);
    Whole(c, g);
    Whole(c', g);
    SplitUnique(row / streams, c / g, row' / streams, c' / g, Stripes(streams, rowBytes));
    SplitUnique(row % streams, c % g, row' % streams, c' % g, g);
    Rejoin(row, row', streams);
    Rejoin(c, c', g);
  }

  ghost predicate Meet(streams: nat, rowBytes: nat, row: nat, within: nat, row': nat, within': nat)
    requires 0 < streams
  {
    && within < rowBytes && within' < rowBytes && (row != row' || within != within')
    && BankOffset(streams, rowBytes, row, within) == BankOffset(streams, rowBytes, row', within')
  }

  ghost predicate NeverMeet(streams: nat, rowBytes: nat)
    requires 0 < streams
  {
    forall row: nat, within: nat, row': nat, within': nat :: !Meet(streams, rowBytes, row, within, row', within')
  }

  /** The tile-bank layout is injective exactly with at most 32 streams: with more, row 32
      spills into the stripe of row 0 or of row streams. */
  lemma BankOffsetExactly(streams: nat, rowBytes: nat)
    requires 0 < streams && 0 < rowBytes
    ensures NeverMeet(streams, rowBytes) <==> streams <= BANKS
  {
    if streams <= BANKS {
      forall row: nat, within: nat, row': nat, within': nat
        ensures !Meet(streams, rowBytes, row, within, row', within')
      {
        if Meet(streams, rowBytes, row, within, row', within') {
          BankOffsetInjective(streams, rowBytes, row, within, row', within');
        }
      }
    } else {
      Split(0, BANKS, streams);
      Split(0, 0, streams);
      Split(1, 0, streams);
      assert Group(streams) == 1;
      var n := Stripes(streams, rowBytes);
      if n == 1 {
        assert Meet(streams, rowBytes, BANKS, 0, streams, 0);
      } else {
        assert Meet(streams, rowBytes, BANKS, 0, 0, CHUNK);
      }
    }
  }

  /** The bank slot of a byte is in its stream's group. */
  lemma SlotOfByte(streams: nat, rowBytes: nat, row: nat, within: nat)
    requires 1 <= streams <= BANKS
    ensures BankOffset(streams, rowBytes, row, within) / CHUNK % BANKS == BankSlot(streams, row, within / CHUNK)
  {
    hide RowField, BankSlot;
    var f, b := RowField(streams, rowBytes, row, within / CHUNK), BankSlot(streams, row, within / CHUNK);
    BankSlotFits(streams, row, within / CHUNK);
    Split(f * BANKS + b, within % CHUNK, CHUNK);
    Split(f, b, BANKS);
  }

  /** The streams share out the banks as far as they go. */
  lemma GroupLargest(streams: nat)
    requires 1 <= streams <= BANKS
    ensures Times(streams, Group(streams)) <= BANKS < Times(streams, Group(streams) + 1)
  {
    var g := Group(streams);
    Whole(BANKS, streams);
    AtLeast(BANKS, streams);
    assert g == BANKS / streams;
    Spread(g, 1, streams);
    assert streams * g == g * streams && streams * (g + 1) == (g + 1) * streams;
  }

  lemma AtLeast(x: nat, m: nat)
    requires 0 < m <= x
    ensures 1 <= x / m
  {
    Whole(x, m);
  }

  /** A row of tiles takes no more stripes than its bytes need. */
  lemma StripesLeast(streams: nat, rowBytes: nat)
    requires 0 < streams && 0 < rowBytes
    ensures var n, g := Stripes(streams, rowBytes), Group(streams);
            0 < n && Times(n - 1, g) * CHUNK < rowBytes <= Times(n, g) * CHUNK
  {
    var g, chunks := Group(streams), (rowBytes + CHUNK - 1) / CHUNK;
    var n := Stripes(streams, rowBytes);
    Whole(chunks + g - 1, g);
    assert n * g <= chunks + g - 1 < n * g + g;
    Spread(n - 1, 1, g);
    assert Times(n - 1, g) < chunks <= Times(n, g);
  }

  /** Where a byte of a row of tiles is, read back from its offset: stream s owns the banks from
      s * g up and goes through them chunk by chunk; its rows lie one below the other. */
  lemma BankOffsetSplits(streams: nat, rowBytes: nat, row: nat, within: nat)
    requires 1 <= streams <= BANKS && within < rowBytes
    ensures var x, g, n := BankOffset(streams, rowBytes, row, within), Group(streams), Stripes(streams, rowBytes);
            var bank, stripe, chunk := x / CHUNK % BANKS, x / (BANKS * CHUNK), within / CHUNK;
            && 0 < g && 0 < n && x % CHUNK == within % CHUNK
            && bank / g == row % streams && bank % g == chunk % g
            && stripe / n == row / streams && stripe % n == chunk / g
  {
    hide BankOffset, RowField, BankSlot, Stripes, Group;
    ChunkFits(streams, rowBytes, within);
    OffsetFields(streams, rowBytes, row, within);
    SlotSplits(streams, row, within / CHUNK);
    FieldSplits(streams, rowBytes, row, within / CHUNK);
  }

  lemma OffsetFields(streams: nat, rowBytes: nat, row: nat, within: nat)
    requires 1 <= streams <= BANKS
    ensures var x, chunk := BankOffset(streams, rowBytes, row, within), within / CHUNK;
            && x % CHUNK == within % CHUNK && x / CHUNK % BANKS == BankSlot(streams, row, chunk)
            && x / (BANKS * CHUNK) == RowField(streams, rowBytes, row, chunk)
  {
    hide RowField, BankSlot;
    var f, b := RowField(streams, rowBytes, row, within / CHUNK), BankSlot(streams, row, within / CHUNK);
    BankSlotFits(streams, row, within / CHUNK);
    SlotOfByte(streams, rowBytes, row, within);
    Split(f * BANKS + b, within % CHUNK, CHUNK);
    Split(f, b * CHUNK + within % CHUNK, BANKS * CHUNK);
  }

  lemma SlotSplits(streams: nat, row: nat, chunk: nat)
    requires 0 < streams
    ensures BankSlot(streams, row, chunk) / Group(streams) == row % streams
    ensures BankSlot(streams, row, chunk) % Group(streams) == chunk % Group(streams)
  {
    hide Group;
    Whole(chunk, Group(streams));
    Split(row % streams, chunk % Group(streams), Group(streams));
  }

  lemma FieldSplits(streams: nat, rowBytes: nat, row: nat, chunk: nat)
    requires 0 < streams && chunk / Group(streams) < Stripes(streams, rowBytes)
    ensures RowField(streams, rowBytes, row, chunk) / Stripes(streams, rowBytes) == row / streams
    ensures RowField(streams, rowBytes, row, chunk) % Stripes(streams, rowBytes) == chunk / Group(streams)
  {
    hide Stripes, Group;
    Whole(row, streams);
    Whole(chunk, Group(streams));
    Split(row / streams, chunk / Group(streams), Stripes(streams, rowBytes));
  }

  /** Tile rows of different streams never share a bank. */
  lemma StreamsApart(streams: nat, rowBytes: nat, row: nat, within: nat, row': nat, within': nat)
    requires 1 <= streams <= BANKS
    requires BankOffset(streams, rowBytes, row, within) / CHUNK % BANKS ==
               BankOffset(streams, rowBytes, row', within') / CHUNK % BANKS
    ensures row % streams == row' % streams
  {
    hide BankOffset;
    SlotOfByte(streams, rowBytes, row, within);
    SlotOfByte(streams, rowBytes, row', within');
    var g := Group(streams);
    SplitUnique(row % streams, within / CHUNK % g, row' % streams, within' / CHUNK % g, g);
  }

  // ---- Addresses in requests ----

  /** The address of a weight, rounded down to a request; streams 0 means plain tile-major. */
  function Address(t: Tiling, streams: nat, request: nat, m: nat, c: nat): nat
    requires t.Valid() && c < t.columns && 0 < request
  {
    Whole(m, t.mTile);
    if streams == 0 then Align(Times(Element(t, m, c), t.precision), request)
    else Align(BankOffset(streams, t.RowBytes(), m / t.mTile, Within(t, m, c)), request)
  }

  lemma AlignedBankOffset(streams: nat, rowBytes: nat, row: nat, within: nat, request: nat)
    requires 0 < streams && 0 < request && CHUNK % request == 0
    ensures Align(BankOffset(streams, rowBytes, row, within), request) ==
              BankOffset(streams, rowBytes, row, Align(within, request))
  {
    hide RowField, BankSlot;
    var f, b := RowField(streams, rowBytes, row, within / CHUNK), BankSlot(streams, row, within / CHUNK);
    AlignWhole(f * BANKS + b, within % CHUNK, CHUNK, request);
    AlignWhole(within / CHUNK, within % CHUNK, CHUNK, request);
  }

  /** In the tile-bank variant two weights share a request exactly when they are in the same
      row of tiles and the same request of it. */
  lemma AddressesApart(t: Tiling, streams: nat, request: nat, m: nat, c: nat, m': nat, c': nat)
    requires t.Valid() && c < t.columns && c' < t.columns && 1 <= streams <= BANKS && 0 < request &&
             CHUNK % request == 0
    ensures Address(t, streams, request, m, c) == Address(t, streams, request, m', c') <==>
            m / t.mTile == m' / t.mTile && Within(t, m, c) / request == Within(t, m', c') / request
  {
    hide BankOffset, Within;
    var w, w' := Within(t, m, c), Within(t, m', c');
    Whole(m, t.mTile);
    Whole(m', t.mTile);
    AlignedBankOffset(streams, t.RowBytes(), m / t.mTile, w, request);
    AlignedBankOffset(streams, t.RowBytes(), m' / t.mTile, w', request);
    Whole(w, request);
    Whole(w', request);
    Split(w / request, 0, request);
    Split(w' / request, 0, request);
    if Address(t, streams, request, m, c) == Address(t, streams, request, m', c') {
      BankOffsetInjective(streams, t.RowBytes(), m / t.mTile, Align(w, request), m' / t.mTile, Align(w', request));
    }
  }
}
