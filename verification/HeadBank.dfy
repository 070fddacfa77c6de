/** The head-to-bank KV layout: where each byte of each head's stream goes. */
module HeadBank {
  import opened Arith

  /** Chunk bytes per bank row across all channels, bank slots, banks per head, heads. */
  datatype Layout = Layout(chunk: nat, banks: nat, perHead: nat, heads: nat)
  {
    predicate Valid() {
      0 < chunk && 0 < banks && 0 < perHead && 0 < heads
    }

    /** Heads side by side on one row stripe. */
    function Sets(): nat
      requires Valid()
    {
      if banks / perHead > 1 then banks / perHead else 1
    }

    /** Heads stacked over the same banks, told apart by the row. */
    function Stack(): nat
      requires Valid()
    {
      if heads * perHead / banks > 1 then heads * perHead / banks else 1
    }

    /** Bytes of one row of every bank. */
    function Stripe(): nat {
      banks * chunk
    }
  }

  /** Where byte p of a head's stream goes: the row and bank slot of its chunk, and the place
      inside the chunk. */
  datatype Place = Place(row: nat, bank: nat, within: nat)

  function PlaceOf(g: Layout, head: nat, p: nat, shift: nat): Place
    requires g.Valid()
  {
    var c: nat := p / g.chunk;
    Place(RowOf(c / g.perHead, g.Stack(), head / g.Sets()), BankOf(head, g.perHead, c % g.perHead + shift, g.banks),
          p % g.chunk)
  }

  function RowOf(r: nat, stack: nat, above: nat): nat {
    r * stack + above
  }

  function BankOf(head: nat, perHead: nat, step: nat, banks: nat): nat
    requires 0 < banks
  {
    (head * perHead + step) % banks
  }

  /** shift is the tile index times the tile-bank stride. */
  function Offset(g: Layout, head: nat, p: nat, shift: nat): nat
    requires g.Valid()
  {
    var place := PlaceOf(g, head, p, shift);
    place.row * (g.banks * g.chunk) + place.bank * g.chunk + place.within
  }

  lemma OffsetSplits(g: Layout, head: nat, p: nat, shift: nat)
    requires g.Valid()
    ensures var place, x := PlaceOf(g, head, p, shift), Offset(g, head, p, shift);
            && place.bank < g.banks && place.within < g.chunk && 0 < g.Stripe()
            && x % g.chunk == place.within && (x / g.chunk) % g.banks == place.bank && x / g.Stripe() == place.row
  {
    var place := PlaceOf(g, head, p, shift);
    var slot := place.row * g.banks + place.bank;
    Spread(place.row * g.banks, place.bank, g.chunk);
    Spread(place.row, g.banks, g.chunk);
    Split(slot, place.within, g.chunk);
    Split(place.row, place.bank, g.banks);
    DivDiv(Offset(g, head, p, shift), g.chunk, g.banks);
    Positive(g.banks, g.chunk);
  }

  lemma SameOffset(g: Layout, head: nat, p: nat, head': nat, p': nat, shift: nat, shift': nat)
    requires g.Valid()
    ensures Offset(g, head, p, shift) == Offset(g, head', p', shift') <==>
            PlaceOf(g, head, p, shift) == PlaceOf(g, head', p', shift')
  {
    OffsetSplits(g, head, p, shift);
    OffsetSplits(g, head', p', shift');
  }

  /** The geometries the layout is injective for: either all heads fit side by side, or
      they fill whole stripes. */
  predicate Fits(g: Layout)
    requires g.Valid()
  {
    g.heads * g.perHead <= g.banks || (g.banks % g.perHead == 0 && g.heads * g.perHead % g.banks == 0)
  }

  lemma Exact(x: nat, m: nat)
    requires 0 < m && 0 < x && x % m == 0
    ensures 1 <= x / m && x == x / m * m
  {
    Whole(x, m);
  }

  lemma FitsCounts(g: Layout)
    requires g.Valid() && Fits(g)
    ensures g.Sets() * g.perHead <= g.banks
    ensures g.heads * g.perHead <= g.banks ==> g.heads <= g.Sets()
    ensures g.banks < g.heads * g.perHead ==> g.Sets() * g.perHead == g.banks && g.heads == g.Stack() * g.Sets()
  {
    var n, k := g.heads, g.perHead;
    Whole(g.banks, k);
    if n * k <= g.banks {
      if g.banks / k < n {
        MulOrder(g.banks / k, n, k);
      }
    } else {
      Whole(n * k, g.banks);
      Exact(g.banks, k);
      var s, t := g.banks / k, n * k / g.banks;
      assert g.Sets() == s;
      Exact(n * k, g.banks);
      assert n * k == t * g.banks && t * g.banks == t * s * k by { Spread(t, s, k); }
      if n < t * s { MulOrder(n, t * s, k); }
      if t * s < n { MulOrder(t * s, n, k); }
    }
  }

  /** Whole stripes below a head do not move its bank. */
  lemma BankModStripe(head: nat, s: nat, k: nat, step: nat, b: nat)
    requires 0 < s && 0 < b && s * k == b
    ensures BankOf(head, k, step, b) == BankOf(head % s, k, step, b)
  {
    var q, i := head / s, head % s;
    Whole(head, s);
    Spread(q * s, i, k);
    Spread(q, s, k);
    ModShift(Times(i, k) + step, q, b);
  }

  /** A head's place in its stripe decides its bank, its stripe the row. */
  lemma BankWithinStripe(g: Layout, head: nat, j: nat, shift: nat)
    requires g.Valid() && Fits(g) && head < g.heads && j < g.perHead
    ensures head / g.Sets() < g.Stack()
    ensures Times(head % g.Sets(), g.perHead) + j < g.banks
    ensures BankOf(head, g.perHead, j + shift, g.banks) == BankOf(head % g.Sets(), g.perHead, j + shift, g.banks)
  {
    var s, k := g.Sets(), g.perHead;
    FitsCounts(g);
    Whole(head, s);
    SplitLess(head % s, j, k, s);
    if g.heads * k <= g.banks {
      Split(0, head, s);
    } else {
      DivLess(head, g.Stack(), s);
      BankModStripe(head, s, k, j + shift, g.banks);
    }
  }

  /** The bank slot tells the step and the place in the stripe. */
  lemma BankInjective(g: Layout, head: nat, j: nat, head': nat, j': nat, shift: nat)
    requires g.Valid() && Fits(g) && head < g.heads && head' < g.heads && j < g.perHead && j' < g.perHead
    requires BankOf(head, g.perHead, j + shift, g.banks) == BankOf(head', g.perHead, j' + shift, g.banks)
    ensures head % g.Sets() == head' % g.Sets() && j == j'
  {
    var i, i' := head % g.Sets(), head' % g.Sets();
    BankWithinStripe(g, head, j, shift);
    BankWithinStripe(g, head', j', shift);
    ModInjective(Times(i, g.perHead) + j, Times(i', g.perHead) + j', shift, g.banks);
    SplitUnique(i, j, i', j', g.perHead);
  }

  /** The row tells the group of chunks and the stripe. */
  lemma RowInjective(g: Layout, head: nat, r: nat, head': nat, r': nat)
    requires g.Valid() && Fits(g) && head < g.heads && head' < g.heads
    requires RowOf(r, g.Stack(), head / g.Sets()) == RowOf(r', g.Stack(), head' / g.Sets())
    ensures r == r' && head / g.Sets() == head' / g.Sets()
  {
    Whole(head, g.Sets());
    Whole(head', g.Sets());
    BankWithinStripe(g, head, 0, 0);
    BankWithinStripe(g, head', 0, 0);
    SplitUnique(r, head / g.Sets(), r', head' / g.Sets(), g.Stack());
  }

  /** Different bytes of different heads never meet, within one shift. */
  lemma PlaceInjective(g: Layout, head: nat, p: nat, head': nat, p': nat, shift: nat)
    requires g.Valid() && Fits(g) && head < g.heads && head' < g.heads
    requires PlaceOf(g, head, p, shift) == PlaceOf(g, head', p', shift)
    ensures head == head' && p == p'
  {
    hide RowOf, BankOf;
    Whole(p, g.chunk);
    Whole(p', g.chunk);
    var c, c' := p / g.chunk, p' / g.chunk;
    Whole(c, g.perHead);
    Whole(c', g.perHead);
    BankInjective(g, head, c % g.perHead, head', c' % g.perHead, shift);
    RowInjective(g, head, c / g.perHead, head', c' / g.perHead);
    Rejoin(head, head', g.Sets());
    Rejoin(c, c', g.perHead);
    Rejoin(p, p', g.chunk);
  }

  ghost predicate Collision(g: Layout, stream: nat, head: nat, p: nat, head': nat, p': nat, shift: nat)
    requires g.Valid()
  {
    head < g.heads && head' < g.heads && p < stream && p' < stream && (head != head' || p != p') &&
        Offset(g, head, p, shift) == Offset(g, head', p', shift)
  }

  ghost predicate NoCollision(g: Layout, stream: nat, shift: nat)
    requires g.Valid()
  {
    forall head: nat, p: nat, head': nat, p': nat :: !Collision(g, stream, head, p, head', p', shift)
  }

  /** The place of the start of chunk c. */
  lemma ChunkPlace(g: Layout, head: nat, c: nat, shift: nat)
    requires g.Valid()
    ensures PlaceOf(g, head, Times(c, g.chunk), shift) ==
            Place(RowOf(c / g.perHead, g.Stack(), head / g.Sets()),
                  BankOf(head, g.perHead, c % g.perHead + shift, g.banks), 0)
  {
    hide RowOf, BankOf, Times;
    ChunkStart(c, g.chunk);
  }

  lemma ChunkStart(c: nat, chunk: nat)
    requires 0 < chunk
    ensures Times(c, chunk) / chunk == c && Times(c, chunk) % chunk == 0
  {
    Split(c, 0, chunk);
  }

  /** More banks a head than there are banks: a head meets itself. */
  lemma CollidesAlone(g: Layout, stream: nat, shift: nat)
    requires g.Valid() && g.banks < g.perHead && g.perHead * g.chunk <= stream
    ensures Collision(g, stream, 0, 0, 0, Times(g.banks, g.chunk), shift)
  {
    ChunkPlace(g, 0, 0, shift);
    ChunkPlace(g, 0, g.banks, shift);
    Split(0, g.banks, g.perHead);
    Split(0, 0, g.perHead);
    ModShift(shift, 1, g.banks);
    Positive(g.banks, g.chunk);
    assert 0 * g.chunk == 0 && 0 * g.perHead == 0;
    SameOffset(g, 0, 0, 0, Times(g.banks, g.chunk), shift, shift);
    MulOrder(g.banks, g.perHead, g.chunk);
  }

  /** The bank of a chunk depends on the shift only through a rotation. */
  lemma BankRotates(head: nat, perHead: nat, j: nat, head': nat, j': nat, shift: nat, banks: nat)
    requires 0 < banks && BankOf(head, perHead, j, banks) == BankOf(head', perHead, j', banks)
    ensures BankOf(head, perHead, j + shift, banks) == BankOf(head', perHead, j' + shift, banks)
  {
    ModAdd(head * perHead + j, shift, banks);
    ModAdd(head' * perHead + j', shift, banks);
  }

  /** Some step of any head's banks is a bank of the first stripe. */
  lemma Overlap(head: nat, s: nat, k: nat, b: nat) returns (j: nat, head': nat, j': nat)
    requires 0 < k && 0 < s * k <= b < s * k + k
    ensures j < k && j' < k && head' < s && BankOf(head, k, j, b) == BankOf(head', k, j', b)
  {
    var x := Times(head, k) % b;
    j := if x < s * k then 0 else b - x;
    ModAdd(Times(head, k), j, b);
    Small(x + j, b);
    var y := (x + j) % b;
    DivLess(y, s, k);
    Whole(y, k);
    head', j' := y / k, y % k;
    Split(0, y, b);
    assert BankOf(head', k, j', b) == y;
  }

  /** Heads that neither fit side by side nor fill whole stripes: the first head of the
      stripe too many meets a head of the first stripe one row up. */
  lemma CollidesAcross(g: Layout, stream: nat, shift: nat) returns (head: nat, p: nat, head': nat, p': nat)
    requires g.Valid() && !Fits(g) && g.perHead <= g.banks && 2 * g.perHead * g.chunk <= stream
    ensures Collision(g, stream, head, p, head', p', shift)
  {
    var k, b, s, t := g.perHead, g.banks, g.Sets(), g.Stack();
    head := Times(t, s);
    StripeTooMany(g);
    var j, j';
    j, head', j' := Overlap(head, s, k, b);
    p, p' := Times(j, g.chunk), Times(k + j', g.chunk);
    MulOrder(j, 2 * k, g.chunk);
    MulOrder(k + j', 2 * k, g.chunk);
    ChunkPlace(g, head, j, shift);
    ChunkPlace(g, head', k + j', shift);
    Rows(j, j', head', k, s, t);
    BankRotates(head, k, j, head', j', shift, b);
    SameOffset(g, head, p, head', p', shift, shift);
    MulOrder(0, t, s);
  }

  /** The first chunk group of head t * s and the second of a head below s share a row. */
  lemma Rows(j: nat, j': nat, head': nat, k: nat, s: nat, t: nat)
    requires j < k && j' < k && head' < s
    ensures j / k == 0 && j % k == j && (k + j') / k == 1 && (k + j') % k == j'
    ensures RowOf(0, t, Times(t, s) / s) == RowOf(1, t, head' / s) && head' / s == 0
  {
    Split(0, j, k);
    Split(1, j', k);
    Split(t, 0, s);
    Split(0, head', s);
  }

  lemma AtLeastOne(x: nat, m: nat)
    requires 0 < m <= x
    ensures 1 <= x / m
  {
    Whole(x, m);
  }

  /** n heads of k banks squeezed into t stripes of s heads fill them exactly. */
  lemma Squeeze(n: nat, k: nat, t: nat, s: nat, b: nat)
    requires n <= t * s && s * k <= b && t * b <= n * k && 0 < t && 0 < k
    ensures s * k == b && n * k == t * b
  {
    Spread(t, s, k);
    if n < t * s { MulOrder(n, t * s, k); }
    var x := Times(s, k);
    assert x * t == t * x && b * t == t * b;
    if x < b { MulOrder(x, b, t); }
  }

  lemma FilledFits(g: Layout)
    requires g.Valid() && g.perHead <= g.banks < g.heads * g.perHead && g.heads <= g.Stack() * g.Sets()
    ensures Fits(g)
  {
    var n, k, b, s, t := g.heads, g.perHead, g.banks, g.Sets(), g.Stack();
    Whole(b, k);
    Whole(n * k, b);
    AtLeastOne(b, k);
    AtLeastOne(n * k, b);
    Squeeze(n, k, t, s, b);
    Split(s, 0, k);
    Split(t, 0, b);
  }

  lemma StripeTooMany(g: Layout)
    requires g.Valid() && !Fits(g) && g.perHead <= g.banks
    ensures g.Stack() * g.Sets() < g.heads && g.banks - g.Sets() * g.perHead < g.perHead &&
            0 < g.Sets() * g.perHead <= g.banks
  {
    Whole(g.banks, g.perHead);
    AtLeastOne(g.banks, g.perHead);
    Positive(g.Sets(), g.perHead);
    if g.heads <= g.Stack() * g.Sets() {
      FilledFits(g);
    }
  }

  /** The layout is injective exactly for the geometries that fit: with streams of two chunks
      for each bank of a head at least. */
  lemma OffsetInjective(g: Layout, stream: nat, shift: nat)
    requires g.Valid() && 2 * g.perHead * g.chunk <= stream
    ensures NoCollision(g, stream, shift) <==> Fits(g)
  {
    if Fits(g) {
      forall head: nat, p: nat, head': nat, p': nat ensures !Collision(g, stream, head, p, head', p', shift) {
        SameOffset(g, head, p, head', p', shift, shift);
        if head < g.heads && head' < g.heads && PlaceOf(g, head, p, shift) == PlaceOf(g, head', p', shift) {
          PlaceInjective(g, head, p, head', p', shift);
        }
      }
    } else if g.banks < g.perHead {
      assert 2 * g.perHead * g.chunk == g.perHead * g.chunk + g.perHead * g.chunk;
      CollidesAlone(g, stream, shift);
    } else {
      var head, p, head', p' := CollidesAcross(g, stream, shift);
    }
  }
}
