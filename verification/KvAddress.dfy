/** Addresses of the paged KV cache under the head-to-bank layout, from (head, token,
    element) to the bank of the DRAM request. */
module KvAddress {
  import opened Arith
  import opened Collections
  import opened HeadBank

  /** Tokens per block, elements per row and head, bytes per element, bytes per request. */
  datatype Paging = Paging(block: nat, width: nat, precision: nat, request: nat)
  {
    predicate Valid() {
      0 < block && 0 < width && 0 < precision && 0 < request && Times(width, precision) % request == 0
    }
  }

  ghost predicate IsPermutation(table: seq<nat>) {
    && (forall i | 0 <= i < |table| :: table[i] < |table|)
    && (forall i, j | 0 <= i < j < |table| :: table[i] != table[j])
  }

  /** Block numbers shuffled by swaps: block m comes last, and then changes places with the one
      drawn among those there. */
  function Shuffled(draws: seq<nat>): (table: seq<nat>)
    ensures |table| == |draws|
  {
    if draws == [] then []
    else
      var m := |draws| - 1;
      var t := Shuffled(draws[..m]) + [m];
      t[m := t[draws[m] % (m + 1)]][draws[m] % (m + 1) := t[m]]
  }

  function Drawn(draw: nat -> nat, n: nat): (draws: seq<nat>)
    ensures |draws| == n && forall i | 0 <= i < n :: draws[i] == draw(i)
  {
    if n == 0 then [] else Drawn(draw, n - 1) + [draw(n - 1)]
  }

  /** The first i draws have been made. */
  ghost predicate ShuffledUpTo(t: seq<nat>, draw: nat -> nat, i: nat) {
    IsPermutation(t) && i <= |t| && t[..i] == Shuffled(Drawn(draw, i)) && forall j | i <= j < |t| :: t[j] == j
  }

  lemma ShuffledMore(t: seq<nat>, draw: nat -> nat, i: nat)
    requires ShuffledUpTo(t, draw, i) && i < |t|
    ensures var j := draw(i) % (i + 1); ShuffledUpTo(t[i := t[j]][j := t[i]], draw, i + 1)
  {
    hide Shuffled;
    var j := draw(i) % (i + 1);
    Swapped(t, i, j);
    assert t[..i + 1] == t[..i] + [i];
    assert t[i := t[j]][j := t[i]][..i + 1] == t[..i + 1][i := t[j]][j := t[i]];
    ShuffledOn(Drawn(draw, i), draw(i));
  }

  /** The block table: the identity, shuffled by swaps as drawn. */
  method BlockTable(n: nat, shuffle: bool, draw: nat -> nat) returns (table: array<nat>)
    ensures table.Length == n && IsPermutation(table[..])
    ensures !shuffle ==> forall i | 0 <= i < n :: table[i] == i
    ensures shuffle ==> table[..] == Shuffled(Drawn(draw, n))
  {
    table := new nat[n];
    for i := 0 to n
      invariant forall j | 0 <= j < i :: table[j] == j
    {
      table[i] := i;
    }
    if shuffle {
      Shuffle(table, draw);
    }
  }

  lemma ShuffledNone(t: seq<nat>, draw: nat -> nat)
    requires forall i | 0 <= i < |t| :: t[i] == i
    ensures IsPermutation(t) && ShuffledUpTo(t, draw, 0)
  {}

  lemma ShuffledAll(t: seq<nat>, draw: nat -> nat)
    requires ShuffledUpTo(t, draw, |t|)
    ensures IsPermutation(t) && t == Shuffled(Drawn(draw, |t|))
  {
    assert t[..|t|] == t;
  }

  method Shuffle(table: array<nat>, draw: nat -> nat)
    requires forall i | 0 <= i < table.Length :: table[i] == i
    modifies table
    ensures IsPermutation(table[..]) && table[..] == Shuffled(Drawn(draw, table.Length))
  {
    hide ShuffledUpTo, IsPermutation, Shuffled;
    ShuffledNone(table[..], draw);
    for i := 0 to table.Length
      invariant ShuffledUpTo(table[..], draw, i)
    {
      var j := draw(i) % (i + 1);
      ghost var before := table[..];
      table[i], table[j] := table[j], table[i];
      assert table[..] == before[i := before[j]][j := before[i]];
      ShuffledMore(before, draw, i);
    }
    ShuffledAll(table[..], draw);
  }

  lemma Swapped(s: seq<nat>, i: nat, j: nat)
    requires i < |s| && j < |s| && IsPermutation(s)
    ensures IsPermutation(s[i := s[j]][j := s[i]])
  {}

  function Elements(s: seq<nat>): (e: set<nat>)
    ensures forall x: nat :: x in e <==> x in s
  {
    if s == [] then {} else Elements(s[..|s| - 1]) + {s[|s| - 1]}
  }

  lemma {:induction false} ElementCount(s: seq<nat>)
    requires forall i, j | 0 <= i < j < |s| :: s[i] != s[j]
    ensures |Elements(s)| == |s|
  {
    if s != [] {
      ElementCount(s[..|s| - 1]);
    }
  }

  /** A permutation has every number below its length. */
  lemma HasEach(p: seq<nat>, v: nat)
    requires IsPermutation(p) && v < |p|
    ensures v in p
  {
    ElementCount(p);
    if v !in p {
      SubsetSize(Elements(p), Below(|p|) - {v});
    }
  }

  lemma PlaceOfEach(p: seq<nat>, v: nat) returns (j: nat)
    requires IsPermutation(p) && v < |p|
    ensures j < |p| && p[j] == v
  {
    HasEach(p, v);
    j :| 0 <= j < |p| && p[j] == v;
  }

  /** Every block table there can be comes of some draws. */
  lemma {:induction false} EveryTable(p: seq<nat>) returns (draws: seq<nat>)
    requires IsPermutation(p)
    ensures |draws| == |p| && Shuffled(draws) == p
    decreases |p|
  {
    if p == [] {
      draws := [];
    } else {
      hide Shuffled, IsPermutation;
      var m := |p| - 1;
      var j := PlaceOfEach(p, m);
      var q := p[m := p[j]][j := p[m]];
      LastInPlace(p, j);
      var front := EveryTable(q[..m]);
      draws := front + [j];
      ShuffledOn(front, j);
      Small(j, m + 1);
    }
  }

  lemma LastInPlace(p: seq<nat>, j: nat)
    requires IsPermutation(p) && j < |p| && p[j] == |p| - 1
    ensures var m := |p| - 1;
            var q := p[m := p[j]][j := p[m]];
            IsPermutation(q[..m]) && q == q[..m] + [m] && q[m := q[j]][j := q[m]] == p
  {
    var m := |p| - 1;
    var q := p[m := p[j]][j := p[m]];
    Swapped(p, m, j);
    forall i | 0 <= i < m ensures q[i] < m {
      assert q[i] != q[m];
    }
  }

  lemma ShuffledOn(draws: seq<nat>, draw: nat)
    ensures var t, j := Shuffled(draws) + [|draws|], draw % (|draws| + 1);
            Shuffled(draws + [draw]) == t[|draws| := t[j]][j := t[|draws|]]
  {
    assert (draws + [draw])[..|draws|] == draws;
  }

  // ---- Addresses inside the tensor ----

  /** The row of the head's stream a token's data is in. */
  function StreamRow(a: Paging, table: seq<nat>, token: nat): nat
    requires a.Valid() && token / a.block < |table|
  {
    Whole(token, a.block);
    Times(table[token / a.block], a.block) + token % a.block
  }

  /** The byte of the head's stream an element of a token is at. */
  function Position(a: Paging, table: seq<nat>, token: nat, d: nat): nat
    requires a.Valid() && token / a.block < |table|
  {
    Whole(token, a.block);
    ((table[token / a.block] * a.block * a.width + token % a.block * a.width) + d) * a.precision
  }

  lemma PositionInRow(a: Paging, table: seq<nat>, token: nat, d: nat)
    requires a.Valid() && token / a.block < |table|
    ensures Position(a, table, token, d) == Times(StreamRow(a, table, token), Times(a.width, a.precision)) +
            Times(d, a.precision)
  {
    Whole(token, a.block);
    var t, r := table[token / a.block], token % a.block;
    Spread(t * a.block, r, a.width);
    Spread(StreamRow(a, table, token) * a.width, d, a.precision);
    Spread(StreamRow(a, table, token), a.width, a.precision);
  }

  lemma StreamRowInjective(a: Paging, table: seq<nat>, token: nat, token': nat)
    requires a.Valid() && IsPermutation(table) && token / a.block < |table| && token' / a.block < |table|
    requires StreamRow(a, table, token) == StreamRow(a, table, token')
    ensures token == token'
  {
    Whole(token, a.block);
    Whole(token', a.block);
    SplitUnique(table[token / a.block], token % a.block, table[token' / a.block], token' % a.block, a.block);
    Rejoin(token, token', a.block);
  }

  /** The request inside the row an element belongs to. */
  function Granule(a: Paging, d: nat): nat
    requires a.Valid()
  {
    Whole(Times(d, a.precision), a.request);
    Times(d, a.precision) / a.request
  }

  function Address(g: Layout, a: Paging, table: seq<nat>, head: nat, token: nat, d: nat, shift: nat): nat
    requires g.Valid() && a.Valid() && token / a.block < |table|
  {
    Align(Offset(g, head, Position(a, table, token, d), shift), a.request)
  }

  lemma OffsetIs(g: Layout, head: nat, p: nat, shift: nat)
    requires g.Valid()
    ensures var place := PlaceOf(g, head, p, shift);
            Offset(g, head, p, shift) == Times(Times(place.row, g.banks) + place.bank, g.chunk) + place.within
  {
    hide PlaceOf;
    var place := PlaceOf(g, head, p, shift);
    Spread(place.row * g.banks, place.bank, g.chunk);
    Spread(place.row, g.banks, g.chunk);
  }

  /** Rounding a stream position down stays in its chunk. */
  lemma AlignedPlace(g: Layout, head: nat, p: nat, shift: nat, request: nat)
    requires g.Valid() && 0 < request && g.chunk % request == 0
    ensures var place := PlaceOf(g, head, p, shift);
            PlaceOf(g, head, Align(p, request), shift) == place.(within := Align(place.within, request))
  {
    hide RowOf, BankOf;
    Whole(p, g.chunk);
    var c, within := p / g.chunk, p % g.chunk;
    AlignWhole(c, within, g.chunk, request);
    Split(c, Align(within, request), g.chunk);
  }

  /** Rounding an address down to a request is rounding the stream position down. */
  lemma AlignedOffset(g: Layout, head: nat, p: nat, shift: nat, request: nat)
    requires g.Valid() && 0 < request && g.chunk % request == 0
    ensures Align(Offset(g, head, p, shift), request) == Offset(g, head, Align(p, request), shift)
  {
    var place := PlaceOf(g, head, p, shift);
    assert place.within < g.chunk by { Whole(p, g.chunk); }
    hide PlaceOf, Offset;
    OffsetIs(g, head, p, shift);
    AlignedPlace(g, head, p, shift, request);
    OffsetIs(g, head, Align(p, request), shift);
    AlignWhole(Times(place.row, g.banks) + place.bank, place.within, g.chunk, request);
  }

  lemma PositionGranule(a: Paging, table: seq<nat>, token: nat, d: nat)
    requires a.Valid() && token / a.block < |table| && d < a.width
    ensures var n := Times(a.width, a.precision) / a.request;
            && 0 <= n && Granule(a, d) < n
            && Position(a, table, token, d) / a.request == Times(StreamRow(a, table, token), n) + Granule(a, d)
  {
    hide StreamRow, Position;
    var row := Times(a.width, a.precision);
    PositionInRow(a, table, token, d);
    AlignWhole(StreamRow(a, table, token), Times(d, a.precision), row, a.request);
    MultipleOf(row, a.request);
    MulOrder(d, a.width, a.precision);
    DivLess(Times(d, a.precision), row / a.request, a.request);
  }

  /** Two elements share an address exactly when they are the same request of the same head
      and token: whatever permutation the block table is, in every geometry that fits. */
  lemma AddressInjective(g: Layout, a: Paging, table: seq<nat>, shift: nat,
                         head: nat, token: nat, d: nat, head': nat, token': nat, d': nat)
    requires g.Valid() && Fits(g) && a.Valid() && IsPermutation(table) && g.chunk % a.request == 0
    requires head < g.heads && token / a.block < |table| && d < a.width
    requires head' < g.heads && token' / a.block < |table| && d' < a.width
    ensures Address(g, a, table, head, token, d, shift) == Address(g, a, table, head', token', d', shift) <==>
            head == head' && token == token' && Granule(a, d) == Granule(a, d')
  {
    hide Position, Granule, Offset, StreamRow, PlaceOf;
    var p, p' := Position(a, table, token, d), Position(a, table, token', d');
    AlignedOffset(g, head, p, shift, a.request);
    AlignedOffset(g, head', p', shift, a.request);
    SameOffset(g, head, Align(p, a.request), head', Align(p', a.request), shift, shift);
    PositionGranule(a, table, token, d);
    PositionGranule(a, table, token', d');
    SameAligned(p, p', a.request);
    if Address(g, a, table, head, token, d, shift) == Address(g, a, table, head', token', d', shift) {
      PlaceInjective(g, head, Align(p, a.request), head', Align(p', a.request), shift);
      SplitUnique(StreamRow(a, table, token), Granule(a, d), StreamRow(a, table, token'), Granule(a, d'),
                  Times(a.width, a.precision) / a.request);
      StreamRowInjective(a, table, token, token');
    }
  }

  lemma SameAligned(x: nat, y: nat, a: nat)
    requires 0 < a
    ensures Align(x, a) == Align(y, a) <==> x / a == y / a
  {
    Whole(x, a);
    Whole(y, a);
    Split(x / a, 0, a);
    Split(y / a, 0, a);
  }

  // ---- Tiles of a long context, each with its own shift ----

  /** The shift of a token's tile: the tile's number times the stride. */
  function TileShift(token: nat, length: nat, stride: nat): nat
    requires 0 < length
  {
    Whole(token, length);
    Times(token / length, stride)
  }

  function TiledAddress(g: Layout, a: Paging, table: seq<nat>, head: nat, token: nat, d: nat, length: nat,
                        stride: nat): nat
    requires g.Valid() && a.Valid() && token / a.block < |table| && 0 < length
  {
    Address(g, a, table, head, token, d, TileShift(token, length, stride))
  }

  /** Heads that share a stripe of banks. */
  function Abreast(g: Layout): nat
    requires g.Valid()
  {
    if g.heads <= g.Sets() then g.heads else g.Sets()
  }

  /** Strides that keep the tiles of all heads apart whatever the length of a tile.  Tiles move
      by multiples of the greatest common divisor of stride and bank slots: these must be whole
      heads' banks, or lead past all heads of a stripe. */
  predicate StrideSafe(g: Layout, stride: nat)
    requires g.Valid()
  {
    Gcd(stride, g.banks) % g.perHead == 0 || Abreast(g) * g.perHead <= Gcd(stride, g.banks)
  }

  /** The heads fill whole stripes of banks. */
  predicate Full(g: Layout)
    requires g.Valid()
  {
    g.banks % g.perHead == 0 && g.heads * g.perHead % g.banks == 0
  }

  /** Two stream positions are at the same place of two chunks of one group. */
  predicate SameGroup(g: Layout, p: nat, p': nat)
    requires g.Valid()
  {
    Whole(p, g.chunk);
    Whole(p', g.chunk);
    p % g.chunk == p' % g.chunk && p / g.chunk / g.perHead == p' / g.chunk / g.perHead
  }

  /** The step of a position's chunk through its head's banks, moved by its tile. */
  function Step(g: Layout, p: nat, shift: nat): nat
    requires g.Valid()
  {
    Whole(p, g.chunk);
    (p / g.chunk + shift) % g.perHead
  }

  /** Bytes of two heads with different shifts meet exactly when they are at the same place of
      chunks of one group, the heads are in one stripe, and the bank is the same. */
  lemma MeetExactly(g: Layout, head: nat, p: nat, shift: nat, head': nat, p': nat, shift': nat)
    requires g.Valid() && Fits(g) && head < g.heads && head' < g.heads
    ensures Offset(g, head, p, shift) == Offset(g, head', p', shift') <==>
            && SameGroup(g, p, p') && head / g.Sets() == head' / g.Sets()
            && PlaceOf(g, head, p, shift).bank == PlaceOf(g, head', p', shift').bank
  {
    hide BankOf;
    SameOffset(g, head, p, head', p', shift, shift');
    Whole(p, g.chunk);
    Whole(p', g.chunk);
    Whole(p / g.chunk, g.perHead);
    Whole(p' / g.chunk, g.perHead);
    if RowOf(p / g.chunk / g.perHead, g.Stack(), head / g.Sets()) ==
          RowOf(p' / g.chunk / g.perHead, g.Stack(), head' / g.Sets()) {
      RowInjective(g, head, p / g.chunk / g.perHead, head', p' / g.chunk / g.perHead);
    }
  }

  /** Modulo a divisor of m. */
  lemma ModDivisor(x: nat, m: nat, k: nat)
    requires 0 < k && 0 < m && m % k == 0
    ensures x % m % k == x % k
  {
    MultipleOf(m, k);
    Whole(x, m);
    Spread(x / m, m / k, k);
    ModShift(x % m, x / m * (m / k), k);
  }

  /** When whole heads' banks divide the bank slots, the bank tells the step. */
  lemma BankStep(g: Layout, head: nat, p: nat, shift: nat)
    requires g.Valid() && g.banks % g.perHead == 0
    ensures PlaceOf(g, head, p, shift).bank % g.perHead == Step(g, p, shift)
  {
    var k := g.perHead;
    Whole(p, g.chunk);
    var c := p / g.chunk;
    Whole(c, k);
    ModDivisor(head * k + (c % k + shift), g.banks, k);
    ModShift(c % k + shift, head, k);
    ModAdd(c, shift, k);
  }

  /** A tile's shift is a multiple of what divides the stride. */
  lemma ShiftMultiple(token: nat, length: nat, stride: nat, n: nat)
    requires 0 < length && 0 < n && stride % n == 0
    ensures TileShift(token, length, stride) % n == 0
  {
    Whole(token, length);
    MultipleOf(stride, n);
    var q := token / length;
    Spread(q, stride / n, n);
    Split(q * (stride / n), 0, n);
  }

  /** A shift by whole n's keeps a bank modulo n, when n divides the slots. */
  lemma BankModulo(x: nat, shift: nat, banks: nat, n: nat)
    requires 0 < n && 0 < banks && banks % n == 0 && shift % n == 0
    ensures (x + shift) % banks % n == x % n
  {
    ModDivisor(x + shift, banks, n);
    MultipleOf(shift, n);
    ModShift(x, shift / n, n);
  }

  /** A head's banks within its stripe lie below those of all heads of a stripe. */
  lemma WithinAbreast(g: Layout, head: nat, j: nat, shift: nat)
    requires g.Valid() && Fits(g) && head < g.heads && j < g.perHead
    ensures Times(head % g.Sets(), g.perHead) + j < Abreast(g) * g.perHead <= g.banks
    ensures BankOf(head, g.perHead, j + shift, g.banks) == BankOf(head % g.Sets(), g.perHead, j + shift, g.banks)
  {
    FitsCounts(g);
    BankWithinStripe(g, head, j, shift);
    Whole(head, g.Sets());
    if g.heads <= g.Sets() && g.heads < g.Sets() { MulOrder(g.heads, g.Sets(), g.perHead); }
    if head < g.Sets() { Split(0, head, g.Sets()); }
    SplitLess(head % g.Sets(), j, g.perHead, Abreast(g));
  }

  /** With a safe stride equal banks are the same step of the heads' banks. */
  lemma SameStep(g: Layout, stride: nat, head: nat, j: nat, shift: nat, head': nat, j': nat, shift': nat)
    requires g.Valid() && Fits(g) && StrideSafe(g, stride) && head < g.heads && head' < g.heads && j < g.perHead &&
             j' < g.perHead
    requires shift % Gcd(stride, g.banks) == 0 && shift' % Gcd(stride, g.banks) == 0
    requires BankOf(head, g.perHead, j + shift, g.banks) == BankOf(head', g.perHead, j' + shift', g.banks)
    ensures j == j'
  {
    var n, k := Gcd(stride, g.banks), g.perHead;
    GcdDivides(stride, g.banks);
    WithinAbreast(g, head, j, shift);
    WithinAbreast(g, head', j', shift');
    var i, i' := head % g.Sets(), head' % g.Sets();
    var u, u' := Times(i, k) + j, Times(i', k) + j';
    BankModulo(u, shift, g.banks, n);
    BankModulo(u', shift', g.banks, n);
    assert u % n == u' % n;
    if n % k == 0 {
      ModDivisor(u, n, k);
      ModDivisor(u', n, k);
      Split(i, j, k);
      Split(i', j', k);
    } else {
      Split(0, u, n);
      Split(0, u', n);
      SplitUnique(i, j, i', j', k);
    }
  }

  lemma SamePosition(g: Layout, p: nat, p': nat)
    requires g.Valid() && SameGroup(g, p, p') && p / g.chunk % g.perHead == p' / g.chunk % g.perHead
    ensures p == p'
  {
    Whole(p, g.chunk);
    Whole(p', g.chunk);
    Rejoin(p / g.chunk, p' / g.chunk, g.perHead);
    Rejoin(p, p', g.chunk);
  }

  /** Equal addresses of different tokens or granules come from different positions. */
  lemma AlignedPosition(a: Paging, table: seq<nat>, token: nat, d: nat, token': nat, d': nat)
    requires a.Valid() && IsPermutation(table) && token / a.block < |table| && token' / a.block < |table| &&
             d < a.width && d' < a.width
    ensures Align(Position(a, table, token, d), a.request) == Align(Position(a, table, token', d'), a.request)
       <==> token == token' && Granule(a, d) == Granule(a, d')
  {
    hide Position, Granule, StreamRow;
    var p, p' := Position(a, table, token, d), Position(a, table, token', d');
    PositionGranule(a, table, token, d);
    PositionGranule(a, table, token', d');
    SameAligned(p, p', a.request);
    if p / a.request == p' / a.request {
      SplitUnique(StreamRow(a, table, token), Granule(a, d), StreamRow(a, table, token'), Granule(a, d'),
                  Times(a.width, a.precision) / a.request);
      StreamRowInjective(a, table, token, token');
    }
  }

  /** With tiles: two elements share an address exactly when they are the same request of the
      same head and token, for every tile length, when the stride is safe. */
  lemma TiledInjective(g: Layout, a: Paging, table: seq<nat>, length: nat, stride: nat,
                       head: nat, token: nat, d: nat, head': nat, token': nat, d': nat)
    requires g.Valid() && Fits(g) && a.Valid() && IsPermutation(table) && g.chunk % a.request == 0 && 0 < length &&
             StrideSafe(g, stride)
    requires head < g.heads && token / a.block < |table| && d < a.width
    requires head' < g.heads && token' / a.block < |table| && d' < a.width
    ensures TiledAddress(g, a, table, head, token, d, length, stride) ==
              TiledAddress(g, a, table, head', token', d', length, stride) <==>
            head == head' && token == token' && Granule(a, d) == Granule(a, d')
  {
    hide Position, Granule, Offset, PlaceOf, Fits, Step;
    var shift, shift' := TileShift(token, length, stride), TileShift(token', length, stride);
    var q, q' := Align(Position(a, table, token, d), a.request), Align(Position(a, table, token', d'), a.request);
    AlignedOffset(g, head, Position(a, table, token, d), shift, a.request);
    AlignedOffset(g, head', Position(a, table, token', d'), shift', a.request);
    AlignedPosition(a, table, token, d, token', d');
    AddressInjective(g, a, table, shift, head, token, d, head', token', d');
    if Offset(g, head, q, shift) == Offset(g, head', q', shift') {
      TiledPosition(g, stride, length, head, q, token, head', q', token');
    }
  }

  /** With a safe stride equal offsets come from equal positions. */
  lemma TiledPosition(g: Layout, stride: nat, length: nat, head: nat, p: nat, token: nat, head': nat, p': nat,
                      token': nat)
    requires g.Valid() && Fits(g) && 0 < length && StrideSafe(g, stride) && head < g.heads && head' < g.heads
    requires Offset(g, head, p, TileShift(token, length, stride)) ==
               Offset(g, head', p', TileShift(token', length, stride))
    ensures p == p'
  {
    hide Offset, StrideSafe, Fits, BankOf, TileShift;
    var shift, shift' := TileShift(token, length, stride), TileShift(token', length, stride);
    MeetExactly(g, head, p, shift, head', p', shift');
    GcdDivides(stride, g.banks);
    ShiftMultiple(token, length, stride, Gcd(stride, g.banks));
    ShiftMultiple(token', length, stride, Gcd(stride, g.banks));
    Whole(p, g.chunk);
    Whole(p', g.chunk);
    Whole(p / g.chunk, g.perHead);
    Whole(p' / g.chunk, g.perHead);
    SameStep(g, stride, head, p / g.chunk % g.perHead, shift, head', p' / g.chunk % g.perHead, shift');
    SamePosition(g, p, p');
  }

  // ---- When tiles collide ----

  ghost predicate SomeHeadsMeet(g: Layout, p: nat, shift: nat, p': nat, shift': nat)
    requires g.Valid()
  {
    exists head: nat, head': nat ::
          head < g.heads && head' < g.heads && Offset(g, head, p, shift) == Offset(g, head', p', shift')
  }

  /** A head of the first stripe whose bank is the given one, when the steps agree. */
  lemma HeadAt(g: Layout, u: nat, bank: nat) returns (head: nat)
    requires g.Valid() && Full(g) && bank < g.banks && u % g.perHead == bank % g.perHead
    ensures head < g.heads && head < g.Sets() && BankOf(head, g.perHead, u, g.banks) == bank
  {
    var b, k := g.banks, g.perHead;
    FitsCounts(g);
    MultipleOf(b, k);
    var v := u % b;
    Whole(u, b);
    ModDivisor(u, b, k);
    var x: nat := if v <= bank then bank - v else b + bank - v;
    StepsApart(v, bank, b, k);
    head := x / k;
    MultipleOf(x, k);
    DivLess(x, b / k, k);
    SetsOf(g);
    ModAdd(u, x, b);
    Small(v + x, b);
    assert head * k + u == u + x;
  }

  lemma StepsApart(v: nat, bank: nat, b: nat, k: nat)
    requires 0 < k && b % k == 0 && v < b && bank < b && v % k == bank % k
    ensures var x: nat := if v <= bank then bank - v else b + bank - v; x % k == 0 && x < b
  {
    Whole(v, k);
    Whole(bank, k);
    MultipleOf(b, k);
    var q, q' := v / k, bank / k;
    if v <= bank {
      if q' < q { MulOrder(q', q, k); }
      assert bank - v == (q' - q) * k;
      Split(q' - q, 0, k);
    } else {
      DivLess(v, b / k, k);
      assert b + bank - v == (b / k + q' - q) * k by { Spread(b / k, q', k); }
      Split(b / k + q' - q, 0, k);
    }
  }

  lemma SetsOf(g: Layout)
    requires g.Valid() && Full(g)
    ensures g.Sets() == g.banks / g.perHead && 1 <= g.Sets() <= g.heads
  {
    Exact(g.banks, g.perHead);
    Positive(g.heads, g.perHead);
    Exact(g.heads * g.perHead, g.banks);
    if g.heads < g.Sets() { MulOrder(g.heads, g.Sets(), g.perHead); }
    if g.heads * g.perHead < g.banks { MulOrder(0, g.heads * g.perHead / g.banks, g.banks); }
  }

  /** When the heads fill whole stripes: bytes of two tiles meet, for some pair of heads,
      exactly when they are at the same place of chunks of one group and the steps agree. */
  lemma TilesMeetExactly(g: Layout, p: nat, shift: nat, p': nat, shift': nat)
    requires g.Valid() && Full(g)
    ensures SomeHeadsMeet(g, p, shift, p', shift') <==> SameGroup(g, p, p') && Step(g, p, shift) == Step(g, p', shift')
  {
    hide Offset, BankOf;
    if SomeHeadsMeet(g, p, shift, p', shift') {
      var head: nat, head': nat :| head < g.heads && head' < g.heads &&
          Offset(g, head, p, shift) == Offset(g, head', p', shift');
      MeetExactly(g, head, p, shift, head', p', shift');
      BankStep(g, head, p, shift);
      BankStep(g, head', p', shift');
    }
    if SameGroup(g, p, p') && Step(g, p, shift) == Step(g, p', shift') {
      var bank := PlaceOf(g, 0, p, shift).bank;
      BankStep(g, 0, p, shift);
      BankBelow(g, 0, p, shift);
      Whole(p', g.chunk);
      Whole(p' / g.chunk, g.perHead);
      ModAdd(p' / g.chunk, shift', g.perHead);
      var head' := HeadAt(g, p' / g.chunk % g.perHead + shift', bank);
      Split(0, 0, g.Sets());
      Split(0, head', g.Sets());
      MeetExactly(g, 0, p, shift, head', p', shift');
    }
  }

  lemma BankBelow(g: Layout, head: nat, p: nat, shift: nat)
    requires g.Valid()
    ensures PlaceOf(g, head, p, shift).bank < g.banks
  {
    OffsetSplits(g, head, p, shift);
  }

  /** Some heads have the same address for two different tokens or granules of theirs. */
  ghost predicate Clash(g: Layout, a: Paging, table: seq<nat>, length: nat, stride: nat, token: nat, d: nat,
                        token': nat, d': nat)
    requires g.Valid() && a.Valid() && token / a.block < |table| && token' / a.block < |table| && 0 < length
  {
    exists head: nat, head': nat :: head < g.heads && head' < g.heads &&
      TiledAddress(g, a, table, head, token, d, length, stride) ==
            TiledAddress(g, a, table, head', token', d', length, stride)
  }

  /** Two tokens clash exactly when their requests are at the same place of chunks of one group
      and the steps, each moved by its token's tile, agree modulo the banks of a head.  Neither
      heads nor bank slots enter. */
  lemma ClashExactly(g: Layout, a: Paging, table: seq<nat>, length: nat, stride: nat, token: nat, d: nat, token': nat,
                     d': nat)
    requires g.Valid() && Full(g) && a.Valid() && g.chunk % a.request == 0 && 0 < length
    requires token / a.block < |table| && token' / a.block < |table|
    ensures var q, q' := Align(Position(a, table, token, d), a.request),
                         Align(Position(a, table, token', d'), a.request);
            Clash(g, a, table, length, stride, token, d, token', d') <==>
            SameGroup(g, q, q') && Step(g, q, TileShift(token, length, stride)) ==
                  Step(g, q', TileShift(token', length, stride))
  {
    hide Position, Offset, SameGroup, Step, Full;
    var p, p' := Position(a, table, token, d), Position(a, table, token', d');
    var shift, shift' := TileShift(token, length, stride), TileShift(token', length, stride);
    var q, q' := Align(p, a.request), Align(p', a.request);
    TilesMeetExactly(g, q, shift, q', shift');
    if Clash(g, a, table, length, stride, token, d, token', d') {
      var head: nat, head': nat :| head < g.heads && head' < g.heads &&
        TiledAddress(g, a, table, head, token, d, length, stride) ==
              TiledAddress(g, a, table, head', token', d', length, stride);
      AlignedOffset(g, head, p, shift, a.request);
      AlignedOffset(g, head', p', shift', a.request);
      assert SomeHeadsMeet(g, q, shift, q', shift');
    }
    if SomeHeadsMeet(g, q, shift, q', shift') {
      var head: nat, head': nat :| head < g.heads && head' < g.heads &&
          Offset(g, head, q, shift) == Offset(g, head', q', shift');
      AlignedOffset(g, head, p, shift, a.request);
      AlignedOffset(g, head', p', shift', a.request);
      assert TiledAddress(g, a, table, head, token, d, length, stride) ==
            TiledAddress(g, a, table, head', token', d', length, stride);
    }
  }

  /** Tables, tile lengths, heads and elements for which a stride makes two different requests
      share an address. */
  ghost predicate Collides(g: Layout, a: Paging, stride: nat, table: seq<nat>, length: nat, token: nat, d: nat,
                           token': nat, d': nat)
    requires g.Valid() && a.Valid()
  {
    && IsPermutation(table) && 0 < length && token / a.block < |table| && token' / a.block < |table| && d < a.width &&
       d' < a.width
    && (token != token' || Granule(a, d) != Granule(a, d')) && Clash(g, a, table, length, stride, token, d, token', d')
  }

  ghost predicate NeverCollides(g: Layout, a: Paging, stride: nat)
    requires g.Valid() && a.Valid()
  {
    forall table: seq<nat>, length: nat, token: nat, d: nat, token': nat, d': nat ::
          !Collides(g, a, stride, table, length, token, d, token', d')
  }

  function Identity(n: nat): (table: seq<nat>)
    ensures |table| == n && IsPermutation(table) && forall i | 0 <= i < n :: table[i] == i
  {
    seq(n, i => i)
  }

  lemma IdentityPosition(a: Paging, n: nat, token: nat)
    requires a.Valid() && token / a.block < n
    ensures Position(a, Identity(n), token, 0) == Times(token, Times(a.width, a.precision))
  {
    Whole(token, a.block);
    PositionInRow(a, Identity(n), token, 0);
  }

  /** The row at the start of chunk c is at the chunk's place of the stream. */
  lemma IdentityChunk(g: Layout, a: Paging, c: nat, n: nat)
    requires g.Valid() && a.Valid() && 0 < Times(a.width, a.precision) && g.chunk % Times(a.width, a.precision) == 0
    requires n == c * (g.chunk / Times(a.width, a.precision)) / a.block + 1 &&
             0 <= c * (g.chunk / Times(a.width, a.precision))
    ensures c * (g.chunk / Times(a.width, a.precision)) / a.block < n
    ensures Position(a, Identity(n), c * (g.chunk / Times(a.width, a.precision)), 0) == Times(c, g.chunk)
  {
    var row := Times(a.width, a.precision);
    MultipleOf(g.chunk, row);
    IdentityPosition(a, n, c * (g.chunk / row));
    Spread(c, g.chunk / row, row);
  }

  /** The start of chunk c, when a chunk is made of whole rows. */
  lemma TokenOfChunk(g: Layout, a: Paging, c: nat, n: nat) returns (token: nat)
    requires g.Valid() && a.Valid() && g.chunk % a.request == 0 && 0 < Times(a.width, a.precision) &&
             g.chunk % Times(a.width, a.precision) == 0
    requires n == c * (g.chunk / Times(a.width, a.precision)) / a.block + 1
    ensures token == c * (g.chunk / Times(a.width, a.precision)) && token / a.block < n
    ensures Align(Position(a, Identity(n), token, 0), a.request) == c * g.chunk && c * g.chunk / g.chunk == c &&
            c * g.chunk % g.chunk == 0
  {
    var row := Times(a.width, a.precision);
    MultipleOf(g.chunk, row);
    token := c * (g.chunk / row);
    IdentityPosition(a, n, token);
    Spread(c, g.chunk / row, row);
    MultipleOf(g.chunk, a.request);
    Spread(c, g.chunk / a.request, a.request);
    Split(c * (g.chunk / a.request), 0, a.request);
    Split(c, 0, g.chunk);
  }

  /** Chunk 0 before the shift and chunk c after it are at the same step. */
  lemma ChunksClash(g: Layout, c: nat, stride: nat)
    requires g.Valid() && stride % g.perHead != 0 && c == g.perHead - stride % g.perHead
    ensures 0 < c && SameGroup(g, 0, c * g.chunk) && Step(g, 0, 0) == Step(g, c * g.chunk, stride)
  {
    var k := g.perHead;
    Whole(stride, k);
    Split(c, 0, g.chunk);
    Split(0, 0, g.chunk);
    Split(0, 0, k);
    Split(0, c, k);
    Spread(stride / k, 1, k);
    Split(stride / k + 1, 0, k);
  }

  /** Tiles as long as the way to a token put that token, and no token before it, in tile 1. */
  lemma FirstOfTile(token: nat, stride: nat)
    requires 0 < token
    ensures TileShift(0, token, stride) == 0 && TileShift(token, token, stride) == stride
  {
    Split(1, 0, token);
    Split(0, 0, token);
  }

  /** A stride that is not a whole number of heads' banks makes two tokens clash, when the tile
      length puts them in neighbouring tiles of one group of chunks. */
  lemma StrideCollides(g: Layout, a: Paging, stride: nat) returns (table: seq<nat>, length: nat, token: nat)
    requires g.Valid() && Full(g) && a.Valid() && stride % g.perHead != 0
    requires g.chunk % a.request == 0 && g.chunk % Times(a.width, a.precision) == 0
    ensures Collides(g, a, stride, table, length, 0, 0, token, 0)
  {
    hide Position, Granule, TiledAddress, Full, Clash, SameGroup, Step, TileShift, IsPermutation;
    var row := Times(a.width, a.precision);
    Positive(a.width, a.precision);
    Exact(g.chunk, row);
    var c: nat := g.perHead - stride % g.perHead;
    ChunksClash(g, c, stride);
    Positive(c, g.chunk / row);
    Whole(c * (g.chunk / row), a.block);
    var n := c * (g.chunk / row) / a.block + 1;
    table := Identity(n);
    token := TokenOfChunk(g, a, c, n);
    length := token;
    FirstStart(a, n);
    FirstOfTile(token, stride);
    ClashExactly(g, a, table, length, stride, 0, 0, token, 0);
  }

  lemma FirstStart(a: Paging, n: nat)
    requires a.Valid() && 0 < n
    ensures 0 / a.block < n && Align(Position(a, Identity(n), 0, 0), a.request) == 0
  {
    Split(0, 0, a.block);
    Split(0, 0, a.request);
    IdentityPosition(a, n, 0);
  }

  /** With heads filling whole stripes a safe stride is one of whole heads' banks. */
  lemma FullSafe(g: Layout, stride: nat)
    requires g.Valid() && Full(g)
    ensures Fits(g) && (StrideSafe(g, stride) <==> stride % g.perHead == 0)
  {
    var n, k := Gcd(stride, g.banks), g.perHead;
    GcdDivides(stride, g.banks);
    SetsOf(g);
    MultipleOf(g.banks, k);
    if stride % k == 0 { CommonDivides(stride, g.banks, k); }
    if StrideSafe(g, stride) {
      MultipleOf(stride, n);
      MultipleOf(n, k);
      Spread(stride / n, n / k, k);
      Split(stride / n * (n / k), 0, k);
    }
  }

  lemma NeverWhenSafe(g: Layout, a: Paging, stride: nat)
    requires g.Valid() && Fits(g) && a.Valid() && g.chunk % a.request == 0 && StrideSafe(g, stride)
    ensures NeverCollides(g, a, stride)
  {
    hide Granule, TiledAddress, Fits, StrideSafe;
    forall table: seq<nat>, length: nat, token: nat, d: nat, token': nat, d': nat
      ensures !Collides(g, a, stride, table, length, token, d, token', d')
    {
      if Collides(g, a, stride, table, length, token, d, token', d') {
        var head: nat, head': nat :| head < g.heads && head' < g.heads &&
          TiledAddress(g, a, table, head, token, d, length, stride) ==
                TiledAddress(g, a, table, head', token', d', length, stride);
        TiledInjective(g, a, table, length, stride, head, token, d, head', token', d');
      }
    }
  }

  /** With heads filling whole stripes, a stride keeps all requests apart, whatever the table,
      the tile length and the elements, exactly when it is a whole number of heads' banks. */
  lemma FullStrideExactly(g: Layout, a: Paging, stride: nat)
    requires g.Valid() && Full(g) && a.Valid()
    requires g.chunk % a.request == 0 && g.chunk % Times(a.width, a.precision) == 0
    ensures NeverCollides(g, a, stride) <==> stride % g.perHead == 0
  {
    hide Full, StrideSafe;
    FullSafe(g, stride);
    if stride % g.perHead != 0 {
      var table, length, token := StrideCollides(g, a, stride);
    } else {
      NeverWhenSafe(g, a, stride);
    }
  }

  // ---- Strides in every layout ----

  /** The identity with blocks 0, p and m moved on: block 0 to place p, block m to place 0. */
  lemma Moved(n: nat, p: nat, m: nat) returns (table: seq<nat>)
    requires 0 < p < n && 0 < m < n
    ensures |table| == n && IsPermutation(table) && table[0] == p && table[m] == 0
  {
    var id := Identity(n);
    Swapped(id, 0, p);
    var first := id[0 := id[p]][p := id[0]];
    Swapped(first, p, m);
    table := first[p := first[m]][m := first[p]];
  }

  /** The start of a block is at the start of the block's place. */
  lemma BlockStart(a: Paging, table: seq<nat>, b: nat)
    requires a.Valid() && b < |table|
    ensures 0 <= b * a.block && b * a.block / a.block == b
    ensures Position(a, table, b * a.block, 0) == Times(table[b] * a.block, Times(a.width, a.precision))
  {
    Split(b, 0, a.block);
    PositionInRow(a, table, b * a.block, 0);
  }

  /** A stride that is not safe: the bank of some head's step is reached from bank 0 by tiles. */
  lemma UnsafeBank(g: Layout, stride: nat) returns (head: nat, j: nat, m: nat)
    requires g.Valid() && Fits(g) && !StrideSafe(g, stride)
    ensures head < g.heads && head < g.Sets() && 0 < j < g.perHead && 0 < m
    ensures BankOf(head, g.perHead, j, g.banks) == BankOf(0, g.perHead, Times(m, stride), g.banks)
  {
    var n, k := Gcd(stride, g.banks), g.perHead;
    WithinAbreast(g, 0, 0, 0);
    Whole(n, k);
    head, j := n / k, n % k;
    DivLess(n, Abreast(g), k);
    m := Bezout(stride, g.banks);
    Split(0, n, g.banks);
    assert Times(m, stride) % g.banks == n;
    if m == 0 { Split(0, 0, g.banks); }
  }

  /** The two places meet: chunk 0 of head 0 with the shift, and chunk j of the other head. */
  lemma UnsafeMeets(g: Layout, head: nat, j: nat, shift: nat)
    requires g.Valid() && Fits(g) && head < g.heads && head < g.Sets() && j < g.perHead
    requires BankOf(head, g.perHead, j, g.banks) == BankOf(0, g.perHead, shift, g.banks)
    ensures Offset(g, 0, 0, shift) == Offset(g, head, j * g.chunk, 0)
  {
    Split(j, 0, g.chunk);
    Split(0, 0, g.chunk);
    Split(0, 0, g.perHead);
    Split(0, j, g.perHead);
    Split(0, 0, g.Sets());
    Split(0, head, g.Sets());
    SameOffset(g, 0, 0, head, j * g.chunk, shift, 0);
  }

  /** When blocks are whole parts of a chunk, a stride that is not safe makes two tokens clash:
      each tile a block, and the table puts the two blocks into one group of chunks. */
  lemma UnsafeCollides(g: Layout, a: Paging, stride: nat) returns (table: seq<nat>, token: nat)
    requires g.Valid() && Fits(g) && a.Valid() && !StrideSafe(g, stride)
    requires g.chunk % a.request == 0 && g.chunk % Times(a.block, Times(a.width, a.precision)) == 0
    ensures Collides(g, a, stride, table, a.block, token, 0, 0, 0)
  {
    hide Position, Offset, Granule, StrideSafe, Fits, IsPermutation, BankOf, TileShift;
    var head, j, m := UnsafeBank(g, stride);
    var row := Times(a.width, a.precision);
    Positive(a.width, a.precision);
    Positive(a.block, row);
    Exact(g.chunk, Times(a.block, row));
    var perChunk := g.chunk / Times(a.block, row);
    var p := j * perChunk;
    Positive(j, perChunk);
    var n := if p < m then m + 1 else p + 1;
    table := Moved(n, p, m);
    token := m * a.block;
    BlockStart(a, table, m);
    BlockStart(a, table, 0);
    ChunkOfBlocks(g, a, j, perChunk);
    var q, q' := Align(Position(a, table, token, 0), a.request), Align(Position(a, table, 0, 0), a.request);
    AlignedStarts(g, a, j);
    assert q == 0 && q' == j * g.chunk;
    BlockShift(m, a.block, stride);
    UnsafeMeets(g, head, j, Times(m, stride));
    AlignedOffset(g, 0, Position(a, table, token, 0), Times(m, stride), a.request);
    AlignedOffset(g, head, Position(a, table, 0, 0), 0, a.request);
    assert TiledAddress(g, a, table, 0, token, 0, a.block, stride) ==
          TiledAddress(g, a, table, head, 0, 0, a.block, stride);
    assert Clash(g, a, table, a.block, stride, token, 0, 0, 0);
  }

  lemma ChunkOfBlocks(g: Layout, a: Paging, j: nat, perChunk: nat)
    requires a.Valid() && g.chunk == perChunk * Times(a.block, Times(a.width, a.precision))
    ensures Times(j * perChunk * a.block, Times(a.width, a.precision)) == j * g.chunk
    ensures Times(0 * a.block, Times(a.width, a.precision)) == 0
  {
    var row := Times(a.width, a.precision);
    Spread(j * perChunk, a.block, row);
    Spread(j, perChunk, a.block * row);
  }

  lemma AlignedStarts(g: Layout, a: Paging, j: nat)
    requires g.Valid() && a.Valid() && g.chunk % a.request == 0
    ensures Align(0, a.request) == 0 && Align(j * g.chunk, a.request) == j * g.chunk
  {
    MultipleOf(g.chunk, a.request);
    Spread(j, g.chunk / a.request, a.request);
    Split(j * (g.chunk / a.request), 0, a.request);
    Split(0, 0, a.request);
  }

  lemma BlockShift(m: nat, block: nat, stride: nat)
    requires 0 < block
    ensures TileShift(m * block, block, stride) == Times(m, stride) && TileShift(0, block, stride) == 0
  {
    Split(m, 0, block);
    Split(0, 0, block);
  }

  /** In every layout that fits, with blocks that are whole parts of a chunk: a stride keeps all
      requests of all tables and tile lengths apart exactly when it is safe. */
  lemma StrideExactly(g: Layout, a: Paging, stride: nat)
    requires g.Valid() && Fits(g) && a.Valid()
    requires g.chunk % a.request == 0 && g.chunk % Times(a.block, Times(a.width, a.precision)) == 0
    ensures NeverCollides(g, a, stride) <==> StrideSafe(g, stride)
  {
    hide StrideSafe, Fits;
    if StrideSafe(g, stride) {
      NeverWhenSafe(g, a, stride);
    } else {
      var table, token := UnsafeCollides(g, a, stride);
    }
  }

  lemma ClashingPlaces()
    ensures var g := Layout(16384, 32, 2, 32); g.Valid() && PlaceOf(g, 1, 98816, 0) == PlaceOf(g, 0, 115200, 1)
  {
    hide RowOf;
    var g := Layout(16384, 32, 2, 32);
    Split(6, 512, 16384);
    Split(7, 512, 16384);
    Split(3, 0, 2);
    Split(3, 1, 2);
    Split(0, 2, 32);
    Split(0, 1, 16);
    Split(0, 0, 16);
    assert g.Sets() == 16;
    assert BankOf(1, 2, 0, 32) == 2 == BankOf(0, 2, 2, 32);
  }

  lemma ClashingPositions()
    ensures var a := Paging(16, 128, 2, 32);
            && a.Valid() && 386 / a.block < 32 && 450 / a.block < 32
            && Position(a, Identity(32), 386, 0) == 98816 && Position(a, Identity(32), 450, 0) == 115200
  {
    hide Position, Identity;
    var a := Paging(16, 128, 2, 32);
    IdentityPosition(a, 32, 386);
    IdentityPosition(a, 32, 450);
    assert Times(a.width, a.precision) == 256 && Times(386, 256) == 98816 && Times(450, 256) == 115200;
  }

  /** With two banks a head, a stride of one and tiles of 450 tokens, tokens 386 and 450 clash:
      token 386 of head 1 and token 450 of head 0 are read from the same address. */
  lemma TokensClash()
    ensures var g, a := Layout(16384, 32, 2, 32), Paging(16, 128, 2, 32);
            && g.Valid() && Full(g) && a.Valid() && 386 / a.block < 32 && 450 / a.block < 32
            && TiledAddress(g, a, Identity(32), 1, 386, 0, 450, 1) ==
                 TiledAddress(g, a, Identity(32), 0, 450, 0, 450, 1)
  {
    hide Position, Offset, Identity, PlaceOf, Align;
    var g, a := Layout(16384, 32, 2, 32), Paging(16, 128, 2, 32);
    ClashingPlaces();
    ClashingPositions();
    assert TileShift(386, 450, 1) == 0 && TileShift(450, 450, 1) == 1;
    SameOffset(g, 1, 98816, 0, 115200, 0, 1);
  }

  // ---- The tensor base ----

  /** What is added to a tensor's base so that it starts at the wanted bank slot: slot 0,
      or with rotation one derived from the base. */
  function Rotation(g: Layout, base: nat, rotate: bool): (slot: nat)
    requires g.Valid()
    ensures slot < g.banks
  {
    Whole(base, g.chunk);
    Positive(g.banks, g.chunk);
    Whole(base, g.Stripe());
    if rotate then (base / g.Stripe() * 11 + base / g.chunk) % g.banks else 0
  }

  lemma HalfDivides(x: nat, half: nat)
    requires 0 < half && 11 * x % (2 * half) == 0
    ensures x % 2 == 0 && 11 * (x / 2) % half == 0
  {
    MultipleOf(11 * x, 2 * half);
    var q := 11 * x / (2 * half);
    assert q * (2 * half) == 2 * (q * half);
    assert 11 * (x / 2) == q * half;
    Split(q, 0, half);
  }

  lemma TwiceDivides(y: nat, half: nat)
    requires 0 < half && y % half == 0
    ensures 2 * y % (2 * half) == 0
  {
    MultipleOf(y, half);
    var q := y / half;
    assert q * (2 * half) == 2 * (q * half);
    Split(q, 0, 2 * half);
  }

  /** Eleven is odd, so it can be cancelled modulo a power of two. */
  lemma {:induction false} Cancel11(x: nat, bits: nat)
    requires 11 * x % Pow2(bits) == 0
    ensures x % Pow2(bits) == 0
  {
    if bits != 0 {
      HalfDivides(x, Pow2(bits - 1));
      Cancel11(x / 2, bits - 1);
      TwiceDivides(x / 2, Pow2(bits - 1));
    }
  }

  /** The rotation of a base at the same place of stripe n. */
  lemma RotationOfStripe(g: Layout, n: nat, low: nat)
    requires g.Valid() && low < g.Stripe()
    ensures Rotation(g, n * g.Stripe() + low, true) == (n * 11 + low / g.chunk) % g.banks
  {
    Positive(g.banks, g.chunk);
    Split(n, low, g.Stripe());
    Spread(n, g.banks, g.chunk);
    ChunksAdd(n * g.banks, low, g.chunk);
    ModShift(n * 11 + low / g.chunk, n, g.banks);
  }

  /** With rotation, tensors at the same place of stripes less than a round of the banks apart
      start at different bank slots, when the slots are a power of two. */
  lemma RotationStaggers(g: Layout, n: nat, n': nat, low: nat, bits: nat)
    requires g.Valid() && g.banks == Pow2(bits) && low < g.Stripe() && n < n' < n + g.banks
    ensures Rotation(g, n * g.Stripe() + low, true) != Rotation(g, n' * g.Stripe() + low, true)
  {
    RotationOfStripe(g, n, low);
    RotationOfStripe(g, n', low);
    var d := n' - n;
    if Rotation(g, n * g.Stripe() + low, true) == Rotation(g, n' * g.Stripe() + low, true) {
      var x := n * 11 + low / g.chunk;
      Whole(low, g.chunk);
      assert n' * 11 + low / g.chunk == x + 11 * d;
      ModAdd(11 * d, x, g.banks);
      Whole(11 * d, g.banks);
      ModInjective(11 * d % g.banks, 0, x, g.banks);
      Cancel11(d, bits);
      Small(d, g.banks);
    }
  }

  function Pad(g: Layout, base: nat, rotate: bool): (pad: nat)
    requires g.Valid()
  {
    Positive(g.banks, g.chunk);
    Whole(base, g.Stripe());
    var target: nat := Times(Rotation(g, base, rotate), g.chunk);
    (target + g.Stripe() - base % g.Stripe()) % g.Stripe()
  }

  /** The padded base is a whole number of stripes and the rotation's chunks. */
  lemma PadAligns(g: Layout, base: nat, rotate: bool)
    requires g.Valid()
    ensures Pad(g, base, rotate) < g.Stripe() && 0 < g.Stripe()
    ensures (base + Pad(g, base, rotate)) % g.Stripe() == Times(Rotation(g, base, rotate), g.chunk)
  {
    var m := g.Stripe();
    Positive(g.banks, g.chunk);
    Whole(base, m);
    var target, low := Times(Rotation(g, base, rotate), g.chunk), base % m;
    MulOrder(Rotation(g, base, rotate), g.banks, g.chunk);
    Whole(target + m - low, m);
    ModAdd(target + m - low, base, m);
    ModShift(target + m, base / m, m);
    ModShift(target, 1, m);
    Split(0, target, m);
  }

  /** The bank slot of an address: the chunk it is in, modulo the slots. */
  function Slot(g: Layout, address: nat): nat
    requires g.Valid()
  {
    Whole(address, g.chunk);
    address / g.chunk % g.banks
  }

  /** The bank slot of an element is its head's, moved by the rotation of the tensor. */
  lemma AddressSlot(g: Layout, a: Paging, table: seq<nat>, base: nat, rotate: bool, head: nat, token: nat, d: nat,
                    shift: nat)
    requires g.Valid() && a.Valid() && token / a.block < |table| && g.chunk % a.request == 0
    ensures var p := Position(a, table, token, d);
            Slot(g, base + Pad(g, base, rotate) + Address(g, a, table, head, token, d, shift))
            == BankOf(head, g.perHead, p / g.chunk % g.perHead + shift + Rotation(g, base, rotate), g.banks)
  {
    hide Position, Offset;
    var p := Position(a, table, token, d);
    var q := Align(p, a.request);
    AlignedOffset(g, head, p, shift, a.request);
    OffsetSplits(g, head, q, shift);
    AlignedChunk(p, g.chunk, a.request);
    PadAligns(g, base, rotate);
    SlotAdds(g, base + Pad(g, base, rotate), Rotation(g, base, rotate), Offset(g, head, q, shift));
    Whole(p, g.chunk);
    Whole(p / g.chunk, g.perHead);
    ModAdd(Times(head, g.perHead) + (p / g.chunk % g.perHead + shift), Rotation(g, base, rotate), g.banks);
  }

  lemma AlignedChunk(p: nat, chunk: nat, request: nat)
    requires 0 < request && 0 < chunk && chunk % request == 0
    ensures Align(p, request) / chunk == p / chunk
  {
    Whole(p, chunk);
    AlignWhole(p / chunk, p % chunk, chunk, request);
    Split(p / chunk, Align(p % chunk, request), chunk);
  }

  lemma ChunksAdd(n: nat, x: nat, chunk: nat)
    requires 0 < chunk
    ensures (Times(n, chunk) + x) / chunk == n + x / chunk
  {
    Whole(x, chunk);
    Spread(n, x / chunk, chunk);
    Split(n + x / chunk, x % chunk, chunk);
  }

  lemma StripeChunks(q: nat, banks: nat, rotation: nat, chunk: nat)
    ensures q * (banks * chunk) + Times(rotation, chunk) == Times(Times(q, banks) + rotation, chunk)
  {
    Spread(q * banks, rotation, chunk);
    Spread(q, banks, chunk);
  }

  lemma SlotMod(q: nat, banks: nat, rotation: nat, c: nat)
    requires 0 < banks
    ensures (Times(q, banks) + rotation + c) % banks == (c % banks + rotation) % banks
  {
    ModShift(rotation + c, q, banks);
    ModAdd(c, rotation, banks);
  }

  /** Slots add up when one address is a whole number of chunks. */
  lemma SlotAdds(g: Layout, base: nat, rotation: nat, x: nat)
    requires g.Valid() && 0 < g.Stripe() && base % g.Stripe() == Times(rotation, g.chunk)
    ensures Slot(g, base + x) == (x / g.chunk % g.banks + rotation) % g.banks
  {
    Whole(base, g.Stripe());
    Whole(x, g.chunk);
    var q, c := base / g.Stripe(), x / g.chunk;
    var n := Times(q, g.banks) + rotation;
    StripeChunks(q, g.banks, rotation, g.chunk);
    ChunksAdd(n, x, g.chunk);
    SlotMod(q, g.banks, rotation, c);
  }

  // ---- The activation lane ----

  /** Moves an address into one bank slot, folding its own slot into the row. */
  function ActLane(g: Layout, lane: nat, a: nat): nat
    requires g.Valid()
  {
    Positive(g.chunk, g.banks);
    Whole(a, g.chunk);
    Whole(a / g.chunk, g.banks);
    Whole(a, g.chunk * g.banks);
    var high: nat := Times(a / (g.chunk * g.banks), g.banks) + a / g.chunk % g.banks;
    Times(high, g.chunk * g.banks) + Times(lane, g.chunk) + a % g.chunk
  }

  lemma LaneParts(g: Layout, lane: nat, a: nat)
    requires g.Valid() && lane < g.banks
    ensures 0 <= a / g.chunk && ActLane(g, lane, a) == Times(Times(a / g.chunk, g.banks) + lane, g.chunk) + a % g.chunk
  {
    var m := g.chunk * g.banks;
    Positive(g.chunk, g.banks);
    Whole(a, g.chunk);
    Whole(a / g.chunk, g.banks);
    DivDiv(a, g.chunk, g.banks);
    Spread(a / g.chunk, g.banks, g.chunk);
    Spread(a / g.chunk * g.banks, lane, g.chunk);
  }

  /** The lane keeps different addresses apart, and keeps to its slot. */
  lemma LaneInjective(g: Layout, lane: nat, a: nat, a': nat)
    requires g.Valid() && lane < g.banks
    ensures ActLane(g, lane, a) == ActLane(g, lane, a') <==> a == a'
    ensures Slot(g, ActLane(g, lane, a)) == lane
  {
    hide ActLane;
    LaneParts(g, lane, a);
    LaneParts(g, lane, a');
    var c, c' := a / g.chunk, a' / g.chunk;
    Split(Times(c, g.banks) + lane, a % g.chunk, g.chunk);
    Split(c, lane, g.banks);
    if ActLane(g, lane, a) == ActLane(g, lane, a') {
      SplitUnique(Times(c, g.banks) + lane, a % g.chunk, Times(c', g.banks) + lane, a' % g.chunk, g.chunk);
      SplitUnique(c, lane, c', lane, g.banks);
      Rejoin(a, a', g.chunk);
    }
  }
}
