/** The whole way of a KV request: from (head, token, element) to its channel, its address
    inside the channel and the bank the DRAM decodes from it. */
module AddressPath {
  import opened Arith
  import opened HeadBank
  import opened KvAddress
  import opened BankDecode
  import opened ChannelHash

  /** The DRAM's widths belong to this many channels. */
  predicate WidthsFor(w: Widths, channels: nat) {
    0 < channels && w.channels == FloorLog2(channels)
  }

  function ChannelOf(w: Widths, channels: nat, address: nat): nat
    requires 0 < channels
  {
    ChannelId(channels, ShiftRight(address, w.request))
  }

  /** Every byte of a request goes to the channel of the request's number. */
  lemma ChannelOfRequest(w: Widths, channels: nat, block: nat, low: nat)
    requires 0 < channels && low < Pow2(w.request)
    ensures ChannelOf(w, channels, Times(block, Pow2(w.request)) + low) == ChannelId(channels, block)
  {
    hide ChannelId;
    Split(block, low, Pow2(w.request));
  }

  /** Channel and in-channel address tell the request apart from every other. */
  lemma PathTells(w: Widths, channels: nat, x: nat, y: nat)
    requires WidthsFor(w, channels) && KeepsApart(channels)
    requires x % Pow2(w.request) == 0 && y % Pow2(w.request) == 0
    requires ChannelOf(w, channels, x) == ChannelOf(w, channels, y) && Compact(w, x) == Compact(w, y)
    ensures x == y
  {
    var p := Pow2(w.request);
    ShiftTwice(x, w.request, w.channels);
    ShiftTwice(y, w.request, w.channels);
    Split(ShiftRight(x, w.channels + w.request), 0, p);
    Split(ShiftRight(y, w.channels + w.request), 0, p);
    TellsBlocksExactly(channels);
    assert !Confuses(channels, ShiftRight(x, w.request), ShiftRight(y, w.request));
    Rejoin(x, y, p);
  }

  /** Where an element of a padded tensor is requested from. */
  function RequestAddress(g: Layout, a: Paging, table: seq<nat>, base: nat, rotate: bool, head: nat, token: nat, d: nat,
                          shift: nat): nat
    requires g.Valid() && a.Valid() && token / a.block < |table|
  {
    base + Pad(g, base, rotate) + Address(g, a, table, head, token, d, shift)
  }

  lemma RequestAligned(g: Layout, a: Paging, table: seq<nat>, base: nat, rotate: bool, head: nat, token: nat, d: nat,
                       shift: nat)
    requires g.Valid() && a.Valid() && token / a.block < |table| && g.chunk % a.request == 0 && base % a.request == 0
    ensures RequestAddress(g, a, table, base, rotate, head, token, d, shift) % a.request == 0
  {
    hide Address, Position, Offset;
    var m := g.Stripe();
    var b, x := base + Pad(g, base, rotate), Address(g, a, table, head, token, d, shift);
    var p := Offset(g, head, Position(a, table, token, d), shift);
    assert x == Align(p, a.request) by { AddressIs(g, a, table, head, token, d, shift); }
    Whole(p, a.request);
    PadAligns(g, base, rotate);
    Whole(b, m);
    MultipleOf(g.chunk, a.request);
    var c := g.chunk / a.request;
    Spread(b / m * g.banks, Rotation(g, base, rotate), g.chunk);
    Spread(b / m, g.banks, g.chunk);
    var n := Times(b / m, g.banks) + Rotation(g, base, rotate);
    Spread(n, c, a.request);
    Spread(n * c, p / a.request, a.request);
    Split(n * c + p / a.request, 0, a.request);
  }

  lemma AddressIs(g: Layout, a: Paging, table: seq<nat>, head: nat, token: nat, d: nat, shift: nat)
    requires g.Valid() && a.Valid() && token / a.block < |table|
    ensures Address(g, a, table, head, token, d, shift) ==
              Align(Offset(g, head, Position(a, table, token, d), shift), a.request)
  {}

  /** The shift of a token's tile, with the base the tensor is padded to. */
  function TiledRequest(g: Layout, a: Paging, table: seq<nat>, base: nat, rotate: bool, head: nat, token: nat, d: nat,
                        length: nat, stride: nat): nat
    requires g.Valid() && a.Valid() && token / a.block < |table| && 0 < length
  {
    RequestAddress(g, a, table, base, rotate, head, token, d, TileShift(token, length, stride))
  }

  /** End to end: two elements of a tensor come from the same place of the same channel
      exactly when they are the same request of the same head and token, whichever tiles the
      tokens are in, when the stride is safe. */
  lemma RequestsApart(g: Layout, a: Paging, w: Widths, channels: nat, table: seq<nat>, base: nat, rotate: bool,
                      length: nat, stride: nat,
                      head: nat, token: nat, d: nat, head': nat, token': nat, d': nat)
    requires g.Valid() && Fits(g) && a.Valid() && IsPermutation(table) && g.chunk % a.request == 0 &&
             base % a.request == 0
    requires WidthsFor(w, channels) && KeepsApart(channels) && a.request == Pow2(w.request) && 0 < length &&
             StrideSafe(g, stride)
    requires head < g.heads && token / a.block < |table| && d < a.width
    requires head' < g.heads && token' / a.block < |table| && d' < a.width
    ensures var x, y := TiledRequest(g, a, table, base, rotate, head, token, d, length, stride),
                        TiledRequest(g, a, table, base, rotate, head', token', d', length, stride);
            ChannelOf(w, channels, x) == ChannelOf(w, channels, y) && Compact(w, x) == Compact(w, y) <==>
            head == head' && token == token' && Granule(a, d) == Granule(a, d')
  {
    hide Address, Granule, Pad, KeepsApart, ChannelOf, Compact, Fits, StrideSafe, TileShift;
    TiledInjective(g, a, table, length, stride, head, token, d, head', token', d');
    var x, y := TiledRequest(g, a, table, base, rotate, head, token, d, length, stride),
                TiledRequest(g, a, table, base, rotate, head', token', d', length, stride);
    RequestAligned(g, a, table, base, rotate, head, token, d, TileShift(token, length, stride));
    RequestAligned(g, a, table, base, rotate, head', token', d', TileShift(token', length, stride));
    if ChannelOf(w, channels, x) == ChannelOf(w, channels, y) && Compact(w, x) == Compact(w, y) {
      PathTells(w, channels, x, y);
    }
  }

  /** The bank the DRAM decodes for an address, all fields as one number. */
  function DecodedBank(w: Widths, address: nat): nat {
    LowBits(ShiftRight(Compact(w, address), w.transaction + w.column), w.pseudo + w.group + w.bank)
  }

  /** The bank decoded for an element is the slot of its head and chunk, turned by the shift
      and the tensor's rotation. */
  lemma DecodedIs(g: Layout, a: Paging, w: Widths, table: seq<nat>, base: nat, rotate: bool, shift: nat,
                  head: nat, token: nat, d: nat)
    requires g.Valid() && a.Valid() && MadeFor(g, w) && g.chunk % a.request == 0 && token / a.block < |table|
    ensures DecodedBank(w, RequestAddress(g, a, table, base, rotate, head, token, d, shift))
         == HeadSlot(g, head, Position(a, table, token, d), shift + Rotation(g, base, rotate))
  {
    hide Address, Pad, Position;
    DecodedBankIsSlot(g, w, RequestAddress(g, a, table, base, rotate, head, token, d, shift));
    AddressSlot(g, a, table, base, rotate, head, token, d, shift);
    Whole(Position(a, table, token, d), g.chunk);
    Whole(Position(a, table, token, d) / g.chunk, g.perHead);
  }

  /** Without rotation and in the first tile, when all heads' banks fit, head h is in the banks
      from h * perHead up, chunk after chunk: with one bank a head the bank is the head. */
  lemma BankIsHead(g: Layout, a: Paging, w: Widths, table: seq<nat>, base: nat, head: nat, token: nat, d: nat)
    requires g.Valid() && a.Valid() && MadeFor(g, w) && g.chunk % a.request == 0 && token / a.block < |table|
    requires g.heads * g.perHead <= g.banks && head < g.heads
    ensures 0 <= Position(a, table, token, d) / g.chunk
    ensures var bank := DecodedBank(w, RequestAddress(g, a, table, base, false, head, token, d, 0));
            && bank / g.perHead == head && bank % g.perHead == Position(a, table, token, d) / g.chunk % g.perHead
            && (g.perHead == 1 ==> bank == head)
  {
    hide RequestAddress, DecodedBank, Position;
    DecodedIs(g, a, w, table, base, false, 0, head, token, d);
    var p := Position(a, table, token, d);
    Whole(p, g.chunk);
    var j := p / g.chunk % g.perHead;
    Whole(p / g.chunk, g.perHead);
    SplitLess(head, j, g.perHead, g.heads);
    Small(head * g.perHead + j, g.banks);
    Split(head, j, g.perHead);
  }

  // ---- Tensors of one rotation: keys, values, other requests ----

  /** A tensor of the cache: where it starts, and its block table. */
  datatype Tensor = Tensor(base: nat, table: seq<nat>)

  /** Two tensors start at the same bank slot.  Without rotation all do. */
  predicate Level(g: Layout, x: Tensor, y: Tensor, rotate: bool)
    requires g.Valid()
    ensures !rotate ==> Level(g, x, y, rotate)
  {
    Rotation(g, x.base, rotate) == Rotation(g, y.base, rotate)
  }

  function BankOfElement(g: Layout, a: Paging, w: Widths, x: Tensor, rotate: bool, shift: nat, head: nat, token: nat,
                         d: nat): nat
    requires g.Valid() && a.Valid() && token / a.block < |x.table|
  {
    DecodedBank(w, RequestAddress(g, a, x.table, x.base, rotate, head, token, d, shift))
  }

  /** No head's requests, in whichever tensor, reach a bank of another head, when all heads'
      banks fit. */
  lemma HeadOwnsItsBanks(g: Layout, a: Paging, w: Widths, x: Tensor, y: Tensor, rotate: bool, shift: nat,
                         head: nat, token: nat, d: nat, head': nat, token': nat, d': nat)
    requires g.Valid() && a.Valid() && MadeFor(g, w) && g.chunk % a.request == 0 && Level(g, x, y, rotate)
    requires g.heads * g.perHead <= g.banks && head < g.heads && head' < g.heads && head != head'
    requires token / a.block < |x.table| && token' / a.block < |y.table|
    ensures BankOfElement(g, a, w, x, rotate, shift, head, token, d) !=
              BankOfElement(g, a, w, y, rotate, shift, head', token', d')
  {
    hide RequestAddress, DecodedBank, HeadSlot, Rotation, Position, MadeFor;
    DecodedIs(g, a, w, x.table, x.base, rotate, shift, head, token, d);
    DecodedIs(g, a, w, y.table, y.base, rotate, shift, head', token', d');
    var p, p' := Position(a, x.table, token, d), Position(a, y.table, token', d');
    var turn := shift + Rotation(g, x.base, rotate);
    if HeadSlot(g, head, p, turn) == HeadSlot(g, head', p', turn) {
      ApartWhenSideBySide(g, head, p, head', p', turn);
    }
  }

  /** Two elements of different heads are read from the same bank. */
  ghost predicate BankShared(g: Layout, a: Paging, w: Widths, rotate: bool, shift: nat, x: Tensor, y: Tensor,
                             head: nat, token: nat, d: nat, head': nat, token': nat, d': nat)
    requires g.Valid() && a.Valid()
  {
    && IsPermutation(x.table) && IsPermutation(y.table) && Level(g, x, y, rotate)
    && head < g.heads && head' < g.heads && head != head'
    && token / a.block < |x.table| && token' / a.block < |y.table| && d < a.width && d' < a.width
    && BankOfElement(g, a, w, x, rotate, shift, head, token, d) ==
         BankOfElement(g, a, w, y, rotate, shift, head', token', d')
  }

  ghost predicate NoBankShared(g: Layout, a: Paging, w: Widths, rotate: bool, shift: nat)
    requires g.Valid() && a.Valid()
  {
    forall x: Tensor, y: Tensor, head: nat, token: nat, d: nat, head': nat, token': nat, d': nat ::
      !BankShared(g, a, w, rotate, shift, x, y, head, token, d, head', token', d')
  }

  /** Heads that do not all fit share a bank, in any tensor already: the first that does not
      wraps onto head 0. */
  lemma HeadsShare(g: Layout, a: Paging, w: Widths, base: nat, rotate: bool, shift: nat)
      returns (x: Tensor, head: nat, token: nat, head': nat)
    requires g.Valid() && a.Valid() && MadeFor(g, w) && g.chunk % a.request == 0 &&
             g.chunk % Times(a.width, a.precision) == 0
    requires 1 < g.heads && g.banks < g.heads * g.perHead
    ensures x.base == base && BankShared(g, a, w, rotate, shift, x, x, head, token, 0, head', 0, 0)
  {
    hide RequestAddress, DecodedBank, HeadSlot, Rotation, Position, IsPermutation, MadeFor;
    Positive(a.width, a.precision);
    var turn := shift + Rotation(g, base, rotate);
    var j;
    head, j, head' := WrappedHead(g, turn);
    var row := Times(a.width, a.precision);
    MultipleOf(g.chunk, row);
    Whole(j * (g.chunk / row), a.block);
    var n := j * (g.chunk / row) / a.block + 1;
    x := Tensor(base, Identity(n));
    token := j * (g.chunk / row);
    Split(0, 0, a.block);
    IdentityPosition(a, n, 0);
    IdentityChunk(g, a, j, n);
    assert Position(a, x.table, 0, 0) == 0;
    DecodedIs(g, a, w, x.table, base, rotate, shift, head, token, 0);
    DecodedIs(g, a, w, x.table, base, rotate, shift, head', 0, 0);
  }

  /** End to end: every head owns its banks, whatever the tensors of one rotation, their tables
      and the tokens, exactly when there is one head or the banks of all heads fit.  Without
      rotation that is all tensors. */
  lemma HeadsOwnBanksEndToEnd(g: Layout, a: Paging, w: Widths, rotate: bool, shift: nat)
    requires g.Valid() && a.Valid() && MadeFor(g, w) && g.chunk % a.request == 0 &&
             g.chunk % Times(a.width, a.precision) == 0
    ensures NoBankShared(g, a, w, rotate, shift) <==> g.heads == 1 || g.heads * g.perHead <= g.banks
  {
    hide BankOfElement, IsPermutation, Level;
    if g.heads == 1 {
    } else if g.heads * g.perHead <= g.banks {
      forall x: Tensor, y: Tensor, head: nat, token: nat, d: nat, head': nat, token': nat, d': nat
        ensures !BankShared(g, a, w, rotate, shift, x, y, head, token, d, head', token', d')
      {
        if BankShared(g, a, w, rotate, shift, x, y, head, token, d, head', token', d') {
          HeadOwnsItsBanks(g, a, w, x, y, rotate, shift, head, token, d, head', token', d');
        }
      }
    } else {
      var x, head, token, head' := HeadsShare(g, a, w, 0, rotate, shift);
    }
  }
}
