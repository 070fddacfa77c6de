/** From an address to the DRAM bank: channel compaction on the way into a channel, and the
    bit fields of the address mapper. */
module BankDecode {
  import opened Arith
  import opened HeadBank
  import opened KvAddress

  /** Field widths in bits: channels, request bytes, transaction bytes, column,
      pseudochannel, bank group, bank, row. */
  datatype Widths = Widths(channels: nat, request: nat, transaction: nat, column: nat, pseudo: nat, group: nat,
                           bank: nat, row: nat)

  datatype Fields = Fields(column: nat, pseudo: nat, group: nat, bank: nat, row: nat)

  function ShiftRight(x: nat, n: nat): (y: nat)
    ensures y == x / Pow2(n)
  {
    Whole(x, Pow2(n));
    x / Pow2(n)
  }

  function LowBits(x: nat, n: nat): (y: nat)
    ensures y == x % Pow2(n) && y < Pow2(n)
  {
    x % Pow2(n)
  }

  lemma ShiftTwice(x: nat, a: nat, b: nat)
    ensures ShiftRight(ShiftRight(x, a), b) == ShiftRight(x, a + b)
  {
    DivDiv(x, Pow2(a), Pow2(b));
    Pow2Add(a, b);
  }

  /** The address inside a channel: the channel bits taken out, the offset bits cleared. */
  function Compact(w: Widths, address: nat): nat {
    Times(ShiftRight(address, w.channels + w.request), Pow2(w.request))
  }

  /** The bank of a decoded address as one number, lowest field first. */
  function BankNumber(w: Widths, f: Fields): nat {
    f.pseudo + Times(f.group + Times(f.bank, Pow2(w.group)), Pow2(w.pseudo))
  }

  /** Consecutive fields read one after the other are one field. */
  lemma FieldsJoin(x: nat, a: nat, b: nat)
    ensures LowBits(x, a) + Times(LowBits(ShiftRight(x, a), b), Pow2(a)) == LowBits(x, a + b)
  {
    var p, q := Pow2(a), Pow2(b);
    Pow2Add(a, b);
    DivDiv(x, p, q);
    Whole(x, p);
    Whole(x / p, q);
    Whole(x, p * q);
    Spread(x / p / q * q, x / p % q, p);
    Spread(x / p / q, q, p);
    assert q * p == p * q;
  }

  lemma BankBits(w: Widths, x: nat)
    ensures BankNumber(w, Fields(0, LowBits(x, w.pseudo), LowBits(ShiftRight(x, w.pseudo), w.group),
                                 LowBits(ShiftRight(x, w.pseudo + w.group), w.bank), 0))
         == LowBits(x, w.pseudo + w.group + w.bank)
  {
    var y := ShiftRight(x, w.pseudo);
    ShiftTwice(x, w.pseudo, w.group);
    FieldsJoin(y, w.group, w.bank);
    FieldsJoin(x, w.pseudo, w.group + w.bank);
    assert w.pseudo + (w.group + w.bank) == w.pseudo + w.group + w.bank;
  }

  /** Peels the fields off an address inside a channel, lowest first. */
  method LogAccess(w: Widths, ramAddress: nat) returns (f: Fields)
    ensures BankNumber(w, f) == LowBits(ShiftRight(ramAddress, w.transaction + w.column), w.pseudo + w.group + w.bank)
    ensures f.column == LowBits(ShiftRight(ramAddress, w.transaction), w.column)
    ensures f.row == LowBits(ShiftRight(ramAddress, w.transaction + w.column + w.pseudo + w.group + w.bank), w.row)
    ensures f.pseudo < Pow2(w.pseudo) && f.group < Pow2(w.group) && f.bank < Pow2(w.bank)
  {
    hide ShiftRight, LowBits;
    var address := ShiftRight(ramAddress, w.transaction);
    var column := LowBits(address, w.column);
    ShiftTwice(ramAddress, w.transaction, w.column);
    address := ShiftRight(address, w.column);
    ghost var x := address;
    var pseudo := LowBits(address, w.pseudo);
    address := ShiftRight(address, w.pseudo);
    var group := LowBits(address, w.group);
    ShiftTwice(x, w.pseudo, w.group);
    address := ShiftRight(address, w.group);
    var bank := LowBits(address, w.bank);
    ShiftTwice(x, w.pseudo + w.group, w.bank);
    address := ShiftRight(address, w.bank);
    ShiftTwice(ramAddress, w.transaction + w.column, w.pseudo + w.group + w.bank);
    var row := LowBits(address, w.row);
    BankBits(w, x);
    f := Fields(column, pseudo, group, bank, row);
  }

  /** Equal bank numbers are equal banks. */
  lemma BankNumberInjective(w: Widths, f: Fields, f': Fields)
    requires f.pseudo < Pow2(w.pseudo) && f.group < Pow2(w.group) && f'.pseudo < Pow2(w.pseudo) &&
             f'.group < Pow2(w.group)
    ensures BankNumber(w, f) == BankNumber(w, f') <==> f.pseudo == f'.pseudo && f.group == f'.group && f.bank == f'.bank
  {
    if BankNumber(w, f) == BankNumber(w, f') {
      SplitUnique(f.group + Times(f.bank, Pow2(w.group)), f.pseudo, f'.group + Times(f'.bank, Pow2(w.group)), f'.pseudo,
                  Pow2(w.pseudo));
      SplitUnique(f.bank, f.group, f'.bank, f'.group, Pow2(w.group));
    }
  }

  /** The layout is made for a DRAM: a chunk is one row of one bank in every channel, and the
      bank slots are the bank field. */
  predicate MadeFor(g: Layout, w: Widths) {
    && g.chunk == Pow2(w.channels + w.transaction + w.column)
    && g.banks == Pow2(w.pseudo + w.group + w.bank)
    && w.request <= w.transaction + w.column
  }

  lemma CompactChunk(w: Widths, address: nat)
    requires w.request <= w.transaction + w.column
    ensures ShiftRight(Compact(w, address), w.transaction + w.column) ==
              ShiftRight(address, w.channels + w.transaction + w.column)
  {
    var high := ShiftRight(address, w.channels + w.request);
    var rest := w.transaction + w.column - w.request;
    Split(high, 0, Pow2(w.request));
    ShiftTwice(Compact(w, address), w.request, rest);
    ShiftTwice(address, w.channels + w.request, rest);
  }

  /** The bank the DRAM decodes is the slot the layout chose, whatever the channel. */
  lemma DecodedBankIsSlot(g: Layout, w: Widths, address: nat)
    requires g.Valid() && MadeFor(g, w)
    ensures LowBits(ShiftRight(Compact(w, address), w.transaction + w.column), w.pseudo + w.group + w.bank) ==
              Slot(g, address)
  {
    CompactChunk(w, address);
  }

  // ---- Each head owns its banks ----

  function HeadSlot(g: Layout, head: nat, p: nat, shift: nat): nat
    requires g.Valid()
  {
    PlaceOf(g, head, p, shift).bank
  }

  ghost predicate Share(g: Layout, stream: nat, head: nat, p: nat, head': nat, p': nat, shift: nat)
    requires g.Valid()
  {
    head < g.heads && head' < g.heads && head != head' && p < stream && p' < stream &&
        HeadSlot(g, head, p, shift) == HeadSlot(g, head', p', shift)
  }

  ghost predicate HeadsOwnBanks(g: Layout, stream: nat, shift: nat)
    requires g.Valid()
  {
    forall head: nat, p: nat, head': nat, p': nat :: !Share(g, stream, head, p, head', p', shift)
  }

  /** No two heads share a bank exactly when all heads' banks fit side by side: with streams of
      a chunk for each bank of a head at least. */
  lemma HeadsOwnBanksExactly(g: Layout, stream: nat, shift: nat)
    requires g.Valid() && g.perHead * g.chunk <= stream
    ensures HeadsOwnBanks(g, stream, shift) <==> g.heads == 1 || g.heads * g.perHead <= g.banks
  {
    if g.heads == 1 {
    } else if g.heads * g.perHead <= g.banks {
      forall head: nat, p: nat, head': nat, p': nat ensures !Share(g, stream, head, p, head', p', shift) {
        if Share(g, stream, head, p, head', p', shift) {
          ApartWhenSideBySide(g, head, p, head', p', shift);
        }
      }
    } else {
      var head, j, head' := WrappedHead(g, shift);
      MulOrder(j, g.perHead, g.chunk);
      assert Share(g, stream, head, Times(j, g.chunk), head', 0, shift);
    }
  }

  lemma ApartWhenSideBySide(g: Layout, head: nat, p: nat, head': nat, p': nat, shift: nat)
    requires g.Valid() && g.heads * g.perHead <= g.banks && head < g.heads && head' < g.heads
    requires HeadSlot(g, head, p, shift) == HeadSlot(g, head', p', shift)
    ensures head == head'
  {
    var s := g.Sets();
    FitsCounts(g);
    Whole(p, g.chunk);
    Whole(p', g.chunk);
    Whole(p / g.chunk, g.perHead);
    Whole(p' / g.chunk, g.perHead);
    BankInjective(g, head, p / g.chunk % g.perHead, head', p' / g.chunk % g.perHead, shift);
    Split(0, head, s);
    Split(0, head', s);
  }

  /** The first head that does not fit wraps around onto the first bank of head 0. */
  lemma WrappedHead(g: Layout, shift: nat) returns (head: nat, j: nat, head': nat)
    requires g.Valid() && 1 < g.heads && g.banks < g.heads * g.perHead
    ensures head < g.heads && head' < g.heads && head != head' && j < g.perHead
    ensures HeadSlot(g, head, Times(j, g.chunk), shift) == HeadSlot(g, head', 0, shift)
  {
    var k, b := g.perHead, g.banks;
    Whole(b, k);
    Whole(k, b);
    head := if k <= b then b / k else 1;
    head' := 0;
    if k <= b {
      AtLeastOne(b, k);
      if g.heads <= b / k {
        if g.heads < b / k { MulOrder(g.heads, b / k, k); }
      }
    }
    j := if k <= b then b - head * k else if k % b == 0 then 0 else b - k % b;
    assert j < k;
    Wraps(k, b);
    assert (Times(head, k) + j) % b == 0 by {
      if k <= b { Split(1, 0, b); } else { ModAdd(k, j, b); }
    }
    ChunkPlace(g, head, j, shift);
    ChunkPlace(g, 0, 0, shift);
    Split(0, j, k);
    Split(0, 0, k);
    Split(0, 0, b);
    BankRotates(head, k, j, 0, 0, shift, b);
    assert Times(0, g.chunk) == 0 && Times(0, k) == 0;
  }

  lemma Wraps(k: nat, b: nat)
    requires 0 < b
    ensures var r := k % b; r != 0 ==> (r + (b - r)) % b == 0
  {
    Split(1, 0, b);
  }
}
