/** The banks of a scratchpad: what is allocated in each, and which entries are complete. */
module Scratchpad {

  datatype Entry = Entry(valid: bool, size: nat, remain: nat)

  type Bank = map<int, Entry>

  // ---- Occupancy ----

  /** The sizes of all entries of a bank together. */
  ghost function Total(b: Bank): nat
    decreases |b|
  {
    if exists k :: k in b then
      var k :| k in b;
      b[k].size + Total(b - {k})
    else 0
  }

  lemma {:induction false} TotalWithout(b: Bank, k: int)
    requires k in b
    ensures Total(b) == b[k].size + Total(b - {k})
    decreases |b|
  {
    var j :| j in b && Total(b) == b[j].size + Total(b - {j});
    if j != k {
      TotalWithout(b - {j}, k);
      TotalWithout(b - {k}, j);
      assert b - {j} - {k} == b - {k} - {j};
    }
  }

  lemma TotalAdd(b: Bank, k: int, e: Entry)
    requires k !in b
    ensures Total(b[k := e]) == Total(b) + e.size
  {
    TotalWithout(b[k := e], k);
    assert b[k := e] - {k} == b;
  }

  lemma TotalSame(b: Bank, k: int, e: Entry)
    requires k in b && e.size == b[k].size
    ensures Total(b[k := e]) == Total(b)
  {
    TotalWithout(b, k);
    TotalWithout(b[k := e], k);
    assert b[k := e] - {k} == b - {k};
  }

  // ---- Expected and arrived fills ----

  /** Fills announced for an entry, and fills that came. */
  datatype Fills = Fills(expected: nat, arrived: nat)

  /** An entry is valid exactly when fills were announced and all of them came. */
  ghost predicate EntryOk(e: Entry, f: Fills) {
    && f.arrived <= f.expected && e.remain == f.expected - f.arrived
    && (e.valid <==> 0 < f.expected && f.arrived == f.expected)
  }

  ghost predicate KeyOk(b: Bank, fills: map<int, Fills>, k: int) {
    (k in b <==> k in fills) && (k in b ==> EntryOk(b[k], fills[k]))
  }

  ghost predicate BankOk(b: Bank, fills: map<int, Fills>, current: nat, width: nat, size: nat) {
    && (forall k: int :: KeyOk(b, fills, k))
    && current == Total(b) && current * width <= size
  }

  lemma EntryChanged(b: Bank, fills: map<int, Fills>, current: nat, width: nat, size: nat, k: int, e: Entry, f: Fills)
    requires BankOk(b, fills, current, width, size) && k in b && e.size == b[k].size && EntryOk(e, f)
    ensures BankOk(b[k := e], fills[k := f], current, width, size)
  {
    TotalSame(b, k, e);
    var b', fills' := b[k := e], fills[k := f];
    forall j: int ensures KeyOk(b', fills', j) {
      assert KeyOk(b, fills, j);
    }
  }

  lemma EntryAdded(b: Bank, fills: map<int, Fills>, current: nat, width: nat, size: nat, k: int, e: Entry, f: Fills)
    requires BankOk(b, fills, current, width, size) && k !in b && EntryOk(e, f) && (current + e.size) * width <= size
    ensures BankOk(b[k := e], fills[k := f], current + e.size, width, size)
  {
    TotalAdd(b, k, e);
    var b', fills' := b[k := e], fills[k := f];
    forall j: int ensures KeyOk(b', fills', j) {
      assert KeyOk(b, fills, j);
    }
  }

  // ---- The scratchpad ----

  class Sram {
    const size: nat
    const width: nat
    const accum: bool
    var current: seq<nat>
    var table: seq<Bank>
    ghost var fills: seq<map<int, Fills>>

    ghost predicate Valid()
      reads this
    {
      && |current| == |table| == |fills|
      && forall i | 0 <= i < |table| :: BankOk(table[i], fills[i], current[i], width, size)
    }

    constructor (total: nat, banks: nat, width: nat, accum: bool)
      ensures Valid() && |table| == (if banks == 0 then 2 else banks) && size == total / |table|
      ensures forall i | 0 <= i < |table| :: table[i] == map[] && current[i] == 0
    {
      var n := if banks == 0 then 2 else banks;
      size, this.width, this.accum := total / n, width, accum;
      current, table, fills := seq(n, i => 0), seq(n, i => map[]), seq(n, i => map[]);
      new;
      assert forall k: int :: KeyOk(map[], map[], k);
    }

    method CheckHit(address: int, bank: nat) returns (hit: bool)
      requires Valid() && bank < |table|
      ensures hit <==> address in fills[bank] && 0 < fills[bank][address].expected == fills[bank][address].arrived
    {
      assert KeyOk(table[bank], fills[bank], address);
      hit := address in table[bank] && table[bank][address].valid;
    }

    predicate CheckRemain(more: nat, bank: nat)
      requires bank < |current|
      reads this
    {
      (current[bank] + more) * width <= size
    }

    predicate CheckAllocated(address: int, bank: nat)
      requires bank < |table|
      reads this
    {
      address in table[bank]
    }

    method Flush(bank: nat)
      requires Valid() && bank < |table|
      modifies this
      ensures Valid() && table == old(table)[bank := map[]] && current == old(current)[bank := 0] &&
              fills == old(fills)[bank := map[]]
    {
      assert 0 * width == 0;
      assert forall k: int :: KeyOk(map[], map[], k);
      current := current[bank := 0];
      table := table[bank := map[]];
      fills := fills[bank := map[]];
    }

    /** Allocates an entry that count fills will complete, if there is room.  In the accumulator
        an entry of the same size may be there already, and stays. */
    method Prefetch(address: int, bank: nat, amount: nat, count: nat) returns (added: bool)
      requires Valid() && bank < |table|
      requires CheckAllocated(address, bank) ==> accum && table[bank][address].size == amount
      modifies this
      ensures Valid() && |table| == |old(table)|
      ensures added <==> !old(CheckAllocated(address, bank)) && (old(current)[bank] + amount) * width <= size
      ensures added ==>
                && table == old(table)[bank := old(table)[bank][address := Entry(false, amount, count)]]
                && fills == old(fills)[bank := old(fills)[bank][address := Fills(count, 0)]]
                && current == old(current)[bank := old(current)[bank] + amount]
      ensures !added ==> table == old(table) && fills == old(fills) && current == old(current)
    {
      added := address !in table[bank] && CheckRemain(amount, bank);
      if added {
        EntryAdded(table[bank], fills[bank], current[bank], width, size, address, Entry(false, amount, count),
                   Fills(count, 0));
        current := current[bank := current[bank] + amount];
        table := table[bank := table[bank][address := Entry(false, amount, count)]];
        fills := fills[bank := fills[bank][address := Fills(count, 0)]];
      }
    }

    /** One fill arrives; a fill for nothing allocated is an error. */
    method Fill(address: int, bank: nat) returns (ok: bool)
      requires Valid() && bank < |table|
      requires CheckAllocated(address, bank) ==> 0 < table[bank][address].remain
      modifies this
      ensures Valid() && ok == old(CheckAllocated(address, bank)) && current == old(current) && |table| == |old(table)|
      ensures !ok ==> table == old(table) && fills == old(fills)
      ensures ok ==>
                && address in old(fills)[bank]
                && var f := old(fills)[bank][address];
                && fills == old(fills)[bank := old(fills)[bank][address := f.(arrived := f.arrived + 1)]]
                && address in table[bank] && (table[bank][address].valid <==> f.arrived + 1 == f.expected)
                && address in old(table)[bank] && table[bank][address].size == old(table)[bank][address].size
                && table == old(table)[bank := old(table)[bank][address := table[bank][address]]]
    {
      assert KeyOk(table[bank], fills[bank], address);
      ok := address in table[bank];
      if ok {
        var e := table[bank][address];
        var left := e.remain - 1;
        var e' := e.(remain := left, valid := e.valid || left == 0);
        ghost var f := fills[bank][address];
        EntryChanged(table[bank], fills[bank], current[bank], width, size, address, e', f.(arrived := f.arrived + 1));
        table := table[bank := table[bank][address := e']];
        fills := fills[bank := fills[bank][address := f.(arrived := f.arrived + 1)]];
      }
    }

    /** One more fill is expected: the entry is not valid until it has come. */
    method CountUp(address: int, bank: nat)
      requires Valid() && bank < |table| && CheckAllocated(address, bank)
      modifies this
      ensures Valid() && current == old(current) && |table| == |old(table)|
      ensures address in table[bank] && !table[bank][address].valid && address in old(fills)[bank]
      ensures address in old(table)[bank] && table[bank][address].size == old(table)[bank][address].size
      ensures table == old(table)[bank := old(table)[bank][address := table[bank][address]]]
      ensures var f := old(fills)[bank][address];
              fills == old(fills)[bank := old(fills)[bank][address := f.(expected := f.expected + 1)]]
    {
      assert KeyOk(table[bank], fills[bank], address);
      var e := table[bank][address].(remain := table[bank][address].remain + 1, valid := false);
      ghost var f := fills[bank][address];
      EntryChanged(table[bank], fills[bank], current[bank], width, size, address, e, f.(expected := f.expected + 1));
      table := table[bank := table[bank][address := e]];
      fills := fills[bank := fills[bank][address := f.(expected := f.expected + 1)]];
    }
  }
}
