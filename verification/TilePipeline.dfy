/** The tiles resident in a core and the scratchpad and accumulator banks they use. */
module TilePipeline {
  import opened Arith
  import opened Collections

  /** epoch is the number of the issue that placed the tile, the first being one. */
  datatype Tile = Tile(layer: nat, op: nat, accum: bool, skip: bool, spad: nat, acc: nat, epoch: nat)

  /** What issuing a tile flushed: an operand bank always, an accumulator bank maybe. */
  datatype Flushed = Flushed(spad: nat, acc: nat, accFlushed: bool)

  /** Two tiles accumulate into the same result. */
  predicate Partners(a: Tile, b: Tile) {
    a.accum && b.accum && a.layer == b.layer && a.op == b.op
  }

  predicate Busy(tiles: seq<Tile>, bank: nat) {
    exists i :: 0 <= i < |tiles| && tiles[i].acc == bank
  }

  // ---- Some bank is always free ----

  function Banks(tiles: seq<Tile>): set<nat> {
    if tiles == [] then {} else Banks(tiles[..|tiles| - 1]) + {tiles[|tiles| - 1].acc}
  }

  lemma {:induction false} BanksAreBusy(tiles: seq<Tile>, bank: nat)
    ensures bank in Banks(tiles) <==> Busy(tiles, bank)
    ensures |Banks(tiles)| <= |tiles|
  {
    if tiles != [] {
      var n := |tiles| - 1;
      BanksAreBusy(tiles[..n], bank);
      if Busy(tiles, bank) && tiles[n].acc != bank {
        var i :| 0 <= i < |tiles| && tiles[i].acc == bank;
        assert tiles[..n][i].acc == bank;
      }
      if Busy(tiles[..n], bank) {
        var i :| 0 <= i < n && tiles[..n][i].acc == bank;
        assert tiles[i].acc == bank;
      }
      assert tiles[n].acc == bank ==> Busy(tiles, bank);
    }
  }

  /** Fewer tiles than banks leave a bank free. */
  lemma SomeBankFree(tiles: seq<Tile>, depth: nat)
    requires |tiles| < depth
    ensures exists bank: nat :: bank < depth && !Busy(tiles, bank)
  {
    if forall bank: nat | bank < depth :: Busy(tiles, bank) {
      forall bank | bank in Below(depth) ensures bank in Banks(tiles) {
        BanksAreBusy(tiles, bank);
      }
      SubsetSize(Below(depth), Banks(tiles));
      BanksAreBusy(tiles, 0);
    }
  }

  /** The bank tried in round k of the search. */
  function Candidate(last: nat, k: nat, depth: nat): nat
    requires 0 < depth
  {
    (last + 1 + k) % depth
  }

  /** The search goes from bank to bank, beginning after the last one handed out. */
  lemma CandidatesInTurn(last: nat, k: nat, depth: nat)
    requires last < depth
    ensures Candidate(last, 0, depth) == if last + 1 == depth then 0 else last + 1
    ensures Candidate(last, k + 1, depth) == (Candidate(last, k, depth) + 1) % depth
  {
    Small(last + 1, depth);
    ModAdd(last + 1 + k, 1, depth);
    assert last + 1 + k + 1 == last + 1 + (k + 1);
  }

  /** The candidates of the search are all banks. */
  lemma CandidateOf(last: nat, bank: nat, depth: nat) returns (k: nat)
    requires bank < depth
    ensures k < depth && Candidate(last, k, depth) == bank
  {
    var r := (last + 1) % depth;
    k := if r <= bank then bank - r else bank + depth - r;
    ModAdd(last + 1, k, depth);
    Small(r + k, depth);
  }

  /** The first bank after the last one handed out, coming round past the end, that is free. */
  ghost predicate FirstFree(tiles: seq<Tile>, last: nat, depth: nat, bank: nat)
    requires 0 < depth
  {
    && bank < depth && !Busy(tiles, bank)
    && exists k: nat :: k < depth && bank == Candidate(last, k, depth) &&
         forall j: nat | j < k :: Busy(tiles, Candidate(last, j, depth))
  }

  // ---- Issuing ----

  /** What every run keeps: at most depth tiles, and a shared accumulator bank exactly
      between partners. */
  ghost predicate Shares(tiles: seq<Tile>, i: nat, j: nat)
    requires i < |tiles| && j < |tiles|
  {
    i != j ==> (tiles[i].acc == tiles[j].acc <==> Partners(tiles[i], tiles[j]))
  }

  ghost predicate Inv(depth: nat, tiles: seq<Tile>) {
    && |tiles| <= depth
    && (forall i | 0 <= i < |tiles| :: tiles[i].acc < depth)
    && (forall i, j | 0 <= i < |tiles| && 0 <= j < |tiles| :: Shares(tiles, i, j))
  }

  /** The bank a tile may be given: its partners' if it has any, else a free one. */
  ghost predicate RightBank(depth: nat, tiles: seq<Tile>, t: Tile, bank: nat, flushed: bool) {
    && bank < depth
    && (if flushed then !Busy(tiles, bank) && forall i | 0 <= i < |tiles| :: !Partners(tiles[i], t)
        else exists i :: 0 <= i < |tiles| && Partners(tiles[i], t) && tiles[i].acc == bank)
  }

  /** Two resident tiles have one accumulator bank exactly when both accumulate into the result of
      the same operator of the same layer. */
  lemma BankIsResult(depth: nat, tiles: seq<Tile>, i: nat, j: nat)
    requires Inv(depth, tiles) && i < |tiles| && j < |tiles| && i != j
    ensures tiles[i].acc == tiles[j].acc <==>
              tiles[i].accum && tiles[j].accum && tiles[i].layer == tiles[j].layer && tiles[i].op == tiles[j].op
  {
    assert Shares(tiles, i, j);
  }

  lemma AppendKeeps(depth: nat, tiles: seq<Tile>, t: Tile, flushed: bool)
    requires Inv(depth, tiles) && |tiles| < depth && RightBank(depth, tiles, t, t.acc, flushed)
    ensures Inv(depth, tiles + [t])
  {
    var n, s := |tiles|, tiles + [t];
    forall i, j | 0 <= i < |s| && 0 <= j < |s| ensures Shares(s, i, j) {
      if i < n && j < n {
        assert Shares(tiles, i, j);
      } else if i != j {
        AppendShares(depth, tiles, t, flushed, if i < n then i else j);
      }
    }
  }

  lemma RightBankOf(depth: nat, tiles: seq<Tile>, t: Tile, t': Tile, bank: nat, flushed: bool)
    requires RightBank(depth, tiles, t, bank, flushed) && t' == t.(spad := t'.spad, acc := t'.acc, epoch := t'.epoch)
    ensures RightBank(depth, tiles, t', bank, flushed) && (flushed ==> !Busy(tiles, bank))
  {
    forall i | 0 <= i < |tiles| ensures Partners(tiles[i], t) <==> Partners(tiles[i], t') {}
  }

  lemma AppendShares(depth: nat, tiles: seq<Tile>, t: Tile, flushed: bool, i: nat)
    requires Inv(depth, tiles) && RightBank(depth, tiles, t, t.acc, flushed) && i < |tiles|
    ensures tiles[i].acc == t.acc <==> Partners(tiles[i], t)
  {
    if !flushed {
      var j :| 0 <= j < |tiles| && Partners(tiles[j], t) && tiles[j].acc == t.acc;
      assert Shares(tiles, i, j);
    }
  }

  lemma RemoveKeeps(depth: nat, tiles: seq<Tile>, i: nat)
    requires Inv(depth, tiles) && i < |tiles|
    ensures Inv(depth, tiles[..i] + tiles[i + 1..])
  {
    var s := tiles[..i] + tiles[i + 1..];
    forall a, b | 0 <= a < |s| && 0 <= b < |s| ensures Shares(s, a, b) {
      var a', b' := if a < i then a else a + 1, if b < i then b else b + 1;
      assert Shares(tiles, a', b');
    }
  }

  // ---- Operand banks ----

  /** The epochs of the resident tiles, oldest first, and the epoch of the next issue. */
  datatype Operands = Operands(live: seq<nat>, next: nat)

  datatype Move = Issuing(skip: bool) | Retiring(i: nat)

  /** Issue n gets operand bank n in rotation. */
  function OperandBank(depth: nat, epoch: nat): (bank: nat)
    requires 0 < depth
    ensures bank < depth
  {
    epoch % depth
  }

  predicate Possible(depth: nat, o: Operands, m: Move) {
    match m
    case Issuing(_) => |o.live| < depth
    case Retiring(i) => i < |o.live|
  }

  function Moved(o: Operands, m: Move): Operands {
    match m
    case Issuing(skip) => Operands(if skip then o.live else o.live + [o.next], o.next + 1)
    case Retiring(i) => if i < |o.live| then o.(live := o.live[..i] + o.live[i + 1..]) else o
  }

  /** The state after a run from a fresh core. */
  function After(moves: seq<Move>): Operands {
    if moves == [] then Operands([], 1) else Moved(After(moves[..|moves| - 1]), moves[|moves| - 1])
  }

  /** A tile is issued only when there is a place, and only a resident tile retires. */
  ghost predicate Legal(depth: nat, moves: seq<Move>) {
    forall n | 0 <= n < |moves| :: Possible(depth, After(moves[..n]), moves[n])
  }

  ghost predicate Numbered(o: Operands) {
    && 0 < o.next && (forall i | 0 <= i < |o.live| :: o.live[i] < o.next)
    && forall i, j | 0 <= i < j < |o.live| :: o.live[i] < o.live[j]
  }

  /** The next issue flushes the operand bank of a resident tile. */
  ghost predicate FlushesLive(depth: nat, o: Operands)
    requires 0 < depth
  {
    exists i :: 0 <= i < |o.live| && OperandBank(depth, o.live[i]) == OperandBank(depth, o.next)
  }

  /** Every resident tile is one of the last depth - 1 issued.  The oldest decides. */
  predicate Recent(depth: nat, o: Operands) {
    o.live == [] || o.next < o.live[0] + depth
  }

  lemma SameBank(depth: nat, epoch: nat, next: nat)
    requires 0 < depth && epoch <= next
    ensures OperandBank(depth, epoch) == OperandBank(depth, next) <==> (next - epoch) % depth == 0
  {
    var d: nat := next - epoch;
    Whole(d, depth);
    ModAdd(d, epoch, depth);
    assert d + epoch == next;
    if OperandBank(depth, epoch) == OperandBank(depth, next) {
      ModInjective(d % depth, 0, epoch, depth);
    }
  }

  /** An issue flushes the bank of a resident tile exactly when some resident tile was issued
      a whole number of rounds before. */
  lemma FlushesExactly(depth: nat, o: Operands)
    requires 0 < depth && Numbered(o)
    ensures FlushesLive(depth, o) <==> exists i :: 0 <= i < |o.live| && (o.next - o.live[i]) % depth == 0
  {
    forall i | 0 <= i < |o.live|
      ensures OperandBank(depth, o.live[i]) == OperandBank(depth, o.next) <==> (o.next - o.live[i]) % depth == 0
    {
      SameBank(depth, o.live[i], o.next);
    }
  }

  lemma RecentIsSafe(depth: nat, o: Operands)
    requires 0 < depth && Numbered(o) && Recent(depth, o)
    ensures !FlushesLive(depth, o)
  {
    FlushesExactly(depth, o);
    forall i | 0 <= i < |o.live| ensures (o.next - o.live[i]) % depth != 0 {
      Small(o.next - o.live[i], depth);
    }
  }

  lemma NumberedBelow(o: Operands, i: nat)
    requires Numbered(o)
    ensures 0 < o.next && (i < |o.live| ==> o.live[i] < o.next)
  {}

  lemma MovedNumbered(o: Operands, m: Move)
    requires Numbered(o)
    ensures Numbered(Moved(o, m))
  {}

  lemma {:induction false} AfterNumbered(moves: seq<Move>)
    ensures Numbered(After(moves))
  {
    if moves != [] {
      AfterNumbered(moves[..|moves| - 1]);
    }
  }

  /** No resident tile lies further back than one round. */
  ghost predicate WithinRound(depth: nat, o: Operands) {
    o.live == [] || o.next <= o.live[0] + depth
  }

  lemma SafeStep(depth: nat, o: Operands, m: Move)
    requires 0 < depth && Numbered(o) && WithinRound(depth, o) && (m.Issuing? ==> !FlushesLive(depth, o))
    ensures WithinRound(depth, Moved(o, m))
  {
    if m.Issuing? {
      hide FlushesLive;
      SafeIsRecent(depth, o);
    }
  }

  /** As long as no issue flushes a resident tile's bank, none falls further back. */
  lemma {:induction false} SafeSoFar(depth: nat, moves: seq<Move>)
    requires 0 < depth
    requires forall n | 0 <= n < |moves| && moves[n].Issuing? :: !FlushesLive(depth, After(moves[..n]))
    ensures WithinRound(depth, After(moves))
  {
    if moves != [] {
      var n := |moves| - 1;
      hide FlushesLive, Moved, Numbered, WithinRound;
      var before, m := moves[..n], moves[n];
      forall k | 0 <= k < n && before[k].Issuing? ensures !FlushesLive(depth, After(before[..k])) {
        assert before[..k] == moves[..k] && before[k] == moves[k];
      }
      SafeSoFar(depth, before);
      AfterNumbered(before);
      assert m.Issuing? ==> !FlushesLive(depth, After(moves[..n]));
      SafeStep(depth, After(before), m);
    }
  }

  lemma SafeIsRecent(depth: nat, o: Operands)
    requires 0 < depth && Numbered(o) && WithinRound(depth, o) && !FlushesLive(depth, o)
    ensures Recent(depth, o)
  {
    FlushesExactly(depth, o);
    if !Recent(depth, o) {
      assert o.next - o.live[0] == depth;
      Small(depth, depth);
    }
  }

  /** Over every run of a core no issue flushes the operand bank of a resident tile exactly
      when at each issue the oldest resident tile is one of the last depth - 1 issued. */
  lemma NeverFlushesExactly(depth: nat, moves: seq<Move>)
    requires 0 < depth && Legal(depth, moves)
    ensures (forall n | 0 <= n < |moves| && moves[n].Issuing? :: !FlushesLive(depth, After(moves[..n])))
       <==> (forall n | 0 <= n < |moves| && moves[n].Issuing? :: Recent(depth, After(moves[..n])))
  {
    forall n | 0 <= n < |moves| ensures Numbered(After(moves[..n])) {
      AfterNumbered(moves[..n]);
    }
    if forall n | 0 <= n < |moves| && moves[n].Issuing? :: Recent(depth, After(moves[..n])) {
      forall n | 0 <= n < |moves| && moves[n].Issuing? ensures !FlushesLive(depth, After(moves[..n])) {
        RecentIsSafe(depth, After(moves[..n]));
      }
    }
    if forall n | 0 <= n < |moves| && moves[n].Issuing? :: !FlushesLive(depth, After(moves[..n])) {
      forall n | 0 <= n < |moves| && moves[n].Issuing? ensures Recent(depth, After(moves[..n])) {
        forall k | 0 <= k < n && moves[..n][k].Issuing? ensures !FlushesLive(depth, After(moves[..n][..k])) {
          assert moves[..n][..k] == moves[..k];
        }
        SafeSoFar(depth, moves[..n]);
        SafeIsRecent(depth, After(moves[..n]));
      }
    }
  }

  /** Tiles retire in the order of issue, and none is skipped. */
  ghost predicate InOrder(moves: seq<Move>) {
    forall n | 0 <= n < |moves| :: moves[n] == Issuing(false) || moves[n] == Retiring(0)
  }

  /** The resident tiles are the last ones issued. */
  ghost predicate Contiguous(o: Operands) {
    forall i | 0 <= i < |o.live| :: o.live[i] == o.next - |o.live| + i
  }

  lemma MovedContiguous(o: Operands, m: Move)
    requires Contiguous(o) && (m == Issuing(false) || m == Retiring(0))
    ensures Contiguous(Moved(o, m))
  {
    if m == Retiring(0) && o.live != [] {
      assert Moved(o, m).live == o.live[1..];
    }
  }

  lemma {:induction false} InOrderContiguous(moves: seq<Move>)
    requires InOrder(moves)
    ensures Contiguous(After(moves))
  {
    if moves != [] {
      InOrderContiguous(moves[..|moves| - 1]);
      MovedContiguous(After(moves[..|moves| - 1]), moves[|moves| - 1]);
    }
  }

  /** In order and without skipped tiles, no issue of any run flushes a bank in use. */
  lemma InOrderNeverFlushes(depth: nat, moves: seq<Move>, n: nat)
    requires 0 < depth && Legal(depth, moves) && InOrder(moves) && n < |moves| && moves[n].Issuing?
    ensures Recent(depth, After(moves[..n])) && !FlushesLive(depth, After(moves[..n]))
  {
    var before := moves[..n];
    assert InOrder(before);
    InOrderContiguous(before);
    AfterNumbered(before);
    assert Possible(depth, After(before), moves[n]);
    RecentIsSafe(depth, After(before));
  }

  // ---- The core ----

  class Core {
    const depth: nat
    var tiles: seq<Tile>
    var finished: seq<Tile>
    var lastSpad: nat
    var lastAcc: nat
    var nextEpoch: nat

    ghost predicate Valid()
      reads this
    {
      && 0 < depth && Inv(depth, tiles) && Numbered(Resident()) && lastSpad == OperandBank(depth, nextEpoch - 1)
      && forall i | 0 <= i < |tiles| :: tiles[i].spad == OperandBank(depth, tiles[i].epoch)
    }

    /** The core as far as operand banks go. */
    ghost function Resident(): (o: Operands)
      reads this
      ensures |o.live| == |tiles| && o.next == nextEpoch
      ensures forall i | 0 <= i < |tiles| :: o.live[i] == tiles[i].epoch
    {
      Operands(seq(|tiles|, i requires 0 <= i < |tiles| reads this => tiles[i].epoch), nextEpoch)
    }

    constructor (depth: nat)
      requires 0 < depth
      ensures Valid() && this.depth == depth && tiles == [] && finished == [] && lastSpad == lastAcc == 0
      ensures Resident() == After([])
    {
      this.depth := depth;
      tiles, finished, lastSpad, lastAcc, nextEpoch := [], [], 0, 0, 1;
      Small(0, depth);
    }

    predicate CanIssue()
      reads this
    {
      |tiles| < depth
    }

    method IsBusy(bank: nat) returns (busy: bool)
      ensures busy == Busy(tiles, bank)
    {
      for i := 0 to |tiles|
        invariant forall j | 0 <= j < i :: tiles[j].acc != bank
      {
        if tiles[i].acc == bank { return true; }
      }
      return false;
    }

    /** The bank of a live partner, if there is one. */
    method PartnerBank(t: Tile) returns (found: bool, bank: nat)
      ensures found <==> exists i :: 0 <= i < |tiles| && Partners(tiles[i], t)
      ensures found ==> exists i :: 0 <= i < |tiles| && Partners(tiles[i], t) && tiles[i].acc == bank
    {
      found, bank := false, 0;
      if t.accum {
        for i := 0 to |tiles|
          invariant forall j | 0 <= j < i :: !Partners(tiles[j], t)
        {
          if tiles[i].accum && tiles[i].layer == t.layer && tiles[i].op == t.op {
            return true, tiles[i].acc;
          }
        }
      }
    }

    /** The first bank after the last one handed out that no live tile uses.  With a place
        left for the tile there always is one: the code's fallback is never reached. */
    method FreeBank() returns (bank: nat)
      requires CanIssue()
      ensures FirstFree(tiles, lastAcc, depth, bank)
    {
      for k := 0 to depth
        invariant forall j: nat | j < k :: Busy(tiles, Candidate(lastAcc, j, depth))
      {
        var candidate := Candidate(lastAcc, k, depth);
        var busy := IsBusy(candidate);
        if !busy { return candidate; }
      }
      SomeBankFree(tiles, depth);
      ghost var free: nat :| free < depth && !Busy(tiles, free);
      ghost var k := CandidateOf(lastAcc, free, depth);
      assert false;
    }

    /** The accumulator bank of a tile, and whether it is flushed. */
    method AccumulatorBank(op: Tile) returns (bank: nat, flush: bool)
      requires Inv(depth, tiles) && CanIssue()
      modifies this`lastAcc
      ensures RightBank(depth, tiles, op, bank, flush)
      ensures lastAcc == if flush then bank else old(lastAcc)
      ensures flush ==> FirstFree(tiles, old(lastAcc), depth, bank)
    {
      var found;
      found, bank := PartnerBank(op);
      if !found {
        bank := FreeBank();
        lastAcc := bank;
      }
      flush := !found;
    }

    /** Places a tile: its operand bank is the next in rotation, its accumulator bank that of
        its partners or a free one, and no bank a live tile accumulates in is flushed.  The
        operand bank of a live tile is flushed exactly when that tile was issued a whole
        number of rounds before. */
    method Issue(op: Tile) returns (flushed: Flushed)
      requires Valid() && CanIssue()
      modifies this
      ensures Valid() && flushed.spad == lastSpad == (old(lastSpad) + 1) % depth
      ensures Resident() == Moved(old(Resident()), Issuing(op.skip)) &&
              Possible(depth, old(Resident()), Issuing(op.skip))
      ensures forall i | 0 <= i < |old(tiles)| ::
                old(tiles)[i].spad == flushed.spad <==> (old(nextEpoch) - old(tiles)[i].epoch) % depth == 0
      ensures RightBank(depth, old(tiles), op, flushed.acc, flushed.accFlushed)
      ensures flushed.accFlushed ==>
                !Busy(old(tiles), flushed.acc) && FirstFree(old(tiles), old(lastAcc), depth, flushed.acc) &&
                    lastAcc == flushed.acc
      ensures !flushed.accFlushed ==> lastAcc == old(lastAcc)
      ensures var t := op.(spad := flushed.spad, acc := flushed.acc, epoch := old(nextEpoch));
              && tiles == (if op.skip then old(tiles) else old(tiles) + [t])
              && finished == if op.skip then old(finished) + [t] else old(finished)
    {
      hide OperandBank, Inv, Numbered, Partners, RightBank;
      ghost var before := Resident();
      NumberedBelow(before, 0);
      NextInRotation(depth, nextEpoch);
      lastSpad := (lastSpad + 1) % depth;
      var bank, flush := AccumulatorBank(op);
      flushed := Flushed(lastSpad, bank, flush);
      forall i | 0 <= i < |tiles| ensures tiles[i].spad == flushed.spad <==> (nextEpoch - tiles[i].epoch) % depth == 0 {
        NumberedBelow(before, i);
        SameBank(depth, tiles[i].epoch, nextEpoch);
      }
      MovedNumbered(before, Issuing(op.skip));
      var t := op.(spad := lastSpad, acc := bank, epoch := nextEpoch);
      nextEpoch := nextEpoch + 1;
      RightBankOf(depth, tiles, op, t, bank, flush);
      if op.skip {
        finished := finished + [t];
        assert Resident().live == before.live;
        return;
      }
      AppendKeeps(depth, tiles, t, flush);
      tiles := tiles + [t];
      assert Resident().live == before.live + [before.next];
    }

    /** Retires a tile whose instructions are done, wherever it stands. */
    method Retire(i: nat)
      requires Valid() && i < |tiles|
      modifies this`tiles, this`finished
      ensures Valid() && tiles == old(tiles[..i] + tiles[i + 1..]) && finished == old(finished) + [old(tiles[i])]
      ensures Resident() == Moved(old(Resident()), Retiring(i))
    {
      RemoveKeeps(depth, tiles, i);
      finished := finished + [tiles[i]];
      tiles := tiles[..i] + tiles[i + 1..];
    }
  }

  lemma NextInRotation(depth: nat, next: nat)
    requires 0 < depth && 0 < next
    ensures (OperandBank(depth, next - 1) + 1) % depth == OperandBank(depth, next)
  {
    ModAdd(next - 1, 1, depth);
  }

  /** A round of tiles that retire before an older one does: at every depth of two or more the
      issue after them flushes the operand bank of the older one, which is still in use. */
  method OutOfOrderFlush(depth: nat, a: Tile, b: Tile, c: Tile) returns (core: Core, flushed: Flushed)
    requires 2 <= depth && !a.skip && !b.skip && !c.skip
    ensures fresh(core) && core.depth == depth && |core.tiles| == 2 && core.tiles[0].spad == flushed.spad
  {
    core := new Core(depth);
    flushed := core.Issue(a);
    for i := 1 to depth
      invariant fresh(core) && core.Valid() && core.depth == depth && core.nextEpoch == i + 1
      invariant |core.tiles| == 1 && core.tiles[0].epoch == 1
    {
      flushed := core.Issue(b);
      core.Retire(1);
    }
    Small(depth, depth);
    flushed := core.Issue(c);
  }

  /** A round of skipped tiles does the same. */
  method SkipFlush(depth: nat, a: Tile, b: Tile, c: Tile) returns (core: Core, flushed: Flushed)
    requires 2 <= depth && !a.skip && b.skip && !c.skip
    ensures fresh(core) && core.depth == depth && |core.tiles| == 2 && core.tiles[0].spad == flushed.spad
  {
    core := new Core(depth);
    flushed := core.Issue(a);
    for i := 1 to depth
      invariant fresh(core) && core.Valid() && core.depth == depth && core.nextEpoch == i + 1
      invariant |core.tiles| == 1 && core.tiles[0].epoch == 1
    {
      flushed := core.Issue(b);
    }
    Small(depth, depth);
    flushed := core.Issue(c);
  }
}
