/** The paged pool of the trace generator: blocks are lent to requests and come back, and
    each step a request is given the blocks the generator thinks the step will touch. */
module KvPool {
  import opened Arith
  import opened Collections
  import opened SpecTrace

  function BlocksFor(rows: nat, block: nat): (n: nat)
    requires 0 < block
    ensures rows <= Times(n, block) < rows + block
  {
    CeilDiv(rows, block)
  }

  function All(n: nat): multiset<nat> {
    if n == 0 then multiset{} else All(n - 1) + multiset{n - 1}
  }

  class Pool {
    const total: nat
    var free: seq<nat>
    /** Blocks in some request's table. */
    ghost var lent: multiset<nat>

    /** Every block is free or lent, once. */
    ghost predicate Valid()
      reads this
    {
      multiset(free) + lent == All(total)
    }

    constructor (total: nat, shuffled: seq<nat>)
      requires multiset(shuffled) == All(total)
      ensures Valid() && lent == multiset{} && free == shuffled && this.total == total
    {
      this.total, free, lent := total, shuffled, multiset{};
    }

    /** The first n free blocks, in order; with too few the generator gives up. */
    method Alloc(n: nat) returns (got: Option<seq<nat>>)
      requires Valid()
      modifies this
      ensures Valid()
      ensures if n <= |old(free)| then
                got == Some(old(free)[..n]) && free == old(free)[n..] && lent == old(lent) + multiset(old(free)[..n])
              else got == None && free == old(free) && lent == old(lent)
    {
      if |free| < n { return None; }
      var blocks := [];
      ghost var free0 := free;
      for i := 0 to n
        invariant blocks == free0[..i] && free == free0[i..] && lent == old(lent)
      {
        blocks := blocks + [free[0]];
        free := free[1..];
      }
      assert free0 == free0[..n] + free0[n..];
      lent := lent + multiset(blocks);
      got := Some(blocks);
    }

    method Release(blocks: seq<nat>)
      requires Valid() && multiset(blocks) <= lent
      modifies this
      ensures Valid() && free == old(free) + blocks && lent == old(lent) - multiset(blocks)
    {
      free := free + blocks;
      lent := lent - multiset(blocks);
    }
  }

  /** Raises a table to the number of blocks wanted; what it had stays in place. */
  method Ensure(pool: Pool, table: seq<nat>, need: nat) returns (grown: Option<seq<nat>>)
    requires pool.Valid() && multiset(table) <= pool.lent
    modifies pool
    ensures pool.Valid()
    ensures grown.Some? ==>
              && table <= grown.value && |grown.value| == (if |table| < need then need else |table|)
              && multiset(grown.value) <= pool.lent
              && pool.lent - multiset(grown.value) == old(pool.lent) - multiset(table)
    ensures grown.None? ==> |old(pool.free)| < need - |table| && pool.lent == old(pool.lent)
  {
    if need <= |table| { return Some(table); }
    var got := pool.Alloc(need - |table|);
    match got {
      case None => grown := None;
      case Some(more) => grown := Some(table + more);
    }
  }

  // ---- Are the blocks enough for the step? ----

  /** Row row of a request has a block in its table. */
  predicate HasBlock(row: nat, blocks: nat, block: nat)
    requires 0 < block
  {
    Whole(row, block);
    row / block < blocks
  }

  lemma HasBlockExactly(row: nat, blocks: nat, block: nat)
    requires 0 < block
    ensures HasBlock(row, blocks, block) <==> row < Times(blocks, block)
  {
    Whole(row, block);
    if row < Times(blocks, block) {
      DivLess(row, blocks, block);
    } else if row / block < blocks {
      SplitLess(row / block, row % block, block, blocks);
    }
  }

  /** Target blocks the generator asks for before a step. */
  function TargetNeed(g: Served, k: nat, block: nat): nat
    requires 0 < block
  {
    BlocksFor(g.t + k + 1, block)
  }

  function DraftNeed(g: Served, k: nat, block: nat): nat
    requires 0 < block
  {
    BlocksFor(g.d + k + 2, block)
  }

  /** Every row a step writes to or reads from the target cache has a block exactly when the
      table has what the generator asks for: it asks for no block too few and none too many. */
  lemma TargetCovered(g: Served, k: nat, block: nat, blocks: nat)
    requires 0 < block
    ensures (forall row: nat | row <= g.t + k :: HasBlock(row, blocks, block)) <==> TargetNeed(g, k, block) <= blocks
  {
    var need := TargetNeed(g, k, block);
    HasBlockExactly(g.t + k, blocks, block);
    if need <= blocks {
      if need < blocks { MulOrder(need, blocks, block); }
      forall row: nat | row <= g.t + k ensures HasBlock(row, blocks, block) {
        HasBlockExactly(row, blocks, block);
      }
    } else {
      MulOrder(blocks, need, block);
    }
  }

  /** The draft rows of a step run up to row T + k - 1: all have blocks exactly when the
      table reaches that far. */
  lemma DraftCovered(g: Served, k: nat, block: nat, blocks: nat)
    requires 0 < block && 0 < k && g.d < g.t + k
    ensures (forall row: nat | g.d <= row < g.t + k :: HasBlock(row, blocks, block)) <==>
              g.t + k <= Times(blocks, block)
  {
    HasBlockExactly(g.t + k - 1, blocks, block);
    forall row: nat | g.d <= row < g.t + k ensures HasBlock(row, blocks, block) <==> row < Times(blocks, block) {
      HasBlockExactly(row, blocks, block);
    }
  }

  /** n plain steps leave the draft rows behind. */
  function PlainSteps(g: Served, n: nat): Served {
    if n == 0 then g else AfterPlain(PlainSteps(g, n - 1))
  }

  lemma {:induction false} PlainStepsRows(g: Served, n: nat)
    ensures PlainSteps(g, n).t == g.t + n && PlainSteps(g, n).d == g.d
  {
    if n != 0 {
      PlainStepsRows(g, n - 1);
    }
  }

  /** What the generator asks for counts from the draft rows alone.  After a verify the draft
      rows are level, or one behind when everything was accepted.  As long as they are at most
      two behind when the plain steps are over it is enough; once they are more than a block
      and two behind it never is, and draft rows of the next speculative step have no block. */
  lemma DraftBlocksAfterPlain(g: Served, n: nat, k: nat, block: nat)
    requires 0 < block && 0 < k && g.d <= g.t <= g.d + 1
    ensures var h, behind := PlainSteps(g, n), g.t + n - g.d;
            var enough := forall row: nat | h.d <= row < h.t + k :: HasBlock(row, DraftNeed(h, k, block), block);
            && (behind <= 2 ==> enough) && (behind >= block + 2 ==> !enough)
            && (enough <==> g.d + behind + k <= Times(BlocksFor(g.d + k + 2, block), block))
  {
    PlainStepsRows(g, n);
    var h := PlainSteps(g, n);
    DraftCovered(h, k, block, DraftNeed(h, k, block));
  }
}
