/** The open-loop trace generator's view of speculative decoding, and its agreement with
    the scheduler. */
module SpecTrace {
  import opened SpecDecModel

  /** A request of the generator: target and draft rows, tokens to generate and done, verify
      steps and accepted tokens, and the rows whose last write was rejected. */
  datatype Served = Served(t: nat, d: nat, gen: nat, done: nat, steps: nat, acc: nat, staleT: set<nat>,
                           staleD: set<nat>)

  function Range(lo: nat, hi: nat): (rows: set<nat>)
    ensures forall r: nat :: r in rows <==> lo <= r < hi
  {
    if hi <= lo then {} else Range(lo, hi - 1) + {hi - 1}
  }

  /** Requests of n rows landing on stale data, perRow requests a row. */
  function Requests(perRow: nat, n: nat): nat {
    perRow * n
  }

  /** How many of the rows [lo, hi) are stale. */
  function Hits(stale: set<nat>, lo: nat, hi: nat): nat {
    |stale * Range(lo, hi)|
  }

  function Admitted(prompt: nat, gen: nat): Served {
    Served(prompt + 1, prompt + 1, gen, 1, 0, 0, {}, {})
  }

  function AfterPlain(g: Served): Served {
    g.(t := g.t + 1, done := g.done + 1, staleT := g.staleT - {g.t})
  }

  function AfterDraft(g: Served, i: nat): Served {
    var want := g.t + i + 1;
    var top := if want > g.d then want else g.d + 1;
    g.(d := top, staleD := g.staleD - Range(g.d, top))
  }

  function AfterVerify(hasDraft: bool, k: nat, g: Served, a: nat): Served {
    var t := g.t + a + 1;
    var cut := hasDraft && g.d > t;
    g.(t := t, d := if cut then t else g.d, done := g.done + a + 1, steps := g.steps + 1, acc := g.acc + a,
       staleT := g.staleT - Range(g.t, g.t + k + 1) + Range(t, g.t + k + 1),
       staleD := if cut then g.staleD + Range(t, g.d) else g.staleD)
  }

  /** Writes rows [lo, hi), counting the requests that land on stale rows; the rows leave the
      stale set only when asked to, after the last layer. */
  method KvWrite(perRow: nat, stale: set<nat>, lo: nat, hi: nat, consume: bool) returns (left: set<nat>, waw: nat)
    requires lo <= hi
    ensures left == if consume then stale - Range(lo, hi) else stale
    ensures waw == Requests(perRow, Hits(stale, lo, hi))
  {
    hide Range, Hits, Requests;
    left, waw := stale, 0;
    HitsNone(perRow, stale, lo);
    for r := lo to hi
      invariant left == if consume then stale - Range(lo, r) else stale
      invariant waw == Requests(perRow, Hits(stale, lo, r))
    {
      HitsNext(perRow, stale, lo, r);
      if r in left {
        waw := waw + perRow;
        if consume { left := left - {r}; }
      }
    }
  }

  /** One request of the generator, updated in place while its addresses are emitted. */
  class TraceRequest {
    const k: nat
    const hasDraft: bool
    const targetLayers: nat
    const draftLayers: nat
    /** Requests a row, in the target pool and in the draft pool. */
    const targetPerRow: nat
    const draftPerRow: nat
    const gen: nat
    var t: nat
    var d: nat
    var done: nat
    var steps: nat
    var acc: nat
    var staleT: set<nat>
    var staleD: set<nat>

    function Snap(): Served
      reads this
    {
      Served(t, d, gen, done, steps, acc, staleT, staleD)
    }

    constructor (k: nat, hasDraft: bool, targetLayers: nat, draftLayers: nat, targetPerRow: nat, draftPerRow: nat,
                 prompt: nat, gen: nat)
      ensures Snap() == Admitted(prompt, gen)
      ensures this.k == k && this.hasDraft == hasDraft && this.targetLayers == targetLayers
      ensures this.draftLayers == draftLayers && this.targetPerRow == targetPerRow && this.draftPerRow == draftPerRow
    {
      this.k, this.hasDraft, this.targetLayers, this.draftLayers := k, hasDraft, targetLayers, draftLayers;
      this.targetPerRow, this.draftPerRow := targetPerRow, draftPerRow;
      this.gen, t, d, done, steps, acc, staleT, staleD := gen, prompt + 1, prompt + 1, 1, 0, 0, {}, {};
    }

    method Plain() returns (waw: nat)
      modifies this
      ensures Snap() == AfterPlain(old(Snap()))
      ensures waw == if old(t) in old(staleT) then targetPerRow else 0
    {
      staleT, waw := KvWrite(targetPerRow, staleT, t, t + 1, true);
      HitsNone(targetPerRow, old(staleT), old(t));
      HitsNext(targetPerRow, old(staleT), old(t), old(t));
      t := t + 1;
      done := done + 1;
    }

    /** One draft pass: every draft layer writes the same new rows. */
    method DraftPass(i: nat) returns (waw: nat)
      requires 0 < draftLayers
      modifies this
      ensures Snap() == AfterDraft(old(Snap()), i)
      ensures waw == draftLayers * Requests(draftPerRow, Hits(old(staleD), old(d), d))
    {
      var want := t + i + 1;
      var top := if want > d + 1 then want else d + 1;
      hide Range, Hits, Requests;
      waw := 0;
      ghost var stale0 := staleD;
      for l := 0 to draftLayers
        invariant t == old(t) && d == old(d) && done == old(done) && steps == old(steps) && acc == old(acc) &&
                  staleT == old(staleT)
        invariant staleD == if l == draftLayers then stale0 - Range(d, top) else stale0
        invariant waw == l * Requests(draftPerRow, Hits(stale0, d, top))
      {
        var left, n := KvWrite(draftPerRow, staleD, d, top, l == draftLayers - 1);
        staleD := left;
        Distribute(l, Requests(draftPerRow, Hits(stale0, d, top)));
        waw := waw + n;
      }
      d := top;
    }

    /** The writes of a verify pass in one layer: all k + 1 rows at once, or one by one. */
    method VerifyLayer(mqa: bool, last: bool) returns (waw: nat)
      modifies this`staleT
      ensures staleT == if last then old(staleT) - Range(t, t + k + 1) else old(staleT)
      ensures waw == Requests(targetPerRow, Hits(old(staleT), t, t + k + 1))
    {
      hide Range, Hits, Requests;
      if mqa {
        staleT, waw := KvWrite(targetPerRow, staleT, t, t + k + 1, last);
      } else {
        waw := 0;
        ghost var stale0 := staleT;
        HitsNone(targetPerRow, stale0, t);
        for i := 0 to k + 1
          invariant staleT == if last then stale0 - Range(t, t + i) else stale0
          invariant waw == Requests(targetPerRow, Hits(stale0, t, t + i))
        {
          HitsSingle(targetPerRow, stale0, staleT, t, t + i);
          var left, n := KvWrite(targetPerRow, staleT, t + i, t + i + 1, last);
          staleT := left;
          waw := waw + n;
        }
      }
    }

    method Verify(mqa: bool, a: nat) returns (waw: nat)
      requires 0 < targetLayers
      modifies this
      ensures Snap() == AfterVerify(hasDraft, k, old(Snap()), a)
      ensures waw == targetLayers * Requests(targetPerRow, Hits(old(staleT), old(t), old(t) + k + 1))
    {
      hide Range, Hits, Requests;
      waw := 0;
      ghost var stale0 := staleT;
      for l := 0 to targetLayers
        invariant t == old(t) && d == old(d) && done == old(done) && steps == old(steps) && acc == old(acc) &&
                  staleD == old(staleD)
        invariant staleT == if l == targetLayers then stale0 - Range(t, t + k + 1) else stale0
        invariant waw == l * Requests(targetPerRow, Hits(stale0, t, t + k + 1))
      {
        var n := VerifyLayer(mqa, l == targetLayers - 1);
        Distribute(l, Requests(targetPerRow, Hits(stale0, t, t + k + 1)));
        waw := waw + n;
      }
      var top := t + a + 1;
      staleT := staleT + Range(top, t + k + 1);
      if hasDraft && d > top {
        staleD := staleD + Range(top, d);
        d := top;
      }
      t := top;
      done, steps, acc := done + a + 1, steps + 1, acc + a;
    }
  }

  lemma HitsNone(perRow: nat, s: set<nat>, lo: nat)
    ensures Range(lo, lo) == {} && Requests(perRow, Hits(s, lo, lo)) == 0
  {
    assert s * {} == {};
  }

  lemma HitsCount(s: set<nat>, lo: nat, r: nat)
    requires lo <= r
    ensures Range(lo, r + 1) == Range(lo, r) + {r}
    ensures Hits(s, lo, r + 1) == Hits(s, lo, r) + if r in s then 1 else 0
  {
    var before, after := s * Range(lo, r), s * Range(lo, r + 1);
    if r in s {
      assert after == before + {r};
    } else {
      assert after == before;
    }
  }

  lemma HitsNext(perRow: nat, s: set<nat>, lo: nat, r: nat)
    requires lo <= r
    ensures Range(lo, r + 1) == Range(lo, r) + {r}
    ensures Requests(perRow, Hits(s, lo, r + 1)) == Requests(perRow, Hits(s, lo, r)) + if r in s then perRow else 0
  {
    hide Hits, Range;
    HitsCount(s, lo, r);
    Distribute(Hits(s, lo, r), perRow);
  }

  /** Writing one more row, whether or not the rows before it have left the stale set. */
  lemma HitsSingle(perRow: nat, s: set<nat>, now: set<nat>, lo: nat, r: nat)
    requires lo <= r && (now == s || now == s - Range(lo, r))
    ensures Requests(perRow, Hits(s, lo, r + 1)) == Requests(perRow, Hits(s, lo, r)) +
            Requests(perRow, Hits(now, r, r + 1))
    ensures s - Range(lo, r) - Range(r, r + 1) == s - Range(lo, r + 1)
  {
    HitsNext(perRow, s, lo, r);
    HitsNone(perRow, now, r);
    HitsNext(perRow, now, r, r);
  }

  lemma Distribute(l: nat, n: nat)
    ensures (l + 1) * n == l * n + n && n * (l + 1) == n * l + n && n * l == l * n
  {}
}
