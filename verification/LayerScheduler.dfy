/** The scheduler that runs a model layer by layer, handing its tiles to the cores. */
module LayerScheduler {
  import opened Arith
  import opened Collections
  import opened Dataflow

  /** A tile: its layer, its number in the layer, and its core, negative when any will do. */
  datatype Tile = Tile(layer: nat, index: nat, core: int)

  /** Bookkeeping of the layer being run. */
  datatype Active = Idle | Layer(id: nat, total: nat, remain: nat, finished: nat, launched: nat)

  // ---- Multisets of tile numbers ----

  function Numbers(q: seq<Tile>): (m: multiset<nat>)
    ensures |m| == |q|
  {
    if q == [] then multiset{} else Numbers(q[1..]) + multiset{q[0].index}
  }

  function AllNumbers(qs: seq<seq<Tile>>): multiset<nat> {
    if qs == [] then multiset{} else AllNumbers(qs[..|qs| - 1]) + Numbers(qs[|qs| - 1])
  }

  /** The numbers 0, ..., n - 1, each once. */
  function UpTo(n: nat): (m: multiset<nat>)
    ensures |m| == n && forall i: nat :: m[i] == if i < n then 1 else 0
  {
    if n == 0 then multiset{} else UpTo(n - 1) + multiset{n - 1}
  }

  lemma UpToZero()
    ensures UpTo(0) == multiset{} && Numbers([]) == multiset{}
  {}

  lemma UpToNext(n: nat)
    ensures UpTo(n + 1) == UpTo(n) + multiset{n}
  {}

  lemma {:induction false} NumbersAppend(q: seq<Tile>, t: Tile)
    ensures Numbers(q + [t]) == Numbers(q) + multiset{t.index}
  {
    if q != [] {
      assert (q + [t])[1..] == q[1..] + [t];
      NumbersAppend(q[1..], t);
    } else {
      assert (q + [t])[1..] == [] && (q + [t])[0] == t;
    }
  }

  lemma Rearranged(a: multiset<nat>, b: multiset<nat>, c: multiset<nat>, d: multiset<nat>, e: multiset<nat>)
    requires a + b == c + d
    ensures (a + e) + b == (c + e) + d
  {
    forall x ensures ((a + e) + b)[x] == ((c + e) + d)[x] {
      assert (a + b)[x] == (c + d)[x];
    }
  }

  lemma {:induction false} AllNumbersUpdate(qs: seq<seq<Tile>>, i: nat, q: seq<Tile>)
    requires i < |qs|
    ensures AllNumbers(qs[i := q]) + Numbers(qs[i]) == AllNumbers(qs) + Numbers(q)
  {
    hide Numbers;
    var n := |qs| - 1;
    if i == n {
      assert qs[i := q][..n] == qs[..n];
    } else {
      assert qs[i := q][..n] == qs[..n][i := q];
      AllNumbersUpdate(qs[..n], i, q);
      Rearranged(AllNumbers(qs[..n][i := q]), Numbers(qs[i]), AllNumbers(qs[..n]), Numbers(q), Numbers(qs[n]));
    }
  }

  lemma Cancelled(a: multiset<nat>, b: multiset<nat>, c: multiset<nat>, d: multiset<nat>)
    requires a + b == c + (b + d)
    ensures a == c + d
  {
    forall x ensures a[x] == (c + d)[x] {
      assert (a + b)[x] == (c + (b + d))[x];
    }
  }

  /** A tile more in one queue, or one fewer. */
  lemma QueuePush(qs: seq<seq<Tile>>, i: nat, t: Tile)
    requires i < |qs|
    ensures AllNumbers(qs[i := qs[i] + [t]]) == AllNumbers(qs) + multiset{t.index}
  {
    hide Numbers;
    AllNumbersUpdate(qs, i, qs[i] + [t]);
    NumbersAppend(qs[i], t);
    Cancelled(AllNumbers(qs[i := qs[i] + [t]]), Numbers(qs[i]), AllNumbers(qs), multiset{t.index});
  }

  lemma QueuePop(qs: seq<seq<Tile>>, i: nat)
    requires i < |qs| && qs[i] != []
    ensures AllNumbers(qs) == AllNumbers(qs[i := qs[i][1..]]) + multiset{qs[i][0].index}
  {
    var q := qs[i][1..];
    assert Numbers(qs[i]) == Numbers(q) + multiset{qs[i][0].index};
    AllNumbersUpdate(qs, i, q);
    Cancelled(AllNumbers(qs), Numbers(q), AllNumbers(qs[i := q]), multiset{qs[i][0].index});
  }

  lemma {:induction false} AllNumbersEmpty(qs: seq<seq<Tile>>)
    ensures |AllNumbers(qs)| == 0 <==> forall i | 0 <= i < |qs| :: qs[i] == []
  {
    if qs != [] {
      AllNumbersEmpty(qs[..|qs| - 1]);
      assert forall i | 0 <= i < |qs| - 1 :: qs[..|qs| - 1][i] == qs[i];
    }
  }

  /** All tiles in the queues are of this layer. */
  ghost predicate OfLayer(qs: seq<seq<Tile>>, layer: nat) {
    forall c, i | 0 <= c < |qs| && 0 <= i < |qs[c]| :: qs[c][i].layer == layer
  }

  ghost predicate AllOf(q: seq<Tile>, layer: nat) {
    forall i | 0 <= i < |q| :: q[i].layer == layer
  }

  lemma OfLayerPop(qs: seq<seq<Tile>>, layer: nat, c: nat)
    requires OfLayer(qs, layer) && c < |qs| && qs[c] != []
    ensures OfLayer(qs[c := qs[c][1..]], layer) && qs[c][0].layer == layer
  {}

  // ---- Which core gets which tile ----

  /** The core a tile goes to: the next in turn when any will do, otherwise its own, moved on
      by one for every layer started. */
  function CoreFor(t: Tile, turn: nat, layers: nat, cores: nat): (core: nat)
    requires 0 < cores
    ensures core < cores
  {
    if t.core < 0 then turn % cores else (t.core + layers) % cores
  }

  /** A tile that asks for a core gets that one in the layer before the first, and the next one
      round with every layer; one that does not gets the next one round with every turn. */
  lemma CoresMoveOn(t: Tile, turn: nat, layers: nat, cores: nat)
    requires 0 < cores
    ensures 0 <= t.core < cores ==> CoreFor(t, turn, 0, cores) == t.core
    ensures 0 <= t.core ==> CoreFor(t, turn, layers + 1, cores) == (CoreFor(t, turn, layers, cores) + 1) % cores
    ensures t.core < 0 ==> CoreFor(t, turn + 1, layers, cores) == (CoreFor(t, turn, layers, cores) + 1) % cores
    ensures t.core < 0 && turn < cores ==> CoreFor(t, turn, layers, cores) == turn
  {
    if 0 <= t.core {
      ModAdd(t.core + layers, 1, cores);
      if t.core < cores { Small(t.core, cores); }
    } else {
      ModAdd(turn, 1, cores);
      if turn < cores { Small(turn, cores); }
    }
  }

  /** How many tiles leave their core open. */
  function Open(tiles: seq<Tile>): (n: nat)
    ensures n <= |tiles|
  {
    if tiles == [] then 0
    else Open(tiles[..|tiles| - 1]) + if tiles[|tiles| - 1].core < 0 then 1 else 0
  }

  /** The tiles that core c gets, in order. */
  function Dealt(tiles: seq<Tile>, c: nat, turn: nat, layers: nat, cores: nat): seq<Tile>
    requires 0 < cores
  {
    if tiles == [] then []
    else
      var before, t := tiles[..|tiles| - 1], tiles[|tiles| - 1];
      Dealt(before, c, turn, layers, cores) +
      if CoreFor(t, turn + Open(before), layers, cores) == c then [t.(core := c)] else []
  }

  ghost predicate Ascends(q: seq<Tile>) {
    forall i, j | 0 <= i < j < |q| :: q[i].index < q[j].index
  }

  /** A core gets its tiles in their order, each marked with the core. */
  lemma {:induction false} DealtInOrder(tiles: seq<Tile>, c: nat, turn: nat, layers: nat, cores: nat)
    requires 0 < cores && Ascends(tiles)
    ensures Ascends(Dealt(tiles, c, turn, layers, cores))
    ensures forall t | t in Dealt(tiles, c, turn, layers, cores) ::
              t.core == c && exists core: int :: t.(core := core) in tiles
  {
    if tiles != [] {
      var n := |tiles| - 1;
      DealtInOrder(tiles[..n], c, turn, layers, cores);
      var before := Dealt(tiles[..n], c, turn, layers, cores);
      assert tiles[n].(core := c).(core := tiles[n].core) == tiles[n];
      forall i | 0 <= i < |before| ensures before[i].index < tiles[n].index {
        assert before[i] in before;
        var core: int :| before[i].(core := core) in tiles[..n];
        var k :| 0 <= k < n && tiles[k] == before[i].(core := core);
      }
      forall t | t in before ensures exists core: int :: t.(core := core) in tiles {
        var core: int :| t.(core := core) in tiles[..n];
        assert t.(core := core) in tiles;
      }
    }
  }

  ghost predicate DealtTo(from: seq<seq<Tile>>, to: seq<seq<Tile>>, tiles: seq<Tile>, turn: nat, layers: nat) {
    && 0 < |from| == |to|
    && forall c | 0 <= c < |from| :: to[c] == from[c] + Dealt(tiles, c, turn, layers, |from|)
  }

  lemma DealtNone(qs: seq<seq<Tile>>, turn: nat, layers: nat)
    requires qs != []
    ensures DealtTo(qs, qs, [], turn, layers) && Open([]) == 0
  {
    forall c | 0 <= c < |qs| ensures qs[c] == qs[c] + Dealt([], c, turn, layers, |qs|) {
      assert Dealt([], c, turn, layers, |qs|) == [];
    }
  }

  /** Dealing one tile more. */
  lemma DealtOne(from: seq<seq<Tile>>, to: seq<seq<Tile>>, tiles: seq<Tile>, t: Tile, turn: nat, layers: nat)
    requires DealtTo(from, to, tiles, turn, layers)
    ensures var core := CoreFor(t, turn + Open(tiles), layers, |from|);
            DealtTo(from, to[core := to[core] + [t.(core := core)]], tiles + [t], turn, layers)
    ensures Open(tiles + [t]) == Open(tiles) + if t.core < 0 then 1 else 0
  {
    assert (tiles + [t])[..|tiles|] == tiles;
  }

  lemma DealtFromEmpty(from: seq<seq<Tile>>, to: seq<seq<Tile>>, tiles: seq<Tile>, turn: nat, layers: nat)
    requires DealtTo(from, to, tiles, turn, layers) && forall c | 0 <= c < |from| :: from[c] == []
    ensures forall c | 0 <= c < |to| :: to[c] == Dealt(tiles, c, turn, layers, |from|)
  {}

  /** What was dealt, seen as the last tile joining the queues as they were before it. */
  lemma DealtLast(from: seq<seq<Tile>>, to: seq<seq<Tile>>, tiles: seq<Tile>, turn: nat,
                  layers: nat) returns (mid: seq<seq<Tile>>)
    requires DealtTo(from, to, tiles, turn, layers) && tiles != []
    ensures DealtTo(from, mid, tiles[..|tiles| - 1], turn, layers)
    ensures var t := tiles[|tiles| - 1];
            var core := CoreFor(t, turn + Open(tiles[..|tiles| - 1]), layers, |from|);
            to == mid[core := mid[core] + [t.(core := core)]]
  {
    var before := tiles[..|tiles| - 1];
    mid := seq(|from|, c requires 0 <= c < |from| => from[c] + Dealt(before, c, turn, layers, |from|));
    var t := tiles[|tiles| - 1];
    var core := CoreFor(t, turn + Open(before), layers, |from|);
    var after := mid[core := mid[core] + [t.(core := core)]];
    forall c | 0 <= c < |from| ensures to[c] == after[c] {
      assert Dealt(tiles, c, turn, layers, |from|) ==
        Dealt(before, c, turn, layers, |from|) + if core == c then [t.(core := c)] else [];
    }
  }

  lemma OfLayerPush(qs: seq<seq<Tile>>, layer: nat, c: nat, t: Tile)
    requires OfLayer(qs, layer) && c < |qs| && t.layer == layer
    ensures OfLayer(qs[c := qs[c] + [t]], layer)
  {}

  /** Dealing neither loses nor doubles a tile, and brings no other layer in. */
  lemma {:induction false} DealtKeeps(from: seq<seq<Tile>>, to: seq<seq<Tile>>, tiles: seq<Tile>, turn: nat,
                                      layers: nat, layer: nat)
    requires DealtTo(from, to, tiles, turn, layers) && OfLayer(from, layer) && AllOf(tiles, layer)
    ensures AllNumbers(to) == AllNumbers(from) + Numbers(tiles) && OfLayer(to, layer)
    decreases |tiles|
  {
    hide AllNumbers, OfLayer;
    if tiles == [] {
      forall c | 0 <= c < |from| ensures to[c] == from[c] {
        assert to[c] == from[c] + [];
      }
      assert to == from;
      assert Numbers(tiles) == multiset{};
    } else {
      hide DealtTo, Dealt;
      var before, t := tiles[..|tiles| - 1], tiles[|tiles| - 1];
      var mid := DealtLast(from, to, tiles, turn, layers);
      assert tiles == before + [t];
      DealtKeeps(from, mid, before, turn, layers, layer);
      var core := CoreFor(t, turn + Open(before), layers, |from|);
      QueuePush(mid, core, t.(core := core));
      OfLayerPush(mid, layer, core, t.(core := core));
      NumbersAppend(before, t);
    }
  }

  /** Tiles that leave their core open are spread evenly: each core gets one for every full
      round, and the cores next in turn one more. */
  lemma {:induction false} SpreadEvenly(tiles: seq<Tile>, c: nat, ahead: nat, turn: nat, layers: nat, cores: nat)
    requires 0 < cores && ahead < cores && c == (turn + ahead) % cores && Open(tiles) == |tiles|
    ensures |Dealt(tiles, c, turn, layers, cores)| == |tiles| / cores + if ahead < |tiles| % cores then 1 else 0
  {
    if tiles == [] {
      Small(0, cores);
    } else {
      var before := tiles[..|tiles| - 1];
      SpreadEvenly(before, c, ahead, turn, layers, cores);
      DivNext(|before|, cores);
      SameTurn(turn, |before|, ahead, cores);
    }
  }

  /** Counting from a turn, a core comes round exactly with its distance ahead. */
  lemma SameTurn(turn: nat, n: nat, ahead: nat, cores: nat)
    requires 0 < cores && ahead < cores
    ensures (turn + n) % cores == (turn + ahead) % cores <==> n % cores == ahead
  {
    ModAdd(n, turn, cores);
    ModAdd(ahead, turn, cores);
    Small(ahead, cores);
    if (n % cores + turn) % cores == (ahead + turn) % cores {
      ModInjective(n % cores, ahead, turn, cores);
    }
  }

  /** Every tile of the layer is queued, with a core, or back, and the counters say how many. */
  ghost predicate BooksOk(a: Active, queued: multiset<nat>, flying: multiset<nat>, back: multiset<nat>) {
    match a
    case Idle => queued == multiset{} && flying == multiset{} && back == multiset{}
    case Layer(_, total, remain, finished, launched) =>
      && queued + flying + back == UpTo(total) && 0 < remain
      && remain + finished == total && finished == |back| && launched == |flying| + |back|
  }

  lemma ActiveWhenQueued(a: Active, queued: multiset<nat>, flying: multiset<nat>, back: multiset<nat>, index: nat)
    requires BooksOk(a, queued, flying, back) && index in queued
    ensures a.Layer?
  {}

  lemma LaunchedBooks(a: Active, queued: multiset<nat>, queued': multiset<nat>, flying: multiset<nat>,
                      back: multiset<nat>, index: nat)
    requires BooksOk(a, queued, flying, back) && queued == queued' + multiset{index}
    ensures a.Layer? && BooksOk(a.(launched := a.launched + 1), queued', flying + multiset{index}, back)
  {
    assert index in queued;
    assert queued' + (flying + multiset{index}) + back == queued + flying + back;
  }

  lemma FinishedBooks(a: Active, queued: multiset<nat>, flying: multiset<nat>, back: multiset<nat>, index: nat)
    requires BooksOk(a, queued, flying, back) && index in flying
    ensures a.Layer?
    ensures var a' := a.(remain := a.remain - 1, finished := a.finished + 1);
            var flying', back' := flying - multiset{index}, back + multiset{index};
            && queued + flying' + back' == UpTo(a.total) && a'.finished == |back'| && a'.launched == |flying'| + |back'|
            && (a'.remain != 0 ==> BooksOk(a', queued, flying', back'))
            && (a'.remain == 0 <==> queued == multiset{} && flying' == multiset{})
  {
    var flying', back' := flying - multiset{index}, back + multiset{index};
    assert flying == flying' + multiset{index};
    assert queued + flying' + back' == queued + flying + back;
    assert |queued| + |flying'| + |back'| == a.total;
  }

  ghost predicate QueuesOk(a: Active, queues: seq<seq<Tile>>, flying: multiset<nat>, back: multiset<nat>) {
    BooksOk(a, AllNumbers(queues), flying, back) && (a.Layer? ==> OfLayer(queues, a.id))
  }

  /** The active layer is the one layer started and not finished; without one all are finished. */
  ghost predicate LayersOk(a: Active, ops: nat, started: seq<nat>, finished: set<nat>) {
    && (a.Layer? ==> a.id in started && a.id !in finished)
    && (forall op: nat | op in started :: op in finished || (a.Layer? && a.id == op))
    && (a.Idle? ==> forall op: nat | op < ops :: op in finished)
  }

  lemma LayersLaunch(a: Active, ops: nat, started: seq<nat>, finished: set<nat>)
    requires LayersOk(a, ops, started, finished)
    ensures a.Layer? ==> LayersOk(a.(launched := a.launched + 1), ops, started, finished)
  {}

  lemma QueuesLaunch(a: Active, queues: seq<seq<Tile>>, flying: multiset<nat>, back: multiset<nat>, core: nat)
    requires QueuesOk(a, queues, flying, back) && core < |queues| && queues[core] != []
    ensures var t := queues[core][0];
            && a.Layer? && t.layer == a.id
            && QueuesOk(a.(launched := a.launched + 1), queues[core := queues[core][1..]], flying + multiset{t.index},
                        back)
  {
    hide AllNumbers, OfLayer, BooksOk;
    QueuePop(queues, core);
    ActiveWhenQueued(a, AllNumbers(queues), flying, back, queues[core][0].index);
    OfLayerPop(queues, a.id, core);
    LaunchedBooks(a, AllNumbers(queues), AllNumbers(queues[core := queues[core][1..]]), flying, back,
                  queues[core][0].index);
  }

  lemma QueuesFinish(a: Active, queues: seq<seq<Tile>>, flying: multiset<nat>, back: multiset<nat>, index: nat)
    requires QueuesOk(a, queues, flying, back) && index in flying && a.Layer?
    ensures 0 < a.remain
    ensures var a' := a.(remain := a.remain - 1, finished := a.finished + 1);
            if a'.remain == 0 then AllNumbers(queues) == multiset{} && flying == multiset{index}
            else QueuesOk(a', queues, flying - multiset{index}, back + multiset{index})
  {
    hide AllNumbers, OfLayer, UpTo;
    FinishedBooks(a, AllNumbers(queues), flying, back, index);
    assert flying == flying - multiset{index} + multiset{index};
  }

  lemma IdleQueues(queues: seq<seq<Tile>>)
    requires AllNumbers(queues) == multiset{}
    ensures QueuesOk(Idle, queues, multiset{}, multiset{})
  {}

  lemma QueuesStart(op: nat, n: nat, queues: seq<seq<Tile>>)
    requires 0 < n && AllNumbers(queues) == UpTo(n) && OfLayer(queues, op)
    ensures QueuesOk(Layer(op, n, n, 0, 0), queues, multiset{}, multiset{})
  {
    assert UpTo(n) + multiset{} + multiset{} == UpTo(n);
  }

  /** The tiles of an operator, in order, with the cores its plan asks for. */
  function Planned(plan: seq<seq<int>>, op: nat): (tiles: seq<Tile>)
    requires op < |plan|
    ensures |tiles| == |plan[op]| && forall i | 0 <= i < |tiles| :: tiles[i] == Tile(op, i, plan[op][i])
  {
    seq(|plan[op]|, i requires 0 <= i < |plan[op]| => Tile(op, i, plan[op][i]))
  }

  class Scheduler {
    const model: Model
    const cores: nat
    /** For every operator the cores its tiles ask for. */
    const plan: seq<seq<int>>

    var global: seq<Tile>
    var queues: seq<seq<Tile>>
    var active: Active
    var pending: bool
    var roundRobin: nat
    var layers: nat
    ghost var flying: multiset<nat>
    ghost var back: multiset<nat>

    ghost predicate Shape()
      reads this, model
    {
      && model.Valid() && 0 < cores && |queues| == cores && |plan| == model.g.Ops()
      && forall op | 0 <= op < |plan| :: plan[op] != []
    }

    /** Layers are counted as they start, and the one being run has all the tiles planned. */
    ghost predicate Counted()
      reads this, model
    {
      layers == |model.started| && (active.Layer? ==> active.id < |plan| && active.total == |plan[active.id]|)
    }

    /** No tile waits outside the cores' queues, the books balance, exactly the active layer
        is started and unfinished, and a layer is active as long as the model is pending. */
    ghost predicate Valid()
      reads this, model
    {
      && Shape() && Counted() && global == [] && (pending <==> active.Layer?)
      && QueuesOk(active, queues, flying, back) && LayersOk(active, model.g.Ops(), model.started, model.finished)
    }

    constructor (model: Model, cores: nat, plan: seq<seq<int>>)
      requires model.Valid() && model.started == [] && model.finished == {} && 0 < cores
      requires |plan| == model.g.Ops() && forall op | 0 <= op < |plan| :: plan[op] != []
      modifies model
      ensures Valid() && this.model == model && this.cores == cores && this.plan == plan && fresh(this)
      ensures flying == multiset{} && model.finished == {} && |model.started| == if pending then 1 else 0
    {
      this.model, this.cores, this.plan := model, cores, plan;
      global, queues, active, pending := [], seq(cores, c => []), Idle, true;
      roundRobin, layers, flying, back := 0, 0, multiset{}, multiset{};
      new;
      AllNumbersEmpty(queues);
      RefreshStatus();
    }

    predicate QueuesEmpty()
      reads this
    {
      global == [] && forall c | 0 <= c < |queues| :: queues[c] == []
    }

    /** Between two layers: nothing active, queued or out, and everything started is finished. */
    ghost predicate Settled()
      reads this, model
    {
      && Shape() && Counted() && global == [] && active.Idle? && AllNumbers(queues) == flying == back == multiset{}
      && pending && forall op: nat | op in model.started :: op in model.finished
    }

    /** The tiles of the active layer wait at their cores, dealt out from this turn on. */
    ghost predicate DealtOut(turn: nat)
      reads this
    {
      && active.Layer? && active.id < |plan| && 0 < cores == |queues|
      && forall c | 0 <= c < cores :: queues[c] == Dealt(Planned(plan, active.id), c, turn, layers, cores)
    }

    /** Retires the model when all its layers are finished; otherwise, with nothing queued or
        active, starts its next layer.  While a layer is active it changes nothing. */
    method RefreshStatus()
      requires Valid() || Settled()
      modifies this, model
      ensures Valid() && model.finished == old(model.finished) && old(model.started) <= model.started
      ensures old(Settled()) ==>
                flying == multiset{} && |model.started| == |old(model.started)| + if pending then 1 else 0
      ensures old(Settled()) && pending ==> DealtOut(old(roundRobin)) && layers == old(layers) + 1
      ensures old(Valid()) ==>
                && queues == old(queues) && active == old(active) && pending == old(pending) && flying == old(flying)
                && model.started == old(model.started)
    {
      hide Inv, QueuesOk;
      ghost var settled := Settled();
      if settled {
        AllNumbersEmpty(queues);
        IdleQueues(queues);
      }
      if pending {
        if active.Layer? {
          StartedIsOp(model.g, model.produced, model.finished, model.executable, model.started, active.id);
        }
        var finish := model.CheckFinish();
        if finish { pending := false; }
      }
      if pending && active.Idle? {
        var empty := TileQueueEmpty();
        assert empty;
        var found, op := model.GetExecutable();
        if !found {
          NothingLeft();
          assert false;
        }
        Start(op);
      }
    }

    method TileQueueEmpty() returns (empty: bool)
      ensures empty == QueuesEmpty()
    {
      empty := true;
      for c := 0 to |queues|
        invariant empty <==> forall d | 0 <= d < c :: queues[d] == []
      {
        empty := empty && queues[c] == [];
      }
      empty := empty && global == [];
    }

    lemma NothingLeft()
      requires model.Valid() && model.executable == [] && forall op: nat | op in model.started :: op in model.finished
      ensures forall op: nat | op < model.g.Ops() :: op in model.finished
    {
      forall o: nat | o < model.g.Ops() ensures o in model.finished {
        AllFinished(model.g, model.produced, model.finished, model.started, o);
      }
    }

    /** The tiles of a layer, in order, join the waiting. */
    method QueueTiles(op: nat)
      requires op < |plan| && global == []
      modifies this`global
      ensures global == Planned(plan, op) && Numbers(global) == UpTo(|plan[op]|) && AllOf(global, op)
    {
      hide Numbers, UpTo;
      UpToZero();
      for i := 0 to |plan[op]|
        invariant global == Planned(plan, op)[..i] && Numbers(global) == UpTo(i) && AllOf(global, op)
      {
        NumbersAppend(global, Tile(op, i, plan[op][i]));
        UpToNext(i);
        global := global + [Tile(op, i, plan[op][i])];
      }
    }

    /** Queues all tiles of a layer and spreads them over the cores. */
    method Start(op: nat)
      requires Shape() && global == [] && active.Idle? && AllNumbers(queues) == flying == back == multiset{}
      requires pending && op < model.g.Ops() && op in model.started && op !in model.finished
      requires forall o: nat | o in model.started :: o in model.finished || o == op
      requires layers + 1 == |model.started|
      modifies this
      ensures Valid() && pending && flying == multiset{} && active.Layer? && active.id == op
      ensures DealtOut(old(roundRobin)) && layers == old(layers) + 1
    {
      hide AllNumbers, Inv, QueuesOk, UpTo, Numbers;
      var n := |plan[op]|;
      AllNumbersEmpty(queues);
      QueueTiles(op);
      layers := layers + 1;
      active := Layer(op, n, n, 0, 0);
      ghost var queues0, turn := queues, roundRobin;
      IssueTilePerCore();
      DealtFromEmpty(queues0, queues, Planned(plan, op), turn, layers);
      QueuesStart(op, n, queues);
    }

    /** Moves every waiting tile to the queue of its core, or of the next core in turn. */
    method IssueTilePerCore()
      requires 0 < cores == |queues| && active.Layer? && OfLayer(queues, active.id) && AllOf(global, active.id)
      modifies this`global, this`queues, this`roundRobin
      ensures global == [] && roundRobin == old(roundRobin + Open(global))
      ensures DealtTo(old(queues), queues, old(global), old(roundRobin), layers)
      ensures |queues| == cores && OfLayer(queues, active.id)
      ensures AllNumbers(queues) == old(AllNumbers(queues) + Numbers(global))
    {
      hide AllNumbers, Numbers, OfLayer, AllOf, DealtTo, Open;
      ghost var tiles, queues0, turn0 := global, queues, roundRobin;
      DealtNone(queues0, turn0, layers);
      ghost var i := 0;
      while global != []
        invariant i <= |tiles| && global == tiles[i..] && |queues| == cores
        invariant roundRobin == turn0 + Open(tiles[..i])
        invariant DealtTo(queues0, queues, tiles[..i], turn0, layers)
        decreases |global|
      {
        var t := global[0];
        DealtOne(queues0, queues, tiles[..i], t, turn0, layers);
        assert tiles[..i + 1] == tiles[..i] + [t];
        var core: nat;
        if t.core < 0 {
          core := roundRobin % cores;
          roundRobin := roundRobin + 1;
        } else {
          core := (t.core + layers) % cores;
        }
        t := t.(core := core);
        queues := queues[core := queues[core] + [t]];
        global := global[1..];
        i := i + 1;
      }
      assert tiles[..i] == tiles;
      DealtKeeps(queues0, queues, tiles, turn0, layers, active.id);
    }

    /** The next tile for a core, if one waits for it. */
    method GetTile(core: nat) returns (tile: Option<Tile>)
      requires Valid() && core < cores
      modifies this, model
      ensures Valid() && pending == old(pending) && model.started == old(model.started) &&
              model.finished == old(model.finished)
      ensures if old(queues)[core] == [] then
                tile == None && queues == old(queues) && flying == old(flying) && active == old(active)
              else
                && tile == Some(old(queues)[core][0]) && queues == old(queues)[core := old(queues)[core][1..]]
                && flying == old(flying) + multiset{tile.value.index} && active.Layer? && tile.value.layer == active.id
                && old(active).Layer? && active.remain == old(active).remain && active.id == old(active).id
    {
      hide QueuesOk, Inv, LayersOk, AllNumbers;
      if queues[core] == [] {
        RefreshStatus();
        return None;
      }
      var t := queues[core][0];
      LayersLaunch(active, model.g.Ops(), model.started, model.finished);
      QueuesLaunch(active, queues, flying, back, core);
      active := active.(launched := active.launched + 1);
      queues := queues[core := queues[core][1..]];
      flying := flying + multiset{t.index};
      return Some(t);
    }

    /** All tiles of the layer are back: its outputs are there, and no layer is active. */
    method EndLayer()
      requires Shape() && Counted() && global == [] && pending && active.Layer? && AllNumbers(queues) == multiset{}
      requires LayersOk(active, model.g.Ops(), model.started, model.finished)
      modifies this`active, this`flying, this`back, model`produced, model`finished, model`executable
      ensures Settled() && model.finished == old(model.finished) + {old(active).id} && flying == multiset{}
    {
      hide AllNumbers, Inv;
      model.SetLayerFinish(active.id);
      active := Idle;
      flying, back := multiset{}, multiset{};
    }

    /** A core gives a tile back.  The last one finishes the layer, which makes its outputs
        available and starts the next layer; the layer finishes with no tile queued or out. */
    method FinishTile(tile: Tile)
      requires Valid() && active.Layer? && tile.layer == active.id && tile.index in flying
      modifies this, model
      ensures Valid() && old(model.started) <= model.started
      ensures if old(active.remain) == 1 then
                && old(AllNumbers(queues)) == multiset{} && old(flying) == multiset{tile.index}
                && model.finished == old(model.finished) + {tile.layer} && flying == multiset{}
                && |model.started| == |old(model.started)| + (if pending then 1 else 0)
                && (pending ==> DealtOut(old(roundRobin)) && layers == old(layers) + 1)
              else
                && model.finished == old(model.finished) && queues == old(queues)
                && model.started == old(model.started) && flying == old(flying) - multiset{tile.index}
                && active.Layer? && active.id == old(active.id) && active.remain == old(active.remain) - 1
    {
      hide AllNumbers, Inv, QueuesOk, DealtOut;
      QueuesFinish(active, queues, flying, back, tile.index);
      active := active.(remain := active.remain - 1, finished := active.finished + 1);
      flying := flying - multiset{tile.index};
      back := back + multiset{tile.index};
      if active.remain == 0 {
        EndLayer();
      }
      RefreshStatus();
    }

    /** Some core has a tile waiting or out whenever the model is not finished. */
    ghost predicate SomethingToDo()
      reads this
    {
      |AllNumbers(queues)| + |flying| > 0
    }

    lemma NeverStuck()
      requires Valid() && pending
      ensures SomethingToDo()
    {
      assert |AllNumbers(queues) + flying + back| == active.total;
    }

    /** A core that has a tile waiting. */
    method Waiting() returns (core: nat)
      requires |AllNumbers(queues)| > 0
      ensures core < |queues| && queues[core] != []
    {
      core := 0;
      AllNumbersEmpty(queues);
      while queues[core] == []
        invariant core < |queues| && forall c | 0 <= c < core :: queues[c] == []
        decreases |queues| - core
      {
        if core + 1 == |queues| { assert forall c | 0 <= c < |queues| :: queues[c] == []; }
        core := core + 1;
      }
    }

    function Remaining(): nat
      reads this
    {
      if active.Layer? then active.remain else 0
    }

    /** The tiles out at the cores are the ones counted as out, all of the active layer. */
    ghost predicate Holds(out: seq<Tile>)
      reads this
    {
      Numbers(out) == flying && (active.Layer? ==> AllOf(out, active.id))
    }

    /** A tile goes out to a core that has one waiting. */
    method SendOut(core: nat, out: seq<Tile>) returns (out': seq<Tile>)
      requires Valid() && Holds(out) && core < cores && queues[core] != []
      modifies this, model
      ensures Valid() && Holds(out') && pending == old(pending) && model.started == old(model.started)
      ensures Remaining() == old(Remaining()) && |AllNumbers(queues)| < old(|AllNumbers(queues)|)
    {
      hide Inv, QueuesOk, AllNumbers, LayersOk, Numbers;
      QueuePop(queues, core);
      NumbersAppend(out, queues[core][0]);
      var tile := GetTile(core);
      out' := out + [tile.value];
    }

    /** Any tile that is out comes back. */
    method TakeBack(i: nat, out: seq<Tile>) returns (out': seq<Tile>)
      requires Valid() && Holds(out) && pending && i < |out|
      modifies this, model
      ensures Valid() && Holds(out')
      ensures || |old(model.started)| < |model.started|
              || (|old(model.started)| == |model.started| && (pending ==> Remaining() < old(Remaining())))
    {
      hide Inv, QueuesOk, AllNumbers, LayersOk, Numbers;
      NumbersTake(out, i);
      FinishTile(out[i]);
      out' := out[..i] + out[i + 1..];
    }

    /** One turn of the cores: as asked, a tile goes out or one comes back; where that cannot be,
        the other is done. */
    method TakeTurn(send: bool, which: nat, out: seq<Tile>) returns (out': seq<Tile>)
      requires Valid() && Holds(out) && pending
      modifies this, model
      ensures Valid() && Holds(out') && |old(model.started)| <= |model.started|
      ensures |old(model.started)| == |model.started| && pending ==>
                || Remaining() < old(Remaining())
                || (Remaining() == old(Remaining()) && |AllNumbers(queues)| < old(|AllNumbers(queues)|))
    {
      hide Inv, QueuesOk, AllNumbers, LayersOk, Numbers;
      var core := which % cores;
      if send && queues[core] != [] {
        out' := SendOut(core, out);
      } else if out != [] {
        out' := TakeBack(which % |out|, out);
      } else {
        NeverStuck();
        assert flying == multiset{} by { NumbersNone(); }
        core := Waiting();
        out' := SendOut(core, out);
      }
    }

    /** However the cores ask for tiles and give them back, the model ends, with every operator
        started exactly once and no tile out.  pick says, turn by turn, whether a tile is to go
        out and to which core, or which of those out is to come back; where that cannot be, the
        other is done. */
    method RunAll(pick: nat -> (bool, nat))
      requires Valid() && flying == multiset{}
      modifies this, model
      ensures Valid() && !pending && flying == multiset{} && NoDuplicates(model.started)
      ensures forall op: nat :: op < model.g.Ops() <==> op in model.started
      ensures forall op: nat :: op < model.g.Ops() <==> op in model.finished
    {
      StartedBound(model.g, model.produced, model.finished, model.executable, model.started);
      var out: seq<Tile> := [];
      var turn := 0;
      while pending
        invariant Valid() && Holds(out) && |model.started| <= model.g.Ops()
        decreases model.g.Ops() - |model.started|, pending, Remaining(), |AllNumbers(queues)|
      {
        hide Inv, QueuesOk, AllNumbers, LayersOk, Numbers;
        var (send, which) := pick(turn);
        out := TakeTurn(send, which, out);
        turn := turn + 1;
        StartedBound(model.g, model.produced, model.finished, model.executable, model.started);
      }
      StartedAll(model.g, model.produced, model.finished, model.executable, model.started);
      NothingOut();
    }

    lemma NothingOut()
      requires Valid() && !pending
      ensures flying == multiset{}
    {}
  }

  lemma NumbersNone()
    ensures Numbers([]) == multiset{}
  {}

  lemma {:induction false} NumbersTake(q: seq<Tile>, i: nat)
    requires i < |q|
    ensures Numbers(q) == Numbers(q[..i] + q[i + 1..]) + multiset{q[i].index} && q[i].index in Numbers(q)
    ensures |q| == 1 ==> q[..i] + q[i + 1..] == []
    ensures |Numbers(q)| == |q|
  {
    var rest := q[..i] + q[i + 1..];
    if i != 0 {
      NumbersTake(q[1..], i - 1);
      assert rest[0] == q[0] && rest[1..] == q[1..][..i - 1] + q[1..][i..];
    } else {
      assert rest == q[1..];
    }
  }

  lemma StartedAll(g: Graph, produced: set<nat>, finished: set<nat>, executable: seq<nat>, started: seq<nat>)
    requires Inv(g, produced, finished, executable, started) && forall op: nat | op < g.Ops() :: op in finished
    ensures forall op: nat :: (op < g.Ops() <==> op in started) && (op < g.Ops() <==> op in finished)
  {
    forall op: nat ensures (op < g.Ops() <==> op in started) && (op < g.Ops() <==> op in finished) {
      assert OpAt(g, produced, finished, executable, started, op);
    }
  }

  lemma StartedIsOp(g: Graph, produced: set<nat>, finished: set<nat>, executable: seq<nat>, started: seq<nat>, op: nat)
    requires Inv(g, produced, finished, executable, started) && op in started
    ensures op < g.Ops()
  {
    assert OpAt(g, produced, finished, executable, started, op);
  }

  lemma {:induction false} Distinct(s: seq<nat>, n: nat)
    requires NoDuplicates(s) && forall i | 0 <= i < |s| :: s[i] < n
    ensures |s| <= n
  {
    if s == [] {
      return;
    }
    assert s[0] < n;
    if n - 1 in s {
      var i :| 0 <= i < |s| && s[i] == n - 1;
      Distinct(s[..i] + s[i + 1..], n - 1);
    } else {
      Distinct(s, n - 1);
    }
  }

  /** No operator is started twice, so at most all are. */
  lemma StartedBound(g: Graph, produced: set<nat>, finished: set<nat>, executable: seq<nat>, started: seq<nat>)
    requires Inv(g, produced, finished, executable, started)
    ensures |started| <= g.Ops()
  {
    forall i | 0 <= i < |started| ensures started[i] < g.Ops() {
      assert OpAt(g, produced, finished, executable, started, started[i]);
    }
    Distinct(started, g.Ops());
  }
}
