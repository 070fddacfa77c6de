/** The simple interconnect: links from source to destination nodes, and the turn each
    destination keeps among its sources. */
module Transport {
  import opened Arith

  datatype Entity = Entity(access: nat, finish: nat)

  /** What arrives at one destination: the buffer of each source, what has come out, and the
      source to look at first. */
  datatype Column = Column(ins: seq<seq<Entity>>, out: seq<nat>, rr: nat)

  predicate Ready(q: seq<Entity>, now: nat) {
    q != [] && q[0].finish <= now
  }

  function SourceAt(rr: nat, i: nat, n: nat): (src: nat)
    requires 0 < n
    ensures src < n
    ensures rr < n && i == 0 ==> src == rr
    ensures rr < n && i == 1 ==> src == if rr + 1 == n then 0 else rr + 1
  {
    (rr + i) % n
  }

  predicate ColumnOk(c: Column, n: nat) {
    |c.ins| == n && c.rr < n
  }

  /** In one cycle a destination takes the head of the first source in turn whose head is
      ready, and the turn moves past that source. */
  ghost predicate Moves(c: Column, now: nat, n: nat, c': Column)
    requires 0 < n && ColumnOk(c, n)
  {
    if exists i: nat :: i < n && Ready(c.ins[SourceAt(c.rr, i, n)], now) then
      exists i: nat :: i < n && Takes(c, now, n, i, c')
    else c' == c
  }

  ghost predicate Takes(c: Column, now: nat, n: nat, i: nat, c': Column)
    requires 0 < n && ColumnOk(c, n) && i < n
  {
    var s := SourceAt(c.rr, i, n);
    && Ready(c.ins[s], now)
    && (forall j: nat | j < i :: !Ready(c.ins[SourceAt(c.rr, j, n)], now))
    && c' == Column(c.ins[s := c.ins[s][1..]], c.out + [c.ins[s][0].access], SourceAt(s, 1, n))
  }

  function Accesses(q: seq<Entity>): (a: seq<nat>)
    ensures |a| == |q| && forall i | 0 <= i < |q| :: a[i] == q[i].access
  {
    seq(|q|, i requires 0 <= i < |q| => q[i].access)
  }

  lemma HeadAndRest(q: seq<Entity>)
    requires q != []
    ensures Accesses(q) == [q[0].access] + Accesses(q[1..])
  {}

  /** What came out at a destination, with the source it came from. */
  datatype Arrival = Arrival(src: nat, access: nat)

  /** The accesses among these arrivals that came from one source, in order. */
  function From(arrivals: seq<Arrival>, src: nat): seq<nat> {
    if arrivals == [] then []
    else
      var before, last := arrivals[..|arrivals| - 1], arrivals[|arrivals| - 1];
      From(before, src) + if last.src == src then [last.access] else []
  }

  function Brought(arrivals: seq<Arrival>): (a: seq<nat>)
    ensures |a| == |arrivals| && forall i | 0 <= i < |arrivals| :: a[i] == arrivals[i].access
  {
    seq(|arrivals|, i requires 0 <= i < |arrivals| => arrivals[i].access)
  }

  lemma FromAppend(arrivals: seq<Arrival>, a: Arrival, src: nat)
    ensures From(arrivals + [a], src) == From(arrivals, src) + if a.src == src then [a.access] else []
  {
    assert (arrivals + [a])[..|arrivals|] == arrivals;
  }

  lemma BroughtAppend(arrivals: seq<Arrival>, a: Arrival)
    ensures Brought(arrivals + [a]) == Brought(arrivals) + [a.access]
  {}

  lemma {:induction false} FromConcat(a: seq<Arrival>, b: seq<Arrival>, src: nat)
    ensures From(a + b, src) == From(a, src) + From(b, src)
  {
    if b == [] {
      assert a + b == a;
    } else {
      hide From;
      var before, last := b[..|b| - 1], b[|b| - 1];
      FromConcat(a, before, src);
      FromAppend(a + before, last, src);
      FromAppend(before, last, src);
      assert b == before + [last];
      assert a + b == (a + before) + [last];
    }
  }

  lemma FromSplits(arrivals: seq<Arrival>, n: nat, src: nat)
    requires n <= |arrivals|
    ensures From(arrivals, src) == From(arrivals[..n], src) + From(arrivals[n..], src)
  {
    FromConcat(arrivals[..n], arrivals[n..], src);
    assert arrivals == arrivals[..n] + arrivals[n..];
  }

  class Interconnect {
    const nodes: nat
    const latency: nat
    var cycles: nat
    /** Kept by destination. */
    var columns: seq<Column>
    /** By destination and source, everything ever pushed. */
    ghost var pushed: seq<seq<seq<nat>>>
    /** By destination, everything that ever came out, and how much of it has been popped. */
    ghost var arrivals: seq<seq<Arrival>>
    ghost var popped: seq<nat>

    ghost predicate Shape()
      reads this`columns, this`pushed, this`arrivals, this`popped
    {
      && 0 < nodes && |columns| == |pushed| == |arrivals| == |popped| == nodes
      && forall d | 0 <= d < nodes :: ColumnOk(columns[d], nodes) && |pushed[d]| == nodes
    }

    /** A link loses, doubles and reorders nothing: what was pushed on it has come out or is
        still in its buffer. */
    ghost predicate LinkOk(d: nat, s: nat)
      requires Shape() && d < nodes && s < nodes
      reads this`columns, this`pushed, this`arrivals, this`popped
    {
      pushed[d][s] == From(arrivals[d], s) + Accesses(columns[d].ins[s])
    }

    /** What came out at a destination has been popped or waits there, in order. */
    ghost predicate OutOk(d: nat)
      requires Shape() && d < nodes
      reads this`columns, this`pushed, this`arrivals, this`popped
    {
      popped[d] <= |arrivals[d]| && columns[d].out == Brought(arrivals[d][popped[d]..])
    }

    ghost predicate Valid()
      reads this`columns, this`pushed, this`arrivals, this`popped
    {
      && Shape() && (forall d, s | 0 <= d < nodes && 0 <= s < nodes :: LinkOk(d, s))
      && forall d | 0 <= d < nodes :: OutOk(d)
    }

    /** What a destination has popped so far. */
    ghost function Popped(d: nat): seq<Arrival>
      requires Valid() && d < nodes
      reads this`columns, this`pushed, this`arrivals, this`popped
    {
      assert OutOk(d);
      arrivals[d][..popped[d]]
    }

    /** What waits at a destination to be popped. */
    ghost function Waiting(d: nat): (w: seq<Arrival>)
      requires Valid() && d < nodes
      ensures |w| == |columns[d].out|
      reads this`columns, this`pushed, this`arrivals, this`popped
    {
      assert OutOk(d);
      arrivals[d][popped[d]..]
    }

    /** Everything pushed on a link has been popped at its end, waits there, or is still on
        the link: in this order, nothing lost and nothing doubled. */
    lemma LinkInOrder(d: nat, s: nat)
      requires Valid() && d < nodes && s < nodes
      ensures columns[d].out == Brought(Waiting(d))
      ensures pushed[d][s] == From(Popped(d), s) + From(Waiting(d), s) + Accesses(columns[d].ins[s])
    {
      assert LinkOk(d, s) && OutOk(d);
      FromSplits(arrivals[d], popped[d], s);
    }

    constructor (nodes: nat, latency: nat)
      requires 0 < nodes
      ensures Valid() && this.nodes == nodes && cycles == 0
      ensures forall d | 0 <= d < nodes :: arrivals[d] == [] && forall s | 0 <= s < nodes :: pushed[d][s] == []
    {
      this.nodes, this.latency, cycles := nodes, latency, 0;
      columns := seq(nodes, d => Column(seq(nodes, s => []), [], 0));
      pushed, arrivals, popped := seq(nodes, d => seq(nodes, s => [])), seq(nodes, d => []), seq(nodes, d => 0);
    }

    /** A packet joins its link: after the latency, or one cycle behind the packet before it. */
    method Push(src: nat, dest: nat, access: nat)
      requires Valid() && src < nodes && dest < nodes
      modifies this`columns, this`pushed
      ensures Valid() && pushed == old(pushed)[dest := old(pushed)[dest][src := old(pushed)[dest][src] + [access]]]
      ensures var c, q := old(columns)[dest], old(columns)[dest].ins[src];
              var finish := if q == [] then cycles + latency else q[|q| - 1].finish + 1;
              columns == old(columns)[dest := c.(ins := c.ins[src := q + [Entity(access, finish)]])]
    {
      var q := columns[dest].ins[src];
      var finish := if q == [] then cycles + latency else q[|q| - 1].finish + 1;
      ghost var c0 := columns;
      var c := columns[dest].(ins := columns[dest].ins[src := q + [Entity(access, finish)]]);
      columns := columns[dest := c];
      pushed := pushed[dest := pushed[dest][src := pushed[dest][src] + [access]]];
      assert Accesses(q + [Entity(access, finish)]) == Accesses(q) + [access];
      forall d, s | 0 <= d < nodes && 0 <= s < nodes ensures LinkOk(d, s) {
        assert old(LinkOk(d, s));
      }
      forall d | 0 <= d < nodes ensures OutOk(d) {
        assert old(OutOk(d));
      }
    }

    /** Takes what came out first at a node. */
    method Pop(node: nat) returns (access: nat)
      requires Valid() && node < nodes && columns[node].out != []
      modifies this`columns, this`popped
      ensures Valid() && access == old(columns)[node].out[0] && access == old(Waiting(node)[0].access)
      ensures popped == old(popped)[node := old(popped)[node] + 1]
      ensures columns == old(columns)[node := old(columns)[node].(out := old(columns)[node].out[1..])]
    {
      access := columns[node].out[0];
      assert OutOk(node);
      columns := columns[node := columns[node].(out := columns[node].out[1..])];
      popped := popped[node := popped[node] + 1];
      forall d, s | 0 <= d < nodes && 0 <= s < nodes ensures LinkOk(d, s) {
        assert old(LinkOk(d, s));
      }
      forall d | 0 <= d < nodes ensures OutOk(d) {
        assert old(OutOk(d));
      }
    }

    /** The head of a ready source comes out. */
    method TakeFrom(dest: nat, src: nat)
      requires Valid() && dest < nodes && src < nodes && columns[dest].ins[src] != []
      modifies this`columns, this`arrivals
      ensures Valid() && arrivals ==
                old(arrivals)[dest := old(arrivals)[dest] + [Arrival(src, old(columns)[dest].ins[src][0].access)]]
      ensures var c, q := old(columns)[dest], old(columns)[dest].ins[src];
              columns == old(columns)[dest :=
                Column(c.ins[src := q[1..]], c.out + [q[0].access], SourceAt(src, 1, nodes))]
    {
      hide From, Brought, SourceAt, Accesses;
      var c, q := columns[dest], columns[dest].ins[src];
      columns := columns[dest := Column(c.ins[src := q[1..]], c.out + [q[0].access], SourceAt(src, 1, nodes))];
      arrivals := arrivals[dest := arrivals[dest] + [Arrival(src, q[0].access)]];
      forall d, s | 0 <= d < nodes && 0 <= s < nodes ensures LinkOk(d, s) {
        assert old(LinkOk(d, s));
        HeadAndRest(q);
        FromAppend(old(arrivals)[dest], Arrival(src, q[0].access), s);
      }
      forall d | 0 <= d < nodes ensures OutOk(d) {
        assert old(OutOk(d));
        if d == dest {
          BroughtAppend(old(arrivals)[dest][popped[dest]..], Arrival(src, q[0].access));
          assert arrivals[dest][popped[dest]..] == old(arrivals)[dest][popped[dest]..] + [Arrival(src, q[0].access)];
        }
      }
    }

    /** One destination's cycle. */
    method CycleOne(dest: nat)
      requires Valid() && dest < nodes
      modifies this`columns, this`arrivals
      ensures Valid() && columns == old(columns)[dest := columns[dest]]
      ensures Moves(old(columns)[dest], cycles, nodes, columns[dest])
      ensures arrivals == old(arrivals)[dest := arrivals[dest]] && old(arrivals)[dest] <= arrivals[dest]
    {
      hide LinkOk, OutOk;
      var c := columns[dest];
      for i := 0 to nodes
        invariant columns == old(columns) && arrivals == old(arrivals) && Valid()
        invariant forall j: nat | j < i :: !Ready(c.ins[SourceAt(c.rr, j, nodes)], cycles)
      {
        var src := SourceAt(c.rr, i, nodes);
        var q := c.ins[src];
        if q != [] && q[0].finish <= cycles {
          TakeFrom(dest, src);
          assert Takes(c, cycles, nodes, i, columns[dest]);
          return;
        }
      }
    }

    method Cycle()
      requires Valid()
      modifies this`columns, this`arrivals, this`cycles
      ensures Valid() && cycles == old(cycles) + 1
      ensures forall d | 0 <= d < nodes :: old(arrivals)[d] <= arrivals[d]
      ensures forall d | 0 <= d < nodes ::
                ColumnOk(old(columns)[d], nodes) && Moves(old(columns)[d], old(cycles), nodes, columns[d])
    {
      for dest := 0 to nodes
        invariant Valid() && cycles == old(cycles)
        invariant forall d | dest <= d < nodes :: columns[d] == old(columns)[d]
        invariant forall d | 0 <= d < nodes :: old(arrivals)[d] <= arrivals[d]
        invariant forall d | 0 <= d < dest ::
                    ColumnOk(old(columns)[d], nodes) && Moves(old(columns)[d], cycles, nodes, columns[d])
      {
        CycleOne(dest);
      }
      cycles := cycles + 1;
    }
  }

  // ---- A ready head waits for at most one turn of every source ----

  /** Sources whose turn comes before that of s. */
  function Ahead(rr: nat, s: nat, n: nat): nat
    requires rr < n && s < n
  {
    if rr <= s then s - rr else s + n - rr
  }

  lemma AheadIs(rr: nat, s: nat, n: nat)
    requires rr < n && s < n
    ensures Ahead(rr, s, n) < n && SourceAt(rr, Ahead(rr, s, n), n) == s
    ensures forall i: nat | i < n && SourceAt(rr, i, n) == s :: i == Ahead(rr, s, n)
  {
    Small(rr + Ahead(rr, s, n), n);
    forall i: nat | i < n && SourceAt(rr, i, n) == s ensures i == Ahead(rr, s, n) {
      Small(rr + i, n);
    }
  }

  /** Buffers may have grown at the back since, and what came out may have been taken. */
  ghost predicate Grew(c: Column, c': Column, n: nat)
    requires ColumnOk(c, n)
  {
    ColumnOk(c', n) && c'.rr == c.rr && forall s | 0 <= s < n :: c.ins[s] <= c'.ins[s]
  }

  /** A packet comes out exactly when one is due: with nothing due nothing moves, and else just
      the first packet of one link whose time has come, the turn passing to the link behind. */
  lemma TakenWhenDue(c: Column, now: nat, n: nat, c': Column)
    requires 0 < n && ColumnOk(c, n) && Moves(c, now, n, c')
    ensures (forall s | 0 <= s < n :: c.ins[s] == [] || now < c.ins[s][0].finish) ==> c' == c
    ensures (exists s | 0 <= s < n :: c.ins[s] != [] && c.ins[s][0].finish <= now) ==>
              exists s | 0 <= s < n :: c.ins[s] != [] && c.ins[s][0].finish <= now &&
                c'.out == c.out + [c.ins[s][0].access] && c'.ins == c.ins[s := c.ins[s][1..]] &&
                c'.rr == if s + 1 == n then 0 else s + 1
  {
    if s :| 0 <= s < n && c.ins[s] != [] && c.ins[s][0].finish <= now {
      AheadIs(c.rr, s, n);
      assert Ready(c.ins[SourceAt(c.rr, Ahead(c.rr, s, n), n)], now);
      var i: nat :| i < n && Takes(c, now, n, i, c');
      var taken := SourceAt(c.rr, i, n);
      assert c.ins[taken] != [] && c'.ins == c.ins[taken := c.ins[taken][1..]];
    }
  }

  /** A ready head either comes out in this cycle, or stays and has fewer sources ahead. */
  lemma HeadAdvances(c: Column, now: nat, n: nat, c': Column, s: nat)
    requires 0 < n && ColumnOk(c, n) && Moves(c, now, n, c') && s < n && Ready(c.ins[s], now)
    ensures ColumnOk(c', n)
    ensures || (c'.out == c.out + [c.ins[s][0].access] && c'.ins[s] == c.ins[s][1..])
            || (c'.ins[s] == c.ins[s] && c.out <= c'.out && Ahead(c'.rr, s, n) < Ahead(c.rr, s, n))
  {
    var a := Ahead(c.rr, s, n);
    AheadIs(c.rr, s, n);
    assert Ready(c.ins[SourceAt(c.rr, a, n)], now);
    var i: nat :| i < n && Takes(c, now, n, i, c');
    assert i <= a;
    if i < a {
      Small(c.rr + i, n);
      Small(SourceAt(c.rr, i, n) + 1, n);
    }
  }

  /** Columns of a run: grown by arrivals, then cycled, again and again. */
  ghost predicate ColumnRun(befores: seq<Column>, afters: seq<Column>, start: nat, n: nat) {
    && 0 < n && |afters| == |befores| + 1
    && (forall i | 0 <= i < |afters| :: ColumnOk(afters[i], n))
    && (forall i | 0 <= i < |befores| ::
        Grew(afters[i], befores[i], n) && Moves(befores[i], start + i, n, afters[i + 1]))
  }

  /** A head that is ready comes out within as many cycles as there are nodes, whatever else
      arrives and whatever the other sources have ready. */
  lemma {:induction false} DeliveredInTime(befores: seq<Column>, afters: seq<Column>, start: nat, n: nat, s: nat)
    requires ColumnRun(befores, afters, start, n) && s < n && Ready(afters[0].ins[s], start)
    requires Ahead(afters[0].rr, s, n) < |befores|
    ensures exists i :: 0 <= i < |befores| && i <= Ahead(afters[0].rr, s, n) && befores[i].ins[s] != [] &&
              befores[i].ins[s][0] == afters[0].ins[s][0] &&
                  afters[i + 1].out == befores[i].out + [afters[0].ins[s][0].access]
    decreases |befores|
  {
    hide Moves, Ahead;
    var b := befores[0];
    assert Grew(afters[0], b, n);
    assert afters[0].ins[s] <= b.ins[s];
    HeadAdvances(b, start, n, afters[1], s);
    if !(afters[1].out == b.out + [b.ins[s][0].access] && afters[1].ins[s] == b.ins[s][1..]) {
      var bs, as' := befores[1..], afters[1..];
      forall i | 0 <= i < |bs| ensures Grew(as'[i], bs[i], n) && Moves(bs[i], start + 1 + i, n, as'[i + 1]) {
        assert Grew(afters[i + 1], befores[i + 1], n) && Moves(befores[i + 1], start + (i + 1), n, afters[i + 2]);
      }
      DeliveredInTime(bs, as', start + 1, n, s);
      var i :| 0 <= i < |bs| && i <= Ahead(as'[0].rr, s, n) && bs[i].ins[s] != [] &&
        bs[i].ins[s][0] == as'[0].ins[s][0] && as'[i + 1].out == bs[i].out + [as'[0].ins[s][0].access];
      assert befores[i + 1] == bs[i] && afters[i + 2] == as'[i + 1];
    }
  }

  // ---- Which link a request uses ----

  /** The port a core injects a request on: the one its channel is given, or the port tried. */
  function Port(core: nat, ports: nat, tried: nat, channel: nat, byChannel: bool): nat
    requires 0 < ports
  {
    Times(core, ports) + if byChannel then channel % ports else tried
  }

  function Destination(cores: nat, ports: nat, channel: nat): nat {
    Times(cores, ports) + channel
  }

  predicate SameLink(cores: nat, ports: nat, core: nat, channel: nat, core': nat, channel': nat)
    requires 0 < ports
  {
    && Port(core, ports, 0, channel, true) == Port(core', ports, 0, channel', true)
    && Destination(cores, ports, channel) == Destination(cores, ports, channel')
  }

  /** Port and channel node tell core and channel: the ports of a core follow each other, and so
      do the nodes of the channels, behind all ports. */
  lemma PortSplits(cores: nat, ports: nat, core: nat, channel: nat, tried: nat, byChannel: bool)
    requires 0 < ports && tried < ports
    ensures Port(core, ports, tried, channel, byChannel) / ports == core
    ensures Port(core, ports, tried, channel, byChannel) % ports == if byChannel then channel % ports else tried
    ensures Destination(cores, ports, channel) - Times(cores, ports) == channel
  {
    Whole(channel, ports);
    Split(core, if byChannel then channel % ports else tried, ports);
  }

  /** With a port per channel, requests share a link exactly when core and channel are the
      same, so a link's order is the order of one core's requests to one channel; and ports
      and channels are never the same node. */
  lemma LinkIsCoreAndChannel(cores: nat, ports: nat, core: nat, channel: nat, tried: nat, core': nat, channel': nat)
    requires 0 < ports && core < cores && core' < cores
    ensures Port(core, ports, tried, channel, true) < Times(cores, ports) <= Destination(cores, ports, channel)
    ensures SameLink(cores, ports, core, channel, core', channel') <==> core == core' && channel == channel'
  {
    Whole(channel, ports);
    Whole(channel', ports);
    SplitLess(core, channel % ports, ports, cores);
    if SameLink(cores, ports, core, channel, core', channel') {
      SplitUnique(core, channel % ports, core', channel' % ports, ports);
    }
  }
}
