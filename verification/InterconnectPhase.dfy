/** The interconnect's share of a simulator cycle: cores hand requests to the interconnect, the
    interconnect hands them to the memory channels, and responses go back the other way. */
module InterconnectPhase {
  import opened Arith
  import opened Collections
  import opened RequestQueues
  import opened Transport

  /** What a memory channel has ready: the access answered and the core that made it. */
  datatype Response = Response(access: nat, core: nat)

  /** The accesses among these that go to one channel, in order. */
  function OfChannel(accesses: seq<nat>, channel: nat -> nat, c: nat): seq<nat> {
    if accesses == [] then []
    else
      var last := accesses[|accesses| - 1];
      OfChannel(accesses[..|accesses| - 1], channel, c) + if channel(last) == c then [last] else []
  }

  lemma OfChannelAppend(accesses: seq<nat>, a: nat, channel: nat -> nat, c: nat)
    ensures OfChannel(accesses + [a], channel, c) ==
              OfChannel(accesses, channel, c) + if channel(a) == c then [a] else []
  {
    assert (accesses + [a])[..|accesses|] == accesses;
  }

  /** The node is a port of some core that serves the channel. */
  ghost predicate Serves(cores: nat, ports: nat, node: nat, channel: nat)
    requires 0 < ports
  {
    exists core: nat :: core < cores && node == Port(core, ports, 0, channel, true)
  }

  class Simulator {
    const cores: nat
    const ports: nat
    const memories: nat
    /** Requests are injected on the port of their channel, not on the ports in turn. */
    const byChannel: bool
    /** The channel an access belongs to. */
    const channel: nat -> nat
    const queues: seq<RoundRobin>
    const net: Interconnect
    /** By core, everything handed out, and by channel everything pushed to the memory. */
    ghost var handed: seq<seq<nat>>
    ghost var toMemory: seq<seq<nat>>

    ghost predicate Shape()
      reads this, net
    {
      && 0 < ports && |queues| == |handed| == cores && |toMemory| == memories
      && net.Valid() && net.nodes == Times(cores, ports) + memories
      && (forall a: nat :: channel(a) < memories)
      && forall i, j | 0 <= i < j < cores :: queues[i] != queues[j]
    }

    /** What a core handed out for a channel is what was pushed on its link to that channel. */
    ghost predicate Flow(core: nat, c: nat)
      requires Shape() && core < cores && c < memories
      reads this, net
    {
      PortBelow(core, c % ports, ports, cores);
      net.pushed[Destination(cores, ports, c)][Port(core, ports, 0, c, true)] == OfChannel(handed[core], channel, c)
    }

    /** Nothing else goes to the channel. */
    ghost predicate Quiet(node: nat, c: nat)
      requires Shape() && node < net.nodes && c < memories
      reads this, net
    {
      Serves(cores, ports, node, c) || net.pushed[Destination(cores, ports, c)][node] == []
    }

    /** The memory got what was popped at the channel's node. */
    ghost predicate Received(c: nat)
      requires Shape() && c < memories
      reads this, net
    {
      var node := Destination(cores, ports, c);
      net.popped[node] <= |net.arrivals[node]| && toMemory[c] == Brought(net.arrivals[node][..net.popped[node]])
    }

    ghost predicate Valid()
      reads this, net, queues
    {
      && Shape() && (forall i | 0 <= i < cores :: queues[i].Valid())
      && (byChannel ==> forall core, c | 0 <= core < cores && 0 <= c < memories :: Flow(core, c))
      && (byChannel ==> forall node, c | 0 <= node < net.nodes && 0 <= c < memories :: Quiet(node, c))
      && forall c | 0 <= c < memories :: Received(c)
    }

    /** The requests of one core for one channel reach the memory in the order the core handed
        them out, none lost and none doubled: they have reached it, wait at the channel's node,
        or are on the link, in this order; and the channel gets nothing that no core sent it. */
    lemma InOrder(core: nat, c: nat)
      requires Valid() && byChannel && core < cores && c < memories
      ensures Destination(cores, ports, c) < net.nodes && Port(core, ports, 0, c, true) < net.nodes
      ensures var node, port := Destination(cores, ports, c), Port(core, ports, 0, c, true);
              && toMemory[c] == Brought(net.Popped(node))
              && OfChannel(handed[core], channel, c)
                 == From(net.Popped(node), port) + From(net.Waiting(node), port) + Accesses(net.columns[node].ins[port])
              && forall src: nat | src < net.nodes && !Serves(cores, ports, src, c) :: From(net.Popped(node), src) == []
    {
      var node := Destination(cores, ports, c);
      SplitLess(core, c % ports, ports, cores);
      assert Flow(core, c) && Received(c);
      net.LinkInOrder(node, Port(core, ports, 0, c, true));
      forall src: nat | src < net.nodes && !Serves(cores, ports, src, c) ensures From(net.Popped(node), src) == [] {
        assert Quiet(src, c);
        net.LinkInOrder(node, src);
      }
    }

    /** A simulator around cores whose queues may hold requests and an interconnect nothing has
        been pushed to. */
    constructor (ports: nat, memories: nat, byChannel: bool, channel: nat -> nat, queues: seq<RoundRobin>,
                 net: Interconnect)
      requires 0 < ports && net.Valid() && net.nodes == Times(|queues|, ports) + memories
      requires forall a: nat :: channel(a) < memories
      requires (forall i | 0 <= i < |queues| :: queues[i].Valid()) &&
               forall i, j | 0 <= i < j < |queues| :: queues[i] != queues[j]
      requires forall d | 0 <= d < net.nodes ::
                 net.arrivals[d] == [] && forall s | 0 <= s < net.nodes :: net.pushed[d][s] == []
      ensures Valid() && this.queues == queues && this.net == net && this.byChannel == byChannel &&
              this.channel == channel
      ensures cores == |queues| && this.ports == ports && this.memories == memories
      ensures (forall i | 0 <= i < cores :: handed[i] == []) && forall c | 0 <= c < memories :: toMemory[c] == []
    {
      hide Times, Port, Interconnect.LinkOk, Ok, Serves;
      this.cores, this.ports, this.memories, this.byChannel := |queues|, ports, memories, byChannel;
      this.channel, this.queues, this.net := channel, queues, net;
      handed, toMemory := seq(|queues|, i => []), seq(memories, c => []);
      new;
      forall i, c | 0 <= i < cores && 0 <= c < memories ensures Flow(i, c) {
        SamePort(i, ports, c);
        PortBelow(i, c % ports, ports, cores);
      }
      forall c | 0 <= c < memories ensures Received(c) {
        assert net.OutOk(Destination(cores, ports, c));
      }
    }

    /** The core hands out the request next in turn. */
    method HandOut(core: nat) returns (request: nat)
      requires Valid() && core < cores && queues[core].queues != map[]
      modifies queues[core]
      ensures Valid()
      ensures TakesNext(old(queues[core].Snap()), request, queues[core].Snap())
    {
      hide Ok, Grants, Flow, Quiet, Received, Interconnect.Valid;
      var k;
      k, request := queues[core].Take();
    }

    /** A request enters the interconnect. */
    method Inject(core: nat, port: nat, request: nat)
      requires Valid() && core < cores && port < Times(cores, ports)
      requires byChannel ==> port == Port(core, ports, 0, channel(request), true)
      modifies this`handed, net`columns, net`pushed
      ensures Valid() && handed == old(handed)[core := old(handed)[core] + [request]]
      ensures var to := Destination(cores, ports, channel(request));
              net.pushed == old(net.pushed)[to := old(net.pushed)[to][port := old(net.pushed)[to][port] + [request]]]
      ensures forall d | 0 <= d < net.nodes :: net.columns[d].out == old(net.columns)[d].out
    {
      hide Times, Port, OfChannel, Interconnect.LinkOk, Interconnect.OutOk, Ok;
      var to := channel(request);
      net.Push(port, Destination(cores, ports, to), request);
      handed := handed[core := handed[core] + [request]];
      if byChannel {
        forall i, c | 0 <= i < cores && 0 <= c < memories ensures Flow(i, c) {
          assert old(Flow(i, c));
          LinkIsCoreAndChannel(cores, ports, i, c, 0, core, to);
          OfChannelAppend(old(handed)[core], request, channel, c);
        }
        forall node, c | 0 <= node < net.nodes && 0 <= c < memories ensures Quiet(node, c) {
          assert old(Quiet(node, c));
          assert node == port && c == to ==> Serves(cores, ports, node, c) by { SamePort(core, ports, to); }
        }
      }
      forall c | 0 <= c < memories ensures Received(c) { assert old(Received(c)); }
    }

    /** A core takes the response that has come to a port. */
    method TakeResponse(port: nat) returns (response: Option<nat>)
      requires Valid() && port < Times(cores, ports)
      modifies net`columns, net`popped
      ensures Valid()
      ensures response == if old(net.columns[port].out) == [] then None else Some(old(net.columns[port].out)[0])
      ensures net.columns[port].out == if response == None then [] else old(net.columns[port].out)[1..]
      ensures forall d | 0 <= d < net.nodes && d != port :: net.columns[d] == old(net.columns)[d]
    {
      hide Times, Port, OfChannel, Interconnect.LinkOk, Interconnect.OutOk, Ok, Serves;
      if net.columns[port].out == [] { return None; }
      var access := net.Pop(port);
      response := Some(access);
      forall i, c | byChannel && 0 <= i < cores && 0 <= c < memories ensures Flow(i, c) { assert old(Flow(i, c)); }
      forall node, c | byChannel && 0 <= node < net.nodes && 0 <= c < memories
        ensures Quiet(node, c)
      {
        assert old(Quiet(node, c));
      }
      forall c | 0 <= c < memories ensures Received(c) { assert old(Received(c)); }
    }

    /** The port of a core's turn: that of the request's channel, or the one tried. */
    ghost function PortOf(core: nat, tried: nat, request: Option<nat>): (port: nat)
      requires core < cores && tried < ports
      ensures port < Times(cores, ports)
    {
      PortBelow(core, tried, ports, cores);
      if request == None || !byChannel then Times(core, ports) + tried
      else
        SamePort(core, ports, channel(request.value));
        PortBelow(core, channel(request.value) % ports, ports, cores);
        Times(core, ports) + channel(request.value) % ports
    }

    /** One port's turn of one core: a waiting request goes out, and a response that has come
        to the port is taken. */
    method CoreTurn(core: nat, tried: nat) returns (request: Option<nat>, response: Option<nat>)
      requires Valid() && core < cores && tried < ports
      modifies this`handed, net`columns, net`pushed, net`popped, queues[core]
      ensures Valid()
      ensures if old(queues[core].queues) == map[] then
                request == None && handed == old(handed) && queues[core].Snap() == old(queues[core].Snap())
              else
                && request.Some? && TakesNext(old(queues[core].Snap()), request.value, queues[core].Snap())
                && handed == old(handed)[core := old(handed)[core] + [request.value]]
      ensures var port := PortOf(core, tried, request);
              && response == (if old(net.columns)[port].out == [] then None else Some(old(net.columns)[port].out[0]))
              && net.columns[port].out == (if response == None then [] else old(net.columns)[port].out[1..])
              && (forall d | 0 <= d < net.nodes && d != port :: net.columns[d].out == old(net.columns)[d].out)
              && net.pushed == if request == None then old(net.pushed) else
                   var to := Destination(cores, ports, channel(request.value));
                   old(net.pushed)[to := old(net.pushed)[to][port := old(net.pushed)[to][port] + [request.value]]]
    {
      hide Times, Grants, TakesNext, Flow, Quiet, Received, Ok, Interconnect.Valid;
      PortBelow(core, tried, ports, cores);
      var port := Port(core, ports, tried, 0, false);
      request := None;
      if queues[core].queues != map[] {
        var access := HandOut(core);
        request := Some(access);
        PortBelow(core, channel(access) % ports, ports, cores);
        SamePort(core, ports, channel(access));
        port := Port(core, ports, tried, channel(access), byChannel);
        Inject(core, port, access);
      }
      assert port == PortOf(core, tried, request);
      response := TakeResponse(port);
    }

    /** The memory channel takes what waits at its node, unless it is full. */
    method TakeRequest(c: nat, full: bool)
      requires Valid() && c < memories
      modifies this`toMemory, net`columns, net`popped
      ensures Valid()
      ensures var out := old(net.columns[Destination(cores, ports, c)].out);
              && toMemory == old(toMemory)[c := old(toMemory)[c] + if out != [] && !full then [out[0]] else []]
              && net.columns[Destination(cores, ports, c)].out == if out != [] && !full then out[1..] else out
      ensures forall d | 0 <= d < net.nodes && d != Destination(cores, ports, c) ::
                net.columns[d].out == old(net.columns)[d].out
    {
      hide Times, Port, OfChannel, Interconnect.LinkOk, Ok, Serves;
      var node := Destination(cores, ports, c);
      if net.columns[node].out != [] && !full {
        assert Received(c) && net.OutOk(node);
        assert net.columns[node].out[0] == net.arrivals[node][net.popped[node]].access;
        BroughtNext(net.arrivals[node], net.popped[node]);
        var access := net.Pop(node);
        toMemory := toMemory[c := toMemory[c] + [access]];
        assert net.OutOk(node);
        forall i, c | byChannel && 0 <= i < cores && 0 <= c < memories ensures Flow(i, c) { assert old(Flow(i, c)); }
        forall node, c | byChannel && 0 <= node < net.nodes && 0 <= c < memories
          ensures Quiet(node, c)
        {
          assert old(Quiet(node, c));
        }
        forall c | 0 <= c < memories ensures Received(c) { assert old(Received(c)); }
      } else {
        assert toMemory[c] == toMemory[c] + [];
      }
    }

    /** What is pushed with channel c's response: on its link to the port of the core that asked
        that its channel has there. */
    ghost function Answered(pushed: seq<seq<seq<nat>>>, c: nat, r: Option<Response>): seq<seq<seq<nat>>>
      requires 0 < ports && |pushed| == Times(cores, ports) + memories && c < memories
      requires forall d | 0 <= d < |pushed| :: |pushed[d]| == |pushed|
      requires r.Some? ==> r.value.core < cores
    {
      if r == None then pushed
      else
        PortBelow(r.value.core, channel(r.value.access) % ports, ports, cores);
        var port: nat := Times(r.value.core, ports) + channel(r.value.access) % ports;
        var node := Times(cores, ports) + c;
        pushed[port := pushed[port][node := pushed[port][node] + [r.value.access]]]
    }

    /** A response goes back to a port of the core that asked. */
    method Respond(c: nat, r: Response)
      requires Valid() && c < memories && r.core < cores
      modifies net`columns, net`pushed
      ensures Valid() && net.pushed == Answered(old(net.pushed), c, Some(r))
      ensures forall d | 0 <= d < net.nodes :: net.columns[d].out == old(net.columns)[d].out
    {
      hide Times, Port, OfChannel, Interconnect.LinkOk, Interconnect.OutOk, Ok, Serves;
      PortBelow(r.core, channel(r.access) % ports, ports, cores);
      SamePort(r.core, ports, channel(r.access));
      net.Push(Destination(cores, ports, c), Port(r.core, ports, 0, channel(r.access), true), r.access);
      forall c | 0 <= c < memories ensures Received(c) { assert old(Received(c)); }
      forall i, c | byChannel && 0 <= i < cores && 0 <= c < memories ensures Flow(i, c) { assert old(Flow(i, c)); }
      forall node, c | byChannel && 0 <= node < net.nodes && 0 <= c < memories
        ensures Quiet(node, c)
      {
        assert old(Quiet(node, c));
      }
    }

    /** One memory channel's turn. */
    method MemoryTurn(c: nat, full: bool, response: Option<Response>)
      requires Valid() && c < memories && (response.Some? ==> response.value.core < cores)
      modifies this`toMemory, net`columns, net`pushed, net`popped
      ensures Valid()
      ensures var out := old(net.columns[Destination(cores, ports, c)].out);
              toMemory == old(toMemory)[c := old(toMemory)[c] + if out != [] && !full then [out[0]] else []]
      ensures net.pushed == Answered(old(net.pushed), c, response)
      ensures forall d | 0 <= d < net.nodes && d != Destination(cores, ports, c) ::
                net.columns[d].out == old(net.columns)[d].out
    {
      hide Flow, Quiet, Received, Ok, Interconnect.LinkOk, Interconnect.OutOk;
      TakeRequest(c, full);
      if response.Some? {
        Respond(c, response.value);
      }
    }

    /** The interconnect moves on by a cycle. */
    method Advance()
      requires Valid()
      modifies net`columns, net`arrivals, net`cycles
      ensures Valid() && net.cycles == old(net.cycles) + 1
      ensures forall d | 0 <= d < net.nodes ::
                ColumnOk(old(net.columns)[d], net.nodes) &&
                    Moves(old(net.columns)[d], old(net.cycles), net.nodes, net.columns[d])
    {
      hide Times, Port, OfChannel, Interconnect.LinkOk, Interconnect.OutOk, Ok, Serves, Moves, ColumnOk;
      net.Cycle();
      forall i, c | byChannel && 0 <= i < cores && 0 <= c < memories ensures Flow(i, c) { assert old(Flow(i, c)); }
      forall node, c | byChannel && 0 <= node < net.nodes && 0 <= c < memories
        ensures Quiet(node, c)
      {
        assert old(Quiet(node, c));
      }
      forall c | 0 <= c < memories ensures Received(c) {
        assert old(Received(c));
        var node := Destination(cores, ports, c);
        assert net.arrivals[node][..net.popped[node]] == old(net.arrivals)[node][..net.popped[node]];
      }
    }

    /** All ports of one core in turn: the core hands out the requests next in turn, one a port,
        as long as it has any. */
    method CoreTurns(core: nat)
      requires Valid() && core < cores
      modifies this`handed, net`columns, net`pushed, net`popped, queues[core]
      ensures Valid() && forall i | 0 <= i < cores && i != core :: handed[i] == old(handed)[i]
      ensures exists out: seq<nat> ::
                && Turns(old(queues[core].Snap()), ports, out, queues[core].Snap())
                && handed[core] == old(handed)[core] + out
      ensures forall d | Times(cores, ports) <= d < net.nodes :: net.columns[d].out == old(net.columns)[d].out
      ensures forall d | 0 <= d < Times(cores, ports) :: net.pushed[d] == old(net.pushed)[d]
    {
      hide Times, Flow, Quiet, Received, Ok, TakesNext, Turns, Interconnect.LinkOk, Interconnect.OutOk, PortOf;
      ghost var out := [];
      NoTurns(queues[core].Snap());
      for tried := 0 to ports
        invariant Valid() && forall i | 0 <= i < cores && i != core :: handed[i] == old(handed)[i]
        invariant Turns(old(queues[core].Snap()), tried, out, queues[core].Snap())
        invariant handed[core] == old(handed)[core] + out
        invariant forall d | Times(cores, ports) <= d < net.nodes :: net.columns[d].out == old(net.columns)[d].out
        invariant forall d | 0 <= d < Times(cores, ports) :: net.pushed[d] == old(net.pushed)[d]
      {
        ghost var before := queues[core].Snap();
        var request, response := CoreTurn(core, tried);
        if request.Some? {
          TurnsOn(old(queues[core].Snap()), tried, out, before, request.value, queues[core].Snap());
          out := out + [request.value];
        } else {
          TurnsIdle(old(queues[core].Snap()), tried, out, before);
        }
      }
    }

    /** The whole interconnect part of a cycle.  Every core hands out one request a port, in its
        turn, as long as it has any; every channel takes what waits at its node unless it is
        full, and its response goes on its way back; and the interconnect moves on by a cycle. */
    method Phase(full: nat -> bool, responses: nat -> Option<Response>)
      requires Valid() && forall c: nat :: responses(c).Some? ==> responses(c).value.core < cores
      modifies this, net, queues
      ensures Valid() && net.cycles == old(net.cycles) + 1
      ensures forall core | 0 <= core < cores ::
                HandsOut(old(queues[core].Snap()), old(handed)[core], queues[core].Snap(), handed[core])
      ensures forall c | 0 <= c < memories ::
                var out := old(net.columns)[Destination(cores, ports, c)].out;
                toMemory[c] == old(toMemory)[c] + if out != [] && !full(c) then [out[0]] else []
      ensures forall c, port | 0 <= c < memories && 0 <= port < Times(cores, ports) ::
                net.pushed[port][Destination(cores, ports, c)] ==
                  old(net.pushed)[port][Destination(cores, ports, c)] + ResponseOn(port, responses(c))
    {
      hide Times, Flow, Quiet, Received, Ok, Grants, Turns, Interconnect.LinkOk, Interconnect.OutOk, HandsOut, Answered,
           ResponseOn, Moves;
      for core := 0 to cores
        invariant Valid() && toMemory == old(toMemory) && net.cycles == old(net.cycles)
        invariant forall i | core <= i < cores ::
                    queues[i].Snap() == old(queues[i].Snap()) && handed[i] == old(handed)[i]
        invariant forall i | 0 <= i < core ::
                    HandsOut(old(queues[i].Snap()), old(handed)[i], queues[i].Snap(), handed[i])
        invariant forall d | Times(cores, ports) <= d < net.nodes :: net.columns[d].out == old(net.columns)[d].out
        invariant forall d | 0 <= d < Times(cores, ports) :: net.pushed[d] == old(net.pushed)[d]
      {
        CoreTurns(core);
        ghost var out :| Turns(old(queues[core].Snap()), ports, out, queues[core].Snap()) &&
          handed[core] == old(handed)[core] + out;
        HandedOut(old(queues[core].Snap()), old(handed)[core], queues[core].Snap(), handed[core], out);
      }
      MemoryTurns(full, responses);
      Advance();
    }

    /** All memory channels in turn. */
    method MemoryTurns(full: nat -> bool, responses: nat -> Option<Response>)
      requires Valid() && forall c: nat :: responses(c).Some? ==> responses(c).value.core < cores
      modifies this`toMemory, net`columns, net`pushed, net`popped
      ensures Valid()
      ensures forall c | 0 <= c < memories ::
                var out := old(net.columns)[Destination(cores, ports, c)].out;
                toMemory[c] == old(toMemory)[c] + if out != [] && !full(c) then [out[0]] else []
      ensures forall c, port | 0 <= c < memories && 0 <= port < Times(cores, ports) ::
                net.pushed[port][Destination(cores, ports, c)] ==
                  old(net.pushed)[port][Destination(cores, ports, c)] + ResponseOn(port, responses(c))
    {
      hide Times, Flow, Quiet, Received, Ok, Interconnect.LinkOk, Interconnect.OutOk, Answered, ResponseOn,
           AllAnswered;
      AnsweredNone(net.pushed, responses);
      for c := 0 to memories
        invariant Valid()
        invariant forall i | c <= i < memories ::
                    var node := Destination(cores, ports, i);
                    net.columns[node].out == old(net.columns)[node].out && toMemory[i] == old(toMemory)[i]
        invariant forall i | 0 <= i < c ::
                    var out := old(net.columns)[Destination(cores, ports, i)].out;
                    toMemory[i] == old(toMemory)[i] + if out != [] && !full(i) then [out[0]] else []
        invariant AllAnswered(old(net.pushed), net.pushed, c, responses)
      {
        AnsweredMore(old(net.pushed), net.pushed, c, responses);
        MemoryTurn(c, full(c), responses(c));
      }
      AnsweredAll(old(net.pushed), net.pushed, responses);
    }

    /** The responses of the first n channels have been pushed, and nothing else to the ports. */
    ghost predicate AllAnswered(pushed: seq<seq<seq<nat>>>, pushed': seq<seq<seq<nat>>>, n: nat,
                                responses: nat -> Option<Response>)
    {
      && 0 < ports && n <= memories && |pushed| == |pushed'| == Times(cores, ports) + memories
      && (forall d | 0 <= d < |pushed| :: |pushed[d]| == |pushed'[d]| == |pushed|)
      && forall i, port | 0 <= i < memories && 0 <= port < Times(cores, ports) ::
           pushed'[port][Destination(cores, ports, i)] ==
             pushed[port][Destination(cores, ports, i)] + if i < n then ResponseOn(port, responses(i)) else []
    }

    lemma AnsweredMore(pushed: seq<seq<seq<nat>>>, pushed': seq<seq<seq<nat>>>, n: nat,
                       responses: nat -> Option<Response>)
      requires AllAnswered(pushed, pushed', n, responses) && n < memories
      requires responses(n).Some? ==> responses(n).value.core < cores
      ensures AllAnswered(pushed, Answered(pushed', n, responses(n)), n + 1, responses)
    {
      hide Times, Answered, ResponseOn;
      var more := Answered(pushed', n, responses(n));
      AnsweredShape(pushed', n, responses(n));
      forall i, port | 0 <= i < memories && 0 <= port < Times(cores, ports)
        ensures more[port][Destination(cores, ports, i)] == pushed[port][Destination(cores, ports, i)] +
                  if i < n + 1 then ResponseOn(port, responses(i)) else []
      {
        AnsweredAt(pushed', n, responses(n), i, port);
      }
    }

    lemma AnsweredShape(pushed: seq<seq<seq<nat>>>, c: nat, r: Option<Response>)
      requires 0 < ports && |pushed| == Times(cores, ports) + memories && c < memories
      requires forall d | 0 <= d < |pushed| :: |pushed[d]| == |pushed|
      requires r.Some? ==> r.value.core < cores
      ensures |Answered(pushed, c, r)| == |pushed|
      ensures forall d | 0 <= d < |pushed| :: |Answered(pushed, c, r)[d]| == |pushed|
    {
      hide Times;
      if r.Some? {
        PortBelow(r.value.core, channel(r.value.access) % ports, ports, cores);
      }
    }

    lemma AnsweredNone(pushed: seq<seq<seq<nat>>>, responses: nat -> Option<Response>)
      requires 0 < ports && |pushed| == Times(cores, ports) + memories
      requires forall d | 0 <= d < |pushed| :: |pushed[d]| == |pushed|
      ensures AllAnswered(pushed, pushed, 0, responses)
    {
      hide Times;
      forall i, port | 0 <= i < memories && 0 <= port < Times(cores, ports)
        ensures pushed[port][Destination(cores, ports, i)] == pushed[port][Destination(cores, ports, i)] + []
      {}
    }

    lemma AnsweredAll(pushed: seq<seq<seq<nat>>>, pushed': seq<seq<seq<nat>>>, responses: nat -> Option<Response>)
      requires AllAnswered(pushed, pushed', memories, responses)
      ensures forall c, port | 0 <= c < memories && 0 <= port < Times(cores, ports) ::
                pushed'[port][Destination(cores, ports, c)] ==
                  pushed[port][Destination(cores, ports, c)] + ResponseOn(port, responses(c))
    {
      hide Times;
    }

    /** What a response adds to a port's link. */
    ghost function ResponseOn(port: nat, r: Option<Response>): seq<nat>
      requires 0 < ports
    {
      if r.Some? && port == Times(r.value.core, ports) + channel(r.value.access) % ports then [r.value.access] else []
    }

    lemma AnsweredAt(pushed: seq<seq<seq<nat>>>, c: nat, r: Option<Response>, i: nat, port: nat)
      requires 0 < ports && |pushed| == Times(cores, ports) + memories && c < memories && i < memories
      requires forall d | 0 <= d < |pushed| :: |pushed[d]| == |pushed|
      requires (r.Some? ==> r.value.core < cores) && port < Times(cores, ports)
      ensures |Answered(pushed, c, r)| == |pushed| && |Answered(pushed, c, r)[port]| == |pushed|
      ensures Answered(pushed, c, r)[port][Destination(cores, ports, i)] ==
                pushed[port][Destination(cores, ports, i)] + if i == c then ResponseOn(port, r) else []
    {
      hide Times;
      if r.Some? {
        PortBelow(r.value.core, channel(r.value.access) % ports, ports, cores);
      }
      var was := pushed[port][Times(cores, ports) + i];
      assert was + [] == was;
    }

    /** A core has handed out one request a port, in its turn, as long as it had any. */
    ghost predicate HandsOut(s: State, handed: seq<nat>, s': State, handed': seq<nat>) {
      exists out: seq<nat> :: Turns(s, ports, out, s') && handed' == handed + out
    }

    lemma HandedOut(s: State, handed: seq<nat>, s': State, handed': seq<nat>, out: seq<nat>)
      requires Turns(s, ports, out, s') && handed' == handed + out
      ensures HandsOut(s, handed, s', handed')
    {}
  }

  lemma BroughtNext(arrivals: seq<Arrival>, n: nat)
    requires n < |arrivals|
    ensures Brought(arrivals[..n + 1]) == Brought(arrivals[..n]) + [arrivals[n].access]
  {}

  lemma PortBelow(core: nat, low: nat, ports: nat, cores: nat)
    requires core < cores && low < ports
    ensures Times(core, ports) + low < Times(cores, ports)
  {
    SplitLess(core, low, ports, cores);
  }

  lemma SamePort(core: nat, ports: nat, channel: nat)
    requires 0 < ports
    ensures Port(core, ports, 0, channel, true) == Times(core, ports) + channel % ports
    ensures forall tried: nat :: Port(core, ports, tried, channel, true) == Port(core, ports, 0, channel, true)
  {}
}
