/** Running the operators of a model: each once, after everything it reads has been made. */
module Dataflow {
  import opened Collections

  /** Tensors and operators by number: what each operator reads and writes, which operators
      read each tensor, which tensors are there from the start, and a rank that grows from
      producer to consumer. */
  datatype Graph = Graph(inputs: seq<seq<nat>>, outputs: seq<seq<nat>>, children: seq<seq<nat>>, given: set<nat>,
                         rank: seq<nat>)
  {
    function Ops(): nat {
      |inputs|
    }

    predicate Makes(op: nat, t: nat) {
      op < |outputs| && t in outputs[op]
    }

    predicate Reads(op: nat, t: nat) {
      op < |inputs| && t in inputs[op]
    }

    ghost predicate WellFormed() {
      && |inputs| == |outputs| == |rank|
      && (forall op: nat, t: nat :: Reads(op, t) ==> t < |children| && op in children[t])
      && (forall op: nat, t: nat | t < |children| && op in children[t] :: Reads(op, t))
      && (forall op: nat, t: nat :: Makes(op, t) ==> t < |children| && t !in given)
      && (forall p: nat, q: nat, t: nat :: Makes(p, t) && Makes(q, t) ==> p == q)
      && (forall t: nat | t < |children| && t !in given :: exists p: nat :: p < Ops() && Makes(p, t))
      && (forall p: nat, op: nat, t: nat :: Makes(p, t) && Reads(op, t) ==> rank[p] < rank[op])
    }
  }

  /** Everything operator op reads is there. */
  predicate Fed(g: Graph, produced: set<nat>, op: nat) {
    op < |g.inputs| && forall i | 0 <= i < |g.inputs[op]| :: g.inputs[op][i] in produced
  }

  /** What is produced is what was given and what finished operators made. */
  ghost predicate ProducedAt(g: Graph, produced: set<nat>, finished: set<nat>, t: nat) {
    t in produced <==> t in g.given || exists p: nat :: p in finished && g.Makes(p, t)
  }

  /** An operator is waiting to run or has been started exactly when it is fed, never both. */
  ghost predicate OpAt(g: Graph, produced: set<nat>, finished: set<nat>, executable: seq<nat>, started: seq<nat>,
                       op: nat) {
    && ((op in executable || op in started) <==> Fed(g, produced, op))
    && !(op in executable && op in started)
    && (op in finished ==> op in started && op < g.Ops())
  }

  ghost predicate Inv(g: Graph, produced: set<nat>, finished: set<nat>, executable: seq<nat>, started: seq<nat>) {
    && g.WellFormed() && NoDuplicates(executable) && NoDuplicates(started)
    && (forall t: nat :: ProducedAt(g, produced, finished, t))
    && (forall op: nat :: OpAt(g, produced, finished, executable, started, op))
  }

  // ---- Nothing waits for ever ----

  /** If nothing is waiting to run and everything started has finished, all operators have. */
  lemma {:induction false} AllFinished(g: Graph, produced: set<nat>, finished: set<nat>, started: seq<nat>, op: nat)
    requires Inv(g, produced, finished, [], started) && (forall o | o in started :: o in finished) && op < g.Ops()
    ensures op in finished
    decreases g.rank[op]
  {
    assert OpAt(g, produced, finished, [], started, op);
    forall i | 0 <= i < |g.inputs[op]| ensures g.inputs[op][i] in produced {
      var t := g.inputs[op][i];
      assert ProducedAt(g, produced, finished, t);
      assert g.Reads(op, t);
      if t !in g.given {
        var p: nat :| p < g.Ops() && g.Makes(p, t);
        AllFinished(g, produced, finished, started, p);
      }
    }
  }

  /** An operator all of whose inputs are there has all its producers finished. */
  lemma ProducersFinished(g: Graph, produced: set<nat>, finished: set<nat>, executable: seq<nat>, started: seq<nat>,
                          op: nat, p: nat, t: nat)
    requires Inv(g, produced, finished, executable, started) && (op in executable || op in started)
    requires op < g.Ops() && t in g.inputs[op] && g.Makes(p, t)
    ensures p in finished
  {
    assert OpAt(g, produced, finished, executable, started, op);
    assert ProducedAt(g, produced, finished, t);
    var i :| 0 <= i < |g.inputs[op]| && g.inputs[op][i] == t;
    assert t in produced;
    assert t !in g.given;
    var q: nat :| q in finished && g.Makes(q, t);
    assert p == q;
  }

  class Model {
    const g: Graph
    var produced: set<nat>
    var finished: set<nat>
    var executable: seq<nat>
    ghost var started: seq<nat>

    ghost predicate Valid()
      reads this
    {
      Inv(g, produced, finished, executable, started)
    }

    constructor (g: Graph)
      requires g.WellFormed()
      ensures Valid() && this.g == g && finished == {} && started == []
    {
      this.g := g;
      produced, finished, started := g.given, {}, [];
      var ready: seq<nat> := [];
      for op := 0 to |g.inputs|
        invariant NoDuplicates(ready)
        invariant forall o: nat :: o in ready <==> o < op && Fed(g, g.given, o)
      {
        var fed := IsFed(g, g.given, op);
        if fed { ready := ready + [op]; }
      }
      executable := ready;
      new;
      forall t: nat ensures ProducedAt(g, produced, finished, t) {}
      forall op: nat ensures OpAt(g, produced, finished, executable, started, op) {}
    }

    method CheckExecutable(op: nat) returns (r: bool)
      requires op < g.Ops()
      ensures r == Fed(g, produced, op)
    {
      r := IsFed(g, produced, op);
    }

    method CheckFinish() returns (finish: bool)
      ensures finish <==> forall op: nat | op < g.Ops() :: op in finished
    {
      finish := true;
      for op := 0 to |g.inputs|
        invariant finish <==> forall o: nat | o < op :: o in finished
      {
        finish := finish && op in finished;
      }
    }

    /** Takes the operator that has waited longest. */
    method GetExecutable() returns (found: bool, op: nat)
      requires Valid()
      modifies this`executable, this`started
      ensures Valid() && found == (old(executable) != [])
      ensures found ==> op == old(executable)[0] && executable == old(executable)[1..] && started == old(started) + [op]
      ensures found ==> op !in old(started) && op < g.Ops() && op !in finished
      ensures found ==> forall p: nat, t: nat | t in g.inputs[op] && g.Makes(p, t) :: p in finished
      ensures !found ==> executable == old(executable) && started == old(started)
    {
      found, op := executable != [], 0;
      if found {
        op := executable[0];
        assert OpAt(g, produced, finished, executable, started, op);
        forall p: nat, t: nat | t in g.inputs[op] && g.Makes(p, t) ensures p in finished {
          ProducersFinished(g, produced, finished, executable, started, op, p, t);
        }
        Started(g, produced, finished, executable, started);
        started := started + [op];
        executable := executable[1..];
      }
    }

    /** Operator op is done: what it made is there, and readers with nothing left to wait for
        join the waiting, once each. */
    method SetLayerFinish(op: nat)
      requires Valid() && op in started && op !in finished
      modifies this`produced, this`finished, this`executable
      ensures Valid() && finished == old(finished) + {op}
      ensures old(executable) <= executable
    {
      assert OpAt(g, produced, finished, executable, started, op);
      ghost var produced0, executable0 := produced, executable;
      SetFinish(op);
      var children := GetChildren(op);
      for i := 0 to |children|
        modifies this`executable
        invariant Joining(g, produced0, produced, finished, executable0, executable, started, op)
        invariant forall j | 0 <= j < i && Fed(g, produced, children[j]) :: children[j] in executable
      {
        var child := children[i];
        assert child in children;
        Child(g, produced0, produced, finished, executable0, executable, started, op, child);
        var fed := CheckExecutable(child);
        if fed && child !in executable {
          executable := executable + [child];
        }
      }
      Joined(g, produced0, produced, finished, executable0, executable, started, op, children);
    }

    method SetFinish(op: nat)
      requires op < |g.outputs|
      modifies this`produced, this`finished
      ensures finished == old(finished) + {op}
      ensures forall t: nat :: t in produced <==> t in old(produced) || g.Makes(op, t)
    {
      for i := 0 to |g.outputs[op]|
        invariant finished == old(finished)
        invariant forall t: nat :: t in produced <==> t in old(produced) || t in g.outputs[op][..i]
      {
        produced := produced + {g.outputs[op][i]};
      }
      assert g.outputs[op][..|g.outputs[op]|] == g.outputs[op];
      finished := finished + {op};
    }

    method GetChildren(op: nat) returns (children: seq<nat>)
      requires g.WellFormed() && op < g.Ops()
      ensures forall c :: c in children <==>
                exists t: nat :: t in g.outputs[op] && t < |g.children| && c in g.children[t]
    {
      children := [];
      for i := 0 to |g.outputs[op]|
        invariant forall c ::
                    c in children <==>
                      exists t: nat :: t in g.outputs[op][..i] && t < |g.children| && c in g.children[t]
      {
        var t := g.outputs[op][i];
        assert g.Makes(op, t);
        ghost var before := children;
        assert g.outputs[op][..i + 1] == g.outputs[op][..i] + [t];
        children := children + g.children[t];
        forall c
          ensures c in children <==>
                    exists u: nat :: u in g.outputs[op][..i + 1] && u < |g.children| && c in g.children[u]
        {
          assert c in children <==> c in before || c in g.children[t];
        }
      }
      assert g.outputs[op][..|g.outputs[op]|] == g.outputs[op];
    }
  }

  method IsFed(g: Graph, produced: set<nat>, op: nat) returns (r: bool)
    requires op < g.Ops()
    ensures r == Fed(g, produced, op)
  {
    r := true;
    for i := 0 to |g.inputs[op]|
      invariant r <==> forall j | 0 <= j < i :: g.inputs[op][j] in produced
    {
      r := r && g.inputs[op][i] in produced;
    }
  }

  lemma Started(g: Graph, produced: set<nat>, finished: set<nat>, executable: seq<nat>, started: seq<nat>)
    requires Inv(g, produced, finished, executable, started) && executable != []
    ensures Inv(g, produced, finished, executable[1..], started + [executable[0]])
  {
    var op := executable[0];
    assert executable == [op] + executable[1..];
    assert OpAt(g, produced, finished, executable, started, op);
    forall o: nat ensures OpAt(g, produced, finished, executable[1..], started + [op], o) {
      assert OpAt(g, produced, finished, executable, started, o);
    }
  }

  /** While the children of a finished operator are looked at: those waiting are the ones
      that waited before and readers that are fed only now. */
  ghost predicate Joining(g: Graph, produced0: set<nat>, produced: set<nat>, finished: set<nat>,
                          executable0: seq<nat>, executable: seq<nat>, started: seq<nat>, op: nat)
  {
    && op in finished && op < g.Ops() && Inv(g, produced0, finished - {op}, executable0, started)
    && (forall t: nat :: t in produced <==> t in produced0 || g.Makes(op, t))
    && NoDuplicates(executable) && executable0 <= executable
    && (forall o: nat :: o in executable ==> o in executable0 || (Fed(g, produced, o) && !Fed(g, produced0, o)))
  }

  /** A reader of a finished operator was not fed before, so it has neither waited nor run. */
  lemma Child(g: Graph, produced0: set<nat>, produced: set<nat>, finished: set<nat>,
              executable0: seq<nat>, executable: seq<nat>, started: seq<nat>, op: nat, child: nat)
    requires Joining(g, produced0, produced, finished, executable0, executable, started, op)
    requires exists t: nat :: t in g.outputs[op] && t < |g.children| && child in g.children[t]
    ensures child < g.Ops() && !Fed(g, produced0, child)
  {
    var t: nat :| t in g.outputs[op] && t < |g.children| && child in g.children[t];
    assert ProducedAt(g, produced0, finished - {op}, t);
    assert g.Makes(op, t) && g.Reads(child, t);
    assert t !in produced0;
    var i :| 0 <= i < |g.inputs[child]| && g.inputs[child][i] == t;
  }

  lemma Joined(g: Graph, produced0: set<nat>, produced: set<nat>, finished: set<nat>,
               executable0: seq<nat>, executable: seq<nat>, started: seq<nat>, op: nat, children: seq<nat>)
    requires Joining(g, produced0, produced, finished, executable0, executable, started, op) && op in started
    requires forall c ::
               c in children <==>
                 exists t: nat :: t in g.outputs[op] && t < |g.children| && c in g.children[t]
    requires forall j | 0 <= j < |children| && Fed(g, produced, children[j]) :: children[j] in executable
    ensures Inv(g, produced, finished, executable, started)
  {
    forall t: nat ensures ProducedAt(g, produced, finished, t) {
      assert ProducedAt(g, produced0, finished - {op}, t);
    }
    forall o: nat ensures OpAt(g, produced, finished, executable, started, o) {
      JoinedAt(g, produced0, produced, finished, executable0, executable, started, op, children, o);
    }
  }

  lemma JoinedAt(g: Graph, produced0: set<nat>, produced: set<nat>, finished: set<nat>,
                 executable0: seq<nat>, executable: seq<nat>, started: seq<nat>, op: nat, children: seq<nat>, o: nat)
    requires Joining(g, produced0, produced, finished, executable0, executable, started, op) && op in started
    requires forall c ::
               c in children <==>
                 exists t: nat :: t in g.outputs[op] && t < |g.children| && c in g.children[t]
    requires forall j | 0 <= j < |children| && Fed(g, produced, children[j]) :: children[j] in executable
    ensures OpAt(g, produced, finished, executable, started, o)
  {
    assert OpAt(g, produced0, finished - {op}, executable0, started, o);
    if Fed(g, produced, o) && !Fed(g, produced0, o) {
      var i :| 0 <= i < |g.inputs[o]| && g.inputs[o][i] !in produced0;
      var t := g.inputs[o][i];
      assert t in produced && g.Reads(o, t);
      assert g.Makes(op, t) && o in g.children[t];
      assert o in children;
    }
  }
}
