/** The speculative-decoding scheduler with its fields, updated in place. */
module SpecDecScheduler {
  import opened Collections
  import opened SpecDecModel
  import opened SpecDec

  // ---- Requests from the trace ----

  /** A line of the request trace: time since the line before, prompt, tokens to generate,
      and rows already cached. */
  datatype TraceRow = TraceRow(time: nat, prompt: nat, generate: nat, cached: nat)

  function Arrival(rows: seq<TraceRow>, n: nat): nat
    requires n <= |rows|
  {
    if n == 0 then 0 else Arrival(rows, n - 1) + rows[n - 1].time
  }

  function Parsed(rows: seq<TraceRow>, i: nat): Request
    requires i < |rows|
  {
    var row := rows[i];
    Request(i, Arrival(rows, i + 1), false, false,
            row.prompt, row.cached, row.cached + row.prompt + row.generate, 0, 0, 0)
  }

  method ParseTrace(rows: seq<TraceRow>) returns (queue: seq<Request>)
    ensures |queue| == |rows|
    ensures forall i | 0 <= i < |queue| :: queue[i] == Parsed(rows, i)
    ensures forall i | 0 <= i < |queue| ::
              && queue[i].id == i && queue[i].promptLength == rows[i].prompt && queue[i].currentLength == rows[i].cached
              && queue[i].targetLength == rows[i].cached + rows[i].prompt + rows[i].generate
              && queue[i].requestTime == (if i == 0 then 0 else queue[i - 1].requestTime) + rows[i].time
  {
    queue := [];
    var offset := 0;
    for i := 0 to |rows|
      invariant |queue| == i && offset == Arrival(rows, i)
      invariant forall j | 0 <= j < i :: queue[j] == Parsed(rows, j)
    {
      var row := rows[i];
      offset := offset + row.time;
      queue := queue + [Request(i, offset, false, false,
                                row.prompt, row.cached, row.cached + row.prompt + row.generate, 0, 0, 0)];
    }
  }

  // ---- Ids in order ----

  /** ids lists exactly the given set, smallest first. */
  ghost predicate Ordered(ids: seq<nat>, all: set<nat>) {
    && (forall i, j | 0 <= i < j < |ids| :: ids[i] < ids[j])
    && (forall id: nat :: id in all <==> id in ids)
  }

  method Least(s: set<nat>) returns (m: nat)
    requires s != {}
    ensures m in s && forall x | x in s :: m <= x
  {
    m :| m in s;
    var rest := s - {m};
    while rest != {}
      invariant rest < s && m in s
      invariant forall x | x in s :: x in rest || m <= x
      decreases rest
    {
      var x :| x in rest;
      if x < m { m := x; }
      rest := rest - {x};
    }
  }

  method InOrder(all: set<nat>) returns (ids: seq<nat>)
    ensures Ordered(ids, all)
  {
    ids := [];
    var rest := all;
    while rest != {}
      invariant forall i, j | 0 <= i < j < |ids| :: ids[i] < ids[j]
      invariant forall id: nat :: id in all <==> (id in ids || id in rest)
      invariant forall i, x | 0 <= i < |ids| && x in rest :: ids[i] < x
      decreases rest
    {
      var m := Least(rest);
      ids := ids + [m];
      rest := rest - {m};
    }
  }

  lemma {:induction false} OrderedLength(ids: seq<nat>, all: set<nat>)
    requires Ordered(ids, all)
    ensures |ids| == |all|
  {
    if ids == [] {
      assert all == {};
    } else {
      var n := |ids| - 1;
      assert forall id: nat :: id in all - {ids[n]} <==> id in ids[..n];
      OrderedLength(ids[..n], all - {ids[n]});
    }
  }

  // ---- Launching, on values ----

  function NotStarted(active: map<nat, Request>): set<nat> {
    set id | id in active && !active[id].genPhase
  }

  predicate Speculates(c: Config, batch: nat) {
    0 < c.k && (c.disableBatch == 0 || batch <= c.disableBatch)
  }

  /** The step a batch starts: speculative, with the counters it starts from, or plain. */
  function StepStart(c: Config, s: State, batch: seq<nat>): State {
    if Speculates(c, |batch|) then s.(batch := batch, draftStep := 0, next := if c.hasDraft then Draft else Verify)
    else s.(batch := batch)
  }

  ghost predicate Sends(c: Config, s: State, phase: Phase, s': State) {
    (forall i | 0 <= i < |s.batch| :: s.batch[i] in s.active) && s' == Launched(c, s, phase)
  }

  /** What launching does: first prefill whoever is new, all at once; otherwise start a step
      for everybody; within a prefill or a step, go on with the batch it began with. */
  ghost predicate LaunchStep(c: Config, s: State, s': State) {
    if s.active == map[] then s' == s
    else if s.next != Free then Sends(c, s, s.next, s')
    else if NotStarted(s.active) != {} then
      Ordered(s'.batch, NotStarted(s.active)) && Sends(c, s.(batch := s'.batch), PrefillTarget, s')
    else
      && Ordered(s'.batch, s.active.Keys)
      && Sends(c, StepStart(c, s, s'.batch),
               if Speculates(c, |s'.batch|) then StepStart(c, s, s'.batch).next else Plain, s')
  }

  /** The phase a launch step sends out, and the state it sends it from. */
  ghost predicate Sound(c: Config, total: nat, s: State, phase: Phase) {
    && Inv(c, total, s) && s.phase == Free && phase != Free
    && s.batch != [] && BatchOk(s.active, s.batch) && BatchFits(s.(phase := phase))
    && (phase == s.next || (s.next == Free && (phase == PrefillTarget || phase == Plain)))
  }

  lemma OrderedBatch(c: Config, total: nat, s: State, batch: seq<nat>, all: set<nat>)
    requires Inv(c, total, s) && Ordered(batch, all) && all <= s.active.Keys && all != {}
    ensures batch != [] && BatchOk(s.active, batch)
  {
    hide RequestOk;
    var x :| x in all;
    assert x in batch;
    forall i | 0 <= i < |batch| ensures batch[i] in s.active && s.active[batch[i]].id == batch[i] {
      assert batch[i] in all && At(c, total, s, batch[i]);
    }
  }

  lemma PrefillSound(c: Config, total: nat, s: State, batch: seq<nat>)
    requires Inv(c, total, s) && s.phase == Free && s.next == Free
    requires NotStarted(s.active) != {} && Ordered(batch, NotStarted(s.active))
    ensures Sound(c, total, s.(batch := batch), PrefillTarget)
    ensures Lefts(total, s.(batch := batch)) == Lefts(total, s) && Rank(c, s.(batch := batch)) == Rank(c, s)
  {
    hide RequestOk;
    var t := s.(batch := batch);
    OrderedBatch(c, total, s, batch, NotStarted(s.active));
    forall id: nat ensures At(c, total, t, id) && BatchAt(t.(phase := PrefillTarget), id) {
      assert At(c, total, s, id);
    }
    assert Lefts(total, t) == Lefts(total, s);
  }

  lemma StepAt(c: Config, total: nat, s: State, batch: seq<nat>, id: nat)
    requires At(c, total, s, id) && s.phase == Free && s.next == Free
    requires NotStarted(s.active) == {} && Ordered(batch, s.active.Keys)
    ensures var t := StepStart(c, s, batch);
            At(c, total, t, id) && BatchAt(t.(phase := Plain), id) && BatchAt(t.(phase := t.next), id)
    ensures |s.queue| <= total ==> LeftAt(total, StepStart(c, s, batch), id) == LeftAt(total, s, id)
  {
    hide RequestOk, RetiredOk;
    assert id in s.active ==> id !in NotStarted(s.active);
  }

  lemma StepSound(c: Config, total: nat, s: State, batch: seq<nat>)
    requires Inv(c, total, s) && s.phase == Free && s.next == Free && s.active != map[]
    requires NotStarted(s.active) == {} && Ordered(batch, s.active.Keys)
    ensures var t := StepStart(c, s, batch);
            && Sound(c, total, t, if Speculates(c, |batch|) then t.next else Plain)
            && Lefts(total, t) == Lefts(total, s) && Rank(c, t) <= Rank(c, s)
  {
    hide ActiveAt, RetiredAt, QueuedAt, BatchAt;
    var t := StepStart(c, s, batch);
    OrderedBatch(c, total, s, batch, s.active.Keys);
    forall id: nat ensures At(c, total, t, id) && BatchAt(t.(phase := Plain), id) && BatchAt(t.(phase := t.next), id) {
      assert At(c, total, s, id);
      StepAt(c, total, s, batch, id);
    }
    StepLeft(c, total, s, batch);
  }

  lemma StepLeft(c: Config, total: nat, s: State, batch: seq<nat>)
    requires Inv(c, total, s) && s.phase == Free && s.next == Free
    requires NotStarted(s.active) == {} && Ordered(batch, s.active.Keys)
    ensures Lefts(total, StepStart(c, s, batch)) == Lefts(total, s)
  {
    hide ActiveAt, RetiredAt, QueuedAt, BatchAt, LeftAt;
    var t := StepStart(c, s, batch);
    forall id: nat | id < total ensures LeftAt(total, StepStart(c, s, batch), id) == LeftAt(total, s, id) {
      assert At(c, total, s, id);
      StepAt(c, total, s, batch, id);
    }
  }

  lemma NextSound(c: Config, total: nat, s: State)
    requires Inv(c, total, s) && s.phase == Free && s.next != Free
    ensures Sound(c, total, s, s.next)
  {
    hide RequestOk;
    forall id: nat ensures BatchAt(s.(phase := s.next), id) {
      assert At(c, total, s, id);
    }
  }

  /** Launching keeps the invariant and sends a model out whenever somebody is active. */
  lemma LaunchStepKeeps(c: Config, total: nat, s: State, s': State)
    requires Inv(c, total, s) && s.phase == Free && LaunchStep(c, s, s')
    ensures Inv(c, total, s') && Lefts(total, s') == Lefts(total, s) && Rank(c, s') <= Rank(c, s)
    ensures s.active != map[] ==> s'.phase != Free && s'.modelQueue != []
  {
    hide At, PhasesOk, FlightOk, BatchFits, LeftAt, Rank, BatchInputs, Running;
    if s.active != map[] {
      if s.next != Free {
        NextSound(c, total, s);
        LaunchedKeeps(c, total, s, s.next);
      } else if NotStarted(s.active) != {} {
        PrefillSound(c, total, s, s'.batch);
        LaunchedKeeps(c, total, s.(batch := s'.batch), PrefillTarget);
      } else {
        StepSound(c, total, s, s'.batch);
        var t := StepStart(c, s, s'.batch);
        LaunchedKeeps(c, total, t, if Speculates(c, |s'.batch|) then t.next else Plain);
      }
    }
  }

  /** Admitting: the front of the queue joins while it has arrived and there is room. */
  ghost function Admitted(c: Config, cycle: nat, s: State): State
    decreases |s.queue|
  {
    if s.queue == [] || cycle < s.queue[0].requestTime || (0 < c.maxBatch && c.maxBatch <= |s.active|) then s
    else Admitted(c, cycle, AdmitOne(c, s))
  }

  lemma {:induction false} AdmittedKeeps(c: Config, total: nat, cycle: nat, s: State)
    requires Inv(c, total, s) && s.phase == Free && s.next == Free
    ensures var s' := Admitted(c, cycle, s);
            && Inv(c, total, s') && Lefts(total, s') == Lefts(total, s) && s'.phase == s'.next == Free
            && |s'.queue| <= |s.queue| && (s.active != map[] ==> s'.active != map[])
            && (s'.active == map[] ==> s' == s && (s.queue == [] || cycle < s.queue[0].requestTime))
    decreases |s.queue|
  {
    hide At, PhasesOk, FlightOk, LeftAt;
    if !(s.queue == [] || cycle < s.queue[0].requestTime || (0 < c.maxBatch && c.maxBatch <= |s.active|)) {
      AdmitOneKeeps(c, total, s);
      assert s.queue[0].id in AdmitOne(c, s).active;
      AdmittedKeeps(c, total, cycle, AdmitOne(c, s));
    }
  }

  /** Those who join are the front of the queue, in order; all of them have arrived; and nobody
      more joins only because nobody waits, the next has not arrived, or the limit is met. */
  ghost predicate Joins(c: Config, cycle: nat, s: State, s': State) {
    && |s'.queue| <= |s.queue|
    && var n := |s.queue| - |s'.queue|;
    && s'.queue == s.queue[n..]
    && (forall i | 0 <= i < n :: s.queue[i].requestTime <= cycle)
    && (forall id: nat :: id in s'.active <==> id in s.active || exists i :: 0 <= i < n && s.queue[i].id == id)
    && (forall id: nat | id in s.active :: id in s'.active && s'.active[id] == s.active[id])
    && (0 < c.maxBatch && |s.active| <= c.maxBatch ==> |s'.active| <= c.maxBatch)
    && (s'.queue == [] || cycle < s'.queue[0].requestTime || (0 < c.maxBatch && c.maxBatch <= |s'.active|))
  }

  lemma AdmitOneAdds(c: Config, total: nat, s: State)
    requires Inv(c, total, s) && s.queue != []
    ensures var t, id := AdmitOne(c, s), s.queue[0].id;
            t.queue == s.queue[1..] && id !in s.active && t.active.Keys == s.active.Keys + {id} &&
                t.active - {id} == s.active
  {
    hide RequestOk, RetiredOk, BatchAt, PhasesOk, FlightOk, StageOf;
    var id := s.queue[0].id;
    assert At(c, total, s, total - |s.queue|);
    assert id == total - |s.queue|;
    MapAdds(s.active, id, AdmitOne(c, s).active[id]);
  }

  lemma MapAdds(m: map<nat, Request>, id: nat, r: Request)
    requires id !in m
    ensures m[id := r].Keys == m.Keys + {id} && m[id := r] - {id} == m
  {}

  lemma JoinedIds(q: seq<Request>, n: nat, id: nat)
    requires 0 < n <= |q|
    ensures (exists i :: 0 <= i < n && q[i].id == id) <==>
              q[0].id == id || exists i :: 0 <= i < n - 1 && q[1..][i].id == id
  {
    if i :| 0 <= i < n && q[i].id == id {
      assert i != 0 ==> q[1..][i - 1].id == id;
    }
    if i :| 0 <= i < n - 1 && q[1..][i].id == id {
      assert q[i + 1].id == id;
    }
  }

  lemma JoinsMore(c: Config, cycle: nat, s: State, t: State, s': State)
    requires s.queue != [] && s.queue[0].requestTime <= cycle && (0 < c.maxBatch ==> |s.active| < c.maxBatch)
    requires t.queue == s.queue[1..] && s.queue[0].id !in s.active && t.active - {s.queue[0].id} == s.active
    requires t.active.Keys == s.active.Keys + {s.queue[0].id} && Joins(c, cycle, t, s')
    ensures Joins(c, cycle, s, s')
  {
    var n := |s.queue| - |s'.queue|;
    assert |t.active.Keys| == |s.active.Keys| + 1;
    forall id: nat ensures id in s'.active <==> id in s.active || exists i :: 0 <= i < n && s.queue[i].id == id {
      JoinedIds(s.queue, n, id);
    }
    forall i | 0 <= i < n ensures s.queue[i].requestTime <= cycle {
      if 0 < i { assert s.queue[i] == t.queue[i - 1]; }
    }
    forall id: nat | id in s.active ensures id in s'.active && s'.active[id] == s.active[id] {
      assert id in t.active && t.active[id] == (t.active - {s.queue[0].id})[id];
    }
  }

  lemma {:induction false} AdmittedJoins(c: Config, total: nat, cycle: nat, s: State)
    requires Inv(c, total, s) && s.phase == Free && s.next == Free
    ensures Joins(c, cycle, s, Admitted(c, cycle, s))
    decreases |s.queue|
  {
    if !(s.queue == [] || cycle < s.queue[0].requestTime || (0 < c.maxBatch && c.maxBatch <= |s.active|)) {
      hide Joins;
      AdmitOneKeeps(c, total, s);
      AdmitOneAdds(c, total, s);
      AdmittedJoins(c, total, cycle, AdmitOne(c, s));
      JoinsMore(c, cycle, s, AdmitOne(c, s), Admitted(c, cycle, s));
    }
  }

  lemma {:induction false} AdmittedOrigins(c: Config, origin: seq<Request>, cycle: nat, s: State)
    requires Inv(c, |origin|, s) && s.phase == Free && s.next == Free && Origins(origin, s)
    ensures Origins(origin, Admitted(c, cycle, s))
    decreases |s.queue|
  {
    hide At, PhasesOk, FlightOk, OriginAt;
    if !(s.queue == [] || cycle < s.queue[0].requestTime || (0 < c.maxBatch && c.maxBatch <= |s.active|)) {
      AdmitOneKeeps(c, |origin|, s);
      AdmitOneOrigins(c, origin, s);
      AdmittedOrigins(c, origin, cycle, AdmitOne(c, s));
    }
  }

  lemma LaunchStepOrigins(c: Config, origin: seq<Request>, s: State, s': State)
    requires LaunchStep(c, s, s') && Origins(origin, s)
    ensures Origins(origin, s')
  {
    hide Launched, Ordered;
    var t := if s.active == map[] || s.next != Free then s
             else if NotStarted(s.active) != {} then s.(batch := s'.batch) else StepStart(c, s, s'.batch);
    forall id: nat ensures OriginAt(origin, t, id) { assert OriginAt(origin, s, id); }
    if s.active != map[] {
      LaunchedOrigins(c, origin, t, if s.next != Free then s.next else if NotStarted(s.active) != {} then PrefillTarget
                                    else if Speculates(c, |s'.batch|) then t.next else Plain);
    }
  }

  /** What a launch sends out: it goes on with what it has begun; otherwise it prefills as long
      as somebody is new; otherwise it speculates, with the draft model if there is one, unless
      there are no draft tokens or more are active than the limit for speculation, and then it
      takes a plain step.  A prefill is for all who are new, a step for all who are active. */
  lemma LaunchSends(c: Config, total: nat, s: State, s': State)
    requires Inv(c, total, s) && s.phase == Free && LaunchStep(c, s, s') && s.active != map[]
    ensures s'.phase == if s.next != Free then s.next
                        else if exists id: nat :: id in s.active && !s.active[id].genPhase then PrefillTarget
                        else if c.k == 0 || 0 < c.disableBatch < |s.active| then Plain
                        else if c.hasDraft then Draft else Verify
    ensures s.next == Free ==>
              forall id: nat :: id in s'.batch <==>
                id in s.active && (s'.phase == PrefillTarget ==> !s.active[id].genPhase)
    ensures s.next != Free ==> s'.batch == s.batch
  {
    hide BatchInputs, At, PhasesOk, FlightOk;
    if s.next == Free {
      if NotStarted(s.active) != {} {
        var x :| x in NotStarted(s.active);
        assert x in s.active && !s.active[x].genPhase;
      } else {
        forall id: nat | id in s.active ensures s.active[id].genPhase { assert id !in NotStarted(s.active); }
        OrderedLength(s'.batch, s.active.Keys);
        assert |s.active| == |s.active.Keys|;
      }
    }
  }

  // ---- Ending a launch request by request ----

  /** The active requests when the first i of the batch have been dealt with. */
  function Stepped(c: Config, s: State, acc: map<nat, nat>, i: nat): map<nat, Request>
    requires i <= |s.batch|
  {
    map id | id in s.active :: SteppedOne(c, s, acc, i, id)
  }

  function SteppedOne(c: Config, s: State, acc: map<nat, nat>, i: nat, id: nat): Request
    requires i <= |s.batch| && id in s.active
  {
    var r := s.active[id];
    if id in s.batch[..i] then Finished(c, r, s.phase, s.draftStep, Accepted(acc, id))
    else if id in s.batch then r.(running := false)
    else r
  }

  lemma SteppedNext(c: Config, s: State, acc: map<nat, nat>, acc': map<nat, nat>, i: nat)
    requires i < |s.batch| && BatchOk(s.active, s.batch)
    requires forall j | 0 <= j < i :: Accepted(acc, s.batch[j]) == Accepted(acc', s.batch[j])
    ensures var id := s.batch[i];
            && Stepped(c, s, acc, i)[id] == s.active[id].(running := false)
            && Stepped(c, s, acc', i + 1)
            == Stepped(c, s, acc, i)[id := Finished(c, s.active[id], s.phase, s.draftStep, Accepted(acc', id))]
  {
    hide Finished, Accepted;
    var id, m, m' := s.batch[i], Stepped(c, s, acc, i), Stepped(c, s, acc', i + 1);
    assert s.batch[..i + 1] == s.batch[..i] + [id] && id !in s.batch[..i];
    forall x | x in s.active && x != id ensures m'[x] == m[x] {
      assert x in s.batch[..i + 1] <==> x in s.batch[..i];
    }
    assert m'.Keys == m[id := m'[id]].Keys;
  }

  predicate AtTarget(r: Request) {
    r.targetLength <= r.currentLength
  }

  /** Those still active when the first i of the batch have been looked at for retirement. */
  function Kept(m: map<nat, Request>, batch: seq<nat>, i: nat): map<nat, Request>
    requires i <= |batch|
  {
    map id | id in m && !(id in batch[..i] && AtTarget(m[id])) :: m[id]
  }

  function Gone(m: map<nat, Request>, batch: seq<nat>, i: nat): map<nat, Request>
    requires i <= |batch|
  {
    map id | id in m && id in batch[..i] && AtTarget(m[id]) :: m[id]
  }

  lemma KeptNext(m: map<nat, Request>, batch: seq<nat>, i: nat)
    requires i < |batch| && NoDuplicates(batch) && batch[i] in m
    ensures var id := batch[i];
            && id in Kept(m, batch, i) && Kept(m, batch, i)[id] == m[id]
            && Kept(m, batch, i + 1) == (if AtTarget(m[id]) then Kept(m, batch, i) - {id} else Kept(m, batch, i))
            && Gone(m, batch, i + 1) == if AtTarget(m[id]) then Gone(m, batch, i)[id := m[id]] else Gone(m, batch, i)
  {
    var id := batch[i];
    assert batch[..i + 1] == batch[..i] + [id] && id !in batch[..i];
  }

  lemma SteppedAll(c: Config, s: State, acc: map<nat, nat>, id: nat)
    requires id in s.active
    ensures id in Stepped(c, s, acc, |s.batch|) && Stepped(c, s, acc, |s.batch|)[id] == After(c, s, acc, id)
  {
    assert s.batch[..|s.batch|] == s.batch;
  }

  lemma KeptNone(m: map<nat, Request>, batch: seq<nat>)
    ensures Kept(m, batch, 0) == m && Gone(m, batch, 0) == map[]
  {}

  lemma KeptChange(m: map<nat, Request>, batch: seq<nat>, i: nat, r: Request)
    requires i < |batch| && NoDuplicates(batch) && batch[i] in m
    ensures batch[i] in Kept(m, batch, i) && Kept(m, batch, i)[batch[i]] == m[batch[i]]
    ensures Kept(m[batch[i] := r], batch, i) == Kept(m, batch, i)[batch[i] := r]
    ensures Gone(m[batch[i] := r], batch, i) == Gone(m, batch, i)
  {
    assert batch[i] !in batch[..i];
  }

  /** The last state of the loops is the state the launch ends in. */
  lemma SteppedEnds(c: Config, s: State, acc: map<nat, nat>)
    requires !Retires(c, s.phase)
    ensures Ended(c, s, acc).active == Stepped(c, s, acc, |s.batch|) && Ended(c, s, acc).retired == s.retired
  {
    hide Finished, Accepted, LedgerThen, NextPhase, Stepped, After;
    var m := Stepped(c, s, acc, |s.batch|);
    assert m.Keys == s.active.Keys by { SteppedKeys(c, s, acc); }
    forall id | id in s.active ensures m[id] == After(c, s, acc, id) {
      SteppedAll(c, s, acc, id);
    }
  }

  lemma SteppedKeys(c: Config, s: State, acc: map<nat, nat>)
    ensures Stepped(c, s, acc, |s.batch|).Keys == s.active.Keys
  {}

  lemma KeptEnds(c: Config, s: State, acc: map<nat, nat>)
    requires Retires(c, s.phase)
    ensures var m := Stepped(c, s, acc, |s.batch|);
            && Ended(c, s, acc).active == Kept(m, s.batch, |s.batch|)
            && Ended(c, s, acc).retired == s.retired + Gone(m, s.batch, |s.batch|)
  {
    hide Finished, Accepted, LedgerThen, NextPhase, Stepped, After;
    var m := Stepped(c, s, acc, |s.batch|);
    assert m.Keys == s.active.Keys by { SteppedKeys(c, s, acc); }
    assert s.batch[..|s.batch|] == s.batch;
    forall id | id in s.active ensures m[id] == After(c, s, acc, id) &&
        (Leaves(c, s, acc, id) <==> id in s.batch && AtTarget(m[id])) {
      SteppedAll(c, s, acc, id);
    }
    var kept, gone := Kept(m, s.batch, |s.batch|), Gone(m, s.batch, |s.batch|);
    assert kept == Ended(c, s, acc).active;
    assert gone == map id | id in s.active && Leaves(c, s, acc, id) :: After(c, s, acc, id);
  }

  lemma FinishedIdle(c: Config, r: Request, phase: Phase, j: nat, a: nat)
    ensures Finished(c, r.(running := false), phase, j, a) == Finished(c, r, phase, j, a)
  {}

  /** The first i of the batch no longer running. */
  function Idle(active: map<nat, Request>, batch: seq<nat>, i: nat): map<nat, Request>
    requires i <= |batch|
  {
    map id | id in active :: if id in batch[..i] then active[id].(running := false) else active[id]
  }

  lemma IdleNext(active: map<nat, Request>, batch: seq<nat>, i: nat)
    requires i < |batch| && batch[i] in active
    ensures var id, m := batch[i], Idle(active, batch, i);
            id in m && Idle(active, batch, i + 1) == m[id := m[id].(running := false)]
  {
    assert batch[..i + 1] == batch[..i] + [batch[i]];
  }

  lemma IdleAll(c: Config, s: State, acc: map<nat, nat>)
    ensures Idle(s.active, s.batch, |s.batch|) == Stepped(c, s, acc, 0)
  {
    hide Finished;
    assert s.batch[..|s.batch|] == s.batch && s.batch[..0] == [];
  }

  /** A prefill without a draft model, in the two loops the code makes of it. */
  lemma PrefillInTwo(c: Config, s: State, i: nat)
    requires s.phase == PrefillTarget && !c.hasDraft && i <= |s.batch|
    ensures var grown := Stepped(c.(hasDraft := true), s, map[], |s.batch|);
            && grown == Stepped(c, s.(active := grown, phase := PrefillDraft), map[], 0)
            && Stepped(c, s.(active := grown, phase := PrefillDraft), map[], |s.batch|) ==
                 Stepped(c, s, map[], |s.batch|)
  {
    assert s.batch[..0] == [] && s.batch[..|s.batch|] == s.batch;
  }

  function Resized(c: Config, r: Request, draft: bool, rows: nat): Request {
    if draft then (if c.hasDraft then r.(draftLength := rows) else r) else r.(currentLength := rows)
  }

  // ---- The scheduler ----

  class Scheduler {
    const c: Config
    ghost const total: nat
    /** The requests as the trace gave them. */
    ghost const origin: seq<Request>
    const trace: seq<nat>

    var cycle: nat
    var queue: seq<Request>
    var active: map<nat, Request>
    var inModel: map<nat, seq<nat>>
    var modelQueue: seq<Model>
    var phase: Phase
    var next: Phase
    var batch: seq<nat>
    var draftStep: nat
    var launches: nat
    var acceptPos: nat

    ghost var ledger: map<nat, Ledger>
    ghost var flight: seq<LangInput>
    ghost var retired: map<nat, Request>

    ghost function Snap(): State
      reads this
    {
      State(queue, active, inModel, modelQueue, phase, next, batch, draftStep, launches, ledger, flight, retired)
    }

    ghost predicate Valid()
      reads this
    {
      Inv(c, total, Snap()) && |origin| == total && Origins(origin, Snap()) &&
          forall i | 0 <= i < |trace| :: trace[i] <= c.k
    }

    /** A fresh scheduler over a request trace; recorded accepted counts are clamped to k. */
    constructor (c: Config, rows: seq<TraceRow>, accepted: seq<nat>)
      ensures Valid() && this.c == c && total == |rows| && cycle == acceptPos == 0
      ensures Snap().active == map[] && queue == origin && forall i | 0 <= i < |rows| :: origin[i] == Parsed(rows, i)
      ensures |trace| == |accepted| &&
              forall i | 0 <= i < |trace| :: trace[i] == if accepted[i] < c.k then accepted[i] else c.k
    {
      var parsed := ParseTrace(rows);
      this.c := c;
      total, origin := |rows|, parsed;
      trace := seq(|accepted|, i requires 0 <= i < |accepted| => if accepted[i] < c.k then accepted[i] else c.k);
      cycle, queue, active, inModel, modelQueue := 0, parsed, map[], map[], [];
      phase, next, batch, draftStep, launches, acceptPos := Free, Free, [], 0, 0, 0;
      ledger, flight, retired := map[], [], map[];
      new;
      assert forall id: nat :: At(c, total, Snap(), id);
    }

    /** A launch is in flight exactly while its model waits or runs. */
    predicate Busy()
      reads this
    {
      modelQueue != [] || inModel != map[] || active != map[] || queue != []
    }

    method Admit()
      requires Valid() && phase == Free && next == Free
      modifies this`queue, this`active, this`ledger
      ensures Snap() == Admitted(c, cycle, old(Snap())) && Joins(c, cycle, old(Snap()), Snap())
    {
      ghost var s0 := Snap();
      while queue != [] && queue[0].requestTime <= cycle
        invariant Snap().phase == Free && Snap().next == Free && Inv(c, total, Snap())
        invariant Admitted(c, cycle, Snap()) == Admitted(c, cycle, s0)
        decreases |queue|
      {
        if 0 < c.maxBatch && c.maxBatch <= |active| { break; }
        AdmitOneKeeps(c, total, Snap());
        AdmitFront();
      }
      AdmittedJoins(c, total, cycle, s0);
    }

    method AdmitFront()
      requires queue != []
      modifies this`queue, this`active, this`ledger
      ensures Snap() == AdmitOne(c, old(Snap()))
    {
      var r := queue[0].(running := false, genPhase := false);
      if c.hasDraft {
        r := r.(draftLength := r.currentLength);
      }
      active := active[r.id := r];
      ledger := ledger[r.id := Ledger(r.currentLength, 0, 0, map[], map[], map[])];
      queue := queue[1..];
    }

    /** The sequences of one request, as each branch of the launch builds them. */
    method InputsFor(id: nat, phase: Phase) returns (inputs: seq<LangInput>)
      requires id in active && active[id].id == id && phase != Free
      ensures inputs == InputsOf(c, active[id], phase, draftStep)
    {
      var r := active[id];
      match phase {
        case PrefillTarget => inputs := [LangInput(id, r.promptLength, r.currentLength)];
        case PrefillDraft => inputs := [LangInput(id, r.promptLength, r.draftLength)];
        case Plain => inputs := [LangInput(id, 1, r.currentLength)];
        case Draft =>
          var want := r.currentLength + draftStep + 1;
          var width := if want > r.draftLength then want - r.draftLength else 1;
          inputs := [LangInput(id, width, r.draftLength)];
        case Verify =>
          if c.mqa {
            inputs := [LangInput(id, c.k + 1, r.currentLength)];
          } else {
            inputs := [];
            for i := 0 to c.k + 1
              invariant inputs == Singles(id, r.currentLength, i)
            {
              inputs := inputs + [LangInput(id, 1, r.currentLength + i)];
            }
          }
      }
    }

    method CollectInputs(phase: Phase) returns (inputs: seq<LangInput>)
      requires BatchOk(active, batch) && phase != Free
      ensures inputs == BatchInputs(c, active, batch, phase, draftStep)
    {
      inputs := [];
      for i := 0 to |batch|
        invariant inputs == BatchInputs(c, active, batch[..i], phase, draftStep)
      {
        assert batch[..i + 1][..i] == batch[..i];
        var own := InputsFor(batch[i], phase);
        inputs := inputs + own;
      }
      assert batch[..|batch|] == batch;
    }

    /** Marks the owners of the inputs running and lists them once each under the model. */
    method Register(inputs: seq<LangInput>)
      requires forall i | 0 <= i < |inputs| :: inputs[i].id in active
      requires inModel == map[] && inputs != []
      modifies this`active, this`inModel
      ensures active == Running(old(active), Distinct(inputs)) && inModel == map[launches := Distinct(inputs)]
    {
      ghost var active0 := active;
      var seen: set<nat> := {};
      for i := 0 to |inputs|
        invariant forall j | 0 <= j < |inputs| :: inputs[j].id in active0
        invariant active.Keys == active0.Keys
        invariant active == Running(active0, Distinct(inputs[..i]))
        invariant forall id: nat :: id in seen <==> id in Distinct(inputs[..i])
        invariant inModel == if i == 0 then map[] else map[launches := Distinct(inputs[..i])]
      {
        var id := inputs[i].id;
        assert inputs[..i + 1][..i] == inputs[..i];
        RunningNext(active0, inputs, i);
        active := active[id := active[id].(running := true)];
        if id !in seen {
          seen := seen + {id};
          inModel := inModel[launches := (if launches in inModel then inModel[launches] else []) + [id]];
        }
      }
      assert inputs[..|inputs|] == inputs;
    }

    method LaunchModel(inputs: seq<LangInput>, phase: Phase)
      requires BatchOk(active, batch) && batch != [] && phase != Free && inModel == map[] && modelQueue == []
      requires inputs == BatchInputs(c, active, batch, phase, draftStep)
      modifies this`active, this`inModel, this`phase, this`launches, this`modelQueue, this`flight
      ensures Snap() == Launched(c, old(Snap()), phase)
    {
      hide BatchInputs, Distinct, Running, InputsOf, BatchOk;
      OwnersActive(c, active, batch, phase, draftStep);
      BatchInputsDistinct(c, active, batch, phase, draftStep);
      ghost var s0 := Snap();
      Register(inputs);
      flight := inputs;
      this.phase := phase;
      modelQueue := modelQueue + [Model(launches, phase == PrefillDraft || phase == Draft, inputs)];
      launches := launches + 1;
      assert modelQueue == [LaunchedModel(Snap())];
      assert active == Running(s0.active, s0.batch);
    }

    method NewIds() returns (ids: seq<nat>)
      ensures Ordered(ids, NotStarted(active))
    {
      ids := InOrder(set id | id in active && !active[id].genPhase);
    }

    /** Every active request, up to the batch limit. */
    method Residents() returns (ids: seq<nat>)
      requires 0 < c.maxBatch ==> |active| <= c.maxBatch
      ensures Ordered(ids, active.Keys)
    {
      var all := InOrder(active.Keys);
      OrderedLength(all, active.Keys);
      ids := [];
      for i := 0 to |all|
        invariant ids == all[..i]
      {
        ids := ids + [all[i]];
        if 0 < c.maxBatch && c.maxBatch <= |ids| {
          assert i + 1 == |all| && all[..i + 1] == all;
          return;
        }
      }
      assert all[..|all|] == all;
    }

    /** Sends out the model of a phase for the current batch. */
    method Send(phase: Phase)
      requires BatchOk(active, batch) && batch != [] && phase != Free && inModel == map[] && modelQueue == []
      modifies this`active, this`inModel, this`phase, this`launches, this`modelQueue, this`flight
      ensures Snap() == Launched(c, old(Snap()), phase)
    {
      var inputs := CollectInputs(phase);
      LaunchModel(inputs, phase);
    }

    /** Prefills anything newly admitted, all in one model. */
    method StartPrefill() returns (sent: bool)
      requires Valid() && phase == Free && next == Free && active != map[]
      modifies this`active, this`inModel, this`phase, this`batch, this`launches, this`modelQueue, this`flight
      ensures sent ==> LaunchStep(c, old(Snap()), Snap())
      ensures !sent ==> NotStarted(active) == {} && Snap() == old(Snap()).(batch := [])
    {
      hide At, NoDuplicates, BatchFits, Lefts, Rank, PhasesOk, Launched;
      ghost var s0 := Snap();
      batch := NewIds();
      sent := batch != [];
      if sent {
        assert NotStarted(active) != {} by { assert batch[0] in NotStarted(active); }
        PrefillSound(c, total, s0, batch);
        Send(PrefillTarget);
      } else {
        assert NotStarted(active) == {};
      }
    }

    /** Starts a step for the residents: sent at once when plain, else prepared. */
    method StartStep(ghost s0: State) returns (sent: bool)
      requires Inv(c, total, s0) && s0.phase == Free && s0.next == Free && s0.active != map[]
      requires NotStarted(active) == {} && Snap() == s0.(batch := [])
      modifies this`active, this`inModel, this`phase, this`next, this`batch, this`draftStep, this`launches,
               this`modelQueue, this`flight
      ensures sent ==> LaunchStep(c, s0, Snap())
      ensures !sent ==> Speculates(c, |batch|) && Ordered(batch, s0.active.Keys) && Snap() == StepStart(c, s0, batch)
    {
      hide At, NoDuplicates, BatchFits, Lefts, Rank, PhasesOk, Launched, Ordered, BatchOk;
      batch := Residents();
      StepSound(c, total, s0, batch);
      sent := !(0 < c.k && (c.disableBatch == 0 || |batch| <= c.disableBatch));
      if sent {
        Send(Plain);
      } else {
        draftStep := 0;
        next := if c.hasDraft then Draft else Verify;
      }
    }

    method Launch()
      requires Valid() && phase == Free
      modifies this`active, this`inModel, this`phase, this`next, this`batch, this`draftStep, this`launches,
               this`modelQueue, this`flight
      ensures LaunchStep(c, old(Snap()), Snap())
    {
      hide At, NoDuplicates, BatchFits, Lefts, Rank, PhasesOk, Launched;
      if active == map[] { return; }
      ghost var s0 := Snap();
      if next == Free {
        var sent := StartPrefill();
        if sent { return; }
        sent := StartStep(s0);
        if sent { return; }
        StepSound(c, total, s0, batch);
      } else {
        NextSound(c, total, s0);
      }
      Send(next);
    }

    method Cycle()
      requires Valid()
      modifies this
      ensures cycle == old(cycle) + 1 && Valid()
      ensures acceptPos == old(acceptPos)
      ensures CycleStep(c, cycle, old(Snap()), Snap())
    {
      hide At, LaunchStep, PhasesOk, FlightOk, Admitted, Lefts, Origins, Joins;
      cycle := cycle + 1;
      FlightFree(c, Snap());
      if modelQueue != [] || inModel != map[] { return; }
      if next == Free {
        AdmittedKeeps(c, total, cycle, Snap());
        AdmittedOrigins(c, origin, cycle, Snap());
        Admit();
      }
      LaunchStepAll(c, total, Snap());
      ghost var s := Snap();
      Launch();
      LaunchStepOrigins(c, origin, s, Snap());
    }

    /** Hands the waiting model to the simulator. */
    method PopModel() returns (m: Model)
      requires Valid() && modelQueue != []
      modifies this`modelQueue
      ensures Valid() && old(modelQueue) == [m] && Snap() == old(Snap()).(modelQueue := [])
    {
      hide RequestOk;
      m := modelQueue[0];
      ghost var s0 := Snap();
      modelQueue := modelQueue[1..];
      assert forall id: nat :: At(c, total, s0, id) ==> At(c, total, Snap(), id);
      assert forall id: nat :: OriginAt(origin, s0, id) ==> OriginAt(origin, Snap(), id);
    }

    /** How many draft tokens the target accepted: the next recorded count, or, with nothing
        recorded, any count a run of coin tosses can give. */
    method SampleAccepted() returns (a: nat)
      requires forall i | 0 <= i < |trace| :: trace[i] <= c.k
      modifies this`acceptPos
      ensures a <= c.k
      ensures if trace == [] then acceptPos == old(acceptPos)
              else a == trace[old(acceptPos) % |trace|] && acceptPos == old(acceptPos) + 1
    {
      if trace != [] {
        a := trace[acceptPos % |trace|];
        acceptPos := acceptPos + 1;
        return;
      }
      a := 0;
      while a < c.k
        invariant a <= c.k
      {
        var accepted: bool := *;
        if !accepted { break; }
        a := a + 1;
      }
    }

    method ResizeCaches(id: nat, draft: bool, rows: nat)
      requires id in active
      modifies this`active
      ensures active == old(active)[id := Resized(c, old(active)[id], draft, rows)]
    {
      if draft {
        if !c.hasDraft { return; }
        active := active[id := active[id].(draftLength := rows)];
      } else {
        active := active[id := active[id].(currentLength := rows)];
      }
    }

    method RetireIfDone(id: nat)
      requires id in active
      modifies this`active, this`retired
      ensures if AtTarget(old(active)[id]) then
                active == old(active) - {id} && retired == old(retired)[id := old(active)[id]]
              else active == old(active) && retired == old(retired)
    {
      if active[id].currentLength < active[id].targetLength { return; }
      retired := retired[id := active[id]];
      active := active - {id};
    }

    method StopRunning(ids: seq<nat>)
      requires forall i | 0 <= i < |ids| :: ids[i] in active
      modifies this`active
      ensures active == Idle(old(active), ids, |ids|)
    {
      ghost var active0 := active;
      for i := 0 to |ids|
        invariant active.Keys == active0.Keys && active == Idle(active0, ids, i)
      {
        IdleNext(active0, ids, i);
        active := active[ids[i] := active[ids[i]].(running := false)];
      }
    }

    /** Target rows grow by the prompt and the first token. */
    method GrowPrompt(ids: seq<nat>, ghost s: State)
      requires BatchOk(s.active, s.batch) && ids == s.batch && s.phase == PrefillTarget
      requires active == Stepped(c.(hasDraft := true), s, map[], 0)
      modifies this`active
      ensures active == Stepped(c.(hasDraft := true), s, map[], |ids|)
    {
      ghost var c' := c.(hasDraft := true);
      for i := 0 to |ids|
        invariant active == Stepped(c', s, map[], i)
      {
        SteppedNext(c', s, map[], map[], i);
        ResizeCaches(ids[i], false, active[ids[i]].currentLength + active[ids[i]].promptLength + 1);
      }
    }

    /** The draft cache, if any, is level with the target; the request generates, or is done. */
    method StartGenerating(ids: seq<nat>, ghost s: State)
      requires BatchOk(s.active, s.batch) && ids == s.batch && s.phase == PrefillDraft
      requires active == Stepped(c, s, map[], 0)
      modifies this`active, this`retired
      ensures active == Kept(Stepped(c, s, map[], |ids|), ids, |ids|)
      ensures retired == old(retired) + Gone(Stepped(c, s, map[], |ids|), ids, |ids|)
    {
      hide Kept, Gone, Stepped, Finished;
      KeptNone(active, ids);
      for i := 0 to |ids|
        invariant active == Kept(Stepped(c, s, map[], i), ids, i)
        invariant retired == old(retired) + Gone(Stepped(c, s, map[], i), ids, i)
      {
        StartNext(c, s, i);
        StartOne(ids[i]);
        RetireIfDone(ids[i]);
      }
    }

    method StartOne(id: nat)
      requires id in active && !active[id].running
      modifies this`active
      ensures active == old(active)[id := Finished(c, old(active)[id], PrefillDraft, 0, 0)]
    {
      ResizeCaches(id, true, active[id].currentLength);
      active := active[id := active[id].(genPhase := true)];
    }

    method RetireAll(ids: seq<nat>)
      requires NoDuplicates(ids) && forall i | 0 <= i < |ids| :: ids[i] in active
      modifies this`active, this`retired
      ensures active == Kept(old(active), ids, |ids|) && retired == old(retired) + Gone(old(active), ids, |ids|)
    {
      hide Kept, Gone;
      ghost var active0 := active;
      KeptNone(active0, ids);
      for i := 0 to |ids|
        invariant active == Kept(active0, ids, i) && retired == old(retired) + Gone(active0, ids, i)
      {
        KeptNext(active0, ids, i);
        RetireIfDone(ids[i]);
      }
    }

    /** Draft rows reach the target rows plus the tokens drafted so far. */
    method GrowDraft(ids: seq<nat>, ghost s: State)
      requires BatchOk(s.active, s.batch) && ids == s.batch && s.phase == Draft && draftStep == s.draftStep
      requires active == Stepped(c, s, map[], 0)
      modifies this`active
      ensures active == Stepped(c, s, map[], |ids|)
    {
      for i := 0 to |ids|
        invariant active == Stepped(c, s, map[], i)
      {
        SteppedNext(c, s, map[], map[], i);
        ResizeCaches(ids[i], true, active[ids[i]].currentLength + draftStep + 1);
      }
    }

    method GrowOne(ids: seq<nat>, ghost s: State)
      requires BatchOk(s.active, s.batch) && ids == s.batch && s.phase == Plain
      requires active == Stepped(c, s, map[], 0)
      modifies this`active
      ensures active == Stepped(c, s, map[], |ids|)
    {
      for i := 0 to |ids|
        invariant active == Stepped(c, s, map[], i)
      {
        SteppedNext(c, s, map[], map[], i);
        ResizeCaches(ids[i], false, active[ids[i]].currentLength + 1);
      }
    }

    /** Target rows grow by the accepted tokens and one more; draft rows past them are stale. */
    method JudgeOne(id: nat, a: nat)
      requires id in active && !active[id].running
      modifies this`active
      ensures active == old(active)[id := Finished(c, old(active)[id], Verify, draftStep, a)]
    {
      var r := active[id];
      active := active[id := r.(specSteps := r.specSteps + 1, specAccepted := r.specAccepted + a)];
      var rows := r.currentLength + a + 1;
      ResizeCaches(id, false, rows);
      if c.hasDraft && active[id].draftLength > rows {
        ResizeCaches(id, true, rows);
      }
    }

    /** The accepted counts are drawn in batch order. */
    ghost predicate DrawnInOrder(acc: map<nat, nat>, ids: seq<nat>, pos: nat) {
      forall i | 0 <= i < |ids| ::
            ids[i] in acc && acc[ids[i]] <= c.k && (trace != [] ==> acc[ids[i]] == trace[(pos + i) % |trace|])
    }

    method Judge(ids: seq<nat>, ghost s: State) returns (acc: map<nat, nat>)
      requires forall i | 0 <= i < |trace| :: trace[i] <= c.k
      requires BatchOk(s.active, s.batch) && ids == s.batch && s.phase == Verify && draftStep == s.draftStep
      requires active == Stepped(c, s, map[], 0)
      modifies this`active, this`acceptPos
      ensures active == Stepped(c, s, acc, |ids|) && AcceptedOk(c, acc) && DrawnInOrder(acc, ids, old(acceptPos))
      ensures acceptPos == old(acceptPos) + if trace == [] then 0 else |ids|
    {
      acc := map[];
      for i := 0 to |ids|
        invariant active == Stepped(c, s, acc, i) && AcceptedOk(c, acc) && DrawnInOrder(acc, ids[..i], old(acceptPos))
        invariant acceptPos == old(acceptPos) + if trace == [] then 0 else i
      {
        var a := SampleAccepted();
        var id := ids[i];
        JudgeNext(c, s, acc, a, i);
        JudgeOne(id, a);
        acc := acc[id := a];
        assert ids[..i + 1] == ids[..i] + [id];
      }
      assert ids[..|ids|] == ids;
    }

    method FinishPrefill(ids: seq<nat>, ghost s: State)
      requires BatchOk(s.active, s.batch) && ids == s.batch && s.phase == PrefillTarget
      requires active == Stepped(c, s, map[], 0) && retired == s.retired
      modifies this`active, this`retired, this`next
      ensures active == Ended(c, s, map[]).active && retired == Ended(c, s, map[]).retired
      ensures next == if c.hasDraft then PrefillDraft else Free
    {
      hide Kept, Gone, Stepped, Finished, Ended, Idle;
      IdleAll(c, s, map[]);
      IdleAll(c.(hasDraft := true), s, map[]);
      GrowPrompt(ids, s);
      if c.hasDraft {
        assert c.(hasDraft := true) == c;
        next := PrefillDraft;
        SteppedEnds(c, s, map[]);
      } else {
        ghost var t := s.(active := active, phase := PrefillDraft);
        GrownBatch(c, s);
        PrefillInTwo(c, s, 0);
        StartGenerating(ids, t);
        next := Free;
        KeptEnds(c, s, map[]);
      }
    }

    method FinishPhase(ids: seq<nat>, ghost s: State) returns (acc: map<nat, nat>)
      requires forall i | 0 <= i < |trace| :: trace[i] <= c.k
      requires BatchOk(s.active, s.batch) && ids == s.batch && phase == s.phase && phase != Free &&
               draftStep == s.draftStep
      requires active == Stepped(c, s, map[], 0) && retired == s.retired
      modifies this`active, this`retired, this`next, this`draftStep, this`acceptPos
      ensures active == Ended(c, s, acc).active && retired == Ended(c, s, acc).retired
      ensures next == Ended(c, s, acc).next && draftStep == Ended(c, s, acc).draftStep
      ensures AcceptedOk(c, acc) && (phase == Verify ==> DrawnInOrder(acc, ids, old(acceptPos)))
      ensures acceptPos == old(acceptPos) + if trace == [] || phase != Verify then 0 else |ids|
    {
      hide Kept, Gone, Stepped, Finished, DrawnInOrder;
      acc := map[];
      match phase {
        case PrefillTarget =>
          FinishPrefill(ids, s);
        case PrefillDraft =>
          StartGenerating(ids, s);
          next := Free;
          KeptEnds(c, s, acc);
        case Draft =>
          GrowDraft(ids, s);
          draftStep := draftStep + 1;
          next := if draftStep < c.k then Draft else Verify;
          SteppedEnds(c, s, acc);
        case Verify =>
          acc := Judge(ids, s);
          StillActive(c, s, acc);
          RetireAll(ids);
          next := Free;
          KeptEnds(c, s, acc);
        case Plain =>
          GrowOne(ids, s);
          StillActive(c, s, acc);
          RetireAll(ids);
          next := Free;
          KeptEnds(c, s, acc);
      }
    }

    method EndLaunch(modelId: nat) returns (acc: map<nat, nat>)
      requires FlightOk(c, Snap()) && modelId in inModel && forall i | 0 <= i < |trace| :: trace[i] <= c.k
      modifies this
      ensures Snap() == Ended(c, old(Snap()), acc) && cycle == old(cycle)
      ensures AcceptedOk(c, acc) && (old(phase) == Verify ==> DrawnInOrder(acc, old(batch), old(acceptPos)))
      ensures acceptPos == old(acceptPos) + if trace == [] || old(phase) != Verify then 0 else |old(batch)|
    {
      hide Stepped, DrawnInOrder, AcceptedOk, Idle, BatchOk, FlightOk, Ended;
      ghost var s := Snap();
      FlightBatch(c, s, modelId);
      var ids := inModel[modelId];
      inModel := inModel - {modelId};
      StopRunning(ids);
      IdleAll(c, s, map[]);
      acc := FinishPhase(ids, s);
      phase := Free;
      ledger := Ended(c, s, acc).ledger;
      EndedFrame(c, s, acc);
    }

    /** The end of the model in flight: the state becomes the one Ended describes, and less
        is left to do. */
    method FinishModel(modelId: nat) returns (acc: map<nat, nat>)
      requires Valid() && modelQueue == [] && modelId in inModel
      modifies this
      ensures Valid() && Snap() == Ended(c, old(Snap()), acc) && cycle == old(cycle)
      ensures AcceptedOk(c, acc) && (old(phase) == Verify ==> DrawnInOrder(acc, old(batch), old(acceptPos)))
      ensures acceptPos == old(acceptPos) + if trace == [] || old(phase) != Verify then 0 else |old(batch)|
      ensures Progress(c, total, old(Snap()), Snap())
    {
      hide At, DrawnInOrder, Progress, Ended, PhasesOk, AcceptedOk;
      ghost var s := Snap();
      FlightBatch(c, s, modelId);
      acc := EndLaunch(modelId);
      EndedKeeps(c, total, s, acc);
      EndedProgress(c, total, s, acc);
      EndedOrigins(c, origin, s, acc);
    }

    /** One turn of the simulator: the scheduler's cycle, and then, if a model is out, its end. */
    method Turn()
      requires Valid() && Busy()
      modifies this
      ensures Valid() && cycle == old(cycle) + 1
      ensures || Progress(c, total, old(Snap()), Snap())
              || (Snap() == old(Snap()) && phase == Free && active == map[] && queue != [] &&
                  cycle < queue[0].requestTime)
    {
      hide At, Progress, Ended, AcceptedOk, LaunchStep, CycleStep, DrawnInOrder, PhasesOk;
      ghost var s := Snap();
      Cycle();
      ghost var s1 := Snap();
      CycleStepKeeps(c, total, cycle, s, s1);
      FlightFree(c, s1);
      if modelQueue != [] {
        var m := PopModel();
      }
      if inModel != map[] {
        ghost var s2 := Snap();
        assert s2 == s1.(modelQueue := []);
        FlightFree(c, s2);
        var acc := FinishModel(launches - 1);
        ProgressLater(c, total, s, s1, s2, Snap());
      }
    }

    /** Every request of the trace is served: the scheduler drains, and each request ends
        at its target or at most k rows above it (or, with nothing to generate, right
        after its prefill), all its counted rows written by slots that count. */
    method Drain()
      requires Valid()
      modifies this
      ensures Valid() && queue == [] && active == map[] && phase == Free
      ensures forall id: nat | id < total ::
                && id in retired && id in ledger && RetiredOk(c, retired[id], ledger[id], launches)
                && SameRequest(origin[id], retired[id]) && ledger[id].cached == origin[id].currentLength
    {
      while Busy()
        invariant Valid()
        decreases Sum(Lefts(total, Snap())), Rank(c, Snap()), if queue == [] then 0 else queue[0].requestTime - cycle
      {
        hide At, PhasesOk, FlightOk;
        Turn();
      }
      FlightFree(c, Snap());
      forall id: nat | id < total
        ensures id in retired && id in ledger && RetiredOk(c, retired[id], ledger[id], launches)
        ensures SameRequest(origin[id], retired[id]) && ledger[id].cached == origin[id].currentLength
      {
        assert At(c, total, Snap(), id) && OriginAt(origin, Snap(), id);
      }
    }
  }

  /** A line of the trace has been served: the request has its prompt behind the rows cached and
      as many rows as the line asks for, at most k more, or the one the prefill counts; and in
      the target cache every one of them but that one has been written and none is rejected. */
  ghost predicate Served(c: Config, row: TraceRow, r: Request, l: Ledger) {
    var prefilled := row.cached + row.prompt;
    && l.cached == row.cached && r.promptLength == row.prompt
    && prefilled + row.generate <= r.currentLength
    && (r.currentLength <= prefilled + row.generate + c.k || r.currentLength == prefilled + 1)
    && r.currentLength == prefilled + 1 + r.specAccepted + r.specSteps + l.plainSteps
    && forall n: nat | row.cached <= n < r.currentLength && n != prefilled :: n in l.target && !l.target[n].rejected
  }

  lemma ServedWhenRetired(c: Config, row: TraceRow, o: Request, r: Request, l: Ledger, launches: nat)
    requires RetiredOk(c, r, l, launches) && SameRequest(o, r) && l.cached == o.currentLength
    requires o.promptLength == row.prompt && o.currentLength == row.cached
    requires o.targetLength == row.cached + row.prompt + row.generate
    ensures Served(c, row, r, l)
  {
    forall n: nat | row.cached <= n < r.currentLength && n != row.cached + row.prompt
      ensures n in l.target && !l.target[n].rejected
    {
      assert RowOk(l.target, l.cached, FirstRow(l, r), r.currentLength, n);
    }
  }

  /** A whole trace, from its lines to its end: every line is served. */
  method RunTrace(c: Config, rows: seq<TraceRow>, accepted: seq<nat>) returns (s: Scheduler)
    ensures fresh(s) && s.queue == [] && s.active == map[]
    ensures forall i: nat | i < |rows| ::
              i in s.retired && i in s.ledger && Served(c, rows[i], s.retired[i], s.ledger[i])
  {
    hide Inv, Origins, RetiredOk, Served;
    s := new Scheduler(c, rows, accepted);
    s.Drain();
    forall i: nat | i < |rows| ensures Served(c, rows[i], s.retired[i], s.ledger[i]) {
      ServedWhenRetired(c, rows[i], s.origin[i], s.retired[i], s.ledger[i], s.launches);
    }
  }

  /** What a cycle does: nothing while a model is out; otherwise admit, between steps, and launch. */
  ghost predicate CycleStep(c: Config, cycle: nat, s: State, s': State) {
    if s.phase != Free then s' == s
    else LaunchStep(c, if s.next == Free then Admitted(c, cycle, s) else s, s')
  }

  /** A cycle keeps the invariant and the work left, and unless nobody has arrived yet a
      model is out after it. */
  lemma CycleStepKeeps(c: Config, total: nat, cycle: nat, s: State, s': State)
    requires Inv(c, total, s) && CycleStep(c, cycle, s, s')
    ensures Inv(c, total, s') && Lefts(total, s') == Lefts(total, s) && Rank(c, s') <= Rank(c, s)
    ensures s'.phase == Free ==> s' == s && s.active == map[] && (s.queue == [] || cycle < s.queue[0].requestTime)
  {
    hide At, FlightOk, LaunchStep;
    if s.phase == Free {
      if s.next == Free {
        AdmittedKeeps(c, total, cycle, s);
        LaunchStepKeeps(c, total, Admitted(c, cycle, s), s');
        if Admitted(c, cycle, s).active == map[] {
          IdleStep(c, Admitted(c, cycle, s), s');
        }
      } else {
        assert s.batch[0] in s.active;
        LaunchStepKeeps(c, total, s, s');
      }
    }
  }

  lemma IdleStep(c: Config, s: State, s': State)
    requires LaunchStep(c, s, s') && s.active == map[]
    ensures s' == s
  {}

  lemma ProgressLater(c: Config, total: nat, s: State, s1: State, s2: State, s3: State)
    requires |s.queue| <= total && |s1.queue| <= total && |s3.queue| <= total
    requires Lefts(total, s1) == Lefts(total, s) && Rank(c, s1) <= Rank(c, s)
    requires s2 == s1.(modelQueue := []) && Progress(c, total, s2, s3)
    ensures Progress(c, total, s, s3)
  {
    assert Lefts(total, s2) == Lefts(total, s1);
  }

  lemma EndedFrame(c: Config, s: State, acc: map<nat, nat>)
    ensures var t := Ended(c, s, acc);
            t == s.(active := t.active, retired := t.retired, ledger := t.ledger, inModel := map[], phase := Free,
                    next := t.next, draftStep := t.draftStep)
  {}

  lemma FlightBatch(c: Config, s: State, model: nat)
    requires FlightOk(c, s) && model in s.inModel
    ensures s.phase != Free && s.inModel[model] == s.batch && s.inModel - {model} == map[] && BatchOk(s.active, s.batch)
    ensures forall i | 0 <= i < |s.batch| :: s.batch[i] in s.active
  {}

  lemma GrownBatch(c: Config, s: State)
    requires BatchOk(s.active, s.batch)
    ensures BatchOk(Stepped(c.(hasDraft := true), s, map[], |s.batch|), s.batch)
  {}

  lemma StillActive(c: Config, s: State, acc: map<nat, nat>)
    requires BatchOk(s.active, s.batch)
    ensures forall i | 0 <= i < |s.batch| :: s.batch[i] in Stepped(c, s, acc, |s.batch|)
  {}

  lemma StartNext(c: Config, s: State, i: nat)
    requires i < |s.batch| && BatchOk(s.active, s.batch) && s.phase == PrefillDraft
    ensures var id, n, n' := s.batch[i], Stepped(c, s, map[], i), Stepped(c, s, map[], i + 1);
            var m := Kept(n, s.batch, i);
            && id in m && !m[id].running
            && var r := Finished(c, m[id], PrefillDraft, 0, 0);
            && Kept(n', s.batch, i + 1) == (if AtTarget(r) then m[id := r] - {id} else m[id := r])
            && Gone(n', s.batch, i + 1) == if AtTarget(r) then Gone(n, s.batch, i)[id := r] else Gone(n, s.batch, i)
  {
    hide Kept, Gone, Stepped;
    var id, n, n' := s.batch[i], Stepped(c, s, map[], i), Stepped(c, s, map[], i + 1);
    SteppedNext(c, s, map[], map[], i);
    SteppedHas(c, s, map[], i, id);
    KeptChange(n, s.batch, i, n'[id]);
    KeptNext(n', s.batch, i);
  }

  lemma JudgeNext(c: Config, s: State, acc: map<nat, nat>, a: nat, i: nat)
    requires i < |s.batch| && BatchOk(s.active, s.batch) && a <= c.k && AcceptedOk(c, acc)
    ensures var id, m, acc' := s.batch[i], Stepped(c, s, acc, i), acc[s.batch[i] := a];
            && id in m && !m[id].running && AcceptedOk(c, acc')
            && Stepped(c, s, acc', i + 1) == m[id := Finished(c, m[id], s.phase, s.draftStep, a)]
  {
    hide Finished, Stepped;
    var id, acc' := s.batch[i], acc[s.batch[i] := a];
    assert forall x: nat :: Accepted(acc', x) == if x == id then a else Accepted(acc, x);
    assert forall x: nat :: Accepted(acc, x) <= c.k;
    SteppedNext(c, s, acc, acc', i);
    FinishedIdle(c, s.active[id], s.phase, s.draftStep, a);
    assert id in s.active;
    SteppedHas(c, s, acc, i, id);
  }

  lemma SteppedHas(c: Config, s: State, acc: map<nat, nat>, i: nat, id: nat)
    requires i <= |s.batch| && id in s.active
    ensures id in Stepped(c, s, acc, i)
  {}

  lemma FlightFree(c: Config, s: State)
    requires FlightOk(c, s)
    ensures s.phase == Free <==> s.inModel == map[] && s.modelQueue == []
    ensures s.phase != Free ==> s.launches - 1 in s.inModel && s.inModel[s.launches - 1] == s.batch
  {
    assert s.phase != Free ==> s.launches - 1 in s.inModel;
  }

  /** Any launch step from a sound state ends in one. */
  lemma LaunchStepAll(c: Config, total: nat, s: State)
    requires Inv(c, total, s) && s.phase == Free
    ensures forall s': State | LaunchStep(c, s, s') :: Inv(c, total, s')
  {
    forall s': State | LaunchStep(c, s, s') ensures Inv(c, total, s') {
      LaunchStepKeeps(c, total, s, s');
    }
  }

  lemma RunningNext(active: map<nat, Request>, inputs: seq<LangInput>, i: nat)
    requires i < |inputs| && inputs[i].id in active
    ensures var m := Running(active, Distinct(inputs[..i]));
            Running(active, Distinct(inputs[..i + 1])) == m[inputs[i].id := m[inputs[i].id].(running := true)]
  {
    assert inputs[..i + 1][..i] == inputs[..i];
  }

  lemma {:induction false} OwnersActive(c: Config, active: map<nat, Request>, batch: seq<nat>, phase: Phase,
                                        draftStep: nat)
    requires BatchOk(active, batch) && phase != Free
    ensures var inputs := BatchInputs(c, active, batch, phase, draftStep);
            && (batch != [] ==> inputs != [])
            && forall i | 0 <= i < |inputs| :: inputs[i].id in active
  {
    if batch != [] {
      BatchInputsStep(c, active, batch, phase, draftStep);
      OwnersActive(c, active, batch[..|batch| - 1], phase, draftStep);
    }
  }
}
