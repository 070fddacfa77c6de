/** The speculative-decoding scheduler: a phase machine over all active requests, each with
    a target and a draft KV cache. */
module SpecDec {
  import opened Collections
  import opened SpecDecModel

  // ---- Sequences of inputs ----

  /** The inputs of a launch: those of every request of the batch, in batch order. */
  function BatchInputs(c: Config, active: map<nat, Request>, batch: seq<nat>, phase: Phase,
                       draftStep: nat): seq<LangInput>
    requires forall i | 0 <= i < |batch| :: batch[i] in active
  {
    if batch == [] then []
    else
      BatchInputs(c, active, batch[..|batch| - 1], phase, draftStep) +
      InputsOf(c, active[batch[|batch| - 1]], phase, draftStep)
  }

  /** The inputs that belong to one request. */
  function Select(inputs: seq<LangInput>, id: nat): seq<LangInput> {
    if inputs == [] then []
    else
      var rest := Select(inputs[..|inputs| - 1], id);
      if inputs[|inputs| - 1].id == id then rest + [inputs[|inputs| - 1]] else rest
  }

  /** The ids of the inputs, each once, in the order of first appearance. */
  function Distinct(inputs: seq<LangInput>): (ids: seq<nat>)
    ensures forall i | 0 <= i < |inputs| :: inputs[i].id in ids
  {
    if inputs == [] then []
    else
      var rest := Distinct(inputs[..|inputs| - 1]);
      if inputs[|inputs| - 1].id in rest then rest else rest + [inputs[|inputs| - 1].id]
  }

  ghost predicate AllOf(inputs: seq<LangInput>, id: nat) {
    forall i | 0 <= i < |inputs| :: inputs[i].id == id
  }

  lemma {:induction false} SelectAppend(a: seq<LangInput>, b: seq<LangInput>, id: nat, owner: nat)
    requires AllOf(b, owner)
    ensures Select(a + b, id) == Select(a, id) + if id == owner then b else []
  {
    if b == [] {
      assert a + b == a;
    } else {
      var n := |b| - 1;
      assert (a + b)[..|a + b| - 1] == a + b[..n];
      SelectAppend(a, b[..n], id, owner);
    }
  }

  lemma {:induction false} DistinctAppend(a: seq<LangInput>, b: seq<LangInput>, owner: nat)
    requires AllOf(b, owner) && b != [] && owner !in Distinct(a)
    ensures Distinct(a + b) == Distinct(a) + [owner]
  {
    var n := |b| - 1;
    assert (a + b)[..|a + b| - 1] == a + b[..n];
    if n == 0 {
      assert a + b[..0] == a;
    } else {
      DistinctAppend(a, b[..n], owner);
    }
  }

  /** Request id finds in the launch's inputs exactly what it put in. */
  ghost predicate SplitAt(c: Config, active: map<nat, Request>, batch: seq<nat>, phase: Phase, draftStep: nat,
                          inputs: seq<LangInput>, id: nat)
  {
    if id in batch then id in active && Select(inputs, id) == InputsOf(c, active[id], phase, draftStep)
    else Select(inputs, id) == []
  }

  ghost predicate BatchOk(active: map<nat, Request>, batch: seq<nat>) {
    && NoDuplicates(batch)
    && (forall i | 0 <= i < |batch| :: batch[i] in active && active[batch[i]].id == batch[i])
  }

  /** The last request's inputs, apart from those of the requests before it. */
  lemma BatchInputsStep(c: Config, active: map<nat, Request>, batch: seq<nat>, phase: Phase, draftStep: nat)
    requires BatchOk(active, batch) && phase != Free && batch != []
    ensures var n := |batch| - 1;
            var b := InputsOf(c, active[batch[n]], phase, draftStep);
            && BatchOk(active, batch[..n]) && batch[n] !in batch[..n] && batch == batch[..n] + [batch[n]]
            && AllOf(b, batch[n]) && b != []
            && BatchInputs(c, active, batch, phase, draftStep) ==
                 BatchInputs(c, active, batch[..n], phase, draftStep) + b
  {}

  /** The ids found in a launch's inputs are the batch. */
  lemma {:induction false} BatchInputsDistinct(c: Config, active: map<nat, Request>, batch: seq<nat>, phase: Phase,
                                               draftStep: nat)
    requires BatchOk(active, batch) && phase != Free
    ensures Distinct(BatchInputs(c, active, batch, phase, draftStep)) == batch
  {
    if batch != [] {
      var n := |batch| - 1;
      BatchInputsStep(c, active, batch, phase, draftStep);
      BatchInputsDistinct(c, active, batch[..n], phase, draftStep);
      DistinctAppend(BatchInputs(c, active, batch[..n], phase, draftStep),
                     InputsOf(c, active[batch[n]], phase, draftStep), batch[n]);
    }
  }

  /** Splitting a launch's inputs by request gives back what each request put in. */
  lemma {:induction false} BatchInputsSplit(c: Config, active: map<nat, Request>, batch: seq<nat>, phase: Phase,
                                            draftStep: nat, id: nat)
    requires BatchOk(active, batch) && phase != Free
    ensures SplitAt(c, active, batch, phase, draftStep, BatchInputs(c, active, batch, phase, draftStep), id)
  {
    if batch != [] {
      var n := |batch| - 1;
      BatchInputsStep(c, active, batch, phase, draftStep);
      BatchInputsSplit(c, active, batch[..n], phase, draftStep, id);
      SelectAppend(BatchInputs(c, active, batch[..n], phase, draftStep),
                   InputsOf(c, active[batch[n]], phase, draftStep), id, batch[n]);
    }
  }

  lemma {:induction false} BatchInputsSame(c: Config, m: map<nat, Request>, m': map<nat, Request>, batch: seq<nat>,
                                           phase: Phase, draftStep: nat)
    requires m.Keys == m'.Keys && forall i | 0 <= i < |batch| :: batch[i] in m
    requires forall id: nat | id in m :: m'[id].(running := m[id].running) == m[id]
    ensures BatchInputs(c, m, batch, phase, draftStep) == BatchInputs(c, m', batch, phase, draftStep)
  {
    if batch != [] {
      BatchInputsSame(c, m, m', batch[..|batch| - 1], phase, draftStep);
    }
  }

  // ---- Sums, for the progress measure ----

  ghost function Sum(s: seq<nat>): nat {
    if s == [] then 0 else Sum(s[..|s| - 1]) + s[|s| - 1]
  }

  lemma {:induction false} SumMonotone(s: seq<nat>, t: seq<nat>)
    requires |s| == |t| && forall i | 0 <= i < |s| :: s[i] <= t[i]
    ensures Sum(s) <= Sum(t)
    ensures (exists i | 0 <= i < |s| :: s[i] < t[i]) ==> Sum(s) < Sum(t)
  {
    if s != [] {
      var n := |s| - 1;
      SumMonotone(s[..n], t[..n]);
      if i :| 0 <= i < |s| && s[i] < t[i] {
        assert i < n ==> s[..n][i] < t[..n][i];
      }
    }
  }

  /** What is left to do for a request: its two prefills, then its rows. */
  function Left(r: Request, stage: Stage): nat {
    match stage
    case Fresh =>
      var first := r.currentLength + r.promptLength + 1;
      2 + if first < r.targetLength then r.targetLength - first else 0
    case TargetDone => 1 + if r.currentLength < r.targetLength then r.targetLength - r.currentLength else 0
    case Gen(_) => if r.currentLength < r.targetLength then r.targetLength - r.currentLength else 0
  }

  // ---- The state of the scheduler, and its invariant ----

  /** The scheduler's fields, together with three things the code does not store: who wrote
      each KV row of each admitted request, the inputs of the launch in flight, and the
      requests that have retired. */
  datatype State = State(
    queue: seq<Request>,
    active: map<nat, Request>,
    inModel: map<nat, seq<nat>>,
    modelQueue: seq<Model>,
    phase: Phase,
    next: Phase,
    batch: seq<nat>,
    draftStep: nat,
    launches: nat,
    ledger: map<nat, Ledger>,
    flight: seq<LangInput>,
    retired: map<nat, Request>)

  /** How many launches have ended. */
  function Done(s: State): nat {
    if s.phase == Free || s.launches == 0 then s.launches else s.launches - 1
  }

  function StageOf(s: State, r: Request): Stage {
    if !r.genPhase then (if s.next == PrefillDraft then TargetDone else Fresh)
    else if s.next == Draft || s.next == Verify then Gen(s.draftStep) else Gen(0)
  }

  /** Requests wait in id order: the last |queue| of all total ids. */
  ghost predicate QueuedAt(total: nat, s: State, id: nat) {
    |s.queue| <= total && (total - |s.queue| <= id < total ==>
      var r := s.queue[id - (total - |s.queue|)];
      r.id == id && !r.genPhase && r.specSteps == 0 && r.specAccepted == 0)
  }

  ghost predicate ActiveAt(c: Config, total: nat, s: State, id: nat) {
    id in s.active ==>
      && |s.queue| <= total && id < total - |s.queue|
      && s.active[id].id == id && id in s.ledger && id !in s.retired
      && (s.active[id].running <==> s.phase != Free && id in s.batch)
      && RequestOk(c, s.active[id], s.ledger[id], StageOf(s, s.active[id]), Done(s))
  }

  ghost predicate RetiredAt(c: Config, total: nat, s: State, id: nat) {
    && (|s.queue| <= total && id < total - |s.queue| ==> id in s.active || id in s.retired)
    && (id in s.retired ==>
          && |s.queue| <= total && id < total - |s.queue|
          && id !in s.active && id in s.ledger && RetiredOk(c, s.retired[id], s.ledger[id], Done(s)))
  }

  /** The batch holds the requests the phase is about: those being prefilled, or, during a
      step, every active request. */
  ghost predicate BatchAt(s: State, id: nat) {
    id in s.active ==>
      if s.phase == PrefillTarget || s.next == PrefillDraft then id in s.batch <==> !s.active[id].genPhase
      else if s.phase == Plain || s.next == Draft || s.next == Verify then id in s.batch && s.active[id].genPhase
      else true
  }

  ghost predicate At(c: Config, total: nat, s: State, id: nat) {
    QueuedAt(total, s, id) && ActiveAt(c, total, s, id) && RetiredAt(c, total, s, id) && BatchAt(s, id)
  }

  /** The phase in flight, the phase to launch next and the step counters fit together. */
  ghost predicate PhasesOk(c: Config, s: State) {
    && (s.phase == Free || (s.phase == PrefillTarget && s.next == Free) || (s.phase == Plain && s.next == Free) ||
        (s.phase == s.next && (s.next == PrefillDraft || s.next == Draft || s.next == Verify)))
    && (s.next == Free || (s.next == PrefillDraft && c.hasDraft) ||
        (s.next == Draft && c.hasDraft && s.draftStep < c.k) ||
        (s.next == Verify && 0 < c.k && s.draftStep == if c.hasDraft then c.k else 0))
    && (s.phase != Free || s.next != Free ==> s.batch != [] && BatchOk(s.active, s.batch))
  }

  /** At most one model is in flight, and it is the one the phase says. */
  ghost predicate FlightOk(c: Config, s: State) {
    if s.phase == Free then s.inModel == map[] && s.modelQueue == []
    else
      && BatchOk(s.active, s.batch)
      && 0 < s.launches && s.inModel == map[s.launches - 1 := s.batch]
      && s.flight == BatchInputs(c, s.active, s.batch, s.phase, s.draftStep)
      && (s.modelQueue == [] || s.modelQueue == [LaunchedModel(s)])
  }

  function LaunchedModel(s: State): Model
    requires 0 < s.launches
  {
    Model(s.launches - 1, s.phase == PrefillDraft || s.phase == Draft, s.flight)
  }

  ghost predicate Inv(c: Config, total: nat, s: State) {
    && |s.queue| <= total
    && (forall id: nat :: At(c, total, s, id))
    && (0 < c.maxBatch ==> |s.active| <= c.maxBatch)
    && PhasesOk(c, s) && FlightOk(c, s)
  }

  // ---- Progress ----

  function LeftAt(total: nat, s: State, id: nat): nat
    requires |s.queue| <= total
  {
    if id < total - |s.queue| then (if id in s.active then Left(s.active[id], StageOf(s, s.active[id])) else 0)
    else if id < total then Left(s.queue[id - (total - |s.queue|)], Fresh)
    else 0
  }

  /** What is left to do, request by request. */
  ghost function Lefts(total: nat, s: State): (ls: seq<nat>)
    requires |s.queue| <= total
    ensures |ls| == total && forall id | 0 <= id < total :: ls[id] == LeftAt(total, s, id)
  {
    seq(total, id requires 0 <= id < total && |s.queue| <= total => LeftAt(total, s, id))
  }

  /** Launches that may still end before some request gets a prefill or a row. */
  function Rank(c: Config, s: State): nat {
    match s.next
    case Draft => if s.draftStep <= c.k then c.k - s.draftStep + 2 else 2
    case Verify => 1
    case PrefillDraft => 1
    case _ => c.k + 3
  }

  /** The work left has gone down: some request got further, or the step came closer to its end. */
  ghost predicate Progress(c: Config, total: nat, s: State, s': State)
    requires |s.queue| <= total && |s'.queue| <= total
  {
    var before, after := Sum(Lefts(total, s)), Sum(Lefts(total, s'));
    after < before || (after == before && Rank(c, s') < Rank(c, s))
  }

  // ---- Steps ----

  /** The front of the queue joins the active requests. */
  function AdmitOne(c: Config, s: State): State
    requires s.queue != []
  {
    var r := s.queue[0].(running := false, genPhase := false);
    var r := if c.hasDraft then r.(draftLength := r.currentLength) else r;
    s.(queue := s.queue[1..], active := s.active[r.id := r],
       ledger := s.ledger[r.id := Ledger(r.currentLength, 0, 0, map[], map[], map[])])
  }

  lemma AdmitOneAt(c: Config, total: nat, s: State, id: nat)
    requires |s.queue| <= total && s.queue != [] && s.phase == Free && s.next == Free
    requires At(c, total, s, total - |s.queue|) && At(c, total, s, id)
    ensures At(c, total, AdmitOne(c, s), id)
  {}

  lemma AdmitOneLeft(c: Config, total: nat, s: State, id: nat)
    requires |s.queue| <= total && s.queue != [] && s.phase == Free && s.next == Free
    requires At(c, total, s, total - |s.queue|) && At(c, total, s, id)
    ensures LeftAt(total, AdmitOne(c, s), id) == LeftAt(total, s, id)
  {}

  lemma AdmitOneKeeps(c: Config, total: nat, s: State)
    requires Inv(c, total, s) && s.queue != [] && s.phase == Free && s.next == Free
    requires 0 < c.maxBatch ==> |s.active| < c.maxBatch
    ensures Inv(c, total, AdmitOne(c, s)) && Lefts(total, AdmitOne(c, s)) == Lefts(total, s)
  {
    var s' := AdmitOne(c, s);
    var id0 := total - |s.queue|;
    assert At(c, total, s, id0);
    assert s'.active.Keys == s.active.Keys + {id0};
    forall id: nat ensures At(c, total, s', id) {
      assert At(c, total, s, id);
      AdmitOneAt(c, total, s, id);
    }
    forall id: nat | id < total ensures LeftAt(total, s', id) == LeftAt(total, s, id) {
      assert At(c, total, s, id);
      AdmitOneLeft(c, total, s, id);
    }
  }

  function Running(active: map<nat, Request>, batch: seq<nat>): map<nat, Request> {
    map id | id in active :: if id in batch then active[id].(running := true) else active[id]
  }

  /** A model goes out for the batch. */
  function Launched(c: Config, s: State, phase: Phase): State
    requires forall i | 0 <= i < |s.batch| :: s.batch[i] in s.active
  {
    var inputs := BatchInputs(c, s.active, s.batch, phase, s.draftStep);
    var s' := s.(phase := phase, launches := s.launches + 1, flight := inputs,
                 inModel := map[s.launches := s.batch], active := Running(s.active, s.batch));
    s'.(modelQueue := [LaunchedModel(s')])
  }

  lemma LaunchedAt(c: Config, total: nat, s: State, phase: Phase, id: nat)
    requires At(c, total, s, id) && BatchAt(s.(phase := phase), id) && s.phase == Free && phase != Free
    requires forall i | 0 <= i < |s.batch| :: s.batch[i] in s.active
    ensures At(c, total, Launched(c, s, phase), id)
  {
    var s' := Launched(c, s, phase);
    if id in s.active {
      RequestLater(c, s.active[id], s.ledger[id], StageOf(s, s.active[id]), s.launches, s.launches);
      assert s'.active[id] == s.active[id].(running := s'.active[id].running);
    }
  }

  lemma LaunchedFits(c: Config, total: nat, s: State, phase: Phase)
    requires PhasesOk(c, s) && s.phase == Free && phase != Free
    requires s.batch != [] && BatchOk(s.active, s.batch)
    requires phase == s.next || (s.next == Free && (phase == PrefillTarget || phase == Plain))
    ensures PhasesOk(c, Launched(c, s, phase)) && FlightOk(c, Launched(c, s, phase))
  {
    var s' := Launched(c, s, phase);
    BatchInputsSame(c, s.active, s'.active, s.batch, phase, s.draftStep);
  }

  lemma LaunchedLeft(c: Config, total: nat, s: State, phase: Phase)
    requires |s.queue| <= total
    requires forall i | 0 <= i < |s.batch| :: s.batch[i] in s.active
    ensures Lefts(total, Launched(c, s, phase)) == Lefts(total, s)
    ensures Rank(c, Launched(c, s, phase)) == Rank(c, s)
  {
    var s' := Launched(c, s, phase);
    forall id: nat | id < total ensures LeftAt(total, s', id) == LeftAt(total, s, id) {
      if id in s.active {
        assert s'.active[id] == s.active[id].(running := s'.active[id].running);
      }
    }
  }

  ghost predicate BatchFits(s: State) {
    forall id: nat :: BatchAt(s, id)
  }

  /** Launching keeps the invariant and leaves the work left as it was. */
  lemma LaunchedKeeps(c: Config, total: nat, s: State, phase: Phase)
    requires Inv(c, total, s) && s.phase == Free && phase != Free
    requires s.batch != [] && BatchOk(s.active, s.batch) && BatchFits(s.(phase := phase))
    requires phase == s.next || (s.next == Free && (phase == PrefillTarget || phase == Plain))
    ensures Inv(c, total, Launched(c, s, phase)) && Lefts(total, Launched(c, s, phase)) == Lefts(total, s)
    ensures Rank(c, Launched(c, s, phase)) == Rank(c, s)
  {
    var s' := Launched(c, s, phase);
    LaunchedFits(c, total, s, phase);
    LaunchedLeft(c, total, s, phase);
    forall id: nat ensures At(c, total, s', id) {
      assert At(c, total, s, id) && BatchAt(s.(phase := phase), id);
      LaunchedAt(c, total, s, phase, id);
    }
    assert s'.active.Keys == s.active.Keys;
  }

  // ---- The end of a launch ----

  /** How many draft tokens of a request were accepted; none outside a verify launch. */
  function Accepted(acc: map<nat, nat>, id: nat): nat {
    if id in acc then acc[id] else 0
  }

  /** Phases after which a request that reached its target leaves. */
  predicate Retires(c: Config, phase: Phase) {
    phase == PrefillDraft || phase == Verify || phase == Plain || (phase == PrefillTarget && !c.hasDraft)
  }

  /** A request once the launch in flight has ended. */
  function After(c: Config, s: State, acc: map<nat, nat>, id: nat): Request
    requires id in s.active
  {
    if id in s.batch then Finished(c, s.active[id], s.phase, s.draftStep, Accepted(acc, id)) else s.active[id]
  }

  predicate Leaves(c: Config, s: State, acc: map<nat, nat>, id: nat)
    requires id in s.active
  {
    id in s.batch && Retires(c, s.phase) && After(c, s, acc, id).targetLength <= After(c, s, acc, id).currentLength
  }

  function LedgerThen(c: Config, s: State, acc: map<nat, nat>, id: nat): Ledger
    requires id in s.ledger
  {
    if id in s.batch && id in s.active && 0 < s.launches then
      LedgerAfter(c, s.ledger[id], s.active[id], Select(s.flight, id), s.launches - 1, s.phase, Accepted(acc, id))
    else s.ledger[id]
  }

  /** The stage a request of the batch is at during a launch. */
  function Before(phase: Phase, j: nat): Stage {
    match phase
    case PrefillTarget => Fresh
    case PrefillDraft => TargetDone
    case Plain => Gen(0)
    case _ => Gen(j)
  }

  function NextPhase(c: Config, phase: Phase, draftStep: nat): Phase {
    match phase
    case PrefillTarget => if c.hasDraft then PrefillDraft else Free
    case Draft => if draftStep + 1 < c.k then Draft else Verify
    case _ => Free
  }

  function Ended(c: Config, s: State, acc: map<nat, nat>): State {
    s.(active := map id | id in s.active && !Leaves(c, s, acc, id) :: After(c, s, acc, id),
       retired := s.retired + map id | id in s.active && Leaves(c, s, acc, id) :: After(c, s, acc, id),
       ledger := map id | id in s.ledger :: LedgerThen(c, s, acc, id),
       inModel := map[], phase := Free, next := NextPhase(c, s.phase, s.draftStep),
       draftStep := if s.phase == Draft then s.draftStep + 1 else s.draftStep)
  }

  ghost predicate AcceptedOk(c: Config, acc: map<nat, nat>) {
    forall id: nat :: Accepted(acc, id) <= c.k
  }

  /** What one launch does to one request that took part, by phase. */
  lemma Outcome(c: Config, r: Request, l: Ledger, phase: Phase, j: nat, model: nat, a: nat)
    requires RequestOk(c, r, l, Before(phase, j), model) && phase != Free && a <= c.k
    requires phase == PrefillDraft || phase == Draft ==> c.hasDraft
    requires phase == Draft ==> j < c.k
    requires phase == Verify ==> 0 < c.k && j == if c.hasDraft then c.k else 0
    ensures var r' := Finished(c, r, phase, j, a);
            var l' := LedgerAfter(c, l, r, InputsOf(c, r, phase, j), model, phase, a);
            if Retires(c, phase) then GoesOn(c, r', l', model + 1)
            else RequestOk(c, r', l', if phase == PrefillTarget then TargetDone else Gen(j + 1), model + 1)
  {
    LedgerAfterSpan(c, l, r, phase, j, model, a);
    match phase
    case PrefillTarget => PrefillTargetOk(c, r, l, j, model, model);
    case PrefillDraft => PrefillDraftOk(c, r, l, j, model, model);
    case Draft => DraftOk(c, r, l, j, model, model);
    case Verify => VerifyOk(c, r, l, j, model, a, model);
    case Plain => PlainOk(c, r, l, j, model, model);
  }

  /** The launch in flight seen from one request: in the batch it is at the stage the phase
      calls for, and outside it is generating, between steps. */
  lemma InFlight(c: Config, total: nat, s: State, id: nat)
    requires At(c, total, s, id) && PhasesOk(c, s) && FlightOk(c, s) && s.phase != Free && id in s.active
    ensures if id in s.batch then
              && StageOf(s, s.active[id]) == Before(s.phase, s.draftStep)
              && Select(s.flight, id) == InputsOf(c, s.active[id], s.phase, s.draftStep)
            else
              && s.active[id].genPhase && StageOf(s, s.active[id]) == Gen(0)
              && (s.phase == PrefillTarget || s.phase == PrefillDraft)
  {
    BatchInputsSplit(c, s.active, s.batch, s.phase, s.draftStep, id);
  }

  /** The outcome of the launch for one request that took part. */
  lemma EndedOutcome(c: Config, total: nat, s: State, acc: map<nat, nat>, id: nat)
    requires At(c, total, s, id) && PhasesOk(c, s) && FlightOk(c, s) && s.phase != Free
    requires id in s.active && id in s.batch && Accepted(acc, id) <= c.k
    ensures var r, l := After(c, s, acc, id), LedgerThen(c, s, acc, id);
            && if Retires(c, s.phase) then GoesOn(c, r, l, s.launches)
               else RequestOk(c, r, l, if s.phase == PrefillTarget then TargetDone else Gen(s.draftStep + 1),
                              s.launches)
  {
    hide RequestOk, Finished, LedgerAfter, GoesOn, InputsOf, VerdictsOk;
    InFlight(c, total, s, id);
    Outcome(c, s.active[id], s.ledger[id], s.phase, s.draftStep, s.launches - 1, Accepted(acc, id));
  }

  lemma FinishedId(c: Config, r: Request, phase: Phase, j: nat, a: nat)
    ensures Finished(c, r, phase, j, a).id == r.id && !Finished(c, r, phase, j, a).running
  {}

  lemma EndedRequest(c: Config, total: nat, s: State, acc: map<nat, nat>, id: nat)
    requires At(c, total, s, id) && PhasesOk(c, s) && FlightOk(c, s) && s.phase != Free
    requires id in s.active && Accepted(acc, id) <= c.k
    ensures var s', r, l := Ended(c, s, acc), After(c, s, acc, id), LedgerThen(c, s, acc, id);
            && r.id == id && !r.running && s'.phase == Free
            && (id in s'.active <==> !Leaves(c, s, acc, id))
            && (id in s'.active ==> RequestOk(c, r, l, StageOf(s', r), s.launches))
            && (id !in s'.active ==> RetiredOk(c, r, l, s.launches))
  {
    hide RowsOk, VerdictsOk, Finished, LedgerAfter, InputsOf, BatchInputs;
    if id in s.batch {
      FinishedId(c, s.active[id], s.phase, s.draftStep, Accepted(acc, id));
      EndedOutcome(c, total, s, acc, id);
    } else {
      InFlight(c, total, s, id);
      RequestLater(c, s.active[id], s.ledger[id], Gen(0), s.launches - 1, s.launches);
      assert After(c, s, acc, id) == s.active[id].(running := s.active[id].running);
    }
  }

  lemma EndedAt(c: Config, total: nat, s: State, acc: map<nat, nat>, id: nat)
    requires At(c, total, s, id) && PhasesOk(c, s) && FlightOk(c, s) && s.phase != Free && Accepted(acc, id) <= c.k
    ensures At(c, total, Ended(c, s, acc), id)
  {
    hide RequestOk, Finished, LedgerAfter, InputsOf, BatchInputs, VerdictsOk, RowsOk;
    var s' := Ended(c, s, acc);
    if id in s.active {
      EndedRequest(c, total, s, acc, id);
      EndedBatch(c, total, s, acc, id);
      assert id in s'.ledger && s'.ledger[id] == LedgerThen(c, s, acc, id);
    } else if id in s.retired {
      VerdictsLater(s.ledger[id], s.launches - 1, s.launches);
    }
  }

  lemma EndedBatch(c: Config, total: nat, s: State, acc: map<nat, nat>, id: nat)
    requires At(c, total, s, id) && PhasesOk(c, s) && FlightOk(c, s) && s.phase != Free && id in s.active
    ensures BatchAt(Ended(c, s, acc), id)
  {
    InFlight(c, total, s, id);
  }

  lemma EndedFits(c: Config, s: State, acc: map<nat, nat>)
    requires PhasesOk(c, s) && FlightOk(c, s) && s.phase != Free && s.modelQueue == []
    ensures PhasesOk(c, Ended(c, s, acc)) && FlightOk(c, Ended(c, s, acc))
  {
    var s' := Ended(c, s, acc);
    assert s'.next != Free ==> !Retires(c, s.phase);
    forall i | 0 <= i < |s.batch| && s'.next != Free
      ensures s.batch[i] in s'.active && s'.active[s.batch[i]].id == s.batch[i]
    {
      assert s.batch[i] in s.active;
    }
  }

  /** A launch leaves less to do for a request that took part, a draft pass excepted. */
  lemma OutcomeLeft(c: Config, r: Request, l: Ledger, phase: Phase, j: nat, a: nat, launches: nat)
    requires RequestOk(c, r, l, Before(phase, j), launches) && phase != Free
    ensures var r' := Finished(c, r, phase, j, a);
            if Retires(c, phase) then
              (if r'.targetLength <= r'.currentLength then 0 else Left(r', Gen(0))) < Left(r, Before(phase, j))
            else if phase == Draft then Left(r', Gen(j + 1)) == Left(r, Gen(j))
            else Left(r', TargetDone) < Left(r, Fresh)
  {}

  lemma EndedLeft(c: Config, total: nat, s: State, acc: map<nat, nat>, id: nat)
    requires At(c, total, s, id) && PhasesOk(c, s) && FlightOk(c, s) && s.phase != Free
    ensures LeftAt(total, Ended(c, s, acc), id) <= LeftAt(total, s, id)
    ensures id in s.batch && s.phase != Draft && id in s.active ==>
              LeftAt(total, Ended(c, s, acc), id) < LeftAt(total, s, id)
  {
    hide InputsOf, LedgerAfter, RequestOk, RetiredOk, BatchInputs, Finished, Left;
    if id in s.active {
      InFlight(c, total, s, id);
      if id in s.batch {
        OutcomeLeft(c, s.active[id], s.ledger[id], s.phase, s.draftStep, Accepted(acc, id), s.launches - 1);
        EndedStage(c, s, acc, id);
      }
    }
  }

  /** Where the end of a launch leaves a request of the batch. */
  lemma EndedStage(c: Config, s: State, acc: map<nat, nat>, id: nat)
    requires PhasesOk(c, s) && s.phase != Free && id in s.active && id in s.batch
    requires s.active[id].genPhase <==> !s.phase.Prefills()
    ensures var s', r := Ended(c, s, acc), After(c, s, acc, id);
            && (id in s'.active <==> !Leaves(c, s, acc, id)) && (id in s'.active ==> s'.active[id] == r)
            && StageOf(s', r) == if s.phase == PrefillTarget && c.hasDraft then TargetDone
                                 else if s.phase == Draft then Gen(s.draftStep + 1) else Gen(0)
  {
    hide LedgerAfter, InputsOf, BatchInputs;
  }

  /** The end of a launch keeps the invariant, whatever was accepted. */
  lemma EndedKeeps(c: Config, total: nat, s: State, acc: map<nat, nat>)
    requires Inv(c, total, s) && s.phase != Free && s.modelQueue == [] && AcceptedOk(c, acc)
    ensures Inv(c, total, Ended(c, s, acc))
  {
    var s' := Ended(c, s, acc);
    EndedFits(c, s, acc);
    forall id: nat ensures At(c, total, s', id) {
      assert At(c, total, s, id) && Accepted(acc, id) <= c.k;
      EndedAt(c, total, s, acc, id);
    }
    assert s'.active.Keys <= s.active.Keys;
    SubsetSize(s'.active.Keys, s.active.Keys);
  }

  /** The end of a launch is progress: a request advances, or the step nears its end. */
  lemma EndedProgress(c: Config, total: nat, s: State, acc: map<nat, nat>)
    requires Inv(c, total, s) && s.phase != Free && s.modelQueue == [] && AcceptedOk(c, acc)
    ensures Progress(c, total, s, Ended(c, s, acc))
  {
    hide RequestOk, Finished, LedgerAfter, InputsOf, BatchInputs, RetiredOk;
    var s' := Ended(c, s, acc);
    var before, after := Lefts(total, s), Lefts(total, s');
    forall id: nat | id < total
      ensures after[id] <= before[id] && (id in s.batch && s.phase != Draft ==> after[id] < before[id])
    {
      assert At(c, total, s, id);
      EndedLeft(c, total, s, acc, id);
    }
    SumMonotone(after, before);
    var id := s.batch[0];
    assert id in s.active;
    assert At(c, total, s, id);
    assert s.phase != Draft ==> after[id] < before[id];
  }

  /** Committed rows are final.  A row below the length before a launch keeps its last
      writer; a row the launch brings below the length was written by that very launch, by
      a slot it accepted; and a row the launch wrote above is marked rejected. */
  lemma CommittedRow(c: Config, r: Request, l: Ledger, phase: Phase, j: nat, model: nat, a: nat, row: nat)
    requires RequestOk(c, r, l, Before(phase, j), model) && phase.Generates() && a <= c.k
    ensures var l' := LedgerAfter(c, l, r, InputsOf(c, r, phase, j), model, phase, a);
            var length, length' := r.currentLength, Finished(c, r, phase, j, a).currentLength;
            && length <= length' <= length + c.k + 1
            && (row < length ==>
                (row in l.target <==> row in l'.target) && (row in l.target ==> l'.target[row] == l.target[row]))
            && (length <= row < length' ==>
                row in l'.target && l'.target[row] == Tag(model, phase, row - length, false))
            && (phase == Verify && length' <= row <= length + c.k ==>
                  row in l'.target && l'.target[row] == Tag(model, Verify, row - length, true))
  {
    hide RowsOk;
    LedgerAfterSpan(c, l, r, phase, j, model, a);
    WrittenAt(l.target, Span(c, r, phase, j), r.currentLength, model, phase, row);
    assert VerdictOk(l, model, row);
  }

  /** The draft cache likewise.  A row below the draft length before and after a launch keeps
      its last writer; a row the launch brings below it was written by that very launch, a
      draft pass; and a row a verify cuts off is marked rejected, by its slot. */
  lemma CommittedDraftRow(c: Config, r: Request, l: Ledger, phase: Phase, j: nat, model: nat, a: nat, row: nat)
    requires RequestOk(c, r, l, Before(phase, j), model) && phase.Generates() && a <= c.k && c.hasDraft
    requires phase == Draft ==> j < c.k
    requires phase == Verify ==> 0 < c.k && j == c.k
    ensures var l' := LedgerAfter(c, l, r, InputsOf(c, r, phase, j), model, phase, a);
            var length, length' := r.draftLength, Finished(c, r, phase, j, a).draftLength;
            && (phase == Draft <==> length < length') && (length' < length ==> phase == Verify)
            && (row < length && row < length' ==>
                (row in l.draft <==> row in l'.draft) && (row in l.draft ==> l'.draft[row] == l.draft[row]))
            && (length <= row < length' ==>
                row in l'.draft && l'.draft[row] == Tag(model, Draft, row - r.currentLength, false))
            && (length' <= row < length ==>
                  row in l'.draft && l'.draft[row].rejected && l'.draft[row].slot == row - r.currentLength &&
                      a < l'.draft[row].slot)
  {
    hide VerdictsOk;
    LedgerAfterSpan(c, l, r, phase, j, model, a);
    assert RowOk(l.draft, l.cached, FirstRow(l, r), r.draftLength, row);
    if phase == Draft {
      WrittenAt(l.draft, Span(c, r, Draft, j), r.currentLength, model, Draft, row);
      DraftWidth(c, r, l, j, model);
    } else if phase == Verify {
      assert DraftVerdictOk(c.k, l, model, j, r.currentLength, row);
    }
  }

  /** Both of a reachable state, for any request of the batch in flight. */
  lemma CommittedStay(c: Config, total: nat, s: State, acc: map<nat, nat>, id: nat, row: nat)
    requires Inv(c, total, s) && s.phase.Generates() && id in s.active && Accepted(acc, id) <= c.k
    ensures id in s.batch && id in s.ledger
    ensures var l, l' := s.ledger[id], LedgerThen(c, s, acc, id);
            var length, length' := s.active[id].currentLength, After(c, s, acc, id).currentLength;
            && length <= length' <= length + c.k + 1
            && (row < length ==>
                (row in l.target <==> row in l'.target) && (row in l.target ==> l'.target[row] == l.target[row]))
            && (length <= row < length' ==>
                row in l'.target && l'.target[row] == Tag(s.launches - 1, s.phase, row - length, false))
            && (s.phase == Verify && length' <= row <= length + c.k ==>
                  row in l'.target && l'.target[row] == Tag(s.launches - 1, Verify, row - length, true))
    ensures var l, l' := s.ledger[id], LedgerThen(c, s, acc, id);
            var length, length', zero := s.active[id].draftLength, After(c, s, acc, id).draftLength,
                s.active[id].currentLength;
            c.hasDraft ==>
              && (s.phase == Draft <==> length < length') && (length' < length ==> s.phase == Verify)
              && (row < length && row < length' ==>
                  (row in l.draft <==> row in l'.draft) && (row in l.draft ==> l'.draft[row] == l.draft[row]))
              && (length <= row < length' ==>
                  row in l'.draft && l'.draft[row] == Tag(s.launches - 1, Draft, row - zero, false))
              && (length' <= row < length ==>
                    row in l'.draft && l'.draft[row].rejected && l'.draft[row].slot == row - zero &&
                        Accepted(acc, id) < l'.draft[row].slot)
  {
    hide RequestOk, RetiredOk, Finished, LedgerAfter, InputsOf, BatchInputs, Written;
    assert At(c, total, s, id);
    InFlight(c, total, s, id);
    CommittedRow(c, s.active[id], s.ledger[id], s.phase, s.draftStep, s.launches - 1, Accepted(acc, id), row);
    if c.hasDraft {
      CommittedDraftRow(c, s.active[id], s.ledger[id], s.phase, s.draftStep, s.launches - 1, Accepted(acc, id), row);
    }
  }

  // ---- What a request keeps from the trace to its end ----

  predicate SameRequest(o: Request, r: Request) {
    r.id == o.id && r.requestTime == o.requestTime && r.promptLength == o.promptLength &&
        r.targetLength == o.targetLength
  }

  /** Request id is still as it came, or has kept what the trace said of it. */
  ghost predicate OriginAt(origin: seq<Request>, s: State, id: nat) {
    |s.queue| <= |origin| && (id < |origin| ==>
      && (|origin| - |s.queue| <= id ==> s.queue[id - (|origin| - |s.queue|)] == origin[id])
      && (id in s.ledger ==> s.ledger[id].cached == origin[id].currentLength)
      && (id in s.active ==> SameRequest(origin[id], s.active[id]))
      && (id in s.retired ==> SameRequest(origin[id], s.retired[id])))
  }

  ghost predicate Origins(origin: seq<Request>, s: State) {
    forall id: nat :: OriginAt(origin, s, id)
  }

  lemma AdmitOneOrigins(c: Config, origin: seq<Request>, s: State)
    requires Inv(c, |origin|, s) && Origins(origin, s) && s.queue != []
    ensures Origins(origin, AdmitOne(c, s))
  {
    var s' := AdmitOne(c, s);
    var id0 := |origin| - |s.queue|;
    assert At(c, |origin|, s, id0) && OriginAt(origin, s, id0);
    forall id: nat ensures OriginAt(origin, s', id) {
      assert OriginAt(origin, s, id);
    }
  }

  lemma LaunchedOrigins(c: Config, origin: seq<Request>, s: State, phase: Phase)
    requires Origins(origin, s) && forall i | 0 <= i < |s.batch| :: s.batch[i] in s.active
    ensures Origins(origin, Launched(c, s, phase))
  {
    hide BatchInputs;
    var s' := Launched(c, s, phase);
    forall id: nat ensures OriginAt(origin, s', id) {
      assert OriginAt(origin, s, id);
    }
  }

  lemma LedgerCached(c: Config, s: State, acc: map<nat, nat>, id: nat)
    requires id in s.ledger
    ensures LedgerThen(c, s, acc, id).cached == s.ledger[id].cached
  {
    hide WrittenAll, JudgeSlots, JudgeDrafts;
  }

  lemma EndedOrigins(c: Config, origin: seq<Request>, s: State, acc: map<nat, nat>)
    requires Origins(origin, s)
    ensures Origins(origin, Ended(c, s, acc))
  {
    hide LedgerThen, Accepted;
    var s' := Ended(c, s, acc);
    forall id: nat ensures OriginAt(origin, s', id) {
      assert OriginAt(origin, s, id);
      if id in s.ledger { LedgerCached(c, s, acc, id); }
    }
  }

  // ---- What the invariant says of a reachable state ----

  /** A counted row above the prefill was last written by a slot that counts: in the target
      cache of a plain step or an accepted slot of a verify launch, in the draft cache of a
      draft pass, the slot being an accepted one once the step is over. */
  lemma CountedRowsAreCommitted(c: Config, total: nat, s: State, id: nat, row: nat)
    requires Inv(c, total, s) && id in s.active && s.active[id].genPhase
    ensures id in s.ledger
    ensures var r, l := s.active[id], s.ledger[id];
            FirstRow(l, r) <= row < r.currentLength ==>
              && row in l.target && !l.target[row].rejected && l.target[row].phase.Generates() &&
                 l.target[row].model < s.launches
              && (l.target[row].phase == Verify ==>
                    l.target[row].model in l.verdicts && 0 <= l.target[row].slot <= l.verdicts[l.target[row].model])
    ensures var r, l := s.active[id], s.ledger[id];
            c.hasDraft && FirstRow(l, r) <= row < r.draftLength ==>
              && row in l.draft && !l.draft[row].rejected && l.draft[row].phase == Draft &&
                 l.draft[row].model < s.launches
              && (row < r.currentLength || l.draft[row].slot == row - r.currentLength)
              && (JudgedBy(c.k, l.draft[row]) < Done(s) ==>
                    JudgedBy(c.k, l.draft[row]) in l.verdicts &&
                        l.draft[row].slot <= l.verdicts[JudgedBy(c.k, l.draft[row])])
  {
    assert At(c, total, s, id);
    var r, l := s.active[id], s.ledger[id];
    assert RowOk(l.target, l.cached, FirstRow(l, r), r.currentLength, row) && VerdictOk(l, Done(s), row);
    if c.hasDraft {
      var j := StageOf(s, r).j;
      assert RowOk(l.draft, l.cached, FirstRow(l, r), r.draftLength, row) &&
          DraftVerdictOk(c.k, l, Done(s), j, r.currentLength, row);
    }
  }

  /** Below the first row generated, both caches hold exactly the rows of the prompt, behind
      those cached before, written by the prefill of that cache's model. */
  lemma PromptRowsWritten(c: Config, total: nat, s: State, id: nat, row: nat)
    requires Inv(c, total, s) && id in s.active && s.active[id].genPhase
    ensures id in s.ledger
    ensures var r, l := s.active[id], s.ledger[id];
            row < FirstRow(l, r) ==>
              && (row in l.target <==> l.cached <= row < l.cached + r.promptLength)
              && (row in l.target ==> l.target[row].phase == PrefillTarget)
              && (c.hasDraft ==>
                    && (row in l.draft <==> l.cached <= row < l.cached + r.promptLength)
                    && (row in l.draft ==> l.draft[row].phase == PrefillDraft))
  {
    assert At(c, total, s, id);
    var r, l := s.active[id], s.ledger[id];
    assert RowOk(l.target, l.cached, FirstRow(l, r), r.currentLength, row) && VerdictOk(l, Done(s), row);
    if c.hasDraft {
      assert RowOk(l.draft, l.cached, FirstRow(l, r), r.draftLength, row);
      assert DraftVerdictOk(c.k, l, Done(s), StageOf(s, r).j, r.currentLength, row);
    }
  }

  /** A model goes out as the draft model exactly when its launch writes draft caches: the other
      cache of every request is left as it is. */
  lemma ModelWritesItsCache(c: Config, s: State, acc: map<nat, nat>, id: nat, row: nat)
    requires FlightOk(c, s) && s.phase != Free && s.modelQueue != [] && id in s.ledger
    ensures s.modelQueue[0].inputs == s.flight
    ensures var l, l' := s.ledger[id], LedgerThen(c, s, acc, id);
            && (s.modelQueue[0].draft ==> l'.target == l.target)
            && (!s.modelQueue[0].draft ==> l'.draft.Keys == l.draft.Keys)
            && (!s.modelQueue[0].draft && row in l.draft ==>
                  l'.draft[row].(rejected := l.draft[row].rejected) == l.draft[row])
  {}

  /** Marked running are exactly the requests of the model that is out. */
  lemma RunningIsOut(c: Config, total: nat, s: State, id: nat)
    requires Inv(c, total, s) && id in s.active
    ensures s.active[id].running <==> exists m: nat :: m in s.inModel && id in s.inModel[m]
  {
    assert At(c, total, s, id);
    if s.phase != Free { assert s.launches - 1 in s.inModel; }
  }

  /** A rejected row, of either cache, is at or above that cache's length. */
  lemma RejectedRowsAreAbove(c: Config, total: nat, s: State, id: nat, row: nat)
    requires Inv(c, total, s) && id in s.active && s.active[id].genPhase
    ensures id in s.ledger
    ensures var r, l := s.active[id], s.ledger[id];
            && (row in l.target && l.target[row].rejected ==> r.currentLength <= row)
            && (c.hasDraft && row in l.draft && l.draft[row].rejected ==> r.draftLength <= row)
  {
    assert At(c, total, s, id);
    var r, l := s.active[id], s.ledger[id];
    assert RowOk(l.target, l.cached, FirstRow(l, r), r.currentLength, row);
    if c.hasDraft {
      assert RowOk(l.draft, l.cached, FirstRow(l, r), r.draftLength, row);
    }
  }

  /** A generating request's length is its prefill, its accepted tokens and its steps; its
      draft length lags by at most one more than the plain steps since the last draft pass,
      and during draft step j is exactly j ahead. */
  lemma LengthsAddUp(c: Config, total: nat, s: State, id: nat)
    requires Inv(c, total, s) && id in s.active && s.active[id].genPhase
    ensures id in s.ledger
    ensures var r, l := s.active[id], s.ledger[id];
            && r.currentLength == FirstRow(l, r) + r.specAccepted + r.specSteps + l.plainSteps &&
               r.currentLength < r.targetLength
            && (c.hasDraft ==>
                  if (s.next == Draft || s.next == Verify) && 1 <= s.draftStep then
                    r.draftLength == r.currentLength + s.draftStep
                  else r.draftLength <= r.currentLength <= r.draftLength + 1 + l.lag)
  {
    assert At(c, total, s, id);
  }

  /** The count a verify is given is what it commits: that many draft tokens of the request and
      one more, and no other request is touched. */
  lemma VerifyAccepts(c: Config, total: nat, s: State, acc: map<nat, nat>, id: nat)
    requires Inv(c, total, s) && s.phase == Verify && id in s.active && id in acc
    ensures id in s.batch
    ensures var r, r' := s.active[id], After(c, s, acc, id);
            && r'.currentLength == r.currentLength + acc[id] + 1
            && r'.specAccepted == r.specAccepted + acc[id] && r'.specSteps == r.specSteps + 1
  {
    assert At(c, total, s, id);
  }

  /** At most one model is in flight, no more requests are active than the limit allows, and
      every id of the batch is active whenever the batch is used. */
  lemma BatchIsActive(c: Config, total: nat, s: State, i: nat)
    requires Inv(c, total, s)
    ensures |s.inModel| <= 1 && |s.modelQueue| <= 1 && (0 < c.maxBatch ==> |s.active| <= c.maxBatch)
    ensures (s.phase != Free || s.next != Free) && i < |s.batch| ==> s.batch[i] in s.active
    ensures i < |s.modelQueue| ==> s.modelQueue[i].id in s.inModel && s.inModel[s.modelQueue[i].id] == s.batch
  {
    if s.phase != Free {
      assert s.inModel == map[s.launches - 1 := s.batch];
    }
  }
}
