/** The scheduler and the open-loop trace generator, fed the same accepted counts, move in
    step: same row counts, same stale rows, same retirement. */
module SpecLockstep {
  import opened SpecDecModel
  import SpecDec
  import opened SpecTrace

  /** A request of the scheduler with the record of its rows. */
  datatype Pair = Pair(r: Request, l: Ledger)

  /** One step of a batch, seen from one of its requests. */
  datatype Step = PlainStep | SpecStep(accepted: nat)

  function Launch(c: Config, p: Pair, phase: Phase, j: nat, model: nat, a: nat): Pair {
    Pair(Finished(c, p.r, phase, j, a), LedgerAfter(c, p.l, p.r, InputsOf(c, p.r, phase, j), model, phase, a))
  }

  function Drafts(c: Config): nat {
    if c.hasDraft then c.k else 0
  }

  function Drafted(c: Config, p: Pair, n: nat, model: nat): Pair {
    if n == 0 then p else Launch(c, Drafted(c, p, n - 1, model), Draft, n - 1, model + n - 1, 0)
  }

  function Launches(c: Config, step: Step): nat {
    if step.PlainStep? then 1 else Drafts(c) + 1
  }

  function Stepped(c: Config, p: Pair, step: Step, model: nat): Pair {
    match step
    case PlainStep => Launch(c, p, Plain, 0, model, 0)
    case SpecStep(a) => Launch(c, Drafted(c, p, Drafts(c), model), Verify, Drafts(c), model + Drafts(c), a)
  }

  function TraceDrafted(g: Served, n: nat): Served {
    if n == 0 then g else AfterDraft(TraceDrafted(g, n - 1), n - 1)
  }

  function TraceStepped(c: Config, g: Served, step: Step): Served {
    match step
    case PlainStep => AfterPlain(g)
    case SpecStep(a) => AfterVerify(c.hasDraft, c.k, TraceDrafted(g, Drafts(c)), a)
  }

  predicate Permitted(c: Config, step: Step) {
    step.SpecStep? ==> 0 < c.k && step.accepted <= c.k
  }

  // ---- What it means to agree ----

  /** The generator's stale rows are the rejected rows, and above the draft length there is
      nothing else. */
  ghost predicate RowMirrors(c: Config, p: Pair, g: Served, row: nat) {
    && (row in g.staleT <==> row in p.l.target && p.l.target[row].rejected)
    && (row in g.staleT ==> row < g.t + c.k)
    && (c.hasDraft ==> (row in g.staleD <==> row in p.l.draft && p.l.draft[row].rejected))
    && (c.hasDraft && row in g.staleD ==> row < g.t + c.k)
    && (c.hasDraft && row in p.l.draft && g.d <= row ==> p.l.draft[row].rejected)
  }

  ghost predicate RowsMirror(c: Config, p: Pair, g: Served) {
    forall row: nat :: RowMirrors(c, p, g, row)
  }

  ghost predicate Mirrors(c: Config, p: Pair, g: Served) {
    && g.t == p.r.currentLength && (c.hasDraft ==> g.d == p.r.draftLength)
    && g.steps == p.r.specSteps && g.acc == p.r.specAccepted
    && g.done == 1 + p.r.specAccepted + p.r.specSteps + p.l.plainSteps
    && p.r.targetLength == p.l.cached + p.r.promptLength + g.gen
    && RowsMirror(c, p, g)
  }

  // ---- One launch ----

  lemma PlainMirrors(c: Config, p: Pair, g: Served, model: nat)
    requires Mirrors(c, p, g) && RequestOk(c, p.r, p.l, Gen(0), model)
    ensures Mirrors(c, Launch(c, p, Plain, 0, model, 0), AfterPlain(g))
  {
    hide RequestOk;
    var p', g' := Launch(c, p, Plain, 0, model, 0), AfterPlain(g);
    LedgerAfterSpan(c, p.l, p.r, Plain, 0, model, 0);
    forall row: nat ensures RowMirrors(c, p', g', row) {
      assert RowMirrors(c, p, g, row);
      WrittenAt(p.l.target, Span(c, p.r, Plain, 0), p.r.currentLength, model, Plain, row);
    }
  }

  lemma DraftMirrors(c: Config, p: Pair, g: Served, j: nat, model: nat)
    requires Mirrors(c, p, g) && c.hasDraft && RequestOk(c, p.r, p.l, Gen(j), model)
    ensures Mirrors(c, Launch(c, p, Draft, j, model, 0), AfterDraft(g, j))
  {
    var p', g' := Launch(c, p, Draft, j, model, 0), AfterDraft(g, j);
    DraftWidth(c, p.r, p.l, j, model);
    hide RequestOk;
    LedgerAfterSpan(c, p.l, p.r, Draft, j, model, 0);
    forall row: nat ensures RowMirrors(c, p', g', row) {
      assert RowMirrors(c, p, g, row);
      WrittenAt(p.l.draft, Span(c, p.r, Draft, j), p.r.currentLength, model, Draft, row);
    }
  }

  lemma VerifyRowMirrors(c: Config, p: Pair, g: Served, model: nat, a: nat, row: nat)
    requires Mirrors(c, p, g) && RequestOk(c, p.r, p.l, Gen(Drafts(c)), model) && 0 < c.k && a <= c.k
    ensures RowMirrors(c, Launch(c, p, Verify, Drafts(c), model, a), AfterVerify(c.hasDraft, c.k, g, a), row)
  {
    assert RowMirrors(c, p, g, row);
    if c.hasDraft {
      assert RowOk(p.l.draft, p.l.cached, FirstRow(p.l, p.r), p.r.draftLength, row) &&
          DraftVerdictOk(c.k, p.l, model, c.k, p.r.currentLength, row);
    }
    LedgerAfterSpan(c, p.l, p.r, Verify, Drafts(c), model, a);
    WrittenAt(p.l.target, Span(c, p.r, Verify, Drafts(c)), p.r.currentLength, model, Verify, row);
    assert VerdictOk(p.l, model, row);
  }

  lemma VerifyMirrors(c: Config, p: Pair, g: Served, model: nat, a: nat)
    requires Mirrors(c, p, g) && RequestOk(c, p.r, p.l, Gen(Drafts(c)), model) && 0 < c.k && a <= c.k
    ensures Mirrors(c, Launch(c, p, Verify, Drafts(c), model, a), AfterVerify(c.hasDraft, c.k, g, a))
  {
    var p', g' := Launch(c, p, Verify, Drafts(c), model, a), AfterVerify(c.hasDraft, c.k, g, a);
    hide RequestOk;
    forall row: nat ensures RowMirrors(c, p', g', row) {
      VerifyRowMirrors(c, p, g, model, a, row);
    }
  }

  // ---- One step ----

  lemma {:induction false} DraftedMirrors(c: Config, p: Pair, g: Served, n: nat, model: nat)
    requires Mirrors(c, p, g) && RequestOk(c, p.r, p.l, Gen(0), model) && n <= c.k && (n == 0 || c.hasDraft)
    ensures Mirrors(c, Drafted(c, p, n, model), TraceDrafted(g, n))
    ensures RequestOk(c, Drafted(c, p, n, model).r, Drafted(c, p, n, model).l, Gen(n), model + n)
    ensures Drafted(c, p, n, model).r.targetLength == p.r.targetLength && TraceDrafted(g, n).gen == g.gen
  {
    hide Mirrors, RequestOk, LedgerAfter;
    if n != 0 {
      DraftedMirrors(c, p, g, n - 1, model);
      var q := Drafted(c, p, n - 1, model);
      DraftMirrors(c, q, TraceDrafted(g, n - 1), n - 1, model + n - 1);
      SpecDec.Outcome(c, q.r, q.l, Draft, n - 1, model + n - 1, 0);
    }
  }

  /** After any step the two sides agree again, and the request goes on or is done on both. */
  lemma StepMirrors(c: Config, p: Pair, g: Served, step: Step, model: nat)
    requires Mirrors(c, p, g) && RequestOk(c, p.r, p.l, Gen(0), model) && Permitted(c, step)
    ensures Mirrors(c, Stepped(c, p, step, model), TraceStepped(c, g, step))
    ensures GoesOn(c, Stepped(c, p, step, model).r, Stepped(c, p, step, model).l, model + Launches(c, step))
  {
    hide Mirrors, RequestOk, GoesOn, LedgerAfter, Finished, AfterVerify, AfterPlain;
    match step
    case PlainStep =>
      PlainMirrors(c, p, g, model);
      SpecDec.Outcome(c, p.r, p.l, Plain, 0, model, 0);
    case SpecStep(a) =>
      var n := Drafts(c);
      DraftedMirrors(c, p, g, n, model);
      var q := Drafted(c, p, n, model);
      VerifyMirrors(c, q, TraceDrafted(g, n), model + n, a);
      SpecDec.Outcome(c, q.r, q.l, Verify, n, model + n, a);
  }

  /** A mirrored request is at its target exactly when the generator counts it done. */
  lemma RetireTogether(c: Config, p: Pair, g: Served)
    requires Mirrors(c, p, g) && p.r.currentLength == FirstRow(p.l, p.r) + p.r.specAccepted + p.r.specSteps +
             p.l.plainSteps
    ensures p.r.targetLength <= p.r.currentLength <==> g.gen <= g.done
  {
    hide RowsMirror;
  }

  /** Every stale row is one of the k + 1 rows the next verify writes, so nothing stale
      survives it but what it rejects itself. */
  lemma VerifyRewritesStale(c: Config, p: Pair, g: Served, model: nat, a: nat)
    requires Mirrors(c, p, g) && RequestOk(c, p.r, p.l, Gen(Drafts(c)), model) && a <= c.k
    ensures g.staleT <= Range(g.t, g.t + c.k + 1)
    ensures Hits(g.staleT, g.t, g.t + c.k + 1) == |g.staleT|
    ensures AfterVerify(c.hasDraft, c.k, g, a).staleT == Range(g.t + a + 1, g.t + c.k + 1)
  {
    hide RequestOk;
    forall row | row in g.staleT ensures row in Range(g.t, g.t + c.k + 1) {
      assert RowMirrors(c, p, g, row);
      RejectedAbove(c, p, row, model);
    }
    assert g.staleT * Range(g.t, g.t + c.k + 1) == g.staleT;
    assert g.staleT - Range(g.t, g.t + c.k + 1) == {};
  }

  /** The rows the passes of a step write, from the draft rows up. */
  lemma {:induction false} PassesWrite(g: Served, n: nat)
    requires g.d <= g.t && 0 < n
    ensures TraceDrafted(g, n).d == g.t + n && TraceDrafted(g, n).t == g.t
    ensures TraceDrafted(g, n).staleD == g.staleD - Range(g.d, g.t + n)
  {
    if n == 1 {
      assert TraceDrafted(g, 1) == AfterDraft(TraceDrafted(g, 0), 0);
    } else {
      PassesWrite(g, n - 1);
      assert Range(g.d, g.t + n) == Range(g.d, g.t + n - 1) + Range(g.t + n - 1, g.t + n);
    }
  }

  /** The draft cache likewise: every stale draft row is one of those the draft passes of the
      next step write, so none is left when that step is verified, and the verify leaves stale
      exactly the rows it cuts off. */
  lemma DraftsRewriteStale(c: Config, p: Pair, g: Served, model: nat, a: nat)
    requires Mirrors(c, p, g) && RequestOk(c, p.r, p.l, Gen(0), model) && c.hasDraft && 0 < c.k && a <= c.k
    ensures g.staleD <= Range(g.d, g.t + c.k)
    ensures TraceDrafted(g, c.k).staleD == {}
    ensures AfterVerify(true, c.k, TraceDrafted(g, c.k), a).staleD == Range(g.t + a + 1, g.t + c.k)
  {
    forall row | row in g.staleD ensures row in Range(g.d, g.t + c.k) {
      assert RowMirrors(c, p, g, row);
      assert RowOk(p.l.draft, p.l.cached, FirstRow(p.l, p.r), p.r.draftLength, row);
    }
    PassesWrite(g, c.k);
    assert g.staleD - Range(g.d, g.t + c.k) == {};
    if g.t + c.k <= g.t + a + 1 { assert Range(g.t + a + 1, g.t + c.k) == {}; }
  }

  lemma RejectedAbove(c: Config, p: Pair, row: nat, model: nat)
    requires RequestOk(c, p.r, p.l, Gen(Drafts(c)), model) && row in p.l.target && p.l.target[row].rejected
    ensures p.r.currentLength <= row
  {
    assert RowOk(p.l.target, p.l.cached, FirstRow(p.l, p.r), p.r.currentLength, row);
  }

  // ---- Whole runs ----

  /** A run of one request: what it ends as, and the steps it took before it retired. */
  datatype Ran<T> = Ran(last: T, steps: nat)

  /** The scheduler looks whether a request is done before each step, the first included. */
  function Scheduled(c: Config, p: Pair, steps: seq<Step>, model: nat): Ran<Pair>
    decreases |steps|
  {
    if steps == [] || p.r.targetLength <= p.r.currentLength then Ran(p, 0)
    else
      var rest := Scheduled(c, Stepped(c, p, steps[0], model), steps[1..], model + Launches(c, steps[0]));
      Ran(rest.last, rest.steps + 1)
  }

  /** The generator looks only after each step. */
  function Generated(c: Config, g: Served, steps: seq<Step>): Ran<Served>
    decreases |steps|
  {
    if steps == [] then Ran(g, 0)
    else
      var g' := TraceStepped(c, g, steps[0]);
      if g'.gen <= g'.done then Ran(g', 1)
      else
        var rest := Generated(c, g', steps[1..]);
        Ran(rest.last, rest.steps + 1)
  }

  ghost predicate AllPermitted(c: Config, steps: seq<Step>) {
    forall i | 0 <= i < |steps| :: Permitted(c, steps[i])
  }

  lemma GoesOnCount(c: Config, r: Request, l: Ledger, launches: nat)
    requires GoesOn(c, r, l, launches)
    ensures r.currentLength == FirstRow(l, r) + r.specAccepted + r.specSteps + l.plainSteps
    ensures r.currentLength < r.targetLength ==> RequestOk(c, r, l, Gen(0), launches)
  {}

  /** From any request that is generating, both sides take the same steps to the same rows. */
  lemma {:induction false} RunMirrors(c: Config, p: Pair, g: Served, steps: seq<Step>, model: nat)
    requires Mirrors(c, p, g) && RequestOk(c, p.r, p.l, Gen(0), model) && AllPermitted(c, steps)
    requires p.r.currentLength < p.r.targetLength
    ensures var s, t := Scheduled(c, p, steps, model), Generated(c, g, steps);
            s.steps == t.steps && Mirrors(c, s.last, t.last)
    decreases |steps|
  {
    hide Mirrors, RequestOk, GoesOn, Stepped, TraceStepped, Launches;
    if steps != [] {
      assert Permitted(c, steps[0]);
      StepMirrors(c, p, g, steps[0], model);
      var q, h, m := Stepped(c, p, steps[0], model), TraceStepped(c, g, steps[0]), model + Launches(c, steps[0]);
      GoesOnCount(c, q.r, q.l, m);
      RetireTogether(c, q, h);
      if q.r.currentLength < q.r.targetLength {
        RunMirrors(c, q, h, steps[1..], m);
      }
    }
  }

  /** The line of the scheduler's trace that stands for a prompt with gen tokens to come: a
      prefill of one token after prompt - 1 cached rows. */
  predicate StandsFor(c: Config, r: Request, prompt: nat, gen: nat) {
    && 1 <= prompt && r.promptLength == 1 && r.currentLength == prompt - 1 && r.targetLength == prompt - 1 + 1 + gen
    && !r.genPhase && r.specSteps == r.specAccepted == 0 && (c.hasDraft ==> r.draftLength == r.currentLength)
  }

  function Prefilled(c: Config, r: Request, model: nat): Pair {
    var p := Launch(c, Pair(r, Ledger(r.currentLength, 0, 0, map[], map[], map[])), PrefillTarget, 0, model, 0);
    if c.hasDraft then Launch(c, p, PrefillDraft, 0, model + 1, 0) else p
  }

  lemma PrefilledOk(c: Config, r: Request, prompt: nat, gen: nat, model: nat)
    requires StandsFor(c, r, prompt, gen)
    ensures var p := Prefilled(c, r, model); GoesOn(c, p.r, p.l, model + 2)
  {
    hide GoesOn, LedgerAfter;
    var l := Ledger(r.currentLength, 0, 0, map[], map[], map[]);
    SpecDec.Outcome(c, r, l, PrefillTarget, 0, model, 0);
    var p := Launch(c, Pair(r, l), PrefillTarget, 0, model, 0);
    if c.hasDraft {
      SpecDec.Outcome(c, p.r, p.l, PrefillDraft, 0, model + 1, 0);
    } else {
      GoesOnLater(c, p.r, p.l, model + 1);
    }
  }

  lemma GoesOnLater(c: Config, r: Request, l: Ledger, launches: nat)
    requires GoesOn(c, r, l, launches)
    ensures GoesOn(c, r, l, launches + 1)
  {
    VerdictsLater(l, launches, launches + 1);
    if c.hasDraft && r.currentLength < r.targetLength {
      DraftVerdictsLater(c.k, l, l, launches, launches + 1, 0, r.currentLength, r.currentLength);
    }
  }

  lemma PrefilledMirrors(c: Config, r: Request, prompt: nat, gen: nat, model: nat)
    requires StandsFor(c, r, prompt, gen)
    ensures Mirrors(c, Prefilled(c, r, model), Admitted(prompt, gen))
  {
    var p, g := Prefilled(c, r, model), Admitted(prompt, gen);
    var l := Ledger(r.currentLength, 0, 0, map[], map[], map[]);
    LedgerAfterSpan(c, l, r, PrefillTarget, 0, model, 0);
    var p0 := Launch(c, Pair(r, l), PrefillTarget, 0, model, 0);
    if c.hasDraft {
      LedgerAfterSpan(c, p0.l, p0.r, PrefillDraft, 0, model + 1, 0);
    }
    forall row: nat ensures RowMirrors(c, p, g, row) {
      WrittenAt(map[], Span(c, r, PrefillTarget, 0), r.currentLength, model, PrefillTarget, row);
      if c.hasDraft {
        WrittenAt(map[], Span(c, p0.r, PrefillDraft, 0), p0.r.currentLength, model + 1, PrefillDraft, row);
      }
    }
  }

  /** The scheduler and the generator agree on every run of a request, on its rows and on
      the step it retires at, exactly when there are at least two tokens to generate; with
      fewer the scheduler retires it right after the prefill and the generator only after
      one more step. */
  lemma Lockstep(c: Config, r: Request, prompt: nat, gen: nat, steps: seq<Step>, model: nat)
    requires StandsFor(c, r, prompt, gen) && AllPermitted(c, steps) && steps != []
    ensures var s, t := Scheduled(c, Prefilled(c, r, model), steps, model + 2),
            Generated(c, Admitted(prompt, gen), steps);
            && (2 <= gen ==> Mirrors(c, s.last, t.last))
            && (s.steps == t.steps <==> 2 <= gen)
  {
    hide Mirrors, RequestOk, GoesOn, Stepped, TraceStepped, Launches;
    var p := Prefilled(c, r, model);
    PrefilledMirrors(c, r, prompt, gen, model);
    PrefilledOk(c, r, prompt, gen, model);
    GoesOnCount(c, p.r, p.l, model + 2);
    PrefilledTarget(c, r, prompt, gen, model);
    if 2 <= gen {
      RunMirrors(c, p, Admitted(prompt, gen), steps, model + 2);
    }
  }

  lemma PrefilledTarget(c: Config, r: Request, prompt: nat, gen: nat, model: nat)
    requires StandsFor(c, r, prompt, gen)
    ensures var p := Prefilled(c, r, model); p.r.targetLength <= p.r.currentLength <==> gen < 2
  {}
}
