/** Requests, model launches and the bookkeeping of KV rows for speculative decoding. */
module SpecDecModel {

  datatype Phase = Free | PrefillTarget | PrefillDraft | Draft | Verify | Plain
  {
    predicate Prefills() {
      PrefillTarget? || PrefillDraft?
    }

    predicate Generates() {
      Draft? || Verify? || Plain?
    }
  }

  /** Spec parameters: draft tokens per step, batch limit (0 = none), batch size above which
      a step is plain decode (0 = never), whether a draft model is simulated, and whether
      verification is one multi-token call (mqa) or k + 1 single-token ones (expand). */
  datatype Config = Config(k: nat, maxBatch: nat, disableBatch: nat, hasDraft: bool, mqa: bool)

  datatype Request = Request(
    id: nat,
    requestTime: nat,
    running: bool,
    genPhase: bool,
    promptLength: nat,
    currentLength: nat,
    targetLength: nat,
    draftLength: nat,
    specSteps: nat,
    specAccepted: nat)

  /** One sequence handed to a model: seqLength new tokens after contextLength resident rows. */
  datatype LangInput = LangInput(id: nat, seqLength: nat, contextLength: nat)

  datatype Model = Model(id: nat, draft: bool, inputs: seq<LangInput>)

  // ---- What the code does to one request ----

  /** The sequences a request contributes to a launch. */
  function InputsOf(c: Config, r: Request, phase: Phase, draftStep: nat): seq<LangInput> {
    match phase
    case Free => []
    case PrefillTarget => [LangInput(r.id, r.promptLength, r.currentLength)]
    case PrefillDraft => [LangInput(r.id, r.promptLength, r.draftLength)]
    case Plain => [LangInput(r.id, 1, r.currentLength)]
    case Draft =>
      var want := r.currentLength + draftStep + 1;
      [LangInput(r.id, if want > r.draftLength then want - r.draftLength else 1, r.draftLength)]
    case Verify =>
      if c.mqa then [LangInput(r.id, c.k + 1, r.currentLength)]
      else Singles(r.id, r.currentLength, c.k + 1)
  }

  /** n single-token sequences over one cache, the i-th seeing length + i rows. */
  function Singles(id: nat, length: nat, n: nat): (s: seq<LangInput>)
    ensures |s| == n && forall i | 0 <= i < n :: s[i] == LangInput(id, 1, length + i)
  {
    seq(n, i requires 0 <= i < n => LangInput(id, 1, length + i))
  }

  /** What the end of a launch does to a request that took part, a tokens being accepted. */
  function Finished(c: Config, r: Request, phase: Phase, draftStep: nat, a: nat): Request {
    var r := r.(running := false);
    match phase
    case Free => r
    case PrefillTarget =>
      r.(currentLength := r.currentLength + r.promptLength + 1, genPhase := r.genPhase || !c.hasDraft)
    case PrefillDraft => r.(draftLength := if c.hasDraft then r.currentLength else r.draftLength, genPhase := true)
    case Draft => r.(draftLength := if c.hasDraft then r.currentLength + draftStep + 1 else r.draftLength)
    case Plain => r.(currentLength := r.currentLength + 1)
    case Verify =>
      var rows := r.currentLength + a + 1;
      r.(specSteps := r.specSteps + 1, specAccepted := r.specAccepted + a, currentLength := rows,
         draftLength := if c.hasDraft && r.draftLength > rows then rows else r.draftLength)
  }

  // ---- Who wrote which KV row last ----

  /** The last write to a row: the launch, its phase, the slot (row minus the request's
      length when the launch started) and whether that slot's token was later rejected. */
  datatype Tag = Tag(model: nat, phase: Phase, slot: int, rejected: bool)

  type Rows = map<nat, Tag>

  /** The KV rows of one request.  verdicts holds, per finished verify launch, how many of
      its draft tokens were accepted; lag counts the plain steps since the last draft pass. */
  datatype Ledger = Ledger(cached: nat, plainSteps: nat, lag: nat, verdicts: map<nat, nat>, target: Rows, draft: Rows)

  function NewTag(model: nat, phase: Phase, length: nat, row: nat): Tag {
    Tag(model, phase, row - length, false)
  }

  function Written(rows: Rows, input: LangInput, length: nat, model: nat, phase: Phase): Rows {
    rows + map r: nat | input.contextLength <= r < input.contextLength + input.seqLength ::
             NewTag(model, phase, length, r)
  }

  function WrittenAll(rows: Rows, inputs: seq<LangInput>, length: nat, model: nat, phase: Phase): Rows {
    if inputs == [] then rows
    else Written(WrittenAll(rows, inputs[..|inputs| - 1], length, model, phase), inputs[|inputs| - 1], length, model,
                 phase)
  }

  /** Slots beyond the accepted ones of this launch hold tokens that do not count. */
  function JudgeSlots(rows: Rows, model: nat, a: nat): Rows {
    map r | r in rows :: if rows[r].model == model && rows[r].slot > a then rows[r].(rejected := true) else rows[r]
  }

  /** The verify launch that ends the step a draft row was written in.  The passes of a step
      follow each other, and pass j writes slot j, the first one also the slots below. */
  function JudgedBy(k: nat, t: Tag): int {
    t.model + k - if t.slot > 0 then t.slot else 0
  }

  /** Draft slots beyond the accepted ones, in the step this launch ends, hold tokens that do
      not count. */
  function JudgeDrafts(rows: Rows, k: nat, model: nat, a: nat): Rows {
    map r | r in rows ::
      if rows[r].phase == Draft && JudgedBy(k, rows[r]) == model && rows[r].slot > a then rows[r].(rejected := true)
      else rows[r]
  }

  /** The cache a launch of this phase writes to. */
  function CacheOf(l: Ledger, phase: Phase): Rows {
    if phase == PrefillDraft || phase == Draft then l.draft else l.target
  }

  /** The ledger once the rows have been written and judged. */
  function LedgerWith(c: Config, l: Ledger, r: Request, rows: Rows, model: nat, phase: Phase, a: nat): Ledger {
    match phase
    case Free => l
    case PrefillTarget => l.(target := rows)
    case PrefillDraft => l.(draft := rows)
    case Draft => l.(draft := rows)
    case Plain => l.(target := rows, plainSteps := l.plainSteps + 1, lag := l.lag + 1)
    case Verify =>
      l.(target := JudgeSlots(rows, model, a),
         draft := if c.hasDraft then JudgeDrafts(l.draft, c.k, model, a) else l.draft,
         verdicts := l.verdicts[model := a], lag := 0)
  }

  /** The ledger after a launch with these inputs has run and been judged. */
  function LedgerAfter(c: Config, l: Ledger, r: Request, inputs: seq<LangInput>, model: nat, phase: Phase,
                       a: nat): Ledger {
    LedgerWith(c, l, r, WrittenAll(CacheOf(l, phase), inputs, r.currentLength, model, phase), model, phase, a)
  }

  // ---- Invariants of one request ----

  /** How far a request is: not prefilled, prefilled on the target only, or generating with
      j draft passes done in the current step. */
  datatype Stage = Fresh | TargetDone | Gen(j: nat)

  function FirstRow(l: Ledger, r: Request): nat {
    l.cached + r.promptLength + 1
  }

  /** What is known of one row of a cache whose counted rows end at length, first being the
      first row above the prefill.  A counted row there was last written by a slot that
      counts; what was rejected lies at or above the length.  Below, the prefill wrote exactly
      the rows of the prompt, behind those cached, and the row just below first was never
      written at all. */
  ghost predicate RowOk(rows: Rows, cached: nat, first: nat, length: nat, r: nat) {
    && (first <= r < length ==> r in rows && !rows[r].rejected && rows[r].phase.Generates())
    && (r in rows && rows[r].rejected ==> length <= r)
    && (r < first ==> (r in rows <==> cached <= r && r + 1 < first) && (r in rows ==> rows[r].phase.Prefills()))
  }

  ghost predicate RowsOk(rows: Rows, cached: nat, first: nat, length: nat) {
    forall r: nat :: RowOk(rows, cached, first, length, r)
  }

  /** The target cache is written by launches of the target model only.  The rejected mark of a
      row is exactly the verdict of the verify launch that wrote it last, on the slot it was
      written by; no other launch's rows are ever rejected. */
  ghost predicate VerdictOk(l: Ledger, launches: nat, r: nat) {
    r in l.target ==>
      && l.target[r].model < launches && l.target[r].phase != PrefillDraft && l.target[r].phase != Draft
      && (if l.target[r].phase == Verify then
            && l.target[r].model in l.verdicts && 0 <= l.target[r].slot
            && (l.target[r].rejected <==> l.target[r].slot > l.verdicts[l.target[r].model])
          else !l.target[r].rejected)
  }

  ghost predicate VerdictsOk(l: Ledger, launches: nat) {
    forall r: nat :: VerdictOk(l, launches, r)
  }

  /** The row was written in the step under way, of which j passes are done. */
  predicate ThisStep(k: nat, t: Tag, launches: nat, j: nat) {
    1 <= j && t.phase == Draft && JudgedBy(k, t) == launches + k - j
  }

  /** The draft cache is written by the prefill and by draft passes only.  The rejected mark of
      a row of a step that is over is exactly the verdict of the verify launch that ended it,
      on the row's slot; the rows of the step under way are not judged yet, and make up all
      rows from the length to j above it. */
  ghost predicate DraftVerdictOk(k: nat, l: Ledger, launches: nat, j: nat, length: nat, r: nat) {
    r in l.draft ==>
      var t := l.draft[r];
      && t.model < launches && (t.phase == PrefillDraft || t.phase == Draft)
      && (t.phase == PrefillDraft ==> !t.rejected)
      && (ThisStep(k, t, launches, j) ==> !t.rejected && t.slot == r - length && t.slot < j)
      && (t.phase == Draft && !ThisStep(k, t, launches, j) ==>
            && 0 <= JudgedBy(k, t) < launches && JudgedBy(k, t) in l.verdicts
            && (t.rejected <==> t.slot > l.verdicts[JudgedBy(k, t)]))
      && (length <= r < length + j ==> ThisStep(k, t, launches, j))
  }

  ghost predicate DraftVerdictsOk(k: nat, l: Ledger, launches: nat, j: nat, length: nat) {
    j <= k && forall r: nat :: DraftVerdictOk(k, l, launches, j, length, r)
  }

  ghost predicate RequestOk(c: Config, r: Request, l: Ledger, stage: Stage, launches: nat) {
    var first := FirstRow(l, r);
    match stage
    case Fresh =>
      && !r.genPhase && r.currentLength == l.cached && (c.hasDraft ==> r.draftLength == l.cached)
      && r.specSteps == r.specAccepted == 0
      && l == Ledger(l.cached, 0, 0, map[], map[], map[])
    case TargetDone =>
      && c.hasDraft && !r.genPhase && r.currentLength == first && r.draftLength == l.cached
      && r.specSteps == r.specAccepted == l.plainSteps == l.lag == 0
      && l.draft == map[]
      && RowsOk(l.target, l.cached, first, r.currentLength) && VerdictsOk(l, launches)
    case Gen(j) =>
      && r.genPhase && r.currentLength < r.targetLength
      && r.currentLength == first + r.specAccepted + r.specSteps + l.plainSteps
      && RowsOk(l.target, l.cached, first, r.currentLength) && VerdictsOk(l, launches)
      && (c.hasDraft ==>
            && RowsOk(l.draft, l.cached, first, r.draftLength) && DraftVerdictsOk(c.k, l, launches, j, r.currentLength)
            && (if j == 0 then first <= r.draftLength <= r.currentLength <= r.draftLength + 1 + l.lag
                else r.draftLength == r.currentLength + j))
  }

  /** The invariant of a request that has just retired. */
  ghost predicate RetiredOk(c: Config, r: Request, l: Ledger, launches: nat) {
    && r.targetLength <= r.currentLength
    && (r.currentLength <= r.targetLength + c.k || r.currentLength == FirstRow(l, r))
    && r.currentLength == FirstRow(l, r) + r.specAccepted + r.specSteps + l.plainSteps
    && RowsOk(l.target, l.cached, FirstRow(l, r), r.currentLength) && VerdictsOk(l, launches)
  }

  // ---- Batch expansion writes what the single call writes ----

  lemma WrittenExtend(rows: Rows, id: nat, length: nat, n: nat, model: nat, phase: Phase)
    ensures Written(Written(rows, LangInput(id, n, length), length, model, phase),
                    LangInput(id, 1, length + n), length, model, phase)
         == Written(rows, LangInput(id, n + 1, length), length, model, phase)
  {
    var x := Written(Written(rows, LangInput(id, n, length), length, model, phase),
                     LangInput(id, 1, length + n), length, model, phase);
    var y := Written(rows, LangInput(id, n + 1, length), length, model, phase);
    forall r: nat ensures r in x <==> r in y
      ensures r in x ==> x[r] == y[r]
    {
      assert NewTag(model, phase, length, r) == NewTag(model, phase, length, r);
    }
    assert x.Keys == y.Keys;
  }

  lemma WrittenNone(rows: Rows, id: nat, length: nat, model: nat, phase: Phase)
    ensures Written(rows, LangInput(id, 0, length), length, model, phase) == rows
  {}

  lemma {:induction false} WrittenSingles(rows: Rows, id: nat, length: nat, n: nat, model: nat, phase: Phase)
    ensures WrittenAll(rows, Singles(id, length, n), length, model, phase)
         == Written(rows, LangInput(id, n, length), length, model, phase)
  {
    var s := Singles(id, length, n);
    if n == 0 {
      WrittenNone(rows, id, length, model, phase);
    } else {
      var m := n - 1;
      calc {
        WrittenAll(rows, s, length, model, phase);
        Written(WrittenAll(rows, s[..m], length, model, phase), s[m], length, model, phase);
        { assert s[..m] == Singles(id, length, m); }
        Written(WrittenAll(rows, Singles(id, length, m), length, model, phase), LangInput(id, 1, length + m), length,
                model, phase);
        { WrittenSingles(rows, id, length, m, model, phase); }
        Written(Written(rows, LangInput(id, m, length), length, model, phase), LangInput(id, 1, length + m), length,
                model, phase);
        { WrittenExtend(rows, id, length, m, model, phase); }
        Written(rows, LangInput(id, m + 1, length), length, model, phase);
      }
    }
  }

  /** Both scorers leave the same rows, tags, verdicts and lengths, whatever is accepted. */
  lemma ScorersAgree(c: Config, r: Request, l: Ledger, model: nat, a: nat)
    ensures var one, many := c.(mqa := true), c.(mqa := false);
            && Finished(one, r, Verify, c.k, a) == Finished(many, r, Verify, c.k, a)
            && LedgerAfter(one, l, r, InputsOf(one, r, Verify, c.k), model, Verify, a)
            == LedgerAfter(many, l, r, InputsOf(many, r, Verify, c.k), model, Verify, a)
  {
    var one, many := c.(mqa := true), c.(mqa := false);
    LedgerAfterSpan(one, l, r, Verify, c.k, model, a);
    LedgerAfterSpan(many, l, r, Verify, c.k, model, a);
    assert RowsAfter(one, l, r, Verify, c.k, model) == RowsAfter(many, l, r, Verify, c.k, model);
  }

  /** What either scorer writes are exactly the rows L, ..., L + k, in slot order. */
  lemma VerifyWritesLookahead(c: Config, r: Request, rows: Rows, model: nat, row: nat)
    ensures var w := WrittenAll(rows, InputsOf(c, r, Verify, c.k), r.currentLength, model, Verify);
            if r.currentLength <= row <= r.currentLength + c.k then
              row in w && w[row] == Tag(model, Verify, row - r.currentLength, false)
            else
              (row in w <==> row in rows) && (row in w ==> w[row] == rows[row])
  {
    WrittenSpan(c, r, rows, Verify, c.k, model);
    WrittenAt(rows, Span(c, r, Verify, c.k), r.currentLength, model, Verify, row);
  }

  lemma WrittenOne(rows: Rows, input: LangInput, length: nat, model: nat, phase: Phase)
    ensures WrittenAll(rows, [input], length, model, phase) == Written(rows, input, length, model, phase)
  {
    assert [input][..0] == [];
    assert WrittenAll(rows, [], length, model, phase) == rows;
  }

  /** The rows a launch writes, in one piece, for every phase and both scorers. */
  function Span(c: Config, r: Request, phase: Phase, draftStep: nat): LangInput {
    match phase
    case Verify => LangInput(r.id, c.k + 1, r.currentLength)
    case Free => LangInput(r.id, 0, r.currentLength)
    case _ => InputsOf(c, r, phase, draftStep)[0]
  }

  lemma WrittenSpan(c: Config, r: Request, rows: Rows, phase: Phase, draftStep: nat, model: nat)
    ensures WrittenAll(rows, InputsOf(c, r, phase, draftStep), r.currentLength, model, phase)
         == Written(rows, Span(c, r, phase, draftStep), r.currentLength, model, phase)
  {
    if phase == Verify && !c.mqa {
      WrittenSingles(rows, r.id, r.currentLength, c.k + 1, model, phase);
    } else if phase != Free {
      WrittenOne(rows, Span(c, r, phase, draftStep), r.currentLength, model, phase);
    }
  }

  // ---- One launch keeps the invariant of every request in it ----

  /** During a draft pass the draft cache is always behind what is wanted, by one row, or by
      the rows committed without the draft: the fallback width of one is never used. */
  lemma DraftWidth(c: Config, r: Request, l: Ledger, j: nat, launches: nat)
    requires c.hasDraft && RequestOk(c, r, l, Gen(j), launches)
    ensures r.draftLength < r.currentLength + j + 1
    ensures Span(c, r, Draft, j) == LangInput(r.id, r.currentLength + j + 1 - r.draftLength, r.draftLength)
    ensures 1 <= j ==> Span(c, r, Draft, j).seqLength == 1
    ensures j == 0 ==> Span(c, r, Draft, j).seqLength <= 2 + l.lag
  {}

  /** A request done with its step either goes on or retires. */
  ghost predicate GoesOn(c: Config, r: Request, l: Ledger, launches: nat) {
    if r.currentLength < r.targetLength then RequestOk(c, r, l, Gen(0), launches) else RetiredOk(c, r, l, launches)
  }

  /** The rows after a launch, its writes in one piece. */
  function RowsAfter(c: Config, l: Ledger, r: Request, phase: Phase, draftStep: nat, model: nat): Rows {
    Written(CacheOf(l, phase), Span(c, r, phase, draftStep), r.currentLength, model, phase)
  }

  lemma LedgerAfterSpan(c: Config, l: Ledger, r: Request, phase: Phase, draftStep: nat, model: nat, a: nat)
    ensures LedgerAfter(c, l, r, InputsOf(c, r, phase, draftStep), model, phase, a) ==
            LedgerWith(c, l, r, RowsAfter(c, l, r, phase, draftStep, model), model, phase, a)
  {
    WrittenSpan(c, r, CacheOf(l, phase), phase, draftStep, model);
  }

  /** A row after a write: new inside the span, as before outside. */
  lemma WrittenAt(rows: Rows, input: LangInput, length: nat, model: nat, phase: Phase, r: nat)
    ensures var inside := input.contextLength <= r < input.contextLength + input.seqLength;
            var w := Written(rows, input, length, model, phase);
            && (r in w <==> r in rows || inside)
            && (r in w ==> w[r] == if inside then NewTag(model, phase, length, r) else rows[r])
  {
    assert NewTag(model, phase, length, r) == NewTag(model, phase, length, r);
  }

  /** Writing the rows at the length extends the counted rows; rows rejected before are
      either overwritten now or still above. */
  lemma WrittenRowsOk(rows: Rows, cached: nat, first: nat, input: LangInput, length: nat, model: nat, phase: Phase)
    requires RowsOk(rows, cached, first, input.contextLength) && first <= input.contextLength
    requires phase.Generates()
    ensures RowsOk(Written(rows, input, length, model, phase), cached, first, input.contextLength + input.seqLength)
  {
    var rows', length' := Written(rows, input, length, model, phase), input.contextLength + input.seqLength;
    forall r: nat ensures RowOk(rows', cached, first, length', r) {
      WrittenAt(rows, input, length, model, phase, r);
      assert RowOk(rows, cached, first, input.contextLength, r);
    }
  }

  /** The slots of the step's draft passes are judged by the count the verify launch is given;
      what is cut off the draft rows are exactly slots beyond it. */
  lemma JudgeDraftsOk(l: Ledger, cached: nat, first: nat, L: nat, k: nat, model: nat, a: nat, target: Rows)
    requires RowsOk(l.draft, cached, first, L + k) && DraftVerdictsOk(k, l, model, k, L)
    requires 0 < k && a <= k && first <= L
    ensures var draft := JudgeDrafts(l.draft, k, model, a);
            && RowsOk(draft, cached, first, if L + k > L + a + 1 then L + a + 1 else L + k)
            && DraftVerdictsOk(k, l.(target := target, draft := draft, verdicts := l.verdicts[model := a], lag := 0),
                               model + 1, 0, L + a + 1)
  {
    var draft, kept := JudgeDrafts(l.draft, k, model, a), if L + k > L + a + 1 then L + a + 1 else L + k;
    var l' := l.(target := target, draft := draft, verdicts := l.verdicts[model := a], lag := 0);
    var launches', L' := model + 1, L + a + 1;
    forall r: nat ensures RowOk(draft, cached, first, kept, r) && DraftVerdictOk(k, l', launches', 0, L', r) {
      assert RowOk(l.draft, cached, first, L + k, r) && DraftVerdictOk(k, l, model, k, L, r);
    }
  }

  /** A draft pass writes slot j, the first one also what the draft cache had missed. */
  lemma DraftWrittenVerdictsOk(k: nat, l: Ledger, D: nat, L: nat, j: nat, id: nat, model: nat)
    requires DraftVerdictsOk(k, l, model, j, L) && j < k && (if j == 0 then D <= L else D == L + j)
    ensures var draft := Written(l.draft, LangInput(id, L + j + 1 - D, D), L, model, Draft);
            DraftVerdictsOk(k, l.(draft := draft), model + 1, j + 1, L)
  {
    var input := LangInput(id, L + j + 1 - D, D);
    var draft := Written(l.draft, input, L, model, Draft);
    var l', launches', j' := l.(draft := draft), model + 1, j + 1;
    forall r: nat ensures DraftVerdictOk(k, l', launches', j', L, r) {
      WrittenAt(l.draft, input, L, model, Draft, r);
      assert DraftVerdictOk(k, l, model, j, L, r);
    }
  }

  /** Between steps the draft verdicts depend on the draft rows and the verdicts only. */
  lemma DraftVerdictsLater(k: nat, l: Ledger, l': Ledger, launches: nat, launches': nat, j: nat, length: nat,
                           length': nat)
    requires DraftVerdictsOk(k, l, launches, j, length) && l.draft == l'.draft && l.verdicts == l'.verdicts
    requires (j == 0 && launches <= launches') || (launches == launches' && length == length')
    ensures DraftVerdictsOk(k, l', launches', j, length')
  {
    forall r: nat ensures DraftVerdictOk(k, l', launches', j, length', r) {
      assert DraftVerdictOk(k, l, launches, j, length, r);
    }
  }

  /** The slots of a verify launch are judged by the count it is given; nothing older is. */
  lemma JudgeSlotsOk(l: Ledger, cached: nat, first: nat, L: nat, n: nat, id: nat, model: nat, a: nat)
    requires RowsOk(l.target, cached, first, L) && VerdictsOk(l, model) && first <= L && a < n
    ensures var rows := JudgeSlots(Written(l.target, LangInput(id, n, L), L, model, Verify), model, a);
            && RowsOk(rows, cached, first, L + a + 1)
            && VerdictsOk(l.(target := rows, verdicts := l.verdicts[model := a]), model + 1)
  {
    var input := LangInput(id, n, L);
    var w := Written(l.target, input, L, model, Verify);
    var rows := JudgeSlots(w, model, a);
    var l' := l.(target := rows, verdicts := l.verdicts[model := a]);
    var length', launches' := L + a + 1, model + 1;
    forall r: nat ensures RowOk(rows, cached, first, length', r) && VerdictOk(l', launches', r) {
      WrittenAt(l.target, input, L, model, Verify, r);
      assert RowOk(l.target, cached, first, L, r) && VerdictOk(l, model, r);
    }
  }

  /** A launch that is not a verify brings no verdict. */
  lemma WrittenVerdictsOk(l: Ledger, length: nat, input: LangInput, model: nat, phase: Phase, launches: nat)
    requires VerdictsOk(l, launches) && launches <= model && (phase == PrefillTarget || phase == Plain)
    ensures VerdictsOk(l.(target := Written(l.target, input, length, model, phase)), model + 1)
  {
    var l', launches' := l.(target := Written(l.target, input, length, model, phase)), model + 1;
    forall r: nat ensures VerdictOk(l', launches', r) {
      WrittenAt(l.target, input, length, model, phase, r);
      assert VerdictOk(l, launches, r);
    }
  }

  lemma VerdictsLater(l: Ledger, launches: nat, launches': nat)
    requires VerdictsOk(l, launches) && launches <= launches'
    ensures VerdictsOk(l, launches')
  {
    forall r: nat ensures VerdictOk(l, launches', r) {
      assert VerdictOk(l, launches, r);
    }
  }

  lemma RequestLater(c: Config, r: Request, l: Ledger, stage: Stage, launches: nat, launches': nat)
    requires RequestOk(c, r, l, stage, launches) && launches <= launches'
    requires stage.Gen? && 0 < stage.j ==> launches == launches'
    ensures forall b: bool :: RequestOk(c, r.(running := b), l, stage, launches')
  {
    if stage != Fresh {
      VerdictsLater(l, launches, launches');
    }
    if stage.Gen? && c.hasDraft {
      DraftVerdictsLater(c.k, l, l, launches, launches', stage.j, r.currentLength, r.currentLength);
    }
  }

  /** Verdicts depend on nothing but the target rows and the verdicts themselves. */
  lemma VerdictsSame(l: Ledger, l': Ledger, launches: nat)
    requires VerdictsOk(l, launches) && l.target == l'.target && l.verdicts == l'.verdicts
    ensures VerdictsOk(l', launches)
  {
    forall r: nat ensures VerdictOk(l', launches, r) {
      assert VerdictOk(l, launches, r);
    }
  }

  /** The first writes to a cache: the prompt, right after what was cached. */
  lemma PrefillRowsOk(cached: nat, prompt: nat, id: nat, length: nat, model: nat, phase: Phase)
    requires phase.Prefills()
    ensures RowsOk(Written(map[], LangInput(id, prompt, cached), length, model, phase), cached, cached + prompt + 1,
                   cached + prompt + 1)
  {
    var rows := Written(map[], LangInput(id, prompt, cached), length, model, phase);
    var first := cached + prompt + 1;
    forall r: nat ensures RowOk(rows, cached, first, first, r) {
      WrittenAt(map[], LangInput(id, prompt, cached), length, model, phase, r);
    }
  }

  lemma PrefillTargetOk(c: Config, r: Request, l: Ledger, draftStep: nat, model: nat, launches: nat)
    requires RequestOk(c, r, l, Fresh, launches) && launches <= model
    ensures var r', l' := Finished(c, r, PrefillTarget, draftStep, 0),
                          LedgerWith(c, l, r, RowsAfter(c, l, r, PrefillTarget, draftStep, model), model, PrefillTarget,
                                     0);
            if c.hasDraft then RequestOk(c, r', l', TargetDone, model + 1) else GoesOn(c, r', l', model + 1)
  {
    PrefillRowsOk(l.cached, r.promptLength, r.id, r.currentLength, model, PrefillTarget);
    WrittenVerdictsOk(l, r.currentLength, Span(c, r, PrefillTarget, draftStep), model, PrefillTarget, launches);
  }

  lemma PrefillDraftOk(c: Config, r: Request, l: Ledger, draftStep: nat, model: nat, launches: nat)
    requires RequestOk(c, r, l, TargetDone, launches) && launches <= model
    ensures var r', l' := Finished(c, r, PrefillDraft, draftStep, 0),
                          LedgerWith(c, l, r, RowsAfter(c, l, r, PrefillDraft, draftStep, model), model, PrefillDraft,
                                     0);
            GoesOn(c, r', l', model + 1)
  {
    PrefillRowsOk(l.cached, r.promptLength, r.id, r.currentLength, model, PrefillDraft);
    VerdictsLater(l, launches, model + 1);
    VerdictsSame(l, l.(draft := RowsAfter(c, l, r, PrefillDraft, draftStep, model)), model + 1);
    PrefillDraftVerdictsOk(c.k, l, Span(c, r, PrefillDraft, draftStep), r.currentLength, model);
  }

  lemma PrefillDraftVerdictsOk(k: nat, l: Ledger, input: LangInput, length: nat, model: nat)
    requires l.draft == map[]
    ensures DraftVerdictsOk(k, l.(draft := Written(l.draft, input, length, model, PrefillDraft)), model + 1, 0, length)
  {
    var l' := l.(draft := Written(l.draft, input, length, model, PrefillDraft));
    var launches' := model + 1;
    forall r: nat ensures DraftVerdictOk(k, l', launches', 0, length, r) {
      WrittenAt(l.draft, input, length, model, PrefillDraft, r);
    }
  }

  lemma DraftOk(c: Config, r: Request, l: Ledger, j: nat, model: nat, launches: nat)
    requires c.hasDraft && RequestOk(c, r, l, Gen(j), launches) && launches == model && j < c.k
    ensures var r', l' := Finished(c, r, Draft, j, 0),
                          LedgerWith(c, l, r, RowsAfter(c, l, r, Draft, j, model), model, Draft, 0);
            RequestOk(c, r', l', Gen(j + 1), model + 1)
  {
    DraftWidth(c, r, l, j, launches);
    WrittenRowsOk(l.draft, l.cached, FirstRow(l, r), Span(c, r, Draft, j), r.currentLength, model, Draft);
    VerdictsLater(l, launches, model + 1);
    DraftWrittenVerdictsOk(c.k, l, r.draftLength, r.currentLength, j, r.id, model);
    DraftStepOk(c, r, l, j, RowsAfter(c, l, r, Draft, j, model), launches, model + 1);
  }

  lemma DraftStepOk(c: Config, r: Request, l: Ledger, j: nat, rows: Rows, launches: nat, launches': nat)
    requires c.hasDraft && RequestOk(c, r, l, Gen(j), launches) && VerdictsOk(l, launches')
    requires RowsOk(rows, l.cached, FirstRow(l, r), r.currentLength + j + 1)
    requires DraftVerdictsOk(c.k, l.(draft := rows), launches', j + 1, r.currentLength)
    ensures RequestOk(c, Finished(c, r, Draft, j, 0), l.(draft := rows), Gen(j + 1), launches')
  {
    VerdictsSame(l, l.(draft := rows), launches');
  }

  lemma PlainOk(c: Config, r: Request, l: Ledger, draftStep: nat, model: nat, launches: nat)
    requires RequestOk(c, r, l, Gen(0), launches) && launches <= model
    ensures var r', l' := Finished(c, r, Plain, draftStep, 0),
                          LedgerWith(c, l, r, RowsAfter(c, l, r, Plain, draftStep, model), model, Plain, 0);
            GoesOn(c, r', l', model + 1)
  {
    var span := Span(c, r, Plain, draftStep);
    WrittenRowsOk(l.target, l.cached, FirstRow(l, r), span, r.currentLength, model, Plain);
    WrittenVerdictsOk(l, r.currentLength, span, model, Plain, launches);
    PlainStepOk(c, r, l, draftStep, RowsAfter(c, l, r, Plain, draftStep, model), launches, model + 1);
  }

  lemma PlainStepOk(c: Config, r: Request, l: Ledger, draftStep: nat, rows: Rows, launches: nat, launches': nat)
    requires RequestOk(c, r, l, Gen(0), launches) && VerdictsOk(l.(target := rows), launches') && launches <= launches'
    requires RowsOk(rows, l.cached, FirstRow(l, r), r.currentLength + 1)
    ensures GoesOn(c, Finished(c, r, Plain, draftStep, 0),
                   l.(target := rows, plainSteps := l.plainSteps + 1, lag := l.lag + 1), launches')
  {
    var l' := l.(target := rows, plainSteps := l.plainSteps + 1, lag := l.lag + 1);
    VerdictsSame(l.(target := rows), l', launches');
    if c.hasDraft {
      DraftVerdictsLater(c.k, l, l', launches, launches', 0, r.currentLength, r.currentLength + 1);
    }
  }

  lemma VerifyOk(c: Config, r: Request, l: Ledger, j: nat, model: nat, a: nat, launches: nat)
    requires RequestOk(c, r, l, Gen(j), launches) && launches == model
    requires j == (if c.hasDraft then c.k else 0) && 0 < c.k && a <= c.k
    ensures var r', l' := Finished(c, r, Verify, j, a),
                          LedgerWith(c, l, r, RowsAfter(c, l, r, Verify, j, model), model, Verify, a);
            GoesOn(c, r', l', model + 1)
  {
    hide RowsOk, VerdictsOk, DraftVerdictsOk, JudgeSlots, JudgeDrafts, GoesOn;
    var first, L := FirstRow(l, r), r.currentLength;
    VerdictsLater(l, launches, model);
    JudgeSlotsOk(l, l.cached, first, L, c.k + 1, r.id, model, a);
    if c.hasDraft {
      JudgeDraftsOk(l, l.cached, first, L, c.k, model, a, JudgeSlots(RowsAfter(c, l, r, Verify, j, model), model, a));
    }
    var l' := LedgerWith(c, l, r, RowsAfter(c, l, r, Verify, j, model), model, Verify, a);
    VerifyStepOk(c, r, l, j, l'.target, l'.draft, l'.verdicts, a, launches, model + 1);
  }

  lemma VerifyStepOk(c: Config, r: Request, l: Ledger, j: nat, rows: Rows, draft: Rows, verdicts: map<nat, nat>, a: nat,
                     launches: nat, launches': nat)
    requires RequestOk(c, r, l, Gen(j), launches)
    requires j == (if c.hasDraft then c.k else 0) && 0 < c.k && a <= c.k
    requires VerdictsOk(l.(target := rows, verdicts := verdicts), launches')
    requires RowsOk(rows, l.cached, FirstRow(l, r), r.currentLength + a + 1)
    requires c.hasDraft ==> RowsOk(draft, l.cached, FirstRow(l, r), Finished(c, r, Verify, j, a).draftLength)
    requires c.hasDraft ==>
      DraftVerdictsOk(c.k, l.(target := rows, draft := draft, verdicts := verdicts, lag := 0), launches', 0,
                      r.currentLength + a + 1)
    ensures GoesOn(c, Finished(c, r, Verify, j, a), l.(target := rows, draft := draft, verdicts := verdicts, lag := 0),
                   launches')
  {
    var l' := l.(target := rows, draft := draft, verdicts := verdicts, lag := 0);
    VerdictsSame(l.(target := rows, verdicts := verdicts), l', launches');
  }
}
