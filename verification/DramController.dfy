/** One channel of the DRAM front end: the request queues of its controller, and the output
    queue with the places reserved in it. */
module DramController {

  datatype Kind = Read | Write | Other

  /** A request with its time of arrival and, once its read has been issued, of departure. */
  datatype Request = Request(id: nat, kind: Kind, arrive: nat, depart: nat)

  /** What the first command for a request turns out to be: the access or refresh itself, an
      activate, or anything else that prepares. */
  datatype Outcome = Final | Opening | Preparing

  /** What the scheduler offers from a queue: nothing, or a request, whether its first
      command can go now, and which kind that command is. */
  datatype Offer = Nothing | Head(index: nat, ready: bool, outcome: Outcome)

  datatype Limits = Limits(max: nat, high: nat, low: nat, size: nat, latency: nat)

  datatype State = State(
    clk: nat,
    readq: seq<Request>,
    writeq: seq<Request>,
    actq: seq<Request>,
    otherq: seq<Request>,
    pending: seq<Request>,
    writeMode: bool,
    reserved: nat,
    returned: seq<nat>)

  // ---- Queues ----

  function Ids(q: seq<Request>): (m: multiset<nat>)
    ensures |m| == |q|
  {
    if q == [] then multiset{} else Ids(q[..|q| - 1]) + multiset{q[|q| - 1].id}
  }

  function Removed(q: seq<Request>, i: nat): (r: seq<Request>)
    requires i < |q|
    ensures |r| == |q| - 1
  {
    q[..i] + q[i + 1..]
  }

  lemma IdsAppend(q: seq<Request>, r: Request)
    ensures Ids(q + [r]) == Ids(q) + multiset{r.id}
  {
    assert (q + [r])[..|q|] == q;
  }

  lemma {:induction false} IdsRemoved(q: seq<Request>, i: nat)
    requires i < |q|
    ensures Ids(Removed(q, i)) + multiset{q[i].id} == Ids(q)
  {
    var n := |q| - 1;
    if i == n {
      assert Removed(q, i) == q[..n];
    } else {
      IdsRemoved(q[..n], i);
      assert Removed(q, i)[..n - 1] == Removed(q[..n], i);
    }
  }

  ghost predicate AllKind(q: seq<Request>, kind: Kind) {
    forall i | 0 <= i < |q| :: q[i].kind == kind
  }

  ghost predicate NoneKind(q: seq<Request>, kind: Kind) {
    forall i | 0 <= i < |q| :: q[i].kind != kind
  }

  /** An offer is of a request that is there; only reads and writes are activated for. */
  predicate Fair(offer: Offer, q: seq<Request>) {
    offer.Nothing? || (offer.index < |q| && (offer.outcome == Opening ==> q[offer.index].kind != Other))
  }

  // ---- One tick, on values ----

  /** Requests the controller holds that are owed a return. */
  function Held(s: State): multiset<nat> {
    Ids(s.readq) + Ids(s.writeq) + Ids(s.actq) + Ids(s.pending)
  }

  /** Completing a request hands it to the output queue, which gives up its reservation. */
  function Completed(s: State, id: nat): State {
    s.(returned := s.returned + [id], reserved := if s.reserved > 0 then s.reserved - 1 else 0)
  }

  function ReadsServed(s: State): State {
    if s.pending != [] && s.pending[0].depart <= s.clk then
      Completed(s, s.pending[0].id).(pending := s.pending[1..])
    else s
  }

  function ModeSet(l: Limits, s: State): State {
    if !s.writeMode then s.(writeMode := |s.writeq| > l.high || s.readq == [])
    else s.(writeMode := !(|s.writeq| < l.low && s.readq != []))
  }

  datatype Source = FromAct | FromOther | FromWrite | FromRead

  function QueueOf(s: State, source: Source): seq<Request> {
    match source
    case FromAct => s.actq
    case FromOther => s.otherq
    case FromWrite => s.writeq
    case FromRead => s.readq
  }

  function Erased(s: State, source: Source, i: nat): State
    requires i < |QueueOf(s, source)|
  {
    match source
    case FromAct => s.(actq := Removed(s.actq, i))
    case FromOther => s.(otherq := Removed(s.otherq, i))
    case FromWrite => s.(writeq := Removed(s.writeq, i))
    case FromRead => s.(readq := Removed(s.readq, i))
  }

  /** The queue looked at after the activated requests. */
  function SecondSource(s: State): Source {
    if s.otherq != [] then FromOther else if s.writeMode then FromWrite else FromRead
  }

  /** What issuing the first command of request i of a queue does to the queues. */
  function Served(l: Limits, s: State, source: Source, i: nat, outcome: Outcome): State
    requires i < |QueueOf(s, source)|
  {
    var r := QueueOf(s, source)[i];
    match outcome
    case Preparing => s
    case Opening =>
      var s := Erased(s, source, i);
      s.(actq := s.actq + [r])
    case Final =>
      var t := Erased(s, source, i);
      match r.kind
      case Read => t.(pending := s.pending + [r.(depart := s.clk + l.latency)])
      case Write => Completed(t, r.id)
      case Other => t
  }

  /** The choice of the tick: activated requests first, then the queue of the mode. */
  function Scheduled(l: Limits, s: State, first: Offer, second: Offer): State
    requires Fair(first, s.actq) && Fair(second, QueueOf(s, SecondSource(s)))
  {
    if first.Head? && first.ready then Served(l, s, FromAct, first.index, first.outcome)
    else if second.Head? && second.ready then Served(l, s, SecondSource(s), second.index, second.outcome)
    else s
  }

  function Refreshed(l: Limits, s: State, others: seq<Request>): State {
    if others == [] then s
    else
      var s := Refreshed(l, s, others[..|others| - 1]);
      if |s.otherq| == l.max then s else s.(otherq := s.otherq + [others[|others| - 1]])
  }

  function Before(l: Limits, s: State, others: seq<Request>): State {
    ModeSet(l, Refreshed(l, ReadsServed(s.(clk := s.clk + 1)), others))
  }

  // ---- Invariant ----

  ghost predicate DepartsInOrder(l: Limits, s: State) {
    && (forall i | 0 <= i < |s.pending| :: s.clk < s.pending[i].depart <= s.clk + l.latency)
    && (forall i, j | 0 <= i < j < |s.pending| :: s.pending[i].depart < s.pending[j].depart)
  }

  ghost predicate KindsOk(s: State) {
    AllKind(s.readq, Read) && AllKind(s.writeq, Write) && NoneKind(s.actq, Other) && AllKind(s.pending, Read) &&
        AllKind(s.otherq, Other)
  }

  /** Every request the controller holds has one reserved place, and all places together fit. */
  ghost predicate ReservedOk(l: Limits, s: State) {
    s.reserved == |Held(s)| && s.reserved + |s.returned| <= l.size
  }

  ghost predicate Inv(l: Limits, s: State) {
    && |s.readq| <= l.max && |s.writeq| <= l.max && |s.otherq| <= l.max
    && KindsOk(s) && DepartsInOrder(l, s) && ReservedOk(l, s) && 0 < l.latency
  }

  lemma HeldSize(s: State)
    ensures |Held(s)| == |s.readq| + |s.writeq| + |s.actq| + |s.pending|
  {}

  /** The books: what is held and what has been returned. */
  function Books(s: State): multiset<nat> {
    Held(s) + multiset(s.returned)
  }

  lemma ReturnedOne(returned: seq<nat>, id: nat)
    ensures multiset(returned + [id]) == multiset(returned) + multiset{id}
  {}

  /** The first pending read moves from the held to the returned. */
  lemma ReadsServedBooks(l: Limits, s: State)
    requires s.pending != [] && ReservedOk(l, s)
    ensures var s' := Completed(s, s.pending[0].id).(pending := s.pending[1..]);
            Books(s') == Books(s) && ReservedOk(l, s')
  {
    var s' := Completed(s, s.pending[0].id).(pending := s.pending[1..]);
    IdsRemoved(s.pending, 0);
    assert Removed(s.pending, 0) == s.pending[1..];
    ReturnedOne(s.returned, s.pending[0].id);
    HeldSize(s);
    HeldSize(s');
  }

  /** At most one read comes back per tick, and it comes back on its very departure tick. */
  lemma ReadsServedKeeps(l: Limits, s: State)
    requires Inv(l, s)
    ensures var s' := ReadsServed(s.(clk := s.clk + 1));
            && Inv(l, s') && Books(s') == Books(s)
            && (forall i | 0 <= i < |s'.pending| :: s'.pending[i].depart < s'.clk + l.latency)
            && (if s.pending != [] && s.pending[0].depart == s'.clk then s'.returned == s.returned + [s.pending[0].id]
                else s'.returned == s.returned)
  {
    hide Held, Ids;
    var t := s.(clk := s.clk + 1);
    assert Held(t) == Held(s) by { SameHeld(s, t); }
    if s.pending != [] && s.pending[0].depart <= t.clk {
      ReadsServedBooks(l, t);
    }
  }

  lemma SameHeld(s: State, t: State)
    requires s.readq == t.readq && s.writeq == t.writeq && s.actq == t.actq && s.pending == t.pending
    ensures Held(s) == Held(t)
  {}

  lemma RefreshedKeeps(l: Limits, s: State, others: seq<Request>)
    requires Inv(l, s) && AllKind(others, Other)
    ensures var s' := Refreshed(l, s, others);
            Inv(l, s') && s' == s.(otherq := s'.otherq)
  {
    if others != [] {
      RefreshedKeeps(l, s, others[..|others| - 1]);
    }
    SameHeld(s, Refreshed(l, s, others));
  }

  /** The mode never points the controller at an empty queue while the other has work. */
  lemma ModeFindsWork(l: Limits, s: State)
    requires l.low <= l.high && 0 < l.low
    ensures var s' := ModeSet(l, s);
            && s' == s.(writeMode := s'.writeMode)
            && (s.readq != [] || s.writeq != [] ==> (if s'.writeMode then s.writeq != [] else s.readq != []))
            && (s'.writeMode && !s.writeMode ==> l.high < |s.writeq| || s.readq == [])
            && (!s'.writeMode && s.writeMode ==> |s.writeq| < l.low)
  {}

  // ---- Issuing ----

  lemma ErasedKinds(s: State, source: Source, i: nat)
    requires KindsOk(s) && i < |QueueOf(s, source)|
    ensures KindsOk(Erased(s, source, i))
    ensures (source == FromRead ==> QueueOf(s, source)[i].kind == Read) &&
            (source == FromWrite ==> QueueOf(s, source)[i].kind == Write)
    ensures QueueOf(s, source)[i].kind == Other <==> source == FromOther
  {}

  /** Taking a request out of its queue takes exactly it off the held. */
  lemma ErasedHeld(s: State, source: Source, i: nat)
    requires i < |QueueOf(s, source)|
    ensures source == FromOther ==> Held(Erased(s, source, i)) == Held(s)
    ensures source != FromOther ==> Held(Erased(s, source, i)) + multiset{QueueOf(s, source)[i].id} == Held(s)
  {
    hide Ids, Removed;
    IdsRemoved(QueueOf(s, source), i);
  }

  lemma MovedBooks(l: Limits, s: State, t: State, t': State, id: nat)
    requires ReservedOk(l, s) && Held(t) + multiset{id} == Held(s) && Held(t') == Held(t) + multiset{id}
    requires t.returned == t'.returned == s.returned && t'.reserved == s.reserved
    ensures Books(t') == Books(s) && ReservedOk(l, t')
  {
    assert Held(t') == Held(s);
  }

  lemma OpeningBooks(l: Limits, s: State, source: Source, i: nat)
    requires ReservedOk(l, s) && i < |QueueOf(s, source)| && source != FromOther
    ensures var s' := Served(l, s, source, i, Opening); Books(s') == Books(s) && ReservedOk(l, s')
  {
    var r, t := QueueOf(s, source)[i], Erased(s, source, i);
    ErasedHeld(s, source, i);
    IdsAppend(t.actq, r);
    MovedBooks(l, s, t, Served(l, s, source, i, Opening), r.id);
  }

  lemma ReadBooks(l: Limits, s: State, source: Source, i: nat)
    requires ReservedOk(l, s) && i < |QueueOf(s, source)| && QueueOf(s, source)[i].kind == Read && source != FromOther
    ensures var s' := Served(l, s, source, i, Final); Books(s') == Books(s) && ReservedOk(l, s')
  {
    hide Ids;
    var r, t := QueueOf(s, source)[i], Erased(s, source, i);
    ErasedHeld(s, source, i);
    assert t.pending == s.pending;
    IdsAppend(t.pending, r.(depart := s.clk + l.latency));
    MovedBooks(l, s, t, Served(l, s, source, i, Final), r.id);
  }

  lemma WriteBooks(l: Limits, s: State, source: Source, i: nat)
    requires ReservedOk(l, s) && i < |QueueOf(s, source)| && QueueOf(s, source)[i].kind == Write && source != FromOther
    ensures var s' := Served(l, s, source, i, Final); Books(s') == Books(s) && ReservedOk(l, s')
  {
    var r, t := QueueOf(s, source)[i], Erased(s, source, i);
    ErasedHeld(s, source, i);
    ReturnedOne(s.returned, r.id);
    SameHeld(t, Completed(t, r.id));
  }

  /** Issuing moves requests about and returns writes; it never loses or doubles one, and
      reserved places follow the requests held. */
  lemma ServedBooks(l: Limits, s: State, source: Source, i: nat, outcome: Outcome)
    requires KindsOk(s) && ReservedOk(l, s) && i < |QueueOf(s, source)| && (outcome == Opening ==> source != FromOther)
    ensures var s' := Served(l, s, source, i, outcome); Books(s') == Books(s) && ReservedOk(l, s')
  {
    hide Held, Ids;
    ErasedKinds(s, source, i);
    if outcome == Opening {
      OpeningBooks(l, s, source, i);
    } else if outcome == Final {
      match QueueOf(s, source)[i].kind
      case Read => ReadBooks(l, s, source, i);
      case Write => WriteBooks(l, s, source, i);
      case Other => SameHeld(s, Served(l, s, source, i, Final));
    }
  }

  lemma ServedKinds(l: Limits, s: State, source: Source, i: nat, outcome: Outcome)
    requires KindsOk(s) && i < |QueueOf(s, source)| && (outcome == Opening ==> source != FromOther)
    ensures KindsOk(Served(l, s, source, i, outcome))
  {
    ErasedKinds(s, source, i);
  }

  lemma ServedShape(l: Limits, s: State, source: Source, i: nat, outcome: Outcome)
    requires KindsOk(s) && i < |QueueOf(s, source)| && (outcome == Opening ==> source != FromOther)
    requires DepartsInOrder(l, s) && 0 < l.latency
    requires forall j | 0 <= j < |s.pending| :: s.pending[j].depart < s.clk + l.latency
    ensures var s' := Served(l, s, source, i, outcome);
            && DepartsInOrder(l, s') && s'.clk == s.clk
            && |s'.readq| <= |s.readq| && |s'.writeq| <= |s.writeq| && |s'.otherq| <= |s.otherq|
  {}

  lemma ServedKeeps(l: Limits, s: State, source: Source, i: nat, outcome: Outcome)
    requires Inv(l, s) && i < |QueueOf(s, source)| && (outcome == Opening ==> source != FromOther)
    requires forall j | 0 <= j < |s.pending| :: s.pending[j].depart < s.clk + l.latency
    ensures var s' := Served(l, s, source, i, outcome); Inv(l, s') && Books(s') == Books(s)
  {
    hide Served, KindsOk, DepartsInOrder, ReservedOk, Held;
    ServedBooks(l, s, source, i, outcome);
    ServedKinds(l, s, source, i, outcome);
    ServedShape(l, s, source, i, outcome);
  }

  /** One whole tick, on values. */
  function Ticked(l: Limits, s: State, others: seq<Request>, first: Offer, second: Offer): State
    requires Fair(first, Before(l, s, others).actq)
    requires Fair(second, QueueOf(Before(l, s, others), SecondSource(Before(l, s, others))))
  {
    Scheduled(l, Before(l, s, others), first, second)
  }

  lemma SameBooks(l: Limits, s: State, t: State)
    requires Inv(l, s) && t == s.(writeMode := t.writeMode)
    ensures Inv(l, t) && Books(t) == Books(s) && QueueOf(t, FromAct) == QueueOf(s, FromAct)
  {
    SameHeld(s, t);
  }

  lemma BeforeKeeps(l: Limits, s: State, others: seq<Request>)
    requires Inv(l, s) && AllKind(others, Other) && 0 < l.low <= l.high
    ensures var s' := Before(l, s, others);
            && Inv(l, s') && Books(s') == Books(s) && s'.clk == s.clk + 1
            && (forall i | 0 <= i < |s'.pending| :: s'.pending[i].depart < s'.clk + l.latency)
            && s'.pending == ReadsServed(s.(clk := s.clk + 1)).pending
            && (if s.pending != [] && s.pending[0].depart == s'.clk then s'.returned == s.returned + [s.pending[0].id]
                else s'.returned == s.returned)
  {
    hide Inv, ReadsServed, Refreshed, ModeSet, AllKind;
    var a := ReadsServed(s.(clk := s.clk + 1));
    ReadsServedKeeps(l, s);
    ServedClock(s);
    RefreshedKeeps(l, a, others);
    var b := Refreshed(l, a, others);
    SameHeld(a, b);
    ModeFindsWork(l, b);
    SameBooks(l, b, ModeSet(l, b));
  }

  lemma ServedClock(s: State)
    ensures ReadsServed(s.(clk := s.clk + 1)).clk == s.clk + 1
  {}

  /** Whatever the scheduler offers: a tick keeps the invariant, loses and doubles nothing,
      and returns the first pending read exactly when it departs. */
  lemma TickedKeeps(l: Limits, s: State, others: seq<Request>, first: Offer, second: Offer)
    requires Inv(l, s) && AllKind(others, Other) && 0 < l.low <= l.high
    requires Fair(first, Before(l, s, others).actq)
    requires Fair(second, QueueOf(Before(l, s, others), SecondSource(Before(l, s, others))))
    ensures var s' := Ticked(l, s, others, first, second);
            && Inv(l, s') && Books(s') == Books(s)
            && (s.pending != [] && s.pending[0].depart == s.clk + 1 ==> s.returned + [s.pending[0].id] <= s'.returned)
  {
    hide Before, Inv, Books;
    BeforeKeeps(l, s, others);
    var b := Before(l, s, others);
    var k := SecondSource(b);
    InvKinds(l, b);
    if first.Head? && first.ready {
      ServedKeeps(l, b, FromAct, first.index, first.outcome);
    } else if second.Head? && second.ready {
      ErasedKinds(b, k, second.index);
      ServedKeeps(l, b, k, second.index, second.outcome);
    }
  }

  lemma InvKinds(l: Limits, s: State)
    requires Inv(l, s)
    ensures KindsOk(s)
  {}

  lemma InvReserved(l: Limits, s: State)
    requires Inv(l, s)
    ensures ReservedOk(l, s)
  {}

  // ---- What a tick does, told from the queues it finds ----

  /** What comes from outside in one tick. */
  datatype Input = Input(others: seq<Request>, first: Offer, second: Offer)

  predicate FairInput(l: Limits, s: State, input: Input) {
    && Fair(input.first, Before(l, s, input.others).actq)
    && Fair(input.second, QueueOf(Before(l, s, input.others), SecondSource(Before(l, s, input.others))))
  }

  function Tick(l: Limits, s: State, input: Input): State
    requires FairInput(l, s, input)
  {
    Ticked(l, s, input.others, input.first, input.second)
  }

  /** The refresh requests join behind those waiting, as many as there is room for. */
  lemma {:induction false} OthersJoin(l: Limits, s: State, others: seq<Request>)
    requires |s.otherq| <= l.max
    ensures var room := l.max - |s.otherq|;
            Refreshed(l, s, others) == s.(otherq := s.otherq + if |others| <= room then others else others[..room])
  {
    if others != [] {
      var n, room := |others| - 1, l.max - |s.otherq|;
      OthersJoin(l, s, others[..n]);
      if n < room {
        assert s.otherq + others == s.otherq + others[..n] + [others[n]];
      } else {
        assert others[..n][..room] == others[..room];
      }
    }
  }

  /** The requests other than reads and writes that a tick chooses among. */
  function Others(l: Limits, s: State, others: seq<Request>): seq<Request>
    requires |s.otherq| <= l.max
  {
    s.otherq + if |s.otherq| + |others| <= l.max then others else others[..l.max - |s.otherq|]
  }

  /** Before it chooses, a tick has advanced the clock, served at most one read and taken in the
      others; the read, write and activated requests are those it found. */
  lemma BeforeIs(l: Limits, s: State, others: seq<Request>)
    requires |s.otherq| <= l.max
    ensures var b := Before(l, s, others);
            && b.clk == s.clk + 1 && b.readq == s.readq && b.writeq == s.writeq && b.actq == s.actq
            && b.otherq == Others(l, s, others)
            && (b.writeMode <==> if s.writeMode then l.low <= |s.writeq| || s.readq == []
                                 else l.high < |s.writeq| || s.readq == [])
  {
    OthersJoin(l, ReadsServed(s.(clk := s.clk + 1)), others);
  }

  /** The mode a tick works in: writes from the moment more of them wait than the high mark or
      no read does, until fewer of them wait than the low mark and some read does. */
  lemma TickMode(l: Limits, s: State, input: Input)
    requires |s.otherq| <= l.max && FairInput(l, s, input)
    ensures Tick(l, s, input).writeMode <==>
              if s.writeMode then l.low <= |s.writeq| || s.readq == [] else l.high < |s.writeq| || s.readq == []
  {
    BeforeIs(l, s, input.others);
  }

  /** Which queue a tick takes a request from: activated requests go first; then refreshes and
      the like; then writes or reads, as the mode has it.  No other queue changes. */
  lemma TickTakes(l: Limits, s: State, input: Input)
    requires |s.otherq| <= l.max && FairInput(l, s, input)
    ensures var s', others := Tick(l, s, input), Others(l, s, input.others);
            var first := input.first.Head? && input.first.ready;
            var second := !first && input.second.Head? && input.second.ready && input.second.outcome != Preparing;
            && (if second && others != [] then
                  input.second.index < |others| && s'.otherq == Removed(others, input.second.index)
                else s'.otherq == others)
            && (if second && others == [] && s'.writeMode then
                  input.second.index < |s.writeq| && s'.writeq == Removed(s.writeq, input.second.index)
                else s'.writeq == s.writeq)
            && (if second && others == [] && !s'.writeMode then
                  input.second.index < |s.readq| && s'.readq == Removed(s.readq, input.second.index)
                else s'.readq == s.readq)
            && (first && input.first.outcome == Final ==> |s'.actq| < |s.actq|)
  {
    hide ReadsServed, Refreshed, Removed;
    BeforeIs(l, s, input.others);
  }

  /** Where a request can be after a tick: a read where it was, activated, or pending with its
      departure a latency away, never back yet; a write where it was, activated, or back. */
  ghost predicate MovesOn(l: Limits, s: State, s': State, r: Request)
    requires |s.returned| <= |s'.returned|
  {
    match r.kind
    case Read => r in s'.readq || r in s'.actq || r.(depart := s'.clk + l.latency) in s'.pending
    case Write => r in s'.writeq || r in s'.actq || r.id in s'.returned[|s.returned|..]
    case Other => true
  }

  lemma RemovedOther(q: seq<Request>, i: nat, r: Request)
    requires i < |q| && r in q && r != q[i]
    ensures r in Removed(q, i)
  {
    var j :| 0 <= j < |q| && q[j] == r;
    assert j < i ==> Removed(q, i)[j] == r;
    assert i < j ==> Removed(q, i)[j - 1] == r;
  }

  lemma ServedMoves(l: Limits, b: State, source: Source, i: nat, outcome: Outcome, r: Request)
    requires KindsOk(b) && i < |QueueOf(b, source)| && (outcome == Opening ==> source != FromOther)
    requires r in b.readq || r in b.writeq || r in b.actq
    ensures var s' := Served(l, b, source, i, outcome);
            b.returned <= s'.returned && s'.clk == b.clk && MovesOn(l, b, s', r)
  {
    hide Removed;
    if outcome != Preparing {
      if r in QueueOf(b, source) && r != QueueOf(b, source)[i] {
        RemovedOther(QueueOf(b, source), i, r);
      }
    }
  }

  /** Every request is somewhere after a tick, and further on at most by the step the tick
      allows; what is newly pending departs a latency later, and at most one read and one
      write come back. */
  lemma TickMovesOn(l: Limits, s: State, input: Input, r: Request)
    requires Inv(l, s) && 0 < l.low <= l.high && AllKind(input.others, Other) && FairInput(l, s, input)
    requires r in s.readq || r in s.writeq || r in s.actq
    ensures var s' := Tick(l, s, input);
            && s.returned <= s'.returned && |s'.returned| <= |s.returned| + 2 && MovesOn(l, s, s', r)
            && forall p | p in s'.pending && p !in s.pending :: p.depart == s'.clk + l.latency
  {
    hide Inv, Books, Before, KindsOk, ReservedOk, Removed, Served;
    var b := Before(l, s, input.others);
    BeforeKeeps(l, s, input.others);
    InvKinds(l, b);
    InvSizes(l, s);
    BeforeIs(l, s, input.others);
    var first := input.first.Head? && input.first.ready;
    if first {
      KindsFair(b, FromAct, input.first);
      ServedMoves(l, b, FromAct, input.first.index, input.first.outcome, r);
      ServedPending(l, b, FromAct, input.first.index, input.first.outcome);
    } else if input.second.Head? && input.second.ready {
      KindsFair(b, SecondSource(b), input.second);
      ServedMoves(l, b, SecondSource(b), input.second.index, input.second.outcome, r);
      ServedPending(l, b, SecondSource(b), input.second.index, input.second.outcome);
    }
    LaterMoves(l, s, b, Tick(l, s, input), r);
  }

  lemma InvSizes(l: Limits, s: State)
    requires Inv(l, s)
    ensures |s.otherq| <= l.max
  {}

  lemma ServedPending(l: Limits, b: State, source: Source, i: nat, outcome: Outcome)
    requires i < |QueueOf(b, source)|
    ensures var s' := Served(l, b, source, i, outcome);
            && |s'.returned| <= |b.returned| + 1
            && forall p | p in s'.pending && p !in b.pending :: p.depart == s'.clk + l.latency
  {}

  lemma LaterMoves(l: Limits, s: State, b: State, s': State, r: Request)
    requires b.readq == s.readq && b.writeq == s.writeq && b.actq == s.actq && s.returned <= b.returned <= s'.returned
    requires (r in b.readq || r in b.writeq || r in b.actq) && (MovesOn(l, b, s', r) || s' == b)
    requires KindsOk(b)
    ensures MovesOn(l, s, s', r)
  {
    if r.kind == Write && r.id in s'.returned[|b.returned|..] {
      assert s'.returned[|s.returned|..] == s'.returned[|s.returned|..|b.returned|] + s'.returned[|b.returned|..];
    }
  }

  // ---- Autoprecharge ----

  /** Requests of a queue that hit the row in question. */
  function Hits(q: seq<Request>, hit: Request -> bool): nat {
    if q == [] then 0 else Hits(q[..|q| - 1], hit) + if hit(q[|q| - 1]) then 1 else 0
  }

  lemma {:induction false} HitsFound(q: seq<Request>, hit: Request -> bool, i: nat)
    requires i < |q| && hit(q[i])
    ensures 0 < Hits(q, hit)
  {
    if i != |q| - 1 {
      HitsFound(q[..|q| - 1], hit, i);
    }
  }

  lemma {:induction false} HitsNone(q: seq<Request>, hit: Request -> bool)
    ensures Hits(q, hit) == 0 <==> forall i | 0 <= i < |q| :: !hit(q[i])
  {
    if q != [] {
      HitsNone(q[..|q| - 1], hit);
      if hit(q[|q| - 1]) { assert Hits(q, hit) != 0; }
      forall i | 0 <= i < |q| && hit(q[i]) ensures Hits(q, hit) != 0 { HitsFound(q, hit, i); }
    }
  }

  /** A count of one is that of the last hit: no other request of the queue is for the row, so
      that nothing is lost by closing it. */
  lemma {:induction false} LastHit(q: seq<Request>, hit: Request -> bool, i: nat)
    requires i < |q| && hit(q[i])
    ensures Hits(q, hit) == 1 <==> forall j | 0 <= j < |q| && j != i :: !hit(q[j])
  {
    var n := |q| - 1;
    HitsNone(q[..n], hit);
    if i == n {
      assert forall j | 0 <= j < n :: q[..n][j] == q[j];
    } else {
      LastHit(q[..n], hit, i);
      assert forall j | 0 <= j < n :: q[..n][j] == q[j];
    }
  }

  /** The hits counted before an access is upgraded to autoprecharge: in the queue of the
      mode, and if there are none, among the activated requests. */
  function RowHits(s: State, hit: Request -> bool): nat {
    var n := Hits(if s.writeMode then s.writeq else s.readq, hit);
    if n == 0 then Hits(s.actq, hit) else n
  }

  /** The count is never zero: the access being issued is a hit and is in what is counted,
      whichever queue it was offered from. */
  lemma AccessCountsItself(s: State, source: Source, i: nat, hit: Request -> bool)
    requires KindsOk(s) && (source == FromAct || source == SecondSource(s)) && i < |QueueOf(s, source)|
    requires QueueOf(s, source)[i].kind != Other && hit(QueueOf(s, source)[i])
    ensures 0 < RowHits(s, hit)
  {
    HitsFound(QueueOf(s, source), hit, i);
  }

  // ---- Reads come back on time ----

  /** The rest of a tick only ever adds pending reads behind those there. */
  lemma ScheduledPending(l: Limits, s: State, first: Offer, second: Offer)
    requires Fair(first, s.actq) && Fair(second, QueueOf(s, SecondSource(s)))
    ensures s.pending <= Scheduled(l, s, first, second).pending && s.returned <= Scheduled(l, s, first, second).returned
    ensures Scheduled(l, s, first, second).clk == s.clk
  {}

  /** A pending read stays pending until the tick it departs on, and is returned on that. */
  lemma ReadTick(l: Limits, s: State, others: seq<Request>, first: Offer, second: Offer, r: Request)
    requires Inv(l, s) && AllKind(others, Other) && 0 < l.low <= l.high && r in s.pending
    requires Fair(first, Before(l, s, others).actq)
    requires Fair(second, QueueOf(Before(l, s, others), SecondSource(Before(l, s, others))))
    ensures var s' := Ticked(l, s, others, first, second);
            && s.clk < r.depart && s'.clk == s.clk + 1 && s.returned <= s'.returned
            && (if r.depart == s'.clk then s.returned + [r.id] <= s'.returned else r in s'.pending)
  {
    hide Before, Scheduled, KindsOk, ReservedOk, Refreshed;
    BeforeKeeps(l, s, others);
    ScheduledPending(l, Before(l, s, others), first, second);
    var i :| 0 <= i < |s.pending| && s.pending[i] == r;
    assert i != 0 && s.pending[0].depart <= s.clk + 1 ==> s.pending[1..][i - 1] == r;
  }

  lemma FairTick(l: Limits, s: State, input: Input)
    requires FairInput(l, s, input)
    ensures Fair(input.first, Before(l, s, input.others).actq)
    ensures Fair(input.second, QueueOf(Before(l, s, input.others), SecondSource(Before(l, s, input.others))))
  {}

  lemma PendingLater(l: Limits, s: State, r: Request)
    requires Inv(l, s) && r in s.pending
    ensures s.clk < r.depart
  {}

  // ---- Accepting and collecting ----

  /** A read or write accepted: at the back of its queue, with a place reserved. */
  function Pushed(s: State, id: nat, write: bool): State {
    var r := Request(id, if write then Write else Read, s.clk, 0);
    if write then s.(writeq := s.writeq + [r], reserved := s.reserved + 1)
    else s.(readq := s.readq + [r], reserved := s.reserved + 1)
  }

  predicate Available(l: Limits, s: State, write: bool) {
    s.reserved + |s.returned| < l.size && |if write then s.writeq else s.readq| != l.max
  }

  lemma PushedBooks(l: Limits, s: State, id: nat, write: bool)
    ensures Held(Pushed(s, id, write)) == Held(s) + multiset{id} &&
            Books(Pushed(s, id, write)) == Books(s) + multiset{id}
  {
    hide Ids;
    if write {
      IdsAppend(s.writeq, Request(id, Write, s.clk, 0));
    } else {
      IdsAppend(s.readq, Request(id, Read, s.clk, 0));
    }
  }

  lemma PushedKeeps(l: Limits, s: State, id: nat, write: bool)
    requires Inv(l, s) && Available(l, s, write)
    ensures Inv(l, Pushed(s, id, write)) && Books(Pushed(s, id, write)) == Books(s) + multiset{id}
  {
    hide Held, Books;
    PushedBooks(l, s, id, write);
  }

  /** There is room exactly when accepting one more keeps the invariant: nothing is turned away
      that could be held, and nothing accepted that could not. */
  lemma RoomExactly(l: Limits, s: State, id: nat, write: bool)
    requires Inv(l, s)
    ensures Available(l, s, write) <==> Inv(l, Pushed(s, id, write))
  {
    hide Held, Books;
    PushedBooks(l, s, id, write);
  }

  lemma PoppedKeeps(l: Limits, s: State)
    requires Inv(l, s) && s.returned != []
    ensures var s' := s.(returned := s.returned[1..]);
            Inv(l, s') && Books(s') + multiset{s.returned[0]} == Books(s)
  {
    SameHeld(s, s.(returned := s.returned[1..]));
    assert s.returned == [s.returned[0]] + s.returned[1..];
  }

  // ---- Whole runs: ticks, requests accepted and results collected, in any order ----

  datatype Move = TickMove(input: Input) | PushMove(id: nat, write: bool) | PopMove

  /** A state with what has been accepted and what has been collected on the way to it. */
  datatype Trace = Trace(s: State, accepted: seq<nat>, collected: seq<nat>)

  /** Refreshes are all that comes from inside, the caller asks for room before it pushes, and
      pops only what is there. */
  ghost predicate FairMove(l: Limits, s: State, m: Move) {
    match m
    case TickMove(input) => AllKind(input.others, Other) && FairInput(l, s, input)
    case PushMove(_, write) => Available(l, s, write)
    case PopMove => s.returned != []
  }

  ghost function Moved(l: Limits, t: Trace, m: Move): Trace
    requires FairMove(l, t.s, m)
  {
    match m
    case TickMove(input) => t.(s := Tick(l, t.s, input))
    case PushMove(id, write) => t.(s := Pushed(t.s, id, write), accepted := t.accepted + [id])
    case PopMove => t.(s := t.s.(returned := t.s.returned[1..]), collected := t.collected + [t.s.returned[0]])
  }

  ghost predicate FairRun(l: Limits, t: Trace, moves: seq<Move>)
    decreases |moves|
  {
    moves == [] || (FairMove(l, t.s, moves[0]) && FairRun(l, Moved(l, t, moves[0]), moves[1..]))
  }

  ghost function Run(l: Limits, t: Trace, moves: seq<Move>): Trace
    requires FairRun(l, t, moves)
    decreases |moves|
  {
    if moves == [] then t else Run(l, Moved(l, t, moves[0]), moves[1..])
  }

  function Ticks(moves: seq<Move>): nat {
    if moves == [] then 0 else (if moves[0].TickMove? then 1 else 0) + Ticks(moves[1..])
  }

  /** Everything that has come back, in order, collected or not. */
  function Log(t: Trace): seq<nat> {
    t.collected + t.s.returned
  }

  /** Everything accepted is held, waits to be collected, or has been collected, once each. */
  ghost predicate Balanced(t: Trace) {
    multiset(t.accepted) == Books(t.s) + multiset(t.collected)
  }

  lemma MovedKeeps(l: Limits, t: Trace, m: Move)
    requires Inv(l, t.s) && 0 < l.low <= l.high && FairMove(l, t.s, m) && Balanced(t)
    ensures var t' := Moved(l, t, m);
            Inv(l, t'.s) && Balanced(t') && t'.s.clk == t.s.clk + (if m.TickMove? then 1 else 0) && Log(t) <= Log(t')
  {
    hide Inv, Books, Tick, Pushed, FairInput, Available, AllKind;
    match m
    case TickMove(input) => TickKeeps(l, t.s, input);
    case PushMove(id, write) =>
      PushedKeeps(l, t.s, id, write);
      PushedRest(t.s, id, write);
    case PopMove =>
      PoppedKeeps(l, t.s);
      assert t.s.returned == [t.s.returned[0]] + t.s.returned[1..];
  }

  lemma TickKeeps(l: Limits, s: State, input: Input)
    requires Inv(l, s) && 0 < l.low <= l.high && AllKind(input.others, Other) && FairInput(l, s, input)
    ensures var s' := Tick(l, s, input);
            Inv(l, s') && Books(s') == Books(s) && s'.clk == s.clk + 1 && s.returned <= s'.returned
  {
    hide Inv, Books, FairInput, Before, Scheduled, AllKind;
    FairTick(l, s, input);
    TickedKeeps(l, s, input.others, input.first, input.second);
    BeforeKeeps(l, s, input.others);
    ScheduledPending(l, Before(l, s, input.others), input.first, input.second);
  }

  lemma PushedRest(s: State, id: nat, write: bool)
    ensures Pushed(s, id, write).returned == s.returned && Pushed(s, id, write).clk == s.clk &&
            Pushed(s, id, write).pending == s.pending
  {}

  /** A pending read stays pending until the tick it departs on, and comes back on that. */
  lemma MovedRead(l: Limits, t: Trace, m: Move, r: Request)
    requires Inv(l, t.s) && 0 < l.low <= l.high && FairMove(l, t.s, m) && r in t.s.pending
    ensures var t' := Moved(l, t, m);
            if m.TickMove? && r.depart == t.s.clk + 1 then Log(t) + [r.id] <= Log(t') else r in t'.s.pending
  {
    hide Inv, Books, Ticked, FairInput, Available, AllKind;
    if m.TickMove? {
      FairTick(l, t.s, m.input);
      ReadTick(l, t.s, m.input.others, m.input.first, m.input.second, r);
    }
  }

  /** Over any run the invariant holds, what was accepted is held, returned or collected, and
      results come back in the order of the log. */
  lemma {:induction false} RunBooks(l: Limits, t: Trace, moves: seq<Move>)
    requires Inv(l, t.s) && 0 < l.low <= l.high && FairRun(l, t, moves) && Balanced(t)
    ensures var t' := Run(l, t, moves);
            Inv(l, t'.s) && Balanced(t') && t'.s.clk == t.s.clk + Ticks(moves) && Log(t) <= Log(t')
    decreases |moves|
  {
    hide Inv, Balanced, Moved, FairMove, Log;
    if moves != [] {
      MovedKeeps(l, t, moves[0]);
      RunBooks(l, Moved(l, t, moves[0]), moves[1..]);
    }
  }

  /** Over any run, whatever is accepted and collected meanwhile, a read issued at some clock,
      to depart latency ticks later, is pending until that tick and comes back on it. */
  lemma {:induction false} RunKeeps(l: Limits, t: Trace, moves: seq<Move>, r: Request)
    requires Inv(l, t.s) && 0 < l.low <= l.high && FairRun(l, t, moves) && Balanced(t) && r in t.s.pending
    ensures var t' := Run(l, t, moves);
            && Inv(l, t'.s) && Balanced(t') && t'.s.clk == t.s.clk + Ticks(moves) && Log(t) <= Log(t')
            && (t'.s.clk < r.depart ==> r in t'.s.pending)
            && (r.depart <= t'.s.clk ==> r.id in Log(t')[|Log(t)|..])
    decreases |moves|
  {
    hide Inv, Balanced, Moved, FairMove, Log;
    PendingLater(l, t.s, r);
    if moves != [] {
      var m := moves[0];
      var u := Moved(l, t, m);
      MovedKeeps(l, t, m);
      MovedRead(l, t, m, r);
      if m.TickMove? && r.depart == t.s.clk + 1 {
        RunBooks(l, u, moves[1..]);
        assert Log(Run(l, t, moves))[|Log(t)|] == r.id;
      } else {
        RunKeeps(l, u, moves[1..], r);
        LaterInLog(Log(t), Log(u), Log(Run(l, t, moves)), r.id);
      }
    }
  }

  lemma LaterInLog(a: seq<nat>, b: seq<nat>, c: seq<nat>, id: nat)
    requires a <= b <= c
    ensures id in c[|b|..] ==> id in c[|a|..]
  {
    if id in c[|b|..] {
      var i :| 0 <= i < |c| - |b| && c[|b|..][i] == id;
      assert c[|a|..][|b| - |a| + i] == id;
    }
  }

  // ---- The mode over whole runs ----

  /** Some tick of the run finds few writes, and a read waiting. */
  ghost predicate FindsFew(l: Limits, t: Trace, moves: seq<Move>)
    requires FairRun(l, t, moves)
    decreases |moves|
  {
    moves != [] &&
    ((moves[0].TickMove? && |t.s.writeq| < l.low && t.s.readq != []) || FindsFew(l, Moved(l, t, moves[0]), moves[1..]))
  }

  /** Some tick of the run finds many writes, or no read waiting. */
  ghost predicate FindsMany(l: Limits, t: Trace, moves: seq<Move>)
    requires FairRun(l, t, moves)
    decreases |moves|
  {
    moves != [] &&
    ((moves[0].TickMove? && (l.high < |t.s.writeq| || t.s.readq == [])) ||
     FindsMany(l, Moved(l, t, moves[0]), moves[1..]))
  }

  /** The controller keeps to a mode, however long: it writes on until a tick finds fewer writes
      than the low mark and a read waiting, and reads on until a tick finds more writes than the
      high mark or no read; so under a steady load of reads the writes are served. */
  lemma {:induction false} ModeKept(l: Limits, t: Trace, moves: seq<Move>)
    requires Inv(l, t.s) && 0 < l.low <= l.high && FairRun(l, t, moves) && Balanced(t)
    ensures t.s.writeMode && !FindsFew(l, t, moves) ==> Run(l, t, moves).s.writeMode
    ensures !t.s.writeMode && !FindsMany(l, t, moves) ==> !Run(l, t, moves).s.writeMode
    decreases |moves|
  {
    hide Inv, Balanced, Tick, FairInput, Available, AllKind, Pushed;
    if moves != [] {
      MovedKeeps(l, t, moves[0]);
      MovedMode(l, t, moves[0]);
      ModeKept(l, Moved(l, t, moves[0]), moves[1..]);
    }
  }

  lemma MovedMode(l: Limits, t: Trace, m: Move)
    requires Inv(l, t.s) && FairMove(l, t.s, m)
    ensures Moved(l, t, m).s.writeMode <==>
              if !m.TickMove? then t.s.writeMode
              else if t.s.writeMode then l.low <= |t.s.writeq| || t.s.readq == []
              else l.high < |t.s.writeq| || t.s.readq == []
  {
    hide Inv, Tick, FairInput;
    InvSizes(l, t.s);
    if m.TickMove? {
      TickMode(l, t.s, m.input);
    }
  }

  // ---- The channel, updated in place ----

  lemma ReservedPositive(l: Limits, s: State, source: Source, i: nat)
    requires ReservedOk(l, s) && source != FromOther && i < |QueueOf(s, source)|
    ensures 0 < s.reserved
  {
    HeldSize(s);
  }

  lemma PendingReserved(l: Limits, s: State)
    requires ReservedOk(l, s) && s.pending != []
    ensures 0 < s.reserved
  {
    HeldSize(s);
  }

  class Channel {
    const limits: Limits
    var clk: nat
    var readq: seq<Request>
    var writeq: seq<Request>
    var actq: seq<Request>
    var otherq: seq<Request>
    var pending: seq<Request>
    var writeMode: bool
    var reserved: nat
    var returned: seq<nat>

    /** Every request ever accepted, and every one already collected. */
    ghost var accepted: multiset<nat>
    ghost var collected: multiset<nat>

    function Snap(): State
      reads this
    {
      State(clk, readq, writeq, actq, otherq, pending, writeMode, reserved, returned)
    }

    ghost predicate Valid()
      reads this
    {
      Inv(limits, Snap()) && 0 < limits.low <= limits.high && accepted == Books(Snap()) + collected
    }

    /** Queues of 256, the write queue's watermarks at 0.8 and 0.2 of that, 256 output places. */
    constructor (latency: nat)
      requires 0 < latency
      ensures Valid() && Snap() == State(0, [], [], [], [], [], false, 0, [])
      ensures accepted == collected == multiset{} && limits == Limits(256, 204, 51, 256, latency)
    {
      limits := Limits(256, 204, 51, 256, latency);
      clk, readq, writeq, actq, otherq, pending := 0, [], [], [], [], [];
      writeMode, reserved, returned := false, 0, [];
      accepted, collected := multiset{}, multiset{};
    }

    method IsFull(write: bool) returns (full: bool)
      requires Valid()
      ensures full == (|if write then writeq else readq| == limits.max)
    {
      assert |readq| <= limits.max && |writeq| <= limits.max;
      full := if write then |writeq| == limits.max else |readq| == limits.max;
    }

    method IsAvailable(write: bool) returns (available: bool)
      requires Valid()
      ensures available == Available(limits, Snap(), write)
    {
      var full := IsFull(write);
      available := reserved + |returned| < limits.size && !full;
    }

    method Enqueue(r: Request) returns (sent: bool)
      modifies this`readq, this`writeq, this`otherq
      ensures sent == (|match r.kind case Read => old(readq) case Write => old(writeq) case Other => old(otherq)| !=
                       limits.max)
      ensures readq == if sent && r.kind == Read then old(readq) + [r.(arrive := clk)] else old(readq)
      ensures writeq == if sent && r.kind == Write then old(writeq) + [r.(arrive := clk)] else old(writeq)
      ensures otherq == if sent && r.kind == Other then old(otherq) + [r.(arrive := clk)] else old(otherq)
    {
      var size := match r.kind case Read => |readq| case Write => |writeq| case Other => |otherq|;
      if size == limits.max { return false; }
      match r.kind {
        case Read => readq := readq + [r.(arrive := clk)];
        case Write => writeq := writeq + [r.(arrive := clk)];
        case Other => otherq := otherq + [r.(arrive := clk)];
      }
      return true;
    }

    method Reserve()
      requires reserved < limits.size
      modifies this`reserved
      ensures reserved == old(reserved) + 1
    {
      reserved := reserved + 1;
    }

    /** Hands a request to the channel; neither of the code's two assertions can fail for a
        caller that asked whether there was room. */
    method Push(id: nat, write: bool)
      requires Valid() && Available(limits, Snap(), write)
      modifies this
      ensures Valid() && Snap() == Pushed(old(Snap()), id, write)
      ensures accepted == old(accepted) + multiset{id} && collected == old(collected)
    {
      hide Inv, Books;
      PushedKeeps(limits, Snap(), id, write);
      var sent := Enqueue(Request(id, if write then Write else Read, clk, 0));
      assert sent;
      assert reserved < limits.size;
      Reserve();
      accepted := accepted + multiset{id};
    }

    /** The callback: the request goes to the output queue, and its place is given up. */
    method Return(id: nat)
      requires 0 < reserved
      modifies this`returned, this`reserved
      ensures Snap() == Completed(old(Snap()), id)
    {
      returned := returned + [id];
      assert reserved > 0;
      reserved := reserved - 1;
    }

    method Pop() returns (id: nat)
      requires Valid() && returned != []
      modifies this`returned, this`collected
      ensures Valid() && id == old(returned[0]) && Snap() == old(Snap()).(returned := old(returned)[1..])
      ensures collected == old(collected) + multiset{id} && accepted == old(accepted)
    {
      hide Inv, Books;
      PoppedKeeps(limits, Snap());
      id := returned[0];
      returned := returned[1..];
      collected := collected + multiset{id};
    }

    method ServeReads()
      requires ReservedOk(limits, Snap())
      modifies this`pending, this`returned, this`reserved
      ensures Snap() == ReadsServed(old(Snap()))
    {
      if pending != [] {
        var r := pending[0];
        if r.depart <= clk {
          PendingReserved(limits, Snap());
          Return(r.id);
          pending := pending[1..];
        }
      }
    }

    /** The refresh scheduler's requests, as many as fit. */
    method Refresh(others: seq<Request>)
      requires AllKind(others, Other) && forall i | 0 <= i < |others| :: others[i].arrive == clk
      modifies this`readq, this`writeq, this`otherq
      ensures Snap() == Refreshed(limits, old(Snap()), others)
    {
      ghost var s := Snap();
      for i := 0 to |others|
        invariant Snap() == Refreshed(limits, s, others[..i])
        invariant Snap() == s.(otherq := otherq)
      {
        assert others[..i + 1][..i] == others[..i];
        var sent := Enqueue(others[i]);
      }
      assert others[..|others|] == others;
    }

    method SetMode()
      modifies this`writeMode
      ensures Snap() == ModeSet(limits, old(Snap()))
    {
      if !writeMode {
        if |writeq| > limits.high || |readq| == 0 { writeMode := true; }
      } else {
        if |writeq| < limits.low && |readq| != 0 { writeMode := false; }
      }
    }

    method Erase(source: Source, i: nat)
      requires i < |QueueOf(Snap(), source)|
      modifies this`readq, this`writeq, this`actq, this`otherq
      ensures Snap() == Erased(old(Snap()), source, i)
    {
      match source {
        case FromAct => actq := actq[..i] + actq[i + 1..];
        case FromOther => otherq := otherq[..i] + otherq[i + 1..];
        case FromWrite => writeq := writeq[..i] + writeq[i + 1..];
        case FromRead => readq := readq[..i] + readq[i + 1..];
      }
    }

    /** The part of the tick after a command has been issued for a request. */
    method Finish(source: Source, i: nat, outcome: Outcome)
      requires KindsOk(Snap()) && ReservedOk(limits, Snap()) && i < |QueueOf(Snap(), source)|
      requires outcome == Opening ==> source != FromOther
      modifies this`readq, this`writeq, this`actq, this`otherq, this`pending, this`returned, this`reserved
      ensures Snap() == Served(limits, old(Snap()), source, i, outcome)
    {
      hide KindsOk, ReservedOk;
      var r := QueueOf(Snap(), source)[i];
      ErasedKinds(Snap(), source, i);
      if outcome != Final {
        if outcome == Opening {
          Erase(source, i);
          actq := actq + [r];
        }
        return;
      }
      if r.kind == Write { ReservedPositive(limits, Snap(), source, i); }
      Erase(source, i);
      if r.kind == Read {
        pending := pending + [r.(depart := clk + limits.latency)];
      }
      if r.kind == Write {
        Return(r.id);
      }
    }

    method Schedule(first: Offer, second: Offer)
      requires KindsOk(Snap()) && ReservedOk(limits, Snap())
      requires Fair(first, actq) && Fair(second, QueueOf(Snap(), SecondSource(Snap())))
      modifies this`readq, this`writeq, this`actq, this`otherq, this`pending, this`returned, this`reserved
      ensures Snap() == Scheduled(limits, old(Snap()), first, second)
    {
      hide KindsOk, ReservedOk, Served;
      if first.Head? && first.ready {
        KindsFair(Snap(), FromAct, first);
        Finish(FromAct, first.index, first.outcome);
        return;
      }
      var source := if writeMode then FromWrite else FromRead;
      if |otherq| != 0 { source := FromOther; }
      if second.Head? && second.ready {
        KindsFair(Snap(), source, second);
        Finish(source, second.index, second.outcome);
      }
    }

    /** The first half of a tick: completed reads, refresh requests, the mode. */
    method Prepare(others: seq<Request>)
      requires Inv(limits, Snap()) && AllKind(others, Other) &&
               forall i | 0 <= i < |others| :: others[i].arrive == clk + 1
      modifies this`clk, this`readq, this`writeq, this`otherq, this`pending, this`returned, this`reserved,
          this`writeMode
      ensures Snap() == Before(limits, old(Snap()), others)
    {
      hide Inv, ReadsServed, Refreshed, ModeSet;
      ghost var s := Snap();
      clk := clk + 1;
      TickReserved(limits, s, Snap());
      ServeReads();
      ServedClock(s);
      Refresh(others);
      SetMode();
    }

    /** One tick of the controller, whatever the scheduler offers and refresh asks for. */
    method Tick(others: seq<Request>, first: Offer, second: Offer)
      requires Valid() && AllKind(others, Other) && forall i | 0 <= i < |others| :: others[i].arrive == clk + 1
      requires FairInput(limits, Snap(), Input(others, first, second))
      modifies this
      ensures Valid() && Snap() == Ticked(limits, old(Snap()), others, first, second)
      ensures accepted == old(accepted) && collected == old(collected)
    {
      hide Inv, Books, Before, Scheduled, AllKind, KindsOk, ReservedOk;
      ghost var s := Snap();
      FairTick(limits, s, Input(others, first, second));
      TickedKeeps(limits, s, others, first, second);
      BeforeKeeps(limits, s, others);
      Prepare(others);
      InvKinds(limits, Snap());
      InvReserved(limits, Snap());
      Schedule(first, second);
    }
  }

  lemma KindsFair(s: State, source: Source, offer: Offer)
    requires KindsOk(s) && offer.Head? && Fair(offer, QueueOf(s, source))
    ensures offer.outcome == Opening ==> source != FromOther
  {}

  lemma TickReserved(l: Limits, s: State, t: State)
    requires Inv(l, s) && t == s.(clk := t.clk)
    ensures ReservedOk(l, t)
  {
    SameHeld(s, t);
  }
}
