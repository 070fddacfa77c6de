/** A core's outgoing requests, one sub-queue per tile, served in turn. */
module RequestQueues {
  import opened Collections

  /** The sub-queues by tile number and the one whose turn it is; None is past the last. */
  datatype State = State(queues: map<nat, seq<nat>>, cursor: Option<nat>)

  ghost predicate Ok(s: State) {
    && (forall k: nat | k in s.queues :: s.queues[k] != [])
    && (s.cursor.Some? ==> s.cursor.value in s.queues)
  }

  /** k is the first sub-queue at or above a bound. */
  ghost predicate FirstFrom(q: map<nat, seq<nat>>, bound: nat, k: nat) {
    k in q && bound <= k && forall j: nat | j in q && bound <= j :: k <= j
  }

  /** The turn passes to the next sub-queue after k, or past the last. */
  ghost predicate MovesPast(q: map<nat, seq<nat>>, k: nat, cursor: Option<nat>) {
    match cursor
    case Some(c) => FirstFrom(q, k + 1, c)
    case None => forall j: nat | j in q :: j <= k
  }

  /** One request is taken from sub-queue k: the one whose turn it is, or the first. */
  ghost predicate Grants(s: State, k: nat, s': State) {
    && (if s.cursor.Some? then k == s.cursor.value else FirstFrom(s.queues, 0, k))
    && k in s.queues && s.queues[k] != []
    && s'.queues == (if |s.queues[k]| == 1 then s.queues - {k} else s.queues[k := s.queues[k][1..]])
    && MovesPast(s'.queues, k, s'.cursor)
  }

  function Pushed(s: State, k: nat, request: nat): State {
    s.(queues := s.queues[k := (if k in s.queues then s.queues[k] else []) + [request]])
  }

  class RoundRobin {
    var queues: map<nat, seq<nat>>
    var cursor: Option<nat>

    ghost function Snap(): State
      reads this
    {
      State(queues, cursor)
    }

    ghost predicate Valid()
      reads this
    {
      Ok(Snap())
    }

    constructor ()
      ensures Valid() && Snap() == State(map[], None)
    {
      queues, cursor := map[], None;
    }

    method First(bound: nat) returns (k: Option<nat>)
      ensures match k case Some(c) => FirstFrom(queues, bound, c) case None => forall j: nat | j in queues :: j < bound
    {
      k := None;
      var rest := queues.Keys;
      while rest != {}
        invariant rest <= queues.Keys
        invariant match k case Some(c) => c in queues && bound <= c case None => true
        invariant forall j: nat | j in queues && bound <= j :: j in rest || (k.Some? && k.value <= j)
        decreases rest
      {
        var j :| j in rest;
        if bound <= j && (k == None || j < k.value) { k := Some(j); }
        rest := rest - {j};
      }
    }

    /** The request next in turn, the turn coming round to its sub-queue. */
    method Top() returns (request: nat)
      requires Valid() && queues != map[]
      modifies this`cursor
      ensures Valid() && cursor.Some? && request == queues[cursor.value][0]
      ensures if old(cursor).Some? then cursor == old(cursor) else FirstFrom(queues, 0, cursor.value)
    {
      if cursor == None {
        ghost var j: nat :| j in queues;
        cursor := First(0);
      }
      request := queues[cursor.value][0];
    }

    /** Takes the request Top showed and passes the turn on. */
    method Pop()
      requires Valid() && cursor.Some?
      modifies this
      ensures Valid() && Grants(old(Snap()), old(cursor).value, Snap())
    {
      var k := cursor.value;
      if |queues[k]| == 1 {
        queues := queues - {k};
      } else {
        queues := queues[k := queues[k][1..]];
      }
      cursor := First(k + 1);
    }

    method Push(k: nat, request: nat)
      requires Valid()
      modifies this`queues
      ensures Valid() && Snap() == Pushed(old(Snap()), k, request)
    {
      queues := queues[k := (if k in queues then queues[k] else []) + [request]];
    }

    /** Top and then Pop is one grant. */
    method Take() returns (k: nat, request: nat)
      requires Valid() && queues != map[]
      modifies this
      ensures Valid() && Grants(old(Snap()), k, Snap()) && request == old(queues)[k][0]
    {
      request := Top();
      k := cursor.value;
      Pop();
    }
  }

  // ---- Fairness ----

  /** What happens between two grants to the same sub-queue. */
  datatype Event = Push(k: nat, request: nat) | Grant(k: nat, request: nat)

  ghost predicate Does(s: State, e: Event, s': State) {
    match e
    case Push(k, request) => s' == Pushed(s, k, request)
    case Grant(k, request) => Grants(s, k, s') && request == s.queues[k][0]
  }

  /** A run: the states before and after each event. */
  ghost predicate Run(states: seq<State>, events: seq<Event>) {
    && |states| == |events| + 1
    && (forall i | 0 <= i < |states| :: Ok(states[i]))
    && (forall i | 0 <= i < |events| :: Does(states[i], events[i], states[i + 1]))
  }

  /** Sub-queue k is never empty during the run. */
  ghost predicate AlwaysThere(states: seq<State>, k: nat) {
    forall i | 0 <= i < |states| :: k in states[i].queues
  }

  predicate GrantTo(e: Event, k: nat) {
    e.Grant? && e.k == k
  }

  function Count(events: seq<Event>, k: nat): nat {
    if events == [] then 0 else Count(events[..|events| - 1], k) + if GrantTo(events[|events| - 1], k) then 1 else 0
  }

  ghost predicate NoGrant(events: seq<Event>, k: nat) {
    forall i | 0 <= i < |events| :: !GrantTo(events[i], k)
  }

  /** Since the last grant to sub-queue k the turn has passed sub-queue j, wrapped telling
      whether it has come round past the end. */
  ghost predicate Passed(s: State, k: nat, j: nat, wrapped: bool) {
    if !wrapped then k < j && (s.cursor == None || j < s.cursor.value)
    else k < j || (s.cursor.Some? && j < s.cursor.value)
  }

  /** Where the turn can be: after k, or round again and not yet past k. */
  ghost predicate Between(s: State, k: nat, wrapped: bool) {
    if !wrapped then s.cursor == None || k < s.cursor.value
    else s.cursor.Some? && s.cursor.value <= k
  }

  lemma EventKeeps(s: State, e: Event, s': State, k: nat, j: nat, wrapped: bool) returns (wrapped': bool)
    requires Ok(s) && Ok(s') && Does(s, e, s') && !GrantTo(e, k) && k != j
    requires k in s.queues && k in s'.queues && j in s.queues && j in s'.queues && Between(s, k, wrapped)
    ensures Between(s', k, wrapped')
    ensures Passed(s', k, j, wrapped') <==> Passed(s, k, j, wrapped) || GrantTo(e, j)
    ensures !(Passed(s, k, j, wrapped) && GrantTo(e, j))
  {
    wrapped' := wrapped || (e.Grant? && s.cursor == None);
  }

  /** After a grant to k and with k and j never empty, j has been granted once or not at all,
      once exactly when the turn has passed it. */
  lemma {:induction false} GrantedWhenPassed(states: seq<State>, events: seq<Event>, k: nat,
                                             j: nat) returns (wrapped: bool)
    requires Run(states, events) && AlwaysThere(states, k) && AlwaysThere(states, j) && k != j && NoGrant(events, k)
    requires MovesPast(states[0].queues, k, states[0].cursor)
    ensures Between(states[|events|], k, wrapped)
    ensures Count(events, j) == if Passed(states[|events|], k, j, wrapped) then 1 else 0
  {
    if events == [] {
      wrapped := false;
    } else {
      var n := |events| - 1;
      var before := GrantedWhenPassed(states[..n + 1], events[..n], k, j);
      assert Does(states[n], events[n], states[n + 1]);
      assert k in states[n].queues && k in states[n + 1].queues && j in states[n].queues && j in states[n + 1].queues;
      assert !GrantTo(events[n], k);
      wrapped := EventKeeps(states[n], events[n], states[n + 1], k, j, before);
    }
  }

  /** Between two grants to a sub-queue that stays non-empty, every other sub-queue that stays
      non-empty is granted exactly once, whatever is pushed meanwhile. */
  lemma OnceEach(states: seq<State>, events: seq<Event>, last: State, k: nat, j: nat)
    requires Run(states, events) && AlwaysThere(states, k) && AlwaysThere(states, j) && k != j && NoGrant(events, k)
    requires MovesPast(states[0].queues, k, states[0].cursor) && Grants(states[|events|], k, last)
    ensures Count(events, j) == 1
  {
    var wrapped := GrantedWhenPassed(states, events, k, j);
    var s := states[|events|];
    assert j in s.queues && k in s.queues;
  }

  /** The request next in turn is taken. */
  ghost predicate TakesNext(s: State, request: nat, s': State) {
    exists k: nat :: Grants(s, k, s') && request == s.queues[k][0]
  }

  /** n turns in a row: each takes the request next in turn, as long as one waits.  out is what
      is taken, in order. */
  ghost predicate Turns(s: State, n: nat, out: seq<nat>, s': State)
    decreases n
  {
    if n == 0 || s.queues == map[] then out == [] && s' == s
    else out != [] && exists mid: State :: TakesNext(s, out[0], mid) && Turns(mid, n - 1, out[1..], s')
  }

  lemma NoTurns(s: State)
    ensures Turns(s, 0, [], s)
  {}

  /** One turn more. */
  lemma {:induction false} TurnsOn(s: State, n: nat, out: seq<nat>, mid: State, request: nat, s': State)
    requires Turns(s, n, out, mid) && mid.queues != map[] && TakesNext(mid, request, s')
    ensures Turns(s, n + 1, out + [request], s')
    decreases n
  {
    hide TakesNext;
    var longer := out + [request];
    if n == 0 {
      assert longer[1..] == [] && longer[0] == request;
      assert TakesNext(s, longer[0], s') && Turns(s', 0, longer[1..], s');
    } else if s.queues != map[] {
      var next: State :| TakesNext(s, out[0], next) && Turns(next, n - 1, out[1..], mid);
      TurnsOn(next, n - 1, out[1..], mid, request, s');
      assert longer[1..] == out[1..] + [request] && longer[0] == out[0];
      assert TakesNext(s, longer[0], next) && Turns(next, n, longer[1..], s');
    }
  }

  lemma {:induction false} TurnsIdle(s: State, n: nat, out: seq<nat>, s': State)
    requires Turns(s, n, out, s') && s'.queues == map[]
    ensures Turns(s, n + 1, out, s')
    decreases n
  {
    hide TakesNext;
    if n != 0 && s.queues != map[] {
      var next: State :| TakesNext(s, out[0], next) && Turns(next, n - 1, out[1..], s');
      TurnsIdle(next, n - 1, out[1..], s');
    }
  }

  // ---- Order ----

  /** What waits in a sub-queue. */
  function Waiting(s: State, k: nat): seq<nat> {
    if k in s.queues then s.queues[k] else []
  }

  /** What was pushed to sub-queue k during a run, and what was granted from it. */
  function Sent(events: seq<Event>, k: nat): seq<nat> {
    if events == [] then []
    else
      var e := events[|events| - 1];
      Sent(events[..|events| - 1], k) + if e.Push? && e.k == k then [e.request] else []
  }

  function Granted(events: seq<Event>, k: nat): seq<nat> {
    if events == [] then []
    else
      var e := events[|events| - 1];
      Granted(events[..|events| - 1], k) + if GrantTo(e, k) then [e.request] else []
  }

  lemma StepInOrder(s: State, e: Event, s': State, k: nat)
    requires Ok(s) && Does(s, e, s')
    ensures Waiting(s, k) + (if e.Push? && e.k == k then [e.request] else [])
         == (if GrantTo(e, k) then [e.request] else []) + Waiting(s', k)
  {
    if GrantTo(e, k) {
      assert s.queues[k] == [e.request] + s.queues[k][1..];
    }
  }

  /** Over every run a sub-queue is first in, first out: what waited at first and what was
      pushed since is, in order, what has been granted and what waits now. */
  lemma {:induction false} TileOrder(states: seq<State>, events: seq<Event>, k: nat)
    requires Run(states, events)
    ensures Waiting(states[0], k) + Sent(events, k) == Granted(events, k) + Waiting(states[|events|], k)
  {
    if events != [] {
      var n := |events| - 1;
      var e := events[n];
      TileOrder(states[..n + 1], events[..n], k);
      assert Does(states[n], e, states[n + 1]);
      StepInOrder(states[n], e, states[n + 1], k);
      Regroup(Waiting(states[0], k), Sent(events[..n], k), if e.Push? && e.k == k then [e.request] else [],
              Granted(events[..n], k), Waiting(states[n], k), if GrantTo(e, k) then [e.request] else [],
              Waiting(states[n + 1], k));
    }
  }

  lemma Regroup(w: seq<nat>, a: seq<nat>, b: seq<nat>, c: seq<nat>, d: seq<nat>, e: seq<nat>, f: seq<nat>)
    requires w + a == c + d && d + b == e + f
    ensures w + (a + b) == (c + e) + f
  {
    assert w + (a + b) == (w + a) + b;
    assert (c + d) + b == c + (d + b);
    assert c + (e + f) == (c + e) + f;
  }
}
