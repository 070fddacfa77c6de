/** The timing half of the DRAM tree: every node keeps, for each command, the earliest
    clock at which it may be issued again (next) and a short queue of the clocks at which
    each command was last issued (prev).  The specification looks at nothing but the full
    history of commands; the tree is proved to agree with it. */
module DramTiming {

  /** One timing constraint: after a command of some kind, command cmd has to wait until
      val cycles after the dist-th most recent one (of a sibling node, if sibling is set). */
  datatype TimingEntry = TimingEntry(cmd: nat, dist: nat, val: int, sibling: bool)

  /** The tables of one DRAM standard.  A command and a level are the integers of the
      standard's enumerations; timing is indexed by level, then by the earlier command. */
  datatype Standard = Standard(
    levels: nat,
    rowLevel: nat,
    commands: nat,
    count: seq<nat>,
    scope: seq<nat>,
    timing: seq<seq<seq<TimingEntry>>>)
  {
    ghost predicate WellFormed() {
      && 0 < rowLevel < levels
      && |count| == levels
      && |scope| == commands
      && |timing| == levels
      && (forall l | 0 <= l < levels :: |timing[l]| == commands)
      && (forall l, c, k | 0 <= l < levels && 0 <= c < commands && 0 <= k < |timing[l][c]| ::
            EntryOk(timing[l][c][k]))
    }

    ghost predicate EntryOk(t: TimingEntry) {
      t.cmd < commands && 1 <= t.dist && (t.sibling ==> t.dist == 1)
    }

    /** How many children a node of this level has: rows are not nodes. */
    function Children(level: nat): nat
      requires WellFormed() && level < rowLevel
    {
      if level + 1 == rowLevel then 0 else count[level + 1]
    }

    /** An address names a node on every level down to the row; a negative component ends it. */
    ghost predicate ValidAddress(addr: seq<int>) {
      && |addr| == levels
      && |count| == levels
      && rowLevel < levels
      && (forall l | 0 <= l < rowLevel :: addr[l] < count[l])
    }
  }

  /** A command that was issued, with its address vector and its clock. */
  datatype Event = Event(cmd: nat, addr: seq<int>, clk: nat)

  ghost predicate ValidEvent(std: Standard, e: Event) {
    e.cmd < std.commands && |e.addr| == std.levels
  }

  ghost predicate ValidHistory(std: Standard, h: seq<Event>) {
    && (forall i | 0 <= i < |h| :: ValidEvent(std, h[i]))
    && (forall i, j | 0 <= i <= j < |h| :: h[i].clk <= h[j].clk)
  }

  // ---- Specification: the naive check over the full history ----

  /** The clocks of the commands p in h that were addressed to node id of this level
      (or, for siblings, to another node of the same parent), oldest first. */
  ghost function Clocks(h: seq<Event>, level: nat, id: int, p: nat, siblings: bool): seq<nat>
    requires forall i | 0 <= i < |h| :: level < |h[i].addr|
  {
    if h == [] then []
    else
      var e := h[|h| - 1];
      var earlier := Clocks(h[..|h| - 1], level, id, p, siblings);
      if e.cmd == p && (e.addr[level] == id) != siblings then earlier + [e.clk] else earlier
  }

  /** The clock is late enough for entry t after command p: dist commands back there was
      none, or it lies at least val cycles in the past. */
  ghost predicate EntryMet(h: seq<Event>, level: nat, id: int, p: nat, t: TimingEntry, clk: int)
    requires forall i | 0 <= i < |h| :: level < |h[i].addr|
    requires 1 <= t.dist
  {
    var ts := Clocks(h, level, id, p, t.sibling);
    t.dist <= |ts| ==> ts[|ts| - t.dist] + t.val <= clk
  }

  /** Command c may be issued at clk as far as this one node is concerned. */
  ghost predicate Ready(std: Standard, level: nat, id: int, h: seq<Event>, c: nat, clk: int)
    requires std.WellFormed() && level < std.levels && ValidHistory(std, h)
  {
    forall p, k | 0 <= p < std.commands && 0 <= k < |std.timing[level][p]| && std.timing[level][p][k].cmd == c ::
      EntryMet(h, level, id, p, std.timing[level][p][k], clk)
  }

  /** The events of h whose address passes through node id of this level. */
  ghost function Through(h: seq<Event>, level: nat, id: int): (r: seq<Event>)
    requires forall i | 0 <= i < |h| :: level < |h[i].addr|
    ensures forall i | 0 <= i < |r| :: r[i] in h && r[i].addr[level] == id
    ensures forall i | 0 <= i < |h| && h[i].addr[level] == id :: h[i] in r
  {
    if h == [] then []
    else
      var e := h[|h| - 1];
      var earlier := Through(h[..|h| - 1], level, id);
      if e.addr[level] == id then earlier + [e] else earlier
  }

  lemma ThroughValid(std: Standard, h: seq<Event>, level: nat, id: int)
    requires level < std.levels && ValidHistory(std, h)
    ensures ValidHistory(std, Through(h, level, id))
  {
    if h != [] {
      ThroughValid(std, h[..|h| - 1], level, id);
    }
  }

  /** A check of command c goes no further down than this level. */
  ghost predicate Stops(std: Standard, level: nat, c: nat, addr: seq<int>)
    requires std.WellFormed() && level < std.rowLevel && |addr| == std.levels && c < std.commands
  {
    addr[level + 1] < 0 || level == std.scope[c] || std.Children(level) == 0
  }

  /** The last level a check of command c visits, starting at a node of the given level. */
  ghost function LastLevel(std: Standard, level: nat, c: nat, addr: seq<int>): (r: nat)
    requires std.WellFormed() && level < std.rowLevel && |addr| == std.levels && c < std.commands
    ensures level <= r < std.rowLevel
    decreases std.rowLevel - level
  {
    if Stops(std, level, c, addr) then level
    else LastLevel(std, level + 1, c, addr)
  }

  /** Two addresses name the same nodes on the levels lo, ..., hi - 1. */
  ghost predicate Agree(a: seq<int>, b: seq<int>, lo: nat, hi: nat)
    requires lo <= hi <= |a| && |a| == |b|
  {
    forall l | lo <= l < hi :: a[l] == b[l]
  }

  /** The events of h that agree with addr on the levels lo, ..., hi - 1: all that can have
      touched the node of level hi on that path, or one of its siblings. */
  ghost function Reaching(h: seq<Event>, addr: seq<int>, lo: nat, hi: nat): seq<Event>
    requires lo <= hi <= |addr|
    requires forall i | 0 <= i < |h| :: |h[i].addr| == |addr|
  {
    if h == [] then []
    else
      var e := h[|h| - 1];
      var earlier := Reaching(h[..|h| - 1], addr, lo, hi);
      if Agree(e.addr, addr, lo, hi) then earlier + [e] else earlier
  }

  lemma ReachingValid(std: Standard, h: seq<Event>, addr: seq<int>, lo: nat, hi: nat)
    requires ValidHistory(std, h) && |addr| == std.levels && lo <= hi <= std.levels
    ensures ValidHistory(std, Reaching(h, addr, lo, hi))
    ensures var r := Reaching(h, addr, lo, hi);
            r != [] ==> h != [] && r[|r| - 1].clk <= h[|h| - 1].clk
  {
    if h != [] {
      ReachingValid(std, h[..|h| - 1], addr, lo, hi);
    }
  }

  lemma {:induction false} ReachingAppend(h: seq<Event>, e: Event, addr: seq<int>, lo: nat, hi: nat)
    requires lo <= hi <= |addr| == |e.addr|
    requires forall i | 0 <= i < |h| :: |h[i].addr| == |addr|
    ensures Reaching(h + [e], addr, lo, hi) ==
            Reaching(h, addr, lo, hi) + if Agree(e.addr, addr, lo, hi) then [e] else []
  {
    assert (h + [e])[..|h|] == h;
  }

  /** Going down one level filters once more. */
  lemma {:induction false} ReachingUnfold(h: seq<Event>, addr: seq<int>, lo: nat, hi: nat)
    requires lo < hi <= |addr|
    requires forall i | 0 <= i < |h| :: |h[i].addr| == |addr|
    ensures Reaching(h, addr, lo, hi) == Reaching(Through(h, lo, addr[lo]), addr, lo + 1, hi)
  {
    if h != [] {
      var h0, e := h[..|h| - 1], h[|h| - 1];
      ReachingUnfold(h0, addr, lo, hi);
      assert Agree(e.addr, addr, lo, hi) <==> e.addr[lo] == addr[lo] && Agree(e.addr, addr, lo + 1, hi);
      if e.addr[lo] == addr[lo] {
        ReachingAppend(Through(h0, lo, addr[lo]), e, addr, lo + 1, hi);
      }
    }
  }

  lemma ReachingAll(h: seq<Event>, addr: seq<int>, lo: nat)
    requires lo <= |addr|
    requires forall i | 0 <= i < |h| :: |h[i].addr| == |addr|
    ensures Reaching(h, addr, lo, lo) == h
  {}

  /** The node of level l on addr's path is ready, given everything ever issued. */
  ghost predicate NodeReady(std: Standard, level: nat, l: nat, h: seq<Event>, c: nat, addr: seq<int>, clk: int)
    requires std.WellFormed() && level <= l < std.rowLevel && ValidHistory(std, h) && |addr| == std.levels
  {
    ReachingValid(std, h, addr, level, l);
    Ready(std, l, addr[l], Reaching(h, addr, level, l), c, clk)
  }

  /** The naive check: every node on the path, down to the command's scope, is ready. */
  ghost predicate PathReady(std: Standard, level: nat, h: seq<Event>, c: nat, addr: seq<int>, clk: int)
    requires std.WellFormed() && level < std.rowLevel && ValidHistory(std, h)
    requires |addr| == std.levels && c < std.commands
  {
    forall l | level <= l <= LastLevel(std, level, c, addr) :: NodeReady(std, level, l, h, c, addr, clk)
  }

  ghost predicate Sorted(ts: seq<nat>) {
    forall i, j | 0 <= i <= j < |ts| :: ts[i] <= ts[j]
  }

  // ---- The incremental step against the specification ----

  lemma ClocksMonotone(std: Standard, h: seq<Event>, level: nat, id: int, p: nat, siblings: bool)
    requires ValidHistory(std, h) && level < std.levels
    ensures var ts := Clocks(h, level, id, p, siblings);
            && Sorted(ts)
            && (ts != [] ==> h != [] && ts[|ts| - 1] <= h[|h| - 1].clk)
  {
    if h != [] {
      ClocksMonotone(std, h[..|h| - 1], level, id, p, siblings);
    }
  }

  /** A new event changes exactly one list of clocks: that of its own command, on the side
      (target or sibling) it fell on. */
  lemma {:induction false} ClocksAppend(h: seq<Event>, e: Event, level: nat, id: int, p: nat, siblings: bool)
    requires forall i | 0 <= i < |h| :: level < |h[i].addr|
    requires level < |e.addr|
    ensures Clocks(h + [e], level, id, p, siblings) ==
            Clocks(h, level, id, p, siblings) +
            if e.cmd == p && (e.addr[level] == id) != siblings then [e.clk] else []
  {
    assert (h + [e])[..|h|] == h;
  }

  lemma {:induction false} ThroughAppend(h: seq<Event>, e: Event, level: nat, id: int)
    requires forall i | 0 <= i < |h| :: level < |h[i].addr|
    requires level < |e.addr|
    ensures Through(h + [e], level, id) ==
            Through(h, level, id) + if e.addr[level] == id then [e] else []
  {
    assert (h + [e])[..|h|] == h;
  }

  /** The first k entries of the new event's own row that concern command c are met. */
  ghost predicate PrefixMet(h: seq<Event>, level: nat, id: int, p: nat,
                            entries: seq<TimingEntry>, k: nat, siblings: bool, c: nat, clk: int)
    requires forall i | 0 <= i < |h| :: level < |h[i].addr|
    requires k <= |entries| && forall j | 0 <= j < |entries| :: 1 <= entries[j].dist
  {
    forall j | 0 <= j < k && entries[j].cmd == c && entries[j].sibling == siblings ::
      EntryMet(h, level, id, p, entries[j], clk)
  }

  /** Extending the history by e adds to the old requirement only the entries of e's own
      row: the clocks never go back, so an older occurrence is dominated by the newer one. */
  lemma ReadyAppend(std: Standard, level: nat, id: int, h: seq<Event>, e: Event, c: nat, clk: int)
    requires std.WellFormed() && level < std.levels && c < std.commands && ValidEvent(std, e)
    requires ValidHistory(std, h) && ValidHistory(std, h + [e])
    ensures Ready(std, level, id, h + [e], c, clk) <==>
            (Ready(std, level, id, h, c, clk) &&
             PrefixMet(h + [e], level, id, e.cmd, std.timing[level][e.cmd], |std.timing[level][e.cmd]|,
                       e.addr[level] != id, c, clk))
  {
    assert (h + [e])[|h|] == e;
    forall p, k | 0 <= p < std.commands && 0 <= k < |std.timing[level][p]| && std.timing[level][p][k].cmd == c
      ensures var t := std.timing[level][p][k];
              EntryMet(h + [e], level, id, p, t, clk) ==> EntryMet(h, level, id, p, t, clk)
      ensures var t := std.timing[level][p][k];
              p != e.cmd || t.sibling != (e.addr[level] != id) ==>
                (EntryMet(h + [e], level, id, p, t, clk) <==> EntryMet(h, level, id, p, t, clk))
    {
      var t := std.timing[level][p][k];
      assert std.EntryOk(t);
      ClocksAppend(h, e, level, id, p, t.sibling);
      ClocksMonotone(std, h + [e], level, id, p, t.sibling);
      var ts, ts' := Clocks(h, level, id, p, t.sibling), Clocks(h + [e], level, id, p, t.sibling);
      if t.dist <= |ts| {
        assert ts'[|ts| - t.dist] == ts[|ts| - t.dist] <= ts'[|ts'| - t.dist];
      }
    }
  }

  /** nx is the least clock from which on the command is ready: the whole meaning of next. */
  ghost predicate Exact(nx: int, std: Standard, level: nat, id: int, h: seq<Event>, c: nat)
    requires std.WellFormed() && level < std.levels && ValidHistory(std, h)
  {
    -1 <= nx && forall clk: nat :: nx <= clk <==> Ready(std, level, id, h, c, clk)
  }

  function MaxDist(entries: seq<TimingEntry>): (d: nat)
    ensures forall k | 0 <= k < |entries| :: entries[k].dist <= d
    ensures d == 0 || exists k | 0 <= k < |entries| :: entries[k].dist == d
  {
    if entries == [] then 0
    else
      var m := MaxDist(entries[..|entries| - 1]);
      if m < entries[|entries| - 1].dist then entries[|entries| - 1].dist else m
  }

  /** The n most recent clocks, most recent first, padded with -1 for "never". */
  ghost function Recent(ts: seq<nat>, n: nat): (r: seq<int>)
    ensures |r| == n
    ensures forall i | 0 <= i < n :: r[i] == if i < |ts| then ts[|ts| - 1 - i] else -1
  {
    seq(n, i requires 0 <= i < n => if i < |ts| then ts[|ts| - 1 - i] as int else -1)
  }

  /** Pushing the newest clock in front and dropping the oldest keeps the queue exact. */
  lemma RecentPush(ts: seq<nat>, n: nat, clk: nat)
    ensures n > 0 ==> Recent(ts + [clk], n) == [clk] + Recent(ts, n)[..n - 1]
    ensures n == 0 ==> Recent(ts + [clk], n) == Recent(ts, n)
  {}

  lemma ClocksAfter(std: Standard, h: seq<Event>, e: Event, level: nat, id: int)
    requires ValidHistory(std, h) && ValidEvent(std, e) && level < std.levels
    ensures forall p: nat ::
              Clocks(h + [e], level, id, p, false) ==
              Clocks(h, level, id, p, false) + if p == e.cmd && e.addr[level] == id then [e.clk] else []
  {
    forall p: nat
      ensures Clocks(h + [e], level, id, p, false) ==
              Clocks(h, level, id, p, false) + if p == e.cmd && e.addr[level] == id then [e.clk] else []
    {
      ClocksAppend(h, e, level, id, p, false);
    }
  }

  /** next after the first k entries of the new command's row have been applied. */
  ghost predicate Raised(next: seq<int>, std: Standard, level: nat, id: int, h: seq<Event>, e: Event, k: nat)
    requires std.WellFormed() && level < std.levels && ValidEvent(std, e)
    requires ValidHistory(std, h) && ValidHistory(std, h + [e])
    requires k <= |std.timing[level][e.cmd]|
  {
    && (forall j | 0 <= j < |std.timing[level][e.cmd]| :: std.EntryOk(std.timing[level][e.cmd][j]))
    && |next| == std.commands
    && (forall c | 0 <= c < std.commands ::
          && -1 <= next[c]
          && forall q: nat ::
               next[c] <= q <==>
               (Ready(std, level, id, h, c, q) &&
                PrefixMet(h + [e], level, id, e.cmd, std.timing[level][e.cmd], k, e.addr[level] != id, c, q)))
  }

  /** What one entry does to next: nothing unless it applies and its clock is in the
      recent history; otherwise it lifts next of the entry's command. */
  ghost function RaisedBy(next: seq<int>, t: TimingEntry, applies: bool, ts: seq<nat>): seq<int>
    requires t.cmd < |next| && 1 <= t.dist
  {
    if applies && t.dist <= |ts| then
      var future := ts[|ts| - t.dist] + t.val;
      next[t.cmd := if next[t.cmd] < future then future else next[t.cmd]]
    else next
  }

  lemma RaisedStep(next: seq<int>, std: Standard, level: nat, id: int, h: seq<Event>, e: Event, k: nat)
    returns (t: TimingEntry, next': seq<int>)
    requires std.WellFormed() && level < std.levels && ValidEvent(std, e)
    requires ValidHistory(std, h) && ValidHistory(std, h + [e])
    requires k < |std.timing[level][e.cmd]| && Raised(next, std, level, id, h, e, k)
    ensures t == std.timing[level][e.cmd][k] && std.EntryOk(t)
    ensures next' == RaisedBy(next, t, t.sibling == (e.addr[level] != id), Clocks(h + [e], level, id, e.cmd, t.sibling))
    ensures Raised(next', std, level, id, h, e, k + 1)
  {
    t := std.timing[level][e.cmd][k];
    assert std.EntryOk(t);
    var ts := Clocks(h + [e], level, id, e.cmd, t.sibling);
    var sib := e.addr[level] != id;
    next' := RaisedBy(next, t, t.sibling == sib, ts);
    forall c | 0 <= c < std.commands
      ensures -1 <= next'[c]
      ensures forall q: nat ::
                next'[c] <= q <==>
                (Ready(std, level, id, h, c, q) &&
                 PrefixMet(h + [e], level, id, e.cmd, std.timing[level][e.cmd], k + 1, sib, c, q))
    {
      forall q: nat
        ensures next'[c] <= q <==>
                (Ready(std, level, id, h, c, q) &&
                 PrefixMet(h + [e], level, id, e.cmd, std.timing[level][e.cmd], k + 1, sib, c, q))
      {
        assert PrefixMet(h + [e], level, id, e.cmd, std.timing[level][e.cmd], k + 1, sib, c, q) <==>
               (PrefixMet(h + [e], level, id, e.cmd, std.timing[level][e.cmd], k, sib, c, q) &&
                (t.cmd == c && t.sibling == sib ==> EntryMet(h + [e], level, id, e.cmd, t, q)));
        assert next[c] <= q <==>
               (Ready(std, level, id, h, c, q) &&
                PrefixMet(h + [e], level, id, e.cmd, std.timing[level][e.cmd], k, sib, c, q));
        assert next'[c] <= q <==>
               (next[c] <= q && (t.cmd == c && t.sibling == sib ==> EntryMet(h + [e], level, id, e.cmd, t, q)));
      }
    }
  }

  lemma RaisedStart(next: seq<int>, std: Standard, level: nat, id: int, h: seq<Event>, e: Event)
    requires std.WellFormed() && level < std.levels && ValidEvent(std, e)
    requires ValidHistory(std, h) && ValidHistory(std, h + [e])
    requires |next| == std.commands && forall c | 0 <= c < std.commands :: Exact(next[c], std, level, id, h, c)
    ensures Raised(next, std, level, id, h, e, 0)
  {
    assert forall j | 0 <= j < |std.timing[level][e.cmd]| :: std.EntryOk(std.timing[level][e.cmd][j]);
    forall c, q: nat | 0 <= c < std.commands
      ensures next[c] <= q <==>
              (Ready(std, level, id, h, c, q) &&
               PrefixMet(h + [e], level, id, e.cmd, std.timing[level][e.cmd], 0, e.addr[level] != id, c, q))
    {
      assert Exact(next[c], std, level, id, h, c);
    }
  }

  lemma RaisedAll(next: seq<int>, std: Standard, level: nat, id: int, h: seq<Event>, e: Event)
    requires std.WellFormed() && level < std.levels && ValidEvent(std, e)
    requires ValidHistory(std, h) && ValidHistory(std, h + [e])
    requires Raised(next, std, level, id, h, e, |std.timing[level][e.cmd]|)
    ensures forall c | 0 <= c < std.commands :: Exact(next[c], std, level, id, h + [e], c)
  {
    forall c, q: nat | 0 <= c < std.commands
      ensures next[c] <= q <==> Ready(std, level, id, h + [e], c, q)
    {
      ReadyAppend(std, level, id, h, e, c, q);
    }
  }

  /** The naive check, node by node on the way down. */
  ghost predicate Descent(std: Standard, level: nat, h: seq<Event>, c: nat, addr: seq<int>, clk: int)
    requires std.WellFormed() && level < std.rowLevel && ValidHistory(std, h)
    requires |addr| == std.levels && c < std.commands
    decreases std.rowLevel - level
  {
    && Ready(std, level, addr[level], h, c, clk)
    && (Stops(std, level, c, addr) ||
        (ThroughValid(std, h, level, addr[level]);
         Descent(std, level + 1, Through(h, level, addr[level]), c, addr, clk)))
  }

  lemma NodeReadyHere(std: Standard, level: nat, h: seq<Event>, c: nat, addr: seq<int>, clk: int)
    requires std.WellFormed() && level < std.rowLevel && ValidHistory(std, h) && |addr| == std.levels
    ensures NodeReady(std, level, level, h, c, addr, clk) <==> Ready(std, level, addr[level], h, c, clk)
  {
    ReachingAll(h, addr, level);
  }

  lemma NodeReadyBelow(std: Standard, level: nat, l: nat, h: seq<Event>, c: nat, addr: seq<int>, clk: int)
    requires std.WellFormed() && level < l < std.rowLevel && ValidHistory(std, h) && |addr| == std.levels
    ensures ValidHistory(std, Through(h, level, addr[level]))
    ensures NodeReady(std, level, l, h, c, addr, clk) <==>
            NodeReady(std, level + 1, l, Through(h, level, addr[level]), c, addr, clk)
  {
    ThroughValid(std, h, level, addr[level]);
    ReachingUnfold(h, addr, level, l);
  }

  lemma PathReadyDown(std: Standard, level: nat, h: seq<Event>, c: nat, addr: seq<int>, clk: int)
    requires std.WellFormed() && level < std.rowLevel && ValidHistory(std, h)
    requires |addr| == std.levels && c < std.commands && !Stops(std, level, c, addr)
    requires PathReady(std, level, h, c, addr, clk)
    ensures ValidHistory(std, Through(h, level, addr[level]))
    ensures PathReady(std, level + 1, Through(h, level, addr[level]), c, addr, clk)
  {
    var below, h' := level + 1, Through(h, level, addr[level]);
    ThroughValid(std, h, level, addr[level]);
    forall l | below <= l <= LastLevel(std, below, c, addr) ensures NodeReady(std, below, l, h', c, addr, clk) {
      NodeReadyBelow(std, level, l, h, c, addr, clk);
      assert NodeReady(std, level, l, h, c, addr, clk);
    }
  }

  lemma PathReadyUp(std: Standard, level: nat, h: seq<Event>, c: nat, addr: seq<int>, clk: int)
    requires std.WellFormed() && level < std.rowLevel && ValidHistory(std, h)
    requires |addr| == std.levels && c < std.commands && !Stops(std, level, c, addr)
    requires ValidHistory(std, Through(h, level, addr[level]))
    requires NodeReady(std, level, level, h, c, addr, clk)
    requires PathReady(std, level + 1, Through(h, level, addr[level]), c, addr, clk)
    ensures PathReady(std, level, h, c, addr, clk)
  {
    var below, h' := level + 1, Through(h, level, addr[level]);
    forall l | level <= l <= LastLevel(std, level, c, addr) ensures NodeReady(std, level, l, h, c, addr, clk) {
      if level < l {
        NodeReadyBelow(std, level, l, h, c, addr, clk);
        assert NodeReady(std, below, l, h', c, addr, clk);
      }
    }
  }

  /** Both forms of the naive check agree. */
  lemma {:induction false} DescentIsPathReady(std: Standard, level: nat, h: seq<Event>, c: nat, addr: seq<int>,
                                              clk: int)
    requires std.WellFormed() && level < std.rowLevel && ValidHistory(std, h)
    requires |addr| == std.levels && c < std.commands
    ensures Descent(std, level, h, c, addr, clk) <==> PathReady(std, level, h, c, addr, clk)
    decreases std.rowLevel - level
  {
    NodeReadyHere(std, level, h, c, addr, clk);
    if Stops(std, level, c, addr) {
      assert LastLevel(std, level, c, addr) == level;
    } else {
      var h' := Through(h, level, addr[level]);
      ThroughValid(std, h, level, addr[level]);
      DescentIsPathReady(std, level + 1, h', c, addr, clk);
      if PathReady(std, level, h, c, addr, clk) {
        PathReadyDown(std, level, h, c, addr, clk);
        assert NodeReady(std, level, level, h, c, addr, clk);
      } else if Descent(std, level, h, c, addr, clk) {
        PathReadyUp(std, level, h, c, addr, clk);
      }
    }
  }

  // ---- The tree ----

  class Node {
    const std: Standard
    const level: nat
    const id: int
    const children: seq<Node>
    var next: seq<int>
    var prev: seq<seq<int>>
    /** Ghost: the events handed to this node so far. */
    ghost var seen: seq<Event>
    ghost const Repr: set<Node>

    /** The tree has one node per (level, position) and no node is shared. */
    ghost predicate Shape()
      decreases if level < std.rowLevel then std.rowLevel - level else 0
    {
      && std.WellFormed() && level < std.rowLevel
      && this in Repr
      && |children| == std.Children(level)
      && (forall i | 0 <= i < |children| ::
            var c := children[i];
            && c in Repr && c.Repr <= Repr && this !in c.Repr
            && c.std == std && c.level == level + 1 && c.id == i
            && c.Shape())
      && (forall i, j | 0 <= i < j < |children| :: children[i].Repr !! children[j].Repr)
    }

    /** next and prev say what the history says. */
    ghost predicate Local()
      requires std.WellFormed() && level < std.rowLevel
      reads this
    {
      && ValidHistory(std, seen)
      && |next| == std.commands && |prev| == std.commands
      && (forall c | 0 <= c < std.commands :: Exact(next[c], std, level, id, seen, c))
      && (forall p | 0 <= p < std.commands ::
            prev[p] == Recent(Clocks(seen, level, id, p, false), MaxDist(std.timing[level][p])))
    }

    ghost predicate Valid()
      requires Shape()
      reads Repr
      decreases std.rowLevel - level
    {
      && Local()
      && (forall i | 0 <= i < |children| ::
            children[i].seen == Through(seen, level, id) && children[i].Valid())
    }

    /** One queue per command, as long as the farthest any of its entries looks back. */
    static method EmptyQueues(std: Standard, level: nat) returns (queues: seq<seq<int>>)
      requires std.WellFormed() && level < std.levels
      ensures |queues| == std.commands
      ensures forall p | 0 <= p < std.commands :: queues[p] == Recent([], MaxDist(std.timing[level][p]))
    {
      queues := [];
      for c := 0 to std.commands
        invariant |queues| == c
        invariant forall p | 0 <= p < c :: queues[p] == Recent([], MaxDist(std.timing[level][p]))
      {
        queues := queues + [seq(MaxDist(std.timing[level][c]), _ => -1)];
      }
    }

    constructor (std: Standard, level: nat, id: int)
      requires std.WellFormed() && level < std.rowLevel
      ensures Shape() && Valid() && fresh(Repr)
      ensures this.std == std && this.level == level && this.id == id && seen == []
      decreases std.rowLevel - level
    {
      var queues := EmptyQueues(std, level);
      var kids: seq<Node> := [];
      ghost var owned: set<Node> := {};
      for i := 0 to std.Children(level)
        invariant |kids| == i && fresh(owned)
        invariant forall j | 0 <= j < i ::
            kids[j] in owned && kids[j].Repr <= owned && kids[j].std == std && kids[j].level == level + 1 &&
            kids[j].id == j && kids[j].seen == [] && kids[j].Shape() && kids[j].Valid()
        invariant forall j, k | 0 <= j < k < i :: kids[j].Repr !! kids[k].Repr
      {
        var kid := new Node(std, level + 1, i);
        kids := kids + [kid];
        owned := owned + kid.Repr;
      }
      this.std, this.level, this.id := std, level, id;
      this.children := kids;
      this.next := seq(std.commands, _ => -1);
      this.prev := queues;
      this.seen := [];
      this.Repr := {this} + owned;
    }

    /** Command c may be issued at clk: a recursion down the path of next entries. */
    function Check(c: nat, addr: seq<int>, clk: nat): (r: bool)
      requires Shape() && Valid() && c < std.commands
      requires std.ValidAddress(addr) && addr[level] == id
      reads Repr
      ensures r <==> Descent(std, level, seen, c, addr, clk)
      decreases std.rowLevel - level
    {
      assert Exact(next[c], std, level, id, seen, c);
      if next[c] != -1 && clk < next[c] then false
      else if addr[level + 1] < 0 || level == std.scope[c] || |children| == 0 then true
      else children[addr[level + 1]].Check(c, addr, clk)
    }

    /** A sibling of the target node was addressed: only the sibling entries apply. */
    method RaiseSiblings(c: nat, clk: nat, ghost e: Event)
      requires std.WellFormed() && level < std.rowLevel && Local()
      requires ValidEvent(std, e) && ValidHistory(std, seen + [e])
      requires e.cmd == c && e.clk == clk && e.addr[level] != id
      modifies this`next
      ensures |next| == std.commands
      ensures forall c' | 0 <= c' < std.commands :: Exact(next[c'], std, level, id, seen + [e], c')
    {
      var entries := std.timing[level][c];
      RaisedStart(next, std, level, id, seen, e);
      for k := 0 to |entries|
        invariant Raised(next, std, level, id, seen, e, k)
      {
        var t := entries[k];
        ghost var _, next' := RaisedStep(next, std, level, id, seen, e, k);
        ClocksAppend(seen, e, level, id, c, t.sibling);
        if t.sibling {
          var future := clk + t.val;
          next := next[t.cmd := if next[t.cmd] < future then future else next[t.cmd]];
        }
        assert next == next';
      }
      RaisedAll(next, std, level, id, seen, e);
    }

    /** This node was addressed: the queue of recent clocks, which already holds the new
        one, says how far back each entry reaches. */
    method RaiseTarget(c: nat, ghost e: Event)
      requires std.WellFormed() && level < std.rowLevel && ValidHistory(std, seen)
      requires ValidEvent(std, e) && ValidHistory(std, seen + [e])
      requires e.cmd == c && e.addr[level] == id
      requires |next| == std.commands && forall c' | 0 <= c' < std.commands :: Exact(next[c'], std, level, id, seen, c')
      requires |prev| == std.commands
      requires prev[c] == Recent(Clocks(seen + [e], level, id, c, false), MaxDist(std.timing[level][c]))
      modifies this`next
      ensures |next| == std.commands
      ensures forall c' | 0 <= c' < std.commands :: Exact(next[c'], std, level, id, seen + [e], c')
    {
      var entries := std.timing[level][c];
      RaisedStart(next, std, level, id, seen, e);
      for k := 0 to |entries|
        invariant Raised(next, std, level, id, seen, e, k)
      {
        var t := entries[k];
        ghost var _, next' := RaisedStep(next, std, level, id, seen, e, k);
        if !t.sibling {
          var past := prev[c][t.dist - 1];
          if past >= 0 {
            var future := past + t.val;
            next := next[t.cmd := if next[t.cmd] < future then future else next[t.cmd]];
          }
        }
        assert next == next';
      }
      RaisedAll(next, std, level, id, seen, e);
    }

    /** What a command does to this node alone. */
    method UpdateSelf(c: nat, addr: seq<int>, clk: nat)
      requires std.WellFormed() && level < std.rowLevel && Local()
      requires c < std.commands && |addr| == std.levels
      requires seen != [] ==> seen[|seen| - 1].clk <= clk
      modifies this
      ensures Local() && seen == old(seen) + [Event(c, addr, clk)]
    {
      ghost var e := Event(c, addr, clk);
      ghost var h, h' := seen, seen + [e];
      assert ValidHistory(std, h');
      ClocksAfter(std, h, e, level, id);
      RecentPush(Clocks(h, level, id, c, false), MaxDist(std.timing[level][c]), clk);
      if id != addr[level] {
        RaiseSiblings(c, clk, e);
      } else {
        if |prev[c]| > 0 {
          prev := prev[c := [clk] + prev[c][..|prev[c]| - 1]];
        }
        RaiseTarget(c, e);
      }
      seen := h';
    }

    /** Record that a command was issued: raise next by the entries of the command's row,
        using only the short queue of recent clocks, here and in the whole subtree. */
    method UpdateTiming(c: nat, addr: seq<int>, clk: nat)
      requires Shape() && Valid() && c < std.commands && |addr| == std.levels
      requires seen != [] ==> seen[|seen| - 1].clk <= clk
      modifies Repr
      ensures Valid() && seen == old(seen) + [Event(c, addr, clk)]
      decreases std.rowLevel - level
    {
      ghost var h := seen;
      ThroughAppend(h, Event(c, addr, clk), level, id);
      UpdateSelf(c, addr, clk);
      if id == addr[level] {
        UpdateChildren(c, addr, clk, h);
      }
    }

    /** The target node passes the command on to all of its children. */
    method UpdateChildren(c: nat, addr: seq<int>, clk: nat, ghost h: seq<Event>)
      requires Shape() && c < std.commands && |addr| == std.levels
      requires Local() && ValidHistory(std, h) && seen == h + [Event(c, addr, clk)] && addr[level] == id
      requires forall i | 0 <= i < |children| ::
          children[i].seen == Through(h, level, id) && children[i].Valid()
      modifies Repr - {this}
      ensures Valid()
      decreases std.rowLevel - level, 0
    {
      ThroughAppend(h, Event(c, addr, clk), level, id);
      ThroughValid(std, seen, level, id);
      for i := 0 to |children|
        invariant forall j | 0 <= j < i :: children[j].seen == Through(seen, level, id) && children[j].Valid()
        invariant forall j | i <= j < |children| :: children[j].seen == Through(h, level, id) && children[j].Valid()
      {
        children[i].UpdateTiming(c, addr, clk);
      }
    }

    /** The controller's question, asked at the root: the incremental tree answers exactly
        as the check over the full command history would. */
    method IsReady(c: nat, addr: seq<int>, clk: nat) returns (r: bool)
      requires Shape() && Valid() && c < std.commands && level == 0
      requires std.ValidAddress(addr) && addr[0] == id
      ensures r <==> PathReady(std, 0, seen, c, addr, clk)
    {
      DescentIsPathReady(std, 0, seen, c, addr, clk);
      r := Check(c, addr, clk);
    }

    /** The earliest clock, from now on, at which the command will be ready if nothing else
        is issued: one walk down the path instead of a search over clocks. */
    method GetNext(c: nat, addr: seq<int>, now: nat) returns (nextClk: int)
      requires Shape() && Valid() && c < std.commands && level == 0
      requires std.ValidAddress(addr) && addr[0] == id
      ensures now <= nextClk
      ensures forall clk: nat | now <= clk :: nextClk <= clk <==> PathReady(std, 0, seen, c, addr, clk)
    {
      var node := this;
      nextClk := if now < next[c] then next[c] else now;
      var l := level;
      while l < std.scope[c] && |node.children| != 0 && addr[l + 1] >= 0
        invariant l == node.level <= std.scope[c]
        invariant node.std == std && node.Shape() && node.Valid() && addr[l] == node.id
        invariant now <= nextClk
        invariant forall clk: nat | now <= clk ::
            nextClk <= clk && Descent(std, l, node.seen, c, addr, clk) <==> Descent(std, 0, seen, c, addr, clk)
        invariant forall clk: nat | now <= clk ::
            nextClk <= clk ==> Ready(std, l, node.id, node.seen, c, clk)
        decreases std.rowLevel - l
      {
        node := node.children[addr[l + 1]];
        nextClk := if nextClk < node.next[c] then node.next[c] else nextClk;
        l := l + 1;
      }
      forall clk: nat | now <= clk ensures nextClk <= clk <==> PathReady(std, 0, seen, c, addr, clk) {
        DescentIsPathReady(std, 0, seen, c, addr, clk);
      }
    }

    /** Issue a command that is ready; the run stays legal. */
    method Issue(c: nat, addr: seq<int>, clk: nat)
      requires Shape() && Valid() && c < std.commands && level == 0
      requires std.ValidAddress(addr) && addr[0] == id
      requires Legal(std, id, seen) && (seen != [] ==> seen[|seen| - 1].clk <= clk)
      requires Check(c, addr, clk)
      modifies Repr
      ensures Valid() && seen == old(seen) + [Event(c, addr, clk)] && Legal(std, id, seen)
    {
      DescentIsPathReady(std, 0, seen, c, addr, clk);
      LegalExtend(std, id, seen, Event(c, addr, clk));
      UpdateTiming(c, addr, clk);
    }
  }

  // ---- Whole runs ----

  /** A run in which every command passed the naive check when it was issued. */
  ghost predicate Legal(std: Standard, id: int, h: seq<Event>)
    requires std.WellFormed()
  {
    && ValidHistory(std, h)
    && (forall i | 0 <= i < |h| ::
          std.ValidAddress(h[i].addr) && h[i].addr[0] == id &&
          PathReady(std, 0, h[..i], h[i].cmd, h[i].addr, h[i].clk))
  }

  lemma LegalAt(std: Standard, id: int, h: seq<Event>, j: nat)
    requires std.WellFormed() && Legal(std, id, h) && j < |h|
    ensures ValidHistory(std, h[..j]) && ValidEvent(std, h[j]) && std.ValidAddress(h[j].addr) && h[j].addr[0] == id
    ensures PathReady(std, 0, h[..j], h[j].cmd, h[j].addr, h[j].clk)
  {}

  lemma LegalExtend(std: Standard, id: int, h: seq<Event>, e: Event)
    requires std.WellFormed() && Legal(std, id, h) && ValidHistory(std, h + [e])
    requires ValidEvent(std, e) && std.ValidAddress(e.addr) && e.addr[0] == id
    requires PathReady(std, 0, h, e.cmd, e.addr, e.clk)
    ensures Legal(std, id, h + [e])
  {
    var h' := h + [e];
    assert h'[..|h|] == h;
    forall i | 0 <= i < |h| ensures h'[i] == h[i] && h'[..i] == h[..i] {}
  }

  /** Event e is a command p to the node of level l on addr's path (or to a sibling of it). */
  ghost predicate Concerns(e: Event, addr: seq<int>, l: nat, p: nat, siblings: bool)
    requires l < |addr| == |e.addr|
  {
    e.cmd == p && Agree(e.addr, addr, 0, l) && (e.addr[l] == addr[l]) != siblings
  }

  /** The clocks of the events of h that concern the node, oldest first. */
  ghost function PathClocks(h: seq<Event>, addr: seq<int>, l: nat, p: nat, siblings: bool): seq<nat>
    requires l < |addr| && forall i | 0 <= i < |h| :: |h[i].addr| == |addr|
  {
    if h == [] then []
    else
      var e := h[|h| - 1];
      var earlier := PathClocks(h[..|h| - 1], addr, l, p, siblings);
      if Concerns(e, addr, l, p, siblings) then earlier + [e.clk] else earlier
  }

  lemma {:induction false} PathClocksAreClocks(std: Standard, h: seq<Event>, addr: seq<int>, l: nat, p: nat,
                                               siblings: bool)
    requires ValidHistory(std, h) && l < |addr| == std.levels
    ensures ValidHistory(std, Reaching(h, addr, 0, l))
    ensures PathClocks(h, addr, l, p, siblings) == Clocks(Reaching(h, addr, 0, l), l, addr[l], p, siblings)
  {
    ReachingValid(std, h, addr, 0, l);
    if h != [] {
      var h0, e := h[..|h| - 1], h[|h| - 1];
      PathClocksAreClocks(std, h0, addr, l, p, siblings);
      if Agree(e.addr, addr, 0, l) {
        ClocksAppend(Reaching(h0, addr, 0, l), e, l, addr[l], p, siblings);
      }
    }
  }

  lemma PathClocksMonotone(std: Standard, h: seq<Event>, addr: seq<int>, l: nat, p: nat, siblings: bool)
    requires ValidHistory(std, h) && l < |addr| == std.levels
    ensures Sorted(PathClocks(h, addr, l, p, siblings))
  {
    PathClocksAreClocks(std, h, addr, l, p, siblings);
    ClocksMonotone(std, Reaching(h, addr, 0, l), l, addr[l], p, siblings);
  }

  /** idx picks, in order, events of h that concern the node. */
  ghost predicate Picks(h: seq<Event>, idx: seq<nat>, addr: seq<int>, l: nat, p: nat, siblings: bool)
    requires l < |addr| && forall i | 0 <= i < |h| :: |h[i].addr| == |addr|
  {
    && (forall i, j | 0 <= i < j < |idx| :: idx[i] < idx[j])
    && (forall i | 0 <= i < |idx| :: idx[i] < |h| && Concerns(h[idx[i]], addr, l, p, siblings))
  }

  /** If idx picks n such events, the n-th most recent one is no earlier than the first picked. */
  lemma {:induction false} PickedClocks(std: Standard, h: seq<Event>, addr: seq<int>, l: nat, p: nat, siblings: bool,
                                        idx: seq<nat>)
    requires ValidHistory(std, h) && l < |addr| == std.levels
    requires idx != [] && Picks(h, idx, addr, l, p, siblings)
    ensures var ts := PathClocks(h, addr, l, p, siblings);
            idx[0] < |h| && |idx| <= |ts| && h[idx[0]].clk <= ts[|ts| - |idx|]
    decreases |h|
  {
    var last := |idx| - 1;
    assert idx[0] < |h| && idx[last] < |h|;
    var n := |h| - 1;
    var h0 := h[..n];
    var ts0, ts := PathClocks(h0, addr, l, p, siblings), PathClocks(h, addr, l, p, siblings);
    assert ts0 == ts || ts == ts0 + [h[n].clk];
    PathClocksMonotone(std, h, addr, l, p, siblings);
    assert Sorted(ts);
    if idx[last] == n {
      if last > 0 {
        PickedClocks(std, h0, addr, l, p, siblings, idx[..last]);
      }
    } else {
      PickedClocks(std, h0, addr, l, p, siblings, idx);
      var m, m' := |ts0| - |idx|, |ts| - |idx|;
      assert 0 <= m <= m' < |ts|;
      assert ts[m] <= ts[m'];
      assert ts0[m] == ts[m];
    }
  }

  /** The n-th most recent clock is that of the first of n such events. */
  lemma {:induction false} LastPicks(std: Standard, h: seq<Event>, addr: seq<int>, l: nat, p: nat, siblings: bool,
                                     n: nat) returns (idx: seq<nat>)
    requires ValidHistory(std, h) && l < |addr| == std.levels
    requires 1 <= n <= |PathClocks(h, addr, l, p, siblings)|
    ensures |idx| == n && Picks(h, idx, addr, l, p, siblings)
    ensures var ts := PathClocks(h, addr, l, p, siblings); h[idx[0]].clk == ts[|ts| - n]
    decreases |h|
  {
    var m := |h| - 1;
    var h0 := h[..m];
    if Concerns(h[m], addr, l, p, siblings) {
      if n == 1 {
        idx := [m];
      } else {
        var front := LastPicks(std, h0, addr, l, p, siblings, n - 1);
        idx := front + [m];
      }
    } else {
      idx := LastPicks(std, h0, addr, l, p, siblings, n);
    }
  }

  /** Whatever dist events that concern the node are picked, the clock is late enough for the
      first of them. */
  ghost predicate Kept(h: seq<Event>, addr: seq<int>, l: nat, p: nat, t: TimingEntry, clk: int)
    requires l < |addr| && 1 <= t.dist && forall i | 0 <= i < |h| :: |h[i].addr| == |addr|
  {
    forall idx: seq<nat> | |idx| == t.dist && Picks(h, idx, addr, l, p, t.sibling) :: h[idx[0]].clk + t.val <= clk
  }

  /** The same told by the clocks. */
  lemma KeptExactly(std: Standard, h: seq<Event>, addr: seq<int>, l: nat, p: nat, t: TimingEntry, clk: int)
    requires ValidHistory(std, h) && l < |addr| == std.levels && 1 <= t.dist
    ensures var ts := PathClocks(h, addr, l, p, t.sibling);
            Kept(h, addr, l, p, t, clk) <==> (t.dist <= |ts| ==> ts[|ts| - t.dist] + t.val <= clk)
  {
    hide PathClocks, Picks;
    var ts := PathClocks(h, addr, l, p, t.sibling);
    if t.dist <= |ts| {
      var last := LastPicks(std, h, addr, l, p, t.sibling, t.dist);
    }
    forall idx: seq<nat> | |idx| == t.dist && Picks(h, idx, addr, l, p, t.sibling)
      ensures idx[0] < |h| && t.dist <= |ts| && h[idx[0]].clk <= ts[|ts| - t.dist]
    {
      PickedClocks(std, h, addr, l, p, t.sibling, idx);
    }
  }

  lemma EntryMetExactly(std: Standard, h: seq<Event>, addr: seq<int>, l: nat, p: nat, t: TimingEntry, clk: int)
    requires ValidHistory(std, h) && l < |addr| == std.levels && 1 <= t.dist
    ensures ValidHistory(std, Reaching(h, addr, 0, l))
    ensures EntryMet(Reaching(h, addr, 0, l), l, addr[l], p, t, clk) <==> Kept(h, addr, l, p, t, clk)
  {
    hide Kept, PathClocks, Clocks, Reaching;
    PathClocksAreClocks(std, h, addr, l, p, t.sibling);
    KeptExactly(std, h, addr, l, p, t, clk);
  }

  /** The check over the history, told by events: a command may go exactly when every entry for
      it, on every level down to the last the check visits, is kept. */
  lemma PathReadyExactly(std: Standard, h: seq<Event>, c: nat, addr: seq<int>, clk: int)
    requires std.WellFormed() && ValidHistory(std, h) && |addr| == std.levels && c < std.commands
    ensures PathReady(std, 0, h, c, addr, clk) <==>
              forall l, p, k | 0 <= l <= LastLevel(std, 0, c, addr) && 0 <= p < std.commands &&
                               0 <= k < |std.timing[l][p]| && std.timing[l][p][k].cmd == c ::
                std.EntryOk(std.timing[l][p][k]) && Kept(h, addr, l, p, std.timing[l][p][k], clk)
  {
    hide Kept, EntryMet;
    forall l | 0 <= l <= LastLevel(std, 0, c, addr)
      ensures NodeReady(std, 0, l, h, c, addr, clk) <==>
                forall p, k | 0 <= p < std.commands && 0 <= k < |std.timing[l][p]| && std.timing[l][p][k].cmd == c ::
                  std.EntryOk(std.timing[l][p][k]) && Kept(h, addr, l, p, std.timing[l][p][k], clk)
    {
      ReachingValid(std, h, addr, 0, l);
      forall p, k | 0 <= p < std.commands && 0 <= k < |std.timing[l][p]| && std.timing[l][p][k].cmd == c
        ensures EntryMet(Reaching(h, addr, 0, l), l, addr[l], p, std.timing[l][p][k], clk) <==>
                  Kept(h, addr, l, p, std.timing[l][p][k], clk)
        ensures std.EntryOk(std.timing[l][p][k])
      {
        assert std.EntryOk(std.timing[l][p][k]);
        EntryMetExactly(std, h, addr, l, p, std.timing[l][p][k], clk);
      }
    }
  }

  lemma PathReadyAt(std: Standard, h: seq<Event>, c: nat, addr: seq<int>, clk: int, l: nat, p: nat, k: nat)
    requires std.WellFormed() && ValidHistory(std, h) && |addr| == std.levels && c < std.commands
    requires PathReady(std, 0, h, c, addr, clk) && l <= LastLevel(std, 0, c, addr)
    requires p < std.commands && k < |std.timing[l][p]| && std.timing[l][p][k].cmd == c
    ensures var t, ts := std.timing[l][p][k], PathClocks(h, addr, l, p, std.timing[l][p][k].sibling);
            1 <= t.dist && (t.dist <= |ts| ==> ts[|ts| - t.dist] + t.val <= clk)
  {
    var t := std.timing[l][p][k];
    assert std.EntryOk(t);
    PathClocksAreClocks(std, h, addr, l, p, t.sibling);
    assert NodeReady(std, 0, l, h, c, addr, clk);
    assert EntryMet(Reaching(h, addr, 0, l), l, addr[l], p, t, clk);
  }

  /** Safety over whole runs.  Whatever was issued in between: if the j-th command of a
      legal run goes through a node, and idx picks, in order, dist earlier commands p to that
      node (to a sibling, for a sibling entry), then the j-th command comes at least val
      cycles after the first of them, for every entry of the table that relates the two. */
  lemma TimingRespected(std: Standard, id: int, h: seq<Event>, j: nat, l: nat, p: nat, k: nat, idx: seq<nat>)
    requires std.WellFormed() && Legal(std, id, h) && j < |h|
    requires ValidHistory(std, h[..j])
    requires l <= LastLevel(std, 0, h[j].cmd, h[j].addr)
    requires p < std.commands && k < |std.timing[l][p]| && std.timing[l][p][k].cmd == h[j].cmd
    requires |idx| == std.timing[l][p][k].dist
    requires Picks(h[..j], idx, h[j].addr, l, p, std.timing[l][p][k].sibling)
    ensures idx != [] && idx[0] < j && h[idx[0]].clk + std.timing[l][p][k].val <= h[j].clk
  {
    LegalAt(std, id, h, j);
    PathReadyAt(std, h[..j], h[j].cmd, h[j].addr, h[j].clk, l, p, k);
    PickedClocks(std, h[..j], h[j].addr, l, p, std.timing[l][p][k].sibling, idx);
  }
}
