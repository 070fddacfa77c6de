/** What the timing tables of the two standards guarantee about every legal run, and why
    turning an access into its auto-precharging form never makes it too early. */
module DramRuns {
  import opened DramTiming
  import H = HbmTables
  import D = Ddr4Tables

  /** A concrete address reaches the node of level l: none of the components is missing. */
  ghost predicate Reaches(addr: seq<int>, l: nat) {
    l < |addr| && forall m | 0 <= m <= l :: 0 <= addr[m]
  }

  lemma {:induction false} LastLevelReaches(std: Standard, level: nat, c: nat, addr: seq<int>, l: nat)
    requires std.WellFormed() && level <= l < std.rowLevel && c < std.commands
    requires std.ValidAddress(addr) && Reaches(addr, l) && l <= std.scope[c]
    ensures l <= LastLevel(std, level, c, addr)
    decreases l - level
  {
    if level < l {
      assert 0 <= addr[level + 1] < std.count[level + 1];
      LastLevelReaches(std, level + 1, c, addr, l);
    }
  }

  /** Two addresses name the same node of level l. */
  ghost predicate SameNode(a: seq<int>, b: seq<int>, l: nat) {
    l < |a| == |b| && a[..l + 1] == b[..l + 1]
  }

  lemma SameNodeAgrees(a: seq<int>, b: seq<int>, l: nat)
    requires l < |a| == |b|
    ensures SameNode(a, b, l) <==> Agree(a, b, 0, l) && a[l] == b[l]
  {
    if SameNode(a, b, l) {
      forall m | 0 <= m <= l ensures a[m] == b[m] {
        assert a[..l + 1][m] == b[..l + 1][m];
      }
    }
  }

  /** A check reaches a level exactly when the address and the scope of the command do. */
  lemma {:induction false} LastLevelExactly(std: Standard, level: nat, c: nat, addr: seq<int>, l: nat)
    requires std.WellFormed() && level <= l < std.rowLevel && c < std.commands
    requires std.ValidAddress(addr) && Reaches(addr, level) && level <= std.scope[c]
    ensures l <= LastLevel(std, level, c, addr) <==> Reaches(addr, l) && l <= std.scope[c]
    decreases l - level
  {
    if level < l {
      if 0 <= addr[level + 1] {
        assert 0 < std.count[level + 1];
        assert Reaches(addr, level + 1);
        if level < std.scope[c] { LastLevelExactly(std, level + 1, c, addr, l); }
      }
    }
  }

  /** A run of events with an address of LEVELS components each. */
  ghost predicate Addressed(h: seq<Event>, levels: nat, commands: nat) {
    forall i | 0 <= i < |h| :: |h[i].addr| == levels && h[i].cmd < commands
  }

  /** idx picks, in order, four activates of the rank. */
  ghost predicate FourActivates(h: seq<Event>, idx: seq<nat>, addr: seq<int>, rank: nat, act: nat) {
    && |idx| == 4 && (forall i, j | 0 <= i < j < 4 :: idx[i] < idx[j])
    && forall i | 0 <= i < 4 :: idx[i] < |h| && h[idx[i]].cmd == act && SameNode(h[idx[i]].addr, addr, rank)
  }

  lemma FourArePicks(h: seq<Event>, idx: seq<nat>, addr: seq<int>, rank: nat, act: nat)
    requires rank < |addr| && |idx| == 4 && forall i | 0 <= i < |h| :: |h[i].addr| == |addr|
    ensures FourActivates(h, idx, addr, rank, act) <==> Picks(h, idx, addr, rank, act, false)
  {
    forall i | 0 <= i < 4 && idx[i] < |h|
      ensures SameNode(h[idx[i]].addr, addr, rank) <==>
                Agree(h[idx[i]].addr, addr, 0, rank) && h[idx[i]].addr[rank] == addr[rank]
    {
      SameNodeAgrees(h[idx[i]].addr, addr, rank);
    }
  }

  /** An entry one command back is kept when all commands of its kind to the node are. */
  lemma OneBack(h: seq<Event>, addr: seq<int>, l: nat, p: nat, t: TimingEntry, clk: int)
    requires l < |addr| && t.dist == 1 && forall i | 0 <= i < |h| :: |h[i].addr| == |addr|
    ensures Kept(h, addr, l, p, t, clk) <==>
              forall i: nat | i < |h| && Concerns(h[i], addr, l, p, t.sibling) :: h[i].clk + t.val <= clk
  {
    forall i: nat | i < |h| && Concerns(h[i], addr, l, p, t.sibling) ensures Picks(h, [i], addr, l, p, t.sibling) {}
    if Kept(h, addr, l, p, t, clk) {
      forall i: nat | i < |h| && Concerns(h[i], addr, l, p, t.sibling) ensures h[i].clk + t.val <= clk {
        assert |[i]| == 1 && Picks(h, [i], addr, l, p, t.sibling);
      }
    }
  }

  lemma LegalAddressed(std: Standard, id: int, h: seq<Event>, j: nat)
    requires std.WellFormed() && Legal(std, id, h) && j < |h|
    ensures Addressed(h[..j], std.levels, std.commands)
  {
    LegalAt(std, id, h, j);
    forall n | 0 <= n < j ensures |h[..j][n].addr| == std.levels && h[..j][n].cmd < std.commands {
      assert ValidEvent(std, h[..j][n]);
    }
  }

  // ---- HBM ----

  /** What the families ask of command c at clock clk, after the run h: to be late enough for
      every earlier command to a node both name, and for the fourth activate back. */
  ghost predicate HbmKept(s: H.Speed, h: seq<Event>, c: nat, addr: seq<int>, clk: int)
    requires Addressed(h, H.LEVELS, H.COMMANDS) && |addr| == H.LEVELS
  {
    && (forall i: nat, level: nat, v: int |
          i < |h| && level < H.ROW && Reaches(addr, level) && SameNode(h[i].addr, addr, level) &&
          H.Wait(s, level, h[i].cmd, c, v) :: h[i].clk + v <= clk)
    && (c == H.ACT && Reaches(addr, H.RANK) ==>
          forall idx: seq<nat> | FourActivates(h, idx, addr, H.RANK, H.ACT) :: h[idx[0]].clk + s.nFAW <= clk)
  }

  lemma HbmEntryKept(s: H.Speed, count: seq<nat>, h: seq<Event>, c: nat, addr: seq<int>, clk: int, l: nat, p: nat,
                     t: TimingEntry)
    requires |count| == H.LEVELS && |addr| == H.LEVELS && Addressed(h, H.LEVELS, H.COMMANDS)
    requires HbmKept(s, h, c, addr, clk) && l < H.ROW && Reaches(addr, l) && c < H.COMMANDS && p < H.COMMANDS
    requires t in H.Row(s, l, p) && t.cmd == c && 1 <= t.dist && !t.sibling
    ensures Kept(h, addr, l, p, t, clk)
  {
    hide H.Row, H.Wait;
    if t.dist == 1 {
      assert t == H.Entry(c, 1, t.val);
      H.RowIs(s, l, p, c, t.val);
      forall i: nat | i < |h| && Concerns(h[i], addr, l, p, false) ensures h[i].clk + t.val <= clk {
        SameNodeAgrees(h[i].addr, addr, l);
      }
      OneBack(h, addr, l, p, t, clk);
    } else {
      H.OneWindow(s, l, p, t);
      forall idx: seq<nat> | |idx| == 4 && Picks(h, idx, addr, l, p, false) ensures h[idx[0]].clk + t.val <= clk {
        FourArePicks(h, idx, addr, l, p);
      }
    }
  }

  lemma HbmReady(s: H.Speed, count: seq<nat>, h: seq<Event>, c: nat, addr: seq<int>, clk: int)
    requires |count| == H.LEVELS && c < H.COMMANDS && Addressed(h, H.LEVELS, H.COMMANDS)
    requires var std := H.StandardOf(s, count); ValidHistory(std, h) && std.ValidAddress(addr) && 0 <= addr[0]
    requires HbmKept(s, h, c, addr, clk)
    ensures PathReady(H.StandardOf(s, count), 0, h, c, addr, clk)
  {
    hide H.Row, HbmKept, PathReady, Kept;
    var std := H.StandardOf(s, count);
    assert |addr| == H.LEVELS;
    forall l, p, k | 0 <= l <= LastLevel(std, 0, c, addr) && 0 <= p < std.commands &&
                     0 <= k < |std.timing[l][p]| && std.timing[l][p][k].cmd == c
      ensures std.EntryOk(std.timing[l][p][k]) && Kept(h, addr, l, p, std.timing[l][p][k], clk)
    {
      LastLevelExactly(std, 0, c, addr, l);
      assert std.timing[l][p] == H.Row(s, l, p);
      H.RowsOk(s);
      var t := H.Row(s, l, p)[k];
      assert t.cmd < H.COMMANDS && 1 <= t.dist && !t.sibling;
      HbmEntryKept(s, count, h, c, addr, clk, l, p, t);
    }
    PathReadyExactly(std, h, c, addr, clk);
  }

  /** Every wait of the families is kept by a command that is ready. */
  lemma HbmWaitKept(s: H.Speed, count: seq<nat>, h: seq<Event>, c: nat, addr: seq<int>, clk: int, i: nat, level: nat,
                    v: int)
    requires |count| == H.LEVELS && c < H.COMMANDS && Addressed(h, H.LEVELS, H.COMMANDS)
    requires var std := H.StandardOf(s, count); ValidHistory(std, h) && std.ValidAddress(addr)
    requires PathReady(H.StandardOf(s, count), 0, h, c, addr, clk)
    requires i < |h| && level < H.ROW && Reaches(addr, level) && SameNode(h[i].addr, addr, level)
    requires H.Wait(s, level, h[i].cmd, c, v)
    ensures h[i].clk + v <= clk
  {
    hide H.Row, H.Wait, PathReady, Kept;
    var std := H.StandardOf(s, count);
    var p := h[i].cmd;
    H.WaitWithinScope(s, level, p, c, v);
    LastLevelReaches(std, 0, c, addr, level);
    H.RowIs(s, level, p, c, v);
    var row := H.Row(s, level, p);
    assert std.timing[level][p] == row;
    var k :| 0 <= k < |row| && row[k] == H.Entry(c, 1, v);
    PathReadyExactly(std, h, c, addr, clk);
    assert Kept(h, addr, level, p, std.timing[level][p][k], clk);
    OneBack(h, addr, level, p, row[k], clk);
    SameNodeAgrees(h[i].addr, addr, level);
  }

  lemma HbmWindowKept(s: H.Speed, count: seq<nat>, h: seq<Event>, addr: seq<int>, clk: int, idx: seq<nat>)
    requires |count| == H.LEVELS && Addressed(h, H.LEVELS, H.COMMANDS)
    requires var std := H.StandardOf(s, count); ValidHistory(std, h) && std.ValidAddress(addr)
    requires PathReady(H.StandardOf(s, count), 0, h, H.ACT, addr, clk)
    requires Reaches(addr, H.RANK) && FourActivates(h, idx, addr, H.RANK, H.ACT)
    ensures h[idx[0]].clk + s.nFAW <= clk
  {
    hide PathReady;
    var std := H.StandardOf(s, count);
    LastLevelReaches(std, 0, H.ACT, addr, H.RANK);
    assert std.timing[H.RANK][H.ACT][1] == H.Entry(H.ACT, 4, s.nFAW);
    PathReadyExactly(std, h, H.ACT, addr, clk);
    assert Kept(h, addr, H.RANK, H.ACT, std.timing[H.RANK][H.ACT][1], clk);
    FourArePicks(h, idx, addr, H.RANK, H.ACT);
  }

  /** HBM: whatever was issued before, a command may go exactly when it is as late as its
      families ask after every earlier command, at every level its address reaches, and, for an
      activate, after the fourth activate of its rank back.  The check asks no more and no less. */
  lemma HbmReadyExactly(s: H.Speed, count: seq<nat>, h: seq<Event>, c: nat, addr: seq<int>, clk: int)
    requires |count| == H.LEVELS && c < H.COMMANDS && Addressed(h, H.LEVELS, H.COMMANDS)
    requires var std := H.StandardOf(s, count); ValidHistory(std, h) && std.ValidAddress(addr) && 0 <= addr[0]
    ensures PathReady(H.StandardOf(s, count), 0, h, c, addr, clk) <==> HbmKept(s, h, c, addr, clk)
  {
    hide H.Wait, PathReady;
    if PathReady(H.StandardOf(s, count), 0, h, c, addr, clk) {
      forall i: nat, level: nat, v: int |
        i < |h| && level < H.ROW && Reaches(addr, level) && SameNode(h[i].addr, addr, level) &&
        H.Wait(s, level, h[i].cmd, c, v)
        ensures h[i].clk + v <= clk
      {
        HbmWaitKept(s, count, h, c, addr, clk, i, level, v);
      }
      forall idx: seq<nat> | c == H.ACT && Reaches(addr, H.RANK) && FourActivates(h, idx, addr, H.RANK, H.ACT)
        ensures h[idx[0]].clk + s.nFAW <= clk
      {
        HbmWindowKept(s, count, h, addr, clk, idx);
      }
    } else if HbmKept(s, h, c, addr, clk) {
      HbmReady(s, count, h, c, addr, clk);
    }
  }

  /** In any legal run two commands to the same node are at least as far apart as the family
      they belong to asks, at every level. */
  lemma HbmWaitsKept(s: H.Speed, count: seq<nat>, id: int, h: seq<Event>, i: nat, j: nat, level: nat, v: int)
    requires |count| == H.LEVELS && Legal(H.StandardOf(s, count), id, h) && i < j < |h|
    requires level < H.ROW && Reaches(h[j].addr, level) && SameNode(h[i].addr, h[j].addr, level)
    requires H.Wait(s, level, h[i].cmd, h[j].cmd, v)
    ensures h[i].clk + v <= h[j].clk
  {
    hide H.Wait, PathReady;
    var std := H.StandardOf(s, count);
    LegalAt(std, id, h, j);
    LegalAddressed(std, id, h, j);
    HbmWaitKept(s, count, h[..j], h[j].cmd, h[j].addr, h[j].clk, i, level, v);
  }

  // ---- DDR4 ----

  /** Two addresses name different ranks of one channel. */
  ghost predicate OtherRank(a: seq<int>, b: seq<int>) {
    |a| == |b| == D.LEVELS && a[D.CHANNEL] == b[D.CHANNEL] && a[D.RANK] != b[D.RANK]
  }

  lemma OtherRankAgrees(a: seq<int>, b: seq<int>)
    requires |a| == |b| == D.LEVELS
    ensures OtherRank(a, b) <==> Agree(a, b, 0, D.RANK) && a[D.RANK] != b[D.RANK]
  {}

  /** What the families ask of command c at clock clk, after the run h: to be late enough for
      every earlier command to a node both name or to another rank, and for the fourth
      activate back. */
  ghost predicate Ddr4Kept(s: D.Speed, h: seq<Event>, c: nat, addr: seq<int>, clk: int)
    requires Addressed(h, D.LEVELS, D.COMMANDS) && |addr| == D.LEVELS
  {
    && (forall i: nat, level: nat, v: int |
          i < |h| && level < D.ROW && Reaches(addr, level) && SameNode(h[i].addr, addr, level) &&
          D.Wait(s, level, h[i].cmd, c, v) :: h[i].clk + v <= clk)
    && (forall i: nat, v: int |
          i < |h| && Reaches(addr, D.RANK) && OtherRank(h[i].addr, addr) && D.SiblingWait(s, h[i].cmd, c, v) ::
            h[i].clk + v <= clk)
    && (c == D.ACT && Reaches(addr, D.RANK) ==>
          forall idx: seq<nat> | FourActivates(h, idx, addr, D.RANK, D.ACT) :: h[idx[0]].clk + s.nFAW <= clk)
  }

  lemma Ddr4EntryKept(s: D.Speed, count: seq<nat>, h: seq<Event>, c: nat, addr: seq<int>, clk: int, l: nat, p: nat,
                     t: TimingEntry)
    requires |count| == D.LEVELS && |addr| == D.LEVELS && Addressed(h, D.LEVELS, D.COMMANDS)
    requires Ddr4Kept(s, h, c, addr, clk) && l < D.ROW && Reaches(addr, l) && c < D.COMMANDS && p < D.COMMANDS
    requires t in D.Row(s, l, p) && t.cmd == c && 1 <= t.dist && (t.sibling ==> t.dist == 1)
    ensures Kept(h, addr, l, p, t, clk)
  {
    hide D.Row, D.Wait, D.SiblingWait;
    if t.sibling {
      assert t == D.Sibling(c, t.val);
      D.SiblingsAre(s, l, p, c, t.val);
      forall i: nat | i < |h| && Concerns(h[i], addr, l, p, true) ensures h[i].clk + t.val <= clk {
        OtherRankAgrees(h[i].addr, addr);
      }
      OneBack(h, addr, l, p, t, clk);
    } else if t.dist == 1 {
      assert t == D.Entry(c, 1, t.val);
      D.RowIs(s, l, p, c, t.val);
      forall i: nat | i < |h| && Concerns(h[i], addr, l, p, false) ensures h[i].clk + t.val <= clk {
        SameNodeAgrees(h[i].addr, addr, l);
      }
      OneBack(h, addr, l, p, t, clk);
    } else {
      D.OneWindow(s, l, p, t);
      forall idx: seq<nat> | |idx| == 4 && Picks(h, idx, addr, l, p, false) ensures h[idx[0]].clk + t.val <= clk {
        FourArePicks(h, idx, addr, l, p);
      }
    }
  }

  lemma Ddr4Ready(s: D.Speed, count: seq<nat>, h: seq<Event>, c: nat, addr: seq<int>, clk: int)
    requires |count| == D.LEVELS && c < D.COMMANDS && Addressed(h, D.LEVELS, D.COMMANDS)
    requires var std := D.StandardOf(s, count); ValidHistory(std, h) && std.ValidAddress(addr) && 0 <= addr[0]
    requires Ddr4Kept(s, h, c, addr, clk)
    ensures PathReady(D.StandardOf(s, count), 0, h, c, addr, clk)
  {
    hide D.Row, Ddr4Kept, PathReady, Kept;
    var std := D.StandardOf(s, count);
    assert |addr| == D.LEVELS;
    forall l, p, k | 0 <= l <= LastLevel(std, 0, c, addr) && 0 <= p < std.commands &&
                     0 <= k < |std.timing[l][p]| && std.timing[l][p][k].cmd == c
      ensures std.EntryOk(std.timing[l][p][k]) && Kept(h, addr, l, p, std.timing[l][p][k], clk)
    {
      LastLevelExactly(std, 0, c, addr, l);
      assert std.timing[l][p] == D.Row(s, l, p);
      D.RowsOk(s);
      var t := D.Row(s, l, p)[k];
      assert t.cmd < D.COMMANDS && 1 <= t.dist && (t.sibling ==> t.dist == 1);
      Ddr4EntryKept(s, count, h, c, addr, clk, l, p, t);
    }
    PathReadyExactly(std, h, c, addr, clk);
  }

  /** Every wait of the families is kept by a command that is ready. */
  lemma Ddr4WaitKept(s: D.Speed, count: seq<nat>, h: seq<Event>, c: nat, addr: seq<int>, clk: int, i: nat, level: nat,
                    v: int)
    requires |count| == D.LEVELS && c < D.COMMANDS && Addressed(h, D.LEVELS, D.COMMANDS)
    requires var std := D.StandardOf(s, count); ValidHistory(std, h) && std.ValidAddress(addr)
    requires PathReady(D.StandardOf(s, count), 0, h, c, addr, clk)
    requires i < |h| && level < D.ROW && Reaches(addr, level) && SameNode(h[i].addr, addr, level)
    requires D.Wait(s, level, h[i].cmd, c, v)
    ensures h[i].clk + v <= clk
  {
    hide D.Row, D.Wait, PathReady, Kept;
    var std := D.StandardOf(s, count);
    var p := h[i].cmd;
    D.WaitWithinScope(s, level, p, c, v);
    LastLevelReaches(std, 0, c, addr, level);
    D.RowIs(s, level, p, c, v);
    var row := D.Row(s, level, p);
    assert std.timing[level][p] == row;
    var k :| 0 <= k < |row| && row[k] == D.Entry(c, 1, v);
    PathReadyExactly(std, h, c, addr, clk);
    assert Kept(h, addr, level, p, std.timing[level][p][k], clk);
    OneBack(h, addr, level, p, row[k], clk);
    SameNodeAgrees(h[i].addr, addr, level);
  }

  /** Every wait between ranks is kept by a command that is ready. */
  lemma Ddr4SiblingKept(s: D.Speed, count: seq<nat>, h: seq<Event>, c: nat, addr: seq<int>, clk: int, i: nat, v: int)
    requires |count| == D.LEVELS && c < D.COMMANDS && Addressed(h, D.LEVELS, D.COMMANDS)
    requires var std := D.StandardOf(s, count); ValidHistory(std, h) && std.ValidAddress(addr)
    requires PathReady(D.StandardOf(s, count), 0, h, c, addr, clk)
    requires i < |h| && Reaches(addr, D.RANK) && OtherRank(h[i].addr, addr) && D.SiblingWait(s, h[i].cmd, c, v)
    ensures h[i].clk + v <= clk
  {
    hide D.Row, PathReady, Kept;
    var std := D.StandardOf(s, count);
    var p := h[i].cmd;
    LastLevelReaches(std, 0, c, addr, D.RANK);
    D.SiblingsAre(s, D.RANK, p, c, v);
    var row := D.Row(s, D.RANK, p);
    assert std.timing[D.RANK][p] == row;
    var k :| 0 <= k < |row| && row[k] == D.Sibling(c, v);
    PathReadyExactly(std, h, c, addr, clk);
    assert Kept(h, addr, D.RANK, p, std.timing[D.RANK][p][k], clk);
    OneBack(h, addr, D.RANK, p, row[k], clk);
    OtherRankAgrees(h[i].addr, addr);
  }

  lemma Ddr4WindowKept(s: D.Speed, count: seq<nat>, h: seq<Event>, addr: seq<int>, clk: int, idx: seq<nat>)
    requires |count| == D.LEVELS && Addressed(h, D.LEVELS, D.COMMANDS)
    requires var std := D.StandardOf(s, count); ValidHistory(std, h) && std.ValidAddress(addr)
    requires PathReady(D.StandardOf(s, count), 0, h, D.ACT, addr, clk)
    requires Reaches(addr, D.RANK) && FourActivates(h, idx, addr, D.RANK, D.ACT)
    ensures h[idx[0]].clk + s.nFAW <= clk
  {
    hide PathReady;
    var std := D.StandardOf(s, count);
    LastLevelReaches(std, 0, D.ACT, addr, D.RANK);
    assert std.timing[D.RANK][D.ACT][1] == D.Entry(D.ACT, 4, s.nFAW);
    PathReadyExactly(std, h, D.ACT, addr, clk);
    assert Kept(h, addr, D.RANK, D.ACT, std.timing[D.RANK][D.ACT][1], clk);
    FourArePicks(h, idx, addr, D.RANK, D.ACT);
  }

  /** DDR4: whatever was issued before, a command may go exactly when it is as late as its
      families ask after every earlier command, at every level its address reaches, and, for an
      activate, after the fourth activate of its rank back.  The check asks no more and no less. */
  lemma Ddr4ReadyExactly(s: D.Speed, count: seq<nat>, h: seq<Event>, c: nat, addr: seq<int>, clk: int)
    requires |count| == D.LEVELS && c < D.COMMANDS && Addressed(h, D.LEVELS, D.COMMANDS)
    requires var std := D.StandardOf(s, count); ValidHistory(std, h) && std.ValidAddress(addr) && 0 <= addr[0]
    ensures PathReady(D.StandardOf(s, count), 0, h, c, addr, clk) <==> Ddr4Kept(s, h, c, addr, clk)
  {
    hide D.Wait, D.SiblingWait, PathReady;
    if PathReady(D.StandardOf(s, count), 0, h, c, addr, clk) {
      forall i: nat, level: nat, v: int |
        i < |h| && level < D.ROW && Reaches(addr, level) && SameNode(h[i].addr, addr, level) &&
        D.Wait(s, level, h[i].cmd, c, v)
        ensures h[i].clk + v <= clk
      {
        Ddr4WaitKept(s, count, h, c, addr, clk, i, level, v);
      }
      forall i: nat, v: int |
        i < |h| && Reaches(addr, D.RANK) && OtherRank(h[i].addr, addr) && D.SiblingWait(s, h[i].cmd, c, v)
        ensures h[i].clk + v <= clk
      {
        Ddr4SiblingKept(s, count, h, c, addr, clk, i, v);
      }
      forall idx: seq<nat> | c == D.ACT && Reaches(addr, D.RANK) && FourActivates(h, idx, addr, D.RANK, D.ACT)
        ensures h[idx[0]].clk + s.nFAW <= clk
      {
        Ddr4WindowKept(s, count, h, addr, clk, idx);
      }
    } else if Ddr4Kept(s, h, c, addr, clk) {
      Ddr4Ready(s, count, h, c, addr, clk);
    }
  }

  /** In any legal run two commands to the same node are at least as far apart as the family
      they belong to asks, at every level. */
  lemma Ddr4WaitsKept(s: D.Speed, count: seq<nat>, id: int, h: seq<Event>, i: nat, j: nat, level: nat, v: int)
    requires |count| == D.LEVELS && Legal(D.StandardOf(s, count), id, h) && i < j < |h|
    requires level < D.ROW && Reaches(h[j].addr, level) && SameNode(h[i].addr, h[j].addr, level)
    requires D.Wait(s, level, h[i].cmd, h[j].cmd, v)
    ensures h[i].clk + v <= h[j].clk
  {
    hide D.Wait, PathReady;
    var std := D.StandardOf(s, count);
    LegalAt(std, id, h, j);
    LegalAddressed(std, id, h, j);
    Ddr4WaitKept(s, count, h[..j], h[j].cmd, h[j].addr, h[j].clk, i, level, v);
  }

  /** Accesses of two ranks of a channel leave the bus the time it takes to turn. */
  lemma Ddr4TurnsKept(s: D.Speed, count: seq<nat>, id: int, h: seq<Event>, i: nat, j: nat, v: int)
    requires |count| == D.LEVELS && Legal(D.StandardOf(s, count), id, h) && i < j < |h|
    requires Reaches(h[j].addr, D.RANK) && OtherRank(h[i].addr, h[j].addr) && D.SiblingWait(s, h[i].cmd, h[j].cmd, v)
    ensures h[i].clk + v <= h[j].clk
  {
    hide PathReady;
    var std := D.StandardOf(s, count);
    LegalAt(std, id, h, j);
    LegalAddressed(std, id, h, j);
    Ddr4SiblingKept(s, count, h[..j], h[j].cmd, h[j].addr, h[j].clk, i, v);
  }

  /** HBM: any five activates of one rank span at least nFAW cycles, whatever their banks
      and whatever else was issued in between. */
  lemma FourActivateWindow(s: H.Speed, count: seq<nat>, id: int, h: seq<Event>, idx: seq<nat>, j: nat)
    requires |count| == H.LEVELS && Legal(H.StandardOf(s, count), id, h) && j < |h|
    requires h[j].cmd == H.ACT && Reaches(h[j].addr, H.RANK) && FourActivates(h[..j], idx, h[j].addr, H.RANK, H.ACT)
    ensures h[idx[0]].clk + s.nFAW <= h[j].clk
  {
    hide PathReady;
    var std := H.StandardOf(s, count);
    LegalAt(std, id, h, j);
    LegalAddressed(std, id, h, j);
    HbmWindowKept(s, count, h[..j], h[j].addr, h[j].clk, idx);
  }

  /** HBM: two activates of one bank are at least a row cycle apart, and a bank is not
      activated within nRFC cycles of a refresh of its rank. */
  lemma RowCycleAndRefresh(s: H.Speed, count: seq<nat>, id: int, h: seq<Event>, i: nat, j: nat)
    requires |count| == H.LEVELS && Legal(H.StandardOf(s, count), id, h)
    requires i < j < |h| && h[j].cmd == H.ACT && |h[i].addr| == |h[j].addr| == H.LEVELS
    requires Reaches(h[j].addr, H.BANK)
    ensures h[i].cmd == H.ACT && h[i].addr[..H.ROW] == h[j].addr[..H.ROW] ==> h[i].clk + s.nRC <= h[j].clk
    ensures h[i].cmd == H.REF && h[i].addr[..H.BANK_GROUP] == h[j].addr[..H.BANK_GROUP] ==>
              h[i].clk + s.nRFC <= h[j].clk
  {
    if h[i].cmd == H.ACT && h[i].addr[..H.ROW] == h[j].addr[..H.ROW] {
      HbmWaitsKept(s, count, id, h, i, j, H.BANK, s.nRC);
    }
    if h[i].cmd == H.REF && h[i].addr[..H.BANK_GROUP] == h[j].addr[..H.BANK_GROUP] {
      HbmWaitsKept(s, count, id, h, i, j, H.RANK, s.nRFC);
    }
  }

  /** DDR4: reads of two different ranks leave the bus the burst and the rank-switch time. */
  lemma RankSwitch(s: D.Speed, count: seq<nat>, id: int, h: seq<Event>, i: nat, j: nat)
    requires |count| == D.LEVELS && Legal(D.StandardOf(s, count), id, h)
    requires i < j < |h| && h[i].cmd == h[j].cmd == D.RD && |h[i].addr| == |h[j].addr| == D.LEVELS
    requires Reaches(h[j].addr, D.RANK) && h[i].addr[D.RANK] != h[j].addr[D.RANK]
    ensures h[i].clk + s.nBL + s.nRTRS <= h[j].clk
  {
    LegalAt(D.StandardOf(s, count), id, h, i);
    LegalAt(D.StandardOf(s, count), id, h, j);
    Ddr4TurnsKept(s, count, id, h, i, j, s.nBL + s.nRTRS);
  }

  // ---- Auto-precharge ----

  /** Wherever a row makes c' wait, it makes c wait just as long. */
  ghost predicate RowDominates(row: seq<TimingEntry>, c: nat, c': nat) {
    forall k | 0 <= k < |row| && row[k].cmd == c' :: row[k].(cmd := c) in row
  }

  /** If every row makes c wait at least as long as c', readiness of c carries over. */
  lemma ReadyDominates(std: Standard, h: seq<Event>, c: nat, c': nat, addr: seq<int>, clk: int)
    requires std.WellFormed() && ValidHistory(std, h) && |addr| == std.levels
    requires c < std.commands && c' < std.commands && std.scope[c] == std.scope[c']
    requires forall l, p | 0 <= l < std.rowLevel && 0 <= p < std.commands :: RowDominates(std.timing[l][p], c, c')
    requires PathReady(std, 0, h, c, addr, clk)
    ensures PathReady(std, 0, h, c', addr, clk)
  {
    hide PathReady, Kept, LastLevel;
    SameLastLevel(std, 0, c, c', addr);
    PathReadyExactly(std, h, c, addr, clk);
    PathReadyExactly(std, h, c', addr, clk);
    forall l, p, k | 0 <= l <= LastLevel(std, 0, c', addr) && 0 <= p < std.commands &&
                     0 <= k < |std.timing[l][p]| && std.timing[l][p][k].cmd == c'
      ensures std.EntryOk(std.timing[l][p][k]) && Kept(h, addr, l, p, std.timing[l][p][k], clk)
    {
      var row := std.timing[l][p];
      assert RowDominates(row, c, c');
      var k' :| 0 <= k' < |row| && row[k'] == row[k].(cmd := c);
      assert Kept(h, addr, l, p, row[k'], clk);
      KeptSame(h, addr, l, p, row[k'], row[k], clk);
    }
  }

  /** What an entry asks does not depend on the command that waits. */
  lemma KeptSame(h: seq<Event>, addr: seq<int>, l: nat, p: nat, t: TimingEntry, t': TimingEntry, clk: int)
    requires l < |addr| && 1 <= t.dist && forall i | 0 <= i < |h| :: |h[i].addr| == |addr|
    requires t == t'.(cmd := t.cmd) && Kept(h, addr, l, p, t, clk)
    ensures Kept(h, addr, l, p, t', clk)
  {}

  lemma {:induction false} SameLastLevel(std: Standard, level: nat, c: nat, c': nat, addr: seq<int>)
    requires std.WellFormed() && level < std.rowLevel && |addr| == std.levels
    requires c < std.commands && c' < std.commands && std.scope[c] == std.scope[c']
    ensures LastLevel(std, level, c, addr) == LastLevel(std, level, c', addr)
    decreases std.rowLevel - level
  {
    if !Stops(std, level, c, addr) {
      SameLastLevel(std, level + 1, c, c', addr);
    }
  }

  lemma HbmRankDominates(s: H.Speed, p: nat, c: nat, c': nat)
    requires (c == H.RD && c' == H.RDA) || (c == H.WR && c' == H.WRA)
    ensures RowDominates(H.RankRow(s, p), c, c')
  {
    var row := H.RankRow(s, p);
    forall k | 0 <= k < |row| && row[k].cmd == c' ensures row[k].(cmd := c) in row {
      assert row[k].(cmd := c) == row[k - 1] || (k >= 2 && row[k].(cmd := c) == row[k - 2]);
    }
  }

  lemma HbmRowDominates(s: H.Speed, l: nat, p: nat, c: nat, c': nat)
    requires (c == H.RD && c' == H.RDA) || (c == H.WR && c' == H.WRA)
    ensures RowDominates(H.Row(s, l, p), c, c')
  {
    if l == H.RANK {
      HbmRankDominates(s, p, c, c');
    } else {
      var row := H.Row(s, l, p);
      forall k | 0 <= k < |row| && row[k].cmd == c' ensures row[k].(cmd := c) in row {
        assert row[k].(cmd := c) == row[k - 1];
      }
    }
  }

  /** In the rank rows a wait for c' comes right behind the same wait for c. */
  lemma Ddr4RankPairs(s: D.Speed, p: nat, c: nat, c': nat, k: nat)
    requires (c == D.RD && c' == D.RDA) || (c == D.WR && c' == D.WRA)
    requires k < |D.RankRow(s, p)| && D.RankRow(s, p)[k].cmd == c'
    ensures 0 < k && D.RankRow(s, p)[k - 1] == D.RankRow(s, p)[k].(cmd := c)
  {}

  lemma Ddr4RankDominates(s: D.Speed, p: nat, c: nat, c': nat)
    requires (c == D.RD && c' == D.RDA) || (c == D.WR && c' == D.WRA)
    ensures RowDominates(D.RankRow(s, p), c, c')
  {
    hide D.RankRow;
    var row := D.RankRow(s, p);
    forall k | 0 <= k < |row| && row[k].cmd == c' ensures row[k].(cmd := c) in row {
      Ddr4RankPairs(s, p, c, c', k);
    }
  }

  lemma Ddr4RowDominates(s: D.Speed, l: nat, p: nat, c: nat, c': nat)
    requires (c == D.RD && c' == D.RDA) || (c == D.WR && c' == D.WRA)
    ensures RowDominates(D.Row(s, l, p), c, c')
  {
    if l == D.RANK {
      Ddr4RankDominates(s, p, c, c');
    } else {
      var row := D.Row(s, l, p);
      forall k | 0 <= k < |row| && row[k].cmd == c' ensures row[k].(cmd := c) in row {
        assert row[k].(cmd := c) == row[k - 1];
      }
    }
  }

  /** HBM: when a read or write may go out, so may its auto-precharging form, whatever has
      been issued before.  The check that follows the upgrade can therefore not fail. */
  lemma HbmUpgradeStaysReady(s: H.Speed, count: seq<nat>, h: seq<Event>, addr: seq<int>, clk: int, c: nat)
    requires |count| == H.LEVELS && |addr| == H.LEVELS && (c == H.RD || c == H.WR)
    requires ValidHistory(H.StandardOf(s, count), h) && PathReady(H.StandardOf(s, count), 0, h, c, addr, clk)
    ensures PathReady(H.StandardOf(s, count), 0, h, if c == H.RD then H.RDA else H.WRA, addr, clk)
  {
    hide PathReady, ValidHistory;
    var std := H.StandardOf(s, count);
    forall l, p | 0 <= l < std.rowLevel && 0 <= p < std.commands
      ensures RowDominates(std.timing[l][p], H.RD, H.RDA) && RowDominates(std.timing[l][p], H.WR, H.WRA)
    {
      HbmRowDominates(s, l, p, H.RD, H.RDA);
      HbmRowDominates(s, l, p, H.WR, H.WRA);
    }
    ReadyDominates(std, h, c, if c == H.RD then H.RDA else H.WRA, addr, clk);
  }

  /** The same of DDR4. */
  lemma Ddr4UpgradeStaysReady(s: D.Speed, count: seq<nat>, h: seq<Event>, addr: seq<int>, clk: int, c: nat)
    requires |count| == D.LEVELS && |addr| == D.LEVELS && (c == D.RD || c == D.WR)
    requires ValidHistory(D.StandardOf(s, count), h) && PathReady(D.StandardOf(s, count), 0, h, c, addr, clk)
    ensures PathReady(D.StandardOf(s, count), 0, h, if c == D.RD then D.RDA else D.WRA, addr, clk)
  {
    hide PathReady, ValidHistory;
    var std := D.StandardOf(s, count);
    forall l, p | 0 <= l < std.rowLevel && 0 <= p < std.commands
      ensures RowDominates(std.timing[l][p], D.RD, D.RDA) && RowDominates(std.timing[l][p], D.WR, D.WRA)
    {
      Ddr4RowDominates(s, l, p, D.RD, D.RDA);
      Ddr4RowDominates(s, l, p, D.WR, D.WRA);
    }
    ReadyDominates(std, h, c, if c == D.RD then D.RDA else D.WRA, addr, clk);
  }
}
