/** The timing tables of HBM. */
module HbmTables {
  import opened DramTiming

  // Levels of the tree.
  const CHANNEL := 0
  const RANK := 1
  const BANK_GROUP := 2
  const BANK := 3
  const ROW := 4
  const COLUMN := 5
  const LEVELS := 6

  // Commands, in the order of the enumeration.
  const ACT := 0
  const PRE := 1
  const PREA := 2
  const RD := 3
  const WR := 4
  const PIM_WR := 5
  const RDA := 6
  const WRA := 7
  const REF := 8
  const REFSB := 9
  const PDE := 10
  const PDX := 11
  const SRE := 12
  const SRX := 13
  const COMMANDS := 14

  const SCOPE: seq<nat> := [ROW, BANK, RANK, COLUMN, COLUMN, COLUMN, COLUMN, COLUMN, RANK, BANK, RANK, RANK, RANK, RANK]

  /** The parameters of a speed grade, in clock cycles. */
  datatype Speed = Speed(nBL: int, nCCDS: int, nCCDL: int, nCL: int, nRCDR: int, nRCDW: int, nRP: int, nCWL: int,
                         nRAS: int, nRC: int, nRTP: int, nWTRS: int, nWTRL: int, nWR: int, nRRDS: int, nRRDL: int,
                         nFAW: int, nRFC: int, nPD: int, nXP: int, nCKESR: int, nXS: int)

  function Entry(cmd: nat, dist: nat, val: int): TimingEntry {
    TimingEntry(cmd, dist, val, false)
  }

  /** What a command means for later ones at the same channel. */
  function ChannelRow(s: Speed, c: nat): seq<TimingEntry> {
    if c == RD then
      [Entry(RD, 1, s.nBL), Entry(RDA, 1, s.nBL)]
    else if c == WR then
      [Entry(WR, 1, s.nBL), Entry(WRA, 1, s.nBL), Entry(PIM_WR, 1, s.nBL)]
    else if c == PIM_WR then
      [Entry(WR, 1, s.nBL), Entry(PIM_WR, 1, s.nBL)]
    else if c == RDA then
      [Entry(RD, 1, s.nBL), Entry(RDA, 1, s.nBL)]
    else if c == WRA then
      [Entry(WR, 1, s.nBL), Entry(WRA, 1, s.nBL)]
    else []
  }

  /** What a command means for later ones at the same rank. */
  function RankRow(s: Speed, c: nat): seq<TimingEntry> {
    if c == ACT then
      [Entry(ACT, 1, s.nRRDS), Entry(ACT, 4, s.nFAW), Entry(PREA, 1, s.nRAS), Entry(PDE, 1, 1)]
    else if c == PRE then
      [Entry(REF, 1, s.nRP), Entry(SRE, 1, s.nRP)]
    else if c == PREA then
      [Entry(ACT, 1, s.nRP), Entry(REF, 1, s.nRP), Entry(SRE, 1, s.nRP)]
    else if c == RD then
      [Entry(RD, 1, s.nCCDS), Entry(RDA, 1, s.nCCDS), Entry(WR, 1, s.nCL + s.nCCDS + 2 - s.nCWL),
       Entry(WRA, 1, s.nCL + s.nCCDS + 2 - s.nCWL), Entry(PREA, 1, s.nRTP), Entry(PDE, 1, s.nCL + s.nBL + 1)]
    else if c == WR then
      [Entry(WR, 1, s.nCCDS), Entry(PIM_WR, 1, s.nCCDS), Entry(WRA, 1, s.nCCDS),
       Entry(RD, 1, s.nCWL + s.nBL + s.nWTRS), Entry(RDA, 1, s.nCWL + s.nBL + s.nWTRS),
       Entry(PREA, 1, s.nCWL + s.nBL + s.nWR), Entry(PDE, 1, s.nCWL + s.nBL + s.nWR)]
    else if c == PIM_WR then
      [Entry(WR, 1, s.nCCDS), Entry(WR, 1, s.nCCDS), Entry(RD, 1, s.nCWL + s.nBL + s.nWTRS),
       Entry(RDA, 1, s.nCWL + s.nBL + s.nWTRS)]
    else if c == RDA then
      [Entry(RD, 1, s.nCCDS), Entry(RDA, 1, s.nCCDS), Entry(WR, 1, s.nCL + s.nCCDS + 2 - s.nCWL),
       Entry(WRA, 1, s.nCL + s.nCCDS + 2 - s.nCWL), Entry(PDE, 1, s.nCL + s.nBL + 1)]
    else if c == WRA then
      [Entry(WR, 1, s.nCCDS), Entry(WRA, 1, s.nCCDS), Entry(RD, 1, s.nCWL + s.nBL + s.nWTRS),
       Entry(RDA, 1, s.nCWL + s.nBL + s.nWTRS), Entry(PDE, 1, s.nCWL + s.nBL + s.nWR + 1)]
    else if c == REF then
      [Entry(ACT, 1, s.nRFC), Entry(REF, 1, s.nRFC), Entry(PDE, 1, 1)]
    else if c == PDE then
      [Entry(PDX, 1, s.nPD)]
    else if c == PDX then
      [Entry(RD, 1, s.nXP), Entry(RDA, 1, s.nXP), Entry(WR, 1, s.nXP), Entry(WRA, 1, s.nXP),
       Entry(ACT, 1, s.nXP), Entry(PRE, 1, s.nXP), Entry(PREA, 1, s.nXP), Entry(REF, 1, s.nXP),
       Entry(PDE, 1, s.nXP), Entry(SRE, 1, s.nXP)]
    else if c == SRE then
      [Entry(SRX, 1, s.nCKESR)]
    else if c == SRX then
      [Entry(ACT, 1, s.nXS), Entry(REF, 1, s.nXS), Entry(PDE, 1, s.nXS), Entry(SRE, 1, s.nXS)]
    else []
  }

  /** What a command means for later ones at the same bank group. */
  function BankGroupRow(s: Speed, c: nat): seq<TimingEntry> {
    if c == ACT then
      [Entry(ACT, 1, s.nRRDL)]
    else if c == RD then
      [Entry(RD, 1, s.nCCDL), Entry(RDA, 1, s.nCCDL)]
    else if c == WR then
      [Entry(WR, 1, s.nCCDL), Entry(WRA, 1, s.nCCDL), Entry(PIM_WR, 1, s.nCCDL),
       Entry(RD, 1, s.nCWL + s.nBL + s.nWTRL), Entry(RDA, 1, s.nCWL + s.nBL + s.nWTRL)]
    else if c == PIM_WR then
      [Entry(WR, 1, s.nCCDL), Entry(WRA, 1, s.nCCDL), Entry(PIM_WR, 1, s.nCCDL),
       Entry(RD, 1, s.nCWL + s.nBL + s.nWTRL), Entry(RDA, 1, s.nCWL + s.nBL + s.nWTRL)]
    else if c == RDA then
      [Entry(RD, 1, s.nCCDL), Entry(RDA, 1, s.nCCDL)]
    else if c == WRA then
      [Entry(WR, 1, s.nCCDL), Entry(WRA, 1, s.nCCDL), Entry(WR, 1, s.nCCDL), Entry(WRA, 1, s.nCCDL),
       Entry(RD, 1, s.nCWL + s.nBL + s.nWTRL), Entry(RDA, 1, s.nCWL + s.nBL + s.nWTRL)]
    else []
  }

  /** What a command means for later ones at the same bank. */
  function BankRow(s: Speed, c: nat): seq<TimingEntry> {
    if c == ACT then
      [Entry(RD, 1, s.nRCDR), Entry(RDA, 1, s.nRCDR), Entry(WR, 1, s.nRCDW), Entry(WRA, 1, s.nRCDW),
       Entry(ACT, 1, s.nRC), Entry(PRE, 1, s.nRAS)]
    else if c == PRE then
      [Entry(ACT, 1, s.nRP), Entry(REFSB, 1, s.nRP)]
    else if c == RD then
      [Entry(PRE, 1, s.nRTP)]
    else if c == WR then
      [Entry(PRE, 1, s.nCWL + s.nBL + s.nWR)]
    else if c == RDA then
      [Entry(ACT, 1, s.nRTP + s.nRP)]
    else if c == WRA then
      [Entry(ACT, 1, s.nCWL + s.nBL + s.nWR + s.nRP)]
    else if c == REFSB then
      [Entry(REFSB, 1, s.nRFC), Entry(ACT, 1, s.nRFC)]
    else []
  }

  function Row(s: Speed, level: nat, c: nat): seq<TimingEntry> {
    if level == CHANNEL then ChannelRow(s, c)
    else if level == RANK then RankRow(s, c)
    else if level == BANK_GROUP then BankGroupRow(s, c)
    else if level == BANK then BankRow(s, c)
    else []
  }

  /** The standard, for a given number of nodes below each level. */
  function StandardOf(s: Speed, count: seq<nat>): (std: Standard)
    requires |count| == LEVELS
    ensures std.WellFormed()
  {
    RowsOk(s);
    Standard(LEVELS, ROW, COMMANDS, count, SCOPE,
             seq(LEVELS, l requires 0 <= l < LEVELS =>
               seq(COMMANDS, c requires 0 <= c < COMMANDS => Row(s, l, c))))
  }

  lemma RowsOk(s: Speed)
    ensures forall l: nat, c: nat, k | 0 <= k < |Row(s, l, c)| ::
              var t := Row(s, l, c)[k];
              t.cmd < COMMANDS && 1 <= t.dist && !t.sibling
  {
    forall l: nat, c: nat, k | 0 <= k < |Row(s, l, c)|
      ensures var t := Row(s, l, c)[k];
              t.cmd < COMMANDS && 1 <= t.dist && !t.sibling
    {
      if l == RANK {
        RankRowOk(s, c, k);
      }
    }
  }

  lemma RankRowOk(s: Speed, c: nat, k: nat)
    requires k < |RankRow(s, c)|
    ensures var t := RankRow(s, c)[k];
            t.cmd < COMMANDS && 1 <= t.dist && !t.sibling
  {}

  // ---- The tables by family ----

  predicate Reads(c: nat) {
    c == RD || c == RDA
  }

  predicate Writes(c: nat) {
    c == WR || c == WRA
  }

  /** What may follow once a rank has left power-down. */
  predicate LeavesPowerDown(c: nat) {
    Reads(c) || Writes(c) || c == ACT || c == PRE || c == PREA || c == REF || c == PDE || c == SRE
  }

  /** From a write command to the end of its data. */
  function WriteEnd(s: Speed): int {
    s.nCWL + s.nBL
  }

  /** The waits at a channel: reads take the bus for a burst, and so do writes. */
  predicate ChannelWait(s: Speed, p: nat, c: nat, v: int) {
    ((Reads(p) && Reads(c)) || (Writes(p) && Writes(c))) && v == s.nBL
  }

  /** The waits at a rank: between accesses, for the turn of the bus, before a precharge of all
      banks, around power-down, refresh and self-refresh. */
  predicate RankWait(s: Speed, p: nat, c: nat, v: int) {
    || (((Reads(p) && Reads(c)) || (Writes(p) && Writes(c))) && v == s.nCCDS)
    || (Reads(p) && Writes(c) && v == s.nCL + s.nCCDS + 2 - s.nCWL)
    || (Writes(p) && Reads(c) && v == WriteEnd(s) + s.nWTRS)
    || (p == RD && c == PREA && v == s.nRTP)
    || (p == WR && c == PREA && v == WriteEnd(s) + s.nWR)
    || (c == PDE && ((Reads(p) && v == s.nCL + s.nBL + 1) || (p == WR && v == WriteEnd(s) + s.nWR) ||
                     (p == WRA && v == WriteEnd(s) + s.nWR + 1) || ((p == ACT || p == REF) && v == 1)))
    || (p == ACT && ((c == ACT && v == s.nRRDS) || (c == PREA && v == s.nRAS)))
    || (p == PREA && c == ACT && v == s.nRP)
    || ((p == PRE || p == PREA) && (c == REF || c == SRE) && v == s.nRP)
    || (p == REF && (c == ACT || c == REF) && v == s.nRFC)
    || (p == PDE && c == PDX && v == s.nPD)
    || (p == PDX && LeavesPowerDown(c) && v == s.nXP)
    || (p == SRE && c == SRX && v == s.nCKESR)
    || (p == SRX && (c == ACT || c == REF || c == PDE || c == SRE) && v == s.nXS)
  }

  /** The waits at a bank group. */
  predicate GroupWait(s: Speed, p: nat, c: nat, v: int) {
    || (((Reads(p) && Reads(c)) || (Writes(p) && Writes(c))) && v == s.nCCDL)
    || (Writes(p) && Reads(c) && v == WriteEnd(s) + s.nWTRL)
    || (p == ACT && c == ACT && v == s.nRRDL)
  }

  /** The waits at a bank: from opening a row to using it, from using it to closing it, and from
      closing it to opening the next. */
  predicate BankWait(s: Speed, p: nat, c: nat, v: int) {
    || (p == ACT && ((Reads(c) && v == s.nRCDR) || (Writes(c) && v == s.nRCDW) || (c == ACT && v == s.nRC) ||
                     (c == PRE && v == s.nRAS)))
    || (c == PRE && ((p == RD && v == s.nRTP) || (p == WR && v == WriteEnd(s) + s.nWR)))
    || (c == ACT && ((p == PRE && v == s.nRP) || (p == RDA && v == s.nRTP + s.nRP) ||
                     (p == WRA && v == WriteEnd(s) + s.nWR + s.nRP)))
    || (c == REFSB && p == PRE && v == s.nRP) || (p == REFSB && (c == REFSB || c == ACT) && v == s.nRFC)
  }

  /** The processing-in-memory write takes its turn with plain writes and, at a bank group, with
      auto-precharging ones and its own; reads wait for it as for a write. */
  predicate PimWait(s: Speed, level: nat, p: nat, c: nat, v: int) {
    if level == CHANNEL then
      ((p == WR && c == PIM_WR) || (p == PIM_WR && (c == WR || c == PIM_WR))) && v == s.nBL
    else if level == RANK then
      || (((p == WR && c == PIM_WR) || (p == PIM_WR && c == WR)) && v == s.nCCDS)
      || (p == PIM_WR && Reads(c) && v == WriteEnd(s) + s.nWTRS)
    else if level == BANK_GROUP then
      || (((p == WR && c == PIM_WR) || (p == PIM_WR && (Writes(c) || c == PIM_WR))) && v == s.nCCDL)
      || (p == PIM_WR && Reads(c) && v == WriteEnd(s) + s.nWTRL)
    else false
  }

  predicate Wait(s: Speed, level: nat, p: nat, c: nat, v: int) {
    || PimWait(s, level, p, c, v)
    || if level == CHANNEL then ChannelWait(s, p, c, v)
       else if level == RANK then RankWait(s, p, c, v)
       else if level == BANK_GROUP then GroupWait(s, p, c, v)
       else level == BANK && BankWait(s, p, c, v)
  }

  lemma ChannelRowIs(s: Speed, p: nat, c: nat, v: int)
    requires p < COMMANDS && c < COMMANDS
    ensures Entry(c, 1, v) in ChannelRow(s, p) <==> PimWait(s, CHANNEL, p, c, v) || ChannelWait(s, p, c, v)
  {
    var row := ChannelRow(s, p);
    assert Entry(c, 1, v) in row <==> exists k :: 0 <= k < |row| && row[k] == Entry(c, 1, v);
  }

  lemma RankAccessRowIs(s: Speed, p: nat, c: nat, v: int)
    requires p < COMMANDS && c < COMMANDS && (Reads(p) || Writes(p) || p == PIM_WR)
    ensures Entry(c, 1, v) in RankRow(s, p) <==> PimWait(s, RANK, p, c, v) || RankWait(s, p, c, v)
  {
    var row := RankRow(s, p);
    assert Entry(c, 1, v) in row <==> exists k :: 0 <= k < |row| && row[k] == Entry(c, 1, v);
  }

  lemma RankOtherRowIs(s: Speed, p: nat, c: nat, v: int)
    requires p < COMMANDS && c < COMMANDS && !(Reads(p) || Writes(p) || p == PIM_WR)
    ensures Entry(c, 1, v) in RankRow(s, p) <==> PimWait(s, RANK, p, c, v) || RankWait(s, p, c, v)
  {
    var row := RankRow(s, p);
    assert Entry(c, 1, v) in row <==> exists k :: 0 <= k < |row| && row[k] == Entry(c, 1, v);
  }

  lemma RankRowIs(s: Speed, p: nat, c: nat, v: int)
    requires p < COMMANDS && c < COMMANDS
    ensures Entry(c, 1, v) in RankRow(s, p) <==> PimWait(s, RANK, p, c, v) || RankWait(s, p, c, v)
  {
    hide RankRow, RankWait;
    if Reads(p) || Writes(p) || p == PIM_WR {
      RankAccessRowIs(s, p, c, v);
    } else {
      RankOtherRowIs(s, p, c, v);
    }
  }

  lemma GroupRowIs(s: Speed, p: nat, c: nat, v: int)
    requires p < COMMANDS && c < COMMANDS
    ensures Entry(c, 1, v) in BankGroupRow(s, p) <==> PimWait(s, BANK_GROUP, p, c, v) || GroupWait(s, p, c, v)
  {
    var row := BankGroupRow(s, p);
    assert Entry(c, 1, v) in row <==> exists k :: 0 <= k < |row| && row[k] == Entry(c, 1, v);
  }

  lemma BankRowIs(s: Speed, p: nat, c: nat, v: int)
    requires p < COMMANDS && c < COMMANDS
    ensures Entry(c, 1, v) in BankRow(s, p) <==> PimWait(s, BANK, p, c, v) || BankWait(s, p, c, v)
  {
    var row := BankRow(s, p);
    assert Entry(c, 1, v) in row <==> exists k :: 0 <= k < |row| && row[k] == Entry(c, 1, v);
  }

  /** The tables hold exactly the waits of the families, each level its own. */
  lemma RowIs(s: Speed, level: nat, p: nat, c: nat, v: int)
    requires p < COMMANDS && c < COMMANDS
    ensures Entry(c, 1, v) in Row(s, level, p) <==> Wait(s, level, p, c, v)
  {
    hide ChannelRow, RankRow, BankGroupRow, BankRow, ChannelWait, RankWait, GroupWait, BankWait;
    ChannelRowIs(s, p, c, v);
    RankRowIs(s, p, c, v);
    GroupRowIs(s, p, c, v);
    BankRowIs(s, p, c, v);
  }

  /** Every wait for a command is at a level its check reaches: a check stops at the scope of
      its command, and no family waits below that. */
  lemma WaitWithinScope(s: Speed, level: nat, p: nat, c: nat, v: int)
    requires p < COMMANDS && c < COMMANDS && Wait(s, level, p, c, v)
    ensures level <= SCOPE[c]
  {}

  /** The one wait that reaches further back is the window of four activates at a rank. */
  lemma OneWindow(s: Speed, level: nat, p: nat, e: TimingEntry)
    requires p < COMMANDS && e.dist != 1
    ensures e in Row(s, level, p) <==> level == RANK && p == ACT && e == Entry(ACT, 4, s.nFAW)
  {
    var row := Row(s, level, p);
    assert e in row <==> exists k :: 0 <= k < |row| && row[k] == e;
  }
}
