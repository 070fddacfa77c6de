/** Which command a rank wants next for a request, and what commands do to its banks. */
module BankProtocol {

  datatype Command = ACT | PRE | PREA | RD | WR | RDA | WRA | REF | REFSB | PDE | PDX | SRE | SRX

  datatype Power = PowerUp | ActPowerDown | PrePowerDown | SelfRefresh

  /** A bank node: its state and the rows in its table. */
  datatype Bank = Bank(isOpen: bool, rows: set<nat>)

  datatype State = State(power: Power, banks: seq<seq<Bank>>)

  datatype Target = Target(group: nat, bank: nat, row: nat)

  predicate Within(s: State, t: Target) {
    t.group < |s.banks| && t.bank < |s.banks[t.group]|
  }

  function At(s: State, t: Target): Bank
    requires Within(s, t)
  {
    s.banks[t.group][t.bank]
  }

  function With(s: State, t: Target, b: Bank): State
    requires Within(s, t)
  {
    s.(banks := s.banks[t.group := s.banks[t.group][t.bank := b]])
  }

  ghost predicate AnyOpen(s: State) {
    exists g, b :: 0 <= g < |s.banks| && 0 <= b < |s.banks[g]| && s.banks[g][b].isOpen
  }

  ghost predicate AllShut(s: State, s': State) {
    && |s'.banks| == |s.banks|
    && (forall g | 0 <= g < |s.banks| :: |s'.banks[g]| == |s.banks[g]|)
    && (forall g, b | 0 <= g < |s.banks| && 0 <= b < |s.banks[g]| :: s'.banks[g][b] == Bank(false, {}))
  }

  ghost function Shut(s: State): (s': State)
    ensures s'.power == s.power && AllShut(s, s')
  {
    var banks := seq(|s.banks|, g requires 0 <= g < |s.banks| => seq(|s.banks[g]|, b => Bank(false, {})));
    s.(banks := banks)
  }

  // ---- The next command for a request ----

  /** What the rank node asks for before an access may go on. */
  function Wake(p: Power): Command
    requires p != PowerUp
  {
    if p == SelfRefresh then SRX else PDX
  }

  ghost function Decoded(s: State, cmd: Command, t: Target): Command
    requires Within(s, t)
  {
    match cmd
    case RD | WR =>
      if s.power != PowerUp then Wake(s.power)
      else if !At(s, t).isOpen then ACT
      else if t.row in At(s, t).rows then cmd
      else PRE
    case REF => if AnyOpen(s) then PREA else REF
    case REFSB => if At(s, t).isOpen then PRE else REFSB
    case PDE => if s.power == SelfRefresh then SRX else PDE
    case SRE => if s.power == ActPowerDown || s.power == PrePowerDown then PDX else SRE
    case _ => cmd
  }

  ghost function Applied(s: State, cmd: Command, t: Target): State
    requires Within(s, t)
  {
    match cmd
    case ACT => With(s, t, Bank(true, At(s, t).rows + {t.row}))
    case PRE | RDA | WRA => With(s, t, Bank(false, {}))
    case PREA => Shut(s)
    case PDE => s.(power := if AnyOpen(s) then ActPowerDown else PrePowerDown)
    case PDX | SRX => s.(power := PowerUp)
    case SRE => s.(power := SelfRefresh)
    case _ => s
  }

  // ---- The rank, updated in place ----

  class Rank {
    var power: Power
    var banks: seq<seq<Bank>>

    function Snap(): State
      reads this
    {
      State(power, banks)
    }

    constructor (groups: nat, perGroup: nat)
      ensures power == PowerUp && |banks| == groups
      ensures forall g | 0 <= g < groups :: |banks[g]| == perGroup
      ensures forall g, b | 0 <= g < groups && 0 <= b < perGroup :: banks[g][b] == Bank(false, {})
    {
      power := PowerUp;
      banks := seq(groups, g => seq(perGroup, b => Bank(false, {})));
    }

    method IsAnyOpen() returns (open: bool)
      ensures open == AnyOpen(Snap())
    {
      for g := 0 to |banks|
        invariant forall h, b :: 0 <= h < g && 0 <= b < |banks[h]| ==> !banks[h][b].isOpen
      {
        for b := 0 to |banks[g]|
          invariant forall c :: 0 <= c < b ==> !banks[g][c].isOpen
        {
          if banks[g][b].isOpen { return true; }
        }
      }
      return false;
    }

    method Decode(cmd: Command, t: Target) returns (first: Command)
      requires Within(Snap(), t)
      ensures first == Decoded(Snap(), cmd, t)
    {
      if cmd == RD || cmd == WR {
        if power == ActPowerDown || power == PrePowerDown { return PDX; }
        if power == SelfRefresh { return SRX; }
        var bank := banks[t.group][t.bank];
        if !bank.isOpen { return ACT; }
        return if t.row in bank.rows then cmd else PRE;
      } else if cmd == REF {
        var open := IsAnyOpen();
        return if open then PREA else REF;
      } else if cmd == REFSB {
        return if banks[t.group][t.bank].isOpen then PRE else REFSB;
      } else if cmd == PDE {
        return if power == SelfRefresh then SRX else PDE;
      } else if cmd == SRE {
        return if power == ActPowerDown || power == PrePowerDown then PDX else SRE;
      }
      return cmd;
    }

    method Set(t: Target, b: Bank)
      requires Within(Snap(), t)
      modifies this`banks
      ensures Snap() == With(old(Snap()), t, b)
    {
      banks := banks[t.group := banks[t.group][t.bank := b]];
    }

    method ShutGroup(g: nat)
      requires g < |banks|
      modifies this`banks
      ensures |banks| == |old(banks)| && |banks[g]| == |old(banks[g])|
      ensures forall h | 0 <= h < |banks| && h != g :: banks[h] == old(banks[h])
      ensures forall b | 0 <= b < |banks[g]| :: banks[g][b] == Bank(false, {})
    {
      for b := 0 to |banks[g]|
        invariant |banks| == |old(banks)| && |banks[g]| == |old(banks[g])|
        invariant forall h | 0 <= h < |banks| && h != g :: banks[h] == old(banks[h])
        invariant forall c | 0 <= c < b :: banks[g][c] == Bank(false, {})
      {
        banks := banks[g := banks[g][b := Bank(false, {})]];
      }
    }

    method PrechargeAll()
      modifies this`banks
      ensures Snap() == Shut(old(Snap()))
    {
      for g := 0 to |banks|
        invariant |banks| == |old(banks)|
        invariant forall h | 0 <= h < |banks| :: |banks[h]| == |old(banks[h])|
        invariant forall h, b | 0 <= h < g && 0 <= b < |banks[h]| :: banks[h][b] == Bank(false, {})
      {
        ShutGroup(g);
      }
      ghost var want := Shut(old(Snap())).banks;
      forall g | 0 <= g < |banks| ensures banks[g] == want[g] {}
    }

    method UpdateState(cmd: Command, t: Target)
      requires Within(Snap(), t)
      modifies this
      ensures Snap() == Applied(old(Snap()), cmd, t)
    {
      match cmd {
        case ACT => Set(t, Bank(true, banks[t.group][t.bank].rows + {t.row}));
        case PRE => Set(t, Bank(false, {}));
        case RDA => Set(t, Bank(false, {}));
        case WRA => Set(t, Bank(false, {}));
        case PREA => PrechargeAll();
        case PDE =>
          var open := IsAnyOpen();
          power := if open then ActPowerDown else PrePowerDown;
        case PDX => power := PowerUp;
        case SRX => power := PowerUp;
        case SRE => power := SelfRefresh;
        case _ =>
      }
    }
  }

  // ---- What every reachable state keeps ----

  /** A bank is open exactly when it has a row, and never has two. */
  predicate BankOk(b: Bank) {
    (b.isOpen <==> b.rows != {}) && |b.rows| <= 1
  }

  ghost predicate Ok(s: State) {
    forall g, b | 0 <= g < |s.banks| && 0 <= b < |s.banks[g]| :: BankOk(s.banks[g][b])
  }

  /** What must hold for a command to be right. */
  ghost predicate Safe(s: State, cmd: Command, t: Target)
    requires Within(s, t)
  {
    match cmd
    case ACT => s.power == PowerUp && !At(s, t).isOpen
    case RD | WR | RDA | WRA => s.power == PowerUp && At(s, t).isOpen && At(s, t).rows == {t.row}
    case REF => !AnyOpen(s)
    case REFSB => !At(s, t).isOpen
    case PDX => s.power == ActPowerDown || s.power == PrePowerDown
    case SRX => s.power == SelfRefresh
    case PDE => s.power != SelfRefresh
    case SRE => s.power == PowerUp || s.power == SelfRefresh
    case _ => true
  }

  lemma OneRow(rows: set<nat>, r: nat)
    requires |rows| <= 1 && r in rows
    ensures rows == {r}
  {
    assert |rows - {r}| == 0;
    assert rows - {r} == {};
  }

  predicate Requested(cmd: Command) {
    cmd == RD || cmd == WR || cmd == REF || cmd == REFSB || cmd == PDE || cmd == SRE
  }

  lemma DecodedSafe(s: State, cmd: Command, t: Target)
    requires Ok(s) && Within(s, t) && Requested(cmd)
    ensures Safe(s, Decoded(s, cmd, t), t)
  {
    assert BankOk(At(s, t));
    if t.row in At(s, t).rows {
      OneRow(At(s, t).rows, t.row);
    }
  }

  lemma AppliedOk(s: State, cmd: Command, t: Target)
    requires Ok(s) && Within(s, t) && Safe(s, cmd, t)
    ensures Ok(Applied(s, cmd, t)) && Within(Applied(s, cmd, t), t)
  {
    var s' := Applied(s, cmd, t);
    assert BankOk(At(s, t));
    if cmd == ACT {
      assert At(s, t).rows + {t.row} == {t.row};
    }
    forall g, b | 0 <= g < |s'.banks| && 0 <= b < |s'.banks[g]| ensures BankOk(s'.banks[g][b]) {
      if cmd != PREA { assert BankOk(s.banks[g][b]); }
    }
  }

  // ---- Whole runs ----

  /** One command of the controller: the next one for any request it likes, an access
      possibly with autoprecharge, or the precharge of any bank it likes. */
  datatype Move = Serve(cmd: Command, target: Target, auto: bool) | Victim(target: Target)

  function WithAuto(cmd: Command, auto: bool): Command {
    if auto && cmd == RD then RDA else if auto && cmd == WR then WRA else cmd
  }

  ghost function Issued(s: State, m: Move): Command
    requires Within(s, m.target)
  {
    match m
    case Serve(cmd, t, auto) => WithAuto(Decoded(s, cmd, t), auto)
    case Victim(_) => PRE
  }

  ghost predicate Allowed(s: State, moves: seq<Move>) {
    forall i | 0 <= i < |moves| :: Within(s, moves[i].target) && (moves[i].Serve? ==> Requested(moves[i].cmd))
  }

  ghost function After(s: State, moves: seq<Move>): (s': State)
    requires Allowed(s, moves)
    ensures |s'.banks| == |s.banks| && forall g | 0 <= g < |s.banks| :: |s'.banks[g]| == |s.banks[g]|
  {
    if moves == [] then s
    else
      var n := |moves| - 1;
      var p := After(s, moves[..n]);
      assert Within(s, moves[n].target);
      Applied(p, Issued(p, moves[n]), moves[n].target)
  }

  lemma MoveSafe(s: State, m: Move)
    requires Ok(s) && Within(s, m.target) && (m.Serve? ==> Requested(m.cmd))
    ensures Safe(s, Issued(s, m), m.target)
  {
    if m.Serve? { DecodedSafe(s, m.cmd, m.target); }
  }

  /** Whatever is served and whatever is precharged: after any run every bank has at most one
      open row, and the next command is right, whichever it is: an activate meets a closed
      bank, an access its own open row in a rank that is up, a refresh only closed banks. */
  lemma {:induction false} RunSafe(s: State, moves: seq<Move>, next: Move)
    requires Ok(s) && Allowed(s, moves) && Allowed(s, [next])
    ensures Ok(After(s, moves)) && Within(After(s, moves), next.target)
    ensures Safe(After(s, moves), Issued(After(s, moves), next), next.target)
  {
    assert [next][0] == next;
    if moves != [] {
      var n := |moves| - 1;
      assert moves[n] == moves[..n + 1][n] && Allowed(s, [moves[n]]);
      RunSafe(s, moves[..n], moves[n]);
      var p := After(s, moves[..n]);
      AppliedOk(p, Issued(p, moves[n]), moves[n].target);
    }
    MoveSafe(After(s, moves), next);
  }

  // ---- How far a request is from its own command ----

  /** Commands to issue before the one the request is for: to wake the rank, to close what is
      open, and for an access to open its row. */
  ghost function Distance(s: State, cmd: Command, t: Target): nat
    requires Within(s, t)
  {
    match cmd
    case RD | WR =>
      (if s.power != PowerUp then 1 else 0) + (if !At(s, t).isOpen then 1 else if t.row in At(s, t).rows then 0 else 2)
    case REF => if AnyOpen(s) then 1 else 0
    case REFSB => if At(s, t).isOpen then 1 else 0
    case PDE => if s.power == SelfRefresh then 1 else 0
    case SRE => if s.power == ActPowerDown || s.power == PrePowerDown then 1 else 0
    case _ => 0
  }

  lemma NoneOpen(s: State, s': State)
    requires AllShut(s, s')
    ensures !AnyOpen(s')
  {}

  /** Each command the decoder asks for brings the request's own command exactly one nearer: an
      access comes after three at most, a refresh, power-down or self-refresh after one. */
  lemma RequestNears(s: State, cmd: Command, t: Target)
    requires Ok(s) && Within(s, t) && Requested(cmd)
    ensures Distance(s, cmd, t) <= (if cmd == RD || cmd == WR then 3 else 1)
    ensures Distance(s, cmd, t) == 0 <==> Decoded(s, cmd, t) == cmd
    ensures Distance(s, cmd, t) != 0 ==>
              Within(Applied(s, Decoded(s, cmd, t), t), t) &&
                  Distance(Applied(s, Decoded(s, cmd, t), t), cmd, t) == Distance(s, cmd, t) - 1
  {
    assert BankOk(At(s, t));
    NoneOpen(s, Shut(s));
  }

  /** The same, counted over the run that serves the request alone: whatever the state, every
      request reaches its own command, in exactly as many steps as it is away. */
  lemma {:induction false} RequestReached(s: State, cmd: Command, t: Target, n: nat)
    requires Ok(s) && Within(s, t) && Requested(cmd) && n <= Distance(s, cmd, t)
    ensures var moves := seq(n, i => Serve(cmd, t, false));
            && Allowed(s, moves) && Ok(After(s, moves)) && Within(After(s, moves), t)
            && Distance(After(s, moves), cmd, t) == Distance(s, cmd, t) - n
            && (n == Distance(s, cmd, t) <==> Issued(After(s, moves), Serve(cmd, t, false)) == cmd)
  {
    hide Distance, Decoded, Applied, Ok, Safe;
    var moves := seq(n, i => Serve(cmd, t, false));
    if n != 0 {
      var front := seq(n - 1, i => Serve(cmd, t, false));
      assert moves[..n - 1] == front && moves[n - 1] == Serve(cmd, t, false);
      RequestReached(s, cmd, t, n - 1);
      var p := After(s, front);
      RequestNears(p, cmd, t);
      DecodedSafe(p, cmd, t);
      AppliedOk(p, Decoded(p, cmd, t), t);
    }
    RequestNears(After(s, moves), cmd, t);
  }

  /** A command changes its own bank and nothing else, a precharge of all banks apart; and only
      power commands change the power, which leave the banks alone. */
  lemma OthersStay(s: State, cmd: Command, t: Target, other: Target)
    requires Within(s, t) && Within(s, other)
    ensures var s' := Applied(s, cmd, t);
            && Within(s', other)
            && (cmd != PREA && (other.group != t.group || other.bank != t.bank) ==> At(s', other) == At(s, other))
            && (cmd == PDE || cmd == PDX || cmd == SRE || cmd == SRX || s'.power == s.power)
            && (cmd == PDE || cmd == PDX || cmd == SRE || cmd == SRX || cmd == REF || cmd == REFSB ==>
                  s'.banks == s.banks)
  {}

  /** An access leaves its row open unless it precharges. */
  lemma AccessLeaves(s: State, cmd: Command, t: Target, auto: bool)
    requires Ok(s) && Within(s, t) && (cmd == RD || cmd == WR) && Decoded(s, cmd, t) == cmd
    ensures var s' := Applied(s, WithAuto(cmd, auto), t);
            Within(s', t) && At(s', t) == if auto then Bank(false, {}) else Bank(true, {t.row})
  {
    DecodedSafe(s, cmd, t);
    assert BankOk(At(s, t));
  }

  /** A rank asked to power down is in active power-down exactly when it has a bank open, and
      a rank asked for self-refresh is in it; an access wakes it. */
  lemma PowerFollows(s: State, t: Target)
    requires Within(s, t)
    ensures Decoded(s, PDE, t) == PDE ==>
              && Applied(s, PDE, t).power != PowerUp && Applied(s, PDE, t).power != SelfRefresh
              && (Applied(s, PDE, t).power == ActPowerDown <==>
                    exists g, b :: 0 <= g < |s.banks| && 0 <= b < |s.banks[g]| && s.banks[g][b].isOpen)
    ensures Decoded(s, SRE, t) == SRE ==> Applied(s, SRE, t).power == SelfRefresh
    ensures s.power != PowerUp ==> Applied(s, Decoded(s, RD, t), t) == s.(power := PowerUp)
  {}

  // ---- When a rank is awake ----

  /** A run that serves requests of these kinds only. */
  ghost predicate Serves(moves: seq<Move>, kinds: set<Command>) {
    forall i | 0 <= i < |moves| && moves[i].Serve? :: moves[i].cmd in kinds
  }

  /** Every refresh of the run goes to a rank that is powered up. */
  ghost predicate RefreshesAwake(s: State, moves: seq<Move>)
    requires Allowed(s, moves)
  {
    forall n | 0 <= n < |moves| :: RefreshAwake(s, moves, n)
  }

  ghost predicate RefreshAwake(s: State, moves: seq<Move>, n: nat)
    requires Allowed(s, moves) && n < |moves|
  {
    assert Within(s, moves[n].target);
    var p := After(s, moves[..n]);
    Issued(p, moves[n]) == REF ==> p.power == PowerUp
  }

  /** Without power-down and self-refresh requests a rank stays up over any run.  Reads, writes
      and refreshes are all the controller is ever given. */
  lemma {:induction false} StaysUp(s: State, moves: seq<Move>)
    requires s.power == PowerUp && Allowed(s, moves) && Serves(moves, {RD, WR, REF, REFSB})
    ensures After(s, moves).power == PowerUp
  {
    if moves != [] {
      var n := |moves| - 1;
      StaysUp(s, moves[..n]);
      assert Within(s, moves[n].target);
      assert moves[n].Serve? ==> moves[n].cmd in {RD, WR, REF, REFSB};
    }
  }

  /** Asked for a refresh twice, a rank that is not up is refreshed all the same: the first
      request precharges it if need be. */
  lemma RefreshedAsleep(s: State, t: Target)
    requires Within(s, t) && s.power != PowerUp
    ensures var first := Decoded(s, REF, t);
            var s' := Applied(s, first, t);
            Within(s', t) && s'.power == s.power && (first == REF || Decoded(s', REF, t) == REF)
  {
    if AnyOpen(s) {
      assert AllShut(s, Shut(s));
    }
  }

  /** The shortest run that refreshes a rank asleep, given a request that puts it to sleep. */
  lemma SleepRun(s: State, sleep: Command, t: Target) returns (moves: seq<Move>)
    requires s.power == PowerUp && Within(s, t) && (sleep == PDE || sleep == SRE)
    ensures Allowed(s, moves) && Serves(moves, {sleep, REF}) && !RefreshesAwake(s, moves)
  {
    moves := [Serve(sleep, t, false), Serve(REF, t, false), Serve(REF, t, false)];
    assert moves[..0] == [] && moves[..1] == [moves[0]] && moves[..1][..0] == [] &&
        moves[..2] == [moves[0], moves[1]] && moves[..2][..1] == moves[..1];
    var s1 := Applied(s, sleep, t);
    assert After(s, moves[..1]) == s1;
    RefreshedAsleep(s1, t);
    assert After(s, moves[..2]) == Applied(s1, Decoded(s1, REF, t), t);
    if Decoded(s1, REF, t) == REF {
      assert !RefreshAwake(s, moves, 1);
    } else {
      assert !RefreshAwake(s, moves, 2);
    }
  }

  /** Which requests may be served for every refresh, in every run, to meet a rank that is up:
      exactly those without power-down and self-refresh. */
  lemma RefreshesAwakeExactly(s: State, kinds: set<Command>, t: Target)
    requires s.power == PowerUp && Within(s, t) && REF in kinds && forall k | k in kinds :: Requested(k)
    ensures (forall moves: seq<Move> | Allowed(s, moves) && Serves(moves, kinds) :: RefreshesAwake(s, moves))
       <==> PDE !in kinds && SRE !in kinds
  {
    if PDE !in kinds && SRE !in kinds {
      forall moves: seq<Move> | Allowed(s, moves) && Serves(moves, kinds) ensures RefreshesAwake(s, moves) {
        forall n | 0 <= n < |moves| ensures RefreshAwake(s, moves, n) {
          forall i | 0 <= i < n && moves[..n][i].Serve? ensures moves[..n][i].cmd in {RD, WR, REF, REFSB} {
            assert moves[i].cmd in kinds;
          }
          StaysUp(s, moves[..n]);
        }
      }
    } else {
      var moves := SleepRun(s, if PDE in kinds then PDE else SRE, t);
      assert Serves(moves, kinds);
    }
  }

  /** A row hit is exactly an access that needs no command before it, while the rank is up. */
  lemma HitIsImmediate(s: State, cmd: Command, t: Target)
    requires Ok(s) && Within(s, t) && (cmd == RD || cmd == WR)
    ensures (At(s, t).isOpen && t.row in At(s, t).rows) <==> Decoded(s.(power := PowerUp), cmd, t) == cmd
  {
    assert At(s.(power := PowerUp), t) == At(s, t);
  }
}
