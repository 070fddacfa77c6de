/** The polynomial channel hash, and when channel and in-channel address together still tell
    the address. */
module ChannelHash {
  import opened Arith

  predicate Bit(x: nat, i: nat) {
    x / Pow2(i) % 2 == 1
  }

  // ---- The networks ----

  /** One output bit: the exclusive or of the listed bits of x. */
  predicate Network(x: nat, taps: seq<nat>) {
    if taps == [] then false else Network(x, taps[..|taps| - 1]) != Bit(x, taps[|taps| - 1])
  }

  const TAPS_16: seq<seq<nat>> := [
    [11, 10, 9, 8, 6, 4, 3, 0],
    [12, 8, 7, 6, 5, 3, 1, 0],
    [9, 8, 7, 6, 4, 2, 1],
    [10, 9, 8, 7, 5, 3, 2]]

  const TAPS_32: seq<seq<nat>> := [
    [13, 12, 11, 10, 9, 6, 5, 3, 0],
    [14, 13, 12, 11, 10, 7, 6, 4, 1],
    [14, 10, 9, 8, 7, 6, 3, 2, 0],
    [11, 10, 9, 8, 7, 4, 3, 1],
    [12, 11, 10, 9, 8, 5, 4, 2]]

  const TAPS_64: seq<seq<nat>> := [
    [18, 17, 16, 15, 12, 10, 6, 5, 0],
    [15, 13, 12, 11, 10, 7, 5, 1, 0],
    [16, 14, 13, 12, 11, 8, 6, 2, 1],
    [17, 15, 14, 13, 12, 9, 7, 3, 2],
    [18, 16, 15, 14, 13, 10, 8, 4, 3],
    [17, 16, 15, 14, 11, 9, 5, 4]]

  // ---- Polynomials over GF(2) ----

  /** Coefficient j of a polynomial times x, modulo x^n + x^tap + 1, from its own
      coefficients n - 1 and j - 1. */
  predicate TimesX(top: bool, below: bool, tap: nat, j: nat) {
    if j == 0 then top else if j == tap then below != top else below
  }

  /** Coefficient i of a(x) * x^n, a having the bits of x as coefficients. */
  predicate Coefficient(x: nat, n: nat, i: nat) {
    n <= i && Bit(x, i - n)
  }

  /** Coefficient j of what remains when the part of a(x) * x^n from degree lo up to hi,
      brought down by lo, is divided by x^n + x^tap + 1: long division from the top. */
  predicate Residue(x: nat, lo: nat, hi: nat, n: nat, tap: nat, j: nat)
    requires lo <= hi && j < n
    decreases hi - lo
  {
    if lo == hi then false
    else
      TimesX(Residue(x, lo + 1, hi, n, tap, n - 1), j != 0 && Residue(x, lo + 1, hi, n, tap, j - 1), tap, j)
      != (j == 0 && Coefficient(x, n, lo))
  }

  /** Coefficient j of x^e modulo x^n + x^tap + 1. */
  predicate Power(e: nat, n: nat, tap: nat, j: nat)
    requires j < n
  {
    if e == 0 then j == 0 else TimesX(Power(e - 1, n, tap, n - 1), j != 0 && Power(e - 1, n, tap, j - 1), tap, j)
  }

  /** Coefficient j of the sum of x^(e+i-lo) over the set coefficients i of a(x) * x^n. */
  predicate Sum(x: nat, lo: nat, hi: nat, e: nat, n: nat, tap: nat, j: nat)
    requires lo <= hi && j < n
    decreases hi - lo
  {
    if lo == hi then false else Sum(x, lo + 1, hi, e + 1, n, tap, j) != (Coefficient(x, n, lo) && Power(e, n, tap, j))
  }

  lemma {:induction false} SumTimesX(x: nat, lo: nat, hi: nat, e: nat, n: nat, tap: nat, j: nat)
    requires lo <= hi && j < n
    ensures Sum(x, lo, hi, e + 1, n, tap, j)
         == TimesX(Sum(x, lo, hi, e, n, tap, n - 1), j != 0 && Sum(x, lo, hi, e, n, tap, j - 1), tap, j)
    decreases hi - lo
  {
    if lo != hi {
      SumTimesX(x, lo + 1, hi, e + 1, n, tap, j);
    }
  }

  /** Division is linear: the residue is the sum of the residues of the powers. */
  lemma {:induction false} ResidueIsSum(x: nat, lo: nat, hi: nat, n: nat, tap: nat, j: nat)
    requires lo <= hi && j < n
    ensures Residue(x, lo, hi, n, tap, j) == Sum(x, lo, hi, 0, n, tap, j)
    decreases hi - lo
  {
    if lo != hi {
      ResidueIsSum(x, lo + 1, hi, n, tap, n - 1);
      if j != 0 { ResidueIsSum(x, lo + 1, hi, n, tap, j - 1); }
      SumTimesX(x, lo + 1, hi, 0, n, tap, j);
    }
  }

  lemma {:induction false} PowerBelow(e: nat, n: nat, tap: nat, j: nat)
    requires j < n && e < n && 0 < tap
    ensures Power(e, n, tap, j) <==> j == e
  {
    if e != 0 {
      PowerBelow(e - 1, n, tap, n - 1);
      if j != 0 { PowerBelow(e - 1, n, tap, j - 1); }
    }
  }

  // ---- When a network is a residue ----

  /** Bit i feeds output j just as the powers of x demand: bit 0 feeds what x^n leaves, and
      bit i what multiplying by x makes of what bit i - 1 feeds. */
  predicate Feeds(taps: seq<seq<nat>>, n: nat, tap: nat, i: nat, j: nat)
    requires |taps| == n && j < n
  {
    (i in taps[j]) ==
      if i == 0 then j == 0 || j == tap
      else TimesX(i - 1 in taps[n - 1], j != 0 && i - 1 in taps[j - 1], tap, j)
  }

  ghost predicate Follows(taps: seq<seq<nat>>, bits: nat, n: nat, tap: nat) {
    && |taps| == n && 0 < tap < n
    && (forall i, j | 0 <= i < bits && 0 <= j < n :: Feeds(taps, n, tap, i, j))
    && (forall j | 0 <= j < n :: Descending(taps[j], bits))
  }

  ghost predicate Descending(s: seq<nat>, bound: nat) {
    && (forall k | 0 <= k < |s| :: s[k] < bound)
    && (forall k, l | 0 <= k < l < |s| :: s[l] < s[k])
  }

  lemma {:induction false} FedByPower(taps: seq<seq<nat>>, bits: nat, n: nat, tap: nat, i: nat, j: nat)
    requires Follows(taps, bits, n, tap) && i < bits && j < n
    ensures i in taps[j] <==> Power(n + i, n, tap, j)
  {
    assert Feeds(taps, n, tap, i, j);
    if i == 0 {
      PowerBelow(n - 1, n, tap, n - 1);
      if j != 0 { PowerBelow(n - 1, n, tap, j - 1); }
    } else {
      FedByPower(taps, bits, n, tap, i - 1, n - 1);
      if j != 0 { FedByPower(taps, bits, n, tap, i - 1, j - 1); }
    }
  }

  lemma HasFirst(s: seq<nat>)
    requires s != []
    ensures s[0] in s
  {}

  /** A network over the taps at or above lo is the sum from degree n + lo on. */
  lemma {:induction false} NetworkIsSum(x: nat, taps: seq<seq<nat>>, s: seq<nat>, lo: nat, bits: nat, n: nat, tap: nat,
                                        j: nat)
    requires Follows(taps, bits, n, tap) && j < n && lo <= bits && Descending(s, bits)
    requires forall i: nat :: i in s <==> lo <= i && i in taps[j]
    ensures Network(x, s) == Sum(x, n + lo, n + bits, n + lo, n, tap, j)
    decreases bits - lo
  {
    if lo == bits {
      if s != [] { HasFirst(s); }
    } else {
      FedByPower(taps, bits, n, tap, lo, j);
      if lo in s {
        var m := |s| - 1;
        assert s[m] == lo by { var k :| 0 <= k < |s| && s[k] == lo; assert s[m] in s; }
        assert forall i: nat :: i in s[..m] <==> lo + 1 <= i && i in taps[j];
        NetworkIsSum(x, taps, s[..m], lo + 1, bits, n, tap, j);
      } else {
        NetworkIsSum(x, taps, s, lo + 1, bits, n, tap, j);
      }
    }
  }

  /** Below degree n there is nothing to add. */
  lemma {:induction false} SumSkips(x: nat, lo: nat, hi: nat, n: nat, tap: nat, j: nat)
    requires lo <= n <= hi && j < n
    ensures Sum(x, lo, hi, lo, n, tap, j) == Sum(x, n, hi, n, n, tap, j)
    decreases n - lo
  {
    if lo != n {
      SumSkips(x, lo + 1, hi, n, tap, j);
    }
  }

  /** A network that follows the powers computes a(x) * x^n modulo x^n + x^tap + 1 of the
      low bits of its argument, for every argument. */
  lemma NetworkIsResidue(x: nat, taps: seq<seq<nat>>, bits: nat, n: nat, tap: nat, j: nat)
    requires Follows(taps, bits, n, tap) && j < n
    ensures Network(x, taps[j]) == Residue(x, 0, n + bits, n, tap, j)
  {
    NetworkIsSum(x, taps, taps[j], 0, bits, n, tap, j);
    SumSkips(x, 0, n + bits, n, tap, j);
    ResidueIsSum(x, 0, n + bits, n, tap, j);
  }

  lemma Feeds16At0(i: nat)
    requires i < 13
    ensures Feeds(TAPS_16, 4, 1, i, 0) && Descending(TAPS_16[0], 13)
  {
    assert TAPS_16[0] == [11, 10, 9, 8, 6, 4, 3, 0];
    assert TAPS_16[3] == [10, 9, 8, 7, 5, 3, 2];
  }

  lemma Feeds16At1(i: nat)
    requires i < 13
    ensures Feeds(TAPS_16, 4, 1, i, 1) && Descending(TAPS_16[1], 13)
  {
    assert TAPS_16[1] == [12, 8, 7, 6, 5, 3, 1, 0];
    assert TAPS_16[0] == [11, 10, 9, 8, 6, 4, 3, 0];
    assert TAPS_16[3] == [10, 9, 8, 7, 5, 3, 2];
  }

  lemma Feeds16At2(i: nat)
    requires i < 13
    ensures Feeds(TAPS_16, 4, 1, i, 2) && Descending(TAPS_16[2], 13)
  {
    assert TAPS_16[2] == [9, 8, 7, 6, 4, 2, 1];
    assert TAPS_16[1] == [12, 8, 7, 6, 5, 3, 1, 0];
  }

  lemma Feeds16At3(i: nat)
    requires i < 13
    ensures Feeds(TAPS_16, 4, 1, i, 3) && Descending(TAPS_16[3], 13)
  {
    assert TAPS_16[3] == [10, 9, 8, 7, 5, 3, 2];
    assert TAPS_16[2] == [9, 8, 7, 6, 4, 2, 1];
  }

  lemma Follows16()
    ensures Follows(TAPS_16, 13, 4, 1)
  {
    hide Feeds, Descending;
    forall i: nat, j: nat | i < 13 && j < 4 ensures Feeds(TAPS_16, 4, 1, i, j) && Descending(TAPS_16[j], 13) {
      match j
      case 0 => Feeds16At0(i);
      case 1 => Feeds16At1(i);
      case 2 => Feeds16At2(i);
      case _ => Feeds16At3(i);
    }
    assert Feeds(TAPS_16, 4, 1, 0, 0);
    forall j: nat | j < 4 ensures Descending(TAPS_16[j], 13) { assert Feeds(TAPS_16, 4, 1, 0, j); }
  }

  lemma Feeds32At0(i: nat)
    requires i < 15
    ensures Feeds(TAPS_32, 5, 2, i, 0) && Descending(TAPS_32[0], 15)
  {
    assert TAPS_32[0] == [13, 12, 11, 10, 9, 6, 5, 3, 0];
    assert TAPS_32[4] == [12, 11, 10, 9, 8, 5, 4, 2];
  }

  lemma Feeds32At1(i: nat)
    requires i < 15
    ensures Feeds(TAPS_32, 5, 2, i, 1) && Descending(TAPS_32[1], 15)
  {
    assert TAPS_32[1] == [14, 13, 12, 11, 10, 7, 6, 4, 1];
    assert TAPS_32[0] == [13, 12, 11, 10, 9, 6, 5, 3, 0];
  }

  lemma Feeds32At2(i: nat)
    requires i < 15
    ensures Feeds(TAPS_32, 5, 2, i, 2) && Descending(TAPS_32[2], 15)
  {
    assert TAPS_32[2] == [14, 10, 9, 8, 7, 6, 3, 2, 0];
    assert TAPS_32[1] == [14, 13, 12, 11, 10, 7, 6, 4, 1];
    assert TAPS_32[4] == [12, 11, 10, 9, 8, 5, 4, 2];
  }

  lemma Feeds32At3(i: nat)
    requires i < 15
    ensures Feeds(TAPS_32, 5, 2, i, 3) && Descending(TAPS_32[3], 15)
  {
    assert TAPS_32[3] == [11, 10, 9, 8, 7, 4, 3, 1];
    assert TAPS_32[2] == [14, 10, 9, 8, 7, 6, 3, 2, 0];
  }

  lemma Feeds32At4(i: nat)
    requires i < 15
    ensures Feeds(TAPS_32, 5, 2, i, 4) && Descending(TAPS_32[4], 15)
  {
    assert TAPS_32[4] == [12, 11, 10, 9, 8, 5, 4, 2];
    assert TAPS_32[3] == [11, 10, 9, 8, 7, 4, 3, 1];
  }

  lemma Follows32()
    ensures Follows(TAPS_32, 15, 5, 2)
  {
    hide Feeds, Descending;
    forall i: nat, j: nat | i < 15 && j < 5 ensures Feeds(TAPS_32, 5, 2, i, j) && Descending(TAPS_32[j], 15) {
      match j
      case 0 => Feeds32At0(i);
      case 1 => Feeds32At1(i);
      case 2 => Feeds32At2(i);
      case 3 => Feeds32At3(i);
      case _ => Feeds32At4(i);
    }
    assert Feeds(TAPS_32, 5, 2, 0, 0);
    forall j: nat | j < 5 ensures Descending(TAPS_32[j], 15) { assert Feeds(TAPS_32, 5, 2, 0, j); }
  }

  lemma Feeds64At0(i: nat)
    requires i < 19
    ensures Feeds(TAPS_64, 6, 1, i, 0) && Descending(TAPS_64[0], 19)
  {
    assert TAPS_64[0] == [18, 17, 16, 15, 12, 10, 6, 5, 0];
    assert TAPS_64[5] == [17, 16, 15, 14, 11, 9, 5, 4];
  }

  lemma Feeds64At1(i: nat)
    requires i < 19
    ensures Feeds(TAPS_64, 6, 1, i, 1) && Descending(TAPS_64[1], 19)
  {
    assert TAPS_64[1] == [15, 13, 12, 11, 10, 7, 5, 1, 0];
    assert TAPS_64[0] == [18, 17, 16, 15, 12, 10, 6, 5, 0];
    assert TAPS_64[5] == [17, 16, 15, 14, 11, 9, 5, 4];
  }

  lemma Feeds64At2(i: nat)
    requires i < 19
    ensures Feeds(TAPS_64, 6, 1, i, 2) && Descending(TAPS_64[2], 19)
  {
    assert TAPS_64[2] == [16, 14, 13, 12, 11, 8, 6, 2, 1];
    assert TAPS_64[1] == [15, 13, 12, 11, 10, 7, 5, 1, 0];
  }

  lemma Feeds64At3(i: nat)
    requires i < 19
    ensures Feeds(TAPS_64, 6, 1, i, 3) && Descending(TAPS_64[3], 19)
  {
    assert TAPS_64[3] == [17, 15, 14, 13, 12, 9, 7, 3, 2];
    assert TAPS_64[2] == [16, 14, 13, 12, 11, 8, 6, 2, 1];
  }

  lemma Feeds64At4(i: nat)
    requires i < 19
    ensures Feeds(TAPS_64, 6, 1, i, 4) && Descending(TAPS_64[4], 19)
  {
    assert TAPS_64[4] == [18, 16, 15, 14, 13, 10, 8, 4, 3];
    assert TAPS_64[3] == [17, 15, 14, 13, 12, 9, 7, 3, 2];
  }

  lemma Feeds64At5(i: nat)
    requires i < 19
    ensures Feeds(TAPS_64, 6, 1, i, 5) && Descending(TAPS_64[5], 19)
  {
    assert TAPS_64[5] == [17, 16, 15, 14, 11, 9, 5, 4];
    assert TAPS_64[4] == [18, 16, 15, 14, 13, 10, 8, 4, 3];
  }

  lemma Follows64()
    ensures Follows(TAPS_64, 19, 6, 1)
  {
    hide Feeds, Descending;
    forall i: nat, j: nat | i < 19 && j < 6 ensures Feeds(TAPS_64, 6, 1, i, j) && Descending(TAPS_64[j], 19) {
      match j
      case 0 => Feeds64At0(i);
      case 1 => Feeds64At1(i);
      case 2 => Feeds64At2(i);
      case 3 => Feeds64At3(i);
      case 4 => Feeds64At4(i);
      case _ => Feeds64At5(i);
    }
    assert Feeds(TAPS_64, 6, 1, 0, 0);
    forall j: nat | j < 6 ensures Descending(TAPS_64[j], 19) { assert Feeds(TAPS_64, 6, 1, 0, j); }
  }

  // ---- Channels ----

  /** The number whose bit j is network j. */
  function Index(x: nat, taps: seq<seq<nat>>): (index: nat)
    ensures index < Pow2(|taps|)
  {
    if taps == [] then 0
    else
      var m := |taps| - 1;
      Index(x, taps[..m]) + if Network(x, taps[m]) then Pow2(m) else 0
  }

  /** The channel of a block, for any number of channels. */
  function ChannelId(channels: nat, block: nat): (channel: nat)
    requires 0 < channels
    ensures channel < channels
  {
    if channels == 16 then Pow2Table(); Index(block, TAPS_16)
    else if channels == 32 then Pow2Table(); Index(block, TAPS_32)
    else if channels == 64 then Pow2Table(); Index(block, TAPS_64)
    else if channels < 16 then Index(block, TAPS_16) % channels
    else block % channels
  }

  lemma Pow2Table()
    ensures Pow2(0) == 1 && Pow2(1) == 2 && Pow2(2) == 4 && Pow2(3) == 8 && Pow2(4) == 16 && Pow2(5) == 32 &&
            Pow2(6) == 64
  {}

  /** Channel bits taken out of an address. */
  function FloorLog2(n: nat): (m: nat)
    requires 0 < n
    ensures Pow2(m) <= n < 2 * Pow2(m)
  {
    if n == 1 then 0 else FloorLog2(n / 2) + 1
  }

  // ---- Blocks that agree above their low bits ----

  predicate SameAbove(x: nat, y: nat, m: nat) {
    x / Pow2(m) == y / Pow2(m)
  }

  lemma BitAbove(x: nat, y: nat, m: nat, i: nat)
    requires SameAbove(x, y, m) && m <= i
    ensures Bit(x, i) == Bit(y, i)
  {
    Pow2Add(m, i - m);
    DivDiv(x, Pow2(m), Pow2(i - m));
    DivDiv(y, Pow2(m), Pow2(i - m));
  }

  lemma SameAboveMore(x: nat, y: nat, m: nat, n: nat)
    requires SameAbove(x, y, m) && m <= n
    ensures SameAbove(x, y, n)
  {
    Pow2Add(m, n - m);
    DivDiv(x, Pow2(m), Pow2(n - m));
    DivDiv(y, Pow2(m), Pow2(n - m));
  }

  /** A number is told by its high part and its low bits. */
  lemma {:induction false} BitsTell(x: nat, y: nat, m: nat)
    requires SameAbove(x, y, m) && forall i: nat | i < m :: Bit(x, i) == Bit(y, i)
    ensures x == y
  {
    if m != 0 {
      DivDiv(x, Pow2(m - 1), 2);
      DivDiv(y, Pow2(m - 1), 2);
      assert Bit(x, m - 1) == Bit(y, m - 1);
      BitsTell(x, y, m - 1);
    }
  }

  /** Networks of two blocks that agree above bit m differ by their low taps alone. */
  lemma {:induction false} NetworkSplit(x: nat, y: nat, taps: seq<nat>, k: nat, m: nat)
    requires SameAbove(x, y, m) && k <= |taps| && forall i | 0 <= i < k :: m <= taps[i]
    ensures (Network(x, taps) == Network(y, taps)) == (Network(x, taps[k..]) == Network(y, taps[k..]))
    decreases |taps|
  {
    if taps != [] {
      var n := |taps| - 1;
      BitAboveAll(x, y, m);
      if k <= n {
        assert taps[k..][..n - k] == taps[..n][k..];
        NetworkSplit(x, y, taps[..n], k, m);
      } else {
        NetworkSplit(x, y, taps[..n], n, m);
        assert taps[..n][n..] == [] == taps[k..];
      }
    }
  }

  lemma BitAboveAll(x: nat, y: nat, m: nat)
    requires SameAbove(x, y, m)
    ensures forall i: nat | m <= i :: Bit(x, i) == Bit(y, i)
  {
    forall i: nat | m <= i ensures Bit(x, i) == Bit(y, i) {
      BitAbove(x, y, m, i);
    }
  }

  lemma {:induction false} IndexTells(x: nat, y: nat, taps: seq<seq<nat>>)
    requires Index(x, taps) == Index(y, taps)
    ensures forall j | 0 <= j < |taps| :: Network(x, taps[j]) == Network(y, taps[j])
  {
    if taps != [] {
      var m := |taps| - 1;
      assert Index(x, taps[..m]) < Pow2(m) && Index(y, taps[..m]) < Pow2(m);
      IndexTells(x, y, taps[..m]);
      forall j | 0 <= j < |taps| ensures Network(x, taps[j]) == Network(y, taps[j]) {
        if j < m { assert taps[..m][j] == taps[j]; }
      }
    }
  }

  // ---- The residue tells the bits of a window ----

  /** Two blocks agree but for the n bits from bit s up. */
  ghost predicate Window(x: nat, y: nat, s: nat, n: nat) {
    SameAbove(x, y, s + n) && x % Pow2(s) == y % Pow2(s)
  }

  lemma {:induction false} BitBelow(x: nat, y: nat, s: nat, i: nat)
    requires x % Pow2(s) == y % Pow2(s) && i < s
    ensures Bit(x, i) == Bit(y, i)
  {
    LowBit(x, s, i);
    LowBit(y, s, i);
  }

  lemma LowBitOf(x: nat, p: nat, rest: nat)
    requires 0 < p && 0 < rest
    ensures 0 < rest * 2 * p && x / p % 2 == x % (rest * 2 * p) / p % 2
  {
    Positive(rest, 2);
    Positive(rest * 2, p);
    var m := rest * 2 * p;
    Whole(x, m);
    var q, r := x / m, x % m;
    Associate(q, rest * 2, p);
    ModShift(r, q * (rest * 2), p);
    Associate(q, rest, 2);
    Whole(r, p);
    ModShift(r / p, q * rest, 2);
  }

  /** The low bits of a number are those of its low part. */
  lemma LowBit(x: nat, s: nat, i: nat)
    requires i < s
    ensures Bit(x, i) == Bit(x % Pow2(s), i)
  {
    LowBitOf(x, Pow2(i), Pow2(s - i - 1));
    PowerAround(s, i);
  }

  lemma PowerAround(s: nat, i: nat)
    requires i < s
    ensures Pow2(s) == Pow2(s - i - 1) * 2 * Pow2(i)
  {
    Pow2Add(s - i - 1, 1);
    Pow2Add(s - i, i);
  }

  /** Above the window the divisions agree. */
  lemma {:induction false} ResidueAbove(x: nat, y: nat, m: nat, lo: nat, hi: nat, n: nat, tap: nat, j: nat)
    requires SameAbove(x, y, m) && n + m <= lo <= hi && j < n
    ensures Residue(x, lo, hi, n, tap, j) == Residue(y, lo, hi, n, tap, j)
    decreases hi - lo
  {
    if lo != hi {
      ResidueAbove(x, y, m, lo + 1, hi, n, tap, n - 1);
      if j != 0 { ResidueAbove(x, y, m, lo + 1, hi, n, tap, j - 1); }
      BitAbove(x, y, m, lo - n);
    }
  }

  /** The n bits of the window are brought down one by one, with nothing to divide yet: the
      divisions differ in coefficient j where the blocks differ in the bit it comes from. */
  lemma {:induction false} ResidueBrings(x: nat, y: nat, s: nat, i: nat, hi: nat, n: nat, tap: nat, j: nat)
    requires SameAbove(x, y, s + n) && i <= n && n + s + n <= hi && j < n
    ensures (Residue(x, n + s + i, hi, n, tap, j) != Residue(y, n + s + i, hi, n, tap, j))
         == (i + j < n && Bit(x, s + i + j) != Bit(y, s + i + j))
    decreases n - i
  {
    if i == n {
      ResidueAbove(x, y, s + n, n + s + n, hi, n, tap, j);
    } else {
      ResidueBrings(x, y, s, i + 1, hi, n, tap, n - 1);
      if j != 0 { ResidueBrings(x, y, s, i + 1, hi, n, tap, j - 1); }
    }
  }

  ghost predicate SameResidue(x: nat, y: nat, lo: nat, hi: nat, n: nat, tap: nat)
    requires lo <= hi
  {
    forall j | 0 <= j < n :: Residue(x, lo, hi, n, tap, j) == Residue(y, lo, hi, n, tap, j)
  }

  /** Multiplying by x loses nothing: below the window equal residues came from equal ones. */
  lemma SameBefore(x: nat, y: nat, s: nat, lo: nat, hi: nat, n: nat, tap: nat)
    requires x % Pow2(s) == y % Pow2(s) && lo < n + s <= hi && 0 < tap < n && SameResidue(x, y, lo, hi, n, tap)
    ensures SameResidue(x, y, lo + 1, hi, n, tap)
  {
    if n <= lo { BitBelow(x, y, s, lo - n); }
    assert Residue(x, lo, hi, n, tap, 0) == Residue(y, lo, hi, n, tap, 0);
    var next := lo + 1;
    forall j | 0 <= j < n ensures Residue(x, next, hi, n, tap, j) == Residue(y, next, hi, n, tap, j) {
      if j != n - 1 {
        assert Residue(x, lo, hi, n, tap, j + 1) == Residue(y, lo, hi, n, tap, j + 1);
      }
    }
  }

  lemma {:induction false} SameFromStart(x: nat, y: nat, s: nat, lo: nat, hi: nat, n: nat, tap: nat)
    requires x % Pow2(s) == y % Pow2(s) && lo <= n + s <= hi && 0 < tap < n && SameResidue(x, y, 0, hi, n, tap)
    ensures SameResidue(x, y, lo, hi, n, tap)
  {
    if lo != 0 {
      SameFromStart(x, y, s, lo - 1, hi, n, tap);
      SameBefore(x, y, s, lo - 1, hi, n, tap);
    }
  }

  /** Networks that follow a polynomial with n bits tell the n bits of any window they read:
      their outputs are residues, and x can be divided out of those. */
  lemma ResidueTells(x: nat, y: nat, taps: seq<seq<nat>>, bits: nat, n: nat, tap: nat, s: nat)
    requires Follows(taps, bits, n, tap) && s + n <= bits && Window(x, y, s, n) && Index(x, taps) == Index(y, taps)
    ensures x == y
  {
    hide Network, Residue, Bit, Index, Feeds, Descending;
    IndexTells(x, y, taps);
    var hi := n + bits;
    forall j | 0 <= j < n ensures Residue(x, 0, hi, n, tap, j) == Residue(y, 0, hi, n, tap, j) {
      NetworkIsResidue(x, taps, bits, n, tap, j);
      NetworkIsResidue(y, taps, bits, n, tap, j);
    }
    var lo := n + s;
    SameFromStart(x, y, s, lo, hi, n, tap);
    forall i: nat | i < s + n ensures Bit(x, i) == Bit(y, i) {
      if i < s {
        BitBelow(x, y, s, i);
      } else {
        ResidueBrings(x, y, s, 0, hi, n, tap, i - s);
        assert Residue(x, lo, hi, n, tap, i - s) == Residue(y, lo, hi, n, tap, i - s);
      }
    }
    BitsTell(x, y, s + n);
  }

  lemma AboveWindow(x: nat, y: nat, n: nat)
    requires SameAbove(x, y, n)
    ensures Window(x, y, 0, n)
  {
    Split(x, 0, 1);
    Split(y, 0, 1);
  }

  /** Networks do not see a bit above those they read. */
  lemma {:induction false} NetworkBlind(taps: seq<nat>, bits: nat, b: nat)
    requires bits <= b && forall k | 0 <= k < |taps| :: taps[k] < bits
    ensures Network(Pow2(b), taps) == Network(0, taps) == false
  {
    if taps != [] {
      var t := taps[|taps| - 1];
      NetworkBlind(taps[..|taps| - 1], bits, b);
      var rest := Pow2(b - t - 1);
      PowerAround(b, t);
      Split(rest * 2, 0, Pow2(t));
      Split(0, 0, Pow2(t));
      ModShift(0, rest, 2);
    }
  }

  lemma {:induction false} IndexBlind(taps: seq<seq<nat>>, bits: nat, b: nat)
    requires bits <= b && forall j | 0 <= j < |taps| :: Descending(taps[j], bits)
    ensures Index(Pow2(b), taps) == Index(0, taps)
  {
    if taps != [] {
      IndexBlind(taps[..|taps| - 1], bits, b);
      NetworkBlind(taps[|taps| - 1], bits, b);
    }
  }

  /** Blocks that differ in the n bits from bit s up have different channels: 2^n blocks at a
      stride of 2^s are spread over all 2^n of them. */
  ghost predicate Spreads(taps: seq<seq<nat>>, s: nat, n: nat) {
    forall x: nat, y: nat :: Window(x, y, s, n) && Index(x, taps) == Index(y, taps) ==> x == y
  }

  /** Strides of powers of two are free of conflicts exactly up to the bits the networks read. */
  lemma SpreadsExactly(taps: seq<seq<nat>>, bits: nat, n: nat, tap: nat, s: nat)
    requires Follows(taps, bits, n, tap)
    ensures Spreads(taps, s, n) <==> s + n <= bits
  {
    hide Index, Network, Feeds, Descending;
    if s + n <= bits {
      forall x: nat, y: nat | Window(x, y, s, n) && Index(x, taps) == Index(y, taps) ensures x == y {
        ResidueTells(x, y, taps, bits, n, tap, s);
      }
    } else {
      var b := s + n - 1;
      IndexBlind(taps, bits, b);
      OneBitWindow(s, n);
      assert !(Window(Pow2(b), 0, s, n) && Index(Pow2(b), taps) == Index(0, taps) ==> Pow2(b) == 0);
    }
  }

  lemma OneBitWindow(s: nat, n: nat)
    requires 0 < n
    ensures Window(Pow2(s + n - 1), 0, s, n)
  {
    Split(0, Pow2(s + n - 1), Pow2(s + n));
    Split(0, 0, Pow2(s + n));
    Pow2Add(n - 1, s);
    Split(Pow2(n - 1), 0, Pow2(s));
    Split(0, 0, Pow2(s));
  }

  /** The three networks, with 13, 15 and 19 bits. */
  lemma StridesSpread(s: nat)
    ensures Spreads(TAPS_16, s, 4) <==> s <= 9
    ensures Spreads(TAPS_32, s, 5) <==> s <= 10
    ensures Spreads(TAPS_64, s, 6) <==> s <= 13
  {
    hide Spreads, Follows;
    Follows16();
    Follows32();
    Follows64();
    SpreadsExactly(TAPS_16, 13, 4, 1, s);
    SpreadsExactly(TAPS_32, 15, 5, 2, s);
    SpreadsExactly(TAPS_64, 19, 6, 1, s);
  }

  lemma NetworkShort(x: nat, a: nat, b: nat, c: nat)
    ensures Network(x, [a]) == Bit(x, a)
    ensures Network(x, [a, b]) == (Bit(x, a) != Bit(x, b))
    ensures Network(x, [a, b, c]) == ((Bit(x, a) != Bit(x, b)) != Bit(x, c))
  {
    assert [a][..0] == [] && [a, b][..1] == [a] && [a, b, c][..2] == [a, b];
    assert !Network(x, []);
    assert Network(x, [a]) == (Network(x, []) != Bit(x, a));
  }

  /** Two blocks that agree above bit n differ in output j by the low taps. */
  lemma LowTaps(x: nat, y: nat, taps: seq<nat>, low: seq<nat>, n: nat)
    requires SameAbove(x, y, n) && |low| <= |taps| && taps[|taps| - |low|..] == low
    requires forall i | 0 <= i < |taps| - |low| :: n <= taps[i]
    ensures (Network(x, taps) == Network(y, taps)) == (Network(x, low) == Network(y, low))
  {
    NetworkSplit(x, y, taps, |taps| - |low|, n);
  }

  lemma Low16At0(x: nat, y: nat)
    requires SameAbove(x, y, 4)
    ensures (Network(x, TAPS_16[0]) == Network(y, TAPS_16[0])) == ((Bit(x, 3) != Bit(x, 0)) == (Bit(y, 3) != Bit(y, 0)))
  {
    assert TAPS_16[0] == [11, 10, 9, 8, 6, 4, 3, 0];
    LowTaps(x, y, TAPS_16[0], [3, 0], 4);
    NetworkShort(x, 3, 0, 0);
    NetworkShort(y, 3, 0, 0);
  }

  lemma Low16At1(x: nat, y: nat)
    requires SameAbove(x, y, 4)
    ensures (Network(x, TAPS_16[1]) == Network(y, TAPS_16[1])) ==
              (((Bit(x, 3) != Bit(x, 1)) != Bit(x, 0)) == ((Bit(y, 3) != Bit(y, 1)) != Bit(y, 0)))
  {
    assert TAPS_16[1] == [12, 8, 7, 6, 5, 3, 1, 0];
    LowTaps(x, y, TAPS_16[1], [3, 1, 0], 4);
    NetworkShort(x, 3, 1, 0);
    NetworkShort(y, 3, 1, 0);
  }

  lemma Low16At2(x: nat, y: nat)
    requires SameAbove(x, y, 4)
    ensures (Network(x, TAPS_16[2]) == Network(y, TAPS_16[2])) == ((Bit(x, 2) != Bit(x, 1)) == (Bit(y, 2) != Bit(y, 1)))
  {
    assert TAPS_16[2] == [9, 8, 7, 6, 4, 2, 1];
    LowTaps(x, y, TAPS_16[2], [2, 1], 4);
    NetworkShort(x, 2, 1, 0);
    NetworkShort(y, 2, 1, 0);
  }

  lemma Low16At3(x: nat, y: nat)
    requires SameAbove(x, y, 4)
    ensures (Network(x, TAPS_16[3]) == Network(y, TAPS_16[3])) == ((Bit(x, 3) != Bit(x, 2)) == (Bit(y, 3) != Bit(y, 2)))
  {
    assert TAPS_16[3] == [10, 9, 8, 7, 5, 3, 2];
    LowTaps(x, y, TAPS_16[3], [3, 2], 4);
    NetworkShort(x, 3, 2, 0);
    NetworkShort(y, 3, 2, 0);
  }

  /** Channel and block number above the channel bits tell the block: 16 channels. */
  lemma Tells16(x: nat, y: nat)
    requires SameAbove(x, y, 4) && Index(x, TAPS_16) == Index(y, TAPS_16)
    ensures x == y
  {
    hide Index, Follows;
    Follows16();
    AboveWindow(x, y, 4);
    ResidueTells(x, y, TAPS_16, 13, 4, 1, 0);
  }

  /** Channel and block number above the channel bits tell the block: 32 channels. */
  lemma Tells32(x: nat, y: nat)
    requires SameAbove(x, y, 5) && Index(x, TAPS_32) == Index(y, TAPS_32)
    ensures x == y
  {
    hide Index, Follows;
    Follows32();
    AboveWindow(x, y, 5);
    ResidueTells(x, y, TAPS_32, 15, 5, 2, 0);
  }

  /** Channel and block number above the channel bits tell the block: 64 channels. */
  lemma Tells64(x: nat, y: nat)
    requires SameAbove(x, y, 6) && Index(x, TAPS_64) == Index(y, TAPS_64)
    ensures x == y
  {
    hide Index, Follows;
    Follows64();
    AboveWindow(x, y, 6);
    ResidueTells(x, y, TAPS_64, 19, 6, 1, 0);
  }

  // ---- Fewer than 16 channels: the 16-channel index, folded ----

  function Weight(bit: bool, w: nat): nat {
    if bit then w else 0
  }

  lemma IndexOfFour(x: nat)
    ensures Index(x, TAPS_16) == Weight(Network(x, TAPS_16[0]), 1) + Weight(Network(x, TAPS_16[1]), 2)
                               + Weight(Network(x, TAPS_16[2]), 4) + Weight(Network(x, TAPS_16[3]), 8)
  {
    Pow2Table();
    var t := TAPS_16;
    assert |t| == 4 && t[..4] == t;
    assert t[..3][..2] == t[..2] && t[..2][..1] == t[..1] && Index(x, t[..0]) == 0;
    assert Index(x, t[..1]) == Weight(Network(x, t[0]), 1);
    assert Index(x, t[..2]) == Index(x, t[..1]) + Weight(Network(x, t[1]), 2);
    assert Index(x, t[..3]) == Index(x, t[..2]) + Weight(Network(x, t[2]), 4);
  }

  /** How the outputs of two blocks that agree above bit 4 differ. */
  lemma Differences(x: nat, y: nat)
    requires SameAbove(x, y, 4)
    ensures (Network(x, TAPS_16[0]) != Network(y, TAPS_16[0])) == ((Bit(x, 3) != Bit(y, 3)) != (Bit(x, 0) != Bit(y, 0)))
    ensures (Network(x, TAPS_16[1]) != Network(y, TAPS_16[1])) ==
              (((Bit(x, 3) != Bit(y, 3)) != (Bit(x, 1) != Bit(y, 1))) != (Bit(x, 0) != Bit(y, 0)))
    ensures (Network(x, TAPS_16[2]) != Network(y, TAPS_16[2])) == ((Bit(x, 2) != Bit(y, 2)) != (Bit(x, 1) != Bit(y, 1)))
    ensures (Network(x, TAPS_16[3]) != Network(y, TAPS_16[3])) == ((Bit(x, 3) != Bit(y, 3)) != (Bit(x, 2) != Bit(y, 2)))
  {
    hide Network, Bit;
    Low16At0(x, y);
    Low16At1(x, y);
    Low16At2(x, y);
    Low16At3(x, y);
  }

  /** The channel counts below 16 that keep blocks apart: the powers of two, and 7 and 14. */
  predicate KeepsApart(channels: nat) {
    channels == 1 || channels == 2 || channels == 4 || channels == 8 || channels == 7 || channels == 14 ||
        16 <= channels
  }

  lemma ChannelBits(channels: nat)
    requires 1 <= channels < 16
    ensures FloorLog2(channels) == if channels < 2 then 0 else if channels < 4 then 1 else if channels < 8 then 2 else 3
  {}

  lemma FoldedTells(channels: nat, x: nat, y: nat)
    requires channels < 16 && KeepsApart(channels) && SameAbove(x, y, FloorLog2(channels))
    requires Index(x, TAPS_16) % channels == Index(y, TAPS_16) % channels
    ensures x == y
  {
    var m := FloorLog2(channels);
    ChannelBits(channels);
    SameAboveMore(x, y, m, 4);
    BitAboveAll(x, y, m);
    Differences(x, y);
    IndexOfFour(x);
    IndexOfFour(y);
    FoldedBits(channels, m, Bit(x, 0) != Bit(y, 0), Bit(x, 1) != Bit(y, 1), Bit(x, 2) != Bit(y, 2),
               Network(x, TAPS_16[0]), Network(x, TAPS_16[1]), Network(x, TAPS_16[2]), Network(x, TAPS_16[3]));
    BitsTell(x, y, m);
  }

  /** Flipping low bits d0, d1, d2 of a block changes its folded index. */
  lemma FoldedBits(channels: nat, m: nat, d0: bool, d1: bool, d2: bool, n0: bool, n1: bool, n2: bool, n3: bool)
    requires 1 <= channels < 16 && KeepsApart(channels) && m == FloorLog2(channels)
    requires (m < 1 ==> !d0) && (m < 2 ==> !d1) && (m < 3 ==> !d2)
    requires (Weight(n0, 1) + Weight(n1, 2) + Weight(n2, 4) + Weight(n3, 8)) % channels
          == (Weight(n0 != d0, 1) + Weight(n1 != (d1 != d0), 2) + Weight(n2 != (d2 != d1), 4) +
              Weight(n3 != d2, 8)) % channels
    ensures !d0 && !d1 && !d2
  {
    ChannelBits(channels);
    if channels == 8 || channels == 4 {
      FourEight(channels, d0, d1, d2, n0, n1, n2, n3);
    } else if channels == 7 {
      SevenFourteen(7, d0, d1, d2, n0, n1, n2, n3);
    } else if channels == 14 {
      SevenFourteen(14, d0, d1, d2, n0, n1, n2, n3);
    }
  }

  lemma FourEight(channels: nat, d0: bool, d1: bool, d2: bool, n0: bool, n1: bool, n2: bool, n3: bool)
    requires (channels == 4 && !d2) || channels == 8
    requires (Weight(n0, 1) + Weight(n1, 2) + Weight(n2, 4) + Weight(n3, 8)) % channels
          == (Weight(n0 != d0, 1) + Weight(n1 != (d1 != d0), 2) + Weight(n2 != (d2 != d1), 4) +
              Weight(n3 != d2, 8)) % channels
    ensures !d0 && !d1 && !d2
  {}

  lemma SevenFourteen(channels: nat, d0: bool, d1: bool, d2: bool, n0: bool, n1: bool, n2: bool, n3: bool)
    requires (channels == 7 && !d2) || channels == 14
    requires (Weight(n0, 1) + Weight(n1, 2) + Weight(n2, 4) + Weight(n3, 8)) % channels
          == (Weight(n0 != d0, 1) + Weight(n1 != (d1 != d0), 2) + Weight(n2 != (d2 != d1), 4) +
              Weight(n3 != d2, 8)) % channels
    ensures !d0 && !d1 && !d2
  {}

  lemma {:induction false} NetworkZero(taps: seq<nat>)
    ensures !Network(0, taps)
  {
    if taps != [] {
      NetworkZero(taps[..|taps| - 1]);
      Split(0, 0, Pow2(taps[|taps| - 1]));
    }
  }

  lemma IndexBelow16(x: nat)
    requires x < 16
    ensures Index(x, TAPS_16) == Weight((x / 8 % 2 == 1) != (x % 2 == 1), 1)
                               + Weight(((x / 8 % 2 == 1) != (x / 2 % 2 == 1)) != (x % 2 == 1), 2)
                               + Weight((x / 4 % 2 == 1) != (x / 2 % 2 == 1), 4)
                               + Weight((x / 8 % 2 == 1) != (x / 4 % 2 == 1), 8)
  {
    Pow2Table();
    IndexOfFour(x);
    Differences(x, 0);
    NetworkZero(TAPS_16[0]);
    NetworkZero(TAPS_16[1]);
    NetworkZero(TAPS_16[2]);
    NetworkZero(TAPS_16[3]);
  }

  /** Two blocks the remaining counts confuse. */
  function Confused(channels: nat): (nat, nat) {
    match channels
    case 3 => (0, 1)
    case 5 => (0, 3)
    case 6 => (0, 2)
    case 9 => (1, 4)
    case 10 => (3, 5)
    case 11 => (10, 15)
    case 12 => (0, 4)
    case 13 => (11, 14)
    case _ => (0, 5)
  }

  lemma FoldedConfuses(channels: nat)
    requires 1 <= channels < 16 && !KeepsApart(channels)
    ensures var (x, y) := Confused(channels);
            x != y && SameAbove(x, y, FloorLog2(channels)) && ChannelId(channels, x) == ChannelId(channels, y)
  {
    Pow2Table();
    ChannelBits(channels);
    hide Index;
    IndexesBelow16();
  }

  lemma IndexesBelow16()
    ensures Index(0, TAPS_16) == 0 && Index(1, TAPS_16) == 3 && Index(2, TAPS_16) == 6 && Index(3, TAPS_16) == 5
    ensures Index(4, TAPS_16) == 12 && Index(5, TAPS_16) == 15 && Index(10, TAPS_16) == 13
    ensures Index(11, TAPS_16) == 14 && Index(14, TAPS_16) == 1 && Index(15, TAPS_16) == 2
  {
    hide Index;
    IndexBelow16(0);
    IndexBelow16(1);
    IndexBelow16(2);
    IndexBelow16(3);
    IndexBelow16(4);
    IndexBelow16(5);
    IndexBelow16(10);
    IndexBelow16(11);
    IndexBelow16(14);
    IndexBelow16(15);
  }

  // ---- The theorem ----

  ghost predicate Confuses(channels: nat, x: nat, y: nat)
    requires 0 < channels
  {
    x != y && ChannelId(channels, x) == ChannelId(channels, y) && SameAbove(x, y, FloorLog2(channels))
  }

  ghost predicate TellsBlocks(channels: nat)
    requires 0 < channels
  {
    forall x: nat, y: nat :: !Confuses(channels, x, y)
  }

  /** A channel and the block number without its channel bits tell the block, exactly for
      16 channels and up, the powers of two below, and 7 and 14. */
  lemma TellsBlocksExactly(channels: nat)
    requires 0 < channels
    ensures TellsBlocks(channels) <==> KeepsApart(channels)
  {
    if KeepsApart(channels) {
      forall x: nat, y: nat ensures !Confuses(channels, x, y) {
        if Confuses(channels, x, y) { ApartTells(channels, x, y); }
      }
    } else {
      FoldedConfuses(channels);
      assert Confuses(channels, Confused(channels).0, Confused(channels).1);
    }
  }

  lemma ApartTells(channels: nat, x: nat, y: nat)
    requires 0 < channels && KeepsApart(channels) && ChannelId(channels, x) == ChannelId(channels, y)
    requires SameAbove(x, y, FloorLog2(channels))
    ensures x == y
  {
    Pow2Table();
    if channels == 16 {
      assert FloorLog2(16) == 4;
      Tells16(x, y);
    } else if channels == 32 {
      assert FloorLog2(32) == 5;
      Tells32(x, y);
    } else if channels == 64 {
      assert FloorLog2(64) == 6;
      Tells64(x, y);
    } else if channels < 16 {
      FoldedTells(channels, x, y);
    } else {
      ModuloTells(channels, x, y);
    }
  }

  /** The plain modulo: blocks that agree above fewer bits than the count has are less than
      the count apart. */
  lemma ModuloTells(channels: nat, x: nat, y: nat)
    requires 0 < channels && x % channels == y % channels && SameAbove(x, y, FloorLog2(channels))
    ensures x == y
  {
    var p := Pow2(FloorLog2(channels));
    Whole(x, p);
    Whole(y, p);
    if x <= y { Near(x, y, channels); } else { Near(y, x, channels); }
  }

  lemma Near(x: nat, y: nat, m: nat)
    requires 0 < m && x <= y < x + m && x % m == y % m
    ensures x == y
  {
    Whole(x, m);
    Whole(y, m);
    if x / m < y / m { MulOrder(x / m, y / m, m); }
    if y / m < x / m { MulOrder(y / m, x / m, m); }
  }

  // ---- What the channel of a block is ----

  /** A bit added above another leaves that as it is, and is what it is itself. */
  lemma BitOnTop(low: nat, top: bool, m: nat)
    requires low < Pow2(m)
    ensures Bit(low + Weight(top, Pow2(m)), m) == top
  {
    Split(if top then 1 else 0, low, Pow2(m));
  }

  lemma BitUnder(low: nat, top: bool, m: nat, j: nat)
    requires j < m
    ensures Bit(low + Weight(top, Pow2(m)), j) == Bit(low, j)
  {
    hide Pow2;
    var p, high := Pow2(j), Pow2(m - j - 1);
    Pow2Under(m, j);
    if top { BitShifted(low, high, p); }
  }

  lemma Pow2Under(m: nat, j: nat)
    requires j < m
    ensures Pow2(m) == 2 * Pow2(m - j - 1) * Pow2(j)
  {
    Pow2Add(j, m - j);
    Positive(Pow2(j), 2 * Pow2(m - j - 1));
  }

  lemma BitShifted(low: nat, high: nat, p: nat)
    requires 0 < p
    ensures (low + 2 * high * p) / p % 2 == low / p % 2
  {
    ModShift(low, 2 * high, p);
    Whole(low, p);
    ModShift(low / p, high, 2);
  }

  lemma {:induction false} IndexBit(x: nat, taps: seq<seq<nat>>, j: nat)
    requires j < |taps|
    ensures Bit(Index(x, taps), j) == Network(x, taps[j])
  {
    hide Network, Bit;
    var m := |taps| - 1;
    var low, top := Index(x, taps[..m]), Network(x, taps[m]);
    assert Index(x, taps) == low + Weight(top, Pow2(m));
    if j == m {
      BitOnTop(low, top, m);
    } else {
      IndexBit(x, taps[..m], j);
      BitUnder(low, top, m, j);
    }
  }

  /** With 16, 32 or 64 channels bit j of a block's channel is coefficient j of the block, taken
      as a polynomial, times x^4, x^5 or x^6 modulo x^4+x+1, x^5+x^2+1 or x^6+x+1, of its low
      13, 15 or 19 bits. */
  lemma ChannelIsResidue(block: nat, j: nat)
    ensures j < 4 ==> Bit(ChannelId(16, block), j) == Residue(block, 0, 4 + 13, 4, 1, j)
    ensures j < 5 ==> Bit(ChannelId(32, block), j) == Residue(block, 0, 5 + 15, 5, 2, j)
    ensures j < 6 ==> Bit(ChannelId(64, block), j) == Residue(block, 0, 6 + 19, 6, 1, j)
  {
    hide Index, Network, Residue, Bit, Follows;
    Follows16();
    Follows32();
    Follows64();
    if j < 4 {
      IndexBit(block, TAPS_16, j);
      NetworkIsResidue(block, TAPS_16, 13, 4, 1, j);
    }
    if j < 5 {
      IndexBit(block, TAPS_32, j);
      NetworkIsResidue(block, TAPS_32, 15, 5, 2, j);
    }
    if j < 6 {
      IndexBit(block, TAPS_64, j);
      NetworkIsResidue(block, TAPS_64, 19, 6, 1, j);
    }
  }

  /** Fewer than 16 channels fold the channel of 16; any other number takes blocks in turn. */
  lemma ChannelFolds(channels: nat, block: nat)
    requires 0 < channels
    ensures channels < 16 ==> ChannelId(channels, block) == ChannelId(16, block) % channels
    ensures 16 < channels && channels != 32 && channels != 64 ==>
              ChannelId(channels, block + 1) == (ChannelId(channels, block) + 1) % channels &&
                  ChannelId(channels, 0) == 0
  {
    hide Index;
    if 16 < channels {
      Small(0, channels);
      ModAdd(block, 1, channels);
    }
  }

  /** Blocks that differ in the n bits from bit s up go to different channels. */
  ghost predicate ChannelsSpread(channels: nat, s: nat, n: nat)
    requires 0 < channels
  {
    forall x: nat, y: nat :: Window(x, y, s, n) && ChannelId(channels, x) == ChannelId(channels, y) ==> x == y
  }

  /** 2^n blocks at a stride of 2^s go to all 2^n channels exactly up to s = 9, 10 and 13. */
  lemma ChannelsSpreadExactly(s: nat)
    ensures ChannelsSpread(16, s, 4) <==> s <= 9
    ensures ChannelsSpread(32, s, 5) <==> s <= 10
    ensures ChannelsSpread(64, s, 6) <==> s <= 13
  {
    hide Index, Window;
    StridesSpread(s);
    SameSpread(16, TAPS_16, s, 4);
    SameSpread(32, TAPS_32, s, 5);
    SameSpread(64, TAPS_64, s, 6);
  }

  lemma SameSpread(channels: nat, taps: seq<seq<nat>>, s: nat, n: nat)
    requires 0 < channels && forall x: nat :: ChannelId(channels, x) == Index(x, taps)
    ensures ChannelsSpread(channels, s, n) <==> Spreads(taps, s, n)
  {
    hide Index, ChannelId;
    if ChannelsSpread(channels, s, n) {
      forall x: nat, y: nat | Window(x, y, s, n) && Index(x, taps) == Index(y, taps) ensures x == y {
        assert ChannelId(channels, x) == ChannelId(channels, y);
      }
    }
  }
}
