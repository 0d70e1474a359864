/**
 The physical memory protection checker (rtl/core/pmp.sv): per-entry match, permission, first match.
 */
module Pmp {
  import opened Rv32

  // A bit vector of width n as the number it stands for, with the bitwise operators of the RTL.

  function Pow2(n: nat): (p: nat)
    ensures p > 0
  {
    if n == 0 then 1 else 2 * Pow2(n - 1)
  }

  function Xor(a: nat, b: nat, n: nat): nat {
    if n == 0 then 0 else (if a % 2 != b % 2 then 1 else 0) + 2 * Xor(a / 2, b / 2, n - 1)
  }

  function And(a: nat, b: nat, n: nat): nat {
    if n == 0 then 0 else (if a % 2 == 1 && b % 2 == 1 then 1 else 0) + 2 * And(a / 2, b / 2, n - 1)
  }

  function Not(a: nat, n: nat): nat {
    if n == 0 then 0 else (1 - a % 2) + 2 * Not(a / 2, n - 1)
  }

  // ---- NAPOT ----

  // The increment wraps at the width.
  function Increment(a: nat, n: nat): nat { if a + 1 == Pow2(n) then 0 else a + 1 }

  // this ^ (this + 1)
  function RunMask(a: nat, n: nat): nat { Xor(a, Increment(a, n), n) }

  predicate NapotMatch(a: nat, x: nat, n: nat) {
    And(x, Not(RunMask(a, n), n), n) == And(a, Not(RunMask(a, n), n), n)
  }

  function TrailingOnes(a: nat, n: nat): (k: nat)
    ensures k <= n
  {
    if n == 0 || a % 2 == 0 then 0 else 1 + TrailingOnes(a / 2, n - 1)
  }

  // Bits compared as don't-care: the trailing ones and the zero above them.
  function Granule(a: nat, n: nat): (m: nat)
    ensures m <= n
  {
    if TrailingOnes(a, n) < n then TrailingOnes(a, n) + 1 else n
  }

  // x with its low m bits cleared.
  function Base(x: nat, m: nat): nat { if m == 0 then x else 2 * Base(x / 2, m - 1) }

  predicate Aligned(x: nat, m: nat) { m == 0 || (x % 2 == 0 && Aligned(x / 2, m - 1)) }

  // With k trailing ones, this ^ (this + 1) is 2^(k+1) - 1, or all ones when every bit is one.
  lemma {:induction false} RunMaskIsOnes(a: nat, n: nat)
    requires a < Pow2(n)
    ensures RunMask(a, n) == Pow2(Granule(a, n)) - 1
  {
    if n > 0 {
      RunMaskUnfold(a, n);
      if a % 2 == 1 {
        RunMaskIsOnes(a / 2, n - 1);
      } else {
        XorSelf(a / 2, n - 1);
      }
    }
  }

  lemma RunMaskUnfold(a: nat, n: nat)
    requires a < Pow2(n) && n > 0
    ensures a % 2 == 1 ==> RunMask(a, n) == 1 + 2 * RunMask(a / 2, n - 1)
    ensures a % 2 == 0 ==> RunMask(a, n) == 1 + 2 * Xor(a / 2, a / 2, n - 1)
  {
    if a % 2 == 1 {
      assert a / 2 + 1 == Pow2(n - 1) <==> a + 1 == Pow2(n);
      assert Increment(a, n) / 2 == Increment(a / 2, n - 1) && Increment(a, n) % 2 == 0;
    } else {
      assert Increment(a, n) == a + 1 && (a + 1) / 2 == a / 2;
    }
  }

  lemma {:induction false} XorSelf(a: nat, n: nat)
    ensures Xor(a, a, n) == 0
  {
    if n > 0 { XorSelf(a / 2, n - 1); }
  }

  // Masking with the complement of 2^m - 1 clears the low m bits.
  lemma {:induction false} MaskClears(x: nat, m: nat, n: nat)
    requires x < Pow2(n) && m <= n
    ensures And(x, Not(Pow2(m) - 1, n), n) == Base(x, m)
  {
    if n > 0 {
      if m > 0 {
        assert (Pow2(m) - 1) / 2 == Pow2(m - 1) - 1;
        MaskClears(x / 2, m - 1, n - 1);
      } else {
        MaskClears(x / 2, 0, n - 1);
      }
    }
  }

  lemma {:induction false} BaseIsRegion(a: nat, x: nat, m: nat)
    ensures Aligned(Base(a, m), m) && Base(a, m) <= a < Base(a, m) + Pow2(m)
    ensures Base(x, m) == Base(a, m) <==> Base(a, m) <= x < Base(a, m) + Pow2(m)
  {
    if m > 0 { BaseIsRegion(a / 2, x / 2, m - 1); }
  }

  lemma {:induction false} BaseOfSmall(x: nat, m: nat)
    requires x < Pow2(m)
    ensures Base(x, m) == 0
  {
    if m > 0 { BaseOfSmall(x / 2, m - 1); }
  }

  // The masked compare is membership in the naturally aligned region the entry denotes.
  lemma NapotIsRegion(a: nat, x: nat, n: nat)
    requires a < Pow2(n) && x < Pow2(n)
    ensures var m := Granule(a, n);
            && Aligned(Base(a, m), m)
            && (NapotMatch(a, x, n) <==> Base(a, m) <= x < Base(a, m) + Pow2(m))
  {
    var m := Granule(a, n);
    RunMaskIsOnes(a, n);
    MaskClears(x, m, n);
    MaskClears(a, m, n);
    BaseIsRegion(a, x, m);
  }

  // ---- entries ----

  datatype Mode = Off | Tor | Na4 | Napot

  datatype Access = Read | Write | Exec

  // One entry: its configuration byte, decoded, and bits 29 to 0 of its address register.
  datatype Entry = Entry(r: bool, w: bool, x: bool, mode: Mode, locked: bool, addr: nat)

  const MACHINE: nat := 3

  predicate Sized(e: Entry) { e.addr < 0x4000_0000 }

  predicate AllSized(p: seq<Entry>) { forall i | 0 <= i < |p| :: Sized(p[i]) }

  predicate Matches(p: seq<Entry>, i: nat, pa: Word)
    requires i < |p|
  {
    var hi := pa / 4;
    match p[i].mode
    case Off => false
    case Tor => (if i == 0 then 0 else p[i - 1].addr) <= hi < p[i].addr
    case Na4 => hi == p[i].addr
    case Napot => NapotMatch(p[i].addr, hi, 30)
  }

  predicate Permits(e: Entry, priv: nat, access: Access) {
    || (priv == MACHINE && !e.locked)
    || match access case Read => e.r case Write => e.w case Exec => e.x
  }

  // ---- the specification: byte ranges and the first-match rule ----

  // The bytes entry i covers: from (inclusive) to (exclusive).
  function Region(p: seq<Entry>, i: nat): (nat, nat)
    requires i < |p|
  {
    var e := p[i];
    match e.mode
    case Off => (0, 0)
    case Tor => (4 * if i == 0 then 0 else p[i - 1].addr, 4 * e.addr)
    case Na4 => (4 * e.addr, 4 * e.addr + 4)
    case Napot =>
      var m := Granule(e.addr, 30);
      (4 * Base(e.addr, m), 4 * Base(e.addr, m) + 4 * Pow2(m))
  }

  predicate Covers(p: seq<Entry>, i: nat, pa: Word)
    requires i < |p|
  {
    Region(p, i).0 <= pa < Region(p, i).1
  }

  predicate FirstCovering(p: seq<Entry>, i: nat, pa: Word) {
    i < |p| && Covers(p, i, pa) && forall j | 0 <= j < i :: !Covers(p, j, pa)
  }

  predicate Uncovered(p: seq<Entry>, pa: Word) { forall j | 0 <= j < |p| :: !Covers(p, j, pa) }

  // Section 3.7.1 of the Privileged Specification: the lowest-numbered entry covering the address
  // decides; if none does, only machine mode passes.
  predicate SpecFaults(p: seq<Entry>, priv: nat, pa: Word, access: Access) {
    || (exists i | 0 <= i < |p| :: FirstCovering(p, i, pa) && !Permits(p[i], priv, access))
    || (Uncovered(p, pa) && priv != MACHINE)
  }

  lemma PowersOfTwo()
    ensures Pow2(30) == 0x4000_0000 && Pow2(10) == 1024 && Pow2(20) == 0x10_0000
  {
    assert Pow2(5) == 32;
    assert Pow2(10) == 1024;
    assert Pow2(15) == 0x8000;
    assert Pow2(20) == 0x10_0000;
    assert Pow2(25) == 0x200_0000;
  }

  lemma MatchIsCoverage(p: seq<Entry>, i: nat, pa: Word)
    requires i < |p| && AllSized(p)
    ensures Matches(p, i, pa) <==> Covers(p, i, pa)
  {
    PowersOfTwo();
    assert Sized(p[i]);
    if p[i].mode.Napot? { NapotIsRegion(p[i].addr, pa / 4, 30); }
  }

  // A NAPOT entry with k trailing ones covers exactly 2^(k+3) bytes, aligned to that size.
  lemma NapotSize(p: seq<Entry>, i: nat)
    requires i < |p| && AllSized(p) && p[i].mode.Napot?
    ensures var k := TrailingOnes(p[i].addr, 30);
            && (k < 30 ==> Region(p, i).1 - Region(p, i).0 == Pow2(k + 3) && Aligned(Region(p, i).0, k + 3))
            && (k == 30 ==> Region(p, i) == (0, 0x1_0000_0000))
  {
    var a := p[i].addr;
    var m := Granule(a, 30);
    PowersOfTwo();
    assert Sized(p[i]);
    BaseIsRegion(a, a, m);
    if TrailingOnes(a, 30) == 30 {
      BaseOfSmall(a, 30);
    } else {
      assert Pow2(m + 2) == 4 * Pow2(m);
      assert Aligned(2 * Base(a, m), m + 1);
      assert 4 * Base(a, m) / 2 == 2 * Base(a, m);
    }
  }

  // ---- the priority pick ----

  predicate AnyActive(p: seq<Entry>) { exists i | 0 <= i < |p| :: !p[i].mode.Off? }

  // The two loops of the checker.
  method Check(p: seq<Entry>, priv: nat, pa: Word, access: Access) returns (fault: bool)
    requires AllSized(p)
    ensures fault == Faults(p, priv, pa, access)
    ensures fault <==> AnyActive(p) && SpecFaults(p, priv, pa, access)
  {
    var anyActive := false;
    for i := 0 to |p|
      invariant anyActive <==> exists j | 0 <= j < i :: !p[j].mode.Off?
    {
      if !p[i].mode.Off? { anyActive := true; }
    }
    var picked, decision := false, priv == MACHINE;
    for i := 0 to |p|
      invariant (picked, decision) == DecisionUpTo(p, i, priv, pa, access)
    {
      if !picked && Matches(p, i, pa) {
        picked := true;
        decision := Permits(p[i], priv, access);
      }
    }
    fault := anyActive && !decision;
    FaultsIsFirstMatch(p, priv, pa, access);
  }

  // (picked, decision) after the first n entries.
  function DecisionUpTo(p: seq<Entry>, n: nat, priv: nat, pa: Word, access: Access): (bool, bool)
    requires n <= |p|
  {
    if n == 0 then (false, priv == MACHINE)
    else
      var d := DecisionUpTo(p, n - 1, priv, pa, access);
      if !d.0 && Matches(p, n - 1, pa) then (true, Permits(p[n - 1], priv, access)) else d
  }

  predicate Faults(p: seq<Entry>, priv: nat, pa: Word, access: Access) {
    AnyActive(p) && !DecisionUpTo(p, |p|, priv, pa, access).1
  }

  lemma {:induction false} DecisionIsFirstMatch(p: seq<Entry>, n: nat, priv: nat, pa: Word, access: Access)
    requires n <= |p| && AllSized(p)
    ensures var d := DecisionUpTo(p, n, priv, pa, access);
            && (!d.0 ==> d.1 == (priv == MACHINE) && forall j | 0 <= j < n :: !Covers(p, j, pa))
            && (d.0 ==> exists i | 0 <= i < n :: FirstCovering(p, i, pa) && d.1 == Permits(p[i], priv, access))
  {
    if n > 0 {
      DecisionIsFirstMatch(p, n - 1, priv, pa, access);
      MatchIsCoverage(p, n - 1, pa);
      if !DecisionUpTo(p, n - 1, priv, pa, access).0 && Matches(p, n - 1, pa) {
        assert FirstCovering(p, n - 1, pa);
      }
    }
  }

  // The checker is the first-match rule, with one documented exception: while no entry is active it
  // lets everything through.
  lemma FaultsIsFirstMatch(p: seq<Entry>, priv: nat, pa: Word, access: Access)
    requires AllSized(p)
    ensures Faults(p, priv, pa, access) <==> AnyActive(p) && SpecFaults(p, priv, pa, access)
    ensures Faults(p, priv, pa, access) != SpecFaults(p, priv, pa, access) <==> !AnyActive(p) && priv != MACHINE
  {
    DecisionIsFirstMatch(p, |p|, priv, pa, access);
    if !AnyActive(p) {
      forall j | 0 <= j < |p|
        ensures !Covers(p, j, pa)
      {
        assert p[j].mode.Off?;
      }
    }
    if DecisionUpTo(p, |p|, priv, pa, access).0 {
      var i :| 0 <= i < |p| && FirstCovering(p, i, pa)
               && DecisionUpTo(p, |p|, priv, pa, access).1 == Permits(p[i], priv, access);
      forall j | 0 <= j < |p| && FirstCovering(p, j, pa)
        ensures j == i
      {
        assert !(j < i) && !(i < j);
      }
    }
  }
}
