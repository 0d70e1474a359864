/**
 What the PMP does, read off the registers themselves: configuration bytes and address bits, without
 decoded entries (section 3.7.1 of the Privileged Specification).
 */
module PmpRules {
  import opened Rv32
  import Arithmetic
  import Csr
  import Pmp

  // ---- bits of numbers ----

  lemma {:induction false} Pow2Sum(a: nat, b: nat)
    ensures Pmp.Pow2(a + b) == Pmp.Pow2(a) * Pmp.Pow2(b)
  {
    if b > 0 { Pow2Sum(a, b - 1); }
  }

  lemma DropMultiple(x: nat, d: nat, q: nat)
    requires d > 0
    ensures (x + q * d) / d == x / d + q
  {
    assert x + q * d == (x / d + q) * d + x % d;
    Arithmetic.DivisionUnique(x + q * d, d, x / d + q, x % d);
  }

  lemma EvenAddend(q: nat, h: nat)
    ensures (q + 2 * h) % 2 == q % 2
  {
  }

  function Quotient(x: nat, d: nat): nat requires d > 0 { x / d }

  // A number without its low b bits.
  function Above(x: nat, b: nat): nat { Quotient(x, Pmp.Pow2(b)) }

  // Bit b of the number a bit vector stands for.
  lemma {:induction false} NumberBit(w: Csr.Bits, n: nat, b: nat)
    requires b < n
    ensures Above(Csr.Number(w, n), b) % 2 == if b in w then 1 else 0
  {
    var low := Csr.Number(w, n - 1);
    Csr.NumberFits(w, n - 1);
    if b < n - 1 { NumberBit(w, n - 1, b); }
    if n - 1 in w {
      AddTop(low, b, n - 1);
    } else if b == n - 1 {
      Arithmetic.DivisionUnique(low, Pmp.Pow2(b), 0, low);
    }
  }

  // A new top bit at position t shows at position t and nowhere below.
  lemma AddTop(low: nat, b: nat, t: nat)
    requires b <= t && low < Pmp.Pow2(t)
    ensures b == t ==> Above(low + Pmp.Pow2(t), b) == 1
    ensures b < t ==> Above(low + Pmp.Pow2(t), b) % 2 == Above(low, b) % 2
  {
    if b == t {
      Arithmetic.DivisionUnique(low + Pmp.Pow2(t), Pmp.Pow2(t), 1, low);
    } else {
      var half := Pmp.Pow2(t - b - 1);
      Pow2Sum(b, t - b);
      AddEven(low, Pmp.Pow2(b), half, Pmp.Pow2(t));
    }
  }

  lemma AddEven(low: nat, d: nat, h: nat, top: nat)
    requires d > 0 && top == d * (2 * h)
    ensures Quotient(low + top, d) % 2 == Quotient(low, d) % 2
  {
    assert top == (2 * h) * d;
    DropMultiple(low, d, 2 * h);
    EvenAddend(Quotient(low, d), h);
  }

  // How many ones bits b and up of an address register begin with.
  function Ones(w: Csr.Bits, b: nat): (k: nat)
    requires b <= 30
    ensures b + k <= 30
    decreases 30 - b
  {
    if b == 30 || b !in w then 0 else 1 + Ones(w, b + 1)
  }

  lemma HalveQuotient(x: nat, d: nat)
    requires d > 0
    ensures x / d / 2 == x / (2 * d)
  {
    var q, r := x / d, x % d;
    var h, p := q / 2, q % 2;
    assert x == q * d + r;
    assert x == h * (2 * d) + (p * d + r) by { assert q * d == (2 * h + p) * d; }
    assert p * d + r < 2 * d by { assert p == 0 || p == 1; }
    Arithmetic.DivisionUnique(x, 2 * d, h, p * d + r);
  }

  lemma {:induction false} OnesAreTrailing(w: Csr.Bits, b: nat)
    requires b <= 30
    ensures Pmp.TrailingOnes(Above(Csr.Number(w, 30), b), 30 - b) == Ones(w, b)
    decreases 30 - b
  {
    if b < 30 {
      NumberBit(w, 30, b);
      HalveQuotient(Csr.Number(w, 30), Pmp.Pow2(b));
      OnesAreTrailing(w, b + 1);
    }
  }

  lemma {:induction false} BaseIsMultiple(x: nat, m: nat)
    ensures Pmp.Base(x, m) == x / Pmp.Pow2(m) * Pmp.Pow2(m)
  {
    if m > 0 {
      BaseIsMultiple(x / 2, m - 1);
      QuotientOfHalf(x, Pmp.Pow2(m - 1));
    }
  }

  lemma QuotientOfHalf(x: nat, d: nat)
    requires d > 0
    ensures x / 2 / d == x / (2 * d)
  {
    var h := x / 2;
    assert h == h / d * d + h % d;
    assert x == h / d * (2 * d) + (2 * (h % d) + x % 2);
    Arithmetic.DivisionUnique(x, 2 * d, h / d, 2 * (h % d) + x % 2);
  }

  // ---- what an entry covers ----

  // The number in an address register.
  function Bound(c: Csr.Regs, k: nat): nat
    requires Csr.Shaped(c) && k < 16
  {
    Csr.Number(c.pmpaddr[k], 30)
  }

  // Bits 4 and 3 of the configuration byte: off, TOR, NA4, or NAPOT, whose block has 2^(t+3) bytes for
  // t trailing ones in the address register.
  predicate Covered(c: Csr.Regs, k: nat, pa: Word)
    requires Csr.Shaped(c) && k < 16
  {
    var cfg := c.pmpcfg[k];
    if 4 in cfg && 3 in cfg then
      var block := 8 * Pmp.Pow2(Ones(c.pmpaddr[k], 0));
      Quotient(pa, block) == Quotient(4 * Bound(c, k), block)
    else if 4 in cfg then 4 * Bound(c, k) <= pa < 4 * Bound(c, k) + 4
    else if 3 in cfg then (if k == 0 then 0 else 4 * Bound(c, k - 1)) <= pa < 4 * Bound(c, k)
    else false
  }

  // Entry k decides about the address.
  predicate First(c: Csr.Regs, k: nat, pa: Word)
    requires Csr.Shaped(c)
  {
    k < 16 && Covered(c, k, pa) && forall j | 0 <= j < k :: !Covered(c, j, pa)
  }

  lemma CoverIs(c: Csr.Regs, k: nat, pa: Word)
    requires Csr.Shaped(c) && k < 16
    ensures Pmp.Covers(Csr.Entries(c), k, pa) <==> Covered(c, k, pa)
  {
    hide Csr.Number, Ones;
    if 3 in c.pmpcfg[k] && 4 in c.pmpcfg[k] { NapotIs(c, k, pa); }
  }

  lemma NapotIs(c: Csr.Regs, k: nat, pa: Word)
    requires Csr.Shaped(c) && k < 16
    ensures var n, block := Bound(c, k), 8 * Pmp.Pow2(Ones(c.pmpaddr[k], 0));
            var m := Pmp.Granule(n, 30);
            4 * Pmp.Base(n, m) <= pa < 4 * Pmp.Base(n, m) + 4 * Pmp.Pow2(m)
            <==> Quotient(pa, block) == Quotient(4 * n, block)
  {
    var n := Bound(c, k);
    Csr.NumberFits(c.pmpaddr[k], 30);
    OnesAreTrailing(c.pmpaddr[k], 0);
    assert Above(n, 0) == n;
    BlockIs(n, pa);
  }

  // The region the checker masks for is the block of 2^(t+3) bytes.
  lemma BlockIs(n: nat, pa: Word)
    requires n < Pmp.Pow2(30)
    ensures var m, block := Pmp.Granule(n, 30), 8 * Pmp.Pow2(Pmp.TrailingOnes(n, 30));
            4 * Pmp.Base(n, m) <= pa < 4 * Pmp.Base(n, m) + 4 * Pmp.Pow2(m)
            <==> Quotient(pa, block) == Quotient(4 * n, block)
  {
    hide Pmp.Base;
    var t := Pmp.TrailingOnes(n, 30);
    if t < 30 {
      BaseIsMultiple(n, t + 1);
      assert 8 * Pmp.Pow2(t) == 4 * Pmp.Pow2(t + 1);
      SameBlock(n, pa, Pmp.Pow2(t + 1));
    } else {
      WholeSpace(n, pa);
    }
  }

  lemma WholeSpace(n: nat, pa: Word)
    requires n < Pmp.Pow2(30)
    ensures Pmp.Base(n, 30) == 0 && pa < 4 * Pmp.Pow2(30)
    ensures Quotient(pa, 8 * Pmp.Pow2(30)) == Quotient(4 * n, 8 * Pmp.Pow2(30))
  {
    Pmp.PowersOfTwo();
    Pmp.BaseOfSmall(n, 30);
    Arithmetic.DivisionUnique(pa, 8 * Pmp.Pow2(30), 0, pa);
    Arithmetic.DivisionUnique(4 * n, 8 * Pmp.Pow2(30), 0, 4 * n);
  }

  // The block of d words that holds word n, in bytes.
  lemma SameBlock(n: nat, pa: nat, d: nat)
    requires d > 0
    ensures var from := 4 * (n / d * d);
            from <= pa < from + 4 * d <==> Quotient(pa, 4 * d) == Quotient(4 * n, 4 * d)
  {
    var q := n / d;
    assert 4 * n == q * (4 * d) + 4 * (n % d) by { assert n == q * d + n % d; }
    Arithmetic.DivisionUnique(4 * n, 4 * d, q, 4 * (n % d));
    if 4 * (q * d) <= pa < 4 * (q * d) + 4 * d {
      assert pa == q * (4 * d) + (pa - 4 * (q * d));
      Arithmetic.DivisionUnique(pa, 4 * d, q, pa - 4 * (q * d));
    }
  }

  // ---- verdicts ----

  lemma FirstIs(c: Csr.Regs, k: nat, pa: Word)
    requires Csr.Shaped(c)
    ensures Pmp.FirstCovering(Csr.Entries(c), k, pa) <==> First(c, k, pa)
  {
    hide Covered, Pmp.Covers;
    forall j | 0 <= j < 16
      ensures Pmp.Covers(Csr.Entries(c), j, pa) <==> Covered(c, j, pa)
    {
      CoverIs(c, j, pa);
    }
  }

  // The first entry that covers an address decides by one bit of its configuration, except that it
  // does not bind machine mode unless locked.
  lemma FirstDecides(c: Csr.Regs, k: nat, priv: nat, pa: Word)
    requires Csr.Shaped(c) && First(c, k, pa)
    ensures var p, cfg := Csr.Entries(c), c.pmpcfg[k];
            && (Pmp.Faults(p, priv, pa, Pmp.Read) <==> 0 !in cfg && (priv != 3 || 7 in cfg))
            && (Pmp.Faults(p, priv, pa, Pmp.Write) <==> 1 !in cfg && (priv != 3 || 7 in cfg))
            && (Pmp.Faults(p, priv, pa, Pmp.Exec) <==> 2 !in cfg && (priv != 3 || 7 in cfg))
  {
    var p := Csr.Entries(c);
    FirstIs(c, k, pa);
    Csr.EntriesSized(c);
    forall access: Pmp.Access
      ensures Pmp.Faults(p, priv, pa, access) <==> !Pmp.Permits(p[k], priv, access)
    {
      FirstAlone(p, k, priv, pa, access);
    }
  }

  lemma FirstAlone(p: seq<Pmp.Entry>, k: nat, priv: nat, pa: Word, access: Pmp.Access)
    requires Pmp.AllSized(p) && Pmp.FirstCovering(p, k, pa)
    ensures Pmp.Faults(p, priv, pa, access) <==> !Pmp.Permits(p[k], priv, access)
  {
    Pmp.FaultsIsFirstMatch(p, priv, pa, access);
    assert !p[k].mode.Off?;
    forall j | 0 <= j < |p| && Pmp.FirstCovering(p, j, pa)
      ensures j == k
    {
      assert !(j < k) && !(k < j);
    }
  }

  // An address no entry covers is machine mode's alone, once any entry is on.
  lemma NoneDecides(c: Csr.Regs, priv: nat, pa: Word, access: Pmp.Access)
    requires Csr.Shaped(c) && forall j | 0 <= j < 16 :: !Covered(c, j, pa)
    ensures Pmp.Faults(Csr.Entries(c), priv, pa, access) <==>
              priv != 3 && exists j | 0 <= j < 16 :: 3 in c.pmpcfg[j] || 4 in c.pmpcfg[j]
  {
    hide Covered, Pmp.Covers;
    var p := Csr.Entries(c);
    Csr.EntriesSized(c);
    Pmp.FaultsIsFirstMatch(p, priv, pa, access);
    forall j | 0 <= j < 16
      ensures !Pmp.Covers(p, j, pa)
      ensures !p[j].mode.Off? <==> 3 in c.pmpcfg[j] || 4 in c.pmpcfg[j]
    {
      CoverIs(c, j, pa);
    }
    if Pmp.AnyActive(p) {
      var j :| 0 <= j < 16 && !p[j].mode.Off?;
      assert 3 in c.pmpcfg[j] || 4 in c.pmpcfg[j];
    }
  }
}
