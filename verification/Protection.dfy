/**
 The CSR file and the MMU together: what a locked PMP entry guarantees over a whole run.
 */
module Protection {
  import opened Rv32
  import Csr
  import Mmu
  import Pmp
  import PmpRules

  datatype Hart = Hart(csr: Csr.Regs, mmu: Mmu.Regs)

  // Anything the rest of the core may do in a cycle: a CSR instruction, a trap or return, any
  // translation context, fence, request, page-table contents and bus timing.
  datatype In = In(csr: Csr.In, mmu: Mmu.In)

  predicate Shaped(h: Hart) { Csr.Shaped(h.csr) && Mmu.Shaped(h.mmu) }

  // The MMU's PMP inputs are the CSR file's registers.
  function MmuIn(h: Hart, i: In): Mmu.In
    requires Shaped(h)
  {
    i.mmu.(pmp := Csr.Entries(h.csr))
  }

  function Next(h: Hart, i: In): (g: Hart)
    requires Shaped(h)
    ensures Shaped(g)
  {
    Hart(Csr.Next(h.csr, i.csr), Mmu.Next(h.mmu, MmuIn(h, i)))
  }

  function Run(h: Hart, ins: seq<In>): (g: Hart)
    requires Shaped(h)
    ensures Shaped(g)
  {
    if ins == [] then h else Next(Run(h, ins[..|ins| - 1]), ins[|ins| - 1])
  }

  function CsrInputs(ins: seq<In>): seq<Csr.In> {
    if ins == [] then [] else CsrInputs(ins[..|ins| - 1]) + [ins[|ins| - 1].csr]
  }

  lemma {:induction false} RunProjects(h: Hart, ins: seq<In>)
    requires Shaped(h)
    ensures Run(h, ins).csr == Csr.Run(h.csr, CsrInputs(ins))
  {
    hide Csr.Next, Mmu.Next;
    if ins != [] {
      RunProjects(h, ins[..|ins| - 1]);
      var c := CsrInputs(ins);
      assert c[..|c| - 1] == CsrInputs(ins[..|ins| - 1]);
    }
  }

  // Entries 0 to k are locked, entry k is the first to cover every byte from lo up to hi, and it
  // withholds a permission: bit 0 of its configuration is for loads, 1 for stores, 2 for fetches.
  ghost predicate SealedRange(c: Csr.Regs, k: nat, lo: nat, hi: nat, permission: nat)
    requires Csr.Shaped(c)
  {
    && k < 16 && (forall j | 0 <= j <= k :: 7 in c.pmpcfg[j]) && permission !in c.pmpcfg[k]
    && forall pa: Word | lo <= pa < hi :: PmpRules.First(c, k, pa)
  }

  lemma SealedHere(c: Csr.Regs, k: nat, pa: Word, access: Pmp.Access)
    requires Csr.Shaped(c)
    ensures Csr.Sealed(c, k, pa, access) <==>
              && k < 16 && (forall j | 0 <= j <= k :: 7 in c.pmpcfg[j]) && Csr.GrantBit(access) !in c.pmpcfg[k]
              && PmpRules.First(c, k, pa)
  {
    hide PmpRules.First, Pmp.FirstCovering;
    PmpRules.FirstIs(c, k, pa);
  }

  // A sealed range stays sealed.
  lemma SealedRangeStays(c: Csr.Regs, ins: seq<Csr.In>, k: nat, lo: nat, hi: nat, access: Pmp.Access)
    requires Csr.Shaped(c) && SealedRange(c, k, lo, hi, Csr.GrantBit(access))
    ensures SealedRange(Csr.Run(c, ins), k, lo, hi, Csr.GrantBit(access))
  {
    hide PmpRules.First, Csr.Sealed, Csr.Next;
    var d := Csr.Run(c, ins);
    forall j | 0 <= j <= k
      ensures c.pmpcfg[j] == d.pmpcfg[j]
    {
      Csr.LockedForever(c, ins, j);
    }
    forall pa: Word | lo <= pa < hi
      ensures PmpRules.First(d, k, pa)
    {
      SealedHere(c, k, pa, access);
      Csr.SealedForever(c, ins, k, pa, access, Csr.MACHINE);
      SealedHere(d, k, pa, access);
    }
  }

  // What a request asks for.
  function Asked(i: In, side: Mmu.Side): Pmp.Access {
    if side.Fetch? then Pmp.Exec else if i.mmu.dmem.wen then Pmp.Write else Pmp.Read
  }

  // From then on, short of a reset, no access of that kind to the region ever leaves the MMU: not from
  // machine mode, not through any satp, page tables, TLB contents or walk result, and not after any
  // CSR write.
  lemma NoAccessToSealedRange(h: Hart, ins: seq<In>, i: In, side: Mmu.Side, k: nat, lo: nat, hi: nat)
    requires Shaped(h)
    requires SealedRange(h.csr, k, lo, hi, if side.Fetch? then 2 else if i.mmu.dmem.wen then 1 else 0)
    ensures var g := Run(h, ins);
            var out := Mmu.DownstreamOf(g.mmu, MmuIn(g, i), side);
            && SealedRange(g.csr, k, lo, hi, if side.Fetch? then 2 else if i.mmu.dmem.wen then 1 else 0)
            && (out.Request? ==> !(lo <= out.addr < hi) && out.wen == (side.Dmem? && i.mmu.dmem.wen))
  {
    hide Csr.Next, Mmu.Next, Mmu.DownstreamOf, Csr.Sealed, Pmp.Faults, SealedRange;
    var g, access := Run(h, ins), Asked(i, side);
    RunProjects(h, ins);
    SealedRangeStays(h.csr, CsrInputs(ins), k, lo, hi, access);
    var out := Mmu.DownstreamOf(g.mmu, MmuIn(g, i), side);
    if out.Request? {
      Mmu.GateHolds(g.mmu, MmuIn(g, i), side);
      if lo <= out.addr < hi {
        SealedAt(g.csr, k, lo, hi, access, out.addr);
        Csr.SealedFaults(g.csr, k, out.addr, access, Mmu.EffPriv(i.mmu.ctx, side));
      }
    }
  }

  lemma SealedAt(c: Csr.Regs, k: nat, lo: nat, hi: nat, access: Pmp.Access, pa: Word)
    requires Csr.Shaped(c) && SealedRange(c, k, lo, hi, Csr.GrantBit(access)) && lo <= pa < hi
    ensures Csr.Sealed(c, k, pa, access)
  {
    SealedHere(c, k, pa, access);
  }

  // In particular: a region sealed against writes is never stored to again.
  lemma NoStoreIntoSealedRegion(h: Hart, ins: seq<In>, i: In, k: nat, lo: nat, hi: nat)
    requires Shaped(h) && SealedRange(h.csr, k, lo, hi, 1)
    ensures var g := Run(h, ins);
            var out := Mmu.DownstreamOf(g.mmu, MmuIn(g, i), Mmu.Dmem);
            && SealedRange(g.csr, k, lo, hi, 1)
            && (out.Request? && out.wen ==> !(lo <= out.addr < hi))
  {
    hide SealedRange;
    RunProjects(h, ins);
    SealedRangeStays(h.csr, CsrInputs(ins), k, lo, hi, Pmp.Write);
    if i.mmu.dmem.wen {
      NoAccessToSealedRange(h, ins, i, Mmu.Dmem, k, lo, hi);
    } else {
      StoresAsk(Run(h, ins), i);
    }
  }

  lemma StoresAsk(g: Hart, i: In)
    requires Shaped(g) && !i.mmu.dmem.wen
    ensures var out := Mmu.DownstreamOf(g.mmu, MmuIn(g, i), Mmu.Dmem); out.Request? ==> !out.wen
  {
  }
}
