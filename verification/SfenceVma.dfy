/**
 SFENCE.VMA as wired in the SoC: the pipelined core, the MMU, and the memory that holds the page tables
 the core's stores edit.
 */
module SfenceVma {
  import opened Rv32
  import opened Pipeline
  import P = PipelineRefinement
  import M = Mmu

  datatype Wired = Wired(p: Pipe, mem: Mem, bus: seq<P.Access>, y: M.Sys)

  datatype Wires = Wires(core: Pipeline.In, mmu: M.In)

  // How page tables come about: which addresses the walker can read, and the root of each address space.
  datatype Layout = Layout(readable: Word -> bool, roots: nat -> nat)

  function WalkRead(g: Layout, mem: Mem, a: Word): M.Load {
    if g.readable(a) then M.Data(ReadWord(mem, a)) else M.BusFault
  }

  // The page tables in memory.
  function OsOf(g: Layout, mem: Mem): M.Os { M.Os((a: Word) => WalkRead(g, mem, a), g.roots) }

  // mmu_sfence_vma.
  predicate Pulse(p: Pipe) { p.wb.InWb? && p.wb.insn.kind.Sfence? && !p.wb.trap }

  predicate NoStores(bus: seq<P.Access>) { forall k | 0 <= k < |bus| :: !bus[k].store }

  // The wiring. The requests on both ports, translation and all latencies are arbitrary; a walk read is
  // answered with what memory holds, unless a store is under way, and satp stays put during a walk.
  predicate Allowed(l: Leaf, g: Layout, w: Wired, i: Wires) {
    && (i.mmu.fence.Fence? <==> Pulse(w.p))
    && (Pulse(w.p) ==> i.mmu.fence.byVa == (w.p.wb.insn.rs1 != 0) && i.mmu.fence.byAsid == (w.p.wb.insn.rs2 != 0))
    && (i.core.memRsp ==> P.Bus(l, w.p, w.bus, i.core) != [])
    && M.Settled(OsOf(g, w.mem), w.y.s.walk, i.mmu.ctx, w.y.asid)
    && (NoStores(P.Bus(l, w.p, w.bus, i.core)) ==> M.HonestPtw(OsOf(g, w.mem), w.y.s.walk, i.mmu.ctx, i.mmu.ptw))
  }

  function Cycle(l: Leaf, w: Wired, i: Wires): (z: Wired)
    requires M.Shaped(w.y.s)
    ensures M.Shaped(z.y.s)
  {
    Wired(Next(l, w.p, i.core), P.MemoryAfter(l, w.p, w.mem, w.bus, i.core), P.BusAfter(l, w.p, w.bus, i.core),
          M.SysStep(w.y, i.mmu))
  }

  function After(l: Leaf, w: Wired, ins: seq<Wires>): (z: Wired)
    requires M.Shaped(w.y.s)
    ensures M.Shaped(z.y.s)
  {
    if ins == [] then w else Cycle(l, After(l, w, ins[..|ins| - 1]), ins[|ins| - 1])
  }

  predicate AllowedRun(l: Leaf, g: Layout, w: Wired, ins: seq<Wires>)
    requires M.Shaped(w.y.s)
  {
    ins == []
    || (AllowedRun(l, g, w, ins[..|ins| - 1]) && Allowed(l, g, After(l, w, ins[..|ins| - 1]), ins[|ins| - 1]))
  }

  predicate NoEscapes(l: Leaf, w: Wired, ins: seq<Wires>)
    requires M.Shaped(w.y.s)
  {
    ins == []
    || (&& NoEscapes(l, w, ins[..|ins| - 1])
        && !P.Escapes(After(l, w, ins[..|ins| - 1]).p, ins[|ins| - 1].core))
  }

  // The core just out of reset; nothing is asked of the MMU.
  predicate Boot(w: Wired) { (exists pc :: w.p == Reset(pc)) && w.bus == [] && M.Shaped(w.y.s) }

  predicate Orderly(l: Leaf, w: Wired) { Spaced(w.p) && SerialAlone(w.p) && P.BusOk(l, w.p, w.bus) }

  lemma OrderlyStep(l: Leaf, g: Layout, w: Wired, i: Wires)
    requires M.Shaped(w.y.s) && Orderly(l, w) && Allowed(l, g, w, i) && !P.Escapes(w.p, i.core)
    ensures Orderly(l, Cycle(l, w, i))
  {
    hide Next, P.BusOk, P.Bus, P.BusAfter, P.MemoryAfter, Spaced, SerialAlone, P.Escapes, M.SysStep, M.HonestPtw,
         M.Settled;
    SpacedStep(l, w.p, i.core);
    SerialAloneStep(l, w.p, i.core);
    P.BusStep(l, w.p, w.bus, i.core);
  }

  lemma {:induction false} RunOrderly(l: Leaf, g: Layout, w: Wired, ins: seq<Wires>)
    requires Boot(w) && AllowedRun(l, g, w, ins) && NoEscapes(l, w, ins)
    ensures Orderly(l, After(l, w, ins))
  {
    hide Orderly, Cycle, Allowed;
    if ins == [] {
      BootOrderly(l, w);
    } else {
      RunOrderly(l, g, w, ins[..|ins| - 1]);
      OrderlyStep(l, g, After(l, w, ins[..|ins| - 1]), ins[|ins| - 1]);
    }
  }

  lemma BootOrderly(l: Leaf, w: Wired)
    requires Boot(w)
    ensures Orderly(l, w)
  {
    var pc :| w.p == Reset(pc);
    P.BootBus(l, pc);
  }

  // ---- SFENCE.VMA on its way ----

  // An SFENCE.VMA goes from ID to WB in three cycles, alone, with nothing under way on the data bus.
  lemma FenceGoesThrough(l: Leaf, p: Pipe, i0: Pipeline.In, i1: Pipeline.In, i2: Pipeline.In)
    requires Spaced(p) && SerialAlone(p) && p.id.InId? && p.id.insn.kind.Sfence? && !p.id.irq && P.Dispatches(p, i0)
    ensures var p1 := Next(l, p, i0);
            var p2 := Next(l, p1, i1);
            var p3 := Next(l, p2, i2);
            && !HasBusOp(p.mem) && !HasBusOp(p1.mem) && !HasBusOp(p2.mem) && !HasBusOp(p3.mem)
            && !WbRedirect(p) && !WbRedirect(p1) && !WbRedirect(p2)
            && p3.wb.InWb? && p3.wb.insn == p.id.insn
  {
    hide NextPc, NextRegs, NextResv, NextDivUnit, HoldMem, OperandA, OperandB;
  }

  lemma NoAccessNoBus(l: Leaf, w: Wired, i: Wires)
    requires Orderly(l, w) && !HasBusOp(w.p.mem)
    ensures P.Bus(l, w.p, w.bus, i.core) == [] && P.MemoryAfter(l, w.p, w.mem, w.bus, i.core) == w.mem
    ensures !P.Escapes(w.p, i.core)
  {
  }

  lemma AfterAppend(l: Leaf, g: Layout, w: Wired, ins: seq<Wires>, i: Wires)
    requires M.Shaped(w.y.s)
    ensures After(l, w, ins + [i]) == Cycle(l, After(l, w, ins), i)
    ensures AllowedRun(l, g, w, ins + [i]) <==> AllowedRun(l, g, w, ins) && Allowed(l, g, After(l, w, ins), i)
  {
    assert (ins + [i])[..|ins|] == ins;
  }

  // A cycle in which MEM has no access to make: the page tables stay, and the walker reads them as they
  // are.
  lemma StillCycle(l: Leaf, g: Layout, was: M.Os, w: Wired, i: Wires)
    requires M.Shaped(w.y.s) && Orderly(l, w) && !HasBusOp(w.p.mem) && Allowed(l, g, w, i)
    requires M.GlobalsShared(OsOf(g, w.mem)) && M.BetweenSound(was, OsOf(g, w.mem), w.y)
    ensures var z := Cycle(l, w, i);
            && Orderly(l, z) && z.mem == w.mem && M.Behaves(OsOf(g, w.mem), w.y, i.mmu)
            && M.BetweenSound(was, OsOf(g, w.mem), z.y)
  {
    hide Next, P.BusOk, P.BusAfter, M.EitherSound, M.OnTrack, M.GlobalsShared, Orderly, M.HonestPtw, M.Settled, M.Next,
         OsOf;
    NoAccessNoBus(l, w, i);
    OrderlyStep(l, g, w, i);
    var now := OsOf(g, w.mem);
    M.EitherSoundStep(was, now, w.y, i.mmu, M.Fetch);
    M.EitherSoundStep(was, now, w.y, i.mmu, M.Dmem);
    M.TrackStep(now, w.y, i.mmu);
    NextSides(w.y, i.mmu);
  }

  lemma NextSides(y: M.Sys, i: M.In)
    requires M.Shaped(y.s)
    ensures M.SysStep(y, i).s.fetch == M.NextSide(y.s, i, M.Fetch)
            && M.SysStep(y, i).s.dmem == M.NextSide(y.s, i, M.Dmem)
  {
  }

  // Take the tables as the core's stores have left them when an SFENCE.VMA leaves ID, and let each TLB
  // entry be sound for those tables or for the tables before the edit. A walk may be under way; it must
  // only not have followed a first-level entry that has been changed since. Then the tables stay as
  // they are until the SFENCE.VMA retires, and if it does not trap and covers the edit, it leaves both
  // TLBs sound for them, and the walker on track, whatever it did meanwhile.
  lemma FenceWithWalkUnderWay(l: Leaf, g: Layout, w0: Wired, ins: seq<Wires>, i0: Wires, i1: Wires, i2: Wires,
                              i3: Wires, was: M.Os, asid: nat, v: Word)
    requires Boot(w0) && NoEscapes(l, w0, ins) && AllowedRun(l, g, w0, ins + [i0] + [i1] + [i2] + [i3])
    requires var p := After(l, w0, ins).p;
             p.id.InId? && p.id.insn.kind.Sfence? && !p.id.irq && P.Dispatches(p, i0.core)
    requires var now := OsOf(g, After(l, w0, ins).mem);
             && M.GlobalsShared(now) && M.BetweenSound(was, now, After(l, w0, ins).y)
             && M.LeafEdit(was, now, asid, v)
    requires i3.mmu.fence.Fence? ==> M.Covers(i3.mmu.fence, asid, v)
    ensures var w, x := After(l, w0, ins), After(l, w0, ins + [i0] + [i1] + [i2]);
            var z := After(l, w0, ins + [i0] + [i1] + [i2] + [i3]);
            && x.p.wb.InWb? && x.p.wb.insn == w.p.id.insn && z.mem == w.mem
            && (!x.p.wb.trap ==> M.SysSound(OsOf(g, z.mem), z.y))
  {
    hide Next, Orderly, Cycle, Allowed, M.BetweenSound, M.GlobalsShared, M.LeafEdit, M.Covers, OsOf, HasBusOp,
         P.Dispatches;
    var w, a, b, c := After(l, w0, ins), ins + [i0], ins + [i0] + [i1], ins + [i0] + [i1] + [i2];
    AfterAppend(l, g, w0, ins, i0);
    AfterAppend(l, g, w0, a, i1);
    AfterAppend(l, g, w0, b, i2);
    AfterAppend(l, g, w0, c, i3);
    RunOrderly(l, g, w0, ins);
    CoreSteps(l, w, i0);
    CoreSteps(l, After(l, w0, a), i1);
    CoreSteps(l, After(l, w0, b), i2);
    OrderlyMeans(l, w);
    FenceGoesThrough(l, w.p, i0.core, i1.core, i2.core);
    StillCycle(l, g, was, w, i0);
    StillCycle(l, g, was, After(l, w0, a), i1);
    StillCycle(l, g, was, After(l, w0, b), i2);
    var x := After(l, w0, c);
    StillCycle(l, g, was, x, i3);
    if !x.p.wb.trap {
      PulseMeansFence(l, g, x, i3);
      M.FenceRestoresSoundness(was, OsOf(g, x.mem), asid, v, x.y, i3.mmu);
      MmuSteps(l, x, i3);
    }
  }

  lemma OrderlyMeans(l: Leaf, w: Wired)
    requires Orderly(l, w)
    ensures Spaced(w.p) && SerialAlone(w.p)
  {
  }

  lemma CoreSteps(l: Leaf, w: Wired, i: Wires)
    requires M.Shaped(w.y.s)
    ensures Cycle(l, w, i).p == Next(l, w.p, i.core)
  {
  }

  lemma MmuSteps(l: Leaf, w: Wired, i: Wires)
    requires M.Shaped(w.y.s)
    ensures Cycle(l, w, i).y == M.SysStep(w.y, i.mmu)
  {
  }

  lemma PulseMeansFence(l: Leaf, g: Layout, w: Wired, i: Wires)
    requires Allowed(l, g, w, i) && w.p.wb.InWb? && w.p.wb.insn.kind.Sfence? && !w.p.wb.trap
    ensures i.mmu.fence.Fence?
  {
  }
}
