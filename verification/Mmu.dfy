/**
 The Sv32 MMU (rtl/core/mmu.sv): a shared two-level walker, a TLB and a walk-result register per
 side, selective SFENCE, and the PMP gate in front of the bus.
 */
module Mmu {
  import opened Rv32
  import Pmp

  const USER: nat := 0
  const SUPERVISOR: nat := 1
  const MACHINE: nat := 3

  datatype Side = Fetch | Dmem

  // ---- page table entries ----

  datatype Pte = Pte(v: bool, r: bool, w: bool, x: bool, u: bool, g: bool, a: bool, d: bool, ppn0: nat, ppn1: nat)

  function DecodePte(w: Word): (p: Pte)
    ensures p.ppn0 < 1024 && p.ppn1 < 4096
  {
    Pte(w % 2 == 1, w / 2 % 2 == 1, w / 4 % 2 == 1, w / 8 % 2 == 1, w / 16 % 2 == 1, w / 32 % 2 == 1,
        w / 64 % 2 == 1, w / 128 % 2 == 1, w / 1024 % 1024, w / 0x10_0000)
  }

  predicate IsLeaf(p: Pte) { p.r || p.x }

  predicate IsBad(p: Pte) { !p.v || (p.w && !p.r) }

  // Flags as the permission check uses them.
  datatype Flags = Flags(r: bool, w: bool, x: bool, u: bool, a: bool, d: bool)

  function FlagsOf(p: Pte): Flags { Flags(p.r, p.w, p.x, p.u, p.a, p.d) }

  predicate PermOk(priv: nat, side: Side, store: bool, f: Flags, sum: bool, mxr: bool) {
    && (if side.Fetch? then f.x else if store then f.r && f.w else f.r || (mxr && f.x))
    && (if priv == USER then f.u
        else if priv == SUPERVISOR then (if side.Fetch? then !f.u else !f.u || sum)
        else true)
    && f.a && (!store || f.d)
  }

  function Vpn1(va: Word): nat { va / 0x40_0000 }

  function Vpn0(va: Word): nat { va / 0x1000 % 1024 }

  // A 34-bit physical address cut to 32 bits.
  function LargePa(ppn1: nat, va: Word): Word { (ppn1 * 0x40_0000 + va % 0x40_0000) % 0x1_0000_0000 }

  function SmallPa(ppn1: nat, ppn0: nat, va: Word): Word {
    (ppn1 * 0x40_0000 + ppn0 * 0x1000 + va % 0x1000) % 0x1_0000_0000
  }

  // ---- the specification: section 4.3.2 of the Privileged Specification ----

  datatype Load = BusFault | Data(w: Word)

  type PageTables = Word -> Load

  datatype Mapping = Unmapped | Mapped(pte: Pte, level: nat)

  function EntryAddr(root: nat, vpn: nat): Word { (root * 0x1000 + vpn * 4) % 0x1_0000_0000 }

  function VpnAt(va: Word, level: nat): nat { if level == 1 then Vpn1(va) else Vpn0(va) }

  // Step by step from `level` down; a bus fault on the way counts as a fault.
  function Lookup(pt: PageTables, root: nat, va: Word, level: nat): Mapping
    decreases level
  {
    match pt(EntryAddr(root, VpnAt(va, level)))
    case BusFault => Unmapped
    case Data(w) =>
      var p := DecodePte(w);
      if IsBad(p) then Unmapped
      else if IsLeaf(p) then (if level > 0 && p.ppn0 != 0 then Unmapped else Mapped(p, level))
      else if level == 0 then Unmapped
      else Lookup(pt, p.ppn1 * 1024 + p.ppn0, va, level - 1)
  }

  datatype Outcome = PageFault | Pa(pa: Word)

  datatype Mode = Mode(priv: nat, side: Side, store: bool, sum: bool, mxr: bool)

  function PaOf(m: Mapping, va: Word): Word
    requires m.Mapped?
  {
    if m.level == 1 then LargePa(m.pte.ppn1, va) else SmallPa(m.pte.ppn1, m.pte.ppn0, va)
  }

  function Resolve(m: Mapping, va: Word, k: Mode): Outcome {
    if m.Mapped? && PermOk(k.priv, k.side, k.store, FlagsOf(m.pte), k.sum, k.mxr) then Pa(PaOf(m, va)) else PageFault
  }

  function Translate(pt: PageTables, root: nat, va: Word, k: Mode): Outcome {
    Resolve(Lookup(pt, root, va, 1), va, k)
  }

  // ---- registers ----

  datatype Phase = Idle | L1Req | L1Wait | L0Req | L0Wait

  datatype Walk = Walk(phase: Phase, side: Side, store: bool, priv: nat, va: Word, ppn1: nat, ppn0: nat)

  datatype Entry = Entry(valid: bool, large: bool, asid: nat, g: bool, vpn1: nat, vpn0: nat,
                         ppn1: nat, ppn0: nat, flags: Flags)

  datatype Xlate = Xlate(valid: bool, fault: bool, pa: Word, va: Word)

  datatype SideRegs = SideRegs(x: Xlate, tlb: seq<Entry>, repl: nat, pmpPending: bool)

  datatype Regs = Regs(walk: Walk, fetch: SideRegs, dmem: SideRegs)

  datatype Ctx = Ctx(on: bool, asid: nat, root: nat, priv: nat, mprv: bool, mpp: nat, sum: bool, mxr: bool)

  datatype Fence = NoFence | Fence(byVa: bool, va: Word, byAsid: bool, asid: nat)

  // A core-facing request and what the bus behind it says.
  datatype Port = Port(valid: bool, addr: Word, wen: bool, rspReady: bool, dsReady: bool, dsRspValid: bool)

  datatype Ptw = Ptw(ready: bool, rspValid: bool, rsp: Load)

  datatype In = In(ctx: Ctx, fence: Fence, fetch: Port, dmem: Port, ptw: Ptw, pmp: seq<Pmp.Entry>)

  const TLB_N: nat := 4

  const EMPTY := Entry(false, false, 0, false, 0, 0, 0, 0, Flags(false, false, false, false, false, false))

  const SIDE_RESET := SideRegs(Xlate(false, false, 0, 0), seq(TLB_N, _ => EMPTY), 0, false)

  const RESET := Regs(Walk(Idle, Fetch, false, MACHINE, 0, 0, 0), SIDE_RESET, SIDE_RESET)

  predicate ShapedSide(s: SideRegs) { |s.tlb| == TLB_N && s.repl < TLB_N }

  predicate Shaped(s: Regs) { ShapedSide(s.fetch) && ShapedSide(s.dmem) }

  function SideOf(s: Regs, side: Side): SideRegs { if side.Fetch? then s.fetch else s.dmem }

  function PortOf(i: In, side: Side): Port { if side.Fetch? then i.fetch else i.dmem }

  function EffPriv(c: Ctx, side: Side): nat {
    if side.Dmem? && c.priv == MACHINE && c.mprv then c.mpp else c.priv
  }

  predicate Xlates(c: Ctx, side: Side) { c.on && EffPriv(c, side) != MACHINE }

  predicate Stores(p: Port, side: Side) { side.Dmem? && p.wen }

  // ---- TLB lookup ----

  predicate TlbMatch(e: Entry, va: Word, asid: nat) {
    e.valid && (e.g || e.asid == asid) && e.vpn1 == Vpn1(va) && (e.large || e.vpn0 == Vpn0(va))
  }

  datatype Hit = Miss | Hit(e: Entry)

  // The last matching entry wins.
  function TlbHit(tlb: seq<Entry>, va: Word, asid: nat): Hit {
    if tlb == [] then Miss
    else if TlbMatch(tlb[|tlb| - 1], va, asid) then Hit(tlb[|tlb| - 1])
    else TlbHit(tlb[..|tlb| - 1], va, asid)
  }

  function TlbPa(e: Entry, va: Word): Word {
    if e.large then LargePa(e.ppn1, va) else SmallPa(e.ppn1, e.ppn0, va)
  }

  predicate LivePermOk(e: Entry, c: Ctx, side: Side, store: bool) {
    PermOk(EffPriv(c, side), side, store, e.flags, c.sum, c.mxr)
  }

  function HitOf(s: Regs, i: In, side: Side): Hit { TlbHit(SideOf(s, side).tlb, PortOf(i, side).addr, i.ctx.asid) }

  predicate TlbGo(s: Regs, i: In, side: Side) {
    Xlates(i.ctx, side) && HitOf(s, i, side).Hit?
    && LivePermOk(HitOf(s, i, side).e, i.ctx, side, Stores(PortOf(i, side), side))
  }

  predicate TlbDeny(s: Regs, i: In, side: Side) {
    Xlates(i.ctx, side) && HitOf(s, i, side).Hit? && !TlbGo(s, i, side)
  }

  // ---- the walker ----

  predicate SamePage(a: Word, b: Word) { a / 0x1000 == b / 0x1000 }

  predicate NeedsWalk(s: Regs, i: In, side: Side) {
    var p, x := PortOf(i, side), SideOf(s, side).x;
    Xlates(i.ctx, side) && p.valid && HitOf(s, i, side).Miss? && !(x.valid && SamePage(x.va, p.addr))
  }

  function Launch(s: Regs, i: In, side: Side): Walk {
    var p := PortOf(i, side);
    s.walk.(phase := L1Req, side := side, va := p.addr, store := Stores(p, side), priv := EffPriv(i.ctx, side))
  }

  // The PTE read on the walker's memory port.
  function ReadAddr(w: Walk, c: Ctx): Word {
    if w.phase.L1Req? || w.phase.L1Wait? then EntryAddr(c.root, Vpn1(w.va))
    else EntryAddr(w.ppn1 * 1024 + w.ppn0, Vpn0(w.va))
  }

  datatype Result = Busy | Done(fault: bool, pa: Word, fill: Hit)

  function FillOf(w: Walk, c: Ctx, p: Pte, large: bool): Entry {
    Entry(true, large, c.asid, p.g, Vpn1(w.va), if large then 0 else Vpn0(w.va),
          p.ppn1, if large then 0 else p.ppn0, FlagsOf(p))
  }

  // What a PTE response makes of the walk.
  function WalkResult(w: Walk, c: Ctx, r: Ptw, was: Xlate): Result {
    if !r.rspValid || !(w.phase.L1Wait? || w.phase.L0Wait?) then Busy
    else if r.rsp.BusFault? then Done(true, if w.phase.L1Wait? then was.pa else 0, Miss)
    else
      var p := DecodePte(r.rsp.w);
      var ok := PermOk(w.priv, w.side, w.store, FlagsOf(p), c.sum, c.mxr);
      if w.phase.L1Wait? then
        if IsBad(p) then Done(true, was.pa, Miss)
        else if IsLeaf(p) then
          var aligned := p.ppn0 == 0;
          Done(!(aligned && ok), if aligned && ok then LargePa(p.ppn1, w.va) else 0,
               if aligned then Hit(FillOf(w, c, p, true)) else Miss)
        else Busy
      else
        var formed := !IsBad(p) && IsLeaf(p);
        Done(!(formed && ok), if formed && ok then SmallPa(p.ppn1, p.ppn0, w.va) else 0,
             if formed then Hit(FillOf(w, c, p, false)) else Miss)
  }

  function NextWalk(s: Regs, i: In): Walk {
    var w := s.walk;
    match w.phase
    case Idle =>
      if NeedsWalk(s, i, Fetch) then Launch(s, i, Fetch)
      else if NeedsWalk(s, i, Dmem) then Launch(s, i, Dmem)
      else w
    case L1Req => if i.ptw.ready then w.(phase := L1Wait) else w
    case L0Req => if i.ptw.ready then w.(phase := L0Wait) else w
    case L1Wait =>
      if !i.ptw.rspValid then w
      else if WalkResult(w, i.ctx, i.ptw, SideOf(s, w.side).x).Done? then w.(phase := Idle)
      else
        var p := DecodePte(i.ptw.rsp.w);
        w.(phase := L0Req, ppn1 := p.ppn1, ppn0 := p.ppn0)
    case L0Wait => if i.ptw.rspValid then w.(phase := Idle) else w
  }

  function ResultFor(s: Regs, i: In, side: Side): Result {
    if s.walk.side == side then WalkResult(s.walk, i.ctx, i.ptw, SideOf(s, side).x) else Busy
  }

  // ---- forwarding ----

  predicate CacheLive(s: Regs, i: In, side: Side) {
    var p, x := PortOf(i, side), SideOf(s, side).x;
    Xlates(i.ctx, side) && x.valid && (!p.valid || SamePage(x.va, p.addr))
  }

  predicate Forward(s: Regs, i: In, side: Side) { CacheLive(s, i, side) && !SideOf(s, side).x.fault }

  predicate FaultReply(s: Regs, i: In, side: Side) { CacheLive(s, i, side) && SideOf(s, side).x.fault }

  datatype Downstream = Quiet | Request(addr: Word, wen: bool)

  // The request on the bus before the PMP has its say.
  function RawDownstream(s: Regs, i: In, side: Side): Downstream {
    var p := PortOf(i, side);
    if !p.valid then Quiet
    else if !Xlates(i.ctx, side) then Request(p.addr, Stores(p, side))
    else if TlbGo(s, i, side) then Request(TlbPa(HitOf(s, i, side).e, p.addr), Stores(p, side))
    else if TlbDeny(s, i, side) then Quiet
    else if Forward(s, i, side) then Request(SideOf(s, side).x.pa, Stores(p, side))
    else Quiet
  }

  datatype PmpProbe = Inactive | Active(addr: Word)

  // The address the PMP checker is given.
  function Probe(s: Regs, i: In, side: Side): PmpProbe {
    var p, x := PortOf(i, side), SideOf(s, side).x;
    if !p.valid then Inactive
    else if !Xlates(i.ctx, side) then Active(p.addr)
    else if TlbGo(s, i, side) then Active(TlbPa(HitOf(s, i, side).e, p.addr))
    else if x.valid && !x.fault && SamePage(x.va, p.addr) then Active(x.pa)
    else Inactive
  }

  function AccessOf(p: Port, side: Side): Pmp.Access {
    if side.Fetch? then Pmp.Exec else if p.wen then Pmp.Write else Pmp.Read
  }

  predicate PmpKills(s: Regs, i: In, side: Side) {
    Probe(s, i, side).Active?
    && Pmp.Faults(i.pmp, EffPriv(i.ctx, side), Probe(s, i, side).addr, AccessOf(PortOf(i, side), side))
  }

  function DownstreamOf(s: Regs, i: In, side: Side): Downstream {
    if PmpKills(s, i, side) || SideOf(s, side).pmpPending then Quiet else RawDownstream(s, i, side)
  }

  // ---- next state of a side ----

  function NextXlate(s: Regs, i: In, side: Side): Xlate {
    var p, x := PortOf(i, side), SideOf(s, side).x;
    var go, deny := TlbGo(s, i, side), TlbDeny(s, i, side);
    var walked := match ResultFor(s, i, side)
                  case Busy => x
                  case Done(fault, pa, _) => Xlate(true, fault, pa, s.walk.va);
    var rspFire := go && p.dsRspValid && p.rspReady;
    var denyFire := deny && p.valid && p.rspReady;
    var stuffed :=
      if go && p.valid && p.dsReady && !rspFire && !x.valid
      then Xlate(true, false, TlbPa(HitOf(s, i, side).e, p.addr), p.addr)
      else if deny && p.valid && !denyFire && !x.valid then walked.(valid := true, fault := true, va := p.addr)
      else walked;
    if (Forward(s, i, side) && p.dsRspValid && p.rspReady) || (FaultReply(s, i, side) && p.rspReady)
       || rspFire || denyFire
    then stuffed.(valid := false, fault := false)
    else stuffed
  }

  predicate FenceHits(f: Fence, e: Entry)
    requires f.Fence?
  {
    && (f.byVa ==> e.vpn1 == Vpn1(f.va) && (e.large || e.vpn0 == Vpn0(f.va)))
    && (f.byAsid ==> !e.g && e.asid == f.asid)
  }

  // A fill writes the entry at the replacement pointer; a fence clears the valid bit of every entry
  // whose old contents it names, over a fill of the same entry in the same cycle.
  function NextTlb(tlb: seq<Entry>, repl: nat, fill: Hit, f: Fence): (t: seq<Entry>)
    requires repl < |tlb|
    ensures |t| == |tlb|
  {
    seq(|tlb|, k requires 0 <= k < |tlb| =>
      var e := if fill.Hit? && k == repl then fill.e else tlb[k];
      if f.Fence? && FenceHits(f, tlb[k]) then e.(valid := false) else e)
  }

  function FillFor(s: Regs, i: In, side: Side): Hit {
    match ResultFor(s, i, side) case Busy => Miss case Done(_, _, fill) => fill
  }

  function NextSide(s: Regs, i: In, side: Side): (t: SideRegs)
    requires Shaped(s)
    ensures ShapedSide(t)
  {
    var r, p := SideOf(s, side), PortOf(i, side);
    var kill := PmpKills(s, i, side);
    SideRegs(NextXlate(s, i, side),
             NextTlb(r.tlb, r.repl, FillFor(s, i, side), i.fence),
             if FillFor(s, i, side).Hit? then (r.repl + 1) % TLB_N else r.repl,
             if kill && !p.rspReady then true else r.pmpPending && !p.rspReady)
  }

  function Next(s: Regs, i: In): (t: Regs)
    requires Shaped(s)
    ensures Shaped(t)
  {
    Regs(NextWalk(s, i), NextSide(s, i, Fetch), NextSide(s, i, Dmem))
  }

  // ---- the PMP gate ----

  // Whatever is in the registers: the address the checker judged is the address on the bus, so
  // nothing the PMP forbids leaves the MMU.
  lemma GateHolds(s: Regs, i: In, side: Side)
    requires DownstreamOf(s, i, side).Request?
    ensures Probe(s, i, side) == Active(DownstreamOf(s, i, side).addr)
    ensures !Pmp.Faults(i.pmp, EffPriv(i.ctx, side), DownstreamOf(s, i, side).addr, AccessOf(PortOf(i, side), side))
    ensures DownstreamOf(s, i, side).wen == (side.Dmem? && i.dmem.wen)
    ensures AccessOf(PortOf(i, side), side)
            == if side.Fetch? then Pmp.Exec else if i.dmem.wen then Pmp.Write else Pmp.Read
  {
  }

  // ---- the walker against the specification ----

  // An operating system's view: page tables that do not change, a root table per address space, and
  // global pages mapped alike everywhere.
  datatype Os = Os(pt: PageTables, roots: nat -> nat)

  function MappingIn(os: Os, asid: nat, va: Word): Mapping { Lookup(os.pt, os.roots(asid), va, 1) }

  predicate GlobalIn(os: Os, asid: nat, va: Word) {
    MappingIn(os, asid, va).Mapped? && MappingIn(os, asid, va).pte.g
  }

  ghost predicate GlobalsShared(os: Os) {
    forall a: nat, b: nat, va: Word | GlobalIn(os, a, va) :: MappingIn(os, b, va) == MappingIn(os, a, va)
  }

  // A walk in progress for address space `asid` has followed the tables so far.
  predicate OnTrack(os: Os, w: Walk, asid: nat) {
    w.phase.L0Req? || w.phase.L0Wait? ==>
      MappingIn(os, asid, w.va) == Lookup(os.pt, w.ppn1 * 1024 + w.ppn0, w.va, 0)
  }

  // The PTE port answers with what is in memory.
  predicate HonestPtw(os: Os, w: Walk, c: Ctx, r: Ptw) {
    r.rspValid && (w.phase.L1Wait? || w.phase.L0Wait?) ==> r.rsp == os.pt(ReadAddr(w, c))
  }

  predicate Settled(os: Os, w: Walk, c: Ctx, asid: nat) {
    c.root == os.roots(c.asid) && (!w.phase.Idle? ==> c.asid == asid)
  }

  function ModeOf(w: Walk, c: Ctx): Mode { Mode(w.priv, w.side, w.store, c.sum, c.mxr) }

  // A finished walk has exactly the specified outcome, and its fill is the mapping it found.
  lemma WalkFinishes(os: Os, w: Walk, c: Ctx, r: Ptw, was: Xlate, asid: nat)
    requires OnTrack(os, w, asid) && HonestPtw(os, w, c, r) && Settled(os, w, c, asid)
    requires WalkResult(w, c, r, was).Done?
    ensures var d := WalkResult(w, c, r, was);
            && Translate(os.pt, os.roots(asid), w.va, ModeOf(w, c)) == (if d.fault then PageFault else Pa(d.pa))
            && d.fill == match MappingIn(os, asid, w.va)
                         case Unmapped => Miss
                         case Mapped(p, level) => Hit(FillOf(w, c, p, level == 1))
  {
  }

  lemma WalkAdvances(os: Os, s: Regs, i: In, asid: nat)
    requires !s.walk.phase.Idle?
    requires OnTrack(os, s.walk, asid) && HonestPtw(os, s.walk, i.ctx, i.ptw) && Settled(os, s.walk, i.ctx, asid)
    ensures OnTrack(os, NextWalk(s, i), asid)
  {
    hide PermOk, FillOf, LargePa, SmallPa, NeedsWalk, Launch;
  }

  // Reads still to come, and response or acceptance cycles to wait for, at most.
  function Remaining(w: Walk): nat {
    match w.phase case Idle => 0 case L0Wait => 1 case L0Req => 2 case L1Wait => 3 case L1Req => 4
  }

  predicate Granted(w: Walk, r: Ptw) {
    if w.phase.L1Req? || w.phase.L0Req? then r.ready else r.rspValid
  }

  // The walker over a whole run: the MMU's state, the reads it has made since the walk was launched,
  // the cycles its port was granted, and the outcome, with the CSR state it was judged by, once finished.
  datatype Tour = Tour(s: Regs, asked: seq<Word>, granted: nat, outcome: Result, live: Ctx)

  function TourStep(t: Tour, i: In): Tour
    requires Shaped(t.s)
  {
    var w := t.s.walk;
    if w.phase.Idle? then t
    else
      Tour(Next(t.s, i),
           if (w.phase.L1Req? || w.phase.L0Req?) && i.ptw.ready then t.asked + [ReadAddr(w, i.ctx)] else t.asked,
           if Granted(w, i.ptw) then t.granted + 1 else t.granted,
           WalkResult(w, i.ctx, i.ptw, SideOf(t.s, w.side).x), i.ctx)
  }

  function TourRun(s: Regs, c: Ctx, ins: seq<In>): (t: Tour)
    requires Shaped(s)
    ensures Shaped(t.s)
  {
    if ins == [] then Tour(s, [], 0, Busy, c) else TourStep(TourRun(s, c, ins[..|ins| - 1]), ins[|ins| - 1])
  }

  // The tables are honest and satp does not move while the walk runs.
  predicate Undisturbed(os: Os, asid: nat, s: Regs, c: Ctx, ins: seq<In>)
    requires Shaped(s)
  {
    ins == []
    || (&& Undisturbed(os, asid, s, c, ins[..|ins| - 1])
        && var w, i := TourRun(s, c, ins[..|ins| - 1]).s.walk, ins[|ins| - 1];
           HonestPtw(os, w, i.ctx, i.ptw) && Settled(os, w, i.ctx, asid))
  }

  predicate TourOk(os: Os, asid: nat, start: Walk, t: Tour) {
    var w := t.s.walk;
    && w.va == start.va && OnTrack(os, w, asid)
    && t.granted + Remaining(w) <= 4
    && |t.asked| <= (match w.phase case L1Req => 0 case L1Wait => 1 case L0Req => 1 case L0Wait => 2 case Idle => 2)
    && (w.phase.Idle? <==> t.outcome.Done?)
    && w.side == start.side && w.store == start.store && w.priv == start.priv
    && (t.outcome.Done? ==>
          Translate(os.pt, os.roots(asid), start.va, Mode(start.priv, start.side, start.store, t.live.sum, t.live.mxr))
          == if t.outcome.fault then PageFault else Pa(t.outcome.pa))
  }

  // From launch, for any tables and any latency: at most two PTE reads and four granted cycles, then
  // exactly the specified physical address or fault.
  lemma {:induction false} WalkerMeetsSpec(os: Os, asid: nat, s: Regs, c: Ctx, ins: seq<In>)
    requires Shaped(s) && s.walk.phase.L1Req? && Undisturbed(os, asid, s, c, ins)
    ensures TourOk(os, asid, s.walk, TourRun(s, c, ins))
  {
    if ins != [] {
      var before := ins[..|ins| - 1];
      WalkerMeetsSpec(os, asid, s, c, before);
      TourStepOk(os, asid, s.walk, TourRun(s, c, before), ins[|ins| - 1]);
    }
  }

  lemma TourStepOk(os: Os, asid: nat, start: Walk, t: Tour, i: In)
    requires Shaped(t.s) && TourOk(os, asid, start, t)
    requires HonestPtw(os, t.s.walk, i.ctx, i.ptw) && Settled(os, t.s.walk, i.ctx, asid)
    ensures TourOk(os, asid, start, TourStep(t, i))
  {
    hide NextSide;
    var w := t.s.walk;
    if !w.phase.Idle? {
      WalkAdvances(os, t.s, i, asid);
      if WalkResult(w, i.ctx, i.ptw, SideOf(t.s, w.side).x).Done? {
        WalkFinishes(os, w, i.ctx, i.ptw, SideOf(t.s, w.side).x, asid);
      }
    }
  }

  // ---- TLB soundness ----

  predicate Agrees(os: Os, e: Entry, va: Word, asid: nat) {
    var m := MappingIn(os, asid, va);
    && m.Mapped? && (m.level == 1 <==> e.large) && m.pte.g == e.g && FlagsOf(m.pte) == e.flags
    && m.pte.ppn1 == e.ppn1 && (!e.large ==> m.pte.ppn0 == e.ppn0)
  }

  ghost predicate EntrySound(os: Os, e: Entry) {
    forall va: Word, asid: nat | TlbMatch(e, va, asid) :: Agrees(os, e, va, asid)
  }

  ghost predicate TlbSound(os: Os, tlb: seq<Entry>) { forall k | 0 <= k < |tlb| :: EntrySound(os, tlb[k]) }

  lemma LookupByVpn(pt: PageTables, root: nat, a: Word, b: Word)
    requires Vpn1(a) == Vpn1(b)
    ensures Lookup(pt, root, a, 1).Mapped? && Lookup(pt, root, a, 1).level == 1 ==>
              Lookup(pt, root, b, 1) == Lookup(pt, root, a, 1)
    ensures Vpn0(a) == Vpn0(b) ==> Lookup(pt, root, b, 1) == Lookup(pt, root, a, 1)
  {
    var l := pt(EntryAddr(root, VpnAt(a, 1)));
    if l.Data? {
      var p := DecodePte(l.w);
      assert Vpn0(a) == Vpn0(b) ==>
               Lookup(pt, p.ppn1 * 1024 + p.ppn0, a, 0) == Lookup(pt, p.ppn1 * 1024 + p.ppn0, b, 0);
    }
  }

  // What a finished walk puts into the TLB is sound for every address and address space it matches.
  lemma FillSound(os: Os, w: Walk, c: Ctx, p: Pte, level: nat)
    requires GlobalsShared(os) && MappingIn(os, c.asid, w.va) == Mapped(p, level) && level <= 1
    ensures EntrySound(os, FillOf(w, c, p, level == 1))
  {
    var e := FillOf(w, c, p, level == 1);
    forall va: Word, asid: nat | TlbMatch(e, va, asid)
      ensures Agrees(os, e, va, asid)
    {
      LookupByVpn(os.pt, os.roots(c.asid), w.va, va);
      assert asid != c.asid ==> GlobalIn(os, c.asid, va);
    }
  }

  // The MMU together with the address space its walk, if any, was launched in.
  datatype Sys = Sys(s: Regs, asid: nat)

  function SysStep(y: Sys, i: In): Sys
    requires Shaped(y.s)
  {
    Sys(Next(y.s, i), if y.s.walk.phase.Idle? then i.ctx.asid else y.asid)
  }

  function SysRun(y: Sys, ins: seq<In>): (z: Sys)
    requires Shaped(y.s)
    ensures Shaped(z.s)
  {
    if ins == [] then y else SysStep(SysRun(y, ins[..|ins| - 1]), ins[|ins| - 1])
  }

  predicate Behaves(os: Os, y: Sys, i: In) {
    HonestPtw(os, y.s.walk, i.ctx, i.ptw) && Settled(os, y.s.walk, i.ctx, y.asid)
  }

  // A well-behaved operating system: each address space keeps its root, satp stays put during a walk,
  // and the tables are those of `os` throughout.
  predicate WellBehaved(os: Os, y: Sys, ins: seq<In>)
    requires Shaped(y.s)
  {
    ins == []
    || (WellBehaved(os, y, ins[..|ins| - 1]) && Behaves(os, SysRun(y, ins[..|ins| - 1]), ins[|ins| - 1]))
  }

  ghost predicate SysSound(os: Os, y: Sys) {
    OnTrack(os, y.s.walk, y.asid) && TlbSound(os, y.s.fetch.tlb) && TlbSound(os, y.s.dmem.tlb)
  }

  lemma LevelAtMostOne(pt: PageTables, root: nat, va: Word)
    ensures Lookup(pt, root, va, 1).Mapped? ==> Lookup(pt, root, va, 1).level <= 1
  {
  }

  lemma SideSoundStep(os: Os, y: Sys, i: In, side: Side)
    requires GlobalsShared(os) && Shaped(y.s) && SysSound(os, y) && Behaves(os, y, i)
    ensures TlbSound(os, NextSide(y.s, i, side).tlb)
  {
    hide NextXlate, PmpKills, MappingIn, GlobalsShared, Lookup, FillOf, Agrees, TlbMatch;
    var r, fill := SideOf(y.s, side), FillFor(y.s, i, side);
    FillIsSound(os, y, i, side);
    var t := NextTlb(r.tlb, r.repl, fill, i.fence);
    forall k | 0 <= k < |t|
      ensures EntrySound(os, t[k])
    {
      var e := if fill.Hit? && k == r.repl then fill.e else r.tlb[k];
      assert EntrySound(os, e);
      if t[k] != e { InvalidIsSound(os, t[k]); }
    }
  }

  lemma InvalidIsSound(os: Os, e: Entry)
    requires !e.valid
    ensures EntrySound(os, e)
  {
  }

  lemma FillIsSound(os: Os, y: Sys, i: In, side: Side)
    requires GlobalsShared(os) && OnTrack(os, y.s.walk, y.asid) && Behaves(os, y, i)
    ensures FillFor(y.s, i, side).Hit? ==> EntrySound(os, FillFor(y.s, i, side).e)
  {
    var w := y.s.walk;
    if FillFor(y.s, i, side).Hit? {
      WalkFinishes(os, w, i.ctx, i.ptw, SideOf(y.s, side).x, y.asid);
      LevelAtMostOne(os.pt, os.roots(y.asid), w.va);
      match MappingIn(os, y.asid, w.va)
      case Mapped(p, level) => FillSound(os, w, i.ctx, p, level);
    }
  }

  lemma SysSoundStep(os: Os, y: Sys, i: In)
    requires GlobalsShared(os) && Shaped(y.s) && SysSound(os, y) && Behaves(os, y, i)
    ensures SysSound(os, SysStep(y, i))
  {
    hide NextSide, GlobalsShared;
    SideSoundStep(os, y, i, Fetch);
    SideSoundStep(os, y, i, Dmem);
    if !y.s.walk.phase.Idle? { WalkAdvances(os, y.s, i, y.asid); }
  }

  lemma {:induction false} SysAlwaysSound(os: Os, y: Sys, ins: seq<In>)
    requires GlobalsShared(os) && Shaped(y.s) && SysSound(os, y) && WellBehaved(os, y, ins)
    ensures SysSound(os, SysRun(y, ins))
  {
    if ins != [] {
      SysAlwaysSound(os, y, ins[..|ins| - 1]);
      SysSoundStep(os, SysRun(y, ins[..|ins| - 1]), ins[|ins| - 1]);
    }
  }

  lemma ResetSound(os: Os, asid: nat)
    ensures Shaped(RESET) && SysSound(os, Sys(RESET, asid))
  {
  }

  // Whichever entry matches, it gives the physical address and the verdict of a fresh walk.
  lemma MatchIsFreshWalk(os: Os, e: Entry, va: Word, asid: nat, k: Mode)
    requires EntrySound(os, e) && TlbMatch(e, va, asid)
    ensures Translate(os.pt, os.roots(asid), va, k)
            == if PermOk(k.priv, k.side, k.store, e.flags, k.sum, k.mxr) then Pa(TlbPa(e, va)) else PageFault
  {
    assert Agrees(os, e, va, asid);
  }

  lemma {:induction false} HitMatches(tlb: seq<Entry>, va: Word, asid: nat)
    ensures TlbHit(tlb, va, asid).Hit? <==> exists k | 0 <= k < |tlb| :: TlbMatch(tlb[k], va, asid)
    ensures TlbHit(tlb, va, asid).Hit? ==> exists k | 0 <= k < |tlb| ::
              && TlbHit(tlb, va, asid).e == tlb[k] && TlbMatch(tlb[k], va, asid)
              && forall j | k < j < |tlb| :: !TlbMatch(tlb[j], va, asid)
  {
    if tlb != [] && !TlbMatch(tlb[|tlb| - 1], va, asid) {
      var rest := tlb[..|tlb| - 1];
      HitMatches(rest, va, asid);
      forall k | 0 <= k < |rest|
        ensures rest[k] == tlb[k]
      {
      }
      if TlbHit(rest, va, asid).Hit? {
        var k :| 0 <= k < |rest| && TlbHit(rest, va, asid).e == rest[k] && TlbMatch(rest[k], va, asid)
                 && forall j | k < j < |rest| :: !TlbMatch(rest[j], va, asid);
        assert TlbMatch(tlb[k], va, asid);
      }
    }
  }

  function LiveMode(i: In, side: Side): Mode {
    Mode(EffPriv(i.ctx, side), side, Stores(PortOf(i, side), side), i.ctx.sum, i.ctx.mxr)
  }

  // What the bus sees of a translated request, by the specification.
  function SpecDownstream(o: Outcome, p: Port, side: Side): Downstream {
    if p.valid && o.Pa? then Request(o.pa, Stores(p, side)) else Quiet
  }

  lemma HitIsFreshWalk(os: Os, y: Sys, i: In, side: Side)
    requires SysSound(os, y) && i.ctx.root == os.roots(i.ctx.asid) && Xlates(i.ctx, side)
    requires HitOf(y.s, i, side).Hit?
    ensures var va := PortOf(i, side).addr;
            var o := Translate(os.pt, i.ctx.root, va, LiveMode(i, side));
            && o == (if TlbGo(y.s, i, side) then Pa(TlbPa(HitOf(y.s, i, side).e, va)) else PageFault)
            && RawDownstream(y.s, i, side) == SpecDownstream(o, PortOf(i, side), side)
  {
    hide MappingIn, Resolve;
    var va := PortOf(i, side).addr;
    HitMatches(SideOf(y.s, side).tlb, va, i.ctx.asid);
    MatchIsFreshWalk(os, HitOf(y.s, i, side).e, va, i.ctx.asid, LiveMode(i, side));
  }

  // Over every run of fills, evictions, fences and address-space switches from reset: a request that
  // hits goes to the bus with exactly the physical address, or is denied exactly when, a fresh walk
  // would say so under the live privilege, SUM and MXR.
  lemma TlbHitsAreFreshWalks(os: Os, asid: nat, ins: seq<In>, i: In, side: Side)
    requires GlobalsShared(os) && WellBehaved(os, Sys(RESET, asid), ins)
    requires i.ctx.root == os.roots(i.ctx.asid) && Xlates(i.ctx, side)
    requires HitOf(SysRun(Sys(RESET, asid), ins).s, i, side).Hit?
    ensures var s := SysRun(Sys(RESET, asid), ins).s;
            var o := Translate(os.pt, i.ctx.root, PortOf(i, side).addr, LiveMode(i, side));
            RawDownstream(s, i, side) == SpecDownstream(o, PortOf(i, side), side)
  {
    hide NextSide, NextWalk, MappingIn, Resolve;
    ResetSound(os, asid);
    SysAlwaysSound(os, Sys(RESET, asid), ins);
    HitIsFreshWalk(os, SysRun(Sys(RESET, asid), ins), i, side);
  }

  lemma DoneNeedsWalk(w: Walk, c: Ctx, r: Ptw, was: Xlate)
    ensures WalkResult(w, c, r, was).Done? ==> !w.phase.Idle?
  {
  }

  // And a request that misses: in the cycle after its walk ends, if it is still being presented in the
  // same context, the bus sees the specified address, or nothing if the walk found a fault.
  lemma MissIsServed(os: Os, y: Sys, i: In, j: In, side: Side)
    requires GlobalsShared(os) && Shaped(y.s) && SysSound(os, y) && Behaves(os, y, i)
    requires ResultFor(y.s, i, side).Done? && NeedsWalk(y.s, i, side) && PortOf(i, side).addr == y.s.walk.va
    requires j.ctx == i.ctx && PortOf(j, side).valid && PortOf(j, side).addr == y.s.walk.va
    requires LiveMode(j, side) == ModeOf(y.s.walk, i.ctx)
    ensures var o := Translate(os.pt, j.ctx.root, y.s.walk.va, LiveMode(j, side));
            RawDownstream(Next(y.s, i), j, side) == SpecDownstream(o, PortOf(j, side), side)
  {
    hide NextWalk, WalkResult, GlobalsShared, MappingIn, Resolve, PmpKills;
    var w := y.s.walk;
    SysSoundStep(os, y, i);
    WalkFinishes(os, w, i.ctx, i.ptw, SideOf(y.s, side).x, y.asid);
    DoneNeedsWalk(w, i.ctx, i.ptw, SideOf(y.s, side).x);
    var d := ResultFor(y.s, i, side);
    assert SideOf(Next(y.s, i), side).x == Xlate(true, d.fault, d.pa, w.va);
    if HitOf(Next(y.s, i), j, side).Hit? {
      HitIsFreshWalk(os, SysStep(y, i), j, side);
    }
  }

  // ---- SFENCE.VMA ----

  // The addresses the leaf that maps v in this address space maps: a 4 MiB region or one page.
  predicate InLeaf(os: Os, asid: nat, v: Word, va: Word) {
    var m := MappingIn(os, asid, v);
    Vpn1(va) == Vpn1(v) && (Vpn0(va) == Vpn0(v) || (m.Mapped? && m.level == 1))
  }

  // `after` is `before` with the non-global leaf for v in this address space edited, and nothing else.
  ghost predicate LeafEdit(before: Os, after: Os, asid: nat, v: Word) {
    && !GlobalIn(before, asid, v)
    && forall va: Word, b: nat | !(b == asid && InLeaf(before, asid, v, va)) ::
         MappingIn(after, b, va) == MappingIn(before, b, va)
  }

  predicate Covers(f: Fence, asid: nat, v: Word) {
    f.Fence? && (f.byVa ==> Vpn1(f.va) == Vpn1(v) && Vpn0(f.va) == Vpn0(v)) && (f.byAsid ==> f.asid == asid)
  }

  lemma StaleIsFenced(before: Os, after: Os, asid: nat, v: Word, f: Fence, e: Entry)
    requires EntrySound(before, e) && LeafEdit(before, after, asid, v) && Covers(f, asid, v) && !FenceHits(f, e)
    ensures EntrySound(after, e)
  {
    forall va: Word, b: nat | TlbMatch(e, va, b)
      ensures Agrees(after, e, va, b)
    {
      assert Agrees(before, e, va, b);
      if b == asid && InLeaf(before, asid, v, va) {
        LookupByVpn(before.pt, before.roots(asid), v, va);
        assert e.vpn1 == Vpn1(v) && !e.g;
        assert FenceHits(f, e);
      }
    }
  }

  // Between an edit and its fence a TLB may hold entries of either kind.
  ghost predicate EitherSound(before: Os, after: Os, tlb: seq<Entry>) {
    forall k | 0 <= k < |tlb| :: EntrySound(before, tlb[k]) || EntrySound(after, tlb[k])
  }

  ghost predicate BetweenSound(before: Os, after: Os, y: Sys) {
    && OnTrack(after, y.s.walk, y.asid)
    && EitherSound(before, after, y.s.fetch.tlb) && EitherSound(before, after, y.s.dmem.tlb)
  }

  lemma EitherSoundStep(before: Os, after: Os, y: Sys, i: In, side: Side)
    requires GlobalsShared(after) && Shaped(y.s) && BetweenSound(before, after, y) && Behaves(after, y, i)
    ensures EitherSound(before, after, NextSide(y.s, i, side).tlb)
  {
    hide NextXlate, PmpKills, MappingIn, GlobalsShared, Lookup, FillOf, Agrees, TlbMatch, EntrySound, FenceHits;
    var r, fill := SideOf(y.s, side), FillFor(y.s, i, side);
    FillIsSound(after, y, i, side);
    var t := NextTlb(r.tlb, r.repl, fill, i.fence);
    forall k | 0 <= k < |t|
      ensures EntrySound(before, t[k]) || EntrySound(after, t[k])
    {
      var e := if fill.Hit? && k == r.repl then fill.e else r.tlb[k];
      if t[k] != e { InvalidIsSound(after, t[k]); }
    }
  }

  lemma {:induction false} BetweenSoundRun(before: Os, after: Os, y: Sys, ins: seq<In>)
    requires GlobalsShared(after) && Shaped(y.s) && BetweenSound(before, after, y) && WellBehaved(after, y, ins)
    ensures BetweenSound(before, after, SysRun(y, ins))
  {
    hide NextSide, GlobalsShared, EitherSound, NextWalk;
    if ins != [] {
      var z, i := SysRun(y, ins[..|ins| - 1]), ins[|ins| - 1];
      BetweenSoundRun(before, after, y, ins[..|ins| - 1]);
      EitherSoundStep(before, after, z, i, Fetch);
      EitherSoundStep(before, after, z, i, Dmem);
      TrackStep(after, z, i);
    }
  }

  lemma TrackStep(os: Os, y: Sys, i: In)
    requires Shaped(y.s) && OnTrack(os, y.s.walk, y.asid) && Behaves(os, y, i)
    ensures OnTrack(os, SysStep(y, i).s.walk, SysStep(y, i).asid)
  {
    hide NextSide;
    if !y.s.walk.phase.Idle? { WalkAdvances(os, y.s, i, y.asid); }
  }

  lemma IdleStaysOnTrack(os: Os, y: Sys, i: In)
    requires Shaped(y.s) && y.s.walk.phase.Idle?
    ensures OnTrack(os, SysStep(y, i).s.walk, SysStep(y, i).asid)
  {
    hide NextSide;
  }

  lemma IdleFillsNothing(s: Regs, i: In, side: Side)
    requires s.walk.phase.Idle?
    ensures FillFor(s, i, side).Miss?
  {
  }

  // After an edit to the leaf mapping v in an address space, any of the four forms that covers v and
  // that address space leaves both TLBs sound for the edited tables, and the walker on track, though a
  // walk be under way and end in this very cycle: it must only have read the edited tables.
  lemma FenceRestoresSoundness(before: Os, after: Os, asid: nat, v: Word, y: Sys, i: In)
    requires Shaped(y.s) && BetweenSound(before, after, y)
    requires y.s.walk.phase.Idle? || (GlobalsShared(after) && Behaves(after, y, i))
    requires LeafEdit(before, after, asid, v) && Covers(i.fence, asid, v)
    ensures SysSound(after, SysStep(y, i))
  {
    hide NextXlate, PmpKills, EntrySound, FenceHits, LeafEdit, GlobalsShared, OnTrack, FillOf, WalkResult;
    if y.s.walk.phase.Idle? { IdleStaysOnTrack(after, y, i); } else { TrackStep(after, y, i); }
    forall side: Side, k | 0 <= k < TLB_N
      ensures EntrySound(after, SideOf(Next(y.s, i), side).tlb[k])
    {
      if y.s.walk.phase.Idle? { IdleFillsNothing(y.s, i, side); } else { FillIsSound(after, y, i, side); }
      var fill := FillFor(y.s, i, side);
      var was := SideOf(y.s, side).tlb[k];
      var e := if fill.Hit? && k == SideOf(y.s, side).repl then fill.e else was;
      if FenceHits(i.fence, was) {
        InvalidIsSound(after, e.(valid := false));
      } else if EntrySound(before, was) {
        StaleIsFenced(before, after, asid, v, i.fence, was);
      }
    }
    var t := Next(y.s, i);
    assert t.fetch == SideOf(t, Fetch) && t.dmem == SideOf(t, Dmem);
  }

  // Edit, go on for a while, fence, carry on: the hits of any well-behaved run after the fence are
  // fresh walks of the edited tables.
  lemma HitsAfterFencedEdit(before: Os, after: Os, asid: nat, v: Word, y: Sys, wait: seq<In>, fence: In, ins: seq<In>,
                            i: In, side: Side)
    requires GlobalsShared(after) && Shaped(y.s) && BetweenSound(before, after, y)
    requires LeafEdit(before, after, asid, v) && Covers(fence.fence, asid, v)
    requires WellBehaved(after, y, wait) && Behaves(after, SysRun(y, wait), fence)
    requires WellBehaved(after, SysStep(SysRun(y, wait), fence), ins)
    requires i.ctx.root == after.roots(i.ctx.asid) && Xlates(i.ctx, side)
    requires HitOf(SysRun(SysStep(SysRun(y, wait), fence), ins).s, i, side).Hit?
    ensures var s := SysRun(SysStep(SysRun(y, wait), fence), ins).s;
            var o := Translate(after.pt, i.ctx.root, PortOf(i, side).addr, LiveMode(i, side));
            RawDownstream(s, i, side) == SpecDownstream(o, PortOf(i, side), side)
  {
    hide NextSide, NextWalk, MappingIn, Resolve, LeafEdit, GlobalsShared;
    BetweenSoundRun(before, after, y, wait);
    FenceRestoresSoundness(before, after, asid, v, SysRun(y, wait), fence);
    SysAlwaysSound(after, SysStep(SysRun(y, wait), fence), ins);
    HitIsFreshWalk(after, SysRun(SysStep(SysRun(y, wait), fence), ins), i, side);
  }

  // A sound MMU with an idle walker is fit for an edit.
  lemma SoundBeforeEdit(before: Os, after: Os, y: Sys)
    requires SysSound(before, y) && y.s.walk.phase.Idle?
    ensures BetweenSound(before, after, y)
  {
  }

  // A fence by address space never drops a global entry or another address space's entry; a fence by
  // address never drops an entry for another page.
  lemma FenceIsSelective(s: Regs, i: In, side: Side, k: nat)
    requires Shaped(s) && s.walk.phase.Idle? && i.fence.Fence? && k < TLB_N
    ensures var e := SideOf(s, side).tlb[k];
            var f := i.fence;
            && (f.byAsid && (e.g || e.asid != f.asid) ==> NextSide(s, i, side).tlb[k] == e)
            && (f.byVa && e.vpn1 != Vpn1(f.va) ==> NextSide(s, i, side).tlb[k] == e)
            && (f.byVa && !e.large && e.vpn0 != Vpn0(f.va) ==> NextSide(s, i, side).tlb[k] == e)
            && (!f.byVa && !f.byAsid ==> !NextSide(s, i, side).tlb[k].valid)
  {
    hide NextXlate, PmpKills;
  }

  // ---- the clocked registers ----

  // The TLB, walk-result register and PMP latch of one side.
  class SideUnit {
    const side: Side
    var x: Xlate
    var tlb: seq<Entry>
    var repl: nat
    var pmpPending: bool

    function State(): SideRegs
      reads this
    {
      SideRegs(x, tlb, repl, pmpPending)
    }

    constructor (side: Side)
      ensures this.side == side && State() == SIDE_RESET
    {
      this.side := side;
      x, tlb, repl, pmpPending := Xlate(false, false, 0, 0), seq(TLB_N, _ => EMPTY), 0, false;
    }

    // The associative lookup: a scan in which a later match overrides an earlier one.
    method Lookup(va: Word, asid: nat) returns (hit: Hit)
      ensures hit == TlbHit(tlb, va, asid)
    {
      hit := Miss;
      for k := 0 to |tlb|
        invariant hit == TlbHit(tlb[..k], va, asid)
      {
        assert tlb[..k + 1][..k] == tlb[..k];
        if TlbMatch(tlb[k], va, asid) { hit := Hit(tlb[k]); }
      }
      assert tlb[..|tlb|] == tlb;
    }

    // The fill, then the fence over the old contents.
    method UpdateTlb(fill: Hit, f: Fence) returns (t: seq<Entry>)
      requires repl < |tlb|
      ensures t == NextTlb(tlb, repl, fill, f)
    {
      t := tlb;
      if fill.Hit? { t := t[repl := fill.e]; }
      if f.Fence? {
        ghost var filled := t;
        for k := 0 to |tlb|
          invariant |t| == |tlb|
          invariant forall j | 0 <= j < |tlb| ::
                      t[j] == if j < k && FenceHits(f, tlb[j]) then filled[j].(valid := false) else filled[j]
        {
          if FenceHits(f, tlb[k]) { t := t[k := t[k].(valid := false)]; }
        }
      }
    }

    // The walk-result register: walk completion, then stuffing by a TLB handshake, then the clear.
    method UpdateXlate(s: Regs, i: In) returns (q: Xlate)
      requires SideOf(s, side) == State()
      ensures q == NextXlate(s, i, side)
    {
      var p := PortOf(i, side);
      var hit := Lookup(p.addr, i.ctx.asid);
      var go, deny := TlbGo(s, i, side), TlbDeny(s, i, side);
      var rspFire, denyFire := go && p.dsRspValid && p.rspReady, deny && p.valid && p.rspReady;
      q := x;
      match ResultFor(s, i, side) {
        case Busy =>
        case Done(fault, pa, _) => q := Xlate(true, fault, pa, s.walk.va);
      }
      if go && p.valid && p.dsReady && !rspFire && !x.valid { q := Xlate(true, false, TlbPa(hit.e, p.addr), p.addr); }
      if deny && p.valid && !denyFire && !x.valid { q := q.(valid := true, fault := true, va := p.addr); }
      if (Forward(s, i, side) && p.dsRspValid && p.rspReady) || (FaultReply(s, i, side) && p.rspReady)
         || rspFire || denyFire {
        q := q.(valid := false, fault := false);
      }
    }

    // One rising edge, given all the registers of the MMU as they were before it.
    method Clock(s: Regs, i: In)
      requires Shaped(s) && SideOf(s, side) == State()
      modifies this
      ensures State() == NextSide(s, i, side)
    {
      hide NextXlate, NextTlb, PmpKills, FillFor;
      var fill, kill := FillFor(s, i, side), PmpKills(s, i, side);
      var xD := UpdateXlate(s, i);
      var tlbD := UpdateTlb(fill, i.fence);
      x, tlb := xD, tlbD;
      if fill.Hit? { repl := (repl + 1) % TLB_N; }
      if kill && !PortOf(i, side).rspReady {
        pmpPending := true;
      } else if pmpPending && PortOf(i, side).rspReady {
        pmpPending := false;
      }
    }
  }

  class MmuUnit {
    var walk: Walk
    const fetch: SideUnit
    const dmem: SideUnit

    ghost predicate Valid()
      reads this, fetch, dmem
    {
      fetch != dmem && fetch.side == Fetch && dmem.side == Dmem && Shaped(State())
    }

    function State(): Regs
      reads this, fetch, dmem
    {
      Regs(walk, fetch.State(), dmem.State())
    }

    constructor ()
      ensures Valid() && State() == RESET && fresh(fetch) && fresh(dmem)
    {
      walk := Walk(Idle, Fetch, false, MACHINE, 0, 0, 0);
      fetch := new SideUnit(Fetch);
      dmem := new SideUnit(Dmem);
    }

    // The walker's next-state block.
    method WalkStep(i: In) returns (w: Walk)
      requires Valid()
      ensures w == NextWalk(State(), i)
    {
      var s := State();
      w := walk;
      match walk.phase {
        case Idle =>
          if NeedsWalk(s, i, Fetch) {
            w := Launch(s, i, Fetch);
          } else if NeedsWalk(s, i, Dmem) {
            w := Launch(s, i, Dmem);
          }
        case L1Req => if i.ptw.ready { w := w.(phase := L1Wait); }
        case L1Wait =>
          if i.ptw.rspValid {
            if i.ptw.rsp.BusFault? || IsBad(DecodePte(i.ptw.rsp.w)) || IsLeaf(DecodePte(i.ptw.rsp.w)) {
              w := w.(phase := Idle);
            } else {
              var p := DecodePte(i.ptw.rsp.w);
              w := w.(ppn1 := p.ppn1, ppn0 := p.ppn0, phase := L0Req);
            }
          }
        case L0Req => if i.ptw.ready { w := w.(phase := L0Wait); }
        case L0Wait => if i.ptw.rspValid { w := w.(phase := Idle); }
      }
    }

    // One rising edge.
    method Clock(i: In)
      requires Valid()
      modifies this, fetch, dmem
      ensures Valid() && State() == Next(old(State()), i)
    {
      hide NextWalk, NextSide;
      var s := State();
      var walkD := WalkStep(i);
      fetch.Clock(s, i);
      dmem.Clock(s, i);
      walk := walkD;
    }
  }
}
