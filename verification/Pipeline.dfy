/**
 The five-stage in-order core (rtl/core/core_pipeline.sv): its wires and next-state equations as
 functions of the registers and the inputs of one clock cycle.

 A stage register group with its valid bit clear is a bubble; the RTL never reads the rest of such
 a group without the valid bit, so a stage is `Empty` or carries its payload.
 */
module Pipeline {
  import opened Rv32

  datatype Id = IdEmpty | InId(pc: Word, insn: Insn, fault: bool, irq: bool)

  datatype Ex = ExEmpty | InEx(pc: Word, insn: Insn, a: Word, b: Word, illegal: bool, fault: bool, irq: bool)

  datatype MemStage = MemEmpty
    | InMem(pc: Word, insn: Insn, addr: Word, hasResult: bool, result: Word, wdata: Word, wmask: Mask,
            rdWen: bool, trap: bool, pending: bool, fired: bool, storeBeat: bool, amoOld: Word,
            loaded: Word, b: Word, busFault: bool, pageFault: bool)

  datatype Wb = WbEmpty | InWb(pc: Word, insn: Insn, rdWen: bool, result: Word, trap: bool)

  datatype Pipe = Pipe(
    pc: Word, inflight: bool, inflightPc: Word, squash: bool,
    id: Id, ex: Ex, mem: MemStage, wb: Wb, regs: Regs,
    divStarted: bool, divLatched: bool, divResult: Word, divUnit: DivUnit,
    trapPending: bool, resv: Reservation)

  // One clock cycle of everything outside the core: both buses, the divider's latency, the
  // interrupt line, and what the CSR file answers at write-back.
  datatype In = In(
    fetchReady: bool, fetchRsp: bool, fetchInsn: Insn, fetchFault: bool,
    memReady: bool, memRsp: bool, memData: Word, memFault: bool, memPageFault: bool,
    divDone: bool, irq: bool, privIllegal: bool, csrRdata: Word, trapVector: Word, mepc: Word, sepc: Word)

  const IRQ_INSN := Insn(Illegal, 0, 0, 0, 0, 0)

  function Reset(pc: Word): Pipe {
    Pipe(pc, false, 0, false, IdEmpty, ExEmpty, MemEmpty, WbEmpty, map[],
         false, false, 0, DivIdle, false, NoReservation)
  }

  // ---- hazards and stalls ----

  predicate HasBusOp(m: MemStage) {
    m.InMem? && !m.trap && (m.insn.kind.Load? || m.insn.kind.Store? || IsAtomic(m.insn.kind))
  }

  predicate StallMem(p: Pipe) {
    p.mem.InMem? && (p.mem.pending || (p.mem.insn.kind.Csr? && p.mem.insn.kind.satp && !p.mem.trap && p.inflight))
  }

  predicate DivStall(p: Pipe) { p.ex.InEx? && p.ex.insn.kind.Div? && !p.divLatched }

  predicate StallEx(p: Pipe) { StallMem(p) || DivStall(p) }

  predicate LoadUse(p: Pipe) {
    && p.mem.InMem? && p.mem.insn.kind.Load? && !p.mem.trap && p.mem.rdWen && p.mem.insn.rd != 0
    && p.id.InId?
    && ((UsesRs1(p.id.insn.kind) && p.mem.insn.rd == p.id.insn.rs1)
        || (UsesRs2(p.id.insn.kind) && p.mem.insn.rd == p.id.insn.rs2))
  }

  predicate SerialInFlight(p: Pipe) {
    || (p.ex.InEx? && IsSerial(p.ex.insn.kind))
    || (p.mem.InMem? && IsSerial(p.mem.insn.kind))
    || (p.wb.InWb? && IsSerial(p.wb.insn.kind))
  }

  predicate StallId(p: Pipe) {
    || StallEx(p)
    || LoadUse(p)
    || (p.id.InId? && IsSerial(p.id.insn.kind) && (p.ex.InEx? || p.mem.InMem? || p.wb.InWb?))
    || (p.id.InId? && SerialInFlight(p) && !IsSerial(p.id.insn.kind))
  }

  // ---- EX ----

  function Forward(p: Pipe, snapshot: Word, r: Reg): Word {
    if p.mem.InMem? && p.mem.hasResult && p.mem.rdWen && p.mem.insn.rd != 0 && p.mem.insn.rd == r then p.mem.result
    else if p.wb.InWb? && p.wb.rdWen && p.wb.insn.rd != 0 && p.wb.insn.rd == r then p.wb.result
    else snapshot
  }

  function OperandA(p: Pipe): Word requires p.ex.InEx? { Forward(p, p.ex.a, p.ex.insn.rs1) }

  function OperandB(p: Pipe): Word requires p.ex.InEx? { Forward(p, p.ex.b, p.ex.insn.rs2) }

  predicate ExTrap(l: Leaf, p: Pipe) {
    && p.ex.InEx?
    && (p.ex.irq || p.ex.fault || p.ex.illegal || p.ex.insn.kind.Ecall? || p.ex.insn.kind.Ebreak?
        || AddressTrap(l, p.ex.insn, p.ex.pc, OperandA(p), OperandB(p)))
  }

  predicate BranchRedirect(l: Leaf, p: Pipe) {
    && p.ex.InEx? && Takes(l, p.ex.insn, OperandA(p), OperandB(p)) && !ExTrap(l, p) && !StallEx(p)
  }

  // ---- WB ----

  predicate WbRedirect(p: Pipe) {
    && p.wb.InWb?
    && (p.wb.trap || p.wb.insn.kind.Mret? || p.wb.insn.kind.Sret? || p.wb.insn.kind.FenceI?
        || p.wb.insn.kind.Sfence? || (p.wb.insn.kind.Csr? && p.wb.insn.kind.satp))
  }

  function WbRedirectPc(p: Pipe, i: In): Word
    requires p.wb.InWb?
  {
    if p.wb.trap then i.trapVector
    else if p.wb.insn.kind.Mret? then i.mepc
    else if p.wb.insn.kind.Sret? then i.sepc
    else Plus4(p.wb.pc)
  }

  function WbValue(p: Pipe, i: In): Word
    requires p.wb.InWb?
  {
    if p.wb.insn.kind.Csr? && !p.wb.trap then i.csrRdata else p.wb.result
  }

  predicate RegWrite(p: Pipe) { p.wb.InWb? && p.wb.rdWen && !p.wb.trap && p.wb.insn.rd != 0 }

  function NextRegs(p: Pipe, i: In): Regs {
    if RegWrite(p) then WriteReg(p.regs, true, p.wb.insn.rd, WbValue(p, i)) else p.regs
  }

  // ---- IF ----

  predicate IrqInject(p: Pipe, i: In) {
    && i.irq && p.ex.ExEmpty? && p.mem.MemEmpty? && p.wb.WbEmpty?
    && !p.inflight && !p.trapPending && !(p.id.InId? && p.id.irq)
  }

  predicate SlotFree(p: Pipe) { p.id.IdEmpty? || !StallId(p) }

  predicate FetchRequest(l: Leaf, p: Pipe, i: In) {
    && !p.inflight && SlotFree(p) && !BranchRedirect(l, p) && !WbRedirect(p)
    && !p.trapPending && !IrqInject(p, i)
  }

  predicate FetchAccepted(l: Leaf, p: Pipe, i: In) { FetchRequest(l, p, i) && i.fetchReady }

  predicate RspArriving(p: Pipe, i: In) { p.inflight && i.fetchRsp }

  predicate Redirect(l: Leaf, p: Pipe) { BranchRedirect(l, p) || WbRedirect(p) }

  function NextPc(l: Leaf, p: Pipe, i: In): Word {
    if WbRedirect(p) then WbRedirectPc(p, i)
    else if BranchRedirect(l, p) then Target(l, p.ex.insn, p.ex.pc, OperandA(p))
    else if FetchAccepted(l, p, i) then Plus4(p.pc)
    else p.pc
  }

  predicate NextInflight(l: Leaf, p: Pipe, i: In) {
    FetchAccepted(l, p, i) || (p.inflight && !RspArriving(p, i))
  }

  predicate NextSquash(l: Leaf, p: Pipe, i: In) {
    if Redirect(l, p) && NextInflight(l, p, i) && !RspArriving(p, i) then true
    else !RspArriving(p, i) && !FetchAccepted(l, p, i) && p.squash
  }

  function NextId(l: Leaf, p: Pipe, i: In): Id {
    if Redirect(l, p) then IdEmpty
    else if !SlotFree(p) then p.id
    else if IrqInject(p, i) then InId(if p.id.InId? then p.id.pc else p.pc, IRQ_INSN, false, true)
    else if RspArriving(p, i) && !p.squash then InId(p.inflightPc, i.fetchInsn, i.fetchFault, false)
    else IdEmpty
  }

  // ---- ID -> EX ----

  predicate IdBubbles(p: Pipe, i: In) {
    WbRedirect(p) || p.id.IdEmpty? || StallId(p) || (IrqInject(p, i) && !p.id.irq)
  }

  function NextEx(p: Pipe, i: In): Ex {
    if StallEx(p) then p.ex
    else if IdBubbles(p, i) then ExEmpty
    else
      var insn := p.id.insn;
      InEx(p.id.pc, insn, ReadReg(NextRegs(p, i), insn.rs1), ReadReg(NextRegs(p, i), insn.rs2),
           insn.kind.Illegal? || (IsSystem(insn.kind) && i.privIllegal), p.id.fault, p.id.irq)
  }

  predicate ScHit(l: Leaf, p: Pipe)
    requires p.ex.InEx?
  {
    p.resv.Reserved? && p.resv.word == Align(Address(l, p.ex.insn, OperandA(p)))
  }

  // ---- EX -> MEM ----

  function IntoMem(l: Leaf, p: Pipe): MemStage
    requires p.ex.InEx?
  {
    var insn, a, b := p.ex.insn, OperandA(p), OperandB(p);
    var trap := ExTrap(l, p);
    var addr := Address(l, insn, a);
    var scMiss := insn.kind.Sc? && !trap && !ScHit(l, p);
    InMem(p.ex.pc, insn, addr,
          scMiss || (WritesRd(insn) && !insn.kind.Load? && !insn.kind.Csr? && !IsAtomic(insn.kind) && !trap),
          if scMiss then 1 else if insn.kind.Div? then p.divResult else Arith(l, insn, p.ex.pc, a, b),
          StoreData(insn.f3, addr, b), StoreMask(insn.f3, addr),
          WritesRd(insn) && !trap, trap,
          !trap && (insn.kind.Load? || insn.kind.Store? || insn.kind.Lr? || insn.kind.Amo?
                    || (insn.kind.Sc? && ScHit(l, p))),
          false, false, 0, 0, b, false, false)
  }

  // ---- MEM: the data bus ----

  predicate StoreOp(m: MemStage)
    requires m.InMem?
  {
    m.insn.kind.Store? || m.insn.kind.Sc? || (m.insn.kind.Amo? && m.storeBeat)
  }

  predicate MemRequest(p: Pipe) { HasBusOp(p.mem) && p.mem.pending && !p.mem.fired }

  function MemWdata(l: Leaf, m: MemStage): Word
    requires m.InMem?
  {
    if m.insn.kind.Amo? && m.storeBeat then l.amo(m.insn, m.amoOld, m.b) else m.wdata
  }

  function MemWmask(m: MemStage): Mask
    requires m.InMem?
  {
    if m.insn.kind.Store? then m.wmask else FULL_MASK
  }

  // A stalled MEM: handshake progress and the latches loaded by a response.
  function HoldMem(m: MemStage, accepted: bool, i: In): MemStage
    requires m.InMem?
  {
    if !(m.pending && i.memRsp) then m.(fired := m.fired || accepted)
    else
      var latched := m.(fired := false, busFault := i.memFault, pageFault := i.memPageFault);
      if m.insn.kind.Amo? && !m.storeBeat then
        latched.(amoOld := i.memData, storeBeat := !i.memFault, pending := !i.memFault)
      else
        latched.(pending := false,
                 loaded := if m.insn.kind.Lr? then i.memData else LoadData(m.insn.f3, m.addr, i.memData))
  }

  function NextMem(l: Leaf, p: Pipe, i: In): MemStage {
    if WbRedirect(p) then MemEmpty
    else if StallMem(p) then HoldMem(p.mem, MemRequest(p) && i.memReady, i)
    else if StallEx(p) || p.ex.ExEmpty? then MemEmpty
    else IntoMem(l, p)
  }

  // ---- MEM -> WB ----

  function NextWb(p: Pipe): Wb {
    if p.mem.MemEmpty? || StallMem(p) || WbRedirect(p) then WbEmpty
    else
      var m := p.mem;
      if HasBusOp(m) && !m.hasResult then
        if m.pageFault || m.busFault then InWb(m.pc, m.insn, false, 0, true)
        else if m.insn.kind.Sc? then InWb(m.pc, m.insn, m.rdWen, 0, false)
        else if m.insn.kind.Amo? then InWb(m.pc, m.insn, m.rdWen, m.amoOld, false)
        else InWb(m.pc, m.insn, !m.insn.kind.Store? && m.rdWen, m.loaded, false)
      else InWb(m.pc, m.insn, m.rdWen, m.result, m.trap)
  }

  // ---- divider handshake ----

  predicate DivStart(p: Pipe) {
    && p.ex.InEx? && p.ex.insn.kind.Div? && !p.divStarted && !p.divLatched && !StallMem(p) && !WbRedirect(p)
  }

  predicate DivDone(p: Pipe, i: In) { p.divUnit.DivBusy? && i.divDone }

  predicate DivLeaves(p: Pipe) { !StallEx(p) && p.ex.InEx? && p.ex.insn.kind.Div? && p.divLatched }

  function NextDivUnit(p: Pipe, i: In): DivUnit {
    if DivStart(p) && (p.divUnit.DivIdle? || DivDone(p, i)) then DivBusy(p.ex.insn, OperandA(p), OperandB(p))
    else if DivDone(p, i) then DivIdle
    else p.divUnit
  }

  // ---- reservation ----

  function NextResv(p: Pipe, i: In): Reservation {
    if WbRedirect(p) then NoReservation
    else if p.mem.InMem? && !StallMem(p) && !p.mem.trap && (p.mem.insn.kind.Sc? || p.mem.insn.kind.Amo?)
    then NoReservation
    else if p.mem.InMem? && !p.mem.trap && p.mem.insn.kind.Lr? && p.mem.pending && i.memRsp && !i.memFault
      then Reserved(Align(p.mem.addr))
    else p.resv
  }

  function Next(l: Leaf, p: Pipe, i: In): Pipe {
    Pipe(NextPc(l, p, i), NextInflight(l, p, i),
         if FetchAccepted(l, p, i) then p.pc else p.inflightPc, NextSquash(l, p, i),
         NextId(l, p, i), NextEx(p, i), NextMem(l, p, i), NextWb(p), NextRegs(p, i),
         !WbRedirect(p) && !DivLeaves(p) && (p.divStarted || DivStart(p)),
         !WbRedirect(p) && !DivLeaves(p) && (p.divLatched || DivDone(p, i)),
         if DivDone(p, i) then var u := p.divUnit; l.div(u.insn, u.a, u.b) else p.divResult,
         NextDivUnit(p, i),
         !WbRedirect(p) && (p.trapPending || (ExTrap(l, p) && !StallEx(p))),
         NextResv(p, i))
  }

  // The registers after a whole run of cycles.
  function Run(l: Leaf, p: Pipe, ins: seq<In>): Pipe {
    if ins == [] then p else Next(l, Run(l, p, ins[..|ins| - 1]), ins[|ins| - 1])
  }

  // ---- the spacing invariant ----

  predicate PendingIsBusOp(p: Pipe) { p.mem.InMem? && p.mem.pending ==> HasBusOp(p.mem) }

  // One fetch in flight at a time keeps neighbouring stages apart: only a divide, which waits in
  // EX long enough for the next fetch to return, is ever directly followed by a younger instruction.
  predicate Spaced(p: Pipe) {
    && (p.inflight ==> p.id.IdEmpty?) && (p.squash ==> p.inflight)
    && (p.id.InId? && p.ex.InEx? ==> p.ex.insn.kind.Div?)
    && (p.ex.InEx? && p.mem.InMem? ==> p.mem.insn.kind.Div?)
    && (p.mem.InMem? && p.wb.InWb? ==> p.wb.insn.kind.Div? && !p.mem.fired)
    && PendingIsBusOp(p)
  }

  lemma SpacedStep(l: Leaf, p: Pipe, i: In)
    requires Spaced(p)
    ensures Spaced(Next(l, p, i))
  {
    hide NextPc, NextRegs, NextResv, NextDivUnit, LoadUse, OperandA, OperandB;
    var q := Next(l, p, i);
    assert q.mem.InMem? && q.mem.pending ==> HasBusOp(q.mem);
    if q.id.InId? && q.ex.InEx? {
      assert q.ex.insn.kind.Div?;
    }
  }

  lemma {:induction false} SpacedAlways(l: Leaf, pc: Word, ins: seq<In>)
    ensures Spaced(Run(l, Reset(pc), ins))
  {
    if ins != [] {
      SpacedAlways(l, pc, ins[..|ins| - 1]);
      SpacedStep(l, Run(l, Reset(pc), ins[..|ins| - 1]), ins[|ins| - 1]);
    }
  }

  // A serializing instruction past ID has EX, MEM and WB to itself.
  predicate SerialAlone(p: Pipe) {
    && (p.ex.InEx? && IsSerial(p.ex.insn.kind) ==> p.mem.MemEmpty? && p.wb.WbEmpty?)
    && (p.mem.InMem? && IsSerial(p.mem.insn.kind) ==> p.ex.ExEmpty? && p.wb.WbEmpty?)
    && (p.wb.InWb? && IsSerial(p.wb.insn.kind) ==> p.ex.ExEmpty? && p.mem.MemEmpty?)
  }

  lemma SerialAloneStep(l: Leaf, p: Pipe, i: In)
    requires SerialAlone(p)
    ensures SerialAlone(Next(l, p, i))
  {
  }

  // CSR and other system instructions, fences and atomics.
  predicate Drains(k: Kind) {
    k in {Ecall, Ebreak, Mret, Sret, Wfi, Fence, FenceI, Sfence, Lr, Sc, Amo} || k.Csr?
  }

  // Over every run, they have the back of the pipeline to themselves: one leaves ID only when
  // everything older has retired, and while one is past ID nothing leaves ID at all.
  lemma {:induction false} DrainsAlone(l: Leaf, pc: Word, ins: seq<In>)
    ensures var p := Run(l, Reset(pc), ins);
            && SerialAlone(p)
            && (p.ex.InEx? && Drains(p.ex.insn.kind) ==> p.mem.MemEmpty? && p.wb.WbEmpty?)
            && (p.mem.InMem? && Drains(p.mem.insn.kind) ==> p.ex.ExEmpty? && p.wb.WbEmpty?)
            && (p.wb.InWb? && Drains(p.wb.insn.kind) ==> p.ex.ExEmpty? && p.mem.MemEmpty?)
  {
    hide Next;
    if ins != [] {
      DrainsAlone(l, pc, ins[..|ins| - 1]);
      SerialAloneStep(l, Run(l, Reset(pc), ins[..|ins| - 1]), ins[|ins| - 1]);
    }
  }

  // What the hazard logic silently relies on, in every reachable state and under any bus, interrupt
  // and CSR behaviour: a redirecting branch leaves nothing younger in ID; a stalled MEM has an empty
  // EX behind it; a load in EX never has a consumer in ID, so checking MEM alone is enough; and the
  // only producer MEM ever forwards to EX is a divide.
  lemma {:induction false} HazardLogicSuffices(l: Leaf, pc: Word, ins: seq<In>)
    ensures var p := Run(l, Reset(pc), ins);
            && (BranchRedirect(l, p) ==> p.id.IdEmpty?)
            && (p.inflight ==> p.id.IdEmpty?)
            && (p.id.InId? && p.ex.InEx? ==> p.ex.insn.kind.Div?)
            && (StallMem(p) ==> p.ex.ExEmpty?)
            && (p.ex.InEx? && p.ex.insn.kind.Load? ==> p.id.IdEmpty?)
            && (HasBusOp(p.mem) ==> p.ex.ExEmpty?)
            && (p.ex.InEx? && p.mem.InMem? ==> p.mem.insn.kind.Div?)
  {
    SpacedAlways(l, pc, ins);
  }

  // No fetch is asked for in a cycle that redirects or traps, so one that is accepted is wanted.
  lemma FetchIsWanted(l: Leaf, p: Pipe, i: In)
    requires FetchAccepted(l, p, i)
    ensures var q := Next(l, p, i);
            q.inflight && !q.squash && q.inflightPc == p.pc && q.pc == (p.pc + 4) % 0x1_0000_0000
  {
  }

  // In every reachable state a CSR access in MEM goes on to WB at once, but for a write to satp, which
  // waits exactly as long as a fetch is in flight: none is translated by two address spaces.
  lemma SatpWaitsForFetch(l: Leaf, pc: Word, ins: seq<In>)
    requires var m := Run(l, Reset(pc), ins).mem; m.InMem? && m.insn.kind.Csr?
    ensures var p := Run(l, Reset(pc), ins);
            NextWb(p).InWb? <==> !(p.mem.insn.kind.satp && !p.mem.trap && p.inflight)
  {
    hide Next;
    DrainsAlone(l, pc, ins);
    SpacedAlways(l, pc, ins);
  }

  // A divider at work is not disturbed, whatever is started, stalled or flushed meanwhile.
  lemma {:induction false} DividerWorksOn(l: Leaf, p: Pipe, ins: seq<In>)
    requires p.divUnit.DivBusy? && forall k | 0 <= k < |ins| :: !ins[k].divDone
    ensures Run(l, p, ins).divUnit == p.divUnit
  {
    if ins != [] { DividerWorksOn(l, p, ins[..|ins| - 1]); }
  }

  // A write-back redirect (trap, return or fence) flushes everything younger, except exactly a divide
  // that is still waiting in EX, which stays.
  lemma RedirectSparesWaitingDivide(l: Leaf, p: Pipe, i: In)
    requires Spaced(p) && WbRedirect(p)
    ensures var q := Next(l, p, i);
            && q.id.IdEmpty? && q.mem.MemEmpty? && q.wb.WbEmpty? && !q.divStarted && !q.divLatched
            && (q.ex.InEx? <==> DivStall(p)) && (q.ex.InEx? ==> q.ex == p.ex)
            && (q.inflight ==> q.squash)
  {
  }

  // ---- the clocked registers ----

  class PipelinedCore {
    var pc: Word
    var inflight: bool
    var inflightPc: Word
    var squash: bool
    var id: Id
    var ex: Ex
    var mem: MemStage
    var wb: Wb
    var regs: Regs
    var divStarted: bool
    var divLatched: bool
    var divResult: Word
    var divUnit: DivUnit
    var trapPending: bool
    var resv: Reservation

    function State(): Pipe
      reads this
    {
      Pipe(pc, inflight, inflightPc, squash, id, ex, mem, wb, regs,
           divStarted, divLatched, divResult, divUnit, trapPending, resv)
    }

    constructor (resetPc: Word)
      ensures State() == Reset(resetPc)
    {
      pc, inflight, inflightPc, squash := resetPc, false, 0, false;
      id, ex, mem, wb, regs := IdEmpty, ExEmpty, MemEmpty, WbEmpty, map[];
      divStarted, divLatched, divResult, divUnit := false, false, 0, DivIdle;
      trapPending, resv := false, NoReservation;
    }

    // The combinational blocks of the RTL, each in its default-then-override form.

    method PcUpdate(l: Leaf, i: In) returns (next: Word)
      ensures next == NextPc(l, State(), i)
    {
      var p := State();
      next := pc;
      if WbRedirect(p) {
        next := WbRedirectPc(p, i);
      } else if BranchRedirect(l, p) {
        next := Target(l, ex.insn, ex.pc, OperandA(p));
      } else if FetchAccepted(l, p, i) {
        next := Plus4(pc);
      }
    }

    method FetchTracker(l: Leaf, i: In) returns (flying: bool, flyingPc: Word, stale: bool)
      ensures flying == Next(l, State(), i).inflight && flyingPc == Next(l, State(), i).inflightPc
      ensures stale == Next(l, State(), i).squash
    {
      var p := State();
      flying, flyingPc, stale := inflight, inflightPc, squash;
      if RspArriving(p, i) { flying, stale := false, false; }
      if FetchAccepted(l, p, i) { flying, flyingPc, stale := true, pc, false; }
      if Redirect(l, p) && flying && !RspArriving(p, i) { stale := true; }
    }

    method IfId(l: Leaf, i: In) returns (next: Id)
      ensures next == NextId(l, State(), i)
    {
      var p := State();
      next := id;
      if Redirect(l, p) {
        next := IdEmpty;
      } else if id.IdEmpty? || !StallId(p) {
        if IrqInject(p, i) {
          next := InId(if id.InId? then id.pc else pc, IRQ_INSN, false, true);
        } else if RspArriving(p, i) && !squash {
          next := InId(inflightPc, i.fetchInsn, i.fetchFault, false);
        } else {
          next := IdEmpty;
        }
      }
    }

    // A register read in ID sees the value WB is writing in the same cycle.
    method ReadOperand(r: Reg, i: In) returns (v: Word)
      ensures v == ReadReg(NextRegs(State(), i), r)
    {
      var p := State();
      v := ReadReg(regs, r);
      if RegWrite(p) && wb.insn.rd == r && r != 0 { v := WbValue(p, i); }
    }

    method IdEx(i: In) returns (next: Ex)
      ensures next == NextEx(State(), i)
    {
      var p := State();
      next := ex;
      if !StallEx(p) {
        if IdBubbles(p, i) {
          next := ExEmpty;
        } else {
          var a := ReadOperand(id.insn.rs1, i);
          var b := ReadOperand(id.insn.rs2, i);
          next := InEx(id.pc, id.insn, a, b, id.insn.kind.Illegal? || (IsSystem(id.insn.kind) && i.privIllegal),
                       id.fault, id.irq);
        }
      }
    }

    method ExMem(l: Leaf, i: In) returns (next: MemStage)
      ensures next == NextMem(l, State(), i)
    {
      var p := State();
      next := mem;
      if StallMem(p) {
        next := HoldMem(mem, MemRequest(p) && i.memReady, i);
      } else if StallEx(p) || ex.ExEmpty? {
        next := MemEmpty;
      } else {
        next := IntoMem(l, p);
      }
      if WbRedirect(p) { next := MemEmpty; }
    }

    method DivTracker(l: Leaf, i: In) returns (started: bool, latched: bool, result: Word)
      ensures var q := Next(l, State(), i); started == q.divStarted && latched == q.divLatched && result == q.divResult
    {
      var p := State();
      started, latched, result := divStarted, divLatched, divResult;
      if DivStart(p) { started := true; }
      if DivDone(p, i) { latched, result := true, l.div(divUnit.insn, divUnit.a, divUnit.b); }
      if DivLeaves(p) { started, latched := false, false; }
      if WbRedirect(p) { started, latched := false, false; }
    }

    method ReservationUpdate(i: In) returns (next: Reservation)
      ensures next == NextResv(State(), i)
    {
      var p := State();
      next := resv;
      if mem.InMem? && !mem.trap && mem.insn.kind.Lr? && mem.pending && i.memRsp && !i.memFault {
        next := Reserved(Align(mem.addr));
      }
      if mem.InMem? && !StallMem(p) && !mem.trap && (mem.insn.kind.Sc? || mem.insn.kind.Amo?) {
        next := NoReservation;
      }
      if WbRedirect(p) { next := NoReservation; }
    }

    // The register-update block.

    method LoadFetch(q: Pipe)
      modifies `pc, `inflight, `inflightPc, `squash
      ensures pc == q.pc && inflight == q.inflight && inflightPc == q.inflightPc && squash == q.squash
    {
      pc, inflight, inflightPc, squash := q.pc, q.inflight, q.inflightPc, q.squash;
    }

    method LoadStages(q: Pipe)
      modifies `id, `ex, `mem, `wb, `regs
      ensures id == q.id && ex == q.ex && mem == q.mem && wb == q.wb && regs == q.regs
    {
      id, ex, mem, wb, regs := q.id, q.ex, q.mem, q.wb, q.regs;
    }

    method LoadTrackers(q: Pipe)
      modifies `divStarted, `divLatched, `divResult, `divUnit, `trapPending, `resv
      ensures divStarted == q.divStarted && divLatched == q.divLatched && divResult == q.divResult
      ensures divUnit == q.divUnit && trapPending == q.trapPending && resv == q.resv
    {
      divStarted, divLatched, divResult, divUnit := q.divStarted, q.divLatched, q.divResult, q.divUnit;
      trapPending, resv := q.trapPending, q.resv;
    }

    // All next-state values of one cycle.
    method Combinational(l: Leaf, i: In) returns (q: Pipe)
      ensures q == Next(l, State(), i)
    {
      var p := State();
      var pcD := PcUpdate(l, i);
      var inflightD, inflightPcD, squashD := FetchTracker(l, i);
      var idD := IfId(l, i);
      var exD := IdEx(i);
      var memD := ExMem(l, i);
      var regsD := regs;
      if RegWrite(p) { regsD := WriteReg(regs, true, wb.insn.rd, WbValue(p, i)); }
      var startedD, latchedD, resultD := DivTracker(l, i);
      var trapD := trapPending;
      if ExTrap(l, p) && !StallEx(p) { trapD := true; }
      if WbRedirect(p) { trapD := false; }
      var resvD := ReservationUpdate(i);
      q := Pipe(pcD, inflightD, inflightPcD, squashD, idD, exD, memD, NextWb(p), regsD,
                startedD, latchedD, resultD, NextDivUnit(p, i), trapD, resvD);
    }

    // One rising edge: every register loads its next-state value.
    method Clock(l: Leaf, i: In)
      modifies this
      ensures State() == Next(l, old(State()), i)
    {
      var q := Combinational(l, i);
      LoadFetch(q);
      LoadStages(q);
      LoadTrackers(q);
    }
  }
}
