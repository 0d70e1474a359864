/**
 The pipeline refines one-instruction-at-a-time RV32IMA, traps and interrupts included, for any fetch,
 data and divider latency.
 */
module PipelineRefinement {
  import opened Rv32
  import opened Pipeline

  // A program as the memory system presents it: code never changes, and an access either always
  // faults or never does.
  datatype Program = Program(imem: Word -> Insn, fetchOk: Word -> bool, dataOk: Word -> bool)

  datatype Arch = Arch(pc: Word, regs: Regs, mem: Mem, resv: Reservation)

  datatype Retire = Retire(pc: Word, wen: bool, rd: Reg, value: Word, trap: bool)

  // ---- sequential execution ----

  function Effective(l: Leaf, i: Insn, s: Arch): Word { Address(l, i, ReadReg(s.regs, i.rs1)) }

  // SC succeeds exactly when the reservation is for its word.
  predicate ScStores(l: Leaf, i: Insn, s: Arch) { i.kind.Sc? && s.resv == Reserved(Align(Effective(l, i, s))) }

  predicate Accesses(l: Leaf, i: Insn, s: Arch) {
    i.kind.Load? || i.kind.Store? || i.kind.Lr? || i.kind.Amo? || ScStores(l, i, s)
  }

  // What makes an instruction trap before it touches the data bus.
  predicate Raises(l: Leaf, prog: Program, s: Arch) {
    var i := prog.imem(s.pc);
    || !prog.fetchOk(s.pc) || i.kind.Illegal? || i.kind.Ecall? || i.kind.Ebreak?
    || AddressTrap(l, i, s.pc, ReadReg(s.regs, i.rs1), ReadReg(s.regs, i.rs2))
  }

  predicate Traps(l: Leaf, prog: Program, s: Arch) {
    || Raises(l, prog, s)
    || (Accesses(l, prog.imem(s.pc), s) && !prog.dataOk(Effective(l, prog.imem(s.pc), s)))
  }

  function Result(l: Leaf, i: Insn, s: Arch): Word {
    var a, b := ReadReg(s.regs, i.rs1), ReadReg(s.regs, i.rs2);
    if i.kind.Div? then l.div(i, a, b)
    else if i.kind.Load? then LoadData(i.f3, Effective(l, i, s), ReadWord(s.mem, Effective(l, i, s)))
    else if i.kind.Lr? || i.kind.Amo? then ReadWord(s.mem, Effective(l, i, s))
    else if i.kind.Sc? then (if ScStores(l, i, s) then 0 else 1)
    else Arith(l, i, s.pc, a, b)
  }

  function NewMem(l: Leaf, i: Insn, s: Arch): Mem {
    var addr, b := Effective(l, i, s), ReadReg(s.regs, i.rs2);
    if i.kind.Store? then WriteWord(s.mem, addr, StoreData(i.f3, addr, b), StoreMask(i.f3, addr))
    else if ScStores(l, i, s) then WriteWord(s.mem, addr, b, FULL_MASK)
    else if i.kind.Amo? then WriteWord(s.mem, addr, l.amo(i, ReadWord(s.mem, addr), b), FULL_MASK)
    else s.mem
  }

  function NewResv(l: Leaf, i: Insn, s: Arch): Reservation {
    if i.kind.Lr? then Reserved(Align(Effective(l, i, s)))
    else if i.kind.Sc? || i.kind.Amo? || i.kind.FenceI? then NoReservation
    else s.resv
  }

  function Exec(l: Leaf, i: Insn, s: Arch): Arch {
    var a, b := ReadReg(s.regs, i.rs1), ReadReg(s.regs, i.rs2);
    Arch(
      if Takes(l, i, a, b) then Target(l, i, s.pc, a) else Plus4(s.pc),
      if WritesRd(i) && !i.kind.Csr? then WriteReg(s.regs, true, i.rd, Result(l, i, s)) else s.regs,
      NewMem(l, i, s), NewResv(l, i, s))
  }

  // What an instruction does by itself: a trapping one, nothing at all.
  function Step(l: Leaf, prog: Program, s: Arch): Arch {
    if Traps(l, prog, s) then s else Exec(l, prog.imem(s.pc), s)
  }

  // What a step learns from the CSR file and the interrupt line: where a trap, an MRET and an SRET go,
  // the CSR read, whether a system instruction is illegal, and whether an interrupt is taken instead.
  datatype Env = Env(vector: Word, mepc: Word, sepc: Word, csr: Word, illegal: bool, irq: bool)

  // What depends on the CSR file.
  predicate Foreign(k: Kind) { k.Csr? || k.Mret? || k.Sret? || k.Wfi? || k.Sfence? }

  predicate TrapsIn(l: Leaf, prog: Program, s: Arch, v: Env) {
    v.irq || Traps(l, prog, s) || (Foreign(prog.imem(s.pc).kind) && v.illegal)
  }

  // A step of the machine. Whatever restarts the pipeline drops the reservation.
  function Resume(l: Leaf, prog: Program, s: Arch, v: Env): Arch {
    if TrapsIn(l, prog, s, v) then Arch(v.vector, s.regs, s.mem, NoReservation)
    else
      var i := prog.imem(s.pc);
      match i.kind
      case Mret => Arch(v.mepc, s.regs, s.mem, NoReservation)
      case Sret => Arch(v.sepc, s.regs, s.mem, NoReservation)
      case Sfence => Arch(Plus4(s.pc), s.regs, s.mem, NoReservation)
      case Csr(_, satp) =>
        Arch(Plus4(s.pc), WriteReg(s.regs, WritesRd(i), i.rd, v.csr), s.mem, if satp then NoReservation else s.resv)
      case _ => Step(l, prog, s)
  }

  function RetireOf(l: Leaf, prog: Program, s: Arch, v: Env): Retire {
    var i := prog.imem(s.pc);
    if TrapsIn(l, prog, s, v) then Retire(s.pc, false, if v.irq then 0 else i.rd, 0, true)
    else
      Retire(s.pc, WritesRd(i), i.rd,
             if !WritesRd(i) then 0 else if i.kind.Csr? then v.csr else Result(l, i, s), false)
  }

  function Sequential(l: Leaf, prog: Program, s: Arch, envs: seq<Env>): Arch {
    if envs == [] then s
    else Resume(l, prog, Sequential(l, prog, s, envs[..|envs| - 1]), envs[|envs| - 1])
  }

  function Retirements(l: Leaf, prog: Program, s: Arch, envs: seq<Env>): seq<Retire> {
    if envs == [] then []
    else
      var before := envs[..|envs| - 1];
      Retirements(l, prog, s, before) + [RetireOf(l, prog, Sequential(l, prog, s, before), envs[|envs| - 1])]
  }

  // What the theorem asks of an instruction: that an atomic has the one width the decoder accepts.
  predicate Plain(prog: Program, s: Arch) {
    var i := prog.imem(s.pc);
    prog.fetchOk(s.pc) && IsAtomic(i.kind) ==> i.f3 == 2
  }

  // ---- the pipeline with its memories ----

  // A data access the bus has accepted. Nothing recalls it.
  datatype Access = Access(addr: Word, store: bool, wdata: Word, wmask: Mask)

  // `bus` holds the accepted accesses not yet answered, oldest first. `denied` is what the CSR file
  // said of the instruction dispatched last; `taken` says an interrupt is on its way to retirement.
  datatype System = System(p: Pipe, mem: Mem, bus: seq<Access>, denied: bool, taken: bool, log: seq<Retire>)

  function AccessOf(l: Leaf, m: MemStage): Access
    requires m.InMem?
  {
    Access(m.addr, StoreOp(m), MemWdata(l, m), MemWmask(m))
  }

  predicate Hands(p: Pipe, i: In) { MemRequest(p) && i.memReady }

  // The accesses an answer in this cycle could be for.
  function Bus(l: Leaf, p: Pipe, bus: seq<Access>, i: In): seq<Access> {
    bus + if Hands(p, i) then [AccessOf(l, p.mem)] else []
  }

  // What the environment may do in a cycle: any timing, interrupts and CSR answers at all, but a fetch
  // response is the word at the address asked for, and a data response answers the oldest access the
  // bus has accepted. A response to a squashed fetch is unconstrained.
  predicate Allowed(l: Leaf, prog: Program, s: System, i: In) {
    && (RspArriving(s.p, i) && !s.p.squash ==>
          i.fetchInsn == prog.imem(s.p.inflightPc) && i.fetchFault == !prog.fetchOk(s.p.inflightPc))
    && (i.memRsp ==>
          var bus := Bus(l, s.p, s.bus, i);
          && bus != [] && (i.memFault || i.memPageFault) == !prog.dataOk(bus[0].addr)
          && (prog.dataOk(bus[0].addr) && !bus[0].store ==> i.memData == ReadWord(s.mem, bus[0].addr)))
  }

  // Memory performs an access when it answers it, whatever has become of the instruction.
  function MemoryAfter(l: Leaf, p: Pipe, mem: Mem, bus: seq<Access>, i: In): Mem {
    var q := Bus(l, p, bus, i);
    if i.memRsp && !i.memFault && !i.memPageFault && q != [] && q[0].store
    then WriteWord(mem, q[0].addr, q[0].wdata, q[0].wmask)
    else mem
  }

  function BusAfter(l: Leaf, p: Pipe, bus: seq<Access>, i: In): seq<Access> {
    var q := Bus(l, p, bus, i);
    if i.memRsp && q != [] then q[1..] else q
  }

  // The instruction in ID goes to EX in this cycle; an interrupt injected into ID displaces it.
  predicate Dispatches(p: Pipe, i: In) {
    p.id.InId? && !StallId(p) && !WbRedirect(p) && !(IrqInject(p, i) && !p.id.irq)
  }

  function Commit(p: Pipe, i: In): seq<Retire> {
    if p.wb.InWb? then
      [Retire(p.wb.pc, RegWrite(p), p.wb.insn.rd, if RegWrite(p) then WbValue(p, i) else 0, p.wb.trap)]
    else []
  }

  function Cycle(l: Leaf, s: System, i: In): System {
    System(Next(l, s.p, i), MemoryAfter(l, s.p, s.mem, s.bus, i), BusAfter(l, s.p, s.bus, i),
           if Dispatches(s.p, i) then i.privIllegal else s.denied,
           IrqInject(s.p, i) || (s.taken && s.p.wb.WbEmpty?),
           s.log + Commit(s.p, i))
  }

  function After(l: Leaf, s: System, ins: seq<In>): System {
    if ins == [] then s else Cycle(l, After(l, s, ins[..|ins| - 1]), ins[|ins| - 1])
  }

  predicate AllowedRun(l: Leaf, prog: Program, s: System, ins: seq<In>) {
    ins == []
    || (AllowedRun(l, prog, s, ins[..|ins| - 1])
        && Allowed(l, prog, After(l, s, ins[..|ins| - 1]), ins[|ins| - 1]))
  }

  function Boot(pc: Word, mem: Mem): System { System(Reset(pc), mem, [], false, false, []) }

  // ---- one access at a time ----

  // The bus holds the access MEM has handed over and waits for, and nothing else.
  predicate BusOk(l: Leaf, p: Pipe, bus: seq<Access>) {
    bus == if HasBusOp(p.mem) && p.mem.pending && p.mem.fired then [AccessOf(l, p.mem)] else []
  }

  // An instruction younger than the one that redirects in WB hands its access to the bus.
  predicate Escapes(p: Pipe, i: In) { WbRedirect(p) && Hands(p, i) }

  // As long as none does, an answer is for the access MEM is waiting for.
  lemma BusStep(l: Leaf, p: Pipe, bus: seq<Access>, i: In)
    requires Spaced(p) && BusOk(l, p, bus) && !Escapes(p, i) && (i.memRsp ==> Bus(l, p, bus, i) != [])
    ensures BusOk(l, Next(l, p, i), BusAfter(l, p, bus, i))
    ensures i.memRsp ==>
              && HasBusOp(p.mem) && p.mem.pending && !WbRedirect(p)
              && Bus(l, p, bus, i) == [AccessOf(l, p.mem)]
  {
    hide NextId, NextEx, NextPc, NextRegs, NextDivUnit, BranchRedirect, LoadData;
  }

  // Every answer is for an access the bus has accepted.
  predicate AnswersAccepted(l: Leaf, s: System, ins: seq<In>) {
    ins == []
    || (&& AnswersAccepted(l, s, ins[..|ins| - 1])
        && var now := After(l, s, ins[..|ins| - 1]);
           ins[|ins| - 1].memRsp ==> Bus(l, now.p, now.bus, ins[|ins| - 1]) != [])
  }

  predicate NoEscapes(l: Leaf, s: System, ins: seq<In>) {
    ins == []
    || (NoEscapes(l, s, ins[..|ins| - 1]) && !Escapes(After(l, s, ins[..|ins| - 1]).p, ins[|ins| - 1]))
  }

  // So the pipeline has one access on the bus at most, as long as none escapes.
  lemma {:induction false} BusAlways(l: Leaf, pc: Word, mem: Mem, ins: seq<In>)
    requires AnswersAccepted(l, Boot(pc, mem), ins) && NoEscapes(l, Boot(pc, mem), ins)
    ensures var s := After(l, Boot(pc, mem), ins); Spaced(s.p) && BusOk(l, s.p, s.bus)
  {
    hide Next, BusOk, Spaced, Bus, MemoryAfter, Escapes;
    if ins == [] {
      BootBus(l, pc);
    } else {
      var s := After(l, Boot(pc, mem), ins[..|ins| - 1]);
      BusAlways(l, pc, mem, ins[..|ins| - 1]);
      SpacedStep(l, s.p, ins[|ins| - 1]);
      BusStep(l, s.p, s.bus, ins[|ins| - 1]);
    }
  }

  lemma BootBus(l: Leaf, pc: Word)
    ensures Spaced(Reset(pc)) && BusOk(l, Reset(pc), [])
  {
  }

  // ---- the simulation relation ----

  // Is there an instruction in the stage that executes, as far as the pipeline knows?
  predicate WbRuns(p: Pipe) { p.wb.InWb? && !p.wb.trap }
  predicate MemRuns(p: Pipe) { p.mem.InMem? && !p.mem.trap }

  function Count(b: bool): nat { if b then 1 else 0 }

  // Each stage against the sequential state `s` its instruction executes in.

  predicate Holds(prog: Program, s: Arch, pc: Word, insn: Insn) { pc == s.pc && insn == prog.imem(s.pc) }

  // An interrupt taken in place of the instruction at this pc.
  predicate Interrupts(s: Arch, pc: Word, insn: Insn) { pc == s.pc && insn == IRQ_INSN }

  predicate WbOk(l: Leaf, prog: Program, wb: Wb, denied: bool, taken: bool, s: Arch) {
    wb.InWb? ==>
      if taken then wb.trap && Interrupts(s, wb.pc, wb.insn)
      else
        && Holds(prog, s, wb.pc, wb.insn) && wb.trap == (Traps(l, prog, s) || (Foreign(wb.insn.kind) && denied))
        && (!wb.trap ==>
              && wb.rdWen == WritesRd(wb.insn)
              && (wb.rdWen && !wb.insn.kind.Csr? ==> wb.result == Result(l, wb.insn, s)))
  }

  // The data access in MEM, before and after it is answered.
  predicate AccessOk(l: Leaf, prog: Program, m: MemStage, s: Arch)
    requires m.InMem?
  {
    var ok := prog.dataOk(m.addr);
    && m.addr == Effective(l, m.insn, s) && (!m.pending ==> (m.busFault || m.pageFault) == !ok)
    && (m.insn.kind.Store? ==>
          && m.wdata == StoreData(m.insn.f3, m.addr, ReadReg(s.regs, m.insn.rs2))
          && m.wmask == StoreMask(m.insn.f3, m.addr))
    && (m.insn.kind.Sc? ==> m.wdata == ReadReg(s.regs, m.insn.rs2))
    && (m.insn.kind.Amo? ==>
          && m.b == ReadReg(s.regs, m.insn.rs2)
          && ((m.storeBeat || !m.pending) && ok ==> m.storeBeat && m.amoOld == ReadWord(s.mem, m.addr)))
    && ((m.insn.kind.Load? || m.insn.kind.Lr?) && !m.pending && ok ==> m.loaded == Result(l, m.insn, s))
  }

  // An instruction in MEM that executes.
  predicate RunningOk(l: Leaf, prog: Program, m: MemStage, denied: bool, s: Arch)
    requires m.InMem?
  {
    && Holds(prog, s, m.pc, m.insn) && !Raises(l, prog, s) && !(Foreign(m.insn.kind) && denied)
    && m.rdWen == WritesRd(m.insn)
    && m.hasResult == (if HasBusOp(m) then m.insn.kind.Sc? && !ScStores(l, m.insn, s)
                       else WritesRd(m.insn) && !m.insn.kind.Csr?)
    && (m.hasResult ==> m.result == Result(l, m.insn, s))
    && if Accesses(l, m.insn, s) then AccessOk(l, prog, m, s) else !m.pending && !m.busFault && !m.pageFault
  }

  // A trap in MEM: an interrupt, or an instruction that raises one.
  predicate TrappedOk(l: Leaf, prog: Program, m: MemStage, denied: bool, taken: bool, s: Arch)
    requires m.InMem?
  {
    && !m.pending
    && if taken then Interrupts(s, m.pc, m.insn)
       else Holds(prog, s, m.pc, m.insn) && (Raises(l, prog, s) || (Foreign(m.insn.kind) && denied))
  }

  predicate MemOk(l: Leaf, prog: Program, m: MemStage, denied: bool, taken: bool, s: Arch) {
    m.InMem? ==>
      if m.trap then TrappedOk(l, prog, m, denied, taken, s) else !taken && RunningOk(l, prog, m, denied, s)
  }

  predicate OperandsOk(p: Pipe, s: Arch)
    requires p.ex.InEx?
  {
    && (UsesRs1(p.ex.insn.kind) ==> OperandA(p) == ReadReg(s.regs, p.ex.insn.rs1))
    && (UsesRs2(p.ex.insn.kind) ==> OperandB(p) == ReadReg(s.regs, p.ex.insn.rs2))
  }

  predicate ExOk(l: Leaf, prog: Program, p: Pipe, denied: bool, s: Arch) {
    p.ex.InEx? ==>
      if p.ex.irq then Interrupts(s, p.ex.pc, p.ex.insn)
      else
        && Holds(prog, s, p.ex.pc, p.ex.insn) && p.ex.fault == !prog.fetchOk(s.pc)
        && (p.ex.insn.kind.Illegal? ==> p.ex.illegal)
        && (p.ex.illegal ==> Raises(l, prog, s) || Foreign(p.ex.insn.kind))
        && (Foreign(p.ex.insn.kind) ==> p.ex.illegal == denied)
        && (!p.divStarted ==> OperandsOk(p, s))
  }

  predicate DivOk(l: Leaf, p: Pipe, s: Arch) {
    && (p.divStarted ==> p.ex.InEx? && p.ex.insn.kind.Div?)
    && (p.divLatched ==> p.divStarted && p.divResult == Result(l, p.ex.insn, s))
    && p.divUnit == if p.divStarted && !p.divLatched
                    then DivBusy(p.ex.insn, ReadReg(s.regs, p.ex.insn.rs1), ReadReg(s.regs, p.ex.insn.rs2))
                    else DivIdle
  }

  predicate IdOk(prog: Program, p: Pipe, s: Arch) {
    p.id.InId? ==>
      if p.id.irq then Interrupts(s, p.id.pc, p.id.insn)
      else Holds(prog, s, p.id.pc, p.id.insn) && p.id.fault == !prog.fetchOk(s.pc)
  }

  // An interrupt is on its way to MEM; what is fetched behind it will be dropped.
  predicate Interrupting(p: Pipe) { (p.id.InId? && p.id.irq) || (p.ex.InEx? && p.ex.irq) }

  // An interrupt taken has the pipeline to itself and everything younger.
  predicate TakenOk(p: Pipe, taken: bool) {
    && (p.id.InId? && p.id.irq ==> taken && p.ex.ExEmpty? && p.mem.MemEmpty? && p.wb.WbEmpty?)
    && (p.ex.InEx? && p.ex.irq ==> taken && p.mem.MemEmpty? && p.wb.WbEmpty?)
    && (taken && !Interrupting(p) ==> p.mem.InMem? || p.wb.InWb?)
  }

  // The word in EX is that of a faulting fetch: nothing behind it is wanted.
  predicate Doomed(p: Pipe) { p.ex.InEx? && p.ex.fault }

  // Where the fetcher is: one past the youngest instruction held, as long as no jump intervenes.
  predicate FetchOk(p: Pipe, next: Word) {
    && (p.squash ==> p.inflight && p.ex.ExEmpty? && p.id.IdEmpty?)
    && (var at := if p.id.InId? then Plus4(p.id.pc) else if p.ex.InEx? then Plus4(p.ex.pc) else next;
        if p.inflight && !p.squash then p.inflightPc == at && p.pc == Plus4(at) else p.pc == at)
  }

  // The sequential state past a stage: one instruction further if one executes there.
  function Past(l: Leaf, prog: Program, runs: bool, s: Arch): Arch {
    if runs then Step(l, prog, s) else s
  }

  // Data memory when the oldest instruction executes in `wb`: an access in MEM that is still
  // pending has not happened yet, nor has one behind a redirect.
  function MemoryOf(l: Leaf, prog: Program, p: Pipe, wb: Arch): Mem {
    var m := Past(l, prog, WbRuns(p), wb);
    if WbRedirect(p) || (p.mem.InMem? && p.mem.pending) then m.mem else Past(l, prog, MemRuns(p), m).mem
  }

  // The instruction redirects at write-back even if it does not trap.
  predicate Redirects(k: Kind) { k.FenceI? || k.Mret? || k.Sret? || k.Sfence? || (k.Csr? && k.satp) }

  // The instruction in MEM will restart the pipeline from WB.
  predicate MemRestarts(l: Leaf, prog: Program, p: Pipe, m: Arch) {
    p.mem.InMem? && (p.mem.trap || Traps(l, prog, m) || Redirects(p.mem.insn.kind))
  }

  predicate ExRestarts(l: Leaf, prog: Program, p: Pipe, e: Arch) {
    p.ex.InEx? && (ExTrap(l, p) || Traps(l, prog, e) || Redirects(p.ex.insn.kind))
  }

  // The reservation when MEM holds the instruction that executes in `s`: an answered LR has made one.
  // What a trapping instruction does to it no longer matters.
  predicate ResvOk(l: Leaf, prog: Program, p: Pipe, s: Arch) {
    || (MemRuns(p) && Traps(l, prog, s))
    || p.resv == if MemRuns(p) && p.mem.insn.kind.Lr? && !p.mem.pending then Step(l, prog, s).resv else s.resv
  }

  // Nothing in MEM or WB restarts the pipeline.
  predicate Clean(l: Leaf, prog: Program, p: Pipe, m: Arch) { !WbRedirect(p) && !MemRestarts(l, prog, p, m) }

  // EX, ID and the fetcher, as long as nothing older restarts the pipeline.
  predicate FrontOk(l: Leaf, prog: Program, p: Pipe, denied: bool, e: Arch, d: Arch) {
    && !p.trapPending && ExOk(l, prog, p, denied, e) && DivOk(l, p, e)
    && (Doomed(p) || (IdOk(prog, p, d) && (Interrupting(p) || FetchOk(p, d.pc))))
  }

  // What is behind a restart may be anything, but the divider is not left with an answer.
  predicate BehindOk(p: Pipe) {
    !p.divLatched && ((WbRedirect(p) && p.ex.InEx? && p.ex.insn.kind.Div?) || (!p.divStarted && p.divUnit.DivIdle?))
  }

  // Which stages can be occupied together, and by what.
  predicate Shape(l: Leaf, s: System) {
    Spaced(s.p) && SerialAlone(s.p) && TakenOk(s.p, s.taken) && BusOk(l, s.p, s.bus)
  }

  // The pipeline against the sequential state `wb` its oldest instruction executes in.
  predicate Coupled(l: Leaf, prog: Program, s: System, wb: Arch) {
    var p := s.p;
    var m := Past(l, prog, WbRuns(p), wb);
    var e := Past(l, prog, MemRuns(p), m);
    var d := Past(l, prog, p.ex.InEx?, e);
    && Shape(l, s)
    && p.regs == wb.regs
    && s.mem == MemoryOf(l, prog, p, wb)
    && WbOk(l, prog, p.wb, s.denied, s.taken, wb)
    && (WbRedirect(p) || (MemOk(l, prog, p.mem, s.denied, s.taken, m) && ResvOk(l, prog, p, m)))
    && if Clean(l, prog, p, m) then FrontOk(l, prog, p, s.denied, e, d) else BehindOk(p)
  }

  // Instructions past the last retired one whose memory effect has already happened.
  function Performed(p: Pipe): nat {
    Count(WbRuns(p)) + Count(!WbRedirect(p) && MemRuns(p) && !p.mem.pending)
  }

  // ---- one cycle, stage by stage ----

  // The memory stage while it waits for the bus keeps its invariant.
  lemma AccessGoesOn(l: Leaf, prog: Program, s: System, i: In, a: Arch)
    requires Spaced(s.p) && BusOk(l, s.p, s.bus) && Allowed(l, prog, s, i) && !WbRedirect(s.p)
    requires s.p.mem.InMem? && MemOk(l, prog, s.p.mem, s.denied, s.taken, a) && ResvOk(l, prog, s.p, a)
    requires StallMem(s.p) && s.mem == if s.p.mem.pending then a.mem else Step(l, prog, a).mem
    ensures var q := Next(l, s.p, i);
            && q.mem.InMem? && MemOk(l, prog, q.mem, s.denied, s.taken, a) && ResvOk(l, prog, q, a)
            && MemRuns(s.p) && MemRuns(q)
  {
    hide NextId, NextEx, NextPc, NextRegs, NextDivUnit, BranchRedirect, Raises, StoreData, StoreMask, LoadData, Merge,
         Bus, MemoryAfter, NewMem, BusOk;
    BusStep(l, s.p, s.bus, i);
  }

  // And the effect on memory comes with the last answer, once.
  lemma MemoryWaits(l: Leaf, prog: Program, s: System, i: In, a: Arch)
    requires Spaced(s.p) && BusOk(l, s.p, s.bus) && Allowed(l, prog, s, i) && !WbRedirect(s.p)
    requires s.p.mem.InMem? && MemOk(l, prog, s.p.mem, s.denied, s.taken, a) && ResvOk(l, prog, s.p, a)
             && Plain(prog, a)
    requires StallMem(s.p) && s.mem == if s.p.mem.pending then a.mem else Step(l, prog, a).mem
    ensures var q := Next(l, s.p, i);
            && q.mem.InMem? && MemOk(l, prog, q.mem, s.denied, s.taken, a) && ResvOk(l, prog, q, a)
            && MemRuns(s.p) && MemRuns(q)
            && MemoryAfter(l, s.p, s.mem, s.bus, i) == if q.mem.pending then a.mem else Step(l, prog, a).mem
  {
    hide NextId, NextEx, NextPc, NextRegs, NextDivUnit, NextResv, BranchRedirect, Raises, StoreData, StoreMask,
         LoadData, Merge, Bus, ResvOk;
    AccessGoesOn(l, prog, s, i, a);
    BusStep(l, s.p, s.bus, i);
    NoAnswerNoEffect(l, s, i);
  }

  lemma NoAnswerNoEffect(l: Leaf, s: System, i: In)
    ensures !i.memRsp ==> MemoryAfter(l, s.p, s.mem, s.bus, i) == s.mem
  {
  }

  // And when it moves on: WB receives the sequential result, or the trap.
  lemma MemoryLeaves(l: Leaf, prog: Program, s: System, i: In, a: Arch)
    requires Spaced(s.p) && BusOk(l, s.p, s.bus) && Allowed(l, prog, s, i) && !WbRedirect(s.p)
    requires s.p.mem.InMem? && MemOk(l, prog, s.p.mem, s.denied, s.taken, a) && ResvOk(l, prog, s.p, a)
             && Plain(prog, a)
    requires !StallMem(s.p) && s.mem == if s.p.mem.pending then a.mem else Past(l, prog, MemRuns(s.p), a).mem
    ensures WbOk(l, prog, NextWb(s.p), s.denied, s.taken, a) && NextWb(s.p).InWb?
    ensures MemoryAfter(l, s.p, s.mem, s.bus, i) == Past(l, prog, MemRuns(s.p), a).mem
    ensures MemRestarts(l, prog, s.p, a) <==> WbRedirect(Next(l, s.p, i))
    ensures !MemRestarts(l, prog, s.p, a) ==> Next(l, s.p, i).resv == Step(l, prog, a).resv
    ensures NextWb(s.p).trap <==> s.p.mem.trap || Traps(l, prog, a)
  {
    hide NextId, NextEx, NextPc, NextRegs, NextDivUnit, BranchRedirect, Raises, StoreData, StoreMask, LoadData, Merge;
    BusStep(l, s.p, s.bus, i);
  }

  lemma SameOperands(l: Leaf, p: Pipe, a: Arch)
    requires p.ex.InEx? && (p.ex.irq || p.divStarted || OperandsOk(p, a)) && (p.divStarted ==> p.ex.insn.kind.Div?)
    ensures var i, c, d := p.ex.insn, ReadReg(a.regs, p.ex.insn.rs1), ReadReg(a.regs, p.ex.insn.rs2);
            !p.ex.irq ==>
              && AddressTrap(l, i, p.ex.pc, OperandA(p), OperandB(p)) == AddressTrap(l, i, p.ex.pc, c, d)
              && Takes(l, i, OperandA(p), OperandB(p)) == Takes(l, i, c, d)
              && (Takes(l, i, c, d) ==> Target(l, i, p.ex.pc, OperandA(p)) == Target(l, i, p.ex.pc, c))
              && (i.kind.Load? || i.kind.Store? || IsAtomic(i.kind) ==> Address(l, i, OperandA(p)) == Address(l, i, c))
              && (!i.kind.Div? && WritesRd(i) && !i.kind.Load? && !i.kind.Csr? && !IsAtomic(i.kind) ==>
                    Arith(l, i, p.ex.pc, OperandA(p), OperandB(p)) == Arith(l, i, p.ex.pc, c, d))
  {
    hide Forward;
    var i, c, d := p.ex.insn, ReadReg(a.regs, p.ex.insn.rs1), ReadReg(a.regs, p.ex.insn.rs2);
    if !p.ex.irq && !p.divStarted {
      OnlyUsedOperands(l, i, p.ex.pc, OperandA(p), OperandB(p), c, d);
    }
  }

  // The redirect decision and target are the sequential ones.
  lemma BranchStage(l: Leaf, prog: Program, p: Pipe, denied: bool, a: Arch)
    requires p.ex.InEx? && ExOk(l, prog, p, denied, a) && DivOk(l, p, a) && !StallEx(p)
    ensures BranchRedirect(l, p) <==>
              !ExTrap(l, p) && Takes(l, p.ex.insn, ReadReg(a.regs, p.ex.insn.rs1), ReadReg(a.regs, p.ex.insn.rs2))
    ensures BranchRedirect(l, p) ==>
              !Traps(l, prog, a) && Target(l, p.ex.insn, p.ex.pc, OperandA(p)) == Step(l, prog, a).pc
  {
    hide Result, NewMem, NewResv, Forward, AddressTrap, Target;
    SameOperands(l, p, a);
  }

  lemma WordStore(a: Word, v: Word)
    ensures StoreData(2, a, v) == v
  {
  }

  // EX hands MEM the right result, address and store data.
  lemma ExecuteStage(l: Leaf, prog: Program, p: Pipe, denied: bool, taken: bool, a: Arch)
    requires p.ex.InEx? && ExOk(l, prog, p, denied, a) && DivOk(l, p, a) && Plain(prog, a) && p.resv == a.resv
    requires !StallEx(p) && taken == p.ex.irq
    ensures MemOk(l, prog, IntoMem(l, p), denied, taken, a)
    ensures !ExTrap(l, p) ==> (IntoMem(l, p).pending <==> Accesses(l, p.ex.insn, a))
    ensures IntoMem(l, p).trap <==> ExTrap(l, p)
    ensures BranchRedirect(l, p) <==>
              !ExTrap(l, p) && Takes(l, p.ex.insn, ReadReg(a.regs, p.ex.insn.rs1), ReadReg(a.regs, p.ex.insn.rs2))
    ensures BranchRedirect(l, p) ==>
              !Traps(l, prog, a) && Target(l, p.ex.insn, p.ex.pc, OperandA(p)) == Step(l, prog, a).pc
  {
    hide BranchRedirect, Traps, Step, Forward, NewMem, LoadData, StoreData, StoreMask, AddressTrap, Target, Arith,
         Align, Address;
    WordStore(Address(l, p.ex.insn, OperandA(p)), OperandB(p));
    SameOperands(l, p, a);
    BranchStage(l, prog, p, denied, a);
  }

  // A register snapshot taken on the way into EX, repaired by forwarding, is the operand the
  // sequential machine reads after the instructions still in WB and MEM.
  lemma OperandsArrive(l: Leaf, prog: Program, q: Pipe, denied: bool, taken: bool, wbState: Arch, memState: Arch,
                       exState: Arch)
    requires q.ex.InEx? && Spaced(q) && SerialAlone(q)
    requires q.regs == wbState.regs
    requires q.ex.a == ReadReg(q.regs, q.ex.insn.rs1) && q.ex.b == ReadReg(q.regs, q.ex.insn.rs2)
    requires WbOk(l, prog, q.wb, denied, taken, wbState) && MemOk(l, prog, q.mem, denied, taken, memState)
    requires Clean(l, prog, q, memState)
    requires memState == Past(l, prog, WbRuns(q), wbState)
    requires exState == Past(l, prog, MemRuns(q), memState)
    ensures OperandsOk(q, exState)
  {
  }

  // What has just come from ID.
  predicate Dispatched(l: Leaf, prog: Program, q: Pipe, denied: bool, s: Arch)
    requires q.ex.InEx?
  {
    if q.ex.irq then Interrupts(s, q.ex.pc, q.ex.insn)
    else
      && Holds(prog, s, q.ex.pc, q.ex.insn) && q.ex.fault == !prog.fetchOk(s.pc)
      && (q.ex.insn.kind.Illegal? ==> q.ex.illegal)
      && (q.ex.illegal ==> Raises(l, prog, s) || Foreign(q.ex.insn.kind))
      && (Foreign(q.ex.insn.kind) ==> q.ex.illegal == denied)
      && q.ex.a == ReadReg(q.regs, q.ex.insn.rs1) && q.ex.b == ReadReg(q.regs, q.ex.insn.rs2)
  }

  // ID -> EX, including the divider's operand capture while a divide waits.
  lemma DispatchStage(l: Leaf, prog: Program, p: Pipe, denied: bool, i: In, exState: Arch, idState: Arch)
    requires Spaced(p) && !WbRedirect(p)
    requires ExOk(l, prog, p, denied, exState) && DivOk(l, p, exState)
    requires p.ex.InEx? && p.ex.insn.kind.Div? ==> !p.ex.irq
    ensures var q := Next(l, p, i);
            && (StallEx(p) && p.ex.InEx? ==>
                  && q.ex == p.ex && q.divStarted && DivOk(l, q, exState) && !Dispatches(p, i))
            && (!(StallEx(p) && p.ex.InEx?) ==>
                  && !q.divStarted && !q.divLatched && q.divUnit.DivIdle? && (q.ex.InEx? <==> Dispatches(p, i))
                  && (q.ex.InEx? ==> q.ex.irq == p.id.irq)
                  && (q.ex.InEx? && IdOk(prog, p, idState) ==> Dispatched(l, prog, q, i.privIllegal, idState)))
  {
    hide IntoMem, HoldMem, NextPc, NextWb, NextResv;
    if p.ex.InEx? && p.ex.insn.kind.Div? && !p.divStarted {
      assert OperandsOk(p, exState);
    }
  }

  // The fetcher and ID: what reaches ID next is the instruction after the youngest one held.
  lemma FetchStage(l: Leaf, prog: Program, s: System, i: In, exState: Arch, idState: Arch, nextState: Arch)
    requires var p := s.p;
             && Spaced(p) && !WbRedirect(p) && !p.trapPending && Allowed(l, prog, s, i) && !Doomed(p)
             && ExOk(l, prog, p, s.denied, exState) && DivOk(l, p, exState) && IdOk(prog, p, idState)
             && (p.ex.InEx? ==>
                   p.resv == exState.resv && Plain(prog, exState) && (StallEx(p) || !ExRestarts(l, prog, p, exState)))
             && idState == (if p.ex.InEx? then Step(l, prog, exState) else exState)
             && nextState == (if p.id.InId? then Step(l, prog, idState) else idState)
             && (Interrupting(p) || FetchOk(p, nextState.pc))
    ensures var p, q := s.p, Next(l, s.p, i);
            && (q.id.InId? ==> IdOk(prog, q, if Dispatches(p, i) then nextState else idState))
            && !(q.id.InId? && Dispatches(p, i))
            && (Interrupting(p) && !(p.ex.InEx? && p.ex.irq && !StallEx(p)) ==> Interrupting(q))
            && (Interrupting(q) || Interrupting(p) || FetchOk(q, nextState.pc))
  {
    hide NextMem, NextWb, NextResv, NextDivUnit, NextRegs, MemoryAfter, Bus;
    if s.p.ex.InEx? && !StallEx(s.p) { ExecuteStage(l, prog, s.p, s.denied, s.p.ex.irq, exState); }
  }

  // What the CSR file and the interrupt line have to do with the instruction in WB.
  function EnvOf(s: System, i: In): Env {
    Env(i.trapVector, i.mepc, i.sepc, i.csrRdata, s.denied, s.taken)
  }

  // WB writes the register file as the sequential step does, and retires what it retires.
  lemma RetireStage(l: Leaf, prog: Program, s: System, i: In, a: Arch)
    requires WbOk(l, prog, s.p.wb, s.denied, s.taken, a) && s.p.regs == a.regs && s.p.wb.InWb?
    ensures NextRegs(s.p, i) == Resume(l, prog, a, EnvOf(s, i)).regs
    ensures !WbRedirect(s.p) && !s.p.wb.insn.kind.Csr? ==> Resume(l, prog, a, EnvOf(s, i)) == Step(l, prog, a)
    ensures !WbRedirect(s.p) ==>
              Resume(l, prog, a, EnvOf(s, i)) == Step(l, prog, a).(regs := Resume(l, prog, a, EnvOf(s, i)).regs)
    ensures Commit(s.p, i) == [RetireOf(l, prog, a, EnvOf(s, i))]
    ensures s.p.wb.trap <==> TrapsIn(l, prog, a, EnvOf(s, i))
  {
    hide Traps, Result, AddressTrap;
  }

  // The state the next instruction to retire executes in, after this cycle.
  function Retired(l: Leaf, prog: Program, s: System, i: In, wb: Arch): Arch {
    if s.p.wb.InWb? then Resume(l, prog, wb, EnvOf(s, i)) else wb
  }

  // A CSR access in WB: the pipeline holds nothing else but what waits in ID.
  predicate CsrInWb(p: Pipe) { p.wb.InWb? && p.wb.insn.kind.Csr? }

  lemma RetiredIsPast(l: Leaf, prog: Program, s: System, i: In, wb: Arch)
    requires WbOk(l, prog, s.p.wb, s.denied, s.taken, wb) && s.p.regs == wb.regs && !WbRedirect(s.p) && !CsrInWb(s.p)
    ensures Retired(l, prog, s, i, wb) == Past(l, prog, WbRuns(s.p), wb)
    ensures NextRegs(s.p, i) == Past(l, prog, WbRuns(s.p), wb).regs
  {
    hide Resume, RetireOf, Commit;
    if s.p.wb.InWb? { RetireStage(l, prog, s, i, wb); }
  }

  lemma WbEmptyOk(l: Leaf, prog: Program, wb: Wb, denied: bool, taken: bool, a: Arch)
    requires wb.WbEmpty?
    ensures WbOk(l, prog, wb, denied, taken, a)
  {
  }

  lemma MemEmptyOk(l: Leaf, prog: Program, m: MemStage, denied: bool, taken: bool, a: Arch)
    requires m.MemEmpty?
    ensures MemOk(l, prog, m, denied, taken, a)
  {
  }

  lemma TakenStep(l: Leaf, s: System, i: In)
    requires Spaced(s.p) && TakenOk(s.p, s.taken) && !(s.taken && s.p.wb.InWb? && !WbRedirect(s.p))
    ensures TakenOk(Next(l, s.p, i), Cycle(l, s, i).taken)
  {
    hide NextPc, NextRegs, NextDivUnit, MemoryAfter, BusAfter, OperandA, OperandB;
  }

  lemma ShapeStep(l: Leaf, prog: Program, s: System, i: In, wb: Arch)
    requires Shape(l, s) && WbOk(l, prog, s.p.wb, s.denied, s.taken, wb) && Allowed(l, prog, s, i) && !Escapes(s.p, i)
    ensures Shape(l, Cycle(l, s, i))
  {
    hide Next, TakenOk, BusOk, SerialAlone, Spaced, Traps;
    SpacedStep(l, s.p, i);
    SerialAloneStep(l, s.p, i);
    TakenStep(l, s, i);
    BusStep(l, s.p, s.bus, i);
  }

  // An interrupt in flight and the legality of a system instruction stay on record until it retires.
  lemma RecordKept(l: Leaf, prog: Program, s: System, i: In, wb: Arch)
    requires Shape(l, s) && WbOk(l, prog, s.p.wb, s.denied, s.taken, wb) && !WbRedirect(s.p)
    ensures Cycle(l, s, i).taken == (s.taken || IrqInject(s.p, i))
    ensures s.p.mem.InMem? ==> Cycle(l, s, i).taken == s.taken
    ensures (s.p.ex.InEx? && Foreign(s.p.ex.insn.kind)) || (s.p.mem.InMem? && Foreign(s.p.mem.insn.kind)) ==>
              !Dispatches(s.p, i) && Cycle(l, s, i).denied == s.denied
    ensures StallEx(s.p) ==> !Dispatches(s.p, i) && Cycle(l, s, i).denied == s.denied
  {
    hide Next, BusAfter, MemoryAfter, Traps, LoadUse;
  }

  // MEM is waiting: nothing moves but the data handshake, the fetcher and the retiring WB.
  lemma CycleMemStalled(l: Leaf, prog: Program, s: System, i: In, wb: Arch)
    requires Coupled(l, prog, s, wb) && Allowed(l, prog, s, i) && !WbRedirect(s.p) && !CsrInWb(s.p)
    requires StallMem(s.p)
    requires var m := Past(l, prog, WbRuns(s.p), wb); Plain(prog, m) && Plain(prog, Step(l, prog, m))
    ensures Coupled(l, prog, Cycle(l, s, i), Past(l, prog, WbRuns(s.p), wb))
  {
    hide RunningOk, TrappedOk, ResvOk, WbOk, Raises, Exec, NextRegs, HoldMem, BusAfter, MemoryAfter, Bus, BusOk,
         TakenOk;
    var p, q := s.p, Next(l, s.p, i);
    var m := Past(l, prog, WbRuns(p), wb);
    var e := Step(l, prog, m);
    ShapeStep(l, prog, s, i, wb);
    RecordKept(l, prog, s, i, wb);
    RetiredIsPast(l, prog, s, i, wb);
    MemoryWaits(l, prog, s, i, m);
    WbEmptyOk(l, prog, q.wb, s.denied, s.taken, m);
    assert q.wb.WbEmpty? && q.mem.InMem? && q.ex.ExEmpty?;
    WaitingKeepsKind(l, prog, s.p, i, m);
    if !MemRestarts(l, prog, p, m) {
      DispatchStage(l, prog, p, s.denied, i, e, e);
      FetchStage(l, prog, s, i, e, e, Past(l, prog, p.id.InId?, e));
    }
  }

  lemma WaitingKeepsKind(l: Leaf, prog: Program, p: Pipe, i: In, m: Arch)
    requires StallMem(p) && !WbRedirect(p)
    ensures var q := Next(l, p, i); q.mem.InMem? && q.mem.insn == p.mem.insn && q.mem.trap == p.mem.trap
    ensures MemRestarts(l, prog, Next(l, p, i), m) <==> MemRestarts(l, prog, p, m)
  {
    hide NextId, NextEx, NextPc, NextRegs, NextDivUnit, BranchRedirect, Traps, LoadData;
  }

  lemma OnlyAccessesWrite(l: Leaf, prog: Program, a: Arch)
    requires !Accesses(l, prog.imem(a.pc), a)
    ensures Step(l, prog, a).mem == a.mem
  {
  }

  lemma DivideKeepsResv(l: Leaf, prog: Program, a: Arch)
    ensures prog.imem(a.pc).kind.Div? ==> Step(l, prog, a).resv == a.resv
  {
  }

  // What a cycle in which MEM moves does to WB, to memory and to the bus.
  lemma BackFlows(l: Leaf, prog: Program, s: System, i: In, wb: Arch)
    requires Coupled(l, prog, s, wb) && Allowed(l, prog, s, i) && !WbRedirect(s.p) && !CsrInWb(s.p) && !StallMem(s.p)
    requires Plain(prog, Past(l, prog, WbRuns(s.p), wb))
    ensures var p, z := s.p, Cycle(l, s, i);
            var m := Past(l, prog, WbRuns(p), wb);
            var e := Past(l, prog, MemRuns(p), m);
            && Shape(l, z) && z.p.regs == m.regs && z.mem == e.mem
            && WbOk(l, prog, z.p.wb, z.denied, z.taken, m) && (z.p.wb.InWb? <==> p.mem.InMem?)
            && (WbRedirect(z.p) <==> MemRestarts(l, prog, p, m))
            && (z.p.wb.InWb? ==> (z.p.wb.trap <==> p.mem.trap || Traps(l, prog, m)))
            && (!StallEx(p) && p.ex.InEx? ==> z.p.mem == IntoMem(l, p) && z.p.mem.InMem?)
            && (StallEx(p) || p.ex.ExEmpty? ==> z.p.mem.MemEmpty?)
            && (Clean(l, prog, p, m) ==> z.p.resv == e.resv && (p.ex.InEx? ==> p.resv == e.resv))
  {
    hide RunningOk, TrappedOk, Exec, Raises, Traps, NextRegs, ExOk, IdOk, FetchOk, DivOk, OperandA, OperandB, NextId,
         NextEx, NextPc, BusAfter, Bus, BusOk, TakenOk;
    var p := s.p;
    var m := Past(l, prog, WbRuns(p), wb);
    ShapeStep(l, prog, s, i, wb);
    RecordKept(l, prog, s, i, wb);
    RetiredIsPast(l, prog, s, i, wb);
    if p.mem.InMem? {
      MemoryLeaves(l, prog, s, i, m);
      ForeignKept(l, prog, s, i, m);
      if p.ex.InEx? && !MemRestarts(l, prog, p, m) { DivideInMem(l, prog, s, m); }
    } else {
      WbEmptyOk(l, prog, NextWb(p), Cycle(l, s, i).denied, Cycle(l, s, i).taken, m);
      NoAccessNoEffect(l, s, i);
    }
  }

  // What WB is told of the instruction that arrives does not change on the way.
  lemma ForeignKept(l: Leaf, prog: Program, s: System, i: In, a: Arch)
    requires s.p.mem.InMem? && WbOk(l, prog, NextWb(s.p), s.denied, s.taken, a) && Cycle(l, s, i).taken == s.taken
    requires Foreign(s.p.mem.insn.kind) ==> Cycle(l, s, i).denied == s.denied
    ensures WbOk(l, prog, NextWb(s.p), Cycle(l, s, i).denied, Cycle(l, s, i).taken, a)
  {
    hide Next, BusAfter, MemoryAfter, Traps, Result;
  }

  lemma NoAccessNoEffect(l: Leaf, s: System, i: In)
    requires s.p.mem.MemEmpty? && BusOk(l, s.p, s.bus)
    ensures MemoryAfter(l, s.p, s.mem, s.bus, i) == s.mem
  {
  }

  lemma DivideInMem(l: Leaf, prog: Program, s: System, m: Arch)
    requires s.p.mem.InMem? && s.p.mem.insn.kind.Div? && MemOk(l, prog, s.p.mem, s.denied, s.taken, m)
    requires ResvOk(l, prog, s.p, m) && !MemRestarts(l, prog, s.p, m)
    ensures s.p.resv == Step(l, prog, m).resv
  {
    DivideKeepsResv(l, prog, m);
  }

  // MEM moves but a divide holds EX.
  lemma CycleDivStalled(l: Leaf, prog: Program, s: System, i: In, wb: Arch)
    requires Coupled(l, prog, s, wb) && Allowed(l, prog, s, i) && !WbRedirect(s.p) && !CsrInWb(s.p)
    requires !StallMem(s.p) && DivStall(s.p)
    requires var m := Past(l, prog, WbRuns(s.p), wb);
             var e := Past(l, prog, MemRuns(s.p), m);
             Plain(prog, m) && Plain(prog, e) && Plain(prog, Step(l, prog, e))
    ensures Coupled(l, prog, Cycle(l, s, i), Past(l, prog, WbRuns(s.p), wb))
  {
    hide RunningOk, TrappedOk, WbOk, Raises, Exec, NextRegs, HoldMem, IntoMem, Traps, BusAfter, MemoryAfter, Shape;
    var p, q := s.p, Next(l, s.p, i);
    var m := Past(l, prog, WbRuns(p), wb);
    var e := Past(l, prog, MemRuns(p), m);
    var d := Step(l, prog, e);
    BackFlows(l, prog, s, i, wb);
    DivStallShape(l, s);
    RecordKept(l, prog, s, i, wb);
    assert q.mem.MemEmpty? && q.ex == p.ex;
    MemEmptyOk(l, prog, q.mem, Cycle(l, s, i).denied, Cycle(l, s, i).taken, e);
    if !MemRestarts(l, prog, p, m) {
      DispatchStage(l, prog, p, s.denied, i, e, d);
      if !Doomed(p) { FetchStage(l, prog, s, i, e, d, Past(l, prog, p.id.InId?, d)); }
    }
  }

  lemma DivStallShape(l: Leaf, s: System)
    requires Shape(l, s)
    ensures Spaced(s.p) && (s.p.ex.InEx? && s.p.ex.irq ==> s.p.mem.MemEmpty?)
  {
  }

  lemma FreshResv(l: Leaf, prog: Program, p: Pipe, q: Pipe, denied: bool, taken: bool, a: Arch)
    requires p.ex.InEx? && q.mem == IntoMem(l, p) && q.resv == a.resv && MemOk(l, prog, q.mem, denied, taken, a)
    requires !ExTrap(l, p) ==> (q.mem.pending <==> Accesses(l, p.ex.insn, a))
    ensures ResvOk(l, prog, q, a)
  {
    hide RunningOk, TrappedOk, Exec;
  }

  // Who is taken and who was denied, as an instruction goes from EX to MEM.
  lemma IntoMemRecord(l: Leaf, prog: Program, s: System, i: In, wb: Arch, e: Arch)
    requires Shape(l, s) && WbOk(l, prog, s.p.wb, s.denied, s.taken, wb) && !WbRedirect(s.p) && !StallEx(s.p)
    requires s.p.ex.InEx? && ExOk(l, prog, s.p, s.denied, e)
    requires MemOk(l, prog, IntoMem(l, s.p), s.denied, s.p.ex.irq, e)
    requires s.p.mem.InMem? ==> !s.taken
    ensures MemOk(l, prog, IntoMem(l, s.p), Cycle(l, s, i).denied, Cycle(l, s, i).taken, e)
  {
    hide Next, BusAfter, MemoryAfter, Traps, Raises, IntoMem, AccessOk, OperandsOk, BusOk;
    RecordKept(l, prog, s, i, wb);
    DeniedMatters(l, prog, IntoMem(l, s.p), s.denied, Cycle(l, s, i).denied, Cycle(l, s, i).taken, e);
  }

  lemma DeniedMatters(l: Leaf, prog: Program, m: MemStage, was: bool, denied: bool, taken: bool, a: Arch)
    requires MemOk(l, prog, m, was, taken, a) && (m.InMem? && Foreign(m.insn.kind) ==> was == denied)
    ensures MemOk(l, prog, m, denied, taken, a)
  {
    hide AccessOk, Raises;
  }

  // A restarting instruction in MEM or EX moves on.
  lemma FlowRestart(l: Leaf, prog: Program, s: System, i: In, wb: Arch)
    requires Coupled(l, prog, s, wb) && Allowed(l, prog, s, i) && !WbRedirect(s.p) && !CsrInWb(s.p) && !StallEx(s.p)
    requires var m := Past(l, prog, WbRuns(s.p), wb);
             var e := Past(l, prog, MemRuns(s.p), m);
             && Plain(prog, m) && Plain(prog, e)
             && (MemRestarts(l, prog, s.p, m) || ExRestarts(l, prog, s.p, e))
    ensures Coupled(l, prog, Cycle(l, s, i), Past(l, prog, WbRuns(s.p), wb))
  {
    hide RunningOk, TrappedOk, Exec, Raises, Traps, NextRegs, MemoryAfter, BusAfter, WbOk, NextWb, OperandsOk,
         StoreData, StoreMask, Arith, Shape;
    var p, z := s.p, Cycle(l, s, i);
    var m := Past(l, prog, WbRuns(p), wb);
    var e := Past(l, prog, MemRuns(p), m);
    BackFlows(l, prog, s, i, wb);
    if !MemRestarts(l, prog, p, m) {
      ExecuteStage(l, prog, p, s.denied, p.ex.irq, e);
      if p.mem.InMem? && s.taken { TakenInMem(l, prog, s, m); }
      IntoMemRecord(l, prog, s, i, wb, e);
      FreshResv(l, prog, p, z.p, z.denied, z.taken, e);
      if !Accesses(l, p.ex.insn, e) && !p.ex.irq { OnlyAccessesWrite(l, prog, e); }
    }
  }

  lemma TakenInMem(l: Leaf, prog: Program, s: System, m: Arch)
    requires MemOk(l, prog, s.p.mem, s.denied, s.taken, m) && s.p.mem.InMem? && s.taken
    ensures MemRestarts(l, prog, s.p, m)
  {
  }

  // Every stage moves and nothing in MEM or EX restarts the pipeline: what arrives in MEM.
  lemma FlowIntoMem(l: Leaf, prog: Program, s: System, i: In, wb: Arch)
    requires Coupled(l, prog, s, wb) && Allowed(l, prog, s, i) && !WbRedirect(s.p) && !CsrInWb(s.p) && !StallEx(s.p)
    requires var m := Past(l, prog, WbRuns(s.p), wb);
             var e := Past(l, prog, MemRuns(s.p), m);
             && Plain(prog, m) && Plain(prog, e) && Plain(prog, Past(l, prog, s.p.ex.InEx?, e))
             && !MemRestarts(l, prog, s.p, m) && !ExRestarts(l, prog, s.p, e)
    ensures var z := Cycle(l, s, i);
            var m := Past(l, prog, WbRuns(s.p), wb);
            var e := Past(l, prog, MemRuns(s.p), m);
            && MemOk(l, prog, z.p.mem, z.denied, z.taken, e) && ResvOk(l, prog, z.p, e) && !z.p.trapPending
            && MemoryOf(l, prog, z.p, m) == e.mem
            && MemRuns(z.p) == s.p.ex.InEx? && !MemRestarts(l, prog, z.p, e)
  {
    hide RunningOk, TrappedOk, Exec, Traps, NextRegs, WbOk, NextWb, OperandsOk, Accesses, Raises, NextResv, FetchOk,
         NextId, NextEx, StoreData, StoreMask, Arith, Shape, MemoryAfter, BusAfter;
    var p, z := s.p, Cycle(l, s, i);
    var m := Past(l, prog, WbRuns(p), wb);
    var e := Past(l, prog, MemRuns(p), m);
    BackFlows(l, prog, s, i, wb);
    if p.ex.InEx? {
      ExecuteStage(l, prog, p, s.denied, p.ex.irq, e);
      if p.mem.InMem? && s.taken { TakenInMem(l, prog, s, m); }
      IntoMemRecord(l, prog, s, i, wb, e);
      FreshResv(l, prog, p, z.p, z.denied, z.taken, e);
      if !z.p.mem.pending { OnlyAccessesWrite(l, prog, e); }
    } else {
      MemEmptyOk(l, prog, z.p.mem, z.denied, z.taken, e);
    }
  }

  // And what arrives in EX and ID, and where the fetcher is.
  lemma FlowIntoEx(l: Leaf, prog: Program, s: System, i: In, wb: Arch)
    requires Coupled(l, prog, s, wb) && Allowed(l, prog, s, i) && !WbRedirect(s.p) && !CsrInWb(s.p) && !StallEx(s.p)
    requires var m := Past(l, prog, WbRuns(s.p), wb);
             var e := Past(l, prog, MemRuns(s.p), m);
             && Plain(prog, m) && Plain(prog, e) && Plain(prog, Past(l, prog, s.p.ex.InEx?, e))
             && !MemRestarts(l, prog, s.p, m) && !ExRestarts(l, prog, s.p, e)
    ensures var z := Cycle(l, s, i);
            var d := Past(l, prog, s.p.ex.InEx?, Past(l, prog, MemRuns(s.p), Past(l, prog, WbRuns(s.p), wb)));
            FrontOk(l, prog, z.p, z.denied, d, Past(l, prog, z.p.ex.InEx?, d))
  {
    hide Exec, NextRegs, MemoryAfter, BusAfter, WbOk, NextWb, NextMem, MemOk, OperandsOk, Accesses, Raises, NextResv,
         ResvOk, MemoryOf, Traps, MemRestarts, Shape, BusOk;
    var p, z := s.p, Cycle(l, s, i);
    var m := Past(l, prog, WbRuns(p), wb);
    var e := Past(l, prog, MemRuns(p), m);
    var d := Past(l, prog, p.ex.InEx?, e);
    BackFlows(l, prog, s, i, wb);
    DivStallShape(l, s);
    FlowIntoMem(l, prog, s, i, wb);
    DispatchStage(l, prog, p, s.denied, i, e, d);
    FetchStage(l, prog, s, i, e, d, Past(l, prog, p.id.InId?, d));
    if z.p.ex.InEx? && !z.p.ex.irq { OperandsAfterFlow(l, prog, z, m, e, d); }
  }

  lemma FlowClean(l: Leaf, prog: Program, s: System, i: In, wb: Arch)
    requires Coupled(l, prog, s, wb) && Allowed(l, prog, s, i) && !WbRedirect(s.p) && !CsrInWb(s.p) && !StallEx(s.p)
    requires var m := Past(l, prog, WbRuns(s.p), wb);
             var e := Past(l, prog, MemRuns(s.p), m);
             && Plain(prog, m) && Plain(prog, e) && Plain(prog, Past(l, prog, s.p.ex.InEx?, e))
             && !MemRestarts(l, prog, s.p, m) && !ExRestarts(l, prog, s.p, e)
    ensures Coupled(l, prog, Cycle(l, s, i), Past(l, prog, WbRuns(s.p), wb))
  {
    hide Exec, Next, MemoryAfter, BusAfter, WbOk, IntoMem, MemOk, Accesses, Raises, ResvOk, MemoryOf, Traps,
         MemRestarts, Shape, FrontOk, ExRestarts;
    BackFlows(l, prog, s, i, wb);
    FlowIntoMem(l, prog, s, i, wb);
    FlowIntoEx(l, prog, s, i, wb);
  }

  lemma OperandsAfterFlow(l: Leaf, prog: Program, z: System, m: Arch, e: Arch, d: Arch)
    requires z.p.ex.InEx? && Shape(l, z) && z.p.regs == m.regs
    requires z.p.ex.a == ReadReg(z.p.regs, z.p.ex.insn.rs1) && z.p.ex.b == ReadReg(z.p.regs, z.p.ex.insn.rs2)
    requires WbOk(l, prog, z.p.wb, z.denied, z.taken, m) && MemOk(l, prog, z.p.mem, z.denied, z.taken, e)
    requires !WbRedirect(z.p) && !MemRestarts(l, prog, z.p, e)
    requires e == Past(l, prog, WbRuns(z.p), m) && d == Past(l, prog, MemRuns(z.p), e)
    ensures OperandsOk(z.p, d)
  {
    hide RunningOk, TrappedOk, WbOk, OperandsOk, Exec, Traps;
    OperandsArrive(l, prog, z.p, z.denied, z.taken, m, e, d);
  }

  lemma CycleFlowing(l: Leaf, prog: Program, s: System, i: In, wb: Arch)
    requires Coupled(l, prog, s, wb) && Allowed(l, prog, s, i) && !WbRedirect(s.p) && !CsrInWb(s.p) && !StallEx(s.p)
    requires var m := Past(l, prog, WbRuns(s.p), wb);
             var e := Past(l, prog, MemRuns(s.p), m);
             Plain(prog, m) && Plain(prog, e) && Plain(prog, Past(l, prog, s.p.ex.InEx?, e))
    ensures Coupled(l, prog, Cycle(l, s, i), Past(l, prog, WbRuns(s.p), wb))
  {
    hide Coupled, Next, Traps, Plain, Step, MemRestarts, ExRestarts;
    var m := Past(l, prog, WbRuns(s.p), wb);
    var e := Past(l, prog, MemRuns(s.p), m);
    if MemRestarts(l, prog, s.p, m) || ExRestarts(l, prog, s.p, e) {
      FlowRestart(l, prog, s, i, wb);
    } else {
      FlowClean(l, prog, s, i, wb);
    }
  }

  // A CSR access retires without a redirect: nothing else is past ID, and what waits there has read
  // no register yet.
  lemma CycleDrains(l: Leaf, prog: Program, s: System, i: In, wb: Arch)
    requires Coupled(l, prog, s, wb) && Allowed(l, prog, s, i) && !WbRedirect(s.p) && CsrInWb(s.p)
    ensures Coupled(l, prog, Cycle(l, s, i), Retired(l, prog, s, i, wb))
  {
    hide Raises, Traps, IntoMem, HoldMem, NextRegs, Resume, Commit, RetireOf, MemoryAfter, BusAfter, BusOk;
    var p, q := s.p, Next(l, s.p, i);
    var m := Step(l, prog, wb);
    ShapeStep(l, prog, s, i, wb);
    RetireStage(l, prog, s, i, wb);
    assert p.mem.MemEmpty? && p.ex.ExEmpty?;
    NoAccessNoEffect(l, s, i);
    assert q.wb.WbEmpty? && q.mem.MemEmpty? && q.ex.ExEmpty? && !Dispatches(p, i);
    DispatchStage(l, prog, p, s.denied, i, m, m);
    FetchStage(l, prog, s, i, m, m, Past(l, prog, p.id.InId?, m));
  }

  // WB restarts the pipeline where the machine goes on, with nothing left of what was younger.
  lemma CycleRestarts(l: Leaf, prog: Program, s: System, i: In, wb: Arch)
    requires Coupled(l, prog, s, wb) && Allowed(l, prog, s, i) && WbRedirect(s.p) && !DivStall(s.p) && !Escapes(s.p, i)
    ensures Coupled(l, prog, Cycle(l, s, i), Retired(l, prog, s, i, wb))
  {
    hide Raises, IntoMem, HoldMem, NextRegs, Commit, RetireOf, AddressTrap, Result, MemoryAfter, BusAfter;
    RetireStage(l, prog, s, i, wb);
    ShapeStep(l, prog, s, i, wb);
    RedirectKeepsMemory(l, s, i);
  }

  lemma RedirectKeepsMemory(l: Leaf, s: System, i: In)
    requires Spaced(s.p) && BusOk(l, s.p, s.bus) && WbRedirect(s.p) && !Escapes(s.p, i)
    ensures MemoryAfter(l, s.p, s.mem, s.bus, i) == s.mem && BusAfter(l, s.p, s.bus, i) == []
  {
  }

  // ---- progress ----

  // A cycle in which the environment grants whatever the pipeline is waiting for.
  predicate Served(l: Leaf, p: Pipe, i: In) {
    && (FetchRequest(l, p, i) ==> i.fetchReady)
    && (p.inflight ==> i.fetchRsp)
    && (MemRequest(p) ==> i.memReady)
    && (p.mem.InMem? && p.mem.fired ==> i.memRsp)
    && (p.divUnit.DivBusy? ==> i.divDone)
  }

  // How many served cycles the oldest instruction is from WB, at most.
  function Distance(p: Pipe): nat {
    if p.wb.InWb? then 0
    else if p.mem.InMem? then
      (if !p.mem.pending then (if StallMem(p) then 2 else 1)
       else (if p.mem.insn.kind.Amo? && !p.mem.storeBeat then 2 else 0) + if p.mem.fired then 2 else 3)
    else if p.ex.InEx? then
      (if !p.ex.insn.kind.Div? then 6 else if p.divLatched then 7 else if p.divStarted then 8 else 9)
    else if p.id.InId? then (if p.id.irq then 10 else 11)
    else if !p.inflight then 13
    else if p.squash then 14
    else 12
  }

  // An instruction retires, or the oldest one holds its ground, or, in a served cycle, gets closer.
  predicate Moves(l: Leaf, p: Pipe, i: In) {
    || p.wb.InWb?
    || Distance(Next(l, p, i)) < Distance(p)
    || (!Served(l, p, i) && Distance(Next(l, p, i)) == Distance(p))
  }

  lemma Advances(l: Leaf, prog: Program, s: System, i: In, wb: Arch)
    requires Coupled(l, prog, s, wb) && s.p.wb.WbEmpty?
    ensures Moves(l, s.p, i)
  {
    hide AccessOk, Exec, Traps, Raises, NextRegs, NextResv, ResvOk, MemoryOf, OperandsOk, LoadData, StoreData,
         StoreMask, BusOk, TakenOk, SerialAlone;
  }

  lemma RetiringMoves(l: Leaf, p: Pipe, i: In)
    requires p.wb.InWb?
    ensures Moves(l, p, i)
  {
  }

  // ---- one cycle ----

  lemma WaitingRuns(l: Leaf, s: System)
    requires Shape(l, s) && StallMem(s.p)
    ensures MemRuns(s.p)
  {
  }

  // Whichever stages stall: the coupling is kept, and what leaves the core is the retirement of the
  // sequential instruction in WB.
  lemma CycleCoupled(l: Leaf, prog: Program, s: System, i: In, wb: Arch, m: Arch, e: Arch, d: Arch)
    requires Coupled(l, prog, s, wb) && Allowed(l, prog, s, i) && !(WbRedirect(s.p) && DivStall(s.p))
             && !Escapes(s.p, i)
    requires m == Past(l, prog, WbRuns(s.p), wb) && e == Past(l, prog, MemRuns(s.p), m)
             && d == Past(l, prog, s.p.ex.InEx?, e)
    requires Plain(prog, m) && Plain(prog, e) && Plain(prog, d)
    ensures Commit(s.p, i) == if s.p.wb.InWb? then [RetireOf(l, prog, wb, EnvOf(s, i))] else []
    ensures Moves(l, s.p, i)
    ensures Coupled(l, prog, Cycle(l, s, i), Retired(l, prog, s, i, wb))
  {
    hide Moves, MemOk, FrontOk, ResvOk, MemoryAfter, MemoryOf, Next, Plain, Exec, Traps, Resume, RetireOf, MemRestarts,
         Shape, Cycle;
    if s.p.wb.WbEmpty? {
      Advances(l, prog, s, i, wb);
    } else {
      RetireStage(l, prog, s, i, wb);
      RetiringMoves(l, s.p, i);
    }
    if WbRedirect(s.p) {
      CycleRestarts(l, prog, s, i, wb);
    } else if CsrInWb(s.p) {
      CycleDrains(l, prog, s, i, wb);
    } else {
      RetiredIsPast(l, prog, s, i, wb);
      if StallMem(s.p) {
        WaitingRuns(l, s);
        CycleMemStalled(l, prog, s, i, wb);
      } else if DivStall(s.p) {
        CycleDivStalled(l, prog, s, i, wb);
      } else {
        CycleFlowing(l, prog, s, i, wb);
      }
    }
  }

  // ---- whole runs ----

  // Straight on from s, staying at the first instruction that traps.
  function Ahead(l: Leaf, prog: Program, s: Arch, k: nat): Arch {
    if k == 0 then s else Step(l, prog, Ahead(l, prog, s, k - 1))
  }

  // The next n instructions are plain, or those up to the first that traps.
  predicate PlainAhead(l: Leaf, prog: Program, s: Arch, n: nat) {
    n == 0 || (PlainAhead(l, prog, s, n - 1) && Plain(prog, Ahead(l, prog, s, n - 1)))
  }

  // From every state the sequential machine passes through, the instructions a pipeline may hold are
  // plain.
  predicate PlainAlong(l: Leaf, prog: Program, s: Arch, envs: seq<Env>) {
    && PlainAhead(l, prog, Sequential(l, prog, s, envs), 4)
    && (envs == [] || PlainAlong(l, prog, s, envs[..|envs| - 1]))
  }

  // What the CSR file and the interrupt line said to each instruction that retired.
  function Envs(l: Leaf, s: System, ins: seq<In>): seq<Env> {
    if ins == [] then []
    else
      var before := ins[..|ins| - 1];
      var now := After(l, s, before);
      Envs(l, s, before) + if now.p.wb.InWb? then [EnvOf(now, ins[|ins| - 1])] else []
  }

  // No trap or interrupt retires while a divide waits in EX, and no access younger than one is handed
  // to the bus: PipelineRedirect says exactly when either happens, and what follows.
  predicate TrapsContained(l: Leaf, s: System, ins: seq<In>) {
    ins == []
    || (&& TrapsContained(l, s, ins[..|ins| - 1])
        && var p := After(l, s, ins[..|ins| - 1]).p;
           !(p.wb.InWb? && p.wb.trap && DivStall(p)) && !Escapes(p, ins[|ins| - 1]))
  }

  lemma {:induction false} PlainAt(l: Leaf, prog: Program, s: Arch, n: nat, k: nat)
    requires k < n && PlainAhead(l, prog, s, n)
    ensures Plain(prog, Ahead(l, prog, s, k))
  {
    if k < n - 1 { PlainAt(l, prog, s, n - 1, k); }
  }

  // The sequential states the occupied stages hold are consecutive.
  lemma PastAt(l: Leaf, prog: Program, s: Arch, k: nat, runs: bool, next: nat)
    requires next == k + Count(runs)
    ensures Past(l, prog, runs, Ahead(l, prog, s, k)) == Ahead(l, prog, s, next)
  {
  }

  // Of the instructions that redirect at write-back, only one that traps can meet a divide in EX.
  lemma OnlyTrapsMeetDivides(l: Leaf, s: System)
    requires Shape(l, s) && WbRedirect(s.p) && DivStall(s.p)
    ensures s.p.wb.trap
  {
  }

  lemma CycleCoupledFrom(l: Leaf, prog: Program, s: System, i: In, wb: Arch)
    requires PlainAhead(l, prog, wb, 4) && Coupled(l, prog, s, wb) && Allowed(l, prog, s, i)
    requires !(s.p.wb.InWb? && s.p.wb.trap && DivStall(s.p)) && !Escapes(s.p, i)
    ensures Commit(s.p, i) == if s.p.wb.InWb? then [RetireOf(l, prog, wb, EnvOf(s, i))] else []
    ensures Moves(l, s.p, i)
    ensures Coupled(l, prog, Cycle(l, s, i), Retired(l, prog, s, i, wb))
  {
    hide Next, MemoryAfter, Commit, Moves, Allowed, Step, RetireOf, Plain, Resume, FrontOk, MemOk, ResvOk, Shape, Cycle;
    assert Ahead(l, prog, wb, 0) == wb;
    var m := Count(WbRuns(s.p));
    var e := m + Count(MemRuns(s.p));
    var d := e + Count(s.p.ex.InEx?);
    PastAt(l, prog, wb, 0, WbRuns(s.p), m);
    PastAt(l, prog, wb, m, MemRuns(s.p), e);
    PastAt(l, prog, wb, e, s.p.ex.InEx?, d);
    PlainAt(l, prog, wb, 4, m);
    PlainAt(l, prog, wb, 4, e);
    PlainAt(l, prog, wb, 4, d);
    if WbRedirect(s.p) && DivStall(s.p) { OnlyTrapsMeetDivides(l, s); }
    CycleCoupled(l, prog, s, i, wb, Ahead(l, prog, wb, m), Ahead(l, prog, wb, e), Ahead(l, prog, wb, d));
  }

  function ServedCycles(l: Leaf, s: System, ins: seq<In>): nat {
    if ins == [] then 0
    else
      ServedCycles(l, s, ins[..|ins| - 1])
      + if Served(l, After(l, s, ins[..|ins| - 1]).p, ins[|ins| - 1]) then 1 else 0
  }

  function Start(pc: Word, mem: Mem): Arch { Arch(pc, map[], mem, NoReservation) }

  lemma BootCoupled(l: Leaf, prog: Program, pc: Word, mem: Mem)
    ensures Coupled(l, prog, Boot(pc, mem), Start(pc, mem)) && Distance(Reset(pc)) <= 14
  {
  }

  lemma OneCommit(l: Leaf, s: System, i: In)
    ensures Cycle(l, s, i).log == s.log + Commit(s.p, i) && Cycle(l, s, i).p == Next(l, s.p, i)
    ensures Distance(s.p) <= 14 && Distance(Next(l, s.p, i)) <= 14 && (s.p.wb.InWb? ==> Distance(s.p) == 0)
  {
    hide Next, MemoryAfter, BusAfter;
  }

  // Every reachable system is coupled to the state the sequential machine is in after as many
  // instructions as the pipeline has retired.
  lemma {:induction false} RunCoupled(l: Leaf, prog: Program, pc: Word, mem: Mem, ins: seq<In>)
    requires AllowedRun(l, prog, Boot(pc, mem), ins) && TrapsContained(l, Boot(pc, mem), ins)
    requires PlainAlong(l, prog, Start(pc, mem), Envs(l, Boot(pc, mem), ins))
    ensures var s0, s, envs := Start(pc, mem), After(l, Boot(pc, mem), ins), Envs(l, Boot(pc, mem), ins);
            && Coupled(l, prog, s, Sequential(l, prog, s0, envs))
            && s.log == Retirements(l, prog, s0, envs) && |s.log| == |envs|
            && ServedCycles(l, Boot(pc, mem), ins) + Distance(s.p) <= 15 * |s.log| + 14
  {
    hide Cycle, Commit, Coupled, Served, Resume, RetireOf, Allowed, PlainAhead, DivStall, EnvOf, Escapes, Distance;
    if ins == [] {
      BootCoupled(l, prog, pc, mem);
    } else {
      var before, i := ins[..|ins| - 1], ins[|ins| - 1];
      var s, envs := After(l, Boot(pc, mem), before), Envs(l, Boot(pc, mem), before);
      if s.p.wb.InWb? { assert (envs + [EnvOf(s, i)])[..|envs|] == envs; } else { assert envs + [] == envs; }
      RunCoupled(l, prog, pc, mem, before);
      OneCommit(l, s, i);
      CycleCoupledFrom(l, prog, s, i, Sequential(l, prog, Start(pc, mem), envs));
    }
  }

  lemma CoupledMeans(l: Leaf, prog: Program, s: System, wb: Arch)
    requires Coupled(l, prog, s, wb)
    ensures s.p.regs == wb.regs && s.mem == MemoryOf(l, prog, s.p, wb)
  {
  }

  // The main result. Take any program whose atomics have the one legal width. Then, whatever the
  // latencies, interrupts and CSR answers, as long as traps are contained: the pipeline has retired
  // exactly what the sequential machine retires in as many steps, once each, in order, with the values
  // and the traps; nothing fetched down a wrong path or behind a trap retires; and registers and memory
  // are those of the sequential machine (memory being ahead by the accesses already performed, see
  // MemoryIndex). And it does get there: served cycles can exceed 15 n by at most 14.
  lemma PipelineRefinesSequential(l: Leaf, prog: Program, pc: Word, mem: Mem, ins: seq<In>)
    requires AllowedRun(l, prog, Boot(pc, mem), ins) && TrapsContained(l, Boot(pc, mem), ins)
    requires PlainAlong(l, prog, Start(pc, mem), Envs(l, Boot(pc, mem), ins))
    ensures var s0, s, envs := Start(pc, mem), After(l, Boot(pc, mem), ins), Envs(l, Boot(pc, mem), ins);
            && s.log == Retirements(l, prog, s0, envs) && |s.log| == |envs|
            && s.p.regs == Sequential(l, prog, s0, envs).regs
            && s.mem == MemoryOf(l, prog, s.p, Sequential(l, prog, s0, envs))
            && ServedCycles(l, Boot(pc, mem), ins) <= 15 * |s.log| + 14
  {
    hide Coupled, Cycle, PlainAlong, MemoryOf, Step, Resume, Served, RetireOf;
    RunCoupled(l, prog, pc, mem, ins);
    CoupledMeans(l, prog, After(l, Boot(pc, mem), ins),
                 Sequential(l, prog, Start(pc, mem), Envs(l, Boot(pc, mem), ins)));
  }

  // Memory is the sequential memory so many instructions further on: never torn, never out of order.
  lemma MemoryIndex(l: Leaf, prog: Program, p: Pipe, wb: Arch)
    ensures MemoryOf(l, prog, p, wb) == Ahead(l, prog, wb, Performed(p)).mem
  {
    var m := Count(WbRuns(p));
    assert Ahead(l, prog, wb, 0) == wb;
    PastAt(l, prog, wb, 0, WbRuns(p), m);
    PastAt(l, prog, wb, m, MemRuns(p), m + Count(MemRuns(p)));
  }

  // Traps are precise, a waiting divide or not: what reaches WB is the next instruction of the
  // sequential machine, trapping exactly if that does, and a trap leaves the registers as they are in
  // front of it, with the reservation dropped and the next fetch at the vector. If nothing younger
  // hands an access to the bus in that cycle, memory is left so too, with nothing on its way.
  lemma TrapsArePrecise(l: Leaf, prog: Program, pc: Word, mem: Mem, ins: seq<In>, i: In)
    requires AllowedRun(l, prog, Boot(pc, mem), ins) && TrapsContained(l, Boot(pc, mem), ins)
    requires PlainAlong(l, prog, Start(pc, mem), Envs(l, Boot(pc, mem), ins))
    requires After(l, Boot(pc, mem), ins).p.wb.InWb?
    ensures var s := After(l, Boot(pc, mem), ins);
            var z, a := Cycle(l, s, i), Sequential(l, prog, Start(pc, mem), Envs(l, Boot(pc, mem), ins));
            && s.p.wb.pc == a.pc && (s.p.wb.trap <==> TrapsIn(l, prog, a, EnvOf(s, i)))
            && (s.p.wb.trap ==> z.p.regs == a.regs && z.p.resv == NoReservation && z.p.pc == i.trapVector)
            && (s.p.wb.trap && !Escapes(s.p, i) ==> z.mem == a.mem && z.bus == [])
  {
    hide MemOk, FrontOk, ResvOk, Traps, Resume, Retirements, PlainAlong, Envs, Served, MemoryAfter, BusAfter, BusOk,
         TakenOk, SerialAlone;
    RunCoupled(l, prog, pc, mem, ins);
    var s, a := After(l, Boot(pc, mem), ins), Sequential(l, prog, Start(pc, mem), Envs(l, Boot(pc, mem), ins));
    RetireStage(l, prog, s, i, a);
    if s.p.wb.trap && !Escapes(s.p, i) { RedirectKeepsMemory(l, s, i); }
  }
}
