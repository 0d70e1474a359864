/**
 The multicycle core (rtl/core/core_multicycle.sv): a six-state machine that runs one instruction at a
 time over memories of any latency.
 */
module Multicycle {
  import opened Rv32

  datatype Phase = Fetch | Exec | Mem | DivWait | AmoStore | AmoWait

  // What S_EXEC parks for the states that finish a memory access or a divide.
  datatype Parked = Parked(addr: Word, f3: Funct3, rd: Reg, pc: Word, load: bool, lr: bool, sc: bool, rmw: bool)

  datatype Core = Core(
    phase: Phase, pc: Word, insn: Insn, inflight: bool, squash: bool,
    parked: Parked, amoOld: Word, resv: Reservation, regs: Regs, div: DivUnit)

  // One cycle of everything outside: both buses, the divider, and what the CSR file says.
  datatype In = In(
    fetchReady: bool, fetchRsp: bool, fetchInsn: Insn, fetchFault: bool,
    memReady: bool, memRsp: bool, memData: Word, memFault: bool,
    divDone: bool, csr: CsrView)

  // The CSR file's outputs in a cycle.
  datatype CsrView = CsrView(irq: bool, irqCode: nat, tvec: Word, mepc: Word, sepc: Word, rdata: Word,
                             privIllegal: bool)

  const NOP := Insn(OpImm, 0, 0, 0, 0, 0x13)

  function Reset(pc: Word): Core {
    Core(Fetch, pc, NOP, false, false, Parked(0, 0, 0, 0, false, false, false, false), 0, NoReservation, map[], DivIdle)
  }

  function TrapBase(v: CsrView): Word { v.tvec - v.tvec % 4 }

  function IrqVector(v: CsrView): Word {
    if v.tvec % 2 == 1 then (TrapBase(v) + 4 * v.irqCode) % 0x1_0000_0000 else TrapBase(v)
  }

  // ---- decode and execute wires, from the register file ----

  function Rs1(c: Core): Word { ReadReg(c.regs, c.insn.rs1) }

  function Rs2(c: Core): Word { ReadReg(c.regs, c.insn.rs2) }

  predicate Privileged(k: Kind) { k.Csr? || k.Mret? || k.Sret? || k.Sfence? }

  // Exceptions raised before any memory access.
  predicate Raises(l: Leaf, i: Insn, pc: Word, a: Word, b: Word, v: CsrView) {
    || i.kind.Ecall? || i.kind.Ebreak? || i.kind.Illegal? || (Privileged(i.kind) && v.privIllegal)
    || AddressTrap(l, i, pc, a, b)
  }

  predicate ExecTrap(l: Leaf, c: Core, i: In) { Raises(l, c.insn, c.pc, Rs1(c), Rs2(c), i.csr) }

  function MemAddr(l: Leaf, c: Core): Word { Address(l, c.insn, Rs1(c)) }

  predicate ScHit(l: Leaf, c: Core) { c.resv == Reserved(Align(MemAddr(l, c))) }

  datatype MemReq = MemReq(addr: Word, wen: bool, wdata: Word, wmask: Mask)

  datatype MaybeReq = NoReq | Ask(req: MemReq)

  // The data bus request; read lanes are not masked by the memory.
  function DataRequest(l: Leaf, c: Core, i: In): MaybeReq {
    var k, addr := c.insn.kind, MemAddr(l, c);
    match c.phase
    case Exec =>
      if ExecTrap(l, c, i) then NoReq
      else if k.Load? || k.Lr? || k.Amo? then Ask(MemReq(Align(addr), false, 0, FULL_MASK))
      else if k.Store?
      then Ask(MemReq(Align(addr), true, StoreData(c.insn.f3, addr, Rs2(c)), StoreMask(c.insn.f3, addr)))
      else if k.Sc? && ScHit(l, c) then Ask(MemReq(Align(addr), true, Rs2(c), FULL_MASK))
      else NoReq
    case AmoStore => Ask(MemReq(Align(c.parked.addr), true, l.amo(c.insn, c.amoOld, Rs2(c)), FULL_MASK))
    case _ => NoReq
  }

  predicate FetchRequest(c: Core, i: In) { c.phase.Fetch? && !i.csr.irq }

  // ---- the next-state block, state by state ----

  // Any arriving response clears the tracker.
  function Tracked(c: Core, i: In): Core {
    if c.inflight && i.fetchRsp then c.(inflight := false, squash := false) else c
  }

  function AfterFetch(c: Core, i: In): Core {
    if i.csr.irq then
      Tracked(c, i).(pc := IrqVector(i.csr), squash := (c.inflight && !i.fetchRsp) || Tracked(c, i).squash)
    else
      var t := Tracked(c, i).(inflight := (i.fetchReady && !c.inflight) || Tracked(c, i).inflight);
      if i.fetchRsp && c.inflight && !c.squash then
        if i.fetchFault then t.(pc := TrapBase(i.csr)) else t.(insn := i.fetchInsn, phase := Exec)
      else t
  }

  function Park(l: Leaf, c: Core): Parked {
    var k := c.insn.kind;
    Parked(MemAddr(l, c), if k.Load? || k.Store? then c.insn.f3 else 2, c.insn.rd, c.pc,
           k.Load? || k.Lr? || k.Amo?, k.Lr?, k.Sc?, k.Amo?)
  }

  function ExecResult(l: Leaf, c: Core, i: In): Word {
    if c.insn.kind.Csr? then i.csr.rdata else Arith(l, c.insn, c.pc, Rs1(c), Rs2(c))
  }

  function NextSeqPc(l: Leaf, c: Core): Word {
    if Takes(l, c.insn, Rs1(c), Rs2(c)) then Target(l, c.insn, c.pc, Rs1(c)) else Plus4(c.pc)
  }

  function AfterExec(l: Leaf, c: Core, i: In): Core {
    var k := c.insn.kind;
    if ExecTrap(l, c, i) then c.(pc := TrapBase(i.csr), resv := NoReservation, phase := Fetch)
    else if k.Mret? then c.(pc := i.csr.mepc, phase := Fetch)
    else if k.Sret? then c.(pc := i.csr.sepc, phase := Fetch)
    else if DataRequest(l, c, i).Ask? then
      if i.memReady then c.(parked := Park(l, c), resv := if k.Sc? then NoReservation else c.resv, phase := Mem) else c
    else if k.Sc? then
      c.(regs := WriteReg(c.regs, true, c.insn.rd, 1), pc := Plus4(c.pc), resv := NoReservation, phase := Fetch)
    else if k.Div? then
      c.(parked := c.parked.(rd := c.insn.rd, pc := c.pc), div := DivBusy(c.insn, Rs1(c), Rs2(c)), phase := DivWait)
    else
      c.(regs := WriteReg(c.regs, WritesRd(c.insn), c.insn.rd, ExecResult(l, c, i)), pc := NextSeqPc(l, c),
         phase := Fetch)
  }

  function MemFaulted(c: Core, i: In): Core {
    c.(pc := TrapBase(i.csr), resv := NoReservation, parked := c.parked.(lr := false, sc := false, rmw := false),
       phase := Fetch)
  }

  function MemValue(c: Core, i: In): Word {
    if c.parked.sc then 0 else LoadData(c.parked.f3, c.parked.addr, i.memData)
  }

  function AfterMem(c: Core, i: In): Core {
    if !i.memRsp then c
    else if i.memFault then MemFaulted(c, i)
    else if c.parked.rmw then c.(amoOld := i.memData, phase := AmoStore)
    else
      c.(regs := WriteReg(c.regs, c.parked.sc || c.parked.load, c.parked.rd, MemValue(c, i)),
         resv := if c.parked.lr then Reserved(Align(c.parked.addr)) else c.resv,
         parked := c.parked.(lr := false, sc := false), pc := Plus4(c.parked.pc), phase := Fetch)
  }

  function AfterAmo(c: Core, i: In): Core {
    if !i.memRsp then c
    else if i.memFault
    then c.(pc := TrapBase(i.csr), resv := NoReservation, parked := c.parked.(rmw := false), phase := Fetch)
    else
      c.(regs := WriteReg(c.regs, true, c.parked.rd, c.amoOld), resv := NoReservation,
         parked := c.parked.(rmw := false), pc := Plus4(c.parked.pc), phase := Fetch)
  }

  predicate DivDone(c: Core, i: In) { c.div.DivBusy? && i.divDone }

  function AfterDiv(l: Leaf, c: Core, i: In): Core {
    if DivDone(c, i) then
      c.(regs := WriteReg(c.regs, true, c.parked.rd, l.div(c.div.insn, c.div.a, c.div.b)), div := DivIdle,
         pc := Plus4(c.parked.pc), phase := Fetch)
    else c
  }

  function Next(l: Leaf, c: Core, i: In): Core {
    match c.phase
    case Fetch => AfterFetch(c, i)
    case Exec => AfterExec(l, Tracked(c, i), i)
    case Mem => AfterMem(Tracked(c, i), i)
    case AmoStore => Tracked(c, i).(phase := if i.memReady then AmoWait else AmoStore)
    case AmoWait => AfterAmo(Tracked(c, i), i)
    case DivWait => AfterDiv(l, Tracked(c, i), i)
  }

  // ---- what retires ----

  datatype Retire = Retire(pc: Word, trap: bool, wen: bool, rd: Reg, value: Word)

  function Wrote(pc: Word, wen: bool, rd: Reg, v: Word): Retire {
    Retire(pc, false, wen && rd != 0, if wen && rd != 0 then rd else 0, if wen && rd != 0 then v else 0)
  }

  function Trapped(pc: Word): Retire { Retire(pc, true, false, 0, 0) }

  function Commit(l: Leaf, c: Core, i: In): seq<Retire> {
    var k := c.insn.kind;
    match c.phase
    case Fetch =>
      if i.csr.irq || (i.fetchRsp && c.inflight && !c.squash && i.fetchFault) then [Trapped(c.pc)] else []
    case Exec =>
      if ExecTrap(l, c, i) then [Trapped(c.pc)]
      else if k.Mret? || k.Sret? then [Wrote(c.pc, false, 0, 0)]
      else if DataRequest(l, c, i).Ask? || k.Div? then []
      else if k.Sc? then [Wrote(c.pc, true, c.insn.rd, 1)]
      else [Wrote(c.pc, WritesRd(c.insn), c.insn.rd, ExecResult(l, c, i))]
    case Mem =>
      if !i.memRsp then []
      else if i.memFault then [Trapped(c.parked.pc)]
      else if c.parked.rmw then []
      else [Wrote(c.parked.pc, c.parked.sc || c.parked.load, c.parked.rd, MemValue(c, i))]
    case AmoStore => []
    case AmoWait =>
      if !i.memRsp then []
      else if i.memFault then [Trapped(c.parked.pc)]
      else [Wrote(c.parked.pc, true, c.parked.rd, c.amoOld)]
    case DivWait =>
      if DivDone(c, i) then [Wrote(c.parked.pc, true, c.parked.rd, l.div(c.div.insn, c.div.a, c.div.b))] else []
  }

  // ---- the clocked registers ----

  class MulticycleCore {
    var phase: Phase
    var pc: Word
    var insn: Insn
    var inflight: bool
    var squash: bool
    var parked: Parked
    var amoOld: Word
    var resv: Reservation
    var regs: Regs
    var div: DivUnit

    function State(): Core
      reads this
    {
      Core(phase, pc, insn, inflight, squash, parked, amoOld, resv, regs, div)
    }

    constructor (resetPc: Word)
      ensures State() == Reset(resetPc)
    {
      phase, pc, insn, inflight, squash := Fetch, resetPc, NOP, false, false;
      parked, amoOld, resv := Parked(0, 0, 0, 0, false, false, false, false), 0, NoReservation;
      regs, div := map[], DivIdle;
    }

    method FetchState(i: In) returns (d: Core)
      ensures d == AfterFetch(State(), i)
    {
      var c := State();
      d := c;
      if inflight && i.fetchRsp { d := d.(inflight := false, squash := false); }
      if i.csr.irq {
        d := d.(pc := IrqVector(i.csr));
        if inflight && !i.fetchRsp { d := d.(squash := true); }
      } else {
        if i.fetchReady && !inflight { d := d.(inflight := true); }
        if i.fetchRsp && inflight && squash {
          // A stale response is dropped.
        } else if i.fetchRsp && inflight {
          if i.fetchFault {
            d := d.(pc := TrapBase(i.csr));
          } else {
            d := d.(insn := i.fetchInsn, phase := Exec);
          }
        }
      }
    }

    // The single-cycle path and the launch of everything longer.
    method ExecState(l: Leaf, c: Core, i: In) returns (d: Core)
      ensures d == AfterExec(l, c, i)
    {
      d := c;
      var k := c.insn.kind;
      if ExecTrap(l, c, i) {
        d := d.(pc := TrapBase(i.csr), resv := NoReservation, phase := Fetch);
      } else if k.Mret? {
        d := d.(pc := i.csr.mepc, phase := Fetch);
      } else if k.Sret? {
        d := d.(pc := i.csr.sepc, phase := Fetch);
      } else if DataRequest(l, c, i).Ask? {
        if i.memReady {
          d := d.(parked := Park(l, c), phase := Mem);
          if k.Sc? { d := d.(resv := NoReservation); }
        }
      } else if k.Sc? {
        d := d.(regs := WriteReg(c.regs, true, c.insn.rd, 1), pc := Plus4(c.pc), resv := NoReservation, phase := Fetch);
      } else if k.Div? {
        d := d.(parked := c.parked.(rd := c.insn.rd, pc := c.pc), div := DivBusy(c.insn, Rs1(c), Rs2(c)),
                phase := DivWait);
      } else {
        if WritesRd(c.insn) { d := d.(regs := WriteReg(c.regs, true, c.insn.rd, ExecResult(l, c, i))); }
        d := d.(pc := NextSeqPc(l, c), phase := Fetch);
      }
    }

    method MemState(c: Core, i: In) returns (d: Core)
      ensures d == AfterMem(c, i)
    {
      d := c;
      if i.memRsp {
        if i.memFault {
          d := MemFaulted(c, i);
        } else if c.parked.rmw {
          d := d.(amoOld := i.memData, phase := AmoStore);
        } else {
          if c.parked.sc || c.parked.load { d := d.(regs := WriteReg(c.regs, true, c.parked.rd, MemValue(c, i))); }
          if c.parked.lr { d := d.(resv := Reserved(Align(c.parked.addr))); }
          d := d.(parked := c.parked.(lr := false, sc := false), pc := Plus4(c.parked.pc), phase := Fetch);
        }
      }
    }

    method NextState(l: Leaf, i: In) returns (d: Core)
      ensures d == Next(l, State(), i)
    {
      hide AfterFetch, AfterExec, AfterMem, AfterAmo, AfterDiv;
      var c := State();
      if inflight && i.fetchRsp { c := c.(inflight := false, squash := false); }
      match phase {
        case Fetch => d := FetchState(i);
        case Exec => d := ExecState(l, c, i);
        case Mem => d := MemState(c, i);
        case AmoStore => d := c; if i.memReady { d := d.(phase := AmoWait); }
        case AmoWait => d := AfterAmo(c, i);
        case DivWait => d := AfterDiv(l, c, i);
      }
    }

    method LoadControl(d: Core)
      modifies `phase, `pc, `insn, `inflight, `squash
      ensures phase == d.phase && pc == d.pc && insn == d.insn && inflight == d.inflight && squash == d.squash
    {
      phase, pc, insn, inflight, squash := d.phase, d.pc, d.insn, d.inflight, d.squash;
    }

    // One rising edge.
    method Clock(l: Leaf, i: In)
      modifies this
      ensures State() == Next(l, old(State()), i)
    {
      hide Next;
      var d := NextState(l, i);
      LoadControl(d);
      parked, amoOld, resv, regs, div := d.parked, d.amoOld, d.resv, d.regs, d.div;
    }
  }
}
