/**
 The control and status registers (rtl/core/csr.sv): trap entry and return, interrupt selection and
 delegation, and the PMP registers with their lock bits.

 A register is the set of its bits that are one, so the RTL's &, | and & ~ are *, + and -.
 */
module Csr {
  import Pmp
  import opened Rv32

  type Bits = set<nat>

  type Priv = x: nat | x < 4

  const USER: Priv := 0
  const SUPERVISOR: Priv := 1
  const MACHINE: Priv := 3

  // Bits of mstatus.
  const SIE := 1
  const MIE := 3
  const SPIE := 5
  const MPIE := 7
  const SPP := 8
  const MPP: Bits := {11, 12}
  const MPRV := 17
  const TVM := 20

  const MSTATUS_WRITABLE: Bits := {1, 3, 5, 7, 8, 11, 12, 17, 18, 19, 20, 22}
  const SSTATUS_MASK: Bits := {1, 5, 8, 18, 19}
  const MEDELEG_WRITABLE: Bits := {0, 1, 2, 3, 4, 5, 6, 7, 8, 9, 12, 13, 15}
  const MIDELEG_WRITABLE: Bits := {1, 5, 9}
  const MIE_WRITABLE: Bits := {1, 3, 5, 7, 9, 11}
  const MIP_M_WRITABLE: Bits := {1, 5, 9}
  const MIP_S_WRITABLE: Bits := {1}

  datatype Trap = Trap(epc: Bits, cause: Bits, tval: Bits)

  datatype Regs = Regs(
    mstatus: Bits, mie: Bits, mip: Bits, medeleg: Bits, mideleg: Bits,
    mtvec: Bits, stvec: Bits, mscratch: Bits, sscratch: Bits, satp: Bits,
    m: Trap, s: Trap, priv: Priv, pmpcfg: seq<Bits>, pmpaddr: seq<Bits>)

  datatype Op = Rw | Rs | Rc | NoOp

  // The interrupt lines into the core.
  datatype Lines = Lines(mti: bool, msi: bool, mei: bool, sei: bool)

  // One cycle: the CSR instruction, the trap interface, the lines. `counter` is what a read of a
  // counter, time or identification register returns.
  datatype In = In(
    en: bool, op: Op, addr: nat, srcNonZero: bool, wdata: Bits, counter: Bits,
    trap: bool, trapWith: Trap, mret: bool, sret: bool, lines: Lines)

  // 16 PMP entries: a configuration byte and an address register each.
  predicate Shaped(c: Regs) { |c.pmpcfg| == 16 && |c.pmpaddr| == 16 }

  const RESET := Regs({}, {}, {}, {}, {}, {}, {}, {}, {}, {}, Trap({}, {}, {}), Trap({}, {}, {}), MACHINE,
                      seq(16, _ => {}), seq(16, _ => {}))

  function With(w: Bits, bit: nat, on: bool): Bits { if on then w + {bit} else w - {bit} }

  // The number a bit vector stands for, from its low n bits.
  function Number(w: Bits, n: nat): nat {
    if n == 0 then 0 else Number(w, n - 1) + if n - 1 in w then Pmp.Pow2(n - 1) else 0
  }

  // ---- reads ----

  function MipLive(c: Regs, l: Lines): Bits {
    With(With(With(With(c.mip, 3, l.msi), 7, l.mti), 11, l.mei), 9, 9 in c.mip || l.sei)
  }

  predicate IsCounter(addr: nat) {
    || addr == 0xB00 || addr == 0xB80 || addr == 0xB02 || addr == 0xB82
    || 0xC00 <= addr <= 0xC02 || 0xC80 <= addr <= 0xC82
    || addr == 0x301 || 0xF11 <= addr <= 0xF14 || addr == 0x106
  }

  datatype Read = Invalid | Value(v: Bits)

  function CfgWord(c: Regs, n: nat): Bits
    requires Shaped(c) && n < 4
  {
    set k | 0 <= k < 32 && k % 8 in c.pmpcfg[4 * n + k / 8] :: k
  }

  function ReadPmp(c: Regs, addr: nat): Read
    requires Shaped(c)
  {
    if 0x3A0 <= addr < 0x3A4 then Value(CfgWord(c, addr - 0x3A0))
    else if 0x3B0 <= addr < 0x3C0 then Value(c.pmpaddr[addr - 0x3B0])
    else Invalid
  }

  function ReadCsr(c: Regs, i: In): Read
    requires Shaped(c)
  {
    if i.addr == 0x300 then Value(c.mstatus)
    else if i.addr == 0x302 then Value(c.medeleg)
    else if i.addr == 0x303 then Value(c.mideleg)
    else if i.addr == 0x304 then Value(c.mie)
    else if i.addr == 0x344 then Value(MipLive(c, i.lines))
    else if i.addr == 0x305 then Value(c.mtvec)
    else if i.addr == 0x340 then Value(c.mscratch)
    else if i.addr == 0x341 then Value(c.m.epc)
    else if i.addr == 0x342 then Value(c.m.cause)
    else if i.addr == 0x343 then Value(c.m.tval)
    else if i.addr == 0x100 then Value(c.mstatus * SSTATUS_MASK)
    else if i.addr == 0x104 then Value(c.mie * c.mideleg)
    else if i.addr == 0x144 then Value(MipLive(c, i.lines) * c.mideleg)
    else if i.addr == 0x105 then Value(c.stvec)
    else if i.addr == 0x140 then Value(c.sscratch)
    else if i.addr == 0x141 then Value(c.s.epc)
    else if i.addr == 0x142 then Value(c.s.cause)
    else if i.addr == 0x143 then Value(c.s.tval)
    else if i.addr == 0x180 then Value(c.satp)
    else if IsCounter(i.addr) then Value(i.counter)
    else ReadPmp(c, i.addr)
  }

  predicate DoesWrite(i: In) { i.op.Rw? || (!i.op.NoOp? && i.srcNonZero) }

  predicate Illegal(c: Regs, i: In)
    requires Shaped(c)
  {
    || ReadCsr(c, i).Invalid?
    || c.priv < i.addr / 0x100 % 4
    || (DoesWrite(i) && i.addr / 0x400 % 4 == 3)
    || (i.addr == 0x180 && c.priv == SUPERVISOR && TVM in c.mstatus)
  }

  predicate DoWrite(c: Regs, i: In)
    requires Shaped(c)
  {
    i.en && DoesWrite(i) && !Illegal(c, i)
  }

  function NewValue(c: Regs, i: In): Bits
    requires Shaped(c)
  {
    var was := match ReadCsr(c, i) case Invalid => {} case Value(v) => v;
    match i.op
    case Rw => i.wdata
    case Rs => was + i.wdata
    case Rc => was - i.wdata
    case NoOp => was
  }

  // ---- writes ----

  predicate LockBit(cfg: Bits) { 7 in cfg }

  predicate IsTor(cfg: Bits) { 3 in cfg && 4 !in cfg }

  // A locked TOR entry also locks the address register that is its lower bound.
  predicate AddrLocked(c: Regs, k: nat)
    requires Shaped(c) && k < 16
  {
    LockBit(c.pmpcfg[k]) || (k < 15 && LockBit(c.pmpcfg[k + 1]) && IsTor(c.pmpcfg[k + 1]))
  }

  function CfgByte(w: Bits, b: nat): Bits { set x | x in w && 8 * b <= x < 8 * b + 8 :: x - 8 * b }

  function CfgAfter(c: Regs, n: nat, v: Bits): seq<Bits>
    requires Shaped(c) && n < 4
  {
    seq(16, k requires 0 <= k < 16 =>
      if k / 4 == n && !LockBit(c.pmpcfg[k]) then CfgByte(v, k % 4) else c.pmpcfg[k])
  }

  // PMP registers are write-any-read-legal: a locked byte or address keeps its value.
  function PmpWritten(c: Regs, addr: nat, v: Bits): (d: Regs)
    requires Shaped(c)
    ensures Shaped(d)
  {
    if 0x3A0 <= addr < 0x3A4 then c.(pmpcfg := CfgAfter(c, addr - 0x3A0, v))
    else if 0x3B0 <= addr < 0x3C0 && !AddrLocked(c, addr - 0x3B0) then c.(pmpaddr := c.pmpaddr[addr - 0x3B0 := v])
    else c
  }

  function Masked(was: Bits, v: Bits, mask: Bits): Bits { (was - mask) + (v * mask) }

  function Written(c: Regs, addr: nat, v: Bits): (d: Regs)
    ensures d.pmpcfg == c.pmpcfg && d.pmpaddr == c.pmpaddr
  {
    if addr == 0x300 then c.(mstatus := Masked(c.mstatus, v, MSTATUS_WRITABLE))
    else if addr == 0x302 then c.(medeleg := v * MEDELEG_WRITABLE)
    else if addr == 0x303 then c.(mideleg := v * MIDELEG_WRITABLE)
    else if addr == 0x304 then c.(mie := Masked(c.mie, v, MIE_WRITABLE))
    else if addr == 0x344 then c.(mip := Masked(c.mip, v, MIP_M_WRITABLE))
    else if addr == 0x305 then c.(mtvec := v - {1})
    else if addr == 0x340 then c.(mscratch := v)
    else if addr == 0x341 then c.(m := c.m.(epc := v - {0, 1}))
    else if addr == 0x342 then c.(m := c.m.(cause := v))
    else if addr == 0x343 then c.(m := c.m.(tval := v))
    else if addr == 0x100 then c.(mstatus := Masked(c.mstatus, v, SSTATUS_MASK))
    else if addr == 0x104 then c.(mie := (c.mie - c.mideleg) + (v * c.mideleg * MIE_WRITABLE))
    else if addr == 0x144 then c.(mip := (c.mip - MIP_S_WRITABLE) + (v * MIP_S_WRITABLE * c.mideleg))
    else if addr == 0x105 then c.(stvec := v - {1})
    else if addr == 0x140 then c.(sscratch := v)
    else if addr == 0x141 then c.(s := c.s.(epc := v - {0, 1}))
    else if addr == 0x142 then c.(s := c.s.(cause := v))
    else if addr == 0x143 then c.(s := c.s.(tval := v))
    else if addr == 0x180 then c.(satp := v)
    else c
  }

  // ---- traps ----

  function PrivBits(p: Priv): Bits { (if p % 2 == 1 then {11} else {}) + (if p >= 2 then {12} else {}) }

  function MppOf(mstatus: Bits): Priv { (if 11 in mstatus then 1 else 0) + (if 12 in mstatus then 2 else 0) }

  predicate Delegated(c: Regs, cause: Bits) {
    Number(cause, 5) in (if 31 in cause then c.mideleg else c.medeleg)
  }

  predicate TrapToS(c: Regs, i: In) { i.trap && c.priv != MACHINE && Delegated(c, i.trapWith.cause) }

  function TrapEntry(c: Regs, i: In): (d: Regs)
    ensures d.pmpcfg == c.pmpcfg && d.pmpaddr == c.pmpaddr
  {
    if TrapToS(c, i) then
      c.(s := i.trapWith, priv := SUPERVISOR,
         mstatus := With(With(With(c.mstatus, SPIE, SIE in c.mstatus), SIE, false), SPP, c.priv == SUPERVISOR))
    else
      c.(m := i.trapWith, priv := MACHINE,
         mstatus := (With(With(c.mstatus, MPIE, MIE in c.mstatus), MIE, false) - MPP) + PrivBits(c.priv))
  }

  function AfterMret(c: Regs): (d: Regs)
    ensures d.pmpcfg == c.pmpcfg && d.pmpaddr == c.pmpaddr
  {
    var back := With(With(c.mstatus, MIE, MPIE in c.mstatus), MPIE, true) - MPP;
    c.(priv := MppOf(c.mstatus), mstatus := if MppOf(c.mstatus) != MACHINE then back - {MPRV} else back)
  }

  function AfterSret(c: Regs): (d: Regs)
    ensures d.pmpcfg == c.pmpcfg && d.pmpaddr == c.pmpaddr
  {
    var back := With(With(With(c.mstatus, SIE, SPIE in c.mstatus), SPIE, true), SPP, false);
    c.(priv := if SPP in c.mstatus then SUPERVISOR else USER,
       mstatus := if SPP in c.mstatus then back else back - {MPRV})
  }

  function Next(c: Regs, i: In): (d: Regs)
    requires Shaped(c)
    ensures Shaped(d)
  {
    if i.trap then TrapEntry(c, i)
    else if i.mret then AfterMret(c)
    else if i.sret then AfterSret(c)
    else if DoWrite(c, i) then
      if i.addr < 0x3A0 then Written(c, i.addr, NewValue(c, i)) else PmpWritten(c, i.addr, NewValue(c, i))
    else c
  }

  function Run(c: Regs, ins: seq<In>): (d: Regs)
    requires Shaped(c)
    ensures Shaped(d)
  {
    if ins == [] then c else Next(Run(c, ins[..|ins| - 1]), ins[|ins| - 1])
  }

  // ---- interrupt selection ----

  datatype Irq = Mei | Msi | Mti | Sei | Ssi | Sti

  function BitOf(q: Irq): nat {
    match q case Mei => 11 case Msi => 3 case Mti => 7 case Sei => 9 case Ssi => 1 case Sti => 5
  }

  // mcause: the interrupt flag, and the number of the line.
  function CauseOf(q: Irq): Bits {
    match q
    case Mei => {31, 3, 1, 0} case Msi => {31, 1, 0} case Mti => {31, 2, 1, 0}
    case Sei => {31, 3, 0} case Ssi => {31, 0} case Sti => {31, 2, 0}
  }

  // Priority: MEI > MSI > MTI > SEI > SSI > STI.
  function Rank(q: Irq): nat {
    match q case Mei => 0 case Msi => 1 case Mti => 2 case Sei => 3 case Ssi => 4 case Sti => 5
  }

  function MachinePath(c: Regs, l: Lines): Bits { MipLive(c, l) * c.mie - c.mideleg }

  function SupervisorPath(c: Regs, l: Lines): Bits { MipLive(c, l) * c.mie * c.mideleg }

  predicate MachineLive(c: Regs, l: Lines) {
    (c.priv != MACHINE || MIE in c.mstatus) && MachinePath(c, l) != {}
  }

  predicate SupervisorLive(c: Regs, l: Lines) {
    (c.priv == USER || (c.priv == SUPERVISOR && SIE in c.mstatus)) && SupervisorPath(c, l) != {}
  }

  predicate IrqPending(c: Regs, l: Lines) { MachineLive(c, l) || SupervisorLive(c, l) }

  function IrqPick(c: Regs, l: Lines): Irq {
    if MachineLive(c, l) then
      var w := MachinePath(c, l);
      if 11 in w then Mei else if 3 in w then Msi else if 7 in w then Mti
      else if 9 in w then Sei else if 1 in w then Ssi else Sti
    else
      var w := SupervisorPath(c, l);
      if 9 in w then Sei else if 1 in w then Ssi else Sti
  }

  // ---- what holds in every reachable state ----

  predicate Maskable(c: Regs) { c.mie <= MIE_WRITABLE && c.mideleg <= MIDELEG_WRITABLE }

  lemma MaskableStep(c: Regs, i: In)
    requires Shaped(c) && Maskable(c)
    ensures Maskable(Next(c, i))
  {
    hide NewValue, DoWrite, With, MppOf, PrivBits, TrapToS, CfgAfter, AddrLocked;
  }

  lemma {:induction false} AlwaysMaskable(ins: seq<In>)
    ensures Maskable(Run(RESET, ins))
  {
    if ins != [] {
      AlwaysMaskable(ins[..|ins| - 1]);
      MaskableStep(Run(RESET, ins[..|ins| - 1]), ins[|ins| - 1]);
    }
  }

  // The right interrupt to take: enabled and pending, on the machine path if that is live and on the
  // delegated one otherwise, and first in priority there.
  predicate RightIrq(c: Regs, l: Lines, q: Irq) {
    var path := if MachineLive(c, l) then MachinePath(c, l) else SupervisorPath(c, l);
    BitOf(q) in path && forall other: Irq :: BitOf(other) in path && other != q ==> Rank(q) < Rank(other)
  }

  lemma PickIsRight(c: Regs, l: Lines)
    requires Maskable(c) && IrqPending(c, l)
    ensures RightIrq(c, l, IrqPick(c, l))
  {
    hide MipLive;
    var path := if MachineLive(c, l) then MachinePath(c, l) else SupervisorPath(c, l);
    var b :| b in path;
    assert b in MIE_WRITABLE;
    if !MachineLive(c, l) { assert b in MIDELEG_WRITABLE; }
  }

  lemma CauseNumber(q: Irq)
    ensures Number(CauseOf(q), 5) == BitOf(q) && 31 in CauseOf(q)
  {
    assert Pmp.Pow2(3) == 8;
    var w := CauseOf(q);
    assert Number(w, 1) == if 0 in w then 1 else 0;
    assert Number(w, 2) == Number(w, 1) + if 1 in w then 2 else 0;
    assert Number(w, 3) == Number(w, 2) + if 2 in w then 4 else 0;
    assert Number(w, 4) == Number(w, 3) + if 3 in w then 8 else 0;
  }

  function Taking(i: In, q: Irq, epc: Bits): In { i.(trap := true, trapWith := Trap(epc, CauseOf(q), {})) }

  // In every reachable state: the interrupt presented is the right one; taking it enters S-mode
  // exactly when it came from the delegated path; in M-mode a delegated interrupt is never taken; and
  // once taken it is masked, until software changes something.
  lemma InterruptsTakenRightly(ins: seq<In>, i: In, epc: Bits)
    requires IrqPending(Run(RESET, ins), i.lines)
    ensures var c := Run(RESET, ins);
            var q := IrqPick(c, i.lines);
            var d := Next(c, Taking(i, q, epc));
            && RightIrq(c, i.lines, q)
            && (TrapToS(c, Taking(i, q, epc)) <==> !MachineLive(c, i.lines))
            && (c.priv == MACHINE ==> BitOf(q) !in c.mideleg && d.priv == MACHINE)
            && d.priv == (if MachineLive(c, i.lines) then MACHINE else SUPERVISOR)
            && !IrqPending(d, i.lines)
  {
    var c := Run(RESET, ins);
    AlwaysMaskable(ins);
    PickIsRight(c, i.lines);
    CauseNumber(IrqPick(c, i.lines));
    TakenIsMasked(c, i, IrqPick(c, i.lines), epc);
  }

  lemma MipUnchangedByTrap(c: Regs, i: In, l: Lines)
    ensures MipLive(TrapEntry(c, i), l) == MipLive(c, l)
  {
  }

  lemma MachineTrapMasks(c: Regs, i: In)
    requires !TrapToS(c, i)
    ensures MIE !in TrapEntry(c, i).mstatus
  {
  }

  lemma TakenIsMasked(c: Regs, i: In, q: Irq, epc: Bits)
    requires Shaped(c) && RightIrq(c, i.lines, q) && IrqPending(c, i.lines)
    requires Number(CauseOf(q), 5) == BitOf(q) && 31 in CauseOf(q)
    ensures var d := Next(c, Taking(i, q, epc));
            && (TrapToS(c, Taking(i, q, epc)) <==> !MachineLive(c, i.lines))
            && d.priv == (if MachineLive(c, i.lines) then MACHINE else SUPERVISOR)
            && !IrqPending(d, i.lines)
  {
    hide Number, MipLive, PrivBits, CauseOf, BitOf, Rank;
    MipUnchangedByTrap(c, Taking(i, q, epc), i.lines);
    if MachineLive(c, i.lines) { MachineTrapMasks(c, Taking(i, q, epc)); }
  }

  // ---- trap entry and return ----

  // MRET undoes a machine trap: privilege, MIE and everything else but MPIE, MPP and (below M) MPRV.
  lemma MretUndoesTrap(c: Regs, i: In)
    requires i.trap && !TrapToS(c, i)
    ensures var d := AfterMret(TrapEntry(c, i));
            && d.priv == c.priv && (MIE in d.mstatus <==> MIE in c.mstatus)
            && d.mstatus - {MPIE, MPRV} - MPP == c.mstatus - {MPIE, MPRV} - MPP
            && (c.priv == MACHINE ==> (MPRV in d.mstatus <==> MPRV in c.mstatus))
            && d.m == i.trapWith && d.s == c.s
  {
    hide Delegated;
    assert MppOf(TrapEntry(c, i).mstatus) == c.priv;
  }

  // SRET undoes a delegated trap from U or S.
  lemma SretUndoesTrap(c: Regs, i: In)
    requires TrapToS(c, i) && (c.priv == USER || c.priv == SUPERVISOR)
    ensures var d := AfterSret(TrapEntry(c, i));
            && d.priv == c.priv && (SIE in d.mstatus <==> SIE in c.mstatus)
            && d.mstatus - {SPIE, SPP, MPRV} == c.mstatus - {SPIE, SPP, MPRV}
            && d.s == i.trapWith && d.m == c.m
  {
    hide Delegated;
  }

  // ---- supervisor views ----

  predicate Writes(c: Regs, i: In, addr: nat)
    requires Shaped(c)
  {
    i.addr == addr && DoWrite(c, i) && !i.trap && !i.mret && !i.sret
  }

  // sstatus and sie are windows on mstatus and mie: a write through them reads back, cut to what is
  // writable, and changes nothing outside the window.
  lemma ViewsStayInside(c: Regs, i: In)
    requires Shaped(c) && Maskable(c)
    ensures Writes(c, i, 0x100) ==>
              && ReadCsr(Next(c, i), i) == Value(NewValue(c, i) * SSTATUS_MASK)
              && Next(c, i).mstatus - SSTATUS_MASK == c.mstatus - SSTATUS_MASK
    ensures Writes(c, i, 0x104) ==>
              && ReadCsr(Next(c, i), i) == Value(NewValue(c, i) * c.mideleg)
              && Next(c, i).mie - c.mideleg == c.mie - c.mideleg
  {
    hide NewValue, Illegal;
    assert MIDELEG_WRITABLE <= MIE_WRITABLE;
    assert c.mideleg * MIE_WRITABLE == c.mideleg;
  }

  // sip is not such a window: writing it clears SSIP even when SSI is not delegated. It stays inside
  // exactly when SSI is delegated or SSIP was clear.
  lemma SipWriteStaysInside(c: Regs, i: In)
    requires Shaped(c) && Writes(c, i, 0x144)
    ensures Next(c, i).mip - c.mideleg == c.mip - c.mideleg <==> 1 in c.mideleg || 1 !in c.mip
  {
    hide NewValue, Illegal;
    var d := Next(c, i);
    if 1 !in c.mideleg && 1 in c.mip {
      assert 1 in c.mip - c.mideleg && 1 !in d.mip - c.mideleg;
    }
  }

  function CsrWrite(addr: nat, v: Bits): In {
    In(true, Rw, addr, true, v, {}, false, Trap({}, {}, {}), false, false, Lines(false, false, false, false))
  }

  // Such a state is reachable: machine software sets SSIP, then writes sip.
  lemma SipWriteEscapes()
    ensures var c := Next(RESET, CsrWrite(0x344, {1}));
            Writes(c, CsrWrite(0x144, {1}), 0x144) && 1 in c.mip && 1 !in Next(c, CsrWrite(0x144, {1})).mip
  {
  }

  // MPP takes the reserved value 2, and MRET then enters a mode that is not U, S or M.
  lemma MretEntersReservedMode(c: Regs)
    ensures AfterMret(c).priv == 2 <==> 12 in c.mstatus && 11 !in c.mstatus
    ensures AfterMret(Next(RESET, CsrWrite(0x300, {12}))).priv == 2
  {
  }

  // ---- locked PMP entries ----

  predicate Locked(c: Regs, k: nat)
    requires Shaped(c) && k < 16
  {
    LockBit(c.pmpcfg[k])
  }

  // Everything entry k's match and verdict are computed from, including a TOR entry's lower bound.
  predicate SameEntry(c: Regs, d: Regs, k: nat)
    requires Shaped(c) && Shaped(d) && k < 16
  {
    && c.pmpcfg[k] == d.pmpcfg[k] && c.pmpaddr[k] == d.pmpaddr[k]
    && (k > 0 && IsTor(c.pmpcfg[k]) ==> c.pmpaddr[k - 1] == d.pmpaddr[k - 1])
  }

  lemma LockedStep(c: Regs, i: In, k: nat)
    requires Shaped(c) && k < 16 && Locked(c, k)
    ensures SameEntry(c, Next(c, i), k)
  {
    hide NewValue, DoWrite, CfgByte;
  }

  // A locked entry is frozen over every run, whatever is written at whatever privilege.
  lemma {:induction false} LockedForever(c: Regs, ins: seq<In>, k: nat)
    requires Shaped(c) && k < 16 && Locked(c, k)
    ensures SameEntry(c, Run(c, ins), k)
  {
    if ins != [] {
      LockedForever(c, ins[..|ins| - 1], k);
      LockedStep(Run(c, ins[..|ins| - 1]), ins[|ins| - 1], k);
    }
  }

  // ---- the registers as the checker sees them ----

  function EntryOf(cfg: Bits, addr: Bits): Pmp.Entry {
    Pmp.Entry(0 in cfg, 1 in cfg, 2 in cfg,
              if 3 in cfg then (if 4 in cfg then Pmp.Napot else Pmp.Tor) else if 4 in cfg then Pmp.Na4 else Pmp.Off,
              7 in cfg, Number(addr, 30))
  }

  function Entries(c: Regs): (p: seq<Pmp.Entry>)
    requires Shaped(c)
    ensures |p| == 16
  {
    seq(16, k requires 0 <= k < 16 => EntryOf(c.pmpcfg[k], c.pmpaddr[k]))
  }

  lemma {:induction false} NumberFits(w: Bits, n: nat)
    ensures Number(w, n) < Pmp.Pow2(n)
  {
    if n > 0 { NumberFits(w, n - 1); }
  }

  lemma EntriesSized(c: Regs)
    requires Shaped(c)
    ensures Pmp.AllSized(Entries(c))
  {
    Pmp.PowersOfTwo();
    forall k | 0 <= k < 16
      ensures Pmp.Sized(Entries(c)[k])
    {
      NumberFits(c.pmpaddr[k], 30);
    }
  }

  // The bit of a configuration byte that grants an access.
  function GrantBit(access: Pmp.Access): nat { match access case Read => 0 case Write => 1 case Exec => 2 }

  // Entries 0 to k locked and entry k the first to cover an address: no later state of any run lets
  // the address be accessed in a way the entry forbids, at any privilege.
  predicate Sealed(c: Regs, k: nat, pa: Word, access: Pmp.Access)
    requires Shaped(c)
  {
    && k < 16 && (forall j | 0 <= j <= k :: 7 in c.pmpcfg[j])
    && Pmp.FirstCovering(Entries(c), k, pa) && GrantBit(access) !in c.pmpcfg[k]
  }

  lemma SealedStep(c: Regs, d: Regs, k: nat, pa: Word, access: Pmp.Access)
    requires Shaped(c) && Shaped(d) && Sealed(c, k, pa, access)
    requires forall j | 0 <= j <= k :: SameEntry(c, d, j)
    ensures Sealed(d, k, pa, access)
  {
    var p, q := Entries(c), Entries(d);
    forall j | 0 <= j <= k
      ensures 7 in d.pmpcfg[j] && Pmp.Covers(q, j, pa) == Pmp.Covers(p, j, pa)
    {
      assert 7 in c.pmpcfg[j] && SameEntry(c, d, j);
      assert p[j] == q[j];
      assert p[j].mode.Tor? && j > 0 ==> p[j - 1].addr == q[j - 1].addr;
    }
    assert SameEntry(c, d, k) && p[k] == q[k];
  }

  lemma SealedFaults(c: Regs, k: nat, pa: Word, access: Pmp.Access, priv: nat)
    requires Shaped(c) && Sealed(c, k, pa, access)
    ensures Pmp.Faults(Entries(c), priv, pa, access)
  {
    var p := Entries(c);
    EntriesSized(c);
    Pmp.FaultsIsFirstMatch(p, priv, pa, access);
    assert 7 in c.pmpcfg[k];
    assert !p[k].mode.Off?;
    assert !Pmp.Permits(p[k], priv, access);
  }

  lemma SealedForever(c: Regs, ins: seq<In>, k: nat, pa: Word, access: Pmp.Access, priv: nat)
    requires Shaped(c) && Sealed(c, k, pa, access)
    ensures Sealed(Run(c, ins), k, pa, access)
    ensures Pmp.Faults(Entries(Run(c, ins)), priv, pa, access)
  {
    forall j | 0 <= j <= k
      ensures SameEntry(c, Run(c, ins), j)
    {
      LockedForever(c, ins, j);
    }
    SealedStep(c, Run(c, ins), k, pa, access);
    SealedFaults(Run(c, ins), k, pa, access, priv);
  }

  // ---- the clocked registers ----

  class CsrFile {
    var mstatus: Bits
    var mie: Bits
    var mip: Bits
    var medeleg: Bits
    var mideleg: Bits
    var mtvec: Bits
    var stvec: Bits
    var mscratch: Bits
    var sscratch: Bits
    var satp: Bits
    var m: Trap
    var s: Trap
    var priv: Priv
    var pmpcfg: seq<Bits>
    var pmpaddr: seq<Bits>

    function State(): Regs
      reads this
    {
      Regs(mstatus, mie, mip, medeleg, mideleg, mtvec, stvec, mscratch, sscratch, satp, m, s, priv, pmpcfg, pmpaddr)
    }

    constructor ()
      ensures State() == RESET && Shaped(State())
    {
      mstatus, mie, mip, medeleg, mideleg := {}, {}, {}, {}, {};
      mtvec, stvec, mscratch, sscratch, satp := {}, {}, {}, {}, {};
      m, s, priv := Trap({}, {}, {}), Trap({}, {}, {}), MACHINE;
      pmpcfg, pmpaddr := seq(16, _ => {}), seq(16, _ => {});
    }

    // A write to pmpcfg n: byte by byte, a locked byte keeping its value.
    method CfgWrite(n: nat, v: Bits) returns (cfg: seq<Bits>)
      requires Shaped(State()) && n < 4
      ensures cfg == CfgAfter(State(), n, v)
    {
      cfg := pmpcfg;
      for b := 0 to 4
        invariant |cfg| == 16
        invariant forall k | 0 <= k < 16 ::
                    cfg[k] == if 4 * n <= k < 4 * n + b && !LockBit(pmpcfg[k]) then CfgByte(v, k - 4 * n) else pmpcfg[k]
      {
        if !LockBit(pmpcfg[4 * n + b]) { cfg := cfg[4 * n + b := CfgByte(v, b)]; }
      }
    }

    method PmpWrite(addr: nat, v: Bits)
      requires Shaped(State())
      modifies `pmpcfg, `pmpaddr
      ensures State() == PmpWritten(old(State()), addr, v)
    {
      if 0x3A0 <= addr < 0x3A4 {
        pmpcfg := CfgWrite(addr - 0x3A0, v);
      } else if 0x3B0 <= addr < 0x3C0 {
        var k := addr - 0x3B0;
        var locked := LockBit(pmpcfg[k]);
        if k < 15 && LockBit(pmpcfg[k + 1]) && IsTor(pmpcfg[k + 1]) { locked := true; }
        if !locked { pmpaddr := pmpaddr[k := v]; }
      }
    }

    method LoadStatus(d: Regs)
      modifies `mstatus, `mie, `mip, `medeleg, `mideleg
      ensures mstatus == d.mstatus && mie == d.mie && mip == d.mip && medeleg == d.medeleg && mideleg == d.mideleg
    {
      mstatus, mie, mip, medeleg, mideleg := d.mstatus, d.mie, d.mip, d.medeleg, d.mideleg;
    }

    method LoadVectors(d: Regs)
      modifies `mtvec, `stvec, `mscratch, `sscratch, `satp
      ensures mtvec == d.mtvec && stvec == d.stvec && mscratch == d.mscratch && sscratch == d.sscratch && satp == d.satp
    {
      mtvec, stvec, mscratch, sscratch, satp := d.mtvec, d.stvec, d.mscratch, d.sscratch, d.satp;
    }

    // All registers but the PMP ones.
    method Load(d: Regs)
      modifies `mstatus, `mie, `mip, `medeleg, `mideleg, `mtvec, `stvec, `mscratch, `sscratch, `satp, `m, `s, `priv
      ensures State() == d.(pmpcfg := pmpcfg, pmpaddr := pmpaddr)
    {
      LoadStatus(d);
      LoadVectors(d);
      m, s, priv := d.m, d.s, d.priv;
    }

    // One rising edge: trap entry beats MRET, which beats SRET, which beats an instruction's write.
    method Clock(i: In)
      requires Shaped(State())
      modifies this
      ensures State() == Next(old(State()), i)
    {
      var c := State();
      hide TrapEntry, AfterMret, AfterSret, Written, PmpWritten, DoWrite, NewValue;
      if i.trap {
        Load(TrapEntry(c, i));
      } else if i.mret {
        Load(AfterMret(c));
      } else if i.sret {
        Load(AfterSret(c));
      } else if DoWrite(c, i) {
        var v := NewValue(c, i);
        if i.addr < 0x3A0 { Load(Written(c, i.addr, v)); } else { PmpWrite(i.addr, v); }
      }
    }
  }
}
