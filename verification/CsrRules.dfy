/**
 What the CSR file does, bit by bit: trap entry, returns, the interrupt presented, who may change what,
 and what a written register reads back as. Bits, addresses and modes are numbers, as in the Privileged
 Specification.
 */
module CsrRules {
  import Csr
  import Pmp
  import opened Rv32

  type Bits = Csr.Bits

  // The number in bits 4 to 0 of a cause.
  function Code(cause: Bits): nat {
    (if 0 in cause then 1 else 0) + (if 1 in cause then 2 else 0) + (if 2 in cause then 4 else 0)
    + (if 3 in cause then 8 else 0) + if 4 in cause then 16 else 0
  }

  lemma CodeIs(cause: Bits)
    ensures Csr.Number(cause, 5) == Code(cause)
  {
    assert Pmp.Pow2(2) == 4 && Pmp.Pow2(3) == 2 * Pmp.Pow2(2) && Pmp.Pow2(4) == 2 * Pmp.Pow2(3);
    var n2 := Csr.Number(cause, 2);
    assert Csr.Number(cause, 1) == if 0 in cause then 1 else 0;
    assert n2 == Csr.Number(cause, 1) + if 1 in cause then 2 else 0;
    assert Csr.Number(cause, 3) == n2 + if 2 in cause then 4 else 0;
    assert Csr.Number(cause, 4) == Csr.Number(cause, 3) + if 3 in cause then 8 else 0;
  }

  // ---- traps and returns ----

  // A trap from U or S goes to S exactly if the delegation register for its kind has the bit of its
  // number; every other trap, and any from M, goes to M. Each mode has its own stack of one entry.
  lemma TrapGoes(c: Csr.Regs, i: Csr.In)
    requires Csr.Shaped(c) && i.trap
    ensures var d, cause := Csr.Next(c, i), i.trapWith.cause;
            if c.priv != 3 && Code(cause) in (if 31 in cause then c.mideleg else c.medeleg) then
              && d.priv == 1 && d.s == i.trapWith && d.m == c.m
              && (5 in d.mstatus <==> 1 in c.mstatus) && 1 !in d.mstatus && (8 in d.mstatus <==> c.priv == 1)
              && d.mstatus - {1, 5, 8} == c.mstatus - {1, 5, 8}
            else
              && d.priv == 3 && d.m == i.trapWith && d.s == c.s
              && (7 in d.mstatus <==> 3 in c.mstatus) && 3 !in d.mstatus
              && (11 in d.mstatus <==> c.priv % 2 == 1) && (12 in d.mstatus <==> c.priv >= 2)
              && d.mstatus - {3, 7, 11, 12} == c.mstatus - {3, 7, 11, 12}
    ensures var d := Csr.Next(c, i); d.(mstatus := c.mstatus, priv := c.priv, m := c.m, s := c.s) == c
  {
    hide Csr.Number;
    CodeIs(i.trapWith.cause);
  }

  // MRET and SRET pop those stacks, and leave MPRV set only on a return to M.
  lemma ReturnGoes(c: Csr.Regs, i: Csr.In)
    requires Csr.Shaped(c) && !i.trap && (i.mret || i.sret)
    ensures var d := Csr.Next(c, i);
            && d.(mstatus := c.mstatus, priv := c.priv) == c
            && if i.mret then
                 && d.priv == (if 11 in c.mstatus then 1 else 0) + (if 12 in c.mstatus then 2 else 0)
                 && (3 in d.mstatus <==> 7 in c.mstatus) && 7 in d.mstatus && 11 !in d.mstatus && 12 !in d.mstatus
                 && (17 in d.mstatus <==> 17 in c.mstatus && d.priv == 3)
                 && d.mstatus - {3, 7, 11, 12, 17} == c.mstatus - {3, 7, 11, 12, 17}
               else
                 && d.priv == (if 8 in c.mstatus then 1 else 0)
                 && (1 in d.mstatus <==> 5 in c.mstatus) && 5 in d.mstatus && 8 !in d.mstatus
                 && (17 in d.mstatus <==> 17 in c.mstatus && d.priv == 1)
                 && d.mstatus - {1, 5, 8, 17} == c.mstatus - {1, 5, 8, 17}
  {
  }

  // ---- interrupts ----

  // Interrupt b is pending: bits 3, 7 and 11 of mip are lines, bit 9 is a line or software's.
  predicate Up(c: Csr.Regs, l: Csr.Lines, b: nat) {
    if b == 3 then l.msi else if b == 7 then l.mti else if b == 11 then l.mei else b in c.mip || (b == 9 && l.sei)
  }

  predicate ForM(c: Csr.Regs, l: Csr.Lines, b: nat) {
    Up(c, l, b) && b in c.mie && b !in c.mideleg && (c.priv != 3 || 3 in c.mstatus)
  }

  predicate ForS(c: Csr.Regs, l: Csr.Lines, b: nat) {
    Up(c, l, b) && b in c.mie && b in c.mideleg && (c.priv == 0 || (c.priv == 1 && 1 in c.mstatus))
  }

  // External before software before timer, machine before supervisor.
  const ORDER: seq<nat> := [11, 3, 7, 9, 1, 5]

  // The interrupt to present is the k-th in that order.
  predicate Leads(c: Csr.Regs, l: Csr.Lines, k: nat)
    requires k < 6
  {
    || (ForM(c, l, ORDER[k]) && forall j | 0 <= j < k :: !ForM(c, l, ORDER[j]))
    || (&& ForS(c, l, ORDER[k]) && (forall j | 0 <= j < k :: !ForS(c, l, ORDER[j]))
        && forall j | 0 <= j < 6 :: !ForM(c, l, ORDER[j]))
  }

  lemma PathsAre(c: Csr.Regs, l: Csr.Lines)
    requires Csr.Maskable(c)
    ensures forall b | b in Csr.MachinePath(c, l) && (c.priv != 3 || 3 in c.mstatus) :: b in ORDER && ForM(c, l, b)
    ensures forall b | b in ORDER && ForM(c, l, b) :: b in Csr.MachinePath(c, l) && (c.priv != 3 || 3 in c.mstatus)
    ensures forall b | b in Csr.SupervisorPath(c, l) && (c.priv == 0 || (c.priv == 1 && 1 in c.mstatus)) ::
              b in ORDER && ForS(c, l, b)
    ensures forall b | b in ORDER && ForS(c, l, b) ::
              b in Csr.SupervisorPath(c, l) && (c.priv == 0 || (c.priv == 1 && 1 in c.mstatus))
  {
    forall b | b in c.mie
      ensures b in ORDER
    {
      assert b in Csr.MIE_WRITABLE;
      assert ORDER[0] == 11 && ORDER[1] == 3 && ORDER[2] == 7 && ORDER[3] == 9 && ORDER[4] == 1 && ORDER[5] == 5;
    }
  }

  // Where an interrupt stands in the order.
  function Place(q: Csr.Irq): (k: nat)
    ensures k < 6 && Code(Csr.CauseOf(q)) == ORDER[k] && 31 in Csr.CauseOf(q)
  {
    match q case Mei => 0 case Msi => 1 case Mti => 2 case Sei => 3 case Ssi => 4 case Sti => 5
  }

  lemma PickLeadsM(c: Csr.Regs, l: Csr.Lines)
    requires Csr.Maskable(c) && Csr.MachineLive(c, l)
    ensures Leads(c, l, Place(Csr.IrqPick(c, l)))
  {
    PathsAre(c, l);
  }

  lemma PickLeadsS(c: Csr.Regs, l: Csr.Lines)
    requires Csr.Maskable(c) && !Csr.MachineLive(c, l) && Csr.SupervisorLive(c, l)
    ensures Leads(c, l, Place(Csr.IrqPick(c, l)))
  {
    PathsAre(c, l);
  }

  // In every reachable state: an interrupt is presented exactly if some enabled one is pending for M or
  // for S, and then it is the first such, those for M going before those for S.
  lemma InterruptIs(ins: seq<Csr.In>, l: Csr.Lines)
    ensures var c, q := Csr.Run(Csr.RESET, ins), Csr.CauseOf(Csr.IrqPick(Csr.Run(Csr.RESET, ins), l));
            && (Csr.IrqPending(c, l) <==> exists k | 0 <= k < 6 :: ForM(c, l, ORDER[k]) || ForS(c, l, ORDER[k]))
            && (Csr.IrqPending(c, l) ==>
                  31 in q && exists k | 0 <= k < 6 :: Leads(c, l, k) && Code(q) == ORDER[k])
  {
    var c := Csr.Run(Csr.RESET, ins);
    Csr.AlwaysMaskable(ins);
    PathsAre(c, l);
    if Csr.MachineLive(c, l) {
      PickLeadsM(c, l);
    } else if Csr.SupervisorLive(c, l) {
      PickLeadsS(c, l);
    }
  }

  // ---- who may change what ----

  predicate Quiet(i: Csr.In) { !i.trap && !i.mret && !i.sret }

  predicate Implemented(addr: nat) {
    || addr in {0x100, 0x104, 0x105, 0x106, 0x140, 0x141, 0x142, 0x143, 0x144, 0x180,
                0x300, 0x301, 0x302, 0x303, 0x304, 0x305, 0x340, 0x341, 0x342, 0x343, 0x344,
                0xB00, 0xB02, 0xB80, 0xB82, 0xC00, 0xC01, 0xC02, 0xC80, 0xC81, 0xC82,
                0xF11, 0xF12, 0xF13, 0xF14}
    || 0x3A0 <= addr < 0x3A4 || 0x3B0 <= addr < 0x3C0
  }

  // CSRRW writes always, the others exactly if their source is not x0 or zero.
  predicate Changes(i: Csr.In) { i.op.Rw? || (i.srcNonZero && (i.op.Rs? || i.op.Rc?)) }

  // An access is illegal exactly if the register does not exist, the privilege is below bits 9 and 8 of
  // the address, it would write where bits 11 and 10 say read-only, or S touches satp under TVM.
  lemma IllegalIs(c: Csr.Regs, i: Csr.In)
    requires Csr.Shaped(c)
    ensures Csr.Illegal(c, i) <==>
              || !Implemented(i.addr) || c.priv < i.addr / 0x100 % 4 || (Changes(i) && i.addr / 0x400 % 4 == 3)
              || (i.addr == 0x180 && c.priv == 1 && 20 in c.mstatus)
    ensures Csr.DoWrite(c, i) <==> i.en && Changes(i) && !Csr.Illegal(c, i)
  {
  }

  // Nothing else changes anything.
  lemma WhoMayWrite(c: Csr.Regs, i: Csr.In)
    requires Csr.Shaped(c) && Quiet(i) && Csr.Next(c, i) != c
    ensures i.en && Changes(i) && c.priv >= i.addr / 0x100 % 4 && i.addr / 0x400 % 4 != 3
    ensures i.addr == 0x180 && c.priv == 1 ==> 20 !in c.mstatus
  {
  }

  // What belongs to M-mode.
  predicate SameForM(c: Csr.Regs, d: Csr.Regs) {
    && d.medeleg == c.medeleg && d.mideleg == c.mideleg && d.mtvec == c.mtvec && d.mscratch == c.mscratch && d.m == c.m
    && d.pmpcfg == c.pmpcfg && d.pmpaddr == c.pmpaddr
    && d.mstatus - {1, 5, 8, 17, 18, 19} == c.mstatus - {1, 5, 8, 17, 18, 19}
    && d.mie - c.mideleg == c.mie - c.mideleg && d.mip - {1} == c.mip - {1}
  }

  lemma BelowMStep(c: Csr.Regs, i: Csr.In)
    requires Csr.Shaped(c) && c.priv <= 1 && !i.trap && !i.mret
    ensures Csr.Next(c, i).priv <= 1 && SameForM(c, Csr.Next(c, i))
  {
    hide Csr.NewValue, Csr.CfgAfter;
    if i.addr / 0x100 % 4 == 3 {
      assert !i.sret ==> Csr.Next(c, i) == c;
    } else {
      assert i.addr < 0x3A0 || i.addr >= 0x3C0;
    }
  }

  // Until the next trap, nothing executed below M-mode, over any run, changes what belongs to M.
  lemma {:induction false} BelowMKeepsM(c: Csr.Regs, ins: seq<Csr.In>)
    requires Csr.Shaped(c) && c.priv <= 1 && forall k | 0 <= k < |ins| :: !ins[k].trap && !ins[k].mret
    ensures Csr.Run(c, ins).priv <= 1 && SameForM(c, Csr.Run(c, ins))
  {
    hide Csr.Next;
    if ins != [] {
      BelowMKeepsM(c, ins[..|ins| - 1]);
      BelowMStep(Csr.Run(c, ins[..|ins| - 1]), ins[|ins| - 1]);
    }
  }

  // And nothing executed in U-mode changes anything at all.
  lemma {:induction false} UserKeepsAll(c: Csr.Regs, ins: seq<Csr.In>)
    requires Csr.Shaped(c) && c.priv == 0 && forall k | 0 <= k < |ins| :: Quiet(ins[k])
    ensures Csr.Run(c, ins) == c
  {
    if ins != [] {
      UserKeepsAll(c, ins[..|ins| - 1]);
      UserStep(c, ins[|ins| - 1]);
    }
  }

  lemma UserStep(c: Csr.Regs, i: Csr.In)
    requires Csr.Shaped(c) && c.priv == 0 && Quiet(i)
    ensures Csr.Next(c, i) == c
  {
    if Csr.Next(c, i) != c { WhoMayWrite(c, i); }
  }

  // ---- what a written register reads as ----

  // The value an instruction writes, from what the register reads as.
  function Operand(i: Csr.In, was: Bits): Bits {
    match i.op case Rw => i.wdata case Rs => was + i.wdata case Rc => was - i.wdata case NoOp => was
  }

  // The bits of a register that software can set.
  function Legal(c: Csr.Regs, addr: nat, v: Bits): Bits {
    if addr == 0x300 then v * {1, 3, 5, 7, 8, 11, 12, 17, 18, 19, 20, 22}
    else if addr == 0x100 then v * {1, 5, 8, 18, 19}
    else if addr == 0x302 then v * {0, 1, 2, 3, 4, 5, 6, 7, 8, 9, 12, 13, 15}
    else if addr == 0x303 then v * {1, 5, 9}
    else if addr == 0x304 then v * {1, 3, 5, 7, 9, 11}
    else if addr == 0x104 then v * c.mideleg
    else if addr == 0x305 || addr == 0x105 then v - {1}
    else if addr == 0x341 || addr == 0x141 then v - {0, 1}
    else v
  }

  // mstatus, medeleg, mideleg, mie, mtvec, mscratch, mepc, mcause, mtval and the same for S, and satp.
  predicate Holds(addr: nat) {
    addr in {0x300, 0x302, 0x303, 0x304, 0x305, 0x340, 0x341, 0x342, 0x343,
             0x100, 0x104, 0x105, 0x140, 0x141, 0x142, 0x143, 0x180}
  }

  predicate Cut(c: Csr.Regs) {
    && c.mstatus <= {1, 3, 5, 7, 8, 11, 12, 17, 18, 19, 20, 22} && c.mie <= {1, 3, 5, 7, 9, 11}
    && c.mideleg <= {1, 5, 9} && c.mip <= {1, 5, 9}
  }

  lemma CutStep(c: Csr.Regs, i: Csr.In)
    requires Csr.Shaped(c) && Cut(c)
    ensures Cut(Csr.Next(c, i))
  {
    hide Csr.NewValue, Csr.DoWrite, Csr.MppOf, Csr.TrapToS, Csr.CfgAfter, Csr.AddrLocked;
  }

  lemma {:induction false} AlwaysCut(ins: seq<Csr.In>)
    ensures Cut(Csr.Run(Csr.RESET, ins))
  {
    hide Csr.Next;
    if ins != [] {
      AlwaysCut(ins[..|ins| - 1]);
      CutStep(Csr.Run(Csr.RESET, ins[..|ins| - 1]), ins[|ins| - 1]);
    }
  }

  // In every reachable state: a register that is written reads back as what was written, cut to the
  // bits software can set, and no other register changes, but for the views of mstatus, mie and mip.
  lemma WritesReadBack(ins: seq<Csr.In>, i: Csr.In, was: Bits)
    requires var c := Csr.Run(Csr.RESET, ins);
             && Quiet(i) && i.en && Changes(i) && !Csr.Illegal(c, i) && Holds(i.addr)
             && Csr.ReadCsr(c, i) == Csr.Value(was)
    ensures var c := Csr.Run(Csr.RESET, ins);
            Csr.ReadCsr(Csr.Next(c, i), i) == Csr.Value(Legal(c, i.addr, Operand(i, was)))
  {
    hide Csr.Illegal, Csr.Run;
    AlwaysCut(ins);
  }

  // The registers a write to an address shows in.
  predicate Shows(written: nat, read: nat) {
    || read == written
    || ({written, read} <= {0x300, 0x100}) || ({written, read} <= {0x304, 0x104}) || ({written, read} <= {0x344, 0x144})
    || (written == 0x303 && read in {0x104, 0x144})
  }

  lemma OthersStay(c: Csr.Regs, i: Csr.In, r: Csr.In)
    requires Csr.Shaped(c) && Quiet(i) && !Shows(i.addr, r.addr)
    ensures Csr.ReadCsr(Csr.Next(c, i), r) == Csr.ReadCsr(c, r)
  {
    hide Csr.DoWrite, Csr.NewValue, Csr.ReadCsr, Csr.Written, Csr.PmpWritten;
    if Csr.DoWrite(c, i) {
      if i.addr < 0x3A0 {
        PlainOthersStay(c, i.addr, Csr.NewValue(c, i), r);
      } else {
        PmpOthersStay(c, i.addr, Csr.NewValue(c, i), r);
      }
    }
  }

  lemma PlainOthersStay(c: Csr.Regs, addr: nat, v: Bits, r: Csr.In)
    requires Csr.Shaped(c) && addr < 0x3A0 && !Shows(addr, r.addr)
    ensures Csr.ReadCsr(Csr.Written(c, addr, v), r) == Csr.ReadCsr(c, r)
  {
  }

  lemma PmpOthersStay(c: Csr.Regs, addr: nat, v: Bits, r: Csr.In)
    requires Csr.Shaped(c) && addr >= 0x3A0 && addr != r.addr
    ensures Csr.ReadCsr(Csr.PmpWritten(c, addr, v), r) == Csr.ReadCsr(c, r)
  {
    if 0x3A0 <= addr < 0x3A4 && 0x3A0 <= r.addr < 0x3A4 {
      var d := Csr.PmpWritten(c, addr, v);
      assert forall k | 0 <= k < 16 && k / 4 == r.addr - 0x3A0 :: d.pmpcfg[k] == c.pmpcfg[k];
    }
  }

  // A PMP configuration byte reads back as written unless its bit 7 locks it.
  lemma CfgReadsBack(c: Csr.Regs, i: Csr.In, was: Bits)
    requires Csr.Shaped(c) && Quiet(i) && i.en && Changes(i) && !Csr.Illegal(c, i)
    requires Csr.ReadCsr(c, i) == Csr.Value(was)
    requires 0x3A0 <= i.addr < 0x3A4
    ensures Csr.ReadCsr(Csr.Next(c, i), i).Value?
    ensures forall b | 0 <= b < 32 ::
              b in Csr.ReadCsr(Csr.Next(c, i), i).v
              <==> if b - b % 8 + 7 in was then b in was else b in Operand(i, was)
  {
    hide Csr.Illegal, Csr.CfgWord, Csr.CfgAfter;
    var n, v := i.addr - 0x3A0, Csr.NewValue(c, i);
    assert v == Operand(i, was);
    forall b | 0 <= b < 32
      ensures b in Csr.CfgWord(Csr.Next(c, i), n) <==> if b - b % 8 + 7 in was then b in was else b in v
    {
      CfgBit(c, n, v, b);
    }
  }

  // So does a PMP address, unless its entry or a TOR entry above it is locked.
  lemma AddressReadsBack(c: Csr.Regs, i: Csr.In, was: Bits)
    requires Csr.Shaped(c) && Quiet(i) && i.en && Changes(i) && !Csr.Illegal(c, i)
    requires Csr.ReadCsr(c, i) == Csr.Value(was)
    requires 0x3B0 <= i.addr < 0x3C0
    ensures var k := i.addr - 0x3B0;
            Csr.ReadCsr(Csr.Next(c, i), i)
            == Csr.Value(if 7 in c.pmpcfg[k] || (k < 15 && 7 in c.pmpcfg[k + 1] && 3 in c.pmpcfg[k + 1]
                                                 && 4 !in c.pmpcfg[k + 1])
                         then was else Operand(i, was))
  {
    hide Csr.Illegal;
  }

  lemma CfgBit(c: Csr.Regs, n: nat, v: Bits, b: nat)
    requires Csr.Shaped(c) && n < 4 && b < 32
    ensures var was := Csr.CfgWord(c, n);
            b in Csr.CfgWord(c.(pmpcfg := Csr.CfgAfter(c, n, v)), n)
            <==> if b - b % 8 + 7 in was then b in was else b in v
  {
    var k := 4 * n + b / 8;
    assert k / 4 == n && k % 4 == b / 8;
    var top := b - b % 8 + 7;
    assert top / 8 == b / 8 && top % 8 == 7;
    assert b % 8 in Csr.CfgByte(v, b / 8) <==> b in v;
  }
}
