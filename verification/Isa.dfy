/**
 What the two sequential machines do, instruction by instruction, in the manual's terms: program
 counters and addresses are numbers modulo 2^32, memory is bytes, and a register holds what was last
 written to it. Since the cores refine these machines, the same is then read off their logs.
 */
module Isa {
  import opened Rv32
  import Arithmetic
  import Multicycle
  import P = PipelineRefinement
  import M = MulticycleRefinement
  import Pipeline

  const MODULUS := 0x1_0000_0000

  // ---- residues ----

  lemma InWord(a: nat, k: nat)
    requires a % 4 == 0 && k < 4
    ensures (a + k) % 4 == k && (a < MODULUS ==> a + k < MODULUS)
  {
    Arithmetic.DivisionUnique(a + k, 4, a / 4, k);
  }

  lemma WordIsEven(a: nat)
    requires a % 4 == 0
    ensures a % 2 == 0 && (a + 2) % 2 == 0
  {
    Arithmetic.DivisionUnique(a, 2, 2 * (a / 4), 0);
    Arithmetic.DivisionUnique(a + 2, 2, 2 * (a / 4) + 1, 0);
  }

  lemma EvenIsHalf(a: nat)
    requires a % 2 == 0
    ensures a % 4 == 0 || a % 4 == 2
  {
    Arithmetic.DivisionUnique(a, 2, 2 * (a / 4) + a % 4 / 2, a % 4 % 2);
  }

  lemma EvenHalves(x: nat)
    ensures (x - x % 2) % 4 != 0 <==> x % 4 >= 2
  {
    var q, r := x / 4, x % 4;
    Arithmetic.DivisionUnique(x, 2, 2 * q + r / 2, r % 2);
    assert x - x % 2 == 4 * q + (r - r % 2);
    InWord(4 * q, r - r % 2);
  }

  // ---- registers and memory ----

  // A register file: x0 is zero, and a register reads as it was last written.
  lemma RegisterReads(r: Regs, wen: bool, i: Reg, v: Word, j: Reg)
    ensures ReadReg(r, 0) == 0
    ensures ReadReg(WriteReg(r, wen, i, v), j) == if wen && i == j && j != 0 then v else ReadReg(r, j)
  {
  }

  function ByteAt(m: Mem, x: int): Byte {
    ByteOf(if x - x % 4 in m then m[x - x % 4] else 0, x % 4)
  }

  function AccessSize(f3: Funct3): nat { if f3 % 4 == 0 then 1 else if f3 % 4 == 1 then 2 else 4 }

  predicate Unaligned(f3: Funct3, a: Word) { a % AccessSize(f3) != 0 }

  // The number in so many bits, read as two's complement, as a word.
  function Signed(v: nat, half: nat): Word
    requires v < 2 * half <= MODULUS
  {
    if v < half then v else v - 2 * half + MODULUS
  }

  lemma WordsOf(m: Mem, a: Word, v: Word, mask: Mask, x: Word)
    ensures ByteAt(WriteWord(m, a, v, mask), x)
            == if a / 4 == x / 4 && Lane(mask, x % 4) then ByteOf(v, x % 4) else ByteAt(m, x)
  {
    BytesOfMerge(ReadWord(m, a), v, mask, x % 4);
  }

  // A store changes the bytes it names, to those of its operand, and no others.
  lemma StoreBytes(m: Mem, f3: Funct3, a: Word, v: Word, x: Word)
    requires f3 < 3 && !Unaligned(f3, a)
    ensures ByteAt(WriteWord(m, a, StoreData(f3, a, v), StoreMask(f3, a)), x)
            == if a <= x < a + AccessSize(f3) then ByteOf(v, x - a) else ByteAt(m, x)
  {
    hide ByteAt, ByteOf, StoreData, StoreMask, WriteWord;
    WordsOf(m, a, StoreData(f3, a, v), StoreMask(f3, a), x);
    StoreLanes(f3, a, v, x % 4);
    Covers(f3, a, x);
  }

  // An aligned access stays within its word.
  lemma Covers(f3: Funct3, a: Word, x: Word)
    requires f3 < 3 && !Unaligned(f3, a)
    ensures !Misaligned(f3, a) && SizeOf(f3) == AccessSize(f3)
    ensures a <= x < a + AccessSize(f3) <==> a / 4 == x / 4 && a % 4 <= x % 4 < a % 4 + AccessSize(f3)
    ensures a / 4 == x / 4 ==> x % 4 - a % 4 == x - a
  {
    assert a == 4 * (a / 4) + a % 4 && x == 4 * (x / 4) + x % 4;
    if f3 == 1 { EvenIsHalf(a); }
  }

  lemma WordBytes(m: Mem, a: Word, v: Word, x: Word)
    requires a % 4 == 0
    ensures ByteAt(WriteWord(m, a, v, FULL_MASK), x) == if a <= x < a + 4 then ByteOf(v, x - a) else ByteAt(m, x)
  {
    hide ByteAt, ByteOf, WriteWord;
    WordsOf(m, a, v, FULL_MASK, x);
    Covers(2, a, x);
  }

  // The little-endian numbers at an address.
  function Half(m: Mem, a: int): nat { ByteAt(m, a) + 0x100 * ByteAt(m, a + 1) }

  function Full(m: Mem, a: int): Word { Half(m, a) + 0x1_0000 * Half(m, a + 2) }

  // Offset k in the word at a.
  lemma ByteIs(m: Mem, a: Word, k: nat)
    requires a % 4 == 0 && k < 4
    ensures a + k < MODULUS && ReadWord(m, a + k) == ReadWord(m, a) && ByteAt(m, a + k) == ByteOf(ReadWord(m, a), k)
  {
    hide ByteOf;
    InWord(a, k);
  }

  lemma HalfIs(m: Mem, a: Word)
    requires a % 2 == 0
    ensures Half(m, a) == if a % 4 == 0 then ReadWord(m, a) % 0x1_0000 else ReadWord(m, a) / 0x1_0000
  {
    hide ByteOf, BytesAt, ByteAt, ReadWord;
    EvenIsHalf(a);
    var o, base := a % 4, a - a % 4;
    assert base % 4 == 0;
    ByteIs(m, base, o);
    ByteIs(m, base, o + 1);
    WordFromBytes(ReadWord(m, base));
  }

  lemma FullIs(m: Mem, a: Word)
    requires a % 4 == 0
    ensures Full(m, a) == ReadWord(m, a)
  {
    hide Half, ReadWord, ByteAt, ByteOf;
    WordIsEven(a);
    InWord(a, 2);
    ByteIs(m, a, 2);
    HalfIs(m, a);
    HalfIs(m, a + 2);
    Halves(ReadWord(m, a));
  }

  lemma Halves(w: nat)
    ensures w == w % 0x1_0000 + 0x1_0000 * (w / 0x1_0000)
  {
  }

  // What a load reads: the bytes it names, sign-extended by LB and LH.
  function Loads(m: Mem, f3: Funct3, a: Word): Word {
    if f3 == 0 then Signed(ByteAt(m, a), 0x80)
    else if f3 == 1 then Signed(Half(m, a), 0x8000)
    else if f3 == 4 then ByteAt(m, a)
    else if f3 == 5 then Half(m, a)
    else Full(m, a - a % 4)
  }

  lemma LoadBytes(m: Mem, f3: Funct3, a: Word)
    requires f3 == 1 || f3 == 5 ==> a % 2 == 0
    ensures LoadData(f3, a, ReadWord(m, a)) == Loads(m, f3, a)
  {
    hide ByteOf, Half, Full;
    if f3 == 0 || f3 == 4 {
      assert ByteAt(m, a) == ByteOf(ReadWord(m, a), a % 4);
    } else if f3 == 1 || f3 == 5 {
      HalfIs(m, a);
    } else {
      FullIs(m, a - a % 4);
    }
  }

  // ---- addresses ----

  // The alignment the cores check: funct3 values that name no width pass.
  predicate Faulty(f3: Funct3, a: Word) { f3 in {0, 1, 2, 4, 5} && Unaligned(f3, a) }

  // The addresses that make an instruction trap.
  predicate Misdirects(l: Leaf, i: Insn, pc: Word, a: Word, b: Word) {
    var near, far := (pc + l.imm(i)) % MODULUS, (a + l.imm(i)) % MODULUS;
    || (near % 4 != 0 && (i.kind.Jal? || (i.kind.Branch? && l.taken(i, a, b))))
    || (far % 4 >= 2 && i.kind.Jalr?)
    || (Faulty(i.f3, far) && (i.kind.Load? || i.kind.Store?))
    || (a % 4 != 0 && (i.kind.Lr? || i.kind.Sc? || i.kind.Amo?))
  }

  lemma AddressTraps(l: Leaf, i: Insn, pc: Word, a: Word, b: Word)
    ensures AddressTrap(l, i, pc, a, b) <==> Misdirects(l, i, pc, a, b)
  {
    hide Misaligned, Faulty;
    var far := Add(a, l.imm(i));
    EvenHalves(far);
    WidthsAligned(i.f3, far);
  }

  lemma WidthsAligned(f3: Funct3, a: Word)
    ensures Misaligned(f3, a) <==> Faulty(f3, a)
  {
  }

  lemma OnlyAligned(l: Leaf, i: Insn, pc: Word, a: Word, b: Word)
    requires !Misdirects(l, i, pc, a, b)
    ensures IsAtomic(i.kind) ==> a % 4 == 0 && Align(a) == a
    ensures i.kind.Load? && (i.f3 == 1 || i.f3 == 5) ==> (a + l.imm(i)) % MODULUS % 2 == 0
  {
  }

  // The memory an instruction reads, in bytes.
  lemma ReadsBytes(l: Leaf, i: Insn, pc: Word, m: Mem, a: Word, b: Word)
    requires !Misdirects(l, i, pc, a, b)
    ensures var far := (a + l.imm(i)) % MODULUS;
            i.kind.Load? ==> LoadData(i.f3, far, ReadWord(m, far)) == Loads(m, i.f3, far)
    ensures IsAtomic(i.kind) ==> Align(a) == a && ReadWord(m, a) == Full(m, a)
  {
    OnlyAligned(l, i, pc, a, b);
    if i.kind.Load? {
      LoadBytes(m, i.f3, (a + l.imm(i)) % MODULUS);
    } else if IsAtomic(i.kind) {
      FullIs(m, a);
    }
  }

  // ---- results ----

  // The result of an instruction that has one: of its operands, of memory, of the CSR it names.
  function Writes(l: Leaf, i: Insn, pc: Word, a: Word, b: Word, m: Mem, resv: Reservation, csr: Word): Word {
    match i.kind
    case Lui => l.alu(i, 0, l.imm(i))
    case Auipc => l.alu(i, pc, l.imm(i))
    case OpImm => l.alu(i, a, l.imm(i))
    case Mul => l.mul(i, a, b)
    case Div => l.div(i, a, b)
    case Jal => (pc + 4) % MODULUS
    case Jalr => (pc + 4) % MODULUS
    case Load => Loads(m, i.f3, (a + l.imm(i)) % MODULUS)
    case Lr => Full(m, a)
    case Amo => Full(m, a)
    case Sc => if resv == Reserved(a) then 0 else 1
    case Csr(_, _) => csr
    case _ => l.alu(i, a, b)
  }

  // The instructions that have a result.
  predicate HasResult(k: Kind) {
    k in {Lui, Auipc, OpImm, Op, Mul, Div, Jal, Jalr, Load, Lr, Sc, Amo} || k.Csr?
  }

  // Where an instruction goes that neither traps nor returns from a trap.
  function Goes(l: Leaf, i: Insn, pc: Word, a: Word, b: Word): Word {
    match i.kind
    case Jal => (pc + l.imm(i)) % MODULUS
    case Jalr => (a + l.imm(i)) % MODULUS / 2 * 2
    case Branch => (pc + if l.taken(i, a, b) then l.imm(i) else 4) % MODULUS
    case _ => (pc + 4) % MODULUS
  }

  // The byte at x after a store; a funct3 that names no width stores the word.
  function StoredByte(m: Mem, f3: Funct3, a: Word, v: Word, x: Word): Byte {
    if f3 < 3 && a <= x < a + AccessSize(f3) then ByteOf(v, x - a)
    else if f3 >= 3 && a / 4 == x / 4 then ByteOf(v, x % 4)
    else ByteAt(m, x)
  }

  lemma StoredByteIs(m: Mem, f3: Funct3, a: Word, v: Word, x: Word)
    requires !Faulty(f3, a)
    ensures ByteAt(WriteWord(m, a, StoreData(f3, a, v), StoreMask(f3, a)), x) == StoredByte(m, f3, a, v, x)
  {
    hide ByteAt, ByteOf, WriteWord;
    if f3 < 3 {
      StoreBytes(m, f3, a, v, x);
    } else {
      WordsOf(m, a, v, FULL_MASK, x);
    }
  }

  // The byte at x after an instruction that does not trap.
  function ByteAfter(l: Leaf, i: Insn, m: Mem, resv: Reservation, a: Word, b: Word, x: Word): Byte {
    if i.kind.Store? then StoredByte(m, i.f3, (a + l.imm(i)) % MODULUS, b, x)
    else if i.kind.Sc? && resv == Reserved(a) && a <= x < a + 4 then ByteOf(b, x - a)
    else if i.kind.Amo? && a <= x < a + 4 then ByteOf(l.amo(i, Full(m, a), b), x - a)
    else ByteAt(m, x)
  }

  // The three ways the machines write memory.
  lemma MemoryBytes(l: Leaf, i: Insn, pc: Word, m: Mem, resv: Reservation, a: Word, b: Word, x: Word)
    requires !Misdirects(l, i, pc, a, b)
    ensures i.kind.Store? ==>
              var addr := Add(a, l.imm(i));
              ByteAt(WriteWord(m, addr, StoreData(i.f3, addr, b), StoreMask(i.f3, addr)), x)
              == ByteAfter(l, i, m, resv, a, b, x)
    ensures i.kind.Sc? ==>
              && Align(a) == a
              && ByteAfter(l, i, m, resv, a, b, x)
                 == ByteAt(if resv == Reserved(a) then WriteWord(m, a, b, FULL_MASK) else m, x)
    ensures i.kind.Amo? ==>
              ByteAfter(l, i, m, resv, a, b, x)
              == ByteAt(WriteWord(m, a, l.amo(i, ReadWord(m, a), b), FULL_MASK), x)
  {
    hide ByteAt, ByteOf, WriteWord, ReadWord, StoreData, StoreMask, StoredByte, Full;
    if i.kind.Store? {
      StoredByteIs(m, i.f3, Add(a, l.imm(i)), b, x);
    } else if i.kind.Sc? {
      OnlyAligned(l, i, pc, a, b);
      WordBytes(m, a, b, x);
    } else if i.kind.Amo? {
      OnlyAligned(l, i, pc, a, b);
      FullIs(m, a);
      WordBytes(m, a, l.amo(i, ReadWord(m, a), b), x);
    }
  }

  lemma ElsewhereSame(l: Leaf, i: Insn, m: Mem, resv: Reservation, a: Word, b: Word, x: Word)
    requires !i.kind.Store? && !i.kind.Sc? && !i.kind.Amo?
    ensures ByteAfter(l, i, m, resv, a, b, x) == ByteAt(m, x)
  {
  }

  // ---- the machine the pipeline refines ----

  // Which instructions trap.
  lemma PipelineTraps(l: Leaf, prog: P.Program, s: P.Arch, v: P.Env)
    ensures var i := prog.imem(s.pc);
            var a, b := ReadReg(s.regs, i.rs1), ReadReg(s.regs, i.rs2);
            P.RetireOf(l, prog, s, v).trap <==>
              || v.irq || !prog.fetchOk(s.pc) || i.kind.Illegal? || i.kind.Ecall? || i.kind.Ebreak?
              || (v.illegal && (i.kind.Csr? || i.kind.Mret? || i.kind.Sret? || i.kind.Wfi? || i.kind.Sfence?))
              || Misdirects(l, i, s.pc, a, b)
              || ((i.kind.Load? || i.kind.Store?) && !prog.dataOk((a + l.imm(i)) % MODULUS))
              || ((i.kind.Lr? || i.kind.Amo? || (i.kind.Sc? && s.resv == Reserved(a))) && !prog.dataOk(a))
  {
    hide AddressTrap, Misdirects;
    var i := prog.imem(s.pc);
    var a, b := ReadReg(s.regs, i.rs1), ReadReg(s.regs, i.rs2);
    AddressTraps(l, i, s.pc, a, b);
    if !Misdirects(l, i, s.pc, a, b) { OnlyAligned(l, i, s.pc, a, b); }
  }

  // Where each instruction goes next.
  lemma PipelineGoes(l: Leaf, prog: P.Program, s: P.Arch, v: P.Env)
    ensures var i, t := prog.imem(s.pc), P.Resume(l, prog, s, v);
            if P.RetireOf(l, prog, s, v).trap then t == P.Arch(v.vector, s.regs, s.mem, NoReservation)
            else
              t.pc == match i.kind
                      case Mret => v.mepc
                      case Sret => v.sepc
                      case _ => Goes(l, i, s.pc, ReadReg(s.regs, i.rs1), ReadReg(s.regs, i.rs2))
  {
  }

  // What each instruction writes to its register, and that it writes to no other.
  lemma PipelineWrites(l: Leaf, prog: P.Program, s: P.Arch, v: P.Env, r: Reg)
    requires !P.RetireOf(l, prog, s, v).trap
    ensures var i, t := prog.imem(s.pc), P.Resume(l, prog, s, v);
            ReadReg(t.regs, r)
            == if r != i.rd || r == 0 || !HasResult(i.kind) then ReadReg(s.regs, r)
               else Writes(l, i, s.pc, ReadReg(s.regs, i.rs1), ReadReg(s.regs, i.rs2), s.mem, s.resv, v.csr)
  {
    hide Loads, Full, LoadData, ReadWord, AddressTrap, Misdirects, P.NewMem;
    var i := prog.imem(s.pc);
    var a, b := ReadReg(s.regs, i.rs1), ReadReg(s.regs, i.rs2);
    AddressTraps(l, i, s.pc, a, b);
    ReadsBytes(l, i, s.pc, s.mem, a, b);
  }

  // What each instruction does to memory and to the reservation.
  lemma PipelineStores(l: Leaf, prog: P.Program, s: P.Arch, v: P.Env, x: Word)
    requires !P.RetireOf(l, prog, s, v).trap
    ensures var i, t := prog.imem(s.pc), P.Resume(l, prog, s, v);
            var a, b := ReadReg(s.regs, i.rs1), ReadReg(s.regs, i.rs2);
            && ByteAt(t.mem, x) == ByteAfter(l, i, s.mem, s.resv, a, b, x)
            && t.resv == if i.kind.Lr? then Reserved(a)
                         else if i.kind.Sc? || i.kind.Amo? || i.kind.FenceI? || i.kind.Mret? || i.kind.Sret?
                                 || i.kind.Sfence? || (i.kind.Csr? && i.kind.satp) then NoReservation
                         else s.resv
  {
    hide ByteAt, ByteAfter, ReadWord, StoreData, StoreMask, WriteWord, AddressTrap, Misdirects;
    var i := prog.imem(s.pc);
    var a, b := ReadReg(s.regs, i.rs1), ReadReg(s.regs, i.rs2);
    AddressTraps(l, i, s.pc, a, b);
    MemoryBytes(l, i, s.pc, s.mem, s.resv, a, b, x);
    OnlyAligned(l, i, s.pc, a, b);
    if !i.kind.Store? && !i.kind.Sc? && !i.kind.Amo? { ElsewhereSame(l, i, s.mem, s.resv, a, b, x); }
  }

  // What the log says of an instruction.
  lemma PipelineRetires(l: Leaf, prog: P.Program, s: P.Arch, v: P.Env)
    ensures var i, t, w := prog.imem(s.pc), P.Resume(l, prog, s, v), P.RetireOf(l, prog, s, v);
            && w.pc == s.pc && (w.wen <==> !w.trap && i.rd != 0 && HasResult(i.kind)) && (w.wen ==> w.rd == i.rd)
            && (forall r :: ReadReg(t.regs, r) == if w.wen && w.rd == r then w.value else ReadReg(s.regs, r))
  {
    hide P.Traps, P.Result;
  }

  // ---- what the pipeline retires ----

  // A register holds what was retired into it last.
  function LastWrite(log: seq<P.Retire>, r: Reg): Word {
    if log == [] then 0
    else
      var w := log[|log| - 1];
      if w.wen && w.rd == r then w.value else LastWrite(log[..|log| - 1], r)
  }

  lemma {:induction false} PipelineRegisters(l: Leaf, prog: P.Program, s: P.Arch, envs: seq<P.Env>, r: Reg)
    requires s.regs == map[]
    ensures ReadReg(P.Sequential(l, prog, s, envs).regs, r) == LastWrite(P.Retirements(l, prog, s, envs), r)
  {
    hide P.Resume, P.RetireOf;
    if envs != [] {
      var before := envs[..|envs| - 1];
      var last := P.Sequential(l, prog, s, before);
      var log, w := P.Retirements(l, prog, s, before), P.RetireOf(l, prog, last, envs[|envs| - 1]);
      PipelineRegisters(l, prog, s, before, r);
      PipelineRetires(l, prog, last, envs[|envs| - 1]);
      assert (log + [w])[..|log|] == log;
    }
  }

  // The k-th retirement is that of the k-th sequential state.
  lemma {:induction false} RetirementAt(l: Leaf, prog: P.Program, s: P.Arch, envs: seq<P.Env>, k: nat)
    requires k < |envs|
    ensures var log := P.Retirements(l, prog, s, envs);
            && |log| == |envs| && log[k] == P.RetireOf(l, prog, P.Sequential(l, prog, s, envs[..k]), envs[k])
            && log[..k] == P.Retirements(l, prog, s, envs[..k])
  {
    hide P.Resume, P.RetireOf;
    var n := |envs| - 1;
    if n > 0 { RetirementAt(l, prog, s, envs[..n], if k < n then k else n - 1); }
    if k < n {
      assert envs[..n][..k] == envs[..k];
    } else {
      var last := P.Sequential(l, prog, s, envs[..n]);
      var log, w := P.Retirements(l, prog, s, envs[..n]), P.RetireOf(l, prog, last, envs[n]);
      assert (log + [w])[..n] == log;
    }
  }

  // Every run of the pipelined core, read off its log alone: where each retirement goes next, and what
  // it writes, follow from its instruction and from what was last written to its operands.
  lemma PipelineLog(l: Leaf, prog: P.Program, pc: Word, mem: Mem, ins: seq<Pipeline.In>, k: nat)
    requires P.AllowedRun(l, prog, P.Boot(pc, mem), ins) && P.TrapsContained(l, P.Boot(pc, mem), ins)
    requires P.PlainAlong(l, prog, P.Start(pc, mem), P.Envs(l, P.Boot(pc, mem), ins))
    requires k < |P.After(l, P.Boot(pc, mem), ins).log|
    ensures |P.Envs(l, P.Boot(pc, mem), ins)| == |P.After(l, P.Boot(pc, mem), ins).log|
    ensures var log, v := P.After(l, P.Boot(pc, mem), ins).log, P.Envs(l, P.Boot(pc, mem), ins)[k];
            var w, i := log[k], prog.imem(log[k].pc);
            var a, b := LastWrite(log[..k], i.rs1), LastWrite(log[..k], i.rs2);
            && log[0].pc == pc
            && (k + 1 < |log| ==>
                  log[k + 1].pc == if w.trap then v.vector
                                   else match i.kind
                                        case Mret => v.mepc
                                        case Sret => v.sepc
                                        case _ => Goes(l, i, w.pc, a, b))
            && (w.wen <==> !w.trap && i.rd != 0 && HasResult(i.kind)) && (w.wen ==> w.rd == i.rd)
            && (w.wen ==>
                  var s := P.Sequential(l, prog, P.Start(pc, mem), P.Envs(l, P.Boot(pc, mem), ins)[..k]);
                  w.value == Writes(l, i, w.pc, a, b, s.mem, s.resv, v.csr))
  {
    hide P.AllowedRun, P.TrapsContained, P.PlainAlong, P.After, P.Envs, P.Resume, P.RetireOf, P.MemoryOf,
         P.ServedCycles, Goes, Writes, HasResult;
    P.PipelineRefinesSequential(l, prog, pc, mem, ins);
    var s0, envs := P.Start(pc, mem), P.Envs(l, P.Boot(pc, mem), ins);
    var s := P.Sequential(l, prog, s0, envs[..k]);
    var i := prog.imem(s.pc);
    RetirementAt(l, prog, s0, envs, 0);
    PipelineRetires(l, prog, s0, envs[0]);
    RetirementAt(l, prog, s0, envs, k);
    PipelineRegisters(l, prog, s0, envs[..k], i.rs1);
    PipelineRegisters(l, prog, s0, envs[..k], i.rs2);
    PipelineGoes(l, prog, s, envs[k]);
    PipelineRetires(l, prog, s, envs[k]);
    if !P.RetireOf(l, prog, s, envs[k]).trap { PipelineWrites(l, prog, s, envs[k], i.rd); }
    if k + 1 < |envs| {
      RetirementAt(l, prog, s0, envs, k + 1);
      assert envs[..k + 1][..k] == envs[..k];
      PipelineRetires(l, prog, P.Sequential(l, prog, s0, envs[..k + 1]), envs[k + 1]);
    }
  }

  // ---- the machine the multicycle core refines ----

  // Which instructions trap.
  lemma MulticycleTraps(l: Leaf, code: M.Code, s: M.Arch, e: M.Env)
    ensures M.RetireOf(l, code, s, e).trap <==>
              || e.irq || code(s.pc).FetchFault?
              || var i := code(s.pc).insn;
                 var a, b := ReadReg(s.regs, i.rs1), ReadReg(s.regs, i.rs2);
                 || i.kind.Illegal? || i.kind.Ecall? || i.kind.Ebreak? || Misdirects(l, i, s.pc, a, b)
                 || (e.csr.privIllegal && (i.kind.Csr? || i.kind.Mret? || i.kind.Sret? || i.kind.Sfence?))
                 || (e.memFault && (i.kind.Load? || i.kind.Store? || i.kind.Lr? || i.kind.Amo?
                                    || (i.kind.Sc? && s.resv == Reserved(a))))
  {
    hide AddressTrap, Misdirects;
    if code(s.pc).Got? {
      var i := code(s.pc).insn;
      var a, b := ReadReg(s.regs, i.rs1), ReadReg(s.regs, i.rs2);
      AddressTraps(l, i, s.pc, a, b);
      if !Misdirects(l, i, s.pc, a, b) { OnlyAligned(l, i, s.pc, a, b); }
    }
  }

  // Where each step goes next. Only an interrupt uses the vector table, entry `irqCode` of it.
  lemma MulticycleGoes(l: Leaf, code: M.Code, s: M.Arch, e: M.Env)
    ensures var t, base := M.Step(l, code, s, e), e.csr.tvec / 4 * 4;
            if M.RetireOf(l, code, s, e).trap then
              && t.regs == s.regs && t.mem == s.mem
              && t.pc == (if e.irq && e.csr.tvec % 2 == 1 then (base + 4 * e.csr.irqCode) % MODULUS else base)
              && t.resv == if e.irq || code(s.pc).FetchFault? then s.resv else NoReservation
            else
              var i := code(s.pc).insn;
              t.pc == match i.kind
                      case Mret => e.csr.mepc
                      case Sret => e.csr.sepc
                      case _ => Goes(l, i, s.pc, ReadReg(s.regs, i.rs1), ReadReg(s.regs, i.rs2))
  {
  }

  // What each step writes to its register, and that it writes to no other.
  lemma MulticycleWrites(l: Leaf, code: M.Code, s: M.Arch, e: M.Env, r: Reg)
    requires !M.RetireOf(l, code, s, e).trap
    ensures var i, t := code(s.pc).insn, M.Step(l, code, s, e);
            ReadReg(t.regs, r)
            == if r != i.rd || r == 0 || !HasResult(i.kind) then ReadReg(s.regs, r)
               else Writes(l, i, s.pc, ReadReg(s.regs, i.rs1), ReadReg(s.regs, i.rs2), s.mem, s.resv, e.csr.rdata)
  {
    hide Loads, Full, LoadData, ReadWord, AddressTrap, Misdirects, M.NewMem;
    var i := code(s.pc).insn;
    var a, b := ReadReg(s.regs, i.rs1), ReadReg(s.regs, i.rs2);
    AddressTraps(l, i, s.pc, a, b);
    ReadsBytes(l, i, s.pc, s.mem, a, b);
  }

  // What each step does to memory and to the reservation.
  lemma MulticycleStores(l: Leaf, code: M.Code, s: M.Arch, e: M.Env, x: Word)
    requires !M.RetireOf(l, code, s, e).trap
    ensures var i, t := code(s.pc).insn, M.Step(l, code, s, e);
            var a, b := ReadReg(s.regs, i.rs1), ReadReg(s.regs, i.rs2);
            && ByteAt(t.mem, x) == ByteAfter(l, i, s.mem, s.resv, a, b, x)
            && t.resv == if i.kind.Lr? then Reserved(a) else if i.kind.Sc? || i.kind.Amo? then NoReservation else s.resv
  {
    hide ByteAt, ByteAfter, ReadWord, StoreData, StoreMask, WriteWord, AddressTrap, Misdirects;
    var i := code(s.pc).insn;
    var a, b := ReadReg(s.regs, i.rs1), ReadReg(s.regs, i.rs2);
    AddressTraps(l, i, s.pc, a, b);
    MemoryBytes(l, i, s.pc, s.mem, s.resv, a, b, x);
    OnlyAligned(l, i, s.pc, a, b);
    if !i.kind.Store? && !i.kind.Sc? && !i.kind.Amo? { ElsewhereSame(l, i, s.mem, s.resv, a, b, x); }
  }

  // What the log says of a step.
  lemma MulticycleRetires(l: Leaf, code: M.Code, s: M.Arch, e: M.Env)
    ensures var t, w := M.Step(l, code, s, e), M.RetireOf(l, code, s, e);
            && w.pc == s.pc && (!w.trap ==> code(s.pc).Got?)
            && (w.wen <==> !w.trap && code(s.pc).insn.rd != 0 && HasResult(code(s.pc).insn.kind))
            && (w.wen ==> w.rd == code(s.pc).insn.rd)
            && (forall r :: ReadReg(t.regs, r) == if w.wen && w.rd == r then w.value else ReadReg(s.regs, r))
  {
    hide M.NewValue, M.NewPc, M.NewMem, M.NewResv;
  }

  // ---- what the multicycle core commits ----

  // A register holds what was committed to it last.
  function LastCommit(log: seq<Multicycle.Retire>, r: Reg): Word {
    if log == [] then 0
    else
      var w := log[|log| - 1];
      if w.wen && w.rd == r then w.value else LastCommit(log[..|log| - 1], r)
  }

  lemma {:induction false} MulticycleRegisters(l: Leaf, code: M.Code, s: M.Arch, envs: seq<M.Env>, r: Reg)
    requires s.regs == map[]
    ensures ReadReg(M.Sequential(l, code, s, envs).regs, r) == LastCommit(M.Retirements(l, code, s, envs), r)
  {
    hide M.Step, M.RetireOf;
    if envs != [] {
      var before := envs[..|envs| - 1];
      var last := M.Sequential(l, code, s, before);
      var log, w := M.Retirements(l, code, s, before), M.RetireOf(l, code, last, envs[|envs| - 1]);
      MulticycleRegisters(l, code, s, before, r);
      MulticycleRetires(l, code, last, envs[|envs| - 1]);
      assert (log + [w])[..|log|] == log;
    }
  }

  lemma {:induction false} CommitAt(l: Leaf, code: M.Code, s: M.Arch, envs: seq<M.Env>, k: nat)
    requires k < |envs|
    ensures var log := M.Retirements(l, code, s, envs);
            && |log| == |envs| && log[k] == M.RetireOf(l, code, M.Sequential(l, code, s, envs[..k]), envs[k])
            && log[..k] == M.Retirements(l, code, s, envs[..k])
  {
    hide M.Step, M.RetireOf;
    var n := |envs| - 1;
    if n > 0 { CommitAt(l, code, s, envs[..n], if k < n then k else n - 1); }
    if k < n {
      assert envs[..n][..k] == envs[..k];
    } else {
      var last := M.Sequential(l, code, s, envs[..n]);
      var log, w := M.Retirements(l, code, s, envs[..n]), M.RetireOf(l, code, last, envs[n]);
      assert (log + [w])[..n] == log;
    }
  }

  // Every run of the multicycle core, read off its log in the same way.
  lemma MulticycleLog(l: Leaf, code: M.Code, pc: Word, mem: Mem, ins: seq<Multicycle.In>, k: nat)
    requires M.AllowedRun(l, code, M.Boot(pc, mem), ins) && k < |M.Run(l, M.Boot(pc, mem), ins).log|
    ensures |M.Run(l, M.Boot(pc, mem), ins).envs| == |M.Run(l, M.Boot(pc, mem), ins).log|
    ensures var y := M.Run(l, M.Boot(pc, mem), ins);
            var w, e, got := y.log[k], y.envs[k], code(y.log[k].pc);
            && y.log[0].pc == pc && (!w.trap ==> got.Got?)
            && (k + 1 < |y.log| ==>
                  var base := e.csr.tvec / 4 * 4;
                  y.log[k + 1].pc
                  == if w.trap && e.irq && e.csr.tvec % 2 == 1 then (base + 4 * e.csr.irqCode) % MODULUS
                     else if w.trap then base
                     else match got.insn.kind
                          case Mret => e.csr.mepc
                          case Sret => e.csr.sepc
                          case _ => Goes(l, got.insn, w.pc, LastCommit(y.log[..k], got.insn.rs1),
                                         LastCommit(y.log[..k], got.insn.rs2)))
            && (w.wen <==> !w.trap && got.insn.rd != 0 && HasResult(got.insn.kind))
            && (w.wen ==>
                  var s, i := M.Sequential(l, code, M.Arch(pc, map[], mem, NoReservation), y.envs[..k]), got.insn;
                  && w.rd == i.rd
                  && w.value == Writes(l, i, w.pc, LastCommit(y.log[..k], i.rs1), LastCommit(y.log[..k], i.rs2),
                                       s.mem, s.resv, e.csr.rdata))
  {
    hide M.AllowedRun, M.Run, M.Step, M.RetireOf, Goes, Writes, HasResult;
    M.MulticycleRefinesSequential(l, code, pc, mem, ins);
    var s0, envs := M.Arch(pc, map[], mem, NoReservation), M.Run(l, M.Boot(pc, mem), ins).envs;
    M.OneRetirementEach(l, code, s0, envs);
    var s := M.Sequential(l, code, s0, envs[..k]);
    CommitAt(l, code, s0, envs, 0);
    MulticycleRetires(l, code, s0, envs[0]);
    CommitAt(l, code, s0, envs, k);
    MulticycleGoes(l, code, s, envs[k]);
    MulticycleRetires(l, code, s, envs[k]);
    if !M.RetireOf(l, code, s, envs[k]).trap {
      var i := code(s.pc).insn;
      MulticycleRegisters(l, code, s0, envs[..k], i.rs1);
      MulticycleRegisters(l, code, s0, envs[..k], i.rs2);
      MulticycleWrites(l, code, s, envs[k], i.rd);
    }
    if k + 1 < |envs| {
      CommitAt(l, code, s0, envs, k + 1);
      assert envs[..k + 1][..k] == envs[..k];
      MulticycleRetires(l, code, M.Sequential(l, code, s0, envs[..k + 1]), envs[k + 1]);
    }
  }
}
