/**
 The RV32 vocabulary shared by the two cores: machine words, decoded instructions, byte lanes, and
 the register file and data memory as values.

 The arithmetic leaves of the core (ALU, multiplier, immediate generator, the value the divider
 delivers) stay symbolic: they are the function fields of `Leaf`, so every theorem about a core
 holds for all of them.
 */
module Rv32 {

  type Word = x: int | 0 <= x < 0x1_0000_0000
  type Reg = x: int | 0 <= x < 32
  type Funct3 = x: int | 0 <= x < 8

  function Plus4(pc: Word): Word { (pc + 4) % 0x1_0000_0000 }

  function Add(x: Word, y: Word): Word { (x + y) % 0x1_0000_0000 }

  datatype Kind =
    | Lui | Auipc | OpImm | Op | Mul | Div
    | Jal | Jalr | Branch | Load | Store
    | Csr(immediate: bool, satp: bool)
    | Ecall | Ebreak | Mret | Sret | Wfi | Fence | FenceI | Sfence
    | Lr | Sc | Amo
    | Illegal

  datatype Insn = Insn(kind: Kind, f3: Funct3, rd: Reg, rs1: Reg, rs2: Reg, raw: Word)

  datatype Leaf = Leaf(
    imm: Insn -> Word,
    alu: (Insn, Word, Word) -> Word,
    mul: (Insn, Word, Word) -> Word,
    div: (Insn, Word, Word) -> Word,
    taken: (Insn, Word, Word) -> bool,
    amo: (Insn, Word, Word) -> Word)

  predicate IsAtomic(k: Kind) { k.Lr? || k.Sc? || k.Amo? }

  predicate IsSystem(k: Kind) {
    k.Csr? || k.Ecall? || k.Ebreak? || k.Mret? || k.Sret? || k.Wfi? || k.Sfence?
  }

  // Instructions the pipeline dispatches alone, after draining everything ahead of them.
  predicate IsSerial(k: Kind) { IsSystem(k) || k.Fence? || k.FenceI? || IsAtomic(k) }

  predicate UsesRs1(k: Kind) {
    k.Jalr? || k.Branch? || k.Load? || k.Store? || k.OpImm? || k.Op? || k.Mul? || k.Div?
    || IsAtomic(k) || (k.Csr? && !k.immediate)
  }

  predicate UsesRs2(k: Kind) {
    k.Branch? || k.Store? || k.Op? || k.Mul? || k.Div? || k.Sc? || k.Amo?
  }

  predicate WritesRd(i: Insn) {
    && i.rd != 0
    && (i.kind.Lui? || i.kind.Auipc? || i.kind.Jal? || i.kind.Jalr? || i.kind.Load? || i.kind.OpImm?
        || i.kind.Op? || i.kind.Mul? || i.kind.Div? || i.kind.Csr? || IsAtomic(i.kind))
  }

  // The iterative divider as the cores use it: idle, or working on latched operands.
  datatype DivUnit = DivIdle | DivBusy(insn: Insn, a: Word, b: Word)

  // The LR/SC reservation: the aligned address of a word.
  datatype Reservation = NoReservation | Reserved(word: Word)

  // ---- register file ----

  type Regs = map<Reg, Word>

  function ReadReg(r: Regs, i: Reg): Word { if i != 0 && i in r then r[i] else 0 }

  function WriteReg(r: Regs, wen: bool, i: Reg, v: Word): Regs {
    if wen && i != 0 then r[i := v] else r
  }

  // ---- data memory, one word per aligned address ----

  type Mem = map<Word, Word>

  datatype Mask = Mask(m0: bool, m1: bool, m2: bool, m3: bool)

  const FULL_MASK := Mask(true, true, true, true)

  function Align(a: Word): Word { a - a % 4 }

  function ReadWord(m: Mem, a: Word): Word { if Align(a) in m then m[Align(a)] else 0 }

  function WriteWord(m: Mem, a: Word, v: Word, mask: Mask): Mem {
    m[Align(a) := Merge(ReadWord(m, a), v, mask)]
  }

  type Byte = x: int | 0 <= x < 256

  function ByteOf(w: Word, lane: nat): Byte
    requires lane < 4
  {
    if lane == 0 then w % 256 else if lane == 1 then w / 256 % 256
    else if lane == 2 then w / 0x1_0000 % 256 else w / 0x100_0000
  }

  function FromBytes(b0: Byte, b1: Byte, b2: Byte, b3: Byte): Word {
    b0 + 256 * b1 + 0x1_0000 * b2 + 0x100_0000 * b3
  }

  function Merge(was: Word, v: Word, m: Mask): Word {
    FromBytes(ByteOf(if m.m0 then v else was, 0), ByteOf(if m.m1 then v else was, 1),
              ByteOf(if m.m2 then v else was, 2), ByteOf(if m.m3 then v else was, 3))
  }

  predicate Lane(m: Mask, lane: nat)
    requires lane < 4
  {
    if lane == 0 then m.m0 else if lane == 1 then m.m1 else if lane == 2 then m.m2 else m.m3
  }

  // ---- sub-word access: how the cores move a value to and from its byte lanes ----

  function SizeOf(f3: Funct3): (n: nat) {
    if f3 == 0 || f3 == 4 then 1 else if f3 == 1 || f3 == 5 then 2 else 4
  }

  // Unused encodings count as aligned, as in both cores.
  predicate Misaligned(f3: Funct3, a: Word) {
    if f3 == 1 || f3 == 5 then a % 2 != 0 else f3 == 2 && a % 4 != 0
  }

  function StoreData(f3: Funct3, a: Word, v: Word): Word {
    if f3 == 0 then
      (if a % 4 == 0 then v % 256 else if a % 4 == 1 then v % 256 * 256
       else if a % 4 == 2 then v % 256 * 0x1_0000 else v % 256 * 0x100_0000)
    else if f3 == 1 then
      (if a % 4 < 2 then v % 0x1_0000 else v % 0x1_0000 * 0x1_0000)
    else v
  }

  function StoreMask(f3: Funct3, a: Word): Mask {
    if f3 == 0 then Mask(a % 4 == 0, a % 4 == 1, a % 4 == 2, a % 4 == 3)
    else if f3 == 1 then Mask(a % 4 < 2, a % 4 < 2, a % 4 >= 2, a % 4 >= 2)
    else FULL_MASK
  }

  function SignExtend(v: nat, size: nat): Word
    requires (size == 1 && v < 0x100) || (size == 2 && v < 0x1_0000)
  {
    if size == 1 then (if v < 0x80 then v else v + 0xFFFF_FF00)
    else (if v < 0x8000 then v else v + 0xFFFF_0000)
  }

  function LoadData(f3: Funct3, a: Word, w: Word): Word {
    var half := if a % 4 < 2 then w % 0x1_0000 else w / 0x1_0000;
    if f3 == 0 then SignExtend(ByteOf(w, a % 4), 1)
    else if f3 == 4 then ByteOf(w, a % 4)
    else if f3 == 1 then SignExtend(half, 2)
    else if f3 == 5 then half
    else w
  }

  // ---- what both cores compute for one instruction ----

  // The operand muxes in front of the ALU, and the one-cycle results.
  function Arith(l: Leaf, i: Insn, pc: Word, a: Word, b: Word): Word {
    match i.kind
    case Jal => Plus4(pc)
    case Jalr => Plus4(pc)
    case Mul => l.mul(i, a, b)
    case Lui => l.alu(i, 0, l.imm(i))
    case Auipc => l.alu(i, pc, l.imm(i))
    case OpImm => l.alu(i, a, l.imm(i))
    case _ => l.alu(i, a, b)
  }

  function Address(l: Leaf, i: Insn, a: Word): Word {
    if IsAtomic(i.kind) then a else Add(a, l.imm(i))
  }

  function Target(l: Leaf, i: Insn, pc: Word, a: Word): Word {
    if i.kind.Jalr? then Add(a, l.imm(i)) - Add(a, l.imm(i)) % 2 else Add(pc, l.imm(i))
  }

  predicate Takes(l: Leaf, i: Insn, a: Word, b: Word) {
    i.kind.Jal? || i.kind.Jalr? || (i.kind.Branch? && l.taken(i, a, b))
  }

  // Address exceptions of the instruction itself.
  predicate AddressTrap(l: Leaf, i: Insn, pc: Word, a: Word, b: Word) {
    || (Takes(l, i, a, b) && Target(l, i, pc, a) % 4 != 0)
    || ((i.kind.Load? || i.kind.Store?) && Misaligned(i.f3, Address(l, i, a)))
    || (IsAtomic(i.kind) && Address(l, i, a) % 4 != 0)
  }

  // Only the operands an instruction uses matter.
  lemma OnlyUsedOperands(l: Leaf, i: Insn, pc: Word, a: Word, b: Word, c: Word, d: Word)
    requires (UsesRs1(i.kind) ==> a == c) && (UsesRs2(i.kind) ==> b == d)
    ensures AddressTrap(l, i, pc, a, b) == AddressTrap(l, i, pc, c, d) && Takes(l, i, a, b) == Takes(l, i, c, d)
    ensures Takes(l, i, a, b) ==> Target(l, i, pc, a) == Target(l, i, pc, c)
    ensures i.kind.Load? || i.kind.Store? || IsAtomic(i.kind) ==> Address(l, i, a) == Address(l, i, c)
    ensures WritesRd(i) && !i.kind.Load? && !i.kind.Csr? && !IsAtomic(i.kind) ==>
              Arith(l, i, pc, a, b) == Arith(l, i, pc, c, d)
  {
    hide Misaligned;
  }

  // ---- byte-level meaning of the lanes ----

  // What a load means without reference to lanes: the little-endian number made of its bytes.
  function BytesAt(w: Word, offset: nat, size: nat): nat
    requires offset + size <= 4
    decreases size
  {
    if size == 0 then 0 else ByteOf(w, offset) + 256 * BytesAt(w, offset + 1, size - 1)
  }

  lemma BytesOfMerge(was: Word, v: Word, m: Mask, lane: nat)
    requires lane < 4
    ensures ByteOf(Merge(was, v, m), lane) == ByteOf(if Lane(m, lane) then v else was, lane)
  {
    var x0, x1 := if m.m0 then v else was, if m.m1 then v else was;
    var x2, x3 := if m.m2 then v else was, if m.m3 then v else was;
    SplitBytes(ByteOf(x0, 0), ByteOf(x1, 1), ByteOf(x2, 2), ByteOf(x3, 3));
  }

  lemma SplitBytes(b0: Byte, b1: Byte, b2: Byte, b3: Byte)
    ensures ByteOf(FromBytes(b0, b1, b2, b3), 0) == b0
    ensures ByteOf(FromBytes(b0, b1, b2, b3), 1) == b1
    ensures ByteOf(FromBytes(b0, b1, b2, b3), 2) == b2
    ensures ByteOf(FromBytes(b0, b1, b2, b3), 3) == b3
  {
    var w := FromBytes(b0, b1, b2, b3);
    assert w / 256 == b1 + 256 * (b2 + 256 * b3);
    assert w / 0x1_0000 == b2 + 256 * b3;
  }

  lemma WordFromBytes(w: Word)
    ensures w == FromBytes(ByteOf(w, 0), ByteOf(w, 1), ByteOf(w, 2), ByteOf(w, 3))
    ensures w % 0x1_0000 == ByteOf(w, 0) + 256 * ByteOf(w, 1)
    ensures w / 0x1_0000 == ByteOf(w, 2) + 256 * ByteOf(w, 3)
    ensures BytesAt(w, 0, 1) == ByteOf(w, 0)
    ensures BytesAt(w, 0, 2) == w % 0x1_0000
    ensures BytesAt(w, 0, 4) == w
  {
    assert w / 256 / 256 == w / 0x1_0000;
    assert w / 0x1_0000 / 256 == w / 0x100_0000;
    assert BytesAt(w, 1, 1) == ByteOf(w, 1);
    assert BytesAt(w, 3, 1) == ByteOf(w, 3);
    assert BytesAt(w, 2, 2) == ByteOf(w, 2) + 256 * BytesAt(w, 3, 1);
    assert BytesAt(w, 1, 3) == ByteOf(w, 1) + 256 * BytesAt(w, 2, 2);
  }

  // The byte a store puts in each lane: byte k of the value goes to lane a % 4 + k.
  lemma StoreLanes(f3: Funct3, a: Word, v: Word, lane: nat)
    requires f3 < 3 && !Misaligned(f3, a) && lane < 4
    ensures Lane(StoreMask(f3, a), lane) <==> a % 4 <= lane < a % 4 + SizeOf(f3)
    ensures Lane(StoreMask(f3, a), lane) ==>
              ByteOf(StoreData(f3, a, v), lane) == ByteOf(v, lane - a % 4)
  {
    if f3 == 0 {
      assert v % 256 * 256 / 256 == v % 256;
    } else if f3 == 1 {
      var h := v % 0x1_0000;
      WordFromBytes(v);
      assert h * 0x1_0000 / 0x1_0000 == h;
      assert h / 256 == ByteOf(v, 1) && h % 256 == ByteOf(v, 0);
      assert h * 0x1_0000 / 0x100_0000 == h / 256;
    }
  }

  // A store followed by a load of the same width at the same aligned address yields the low bytes
  // that were stored (sign-extended by LB and LH), and every byte outside the access is untouched.
  lemma StoreThenLoad(store: Funct3, load: Funct3, a: Word, was: Word, v: Word)
    requires store < 3 && (load == store || (store < 2 && load == store + 4))
    requires !Misaligned(store, a)
    ensures var low := BytesAt(v, 0, SizeOf(store));
            LoadData(load, a, Merge(was, StoreData(store, a, v), StoreMask(store, a)))
            == if load == 0 then SignExtend(ByteOf(v, 0), 1)
               else if load == 1 then SignExtend(v % 0x1_0000, 2)
               else low
    ensures forall lane | 0 <= lane < 4 && !(a % 4 <= lane < a % 4 + SizeOf(store)) ::
              ByteOf(Merge(was, StoreData(store, a, v), StoreMask(store, a)), lane) == ByteOf(was, lane)
  {
    var w := Merge(was, StoreData(store, a, v), StoreMask(store, a));
    forall lane | 0 <= lane < 4
      ensures a % 4 <= lane < a % 4 + SizeOf(store) ==> ByteOf(w, lane) == ByteOf(v, lane - a % 4)
      ensures !(a % 4 <= lane < a % 4 + SizeOf(store)) ==> ByteOf(w, lane) == ByteOf(was, lane)
    {
      BytesOfMerge(was, StoreData(store, a, v), StoreMask(store, a), lane);
      StoreLanes(store, a, v, lane);
    }
    LoadFromBytes(load, a, w, v);
  }

  lemma LoadFromBytes(load: Funct3, a: Word, w: Word, v: Word)
    requires load < 6 && load != 3 && (SizeOf(load) == 2 ==> a % 2 == 0) && (SizeOf(load) == 4 ==> a % 4 == 0)
    requires forall lane | 0 <= lane < 4 && a % 4 <= lane < a % 4 + SizeOf(load) ::
               ByteOf(w, lane) == ByteOf(v, lane - a % 4)
    ensures LoadData(load, a, w)
            == if load == 0 then SignExtend(ByteOf(v, 0), 1)
               else if load == 1 then SignExtend(v % 0x1_0000, 2)
               else BytesAt(v, 0, SizeOf(load))
  {
    hide ByteOf, BytesAt;
    var o := a % 4;
    assert ByteOf(w, o) == ByteOf(v, 0);
    WordFromBytes(v);
    WordFromBytes(w);
    if SizeOf(load) == 2 {
      assert ByteOf(w, o + 1) == ByteOf(v, 1);
      HalfOf(w, v, o);
    } else if SizeOf(load) == 4 {
      assert ByteOf(w, 1) == ByteOf(v, 1) && ByteOf(w, 2) == ByteOf(v, 2) && ByteOf(w, 3) == ByteOf(v, 3);
    }
  }

  lemma HalfOf(w: Word, v: Word, o: nat)
    requires (o == 0 || o == 2) && ByteOf(w, o) == ByteOf(v, 0) && ByteOf(w, o + 1) == ByteOf(v, 1)
    ensures (if o == 0 then w % 0x1_0000 else w / 0x1_0000) == v % 0x1_0000
  {
    hide ByteOf, BytesAt;
    WordFromBytes(v);
    WordFromBytes(w);
  }
}
