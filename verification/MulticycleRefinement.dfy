/**
 The multicycle core refines one-instruction-at-a-time RV32IMA, traps and interrupts included, and
 never executes a stale fetch.
 */
module MulticycleRefinement {
  import opened Rv32
  import opened Multicycle

  // ---- the sequential machine ----

  datatype Fetched = FetchFault | Got(insn: Insn)

  // Instruction memory: a word, or a fault, at every address.
  type Code = Word -> Fetched

  datatype Arch = Arch(pc: Word, regs: Regs, mem: Rv32.Mem, resv: Reservation)

  // What one step learns from outside the hart: the CSR file, and whether its data access faults.
  datatype Env = Env(irq: bool, csr: CsrView, memFault: bool)

  function Operand1(i: Insn, s: Arch): Word { ReadReg(s.regs, i.rs1) }

  function Operand2(i: Insn, s: Arch): Word { ReadReg(s.regs, i.rs2) }

  function Addr(l: Leaf, i: Insn, s: Arch): Word { Address(l, i, Operand1(i, s)) }

  // SC succeeds exactly when the reservation is for its word.
  predicate ScStores(l: Leaf, i: Insn, s: Arch) { i.kind.Sc? && s.resv == Reserved(Align(Addr(l, i, s))) }

  predicate Accesses(l: Leaf, i: Insn, s: Arch) {
    i.kind.Load? || i.kind.Store? || i.kind.Lr? || i.kind.Amo? || ScStores(l, i, s)
  }

  datatype Effect = Interrupt | FetchTrap | ExecTrapped | MemTrapped | Executes(insn: Insn)

  // Which of the five things a step does.
  function EffectOf(l: Leaf, code: Code, s: Arch, e: Env): Effect {
    if e.irq then Interrupt
    else
      match code(s.pc)
      case FetchFault => FetchTrap
      case Got(i) =>
        if Raises(l, i, s.pc, Operand1(i, s), Operand2(i, s), e.csr) then ExecTrapped
        else if Accesses(l, i, s) && e.memFault then MemTrapped
        else Executes(i)
  }

  function NewMem(l: Leaf, i: Insn, s: Arch): Rv32.Mem {
    var addr, b := Addr(l, i, s), Operand2(i, s);
    if i.kind.Store? then WriteWord(s.mem, addr, StoreData(i.f3, addr, b), StoreMask(i.f3, addr))
    else if ScStores(l, i, s) then WriteWord(s.mem, addr, b, FULL_MASK)
    else if i.kind.Amo? then WriteWord(s.mem, addr, l.amo(i, ReadWord(s.mem, addr), b), FULL_MASK)
    else s.mem
  }

  function NewValue(l: Leaf, i: Insn, s: Arch, v: CsrView): Word {
    var addr := Addr(l, i, s);
    match i.kind
    case Load => LoadData(i.f3, addr, ReadWord(s.mem, addr))
    case Lr => ReadWord(s.mem, addr)
    case Amo => ReadWord(s.mem, addr)
    case Sc => if ScStores(l, i, s) then 0 else 1
    case Div => l.div(i, Operand1(i, s), Operand2(i, s))
    case Csr(_, _) => v.rdata
    case _ => Arith(l, i, s.pc, Operand1(i, s), Operand2(i, s))
  }

  function NewPc(l: Leaf, i: Insn, s: Arch, v: CsrView): Word {
    if i.kind.Mret? then v.mepc
    else if i.kind.Sret? then v.sepc
    else if Takes(l, i, Operand1(i, s), Operand2(i, s)) then Target(l, i, s.pc, Operand1(i, s))
    else Plus4(s.pc)
  }

  function NewResv(l: Leaf, i: Insn, s: Arch): Reservation {
    if i.kind.Lr? then Reserved(Align(Addr(l, i, s)))
    else if i.kind.Sc? || i.kind.Amo? then NoReservation
    else s.resv
  }

  function Step(l: Leaf, code: Code, s: Arch, e: Env): Arch {
    match EffectOf(l, code, s, e)
    case Interrupt => s.(pc := IrqVector(e.csr))
    case FetchTrap => s.(pc := TrapBase(e.csr))
    case ExecTrapped => s.(pc := TrapBase(e.csr), resv := NoReservation)
    case MemTrapped => s.(pc := TrapBase(e.csr), resv := NoReservation)
    case Executes(i) =>
      Arch(NewPc(l, i, s, e.csr), WriteReg(s.regs, WritesRd(i), i.rd, NewValue(l, i, s, e.csr)),
           NewMem(l, i, s), NewResv(l, i, s))
  }

  function RetireOf(l: Leaf, code: Code, s: Arch, e: Env): Retire {
    match EffectOf(l, code, s, e)
    case Executes(i) => Wrote(s.pc, WritesRd(i), i.rd, NewValue(l, i, s, e.csr))
    case _ => Trapped(s.pc)
  }

  function Sequential(l: Leaf, code: Code, s: Arch, envs: seq<Env>): Arch {
    if envs == [] then s else Step(l, code, Sequential(l, code, s, envs[..|envs| - 1]), envs[|envs| - 1])
  }

  function Retirements(l: Leaf, code: Code, s: Arch, envs: seq<Env>): seq<Retire> {
    if envs == [] then []
    else
      var before := envs[..|envs| - 1];
      Retirements(l, code, s, before) + [RetireOf(l, code, Sequential(l, code, s, before), envs[|envs| - 1])]
  }

  lemma {:induction false} OneRetirementEach(l: Leaf, code: Code, s: Arch, envs: seq<Env>)
    ensures |Retirements(l, code, s, envs)| == |envs|
  {
    if envs != [] { OneRetirementEach(l, code, s, envs[..|envs| - 1]); }
  }

  // ---- the core with its memories ----

  datatype MaybeAddr = NoAddr | Fetching(addr: Word)

  // Both memories have one request outstanding at most. `envs` and `log` record each commit.
  datatype System = System(c: Core, mem: Rv32.Mem, fout: MaybeAddr, dout: MaybeReq, log: seq<Retire>, envs: seq<Env>)

  predicate FetchTaken(y: System, i: In) { FetchRequest(y.c, i) && i.fetchReady }

  predicate DataTaken(l: Leaf, y: System, i: In) { DataRequest(l, y.c, i).Ask? && i.memReady }

  // The memories: any timing, a new request possibly taken in the cycle that answers the old one; an
  // instruction response is what memory holds at the address it answers, and so is a data response
  // that does not fault.
  predicate Allowed(l: Leaf, code: Code, y: System, i: In) {
    && (i.fetchRsp ==>
          && y.fout.Fetching?
          && match code(y.fout.addr)
             case FetchFault => i.fetchFault
             case Got(insn) => !i.fetchFault && i.fetchInsn == insn)
    && (FetchTaken(y, i) ==> y.fout.NoAddr? || i.fetchRsp)
    && (i.memRsp ==> y.dout.Ask? && (!i.memFault ==> i.memData == ReadWord(y.mem, y.dout.req.addr)))
    && (DataTaken(l, y, i) ==> y.dout.NoReq?)
  }

  // A store takes effect when the memory answers it without a fault.
  function MemoryAfter(y: System, i: In): Rv32.Mem {
    if y.dout.Ask? && i.memRsp && !i.memFault && y.dout.req.wen
    then WriteWord(y.mem, y.dout.req.addr, y.dout.req.wdata, y.dout.req.wmask)
    else y.mem
  }

  function EnvOf(y: System, i: In): Env { Env(y.c.phase.Fetch? && i.csr.irq, i.csr, i.memRsp && i.memFault) }

  function Cycle(l: Leaf, y: System, i: In): System {
    System(Next(l, y.c, i), MemoryAfter(y, i),
           if FetchTaken(y, i) then Fetching(y.c.pc) else if i.fetchRsp then NoAddr else y.fout,
           if DataTaken(l, y, i) then DataRequest(l, y.c, i) else if i.memRsp then NoReq else y.dout,
           y.log + Commit(l, y.c, i),
           if Commit(l, y.c, i) != [] then y.envs + [EnvOf(y, i)] else y.envs)
  }

  function Boot(pc: Word, mem: Rv32.Mem): System { System(Reset(pc), mem, NoAddr, NoReq, [], []) }

  function Run(l: Leaf, y: System, ins: seq<In>): System {
    if ins == [] then y else Cycle(l, Run(l, y, ins[..|ins| - 1]), ins[|ins| - 1])
  }

  predicate AllowedRun(l: Leaf, code: Code, y: System, ins: seq<In>) {
    ins == []
    || (AllowedRun(l, code, y, ins[..|ins| - 1]) && Allowed(l, code, Run(l, y, ins[..|ins| - 1]), ins[|ins| - 1]))
  }

  // ---- stale fetches ----

  // The tracked fetch, unless squashed, is for the current pc. A duplicate the memory took in the
  // cycle it answered is not tracked at all.
  predicate FetchSafe(y: System) {
    && (y.c.inflight ==> y.c.phase.Fetch? && y.fout.Fetching?)
    && (y.c.inflight && !y.c.squash ==> y.fout.addr == y.c.pc)
    && (y.c.squash ==> y.c.inflight)
  }

  lemma FetchSafeStep(l: Leaf, code: Code, y: System, i: In)
    requires FetchSafe(y) && Allowed(l, code, y, i)
    ensures FetchSafe(Cycle(l, y, i))
    ensures y.c.phase.Fetch? && Next(l, y.c, i).phase.Exec? ==> code(y.c.pc) == Got(Next(l, y.c, i).insn)
  {
    hide AfterExec, AfterMem, AfterAmo, AfterDiv, DataRequest, Commit, MemoryAfter;
    PhaseFlow(l, y.c, i);
  }

  // Only S_FETCH touches the tracker for anything but a response, and only it leads to S_EXEC.
  lemma PhaseFlow(l: Leaf, c: Core, i: In)
    ensures var d := Next(l, c, i);
            !c.phase.Fetch? ==> d.inflight == Tracked(c, i).inflight && d.squash == Tracked(c, i).squash
  {
  }

  lemma {:induction false} AlwaysFetchSafe(l: Leaf, code: Code, pc: Word, mem: Rv32.Mem, ins: seq<In>)
    requires AllowedRun(l, code, Boot(pc, mem), ins)
    ensures FetchSafe(Run(l, Boot(pc, mem), ins))
  {
    if ins != [] {
      AlwaysFetchSafe(l, code, pc, mem, ins[..|ins| - 1]);
      FetchSafeStep(l, code, Run(l, Boot(pc, mem), ins[..|ins| - 1]), ins[|ins| - 1]);
    }
  }

  // Over every run, whatever the latency and whenever interrupts come: a word latched as the
  // instruction to execute is the memory word at the current pc.
  lemma NoStaleFetch(l: Leaf, code: Code, pc: Word, mem: Rv32.Mem, ins: seq<In>, i: In)
    requires AllowedRun(l, code, Boot(pc, mem), ins) && Allowed(l, code, Run(l, Boot(pc, mem), ins), i)
    ensures var c := Run(l, Boot(pc, mem), ins).c;
            c.phase.Fetch? && Next(l, c, i).phase.Exec? ==>
              Next(l, c, i).pc == c.pc && code(c.pc) == Got(Next(l, c, i).insn)
  {
    AlwaysFetchSafe(l, code, pc, mem, ins);
    FetchSafeStep(l, code, Run(l, Boot(pc, mem), ins), i);
  }

  // ---- the abstraction ----

  // The architectural state a core state stands for. An SC on its way to memory has already given up
  // the reservation register, though architecturally it has not happened yet.
  function Abs(y: System): Arch {
    Arch(y.c.pc, y.c.regs, y.mem,
         if y.c.phase.Mem? && y.c.parked.sc then Reserved(Align(y.c.parked.addr)) else y.c.resv)
  }

  // What has been parked is the instruction at the current pc, about to access memory.
  predicate ParkedOk(l: Leaf, y: System, s: Arch) {
    var k, p := y.c.insn.kind, y.c.parked;
    && !AddressTrap(l, y.c.insn, s.pc, Operand1(y.c.insn, s), Operand2(y.c.insn, s))
    && p.pc == s.pc && p.rd == y.c.insn.rd && p.addr == Addr(l, y.c.insn, s)
    && Accesses(l, y.c.insn, s)
    && p.load == (k.Load? || k.Lr? || k.Amo?) && p.lr == k.Lr? && p.sc == k.Sc? && p.rmw == k.Amo?
    && (p.sc ==> y.c.resv.NoReservation?)
    && p.f3 == if k.Load? || k.Store? then y.c.insn.f3 else 2
  }

  function ExpectedRequest(l: Leaf, y: System, s: Arch): MemReq {
    var i, addr, b := y.c.insn, Addr(l, y.c.insn, s), Operand2(y.c.insn, s);
    if i.kind.Store? then MemReq(Align(addr), true, StoreData(i.f3, addr, b), StoreMask(i.f3, addr))
    else if i.kind.Sc? then MemReq(Align(addr), true, b, FULL_MASK)
    else MemReq(Align(addr), false, 0, FULL_MASK)
  }

  predicate Coupled(l: Leaf, code: Code, y: System) {
    var c, s := y.c, Abs(y);
    && FetchSafe(y)
    && (!c.phase.Fetch? ==> code(c.pc) == Got(c.insn))
    && (match c.phase
        case Fetch => y.dout.NoReq? && c.div.DivIdle?
        case Exec => y.dout.NoReq? && c.div.DivIdle?
        case Mem => ParkedOk(l, y, s) && y.dout == Ask(ExpectedRequest(l, y, s)) && c.div.DivIdle?
        case AmoStore => ParkedOk(l, y, s) && c.insn.kind.Amo? && c.amoOld == ReadWord(s.mem, c.parked.addr)
                         && y.dout.NoReq? && c.div.DivIdle?
        case AmoWait => ParkedOk(l, y, s) && c.insn.kind.Amo? && c.amoOld == ReadWord(s.mem, c.parked.addr)
                        && y.dout == Ask(MemReq(Align(c.parked.addr), true,
                                                l.amo(c.insn, c.amoOld, Operand2(c.insn, s)), FULL_MASK))
                        && c.div.DivIdle?
        case DivWait => c.insn.kind.Div? && c.parked.rd == c.insn.rd && c.parked.pc == c.pc && y.dout.NoReq?
                        && c.div == DivBusy(c.insn, Operand1(c.insn, s), Operand2(c.insn, s)))
  }

  // One cycle: a commit is exactly one architectural step, and any other cycle changes nothing.
  predicate Simulates(l: Leaf, code: Code, y: System, i: In) {
    var z, s, e := Cycle(l, y, i), Abs(y), EnvOf(y, i);
    && Coupled(l, code, z)
    && (Commit(l, y.c, i) == [] ==> Abs(z) == s)
    && (Commit(l, y.c, i) != [] ==> Abs(z) == Step(l, code, s, e) && Commit(l, y.c, i) == [RetireOf(l, code, s, e)])
  }

  lemma AlignTwice(a: Word)
    ensures Align(Align(a)) == Align(a) && Align(a) % 4 == 0
  {
  }

  lemma FetchStep(l: Leaf, code: Code, y: System, i: In)
    requires Coupled(l, code, y) && Allowed(l, code, y, i) && y.c.phase.Fetch?
    ensures Simulates(l, code, y, i)
  {
    FetchSafeStep(l, code, y, i);
  }

  lemma ExecStep(l: Leaf, code: Code, y: System, i: In)
    requires Coupled(l, code, y) && Allowed(l, code, y, i) && y.c.phase.Exec?
    ensures Simulates(l, code, y, i)
  {
    hide Coupled, Simulates, Allowed, Commit;
    if Commit(l, y.c, i) == [] { ExecGoesOn(l, code, y, i); } else { ExecCommits(l, code, y, i); }
  }

  lemma ExecGoesOn(l: Leaf, code: Code, y: System, i: In)
    requires Coupled(l, code, y) && Allowed(l, code, y, i) && y.c.phase.Exec? && Commit(l, y.c, i) == []
    ensures Simulates(l, code, y, i)
  {
    hide AfterFetch, AfterMem, AfterAmo, AfterDiv, Step, RetireOf, Arith, Target;
    FetchSafeStep(l, code, y, i);
  }

  lemma ExecCommits(l: Leaf, code: Code, y: System, i: In)
    requires Coupled(l, code, y) && Allowed(l, code, y, i) && y.c.phase.Exec? && Commit(l, y.c, i) != []
    ensures Simulates(l, code, y, i)
  {
    hide AfterFetch, AfterMem, AfterAmo, AfterDiv, ParkedOk, ExpectedRequest;
    FetchSafeStep(l, code, y, i);
  }

  lemma MemCompletes(l: Leaf, code: Code, y: System, i: In)
    requires Coupled(l, code, y) && Allowed(l, code, y, i) && y.c.phase.Mem? && i.memRsp && !i.memFault
    ensures Simulates(l, code, y, i)
  {
    hide Coupled, Simulates, Allowed;
    if y.c.parked.rmw { AmoLoads(l, code, y, i); } else { AccessCommits(l, code, y, i); }
  }

  lemma WordLoad(a: Word, w: Word)
    ensures LoadData(2, a, w) == w
  {
  }

  lemma AmoLoads(l: Leaf, code: Code, y: System, i: In)
    requires Coupled(l, code, y) && Allowed(l, code, y, i) && y.c.phase.Mem? && i.memRsp && !i.memFault
    requires y.c.parked.rmw
    ensures Simulates(l, code, y, i)
  {
    hide AfterFetch, AfterExec, AfterAmo, AfterDiv, Merge, Step, RetireOf;
    FetchSafeStep(l, code, y, i);
    AlignTwice(y.c.parked.addr);
    assert Commit(l, y.c, i) == [];
  }

  lemma AccessCommits(l: Leaf, code: Code, y: System, i: In)
    requires Coupled(l, code, y) && Allowed(l, code, y, i) && y.c.phase.Mem? && i.memRsp && !i.memFault
    requires !y.c.parked.rmw
    ensures Simulates(l, code, y, i)
  {
    hide AfterFetch, AfterExec, AfterAmo, AfterDiv, Merge, Arith, Target, LoadData, StoreData, StoreMask;
    FetchSafeStep(l, code, y, i);
    AlignTwice(y.c.parked.addr);
    WordLoad(y.c.parked.addr, i.memData);
    assert EffectOf(l, code, Abs(y), EnvOf(y, i)) == Executes(y.c.insn);
  }

  lemma MemStep(l: Leaf, code: Code, y: System, i: In)
    requires Coupled(l, code, y) && Allowed(l, code, y, i) && y.c.phase.Mem?
    ensures Simulates(l, code, y, i)
  {
    if i.memRsp && !i.memFault {
      MemCompletes(l, code, y, i);
    } else {
      FetchSafeStep(l, code, y, i);
    }
  }

  lemma AmoStep(l: Leaf, code: Code, y: System, i: In)
    requires Coupled(l, code, y) && Allowed(l, code, y, i) && (y.c.phase.AmoStore? || y.c.phase.AmoWait?)
    ensures Simulates(l, code, y, i)
  {
    hide AfterFetch, AfterExec, AfterMem, AfterDiv, Merge;
    FetchSafeStep(l, code, y, i);
    AlignTwice(y.c.parked.addr);
  }

  lemma DivStep(l: Leaf, code: Code, y: System, i: In)
    requires Coupled(l, code, y) && Allowed(l, code, y, i) && y.c.phase.DivWait?
    ensures Simulates(l, code, y, i)
  {
    FetchSafeStep(l, code, y, i);
  }

  // ---- over every run ----

  lemma CycleSimulates(l: Leaf, code: Code, y: System, i: In)
    requires Coupled(l, code, y) && Allowed(l, code, y, i)
    ensures Simulates(l, code, y, i)
  {
    hide Coupled, Simulates, Allowed;
    match y.c.phase {
      case Fetch => FetchStep(l, code, y, i);
      case Exec => ExecStep(l, code, y, i);
      case Mem => MemStep(l, code, y, i);
      case DivWait => DivStep(l, code, y, i);
      case _ => AmoStep(l, code, y, i);
    }
  }

  lemma BootCoupled(l: Leaf, code: Code, pc: Word, mem: Rv32.Mem)
    ensures Coupled(l, code, Boot(pc, mem)) && Abs(Boot(pc, mem)) == Arch(pc, map[], mem, NoReservation)
  {
  }

  lemma SimulatesOne(l: Leaf, code: Code, y: System, i: In)
    requires Simulates(l, code, y, i)
    ensures Coupled(l, code, Cycle(l, y, i))
    ensures Commit(l, y.c, i) == [] ==> Abs(Cycle(l, y, i)) == Abs(y)
    ensures Commit(l, y.c, i) != [] ==>
              && Abs(Cycle(l, y, i)) == Step(l, code, Abs(y), EnvOf(y, i))
              && Commit(l, y.c, i) == [RetireOf(l, code, Abs(y), EnvOf(y, i))]
  {
  }

  lemma {:induction false} RunCoupled(l: Leaf, code: Code, pc: Word, mem: Rv32.Mem, ins: seq<In>)
    requires AllowedRun(l, code, Boot(pc, mem), ins)
    ensures var y, s0 := Run(l, Boot(pc, mem), ins), Arch(pc, map[], mem, NoReservation);
            && Coupled(l, code, y)
            && Abs(y) == Sequential(l, code, s0, y.envs)
            && y.log == Retirements(l, code, s0, y.envs)
  {
    hide Coupled, Simulates, Commit, Step, RetireOf, Next, Abs, Allowed, EnvOf, MemoryAfter, DataRequest;
    BootCoupled(l, code, pc, mem);
    if ins != [] {
      var before, i := ins[..|ins| - 1], ins[|ins| - 1];
      RunCoupled(l, code, pc, mem, before);
      var y := Run(l, Boot(pc, mem), before);
      CycleSimulates(l, code, y, i);
      SimulatesOne(l, code, y, i);
      assert (y.envs + [EnvOf(y, i)])[..|y.envs|] == y.envs;
      assert y.log + [] == y.log;
    }
  }

  // The main result: over every run, with any latency on either bus and interrupts at any cycle, what
  // the core has retired is what the sequential machine retires, given what the CSR file said and which
  // accesses faulted at each commit; and pc, registers, memory and reservation are the sequential ones
  // after as many steps.
  lemma MulticycleRefinesSequential(l: Leaf, code: Code, pc: Word, mem: Rv32.Mem, ins: seq<In>)
    requires AllowedRun(l, code, Boot(pc, mem), ins)
    ensures var y, s0 := Run(l, Boot(pc, mem), ins), Arch(pc, map[], mem, NoReservation);
            && y.log == Retirements(l, code, s0, y.envs)
            && y.c.pc == Sequential(l, code, s0, y.envs).pc
            && y.c.regs == Sequential(l, code, s0, y.envs).regs
            && y.mem == Sequential(l, code, s0, y.envs).mem
            && (y.c.phase.Fetch? ==> y.c.resv == Sequential(l, code, s0, y.envs).resv)
  {
    hide Coupled, Step, RetireOf, Retirements, Sequential;
    RunCoupled(l, code, pc, mem, ins);
  }

  // ---- progress ----

  // A cycle in which the environment grants whatever the core is waiting for.
  predicate Served(l: Leaf, y: System, i: In) {
    && (FetchRequest(y.c, i) ==> i.fetchReady) && (y.fout.Fetching? ==> i.fetchRsp)
    && (DataRequest(l, y.c, i).Ask? ==> i.memReady) && (y.dout.Ask? ==> i.memRsp)
    && (y.c.div.DivBusy? ==> i.divDone)
  }

  // Served cycles left until the next commit, at most.
  function Distance(c: Core): (d: nat)
    ensures d <= 7
  {
    match c.phase
    case Fetch => if !c.inflight then 6 else if c.squash then 7 else 5
    case Exec => 4
    case Mem => if c.parked.rmw then 3 else 1
    case AmoStore => 2
    case AmoWait => 1
    case DivWait => 1
  }

  lemma Moves(l: Leaf, code: Code, y: System, i: In)
    requires Coupled(l, code, y) && Allowed(l, code, y, i)
    ensures || Commit(l, y.c, i) != []
            || Distance(Next(l, y.c, i)) < Distance(y.c)
            || (!Served(l, y, i) && Distance(Next(l, y.c, i)) == Distance(y.c))
  {
  }

  function ServedCycles(l: Leaf, y: System, ins: seq<In>): nat {
    if ins == [] then 0
    else
      ServedCycles(l, y, ins[..|ins| - 1]) + if Served(l, Run(l, y, ins[..|ins| - 1]), ins[|ins| - 1]) then 1 else 0
  }

  // The core never gets stuck, whatever stale fetches are about: at most eight served cycles go by
  // from one commit to the next.
  lemma {:induction false} KeepsCommitting(l: Leaf, code: Code, pc: Word, mem: Rv32.Mem, ins: seq<In>)
    requires AllowedRun(l, code, Boot(pc, mem), ins)
    ensures var y := Run(l, Boot(pc, mem), ins);
            ServedCycles(l, Boot(pc, mem), ins) + Distance(y.c) <= 8 * |y.log| + 6
  {
    hide Coupled, Commit, Next, Served, Allowed, Abs, Sequential, Retirements, MemoryAfter, DataRequest, EnvOf;
    if ins != [] {
      var before, i := ins[..|ins| - 1], ins[|ins| - 1];
      var y := Run(l, Boot(pc, mem), before);
      KeepsCommitting(l, code, pc, mem, before);
      RunCoupled(l, code, pc, mem, before);
      Moves(l, code, y, i);
    }
  }

  // ---- what the sequential machine promises about LR/SC and AMO ----

  // An AMO is one indivisible step: it returns the old word and leaves the new one, and touches
  // nothing else.
  lemma AmoIsAtomic(l: Leaf, code: Code, s: Arch, e: Env, i: Insn)
    requires EffectOf(l, code, s, e) == Executes(i) && i.kind.Amo?
    ensures var t, a, old0 := Step(l, code, s, e), Addr(l, i, s), ReadWord(s.mem, Addr(l, i, s));
            && ReadWord(t.mem, a) == Merge(old0, l.amo(i, old0, Operand2(i, s)), FULL_MASK)
            && (i.rd != 0 ==> ReadReg(t.regs, i.rd) == old0)
            && (forall w: Word | Align(w) != Align(a) :: ReadWord(t.mem, w) == ReadWord(s.mem, w))
            && t.pc == Plus4(s.pc) && t.resv.NoReservation?
  {
    AlignTwice(Addr(l, i, s));
  }

  predicate CompletesLr(l: Leaf, code: Code, s: Arch, e: Env, w: Word) {
    var k := EffectOf(l, code, s, e);
    k.Executes? && k.insn.kind.Lr? && Align(Addr(l, k.insn, s)) == w
  }

  // Anything that gives the reservation up: an SC, hit or miss, a completed AMO, an exception in
  // S_EXEC or from the data bus. Interrupts and fetch faults do not.
  predicate Releases(l: Leaf, code: Code, s: Arch, e: Env) {
    match EffectOf(l, code, s, e)
    case Interrupt => false
    case FetchTrap => false
    case ExecTrapped => true
    case MemTrapped => true
    case Executes(i) => i.kind.Sc? || i.kind.Amo?
  }

  predicate LrAt(l: Leaf, code: Code, s0: Arch, envs: seq<Env>, j: nat, w: Word)
    requires j < |envs|
  {
    CompletesLr(l, code, Sequential(l, code, s0, envs[..j]), envs[j], w)
  }

  // Step k neither takes nor gives up a reservation.
  predicate KeepsAt(l: Leaf, code: Code, s0: Arch, envs: seq<Env>, k: nat)
    requires k < |envs|
  {
    var s := Sequential(l, code, s0, envs[..k]);
    !Releases(l, code, s, envs[k]) && !exists v :: CompletesLr(l, code, s, envs[k], v)
  }

  // There is a reservation for w exactly when some LR of w completed and nothing since has taken or
  // given up a reservation.
  predicate LatestLr(l: Leaf, code: Code, s0: Arch, envs: seq<Env>, w: Word) {
    exists j | 0 <= j < |envs| :: LrAt(l, code, s0, envs, j, w)
        && forall k | j < k < |envs| :: KeepsAt(l, code, s0, envs, k)
  }

  lemma ResvStep(l: Leaf, code: Code, s: Arch, e: Env, w: Word)
    ensures var t := Step(l, code, s, e);
            t.resv == Reserved(w) <==>
              (CompletesLr(l, code, s, e, w)
               || (s.resv == Reserved(w) && !Releases(l, code, s, e) && !exists v :: CompletesLr(l, code, s, e, v)))
  {
    var k := EffectOf(l, code, s, e);
    if k.Executes? && k.insn.kind.Lr? {
      assert CompletesLr(l, code, s, e, Align(Addr(l, k.insn, s)));
    }
  }

  lemma {:induction false} ReservationIsLatestLr(l: Leaf, code: Code, s0: Arch, envs: seq<Env>, w: Word)
    requires s0.resv.NoReservation?
    ensures Sequential(l, code, s0, envs).resv == Reserved(w) <==> LatestLr(l, code, s0, envs, w)
  {
    hide Step, CompletesLr, Releases;
    if envs != [] {
      var n := |envs| - 1;
      var before := envs[..n];
      ReservationIsLatestLr(l, code, s0, before, w);
      ResvStep(l, code, Sequential(l, code, s0, before), envs[n], w);
      forall k | 0 <= k < n
        ensures LrAt(l, code, s0, envs, k, w) == LrAt(l, code, s0, before, k, w)
        ensures KeepsAt(l, code, s0, envs, k) == KeepsAt(l, code, s0, before, k)
      {
        assert envs[..k] == before[..k];
      }
      LatestLrGrows(l, code, s0, envs, w);
    }
  }

  lemma LatestLrGrows(l: Leaf, code: Code, s0: Arch, envs: seq<Env>, w: Word)
    requires envs != []
    requires var before := envs[..|envs| - 1];
             forall k | 0 <= k < |before| ::
               && LrAt(l, code, s0, envs, k, w) == LrAt(l, code, s0, before, k, w)
               && KeepsAt(l, code, s0, envs, k) == KeepsAt(l, code, s0, before, k)
    ensures LatestLr(l, code, s0, envs, w) <==>
              (LrAt(l, code, s0, envs, |envs| - 1, w)
               || (LatestLr(l, code, s0, envs[..|envs| - 1], w) && KeepsAt(l, code, s0, envs, |envs| - 1)))
  {
    hide LrAt, KeepsAt;
    var n := |envs| - 1;
    var before := envs[..n];
    if LatestLr(l, code, s0, before, w) && KeepsAt(l, code, s0, envs, n) {
      var j :| 0 <= j < n && LrAt(l, code, s0, before, j, w) && forall k | j < k < n :: KeepsAt(l, code, s0, before, k);
      assert LrAt(l, code, s0, envs, j, w);
    }
    if LatestLr(l, code, s0, envs, w) && !LrAt(l, code, s0, envs, n, w) {
      var j :| 0 <= j <= n && LrAt(l, code, s0, envs, j, w) && forall k | j < k <= n :: KeepsAt(l, code, s0, envs, k);
      assert LrAt(l, code, s0, before, j, w);
    }
  }

  // So a store-conditional stores exactly when the latest LR was to its word and no SC, completed AMO
  // or exception has come in between; otherwise it writes 1 and leaves memory alone.
  lemma ScStoresAfterLatestLr(l: Leaf, code: Code, s0: Arch, envs: seq<Env>, e: Env, i: Insn)
    requires s0.resv.NoReservation? && i.kind.Sc?
    requires EffectOf(l, code, Sequential(l, code, s0, envs), e) == Executes(i)
    ensures var s := Sequential(l, code, s0, envs);
            var t := Step(l, code, s, e);
            if LatestLr(l, code, s0, envs, Align(Addr(l, i, s)))
            then t.mem == WriteWord(s.mem, Addr(l, i, s), Operand2(i, s), FULL_MASK)
                && (i.rd != 0 ==> ReadReg(t.regs, i.rd) == 0)
            else t.mem == s.mem && (i.rd != 0 ==> ReadReg(t.regs, i.rd) == 1)
  {
    hide LatestLr;
    ReservationIsLatestLr(l, code, s0, envs, Align(Addr(l, i, Sequential(l, code, s0, envs))));
  }
}
