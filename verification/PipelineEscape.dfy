/**
 An access younger than a trap that reaches the data bus all the same: exactly when that happens, and
 what becomes of it.
 */
module PipelineEscape {
  import opened Rv32
  import opened Pipeline
  import P = PipelineRefinement
  import R = PipelineRedirect

  // ---- exactly when ----

  // A divide in EX raises nothing of its own.
  predicate DividesRaiseNothing(p: Pipe) {
    && (p.id.InId? && p.id.irq ==> p.id.insn == IRQ_INSN)
    && (p.ex.InEx? && p.ex.insn.kind.Div? ==> !p.ex.irq && !p.ex.illegal)
  }

  lemma {:induction false} DividesRaiseNothingAlways(l: Leaf, pc: Word, ins: seq<In>)
    ensures DividesRaiseNothing(Run(l, Reset(pc), ins))
  {
    hide NextMem, NextWb, NextPc, NextRegs, NextResv, NextDivUnit, BranchRedirect;
    if ins != [] { DividesRaiseNothingAlways(l, pc, ins[..|ins| - 1]); }
  }

  // A word that looks like a divide and came from a faulting fetch is about to leave EX with the
  // divider's answer, and an instruction that is no divide follows it out of ID.
  predicate Leads(p: Pipe, i: In) {
    && p.ex.InEx? && p.ex.insn.kind.Div? && p.ex.fault && p.divLatched
    && !StallMem(p) && !(p.mem.InMem? && p.mem.trap)
    && P.Dispatches(p, i) && !p.id.insn.kind.Div?
  }

  lemma FollowedIntoMem(l: Leaf, p: Pipe, i: In, j: In)
    requires Spaced(p) && DividesRaiseNothing(p)
    ensures var q := Next(l, Next(l, p, i), j);
            WbRedirect(q) && q.mem.InMem? <==> Leads(p, i)
    ensures var r := Next(l, p, i);
            Leads(p, i) ==> r.ex.InEx? && Next(l, r, j).mem == IntoMem(l, r)
  {
    hide NextPc, NextRegs, NextResv, HoldMem, LoadUse;
    var r := Next(l, p, i);
    SpacedStep(l, p, i);
    SpacedStep(l, r, j);
  }

  // In every run from reset: a younger access is handed to the bus in the cycle of a redirect if and
  // only if, two cycles before, a faulting fetch's divide led an instruction out of ID, that
  // instruction reaches MEM with an access to make, and the bus is ready for it.
  lemma EscapesExactlyIf(l: Leaf, pc: Word, ins: seq<In>, k: In)
    ensures |ins| < 2 ==> !P.Escapes(Run(l, Reset(pc), ins), k)
    ensures |ins| >= 2 ==>
              var p, i := Run(l, Reset(pc), ins[..|ins| - 2]), ins[|ins| - 2];
              var r := Next(l, p, i);
              P.Escapes(Run(l, Reset(pc), ins), k) <==>
                Leads(p, i) && r.ex.InEx? && IntoMem(l, r).pending && k.memReady
  {
    hide Next, Leads, IntoMem, Spaced;
    SpacedAlways(l, pc, ins);
    if |ins| >= 2 {
      var before, i, j := ins[..|ins| - 2], ins[|ins| - 2], ins[|ins| - 1];
      assert ins[..|ins| - 1][..|ins| - 2] == before;
      SpacedAlways(l, pc, before);
      DividesRaiseNothingAlways(l, pc, before);
      FollowedIntoMem(l, Run(l, Reset(pc), before), i, j);
      RequestBesideRedirect(Run(l, Reset(pc), ins));
    } else {
      NothingRetiresYet(l, pc, ins);
    }
  }

  lemma RequestBesideRedirect(p: Pipe)
    requires Spaced(p)
    ensures WbRedirect(p) && p.mem.InMem? ==> (MemRequest(p) <==> p.mem.pending)
    ensures MemRequest(p) ==> p.mem.InMem?
  {
  }

  lemma NothingRetiresYet(l: Leaf, pc: Word, ins: seq<In>)
    requires |ins| < 2
    ensures Run(l, Reset(pc), ins).wb.WbEmpty?
  {
    if |ins| == 1 { assert ins[..0] == []; }
  }

  // ---- what becomes of it ----

  // The bus keeps an accepted access until it is answered, whatever the pipeline does.
  lemma {:induction false} HeadWaits(l: Leaf, z: P.System, ins: seq<In>)
    requires z.bus != [] && forall k | 0 <= k < |ins| :: !ins[k].memRsp
    ensures var x := P.After(l, z, ins); x.bus != [] && x.bus[0] == z.bus[0] && x.mem == z.mem
  {
    hide Next;
    if ins != [] { HeadWaits(l, z, ins[..|ins| - 1]); }
  }

  // The cycle of the escape puts the access on the bus and drops the instruction.
  lemma EscapeStep(l: Leaf, s: P.System, i: In)
    requires Spaced(s.p) && P.BusOk(l, s.p, s.bus) && P.Escapes(s.p, i) && !i.memRsp
    ensures var z := P.Cycle(l, s, i);
            z.p.mem.MemEmpty? && z.p.wb.WbEmpty? && z.mem == s.mem && z.bus == [P.AccessOf(l, s.p.mem)]
  {
    hide NextId, NextEx, NextPc, NextRegs, NextDivUnit, NextResv, BranchRedirect;
  }

  lemma AnswerPerforms(l: Leaf, x: P.System, j: In)
    requires x.bus != [] && x.bus[0].store && j.memRsp && !j.memFault && !j.memPageFault
    ensures P.Cycle(l, x, j).mem == WriteWord(x.mem, x.bus[0].addr, x.bus[0].wdata, x.bus[0].wmask)
  {
    hide Next;
  }

  // An escaped store is performed with the next answer that carries no fault, though the pipeline has
  // dropped the instruction.
  lemma EscapedStoreHappens(l: Leaf, pc: Word, mem: Mem, before: seq<In>, i: In, ins: seq<In>, j: In)
    requires P.AnswersAccepted(l, P.Boot(pc, mem), before) && P.NoEscapes(l, P.Boot(pc, mem), before)
    requires var p := P.After(l, P.Boot(pc, mem), before).p; P.Escapes(p, i) && p.mem.insn.kind.Store?
    requires !i.memRsp && (forall k | 0 <= k < |ins| :: !ins[k].memRsp) && j.memRsp && !j.memFault && !j.memPageFault
    ensures var s := P.After(l, P.Boot(pc, mem), before);
            var z := P.Cycle(l, s, i);
            && z.p.mem.MemEmpty? && z.p.wb.WbEmpty?
            && P.After(l, z, ins + [j]).mem == WriteWord(s.mem, s.p.mem.addr, s.p.mem.wdata, s.p.mem.wmask)
  {
    hide Next, P.Cycle, P.BusOk, Spaced, WbRedirect;
    P.BusAlways(l, pc, mem, before);
    var s := P.After(l, P.Boot(pc, mem), before);
    var z := P.Cycle(l, s, i);
    EscapeStep(l, s, i);
    HeadWaits(l, z, ins);
    assert (ins + [j])[..|ins|] == ins;
    AnswerPerforms(l, P.After(l, z, ins), j);
  }

  // ---- it happens, and it is followed by worse ----

  const SB := Insn(Store, 0, 0, 0, 0, 0x23)

  // A fetch at 0 that faults with the word of a divide, a store at 4, some instruction in the handler.
  function Program(h: Insn): P.Program {
    P.Program(a => if a == 0 then R.DIV else if a == 4 then SB else h, a => a != 0, _ => true)
  }

  const ESCAPE: seq<In> := [
    R.QUIET.(fetchReady := true),
    R.QUIET.(fetchRsp := true, fetchInsn := R.DIV, fetchFault := true),
    R.QUIET.(fetchReady := true),
    R.QUIET.(fetchRsp := true, fetchInsn := SB),
    R.QUIET.(divDone := true),
    R.QUIET,
    R.QUIET,
    R.QUIET.(memReady := true)]

  lemma AfterAppend(l: Leaf, h: Insn, s: P.System, ins: seq<In>, i: In)
    ensures P.After(l, s, ins + [i]) == P.Cycle(l, P.After(l, s, ins), i)
    ensures P.AllowedRun(l, Program(h), s, ins + [i]) <==>
              P.AllowedRun(l, Program(h), s, ins) && P.Allowed(l, Program(h), P.After(l, s, ins), i)
  {
    assert (ins + [i])[..|ins|] == ins;
  }

  // A cycle in which nothing retires and the bus is silent changes only the pipeline.
  lemma QuietCycle(l: Leaf, h: Insn, s: P.System, i: In)
    requires s.p.wb.WbEmpty? && !s.denied && !s.taken && !i.memReady && !i.memRsp && !i.irq && !i.privIllegal
    ensures P.Cycle(l, s, i) == s.(p := Next(l, s.p, i))
    ensures P.Allowed(l, Program(h), s, i) <==>
              (RspArriving(s.p, i) && !s.p.squash ==>
                 i.fetchInsn == Program(h).imem(s.p.inflightPc) && i.fetchFault == !Program(h).fetchOk(s.p.inflightPc))
  {
    hide Next;
  }

  function WaitingFault(): Pipe {
    Reset(0).(pc := 8, inflight := true, inflightPc := 4, ex := InEx(0, R.DIV, 0, 0, false, true, false))
  }

  lemma FaultToEx(l: Leaf)
    ensures var asked := Next(l, Reset(0), ESCAPE[0]);
            && asked == Reset(0).(pc := 4, inflight := true)
            && Next(l, asked, ESCAPE[1]) == Reset(0).(pc := 4, id := InId(0, R.DIV, true, false))
    ensures Next(l, Reset(0).(pc := 4, id := InId(0, R.DIV, true, false)), ESCAPE[2]) == WaitingFault()
  {
  }

  // The divider is started and answers for the word that is to trap.
  function Answered(l: Leaf): Pipe {
    WaitingFault().(inflight := false, id := InId(4, SB, false, false), divStarted := true, divLatched := true,
                    divResult := l.div(R.DIV, 0, 0))
  }

  lemma DivideRunsAnyway(l: Leaf)
    ensures var p := Next(l, WaitingFault(), ESCAPE[3]);
            && p.wb.WbEmpty? && p.inflight == false && Next(l, p, ESCAPE[4]) == Answered(l)
  {
    hide IntoMem, HoldMem;
  }

  // The trap goes to MEM with the store behind it.
  predicate TrapThenStore(p: Pipe) {
    && p.mem.InMem? && p.mem.trap && p.mem.pc == 0 && p.mem.insn == R.DIV && !p.mem.pending && !p.mem.hasResult
    && p.wb.WbEmpty? && p.id.IdEmpty? && p.ex == InEx(4, SB, 0, 0, false, false, false) && !p.inflight
    && p.regs == map[]
    && p.divUnit.DivIdle? && !p.divStarted && !p.divLatched && p.inflightPc == 4 && !p.squash
  }

  // And to WB, with the store in MEM.
  predicate TrapBesideStore(p: Pipe) {
    && p.wb.InWb? && p.wb.trap && p.wb.pc == 0 && p.wb.insn == R.DIV && p.mem.InMem? && p.mem.pc == 4
    && p.mem.insn == SB && p.mem.pending
    && !p.mem.fired && !p.mem.trap && p.mem.wdata == 0 && p.id.IdEmpty? && p.ex.ExEmpty? && !p.inflight
    && p.regs == map[]
    && p.divUnit.DivIdle? && !p.divStarted && !p.divLatched && p.inflightPc == 4 && !p.squash
  }

  lemma TrapToMem(l: Leaf)
    ensures TrapThenStore(Next(l, Answered(l), ESCAPE[5]))
  {
    hide HoldMem;
  }

  lemma TrapToWb(l: Leaf, p: Pipe)
    requires TrapThenStore(p)
    ensures TrapBesideStore(Next(l, p, ESCAPE[6]))
  {
    hide HoldMem;
  }

  predicate Answers(h: Insn, p: Pipe, i: In) {
    RspArriving(p, i) && !p.squash ==>
      i.fetchInsn == Program(h).imem(p.inflightPc) && i.fetchFault == !Program(h).fetchOk(p.inflightPc)
  }

  lemma QuietAppend(l: Leaf, h: Insn, b: P.System, ins: seq<In>, i: In)
    requires P.AllowedRun(l, Program(h), b, ins)
    requires var s := P.After(l, b, ins); s.p.wb.WbEmpty? && !s.denied && !s.taken && Answers(h, s.p, i)
    requires !i.memReady && !i.memRsp && !i.irq && !i.privIllegal
    ensures P.AllowedRun(l, Program(h), b, ins + [i])
    ensures var s := P.After(l, b, ins); P.After(l, b, ins + [i]) == s.(p := Next(l, s.p, i))
  {
    hide Next, P.Cycle, P.Allowed;
    AfterAppend(l, h, b, ins, i);
    QuietCycle(l, h, P.After(l, b, ins), i);
  }

  // The system in the cycle before the redirect: nothing has retired, and the bus is empty.
  lemma UpToTrap(l: Leaf, h: Insn, mem: Mem)
    ensures P.AllowedRun(l, Program(h), P.Boot(0, mem), ESCAPE[..7])
    ensures var s := P.After(l, P.Boot(0, mem), ESCAPE[..7]);
            TrapBesideStore(s.p) && s == P.Boot(0, mem).(p := s.p)
  {
    hide Next, P.Cycle, P.Allowed, TrapBesideStore;
    var b, ins := P.Boot(0, mem), ESCAPE;
    FaultToEx(l);
    DivideRunsAnyway(l);
    TrapToMem(l);
    assert ins[..0] == [];
    assert ins[..1] == ins[..0] + [ins[0]] && ins[..2] == ins[..1] + [ins[1]] && ins[..3] == ins[..2] + [ins[2]];
    assert ins[..4] == ins[..3] + [ins[3]] && ins[..5] == ins[..4] + [ins[4]] && ins[..6] == ins[..5] + [ins[5]];
    assert ins[..7] == ins[..6] + [ins[6]];
    QuietAppend(l, h, b, ins[..0], ins[0]);
    QuietAppend(l, h, b, ins[..1], ins[1]);
    QuietAppend(l, h, b, ins[..2], ins[2]);
    QuietAppend(l, h, b, ins[..3], ins[3]);
    QuietAppend(l, h, b, ins[..4], ins[4]);
    QuietAppend(l, h, b, ins[..5], ins[5]);
    TrapToWb(l, P.After(l, b, ins[..6]).p);
    QuietAppend(l, h, b, ins[..6], ins[6]);
  }

  // What the trap leaves of the pipeline: nothing, with the fetch at the vector.
  predicate Afresh(p: Pipe) { p == Reset(0x100).(inflightPc := 4, divResult := p.divResult) }

  // The redirect, with the bus taking the store.
  lemma StoreAccepted(l: Leaf, h: Insn, s: P.System)
    requires TrapBesideStore(s.p) && s == P.Boot(0, s.mem).(p := s.p)
    ensures var z := P.Cycle(l, s, ESCAPE[7]);
            && P.Allowed(l, Program(h), s, ESCAPE[7]) && Afresh(z.p) && z.mem == s.mem && !z.denied && !z.taken
            && z.bus == [P.Access(s.p.mem.addr, true, 0, s.p.mem.wmask)]
            && z.log == [P.Retire(0, false, 1, 0, true)]
  {
    hide HoldMem, IntoMem;
  }

  // From reset: the fetch at 0 faults with the word of a divide, the store at 4 is accepted by the bus
  // in the cycle the trap retires, and memory performs it with a later answer. All that ever retires
  // is the trap.
  lemma StoreOutrunsTrap(l: Leaf, h: Insn, mem: Mem)
    ensures var ins := ESCAPE + [R.QUIET.(memRsp := true)];
            var p, x := P.After(l, P.Boot(0, mem), ESCAPE[..7]).p, P.After(l, P.Boot(0, mem), ins);
            && P.AllowedRun(l, Program(h), P.Boot(0, mem), ins)
            && p.wb.InWb? && p.wb.trap && p.wb.pc == 0 && p.mem.InMem? && p.mem.pc == 4 && P.Escapes(p, ESCAPE[7])
            && x.log == [P.Retire(0, false, 1, 0, true)]
            && x.mem == WriteWord(mem, p.mem.addr, 0, p.mem.wmask) && x.p.mem.MemEmpty?
  {
    hide Next, P.Cycle;
    UpToTrap(l, h, mem);
    var s, ins := P.After(l, P.Boot(0, mem), ESCAPE[..7]), ESCAPE;
    assert ins == ins[..7] + [ins[7]];
    StoreAccepted(l, h, s);
    AfterAppend(l, h, P.Boot(0, mem), ins[..7], ins[7]);
    AfterAppend(l, h, P.Boot(0, mem), ins, R.QUIET.(memRsp := true));
    StorePerformed(l, h, P.After(l, P.Boot(0, mem), ins));
  }

  lemma StorePerformed(l: Leaf, h: Insn, z: P.System)
    requires Afresh(z.p) && |z.bus| == 1 && z.bus[0].store
    ensures var i := R.QUIET.(memRsp := true);
            var x := P.Cycle(l, z, i);
            && P.Allowed(l, Program(h), z, i)
            && x.mem == WriteWord(z.mem, z.bus[0].addr, z.bus[0].wdata, z.bus[0].wmask)
            && x.log == z.log && x.p.mem.MemEmpty?
  {
  }

  // ---- the answer nobody waits for ----

  // The handler's first instruction is a load. It is in MEM, its request not yet taken, when the store
  // is answered.
  const ORPHAN: seq<In> := [
    R.QUIET.(fetchReady := true),
    R.QUIET.(fetchRsp := true, fetchInsn := R.LB),
    R.QUIET,
    R.QUIET,
    R.QUIET.(memRsp := true, memData := 0x5555_5555),
    R.QUIET,
    R.QUIET]

  lemma HandlerToEx(l: Leaf, p: Pipe)
    requires Afresh(p)
    ensures var p1 := Next(l, p, ORPHAN[0]);
            var p2 := Next(l, p1, ORPHAN[1]);
            && p1 == p.(pc := 0x104, inflight := true, inflightPc := 0x100)
            && p2 == p.(pc := 0x104, inflightPc := 0x100, id := InId(0x100, R.LB, false, false))
            && Next(l, p2, ORPHAN[2])
               == p.(pc := 0x104, inflightPc := 0x100, ex := InEx(0x100, R.LB, 0, 0, false, false, false))
  {
  }

  predicate LoadWaits(p: Pipe) {
    && p.mem.InMem? && p.mem.pc == 0x100 && p.mem.insn == R.LB && !p.mem.trap && p.mem.pending && !p.mem.fired
    && !p.mem.hasResult && p.mem.rdWen && p.wb.WbEmpty? && p.ex.ExEmpty? && p.id.IdEmpty? && !p.inflight
  }

  lemma HandlerToMem(l: Leaf, p: Pipe)
    requires p.ex == InEx(0x100, R.LB, 0, 0, false, false, false) && p.id.IdEmpty? && p.mem.MemEmpty? && p.wb.WbEmpty?
    requires !p.inflight && !p.squash
    ensures LoadWaits(Next(l, p, ORPHAN[3]))
  {
  }

  // The store's answer completes the load.
  lemma WrongAnswer(l: Leaf, h: Insn, s: P.System)
    requires LoadWaits(s.p) && |s.bus| == 1 && s.bus[0].store && !s.denied && !s.taken
    ensures var z := P.Cycle(l, s, ORPHAN[4]);
            && P.Allowed(l, Program(h), s, ORPHAN[4])
            && z == s.(p := z.p, bus := [], mem := WriteWord(s.mem, s.bus[0].addr, s.bus[0].wdata, s.bus[0].wmask))
            && z.p.mem.InMem? && z.p.mem.pc == 0x100 && z.p.mem.insn == R.LB && !z.p.mem.trap && !z.p.mem.pending
            && !z.p.mem.hasResult && z.p.mem.rdWen && !z.p.mem.busFault && !z.p.mem.pageFault
            && z.p.mem.loaded == 0x55 && z.p.wb.WbEmpty? && !z.p.inflight
  {
    hide NextId, NextEx, NextPc, NextDivUnit;
    LanesAlike(s.p.mem.addr);
  }

  lemma LanesAlike(a: Word)
    ensures LoadData(0, a, 0x5555_5555) == 0x55
  {
    var w: Word := 0x5555_5555;
    assert ByteOf(w, 0) == 0x55 && ByteOf(w, 1) == 0x55 && ByteOf(w, 2) == 0x55 && ByteOf(w, 3) == 0x55;
    var lane := a % 4;
    assert lane == 0 || lane == 1 || lane == 2 || lane == 3;
  }

  lemma LoadToWb(l: Leaf, p: Pipe)
    requires p.mem.InMem? && p.mem.pc == 0x100 && p.mem.insn == R.LB && !p.mem.trap && !p.mem.pending
             && !p.mem.hasResult
    requires p.mem.rdWen && !p.mem.busFault && !p.mem.pageFault && p.mem.loaded == 0x55 && p.wb.WbEmpty? && !p.inflight
    ensures var q := Next(l, p, ORPHAN[5]); q.wb == InWb(0x100, R.LB, true, 0x55, false) && !q.inflight
  {
  }

  lemma LoadRetires(l: Leaf, h: Insn, s: P.System)
    requires s.p.wb == InWb(0x100, R.LB, true, 0x55, false) && s.bus == [] && !s.p.inflight
    ensures var z := P.Cycle(l, s, ORPHAN[6]);
            && P.Allowed(l, Program(h), s, ORPHAN[6])
            && z.log == s.log + [P.Retire(0x100, true, 1, 0x55, false)] && z.mem == s.mem
  {
    hide Next, MemRequest;
    assert !R.QUIET.memReady;
  }

  lemma ZeroStays(a: Word, mask: Mask)
    ensures forall b: Word :: ReadWord(WriteWord(map[], a, 0, mask), b) == 0
  {
  }

  // After the store has escaped, its answer completes the handler's first load before the load's own
  // request is taken: with memory zero throughout, the load retires with 0x55.
  lemma OrphanAnswersLoad(l: Leaf)
    ensures var x := P.After(l, P.Boot(0, map[]), ESCAPE + ORPHAN);
            && P.AllowedRun(l, Program(R.LB), P.Boot(0, map[]), ESCAPE + ORPHAN)
            && x.log == [P.Retire(0, false, 1, 0, true), P.Retire(0x100, true, 1, 0x55, false)]
            && forall a: Word :: ReadWord(x.mem, a) == 0
  {
    hide Next, P.Cycle, P.Allowed, LoadWaits, TrapBesideStore, WriteWord, ReadWord;
    var h: Insn, b: P.System, e, o := R.LB, P.Boot(0, map[]), ESCAPE, ORPHAN;
    UpToTrap(l, h, map[]);
    assert e == e[..7] + [e[7]];
    StoreAccepted(l, h, P.After(l, b, e[..7]));
    AfterAppend(l, h, b, e[..7], e[7]);
    var z := P.After(l, b, e);
    HandlerToEx(l, z.p);
    assert e + o[..0] == e && e + o[..1] == e + o[..0] + [o[0]] && e + o[..2] == e + o[..1] + [o[1]];
    assert e + o[..3] == e + o[..2] + [o[2]] && e + o[..4] == e + o[..3] + [o[3]] && e + o[..5] == e + o[..4] + [o[4]];
    assert e + o[..6] == e + o[..5] + [o[5]] && e + o == e + o[..6] + [o[6]];
    QuietAppend(l, h, b, e + o[..0], o[0]);
    QuietAppend(l, h, b, e + o[..1], o[1]);
    QuietAppend(l, h, b, e + o[..2], o[2]);
    HandlerToMem(l, P.After(l, b, e + o[..3]).p);
    QuietAppend(l, h, b, e + o[..3], o[3]);
    WrongAnswer(l, h, P.After(l, b, e + o[..4]));
    AfterAppend(l, h, b, e + o[..4], o[4]);
    LoadToWb(l, P.After(l, b, e + o[..5]).p);
    QuietAppend(l, h, b, e + o[..5], o[5]);
    LoadRetires(l, h, P.After(l, b, e + o[..6]));
    AfterAppend(l, h, b, e + o[..6], o[6]);
    ZeroStays(z.bus[0].addr, z.bus[0].wmask);
  }

  // ---- a fence that does not wait ----

  const FENCE_I := Insn(FenceI, 1, 0, 0, 0, 0x100f)

  // FENCE.I as the handler's first instruction.
  const HANDLER_FENCE: seq<In> := [
    R.QUIET.(fetchReady := true),
    R.QUIET.(fetchRsp := true, fetchInsn := FENCE_I),
    R.QUIET,
    R.QUIET,
    R.QUIET]

  lemma FenceToEx(l: Leaf, p: Pipe)
    requires Afresh(p)
    ensures var p1 := Next(l, p, HANDLER_FENCE[0]);
            var p2 := Next(l, p1, HANDLER_FENCE[1]);
            var p3 := Next(l, p2, HANDLER_FENCE[2]);
            && p1 == p.(pc := 0x104, inflight := true, inflightPc := 0x100)
            && p2 == p.(pc := 0x104, inflightPc := 0x100, id := InId(0x100, FENCE_I, false, false))
            && p3 == p.(pc := 0x104, inflightPc := 0x100, ex := InEx(0x100, FENCE_I, 0, 0, false, false, false))
  {
  }

  lemma FenceMovesOn(l: Leaf, p: Pipe)
    requires p.ex == InEx(0x100, FENCE_I, 0, 0, false, false, false) && p.id.IdEmpty? && p.mem.MemEmpty?
             && p.wb.WbEmpty?
    requires !p.inflight && !p.squash
    ensures var q := Next(l, p, HANDLER_FENCE[3]);
            var r := Next(l, q, HANDLER_FENCE[4]);
            && q.wb.WbEmpty? && !q.inflight
            && r.wb.InWb? && r.wb.insn == FENCE_I && !r.wb.trap
  {
  }

  // An escaped store is no store of the core's any more: a FENCE.I in the handler retires while it is
  // still on the bus.
  lemma FenceMeetsStore(l: Leaf, mem: Mem)
    ensures var x := P.After(l, P.Boot(0, mem), ESCAPE + HANDLER_FENCE);
            && P.AllowedRun(l, Program(FENCE_I), P.Boot(0, mem), ESCAPE + HANDLER_FENCE)
            && x.p.wb.InWb? && x.p.wb.insn == FENCE_I && !x.p.wb.trap
            && |x.bus| == 1 && x.bus[0].store
  {
    hide Next, P.Cycle, P.Allowed, TrapBesideStore;
    var h, b: P.System, e, o := FENCE_I, P.Boot(0, mem), ESCAPE, HANDLER_FENCE;
    UpToTrap(l, h, mem);
    assert e == e[..7] + [e[7]];
    StoreAccepted(l, h, P.After(l, b, e[..7]));
    AfterAppend(l, h, b, e[..7], e[7]);
    FenceToEx(l, P.After(l, b, e).p);
    assert e + o[..0] == e && e + o[..1] == e + o[..0] + [o[0]] && e + o[..2] == e + o[..1] + [o[1]];
    assert e + o[..3] == e + o[..2] + [o[2]] && e + o[..4] == e + o[..3] + [o[3]] && e + o == e + o[..4] + [o[4]];
    QuietAppend(l, h, b, e + o[..0], o[0]);
    QuietAppend(l, h, b, e + o[..1], o[1]);
    QuietAppend(l, h, b, e + o[..2], o[2]);
    FenceMovesOn(l, P.After(l, b, e + o[..3]).p);
    QuietAppend(l, h, b, e + o[..3], o[3]);
    QuietAppend(l, h, b, e + o[..4], o[4]);
  }
}
