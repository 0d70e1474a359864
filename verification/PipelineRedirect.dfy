/**
 What a write-back redirect (trap, return or fence) leaves of the instructions fetched before it.
 */
module PipelineRedirect {
  import opened Rv32
  import opened Pipeline

  // For the fetch in flight and each stage: was its instruction fetched before the redirect?
  datatype Tags = Tags(fetch: bool, id: bool, ex: bool, mem: bool, wb: bool)

  datatype Retired = Retired(pc: Word, earlier: bool, writes: bool)

  // The pipeline since the redirect: its registers, the tags, and what has retired.
  datatype Traced = Traced(p: Pipe, tags: Tags, log: seq<Retired>)

  // The tags travel with the instructions. A fetch accepted later and an injected interrupt are new.
  function NextTags(l: Leaf, p: Pipe, i: In, t: Tags): Tags {
    Tags(t.fetch && !FetchAccepted(l, p, i),
         if !SlotFree(p) then t.id else t.fetch && !IrqInject(p, i),
         if StallEx(p) then t.ex else t.id,
         if StallMem(p) then t.mem else t.ex,
         t.mem)
  }

  function Retire(p: Pipe, t: Tags): seq<Retired> {
    if p.wb.InWb? then [Retired(p.wb.pc, t.wb, RegWrite(p))] else []
  }

  function Cycle(l: Leaf, x: Traced, i: In): Traced {
    Traced(Next(l, x.p, i), NextTags(l, x.p, i, x.tags), x.log + Retire(x.p, x.tags))
  }

  // From the cycle after the redirect on.
  function Since(l: Leaf, p: Pipe, redirect: In, ins: seq<In>): Traced {
    if ins == [] then Traced(Next(l, p, redirect), NextTags(l, p, redirect, Tags(true, true, true, true, true)), [])
    else Cycle(l, Since(l, p, redirect, ins[..|ins| - 1]), ins[|ins| - 1])
  }

  // ---- the invariant ----

  // Nothing old is in ID, and an old fetch in flight is squashed.
  predicate FrontIsNew(x: Traced) {
    && (x.p.id.InId? ==> !x.tags.id)
    && (x.p.inflight && x.tags.fetch ==> x.p.squash)
  }

  // Nor is anything old in EX, MEM or WB.
  predicate BackIsNew(x: Traced) {
    && (x.p.ex.InEx? ==> !x.tags.ex) && (x.p.mem.InMem? ==> !x.tags.mem) && (x.p.wb.InWb? ==> !x.tags.wb)
  }

  // Nothing retired from entry `from` on was fetched before the redirect.
  predicate NoneOld(log: seq<Retired>, from: nat) { forall k | from <= k < |log| :: !log[k].earlier }

  // How far the spared divide `d` has come: 5 in EX and not restarted, 4 restarted, 3 answered, 2 in
  // MEM, 1 in WB, 0 retired.
  predicate At(x: Traced, d: Ex, age: nat)
    requires d.InEx?
  {
    var trap := d.irq || d.fault || d.illegal;
    match age
    case 0 =>
      && BackIsNew(x) && |x.log| > 0 && x.log[0] == Retired(d.pc, true, WritesRd(d.insn) && !trap)
      && NoneOld(x.log, 1)
    case 1 =>
      && x.p.wb.InWb? && x.tags.wb && x.p.wb.pc == d.pc && RegWrite(x.p) == (WritesRd(d.insn) && !trap)
      && (x.p.ex.InEx? ==> !x.tags.ex) && (x.p.mem.InMem? ==> !x.tags.mem) && x.log == []
    case 2 =>
      && x.p.wb.WbEmpty? && x.p.mem.InMem? && x.tags.mem && x.p.mem.pc == d.pc && x.p.mem.insn == d.insn
      && x.p.mem.trap == trap && x.p.mem.rdWen == (WritesRd(d.insn) && !trap)
      && (x.p.ex.InEx? ==> !x.tags.ex) && x.log == []
    case _ =>
      && x.p.wb.WbEmpty? && x.p.mem.MemEmpty? && x.p.ex.InEx? && x.tags.ex
      && x.p.ex.pc == d.pc && x.p.ex.insn == d.insn && (x.p.ex.irq || x.p.ex.fault || x.p.ex.illegal) == trap
      && x.log == []
      && (if age == 3 then x.p.divLatched
          else if age == 4 then x.p.divStarted && !x.p.divLatched && x.p.divUnit.DivBusy?
          else age == 5 && !x.p.divStarted && !x.p.divLatched)
  }

  lemma FrontStep(l: Leaf, x: Traced, i: In)
    requires FrontIsNew(x)
    ensures FrontIsNew(Cycle(l, x, i))
  {
    hide NextEx, NextMem, NextWb, NextRegs, NextResv, NextDivUnit, BranchRedirect, WbRedirect, NextPc;
  }

  lemma NothingOldStep(l: Leaf, x: Traced, i: In, from: nat)
    requires FrontIsNew(x) && BackIsNew(x) && NoneOld(x.log, from)
    ensures BackIsNew(Cycle(l, x, i)) && NoneOld(Cycle(l, x, i).log, from)
  {
    hide NextId, NextRegs, NextResv, NextDivUnit, WbRedirect, NextPc, IntoMem, HoldMem;
  }

  // The divide moves on in every cycle but one in which it waits for the divider.
  lemma DivideStep(l: Leaf, x: Traced, i: In, d: Ex, age: nat) returns (next: nat)
    requires d.InEx? && d.insn.kind.Div? && Spaced(x.p) && FrontIsNew(x) && At(x, d, age)
    ensures At(Cycle(l, x, i), d, next) && next <= age && (next < age || age == 0 || (age == 4 && !i.divDone))
  {
    hide NextId, NextResv, NextPc;
    if age == 0 {
      NothingOldStep(l, x, i, 1);
      next := 0;
    } else if age == 4 && !i.divDone {
      next := 4;
    } else if age == 5 && DivDone(x.p, i) {
      next := 3;
    } else {
      next := age - 1;
    }
  }

  // ---- over whole runs ----

  function AtRedirect(l: Leaf, pc: Word, before: seq<In>): Pipe { Run(l, Reset(pc), before) }

  lemma AfterRedirect(l: Leaf, p: Pipe, redirect: In)
    requires Spaced(p) && WbRedirect(p)
    ensures var x := Since(l, p, redirect, []);
            && Spaced(x.p) && FrontIsNew(x)
            && if DivStall(p) then At(x, p.ex, 5) else BackIsNew(x) && x.log == []
  {
    SpacedStep(l, p, redirect);
    RedirectSparesWaitingDivide(l, p, redirect);
  }

  lemma {:induction false} NothingOldRun(l: Leaf, p: Pipe, redirect: In, ins: seq<In>)
    requires Spaced(p) && WbRedirect(p) && !DivStall(p)
    ensures var x := Since(l, p, redirect, ins); FrontIsNew(x) && BackIsNew(x) && NoneOld(x.log, 0)
  {
    hide Next, NextTags, FrontIsNew, BackIsNew, Cycle, WbRedirect, DivStall, Spaced;
    if ins == [] {
      AfterRedirect(l, p, redirect);
    } else {
      var before := ins[..|ins| - 1];
      NothingOldRun(l, p, redirect, before);
      FrontStep(l, Since(l, p, redirect, before), ins[|ins| - 1]);
      NothingOldStep(l, Since(l, p, redirect, before), ins[|ins| - 1], 0);
    }
  }

  // The age bound: restarted after one cycle, answered once the divider answers in cycle `answer`,
  // retired three cycles later.
  lemma {:induction false} DivideRun(l: Leaf, p: Pipe, redirect: In, ins: seq<In>, answer: nat) returns (age: nat)
    requires Spaced(p) && WbRedirect(p) && DivStall(p)
    ensures var x := Since(l, p, redirect, ins); Spaced(x.p) && FrontIsNew(x) && At(x, p.ex, age)
    ensures 0 < |ins| ==> age <= 4
    ensures 0 < answer < |ins| && ins[answer].divDone ==> (age <= 3 && age + |ins| <= answer + 4) || age == 0
  {
    hide Next, NextTags, FrontIsNew, At, Cycle, WbRedirect, Spaced;
    if ins == [] {
      AfterRedirect(l, p, redirect);
      age := 5;
    } else {
      var before, i := ins[..|ins| - 1], ins[|ins| - 1];
      var x := Since(l, p, redirect, before);
      var was := DivideRun(l, p, redirect, before, answer);
      CycleKeeps(l, x, i);
      FrontStep(l, x, i);
      age := DivideStep(l, x, i, p.ex, was);
      AgeBound(x, p.ex, was);
    }
  }

  lemma CycleKeeps(l: Leaf, x: Traced, i: In)
    requires Spaced(x.p)
    ensures Spaced(Cycle(l, x, i).p)
  {
    SpacedStep(l, x.p, i);
  }

  lemma AgeBound(x: Traced, d: Ex, age: nat)
    requires d.InEx? && At(x, d, age)
    ensures age <= 5
  {
  }

  // After a redirect, in any run from reset: nothing fetched before it retires, but for a divide that
  // was waiting in EX. That retires first if anything does, with its register write.
  lemma OnlyWaitingDivideRetires(l: Leaf, pc: Word, before: seq<In>, redirect: In, ins: seq<In>)
    requires WbRedirect(AtRedirect(l, pc, before))
    ensures var p := AtRedirect(l, pc, before);
            var log := Since(l, p, redirect, ins).log;
            if !DivStall(p) then NoneOld(log, 0)
            else
              || log == []
              || (log[0] == Retired(p.ex.pc, true, WritesRd(p.ex.insn) && !p.ex.irq && !p.ex.fault && !p.ex.illegal)
                  && NoneOld(log, 1))
  {
    hide Next, Since, Spaced, WbRedirect, FrontIsNew;
    var p := AtRedirect(l, pc, before);
    SpacedAlways(l, pc, before);
    if DivStall(p) {
      var age := DivideRun(l, p, redirect, ins, 0);
    } else {
      NothingOldRun(l, p, redirect, ins);
    }
  }

  // And it does retire: once the divider has answered and three more cycles have passed, something
  // fetched before the redirect has retired if and only if a divide was waiting in EX.
  lemma EarlierRetiresExactlyIfDivideWaits(l: Leaf, pc: Word, before: seq<In>, redirect: In, ins: seq<In>, answer: nat)
    requires WbRedirect(AtRedirect(l, pc, before))
    requires 0 < answer && answer + 4 <= |ins| && ins[answer].divDone
    ensures var p := AtRedirect(l, pc, before);
            var log := Since(l, p, redirect, ins).log;
            (exists k :: 0 <= k < |log| && log[k].earlier) <==> DivStall(p)
  {
    hide Next, Since, Spaced, WbRedirect, FrontIsNew;
    var p := AtRedirect(l, pc, before);
    SpacedAlways(l, pc, before);
    if DivStall(p) {
      var age := DivideRun(l, p, redirect, ins, answer);
      assert Since(l, p, redirect, ins).log[0].earlier;
    } else {
      NothingOldRun(l, p, redirect, ins);
    }
  }

  // ---- it happens ----

  const LB := Insn(Load, 0, 1, 0, 0, 3)
  const DIV := Insn(Div, 4, 1, 0, 0, 0x0200_0033)

  const QUIET := In(false, false, LB, false, false, false, 0, false, false, false, false, false, 0, 0x100, 0, 0)

  // A load at 0, which the bus will fault, and a divide at 4 behind it.
  const FAULT_BEHIND: seq<In> := [
    QUIET.(fetchReady := true),
    QUIET.(fetchRsp := true),
    QUIET.(fetchReady := true),
    QUIET.(fetchRsp := true, fetchInsn := DIV),
    QUIET.(memReady := true, memRsp := true, memFault := true),
    QUIET]

  lemma RunAppend(l: Leaf, p: Pipe, ins: seq<In>, i: In)
    ensures Run(l, p, ins + [i]) == Next(l, Run(l, p, ins), i)
  {
    assert (ins + [i])[..|ins|] == ins;
  }

  lemma LoadToId(l: Leaf)
    ensures var asked := Next(l, Reset(0), FAULT_BEHIND[0]);
            && asked == Reset(0).(pc := 4, inflight := true)
            && Next(l, asked, FAULT_BEHIND[1]) == Reset(0).(pc := 4, id := InId(0, LB, false, false))
  {
  }

  lemma LoadToEx(l: Leaf)
    ensures Next(l, Reset(0).(pc := 4, id := InId(0, LB, false, false)), FAULT_BEHIND[2])
            == Reset(0).(pc := 8, inflight := true, inflightPc := 4, ex := InEx(0, LB, 0, 0, false, false, false))
  {
  }

  lemma LoadInEx(l: Leaf)
    ensures Run(l, Reset(0), FAULT_BEHIND[..3])
            == Reset(0).(pc := 8, inflight := true, inflightPc := 4, ex := InEx(0, LB, 0, 0, false, false, false))
  {
    hide Next;
    var ins := FAULT_BEHIND;
    assert ins[..1] == [] + [ins[0]] && ins[..2] == ins[..1] + [ins[1]] && ins[..3] == ins[..2] + [ins[2]];
    RunAppend(l, Reset(0), [], ins[0]);
    RunAppend(l, Reset(0), ins[..1], ins[1]);
    RunAppend(l, Reset(0), ins[..2], ins[2]);
    LoadToId(l);
    LoadToEx(l);
  }

  lemma LoadOnBus(l: Leaf, p: Pipe)
    requires p == Reset(0).(pc := 8, inflight := true, inflightPc := 4, ex := InEx(0, LB, 0, 0, false, false, false))
    ensures var q := Next(l, p, FAULT_BEHIND[3]);
            && q.id == InId(4, DIV, false, false) && q.ex.ExEmpty? && q.wb.WbEmpty? && !q.divLatched && q.regs == map[]
            && q.mem.InMem? && q.mem.pc == 0 && q.mem.insn == LB && !q.mem.trap && q.mem.pending && !q.mem.hasResult
  {
    assert !BranchRedirect(l, p);
  }

  lemma LoadFaults(l: Leaf, p: Pipe)
    requires p.id == InId(4, DIV, false, false) && p.ex.ExEmpty? && p.wb.WbEmpty? && !p.divLatched && p.regs == map[]
    requires p.mem.InMem? && p.mem.pc == 0 && p.mem.insn == LB && !p.mem.trap && p.mem.pending && !p.mem.hasResult
    ensures var q := Next(l, p, FAULT_BEHIND[4]);
            && q.id == p.id && q.ex.ExEmpty? && q.wb.WbEmpty? && !q.divLatched && q.regs == map[]
            && q.mem.InMem? && q.mem.pc == 0 && q.mem.insn == LB && !q.mem.trap && !q.mem.pending && !q.mem.hasResult
            && q.mem.busFault
  {
  }

  lemma LoadLeaves(l: Leaf, p: Pipe)
    requires p.id == InId(4, DIV, false, false) && p.ex.ExEmpty? && p.wb.WbEmpty? && !p.divLatched && p.regs == map[]
    requires p.mem.InMem? && p.mem.pc == 0 && p.mem.insn == LB && !p.mem.trap && !p.mem.pending && !p.mem.hasResult
    requires p.mem.busFault
    ensures var q := Next(l, p, FAULT_BEHIND[5]);
            q.wb.InWb? && q.wb.trap && q.wb.pc == 0 && q.ex == InEx(4, DIV, 0, 0, false, false, false) && !q.divLatched
  {
  }

  // The load traps in WB while the divide waits in EX.
  lemma TrapMeetsDivide(l: Leaf)
    ensures var p := AtRedirect(l, 0, FAULT_BEHIND);
            p.wb.InWb? && p.wb.trap && p.wb.pc == 0 && DivStall(p) && p.ex == InEx(4, DIV, 0, 0, false, false, false)
  {
    hide Next;
    var ins := FAULT_BEHIND;
    assert ins[..4] == ins[..3] + [ins[3]] && ins[..5] == ins[..4] + [ins[4]] && ins == ins[..5] + [ins[5]];
    RunAppend(l, Reset(0), ins[..3], ins[3]);
    RunAppend(l, Reset(0), ins[..4], ins[4]);
    RunAppend(l, Reset(0), ins[..5], ins[5]);
    LoadInEx(l);
    LoadOnBus(l, Run(l, Reset(0), ins[..3]));
    LoadFaults(l, Run(l, Reset(0), ins[..4]));
    LoadLeaves(l, Run(l, Reset(0), ins[..5]));
  }

  // So the divide, younger than the load that trapped, retires and writes its register.
  lemma YoungerThanTrapRetires(l: Leaf)
    ensures exists before: seq<In>, redirect: In, ins: seq<In> ::
              var p := AtRedirect(l, 0, before);
              && p.wb.InWb? && p.wb.trap && p.wb.pc == 0
              && var log := Since(l, p, redirect, ins).log; log != [] && log[0] == Retired(4, true, true)
  {
    hide Next, Since, AtRedirect, Spaced;
    TrapMeetsDivide(l);
    var p, done := AtRedirect(l, 0, FAULT_BEHIND), QUIET.(divDone := true);
    var ins := [QUIET, done, QUIET, QUIET, QUIET];
    OnlyWaitingDivideRetires(l, 0, FAULT_BEHIND, QUIET, ins);
    EarlierRetiresExactlyIfDivideWaits(l, 0, FAULT_BEHIND, QUIET, ins, 1);
  }
}
