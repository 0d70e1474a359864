/**
 The two cores run the same architecture: on programs that neither trap nor ask the CSR file, both
 retire the same instructions with the same results.
 */
module CoresAgree {
  import opened Rv32
  import P = PipelineRefinement
  import M = MulticycleRefinement
  import Pipeline
  import Multicycle

  // The program as the multicycle core's instruction memory.
  function CodeOf(prog: P.Program): M.Code {
    (pc: Word) => if prog.fetchOk(pc) then M.Got(prog.imem(pc)) else M.FetchFault
  }

  predicate Quiet(e: M.Env) { !e.irq && !e.memFault }

  predicate AllQuiet(envs: seq<M.Env>) { envs == [] || (AllQuiet(envs[..|envs| - 1]) && Quiet(envs[|envs| - 1])) }

  predicate SameRetire(a: P.Retire, b: Multicycle.Retire) {
    a.pc == b.pc && !b.trap && (a.wen && a.rd != 0 <==> b.wen) && (b.wen ==> a.rd == b.rd && a.value == b.value)
  }

  function Embed(s: P.Arch): M.Arch { M.Arch(s.pc, s.regs, s.mem, s.resv) }

  // An instruction that neither traps nor asks the CSR file, nor restarts the pipeline.
  predicate Benign(l: Leaf, prog: P.Program, s: P.Arch) {
    P.Plain(prog, s) && !P.Traps(l, prog, s) && !P.Foreign(prog.imem(s.pc).kind) && !prog.imem(s.pc).kind.FenceI?
  }

  predicate Calm(envs: seq<P.Env>) { envs == [] || (Calm(envs[..|envs| - 1]) && !envs[|envs| - 1].irq) }

  predicate BenignAlong(l: Leaf, prog: P.Program, s: P.Arch, envs: seq<P.Env>) {
    envs == []
    || (&& BenignAlong(l, prog, s, envs[..|envs| - 1])
        && Benign(l, prog, P.Sequential(l, prog, s, envs[..|envs| - 1])))
  }

  lemma StepsAgree(l: Leaf, prog: P.Program, s: P.Arch, v: P.Env, e: M.Env)
    requires Benign(l, prog, s) && !v.irq && Quiet(e)
    ensures M.Step(l, CodeOf(prog), Embed(s), e) == Embed(P.Resume(l, prog, s, v))
    ensures SameRetire(P.RetireOf(l, prog, s, v), M.RetireOf(l, CodeOf(prog), Embed(s), e))
  {
    assert M.EffectOf(l, CodeOf(prog), Embed(s), e) == M.Executes(prog.imem(s.pc));
  }

  lemma {:induction false} SequentialsAgree(l: Leaf, prog: P.Program, s: P.Arch, vs: seq<P.Env>, envs: seq<M.Env>)
    requires AllQuiet(envs) && Calm(vs) && |vs| == |envs| && BenignAlong(l, prog, s, vs)
    ensures M.Sequential(l, CodeOf(prog), Embed(s), envs) == Embed(P.Sequential(l, prog, s, vs))
    ensures var a, b := P.Retirements(l, prog, s, vs), M.Retirements(l, CodeOf(prog), Embed(s), envs);
            |a| == |b| == |envs| && forall k | 0 <= k < |envs| :: SameRetire(a[k], b[k])
  {
    hide M.Step, P.Resume, M.RetireOf, P.RetireOf, Benign, SameRetire;
    if envs != [] {
      var n := |envs| - 1;
      SequentialsAgree(l, prog, s, vs[..n], envs[..n]);
      StepsAgree(l, prog, P.Sequential(l, prog, s, vs[..n]), vs[n], envs[n]);
    }
  }

  // A benign program never redirects at write-back, so no trap needs containing.
  lemma {:induction false} BenignMeetsNoTrap(l: Leaf, prog: P.Program, pc: Word, mem: Rv32.Mem, pipe: seq<Pipeline.In>)
    requires P.AllowedRun(l, prog, P.Boot(pc, mem), pipe)
    requires var vs := P.Envs(l, P.Boot(pc, mem), pipe);
             P.PlainAlong(l, prog, P.Start(pc, mem), vs) && BenignAlong(l, prog, P.Start(pc, mem), vs) && Calm(vs)
    ensures P.TrapsContained(l, P.Boot(pc, mem), pipe)
  {
    hide P.Cycle, P.Allowed, P.PlainAhead, Benign, P.Coupled, Pipeline.WbRedirect;
    if pipe != [] {
      var before, i := pipe[..|pipe| - 1], pipe[|pipe| - 1];
      var s, vs := P.After(l, P.Boot(pc, mem), before), P.Envs(l, P.Boot(pc, mem), before);
      if s.p.wb.InWb? { assert (vs + [P.EnvOf(s, i)])[..|vs|] == vs; } else { assert vs + [] == vs; }
      BenignMeetsNoTrap(l, prog, pc, mem, before);
      P.RunCoupled(l, prog, pc, mem, before);
      if s.p.wb.InWb? { BenignGoesOn(l, prog, s, P.Sequential(l, prog, P.Start(pc, mem), vs)); }
      OnlyWbRedirects(s.p);
    }
  }

  lemma BenignGoesOn(l: Leaf, prog: P.Program, s: P.System, wb: P.Arch)
    requires P.Coupled(l, prog, s, wb) && Benign(l, prog, wb) && s.p.wb.InWb? && !s.taken
    ensures !Pipeline.WbRedirect(s.p) && !s.p.wb.trap
  {
    hide P.MemOk, P.FrontOk, P.ResvOk, P.MemoryOf, P.Traps, P.Shape;
  }

  lemma OnlyWbRedirects(p: Pipeline.Pipe)
    ensures Pipeline.WbRedirect(p) ==> p.wb.InWb?
  {
  }

  // Run the same program on both cores from reset, with any latencies on either, no interrupts, and
  // no faulting data access. When they have retired equally many instructions, loads, stores, LR, SC
  // and AMOs included, they have retired the same ones with the same results, and their registers are
  // equal.
  lemma CoresRetireAlike(l: Leaf, prog: P.Program, pc: Word, mem: Rv32.Mem, pipe: seq<Pipeline.In>,
                         multi: seq<Multicycle.In>)
    requires P.AllowedRun(l, prog, P.Boot(pc, mem), pipe)
    requires M.AllowedRun(l, CodeOf(prog), M.Boot(pc, mem), multi)
    requires var vs := P.Envs(l, P.Boot(pc, mem), pipe);
             P.PlainAlong(l, prog, P.Start(pc, mem), vs) && BenignAlong(l, prog, P.Start(pc, mem), vs) && Calm(vs)
    requires AllQuiet(M.Run(l, M.Boot(pc, mem), multi).envs)
    requires |P.After(l, P.Boot(pc, mem), pipe).log| == |M.Run(l, M.Boot(pc, mem), multi).log|
    ensures var x, y := P.After(l, P.Boot(pc, mem), pipe), M.Run(l, M.Boot(pc, mem), multi);
            && (forall k | 0 <= k < |x.log| :: SameRetire(x.log[k], y.log[k]))
            && x.p.regs == y.c.regs
  {
    hide P.Cycle, M.Cycle, Benign, M.Step, P.Resume, SameRetire, P.MemoryOf, P.PlainAlong;
    var x, y := P.After(l, P.Boot(pc, mem), pipe), M.Run(l, M.Boot(pc, mem), multi);
    var s := P.Start(pc, mem);
    BenignMeetsNoTrap(l, prog, pc, mem, pipe);
    P.PipelineRefinesSequential(l, prog, pc, mem, pipe);
    M.MulticycleRefinesSequential(l, CodeOf(prog), pc, mem, multi);
    M.OneRetirementEach(l, CodeOf(prog), Embed(s), y.envs);
    SequentialsAgree(l, prog, s, P.Envs(l, P.Boot(pc, mem), pipe), y.envs);
  }
}
