/**
 The platform-level interrupt controller (rtl/soc/plic.sv), for any number of sources and contexts:
 level gateway, priority pick, claim and complete.
 */
module Plic {
  import opened Rv32

  datatype Rsp = NoRsp | Rsp(rdata: nat, fault: bool)

  datatype Regs = Regs(
    priority: seq<nat>, pending: seq<bool>, inflight: seq<bool>,
    enable: seq<seq<bool>>, threshold: seq<nat>, claimed: seq<nat>, rsp: Rsp)

  // A bus access, by its offset in the 16 MiB window.
  datatype Req = NoReq | Req(off: nat, wen: bool, wdata: Word, mask: Mask)

  datatype In = In(sources: seq<bool>, req: Req)

  datatype Target = Priority(idx: nat) | Pending | Enable(ctx: nat) | Threshold(ctx: nat) | Claim(ctx: nat) | Unmapped

  function Decode(off: nat, contexts: nat): (t: Target)
    ensures t.Enable? || t.Threshold? || t.Claim? ==> t.ctx < contexts
  {
    if off < 0x1000 then Priority(off / 4)
    else if off == 0x1000 then Pending
    else if 0x2000 <= off < 0x2000 + contexts * 0x80 then Enable((off - 0x2000) / 0x80)
    else if 0x20_0000 <= off < 0x20_0000 + contexts * 0x1000 then
      var ctx := (off - 0x20_0000) / 0x1000;
      if (off - 0x20_0000) % 0x1000 == 0 then Threshold(ctx)
      else if (off - 0x20_0000) % 0x1000 == 4 then Claim(ctx)
      else Unmapped
    else Unmapped
  }

  // The register widths: NUM_SOURCES up to one 32-bit word, NUM_CTX contexts.
  predicate Shaped(s: Regs) {
    && 1 <= |s.priority| <= 32
    && |s.pending| == |s.inflight| == |s.priority|
    && |s.enable| == |s.threshold| == |s.claimed|
    && (forall c | 0 <= c < |s.enable| :: |s.enable[c]| == |s.priority|)
  }

  function Reset(sources: nat, contexts: nat): Regs {
    var off := seq(sources, _ => false);
    Regs(seq(sources, _ => 0), off, off, seq(contexts, _ => off), seq(contexts, _ => 0), seq(contexts, _ => 0), NoRsp)
  }

  // ---- the pick ----

  predicate Candidate(s: Regs, ctx: nat, x: nat)
    requires Shaped(s) && ctx < |s.enable| && x < |s.priority|
  {
    x > 0 && s.enable[ctx][x] && s.pending[x] && s.priority[x] > s.threshold[ctx]
  }

  // The scan over sources 1 to m - 1, keeping the first of the highest priority.
  function PickUpTo(s: Regs, ctx: nat, m: nat): (best: nat)
    requires Shaped(s) && ctx < |s.enable| && m <= |s.priority|
    ensures best < |s.priority|
  {
    if m == 0 then 0
    else
      var best := PickUpTo(s, ctx, m - 1);
      if Candidate(s, ctx, m - 1) && s.priority[m - 1] > (if best == 0 then 0 else s.priority[best]) then m - 1
      else best
  }

  function Pick(s: Regs, ctx: nat): (best: nat)
    requires Shaped(s) && ctx < |s.enable|
    ensures best < |s.priority|
  {
    PickUpTo(s, ctx, |s.priority|)
  }

  // What a claim must return: nothing when no source qualifies, otherwise a qualifying source of
  // maximal priority, the lowest-numbered one among equals.
  predicate IsBest(s: Regs, ctx: nat, m: nat, best: nat)
    requires Shaped(s) && ctx < |s.enable| && m <= |s.priority| && best < |s.priority|
  {
    if best == 0 then forall x | 0 <= x < m :: !Candidate(s, ctx, x)
    else
      && best < m && Candidate(s, ctx, best)
      && forall x | 0 <= x < m && Candidate(s, ctx, x) ::
           s.priority[x] < s.priority[best] || (s.priority[x] == s.priority[best] && best <= x)
  }

  lemma {:induction false} PickIsBest(s: Regs, ctx: nat, m: nat)
    requires Shaped(s) && ctx < |s.enable| && m <= |s.priority|
    ensures IsBest(s, ctx, m, PickUpTo(s, ctx, m))
  {
    if m > 0 { PickIsBest(s, ctx, m - 1); }
  }

  // That specification leaves no choice.
  lemma BestIsUnique(s: Regs, ctx: nat, a: nat, b: nat)
    requires Shaped(s) && ctx < |s.enable| && a < |s.priority| && b < |s.priority|
    requires IsBest(s, ctx, |s.priority|, a) && IsBest(s, ctx, |s.priority|, b)
    ensures a == b
  {
    assert a != 0 ==> Candidate(s, ctx, a);
    assert b != 0 ==> Candidate(s, ctx, b);
  }

  predicate IrqLine(s: Regs, ctx: nat)
    requires Shaped(s) && ctx < |s.enable|
  {
    Pick(s, ctx) != 0
  }

  // ---- one clock cycle ----

  predicate Fits(s: Regs, i: In) { Shaped(s) && |i.sources| == |s.priority| }

  predicate Claims(s: Regs, r: Req, x: nat)
    requires Shaped(s)
  {
    && r.Req? && !r.wen && x != 0
    && var t := Decode(r.off, |s.enable|); t.Claim? && Pick(s, t.ctx) == x
  }

  predicate Completes(s: Regs, r: Req, x: nat) {
    r.Req? && r.wen && Decode(r.off, |s.enable|).Claim? && r.wdata == x && 0 < x < |s.priority|
  }

  predicate Bit(w: nat, k: nat)
    requires k < 32
    decreases k
  {
    if k == 0 then w % 2 == 1 else Bit(w / 2, k - 1)
  }

  function Packed(bits: seq<bool>): nat {
    if bits == [] then 0 else (if bits[0] then 1 else 0) + 2 * Packed(bits[1..])
  }

  function Masked(was: seq<bool>, r: Req): seq<bool>
    requires r.Req? && |was| <= 32
  {
    seq(|was|, k requires 0 <= k < |was| => k != 0 && if Lane(r.mask, k / 8) then Bit(r.wdata, k) else was[k])
  }

  function NextPriority(s: Regs, r: Req): seq<nat> {
    if r.Req? && r.wen then
      match Decode(r.off, |s.enable|)
      case Priority(idx) => if 0 < idx < |s.priority| && r.mask.m0 then s.priority[idx := r.wdata % 8] else s.priority
      case _ => s.priority
    else s.priority
  }

  function NextEnable(s: Regs, r: Req): seq<seq<bool>>
    requires Shaped(s)
  {
    if r.Req? && r.wen then
      match Decode(r.off, |s.enable|)
      case Enable(c) => s.enable[c := Masked(s.enable[c], r)]
      case _ => s.enable
    else s.enable
  }

  function NextThreshold(s: Regs, r: Req): seq<nat>
    requires Shaped(s)
  {
    if r.Req? && r.wen then
      match Decode(r.off, |s.enable|)
      case Threshold(c) => if r.mask.m0 then s.threshold[c := r.wdata % 8] else s.threshold
      case _ => s.threshold
    else s.threshold
  }

  function NextClaimed(s: Regs, r: Req): seq<nat>
    requires Shaped(s)
  {
    if r.Req? then
      match Decode(r.off, |s.enable|)
      case Claim(c) =>
        if r.wen then (if 0 < r.wdata < |s.priority| && s.claimed[c] == r.wdata then s.claimed[c := 0] else s.claimed)
        else if Pick(s, c) != 0 then s.claimed[c := Pick(s, c)] else s.claimed
      case _ => s.claimed
    else s.claimed
  }

  function Response(s: Regs, r: Req): Rsp
    requires Shaped(s)
  {
    if r.NoReq? then NoRsp
    else
      match Decode(r.off, |s.enable|)
      case Unmapped => Rsp(0, true)
      case Priority(idx) => Rsp(if !r.wen && idx < |s.priority| then s.priority[idx] else 0, false)
      case Pending => Rsp(if r.wen then 0 else Packed(s.pending), false)
      case Enable(c) => Rsp(if r.wen then 0 else Packed(s.enable[c]), false)
      case Threshold(c) => Rsp(if r.wen then 0 else s.threshold[c], false)
      case Claim(c) => Rsp(if r.wen then 0 else Pick(s, c), false)
  }

  function Next(s: Regs, i: In): (t: Regs)
    requires Fits(s, i)
    ensures Shaped(t) && |t.priority| == |s.priority| && |t.enable| == |s.enable|
  {
    var n := |s.priority|;
    Regs(NextPriority(s, i.req),
         seq(n, k requires 0 <= k < n =>
           k != 0 && !Claims(s, i.req, k) && (s.pending[k] || (i.sources[k] && !s.inflight[k]))),
         seq(n, k requires 0 <= k < n => Claims(s, i.req, k) || (s.inflight[k] && !Completes(s, i.req, k))),
         NextEnable(s, i.req), NextThreshold(s, i.req), NextClaimed(s, i.req), Response(s, i.req))
  }

  predicate WellTimed(s: Regs, ins: seq<In>) {
    Shaped(s) && forall k | 0 <= k < |ins| :: |ins[k].sources| == |s.priority|
  }

  function Run(s: Regs, ins: seq<In>): (t: Regs)
    requires WellTimed(s, ins)
    ensures Shaped(t) && |t.priority| == |s.priority| && |t.enable| == |s.enable|
  {
    if ins == [] then s else Next(Run(s, ins[..|ins| - 1]), ins[|ins| - 1])
  }

  // ---- what holds over every run ----

  predicate Exclusive(s: Regs)
    requires Shaped(s)
  {
    forall x | 0 <= x < |s.priority| :: !(s.pending[x] && s.inflight[x])
  }

  // Pending and in flight are never both set, in any reachable state.
  lemma {:induction false} AlwaysExclusive(sources: nat, contexts: nat, ins: seq<In>)
    requires 1 <= sources <= 32 && WellTimed(Reset(sources, contexts), ins)
    ensures Exclusive(Run(Reset(sources, contexts), ins))
  {
    var s := Reset(sources, contexts);
    if ins != [] {
      AlwaysExclusive(sources, contexts, ins[..|ins| - 1]);
      ExclusiveStep(Run(s, ins[..|ins| - 1]), ins[|ins| - 1]);
    }
  }

  lemma ExclusiveStep(s: Regs, i: In)
    requires Fits(s, i) && Exclusive(s)
    ensures Exclusive(Next(s, i))
    ensures forall x | 0 <= x < |s.priority| && Claims(s, i.req, x) :: s.pending[x] && !s.inflight[x]
  {
    forall x | 0 <= x < |s.priority| && Claims(s, i.req, x)
      ensures s.pending[x] && !s.inflight[x]
    {
      PickIsBest(s, Decode(i.req.off, |s.enable|).ctx, |s.priority|);
    }
  }

  // Does the run claim (complete) source x at step j?
  predicate ClaimsAt(s: Regs, ins: seq<In>, j: nat, x: nat)
    requires WellTimed(s, ins) && j < |ins|
  {
    Claims(Run(s, ins[..j]), ins[j].req, x)
  }

  predicate CompletesAt(s: Regs, ins: seq<In>, j: nat, x: nat)
    requires WellTimed(s, ins) && j < |ins|
  {
    Completes(Run(s, ins[..j]), ins[j].req, x)
  }

  lemma RunStep(s: Regs, ins: seq<In>, j: nat)
    requires WellTimed(s, ins) && j < |ins|
    ensures Run(s, ins[..j + 1]) == Next(Run(s, ins[..j]), ins[j])
  {
    assert ins[..j + 1][..j] == ins[..j];
  }

  // A claim at step j with no completion since then leaves the source in flight at step k.
  lemma {:induction false} ClaimHolds(s: Regs, ins: seq<In>, j: nat, k: nat, x: nat)
    requires WellTimed(s, ins) && j < k <= |ins| && x < |s.priority|
    requires ClaimsAt(s, ins, j, x)
    requires forall m | j < m < k :: !CompletesAt(s, ins, m, x)
    ensures Run(s, ins[..k]).inflight[x]
  {
    hide Pick, PickUpTo, NextPriority, NextEnable, NextThreshold, NextClaimed, Response, Decode;
    RunStep(s, ins, k - 1);
    if j < k - 1 {
      ClaimHolds(s, ins, j, k - 1, x);
      assert !CompletesAt(s, ins, k - 1, x);
    }
  }

  // No source is claimed twice, by whichever contexts, without a completion in between.
  lemma NoDoubleClaim(sources: nat, contexts: nat, ins: seq<In>, j: nat, k: nat, x: nat)
    requires 1 <= sources <= 32 && WellTimed(Reset(sources, contexts), ins)
    requires j < k < |ins| && x < sources
    requires ClaimsAt(Reset(sources, contexts), ins, j, x) && ClaimsAt(Reset(sources, contexts), ins, k, x)
    ensures exists m | j < m < k :: CompletesAt(Reset(sources, contexts), ins, m, x)
  {
    var s := Reset(sources, contexts);
    if forall m | j < m < k :: !CompletesAt(s, ins, m, x) {
      ClaimHolds(s, ins, j, k, x);
      AlwaysExclusive(sources, contexts, ins[..k]);
      ExclusiveStep(Run(s, ins[..k]), ins[k]);
      assert false;
    }
  }

  // A pending bit, once latched, stays until the source is claimed, whatever the source line does.
  lemma {:induction false} PendingSurvives(s: Regs, ins: seq<In>, j: nat, k: nat, x: nat)
    requires WellTimed(s, ins) && j <= k <= |ins| && 0 < x < |s.priority|
    requires Run(s, ins[..j]).pending[x]
    requires forall m | j <= m < k :: !ClaimsAt(s, ins, m, x)
    ensures Run(s, ins[..k]).pending[x]
  {
    if j < k {
      PendingSurvives(s, ins, j, k - 1, x);
      assert !ClaimsAt(s, ins, k - 1, x);
      RunStep(s, ins, k - 1);
    }
  }

  // A raised line of a source not in flight is latched, and if the source is enabled above the
  // threshold of a context, that context's line is up.
  lemma RaisedIsLatched(s: Regs, i: In, x: nat, ctx: nat)
    requires Fits(s, i) && 0 < x < |s.priority| && ctx < |s.enable|
    requires (i.sources[x] && !s.inflight[x]) || s.pending[x]
    requires i.req.NoReq? && s.enable[ctx][x] && s.priority[x] > s.threshold[ctx]
    ensures Next(s, i).pending[x] && IrqLine(Next(s, i), ctx)
  {
    var t := Next(s, i);
    assert Candidate(t, ctx, x);
    PickIsBest(t, ctx, |t.priority|);
  }

  // What a claim answers, and what it takes: the best source and nothing else.
  lemma ClaimAnswers(s: Regs, i: In)
    requires Fits(s, i) && i.req.Req? && !i.req.wen && Decode(i.req.off, |s.enable|).Claim?
    ensures var ctx := Decode(i.req.off, |s.enable|).ctx;
            var t := Next(s, i);
            && t.rsp.Rsp? && !t.rsp.fault && t.rsp.rdata < |s.priority|
            && IsBest(s, ctx, |s.priority|, t.rsp.rdata)
            && (t.rsp.rdata != 0 <==> IrqLine(s, ctx))
            && (t.rsp.rdata != 0 ==> !t.pending[t.rsp.rdata] && t.inflight[t.rsp.rdata])
            && (forall x | 0 < x < |s.priority| && x != t.rsp.rdata :: s.pending[x] ==> t.pending[x])
  {
    PickIsBest(s, Decode(i.req.off, |s.enable|).ctx, |s.priority|);
  }

  // A completed source whose line is still up pends again one cycle after the completion, not before.
  lemma CompletionRearms(s: Regs, i: In, later: In, x: nat)
    requires Fits(s, i) && Fits(s, later) && Exclusive(s) && 0 < x < |s.priority|
    requires s.inflight[x] && Completes(s, i.req, x) && later.sources[x] && later.req.NoReq?
    ensures !Next(s, i).pending[x] && !Next(s, i).inflight[x]
    ensures Next(Next(s, i), later).pending[x]
  {
  }

  // Reading a bit vector back gives the bits that are stored.
  lemma {:induction false} PackedBit(bits: seq<bool>, k: nat)
    requires k < |bits| <= 32
    ensures Bit(Packed(bits), k) == bits[k]
  {
    if k > 0 {
      assert Packed(bits) / 2 == Packed(bits[1..]);
      PackedBit(bits[1..], k - 1);
    }
  }

  // Priorities, thresholds and enables read back as written, cut to their width and byte lanes.
  lemma ConfigurationReadsBack(s: Regs, w: In, r: In)
    requires Fits(s, w) && Fits(s, r) && w.req.Req? && w.req.wen && w.req.mask == FULL_MASK
    requires r.req.Req? && !r.req.wen && r.req.off == w.req.off
    ensures var t := Next(Next(s, w), r);
            match Decode(w.req.off, |s.enable|)
            case Priority(idx) => 0 < idx < |s.priority| ==> t.rsp == Rsp(w.req.wdata % 8, false)
            case Threshold(_) => t.rsp == Rsp(w.req.wdata % 8, false)
            case Enable(_) =>
              && t.rsp.Rsp?
              && forall k | 0 <= k < |s.priority| :: Bit(t.rsp.rdata, k) == (k > 0 && Bit(w.req.wdata, k))
            case _ => true
  {
    match Decode(w.req.off, |s.enable|) {
      case Enable(c) =>
        var bits := Next(s, w).enable[c];
        forall k | 0 <= k < |s.priority|
          ensures Bit(Packed(bits), k) == (k > 0 && Bit(w.req.wdata, k))
        {
          PackedBit(bits, k);
        }
      case _ =>
    }
  }

  // ---- the clocked block ----

  class Controller {
    var priority: seq<nat>
    var pending: seq<bool>
    var inflight: seq<bool>
    var enable: seq<seq<bool>>
    var threshold: seq<nat>
    var claimed: seq<nat>
    var rsp: Rsp

    function State(): Regs
      reads this
    {
      Regs(priority, pending, inflight, enable, threshold, claimed, rsp)
    }

    constructor (sources: nat, contexts: nat)
      requires 1 <= sources <= 32
      ensures State() == Reset(sources, contexts) && Shaped(State())
    {
      var off := seq(sources, _ => false);
      priority, pending, inflight := seq(sources, _ => 0), off, off;
      enable, threshold, claimed := seq(contexts, _ => off), seq(contexts, _ => 0), seq(contexts, _ => 0);
      rsp := NoRsp;
    }

    method PickBestSrc(ctx: nat) returns (bestIdx: nat)
      requires Shaped(State()) && ctx < |enable|
      ensures bestIdx == Pick(State(), ctx) && IsBest(State(), ctx, |priority|, bestIdx)
    {
      var bestPrio := 0;
      bestIdx := 0;
      for s := 1 to |priority|
        invariant bestIdx == PickUpTo(State(), ctx, s) && bestIdx < s
        invariant bestPrio == if bestIdx == 0 then 0 else priority[bestIdx]
      {
        if enable[ctx][s] && pending[s] && priority[s] > threshold[ctx] && priority[s] > bestPrio {
          bestPrio, bestIdx := priority[s], s;
        }
      }
      PickIsBest(State(), ctx, |priority|);
    }

    // Latch every raised source that is not in flight; source 0 never pends.
    method Gateway(sources: seq<bool>) returns (latched: seq<bool>)
      requires Shaped(State()) && |sources| == |priority|
      ensures |latched| == |pending|
      ensures forall k | 0 <= k < |pending| :: latched[k] == (k != 0 && (pending[k] || (sources[k] && !inflight[k])))
    {
      latched := pending;
      for s := 1 to |priority|
        invariant |latched| == |pending|
        invariant forall k | 0 <= k < |pending| ::
                    latched[k] == (pending[k] || (1 <= k < s && sources[k] && !inflight[k]))
      {
        if sources[s] && !inflight[s] { latched := latched[s := true]; }
      }
      latched := latched[0 := false];
    }

    // One rising edge.
    method Clock(i: In)
      requires Fits(State(), i)
      modifies this
      ensures State() == Next(old(State()), i)
    {
      hide PickUpTo, Packed, Bit, Lane;
      ghost var s := State();
      var pendingD := Gateway(i.sources);
      var priorityD, inflightD, enableD, thresholdD, claimedD := priority, inflight, enable, threshold, claimed;
      var rspD := NoRsp;
      if i.req.Req? {
        rspD := Rsp(0, false);
        match Decode(i.req.off, |enable|) {
          case Priority(idx) =>
            if i.req.wen {
              if 0 < idx < |priority| && i.req.mask.m0 { priorityD := priority[idx := i.req.wdata % 8]; }
            } else if idx < |priority| {
              rspD := Rsp(priority[idx], false);
            }
          case Pending =>
            if !i.req.wen { rspD := Rsp(Packed(pending), false); }
          case Enable(c) =>
            if i.req.wen {
              enableD := enable[c := Masked(enable[c], i.req)];
            } else {
              rspD := Rsp(Packed(enable[c]), false);
            }
          case Threshold(c) =>
            if i.req.wen {
              if i.req.mask.m0 { thresholdD := threshold[c := i.req.wdata % 8]; }
            } else {
              rspD := Rsp(threshold[c], false);
            }
          case Claim(c) =>
            if i.req.wen {
              if 0 < i.req.wdata < |priority| {
                inflightD := inflight[i.req.wdata := false];
                if claimed[c] == i.req.wdata { claimedD := claimed[c := 0]; }
              }
            } else {
              var best := PickBestSrc(c);
              rspD := Rsp(best, false);
              if best != 0 {
                pendingD, inflightD := pendingD[best := false], inflight[best := true];
                claimedD := claimed[c := best];
              }
            }
          case Unmapped => rspD := Rsp(0, true);
        }
      }
      assert pendingD == Next(s, i).pending;
      assert inflightD == Next(s, i).inflight;
      priority, pending, inflight, enable, threshold, claimed, rsp :=
        priorityD, pendingD, inflightD, enableD, thresholdD, claimedD, rspD;
    }
  }
}
