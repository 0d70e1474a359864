/**
 What the interrupt controller does at each offset of its window, and which sources it lets through,
 read off its registers.
 */
module PlicRules {
  import opened Rv32
  import Plic
  import Pmp
  import PmpRules

  // With more contexts the enables would run into the thresholds.
  const MOST_CONTEXTS := 0x3FC0

  // Source x may interrupt context c.
  predicate Deserves(s: Plic.Regs, c: nat, x: nat)
    requires Plic.Shaped(s) && c < |s.enable|
  {
    0 < x < |s.priority| && s.enable[c][x] && s.pending[x] && s.priority[x] > s.threshold[c]
  }

  function ClaimOffset(c: nat): nat { 0x20_0004 + 0x1000 * c }

  lemma ClaimDecodes(c: nat, contexts: nat)
    requires c < contexts <= MOST_CONTEXTS
    ensures Plic.Decode(ClaimOffset(c), contexts) == Plic.Claim(c)
    ensures Plic.Decode(ClaimOffset(c) - 4, contexts) == Plic.Threshold(c)
    ensures Plic.Decode(0x2000 + 0x80 * c, contexts) == Plic.Enable(c)
  {
    assert (ClaimOffset(c) - 0x20_0000) / 0x1000 == c && (ClaimOffset(c) - 0x20_0000) % 0x1000 == 4;
    assert (ClaimOffset(c) - 4 - 0x20_0000) / 0x1000 == c && (ClaimOffset(c) - 4 - 0x20_0000) % 0x1000 == 0;
    assert 0x80 * c / 0x80 == c;
  }

  // A context's line is up exactly if some source deserves it.
  lemma LineIsRight(s: Plic.Regs, c: nat)
    requires Plic.Shaped(s) && c < |s.enable|
    ensures Plic.IrqLine(s, c) <==> exists x: nat :: Deserves(s, c, x)
  {
    Plic.PickIsBest(s, c, |s.priority|);
    var best := Plic.Pick(s, c);
    if best != 0 {
      assert Deserves(s, c, best);
    } else {
      forall x: nat
        ensures !Deserves(s, c, x)
      {
        assert 0 < x < |s.priority| ==> !Plic.Candidate(s, c, x);
      }
    }
  }

  // A claim answers 0 exactly if no source deserves the context, and otherwise one that does, of the
  // highest priority, the lowest-numbered of those; it moves that source from pending to in flight, and
  // does nothing else but latch the raised lines.
  lemma ClaimIsRight(s: Plic.Regs, i: Plic.In, c: nat)
    requires Plic.Fits(s, i) && c < |s.enable| <= MOST_CONTEXTS
    requires i.req.Req? && !i.req.wen && i.req.off == ClaimOffset(c)
    ensures var t := Plic.Next(s, i);
            && t.rsp.Rsp? && !t.rsp.fault
            && var r := t.rsp.rdata;
               && (r == 0 <==> forall x: nat :: !Deserves(s, c, x))
               && (r != 0 ==>
                     && Deserves(s, c, r) && !t.pending[r] && t.inflight[r]
                     && forall x: nat | Deserves(s, c, x) ::
                          s.priority[x] < s.priority[r] || (s.priority[x] == s.priority[r] && r <= x))
               && (forall x | 0 < x < |s.priority| && x != r ::
                     && t.inflight[x] == s.inflight[x]
                     && t.pending[x] == (s.pending[x] || (i.sources[x] && !s.inflight[x])))
               && t.priority == s.priority && t.enable == s.enable && t.threshold == s.threshold
  {
    ClaimDecodes(c, |s.enable|);
    Plic.PickIsBest(s, c, |s.priority|);
    forall x: nat | Deserves(s, c, x)
      ensures Plic.Candidate(s, c, x)
    {
    }
    var best := Plic.Pick(s, c);
    assert best != 0 ==> Deserves(s, c, best);
  }

  // A completion, from whichever context, takes exactly the source it names out of flight.
  lemma CompletionIsRight(s: Plic.Regs, i: Plic.In, c: nat)
    requires Plic.Fits(s, i) && c < |s.enable| <= MOST_CONTEXTS
    requires i.req.Req? && i.req.wen && i.req.off == ClaimOffset(c)
    ensures var t := Plic.Next(s, i);
            && t.rsp == Plic.Rsp(0, false)
            && (forall x | 0 < x < |s.priority| ::
                  && t.inflight[x] == (s.inflight[x] && x != i.req.wdata)
                  && t.pending[x] == (s.pending[x] || (i.sources[x] && !s.inflight[x])))
            && t.priority == s.priority && t.enable == s.enable && t.threshold == s.threshold
  {
    ClaimDecodes(c, |s.enable|);
  }

  // ---- configuration ----

  predicate Stores(i: Plic.In, off: nat) { i.req.Req? && i.req.wen && i.req.off == off && i.req.mask == FULL_MASK }

  predicate Loads(i: Plic.In, off: nat) { i.req.Req? && !i.req.wen && i.req.off == off }

  predicate BitAt(w: nat, k: nat) { w / Pmp.Pow2(k) % 2 == 1 }

  lemma {:induction false} BitIs(w: nat, k: nat)
    requires k < 32
    ensures Plic.Bit(w, k) == BitAt(w, k)
  {
    if k > 0 {
      BitIs(w / 2, k - 1);
      PmpRules.QuotientOfHalf(w, Pmp.Pow2(k - 1));
    }
  }

  // Each register is written at its own offset and nowhere else: 4 x for the priority of x, 0x2000 and
  // 0x80 a context for the enables, 0x200000 and 0x1000 a context for the thresholds.
  lemma StoreConfigures(s: Plic.Regs, i: Plic.In, x: nat, c: nat)
    requires Plic.Fits(s, i) && 0 < x < |s.priority| && c < |s.enable| <= MOST_CONTEXTS
    ensures var t := Plic.Next(s, i);
            && (Stores(i, 4 * x) ==>
                  t.priority == s.priority[x := i.req.wdata % 8] && t.enable == s.enable && t.threshold == s.threshold)
            && (Stores(i, 0x20_0000 + 0x1000 * c) ==>
                  t.threshold == s.threshold[c := i.req.wdata % 8] && t.enable == s.enable && t.priority == s.priority)
            && (Stores(i, 0x2000 + 0x80 * c) ==>
                  && (forall d | 0 <= d < |s.enable| && d != c :: t.enable[d] == s.enable[d])
                  && (forall y | 0 < y < |s.priority| :: t.enable[c][y] == BitAt(i.req.wdata, y))
                  && t.priority == s.priority && t.threshold == s.threshold)
  {
    ClaimDecodes(c, |s.enable|);
    assert 4 * x / 4 == x;
    if i.req.Req? {
      forall y | 0 < y < |s.priority|
        ensures Plic.Bit(i.req.wdata, y) == BitAt(i.req.wdata, y)
      {
        BitIs(i.req.wdata, y);
      }
    }
  }

  // And read back there; 0x1000 shows what is pending.
  lemma LoadShows(s: Plic.Regs, i: Plic.In, x: nat, c: nat)
    requires Plic.Fits(s, i) && 0 < x < |s.priority| && c < |s.enable| <= MOST_CONTEXTS
    ensures var r := Plic.Next(s, i).rsp;
            && (Loads(i, 4 * x) ==> r == Plic.Rsp(s.priority[x], false))
            && (Loads(i, 0x20_0000 + 0x1000 * c) ==> r == Plic.Rsp(s.threshold[c], false))
            && (Loads(i, 0x1000) ==> r.Rsp? && !r.fault && (BitAt(r.rdata, x) <==> s.pending[x]))
            && (Loads(i, 0x2000 + 0x80 * c) ==> r.Rsp? && !r.fault && (BitAt(r.rdata, x) <==> s.enable[c][x]))
  {
    ClaimDecodes(c, |s.enable|);
    assert 4 * x / 4 == x;
    Plic.PackedBit(s.pending, x);
    BitIs(Plic.Packed(s.pending), x);
    Plic.PackedBit(s.enable[c], x);
    BitIs(Plic.Packed(s.enable[c]), x);
  }

  // Every access is answered in the next cycle, a store with 0, and with a fault exactly if its offset
  // is in no window.
  lemma AnswersAre(s: Plic.Regs, i: Plic.In)
    requires Plic.Fits(s, i) && i.req.Req?
    ensures var r, off, n := Plic.Next(s, i).rsp, i.req.off, |s.enable|;
            && r.Rsp? && (i.req.wen ==> r.rdata == 0)
            && (r.fault <==>
                  && off > 0x1000 && !(0x2000 <= off < 0x2000 + 0x80 * n)
                  && !(0x20_0000 <= off < 0x20_0000 + 0x1000 * n && off % 0x1000 in {0, 4}))
  {
    assert i.req.off >= 0x20_0000 ==> (i.req.off - 0x20_0000) % 0x1000 == i.req.off % 0x1000;
  }

  // Nothing else touches a register: a priority, threshold or enable bit changes only by a store in its
  // own window, a source goes into flight only by a claim that answers it and comes out only by a
  // completion that names it.
  lemma OnlyByAccess(s: Plic.Regs, i: Plic.In, x: nat, c: nat)
    requires Plic.Fits(s, i) && x < |s.priority| && c < |s.enable|
    ensures var t, r := Plic.Next(s, i), i.req;
            && (t.priority[x] != s.priority[x] ==> r.Req? && r.wen && r.off / 4 == x && x > 0 && r.mask.m0)
            && (t.threshold[c] != s.threshold[c] ==> r.Req? && r.wen && r.off == 0x20_0000 + 0x1000 * c && r.mask.m0)
            && (t.enable[c][x] != s.enable[c][x] ==>
                  r.Req? && r.wen && 0x2000 + 0x80 * c <= r.off < 0x2080 + 0x80 * c)
            && (t.inflight[x] && !s.inflight[x] ==> r.Req? && !r.wen && t.rsp.Rsp? && t.rsp.rdata == x > 0)
            && (!t.inflight[x] && s.inflight[x] ==> r.Req? && r.wen && r.wdata == x)
            && (!t.pending[x] && s.pending[x] && x > 0 ==> t.inflight[x])
  {
  }
}
