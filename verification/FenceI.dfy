/**
 FENCE.I as wired in the SoC: the pipelined core, its fetch port through the MMU and the address
 decoder to the instruction cache, its stores to the memory behind that cache, and the retirement of
 FENCE.I to the cache's invalidate input.
 */
module FenceI {
  import opened Rv32
  import opened CacheArray
  import opened Pipeline
  import P = PipelineRefinement
  import Icache
  import F = IcacheFreshness

  // `bus` holds the data accesses accepted and not yet answered; `asked` is where the fetch in flight
  // was sent: a word address in the cache, or elsewhere.
  datatype Wired = Wired(p: Pipe, mem: Mem, bus: seq<P.Access>, c: F.Sys, asked: Icache.MaybeAddr)

  // One cycle of everything else. `route` is what the MMU and the decoder make of a fetch request:
  // the word address they pass to the cache, or nothing. `code` is what the memory behind the cache
  // holds in this cycle.
  datatype Wires = Wires(core: Pipeline.In, route: Icache.MaybeAddr, ready: bool, rsp: Icache.MemRsp, code: WordMem)

  // icache_invalidate.
  predicate Pulse(p: Pipe) { p.wb.InWb? && p.wb.insn.kind.FenceI? && !p.wb.trap }

  function CacheIn(l: Leaf, w: Wired, i: Wires): F.In {
    F.In(if FetchRequest(l, w.p, i.core) then i.route else Icache.NoAddr, i.ready, i.rsp, Pulse(w.p), i.code)
  }

  // A store on its way to word a of memory.
  predicate Storing(bus: seq<P.Access>, a: nat) {
    exists k | 0 <= k < |bus| :: bus[k].store && Align(bus[k].addr) == 4 * a
  }

  predicate NoStores(bus: seq<P.Access>) { forall k | 0 <= k < |bus| :: !bus[k].store }

  // The data accesses under way in this cycle, the one being accepted included.
  function BusIn(l: Leaf, w: Wired, i: Wires): seq<P.Access> { P.Bus(l, w.p, w.bus, i.core) }

  function WordAt(mem: Mem, a: nat): Word { if 4 * a < 0x1_0000_0000 then ReadWord(mem, 4 * a) else 0 }

  // The memory behind the cache holds what the core has stored. When, in the course of a store, its
  // word changes there is left open.
  ghost predicate Shows(bus: seq<P.Access>, mem: Mem, code: WordMem) {
    forall a: nat :: !Storing(bus, a) ==> At(code, a) == WordAt(mem, a)
  }

  predicate FromCache(w: Wired) { w.p.inflight && w.asked.Fetch? }

  // The wiring. Latencies, data, interrupts, CSRs and translation are arbitrary; a data response answers
  // an access the bus has accepted.
  ghost predicate Allowed(l: Leaf, g: Geometry, w: Wired, i: Wires)
    requires Icache.Sized(g, w.c.s)
  {
    && F.Allowed(g, w.c, CacheIn(l, w, i))
    && Shows(BusIn(l, w, i), w.mem, i.code)
    && (i.core.memRsp ==> BusIn(l, w, i) != [])
    && (FetchRequest(l, w.p, i.core) && i.route.Fetch? ==> i.core.fetchReady == (w.c.s.phase.Idle? && !Pulse(w.p)))
    && (FromCache(w) ==> i.core.fetchRsp == w.c.s.phase.Done?)
    && (FromCache(w) && i.core.fetchRsp ==>
          && i.core.fetchInsn.raw == Icache.Rdata(w.c.s)
          && i.core.fetchFault == (w.c.s.fillFault && !w.c.s.rspHit))
  }

  function Cycle(l: Leaf, g: Geometry, w: Wired, i: Wires): (z: Wired)
    requires Icache.Sized(g, w.c.s)
    ensures Icache.Sized(g, z.c.s)
  {
    Wired(Next(l, w.p, i.core), P.MemoryAfter(l, w.p, w.mem, w.bus, i.core), P.BusAfter(l, w.p, w.bus, i.core),
          F.Cycle(g, w.c, CacheIn(l, w, i)),
          if FetchAccepted(l, w.p, i.core) then i.route else w.asked)
  }

  function After(l: Leaf, g: Geometry, w: Wired, ins: seq<Wires>): (z: Wired)
    requires Icache.Sized(g, w.c.s)
    ensures Icache.Sized(g, z.c.s)
  {
    if ins == [] then w else Cycle(l, g, After(l, g, w, ins[..|ins| - 1]), ins[|ins| - 1])
  }

  ghost predicate AllowedRun(l: Leaf, g: Geometry, w: Wired, ins: seq<Wires>)
    requires Icache.Sized(g, w.c.s)
  {
    ins == []
    || (AllowedRun(l, g, w, ins[..|ins| - 1]) && Allowed(l, g, After(l, g, w, ins[..|ins| - 1]), ins[|ins| - 1]))
  }

  predicate Boot(g: Geometry, w: Wired) {
    (exists pc :: w.p == Reset(pc)) && w.bus == [] && F.Fresh(g, w.c)
  }

  // The cycle in which the last FENCE.I so far retired, or the first.
  function LastFence(l: Leaf, g: Geometry, w: Wired, ins: seq<Wires>): (t: nat)
    requires Icache.Sized(g, w.c.s)
    ensures t <= |ins|
  {
    if ins == [] then 0
    else
      var before := ins[..|ins| - 1];
      if Pulse(After(l, g, w, before).p) then |before| else LastFence(l, g, w, before)
  }

  // ---- what FENCE.I waits for ----

  // A FENCE.I past ID.
  predicate Fencing(p: Pipe) {
    || (p.ex.InEx? && p.ex.insn.kind.FenceI?)
    || (p.mem.InMem? && p.mem.insn.kind.FenceI?)
    || (p.wb.InWb? && p.wb.insn.kind.FenceI?)
  }

  // No store is under way while a FENCE.I leaves ID, nor while it is past ID.
  predicate QuietFence(l: Leaf, w: Wired, i: Wires) {
    Fencing(w.p) || Fencing(Next(l, w.p, i.core)) ==> NoStores(BusIn(l, w, i))
  }

  predicate QuietFences(l: Leaf, g: Geometry, w: Wired, ins: seq<Wires>)
    requires Icache.Sized(g, w.c.s)
  {
    ins == []
    || (QuietFences(l, g, w, ins[..|ins| - 1]) && QuietFence(l, After(l, g, w, ins[..|ins| - 1]), ins[|ins| - 1]))
  }

  predicate NoEscapes(l: Leaf, g: Geometry, w: Wired, ins: seq<Wires>)
    requires Icache.Sized(g, w.c.s)
  {
    ins == []
    || (&& NoEscapes(l, g, w, ins[..|ins| - 1])
        && !P.Escapes(After(l, g, w, ins[..|ins| - 1]).p, ins[|ins| - 1].core))
  }

  // FENCE.I leaves ID only when everything older is done, stores included, and no fetch is in flight;
  // and no store follows it.
  lemma FenceWaitsForStores(l: Leaf, w: Wired, i: Wires)
    requires Spaced(w.p) && SerialAlone(w.p) && P.BusOk(l, w.p, w.bus)
             && (Fencing(w.p) || Fencing(Next(l, w.p, i.core)))
    ensures BusIn(l, w, i) == []
    ensures !Fencing(w.p) ==> !w.p.inflight && w.p.mem.MemEmpty? && w.p.wb.WbEmpty?
  {
  }

  lemma FenceLeavesId(l: Leaf, p: Pipe, i: Pipeline.In)
    requires Spaced(p) && SerialAlone(p) && Fencing(Next(l, p, i)) && !Fencing(p)
    ensures !p.inflight && p.mem.MemEmpty? && p.wb.WbEmpty?
  {
  }

  // So as long as no access younger than a trap escapes, no FENCE.I ever meets a store under way.
  lemma {:induction false} FencesAreQuiet(l: Leaf, g: Geometry, w: Wired, ins: seq<Wires>)
    requires Boot(g, w) && AllowedRun(l, g, w, ins) && NoEscapes(l, g, w, ins)
    ensures QuietFences(l, g, w, ins)
    ensures var z := After(l, g, w, ins); Spaced(z.p) && SerialAlone(z.p) && P.BusOk(l, z.p, z.bus)
  {
    hide Next, P.BusOk, Spaced, SerialAlone, P.Bus, F.Cycle, F.Allowed, P.Escapes, Fencing, Shows, P.BusAfter,
         P.MemoryAfter;
    if ins == [] {
      var pc :| w.p == Reset(pc);
      P.BootBus(l, pc);
      BootAlone(pc);
    } else {
      var before, i := ins[..|ins| - 1], ins[|ins| - 1];
      var z := After(l, g, w, before);
      FencesAreQuiet(l, g, w, before);
      SpacedStep(l, z.p, i.core);
      SerialAloneStep(l, z.p, i.core);
      P.BusStep(l, z.p, z.bus, i.core);
      if Fencing(z.p) || Fencing(Next(l, z.p, i.core)) { FenceWaitsForStores(l, z, i); }
    }
  }

  lemma BootAlone(pc: Word)
    ensures SerialAlone(Reset(pc))
  {
  }

  // ---- what the cache is filling agrees with memory ----

  ghost predicate Settled(g: Geometry, y: F.Sys, now: WordMem)
    requires Icache.Sized(g, y.s)
  {
    y.s.phase.Fill? ==> forall k | 0 <= k < g.words :: !F.StaleAt(g, y, now, k)
  }

  // A read on its way, old or new, can only be answered with what memory holds now.
  lemma ReadSettled(g: Geometry, y: F.Sys, now: WordMem, i: F.In, j: nat)
    requires Icache.Sized(g, y.s) && y.s.phase.Fill? && F.FillShaped(g, y) && Settled(g, y, now)
    requires forall a: nat :: At(i.mem, a) == At(now, a)
    requires j < |F.Queue(g, y, i)|
    ensures var o, snaps := F.Queue(g, y, i)[j], y.snaps + [i.mem];
            && o.addr == Icache.FillAddr(g, y.s.saved, y.s.rspCnt + j)
            && forall n | o.since <= n < |snaps| :: At(snaps[n], o.addr) == At(i.mem, o.addr)
  {
    hide Join, Split;
    if j < |y.queue| {
      assert !F.StaleAt(g, y, now, y.s.rspCnt + j);
    }
  }

  lemma SettledStep(g: Geometry, y: F.Sys, now: WordMem, i: F.In)
    requires Icache.Sized(g, y.s) && y.s.phase.Fill? && F.FillShaped(g, y) && F.Allowed(g, y, i) && Settled(g, y, now)
    requires forall a: nat :: At(i.mem, a) == At(now, a)
    ensures !F.CaughtStale(g, y, i) && Settled(g, F.Cycle(g, y, i), i.mem)
  {
    hide Icache.NextPlru, ReadSet, Join, Split, Icache.FillAddr;
    var z := F.Cycle(g, y, i);
    F.FillQueueStep(g, y, i);
    forall k | 0 <= k < g.words
      ensures !F.StaleAt(g, z, i.mem, k)
    {
      if k < y.s.rspCnt {
        assert !F.StaleAt(g, y, now, k);
      } else if k - y.s.rspCnt < |F.Queue(g, y, i)| {
        ReadSettled(g, y, now, i, k - y.s.rspCnt);
      }
    }
  }

  lemma NothingReadYet(g: Geometry, y: F.Sys, i: F.In)
    requires Icache.Sized(g, y.s) && !y.s.phase.Fill? && y.queue == []
    ensures !F.CaughtStale(g, y, i) && Settled(g, F.Cycle(g, y, i), i.mem)
  {
    hide Icache.NextPlru, Icache.NextLines, ReadSet, Join, Split, HitUpTo;
  }

  // ---- the invariant ----

  ghost predicate Sees(mem: Mem, code: WordMem) { forall a: nat :: At(code, a) == WordAt(mem, a) }

  // The one request the cache serves is the fetch in flight.
  predicate OneFetch(w: Wired, m: F.Marks) {
    && (FromCache(w) <==> !w.c.s.phase.Idle?)
    && (FromCache(w) ==> w.c.s.saved == w.asked.addr)
    && (FromCache(w) && !w.p.squash ==> m.promise == m.floor)
  }

  // From the cycle FENCE.I leaves ID on, memory is at rest and a fill agrees with it.
  ghost predicate FenceReady(g: Geometry, w: Wired)
    requires Icache.Sized(g, w.c.s)
  {
    Fencing(w.p) ==>
      var n := |w.c.snaps|;
      n > 0 && Sees(w.mem, w.c.snaps[n - 1]) && Settled(g, w.c, w.c.snaps[n - 1])
  }

  ghost predicate Inv(g: Geometry, w: Wired, m: F.Marks)
    requires Icache.Sized(g, w.c.s)
  {
    Spaced(w.p) && SerialAlone(w.p) && F.Sound(g, w.c, m) && OneFetch(w, m) && FenceReady(g, w)
  }

  // Marks under which every invalidate counts in full.
  function NextMarks(l: Leaf, g: Geometry, w: Wired, m: F.Marks, i: Wires): F.Marks
    requires Sane(g)
  {
    var kept := F.KeepFloor(g, w.c, m, CacheIn(l, w, i));
    if Pulse(w.p) then kept.(floor := |w.c.snaps|, oldest := |w.c.snaps|) else kept
  }

  lemma OneFetchStep(l: Leaf, g: Geometry, w: Wired, m: F.Marks, i: Wires)
    requires Icache.Sized(g, w.c.s) && Spaced(w.p) && OneFetch(w, m) && Allowed(l, g, w, i)
    ensures OneFetch(Cycle(l, g, w, i), NextMarks(l, g, w, m, i))
  {
    hide Icache.NextLines, Icache.NextPlru, ReadSet, HitUpTo, Split, Shows, F.Allowed, BranchRedirect, StallId, NextPc,
         NextId, NextEx, NextMem, NextWb, NextRegs;
  }

  lemma CodeIsSettled(l: Leaf, g: Geometry, w: Wired, m: F.Marks, i: Wires)
    requires Icache.Sized(g, w.c.s) && Inv(g, w, m) && Allowed(l, g, w, i) && QuietFence(l, w, i) && Fencing(w.p)
    ensures !F.CaughtStale(g, w.c, CacheIn(l, w, i)) && Settled(g, F.Cycle(g, w.c, CacheIn(l, w, i)), i.code)
  {
    hide Icache.Next, F.Allowed, F.CaughtStale, F.StaleAt, P.Bus;
    if w.c.s.phase.Fill? {
      SettledStep(g, w.c, w.c.snaps[|w.c.snaps| - 1], CacheIn(l, w, i));
    } else {
      NothingReadYet(g, w.c, CacheIn(l, w, i));
    }
  }

  lemma QuietMemory(l: Leaf, p: Pipe, mem: Mem, bus: seq<P.Access>, i: Pipeline.In)
    requires NoStores(P.Bus(l, p, bus, i))
    ensures P.MemoryAfter(l, p, mem, bus, i) == mem
  {
  }

  lemma FenceReadyStep(l: Leaf, g: Geometry, w: Wired, m: F.Marks, i: Wires)
    requires Icache.Sized(g, w.c.s) && Inv(g, w, m) && Allowed(l, g, w, i) && QuietFence(l, w, i)
    ensures FenceReady(g, Cycle(l, g, w, i))
  {
    hide Next, F.Sound, F.CaughtStale, F.StaleAt, Icache.NextLines, Icache.NextPlru, F.Allowed, P.Bus, P.MemoryAfter,
         P.BusAfter;
    var z := Cycle(l, g, w, i);
    if Fencing(z.p) {
      QuietMemory(l, w.p, w.mem, w.bus, i.core);
      if Fencing(w.p) { CodeIsSettled(l, g, w, m, i); } else { FenceLeavesId(l, w.p, i.core); }
    }
  }

  lemma InvStep(l: Leaf, g: Geometry, w: Wired, m: F.Marks, i: Wires)
    requires Icache.Sized(g, w.c.s) && Inv(g, w, m) && Allowed(l, g, w, i) && QuietFence(l, w, i)
    ensures Inv(g, Cycle(l, g, w, i), NextMarks(l, g, w, m, i))
  {
    hide Next, F.Sound, F.CaughtStale, Icache.Next, F.Allowed, Settled, Shows, Sees, P.Bus, P.MemoryAfter, P.BusAfter,
         QuietFence;
    SpacedStep(l, w.p, i.core);
    SerialAloneStep(l, w.p, i.core);
    OneFetchStep(l, g, w, m, i);
    FenceReadyStep(l, g, w, m, i);
    if Pulse(w.p) {
      CodeIsSettled(l, g, w, m, i);
      F.CleanPulse(g, w.c, m, CacheIn(l, w, i));
    } else {
      F.SoundStep(g, w.c, m, CacheIn(l, w, i));
    }
  }

  lemma {:induction false} RunInv(l: Leaf, g: Geometry, w: Wired, ins: seq<Wires>) returns (m: F.Marks)
    requires Boot(g, w) && AllowedRun(l, g, w, ins) && QuietFences(l, g, w, ins)
    ensures Inv(g, After(l, g, w, ins), m) && m.floor == LastFence(l, g, w, ins)
    ensures |After(l, g, w, ins).c.snaps| == |ins|
  {
    hide Inv, Allowed, Next, F.Cycle, QuietFence;
    if ins == [] {
      BootInv(g, w);
      m := F.START;
    } else {
      var before := ins[..|ins| - 1];
      m := RunInv(l, g, w, before);
      InvStep(l, g, After(l, g, w, before), m, ins[|ins| - 1]);
      m := NextMarks(l, g, After(l, g, w, before), m, ins[|ins| - 1]);
      SnapsGrow(l, g, After(l, g, w, before), ins[|ins| - 1]);
    }
  }

  lemma BootInv(g: Geometry, w: Wired)
    requires Boot(g, w)
    ensures Inv(g, w, F.START)
  {
    F.FreshIsSound(g, w.c);
  }

  lemma SnapsGrow(l: Leaf, g: Geometry, w: Wired, i: Wires)
    requires Icache.Sized(g, w.c.s)
    ensures Cycle(l, g, w, i).c.snaps == w.c.snaps + [i.code]
  {
  }

  // ---- the theorems ----

  // A word that comes from the cache to a fetch that is still wanted.
  predicate Delivers(w: Wired, i: Wires) { FromCache(w) && RspArriving(w.p, i.core) && !w.p.squash }

  // In any run in which no FENCE.I meets a store under way, whatever the latencies and wherever fills
  // stand when it retires: an instruction delivered from the cache has been in memory, at the address
  // asked for, in some cycle since the last FENCE.I retired.
  lemma FetchesFollowFence(l: Leaf, g: Geometry, w: Wired, ins: seq<Wires>, i: Wires)
    requires Boot(g, w) && AllowedRun(l, g, w, ins + [i]) && QuietFences(l, g, w, ins)
             && Delivers(After(l, g, w, ins), i)
    ensures var z := After(l, g, w, ins);
            exists k | LastFence(l, g, w, ins) <= k < |ins| :: At(ins[k].code, z.asked.addr) == i.core.fetchInsn.raw
  {
    hide Next, F.Sound, F.Allowed, Shows, P.Bus, QuietFence;
    assert (ins + [i])[..|ins|] == ins;
    var m := RunInv(l, g, w, ins);
    SnapsAreInputs(l, g, w, ins);
    var z := After(l, g, w, ins);
    DoneIsHeld(g, z.c, m);
    var k :| m.floor <= k < |z.c.snaps| && At(z.c.snaps[k], z.asked.addr) == i.core.fetchInsn.raw;
  }

  lemma DoneIsHeld(g: Geometry, y: F.Sys, m: F.Marks)
    requires Icache.Sized(g, y.s) && F.Sound(g, y, m) && y.s.phase.Done?
    ensures F.Held(y.snaps, m.promise, y.s.saved, Icache.Rdata(y.s))
  {
  }

  lemma {:induction false} SnapsAreInputs(l: Leaf, g: Geometry, w: Wired, ins: seq<Wires>)
    requires Icache.Sized(g, w.c.s) && w.c.snaps == []
    ensures var z := After(l, g, w, ins);
            |z.c.snaps| == |ins| && forall k | 0 <= k < |ins| :: z.c.snaps[k] == ins[k].code
  {
    hide Next, F.Cycle, Cycle;
    if ins != [] {
      var before := ins[..|ins| - 1];
      SnapsAreInputs(l, g, w, before);
      SnapsGrow(l, g, After(l, g, w, before), ins[|ins| - 1]);
    }
  }

  // So self-modifying code works: if the core's own stores left v in a word, and have not touched it
  // since the last FENCE.I retired, a fetch of it gets v.
  lemma StoredCodeIsFetched(l: Leaf, g: Geometry, w: Wired, ins: seq<Wires>, i: Wires, v: Word)
    requires Boot(g, w) && AllowedRun(l, g, w, ins + [i]) && QuietFences(l, g, w, ins)
             && Delivers(After(l, g, w, ins), i)
    requires var a := After(l, g, w, ins).asked.addr;
             forall k | LastFence(l, g, w, ins) <= k < |ins| ::
               var y := After(l, g, w, ins[..k]);
               WordAt(y.mem, a) == v && !Storing(BusIn(l, y, ins[k]), a)
    ensures i.core.fetchInsn.raw == v
  {
    hide After, Storing, WordAt, P.Bus;
    var a := After(l, g, w, ins).asked.addr;
    FetchesFollowFence(l, g, w, ins, i);
    var k :| LastFence(l, g, w, ins) <= k < |ins| && At(ins[k].code, a) == i.core.fetchInsn.raw;
    assert (ins + [i])[..|ins|] == ins;
    CodeShows(l, g, w, ins, k);
    assert WordAt(After(l, g, w, ins[..k]).mem, a) == v;
  }

  lemma {:induction false} CodeShows(l: Leaf, g: Geometry, w: Wired, ins: seq<Wires>, k: nat)
    requires Icache.Sized(g, w.c.s) && AllowedRun(l, g, w, ins) && k < |ins|
    ensures Shows(BusIn(l, After(l, g, w, ins[..k]), ins[k]), After(l, g, w, ins[..k]).mem, ins[k].code)
  {
    hide After, Shows;
    if k < |ins| - 1 {
      CodeShows(l, g, w, ins[..|ins| - 1], k);
      assert ins[..|ins| - 1][..k] == ins[..k];
    }
  }
}
