/**
 The walk-result register of the MMU and the requests served from it. It outlives the request it was
 walked for when that is withdrawn, carries no address space, and SFENCE does not clear it.
 */
module MmuReuse {
  import opened Rv32
  import opened Mmu

  // ---- where its contents come from ----

  // The register holds the outcome of translating its address in this address space and mode.
  predicate From(os: Os, x: Xlate, asid: nat, k: Mode) {
    Translate(os.pt, os.roots(asid), x.va, k) == if x.fault then PageFault else Pa(x.pa)
  }

  ghost predicate Backed(os: Os, x: Xlate) { x.valid ==> exists asid: nat, k: Mode :: From(os, x, asid, k) }

  lemma WalkedIsBacked(os: Os, y: Sys, i: In, side: Side)
    requires OnTrack(os, y.s.walk, y.asid) && Behaves(os, y, i) && ResultFor(y.s, i, side).Done?
    ensures var d := ResultFor(y.s, i, side);
            From(os, Xlate(true, d.fault, d.pa, y.s.walk.va), y.asid, ModeOf(y.s.walk, i.ctx))
  {
    WalkFinishes(os, y.s.walk, i.ctx, i.ptw, SideOf(y.s, side).x, y.asid);
  }

  lemma HitIsBacked(os: Os, y: Sys, i: In, side: Side)
    requires SysSound(os, y) && i.ctx.root == os.roots(i.ctx.asid) && Xlates(i.ctx, side) && HitOf(y.s, i, side).Hit?
    ensures var va, e := PortOf(i, side).addr, HitOf(y.s, i, side).e;
            && (TlbGo(y.s, i, side) ==> From(os, Xlate(true, false, TlbPa(e, va), va), i.ctx.asid, LiveMode(i, side)))
            && (TlbDeny(y.s, i, side) ==>
                  forall pa :: From(os, Xlate(true, true, pa, va), i.ctx.asid, LiveMode(i, side)))
  {
    hide Translate;
    HitIsFreshWalk(os, y, i, side);
  }

  // Walks and hits of one cycle are those of the tables; otherwise the register keeps its address.
  lemma BackedOrKept(os: Os, y: Sys, i: In, side: Side)
    requires GlobalsShared(os) && Shaped(y.s) && SysSound(os, y) && Behaves(os, y, i)
    ensures var t := NextXlate(y.s, i, side); !t.valid || t == SideOf(y.s, side).x || Backed(os, t)
  {
    hide GlobalsShared, SysSound, Translate, From, WalkResult, OnTrack, HonestPtw;
    var t := NextXlate(y.s, i, side);
    if ResultFor(y.s, i, side).Done? {
      assert OnTrack(os, y.s.walk, y.asid) by { SoundIsOnTrack(os, y); }
      WalkedIsBacked(os, y, i, side);
    }
    if TlbGo(y.s, i, side) || TlbDeny(y.s, i, side) { HitIsBacked(os, y, i, side); }
  }

  lemma SoundIsOnTrack(os: Os, y: Sys)
    requires SysSound(os, y)
    ensures OnTrack(os, y.s.walk, y.asid)
  {
  }

  // Backed by one of two sets of tables: those before and those after an edit.
  ghost predicate EitherBacked(before: Os, after: Os, x: Xlate) { Backed(before, x) || Backed(after, x) }

  ghost predicate BothSides(before: Os, after: Os, s: Mmu.Regs) {
    EitherBacked(before, after, s.fetch.x) && EitherBacked(before, after, s.dmem.x)
  }

  // The tables now in force are `now`; the register may still date from `was`.
  lemma {:induction false} RunBacked(was: Os, now: Os, y: Sys, ins: seq<In>)
    requires GlobalsShared(now) && Shaped(y.s) && SysSound(now, y) && BothSides(was, now, y.s)
             && WellBehaved(now, y, ins)
    ensures SysSound(now, SysRun(y, ins)) && BothSides(was, now, SysRun(y, ins).s)
  {
    hide GlobalsShared, SysSound, Behaves, Backed, Shaped, NextXlate, NextWalk, PmpKills, NextTlb;
    if ins != [] {
      var before, i := ins[..|ins| - 1], ins[|ins| - 1];
      RunBacked(was, now, y, before);
      var z := SysRun(y, before);
      SysSoundStep(now, z, i);
      StepBacked(was, now, z, i);
    }
  }

  lemma StepBacked(was: Os, now: Os, y: Sys, i: In)
    requires GlobalsShared(now) && Shaped(y.s) && SysSound(now, y) && Behaves(now, y, i) && BothSides(was, now, y.s)
    ensures BothSides(was, now, SysStep(y, i).s)
  {
    hide GlobalsShared, SysSound, Behaves, NextXlate, NextWalk, PmpKills, NextTlb;
    BackedOrKept(now, y, i, Fetch);
    BackedOrKept(now, y, i, Dmem);
  }

  // ---- when a reused result is right ----

  // The physical page of an address, of the 32 bits the bus has.
  function PhysPage(m: Mapping, va: Word): nat
    requires m.Mapped?
  {
    (m.pte.ppn1 * 0x400 + if m.level == 1 then Vpn0(va) else m.pte.ppn0) % 0x10_0000
  }

  // Cutting a page address to 32 bits leaves room for the offset.
  lemma WrapOffset(page: nat, offset: nat)
    requires offset < 0x1000
    ensures (page * 0x1000 + offset) % 0x1_0000_0000 == page % 0x10_0000 * 0x1000 + offset
  {
    assert page == page / 0x10_0000 * 0x10_0000 + page % 0x10_0000;
  }

  lemma LargeOffset(va: Word)
    ensures va % 0x40_0000 == Vpn0(va) * 0x1000 + va % 0x1000
  {
  }

  lemma PaIsPageAndOffset(m: Mapping, va: Word)
    requires m.Mapped?
    ensures PaOf(m, va) == PhysPage(m, va) * 0x1000 + va % 0x1000
  {
    WrapOffset(m.pte.ppn1 * 0x400 + if m.level == 1 then Vpn0(va) else m.pte.ppn0, va % 0x1000);
    LargeOffset(va);
  }

  // The tables `now` let this access through to the page the register was filled from, and the two
  // addresses have the same offset in it; or both are refused.
  predicate ReuseOk(was: Mapping, now: Mapping, x: Xlate, addr: Word, k: Mode)
    requires !x.fault ==> was.Mapped?
  {
    var allowed := now.Mapped? && PermOk(k.priv, k.side, k.store, FlagsOf(now.pte), k.sum, k.mxr);
    if x.fault then !allowed
    else allowed && PhysPage(now, addr) == PhysPage(was, x.va) && addr % 0x1000 == x.va % 0x1000
  }

  // A request that misses but finds the register valid for its page: whatever has become of the
  // tables, the address space, the privilege and the access since, this is when the bus sees what a
  // fresh walk would put on it.
  lemma ReusedExactlyIf(origin: Os, asid: nat, k: Mode, now: Os, s: Mmu.Regs, i: In, side: Side)
    requires var p, x := PortOf(i, side), SideOf(s, side).x;
             && Xlates(i.ctx, side) && p.valid && HitOf(s, i, side).Miss? && i.ctx.root == now.roots(i.ctx.asid)
             && x.valid && SamePage(x.va, p.addr) && From(origin, x, asid, k)
    ensures var p, x := PortOf(i, side), SideOf(s, side).x;
            && (!x.fault ==> MappingIn(origin, asid, x.va).Mapped?)
            && (RawDownstream(s, i, side)
                == SpecDownstream(Translate(now.pt, i.ctx.root, p.addr, LiveMode(i, side)), p, side)
                <==>
                ReuseOk(MappingIn(origin, asid, x.va), MappingIn(now, i.ctx.asid, p.addr), x, p.addr,
                        LiveMode(i, side)))
  {
    hide Lookup, TlbHit, PaOf, PhysPage;
    var p, x := PortOf(i, side), SideOf(s, side).x;
    var was, m := MappingIn(origin, asid, x.va), MappingIn(now, i.ctx.asid, p.addr);
    if was.Mapped? { PaIsPageAndOffset(was, x.va); }
    if m.Mapped? { PaIsPageAndOffset(m, p.addr); }
  }

  // Over every well-behaved run from reset, switches of address space included: a reused result was
  // walked in some address space and mode, and is right exactly when the page, the permission and the
  // offset agree.
  lemma ReuseOverRuns(os: Os, asid: nat, ins: seq<In>, i: In, side: Side) returns (origin: nat, k: Mode)
    requires GlobalsShared(os) && WellBehaved(os, Sys(RESET, asid), ins) && i.ctx.root == os.roots(i.ctx.asid)
    requires var s, p := SysRun(Sys(RESET, asid), ins).s, PortOf(i, side);
             && Xlates(i.ctx, side) && p.valid && HitOf(s, i, side).Miss?
             && SideOf(s, side).x.valid && SamePage(SideOf(s, side).x.va, p.addr)
    ensures var s, p := SysRun(Sys(RESET, asid), ins).s, PortOf(i, side);
            var x := SideOf(s, side).x;
            && From(os, x, origin, k)
            && (!x.fault ==> MappingIn(os, origin, x.va).Mapped?)
            && (RawDownstream(s, i, side)
                == SpecDownstream(Translate(os.pt, i.ctx.root, p.addr, LiveMode(i, side)), p, side)
                <==>
                ReuseOk(MappingIn(os, origin, x.va), MappingIn(os, i.ctx.asid, p.addr), x, p.addr, LiveMode(i, side)))
  {
    hide From, Translate, MappingIn, ReuseOk, RawDownstream, HitOf, GlobalsShared, WellBehaved, SysSound;
    ResetSound(os, asid);
    RunBacked(os, os, Sys(RESET, asid), ins);
    var s := SysRun(Sys(RESET, asid), ins).s;
    assert Backed(os, SideOf(s, side).x);
    origin, k :| From(os, SideOf(s, side).x, origin, k);
    ReusedExactlyIf(os, origin, k, os, s, i, side);
  }

  // And across an edit followed by the fence that covers it: the register may still hold what the old
  // tables said, and the same condition decides.
  lemma ReuseAcrossFence(before: Os, after: Os, start: nat, first: seq<In>, edited: nat, v: Word, fence: In,
                         ins: seq<In>, i: In, side: Side) returns (origin: Os, asid: nat, k: Mode)
    requires GlobalsShared(before) && WellBehaved(before, Sys(RESET, start), first + [fence])
    requires SysRun(Sys(RESET, start), first).s.walk.phase.Idle?
    requires LeafEdit(before, after, edited, v) && Covers(fence.fence, edited, v) && GlobalsShared(after)
    requires WellBehaved(after, SysRun(Sys(RESET, start), first + [fence]), ins)
             && i.ctx.root == after.roots(i.ctx.asid)
    requires var s, p := SysRun(SysRun(Sys(RESET, start), first + [fence]), ins).s, PortOf(i, side);
             && Xlates(i.ctx, side) && p.valid && HitOf(s, i, side).Miss?
             && SideOf(s, side).x.valid && SamePage(SideOf(s, side).x.va, p.addr)
    ensures origin == before || origin == after
    ensures var s, p := SysRun(SysRun(Sys(RESET, start), first + [fence]), ins).s, PortOf(i, side);
            var x := SideOf(s, side).x;
            && From(origin, x, asid, k)
            && (!x.fault ==> MappingIn(origin, asid, x.va).Mapped?)
            && (RawDownstream(s, i, side)
                == SpecDownstream(Translate(after.pt, i.ctx.root, p.addr, LiveMode(i, side)), p, side)
                <==>
                ReuseOk(MappingIn(origin, asid, x.va), MappingIn(after, i.ctx.asid, p.addr), x, p.addr,
                        LiveMode(i, side)))
  {
    hide From, Translate, MappingIn, ReuseOk, RawDownstream, HitOf, GlobalsShared, WellBehaved, SysSound, LeafEdit,
         Covers, Next;
    var fenced := first + [fence];
    assert fenced[..|fenced| - 1] == first;
    ResetSound(before, start);
    RunBacked(before, before, Sys(RESET, start), fenced);
    SoundBeforeFence(before, start, first, fence);
    SoundBeforeEdit(before, after, SysRun(Sys(RESET, start), first));
    FenceRestoresSoundness(before, after, edited, v, SysRun(Sys(RESET, start), first), fence);
    var y := SysRun(Sys(RESET, start), fenced);
    RunBacked(before, after, y, ins);
    var s := SysRun(y, ins).s;
    var x := SideOf(s, side).x;
    assert EitherBacked(before, after, x);
    if Backed(before, x) { origin := before; } else { origin := after; }
    asid, k :| From(origin, x, asid, k);
    ReusedExactlyIf(origin, asid, k, after, s, i, side);
  }

  lemma SoundBeforeFence(os: Os, start: nat, first: seq<In>, fence: In)
    requires GlobalsShared(os) && WellBehaved(os, Sys(RESET, start), first + [fence])
    ensures SysSound(os, SysRun(Sys(RESET, start), first))
  {
    assert (first + [fence])[..|first|] == first;
    ResetSound(os, start);
    SysAlwaysSound(os, Sys(RESET, start), first);
  }

  // SFENCE leaves the register alone.
  lemma FenceSparesWalkResult(s: Mmu.Regs, i: In, f: Fence, side: Side)
    requires Shaped(s)
    ensures SideOf(Next(s, i.(fence := f)), side).x == SideOf(Next(s, i), side).x
  {
    hide NextTlb, PmpKills;
    assert HitOf(s, i.(fence := f), side) == HitOf(s, i, side);
  }

  // ---- it goes wrong in reachable states ----

  // One executable 4 MiB page per address space: the tables at root 0 map it to 0, those at
  // root 1 to 4 MiB.
  const TWO_SPACES := Os(a => Data(if a < 0x1000 then 203 else 0x10_0000 + 203), asid => asid)

  function Context(asid: nat): Ctx { Ctx(true, asid, asid, SUPERVISOR, false, 0, false, false) }

  const NO_REQUEST := Port(false, 0, false, false, false, false)

  function Ask(addr: Word): Port { Port(true, addr, false, false, false, false) }

  function Cycle(fetch: Port, ptw: Ptw): In { In(Context(0), NoFence, fetch, NO_REQUEST, ptw, []) }

  // A fetch of 0x1000 is walked for and withdrawn as its walk ends; then everything is fenced.
  const ABANDONED: seq<In> := [
    Cycle(Ask(0x1000), Ptw(false, false, BusFault)),
    Cycle(Ask(0x1000), Ptw(true, false, BusFault)),
    Cycle(NO_REQUEST, Ptw(false, true, Data(203))),
    Cycle(NO_REQUEST, Ptw(false, false, BusFault)).(fence := Mmu.Fence.Fence(false, 0, false, 0))]

  lemma LeafWords()
    ensures DecodePte(203) == Pte(true, true, false, true, false, false, true, true, 0, 0)
    ensures DecodePte(0x10_0000 + 203) == Pte(true, true, false, true, false, false, true, true, 0, 1)
  {
  }

  // Every walk ends at the root table, on one of the two leaves.
  lemma WalkEndsAtRoot(asid: nat, va: Word)
    ensures var m := MappingIn(TWO_SPACES, asid, va);
            m == Mapped(DecodePte(if EntryAddr(asid, Vpn1(va)) < 0x1000 then 203 else 0x10_0000 + 203), 1)
  {
    hide DecodePte;
    LeafWords();
  }

  lemma TwoSpacesMap(asid: nat, va: Word)
    requires Vpn1(va) == 0 && asid <= 1
    ensures MappingIn(TWO_SPACES, asid, va)
            == Mapped(Pte(true, true, false, true, false, false, true, true, 0, asid), 1)
  {
    hide DecodePte, Lookup;
    LeafWords();
    WalkEndsAtRoot(asid, va);
  }

  lemma NoGlobals()
    ensures GlobalsShared(TWO_SPACES)
  {
    hide DecodePte, Lookup;
    LeafWords();
    forall a: nat, b: nat, va: Word
      ensures GlobalIn(TWO_SPACES, a, va) ==> MappingIn(TWO_SPACES, b, va) == MappingIn(TWO_SPACES, a, va)
    {
      WalkEndsAtRoot(a, va);
    }
  }

  lemma StepOn(os: Os, y: Sys, ins: seq<In>, i: In)
    requires Shaped(y.s)
    ensures SysRun(y, ins + [i]) == SysStep(SysRun(y, ins), i)
    ensures WellBehaved(os, y, ins + [i]) <==> WellBehaved(os, y, ins) && Behaves(os, SysRun(y, ins), i)
  {
    assert (ins + [i])[..|ins|] == ins;
  }

  lemma {:induction false} EmptyMisses(tlb: seq<Entry>, va: Word, asid: nat)
    requires forall k | 0 <= k < |tlb| :: !tlb[k].valid
    ensures TlbHit(tlb, va, asid).Miss?
  {
    if tlb != [] { EmptyMisses(tlb[..|tlb| - 1], va, asid); }
  }

  lemma WalkLaunched()
    ensures var y := SysStep(Sys(RESET, 0), ABANDONED[0]);
            && y.asid == 0 && y.s.walk == Walk(L1Req, Fetch, false, SUPERVISOR, 0x1000, 0, 0)
  {
    hide PmpKills, TlbHit;
    EmptyMisses(RESET.fetch.tlb, 0x1000, 0);
  }

  lemma WalkGranted(y: Sys)
    requires Shaped(y.s) && y.asid == 0 && y.s.walk == Walk(L1Req, Fetch, false, SUPERVISOR, 0x1000, 0, 0)
    ensures var w := SysStep(y, ABANDONED[1]);
            && w.asid == 0 && w.s.walk == y.s.walk.(phase := L1Wait)
            && Behaves(TWO_SPACES, y, ABANDONED[1])
  {
    hide PmpKills, NextTlb;
  }

  lemma WalkAnswered(w: Sys)
    requires Shaped(w.s) && w.asid == 0 && w.s.walk == Walk(L1Wait, Fetch, false, SUPERVISOR, 0x1000, 0, 0)
    ensures var z := SysStep(w, ABANDONED[2]);
            && z.s.walk.phase.Idle? && z.s.fetch.x == Xlate(true, false, 0x1000, 0x1000)
            && Behaves(TWO_SPACES, w, ABANDONED[2]) && Behaves(TWO_SPACES, z, ABANDONED[3])
  {
    hide PmpKills, NextTlb, TlbHit, DecodePte, FillOf;
    LeafWords();
  }

  lemma FencedAway(z: Sys)
    requires Shaped(z.s) && z.s.walk.phase.Idle? && z.s.fetch.x == Xlate(true, false, 0x1000, 0x1000)
    ensures var s := SysStep(z, ABANDONED[3]).s;
            s.fetch.x == z.s.fetch.x && forall k | 0 <= k < TLB_N :: !s.fetch.tlb[k].valid
  {
    hide PmpKills;
  }

  // The withdrawn fetch's result survives the fence that empties both TLBs.
  lemma ResultSurvivesFence()
    ensures GlobalsShared(TWO_SPACES) && WellBehaved(TWO_SPACES, Sys(RESET, 0), ABANDONED)
    ensures var s := SysRun(Sys(RESET, 0), ABANDONED).s;
            s.fetch.x == Xlate(true, false, 0x1000, 0x1000) && forall k | 0 <= k < TLB_N :: !s.fetch.tlb[k].valid
  {
    hide SysStep, Behaves;
    var y, ins := Sys(RESET, 0), ABANDONED;
    NoGlobals();
    assert ins[..1] == [] + [ins[0]] && ins[..2] == ins[..1] + [ins[1]] && ins[..3] == ins[..2] + [ins[2]];
    assert ins == ins[..3] + [ins[3]];
    StepOn(TWO_SPACES, y, [], ins[0]);
    StepOn(TWO_SPACES, y, ins[..1], ins[1]);
    StepOn(TWO_SPACES, y, ins[..2], ins[2]);
    StepOn(TWO_SPACES, y, ins[..3], ins[3]);
    FirstBehaves();
    WalkLaunched();
    WalkGranted(SysRun(y, ins[..1]));
    WalkAnswered(SysRun(y, ins[..2]));
    FencedAway(SysRun(y, ins[..3]));
  }

  lemma FirstBehaves()
    ensures Behaves(TWO_SPACES, Sys(RESET, 0), ABANDONED[0])
  {
  }

  // What the bus sees, and what it should see, of a fetch at `addr` in address space `asid` next.
  lemma AfterAbandoned(asid: nat, addr: Word)
    requires asid <= 1 && 0x1000 <= addr < 0x2000
    ensures var s := SysRun(Sys(RESET, 0), ABANDONED).s;
            var i := Cycle(Ask(addr), Ptw(false, false, BusFault)).(ctx := Context(asid));
            && RawDownstream(s, i, Side.Fetch) == Request(0x1000, false)
            && SpecDownstream(Translate(TWO_SPACES.pt, asid, addr, LiveMode(i, Side.Fetch)), i.fetch, Side.Fetch)
               == Request(asid * 0x40_0000 + addr, false)
  {
    hide SysRun, TlbHit, Lookup;
    ResultSurvivesFence();
    var s := SysRun(Sys(RESET, 0), ABANDONED).s;
    EmptyMisses(s.fetch.tlb, addr, asid);
    TwoSpacesMap(asid, addr);
  }

  // From reset, with constant tables: a withdrawn fetch, a fence of everything, and the next fetch in
  // the page is sent to the withdrawn one's address, whether it asks for another word or for the same
  // word in another address space.
  lemma ReuseGoesWrong()
    ensures GlobalsShared(TWO_SPACES) && WellBehaved(TWO_SPACES, Sys(RESET, 0), ABANDONED)
    ensures var s, i := SysRun(Sys(RESET, 0), ABANDONED).s, Cycle(Ask(0x1004), Ptw(false, false, BusFault));
            && RawDownstream(s, i, Side.Fetch) == Request(0x1000, false)
            && SpecDownstream(Translate(TWO_SPACES.pt, 0, 0x1004, LiveMode(i, Side.Fetch)), i.fetch, Side.Fetch)
               == Request(0x1004, false)
    ensures var s := SysRun(Sys(RESET, 0), ABANDONED).s;
            var i := Cycle(Ask(0x1000), Ptw(false, false, BusFault)).(ctx := Context(1));
            && RawDownstream(s, i, Side.Fetch) == Request(0x1000, false)
            && SpecDownstream(Translate(TWO_SPACES.pt, 1, 0x1000, LiveMode(i, Side.Fetch)), i.fetch, Side.Fetch)
               == Request(0x40_1000, false)
  {
    hide RawDownstream, SpecDownstream, Translate, SysRun;
    ResultSurvivesFence();
    AfterAbandoned(0, 0x1004);
    AfterAbandoned(1, 0x1000);
  }
}