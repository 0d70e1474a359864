/**
 What the MMU lets through, read off the words of the page tables (sections 4.3.1 and 4.3.2 of the
 Privileged Specification) and off the inputs, without the decoded entries and flags of the model.
 */
module Sv32 {
  import opened Rv32
  import opened Mmu
  import Pmp

  const MODULUS := 0x1_0000_0000

  // ---- page table words ----

  // The flags of a page table entry, bits 0 to 7.
  const V := 1
  const R := 2
  const W := 4
  const X := 8
  const U := 16
  const G := 32
  const A := 64
  const D := 128

  predicate Has(w: Word, flag: nat)
    requires flag > 0
  {
    w / flag % 2 == 1
  }

  // A valid entry that is not of the reserved form.
  predicate Formed(w: Word) { Has(w, V) && (Has(w, W) ==> Has(w, R)) }

  predicate Points(w: Word) { !Has(w, R) && !Has(w, X) }

  datatype Page = NoPage | Page(w: Word, large: bool)

  // The entry that maps va: in the root table if it is no pointer, and then aligned, or else in the table
  // it points to.
  function LeafOf(pt: PageTables, root: nat, va: Word): Page {
    match pt((root * 0x1000 + va / 0x40_0000 * 4) % MODULUS)
    case BusFault => NoPage
    case Data(top) =>
      if !Formed(top) then NoPage
      else if !Points(top) then (if top / 0x400 % 0x400 == 0 then Page(top, true) else NoPage)
      else
        match pt((top / 0x400 * 0x1000 + va / 0x1000 % 0x400 * 4) % MODULUS)
        case BusFault => NoPage
        case Data(w) => if Formed(w) && !Points(w) then Page(w, false) else NoPage
  }

  // The physical address: bits 31 to 10 of the entry over the offset in the page, cut to 32 bits.
  function AddressIn(leaf: Page, va: Word): Word
    requires leaf.Page?
  {
    (leaf.w / 0x400 * 0x1000 + if leaf.large then va % 0x40_0000 else va % 0x1000) % MODULUS
  }

  // What the entry must say for an access.
  predicate Grants(w: Word, k: Mode) {
    && Has(w, A)
    && (k.side.Fetch? ==> Has(w, X))
    && (k.side.Dmem? && k.store ==> Has(w, R) && Has(w, W) && Has(w, D))
    && (k.side.Dmem? && !k.store ==> Has(w, R) || (k.mxr && Has(w, X)))
    && (k.priv == 0 ==> Has(w, U))
    && (k.priv == 1 && Has(w, U) ==> k.side.Dmem? && k.sum)
  }

  lemma NumberOfPage(w: Word)
    ensures w / 0x10_0000 * 0x400 + w / 0x400 % 0x400 == w / 0x400
  {
    assert w / 0x400 / 0x400 == w / 0x10_0000;
  }

  lemma FlagsAre(w: Word)
    ensures var p := DecodePte(w);
            && IsBad(p) == !Formed(w) && IsLeaf(p) == !Points(w)
            && p.ppn0 == w / 0x400 % 0x400 && p.ppn1 * 0x400 + p.ppn0 == w / 0x400
  {
    NumberOfPage(w);
  }

  lemma LeafIs(pt: PageTables, root: nat, va: Word)
    ensures var m, leaf := Mmu.Lookup(pt, root, va, 1), LeafOf(pt, root, va);
            && m.Mapped? == leaf.Page?
            && (leaf.Page? ==> m == Mapped(DecodePte(leaf.w), if leaf.large then 1 else 0)
                               && (leaf.large ==> leaf.w / 0x400 % 0x400 == 0))
  {
    hide DecodePte, Formed, Points, IsBad, IsLeaf;
    var top := pt(EntryAddr(root, VpnAt(va, 1)));
    if top.Data? {
      var p := DecodePte(top.w);
      FlagsAre(top.w);
      if !IsBad(p) && !IsLeaf(p) {
        var low := pt(EntryAddr(p.ppn1 * 1024 + p.ppn0, VpnAt(va, 0)));
        if low.Data? { FlagsAre(low.w); }
      }
    }
  }

  lemma GrantsIs(w: Word, k: Mode)
    requires k.side.Fetch? ==> !k.store
    ensures PermOk(k.priv, k.side, k.store, FlagsOf(DecodePte(w)), k.sum, k.mxr) <==> Grants(w, k)
  {
  }

  // A translation is the address the leaf gives if the leaf grants the access, and a fault otherwise.
  lemma TranslateIs(pt: PageTables, root: nat, va: Word, k: Mode)
    requires k.side.Fetch? ==> !k.store
    ensures var leaf := LeafOf(pt, root, va);
            Translate(pt, root, va, k)
            == if leaf.Page? && Grants(leaf.w, k) then Pa(AddressIn(leaf, va)) else PageFault
  {
    hide PermOk, Grants, LeafOf, Mmu.Lookup;
    LeafIs(pt, root, va);
    var leaf := LeafOf(pt, root, va);
    if leaf.Page? {
      GrantsIs(leaf.w, k);
      NumberOfPage(leaf.w);
    }
  }

  // What an edit of one leaf may change: the 4 MiB or 4 KiB it maps.
  lemma LeafRegion(os: Os, asid: nat, v: Word, va: Word)
    ensures InLeaf(os, asid, v, va) <==>
              var leaf := LeafOf(os.pt, os.roots(asid), v);
              if leaf.Page? && leaf.large then va / 0x40_0000 == v / 0x40_0000 else va / 0x1000 == v / 0x1000
  {
    hide DecodePte, LeafOf, Mmu.Lookup;
    LeafIs(os.pt, os.roots(asid), v);
    PageOfVpns(va, v);
  }

  lemma PageOfVpns(a: Word, b: Word)
    ensures a / 0x1000 == b / 0x1000 <==> a / 0x40_0000 == b / 0x40_0000 && a / 0x1000 % 0x400 == b / 0x1000 % 0x400
  {
    assert a / 0x1000 / 0x400 == a / 0x40_0000;
    assert b / 0x1000 / 0x400 == b / 0x40_0000;
  }

  // ---- requests ----

  function Asks(i: In, side: Side): Port { if side.Fetch? then i.fetch else i.dmem }

  function Held(s: Mmu.Regs, side: Side): SideRegs { if side.Fetch? then s.fetch else s.dmem }

  // Loads and stores in M-mode take the privilege in MPP while MPRV is set.
  function Privilege(c: Ctx, side: Side): nat { if side.Dmem? && c.priv == 3 && c.mprv then c.mpp else c.priv }

  function ModeIn(i: In, side: Side): Mode {
    Mode(Privilege(i.ctx, side), side, side.Dmem? && i.dmem.wen, i.ctx.sum, i.ctx.mxr)
  }

  // A TLB entry for the page of va.
  predicate Caches(e: Entry, va: Word, asid: nat) {
    && e.valid && (e.g || e.asid == asid) && e.vpn1 == va / 0x40_0000
    && (e.large || e.vpn0 == va / 0x1000 % 0x400)
  }

  // What the bus may see of a request: the address the page tables give, if they grant the access.
  function Admitted(pt: PageTables, root: nat, i: In, side: Side): Downstream {
    var p, leaf := Asks(i, side), LeafOf(pt, root, Asks(i, side).addr);
    if p.valid && leaf.Page? && Grants(leaf.w, ModeIn(i, side))
    then Request(AddressIn(leaf, p.addr), side.Dmem? && p.wen)
    else Quiet
  }

  lemma AdmittedIs(pt: PageTables, root: nat, i: In, side: Side)
    ensures SpecDownstream(Translate(pt, root, PortOf(i, side).addr, LiveMode(i, side)), PortOf(i, side), side)
            == Admitted(pt, root, i, side)
  {
    TranslateIs(pt, root, PortOf(i, side).addr, LiveMode(i, side));
  }

  // Over every well-behaved run from reset: a request that is not translated goes to the bus with its
  // own address; one that finds an entry for its page goes there with the address the page tables give,
  // exactly if their words grant it.
  lemma RequestsObeyTables(os: Os, asid: nat, ins: seq<In>, i: In, side: Side)
    requires GlobalsShared(os) && WellBehaved(os, Sys(RESET, asid), ins) && i.ctx.root == os.roots(i.ctx.asid)
    ensures var s, p := SysRun(Sys(RESET, asid), ins).s, Asks(i, side);
            var tlb := Held(s, side).tlb;
            var out := RawDownstream(s, i, side);
            if !i.ctx.on || Privilege(i.ctx, side) == 3 then
              out == if p.valid then Request(p.addr, side.Dmem? && p.wen) else Quiet
            else
              (exists k | 0 <= k < |tlb| :: Caches(tlb[k], p.addr, i.ctx.asid)) ==>
                out == Admitted(os.pt, i.ctx.root, i, side)
  {
    hide NextSide, NextWalk, Resolve, Mmu.Lookup, LeafOf, Grants, GlobalsShared;
    var s := SysRun(Sys(RESET, asid), ins).s;
    if Xlates(i.ctx, side) && HitOf(s, i, side).Hit? {
      TlbHitsAreFreshWalks(os, asid, ins, i, side);
      AdmittedIs(os.pt, i.ctx.root, i, side);
    }
    HitMatches(SideOf(s, side).tlb, PortOf(i, side).addr, i.ctx.asid);
  }

  // And one that misses, once its walk has ended.
  lemma WalkedRequestsObeyTables(os: Os, y: Sys, i: In, j: In, side: Side)
    requires GlobalsShared(os) && Shaped(y.s) && SysSound(os, y) && Behaves(os, y, i)
    requires ResultFor(y.s, i, side).Done? && NeedsWalk(y.s, i, side) && Asks(i, side).addr == y.s.walk.va
    requires j.ctx == i.ctx && Asks(j, side).valid && Asks(j, side).addr == y.s.walk.va
    requires ModeIn(j, side) == Mode(y.s.walk.priv, y.s.walk.side, y.s.walk.store, i.ctx.sum, i.ctx.mxr)
    ensures RawDownstream(Next(y.s, i), j, side) == Admitted(os.pt, j.ctx.root, j, side)
  {
    hide Next, NeedsWalk, SysSound, GlobalsShared, Behaves, ResultFor, Translate, LeafOf, Grants, RawDownstream;
    MissIsServed(os, y, i, j, side);
    AdmittedIs(os.pt, j.ctx.root, j, side);
  }

  // ---- the gate ----

  // The PMP is asked about exactly the access on the bus, and stops it exactly if it faults, or while an
  // earlier fault is still to be answered.
  lemma GateIsExact(s: Mmu.Regs, i: In, side: Side)
    ensures var raw, out := RawDownstream(s, i, side), DownstreamOf(s, i, side);
            var kind := if side.Fetch? then Pmp.Exec else if i.dmem.wen then Pmp.Write else Pmp.Read;
            out == if raw.Request? && !Held(s, side).pmpPending
                      && !Pmp.Faults(i.pmp, Privilege(i.ctx, side), raw.addr, kind)
                   then raw else Quiet
  {
  }

  // ---- launch and fill ----

  // A request has to be translated, and neither an entry nor the last walk's result is for its page.
  predicate Waits(s: Mmu.Regs, i: In, side: Side) {
    var p, r := Asks(i, side), Held(s, side);
    && p.valid && i.ctx.on && Privilege(i.ctx, side) != 3
    && (forall k | 0 <= k < |r.tlb| :: !Caches(r.tlb[k], p.addr, i.ctx.asid))
    && !(r.x.valid && r.x.va / 0x1000 == p.addr / 0x1000)
  }

  lemma WaitsIs(s: Mmu.Regs, i: In, side: Side)
    ensures Waits(s, i, side) <==> NeedsWalk(s, i, side)
  {
    var tlb, p := SideOf(s, side).tlb, PortOf(i, side);
    HitMatches(tlb, p.addr, i.ctx.asid);
    forall k | 0 <= k < |tlb|
      ensures TlbMatch(tlb[k], p.addr, i.ctx.asid) == Caches(tlb[k], p.addr, i.ctx.asid)
    {
    }
  }

  // An idle walker takes up a waiting request, a fetch before a data access, for that request's address
  // and mode.
  lemma WalkIsForRequest(s: Mmu.Regs, i: In)
    requires s.walk.phase.Idle?
    ensures var w := NextWalk(s, i);
            if !Waits(s, i, Fetch) && !Waits(s, i, Dmem) then w == s.walk
            else
              var side := if Waits(s, i, Fetch) then Fetch else Dmem;
              && w.phase.L1Req? && w.va == Asks(i, side).addr
              && Mode(w.priv, w.side, w.store, i.ctx.sum, i.ctx.mxr) == ModeIn(i, side)
  {
    hide NeedsWalk, Waits;
    WaitsIs(s, i, Fetch);
    WaitsIs(s, i, Dmem);
  }

  // A walk that finds a page leaves an entry that every later request to the page finds: any address in
  // the 4 MiB or 4 KiB it maps, in the same address space, or in any if the page is global.
  lemma WalksAreCached(os: Os, y: Sys, i: In, va: Word, asid: nat)
    requires Shaped(y.s) && OnTrack(os, y.s.walk, y.asid) && Behaves(os, y, i) && i.fence.NoFence?
    requires ResultFor(y.s, i, y.s.walk.side).Done?
    requires var leaf := LeafOf(os.pt, i.ctx.root, y.s.walk.va);
             && leaf.Page? && (asid == i.ctx.asid || Has(leaf.w, G))
             && (if leaf.large then va / 0x40_0000 == y.s.walk.va / 0x40_0000
                 else va / 0x1000 == y.s.walk.va / 0x1000)
    ensures TlbHit(Held(Next(y.s, i), y.s.walk.side).tlb, va, asid).Hit?
  {
    var w, side := y.s.walk, y.s.walk.side;
    var r := SideOf(y.s, side);
    LeafIs(os.pt, i.ctx.root, w.va);
    WalkFinishes(os, w, i.ctx, i.ptw, r.x, y.asid);
    var t := NextSide(y.s, i, side).tlb;
    HitMatches(t, va, asid);
    PageOfVpns(va, w.va);
    assert TlbMatch(t[r.repl], va, asid);
  }

  // The result of a walk is kept until an answer is taken: the memory's, or a fault; and it goes with
  // the answer to the request it served.
  lemma ResultIsKept(s: Mmu.Regs, i: In, side: Side)
    requires Shaped(s) && Held(s, side).x.valid
    ensures var p, x, out := Asks(i, side), Held(s, side).x, RawDownstream(s, i, side);
            var t := Held(Next(s, i), side).x;
            && (!t.valid ==> p.rspReady && (p.dsRspValid || x.fault || (p.valid && out.Quiet?)))
            && (p.valid && i.ctx.on && Privilege(i.ctx, side) != 3 && x.va / 0x1000 == p.addr / 0x1000 && p.rspReady
                && (if x.fault then out.Quiet? else p.dsRspValid && out == Request(x.pa, side.Dmem? && p.wen)) ==>
                  !t.valid)
  {
    hide TlbHit, PermOk, NextTlb, WalkResult;
  }

  // The PMP forbids the request this address.
  predicate Stops(i: In, side: Side, pa: Word) {
    Pmp.Faults(i.pmp, Privilege(i.ctx, side), pa,
               if side.Fetch? then Pmp.Exec else if i.dmem.wen then Pmp.Write else Pmp.Read)
  }

  // A PMP fault is held until it is taken, and raised for nothing but the request's own address: the one
  // it goes to, or would go to by the walk result for its page.
  lemma FaultIsHeld(s: Mmu.Regs, i: In, side: Side)
    requires Shaped(s)
    ensures var p, x, raw := Asks(i, side), Held(s, side).x, RawDownstream(s, i, side);
            var was, now := Held(s, side).pmpPending, Held(Next(s, i), side).pmpPending;
            && (now ==> !p.rspReady)
            && (!p.rspReady && (was || (raw.Request? && Stops(i, side, raw.addr))) ==> now)
            && (now && !was ==>
                  p.valid && ((raw.Request? && Stops(i, side, raw.addr))
                              || (x.valid && !x.fault && x.va / 0x1000 == p.addr / 0x1000 && Stops(i, side, x.pa))))
  {
    hide TlbHit, PermOk, NextTlb, WalkResult, Pmp.Faults;
  }
}
