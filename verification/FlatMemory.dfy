/**
 The memory behind the AXI path as software sees it: an address reads as what was last stored to it,
 byte by byte. Addresses are numbers; the decoder's windows and the memory's indexing are not named.
 */
module FlatMemory {
  import opened Rv32
  import opened AxiMaster
  import Arithmetic
  import AxiBram
  import AxiPath
  import AxiRouter
  import Arbiter

  // The window of the memory, and that of the second slave.
  predicate InMemory(a: Word) { 0x4000_0000 <= a < 0x5000_0000 }

  predicate InUart(a: Word) { 0xC000_0000 <= a < 0xD000_0000 }

  // A memory of n words repeats itself through its window.
  predicate Alias(a: Word, b: Word, n: nat)
    requires n > 0
  {
    a / 4 % n == b / 4 % n
  }

  // One that fills the window does not.
  lemma NoAlias(a: Word, b: Word, n: nat)
    requires InMemory(a) && InMemory(b) && n >= 0x400_0000
    ensures Alias(a, b, n) <==> a / 4 == b / 4
  {
    var x, y := a / 4, b / 4;
    var q := x / n - y / n;
    assert x - y == q * n + (x % n - y % n) by {
      assert x == n * (x / n) + x % n && y == n * (y / n) + y % n;
    }
    if q != 0 { Arithmetic.MultipleGap(q, n); }
  }

  // A store touches only the words its address stands for.
  lemma StoreIsLocal(mem: seq<Word>, a: Word, data: Word, strb: Mask, b: Word)
    requires |mem| > 0
    ensures AxiBram.Stored(mem, a, data, strb)[b / 4 % |mem|]
            == if Alias(a, b, |mem|) then Merge(mem[b / 4 % |mem|], data, strb) else mem[b / 4 % |mem|]
  {
  }

  // The word at an address after these events: each store to it so far, over what was there at first.
  function WordAt(mem: seq<Word>, events: seq<AxiPath.Event>, a: Word): Word
    requires |mem| > 0
  {
    if events == [] then mem[a / 4 % |mem|]
    else
      var was, e := WordAt(mem, events[..|events| - 1], a), events[|events| - 1];
      if e.Asked? && e.req.wen && InMemory(e.req.addr) && Alias(e.req.addr, a, |mem|)
      then Merge(was, e.req.wdata, e.req.wmask) else was
  }

  // The atomic memory holds those words, once the request on its way has taken effect.
  lemma {:induction false} ReplayHolds(mem: seq<Word>, events: seq<AxiPath.Event>, a: Word)
    requires |mem| > 0 && AxiPath.Replay(mem, events).legal
    ensures var t := AxiPath.Replay(mem, events);
            && (t.pending.Ask? <==> events != [] && events[|events| - 1].Asked?)
            && (t.pending.Ask? ==> t.pending.req == events[|events| - 1].req)
            && WordAt(mem, events, a)
               == (if t.pending.Ask? then AxiPath.Perform(t.mem, t.pending.req) else t.mem)[a / 4 % |mem|]
  {
    if events != [] {
      var before, e := events[..|events| - 1], events[|events| - 1];
      ReplayHolds(mem, before, a);
      var t := AxiPath.Replay(mem, before);
      if e.Asked? { StoreIsLocal(t.mem, e.req.addr, e.req.wdata, e.req.wmask, a); }
    }
  }

  lemma {:induction false} LegalPrefix(mem: seq<Word>, events: seq<AxiPath.Event>, k: nat)
    requires |mem| > 0 && AxiPath.Replay(mem, events).legal && k <= |events|
    ensures AxiPath.Replay(mem, events[..k]).legal
  {
    if k < |events| {
      LegalPrefix(mem, events[..|events| - 1], k);
      assert events[..|events| - 1][..k] == events[..k];
    } else {
      assert events[..k] == events;
    }
  }

  // The right answer to the request before it.
  predicate Rightly(mem: seq<Word>, events: seq<AxiPath.Event>, k: nat)
    requires |mem| > 0 && k < |events| && events[k].Answered?
  {
    && k > 0 && events[k - 1].Asked?
    && var r, rsp := events[k - 1].req, events[k].rsp;
       && (InMemory(r.addr) ==> rsp == Rsp(if r.wen then 0 else WordAt(mem, events[..k], r.addr), false))
       && (!InMemory(r.addr) && !InUart(r.addr) ==> rsp == Rsp(0, true))
  }

  lemma LegalIsRight(mem: seq<Word>, events: seq<AxiPath.Event>, k: nat)
    requires |mem| > 0 && AxiPath.Replay(mem, events).legal && k < |events| && events[k].Answered?
    ensures Rightly(mem, events, k)
  {
    LegalPrefix(mem, events, k);
    LegalPrefix(mem, events, k + 1);
    assert events[..k + 1][..k] == events[..k];
    var a := if k > 0 && events[k - 1].Asked? then events[k - 1].req.addr else 0;
    ReplayHolds(mem, events[..k], a);
    assert k > 0 ==> events[..k][k - 1] == events[k - 1];
  }

  // Over every run of master, router and memory, whatever the stalls and the second slave: each answer
  // is to the request just before it, a load in the memory's window returns what was last stored to its
  // address, and an address outside both windows faults.
  lemma LoadsReturnLastStores(mem: seq<Word>, ins: seq<AxiPath.In>, k: nat)
    requires |mem| > 0 && k < |AxiPath.Run(mem, ins).history| && AxiPath.Run(mem, ins).history[k].Answered?
    ensures Rightly(mem, AxiPath.Run(mem, ins).history, k)
  {
    AxiPath.PathIsAtomicMemory(mem, ins);
    LegalIsRight(mem, AxiPath.Run(mem, ins).history, k);
  }

  // So for the three clients together: whoever stored last.
  lemma ClientsSeeLastStores(mem: seq<Word>, ins: seq<Arbiter.SharedIn>, k: nat)
    requires |mem| > 0
    requires var h := Arbiter.Erase(Arbiter.SharedRun(mem, ins).trace); k < |h| && h[k].Answered?
    ensures Rightly(mem, Arbiter.Erase(Arbiter.SharedRun(mem, ins).trace), k)
  {
    Arbiter.ClientsShareAtomicMemory(mem, ins);
    LegalIsRight(mem, Arbiter.Erase(Arbiter.SharedRun(mem, ins).trace), k);
  }

  // ---- a memory as large as its window ----

  // Words by word address; what was never stored is missing.
  type Flat = map<nat, Word>

  function Stores(start: Flat, events: seq<AxiPath.Event>): Flat {
    if events == [] then start
    else
      var m, e := Stores(start, events[..|events| - 1]), events[|events| - 1];
      if e.Asked? && e.req.wen && InMemory(e.req.addr) then
        var w := e.req.addr / 4;
        m[w := Merge(if w in m then m[w] else 0, e.req.wdata, e.req.wmask)]
      else m
  }

  predicate Images(start: Flat, mem: seq<Word>)
    requires |mem| > 0
  {
    forall a: Word | InMemory(a) :: a / 4 in start && start[a / 4] == mem[a / 4 % |mem|]
  }

  lemma {:induction false} WordAtIsMap(mem: seq<Word>, start: Flat, events: seq<AxiPath.Event>, a: Word)
    requires |mem| >= 0x400_0000 && InMemory(a)
    requires a / 4 in start && start[a / 4] == mem[a / 4 % |mem|]
    ensures a / 4 in Stores(start, events) && WordAt(mem, events, a) == Stores(start, events)[a / 4]
  {
    if events != [] {
      var e := events[|events| - 1];
      WordAtIsMap(mem, start, events[..|events| - 1], a);
      if e.Asked? && InMemory(e.req.addr) { NoAlias(e.req.addr, a, |mem|); }
    }
  }

  // Then memory is a map from word addresses, whichever client asks: a load returns the entry at its
  // address, a store merges its bytes into the entry at its own, and no address shares another's entry.
  lemma ClientsReadTheMap(mem: seq<Word>, start: Flat, ins: seq<Arbiter.SharedIn>, k: nat)
    requires |mem| >= 0x400_0000 && Images(start, mem)
    requires var h := Arbiter.Erase(Arbiter.SharedRun(mem, ins).trace); k < |h| && h[k].Answered?
    ensures var h := Arbiter.Erase(Arbiter.SharedRun(mem, ins).trace);
            && k > 0 && h[k - 1].Asked?
            && var r := h[k - 1].req;
               InMemory(r.addr) && !r.wen ==>
                 r.addr / 4 in Stores(start, h[..k]) && h[k].rsp == Rsp(Stores(start, h[..k])[r.addr / 4], false)
  {
    var h := Arbiter.Erase(Arbiter.SharedRun(mem, ins).trace);
    ClientsSeeLastStores(mem, ins, k);
    if InMemory(h[k - 1].req.addr) { WordAtIsMap(mem, start, h[..k], h[k - 1].req.addr); }
  }
}
