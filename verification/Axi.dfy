/**
 The native-to-AXI4 shim (rtl/soc/axi4_master.sv): one transaction at a time.
 */
module AxiMaster {
  import opened Rv32

  datatype Req = Req(addr: Word, wen: bool, wdata: Word, wmask: Mask)

  datatype MaybeReq = NoReq | Ask(req: Req)

  datatype Rsp = NoRsp | Rsp(rdata: Word, fault: bool)

  datatype Phase = Idle | Write | WriteB | Read | ReadR

  datatype Master = Master(phase: Phase, txn: Req, awSent: bool, wSent: bool, rsp: Rsp, cooldown: nat)

  // The slave side of the five channels, as the master sees it in one cycle.
  datatype Slave = Slave(awready: bool, wready: bool, bvalid: bool, bresp: nat,
                         arready: bool, rvalid: bool, rdata: Word, rresp: nat)

  const RESET := Master(Idle, Req(0, false, 0, Mask(false, false, false, false)), false, false, NoRsp, 0)

  predicate Ready(m: Master) { m.phase.Idle? && m.rsp.NoRsp? && m.cooldown == 0 }

  predicate AwValid(m: Master) { m.phase.Write? && !m.awSent }
  predicate WValid(m: Master) { m.phase.Write? && !m.wSent }
  predicate BReady(m: Master) { m.phase.WriteB? }
  predicate ArValid(m: Master) { m.phase.Read? }
  predicate RReady(m: Master) { m.phase.ReadR? }

  predicate Accepts(m: Master, r: MaybeReq) { r.Ask? && Ready(m) }

  function Next(m: Master, r: MaybeReq, s: Slave): Master {
    var idle := m.(rsp := NoRsp, cooldown := if m.cooldown > 0 then m.cooldown - 1 else 0);
    match m.phase
    case Idle =>
      if Accepts(m, r) then
        idle.(phase := if r.req.wen then Write else Read, txn := r.req, awSent := false, wSent := false)
      else idle
    case Write =>
      var aw, w := m.awSent || s.awready, m.wSent || s.wready;
      idle.(awSent := aw, wSent := w, phase := if aw && w then WriteB else Write)
    case WriteB => if s.bvalid then idle.(phase := Idle, rsp := Rsp(0, s.bresp != 0), cooldown := 8) else idle
    case Read => if s.arready then idle.(phase := ReadR) else idle
    case ReadR => if s.rvalid then idle.(phase := Idle, rsp := Rsp(s.rdata, s.rresp != 0), cooldown := 8) else idle
  }

  // A channel that has offered its payload keeps offering the same payload until it is taken.
  lemma PayloadStable(m: Master, r: MaybeReq, s: Slave)
    ensures AwValid(m) && !s.awready ==> AwValid(Next(m, r, s)) && Next(m, r, s).txn == m.txn
    ensures WValid(m) && !s.wready ==> WValid(Next(m, r, s)) && Next(m, r, s).txn == m.txn
    ensures ArValid(m) && !s.arready ==> ArValid(Next(m, r, s)) && Next(m, r, s).txn == m.txn
  {
  }

  function Steps(m: Master, ins: seq<(MaybeReq, Slave)>): Master {
    if ins == [] then m
    else
      var last := ins[|ins| - 1];
      Next(Steps(m, ins[..|ins| - 1]), last.0, last.1)
  }

  // Every answer is followed by eight cycles in which no request is taken, and a ninth in which one is.
  lemma {:induction false} RestsAfterAnswer(m: Master, ins: seq<(MaybeReq, Slave)>)
    requires !m.phase.Idle? && 0 < |ins| <= 9
    requires Next(m, ins[0].0, ins[0].1).rsp.Rsp?
    ensures var q := Steps(m, ins);
            && (|ins| <= 8 ==> !Ready(q) && q.phase.Idle?) && (|ins| == 9 ==> Ready(q))
            && q.cooldown == 9 - |ins| && (q.rsp.Rsp? <==> |ins| == 1)
  {
    if |ins| == 1 {
      assert ins[..0] == [];
    } else {
      RestsAfterAnswer(m, ins[..|ins| - 1]);
    }
  }

  class Axi4Master {
    var phase: Phase
    var txn: Req
    var awSent: bool
    var wSent: bool
    var rsp: Rsp
    var cooldown: nat

    function State(): Master
      reads this
    {
      Master(phase, txn, awSent, wSent, rsp, cooldown)
    }

    constructor ()
      ensures State() == RESET
    {
      phase, txn, awSent, wSent, rsp, cooldown := Idle, RESET.txn, false, false, NoRsp, 0;
    }

    // The next-state block: defaults, then one override per state.
    method NextState(r: MaybeReq, s: Slave) returns (q: Master)
      ensures q == Next(State(), r, s)
    {
      q := State().(rsp := NoRsp);
      if cooldown != 0 { q := q.(cooldown := cooldown - 1); }
      match phase {
        case Idle =>
          if r.Ask? && Ready(State()) {
            q := q.(phase := if r.req.wen then Write else Read, txn := r.req, awSent := false, wSent := false);
          }
        case Write =>
          if AwValid(State()) && s.awready { q := q.(awSent := true); }
          if WValid(State()) && s.wready { q := q.(wSent := true); }
          if q.awSent && q.wSent { q := q.(phase := WriteB); }
        case WriteB => if s.bvalid { q := q.(phase := Idle, rsp := Rsp(0, s.bresp != 0), cooldown := 8); }
        case Read => if s.arready { q := q.(phase := ReadR); }
        case ReadR => if s.rvalid { q := q.(phase := Idle, rsp := Rsp(s.rdata, s.rresp != 0), cooldown := 8); }
      }
    }

    // One rising edge.
    method Clock(r: MaybeReq, s: Slave)
      modifies this
      ensures State() == Next(old(State()), r, s)
    {
      var q := NextState(r, s);
      phase, txn, awSent, wSent, rsp, cooldown := q.phase, q.txn, q.awSent, q.wSent, q.rsp, q.cooldown;
    }
  }
}

/**
 The 1-by-2 address router with its DECERR stub (rtl/mem/axi4_router_linux.sv).
 */
module AxiRouter {
  import opened Rv32
  import opened AxiMaster

  datatype Port = Ddr | Uart | DecErr

  function Decode(addr: Word): Port {
    if addr / 0x1000_0000 == 4 then Ddr else if addr / 0x1000_0000 == 12 then Uart else DecErr
  }

  datatype Stub = Stub(aw: bool, w: bool, b: bool, ar: bool, r: bool)

  datatype Router = Router(selW: Port, selWValid: bool, selR: Port, selRValid: bool, stub: Stub)

  const ROUTER_RESET := Router(Ddr, false, Ddr, false, Stub(false, false, false, false, false))

  function SelWEff(x: Router, m: Master): Port { if x.selWValid then x.selW else Decode(m.txn.addr) }

  // The funnels: what the master sees, given the two real slaves.
  function Funnel(x: Router, m: Master, s0: Slave, s1: Slave): Slave {
    var w, r := SelWEff(x, m), Decode(m.txn.addr);
    Slave(
      match Decode(m.txn.addr) case Ddr => s0.awready case Uart => s1.awready case DecErr => !x.stub.aw,
      match w case Ddr => s0.wready case Uart => s1.wready case DecErr => !x.stub.w,
      x.selWValid && match x.selW case Ddr => s0.bvalid case Uart => s1.bvalid case DecErr => x.stub.b,
      if x.selWValid then match x.selW case Ddr => s0.bresp case Uart => s1.bresp case DecErr => 3 else 0,
      match r case Ddr => s0.arready case Uart => s1.arready case DecErr => !x.stub.ar,
      x.selRValid && match x.selR case Ddr => s0.rvalid case Uart => s1.rvalid case DecErr => x.stub.r,
      if x.selRValid then match x.selR case Ddr => s0.rdata case Uart => s1.rdata case DecErr => 0 else 0,
      if x.selRValid then match x.selR case Ddr => s0.rresp case Uart => s1.rresp case DecErr => 3 else 0)
  }

  function NextStub(x: Router, m: Master): Stub {
    var d := Decode(m.txn.addr).DecErr?;
    var t := x.stub;
    var bDone := t.b && BReady(m) && x.selW.DecErr?;
    var rDone := t.r && RReady(m) && x.selR.DecErr?;
    Stub(!bDone && (t.aw || (AwValid(m) && d)),
         !bDone && (t.w || (WValid(m) && SelWEff(x, m).DecErr?)),
         !bDone && (t.b || (t.aw && t.w)),
         !rDone && (t.ar || (ArValid(m) && d)),
         !rDone && (t.r || t.ar))
  }

  function RouterNext(x: Router, m: Master, s: Slave): Router {
    var aw, ar := AwValid(m) && s.awready, ArValid(m) && s.arready;
    Router(if aw then Decode(m.txn.addr) else x.selW,
           aw || (x.selWValid && !(s.bvalid && BReady(m))),
           if ar then Decode(m.txn.addr) else x.selR,
           ar || (x.selRValid && !(s.rvalid && RReady(m))),
           NextStub(x, m))
  }

  class RouterLinux {
    var selW: Port
    var selWValid: bool
    var selR: Port
    var selRValid: bool
    var stub: Stub

    function State(): Router
      reads this
    {
      Router(selW, selWValid, selR, selRValid, stub)
    }

    constructor ()
      ensures State() == ROUTER_RESET
    {
      selW, selWValid, selR, selRValid, stub := Ddr, false, Ddr, false, Stub(false, false, false, false, false);
    }

    // The DECERR stub's own registers.
    method StubStep(m: Master) returns (t: Stub)
      ensures t == NextStub(State(), m)
    {
      t := stub;
      if AwValid(m) && !stub.aw && Decode(m.txn.addr).DecErr? { t := t.(aw := true); }
      if WValid(m) && !stub.w && SelWEff(State(), m).DecErr? { t := t.(w := true); }
      if stub.aw && stub.w && !stub.b { t := t.(b := true); }
      if stub.b && BReady(m) && selW.DecErr? { t := t.(b := false, aw := false, w := false); }
      if ArValid(m) && !stub.ar && Decode(m.txn.addr).DecErr? { t := t.(ar := true); }
      if stub.ar && !stub.r { t := t.(r := true); }
      if stub.r && RReady(m) && selR.DecErr? { t := t.(r := false, ar := false); }
    }

    // One rising edge, with `s` the funnelled slave signals of this cycle.
    method Clock(m: Master, s: Slave)
      modifies this
      ensures State() == RouterNext(old(State()), m, s)
    {
      var stubD := StubStep(m);
      if AwValid(m) && s.awready {
        selW, selWValid := Decode(m.txn.addr), true;
      } else if s.bvalid && BReady(m) {
        selWValid := false;
      }
      if ArValid(m) && s.arready {
        selR, selRValid := Decode(m.txn.addr), true;
      } else if s.rvalid && RReady(m) {
        selRValid := false;
      }
      stub := stubD;
    }
  }
}

/**
 The AXI-Lite memory (rtl/mem/axil_bram_big.sv): AW and W joined in either order, byte strobes.
 */
module AxiBram {
  import opened Rv32

  datatype WriteSide = WriteSide(awHs: bool, wHs: bool, awaddr: Word, wdata: Word, wstrb: Mask, bvalid: bool)

  datatype ReadSide = ReadSide(arHs: bool, araddr: Word, rvalid: bool, rdata: Word)

  datatype Bram = Bram(w: WriteSide, r: ReadSide, mem: seq<Word>)

  // The master side of the channels: offers and readiness, after any stalls on the way.
  datatype Offer = Offer(awvalid: bool, awaddr: Word, wvalid: bool, wdata: Word, wstrb: Mask, bready: bool,
                         arvalid: bool, araddr: Word, rready: bool)

  function Index(addr: Word, words: nat): (k: nat)
    requires words > 0
    ensures k < words
  {
    addr / 4 % words
  }

  // A byte-strobed write to one word.
  function Stored(mem: seq<Word>, addr: Word, data: Word, strb: Mask): (after: seq<Word>)
    requires |mem| > 0
    ensures |after| == |mem|
  {
    mem[Index(addr, |mem|) := Merge(mem[Index(addr, |mem|)], data, strb)]
  }

  function NextWrite(w: WriteSide, o: Offer): WriteSide {
    var done := w.bvalid && o.bready;
    var aw, d := o.awvalid && !w.awHs, o.wvalid && !w.wHs;
    WriteSide(!done && (w.awHs || aw), !done && (w.wHs || d),
              if aw then o.awaddr else w.awaddr,
              if d then o.wdata else w.wdata, if d then o.wstrb else w.wstrb,
              !done && (w.bvalid || (w.awHs && w.wHs)))
  }

  function NextRead(r: ReadSide, o: Offer, mem: seq<Word>): ReadSide
    requires |mem| > 0
  {
    var done := r.rvalid && o.rready;
    ReadSide(!done && (r.arHs || o.arvalid),
             if o.arvalid && !r.arHs then o.araddr else r.araddr,
             !done && (r.rvalid || r.arHs),
             if r.arHs && !r.rvalid then mem[Index(r.araddr, |mem|)] else r.rdata)
  }

  function NextMem(b: Bram): (mem: seq<Word>)
    requires |b.mem| > 0
    ensures |mem| == |b.mem|
  {
    if b.w.awHs && b.w.wHs && !b.w.bvalid then Stored(b.mem, b.w.awaddr, b.w.wdata, b.w.wstrb) else b.mem
  }

  function BramNext(b: Bram, o: Offer): Bram
    requires |b.mem| > 0
  {
    Bram(NextWrite(b.w, o), NextRead(b.r, o, b.mem), NextMem(b))
  }

  class BramBig {
    var w: WriteSide
    var r: ReadSide
    const mem: array<Word>

    ghost predicate Valid()
      reads this
    {
      mem.Length > 0
    }

    function State(): Bram
      reads this, mem
    {
      Bram(w, r, mem[..])
    }

    constructor (words: nat)
      requires words > 0
      ensures Valid() && fresh(mem) && mem.Length == words
      ensures !State().w.awHs && !State().w.wHs && !State().w.bvalid && !State().r.arHs && !State().r.rvalid
    {
      w := WriteSide(false, false, 0, 0, Mask(false, false, false, false), false);
      r := ReadSide(false, 0, false, 0);
      mem := new Word[words](_ => 0);
    }

    // The strobed bytes of one word.
    method WriteBytes(addr: Word, data: Word, strb: Mask)
      requires Valid()
      modifies mem
      ensures mem[..] == Stored(old(mem[..]), addr, data, strb)
    {
      var k := Index(addr, mem.Length);
      var word := mem[k];
      var b0, b1, b2, b3 := ByteOf(word, 0), ByteOf(word, 1), ByteOf(word, 2), ByteOf(word, 3);
      if strb.m0 { b0 := ByteOf(data, 0); }
      if strb.m1 { b1 := ByteOf(data, 1); }
      if strb.m2 { b2 := ByteOf(data, 2); }
      if strb.m3 { b3 := ByteOf(data, 3); }
      mem[k] := FromBytes(b0, b1, b2, b3);
    }

    // One rising edge; the read side samples the memory as it was before this edge.
    method Clock(o: Offer)
      requires Valid()
      modifies this, mem
      ensures Valid() && State() == BramNext(old(State()), o)
    {
      var was := w;
      var q := r;
      if o.arvalid && !r.arHs { q := q.(araddr := o.araddr, arHs := true); }
      if r.arHs && !r.rvalid { q := q.(rdata := mem[Index(r.araddr, mem.Length)], rvalid := true); }
      if r.rvalid && o.rready { q := q.(rvalid := false, arHs := false); }
      r := q;

      var v := w;
      if o.awvalid && !w.awHs { v := v.(awaddr := o.awaddr, awHs := true); }
      if o.wvalid && !w.wHs { v := v.(wdata := o.wdata, wstrb := o.wstrb, wHs := true); }
      if w.awHs && w.wHs && !w.bvalid { v := v.(bvalid := true); }
      if w.bvalid && o.bready { v := v.(bvalid := false, awHs := false, wHs := false); }
      w := v;
      if was.awHs && was.wHs && !was.bvalid { WriteBytes(was.awaddr, was.wdata, was.wstrb); }
    }
  }
}

/**
 Master, router and memory together behave as an atomic byte-masked memory.
 */
module AxiPath {
  import opened Rv32
  import opened AxiMaster
  import opened AxiRouter
  import opened AxiBram

  datatype Event = Asked(req: Req) | Answered(rsp: Rsp)

  // What the memory's user and the wires of the AW and W channels have seen so far.
  datatype Path = Path(m: Master, x: Router, b: Bram,
                       history: seq<Event>, aws: seq<Word>, ws: seq<(Word, Mask)>)

  // One cycle from outside: a request, stalls on each channel to the memory, and a second slave
  // about which nothing is assumed.
  datatype In = In(req: MaybeReq, stallAw: bool, stallW: bool, stallB: bool, stallAr: bool, stallR: bool, uart: Slave)

  function MemorySlave(b: Bram, i: In): Slave {
    Slave(!b.w.awHs && !i.stallAw, !b.w.wHs && !i.stallW, b.w.bvalid && !i.stallB, 0,
          !b.r.arHs && !i.stallAr, b.r.rvalid && !i.stallR, b.r.rdata, 0)
  }

  function Wires(p: Path, i: In): Slave { Funnel(p.x, p.m, MemorySlave(p.b, i), i.uart) }

  function ToMemory(p: Path, i: In): Offer {
    var m := p.m;
    Offer(AwValid(m) && Decode(m.txn.addr).Ddr? && !i.stallAw, m.txn.addr,
          WValid(m) && SelWEff(p.x, m).Ddr? && !i.stallW, m.txn.wdata, m.txn.wmask,
          p.x.selWValid && p.x.selW.Ddr? && BReady(m) && !i.stallB,
          ArValid(m) && Decode(m.txn.addr).Ddr? && !i.stallAr, m.txn.addr,
          p.x.selRValid && p.x.selR.Ddr? && RReady(m) && !i.stallR)
  }

  function Cycle(p: Path, i: In): Path
    requires |p.b.mem| > 0
  {
    var s := Wires(p, i);
    Path(Next(p.m, i.req, s), RouterNext(p.x, p.m, s), BramNext(p.b, ToMemory(p, i)),
         p.history + (if p.m.rsp.Rsp? then [Answered(p.m.rsp)] else [])
                   + (if Accepts(p.m, i.req) then [Asked(i.req.req)] else []),
         p.aws + (if AwValid(p.m) && s.awready then [p.m.txn.addr] else []),
         p.ws + (if WValid(p.m) && s.wready then [(p.m.txn.wdata, p.m.txn.wmask)] else []))
  }

  function Boot(mem: seq<Word>): Path {
    Path(RESET, ROUTER_RESET,
         Bram(WriteSide(false, false, 0, 0, Mask(false, false, false, false), false),
              ReadSide(false, 0, false, 0), mem),
         [], [], [])
  }

  function Run(mem: seq<Word>, ins: seq<In>): (p: Path)
    requires |mem| > 0
    ensures |p.b.mem| == |mem|
  {
    if ins == [] then Boot(mem) else Cycle(Run(mem, ins[..|ins| - 1]), ins[|ins| - 1])
  }

  // ---- the atomic memory ----

  // A memory that serves one request at a time in no time; `legal` records whether every event so
  // far is one it could have produced.
  datatype Atomic = Atomic(mem: seq<Word>, pending: MaybeReq, legal: bool)

  function Perform(mem: seq<Word>, r: Req): (after: seq<Word>)
    requires |mem| > 0
    ensures |after| == |mem|
  {
    if r.wen && Decode(r.addr).Ddr? then Stored(mem, r.addr, r.wdata, r.wmask) else mem
  }

  // The one right answer; for the second slave, whatever it said.
  predicate RightAnswer(mem: seq<Word>, r: Req, rsp: Rsp)
    requires |mem| > 0
  {
    match Decode(r.addr)
    case Ddr => rsp == Rsp(if r.wen then 0 else mem[Index(r.addr, |mem|)], false)
    case Uart => rsp.Rsp?
    case DecErr => rsp == Rsp(0, true)
  }

  function Observe(a: Atomic, e: Event): (after: Atomic)
    requires |a.mem| > 0
    ensures |after.mem| == |a.mem|
  {
    match e
    case Asked(r) => a.(pending := Ask(r), legal := a.legal && a.pending.NoReq?)
    case Answered(rsp) =>
      if a.pending.Ask? then
        Atomic(Perform(a.mem, a.pending.req), NoReq, a.legal && RightAnswer(a.mem, a.pending.req, rsp))
      else a.(legal := false)
  }

  function Replay(mem: seq<Word>, events: seq<Event>): (a: Atomic)
    requires |mem| > 0
    ensures |a.mem| == |mem|
  {
    if events == [] then Atomic(mem, NoReq, true)
    else Observe(Replay(mem, events[..|events| - 1]), events[|events| - 1])
  }

  function StoreAddrs(events: seq<Event>): seq<Word> {
    if events == [] then []
    else
      var e := events[|events| - 1];
      StoreAddrs(events[..|events| - 1]) + if e.Asked? && e.req.wen then [e.req.addr] else []
  }

  function StoreData(events: seq<Event>): seq<(Word, Mask)> {
    if events == [] then []
    else
      var e := events[|events| - 1];
      StoreData(events[..|events| - 1]) + if e.Asked? && e.req.wen then [(e.req.wdata, e.req.wmask)] else []
  }

  // ---- the invariant ----

  predicate WriteQuiet(p: Path) {
    && !p.x.selWValid && !p.b.w.awHs && !p.b.w.wHs && !p.b.w.bvalid
    && !p.x.stub.aw && !p.x.stub.w && !p.x.stub.b
  }

  predicate ReadQuiet(p: Path) {
    !p.x.selRValid && !p.b.r.arHs && !p.b.r.rvalid && !p.x.stub.ar && !p.x.stub.r
  }

  // Both halves of a store, wherever they have got to.
  predicate WriteMoving(p: Path) {
    var t, port := p.m.txn, Decode(p.m.txn.addr);
    var aw, w := p.m.awSent, p.m.wSent;
    && t.wen && p.x.selWValid == aw && (aw ==> p.x.selW == port)
    && p.b.w.awHs == (aw && port.Ddr?) && (p.b.w.awHs ==> p.b.w.awaddr == t.addr)
    && p.b.w.wHs == (w && port.Ddr?) && (p.b.w.wHs ==> p.b.w.wdata == t.wdata && p.b.w.wstrb == t.wmask)
    && p.x.stub.aw == (aw && port.DecErr?) && p.x.stub.w == (w && port.DecErr?)
    && (p.b.w.bvalid ==> p.b.w.awHs && p.b.w.wHs) && (p.x.stub.b ==> p.x.stub.aw && p.x.stub.w)
    && (p.m.phase.Write? <==> !(aw && w))
  }

  predicate ReadMoving(p: Path, mem: seq<Word>)
    requires |mem| > 0
  {
    var t, port := p.m.txn, Decode(p.m.txn.addr);
    && !t.wen && p.x.selRValid == p.m.phase.ReadR? && (p.x.selRValid ==> p.x.selR == port)
    && p.b.r.arHs == (p.x.selRValid && port.Ddr?) && (p.b.r.arHs ==> p.b.r.araddr == t.addr)
    && (p.b.r.rvalid ==> p.b.r.arHs && p.b.r.rdata == mem[Index(t.addr, |mem|)])
    && p.x.stub.ar == (p.x.selRValid && port.DecErr?) && (p.x.stub.r ==> p.x.stub.ar)
  }

  // The path against the atomic memory that has seen the same history.
  predicate Matches(p: Path, a: Atomic)
    requires |a.mem| > 0
  {
    && a.legal
    && (if p.m.phase.Write? || p.m.phase.WriteB? then WriteMoving(p) else WriteQuiet(p))
    && (if p.m.phase.Read? || p.m.phase.ReadR? then ReadMoving(p, a.mem) else ReadQuiet(p))
    && a.pending == (if p.m.phase.Idle? && p.m.rsp.NoRsp? then NoReq else Ask(p.m.txn))
    && (!p.m.phase.Idle? ==> p.m.rsp.NoRsp?)
    && (p.m.rsp.Rsp? ==> RightAnswer(a.mem, p.m.txn, p.m.rsp))
    && p.b.mem == (if p.b.w.bvalid || p.m.rsp.Rsp? then Perform(a.mem, p.m.txn) else a.mem)
  }

  function Seen(a: Atomic, p: Path, i: In): (after: Atomic)
    requires |a.mem| > 0
    ensures |after.mem| == |a.mem|
  {
    var b := if p.m.rsp.Rsp? then Observe(a, Answered(p.m.rsp)) else a;
    if Accepts(p.m, i.req) then Observe(b, Asked(i.req.req)) else b
  }

  lemma MatchesStep(p: Path, a: Atomic, i: In)
    requires |a.mem| > 0 && |p.b.mem| > 0 && Matches(p, a)
    ensures Matches(Cycle(p, i), Seen(a, p, i))
  {
    match p.m.phase {
      case Idle => IdleStep(p, a, i);
      case Write => WriteStep(p, a, i);
      case WriteB => WriteStep(p, a, i);
      case Read => ReadStep(p, a, i);
      case ReadR => ReadStep(p, a, i);
    }
  }

  lemma IdleStep(p: Path, a: Atomic, i: In)
    requires |a.mem| > 0 && |p.b.mem| > 0 && Matches(p, a) && p.m.phase.Idle?
    ensures Matches(Cycle(p, i), Seen(a, p, i))
  {
  }

  lemma WriteStep(p: Path, a: Atomic, i: In)
    requires |a.mem| > 0 && |p.b.mem| > 0 && Matches(p, a) && (p.m.phase.Write? || p.m.phase.WriteB?)
    ensures Matches(Cycle(p, i), Seen(a, p, i))
  {
  }

  lemma ReadStep(p: Path, a: Atomic, i: In)
    requires |a.mem| > 0 && |p.b.mem| > 0 && Matches(p, a) && (p.m.phase.Read? || p.m.phase.ReadR?)
    ensures Matches(Cycle(p, i), Seen(a, p, i))
  {
  }

  lemma ReplaySeen(mem: seq<Word>, p: Path, i: In)
    requires |mem| > 0 && |p.b.mem| > 0
    ensures Replay(mem, Cycle(p, i).history) == Seen(Replay(mem, p.history), p, i)
  {
    var h1 := p.history + if p.m.rsp.Rsp? then [Answered(p.m.rsp)] else [];
    var h2 := h1 + if Accepts(p.m, i.req) then [Asked(i.req.req)] else [];
    assert p.m.rsp.Rsp? ==> h1[..|h1| - 1] == p.history;
    assert Accepts(p.m, i.req) ==> h2[..|h2| - 1] == h1;
    assert p.m.rsp.NoRsp? ==> h1 == p.history;
    assert !Accepts(p.m, i.req) ==> h2 == h1;
    assert Cycle(p, i).history == h2;
  }

  lemma {:induction false} RunMatches(mem: seq<Word>, ins: seq<In>)
    requires |mem| > 0
    ensures Matches(Run(mem, ins), Replay(mem, Run(mem, ins).history))
  {
    if ins != [] {
      var before := ins[..|ins| - 1];
      RunMatches(mem, before);
      var p := Run(mem, before);
      MatchesStep(p, Replay(mem, p.history), ins[|ins| - 1]);
      ReplaySeen(mem, p, ins[|ins| - 1]);
    }
  }

  // Everything the path ever answers is what an atomic byte-masked memory would have answered to the
  // same requests, one answer per request, whatever the stalls and the second slave do. A store that
  // is still outstanding has hit the memory either completely or not at all.
  lemma PathIsAtomicMemory(mem: seq<Word>, ins: seq<In>)
    requires |mem| > 0
    ensures var p := Run(mem, ins);
            var a := Replay(mem, p.history);
            && a.legal
            && (p.b.mem == a.mem || (a.pending.Ask? && p.b.mem == Perform(a.mem, a.pending.req)))
            && (a.pending.NoReq? ==> p.b.mem == a.mem)
            && (Ready(p.m) ==> a.pending.NoReq?)
  {
    RunMatches(mem, ins);
  }

  predicate SentOnce(p: Path) {
    && p.aws + (if AwValid(p.m) then [p.m.txn.addr] else []) == StoreAddrs(p.history)
    && p.ws + (if WValid(p.m) then [(p.m.txn.wdata, p.m.txn.wmask)] else []) == StoreData(p.history)
  }

  lemma SentOnceStep(p: Path, a: Atomic, i: In)
    requires |a.mem| > 0 && |p.b.mem| > 0 && Matches(p, a) && SentOnce(p)
    ensures SentOnce(Cycle(p, i))
  {
    hide Funnel, MemorySlave, RouterNext, BramNext, StoreAddrs, StoreData;
    StoresGrow(p, i);
  }

  // AW and W are handed over exactly once per store, with that store's payload, in order: what has
  // been taken so far, and what is on offer now, are the stores asked for so far.
  lemma {:induction false} StoresSentOnce(mem: seq<Word>, ins: seq<In>)
    requires |mem| > 0
    ensures SentOnce(Run(mem, ins))
  {
    hide Cycle, Matches;
    if ins != [] {
      var before := ins[..|ins| - 1];
      var p := Run(mem, before);
      StoresSentOnce(mem, before);
      RunMatches(mem, before);
      SentOnceStep(p, Replay(mem, p.history), ins[|ins| - 1]);
    }
  }

  lemma StoresGrow(p: Path, i: In)
    requires |p.b.mem| > 0
    ensures var sent := Accepts(p.m, i.req) && i.req.req.wen;
            && StoreAddrs(Cycle(p, i).history) == StoreAddrs(p.history) + (if sent then [i.req.req.addr] else [])
            && StoreData(Cycle(p, i).history)
               == StoreData(p.history) + (if sent then [(i.req.req.wdata, i.req.req.wmask)] else [])
  {
    var h1 := p.history + if p.m.rsp.Rsp? then [Answered(p.m.rsp)] else [];
    var h2 := h1 + if Accepts(p.m, i.req) then [Asked(i.req.req)] else [];
    assert p.m.rsp.Rsp? ==> h1[..|h1| - 1] == p.history;
    assert Accepts(p.m, i.req) ==> h2[..|h2| - 1] == h1;
    assert p.m.rsp.NoRsp? ==> h1 == p.history;
    assert !Accepts(p.m, i.req) ==> h2 == h1;
  }

  // An address no slave decodes is answered with a fault and never reaches the memory.
  lemma UndecodedFaults(mem: seq<Word>, ins: seq<In>)
    requires |mem| > 0
    ensures var p := Run(mem, ins);
            Decode(p.m.txn.addr).DecErr? && p.m.rsp.Rsp? ==>
              p.m.rsp == Rsp(0, true) && p.b.mem == Replay(mem, p.history).mem
  {
    RunMatches(mem, ins);
  }

  // ---- every request is answered ----

  predicate Unstalled(p: Path, i: In) {
    && !i.stallAw && !i.stallW && !i.stallB && !i.stallAr && !i.stallR
    && (Decode(p.m.txn.addr).Uart? ==>
          i.uart.awready && i.uart.wready && i.uart.bvalid && i.uart.arready && i.uart.rvalid)
  }

  // Unstalled cycles left until the answer, at most.
  function Wait(p: Path): nat {
    match p.m.phase
    case Idle => 0
    case Write => 3
    case WriteB => if p.b.w.bvalid || p.x.stub.b then 1 else 2
    case Read => 3
    case ReadR => if p.b.r.rvalid || p.x.stub.r then 1 else 2
  }

  lemma WaitDecreases(p: Path, a: Atomic, i: In)
    requires |a.mem| > 0 && |p.b.mem| > 0 && Matches(p, a) && !p.m.phase.Idle?
    ensures var q := Cycle(p, i);
            && Wait(q) <= Wait(p) && (Unstalled(p, i) ==> Wait(q) < Wait(p))
            && (q.m.phase.Idle? ==> q.m.rsp.Rsp?)
  {
  }

  function UnstalledCycles(mem: seq<Word>, ins: seq<In>, from: nat): nat
    requires |mem| > 0 && from <= |ins|
  {
    if |ins| == from then 0
    else
      UnstalledCycles(mem, ins[..|ins| - 1], from)
      + if Unstalled(Run(mem, ins[..|ins| - 1]), ins[|ins| - 1]) then 1 else 0
  }

  // A request accepted in the cycle before `from` is answered within three unstalled cycles.
  lemma {:induction false} AnsweredInTime(mem: seq<Word>, ins: seq<In>, from: nat)
    requires |mem| > 0 && from <= |ins|
    requires forall k | from <= k <= |ins| :: !Run(mem, ins[..k]).m.phase.Idle?
    ensures UnstalledCycles(mem, ins, from) + Wait(Run(mem, ins)) <= 3
  {
    assert ins[..|ins|] == ins;
    if |ins| > from {
      var before := ins[..|ins| - 1];
      var p := Run(mem, before);
      forall k | from <= k <= |before|
        ensures !Run(mem, before[..k]).m.phase.Idle?
      {
        assert before[..k] == ins[..k];
      }
      AnsweredInTime(mem, before, from);
      RunMatches(mem, before);
      assert before[..|before|] == before;
      WaitDecreases(p, Replay(mem, p.history), ins[|ins| - 1]);
    }
  }
}
