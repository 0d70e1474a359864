/**
 The three-client arbiter in front of the AXI shim (rtl/soc/soc_top.sv): the page-table walker first,
 then instruction fetch and data memory in turn; responses routed by the latched grant.
 */
module Arbiter {
  import opened Rv32
  import opened AxiMaster
  import opened AxiBram
  import opened AxiPath
  import opened AxiRouter

  datatype Client = Ptw | Fetch | Dmem

  datatype Grants = Grants(inflight: Client, lastWasFetch: bool)

  const GRANTS_RESET := Grants(Ptw, false)

  // The clients' request wires. The walker and the fetcher only read.
  datatype Requests = Requests(ptw: bool, ptwAddr: Word, fetch: bool, fetchAddr: Word, dmem: MaybeReq)

  const NO_BYTES := Mask(false, false, false, false)

  predicate PickPtw(r: Requests) { r.ptw }

  predicate PickFetch(g: Grants, r: Requests) { !r.ptw && r.fetch && (r.dmem.NoReq? || !g.lastWasFetch) }

  predicate PickDmem(g: Grants, r: Requests) { !r.ptw && !PickFetch(g, r) && r.dmem.Ask? }

  predicate Picks(g: Grants, r: Requests, c: Client) {
    match c
    case Ptw => PickPtw(r)
    case Fetch => PickFetch(g, r)
    case Dmem => PickDmem(g, r)
  }

  // The request line into the shim.
  function Merged(g: Grants, r: Requests): MaybeReq {
    if PickPtw(r) then Ask(Req(r.ptwAddr, false, 0, NO_BYTES))
    else if PickFetch(g, r) then Ask(Req(r.fetchAddr, false, 0, NO_BYTES))
    else r.dmem
  }

  function GrantsNext(g: Grants, r: Requests, ready: bool): Grants {
    if Merged(g, r).Ask? && ready then
      if PickPtw(r) then g.(inflight := Ptw)
      else Grants(if PickFetch(g, r) then Fetch else Dmem, PickFetch(g, r))
    else g
  }

  // Client c's request is taken; client c sees a response.
  predicate Granted(g: Grants, r: Requests, ready: bool, c: Client) { ready && Picks(g, r, c) }

  predicate Delivered(g: Grants, rsp: Rsp, c: Client) { rsp.Rsp? && g.inflight == c }

  // What client c is asking for.
  function Wants(r: Requests, c: Client): MaybeReq {
    match c
    case Ptw => if r.ptw then Ask(Req(r.ptwAddr, false, 0, NO_BYTES)) else NoReq
    case Fetch => if r.fetch then Ask(Req(r.fetchAddr, false, 0, NO_BYTES)) else NoReq
    case Dmem => r.dmem
  }

  // ---- the arbiter in front of the whole AXI path ----

  datatype ClientEvent = ClientEvent(client: Client, event: Event)

  datatype Shared = Shared(path: Path, g: Grants, trace: seq<ClientEvent>)

  datatype SharedIn = SharedIn(reqs: Requests, bus: In)

  function GrantedClient(g: Grants, r: Requests): Client {
    if PickPtw(r) then Ptw else if PickFetch(g, r) then Fetch else Dmem
  }

  function SharedCycle(s: Shared, i: SharedIn): Shared
    requires |s.path.b.mem| > 0
  {
    var req := Merged(s.g, i.reqs);
    Shared(Cycle(s.path, i.bus.(req := req)),
           GrantsNext(s.g, i.reqs, Ready(s.path.m)),
           s.trace
           + (if s.path.m.rsp.Rsp? then [ClientEvent(s.g.inflight, Answered(s.path.m.rsp))] else [])
           + (if Accepts(s.path.m, req) then [ClientEvent(GrantedClient(s.g, i.reqs), Asked(req.req))] else []))
  }

  function SharedRun(mem: seq<Word>, ins: seq<SharedIn>): (s: Shared)
    requires |mem| > 0
    ensures |s.path.b.mem| == |mem|
  {
    if ins == [] then Shared(Boot(mem), GRANTS_RESET, [])
    else SharedCycle(SharedRun(mem, ins[..|ins| - 1]), ins[|ins| - 1])
  }

  // Exactly the picked client is served, with its own request.
  lemma GrantIsExclusive(g: Grants, r: Requests, c: Client)
    ensures Picks(g, r, c) ==> GrantedClient(g, r) == c && Merged(g, r) == Wants(r, c) && Wants(r, c).Ask?
    ensures Merged(g, r).Ask? ==> Picks(g, r, GrantedClient(g, r))
    ensures Merged(g, r).NoReq? <==> Wants(r, Ptw).NoReq? && Wants(r, Fetch).NoReq? && Wants(r, Dmem).NoReq?
  {
  }

  // The client whose request is outstanding, if any, after a trace in which requests and answers
  // alternate; `proper` says that they do, and that each answer went to the client that asked.
  datatype Owner = Nobody | Owes(client: Client)

  datatype Routing = Routing(owner: Owner, proper: bool)

  function Route(x: Routing, e: ClientEvent): Routing {
    match e.event
    case Asked(_) => Routing(Owes(e.client), x.proper && x.owner.Nobody?)
    case Answered(_) => Routing(Nobody, x.proper && x.owner == Owes(e.client))
  }

  function RouteAll(t: seq<ClientEvent>): Routing {
    if t == [] then Routing(Nobody, true) else Route(RouteAll(t[..|t| - 1]), t[|t| - 1])
  }

  function Erase(t: seq<ClientEvent>): seq<Event> {
    if t == [] then [] else Erase(t[..|t| - 1]) + [t[|t| - 1].event]
  }

  predicate Busy(m: Master) { !m.phase.Idle? || m.rsp.Rsp? }

  predicate Tracked(s: Shared) {
    && (s.path.m.rsp.Rsp? ==> s.path.m.phase.Idle?)
    && RouteAll(s.trace) == Routing(if Busy(s.path.m) then Owes(s.g.inflight) else Nobody, true)
    && Erase(s.trace) == s.path.history
  }

  lemma TrackedStep(s: Shared, i: SharedIn)
    requires |s.path.b.mem| > 0 && Tracked(s)
    ensures Tracked(SharedCycle(s, i))
  {
    hide Wires, RouterNext, BramNext;
    var req := Merged(s.g, i.reqs);
    var a := if s.path.m.rsp.Rsp? then [ClientEvent(s.g.inflight, Answered(s.path.m.rsp))] else [];
    var b := if Accepts(s.path.m, req) then [ClientEvent(GrantedClient(s.g, i.reqs), Asked(req.req))] else [];
    GrantIsExclusive(s.g, i.reqs, GrantedClient(s.g, i.reqs));
    AppendTrace(s.trace, a);
    AppendTrace(s.trace + a, b);
  }

  lemma AppendTrace(t: seq<ClientEvent>, more: seq<ClientEvent>)
    requires |more| <= 1
    ensures |more| == 0 ==> t + more == t
    ensures |more| == 1 ==>
              RouteAll(t + more) == Route(RouteAll(t), more[0]) && Erase(t + more) == Erase(t) + [more[0].event]
  {
    if |more| == 1 { assert (t + more)[..|t|] == t; }
  }

  lemma {:induction false} AlwaysTracked(mem: seq<Word>, ins: seq<SharedIn>)
    requires |mem| > 0
    ensures Tracked(SharedRun(mem, ins))
  {
    if ins != [] {
      AlwaysTracked(mem, ins[..|ins| - 1]);
      TrackedStep(SharedRun(mem, ins[..|ins| - 1]), ins[|ins| - 1]);
    }
  }

  function PathInputs(mem: seq<Word>, ins: seq<SharedIn>): seq<In>
    requires |mem| > 0
  {
    if ins == [] then []
    else
      var i := ins[|ins| - 1];
      PathInputs(mem, ins[..|ins| - 1]) + [i.bus.(req := Merged(SharedRun(mem, ins[..|ins| - 1]).g, i.reqs))]
  }

  lemma {:induction false} SharedIsPath(mem: seq<Word>, ins: seq<SharedIn>)
    requires |mem| > 0
    ensures SharedRun(mem, ins).path == Run(mem, PathInputs(mem, ins))
  {
    hide Cycle;
    if ins != [] {
      SharedIsPath(mem, ins[..|ins| - 1]);
      var p := PathInputs(mem, ins);
      assert p[..|p| - 1] == PathInputs(mem, ins[..|ins| - 1]);
    }
  }

  // The three clients share one atomic memory. Over every run, with any requests and any bus
  // behaviour: a response goes only to the client whose request is outstanding, no grant is made
  // before the previous response has been delivered, and the answers are those of an atomic
  // byte-masked memory serving the grants in order.
  lemma ClientsShareAtomicMemory(mem: seq<Word>, ins: seq<SharedIn>)
    requires |mem| > 0
    ensures var s := SharedRun(mem, ins);
            && RouteAll(s.trace).proper
            && Replay(mem, Erase(s.trace)).legal
    ensures var s := SharedRun(mem, ins);
            forall c :: Delivered(s.g, s.path.m.rsp, c) ==> RouteAll(s.trace).owner == Owes(c)
    ensures var s := SharedRun(mem, ins);
            Ready(s.path.m) ==> RouteAll(s.trace).owner.Nobody?
  {
    AlwaysTracked(mem, ins);
    SharedIsPath(mem, ins);
    PathIsAtomicMemory(mem, PathInputs(mem, ins));
  }

  // ---- fairness between fetch and data ----

  // One cycle at the arbiter alone, under any readiness of the shim.
  datatype Tick = Tick(reqs: Requests, ready: bool)

  function ArbRun(g: Grants, ticks: seq<Tick>): Grants {
    if ticks == [] then g
    else
      var t := ticks[|ticks| - 1];
      GrantsNext(ArbRun(g, ticks[..|ticks| - 1]), t.reqs, t.ready)
  }

  function GrantCount(g: Grants, ticks: seq<Tick>, c: Client): nat {
    if ticks == [] then 0
    else
      var t := ticks[|ticks| - 1];
      GrantCount(g, ticks[..|ticks| - 1], c)
      + if Granted(ArbRun(g, ticks[..|ticks| - 1]), t.reqs, t.ready, c) then 1 else 0
  }

  predicate Waits(ticks: seq<Tick>, c: Client) {
    forall k | 0 <= k < |ticks| :: Wants(ticks[k].reqs, c).Ask?
  }

  // From any state, for as long as a data request waits without being granted, at most one fetch is
  // granted over it, however many walks come in between.
  lemma {:induction false} FetchPassesOnce(g: Grants, ticks: seq<Tick>)
    requires Waits(ticks, Dmem) && GrantCount(g, ticks, Dmem) == 0
    ensures GrantCount(g, ticks, Fetch) <= 1
    ensures GrantCount(g, ticks, Fetch) == 1 ==> ArbRun(g, ticks).lastWasFetch
  {
    if ticks != [] {
      FetchPassesOnce(g, ticks[..|ticks| - 1]);
      assert Wants(ticks[|ticks| - 1].reqs, Dmem).Ask?;
    }
  }

  // And the other way round.
  lemma {:induction false} DmemPassesOnce(g: Grants, ticks: seq<Tick>)
    requires Waits(ticks, Fetch) && GrantCount(g, ticks, Fetch) == 0
    ensures GrantCount(g, ticks, Dmem) <= 1
    ensures GrantCount(g, ticks, Dmem) == 1 ==> !ArbRun(g, ticks).lastWasFetch
  {
    if ticks != [] {
      DmemPassesOnce(g, ticks[..|ticks| - 1]);
      assert Wants(ticks[|ticks| - 1].reqs, Fetch).Ask?;
    }
  }

  // With no walk pending, two ready cycles are enough for either of them.
  lemma WaitingIsServed(g: Grants, first: Tick, second: Tick, c: Client)
    requires !c.Ptw? && Wants(first.reqs, c).Ask? && Wants(second.reqs, c).Ask?
    requires first.ready && second.ready && !first.reqs.ptw && !second.reqs.ptw
    ensures Granted(g, first.reqs, true, c) || Granted(GrantsNext(g, first.reqs, true), second.reqs, true, c)
  {
  }

  // A walk is served in the first ready cycle, and holds the other two back.
  lemma WalkGoesFirst(g: Grants, t: Tick, c: Client)
    requires t.reqs.ptw && t.ready
    ensures Granted(g, t.reqs, t.ready, c) <==> c.Ptw?
    ensures GrantsNext(g, t.reqs, t.ready) == g.(inflight := Ptw)
  {
  }

  // ---- SRAM port B: the walker before the data cache ----

  // One cycle: the two clients' requests, and whether the memory answers the one it took last cycle.
  datatype PortTick = PortTick(ptw: bool, dcache: bool)

  // `busy`: the memory took a request last cycle, which it answers now.
  datatype PortB = PortB(lastWasPtw: bool, busy: bool)

  const PORT_RESET := PortB(false, false)

  function PortNext(p: PortB, t: PortTick): PortB {
    if t.ptw || t.dcache then PortB(t.ptw, true) else p.(busy := false)
  }

  predicate PtwTaken(t: PortTick) { t.ptw }

  predicate DcacheTaken(t: PortTick) { t.dcache && !t.ptw }

  predicate PtwAnswered(p: PortB) { p.busy && p.lastWasPtw }

  predicate DcacheAnswered(p: PortB) { p.busy && !p.lastWasPtw }

  function PortRun(ticks: seq<PortTick>): PortB {
    if ticks == [] then PORT_RESET else PortNext(PortRun(ticks[..|ticks| - 1]), ticks[|ticks| - 1])
  }

  function CountTaken(ticks: seq<PortTick>, ptw: bool): nat {
    if ticks == [] then 0
    else
      var t := ticks[|ticks| - 1];
      CountTaken(ticks[..|ticks| - 1], ptw) + if (if ptw then PtwTaken(t) else DcacheTaken(t)) then 1 else 0
  }

  function CountAnswered(ticks: seq<PortTick>, ptw: bool): nat {
    if ticks == [] then 0
    else
      var p := PortRun(ticks[..|ticks| - 1]);
      CountAnswered(ticks[..|ticks| - 1], ptw) + if (if ptw then PtwAnswered(p) else DcacheAnswered(p)) then 1 else 0
  }

  // Over every run each client is answered once per request of its own that was taken, in the very
  // next cycle, and never for the other's.
  lemma {:induction false} PortAnswersItsClient(ticks: seq<PortTick>, ptw: bool)
    ensures var p := PortRun(ticks);
            CountTaken(ticks, ptw)
            == CountAnswered(ticks, ptw) + if (if ptw then PtwAnswered(p) else DcacheAnswered(p)) then 1 else 0
  {
    if ticks != [] { PortAnswersItsClient(ticks[..|ticks| - 1], ptw); }
  }

  class SramPortArbiter {
    var lastWasPtw: bool
    var busy: bool

    function State(): PortB
      reads this
    {
      PortB(lastWasPtw, busy)
    }

    constructor ()
      ensures State() == PORT_RESET
    {
      lastWasPtw, busy := false, false;
    }

    // One rising edge; the SRAM is always ready and answers in the next cycle.
    method Clock(t: PortTick)
      modifies this
      ensures State() == PortNext(old(State()), t)
    {
      busy := t.ptw || t.dcache;
      if busy { lastWasPtw := t.ptw; }
    }
  }

  class SocArbiter {
    var inflight: Client
    var lastWasFetch: bool

    function State(): Grants
      reads this
    {
      Grants(inflight, lastWasFetch)
    }

    constructor ()
      ensures State() == GRANTS_RESET
    {
      inflight, lastWasFetch := Ptw, false;
    }

    // One rising edge.
    method Clock(r: Requests, ready: bool)
      modifies this
      ensures State() == GrantsNext(old(State()), r, ready)
    {
      var fetch, dmem := PickFetch(State(), r), PickDmem(State(), r);
      if Merged(State(), r).Ask? && ready {
        inflight := if PickPtw(r) then Ptw else if fetch then Fetch else Dmem;
        if fetch || dmem { lastWasFetch := fetch; }
      }
    }
  }
}
