/**
 The write-through, write-allocate data cache (rtl/cache/dcache.sv) in front of an in-order memory of
 any latency.
 */
module Dcache {
  import opened Rv32
  import opened CacheArray

  datatype Phase = Idle | Lookup | Wt | Fill | WtMiss | Done

  // Requests carry word addresses; a store has a byte mask.
  datatype Req = Req(addr: nat, wen: bool, wdata: Word, wmask: Mask)

  datatype MaybeReq = NoReq | Ask(req: Req)

  datatype MemRsp = NoRsp | Rsp(data: Word)

  datatype Regs = Regs(
    phase: Phase, saved: Req, reqCnt: nat, rspCnt: nat, victim: nat,
    rspHit: bool, rspWay: nat, target: Word, fired: bool, seen: bool,
    rd: seq<ReadOut>, lines: Lines, plru: seq<Plru>)

  const NO_BYTES := Mask(false, false, false, false)

  predicate Sized(g: Geometry, s: Regs) {
    && Sane(g) && Shaped(g, s.lines) && |s.plru| == g.sets && |s.rd| == WAYS && s.victim < WAYS && s.rspWay < WAYS
  }

  function At0(g: Geometry, s: Regs): Loc
    requires Sane(g)
  {
    Split(g, s.saved.addr)
  }

  // ---- outputs ----

  function FillAddr(g: Geometry, saved: Req, k: nat): nat
    requires Sane(g)
  {
    var l := Split(g, saved.addr);
    Join(g, Loc(l.tag, l.idx, k))
  }

  function MemRequest(g: Geometry, s: Regs): MaybeReq
    requires Sane(g)
  {
    match s.phase
    case Fill => if s.reqCnt < g.words then Ask(Req(FillAddr(g, s.saved, s.reqCnt), false, 0, NO_BYTES)) else NoReq
    case Wt => if s.fired then NoReq else Ask(s.saved.(wen := true))
    case WtMiss => if s.fired then NoReq else Ask(s.saved.(wen := true))
    case _ => NoReq
  }

  function Rdata(s: Regs): Word
    requires |s.rd| == WAYS && s.rspWay < WAYS
  {
    if s.rspHit then s.rd[s.rspWay].data else s.target
  }

  // ---- next state ----

  // The low bits of a fill counter.
  function Low(g: Geometry, n: nat): (k: nat)
    requires Sane(g)
    ensures k < g.words
  {
    if n < g.words then n else n % g.words
  }

  // The data RAM's write port.
  function WordWritten(g: Geometry, s: Regs, k: nat, w: nat, was: Word, rsp: MemRsp): Word
    requires Sized(g, s)
  {
    var hit := HitWay(s.rd, At0(g, s).tag);
    if s.phase.Lookup? && s.saved.wen && hit == Way(w) && k == At0(g, s).woff
    then Merge(was, s.saved.wdata, s.saved.wmask)
    else if s.phase.Fill? && rsp.Rsp? && w == s.victim && k == Low(g, s.rspCnt) then
      if s.saved.wen && k == At0(g, s).woff then Merge(rsp.data, s.saved.wdata, s.saved.wmask) else rsp.data
    else was
  }

  predicate FillCompletes(g: Geometry, s: Regs, rsp: MemRsp) {
    s.phase.Fill? && s.rspCnt + (if rsp.Rsp? then 1 else 0) == g.words
  }

  // One line after a cycle: the data port, and the tag and valid bit at the end of a fill.
  function NextLine(g: Geometry, s: Regs, i: nat, w: nat, rsp: MemRsp): (l: Line)
    requires Sized(g, s) && i < g.sets && w < WAYS
    ensures |l.words| == g.words
  {
    var was := s.lines[i][w];
    if i != At0(g, s).idx then was
    else
      var words := seq(g.words, k requires 0 <= k < g.words => WordWritten(g, s, k, w, was.words[k], rsp));
      if FillCompletes(g, s, rsp) && w == s.victim then Line(true, At0(g, s).tag, words)
      else Line(was.valid, was.tag, words)
  }

  function NextLines(g: Geometry, s: Regs, rsp: MemRsp): (ls: Lines)
    requires Sized(g, s)
    ensures Shaped(g, ls)
  {
    seq(g.sets, i requires 0 <= i < g.sets =>
      seq(WAYS, w requires 0 <= w < WAYS => NextLine(g, s, i, w, rsp)))
  }

  function NextPlru(g: Geometry, s: Regs, rsp: MemRsp): (p: seq<Plru>)
    requires Sized(g, s)
    ensures |p| == g.sets
  {
    var idx := At0(g, s).idx;
    if s.phase.Lookup? && HitWay(s.rd, At0(g, s).tag).Way? then
      s.plru[idx := PlruUpdate(s.plru[idx], HitWay(s.rd, At0(g, s).tag).w)]
    else if FillCompletes(g, s, rsp) then s.plru[idx := PlruUpdate(s.plru[idx], s.victim)]
    else s.plru
  }

  // The FSM and its counters, state by state.

  function AfterLookup(g: Geometry, s: Regs): (t: Regs)
    requires Sized(g, s)
    ensures t.victim < WAYS && t.rspWay < WAYS && t.rd == s.rd && t.lines == s.lines && t.plru == s.plru
  {
    match HitWay(s.rd, At0(g, s).tag)
    case Way(w) =>
      if s.saved.wen then s.(rspHit := true, rspWay := w, fired := false, seen := false, phase := Wt)
      else s.(rspHit := true, rspWay := w, phase := Done)
    case NoWay => s.(victim := PlruPick(s.plru[At0(g, s).idx]), reqCnt := 0, rspCnt := 0, phase := Fill)
  }

  function AfterFill(g: Geometry, s: Regs, ready: bool, rsp: MemRsp): (t: Regs)
    requires Sized(g, s) && s.phase.Fill?
    ensures t.victim < WAYS && t.rspWay < WAYS && t.rd == s.rd && t.lines == s.lines && t.plru == s.plru
  {
    var t := s.(reqCnt := if MemRequest(g, s).Ask? && ready then s.reqCnt + 1 else s.reqCnt,
                rspCnt := if rsp.Rsp? then s.rspCnt + 1 else s.rspCnt,
                target := if rsp.Rsp? && Low(g, s.rspCnt) == At0(g, s).woff then rsp.data else s.target);
    if !FillCompletes(g, s, rsp) then t
    else if s.saved.wen then t.(rspHit := false, rspWay := s.victim, fired := false, seen := false, phase := WtMiss)
    else t.(rspHit := false, rspWay := s.victim, phase := Done)
  }

  function AfterStoring(g: Geometry, s: Regs, ready: bool, rsp: MemRsp): (t: Regs)
    requires Sized(g, s)
    ensures t.victim < WAYS && t.rspWay < WAYS && t.rd == s.rd && t.lines == s.lines && t.plru == s.plru
  {
    var fired, seen := s.fired || (MemRequest(g, s).Ask? && ready), s.seen || rsp.Rsp?;
    s.(fired := fired, seen := seen, phase := if fired && seen then Done else s.phase)
  }

  function Control(g: Geometry, s: Regs, req: MaybeReq, ready: bool, rsp: MemRsp): (t: Regs)
    requires Sized(g, s)
    ensures t.victim < WAYS && t.rspWay < WAYS && t.rd == s.rd && t.lines == s.lines && t.plru == s.plru
  {
    match s.phase
    case Idle => if req.Ask? then s.(phase := Lookup, saved := req.req) else s
    case Lookup => AfterLookup(g, s)
    case Fill => AfterFill(g, s, ready, rsp)
    case Done => s.(phase := Idle)
    case _ => AfterStoring(g, s, ready, rsp)
  }

  function Next(g: Geometry, s: Regs, req: MaybeReq, ready: bool, rsp: MemRsp): (t: Regs)
    requires Sized(g, s)
    ensures Sized(g, t)
  {
    var look := if s.phase.Idle? && req.Ask? then Split(g, req.req.addr) else At0(g, s);
    Control(g, s, req, ready, rsp)
      .(rd := ReadSet(g, s.lines, look), lines := NextLines(g, s, rsp), plru := NextPlru(g, s, rsp))
  }

  // ---- the memory behind the cache ----

  // An in-order memory: accepted requests wait in a queue; a response performs the oldest.
  datatype Bus = Bus(mem: WordMem, queue: seq<Req>)

  datatype In = In(req: MaybeReq, ready: bool, respond: bool)

  function Queue(g: Geometry, s: Regs, b: Bus, i: In): seq<Req>
    requires Sane(g)
  {
    b.queue + if MemRequest(g, s).Ask? && i.ready then [MemRequest(g, s).req] else []
  }

  // A response may come in any cycle in which a request is waiting, even the one that accepts it.
  function Response(g: Geometry, s: Regs, b: Bus, i: In): MemRsp
    requires Sane(g)
  {
    if i.respond && Queue(g, s, b, i) != [] then Rsp(At(b.mem, Queue(g, s, b, i)[0].addr)) else NoRsp
  }

  function BusNext(g: Geometry, s: Regs, b: Bus, i: In): Bus
    requires Sane(g)
  {
    var q := Queue(g, s, b, i);
    if Response(g, s, b, i).Rsp? then
      Bus(if q[0].wen then Poke(b.mem, q[0].addr, q[0].wdata, q[0].wmask) else b.mem, q[1..])
    else Bus(b.mem, q)
  }

  datatype Event = Asked(req: Req) | Answered(rdata: Word)

  datatype Sys = Sys(s: Regs, bus: Bus, history: seq<Event>)

  function Cycle(g: Geometry, y: Sys, i: In): (z: Sys)
    requires Sized(g, y.s)
    ensures Sized(g, z.s)
  {
    Sys(Next(g, y.s, i.req, i.ready, Response(g, y.s, y.bus, i)), BusNext(g, y.s, y.bus, i),
        y.history + if y.s.phase.Idle? && i.req.Ask? then [Asked(i.req.req)]
                    else if y.s.phase.Done? then [Answered(Rdata(y.s))] else [])
  }

  // Reset leaves tags and data as they were; every line is invalid.
  predicate Fresh(g: Geometry, y: Sys) {
    && Sized(g, y.s) && y.s.phase.Idle? && y.bus.queue == [] && y.history == []
    && forall i, w | 0 <= i < g.sets && 0 <= w < WAYS :: !y.s.lines[i][w].valid
  }

  function Run(g: Geometry, y: Sys, ins: seq<In>): (z: Sys)
    requires Sized(g, y.s)
    ensures Sized(g, z.s)
  {
    if ins == [] then y else Cycle(g, Run(g, y, ins[..|ins| - 1]), ins[|ins| - 1])
  }

  // ---- flat memory ----

  // A byte-masked memory without a cache, serving one request at a time in no time.
  datatype Flat = Flat(mem: WordMem, pending: MaybeReq, legal: bool)

  function Perform(m: WordMem, r: Req): WordMem { if r.wen then Poke(m, r.addr, r.wdata, r.wmask) else m }

  function Observe(f: Flat, e: Event): Flat {
    match e
    case Asked(r) => f.(pending := Ask(r), legal := f.legal && f.pending.NoReq?)
    case Answered(rdata) =>
      if f.pending.Ask? then
        Flat(Perform(f.mem, f.pending.req), NoReq,
             f.legal && (f.pending.req.wen || rdata == At(f.mem, f.pending.req.addr)))
      else f.(legal := false)
  }

  function Replay(m: WordMem, events: seq<Event>): Flat {
    if events == [] then Flat(m, NoReq, true) else Observe(Replay(m, events[..|events| - 1]), events[|events| - 1])
  }

  // ---- the invariant ----

  const NOWHERE: nat := WAYS

  function FillQueue(g: Geometry, saved: Req, from: nat, to: nat): seq<Req>
    requires Sane(g) && from <= to
  {
    seq(to - from, j requires 0 <= j < to - from => Req(FillAddr(g, saved, from + j), false, 0, NO_BYTES))
  }

  // No valid line of the saved request's set holds its tag.
  predicate Missed(g: Geometry, s: Regs)
    requires Sized(g, s)
  {
    forall w | 0 <= w < WAYS && s.lines[At0(g, s).idx][w].valid :: s.lines[At0(g, s).idx][w].tag != At0(g, s).tag
  }

  predicate FillOk(g: Geometry, y: Sys, m: WordMem)
    requires Sized(g, y.s)
  {
    var s, l := y.s, At0(g, y.s);
    && s.rspCnt <= s.reqCnt <= g.words && s.rspCnt < g.words && Missed(g, s)
    && y.bus == Bus(m, FillQueue(g, s.saved, s.rspCnt, s.reqCnt))
    && Coherent(g, s.lines, m, l.idx, s.victim)
    && (forall k | 0 <= k < s.rspCnt ::
          s.lines[l.idx][s.victim].words[k] == AtLoc(g, Perform(m, s.saved), Loc(l.tag, l.idx, k)))
    && (l.woff < s.rspCnt ==> s.target == At(m, s.saved.addr))
  }

  predicate StoringOk(g: Geometry, y: Sys, m: WordMem)
    requires Sized(g, y.s)
  {
    && y.s.saved.wen && !y.s.seen
    && y.bus == Bus(m, if y.s.fired then [y.s.saved] else [])
    && Coherent(g, y.s.lines, Perform(m, y.s.saved), 0, NOWHERE)
  }

  // The cache and its memory against the flat memory `m` as it was when the request now being
  // served, if any, was accepted.
  predicate Good(g: Geometry, y: Sys, m: WordMem)
    requires Sized(g, y.s)
  {
    match y.s.phase
    case Idle => y.bus == Bus(m, []) && Coherent(g, y.s.lines, m, 0, NOWHERE)
    case Lookup =>
      && y.bus == Bus(m, []) && Coherent(g, y.s.lines, m, 0, NOWHERE)
      && y.s.rd == ReadSet(g, y.s.lines, At0(g, y.s))
    case Fill => FillOk(g, y, m)
    case Done =>
      && y.bus == Bus(Perform(m, y.s.saved), []) && Coherent(g, y.s.lines, Perform(m, y.s.saved), 0, NOWHERE)
      && (!y.s.saved.wen ==> Rdata(y.s) == At(m, y.s.saved.addr))
    case _ => StoringOk(g, y, m)
  }

  predicate Matches(g: Geometry, y: Sys, f: Flat)
    requires Sized(g, y.s)
  {
    f.legal && f.pending == (if y.s.phase.Idle? then NoReq else Ask(y.s.saved)) && Good(g, y, f.mem)
  }

  // ---- one cycle, phase by phase ----

  lemma LinesStay(g: Geometry, s: Regs, rsp: MemRsp)
    requires Sized(g, s) && !s.phase.Fill? && !(s.phase.Lookup? && s.saved.wen && HitWay(s.rd, At0(g, s).tag).Way?)
    ensures NextLines(g, s, rsp) == s.lines
  {
    var ls := NextLines(g, s, rsp);
    forall i | 0 <= i < g.sets
      ensures ls[i] == s.lines[i]
    {
      forall w | 0 <= w < WAYS
        ensures ls[i][w] == s.lines[i][w]
      {
        assert NextLine(g, s, i, w, rsp).words == s.lines[i][w].words;
      }
    }
  }

  lemma IdleStep(g: Geometry, y: Sys, m: WordMem, i: In)
    requires Sized(g, y.s) && y.s.phase.Idle? && Good(g, y, m)
    ensures Good(g, Cycle(g, y, i), m)
  {
    hide Coherent;
    LinesStay(g, y.s, Response(g, y.s, y.bus, i));
  }

  lemma LookupStep(g: Geometry, y: Sys, m: WordMem, i: In)
    requires Sized(g, y.s) && y.s.phase.Lookup? && Good(g, y, m)
    ensures Good(g, Cycle(g, y, i), m)
  {
    var s, l := y.s, At0(g, y.s);
    var z := Cycle(g, y, i);
    match HitWay(s.rd, l.tag) {
      case Way(w) =>
        if s.saved.wen {
          HitStore(g, s, m, w, NoRsp);
        } else {
          LinesStay(g, s, NoRsp);
          JoinSplit(g, s.saved.addr);
          assert Mirrors(g, m, l.idx, s.lines[l.idx][w]);
        }
      case NoWay =>
        LinesStay(g, s, NoRsp);
        MissedInLines(g, s);
        EmptyFillQueue(g, s.saved, 0);
    }
  }

  lemma MissedInLines(g: Geometry, s: Regs)
    requires Sized(g, s) && s.rd == ReadSet(g, s.lines, At0(g, s)) && HitWay(s.rd, At0(g, s).tag).NoWay?
    ensures Missed(g, s)
  {
    var l := At0(g, s);
    forall w | 0 <= w < WAYS && s.lines[l.idx][w].valid
      ensures s.lines[l.idx][w].tag != l.tag
    {
      assert !WayHits(s.rd[w], l.tag);
    }
  }

  // A store hit merges its bytes into the one line that holds the address, and no other line does.
  lemma HitStore(g: Geometry, s: Regs, m: WordMem, w: nat, rsp: MemRsp)
    requires Sized(g, s) && s.phase.Lookup? && s.saved.wen && s.rd == ReadSet(g, s.lines, At0(g, s))
    requires HitWay(s.rd, At0(g, s).tag) == Way(w) && Coherent(g, s.lines, m, 0, NOWHERE)
    ensures Coherent(g, NextLines(g, s, rsp), Perform(m, s.saved), 0, NOWHERE)
  {
    var l: Loc, ls: Lines := At0(g, s), NextLines(g, s, rsp);
    forall i, v | 0 <= i < g.sets && 0 <= v < WAYS && ls[i][v].valid
      ensures Mirrors(g, Perform(m, s.saved), i, ls[i][v])
    {
      assert s.lines[i][v].valid && Mirrors(g, m, i, s.lines[i][v]);
      assert i == l.idx && v != w ==> s.lines[i][v].tag != s.lines[i][w].tag by { assert DistinctTags(s.lines[i]); }
      forall k | 0 <= k < g.words
        ensures ls[i][v].words[k] == AtLoc(g, Perform(m, s.saved), Loc(ls[i][v].tag, i, k))
      {
        PokeAtLoc(g, m, s.saved.addr, s.saved.wdata, s.saved.wmask, Loc(ls[i][v].tag, i, k));
      }
    }
    SameTagsDistinct(g, s, rsp);
  }

  lemma SameTagsDistinct(g: Geometry, s: Regs, rsp: MemRsp)
    requires Sized(g, s) && !FillCompletes(g, s, rsp)
    requires forall i | 0 <= i < g.sets :: DistinctTags(s.lines[i])
    ensures forall i | 0 <= i < g.sets :: DistinctTags(NextLines(g, s, rsp)[i])
  {
    var ls := NextLines(g, s, rsp);
    forall i | 0 <= i < g.sets
      ensures DistinctTags(ls[i])
    {
      assert DistinctTags(s.lines[i]);
      assert forall w | 0 <= w < WAYS :: ls[i][w].valid == s.lines[i][w].valid && ls[i][w].tag == s.lines[i][w].tag;
    }
  }

  lemma StoringStep(g: Geometry, y: Sys, m: WordMem, i: In)
    requires Sized(g, y.s) && (y.s.phase.Wt? || y.s.phase.WtMiss?) && Good(g, y, m)
    ensures Good(g, Cycle(g, y, i), m)
  {
    hide Coherent;
    LinesStay(g, y.s, Response(g, y.s, y.bus, i));
  }

  lemma DoneStep(g: Geometry, y: Sys, m: WordMem, i: In)
    requires Sized(g, y.s) && y.s.phase.Done? && Good(g, y, m)
    ensures Good(g, Cycle(g, y, i), Perform(m, y.s.saved))
  {
    hide Coherent;
    LinesStay(g, y.s, Response(g, y.s, y.bus, i));
  }

  // The queue of a fill, and the word the memory answers with.
  lemma FillBus(g: Geometry, y: Sys, m: WordMem, i: In)
    requires Sized(g, y.s) && y.s.phase.Fill? && FillOk(g, y, m)
    ensures var s := y.s;
            var rsp := Response(g, s, y.bus, i);
            var req := if MemRequest(g, s).Ask? && i.ready then s.reqCnt + 1 else s.reqCnt;
            && req <= g.words && (rsp.Rsp? ==> s.rspCnt < req && rsp.data == At(m, FillAddr(g, s.saved, s.rspCnt)))
            && BusNext(g, s, y.bus, i)
               == Bus(m, FillQueue(g, s.saved, if rsp.Rsp? then s.rspCnt + 1 else s.rspCnt, req))
  {
    var s := y.s;
    var req := if MemRequest(g, s).Ask? && i.ready then s.reqCnt + 1 else s.reqCnt;
    assert Queue(g, s, y.bus, i) == FillQueue(g, s.saved, s.rspCnt, req);
    if s.rspCnt < req {
      assert FillQueue(g, s.saved, s.rspCnt, req)[1..] == FillQueue(g, s.saved, s.rspCnt + 1, req);
    }
  }

  lemma OtherLinesStay(g: Geometry, s: Regs, rsp: MemRsp, i: nat, w: nat)
    requires Sized(g, s) && s.phase.Fill? && i < g.sets && w < WAYS && !(i == At0(g, s).idx && w == s.victim)
    ensures NextLines(g, s, rsp)[i][w] == s.lines[i][w]
  {
    assert NextLine(g, s, i, w, rsp).words == s.lines[i][w].words;
  }

  lemma VictimWord(g: Geometry, s: Regs, m: WordMem, rsp: MemRsp, k: nat)
    requires Sized(g, s) && s.phase.Fill? && s.rspCnt < g.words && k < s.rspCnt + (if rsp.Rsp? then 1 else 0)
    requires rsp.Rsp? ==> rsp.data == At(m, FillAddr(g, s.saved, s.rspCnt))
    requires var l := At0(g, s);
             k < s.rspCnt ==> s.lines[l.idx][s.victim].words[k] == AtLoc(g, Perform(m, s.saved), Loc(l.tag, l.idx, k))
    ensures var l := At0(g, s);
            NextLines(g, s, rsp)[l.idx][s.victim].words[k] == AtLoc(g, Perform(m, s.saved), Loc(l.tag, l.idx, k))
  {
    hide Split, Join, Poke, Merge;
    var l := At0(g, s);
    assert NextLine(g, s, l.idx, s.victim, rsp).words[k]
           == WordWritten(g, s, k, s.victim, s.lines[l.idx][s.victim].words[k], rsp);
    PokeAtLoc(g, m, s.saved.addr, s.saved.wdata, s.saved.wmask, Loc(l.tag, l.idx, k));
  }

  // A fill response lands in the victim line only, merged with the store if it is the target word.
  lemma FillLines(g: Geometry, s: Regs, m: WordMem, rsp: MemRsp)
    requires Sized(g, s) && s.phase.Fill? && s.rspCnt < g.words
    requires rsp.Rsp? ==> rsp.data == At(m, FillAddr(g, s.saved, s.rspCnt))
    requires var l := At0(g, s);
             forall k | 0 <= k < s.rspCnt ::
               s.lines[l.idx][s.victim].words[k] == AtLoc(g, Perform(m, s.saved), Loc(l.tag, l.idx, k))
    ensures var l, ls := At0(g, s), NextLines(g, s, rsp);
            && (forall i, w | 0 <= i < g.sets && 0 <= w < WAYS && !(i == l.idx && w == s.victim) ::
                  ls[i][w] == s.lines[i][w])
            && (forall k | 0 <= k < s.rspCnt + (if rsp.Rsp? then 1 else 0) ::
                  ls[l.idx][s.victim].words[k] == AtLoc(g, Perform(m, s.saved), Loc(l.tag, l.idx, k)))
  {
    hide NextLines, Perform, AtLoc, Split;
    var l: Loc, ls: Lines := At0(g, s), NextLines(g, s, rsp);
    forall i, w | 0 <= i < g.sets && 0 <= w < WAYS && !(i == l.idx && w == s.victim)
      ensures ls[i][w] == s.lines[i][w]
    {
      OtherLinesStay(g, s, rsp, i, w);
    }
    forall k | 0 <= k < s.rspCnt + (if rsp.Rsp? then 1 else 0)
      ensures ls[l.idx][s.victim].words[k] == AtLoc(g, Perform(m, s.saved), Loc(l.tag, l.idx, k))
    {
      VictimWord(g, s, m, rsp, k);
    }
  }

  // The last response of a fill installs a line that memory agrees with, once the store has landed.
  lemma FillInstalls(g: Geometry, s: Regs, m: WordMem, rsp: MemRsp)
    requires Sized(g, s) && FillCompletes(g, s, rsp) && rsp.Rsp? && Missed(g, s)
    requires Coherent(g, s.lines, m, At0(g, s).idx, s.victim)
    requires var l: Loc, ls: Lines := At0(g, s), NextLines(g, s, rsp);
             && (forall i, w | 0 <= i < g.sets && 0 <= w < WAYS && !(i == l.idx && w == s.victim) ::
                   ls[i][w] == s.lines[i][w])
             && (forall k | 0 <= k < g.words ::
                   ls[l.idx][s.victim].words[k] == AtLoc(g, Perform(m, s.saved), Loc(l.tag, l.idx, k)))
    ensures Coherent(g, NextLines(g, s, rsp), Perform(m, s.saved), 0, NOWHERE)
  {
    var l: Loc, ls: Lines := At0(g, s), NextLines(g, s, rsp);
    forall i, w | 0 <= i < g.sets && 0 <= w < WAYS && ls[i][w].valid
      ensures Mirrors(g, Perform(m, s.saved), i, ls[i][w])
    {
      if !(i == l.idx && w == s.victim) {
        assert Mirrors(g, m, i, s.lines[i][w]);
        forall k | 0 <= k < g.words
          ensures ls[i][w].words[k] == AtLoc(g, Perform(m, s.saved), Loc(ls[i][w].tag, i, k))
        {
          PokeAtLoc(g, m, s.saved.addr, s.saved.wdata, s.saved.wmask, Loc(ls[i][w].tag, i, k));
        }
      }
    }
    forall i | 0 <= i < g.sets
      ensures DistinctTags(ls[i])
    {
      assert DistinctTags(s.lines[i]);
    }
  }

  lemma EmptyFillQueue(g: Geometry, saved: Req, k: nat)
    requires Sane(g)
    ensures FillQueue(g, saved, k, k) == []
  {
  }

  lemma FillStepMore(g: Geometry, y: Sys, m: WordMem, i: In)
    requires Sized(g, y.s) && y.s.phase.Fill? && FillOk(g, y, m)
    requires !FillCompletes(g, y.s, Response(g, y.s, y.bus, i))
    ensures Cycle(g, y, i).s.phase.Fill? && FillOk(g, Cycle(g, y, i), m)
  {
    hide NextLines, NextPlru, ReadSet, Coherent, Split, Poke, BusNext, Response, FillQueue;
    var s := y.s;
    var rsp := Response(g, s, y.bus, i);
    FillBus(g, y, m, i);
    FillLines(g, s, m, rsp);
    JoinSplit(g, s.saved.addr);
    FillGoesOn(g, s, m, rsp);
  }

  lemma FillStepLast(g: Geometry, y: Sys, m: WordMem, i: In)
    requires Sized(g, y.s) && y.s.phase.Fill? && FillOk(g, y, m)
    requires FillCompletes(g, y.s, Response(g, y.s, y.bus, i))
    ensures Good(g, Cycle(g, y, i), m)
  {
    hide NextLines, NextPlru, ReadSet, Coherent, Split, Poke, BusNext, Response, FillQueue;
    var s := y.s;
    var rsp := Response(g, s, y.bus, i);
    FillBus(g, y, m, i);
    FillLines(g, s, m, rsp);
    JoinSplit(g, s.saved.addr);
    FillInstalls(g, s, m, rsp);
    EmptyFillQueue(g, s.saved, g.words);
    assert Cycle(g, y, i).s.phase == if s.saved.wen then WtMiss else Done;
  }

  lemma FillStep(g: Geometry, y: Sys, m: WordMem, i: In)
    requires Sized(g, y.s) && y.s.phase.Fill? && Good(g, y, m)
    ensures Good(g, Cycle(g, y, i), m)
  {
    hide Cycle, FillOk, FillCompletes;
    assert FillOk(g, y, m);
    if FillCompletes(g, y.s, Response(g, y.s, y.bus, i)) {
      FillStepLast(g, y, m, i);
    } else {
      FillStepMore(g, y, m, i);
    }
  }

  lemma FillGoesOn(g: Geometry, s: Regs, m: WordMem, rsp: MemRsp)
    requires Sized(g, s) && s.phase.Fill? && !FillCompletes(g, s, rsp) && Missed(g, s)
    requires Coherent(g, s.lines, m, At0(g, s).idx, s.victim)
    requires var l: Loc, ls: Lines := At0(g, s), NextLines(g, s, rsp);
             forall i, w | 0 <= i < g.sets && 0 <= w < WAYS && !(i == l.idx && w == s.victim) ::
               ls[i][w] == s.lines[i][w]
    ensures Coherent(g, NextLines(g, s, rsp), m, At0(g, s).idx, s.victim)
    ensures var l: Loc, ls: Lines := At0(g, s), NextLines(g, s, rsp);
            forall w | 0 <= w < WAYS && ls[l.idx][w].valid :: ls[l.idx][w].tag != l.tag
  {
    SameTagsDistinct(g, s, rsp);
    var l: Loc, ls: Lines := At0(g, s), NextLines(g, s, rsp);
    assert ls[l.idx][s.victim].valid == s.lines[l.idx][s.victim].valid
        && ls[l.idx][s.victim].tag == s.lines[l.idx][s.victim].tag;
  }

  // ---- over every run ----

  lemma ControlFlow(g: Geometry, s: Regs, req: MaybeReq, ready: bool, rsp: MemRsp)
    requires Sized(g, s)
    ensures var t := Control(g, s, req, ready, rsp);
            && (!s.phase.Idle? ==> t.saved == s.saved && (t.phase.Idle? <==> s.phase.Done?))
            && (s.phase.Idle? ==> t.phase == (if req.Ask? then Lookup else Idle) && (req.Ask? ==> t.saved == req.req))
  {
  }

  lemma MatchesStep(g: Geometry, y: Sys, f: Flat, i: In)
    requires Sized(g, y.s) && Matches(g, y, f)
    ensures var e := if y.s.phase.Idle? && i.req.Ask? then Observe(f, Asked(i.req.req))
                     else if y.s.phase.Done? then Observe(f, Answered(Rdata(y.s))) else f;
            Matches(g, Cycle(g, y, i), e)
  {
    hide Good, NextLines, NextPlru, ReadSet, BusNext, Control;
    ControlFlow(g, y.s, i.req, i.ready, Response(g, y.s, y.bus, i));
    match y.s.phase {
      case Idle => IdleStep(g, y, f.mem, i);
      case Lookup => LookupStep(g, y, f.mem, i);
      case Fill => FillStep(g, y, f.mem, i);
      case Done => DoneStep(g, y, f.mem, i); DoneAnswers(g, y, f.mem);
      case _ => StoringStep(g, y, f.mem, i);
    }
  }

  lemma DoneAnswers(g: Geometry, y: Sys, m: WordMem)
    requires Sized(g, y.s) && y.s.phase.Done? && Good(g, y, m)
    ensures !y.s.saved.wen ==> Rdata(y.s) == At(m, y.s.saved.addr)
  {
  }

  lemma FreshIsGood(g: Geometry, y: Sys)
    requires Fresh(g, y)
    ensures Good(g, y, y.bus.mem)
  {
  }

  lemma {:induction false} RunMatches(g: Geometry, y: Sys, ins: seq<In>)
    requires Fresh(g, y)
    ensures Matches(g, Run(g, y, ins), Replay(y.bus.mem, Run(g, y, ins).history))
  {
    hide Good, Next, BusNext, Rdata;
    if ins == [] {
      FreshIsGood(g, y);
    } else {
      var before, i := ins[..|ins| - 1], ins[|ins| - 1];
      RunMatches(g, y, before);
      var z := Run(g, y, before);
      MatchesStep(g, z, Replay(y.bus.mem, z.history), i);
      var h := Cycle(g, z, i).history;
      if |h| > |z.history| {
        assert h[..|h| - 1] == z.history;
      } else {
        assert h == z.history;
      }
    }
  }

  // The cache is indistinguishable from flat memory: over every run, with any memory latency, each
  // accepted request is answered once before the next is accepted, loads return the last value
  // stored, and whenever the cache is idle the memory behind it is the flat memory, every valid line
  // equals memory and no set holds two lines of the same tag.
  lemma CacheIsFlatMemory(g: Geometry, y: Sys, ins: seq<In>)
    requires Fresh(g, y)
    ensures var z := Run(g, y, ins);
            var f := Replay(y.bus.mem, z.history);
            && f.legal
            && (z.s.phase.Idle? <==> f.pending.NoReq?)
            && (z.s.phase.Idle? ==> z.bus == Bus(f.mem, []) && Coherent(g, z.s.lines, z.bus.mem, 0, NOWHERE))
            && (z.bus.mem == f.mem || (f.pending.Ask? && z.bus.mem == Perform(f.mem, f.pending.req)))
  {
    hide Next, BusNext, Rdata, Replay;
    RunMatches(g, y, ins);
  }

  // ---- every request is answered ----

  // Granted cycles left until the answer, at most.
  function Wait(g: Geometry, s: Regs): nat {
    match s.phase
    case Idle => 0
    case Done => 1
    case Wt => 2
    case WtMiss => 2
    case Fill => 3 + if s.rspCnt < g.words then g.words - s.rspCnt else 0
    case Lookup => g.words + 4
  }

  // No cycle loses ground, a granted one gains it, and the answer is given in the last.
  lemma WaitDecreases(g: Geometry, y: Sys, m: WordMem, i: In)
    requires Sized(g, y.s) && !y.s.phase.Idle? && Good(g, y, m)
    ensures var z := Cycle(g, y, i);
            && Wait(g, z.s) <= Wait(g, y.s)
            && (i.ready && i.respond ==> Wait(g, z.s) < Wait(g, y.s))
            && (z.s.phase.Idle? <==> z.history == y.history + [Answered(Rdata(y.s))])
  {
    hide NextLines, NextPlru, ReadSet, Coherent, Split, Poke, BusNext, AfterLookup, AfterFill, AfterStoring;
    var s, rsp := y.s, Response(g, y.s, y.bus, i);
    ControlFlow(g, s, i.req, i.ready, rsp);
    match s.phase {
      case Lookup => LookupWait(g, s);
      case Fill => FillWait(g, y, m, i);
      case Done =>
      case _ => StoringWait(g, y, m, i);
    }
  }

  lemma LookupWait(g: Geometry, s: Regs)
    requires Sized(g, s) && s.phase.Lookup?
    ensures Wait(g, AfterLookup(g, s)) < Wait(g, s)
  {
  }

  lemma FillWait(g: Geometry, y: Sys, m: WordMem, i: In)
    requires Sized(g, y.s) && y.s.phase.Fill? && FillOk(g, y, m)
    ensures var t := AfterFill(g, y.s, i.ready, Response(g, y.s, y.bus, i));
            Wait(g, t) <= Wait(g, y.s) && (i.ready && i.respond ==> Wait(g, t) < Wait(g, y.s))
  {
    hide Coherent, Split, BusNext;
    FillBus(g, y, m, i);
  }

  lemma StoringWait(g: Geometry, y: Sys, m: WordMem, i: In)
    requires Sized(g, y.s) && (y.s.phase.Wt? || y.s.phase.WtMiss?) && StoringOk(g, y, m)
    ensures var t := AfterStoring(g, y.s, i.ready, Response(g, y.s, y.bus, i));
            Wait(g, t) <= Wait(g, y.s) && (i.ready && i.respond ==> Wait(g, t) < Wait(g, y.s))
  {
    hide Coherent, Split;
  }

  function GrantedCycles(ins: seq<In>, from: nat): nat
    requires from <= |ins|
  {
    if |ins| == from then 0
    else
      var i := ins[|ins| - 1];
      GrantedCycles(ins[..|ins| - 1], from) + if i.ready && i.respond then 1 else 0
  }

  // Whatever the latencies, a request is answered within LINE_WORDS + 4 granted cycles.
  lemma {:induction false} AnsweredInTime(g: Geometry, y: Sys, ins: seq<In>, from: nat)
    requires Fresh(g, y) && from <= |ins|
    requires forall k | from <= k <= |ins| :: !Run(g, y, ins[..k]).s.phase.Idle?
    ensures GrantedCycles(ins, from) + Wait(g, Run(g, y, ins).s) <= g.words + 4
  {
    hide Cycle, Good;
    assert ins[..|ins|] == ins;
    if |ins| > from {
      var before := ins[..|ins| - 1];
      forall k | from <= k <= |before|
        ensures !Run(g, y, before[..k]).s.phase.Idle?
      {
        assert before[..k] == ins[..k];
      }
      AnsweredInTime(g, y, before, from);
      RunMatches(g, y, before);
      assert before[..|before|] == before;
      WaitDecreases(g, Run(g, y, before), Replay(y.bus.mem, Run(g, y, before).history).mem, ins[|ins| - 1]);
    }
  }

  // ---- the clocked block ----

  class DataCache {
    const g: Geometry
    var phase: Phase
    var saved: Req
    var reqCnt: nat
    var rspCnt: nat
    var victim: nat
    var rspHit: bool
    var rspWay: nat
    var target: Word
    var fired: bool
    var seen: bool
    var rd: seq<ReadOut>
    var lines: Lines
    var plru: seq<Plru>

    function State(): Regs
      reads this
    {
      Regs(phase, saved, reqCnt, rspCnt, victim, rspHit, rspWay, target, fired, seen, rd, lines, plru)
    }

    ghost predicate Valid()
      reads this
    {
      Sized(g, State())
    }

    constructor (g: Geometry)
      requires Sane(g)
      ensures Valid() && this.g == g && Fresh(g, Sys(State(), Bus(map[], []), []))
    {
      this.g := g;
      phase, saved := Idle, Req(0, false, 0, NO_BYTES);
      reqCnt, rspCnt, victim, rspHit, rspWay, target, fired, seen := 0, 0, 0, false, 0, 0, false, false;
      rd := seq(WAYS, _ => ReadOut(false, 0, 0));
      lines := seq(g.sets, _ => seq(WAYS, _ => Line(false, 0, seq(g.words, _ => 0))));
      plru := seq(g.sets, _ => Plru(false, false, false));
    }

    // A scan over the ways in which a later hit overrides an earlier one.
    method HitDetect() returns (h: Way)
      requires Valid()
      ensures h == HitWay(rd, At0(g, State()).tag)
    {
      h := NoWay;
      for w := 0 to WAYS
        invariant h == HitUpTo(rd, At0(g, State()).tag, w)
      {
        if rd[w].valid && rd[w].tag == At0(g, State()).tag { h := Way(w); }
      }
    }

    // The data, tag and valid RAMs' write ports.
    method RamPorts(rsp: MemRsp) returns (ls: Lines)
      requires Valid()
      ensures ls == NextLines(g, State(), rsp)
    {
      var s, l := State(), At0(g, State());
      var hit := HitDetect();
      ls := lines;
      for w := 0 to WAYS
        invariant |ls| == g.sets && forall i | 0 <= i < g.sets :: |ls[i]| == WAYS
        invariant forall i, v | 0 <= i < g.sets && 0 <= v < WAYS ::
                    ls[i][v] == if v < w then NextLine(g, s, i, v, rsp) else lines[i][v]
      {
        var line := lines[l.idx][w];
        if phase.Lookup? && saved.wen && hit == Way(w) {
          line := line.(words := line.words[l.woff := Merge(line.words[l.woff], saved.wdata, saved.wmask)]);
        }
        if phase.Fill? && rsp.Rsp? && w == victim {
          var k := Low(g, rspCnt);
          line := line.(words := line.words[k :=
            if saved.wen && k == l.woff then Merge(rsp.data, saved.wdata, saved.wmask) else rsp.data]);
        }
        if FillCompletes(g, s, rsp) && w == victim { line := line.(tag := l.tag, valid := true); }
        assert line.words == NextLine(g, s, l.idx, w, rsp).words;
        UntouchedSets(s, w, rsp);
        ls := ls[l.idx := ls[l.idx][w := line]];
      }
      SameLines(ls, NextLines(g, s, rsp));
    }

    lemma UntouchedSets(s: Regs, w: nat, rsp: MemRsp)
      requires Sized(g, s) && w < WAYS
      ensures forall i | 0 <= i < g.sets && i != At0(g, s).idx :: NextLine(g, s, i, w, rsp) == s.lines[i][w]
    {
    }

    // The next-state block, state by state: hold by default, then override.

    method LookupFsm() returns (t: Regs)
      requires Valid()
      ensures t == AfterLookup(g, State())
    {
      var hit := HitDetect();
      t := State();
      if hit.Way? {
        t := t.(rspHit := true, rspWay := hit.w, phase := Done);
        if saved.wen { t := t.(fired := false, seen := false, phase := Wt); }
      } else {
        t := t.(victim := PlruPick(plru[At0(g, t).idx]), reqCnt := 0, rspCnt := 0, phase := Fill);
      }
    }

    method FillFsm(ready: bool, rsp: MemRsp) returns (t: Regs)
      requires Valid() && phase.Fill?
      ensures t == AfterFill(g, State(), ready, rsp)
    {
      t := State();
      if MemRequest(g, State()).Ask? && ready { t := t.(reqCnt := reqCnt + 1); }
      if rsp.Rsp? {
        t := t.(rspCnt := rspCnt + 1);
        if Low(g, rspCnt) == At0(g, State()).woff { t := t.(target := rsp.data); }
      }
      if t.rspCnt == g.words {
        t := t.(rspHit := false, rspWay := victim, phase := Done);
        if saved.wen { t := t.(fired := false, seen := false, phase := WtMiss); }
      }
    }

    method StoreFsm(ready: bool, rsp: MemRsp) returns (t: Regs)
      requires Valid()
      ensures t == AfterStoring(g, State(), ready, rsp)
    {
      t := State();
      if MemRequest(g, State()).Ask? && ready { t := t.(fired := true); }
      if rsp.Rsp? { t := t.(seen := true); }
      if t.fired && t.seen { t := t.(phase := Done); }
    }

    method Fsm(req: MaybeReq, ready: bool, rsp: MemRsp) returns (t: Regs)
      requires Valid()
      ensures t == Control(g, State(), req, ready, rsp)
    {
      hide AfterLookup, AfterFill, AfterStoring;
      match phase {
        case Idle => t := State(); if req.Ask? { t := t.(phase := Lookup, saved := req.req); }
        case Lookup => t := LookupFsm();
        case Fill => t := FillFsm(ready, rsp);
        case Done => t := State().(phase := Idle);
        case _ => t := StoreFsm(ready, rsp);
      }
    }

    method LoadControl(t: Regs)
      modifies `phase, `saved, `reqCnt, `rspCnt, `victim, `rspHit, `rspWay, `target, `fired, `seen
      ensures State() == t.(rd := rd, lines := lines, plru := plru)
    {
      phase, saved, reqCnt, rspCnt, victim := t.phase, t.saved, t.reqCnt, t.rspCnt, t.victim;
      rspHit, rspWay, target, fired, seen := t.rspHit, t.rspWay, t.target, t.fired, t.seen;
    }

    // One rising edge.
    method Clock(req: MaybeReq, ready: bool, rsp: MemRsp)
      requires Valid()
      modifies this
      ensures Valid() && State() == Next(g, old(State()), req, ready, rsp)
    {
      hide Control, NextLines, NextPlru, ReadSet;
      var s := State();
      var look := if phase.Idle? && req.Ask? then Split(g, req.req.addr) else At0(g, s);
      var t := Fsm(req, ready, rsp);
      var linesD := RamPorts(rsp);
      var rdD, plruD := ReadSet(g, lines, look), NextPlru(g, s, rsp);
      LoadControl(t);
      rd, lines, plru := rdD, linesD, plruD;
    }
  }
}
