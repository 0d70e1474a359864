/**
 The instruction cache (rtl/cache/icache.sv).
 */
module Icache {
  import opened Rv32
  import opened CacheArray

  datatype Phase = Idle | Lookup | Fill | Done

  datatype MaybeAddr = NoAddr | Fetch(addr: nat)

  datatype MemRsp = NoRsp | Rsp(data: Word, fault: bool)

  datatype Regs = Regs(
    phase: Phase, saved: nat, reqCnt: nat, rspCnt: nat, victim: nat, fillFault: bool,
    rspHit: bool, rspWay: nat, target: Word, rd: seq<ReadOut>, lines: Lines, plru: seq<Plru>)

  predicate Sized(g: Geometry, s: Regs) {
    && Sane(g) && Shaped(g, s.lines) && |s.plru| == g.sets && |s.rd| == WAYS && s.victim < WAYS && s.rspWay < WAYS
  }

  function FillAddr(g: Geometry, saved: nat, k: nat): nat
    requires Sane(g)
  {
    var l := Split(g, saved);
    Join(g, Loc(l.tag, l.idx, k))
  }

  function MemRequest(g: Geometry, s: Regs): MaybeAddr
    requires Sane(g)
  {
    if s.phase.Fill? && s.reqCnt < g.words then Fetch(FillAddr(g, s.saved, s.reqCnt)) else NoAddr
  }

  function Rdata(s: Regs): Word
    requires |s.rd| == WAYS && s.rspWay < WAYS
  {
    if s.rspHit then s.rd[s.rspWay].data else s.target
  }

  function Low(g: Geometry, n: nat): (k: nat)
    requires Sane(g)
    ensures k < g.words
  {
    if n < g.words then n else n % g.words
  }

  // A response that carries data.
  predicate Good(rsp: MemRsp) { rsp.Rsp? && !rsp.fault }

  predicate FillCompletes(g: Geometry, s: Regs, rsp: MemRsp) {
    s.phase.Fill? && s.rspCnt + (if rsp.Rsp? then 1 else 0) == g.words
  }

  predicate Installs(g: Geometry, s: Regs, rsp: MemRsp) {
    FillCompletes(g, s, rsp) && !s.fillFault && !(rsp.Rsp? && rsp.fault)
  }

  function Cleared(ways: seq<Line>): (r: seq<Line>)
    ensures |r| == |ways|
  {
    seq(|ways|, w requires 0 <= w < |ways| => ways[w].(valid := false))
  }

  // A line after a cycle. An invalidate clears every valid bit but that of a line just installed.
  function NextLine(g: Geometry, s: Regs, i: nat, w: nat, rsp: MemRsp, invalidate: bool): (l: Line)
    requires Sized(g, s) && i < g.sets && w < WAYS
    ensures |l.words| == g.words
  {
    var was, at := s.lines[i][w], Split(g, s.saved);
    var mine := i == at.idx && w == s.victim;
    var words := if mine && s.phase.Fill? && Good(rsp) then was.words[Low(g, s.rspCnt) := rsp.data] else was.words;
    if mine && Installs(g, s, rsp) then Line(true, at.tag, words)
    else Line(was.valid && !invalidate, was.tag, words)
  }

  function NextLines(g: Geometry, s: Regs, rsp: MemRsp, invalidate: bool): (ls: Lines)
    requires Sized(g, s)
    ensures Shaped(g, ls)
  {
    seq(g.sets, i requires 0 <= i < g.sets =>
      seq(WAYS, w requires 0 <= w < WAYS => NextLine(g, s, i, w, rsp, invalidate)))
  }

  function NextPlru(g: Geometry, s: Regs, rsp: MemRsp): (p: seq<Plru>)
    requires Sized(g, s)
    ensures |p| == g.sets
  {
    var l := Split(g, s.saved);
    if s.phase.Lookup? && HitWay(s.rd, l.tag).Way?
    then s.plru[l.idx := PlruUpdate(s.plru[l.idx], HitWay(s.rd, l.tag).w)]
    else if Installs(g, s, rsp) then s.plru[l.idx := PlruUpdate(s.plru[l.idx], s.victim)]
    else s.plru
  }

  function AfterFill(g: Geometry, s: Regs, ready: bool, rsp: MemRsp): (t: Regs)
    requires Sized(g, s)
    ensures t.victim < WAYS && t.rspWay < WAYS && t.rd == s.rd && t.lines == s.lines && t.plru == s.plru
  {
    var t := s.(reqCnt := if MemRequest(g, s).Fetch? && ready then s.reqCnt + 1 else s.reqCnt,
                rspCnt := if rsp.Rsp? then s.rspCnt + 1 else s.rspCnt,
                fillFault := s.fillFault || (rsp.Rsp? && rsp.fault),
                target := if Good(rsp) && Low(g, s.rspCnt) == Split(g, s.saved).woff then rsp.data else s.target);
    if FillCompletes(g, s, rsp) then t.(rspHit := false, rspWay := s.victim, phase := Done) else t
  }

  function Control(g: Geometry, s: Regs, req: MaybeAddr, ready: bool, rsp: MemRsp): (t: Regs)
    requires Sized(g, s)
    ensures t.victim < WAYS && t.rspWay < WAYS && t.rd == s.rd && t.lines == s.lines && t.plru == s.plru
  {
    match s.phase
    case Idle => if req.Fetch? then s.(phase := Lookup, saved := req.addr) else s
    case Lookup =>
      (match HitWay(s.rd, Split(g, s.saved).tag)
       case Way(w) => s.(rspHit := true, rspWay := w, phase := Done)
       case NoWay =>
         s.(victim := PlruPick(s.plru[Split(g, s.saved).idx]), reqCnt := 0, rspCnt := 0, fillFault := false,
            phase := Fill))
    case Fill => AfterFill(g, s, ready, rsp)
    case Done => s.(phase := Idle)
  }

  function Next(g: Geometry, s: Regs, req: MaybeAddr, ready: bool, rsp: MemRsp, invalidate: bool): (t: Regs)
    requires Sized(g, s)
    ensures Sized(g, t)
  {
    var look := if s.phase.Idle? && req.Fetch? then Split(g, req.addr) else Split(g, s.saved);
    Control(g, s, req, ready, rsp)
      .(rd := ReadSet(g, s.lines, look), lines := NextLines(g, s, rsp, invalidate), plru := NextPlru(g, s, rsp))
  }

  // After reset: every line invalid, whatever the tag and data arrays hold.
  predicate Blank(g: Geometry, s: Regs) {
    && Sized(g, s) && s.phase.Idle?
    && forall i, w | 0 <= i < g.sets && 0 <= w < WAYS :: !s.lines[i][w].valid
  }

  // ---- the clocked block ----

  class InstructionCache {
    const g: Geometry
    var phase: Phase
    var saved: nat
    var reqCnt: nat
    var rspCnt: nat
    var victim: nat
    var fillFault: bool
    var rspHit: bool
    var rspWay: nat
    var target: Word
    var rd: seq<ReadOut>
    var lines: Lines
    var plru: seq<Plru>

    function State(): Regs
      reads this
    {
      Regs(phase, saved, reqCnt, rspCnt, victim, fillFault, rspHit, rspWay, target, rd, lines, plru)
    }

    ghost predicate Valid()
      reads this
    {
      Sized(g, State())
    }

    constructor (g: Geometry)
      requires Sane(g)
      ensures Valid() && this.g == g && Blank(g, State())
    {
      this.g := g;
      phase, saved, reqCnt, rspCnt, victim, fillFault := Idle, 0, 0, 0, 0, false;
      rspHit, rspWay, target := false, 0, 0;
      rd := seq(WAYS, _ => ReadOut(false, 0, 0));
      lines := seq(g.sets, _ => seq(WAYS, _ => Line(false, 0, seq(g.words, _ => 0))));
      plru := seq(g.sets, _ => Plru(false, false, false));
    }

    method HitDetect() returns (h: Way)
      requires Valid()
      ensures h == HitWay(rd, Split(g, saved).tag)
    {
      h := NoWay;
      for w := 0 to WAYS
        invariant h == HitUpTo(rd, Split(g, saved).tag, w)
      {
        if rd[w].valid && rd[w].tag == Split(g, saved).tag { h := Way(w); }
      }
    }

    // The loop over the sets that clears every valid bit.
    method ClearValid() returns (ls: Lines)
      requires Valid()
      ensures |ls| == g.sets
      ensures forall i | 0 <= i < g.sets :: ls[i] == Cleared(lines[i])
    {
      ls := lines;
      for i := 0 to g.sets
        invariant |ls| == g.sets
        invariant forall j | 0 <= j < g.sets :: ls[j] == if j < i then Cleared(lines[j]) else lines[j]
      {
        ls := ls[i := Cleared(ls[i])];
      }
    }

    // The invalidate, then the fill's writes over it.
    method RamPorts(rsp: MemRsp, invalidate: bool) returns (ls: Lines)
      requires Valid()
      ensures ls == NextLines(g, State(), rsp, invalidate)
    {
      var s, l := State(), Split(g, saved);
      ls := lines;
      if invalidate { ls := ClearValid(); }
      var line := ls[l.idx][victim];
      if phase.Fill? && Good(rsp) { line := line.(words := line.words[Low(g, rspCnt) := rsp.data]); }
      if Installs(g, s, rsp) { line := line.(tag := l.tag, valid := true); }
      ls := ls[l.idx := ls[l.idx][victim := line]];
      SameLines(ls, NextLines(g, s, rsp, invalidate));
    }

    method FillFsm(ready: bool, rsp: MemRsp) returns (t: Regs)
      requires Valid()
      ensures phase.Fill? ==> t == AfterFill(g, State(), ready, rsp)
    {
      t := State();
      if MemRequest(g, State()).Fetch? && ready { t := t.(reqCnt := reqCnt + 1); }
      if rsp.Rsp? {
        t := t.(rspCnt := rspCnt + 1);
        if rsp.fault { t := t.(fillFault := true); }
      }
      if Good(rsp) && Low(g, rspCnt) == Split(g, saved).woff { t := t.(target := rsp.data); }
      if t.rspCnt == g.words { t := t.(rspHit := false, rspWay := victim, phase := Done); }
    }

    method Fsm(req: MaybeAddr, ready: bool, rsp: MemRsp) returns (t: Regs)
      requires Valid()
      ensures t == Control(g, State(), req, ready, rsp)
    {
      hide AfterFill, HitUpTo;
      t := State();
      match phase {
        case Idle => if req.Fetch? { t := t.(phase := Lookup, saved := req.addr); }
        case Lookup =>
          var hit := HitDetect();
          if hit.Way? {
            t := t.(rspHit := true, rspWay := hit.w, phase := Done);
          } else {
            t := t.(victim := PlruPick(plru[Split(g, saved).idx]), reqCnt := 0, rspCnt := 0, fillFault := false,
                    phase := Fill);
          }
        case Fill => t := FillFsm(ready, rsp);
        case Done => t := t.(phase := Idle);
      }
    }

    method LoadControl(t: Regs)
      modifies `phase, `saved, `reqCnt, `rspCnt, `victim, `fillFault, `rspHit, `rspWay, `target
      ensures State() == t.(rd := rd, lines := lines, plru := plru)
    {
      phase, saved, reqCnt, rspCnt, victim := t.phase, t.saved, t.reqCnt, t.rspCnt, t.victim;
      fillFault, rspHit, rspWay, target := t.fillFault, t.rspHit, t.rspWay, t.target;
    }

    // One rising edge.
    method Clock(req: MaybeAddr, ready: bool, rsp: MemRsp, invalidate: bool)
      requires Valid()
      modifies this
      ensures Valid() && State() == Next(g, old(State()), req, ready, rsp, invalidate)
    {
      hide Control, NextLines, NextPlru, ReadSet;
      var s := State();
      var look := if phase.Idle? && req.Fetch? then Split(g, req.addr) else Split(g, saved);
      var t := Fsm(req, ready, rsp);
      var linesD := RamPorts(rsp, invalidate);
      var rdD, plruD := ReadSet(g, lines, look), NextPlru(g, s, rsp);
      LoadControl(t);
      rd, lines, plru := rdD, linesD, plruD;
    }
  }
}
