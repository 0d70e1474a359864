/**
 The converse of freshness: whenever an invalidate catches a fill whose words memory has changed
 since, some later fetch is served the old word.
 */
module IcacheStale {
  import opened Rv32
  import opened CacheArray
  import opened Icache
  import opened IcacheFreshness

  // Only the line being filled may be valid, as after an invalidate.
  predicate OthersInvalid(g: Geometry, s: Icache.Regs)
    requires Sized(g, s)
  {
    forall i, w | 0 <= i < g.sets && 0 <= w < WAYS && s.lines[i][w].valid ::
      i == Split(g, s.saved).idx && w == s.victim
  }

  // The word v, which memory has not held at word address a since cycle t, is in word k of the line,
  // or among the possible answers to its read.
  predicate Headed(g: Geometry, x: Sys, t: nat, k: nat, v: Word)
    requires Sized(g, x.s)
  {
    var s, l, a := x.s, Split(g, x.s.saved), FillAddr(g, x.s.saved, k);
    && k < g.words && OthersInvalid(g, s) && !Held(x.snaps, t, a, v)
    && match s.phase
       case Fill =>
         && FillShaped(g, x) && k < s.reqCnt
         && if k < s.rspCnt then s.lines[l.idx][s.victim].words[k] == v
            else Held(x.snaps, x.queue[k - s.rspCnt].since, a, v)
       case Done =>
         && x.queue == [] && s.lines[l.idx][s.victim].words[k] == v
         && s.lines[l.idx][s.victim].valid && s.lines[l.idx][s.victim].tag == l.tag
       case _ => false
  }

  lemma StillNotHeld(snaps: seq<WordMem>, m: WordMem, t: nat, a: nat, v: Word)
    requires !Held(snaps, t, a, v) && At(m, a) != v
    ensures !Held(snaps + [m], t, a, v)
  {
    forall k | t <= k < |snaps + [m]|
      ensures At((snaps + [m])[k], a) != v
    {
      if k < |snaps| { assert (snaps + [m])[k] == snaps[k]; }
    }
  }

  // A cycle in which memory, now constant, takes a read and answers the oldest, word k with v.
  function Drain(g: Geometry, x: Sys, k: nat, v: Word, m: WordMem): In
    requires Sane(g)
  {
    In(NoAddr, true, Rsp(if x.s.rspCnt == k then v else At(m, FillAddr(g, x.s.saved, x.s.rspCnt)), false), false, m)
  }

  lemma DrainAllowed(g: Geometry, x: Sys, t: nat, k: nat, v: Word, m: WordMem)
    requires Sized(g, x.s) && Headed(g, x, t, k, v) && x.s.phase.Fill?
    ensures Allowed(g, x, Drain(g, x, k, v, m))
  {
    hide Split, Join;
    var i := Drain(g, x, k, v, m);
    var q := Queue(g, x, i);
    assert q != [] && q[0].addr == FillAddr(g, x.s.saved, x.s.rspCnt) && q[0].since <= |x.snaps|;
    if x.s.rspCnt == k {
      assert q[0] == x.queue[0];
      HeldLonger(x.snaps, m, q[0].since, q[0].since, q[0].addr, v);
    } else {
      HeldNow(x.snaps, m, q[0].since, q[0].addr);
    }
  }

  lemma DrainStep(g: Geometry, x: Sys, t: nat, k: nat, v: Word, m: WordMem)
    requires Sized(g, x.s) && Headed(g, x, t, k, v) && x.s.phase.Fill? && At(m, FillAddr(g, x.s.saved, k)) != v
    ensures var z := Cycle(g, x, Drain(g, x, k, v, m));
            && Headed(g, z, t, k, v) && z.s.saved == x.s.saved && z.s.victim == x.s.victim
            && z.s.rspCnt > x.s.rspCnt
  {
    hide Split, Join, Held, NextPlru, ReadSet;
    var i := Drain(g, x, k, v, m);
    var z, a := Cycle(g, x, i), FillAddr(g, x.s.saved, k);
    DrainAllowed(g, x, t, k, v, m);
    FillQueueStep(g, x, i);
    StillNotHeld(x.snaps, m, t, a, v);
    if k > x.s.rspCnt && z.s.phase.Fill? {
      var o := x.queue[k - x.s.rspCnt];
      assert z.queue[k - z.s.rspCnt] == o;
      HeldLonger(x.snaps, m, o.since, o.since, a, v);
    }
  }

  lemma RunAppend(g: Geometry, z: Sys, ins: seq<In>, i: In)
    requires Sized(g, z.s)
    ensures Run(g, z, ins + [i]) == Cycle(g, Run(g, z, ins), i)
    ensures AllowedRun(g, z, ins + [i]) <==> AllowedRun(g, z, ins) && Allowed(g, Run(g, z, ins), i)
  {
    assert (ins + [i])[..|ins|] == ins;
  }

  // Let the fill finish.
  lemma DrainAll(g: Geometry, z: Sys, t: nat, k: nat, v: Word, m: WordMem) returns (ins: seq<In>)
    requires Sized(g, z.s) && Headed(g, z, t, k, v) && At(m, FillAddr(g, z.s.saved, k)) != v
    ensures AllowedRun(g, z, ins) && forall j | 0 <= j < |ins| :: !ins[j].invalidate
    ensures var x := Run(g, z, ins); Headed(g, x, t, k, v) && x.s.phase.Done? && x.s.saved == z.s.saved
  {
    hide Headed, Cycle, Allowed, FillAddr;
    ins := [];
    while Run(g, z, ins).s.phase.Fill?
      invariant AllowedRun(g, z, ins) && forall j | 0 <= j < |ins| :: !ins[j].invalidate
      invariant var x := Run(g, z, ins); Headed(g, x, t, k, v) && x.s.saved == z.s.saved
      decreases g.words - Run(g, z, ins).s.rspCnt
    {
      var x := Run(g, z, ins);
      FillBound(g, x, t, k, v);
      DrainAllowed(g, x, t, k, v, m);
      DrainStep(g, x, t, k, v, m);
      RunAppend(g, z, ins, Drain(g, x, k, v, m));
      ins := ins + [Drain(g, x, k, v, m)];
      FillBound(g, Run(g, z, ins), t, k, v);
    }
    FillBound(g, Run(g, z, ins), t, k, v);
  }

  lemma FillBound(g: Geometry, x: Sys, t: nat, k: nat, v: Word)
    requires Sized(g, x.s) && Headed(g, x, t, k, v)
    ensures x.s.phase.Fill? ==> x.s.rspCnt < g.words
    ensures x.s.phase.Fill? || x.s.phase.Done?
  {
  }

  function Rest(m: WordMem): In { In(NoAddr, false, NoRsp, false, m) }

  function FetchOf(a: nat, m: WordMem): In { In(Fetch(a), false, NoRsp, false, m) }

  // The one valid line is the one that hits.
  lemma OnlyHit(g: Geometry, s: Icache.Regs, l: Loc, w: nat)
    requires Sized(g, s) && l.idx < g.sets && l.woff < g.words && w < WAYS
    requires forall v | 0 <= v < WAYS && s.lines[l.idx][v].valid :: v == w
    requires s.lines[l.idx][w].valid && s.lines[l.idx][w].tag == l.tag
    ensures HitWay(ReadSet(g, s.lines, l), l.tag) == Way(w)
  {
    var rd := ReadSet(g, s.lines, l);
    assert WayHits(rd[w], l.tag);
    assert forall v | 0 <= v < WAYS && v != w :: !WayHits(rd[v], l.tag);
  }

  // With the stale word in the one valid line, the next fetch of its address gets it.
  lemma FetchGetsStale(g: Geometry, x: Sys, t: nat, k: nat, v: Word, m: WordMem)
    requires Sized(g, x.s) && Headed(g, x, t, k, v) && x.s.phase.Done? && At(m, FillAddr(g, x.s.saved, k)) != v
    ensures var a := FillAddr(g, x.s.saved, k);
            var idle := Cycle(g, x, Rest(m));
            var z := Cycle(g, Cycle(g, idle, FetchOf(a, m)), Rest(m));
            && Accepts(idle, FetchOf(a, m))
            && z.s.phase.Done? && z.s.saved == a && Rdata(z.s) == v && !Held(z.snaps, t, a, v)
  {
    hide Join, Held, NextPlru, Split;
    var l, a := Split(g, x.s.saved), FillAddr(g, x.s.saved, k);
    var idle := Cycle(g, x, Rest(m));
    var looking := Cycle(g, idle, FetchOf(a, m));
    SplitJoin(g, Loc(l.tag, l.idx, k));
    StillNotHeld(x.snaps, m, t, a, v);
    StillNotHeld(idle.snaps, m, t, a, v);
    StillNotHeld(looking.snaps, m, t, a, v);
    KeptLines(g, x, Rest(m));
    KeptLines(g, idle, FetchOf(a, m));
    OnlyHit(g, idle.s, Loc(l.tag, l.idx, k), x.s.victim);
  }

  lemma KeptLines(g: Geometry, y: Sys, i: In)
    requires Sized(g, y.s) && !y.s.phase.Fill? && !i.invalidate
    ensures Cycle(g, y, i).s.lines == y.s.lines
  {
    hide NextPlru, ReadSet, Control;
    var ls: Lines := NextLines(g, y.s, i.rsp, false);
    forall j, w | 0 <= j < g.sets && 0 <= w < WAYS
      ensures ls[j][w] == y.s.lines[j][w]
    {
      LinesOnlyCleared(g, y.s, i.rsp, false, j, w);
    }
    SameLines(ls, y.s.lines);
  }

  // A word caught stale is headed for the line.
  lemma StaleIsHeaded(g: Geometry, y: Sys, m: Marks, i: In, k: nat) returns (v: Word)
    requires Sized(g, y.s) && Sound(g, y, m) && Allowed(g, y, i) && i.invalidate && y.s.phase.Fill?
    requires k < g.words && StaleAt(g, Cycle(g, y, i), i.mem, k)
    ensures Headed(g, Cycle(g, y, i), |y.snaps|, k, v) && At(i.mem, FillAddr(g, Cycle(g, y, i).s.saved, k)) != v
  {
    hide Split, Join, NextPlru, ReadSet, NextLines;
    var z, t := Cycle(g, y, i), |y.snaps|;
    var a := FillAddr(g, z.s.saved, k);
    FillQueueStep(g, y, i);
    if k < z.s.rspCnt {
      v := z.s.lines[Split(g, z.s.saved).idx][z.s.victim].words[k];
    } else {
      var n :| z.queue[k - z.s.rspCnt].since <= n < |z.snaps| && At(z.snaps[n], a) != At(i.mem, a);
      v := At(z.snaps[n], a);
    }
    assert forall n | t <= n < |z.snaps| :: z.snaps[n] == i.mem;
    forall j, w | 0 <= j < g.sets && 0 <= w < WAYS && z.s.lines[j][w].valid
      ensures j == Split(g, z.s.saved).idx && w == z.s.victim
    {
      OnlyInstalledSurvives(g, y.s, i.rsp, j, w);
    }
    if z.s.phase.Done? { InstalledLine(g, y, i); }
  }

  lemma InstalledLine(g: Geometry, y: Sys, i: In)
    requires Sized(g, y.s) && y.s.phase.Fill? && FillShaped(g, y) && Allowed(g, y, i) && Cycle(g, y, i).s.phase.Done?
    ensures var z, l := Cycle(g, y, i), Split(g, y.s.saved);
            z.s.lines[l.idx][y.s.victim].valid && z.s.lines[l.idx][y.s.victim].tag == l.tag
  {
    hide Split, Join, NextPlru, ReadSet;
  }

  lemma StaleIsServed(g: Geometry, y: Sys, m: Marks, i: In) returns (ins: seq<In>)
    requires Sized(g, y.s) && Sound(g, y, m) && Allowed(g, y, i) && i.invalidate && CaughtStale(g, y, i)
    ensures ServesStale(g, Cycle(g, y, i), |y.snaps|, ins)
  {
    hide Cycle, Headed, StaleAt, Held, FillAddr, Allowed, Sound;
    var z, t := Cycle(g, y, i), |y.snaps|;
    var k :| 0 <= k < g.words && StaleAt(g, z, i.mem, k);
    var v := StaleIsHeaded(g, y, m, i, k);
    var drained := DrainAll(g, z, t, k, v, i.mem);
    var x := Run(g, z, drained);
    var a := FillAddr(g, x.s.saved, k);
    FetchGetsStale(g, x, t, k, v, i.mem);
    var one := drained + [Rest(i.mem)];
    var two := one + [FetchOf(a, i.mem)];
    ins := two + [Rest(i.mem)];
    RunAppend(g, z, drained, Rest(i.mem));
    RunAppend(g, z, one, FetchOf(a, i.mem));
    RunAppend(g, z, two, Rest(i.mem));
    RestAllowed(g, x, i.mem);
    RestAllowed(g, Run(g, z, one), i.mem);
    RestAllowed(g, Run(g, z, two), i.mem);
    FetchAllowed(g, Run(g, z, one), a, i.mem);
    assert ins[..|one|] == one && ins[|one|] == FetchOf(a, i.mem);
  }

  lemma RestAllowed(g: Geometry, x: Sys, m: WordMem)
    requires Sane(g)
    ensures Allowed(g, x, Rest(m))
  {
  }

  lemma FetchAllowed(g: Geometry, x: Sys, a: nat, m: WordMem)
    requires Sane(g)
    ensures Allowed(g, x, FetchOf(a, m))
  {
  }

  // An invalidate pulse, in any reachable state, can be followed by a stale answer to a later fetch if
  // and only if it catches a fill under whose accepted reads memory has changed.
  lemma StaleExactlyIfCaught(g: Geometry, y: Sys, before: seq<In>, i: In)
    requires Fresh(g, y) && AllowedRun(g, y, before) && Allowed(g, Run(g, y, before), i) && i.invalidate
    ensures var p := Run(g, y, before);
            (exists ins :: ServesStale(g, Cycle(g, p, i), |p.snaps|, ins)) <==> CaughtStale(g, p, i)
  {
    hide Cycle, ServesStale, CaughtStale, Allowed, Sound;
    var p, m := Run(g, y, before), RunMarks(g, y, START, before);
    FreshIsSound(g, y);
    RunSound(g, y, START, before);
    if CaughtStale(g, p, i) {
      var ins := StaleIsServed(g, p, m, i);
    } else {
      forall ins
        ensures !ServesStale(g, Cycle(g, p, i), |p.snaps|, ins)
      {
        CleanStaysFresh(g, p, m, i, ins);
      }
    }
  }

  const READ_ONE: seq<In> :=
    [FetchOf(0, map[0 := 1]), Rest(map[0 := 1]), In(NoAddr, true, NoRsp, false, map[0 := 1])]

  lemma LookupFindsNothing(g: Geometry, y: Sys, m: WordMem)
    requires Fresh(g, y)
    ensures var x := Cycle(g, y, FetchOf(0, m));
            && x.s.phase.Lookup? && x.s.saved == 0 && x.queue == [] && x.snaps == [m]
            && HitWay(x.s.rd, Split(g, 0).tag) == NoWay
  {
    hide NextLines, NextPlru;
  }

  lemma MissStartsFill(g: Geometry, x: Sys, m: WordMem)
    requires Sized(g, x.s) && x.s.phase.Lookup? && x.s.saved == 0 && HitWay(x.s.rd, Split(g, 0).tag) == NoWay
    ensures var z := Cycle(g, x, Rest(m));
            && z.s.phase.Fill? && z.s.saved == 0 && z.s.reqCnt == 0 && z.s.rspCnt == 0
            && z.queue == x.queue && z.snaps == x.snaps + [m]
  {
    hide NextLines, NextPlru, ReadSet, HitUpTo;
  }

  lemma FirstRead(g: Geometry, x: Sys, m: WordMem)
    requires Sized(g, x.s) && x.s.phase.Fill? && x.s.saved == 0 && x.s.reqCnt == 0 && x.s.rspCnt == 0 && x.queue == []
    ensures var z := Cycle(g, x, In(NoAddr, true, NoRsp, false, m));
            && z.s.phase.Fill? && z.s.saved == 0 && z.s.reqCnt == 1 && z.s.rspCnt == 0
            && z.queue == [Outstanding(0, |x.snaps|)] && z.snaps == x.snaps + [m] && FillAddr(g, 0, 0) == 0
  {
    hide NextLines, NextPlru, ReadSet;
    JoinSplit(g, 0);
  }

  // The first read of a miss on word 0 has just been accepted, while memory holds 1 there.
  lemma ReadIsOut(g: Geometry, y: Sys)
    requires Fresh(g, y)
    ensures AllowedRun(g, y, READ_ONE)
    ensures var p := Run(g, y, READ_ONE);
            && p.s.phase.Fill? && p.s.saved == 0 && p.s.reqCnt == 1 && p.s.rspCnt == 0
            && p.queue == [Outstanding(0, 2)] && |p.snaps| == 3 && At(p.snaps[2], 0) == 1 && FillAddr(g, 0, 0) == 0
  {
    hide Cycle, FillAddr, Split, HitWay;
    var one := map[0 := 1];
    var a, b, c := FetchOf(0, one), Rest(one), In(NoAddr, true, NoRsp, false, one);
    RunAppend(g, y, [], a);
    RunAppend(g, y, [a], b);
    RunAppend(g, y, [a, b], c);
    assert [] + [a] == [a] && [a] + [b] == [a, b] && [a, b] + [c] == READ_ONE;
    LookupFindsNothing(g, y, one);
    MissStartsFill(g, Run(g, y, [a]), one);
    FirstRead(g, Run(g, y, [a, b]), one);
  }

  // Such a pulse is reached from reset with every geometry: word 0 is read while memory holds 1,
  // memory becomes 2, and the answer comes with the pulse.
  lemma StaleIsReachable(g: Geometry, y: Sys)
    requires Fresh(g, y)
    ensures exists before: seq<In>, i: In, ins: seq<In> ::
              && AllowedRun(g, y, before) && Allowed(g, Run(g, y, before), i) && i.invalidate
              && ServesStale(g, Cycle(g, Run(g, y, before), i), |Run(g, y, before).snaps|, ins)
  {
    hide ServesStale, Run, AllowedRun;
    ReadIsOut(g, y);
    var p := Run(g, y, READ_ONE);
    var i := In(NoAddr, false, Rsp(1, false), true, map[0 := 2]);
    assert Queue(g, p, i)[0] == Outstanding(0, 2) && (p.snaps + [i.mem])[2] == p.snaps[2];
    WordOneStored(g, p, i);
    StaleExactlyIfCaught(g, y, READ_ONE, i);
  }

  lemma WordOneStored(g: Geometry, p: Sys, i: In)
    requires Sized(g, p.s) && p.s.phase.Fill? && p.s.saved == 0 && p.s.rspCnt == 0 && FillAddr(g, 0, 0) == 0
    requires i.rsp == Rsp(1, false) && At(i.mem, 0) == 2
    ensures CaughtStale(g, p, i)
  {
    hide NextPlru, ReadSet, Split, Join;
    var z := Cycle(g, p, i);
    assert z.s.lines[Split(g, 0).idx][p.s.victim].words[0] == 1;
    assert StaleAt(g, z, i.mem, 0);
  }

  // ---- a fetch in the cycle of the pulse ----

  predicate NoValidLine(g: Geometry, s: Icache.Regs)
    requires Sized(g, s)
  {
    forall i, w | 0 <= i < g.sets && 0 <= w < WAYS :: !s.lines[i][w].valid
  }

  lemma NothingInstalled(g: Geometry, y: Sys, i: In)
    requires Sized(g, y.s) && NoValidLine(g, y.s) && !i.rsp.Rsp? && (y.s.phase.Fill? ==> y.s.rspCnt < g.words)
    ensures NoValidLine(g, Cycle(g, y, i).s)
  {
    hide NextPlru, ReadSet, Control;
  }

  // With lines of one word, one answer fills the line of word 0.
  lemma FillOne(g: Geometry, p: Sys, m: WordMem)
    requires Sized(g, p.s) && g.words == 1 && NoValidLine(g, p.s)
    requires p.s.phase.Fill? && p.s.saved == 0 && p.s.reqCnt == 1 && p.s.rspCnt == 0 && !p.s.fillFault
    ensures var z, l := Cycle(g, p, In(NoAddr, false, Rsp(1, false), false, m)), Split(g, 0);
            && z.s.phase.Done? && z.s.saved == 0
            && z.s.lines[l.idx][p.s.victim].valid && z.s.lines[l.idx][p.s.victim].tag == l.tag
            && z.s.lines[l.idx][p.s.victim].words[0] == 1
            && (forall w | 0 <= w < WAYS && z.s.lines[l.idx][w].valid :: w == p.s.victim)
  {
    hide NextPlru, ReadSet, Split, Join;
  }

  lemma BlankToFill(g: Geometry, y: Sys)
    requires Fresh(g, y)
    ensures var p := Run(g, y, READ_ONE); NoValidLine(g, p.s) && !p.s.fillFault
  {
    hide Cycle, Split, HitWay, NoValidLine, Sized;
    var one := map[0 := 1];
    var a, b, c := FetchOf(0, one), Rest(one), In(NoAddr, true, NoRsp, false, one);
    RunAppend(g, y, [], a);
    RunAppend(g, y, [a], b);
    RunAppend(g, y, [a, b], c);
    assert [] + [a] == [a] && [a] + [b] == [a, b] && [a, b] + [c] == READ_ONE;
    LookupFindsNothing(g, y, one);
    MissStartsFill(g, Run(g, y, [a]), one);
    BlankIsInvalid(g, y);
    NothingInstalled(g, y, a);
    NothingInstalled(g, Run(g, y, [a]), b);
    NothingInstalled(g, Run(g, y, [a, b]), c);
    NeverFaults(g, y, READ_ONE);
    ReadIsOut(g, y);
  }

  lemma BlankIsInvalid(g: Geometry, y: Sys)
    requires Fresh(g, y)
    ensures NoValidLine(g, y.s)
  {
  }

  const CACHE_ONE: seq<In> := READ_ONE + [In(NoAddr, false, Rsp(1, false), false, map[0 := 1])] + [Rest(map[0 := 1])]

  const LATE_FETCH: seq<In> := [In(Fetch(0), false, NoRsp, true, map[0 := 2]), Rest(map[0 := 2])]

  // A run from reset, with lines of one word: word 0 is cached while memory holds 1; memory becomes 2;
  // the fetch presented in the cycle of the pulse gets the 1.
  lemma LateFetchIsReachable(g: Geometry, y: Sys)
    requires Fresh(g, y) && g.words == 1
    ensures AllowedRun(g, y, CACHE_ONE + LATE_FETCH)
    ensures var z := Run(g, y, CACHE_ONE + LATE_FETCH); z.s.phase.Done? && z.s.saved == 0 && Rdata(z.s) == 1
  {
    hide Cycle, Split, Allowed, HitWay, ReadSet;
    var fill, rest, pulse, last := In(NoAddr, false, Rsp(1, false), false, map[0 := 1]), Rest(map[0 := 1]),
                                   LATE_FETCH[0], LATE_FETCH[1];
    ReadIsOut(g, y);
    BlankToFill(g, y);
    var p := Run(g, y, READ_ONE);
    RunAppend(g, y, READ_ONE, fill);
    RunAppend(g, y, READ_ONE + [fill], rest);
    RunAppend(g, y, CACHE_ONE, pulse);
    RunAppend(g, y, CACHE_ONE + [pulse], last);
    assert CACHE_ONE + LATE_FETCH == CACHE_ONE + [pulse] + [last];
    AnswerAllowed(g, p, fill);
    FillOne(g, p, map[0 := 1]);
    var done := Run(g, y, READ_ONE + [fill]);
    DoneToIdle(g, done, rest);
    RestAllowed(g, done, map[0 := 1]);
    KeptLines(g, done, rest);
    var idle := Run(g, y, CACHE_ONE);
    JoinSplit(g, 0);
    SplitOffset(g);
    OnlyHit(g, idle.s, Split(g, 0), p.s.victim);
    FetchDuringInvalidateIsStale(g, idle, pulse, last, p.s.victim);
    NoAnswerAllowed(g, idle, pulse);
    NoAnswerAllowed(g, Run(g, y, CACHE_ONE + [pulse]), last);
  }

  lemma DoneToIdle(g: Geometry, x: Sys, i: In)
    requires Sized(g, x.s) && x.s.phase.Done?
    ensures Cycle(g, x, i).s.phase.Idle?
  {
    hide NextLines, NextPlru, ReadSet;
  }

  lemma AnswerAllowed(g: Geometry, p: Sys, i: In)
    requires Sized(g, p.s) && p.queue == [Outstanding(0, 2)] && |p.snaps| == 3 && At(p.snaps[2], 0) == 1
    requires i.rsp == Rsp(1, false)
    ensures Allowed(g, p, i)
  {
    assert Queue(g, p, i)[0] == Outstanding(0, 2) && (p.snaps + [i.mem])[2] == p.snaps[2];
  }

  lemma NoAnswerAllowed(g: Geometry, x: Sys, i: In)
    requires Sane(g) && !i.rsp.Rsp?
    ensures Allowed(g, x, i)
  {
  }

  lemma SplitOffset(g: Geometry)
    requires Sane(g) && g.words == 1
    ensures Split(g, 0).woff == 0
  {
  }
}
