/**
 How fresh the words are that the instruction cache returns, when memory is written by others at any
 time and the invalidate pulse may come in any cycle.
 */
module IcacheFreshness {
  import opened Rv32
  import opened CacheArray
  import opened Icache

  // A read that memory accepted, and the cycle in which it did.
  datatype Outstanding = Outstanding(addr: nat, since: nat)

  // The cache, the reads on their way, and what memory has held in each cycle so far.
  datatype Sys = Sys(s: Icache.Regs, queue: seq<Outstanding>, snaps: seq<WordMem>)

  // A cycle: any contents of memory, any timing, an invalidate at any moment.
  datatype In = In(req: MaybeAddr, ready: bool, rsp: MemRsp, invalidate: bool, mem: WordMem)

  // Memory has held v at word a in some cycle from `since` on.
  predicate Held(snaps: seq<WordMem>, since: nat, a: nat, v: Word) {
    exists k | since <= k < |snaps| :: At(snaps[k], a) == v
  }

  predicate Reads(g: Geometry, y: Sys, i: In)
    requires Sane(g)
  {
    MemRequest(g, y.s).Fetch? && i.ready
  }

  function Queue(g: Geometry, y: Sys, i: In): seq<Outstanding>
    requires Sane(g)
  {
    y.queue + if Reads(g, y, i) then [Outstanding(MemRequest(g, y.s).addr, |y.snaps|)] else []
  }

  predicate Accepts(y: Sys, i: In) { y.s.phase.Idle? && i.req.Fetch? }

  function Cycle(g: Geometry, y: Sys, i: In): (z: Sys)
    requires Sized(g, y.s)
    ensures Sized(g, z.s)
  {
    var q := Queue(g, y, i);
    Sys(Next(g, y.s, i.req, i.ready, i.rsp, i.invalidate),
        if i.rsp.Rsp? && q != [] then q[1..] else q, y.snaps + [i.mem])
  }

  // The memory: a response answers the oldest read, without a fault (the fault input is tied low),
  // with a value held since that read was accepted.
  predicate Allowed(g: Geometry, y: Sys, i: In)
    requires Sane(g)
  {
    i.rsp.Rsp? ==>
      && Queue(g, y, i) != [] && !i.rsp.fault
      && Held(y.snaps + [i.mem], Queue(g, y, i)[0].since, Queue(g, y, i)[0].addr, i.rsp.data)
  }

  predicate Fresh(g: Geometry, y: Sys) { Blank(g, y.s) && y.queue == [] && y.snaps == [] }

  function Run(g: Geometry, y: Sys, ins: seq<In>): (z: Sys)
    requires Sized(g, y.s)
    ensures Sized(g, z.s)
  {
    if ins == [] then y else Cycle(g, Run(g, y, ins[..|ins| - 1]), ins[|ins| - 1])
  }

  predicate AllowedRun(g: Geometry, y: Sys, ins: seq<In>)
    requires Sized(g, y.s)
  {
    ins == []
    || (AllowedRun(g, y, ins[..|ins| - 1]) && Allowed(g, Run(g, y, ins[..|ins| - 1]), ins[|ins| - 1]))
  }

  // ---- how far back a word may date ----

  // Three moments. `oldest`: the first read of the latest fill was accepted. `floor`: the last
  // invalidate, or, if that caught a fill whose reads had begun, the first of those reads. `promise`:
  // the floor when the fetch now being served was accepted.
  datatype Marks = Marks(floor: nat, oldest: nat, promise: nat)

  // A fill whose reads have begun.
  predicate Filling(y: Sys) { y.s.phase.Fill? && y.s.reqCnt > 0 }

  function NextOldest(g: Geometry, y: Sys, m: Marks, i: In): nat
    requires Sane(g)
  {
    if Reads(g, y, i) && !Filling(y) then |y.snaps| else m.oldest
  }

  function NextMarks(g: Geometry, y: Sys, m: Marks, i: In): Marks
    requires Sane(g)
  {
    Marks(if !i.invalidate then m.floor else if Filling(y) then m.oldest else |y.snaps|,
          NextOldest(g, y, m, i),
          if Accepts(y, i) then m.floor else m.promise)
  }

  // From given marks at the start of a run.
  function RunMarks(g: Geometry, y: Sys, m: Marks, ins: seq<In>): Marks
    requires Sized(g, y.s)
  {
    if ins == [] then m
    else
      var before := ins[..|ins| - 1];
      NextMarks(g, Run(g, y, before), RunMarks(g, y, m, before), ins[|ins| - 1])
  }

  // ---- the invariant ----

  predicate LineHeld(g: Geometry, snaps: seq<WordMem>, since: nat, idx: nat, l: Line)
    requires |l.words| == g.words
  {
    forall k | 0 <= k < g.words :: Held(snaps, since, Join(g, Loc(l.tag, idx, k)), l.words[k])
  }

  // Every valid line but way `but` of set `at` holds words memory has held since then.
  predicate LinesHeld(g: Geometry, snaps: seq<WordMem>, since: nat, ls: Lines, at: nat, but: nat)
    requires Shaped(g, ls)
  {
    forall i, w | 0 <= i < g.sets && 0 <= w < WAYS && ls[i][w].valid && !(i == at && w == but) ::
      LineHeld(g, snaps, since, i, ls[i][w])
  }

  // Whatever memory may answer to this read, it has held it since then.
  predicate Covered(snaps: seq<WordMem>, since: nat, o: Outstanding) {
    forall k | o.since <= k < |snaps| :: Held(snaps, since, o.addr, At(snaps[k], o.addr))
  }

  // Counters and queue of a fill agree.
  predicate FillShaped(g: Geometry, y: Sys)
    requires Sized(g, y.s)
  {
    var s := y.s;
    && s.rspCnt <= s.reqCnt <= g.words && s.rspCnt < g.words && !s.fillFault
    && |y.queue| == s.reqCnt - s.rspCnt
    && (forall j | 0 <= j < |y.queue| ::
          y.queue[j].addr == FillAddr(g, s.saved, s.rspCnt + j) && y.queue[j].since < |y.snaps|)
    && TargetOk(g, s)
  }

  // The bypassed target word is the one in the line.
  predicate TargetOk(g: Geometry, s: Icache.Regs)
    requires Sized(g, s)
  {
    var l := Split(g, s.saved);
    l.woff < s.rspCnt ==> s.target == s.lines[l.idx][s.victim].words[l.woff]
  }

  predicate FillHeld(g: Geometry, y: Sys, since: nat)
    requires Sized(g, y.s)
  {
    var s, l := y.s, Split(g, y.s.saved);
    && FillShaped(g, y)
    && (forall j | 0 <= j < |y.queue| :: Covered(y.snaps, since, y.queue[j]))
    && (forall k | 0 <= k < s.rspCnt ::
          Held(y.snaps, since, FillAddr(g, s.saved, k), s.lines[l.idx][s.victim].words[k]))
  }

  // In S_LOOKUP the read ports still show the saved set's tags and data, though an invalidate may
  // have cleared valid bits since.
  predicate LookupHeld(g: Geometry, y: Sys, since: nat)
    requires Sized(g, y.s)
  {
    var l := Split(g, y.s.saved);
    forall w | 0 <= w < WAYS ::
      && y.s.rd[w].data == y.s.lines[l.idx][w].words[l.woff]
      && (WayHits(y.s.rd[w], l.tag) ==> Held(y.snaps, since, y.s.saved, y.s.rd[w].data))
  }

  predicate Sound(g: Geometry, y: Sys, m: Marks)
    requires Sized(g, y.s)
  {
    var s := y.s;
    && m.promise <= m.floor <= |y.snaps| && (Filling(y) ==> m.floor <= m.oldest <= |y.snaps|)
    && LinesHeld(g, y.snaps, m.floor, s.lines, Split(g, s.saved).idx, if s.phase.Fill? then s.victim else WAYS)
    && (if s.phase.Fill? then FillHeld(g, y, m.oldest) else y.queue == [])
    && (s.phase.Lookup? ==> LookupHeld(g, y, m.promise))
    && (s.phase.Done? ==> Held(y.snaps, m.promise, s.saved, Rdata(s)))
  }

  lemma HeldLonger(snaps: seq<WordMem>, m: WordMem, since: nat, from: nat, a: nat, v: Word)
    requires Held(snaps, since, a, v) && from <= since
    ensures Held(snaps + [m], from, a, v)
  {
    var k :| since <= k < |snaps| && At(snaps[k], a) == v;
    assert (snaps + [m])[k] == snaps[k];
  }

  lemma HeldEarlier(snaps: seq<WordMem>, since: nat, from: nat, a: nat, v: Word)
    requires Held(snaps, since, a, v) && from <= since
    ensures Held(snaps, from, a, v)
  {
  }

  lemma HeldNow(snaps: seq<WordMem>, m: WordMem, since: nat, a: nat)
    requires since <= |snaps|
    ensures Held(snaps + [m], since, a, At(m, a))
  {
    assert (snaps + [m])[|snaps|] == m;
  }

  lemma LinesHeldLonger(g: Geometry, snaps: seq<WordMem>, m: WordMem, since: nat, ls: Lines, at: nat, but: nat)
    requires Shaped(g, ls) && LinesHeld(g, snaps, since, ls, at, but)
    ensures LinesHeld(g, snaps + [m], since, ls, at, but)
  {
    forall i, w | 0 <= i < g.sets && 0 <= w < WAYS && ls[i][w].valid && !(i == at && w == but)
      ensures LineHeld(g, snaps + [m], since, i, ls[i][w])
    {
      assert LineHeld(g, snaps, since, i, ls[i][w]);
      forall k | 0 <= k < g.words
        ensures Held(snaps + [m], since, Join(g, Loc(ls[i][w].tag, i, k)), ls[i][w].words[k])
      {
        HeldLonger(snaps, m, since, since, Join(g, Loc(ls[i][w].tag, i, k)), ls[i][w].words[k]);
      }
    }
  }

  // Outside a fill the arrays keep their tags and words; an invalidate only clears valid bits.
  lemma LinesOnlyCleared(g: Geometry, s: Icache.Regs, rsp: MemRsp, invalidate: bool, i: nat, w: nat)
    requires Sized(g, s) && i < g.sets && w < WAYS && !(s.phase.Fill? && i == Split(g, s.saved).idx && w == s.victim)
    ensures var l := NextLines(g, s, rsp, invalidate)[i][w];
            l == s.lines[i][w].(valid := s.lines[i][w].valid && !invalidate)
  {
  }

  // Lines other than the one being filled stay as fresh as they were.
  lemma OthersStayHeld(g: Geometry, y: Sys, i: In, since: nat, at: nat, but: nat)
    requires Sized(g, y.s) && LinesHeld(g, y.snaps, since, y.s.lines, at, but)
    requires y.s.phase.Fill? ==> at == Split(g, y.s.saved).idx && but == y.s.victim
    ensures LinesHeld(g, y.snaps + [i.mem], since, NextLines(g, y.s, i.rsp, i.invalidate), at, but)
  {
    hide NextLines, LineHeld, Split;
    var ls: Lines := NextLines(g, y.s, i.rsp, i.invalidate);
    LinesHeldLonger(g, y.snaps, i.mem, since, y.s.lines, at, but);
    forall j, w | 0 <= j < g.sets && 0 <= w < WAYS && ls[j][w].valid && !(j == at && w == but)
      ensures LineHeld(g, y.snaps + [i.mem], since, j, ls[j][w])
    {
      LinesOnlyCleared(g, y.s, i.rsp, i.invalidate, j, w);
    }
  }

  lemma LinesHeldAnyway(g: Geometry, snaps: seq<WordMem>, since: nat, ls: Lines, at: nat, at2: nat)
    requires Shaped(g, ls) && LinesHeld(g, snaps, since, ls, at, WAYS)
    ensures LinesHeld(g, snaps, since, ls, at2, WAYS)
  {
  }

  // ---- one cycle, under marks that move no further than they must ----

  // The step is proved for the floor as it was; an invalidate then raises it.
  function KeepFloor(g: Geometry, y: Sys, m: Marks, i: In): Marks
    requires Sane(g)
  {
    Marks(m.floor, NextOldest(g, y, m, i), if Accepts(y, i) then m.floor else m.promise)
  }

  lemma IdleStep(g: Geometry, y: Sys, m: Marks, i: In)
    requires Sized(g, y.s) && Sound(g, y, m) && Allowed(g, y, i) && y.s.phase.Idle?
    ensures Sound(g, Cycle(g, y, i), KeepFloor(g, y, m, i))
  {
    hide NextPlru, LineHeld, Held, Join;
    var s, z := y.s, Cycle(g, y, i);
    OthersStayHeld(g, y, i, m.floor, Split(g, s.saved).idx, WAYS);
    LinesHeldAnyway(g, z.snaps, m.floor, z.s.lines, Split(g, s.saved).idx, Split(g, z.s.saved).idx);
    if i.req.Fetch? {
      var l := Split(g, i.req.addr);
      forall w | 0 <= w < WAYS
        ensures z.s.rd[w].data == z.s.lines[l.idx][w].words[l.woff]
        ensures WayHits(z.s.rd[w], l.tag) ==> Held(z.snaps, m.floor, i.req.addr, z.s.rd[w].data)
      {
        LinesOnlyCleared(g, s, i.rsp, i.invalidate, l.idx, w);
        if WayHits(z.s.rd[w], l.tag) { HitIsHeld(g, y, i.mem, m.floor, i.req.addr, w); }
      }
    }
  }

  lemma HitIsHeld(g: Geometry, y: Sys, m: WordMem, since: nat, a: nat, w: nat)
    requires Sized(g, y.s) && w < WAYS && LinesHeld(g, y.snaps, since, y.s.lines, Split(g, y.s.saved).idx, WAYS)
    requires WayHits(ReadSet(g, y.s.lines, Split(g, a))[w], Split(g, a).tag)
    ensures Held(y.snaps + [m], since, a, y.s.lines[Split(g, a).idx][w].words[Split(g, a).woff])
  {
    var l := Split(g, a);
    assert LineHeld(g, y.snaps, since, l.idx, y.s.lines[l.idx][w]);
    JoinSplit(g, a);
    HeldLonger(y.snaps, m, since, since, a, y.s.lines[l.idx][w].words[l.woff]);
  }

  lemma DoneStep(g: Geometry, y: Sys, m: Marks, i: In)
    requires Sized(g, y.s) && Sound(g, y, m) && Allowed(g, y, i) && y.s.phase.Done?
    ensures Sound(g, Cycle(g, y, i), KeepFloor(g, y, m, i))
  {
    hide NextPlru, LineHeld, Held, Join, NextLines, ReadSet;
    OthersStayHeld(g, y, i, m.floor, Split(g, y.s.saved).idx, WAYS);
  }

  lemma LookupStep(g: Geometry, y: Sys, m: Marks, i: In)
    requires Sized(g, y.s) && Sound(g, y, m) && Allowed(g, y, i) && y.s.phase.Lookup?
    ensures Sound(g, Cycle(g, y, i), KeepFloor(g, y, m, i))
  {
    hide NextPlru, LineHeld, Held, Join, NextLines;
    var s, l := y.s, Split(g, y.s.saved);
    OthersStayHeld(g, y, i, m.floor, l.idx, WAYS);
    match HitWay(s.rd, l.tag) {
      case Way(w) => HeldLonger(y.snaps, i.mem, m.promise, m.promise, s.saved, s.rd[w].data);
      case NoWay =>
    }
  }

  // The queue and the counters after a cycle of a fill.
  lemma FillQueueStep(g: Geometry, y: Sys, i: In)
    requires Sized(g, y.s) && y.s.phase.Fill? && FillShaped(g, y) && Allowed(g, y, i)
    ensures var z := Cycle(g, y, i);
            && (z.s.phase.Fill? || z.s.phase.Done?) && (z.s.phase.Fill? ==> FillShaped(g, z))
            && (z.s.phase.Done? ==> z.queue == [] && z.s.rspCnt == g.words)
            && !z.s.fillFault && z.s.rspCnt == y.s.rspCnt + (if i.rsp.Rsp? then 1 else 0)
            && (i.rsp.Rsp? ==> Queue(g, y, i)[0].addr == FillAddr(g, y.s.saved, y.s.rspCnt))
            && z.s.saved == y.s.saved && z.s.victim == y.s.victim && TargetOk(g, z.s)
            && (forall j | 0 <= j < |z.queue| :: z.queue[j] in Queue(g, y, i))
  {
    hide NextPlru, ReadSet, Held, Join, Split;
  }

  lemma CoveredStep(g: Geometry, y: Sys, i: In, since: nat)
    requires Sized(g, y.s) && since <= |y.snaps|
    requires forall j | 0 <= j < |y.queue| :: Covered(y.snaps, since, y.queue[j])
    ensures forall o | o in Queue(g, y, i) :: Covered(y.snaps + [i.mem], since, o)
  {
    var snaps := y.snaps + [i.mem];
    forall o | o in Queue(g, y, i)
      ensures Covered(snaps, since, o)
    {
      forall k | o.since <= k < |snaps|
        ensures Held(snaps, since, o.addr, At(snaps[k], o.addr))
      {
        if k < |y.snaps| {
          var j :| 0 <= j < |y.queue| && y.queue[j] == o;
          assert Covered(y.snaps, since, y.queue[j]);
          HeldLonger(y.snaps, i.mem, since, since, o.addr, At(y.snaps[k], o.addr));
        } else {
          HeldNow(y.snaps, i.mem, since, o.addr);
        }
      }
    }
  }

  // A value that answers a covered read has been held since then.
  lemma AnswerHeld(snaps: seq<WordMem>, since: nat, o: Outstanding, v: Word)
    requires Covered(snaps, since, o) && Held(snaps, o.since, o.addr, v)
    ensures Held(snaps, since, o.addr, v)
  {
  }

  // The words of the line being filled, after a cycle.
  predicate FillWordsHeld(g: Geometry, y: Sys, i: In, since: nat)
    requires Sized(g, y.s)
  {
    var s, l, z := y.s, Split(g, y.s.saved), Cycle(g, y, i);
    forall k | 0 <= k < g.words && k < z.s.rspCnt ::
      Held(z.snaps, since, FillAddr(g, s.saved, k), z.s.lines[l.idx][s.victim].words[k])
  }

  lemma FillWords(g: Geometry, y: Sys, i: In, since: nat)
    requires Sized(g, y.s) && y.s.phase.Fill? && FillHeld(g, y, since) && Allowed(g, y, i) && since <= |y.snaps|
    ensures FillWordsHeld(g, y, i, since)
  {
    var s, l, z := y.s, Split(g, y.s.saved), Cycle(g, y, i);
    var words, was := z.s.lines[l.idx][s.victim].words, s.lines[l.idx][s.victim].words;
    FillQueueStep(g, y, i);
    forall k | 0 <= k < s.rspCnt
      ensures Held(z.snaps, since, FillAddr(g, s.saved, k), words[k])
    {
      HeldLonger(y.snaps, i.mem, since, since, FillAddr(g, s.saved, k), was[k]);
    }
    if i.rsp.Rsp? {
      CoveredStep(g, y, i, since);
      AnswerHeld(z.snaps, since, Queue(g, y, i)[0], i.rsp.data);
    }
  }

  // The line a fill installs is as fresh as the fill's oldest read.
  lemma InstalledHeld(g: Geometry, y: Sys, i: In, since: nat, from: nat)
    requires Sized(g, y.s) && y.s.phase.Fill? && Cycle(g, y, i).s.phase.Done? && from <= since
    requires FillShaped(g, y) && Allowed(g, y, i) && FillWordsHeld(g, y, i, since)
    ensures var z, l := Cycle(g, y, i), Split(g, y.s.saved);
            LineHeld(g, z.snaps, from, l.idx, z.s.lines[l.idx][y.s.victim])
  {
    hide Join, Split, Held, ReadSet, NextPlru;
    var s, l, z := y.s, Split(g, y.s.saved), Cycle(g, y, i);
    FillQueueStep(g, y, i);
    var line := z.s.lines[l.idx][s.victim];
    assert line.tag == l.tag;
    forall k | 0 <= k < g.words
      ensures Held(z.snaps, from, Join(g, Loc(l.tag, l.idx, k)), line.words[k])
    {
      HeldEarlier(z.snaps, since, from, FillAddr(g, s.saved, k), line.words[k]);
    }
  }

  lemma FillEnds(g: Geometry, y: Sys, m: Marks, i: In)
    requires Sized(g, y.s) && Sound(g, y, m) && Allowed(g, y, i) && y.s.phase.Fill? && Cycle(g, y, i).s.phase.Done?
    ensures Sound(g, Cycle(g, y, i), KeepFloor(g, y, m, i))
  {
    hide Join, Split, Held, ReadSet, NextPlru, NextLines, LineHeld;
    var z, o := Cycle(g, y, i), NextOldest(g, y, m, i);
    FillQueueStep(g, y, i);
    FillWords(g, y, i, o);
    OthersStayHeld(g, y, i, m.floor, Split(g, y.s.saved).idx, y.s.victim);
    InstalledHeld(g, y, i, o, m.floor);
    TargetDone(g, y, i);
    TargetWord(g, z);
    HeldEarlier(z.snaps, o, m.promise, y.s.saved, z.s.target);
  }

  lemma TargetDone(g: Geometry, y: Sys, i: In)
    requires Sized(g, y.s) && y.s.phase.Fill? && Cycle(g, y, i).s.phase.Done?
    ensures Rdata(Cycle(g, y, i).s) == Cycle(g, y, i).s.target && Split(g, y.s.saved).woff < g.words
  {
    hide NextLines, NextPlru, ReadSet;
  }

  lemma TargetWord(g: Geometry, z: Sys)
    requires Sized(g, z.s) && TargetOk(g, z.s) && z.s.rspCnt == g.words
    ensures var l := Split(g, z.s.saved);
            FillAddr(g, z.s.saved, l.woff) == z.s.saved && z.s.target == z.s.lines[l.idx][z.s.victim].words[l.woff]
  {
    JoinSplit(g, z.s.saved);
  }

  lemma FillGoesOn(g: Geometry, y: Sys, m: Marks, i: In)
    requires Sized(g, y.s) && Sound(g, y, m) && Allowed(g, y, i) && y.s.phase.Fill? && Cycle(g, y, i).s.phase.Fill?
    ensures Sound(g, Cycle(g, y, i), KeepFloor(g, y, m, i))
  {
    hide Join, Split, Held, ReadSet, NextPlru, NextLines, LineHeld;
    var z, o := Cycle(g, y, i), NextOldest(g, y, m, i);
    FillQueueStep(g, y, i);
    OthersStayHeld(g, y, i, m.floor, Split(g, y.s.saved).idx, y.s.victim);
    if Filling(y) || Reads(g, y, i) {
      FillWords(g, y, i, o);
      CoveredStep(g, y, i, o);
    }
  }

  lemma SoundStep(g: Geometry, y: Sys, m: Marks, i: In)
    requires Sized(g, y.s) && Sound(g, y, m) && Allowed(g, y, i)
    ensures Sound(g, Cycle(g, y, i), KeepFloor(g, y, m, i))
  {
    hide Sound, Allowed, NextLines, NextPlru, ReadSet, Queue, NextOldest;
    match y.s.phase {
      case Idle => IdleStep(g, y, m, i);
      case Lookup => LookupStep(g, y, m, i);
      case Done => DoneStep(g, y, m, i);
      case Fill => if Cycle(g, y, i).s.phase.Done? { FillEnds(g, y, m, i); } else { FillGoesOn(g, y, m, i); }
    }
  }

  // ---- invalidates ----

  // Everything a fill caught by an invalidate has read or may still be answered dates from `since`.
  predicate Caught(g: Geometry, y: Sys, i: In, since: nat)
    requires Sized(g, y.s)
  {
    y.s.phase.Fill? ==>
      && FillWordsHeld(g, y, i, since)
      && forall j | 0 <= j < |Cycle(g, y, i).queue| :: Covered(Cycle(g, y, i).snaps, since, Cycle(g, y, i).queue[j])
  }

  // An invalidate leaves no valid line but one installed in its own cycle.
  lemma OnlyInstalledSurvives(g: Geometry, s: Icache.Regs, rsp: MemRsp, i: nat, w: nat)
    requires Sized(g, s) && i < g.sets && w < WAYS
    ensures NextLines(g, s, rsp, true)[i][w].valid ==>
              s.phase.Fill? && FillCompletes(g, s, rsp) && i == Split(g, s.saved).idx && w == s.victim
  {
  }

  // So the floor may be raised as far as the fill it caught allows.
  lemma RaiseFloor(g: Geometry, y: Sys, m: Marks, i: In, floor: nat, oldest: nat)
    requires Sized(g, y.s) && Sound(g, y, m) && Allowed(g, y, i) && i.invalidate
    requires m.floor <= floor <= oldest <= |y.snaps| && Caught(g, y, i, oldest)
    ensures Sound(g, Cycle(g, y, i), KeepFloor(g, y, m, i).(floor := floor, oldest := oldest))
  {
    hide Join, Split, Held, ReadSet, NextPlru, NextLines, LineHeld, Allowed, Rdata;
    var z, l := Cycle(g, y, i), Split(g, y.s.saved);
    SoundStep(g, y, m, i);
    if y.s.phase.Fill? {
      FillQueueStep(g, y, i);
      if z.s.phase.Done? { InstalledHeld(g, y, i, oldest, floor); }
    }
    forall j, w | 0 <= j < g.sets && 0 <= w < WAYS && z.s.lines[j][w].valid
      ensures y.s.phase.Fill? && z.s.phase.Done? && j == l.idx && w == y.s.victim
    {
      OnlyInstalledSurvives(g, y.s, i.rsp, j, w);
    }
  }

  lemma NothingCaught(g: Geometry, y: Sys, i: In, since: nat)
    requires Sized(g, y.s) && y.s.phase.Fill? && FillShaped(g, y) && Allowed(g, y, i) && !Filling(y) && !Reads(g, y, i)
    ensures Caught(g, y, i, since)
  {
    hide NextLines, NextPlru, ReadSet, Held, Join, Split;
    FillQueueStep(g, y, i);
  }

  lemma MarksStep(g: Geometry, y: Sys, m: Marks, i: In)
    requires Sized(g, y.s) && Sound(g, y, m) && Allowed(g, y, i)
    ensures Sound(g, Cycle(g, y, i), NextMarks(g, y, m, i))
  {
    hide Join, Split, Held, ReadSet, NextPlru, NextLines, LineHeld, LinesHeld, Allowed, Rdata, Control;
    var o := NextOldest(g, y, m, i);
    SoundStep(g, y, m, i);
    if i.invalidate {
      if y.s.phase.Fill? && (Filling(y) || Reads(g, y, i)) {
        FillWords(g, y, i, o);
        CoveredStep(g, y, i, o);
        FillQueueStep(g, y, i);
        RaiseFloor(g, y, m, i, if Filling(y) then m.oldest else |y.snaps|, o);
      } else if y.s.phase.Fill? {
        NothingCaught(g, y, i, |y.snaps|);
        RaiseFloor(g, y, m, i, |y.snaps|, |y.snaps|);
        OldestIsFree(g, y, KeepFloor(g, y, m, i).(floor := |y.snaps|, oldest := |y.snaps|), i, o);
      } else {
        RaiseFloor(g, y, m, i, |y.snaps|, |y.snaps|);
        OldestIsFree(g, y, KeepFloor(g, y, m, i).(floor := |y.snaps|, oldest := |y.snaps|), i, o);
      }
    }
  }

  // Before a fill's first read `oldest` says nothing.
  lemma OldestIsFree(g: Geometry, y: Sys, m: Marks, i: In, oldest: nat)
    requires Sized(g, y.s) && Allowed(g, y, i) && Sound(g, Cycle(g, y, i), m)
    requires !(y.s.phase.Fill? && (Filling(y) || Reads(g, y, i)))
    requires y.s.phase.Fill? ==> FillShaped(g, y)
    ensures Sound(g, Cycle(g, y, i), m.(oldest := oldest))
  {
    hide Join, Split, Held, ReadSet, NextPlru, NextLines, LineHeld, LinesHeld, Rdata;
    if y.s.phase.Fill? { FillQueueStep(g, y, i); }
  }

  lemma {:induction false} RunSound(g: Geometry, y: Sys, m: Marks, ins: seq<In>)
    requires Sized(g, y.s) && Sound(g, y, m) && AllowedRun(g, y, ins)
    ensures Sound(g, Run(g, y, ins), RunMarks(g, y, m, ins))
  {
    hide NextMarks, Cycle, Allowed, Sound;
    if ins != [] {
      var before := ins[..|ins| - 1];
      RunSound(g, y, m, before);
      MarksStep(g, Run(g, y, before), RunMarks(g, y, m, before), ins[|ins| - 1]);
    }
  }

  const START := Marks(0, 0, 0)

  lemma FreshIsSound(g: Geometry, y: Sys)
    requires Fresh(g, y)
    ensures Sound(g, y, START)
  {
    assert !y.s.phase.Lookup? && !y.s.phase.Done?;
  }

  // Freshness, with no hypothesis on when invalidates or fetches come: a word returned is one memory
  // has held at its address since the last invalidate before the fetch was accepted, or since the
  // first read of the fill that invalidate caught, if it caught one.
  lemma FetchesAreFresh(g: Geometry, y: Sys, ins: seq<In>)
    requires Fresh(g, y) && AllowedRun(g, y, ins) && Run(g, y, ins).s.phase.Done?
    ensures var z := Run(g, y, ins);
            && Held(z.snaps, RunMarks(g, y, START, ins).promise, z.s.saved, Rdata(z.s))
            && !(z.s.fillFault && !z.s.rspHit)
  {
    FreshIsSound(g, y);
    RunSound(g, y, START, ins);
    NeverFaults(g, y, ins);
  }

  lemma {:induction false} NeverFaults(g: Geometry, y: Sys, ins: seq<In>)
    requires Fresh(g, y) && AllowedRun(g, y, ins)
    ensures var s := Run(g, y, ins).s;
            s.phase.Fill? || (s.phase.Done? && !s.rspHit) ==> !s.fillFault
  {
    hide NextLines, NextPlru, ReadSet, Held, Split, HitUpTo, Low, Queue, MemRequest;
    if ins != [] { NeverFaults(g, y, ins[..|ins| - 1]); }
  }

  // So an instruction memory has held at its address ever since then is the one fetched.
  lemma SettledCodeIsFetched(g: Geometry, y: Sys, ins: seq<In>, v: Word)
    requires Fresh(g, y) && AllowedRun(g, y, ins) && Run(g, y, ins).s.phase.Done?
    requires var z := Run(g, y, ins);
             forall k | RunMarks(g, y, START, ins).promise <= k < |z.snaps| :: At(z.snaps[k], z.s.saved) == v
    ensures Rdata(Run(g, y, ins).s) == v
  {
    FetchesAreFresh(g, y, ins);
  }

  // A fetch presented in the cycle of the pulse counts as accepted before it: core_req_ready is low,
  // but the request is taken, and if the line was cached it is served from the line the pulse clears,
  // whatever memory holds.
  lemma FetchDuringInvalidateIsStale(g: Geometry, y: Sys, pulse: In, after: In, w: nat)
    requires Sized(g, y.s) && y.s.phase.Idle? && pulse.invalidate && pulse.req.Fetch?
    requires var l := Split(g, pulse.req.addr);
             HitWay(ReadSet(g, y.s.lines, l), l.tag) == Way(w)
    ensures var l, z := Split(g, pulse.req.addr), Cycle(g, Cycle(g, y, pulse), after);
            && z.s.phase.Done? && z.s.saved == pulse.req.addr
            && (!after.invalidate ==> Rdata(z.s) == y.s.lines[l.idx][w].words[l.woff])
  {
    hide NextPlru;
    var l, mid := Split(g, pulse.req.addr), Cycle(g, y, pulse);
    assert mid.s.lines[l.idx][w].words == y.s.lines[l.idx][w].words;
  }

  // ---- exactly when an invalidate leaves stale code behind ----

  // Word k of the line being filled at the pulse, if its read has been accepted: what has been, or
  // may yet be, stored for it is not what memory holds at the pulse.
  predicate StaleAt(g: Geometry, z: Sys, now: WordMem, k: nat)
    requires Sized(g, z.s) && k < g.words
  {
    var a := FillAddr(g, z.s.saved, k);
    if k < z.s.rspCnt then z.s.lines[Split(g, z.s.saved).idx][z.s.victim].words[k] != At(now, a)
    else
      && k - z.s.rspCnt < |z.queue|
      && exists n | z.queue[k - z.s.rspCnt].since <= n < |z.snaps| :: At(z.snaps[n], a) != At(now, a)
  }

  // A fill is outstanding at the pulse, and memory changed under one of its reads before it.
  predicate CaughtStale(g: Geometry, y: Sys, i: In)
    requires Sized(g, y.s)
  {
    y.s.phase.Fill? && exists k | 0 <= k < g.words :: StaleAt(g, Cycle(g, y, i), i.mem, k)
  }

  // From then on, without another invalidate: some fetch is accepted, and the one answered last
  // returns a word memory has not held since cycle t.
  predicate ServesStale(g: Geometry, z: Sys, t: nat, ins: seq<In>)
    requires Sized(g, z.s)
  {
    && AllowedRun(g, z, ins) && (forall k | 0 <= k < |ins| :: !ins[k].invalidate)
    && (exists k | 0 <= k < |ins| :: Accepts(Run(g, z, ins[..k]), ins[k]))
    && var x := Run(g, z, ins);
       x.s.phase.Done? && !Held(x.snaps, t, x.s.saved, Rdata(x.s))
  }

  lemma CleanPulse(g: Geometry, y: Sys, m: Marks, i: In)
    requires Sized(g, y.s) && Sound(g, y, m) && Allowed(g, y, i) && i.invalidate && !CaughtStale(g, y, i)
    ensures Sound(g, Cycle(g, y, i), KeepFloor(g, y, m, i).(floor := |y.snaps|, oldest := |y.snaps|))
  {
    hide NextLines, NextPlru, ReadSet, Join, Split, Held, Control;
    var z, t := Cycle(g, y, i), |y.snaps|;
    if y.s.phase.Fill? {
      FillQueueStep(g, y, i);
      forall k | 0 <= k < g.words && k < z.s.rspCnt
        ensures Held(z.snaps, t, FillAddr(g, y.s.saved, k), z.s.lines[Split(g, y.s.saved).idx][y.s.victim].words[k])
      {
        assert !StaleAt(g, z, i.mem, k);
        HeldNow(y.snaps, i.mem, t, FillAddr(g, y.s.saved, k));
      }
      forall j | 0 <= j < |z.queue|
        ensures Covered(z.snaps, t, z.queue[j])
      {
        assert z.s.phase.Fill? && !StaleAt(g, z, i.mem, z.s.rspCnt + j);
        HeldNow(y.snaps, i.mem, t, z.queue[j].addr);
      }
    }
    RaiseFloor(g, y, m, i, t, t);
  }

  lemma {:induction false} FloorStays(g: Geometry, z: Sys, m: Marks, ins: seq<In>)
    requires Sized(g, z.s) && forall k | 0 <= k < |ins| :: !ins[k].invalidate
    ensures RunMarks(g, z, m, ins).floor == m.floor
    ensures (exists k | 0 <= k < |ins| :: Accepts(Run(g, z, ins[..k]), ins[k]))
            ==> RunMarks(g, z, m, ins).promise == m.floor
  {
    hide Cycle;
    if ins != [] {
      var n := |ins| - 1;
      var before := ins[..n];
      FloorStays(g, z, m, before);
      if !Accepts(Run(g, z, before), ins[n]) && exists k | 0 <= k < |ins| :: Accepts(Run(g, z, ins[..k]), ins[k]) {
        var k :| 0 <= k < |ins| && Accepts(Run(g, z, ins[..k]), ins[k]);
        assert k < n && before[..k] == ins[..k] && before[k] == ins[k];
      }
    }
  }

  lemma CleanStaysFresh(g: Geometry, y: Sys, m: Marks, i: In, ins: seq<In>)
    requires Sized(g, y.s) && Sound(g, y, m) && Allowed(g, y, i) && i.invalidate && !CaughtStale(g, y, i)
    ensures !ServesStale(g, Cycle(g, y, i), |y.snaps|, ins)
  {
    hide Cycle, Held;
    var z := Cycle(g, y, i);
    var raised := KeepFloor(g, y, m, i).(floor := |y.snaps|, oldest := |y.snaps|);
    if ServesStale(g, z, |y.snaps|, ins) {
      CleanPulse(g, y, m, i);
      RunSound(g, z, raised, ins);
      FloorStays(g, z, raised, ins);
    }
  }
}
