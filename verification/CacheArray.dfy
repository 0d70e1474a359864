/**
 What the two caches share: address geometry, the lines, hit detection and tree-pLRU
 (rtl/cache/dcache.sv, rtl/cache/icache.sv), for any number of sets and any line length.
 */
module CacheArray {
  import opened Rv32
  import opened Arithmetic

  const WAYS: nat := 4

  // SETS and LINE_WORDS.
  datatype Geometry = Geometry(sets: nat, words: nat)

  predicate Sane(g: Geometry) { g.sets > 0 && g.words > 0 }

  // A word address, split into its cache fields.
  datatype Loc = Loc(tag: nat, idx: nat, woff: nat)

  function Split(g: Geometry, a: nat): (l: Loc)
    requires Sane(g)
    ensures l.idx < g.sets && l.woff < g.words
  {
    Loc(a / g.words / g.sets, a / g.words % g.sets, a % g.words)
  }

  function Join(g: Geometry, l: Loc): nat { (l.tag * g.sets + l.idx) * g.words + l.woff }

  // The split loses nothing, so distinct lines are distinct memory.
  lemma JoinSplit(g: Geometry, a: nat)
    requires Sane(g)
    ensures Join(g, Split(g, a)) == a
  {
    var line := a / g.words;
    assert line == line / g.sets * g.sets + line % g.sets;
    assert a == line * g.words + a % g.words;
  }

  lemma SplitJoin(g: Geometry, l: Loc)
    requires Sane(g) && l.idx < g.sets && l.woff < g.words
    ensures Split(g, Join(g, l)) == l
  {
    DivisionUnique(Join(g, l), g.words, l.tag * g.sets + l.idx, l.woff);
    DivisionUnique(l.tag * g.sets + l.idx, g.sets, l.tag, l.idx);
  }

  // ---- memory, by word address ----

  type WordMem = map<nat, Word>

  function At(m: WordMem, a: nat): Word { if a in m then m[a] else 0 }

  function AtLoc(g: Geometry, m: WordMem, l: Loc): Word { At(m, Join(g, l)) }

  function Poke(m: WordMem, a: nat, v: Word, mask: Mask): WordMem { m[a := Merge(At(m, a), v, mask)] }

  lemma PokeAtLoc(g: Geometry, m: WordMem, a: nat, v: Word, mask: Mask, l: Loc)
    requires Sane(g) && l.idx < g.sets && l.woff < g.words
    ensures AtLoc(g, Poke(m, a, v, mask), l)
            == if l == Split(g, a) then Merge(AtLoc(g, m, l), v, mask) else AtLoc(g, m, l)
  {
    SplitJoin(g, l);
    JoinSplit(g, a);
  }

  // ---- lines ----

  datatype Line = Line(valid: bool, tag: nat, words: seq<Word>)

  type Lines = seq<seq<Line>>

  predicate Shaped(g: Geometry, ls: Lines) {
    |ls| == g.sets && forall i | 0 <= i < g.sets :: ShapedSet(g, ls[i])
  }

  predicate ShapedSet(g: Geometry, ways: seq<Line>) {
    |ways| == WAYS && forall w | 0 <= w < WAYS :: |ways[w].words| == g.words
  }

  lemma SameLines(a: Lines, b: Lines)
    requires |a| == |b| && forall i | 0 <= i < |a| :: |a[i]| == |b[i]|
    requires forall i, w | 0 <= i < |a| && 0 <= w < |a[i]| :: a[i][w] == b[i][w]
    ensures a == b
  {
    forall i | 0 <= i < |a|
      ensures a[i] == b[i]
    {
    }
  }

  // What the synchronous read ports deliver for one way.
  datatype ReadOut = ReadOut(valid: bool, tag: nat, data: Word)

  function ReadSet(g: Geometry, ls: Lines, l: Loc): (rd: seq<ReadOut>)
    requires Shaped(g, ls) && l.idx < g.sets && l.woff < g.words
    ensures |rd| == WAYS
  {
    seq(WAYS, w requires 0 <= w < WAYS =>
      ReadOut(ls[l.idx][w].valid, ls[l.idx][w].tag, ls[l.idx][w].words[l.woff]))
  }

  predicate WayHits(r: ReadOut, tag: nat) { r.valid && r.tag == tag }

  datatype Way = NoWay | Way(w: nat)

  // The last matching way, as the hit loop finds it.
  function HitUpTo(ways: seq<ReadOut>, tag: nat, n: nat): (h: Way)
    requires n <= |ways|
    ensures h.Way? ==> h.w < n && WayHits(ways[h.w], tag)
    ensures h.NoWay? ==> forall w | 0 <= w < n :: !WayHits(ways[w], tag)
  {
    if n == 0 then NoWay
    else if WayHits(ways[n - 1], tag) then Way(n - 1)
    else HitUpTo(ways, tag, n - 1)
  }

  function HitWay(ways: seq<ReadOut>, tag: nat): Way { HitUpTo(ways, tag, |ways|) }

  predicate DistinctTags(ways: seq<Line>) {
    forall v, w | 0 <= v < w < |ways| && ways[v].valid && ways[w].valid :: ways[v].tag != ways[w].tag
  }

  // A line holds what memory holds.
  predicate Mirrors(g: Geometry, m: WordMem, idx: nat, l: Line)
    requires |l.words| == g.words
  {
    forall k | 0 <= k < g.words :: l.words[k] == AtLoc(g, m, Loc(l.tag, idx, k))
  }

  // Every valid line, but for the ones in way `but` of set `at`, holds what memory holds, and no set
  // holds a line twice.
  predicate Coherent(g: Geometry, ls: Lines, m: WordMem, at: nat, but: nat)
    requires Shaped(g, ls)
  {
    && (forall i, w | 0 <= i < g.sets && 0 <= w < WAYS && ls[i][w].valid && !(i == at && w == but) ::
          Mirrors(g, m, i, ls[i][w]))
    && (forall i | 0 <= i < g.sets :: DistinctTags(ls[i]))
  }

  // ---- tree-pLRU ----

  datatype Plru = Plru(b0: bool, b1: bool, b2: bool)

  function PlruPick(p: Plru): (w: nat)
    ensures w < WAYS
  {
    if p.b2 then (if p.b0 then 3 else 2) else if p.b1 then 1 else 0
  }

  function PlruUpdate(p: Plru, w: nat): Plru {
    if w / 2 % 2 == 0 then p.(b2 := true, b1 := w % 2 == 0) else p.(b2 := false, b0 := w % 2 == 0)
  }

  // The way just used is never the next victim, nor is the one used before it in the other half.
  lemma PlruSparesRecent(p: Plru, older: nat, last: nat)
    requires older < WAYS && last < WAYS
    ensures PlruPick(PlruUpdate(p, last)) != last
    ensures PlruPick(PlruUpdate(PlruUpdate(p, older), last)) != last
    ensures PlruPick(PlruUpdate(PlruUpdate(p, older), last)) != older
  {
  }

  // Four uses of four different ways leave the first of them either the victim or its neighbour:
  // refilling round the tree evicts every way in four misses.
  lemma PlruCyclesThroughWays(p: Plru)
    ensures var a := PlruPick(p);
            var pa := PlruUpdate(p, a);
            var b := PlruPick(pa);
            var pb := PlruUpdate(pa, b);
            var c := PlruPick(pb);
            var pc := PlruUpdate(pb, c);
            var d := PlruPick(pc);
            {a, b, c, d} == {0, 1, 2, 3} && PlruUpdate(pc, d) == p
  {
  }
}
