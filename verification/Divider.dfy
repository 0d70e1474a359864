/**
 The iterative restoring divider (rtl/core/div_unit.sv): one quotient bit a cycle, a 33-bit
 subtraction whose top bit is the borrow, and sign fixup at the end.
 */
module Divider {
  import opened Rv32
  import opened Arithmetic

  datatype Phase = Idle | Init | Compute | Fixup

  // What is captured with the operands.
  datatype Request = Request(wantRem: bool, negQ: bool, negR: bool, byZero: bool, overflow: bool)

  datatype Regs = Regs(
    phase: Phase, done: bool, result: Word, op: Request,
    remainder: Word, quotient: Word, divisorAbs: Word, dividendAbs: Word, iter: nat)

  datatype In = In(start: bool, signed: bool, wantRem: bool, dividend: Word, divisor: Word)

  const RESET := Regs(Idle, false, 0, Request(false, false, false, false, false), 0, 0, 0, 0, 0)

  function Negate(x: Word): Word { (0x1_0000_0000 - x) % 0x1_0000_0000 }

  predicate Negative(signed: bool, x: Word) { signed && x >= 0x8000_0000 }

  function Abs(signed: bool, x: Word): Word { if Negative(signed, x) then Negate(x) else x }

  // ---- the restoring step ----

  function Shifted(s: Regs): nat { 2 * s.remainder + s.dividendAbs / 0x8000_0000 }

  function Subtracted(s: Regs): nat { (Shifted(s) + 0x2_0000_0000 - s.divisorAbs) % (0x2_0000_0000) }

  predicate NoBorrow(s: Regs) { Subtracted(s) < 0x1_0000_0000 }

  function Capture(i: In): Request {
    Request(i.wantRem, Negative(i.signed, i.dividend) != Negative(i.signed, i.divisor), Negative(i.signed, i.dividend),
       i.divisor == 0, i.signed && i.dividend == 0x8000_0000 && i.divisor == 0xFFFF_FFFF)
  }

  function Accept(s: Regs, i: In): Regs {
    Regs(Init, false, s.result, Capture(i), 0, 0, Abs(i.signed, i.divisor), Abs(i.signed, i.dividend), 0)
  }

  function ShortCut(s: Regs): Word {
    if s.op.byZero then
      if !s.op.wantRem then 0xFFFF_FFFF else if s.op.negR then Negate(s.dividendAbs) else s.dividendAbs
    else if s.op.wantRem then 0 else 0x8000_0000
  }

  function Divide(s: Regs): Regs {
    s.(phase := if s.iter == 31 then Fixup else Compute,
       remainder := if NoBorrow(s) then Subtracted(s) % 0x1_0000_0000 else Shifted(s) % 0x1_0000_0000,
       quotient := (2 * s.quotient + if NoBorrow(s) then 1 else 0) % 0x1_0000_0000,
       dividendAbs := 2 * s.dividendAbs % 0x1_0000_0000,
       iter := (s.iter + 1) % 64,
       done := false)
  }

  function Signs(s: Regs): Word {
    if s.op.wantRem then (if s.op.negR then Negate(s.remainder) else s.remainder)
    else if s.op.negQ then Negate(s.quotient) else s.quotient
  }

  function Next(s: Regs, i: In): Regs {
    match s.phase
    case Idle => if i.start then Accept(s, i) else s.(done := false)
    case Init =>
      if s.op.byZero || s.op.overflow then s.(phase := Idle, done := true, result := ShortCut(s))
      else s.(phase := Compute, done := false)
    case Compute => Divide(s)
    case Fixup => s.(phase := Idle, done := true, result := Signs(s))
  }

  function Run(s: Regs, ins: seq<In>): Regs {
    if ins == [] then s else Next(Run(s, ins[..|ins| - 1]), ins[|ins| - 1])
  }

  // ---- what DIV, DIVU, REM and REMU mean ----

  function Value(signed: bool, x: Word): int { if Negative(signed, x) then x - 0x1_0000_0000 else x }

  function Magnitude(x: int): nat { if x < 0 then -x else x }

  function Quotient(a: int, b: int): int
    requires b != 0
  {
    var q := Magnitude(a) / Magnitude(b);
    if (a < 0) != (b < 0) then -q else q
  }

  function Remainder(a: int, b: int): int
    requires b != 0
  {
    var r := Magnitude(a) % Magnitude(b);
    if a < 0 then -r else r
  }

  function Spec(i: In): Word {
    var a, b := Value(i.signed, i.dividend), Value(i.signed, i.divisor);
    if i.divisor == 0 then (if i.wantRem then i.dividend else 0xFFFF_FFFF)
    else (if i.wantRem then Remainder(a, b) else Quotient(a, b)) % 0x1_0000_0000
  }

  // The defining equations of section 7.2 of the RISC-V Unprivileged ISA: the dividend is divisor
  // times quotient plus remainder, rounding is towards zero, the remainder takes the dividend's sign.
  lemma SpecIsDivision(a: int, b: int)
    requires b != 0
    ensures a == b * Quotient(a, b) + Remainder(a, b)
    ensures Magnitude(Remainder(a, b)) < Magnitude(b)
    ensures Remainder(a, b) == 0 || (Remainder(a, b) < 0 <==> a < 0)
  {
    var m: int, n: int := Magnitude(a), Magnitude(b);
    assert m == n * (m / n) + m % n;
    assert b * Quotient(a, b) == if a < 0 then -(n * (m / n)) else n * (m / n);
  }

  // Results fit their word, with the one exception the ISA names: the quotient of INT_MIN by -1.
  lemma SpecFits(i: In)
    requires i.divisor != 0
    ensures Value(i.signed, Spec(i.(wantRem := true)))
            == Remainder(Value(i.signed, i.dividend), Value(i.signed, i.divisor))
    ensures Value(i.signed, Spec(i.(wantRem := false)))
            == Quotient(Value(i.signed, i.dividend), Value(i.signed, i.divisor))
            <==> !(i.signed && i.dividend == 0x8000_0000 && i.divisor == 0xFFFF_FFFF)
    ensures i.signed && i.dividend == 0x8000_0000 && i.divisor == 0xFFFF_FFFF ==>
              Spec(i.(wantRem := false)) == 0x8000_0000 && Spec(i.(wantRem := true)) == 0
  {
    hide Quotient, Remainder;
    var a, b := Value(i.signed, i.dividend), Value(i.signed, i.divisor);
    ResultBounds(a, b);
    WrapValue(i.signed, Remainder(a, b));
    if a == -0x8000_0000 && b == -1 {
      MinByMinusOne();
    } else {
      WrapValue(i.signed, Quotient(a, b));
    }
  }

  lemma WrapValue(signed: bool, x: int)
    requires if signed then -0x8000_0000 <= x < 0x8000_0000 else 0 <= x < 0x1_0000_0000
    ensures Value(signed, x % 0x1_0000_0000) == x
  {
  }

  lemma ResultBounds(a: int, b: int)
    requires b != 0
    ensures Magnitude(Quotient(a, b)) <= Magnitude(a) && Magnitude(Remainder(a, b)) <= Magnitude(a)
    ensures Magnitude(Remainder(a, b)) < Magnitude(b)
    ensures a >= 0 && b > 0 ==> Quotient(a, b) >= 0 && Remainder(a, b) >= 0
    ensures Magnitude(b) > 1 && a != 0 ==> Magnitude(Quotient(a, b)) < Magnitude(a)
    ensures b == 1 ==> Quotient(a, b) == a
  {
    QuotientBound(Magnitude(a), Magnitude(b));
  }

  lemma MinByMinusOne()
    ensures Quotient(-0x8000_0000, -1) == 0x8000_0000 && Remainder(-0x8000_0000, -1) == 0
  {
    QuotientBound(0x8000_0000, 1);
  }

  // ---- the loop invariant ----

  // n * 2^k
  function Scaled(n: nat, k: nat): nat { if k == 0 then n else 2 * Scaled(n, k - 1) }

  // After k steps: R < D, and Q * D + R is the number made of the top k bits of |dividend|, whose
  // other bits are what is left in the shift register.
  ghost predicate Restored(s: Regs, n: nat, d: nat, k: nat) {
    && s.remainder < d == s.divisorAbs
    && s.quotient < Scaled(1, k)
    && Scaled(n, k) == (s.quotient * d + s.remainder) * 0x1_0000_0000 + s.dividendAbs
  }

  lemma RestoredTopBits(s: Regs, n: nat, d: nat, k: nat)
    requires Restored(s, n, d, k)
    ensures s.quotient * d + s.remainder == Scaled(n, k) / 0x1_0000_0000
  {
  }

  // The top bit of the 33-bit difference is exactly the borrow.
  lemma BorrowIsComparison(s: Regs)
    requires s.remainder < s.divisorAbs
    ensures NoBorrow(s) <==> Shifted(s) >= s.divisorAbs
    ensures NoBorrow(s) ==> Subtracted(s) == Shifted(s) - s.divisorAbs < s.divisorAbs
  {
    var x := Shifted(s) - s.divisorAbs;
    if x >= 0 {
      assert (x + 0x2_0000_0000) % (0x2_0000_0000) == x;
    }
  }

  lemma DivideStep(s: Regs, k: nat)
    requires s.phase.Compute? && s.remainder < s.divisorAbs
    requires s.quotient < Scaled(1, k) && k < 32
    ensures var t := Divide(s);
            var b := if NoBorrow(s) then 1 else 0;
            && t.quotient == 2 * s.quotient + b < Scaled(1, k + 1)
            && t.remainder == Shifted(s) - (if b == 1 then s.divisorAbs else 0) < s.divisorAbs
  {
    BorrowIsComparison(s);
    OneScaled(k + 1);
  }

  lemma RestoredStep(s: Regs, n: nat, d: nat, k: nat)
    requires s.phase.Compute? && s.iter == k < 32
    requires Restored(s, n, d, k)
    ensures Restored(Divide(s), n, d, k + 1)
  {
    hide NoBorrow;
    DivideStep(s, k);
    ShiftOneBit(s.quotient, s.remainder, d, s.dividendAbs, Scaled(n, k), if NoBorrow(s) then 1 else 0);
  }

  lemma RestoredAtStart(s: Regs, n: nat, d: nat)
    requires s.divisorAbs == d > 0 && s.quotient == s.remainder == 0 && s.dividendAbs == n
    ensures Restored(s, n, d, 0)
  {
    assert 0 * d == 0;
  }

  lemma ShiftOneBit(q: nat, r: nat, d: nat, low: Word, whole: nat, b: nat)
    requires whole == (q * d + r) * 0x1_0000_0000 + low && b < 2
    ensures var r2 := 2 * r + low / 0x8000_0000 - (if b == 1 then d else 0);
            2 * whole == ((2 * q + b) * d + r2) * 0x1_0000_0000 + 2 * low % 0x1_0000_0000
  {
    assert (2 * q + b) * d == 2 * (q * d) + b * d;
  }

  lemma ScaledBy4(n: nat, k: nat)
    ensures Scaled(n, k + 4) == 16 * Scaled(n, k)
  {
    assert Scaled(n, k + 2) == 4 * Scaled(n, k);
  }

  lemma ScaledBy32(n: nat)
    ensures Scaled(n, 32) == n * 0x1_0000_0000
  {
    ScaledBy4(n, 0);
    ScaledBy4(n, 4);
    ScaledBy4(n, 8);
    ScaledBy4(n, 12);
    ScaledBy4(n, 16);
    ScaledBy4(n, 20);
    ScaledBy4(n, 24);
    ScaledBy4(n, 28);
  }

  lemma {:induction false} ScaledGrows(j: nat, k: nat)
    requires j <= k
    ensures Scaled(1, j) <= Scaled(1, k)
  {
    if j < k { ScaledGrows(j, k - 1); }
  }

  lemma OneScaled(k: nat)
    requires k <= 32
    ensures Scaled(1, k) <= 0x1_0000_0000
  {
    ScaledBy32(1);
    ScaledGrows(k, 32);
  }

  // ---- every division, whatever the inputs do meanwhile ----

  predicate Special(i: In) {
    i.divisor == 0 || (i.signed && i.dividend == 0x8000_0000 && i.divisor == 0xFFFF_FFFF)
  }

  // Cycles from the one that accepts `start` to the one in which `done` is up.
  function Latency(i: In): nat { if Special(i) then 2 else 35 }

  predicate Captured(s: Regs, i: In) {
    s.op == Capture(i) && !s.done && s.divisorAbs == Abs(i.signed, i.divisor)
  }

  // The unit, t cycles after accepting `i`.
  ghost predicate Working(s: Regs, i: In, t: nat) {
    var n, d := Abs(i.signed, i.dividend), Abs(i.signed, i.divisor);
    && Captured(s, i)
    && (t == 1 ==> s.phase.Init? && s.iter == 0 && s.quotient == 0 && s.remainder == 0 && s.dividendAbs == n)
    && (2 <= t <= 33 ==> s.phase.Compute? && s.iter == t - 2 && Restored(s, n, d, t - 2))
    && (t == 34 ==> s.phase.Fixup? && Restored(s, n, d, 32))
  }

  lemma WorkingStep(s: Regs, i: In, later: In, t: nat)
    requires 1 <= t < Latency(i) - 1 && Working(s, i, t)
    ensures Working(Next(s, later), i, t + 1)
  {
    var n, d := Abs(i.signed, i.dividend), Abs(i.signed, i.divisor);
    if t == 1 {
      RestoredAtStart(Next(s, later), n, d);
    } else {
      hide Scaled, Divide;
      RestoredStep(s, n, d, t - 2);
    }
  }

  lemma FixupIsDivision(s: Regs, i: In)
    requires Working(s, i, 34) && !Special(i)
    ensures Signs(s) == Spec(i)
  {
    var n, d := Abs(i.signed, i.dividend), Abs(i.signed, i.divisor);
    ScaledBy32(n);
    DivisionUnique(n, d, s.quotient, s.remainder);
    SignsFixed(s, i);
  }

  lemma SignsFixed(s: Regs, i: In)
    requires Captured(s, i) && i.divisor != 0
    requires var n, d := Abs(i.signed, i.dividend), Abs(i.signed, i.divisor);
             s.quotient == n / d && s.remainder == n % d
    ensures Signs(s) == Spec(i)
  {
    var a, b := Value(i.signed, i.dividend), Value(i.signed, i.divisor);
    assert Abs(i.signed, i.dividend) == Magnitude(a) && Abs(i.signed, i.divisor) == Magnitude(b);
    WrapNegative(s.quotient);
    WrapNegative(s.remainder);
  }

  lemma WrapNegative(x: Word)
    ensures (0 - x) % 0x1_0000_0000 == Negate(x) && x % 0x1_0000_0000 == x
  {
  }

  // A start accepted in the idle state raises busy at once; busy stays up and done down through
  // cycle Latency - 1, whatever the inputs are meanwhile; then done pulses with the answer.
  lemma {:induction false} DividesCorrectly(s: Regs, i: In, later: seq<In>)
    requires s.phase.Idle? && i.start && |later| < Latency(i)
    ensures var t := |later| + 1;
            var q := Run(Next(s, i), later);
            && (t < Latency(i) ==> !q.phase.Idle? && !q.done && Working(q, i, t))
            && (t == Latency(i) ==> q.phase.Idle? && q.done && q.result == Spec(i))
  {
    var first := Next(s, i);
    if later == [] {
      AcceptWorks(s, i);
    } else {
      var t := |later|;
      DividesCorrectly(s, i, later[..t - 1]);
      var before := Run(first, later[..t - 1]);
      if t + 1 < Latency(i) {
        WorkingStep(before, i, later[t - 1], t);
      } else if Special(i) {
        ShortCutIsDivision(before, i);
      } else {
        FixupIsDivision(before, i);
      }
    }
  }

  lemma AcceptWorks(s: Regs, i: In)
    requires s.phase.Idle? && i.start
    ensures Working(Next(s, i), i, 1)
  {
  }

  lemma ShortCutIsDivision(s: Regs, i: In)
    requires Working(s, i, 1) && Special(i)
    ensures ShortCut(s) == Spec(i)
  {
    hide Quotient, Remainder;
    if i.divisor != 0 {
      assert Value(i.signed, i.dividend) == -0x8000_0000 && Value(i.signed, i.divisor) == -1;
      MinByMinusOne();
    }
  }

  // The pulse lasts one cycle: in the next one done is down, whether or not a new start arrives.
  lemma DonePulses(s: Regs, i: In, ins: seq<In>)
    requires s == Run(RESET, ins) && s.done
    ensures s.phase.Idle? && !Next(s, i).done
  {
    DoneWhenIdle(ins);
  }

  lemma {:induction false} DoneWhenIdle(ins: seq<In>)
    ensures Run(RESET, ins).done ==> Run(RESET, ins).phase.Idle?
  {
    if ins != [] { DoneWhenIdle(ins[..|ins| - 1]); }
  }

  // ---- the clocked unit ----

  class DivUnit {
    var phase: Phase
    var done: bool
    var result: Word
    var op: Request
    var remainder: Word
    var quotient: Word
    var divisorAbs: Word
    var dividendAbs: Word
    var iter: nat

    function State(): Regs
      reads this
    {
      Regs(phase, done, result, op, remainder, quotient, divisorAbs, dividendAbs, iter)
    }

    constructor ()
      ensures State() == RESET
    {
      phase, done, result, op := Idle, false, 0, Request(false, false, false, false, false);
      remainder, quotient, divisorAbs, dividendAbs, iter := 0, 0, 0, 0, 0;
    }

    method Restore()
      modifies `phase, `remainder, `quotient, `dividendAbs, `iter
      ensures State() == Divide(old(State())).(done := done)
    {
      var s := State();
      if NoBorrow(s) {
        remainder, quotient := Subtracted(s) % 0x1_0000_0000, (2 * quotient + 1) % 0x1_0000_0000;
      } else {
        remainder, quotient := Shifted(s) % 0x1_0000_0000, 2 * quotient % 0x1_0000_0000;
      }
      dividendAbs := 2 * dividendAbs % 0x1_0000_0000;
      phase := if iter == 31 then Fixup else Compute;
      iter := (iter + 1) % 64;
    }

    // One rising edge.
    method Clock(i: In)
      modifies this
      ensures State() == Next(old(State()), i)
    {
      var s := State();
      done := false;
      match phase {
        case Idle =>
          if i.start {
            op := Capture(i);
            divisorAbs, dividendAbs := Abs(i.signed, i.divisor), Abs(i.signed, i.dividend);
            remainder, quotient, iter := 0, 0, 0;
            phase := Init;
          }
        case Init =>
          if op.byZero || op.overflow {
            phase, done, result := Idle, true, ShortCut(s);
          } else { phase := Compute; }
        case Compute => Restore();
        case Fixup => phase, done, result := Idle, true, Signs(s);
      }
    }
  }
}
