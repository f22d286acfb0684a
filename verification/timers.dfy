/// The four cascading 16-bit timers.
///
/// `Advance` and `After` are the closed forms the emulator uses for a whole
/// batch of cycles; `Cycle` and `AllCycle` are a machine that moves one CPU
/// cycle at a time.  The theorems show that the two agree.
module Timers {
  import opened Arithmetic

  const WRAP := 0x1_0000        // a counter overflows on reaching this value
  const BATCH_LIMIT := 0xFFFE_0000  // batches up to here keep every u32 in range
  const U32_LIMIT := 0x1_0000_0000

  /** The prescaler rates F/1, F/64, F/256 and F/1024. */
  datatype Rate = F1 | F64 | F256 | F1024 {
    /** CPU cycles per timer tick: one shifted left by 0, 6, 8 or 10. */
    function Cycles(): (s: nat)
      ensures 1 <= s <= 1024
    {
      match this
      case F1 => 1
      case F64 => 64
      case F256 => 256
      case F1024 => 1024
    }
  }

  /** The control register, field by field. */
  datatype Control = Control(enabled: bool, irq: bool, cascade: bool, rate: Rate)

  /** The fields of the 16-bit register: bit 7, bit 6, bit 2 and bits 1-0. */
  function FromRegister(val: nat): Control {
    Control(val / 0x80 % 2 == 1, val / 0x40 % 2 == 1, val / 4 % 2 == 1,
            match val % 4 case 0 => F1 case 1 => F64 case 2 => F256 case _ => F1024)
  }

  datatype TimerState = TimerState(reload: nat, counter: nat, control: Control, prescaler: nat, delay: nat) {
    predicate Enabled() { control.enabled }

    predicate Cascade() { control.cascade }

    function Scale(): nat { control.rate.Cycles() }

    function Period(): nat
      requires reload < WRAP
    {
      (WRAP - reload) * Scale()
    }

    /** The register widths, and the prescaler phase of a running timer. */
    predicate Valid() {
      && reload < WRAP
      && counter < WRAP
      && prescaler < 1024
      && delay <= 2
      && (Enabled() ==> prescaler < Scale())
    }

    predicate Running() { Valid() && Enabled() && !Cascade() }

    /** CPU cycles from now until a running timer next overflows. */
    function UntilOverflow(): int {
      delay + (WRAP - counter) * Scale() - prescaler
    }
  }

  /** Count and position of a timer's overflows inside one batch. */
  datatype TimerOverflow = TimerOverflow(count: nat, first: nat)

  const NONE := TimerOverflow(0, 0)

  datatype Ticked = Ticked(state: TimerState, ov: TimerOverflow)

  // ---------------------------------------------------------------- batch form

  /** Quotient and remainder: the shift and the mask of a prescaler phase. */
  function DivMod(x: nat, s: nat): (nat, nat)
    requires s > 0
  {
    (x / s, x % s)
  }

  /** Counter and overflow count after `ticks` timer ticks. */
  function AddTicks(counter: nat, reload: nat, ticks: nat): (nat, nat)
    requires reload < WRAP
  {
    var sum := counter + ticks;
    if sum < WRAP then (sum, 0)
    else
      var (extra, rest) := DivMod(sum - WRAP, WRAP - reload);
      (reload + rest, 1 + extra)
  }

  /** CPU cycles to the first overflow: the first tick costs what is left of the
      prescaler phase, every later one a full prescaler period. */
  function FirstOverflow(counter: nat, prescaler: nat, scale: nat): (r: nat)
    requires counter < WRAP && prescaler <= scale
    ensures r <= WRAP * scale
  {
    MulMonotone(0, WRAP - counter - 1, scale);
    MulMonotone(WRAP - counter - 1, WRAP - 1, scale);
    (scale - prescaler) + (WRAP - counter - 1) * scale
  }

  /** A prescaler-driven timer over a batch of `cycles`. */
  function Advance(t: TimerState, cycles: nat): Ticked
    requires t.Running()
  {
    if t.delay > 0 && t.delay >= cycles then Ticked(t.(delay := t.delay - cycles), NONE)
    else
      var (ticks, phase) := DivMod(t.prescaler + (cycles - t.delay), t.Scale());
      var started := t.(delay := 0, prescaler := phase);
      if ticks == 0 then Ticked(started, NONE)
      else
        var (counter, n) := AddTicks(t.counter, t.reload, ticks);
        var first := t.delay + FirstOverflow(t.counter, t.prescaler, t.Scale());
        Ticked(started.(counter := counter),
               if n > 0 then TimerOverflow(n, if first < cycles then first else cycles) else NONE)
  }

  /** Timer `i` of the chain over a batch of `cycles`. */
  function After(ts: seq<TimerState>, cycles: nat, i: nat): Ticked
    requires i < |ts| && AllValid(ts)
  {
    if ts[i].Enabled() && ts[i].Cascade() && i > 0
    then CascadeFrom(ts[i], After(ts, cycles, i - 1).ov)
    else Driven(ts[i], cycles)
  }

  function Driven(t: TimerState, cycles: nat): Ticked
    requires t.Valid()
  {
    if t.Running() then Advance(t, cycles) else Ticked(t, NONE)
  }

  function CascadeFrom(t: TimerState, parent: TimerOverflow): Ticked
    requires t.Valid()
  {
    if parent.count == 0 then Ticked(t, NONE)
    else
      var (counter, n) := AddTicks(t.counter, t.reload, parent.count);
      Ticked(t.(counter := counter), if n > 0 then TimerOverflow(n, parent.first) else NONE)
  }

  predicate AllValid(ts: seq<TimerState>) {
    forall i :: 0 <= i < |ts| ==> ts[i].Valid()
  }

  // ---------------------------------------------------------- one-cycle machine

  /** One timer tick: the counter goes up, or reloads with an overflow. */
  function Increment(t: TimerState): (TimerState, bool) {
    if t.counter + 1 == WRAP then (t.(counter := t.reload), true)
    else (t.(counter := t.counter + 1), false)
  }

  /** One CPU cycle of a prescaler-driven timer. */
  function Cycle(t: TimerState): (TimerState, bool) {
    if t.delay > 0 then (t.(delay := t.delay - 1), false)
    else if t.prescaler + 1 < t.Scale() then (t.(prescaler := t.prescaler + 1), false)
    else Increment(t.(prescaler := 0))
  }

  /** One CPU cycle of timer `i` of the chain. */
  function ChainCycle(ts: seq<TimerState>, i: nat): (TimerState, bool)
    requires i < |ts|
  {
    var t := ts[i];
    if !t.Enabled() then (t, false)
    else if !t.Cascade() then Cycle(t)
    else if i > 0 && ChainCycle(ts, i - 1).1 then Increment(t)
    else (t, false)
  }

  /** `n` single cycles of one timer, with the cycle number of each overflow. */
  function Cycles(t: TimerState, n: nat): (TimerState, seq<nat>) {
    if n == 0 then (t, [])
    else
      var (before, stamps) := Cycles(t, n - 1);
      var (after, overflow) := Cycle(before);
      (after, if overflow then stamps + [n] else stamps)
  }

  /** `n` single cycles of the whole chain, counting each timer's overflows. */
  function ChainCycles(ts: seq<TimerState>, n: nat): (r: (seq<TimerState>, seq<nat>))
    ensures |r.0| == |r.1| == |ts|
  {
    if n == 0 then (ts, seq(|ts|, _ => 0))
    else
      var (before, counts) := ChainCycles(ts, n - 1);
      (seq(|ts|, i requires 0 <= i < |ts| => ChainCycle(before, i).0),
       seq(|ts|, i requires 0 <= i < |ts| => counts[i] + if ChainCycle(before, i).1 then 1 else 0))
  }

  // -------------------------------------------------------- conservation of ticks

  /** What any correct account of `ticks` ticks must satisfy. */
  predicate Counts(t: TimerState, ticks: nat, counter: nat, n: nat)
    requires t.reload < WRAP
  {
    && counter < WRAP
    && n * (WRAP - t.reload) + counter == t.counter + ticks
    && (n > 0 ==> counter >= t.reload)
  }

  lemma DivModExact(x: nat, s: nat)
    requires s > 0
    ensures var (q, r) := DivMod(x, s); q * s + r == x && r < s
  {
  }

  lemma DivModAtMost(x: nat, s: nat)
    requires s > 0
    ensures DivMod(x, s).0 <= x
  {
    DivModExact(x, s);
    MulAtLeast(DivMod(x, s).0, s);
  }

  lemma AddTicksCounts(t: TimerState, ticks: nat)
    requires t.Valid()
    ensures var (counter, n) := AddTicks(t.counter, t.reload, ticks); Counts(t, ticks, counter, n) && n <= ticks
  {
    if t.counter + ticks >= WRAP {
      var period := WRAP - t.reload;
      var (q, r) := DivMod(t.counter + ticks - WRAP, period);
      DivModExact(t.counter + ticks - WRAP, period);
      Distribute(1, q, period);
      MulAtLeast(q, period);
    }
  }

  /** The account is unique: tick conservation pins both results. */
  lemma CountsUnique(t: TimerState, ticks: nat, c1: nat, n1: nat, c2: nat, n2: nat)
    requires t.Valid() && Counts(t, ticks, c1, n1) && Counts(t, ticks, c2, n2)
    ensures c1 == c2 && n1 == n2
  {
    var p := WRAP - t.reload;
    if n1 > n2 {
      assert n1 * p == n2 * p + (n1 - n2) * p;
      MulAtLeast(p, n1 - n2);
    } else if n2 > n1 {
      assert n2 * p == n1 * p + (n2 - n1) * p;
      MulAtLeast(p, n2 - n1);
    }
  }

  /** Ticks may be delivered in two lots. */
  lemma AddTicksSplit(t: TimerState, x: nat, y: nat)
    requires t.Valid()
    ensures var (c1, n1) := AddTicks(t.counter, t.reload, x);
            var (c2, n2) := AddTicks(c1, t.reload, y);
            AddTicks(t.counter, t.reload, x + y) == (c2, n1 + n2)
  {
    var (c1, n1) := AddTicks(t.counter, t.reload, x);
    AddTicksCounts(t, x);
    var t1 := t.(counter := c1);
    var (c2, n2) := AddTicks(c1, t.reload, y);
    AddTicksCounts(t1, y);
    var (c, n) := AddTicks(t.counter, t.reload, x + y);
    AddTicksCounts(t, x + y);
    hide AddTicks;
    Distribute(n1, n2, WRAP - t.reload);
    CountsUnique(t, x + y, c, n, c2, n1 + n2);
  }

  // ---------------------------------------------------- prescaler-driven timers

  /** What any correct account of `cycles` CPU cycles must satisfy: the time
      left until the next overflow drops by one per cycle and rises by one
      period per overflow. */
  predicate Advances(t: TimerState, cycles: nat, t': TimerState, n: nat)
    requires t.Running()
  {
    && t' == t.(counter := t'.counter, prescaler := t'.prescaler, delay := t'.delay)
    && t'.Running()
    && t'.delay == (if t.delay >= cycles then t.delay - cycles else 0)
    && t'.UntilOverflow() == t.UntilOverflow() + n * t.Period() - cycles
    && (n > 0 ==> t'.UntilOverflow() <= t.Period())
  }

  lemma UntilPositive(t: TimerState)
    requires t.Running()
    ensures 1 <= t.UntilOverflow() && 1 <= t.Period()
  {
    var s := t.Scale();
    assert (WRAP - t.counter) * s >= s;
    assert (WRAP - t.reload) * s >= s;
  }

  lemma AdvanceAdvances(t: TimerState, cycles: nat)
    requires t.Running()
    ensures Advances(t, cycles, Advance(t, cycles).state, Advance(t, cycles).ov.count)
    ensures Advance(t, cycles).state.Period() == t.Period()
    ensures Advance(t, cycles).ov.count > 0 ==>
      Advance(t, cycles).ov.first == if t.UntilOverflow() < cycles then t.UntilOverflow() else cycles
  {
    hide AddTicks, DivMod, Rate.Cycles;
    if t.delay == 0 || t.delay < cycles {
      var s := t.Scale();
      var (ticks, rest) := DivMod(t.prescaler + (cycles - t.delay), s);
      DivModExact(t.prescaler + (cycles - t.delay), s);
      var (c, n) := if ticks == 0 then (t.counter, 0) else AddTicks(t.counter, t.reload, ticks);
      AddTicksCounts(t, ticks);
      TicksToCycles(s, t.counter, t.prescaler, cycles - t.delay, ticks, rest, t.reload, c, n);
    }
  }

  lemma FirstIsExact(t: TimerState, cycles: nat)
    requires t.Running() && Advance(t, cycles).ov.count > 0
    ensures Advance(t, cycles).ov.first == t.UntilOverflow()
    ensures t.UntilOverflow() + (Advance(t, cycles).ov.count - 1) * t.Period() <= cycles
  {
    AdvanceAdvances(t, cycles);
    hide Advance, TimerState.UntilOverflow, TimerState.Period;
    var n := Advance(t, cycles).ov.count;
    Distribute(n, 1, t.Period());
    MulMonotone(0, n - 1, t.Period());
  }

  /** Tick conservation, multiplied out into CPU cycles. */
  lemma TicksToCycles(s: nat, c0: nat, p0: nat, cycles: nat, ticks: nat, rest: nat, reload: nat, c: nat, n: nat)
    requires s > 0 && p0 + cycles == ticks * s + rest && 0 <= rest < s
    requires n * (WRAP - reload) + c == c0 + ticks
    requires n > 0 ==> reload <= c
    ensures (WRAP - c) * s - rest == (WRAP - c0) * s - p0 + n * ((WRAP - reload) * s) - cycles
    ensures n > 0 ==> (WRAP - c) * s - rest <= (WRAP - reload) * s
    ensures (s - p0) + (WRAP - c0 - 1) * s == (WRAP - c0) * s - p0
  {
    var x := WRAP - reload;
    assert n * (x * s) == (n * x) * s == (c0 + ticks - c) * s;
    Distribute(c0 + ticks, c, s);
    Distribute(c0, ticks, s);
    Distribute(WRAP, c, s);
    Distribute(WRAP, c0, s);
    Distribute(WRAP - c0, 1, s);
    if n > 0 {
      MulMonotone(WRAP - c, x, s);
    }
  }

  lemma AdvancesUnique(t: TimerState, cycles: nat, t1: TimerState, n1: nat, t2: TimerState, n2: nat)
    requires t.Running() && Advances(t, cycles, t1, n1) && Advances(t, cycles, t2, n2)
    ensures t1 == t2 && n1 == n2
  {
    UntilPositive(t1);
    UntilPositive(t2);
    SameCount(t.UntilOverflow() - cycles, t.Period(), n1, n2);
    hide Rate.Cycles;
    SamePhase(t.Scale(), WRAP - t1.counter, t1.prescaler, WRAP - t2.counter, t2.prescaler);
  }

  lemma SameCount(u: int, p: nat, n1: nat, n2: nat)
    requires 1 <= u + n1 * p && 1 <= u + n2 * p
    requires (n1 > 0 ==> u + n1 * p <= p) && (n2 > 0 ==> u + n2 * p <= p)
    ensures n1 == n2
  {
    Distribute(n1, n2, p);
    Distribute(n2, n1, p);
    if n1 > n2 {
      MulMonotone(1, n1 - n2, p);
    } else if n2 > n1 {
      MulMonotone(1, n2 - n1, p);
    }
  }

  lemma SamePhase(s: nat, a1: nat, p1: nat, a2: nat, p2: nat)
    requires p1 < s && p2 < s && a1 * s - p1 == a2 * s - p2
    ensures a1 == a2 && p1 == p2
  {
    Distribute(a1, a2, s);
    Distribute(a2, a1, s);
    if a1 > a2 {
      MulMonotone(1, a1 - a2, s);
    } else if a2 > a1 {
      MulMonotone(1, a2 - a1, s);
    }
  }

  lemma AdvancesCompose(t: TimerState, a: nat, t1: TimerState, n1: nat, b: nat, t2: TimerState, n2: nat)
    requires t.Running() && Advances(t, a, t1, n1) && Advances(t1, b, t2, n2)
    ensures Advances(t, a + b, t2, n1 + n2)
  {
    assert t1.Period() == t.Period();
    Distribute(n1, n2, t.Period());
    hide TimerState.UntilOverflow, TimerState.Period;
  }

  lemma CycleAdvances(t: TimerState)
    requires t.Running()
    ensures Advances(t, 1, Cycle(t).0, if Cycle(t).1 then 1 else 0)
    ensures Cycle(t).1 <==> t.UntilOverflow() == 1
  {
    var s := t.Scale();
    var k := WRAP - t.counter;
    if k > 1 {
      assert k * s == (k - 1) * s + s;
      MulAtLeast(s, k - 1);
      assert (k - 1) * s >= s;
    }
    assert (WRAP - t.counter - 1) * s == (WRAP - t.counter) * s - s;
  }

  /** A batch may be cut anywhere without changing the state or the count. */
  lemma AdvanceSplit(t: TimerState, a: nat, b: nat)
    requires t.Running()
    ensures Advance(t, a).state.Running()
    ensures var first := Advance(t, a);
            var second := Advance(first.state, b);
            && Advance(t, a + b).state == second.state
            && Advance(t, a + b).ov.count == first.ov.count + second.ov.count
  {
    AdvanceAdvances(t, a);
    var first := Advance(t, a);
    AdvanceAdvances(first.state, b);
    var second := Advance(first.state, b);
    AdvancesCompose(t, a, first.state, first.ov.count, b, second.state, second.ov.count);
    AdvanceAdvances(t, a + b);
    AdvancesUnique(t, a + b, Advance(t, a + b).state, Advance(t, a + b).ov.count,
                   second.state, first.ov.count + second.ov.count);
  }

  /** The closed form equals `cycles` single cycles, and the j-th overflow falls
      exactly at `first + j * period`, inside the batch, so no clamp applies. */
  lemma {:induction false} AdvanceIsCycles(t: TimerState, cycles: nat)
    requires t.Running()
    ensures var (t', stamps) := Cycles(t, cycles);
            var r := Advance(t, cycles);
            && r.state == t'
            && r.ov.count == |stamps|
            && forall j :: 0 <= j < |stamps| ==>
                 stamps[j] == r.ov.first + j * t.Period() && 1 <= stamps[j] <= cycles
  {
    hide Advance, Cycle, Advances, TimerState.UntilOverflow, TimerState.Period;
    if cycles > 0 {
      AdvanceIsCycles(t, cycles - 1);
      var (before, stamps) := Cycles(t, cycles - 1);
      var (after, overflow) := Cycle(before);
      OneMoreCycle(t, cycles, before, |stamps|);
      if |stamps| > 0 {
        FirstIsExact(t, cycles - 1);
      }
      if Advance(t, cycles).ov.count > 0 {
        FirstIsExact(t, cycles);
      }
    } else {
      AdvanceNothing(t);
    }
  }

  lemma OneMoreCycle(t: TimerState, cycles: nat, before: TimerState, n: nat)
    requires t.Running() && cycles > 0
    requires Advance(t, cycles - 1).state == before && Advance(t, cycles - 1).ov.count == n
    ensures var (after, overflow) := Cycle(before);
            && Advance(t, cycles).state == after
            && Advance(t, cycles).ov.count == n + (if overflow then 1 else 0)
            && (overflow ==> cycles == t.UntilOverflow() + n * t.Period())
  {
    AdvanceAdvances(t, cycles - 1);
    AdvanceAdvances(t, cycles);
    CycleAdvances(before);
    hide Advance, Cycle, TimerState.UntilOverflow, TimerState.Period;
    var (after, overflow) := Cycle(before);
    var m := if overflow then 1 else 0;
    AdvancesCompose(t, cycles - 1, before, n, 1, after, m);
    AdvancesUnique(t, cycles, Advance(t, cycles).state, Advance(t, cycles).ov.count, after, n + m);
  }

  lemma AdvanceNothing(t: TimerState)
    requires t.Running()
    ensures Advance(t, 0) == Ticked(t, NONE)
  {
    AdvanceAdvances(t, 0);
    UntilPositive(t);
    AdvancesUnique(t, 0, Advance(t, 0).state, Advance(t, 0).ov.count, t, 0);
  }

  /** The overflows of a batch lie in it: none is clamped, and the one after
      the last would come later. */
  lemma OverflowsInBatch(t: TimerState, cycles: nat)
    requires t.Running()
    ensures var ov := Advance(t, cycles).ov;
            && ov.count <= cycles
            && (ov.count > 0 ==> 1 <= ov.first && ov.first + (ov.count - 1) * t.Period() <= cycles)
            && cycles < t.UntilOverflow() + ov.count * t.Period()
  {
    AdvanceAdvances(t, cycles);
    UntilPositive(t);
    UntilPositive(Advance(t, cycles).state);
    var n := Advance(t, cycles).ov.count;
    if n > 0 {
      FirstIsExact(t, cycles);
      MulAtLeast(n - 1, t.Period());
    }
    hide Advance, TimerState.UntilOverflow, TimerState.Period;
  }

  /** Overflow times of the second half of a cut batch continue the first's. */
  lemma StampsContinue(t: TimerState, a: nat, b: nat, j: nat)
    requires t.Running() && j < Advance(t, a + b).ov.count
    ensures Advance(t, a).state.Running()
    ensures var whole, first := Advance(t, a + b).ov, Advance(t, a);
            var second := Advance(first.state, b).ov;
            var at := whole.first + j * t.Period();
            if j < first.ov.count then at == first.ov.first + j * t.Period() && at <= a
            else at == a + second.first + (j - first.ov.count) * t.Period() && at > a
  {
    hide Advance, TimerState.UntilOverflow, TimerState.Period;
    AdvanceSplit(t, a, b);
    AdvanceAdvances(t, a);
    FirstIsExact(t, a + b);
    var first := Advance(t, a);
    OverflowsInBatch(t, a);
    var n, p := first.ov.count, t.Period();
    if j < n {
      FirstIsExact(t, a);
      MulMonotone(j, n - 1, p);
    } else {
      FirstIsExact(first.state, b);
      Distribute(j, n, p);
      MulMonotone(0, j - n, p);
    }
  }

  // ------------------------------------------------------------ the whole chain

  lemma AfterValid(ts: seq<TimerState>, cycles: nat, i: nat)
    requires i < |ts| && AllValid(ts)
    ensures var r := After(ts, cycles, i);
            && r.state.Valid()
            && r.state == ts[i].(counter := r.state.counter, prescaler := r.state.prescaler, delay := r.state.delay)
            && r.ov.count <= cycles && r.ov.first <= cycles
  {
    var t := ts[i];
    if t.Enabled() && !t.Cascade() {
      AdvanceAdvances(t, cycles);
      OverflowsInBatch(t, cycles);
      var ov := Advance(t, cycles).ov;
      if ov.count > 0 {
        MulMonotone(0, ov.count - 1, t.Period());
      }
    } else if t.Enabled() && i > 0 {
      AfterValid(ts, cycles, i - 1);
      AddTicksCounts(t, After(ts, cycles, i - 1).ov.count);
    }
  }

  function AfterAll(ts: seq<TimerState>, cycles: nat): (r: seq<TimerState>)
    requires AllValid(ts)
    ensures |r| == |ts| && AllValid(r)
    ensures forall i :: 0 <= i < |ts| ==> r[i] == After(ts, cycles, i).state
    ensures forall i :: 0 <= i < |ts| ==> r[i].control == ts[i].control && r[i].reload == ts[i].reload
  {
    var r := seq(|ts|, i requires 0 <= i < |ts| => After(ts, cycles, i).state);
    assert forall i :: 0 <= i < |ts| ==>
        r[i].Valid() && r[i].control == ts[i].control && r[i].reload == ts[i].reload by {
      forall i | 0 <= i < |ts| { AfterValid(ts, cycles, i); }
    }
    r
  }

  /** Cutting a batch changes neither the chain's final state nor any count. */
  lemma {:induction false} AfterSplit(ts: seq<TimerState>, a: nat, b: nat, i: nat)
    requires i < |ts| && AllValid(ts)
    ensures var mid := AfterAll(ts, a);
            && After(ts, a + b, i).state == After(mid, b, i).state
            && After(ts, a + b, i).ov.count == After(ts, a, i).ov.count + After(mid, b, i).ov.count
  {
    hide Advance, DivMod;
    var mid := AfterAll(ts, a);
    var t := ts[i];
    assert mid[i].control == t.control;
    if t.Enabled() && !t.Cascade() {
      AdvanceSplit(t, a, b);
    } else if t.Enabled() && i > 0 {
      AfterSplit(ts, a, b, i - 1);
      AddTicksSplit(t, After(ts, a, i - 1).ov.count, After(mid, b, i - 1).ov.count);
    }
  }

  lemma {:induction false} AfterOneIsCycle(ts: seq<TimerState>, i: nat)
    requires i < |ts| && AllValid(ts)
    ensures After(ts, 1, i).state == ChainCycle(ts, i).0
    ensures After(ts, 1, i).ov.count == if ChainCycle(ts, i).1 then 1 else 0
  {
    var t := ts[i];
    if t.Enabled() && !t.Cascade() {
      AdvanceAdvances(t, 1);
      CycleAdvances(t);
      AdvancesUnique(t, 1, Advance(t, 1).state, Advance(t, 1).ov.count,
                     Cycle(t).0, if Cycle(t).1 then 1 else 0);
    } else if t.Enabled() && i > 0 {
      AfterOneIsCycle(ts, i - 1);
    }
  }

  lemma {:induction false} AfterNothing(ts: seq<TimerState>, i: nat)
    requires i < |ts| && AllValid(ts)
    ensures After(ts, 0, i) == Ticked(ts[i], NONE)
  {
    if ts[i].Enabled() && ts[i].Cascade() && i > 0 {
      AfterNothing(ts, i - 1);
    } else if ts[i].Enabled() && !ts[i].Cascade() {
      AdvanceNothing(ts[i]);
    }
  }

  /** The batched chain equals the cycle-by-cycle chain, in state and counts. */
  lemma {:induction false} BatchIsCycles(ts: seq<TimerState>, cycles: nat)
    requires AllValid(ts)
    ensures var (ts', counts) := ChainCycles(ts, cycles);
            && AfterAll(ts, cycles) == ts'
            && forall i :: 0 <= i < |ts| ==> After(ts, cycles, i).ov.count == counts[i]
  {
    if cycles == 0 {
      forall i | 0 <= i < |ts| { AfterNothing(ts, i); }
    } else {
      BatchIsCycles(ts, cycles - 1);
      var (before, counts) := ChainCycles(ts, cycles - 1);
      forall i | 0 <= i < |ts|
        ensures After(ts, cycles, i).state == ChainCycle(before, i).0
        ensures After(ts, cycles, i).ov.count == counts[i] + if ChainCycle(before, i).1 then 1 else 0
      {
        AfterSplit(ts, cycles - 1, 1, i);
        AfterOneIsCycle(before, i);
      }
    }
  }

  // ------------------------------------------------------------ register writes

  function ControlWritten(t: TimerState, val: nat): TimerState
    requires t.Valid()
  {
    var t' := t.(control := FromRegister(val));
    if t.Enabled() && !t'.Enabled() && !t'.Cascade() then
      var (ticks, phase) := DivMod(t.prescaler + 1, t.Scale());
      var stopped := t'.(prescaler := phase);
      if ticks > 0 then stopped.(counter := AddTicks(t.counter, t.reload, ticks).0) else stopped
    else if !t.Enabled() && t'.Enabled() then t'.(counter := t.reload, prescaler := 0, delay := 2)
    else if t.Enabled() && t'.Enabled() && t'.Scale() != t.Scale() then t'.(prescaler := 0)
    else t'
  }

  // ------------------------------------------------------------ overflow times in a chain

  /** The cycles, counted from one, in which timer `i` of the one-cycle chain overflows. */
  function Overflows(ts: seq<TimerState>, n: nat, i: nat): seq<nat>
    requires i < |ts|
  {
    if n == 0 then []
    else Overflows(ts, n - 1, i) + if ChainCycle(ChainCycles(ts, n - 1).0, i).1 then [n] else []
  }

  /** Timer `i` is driven by its prescaler, or counts a timer that is driven. */
  predicate Clocked(ts: seq<TimerState>, i: nat)
    requires i < |ts| && AllValid(ts)
  {
    ts[i].Running() || (i > 0 && ts[i].Enabled() && ts[i].Cascade() && Clocked(ts, i - 1))
  }

  /** The cycle of overflow number `j`, counted from zero: a cascaded timer's is the overflow
      of the timer below that fills its counter. */
  function OverflowTime(ts: seq<TimerState>, i: nat, j: nat): int
    requires i < |ts| && AllValid(ts) && Clocked(ts, i)
  {
    if ts[i].Running() then ts[i].UntilOverflow() + j * ts[i].Period()
    else
      MulNonNegative(j, WRAP - ts[i].reload);
      OverflowTime(ts, i - 1, WRAP - 1 - ts[i].counter + j * (WRAP - ts[i].reload))
  }

  /** A running timer has overflowed `m` times exactly from its `m`-th overflow on. */
  lemma OverflowedBy(t: TimerState, n: nat, m: nat)
    requires t.Running() && m > 0
    ensures Advance(t, n).ov.count >= m <==> t.UntilOverflow() + (m - 1) * t.Period() <= n
  {
    hide Advance, TimerState.UntilOverflow, TimerState.Period;
    OverflowsInBatch(t, n);
    var count, p := Advance(t, n).ov.count, t.Period();
    if count >= m {
      FirstIsExact(t, n);
      MulMonotone(m - 1, count - 1, p);
    } else {
      MulMonotone(count, m - 1, p);
    }
  }

  /** More than `j` overflows take the first of them and `j` further periods. */
  lemma TicksFor(t: TimerState, ticks: nat, j: nat)
    requires t.Valid()
    ensures AddTicks(t.counter, t.reload, ticks).1 > j <==> ticks >= WRAP - t.counter + j * (WRAP - t.reload)
  {
    AddTicksCounts(t, ticks);
    var k, p := AddTicks(t.counter, t.reload, ticks).1, WRAP - t.reload;
    hide AddTicks;
    if k > j {
      MulMonotone(j + 1, k, p);
      Distribute(j, 1, p);
    } else {
      MulMonotone(k, j, p);
    }
  }

  /** After `n` cycles a timer has overflowed more than `j` times exactly if the time of
      overflow `j` has come. */
  lemma {:induction false} OverflowedAt(ts: seq<TimerState>, n: nat, i: nat, j: nat)
    requires i < |ts| && AllValid(ts)
    ensures Clocked(ts, i) ==> (After(ts, n, i).ov.count > j <==> OverflowTime(ts, i, j) <= n)
    ensures !Clocked(ts, i) ==> After(ts, n, i).ov.count == 0
  {
    hide Advance, AddTicks, TimerState.UntilOverflow, TimerState.Period;
    var t := ts[i];
    assert t.Valid();
    if t.Running() {
      OverflowedBy(t, n, j + 1);
    } else if i > 0 && t.Enabled() && t.Cascade() {
      MulNonNegative(j, WRAP - t.reload);
      OverflowedAt(ts, n, i - 1, WRAP - 1 - t.counter + j * (WRAP - t.reload));
      TicksFor(t, After(ts, n, i - 1).ov.count, j);
    }
  }

  lemma CountStep(ts: seq<TimerState>, n: nat, i: nat)
    requires i < |ts| && AllValid(ts) && n > 0
    ensures After(ts, n, i).ov.count
         == After(ts, n - 1, i).ov.count + if ChainCycle(ChainCycles(ts, n - 1).0, i).1 then 1 else 0
  {
    hide After, ChainCycle, ChainCycles;
    BatchIsCycles(ts, n - 1);
    AfterSplit(ts, n - 1, 1, i);
    AfterOneIsCycle(AfterAll(ts, n - 1), i);
  }

  /** For any timer of any chain: the one-cycle machine overflows as often as the batch form
      counts, and exactly at the closed-form times. */
  lemma {:induction false} OverflowTimes(ts: seq<TimerState>, n: nat, i: nat)
    requires i < |ts| && AllValid(ts)
    ensures |Overflows(ts, n, i)| == After(ts, n, i).ov.count
    ensures Clocked(ts, i) ==>
              forall j :: 0 <= j < |Overflows(ts, n, i)| ==> Overflows(ts, n, i)[j] == OverflowTime(ts, i, j)
    ensures !Clocked(ts, i) ==> Overflows(ts, n, i) == []
  {
    hide After, ChainCycle, ChainCycles, OverflowTime, Clocked, AllValid;
    if n == 0 {
      AfterNothing(ts, i);
    } else {
      OverflowTimes(ts, n - 1, i);
      CountStep(ts, n, i);
      var k := After(ts, n - 1, i).ov.count;
      OverflowedAt(ts, n, i, k);
      OverflowedAt(ts, n - 1, i, k);
    }
  }

  lemma {:induction false} OverflowsAscend(ts: seq<TimerState>, n: nat, i: nat)
    requires i < |ts|
    ensures forall j :: 0 <= j < |Overflows(ts, n, i)| ==> 1 <= Overflows(ts, n, i)[j] <= n
    ensures forall j, k :: 0 <= j < k < |Overflows(ts, n, i)| ==> Overflows(ts, n, i)[j] < Overflows(ts, n, i)[k]
  {
    hide ChainCycle, ChainCycles;
    if n > 0 { OverflowsAscend(ts, n - 1, i); }
  }

  lemma {:induction false} CyclesCompose(ts: seq<TimerState>, a: nat, b: nat)
    ensures ChainCycles(ts, a + b).0 == ChainCycles(ChainCycles(ts, a).0, b).0
  {
    hide ChainCycle;
    if b > 0 { CyclesCompose(ts, a, b - 1); }
  }

  function Later(xs: seq<nat>, d: nat): seq<nat> { seq(|xs|, i requires 0 <= i < |xs| => xs[i] + d) }

  /** The overflows of a cut run are those of its parts. */
  lemma {:induction false} OverflowsCut(ts: seq<TimerState>, a: nat, b: nat, i: nat)
    requires i < |ts|
    ensures Overflows(ts, a + b, i) == Overflows(ts, a, i) + Later(Overflows(ChainCycles(ts, a).0, b, i), a)
  {
    hide ChainCycle, ChainCycles;
    if b > 0 {
      OverflowsCut(ts, a, b - 1, i);
      CyclesCompose(ts, a, b - 1);
    }
  }

  lemma RunningOverflow(ts: seq<TimerState>, n: nat, i: nat, j: nat)
    requires i < |ts| && AllValid(ts) && ts[i].Running()
    ensures var at := ts[i].UntilOverflow() + j * ts[i].Period();
            (j < |Overflows(ts, n, i)| <==> at <= n) && (at <= n ==> Overflows(ts, n, i)[j] == at)
  {
    OverflowTimes(ts, n, i);
    OverflowedAt(ts, n, i, j);
    hide After, ChainCycle, ChainCycles, AllValid, Overflows, TimerState.UntilOverflow, TimerState.Period;
  }

  lemma CascadedOverflow(ts: seq<TimerState>, n: nat, i: nat, j: nat)
    requires 0 < i < |ts| && AllValid(ts) && ts[i].Enabled() && ts[i].Cascade()
    ensures var k := 0xFFFF - ts[i].counter + j * (0x1_0000 - ts[i].reload);
            && (j < |Overflows(ts, n, i)| <==> k < |Overflows(ts, n, i - 1)|)
            && (j < |Overflows(ts, n, i)| ==> 0 <= k && Overflows(ts, n, i)[j] == Overflows(ts, n, i - 1)[k])
  {
    assert ts[i].Valid();
    MulNonNegative(j, 0x1_0000 - ts[i].reload);
    var k := 0xFFFF - ts[i].counter + j * (0x1_0000 - ts[i].reload);
    OverflowTimes(ts, n, i);
    OverflowTimes(ts, n, i - 1);
    OverflowedAt(ts, n, i, j);
    OverflowedAt(ts, n, i - 1, k);
    hide After, ChainCycle, ChainCycles, AllValid, Overflows, TimerState.UntilOverflow, TimerState.Period;
    assert Clocked(ts, i) == Clocked(ts, i - 1);
    assert Clocked(ts, i) ==> OverflowTime(ts, i, j) == OverflowTime(ts, i - 1, k);
  }

  /** When timer `i` overflows, from the registers alone: a running timer first when its
      counter has run out and then once a period, a cascaded one with every overflow of the
      timer below that fills its counter, a stopped timer and a cascaded timer 0 never. */
  lemma RegistersDecide(ts: seq<TimerState>, n: nat, i: nat, j: nat, val: nat)
    requires i < |ts| && AllValid(ts) && ts[i].control == FromRegister(val)
    ensures val / 0x80 % 2 == 0 || (val / 4 % 2 == 1 && i == 0) ==> Overflows(ts, n, i) == []
    ensures var t, scale := ts[i], [1, 64, 256, 1024][val % 4];
            var at := t.delay + (0x1_0000 - t.counter) * scale - t.prescaler + j * ((0x1_0000 - t.reload) * scale);
            val / 0x80 % 2 == 1 && val / 4 % 2 == 0 ==>
              (j < |Overflows(ts, n, i)| <==> at <= n) && (at <= n ==> Overflows(ts, n, i)[j] == at)
    ensures var k := 0xFFFF - ts[i].counter + j * (0x1_0000 - ts[i].reload);
            val / 0x80 % 2 == 1 && val / 4 % 2 == 1 && i > 0 ==>
              && (j < |Overflows(ts, n, i)| <==> k < |Overflows(ts, n, i - 1)|)
              && (j < |Overflows(ts, n, i)| ==> 0 <= k && Overflows(ts, n, i)[j] == Overflows(ts, n, i - 1)[k])
  {
    hide After, ChainCycle, ChainCycles, AllValid, Overflows;
    assert ts[i].Valid() by { Each(ts, i); }
    if val / 0x80 % 2 == 1 && val / 4 % 2 == 0 {
      RunningOverflow(ts, n, i, j);
    } else if val / 0x80 % 2 == 1 && i > 0 {
      CascadedOverflow(ts, n, i, j);
    } else {
      OverflowTimes(ts, n, i);
    }
  }

  lemma Each(ts: seq<TimerState>, i: nat)
    requires i < |ts| && AllValid(ts)
    ensures ts[i].Valid()
  {
  }

  /** Stopping a started timer counts one more cycle, exactly as the timer would have if it
      was past its start-up delay; starting one makes the first overflow two cycles and a
      period away; a new rate starts a new prescaler phase and the same one keeps it. */
  lemma ControlWriteTiming(t: TimerState, val: nat)
    requires t.Valid()
    ensures ControlWritten(t, val).Valid()
    ensures var t', control := ControlWritten(t, val), FromRegister(val);
            && (t.Enabled() && !t'.Enabled() && !t'.Cascade() ==>
                  && t' == Cycle(t.(delay := 0)).0.(control := control, delay := t.delay)
                  && (t' == Cycle(t).0.(control := control) <==> t.delay == 0))
            && (!t.Enabled() && t'.Running() ==> t'.UntilOverflow() == 2 + t'.Period())
            && (t.Running() && t'.Running() ==>
                  t'.UntilOverflow() == if t'.Scale() == t.Scale() then t.UntilOverflow()
                                        else t.delay + (WRAP - t.counter) * t'.Scale())
            && ((t.Enabled() || !t'.Enabled()) && !(t.Enabled() && !t'.Enabled() && !t'.Cascade()) ==>
                  t' == t.(control := control, prescaler := t'.prescaler))
  {
    if t.Enabled() {
      var s := t.Scale();
      assert t.prescaler + 1 < s ==> (t.prescaler + 1) / s == 0;
      assert t.prescaler + 1 == s ==> (t.prescaler + 1) / s == 1;
      AddTicksCounts(t, 1);
    }
  }

  lemma DrivenKeepsControl(t: TimerState, cycles: nat)
    requires t.Valid()
    ensures Driven(t, cycles).state.control == t.control
    ensures !t.Running() ==> Driven(t, cycles) == Ticked(t, NONE)
  {
    if t.Running() {
      AdvanceAdvances(t, cycles);
    }
  }

  // ---------------------------------------------------------------- the machine

  class TimerBank {
    const t: array<TimerState>

    ghost predicate Valid()
      reads this, t
    {
      t.Length == 4 && AllValid(t[..])
    }

    constructor ()
      ensures Valid() && fresh(t)
      ensures t[..] == seq(4, _ => TimerState(0, 0, Control(false, false, false, F1), 0, 0))
    {
      t := new TimerState[4](_ => TimerState(0, 0, Control(false, false, false, F1), 0, 0));
    }

    /** Advance all timers; report per timer how often it overflowed and when first. */
    method Tick(cycles: nat) returns (overflows: array<TimerOverflow>)
      requires Valid() && cycles <= BATCH_LIMIT
      modifies t
      ensures Valid() && fresh(overflows) && overflows.Length == 4
      ensures t[..] == AfterAll(old(t[..]), cycles)
      ensures forall i :: 0 <= i < 4 ==> overflows[i] == After(old(t[..]), cycles, i).ov
    {
      ghost var ts := t[..];
      overflows := new TimerOverflow[4](_ => NONE);
      for i := 0 to 4
        invariant fresh(overflows)
        invariant forall k :: i <= k < 4 ==> t[k] == ts[k] && overflows[k] == NONE
        invariant forall k :: 0 <= k < i ==> Ticked(t[k], overflows[k]) == Driven(ts[k], cycles)
      {
        hide Advance;
        assert ts[i].Valid();
        if t[i].Enabled() && !t[i].Cascade() {
          overflows[i] := TickDriven(i, cycles);
        }
      }
      for i := 1 to 4
        invariant fresh(overflows)
        invariant forall k :: 0 <= k < i ==> Ticked(t[k], overflows[k]) == After(ts, cycles, k)
        invariant forall k :: i <= k < 4 ==> Ticked(t[k], overflows[k]) == Driven(ts[k], cycles)
      {
        hide Advance, AddTicks;
        assert ts[i].Valid();
        AfterValid(ts, cycles, i - 1);
        DrivenKeepsControl(ts[i], cycles);
        if t[i].Enabled() && t[i].Cascade() && overflows[i - 1].count > 0 {
          assert t[i].counter + overflows[i - 1].count < U32_LIMIT;
          var (counter, n) := AddTicks(t[i].counter, t[i].reload, overflows[i - 1].count);
          t[i] := t[i].(counter := counter);
          if n > 0 {
            overflows[i] := TimerOverflow(n, overflows[i - 1].first);
          }
        }
      }
      hide *;
      assert t[..] == AfterAll(ts, cycles);
    }

    /** The body of the first loop of `Tick`: one prescaler-driven timer. */
    method TickDriven(i: nat, cycles: nat) returns (ov: TimerOverflow)
      requires t.Length == 4 && i < 4 && t[i].Running() && cycles <= BATCH_LIMIT
      modifies t
      ensures t[i] == Advance(old(t[i]), cycles).state && ov == Advance(old(t[i]), cycles).ov
      ensures forall k :: 0 <= k < 4 && k != i ==> t[k] == old(t[k])
    {
      hide AddTicks, DivMod, FirstOverflow, Rate.Cycles;
      ov := NONE;
      var effective := cycles;
      var delayOffset := 0;
      if t[i].delay > 0 {
        if t[i].delay >= cycles {
          t[i] := t[i].(delay := t[i].delay - cycles);
          return;
        }
        delayOffset := t[i].delay;
        effective := cycles - t[i].delay;
        t[i] := t[i].(delay := 0);
      }
      var (ticks, phase) := DivMod(t[i].prescaler + effective, t[i].Scale());
      assert t[i].prescaler + effective < U32_LIMIT;
      if ticks == 0 {
        t[i] := t[i].(prescaler := phase);
        return;
      }
      DivModAtMost(t[i].prescaler + effective, t[i].Scale());
      assert t[i].counter + ticks < U32_LIMIT;
      var first := delayOffset + FirstOverflow(t[i].counter, t[i].prescaler, t[i].Scale());
      var (counter, n) := AddTicks(t[i].counter, t[i].reload, ticks);
      t[i] := t[i].(prescaler := phase, counter := counter);
      if n > 0 {
        ov := TimerOverflow(n, if first < cycles then first else cycles);
      }
    }

    method WriteReload(i: nat, val: nat)
      requires Valid() && i < 4 && val < WRAP
      modifies t
      ensures Valid()
      ensures t[..] == old(t[..])[i := old(t[i]).(reload := val)]
    {
      t[i] := t[i].(reload := val);
    }

    method WriteControl(i: nat, val: nat)
      requires Valid() && i < 4 && val < WRAP
      modifies t
      ensures Valid()
      ensures t[..] == old(t[..])[i := ControlWritten(old(t[i]), val)]
    {
      ghost var before := t[i];
      ControlWriteTiming(before, val);
      var wasEnabled, oldScale := t[i].Enabled(), t[i].Scale();
      t[i] := t[i].(control := FromRegister(val));
      if wasEnabled && !t[i].Enabled() && !t[i].Cascade() {
        var phase := t[i].prescaler + 1;
        t[i] := t[i].(prescaler := phase % oldScale);
        if phase / oldScale > 0 {
          t[i] := t[i].(counter := AddTicks(t[i].counter, t[i].reload, phase / oldScale).0);
        }
      } else if !wasEnabled && t[i].Enabled() {
        t[i] := t[i].(counter := t[i].reload, prescaler := 0, delay := 2);
      } else if wasEnabled && t[i].Enabled() && t[i].Scale() != oldScale {
        t[i] := t[i].(prescaler := 0);
      }
    }
  }
}
