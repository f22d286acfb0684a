/// The audio path of one bus tick: timer overflows merged in time order,
/// FIFO pops and refills placed between the samples they fall between.
module Audio {
  import opened Arithmetic
  import opened Timers
  import opened SoundFifo

  const CYCLES_PER_SAMPLE := 512
  const FIFO_A := 0x0400_00A0
  const FIFO_B := 0x0400_00A4
  const U32_MAX := U32_LIMIT - 1

  datatype DmaTiming = Immediate | VBlank | HBlank | Special

  /** A DMA channel; `src` is the internal, latched source pointer. */
  datatype DmaChannel = DmaChannel(enabled: bool, timing: DmaTiming, dst: nat, src: nat)

  type Channels = s: seq<DmaChannel> | |s| == 4
    witness seq(4, _ => DmaChannel(false, Immediate, 0, 0))

  /** What register writes decide: the master enable, the timer that clocks each
      FIFO, memory as the DMA unit reads it, and the sample mixer, which maps
      its own state and the two DAC latches to its next state and a stereo pair. */
  datatype Config<!M> = Config(master: bool, timerA: nat, timerB: nat,
                               mem: nat -> Byte, gen: (M, int, int) -> (M, (int, int))) {
    predicate Valid() { timerA <= 1 && timerB <= 1 }
  }

  datatype Apu<M> = Apu(clock: nat, fifoA: Queue, fifoB: Queue, latchA: int, latchB: int,
                        dma: Channels, mixer: M, out: seq<(int, int)>)

  // ------------------------------------------------------------------- samples

  function Generate<M>(c: Config<M>, s: Apu<M>): Apu<M> {
    var (m, pair) := c.gen(s.mixer, s.latchA, s.latchB);
    s.(mixer := m, out := s.out + [pair])
  }

  function Emit<M>(c: Config<M>, s: Apu<M>, k: nat): Apu<M>
    decreases k
  {
    if k == 0 then s else Emit(c, Generate(c, s), k - 1)
  }

  /** How many sample windows close after clock `x`, up to and including `y`. */
  function WindowsClosed(x: nat, y: nat): nat {
    if x <= y then y / CYCLES_PER_SAMPLE - x / CYCLES_PER_SAMPLE else 0
  }

  function TickUntil<M>(c: Config<M>, s: Apu<M>, target: nat): Apu<M> {
    (if c.master then Emit(c, s, WindowsClosed(s.clock, target)) else s).(clock := target)
  }

  lemma {:induction false} EmitKeeps<M>(c: Config<M>, s: Apu<M>, k: nat, clock: nat)
    ensures var r := Emit(c, s, k);
            && r == s.(mixer := r.mixer, out := r.out)
            && |r.out| == |s.out| + k && s.out <= r.out
            && Emit(c, s.(clock := clock), k) == r.(clock := clock)
    decreases k
  {
    if k > 0 {
      EmitKeeps(c, Generate(c, s), k - 1, clock);
      assert Generate(c, s.(clock := clock)) == Generate(c, s).(clock := clock);
    }
  }

  lemma {:induction false} EmitSplit<M>(c: Config<M>, s: Apu<M>, i: nat, j: nat)
    ensures Emit(c, s, i + j) == Emit(c, Emit(c, s, i), j)
    decreases i
  {
    if i > 0 {
      EmitSplit(c, Generate(c, s), i - 1, j);
    }
  }

  /** Stopping on the way makes no difference. */
  lemma TickUntilVia<M>(c: Config<M>, s: Apu<M>, x: nat, y: nat)
    requires s.clock <= x <= y
    ensures TickUntil(c, TickUntil(c, s, x), y) == TickUntil(c, s, y)
  {
    var i, j := WindowsClosed(s.clock, x), WindowsClosed(x, y);
    EmitSplit(c, s, i, j);
    EmitKeeps(c, Emit(c, s, i), j, x);
  }

  // ------------------------------------------------------- FIFO pops and refills

  function Pop<M>(c: Config<M>, s: Apu<M>, timer: nat): Apu<M> {
    var s := if timer == c.timerA then s.(latchA := Front(s.fifoA), fifoA := Rest(s.fifoA)) else s;
    if timer == c.timerB then s.(latchB := Front(s.fifoB), fifoB := Rest(s.fifoB)) else s
  }

  predicate NeedsData(q: Queue) { |q| <= 16 }

  /** 32-bit address arithmetic. */
  function Wrap(x: nat): (r: nat)
    ensures r < U32_LIMIT && (x < U32_LIMIT ==> r == x)
  {
    x % U32_LIMIT
  }

  /** The sixteen bytes one FIFO request reads: halfwords at even addresses. */
  function Burst(mem: nat -> Byte, src: nat): seq<int> {
    seq(16, j requires 0 <= j => Signed(mem(Wrap(src / 2 * 2 + j))))
  }

  function Advanced(ch: DmaChannel): DmaChannel { ch.(src := Wrap(ch.src + 16)) }

  predicate Requests(ch: DmaChannel, addr: nat, fifoTimer: nat, q: Queue, timer: nat) {
    ch.enabled && ch.timing == Special && ch.dst == addr && fifoTimer == timer && NeedsData(q)
  }

  /** Channel `k` answers the request of the FIFO it feeds, if there is one. */
  function Refill<M>(c: Config<M>, s: Apu<M>, k: nat, timer: nat): Apu<M>
    requires k < 4
  {
    var ch := s.dma[k];
    if Requests(ch, FIFO_A, c.timerA, s.fifoA, timer) then
      s.(fifoA := PushAll(s.fifoA, Burst(c.mem, ch.src)), dma := s.dma[k := Advanced(ch)])
    else if Requests(ch, FIFO_B, c.timerB, s.fifoB, timer) then
      s.(fifoB := PushAll(s.fifoB, Burst(c.mem, ch.src)), dma := s.dma[k := Advanced(ch)])
    else s
  }

  /** One timer overflow: pop, then refill if a FIFO has run half empty. */
  function Serve<M>(c: Config<M>, s: Apu<M>, timer: nat): Apu<M> {
    var s := Pop(c, s, timer);
    if NeedsData(s.fifoA) || NeedsData(s.fifoB) then Refill(c, Refill(c, s, 1, timer), 2, timer) else s
  }

  // ------------------------------------------------------------- overflow events

  datatype Event = Event(at: nat, timer: nat)

  /** Two overflow streams in time order; timer 0 goes first on a tie. */
  function Merge(xs: seq<nat>, ys: seq<nat>): seq<Event>
    decreases |xs| + |ys|
  {
    if xs != [] && (ys == [] || xs[0] <= ys[0]) then [Event(xs[0], 0)] + Merge(xs[1..], ys)
    else if ys != [] then [Event(ys[0], 1)] + Merge(xs, ys[1..])
    else []
  }

  function Saturate(x: nat): nat { if x <= U32_MAX then x else U32_MAX }

  function Stamp(ov: TimerOverflow, period: nat, k: nat): nat {
    Saturate(ov.first + Saturate(period * k))
  }

  function Stamps(ov: TimerOverflow, period: nat): seq<nat> {
    seq(ov.count, k requires 0 <= k => Stamp(ov, period, k))
  }

  function Clamp(x: nat, limit: nat): nat { if x < limit then x else limit }

  function Run<M>(c: Config<M>, s: Apu<M>, base: nat, cycles: nat, evs: seq<Event>): Apu<M>
    decreases evs
  {
    if evs == [] then s
    else
      var s := TickUntil(c, s, base + Clamp(evs[0].at, cycles));
      Run(c, Serve(c, s, evs[0].timer), base, cycles, evs[1..])
  }

  function Events(ts: seq<TimerState>, cycles: nat): seq<Event>
    requires |ts| == 4 && AllValid(ts)
  {
    Merge(Stamps(After(ts, cycles, 0).ov, ts[0].Period()),
          Stamps(After(ts, cycles, 1).ov, ts[1].Period()))
  }

  /** The audio path of `Bus::tick(cycles)`. */
  function Batch<M>(c: Config<M>, s: Apu<M>, ts: seq<TimerState>, cycles: nat): Apu<M>
    requires |ts| == 4 && AllValid(ts)
  {
    TickUntil(c, Run(c, s, s.clock, cycles, Events(ts, cycles)), s.clock + cycles)
  }

  // ----------------------------------------------------------- merging, in order

  predicate Ascending(xs: seq<nat>) { forall i, j :: 0 <= i <= j < |xs| ==> xs[i] <= xs[j] }

  predicate InOrder(evs: seq<Event>) { forall i, j :: 0 <= i <= j < |evs| ==> evs[i].at <= evs[j].at }

  /** The stamps of one timer's events, in delivery order. */
  function Of(evs: seq<Event>, timer: nat): seq<nat> {
    if evs == [] then []
    else (if evs[0].timer == timer then [evs[0].at] else []) + Of(evs[1..], timer)
  }

  /** Every overflow is delivered exactly once, in non-decreasing cycle order. */
  lemma MergeDelivers(xs: seq<nat>, ys: seq<nat>)
    requires Ascending(xs) && Ascending(ys)
    ensures var evs := Merge(xs, ys);
            Of(evs, 0) == xs && Of(evs, 1) == ys && |evs| == |xs| + |ys| && InOrder(evs)
  {
    MergeComplete(xs, ys);
    MergeInOrder(xs, ys);
  }

  lemma {:induction false} MergeComplete(xs: seq<nat>, ys: seq<nat>)
    ensures var evs := Merge(xs, ys);
            Of(evs, 0) == xs && Of(evs, 1) == ys && |evs| == |xs| + |ys|
    decreases |xs| + |ys|
  {
    if xs != [] && (ys == [] || xs[0] <= ys[0]) {
      MergeComplete(xs[1..], ys);
    } else if ys != [] {
      MergeComplete(xs, ys[1..]);
    }
  }

  lemma {:induction false} MergeInOrder(xs: seq<nat>, ys: seq<nat>)
    requires Ascending(xs) && Ascending(ys)
    ensures InOrder(Merge(xs, ys))
    decreases |xs| + |ys|
  {
    if xs != [] && (ys == [] || xs[0] <= ys[0]) {
      MergeInOrder(xs[1..], ys);
      MergeAfter(xs[1..], ys, xs[0]);
    } else if ys != [] {
      MergeInOrder(xs, ys[1..]);
      MergeAfter(xs, ys[1..], ys[0]);
    }
  }

  lemma {:induction false} MergeAfter(xs: seq<nat>, ys: seq<nat>, start: nat)
    requires forall i :: 0 <= i < |xs| ==> start <= xs[i]
    requires forall i :: 0 <= i < |ys| ==> start <= ys[i]
    ensures forall i :: 0 <= i < |Merge(xs, ys)| ==> start <= Merge(xs, ys)[i].at
    decreases |xs| + |ys|
  {
    if xs != [] && (ys == [] || xs[0] <= ys[0]) {
      MergeAfter(xs[1..], ys, start);
    } else if ys != [] {
      MergeAfter(xs, ys[1..], start);
    }
  }

  predicate UpTo(xs: seq<nat>, at: nat) { forall i :: 0 <= i < |xs| ==> xs[i] <= at }

  predicate Beyond(xs: seq<nat>, at: nat) { forall i :: 0 <= i < |xs| ==> xs[i] > at }

  lemma MergeSteps(xs: seq<nat>, ys: seq<nat>)
    ensures xs != [] && (ys == [] || xs[0] <= ys[0]) ==> Merge(xs, ys) == [Event(xs[0], 0)] + Merge(xs[1..], ys)
    ensures ys != [] && (xs == [] || xs[0] > ys[0]) ==> Merge(xs, ys) == [Event(ys[0], 1)] + Merge(xs, ys[1..])
  {
  }

  /** The first event of two streams that are each cut at `at` comes from before the cut. */
  lemma MergeFirst(x1: seq<nat>, x2: seq<nat>, y1: seq<nat>, y2: seq<nat>, at: nat)
    requires UpTo(x1, at) && UpTo(y1, at) && Beyond(y2, at) && x1 != [] && (y1 == [] || x1[0] <= y1[0])
    ensures Merge(x1 + x2, y1 + y2) == [Event(x1[0], 0)] + Merge(x1[1..] + x2, y1 + y2)
    ensures Merge(x1, y1) == [Event(x1[0], 0)] + Merge(x1[1..], y1) && UpTo(x1[1..], at)
  {
    hide Merge;
    assert (x1 + x2)[1..] == x1[1..] + x2 && (x1 + x2)[0] == x1[0];
    assert y1 + y2 == [] || (x1 + x2)[0] <= (y1 + y2)[0];
    MergeSteps(x1, y1);
    MergeSteps(x1 + x2, y1 + y2);
  }

  lemma MergeSecond(x1: seq<nat>, x2: seq<nat>, y1: seq<nat>, y2: seq<nat>, at: nat)
    requires UpTo(x1, at) && UpTo(y1, at) && Beyond(x2, at) && y1 != [] && (x1 == [] || x1[0] > y1[0])
    ensures Merge(x1 + x2, y1 + y2) == [Event(y1[0], 1)] + Merge(x1 + x2, y1[1..] + y2)
    ensures Merge(x1, y1) == [Event(y1[0], 1)] + Merge(x1, y1[1..]) && UpTo(y1[1..], at)
  {
    hide Merge;
    assert (y1 + y2)[1..] == y1[1..] + y2 && (y1 + y2)[0] == y1[0];
    assert x1 + x2 == [] || (x1 + x2)[0] > (y1 + y2)[0];
    MergeSteps(x1, y1);
    MergeSteps(x1 + x2, y1 + y2);
  }

  /** Streams cut at the same time merge piece by piece. */
  lemma {:induction false} MergeCut(x1: seq<nat>, x2: seq<nat>, y1: seq<nat>, y2: seq<nat>, at: nat)
    requires UpTo(x1, at) && UpTo(y1, at) && Beyond(x2, at) && Beyond(y2, at)
    ensures Merge(x1 + x2, y1 + y2) == Merge(x1, y1) + Merge(x2, y2)
    decreases |x1| + |y1|
  {
    if x1 == [] && y1 == [] {
      assert x1 + x2 == x2 && y1 + y2 == y2 && Merge([], []) == [];
    } else {
      hide *;
      if x1 != [] && (y1 == [] || x1[0] <= y1[0]) {
        MergeFirst(x1, x2, y1, y2, at);
        MergeCut(x1[1..], x2, y1, y2, at);
        Joined([Event(x1[0], 0)], Merge(x1[1..], y1), Merge(x2, y2));
      } else {
        MergeSecond(x1, x2, y1, y2, at);
        MergeCut(x1, x2, y1[1..], y2, at);
        Joined([Event(y1[0], 1)], Merge(x1, y1[1..]), Merge(x2, y2));
      }
    }
  }

  function Delayed(evs: seq<Event>, d: nat): seq<Event> {
    seq(|evs|, i requires 0 <= i < |evs| => evs[i].(at := evs[i].at + d))
  }

  lemma {:induction false} MergeLater(xs: seq<nat>, ys: seq<nat>, d: nat)
    ensures Merge(Later(xs, d), Later(ys, d)) == Delayed(Merge(xs, ys), d)
    decreases |xs| + |ys|
  {
    if xs != [] && (ys == [] || xs[0] <= ys[0]) {
      assert Later(xs, d)[1..] == Later(xs[1..], d);
      MergeLater(xs[1..], ys, d);
    } else if ys != [] {
      assert Later(ys, d)[1..] == Later(ys[1..], d);
      MergeLater(xs, ys[1..], d);
    }
  }

  // ---------------------------------------------------------------- running events

  lemma {:induction false} RunConcat<M>(c: Config<M>, s: Apu<M>, base: nat, n: nat, e1: seq<Event>, e2: seq<Event>)
    ensures Run(c, s, base, n, e1 + e2) == Run(c, Run(c, s, base, n, e1), base, n, e2)
    decreases e1
  {
    hide Serve, TickUntil;
    if e1 == [] {
      assert e1 + e2 == e2;
    } else {
      assert (e1 + e2)[1..] == e1[1..] + e2;
      RunConcat(c, Serve(c, TickUntil(c, s, base + Clamp(e1[0].at, n)), e1[0].timer), base, n, e1[1..], e2);
    }
  }

  /** Moving the base forward and the events back is no change. */
  lemma {:induction false} RunDelayed<M>(c: Config<M>, s: Apu<M>, base: nat, a: nat, b: nat, evs: seq<Event>)
    ensures Run(c, s, base, a + b, Delayed(evs, a)) == Run(c, s, base + a, b, evs)
    decreases evs
  {
    hide Serve, TickUntil;
    if evs != [] {
      assert Delayed(evs, a)[1..] == Delayed(evs[1..], a);
      RunDelayed(c, Serve(c, TickUntil(c, s, base + a + Clamp(evs[0].at, b)), evs[0].timer), base, a, b, evs[1..]);
    }
  }

  /** A longer batch does not move events that lie in the shorter one, and the
      clock never passes the end of it. */
  lemma {:induction false} RunEarly<M>(c: Config<M>, s: Apu<M>, base: nat, a: nat, n: nat, evs: seq<Event>)
    requires a <= n && s.clock <= base + a
    requires forall i :: 0 <= i < |evs| ==> evs[i].at <= a
    ensures Run(c, s, base, n, evs) == Run(c, s, base, a, evs)
    ensures Run(c, s, base, a, evs).clock <= base + a
    decreases evs
  {
    hide Serve;
    if evs != [] {
      ServeKeeps(c, TickUntil(c, s, base + evs[0].at), evs[0].timer);
      RunEarly(c, Serve(c, TickUntil(c, s, base + evs[0].at), evs[0].timer), base, a, n, evs[1..]);
    }
  }

  /** Running up to the start of a batch first is absorbed by the batch. */
  lemma RunAbsorbs<M>(c: Config<M>, s: Apu<M>, base: nat, n: nat, evs: seq<Event>)
    requires s.clock <= base
    ensures TickUntil(c, Run(c, TickUntil(c, s, base), base, n, evs), base + n)
         == TickUntil(c, Run(c, s, base, n, evs), base + n)
  {
    if evs == [] {
      TickUntilVia(c, s, base, base + n);
    } else {
      TickUntilVia(c, s, base, base + Clamp(evs[0].at, n));
    }
  }

  lemma ServeKeeps<M>(c: Config<M>, s: Apu<M>, timer: nat)
    ensures var r := Serve(c, s, timer); r.clock == s.clock && r.out == s.out && r.mixer == s.mixer
  {
  }

  // ----------------------------------------------------------------- placed events

  /** A stretch of `n` cycles in which the two timers overflow at the given times. */
  function Placed<M>(c: Config<M>, s: Apu<M>, n: nat, xs: seq<nat>, ys: seq<nat>): Apu<M> {
    TickUntil(c, Run(c, s, s.clock, n, Merge(xs, ys)), s.clock + n)
  }

  predicate Within(xs: seq<nat>, n: nat) { forall i :: 0 <= i < |xs| ==> 1 <= xs[i] <= n }

  lemma EventsCompose(a: nat, b: nat, x1: seq<nat>, y1: seq<nat>, x2: seq<nat>, y2: seq<nat>)
    requires Within(x1, a) && Within(y1, a) && Within(x2, b) && Within(y2, b)
    ensures Merge(x1 + Later(x2, a), y1 + Later(y2, a)) == Merge(x1, y1) + Delayed(Merge(x2, y2), a)
    ensures forall i :: 0 <= i < |Merge(x1, y1)| ==> Merge(x1, y1)[i].at <= a
  {
    hide Merge, Delayed;
    MergeCut(x1, Later(x2, a), y1, Later(y2, a), a);
    MergeLater(x2, y2, a);
    MergeBounded(x1, y1, a);
  }

  lemma RunsCompose<M>(c: Config<M>, s: Apu<M>, a: nat, b: nat, first: seq<Event>, second: seq<Event>)
    requires forall i :: 0 <= i < |first| ==> first[i].at <= a
    ensures TickUntil(c, Run(c, s, s.clock, a + b, first + Delayed(second, a)), s.clock + a + b)
         == TickUntil(c, Run(c, TickUntil(c, Run(c, s, s.clock, a, first), s.clock + a), s.clock + a, b, second),
                      s.clock + a + b)
  {
    hide *;
    var base := s.clock;
    RunConcat(c, s, base, a + b, first, Delayed(second, a));
    RunEarly(c, s, base, a, a + b, first);
    var r := Run(c, s, base, a, first);
    RunDelayed(c, r, base, a, b, second);
    RunAbsorbs(c, r, base + a, b, second);
  }

  /** Two stretches one after the other are one. */
  lemma PlacedCompose<M>(c: Config<M>, s: Apu<M>, a: nat, b: nat, x1: seq<nat>, y1: seq<nat>, x2: seq<nat>,
                         y2: seq<nat>)
    requires Within(x1, a) && Within(y1, a) && Within(x2, b) && Within(y2, b)
    ensures Placed(c, s, a + b, x1 + Later(x2, a), y1 + Later(y2, a)) == Placed(c, Placed(c, s, a, x1, y1), b, x2, y2)
  {
    hide Merge, Run, Delayed, Later, Emit;
    EventsCompose(a, b, x1, y1, x2, y2);
    RunsCompose(c, s, a, b, Merge(x1, y1), Merge(x2, y2));
  }

  lemma {:induction false} MergeBounded(xs: seq<nat>, ys: seq<nat>, limit: nat)
    requires forall i :: 0 <= i < |xs| ==> xs[i] <= limit
    requires forall i :: 0 <= i < |ys| ==> ys[i] <= limit
    ensures forall i :: 0 <= i < |Merge(xs, ys)| ==> Merge(xs, ys)[i].at <= limit
    decreases |xs| + |ys|
  {
    if xs != [] && (ys == [] || xs[0] <= ys[0]) {
      MergeBounded(xs[1..], ys, limit);
    } else if ys != [] {
      MergeBounded(xs, ys[1..], limit);
    }
  }

  function Clamped(xs: seq<nat>, n: nat): seq<nat> { seq(|xs|, i requires 0 <= i < |xs| => Clamp(xs[i], n)) }

  function ClampedEvents(evs: seq<Event>, n: nat): seq<Event> {
    seq(|evs|, i requires 0 <= i < |evs| => evs[i].(at := Clamp(evs[i].at, n)))
  }

  lemma {:induction false} MergeClamped(xs: seq<nat>, ys: seq<nat>, n: nat)
    requires Within(xs, n)
    ensures Merge(xs, Clamped(ys, n)) == ClampedEvents(Merge(xs, ys), n)
    decreases |xs| + |ys|
  {
    if xs != [] && (ys == [] || xs[0] <= ys[0]) {
      MergeClamped(xs[1..], ys, n);
    } else if ys != [] {
      assert Clamped(ys, n)[1..] == Clamped(ys[1..], n);
      MergeClamped(xs, ys[1..], n);
    }
  }

  lemma {:induction false} RunClamped<M>(c: Config<M>, s: Apu<M>, base: nat, n: nat, evs: seq<Event>)
    ensures Run(c, s, base, n, ClampedEvents(evs, n)) == Run(c, s, base, n, evs)
    decreases evs
  {
    hide Serve, TickUntil;
    if evs != [] {
      assert ClampedEvents(evs, n)[1..] == ClampedEvents(evs[1..], n);
      RunClamped(c, Serve(c, TickUntil(c, s, base + Clamp(evs[0].at, n)), evs[0].timer), base, n, evs[1..]);
    }
  }

  // ------------------------------------------------------- where a batch puts overflows

  /** The cycles at which a batch delivers timer 1's overflows. */
  function Marks(ts: seq<TimerState>, n: nat): seq<nat>
    requires |ts| == 4 && AllValid(ts)
  {
    Clamped(Stamps(After(ts, n, 1).ov, ts[1].Period()), n)
  }

  /** Timer 1 counts the overflows of a running timer 0. */
  predicate Cascades(ts: seq<TimerState>)
    requires |ts| == 4
  {
    ts[1].Enabled() && ts[1].Cascade() && ts[0].Running()
  }

  /** The stamps of a running timer are its overflow times. */
  lemma StampsExact(ts: seq<TimerState>, n: nat, i: nat)
    requires |ts| == 4 && AllValid(ts) && n <= BATCH_LIMIT && i <= 1
    requires ts[i].Running() || !Clocked(ts, i)
    ensures Stamps(After(ts, n, i).ov, ts[i].Period()) == Overflows(ts, n, i)
    ensures Within(Overflows(ts, n, i), n)
  {
    hide Advance, TimerState.Period, TimerState.UntilOverflow, Overflows;
    OverflowTimes(ts, n, i);
    OverflowsAscend(ts, n, i);
    var ov, p := After(ts, n, i).ov, ts[i].Period();
    if ts[i].Running() && ov.count > 0 {
      FirstIsExact(ts[i], n);
      forall k | 0 <= k < ov.count
        ensures Stamp(ov, p, k) == ov.first + k * p
      {
        MulMonotone(k, ov.count - 1, p);
        MulMonotone(0, k, p);
      }
    }
  }

  /** Times `p` apart from `x` on, those beyond `n` moved there. */
  predicate Comb(xs: seq<nat>, x: int, p: int, n: nat) {
    forall k :: 0 <= k < |xs| ==> 0 <= x + k * p && xs[k] == Clamp(x + k * p, n)
  }

  /** In a cascade overflow `k` is put `k` periods of timer 1 after timer 0's first overflow. */
  lemma CascadeMarks(ts: seq<TimerState>, n: nat)
    requires |ts| == 4 && AllValid(ts) && n <= BATCH_LIMIT && Cascades(ts)
    ensures |Marks(ts, n)| == After(ts, n, 1).ov.count
    ensures Comb(Marks(ts, n), ts[0].UntilOverflow(), ts[1].Period(), n)
  {
    hide Advance, AddTicks, TimerState.Period, TimerState.UntilOverflow;
    var ov, p := After(ts, n, 1).ov, ts[1].Period();
    if ov.count > 0 {
      assert ov.first == After(ts, n, 0).ov.first && After(ts, n, 0).ov.count > 0;
      FirstIsExact(ts[0], n);
      UntilPositive(ts[0]);
      forall k | 0 <= k < ov.count
        ensures Clamp(Stamp(ov, p, k), n) == Clamp(ov.first + k * p, n)
        ensures ov.first + k * p >= 0
      {
        MulMonotone(0, k, p);
        FirstInBatch(ts[0], n);
      }
    }
  }

  lemma FirstInBatch(t: TimerState, n: nat)
    requires t.Running() && Advance(t, n).ov.count > 0
    ensures Advance(t, n).ov.first <= n
  {
    hide Advance, TimerState.Period, TimerState.UntilOverflow;
    FirstIsExact(t, n);
    UntilPositive(t);
    MulMonotone(0, Advance(t, n).ov.count - 1, t.Period());
  }

  lemma MarksWithin(ts: seq<TimerState>, n: nat)
    requires |ts| == 4 && AllValid(ts) && n <= BATCH_LIMIT
    ensures Within(Marks(ts, n), n) && Ascending(Marks(ts, n))
    ensures |Marks(ts, n)| == |Overflows(ts, n, 1)|
    ensures !Cascades(ts) ==> Marks(ts, n) == Overflows(ts, n, 1)
  {
    hide After, TimerState.Period, TimerState.UntilOverflow, Overflows, Stamps, Stamp;
    StampsAscend(After(ts, n, 1).ov, ts[1].Period());
    OverflowTimes(ts, n, 1);
    if Cascades(ts) {
      CascadeMarks(ts, n);
      UntilPositive(ts[0]);
      if After(ts, n, 1).ov.count > 0 { OverflowedAt(ts, 0, 1, 0); AfterNothing(ts, 1); }
      forall k | 0 <= k < |Marks(ts, n)|
        ensures ts[0].UntilOverflow() + k * ts[1].Period() >= 1
      {
        MulMonotone(0, k, ts[1].Period());
      }
    } else {
      StampsExact(ts, n, 1);
    }
  }

  /** A batch is the stretch with timer 0's overflows where they are and timer 1's at its marks. */
  lemma BatchIsPlaced<M>(c: Config<M>, s: Apu<M>, ts: seq<TimerState>, n: nat)
    requires |ts| == 4 && AllValid(ts) && n <= BATCH_LIMIT
    ensures Batch(c, s, ts, n) == Placed(c, s, n, Overflows(ts, n, 0), Marks(ts, n))
  {
    StampsExact(ts, n, 0);
    hide After, TickUntil, Overflows, Stamps, Merge, Run, Clamped, ClampedEvents, Within;
    var xs, ys := Overflows(ts, n, 0), Stamps(After(ts, n, 1).ov, ts[1].Period());
    MergeClamped(xs, ys, n);
    RunClamped(c, s, s.clock, n, Merge(xs, ys));
  }

  // --------------------------------------------------------- when the marks are right

  /** Timer 1, where it counts timer 0, does not overflow in the batch; or it is one tick from
      overflowing and, if it overflows again, its own prescaler keeps step with timer 0 or the
      second overflow is in the last cycle, to which a late mark is clamped. */
  predicate Timely(ts: seq<TimerState>, n: nat)
    requires |ts| == 4 && AllValid(ts)
  {
    Cascades(ts) ==>
      n < OverflowTime(ts, 1, 0) ||
      (ts[1].counter == WRAP - 1 &&
        (n < OverflowTime(ts, 1, 1) || ts[1].Scale() == ts[0].Period()
         || (n == OverflowTime(ts, 1, 1) && ts[1].Scale() >= ts[0].Period())))
  }

  lemma CascadeTime(ts: seq<TimerState>, j: nat)
    requires |ts| == 4 && AllValid(ts) && Cascades(ts)
    ensures Clocked(ts, 1)
    ensures OverflowTime(ts, 1, j)
         == ts[0].UntilOverflow() + (WRAP - 1 - ts[1].counter + j * (WRAP - ts[1].reload)) * ts[0].Period()
  {
    hide TimerState.UntilOverflow, TimerState.Period;
    MulNonNegative(j, WRAP - ts[1].reload);
  }

  /** Every overflow of timer 1 is marked where it happens exactly if the batch is timely. */
  lemma MarksRight(ts: seq<TimerState>, n: nat)
    requires |ts| == 4 && AllValid(ts) && n <= BATCH_LIMIT
    ensures Marks(ts, n) == Overflows(ts, n, 1) <==> Timely(ts, n)
  {
    hide Overflows, Marks, OverflowTime, TimerState.Scale, TimerState.Period, Clocked;
    MarksWithin(ts, n);
    if Cascades(ts) { CascadeMarksRight(ts, n); }
  }

  lemma CascadeOverflows(ts: seq<TimerState>, n: nat)
    requires |ts| == 4 && AllValid(ts) && Cascades(ts)
    ensures var u, p0, r, m := ts[0].UntilOverflow(), ts[0].Period(), WRAP - ts[1].reload, WRAP - 1 - ts[1].counter;
            var right := Overflows(ts, n, 1);
            && (forall j :: 0 <= j < |right| ==> right[j] == u + (m + j * r) * p0 && right[j] <= n)
            && (|right| > 0 <==> u + m * p0 <= n) && (|right| > 1 <==> u + (m + r) * p0 <= n)
  {
    hide Overflows, After, OverflowTime, Clocked, TimerState.UntilOverflow, TimerState.Period;
    OverflowTimes(ts, n, 1);
    OverflowsAscend(ts, n, 1);
    forall j | 0 <= j < |Overflows(ts, n, 1)|
      ensures Overflows(ts, n, 1)[j]
           == ts[0].UntilOverflow() + (WRAP - 1 - ts[1].counter + j * (WRAP - ts[1].reload)) * ts[0].Period()
    {
      CascadeTime(ts, j);
    }
    CascadeTime(ts, 0);
    CascadeTime(ts, 1);
    OverflowedAt(ts, n, 1, 0);
    OverflowedAt(ts, n, 1, 1);
  }

  lemma MeansTimely(ts: seq<TimerState>, n: nat)
    requires |ts| == 4 && AllValid(ts) && Cascades(ts)
    ensures var u, p0, r, sc, m := ts[0].UntilOverflow(), ts[0].Period(), WRAP - ts[1].reload, ts[1].Scale(),
              WRAP - 1 - ts[1].counter;
            Timely(ts, n) <==>
              n < u + m * p0 ||
              (m == 0 && (n < u + (m + r) * p0 || sc == p0 || (n == u + (m + r) * p0 && sc >= p0)))
  {
    hide OverflowTime, Clocked, TimerState.UntilOverflow, TimerState.Period, TimerState.Scale;
    CascadeTime(ts, 0);
    CascadeTime(ts, 1);
  }

  lemma CascadeMarksRight(ts: seq<TimerState>, n: nat)
    requires |ts| == 4 && AllValid(ts) && n <= BATCH_LIMIT && Cascades(ts)
    ensures Marks(ts, n) == Overflows(ts, n, 1) <==> Timely(ts, n)
  {
    assert ts[1].Period() == (WRAP - ts[1].reload) * ts[1].Scale();
    assert ts[0].Running() && ts[1].Valid();
    hide *;
    CascadeMarks(ts, n);
    MarksWithin(ts, n);
    CascadeOverflows(ts, n);
    UntilPositive(ts[0]);
    MeansTimely(ts, n);
    CascadeRight(ts[0].UntilOverflow(), ts[0].Period(), WRAP - ts[1].reload, ts[1].Scale(), WRAP - 1 - ts[1].counter, n,
                 Marks(ts, n), Overflows(ts, n, 1));
  }

  lemma CascadeRight(u: nat, p0: nat, r: nat, sc: nat, m: nat, n: nat, marks: seq<nat>, right: seq<nat>)
    requires p0 >= 1 && r >= 1 && |marks| == |right|
    requires Comb(marks, u, r * sc, n)
    requires forall j :: 0 <= j < |right| ==> right[j] == u + (m + j * r) * p0 && right[j] <= n
    requires (|right| > 0 <==> u + m * p0 <= n) && (|right| > 1 <==> u + (m + r) * p0 <= n)
    ensures marks == right <==>
              n < u + m * p0 ||
              (m == 0 && (n < u + (m + r) * p0 || sc == p0 || (n == u + (m + r) * p0 && sc >= p0)))
  {
    if |right| > 0 {
      assert marks[0] == Clamp(u, n) && right[0] == u + m * p0 by { assert 0 * (r * sc) == 0 && 0 * r == 0; }
      if m > 0 {
        MulMonotone(1, m, p0);
      } else if |right| > 1 {
        SecondMark(u, p0, r, sc, n, marks, right);
      }
    }
  }

  lemma Ordered(r: nat, x: nat, y: nat)
    requires r >= 1
    ensures x < y ==> r * x < r * y
    ensures y < x ==> r * y < r * x
  {
    if x < y { MulMonotone(1, r, y - x); }
    if y < x { MulMonotone(1, r, x - y); }
  }

  lemma SecondMark(u: nat, p0: nat, r: nat, sc: nat, n: nat, marks: seq<nat>, right: seq<nat>)
    requires p0 >= 1 && r >= 1 && |marks| == |right| > 1
    requires Comb(marks, u, r * sc, n)
    requires forall j :: 0 <= j < |right| ==> right[j] == u + (0 + j * r) * p0 && right[j] <= n
    ensures marks == right <==> sc == p0 || (n == u + r * p0 && sc >= p0)
  {
    assert marks[1] == Clamp(u + r * sc, n) && right[1] == u + r * p0 by {
      assert 1 * (r * sc) == r * sc && 1 * r == r;
    }
    if sc == p0 {
      forall j | 0 <= j < |right| ensures marks[j] == right[j] { MulAssoc(j, r, p0); }
    } else {
      Ordered(r, sc, p0);
      if |right| > 2 {
        assert right[2] == u + (0 + 2 * r) * p0;
        Ordered(p0, 0, r);
        Distribute(r, r, p0);
      }
      assert marks[0] == right[0] by { assert 0 * (r * sc) == 0 && (0 + 0 * r) * p0 == 0; }
      assert |right| == 2 ==> marks == [marks[0], marks[1]] && right == [right[0], right[1]];
    }
  }

  // --------------------------------------------------------------- sample counting

  lemma StampsAscend(ov: TimerOverflow, period: nat)
    ensures Ascending(Stamps(ov, period))
  {
    forall i, j | 0 <= i <= j < ov.count
      ensures Stamp(ov, period, i) <= Stamp(ov, period, j)
    {
      MulMonotone(i, j, period);
    }
  }

  lemma {:induction false} RunSamples<M>(c: Config<M>, s: Apu<M>, base: nat, n: nat, evs: seq<Event>)
    requires c.master && InOrder(evs) && base <= s.clock <= base + n
    requires evs != [] ==> s.clock <= base + Clamp(evs[0].at, n)
    ensures var r := Run(c, s, base, n, evs);
            && s.clock <= r.clock <= base + n
            && |r.out| == |s.out| + WindowsClosed(s.clock, r.clock)
            && s.out <= r.out
    decreases evs
  {
    if evs != [] {
      hide Serve;
      var t := base + Clamp(evs[0].at, n);
      var s1 := TickUntil(c, s, t);
      EmitKeeps(c, s, WindowsClosed(s.clock, t), t);
      ServeKeeps(c, s1, evs[0].timer);
      RunSamples(c, Serve(c, s1, evs[0].timer), base, n, evs[1..]);
    }
  }

  lemma PlacedSamples<M>(c: Config<M>, s: Apu<M>, n: nat, xs: seq<nat>, ys: seq<nat>)
    requires c.master && Ascending(xs) && Ascending(ys)
    ensures var r := Placed(c, s, n, xs, ys);
            s.out <= r.out && r.clock == s.clock + n && |r.out| == |s.out| + WindowsClosed(s.clock, s.clock + n)
  {
    hide Merge, Run, InOrder;
    MergeInOrder(xs, ys);
    var evs := Merge(xs, ys);
    RunSamples(c, s, s.clock, n, evs);
    var r := Run(c, s, s.clock, n, evs);
    EmitKeeps(c, r, WindowsClosed(r.clock, s.clock + n), 0);
  }

  /** Whatever the timers do, a batch appends exactly one stereo pair for every
      512-cycle window that closes in it. */
  lemma BatchSamples<M>(c: Config<M>, s: Apu<M>, ts: seq<TimerState>, cycles: nat)
    requires c.master && |ts| == 4 && AllValid(ts)
    ensures var r := Batch(c, s, ts, cycles);
            && s.out <= r.out && r.clock == s.clock + cycles
            && |r.out| - |s.out| == (s.clock + cycles) / 512 - s.clock / 512
  {
    var ov0, ov1 := After(ts, cycles, 0).ov, After(ts, cycles, 1).ov;
    hide After, Merge, Run, Stamps, TickUntil;
    StampsAscend(ov0, ts[0].Period());
    StampsAscend(ov1, ts[1].Period());
    PlacedSamples(c, s, cycles, Stamps(ov0, ts[0].Period()), Stamps(ov1, ts[1].Period()));
  }

  // ---------------------------------------------------------- the one-cycle machine

  /** One CPU cycle: close a sample window if one ends here, then serve the
      timers that overflow in this cycle, timer 0 first. */
  function AudioCycle<M>(c: Config<M>, s: Apu<M>, ts: seq<TimerState>): Apu<M>
    requires |ts| == 4
  {
    var closes := c.master && (s.clock + 1) % CYCLES_PER_SAMPLE == 0;
    var s1 := (if closes then Generate(c, s) else s).(clock := s.clock + 1);
    var s2 := if ChainCycle(ts, 0).1 then Serve(c, s1, 0) else s1;
    if ChainCycle(ts, 1).1 then Serve(c, s2, 1) else s2
  }

  function AudioCycles<M>(c: Config<M>, s: Apu<M>, ts: seq<TimerState>, n: nat): Apu<M>
    requires |ts| == 4
  {
    if n == 0 then s else AudioCycle(c, AudioCycles(c, s, ts, n - 1), ChainCycles(ts, n - 1).0)
  }

  function Once(overflows: bool): seq<nat> { if overflows then [1] else [] }

  /** One cycle is a stretch of length one. */
  lemma CycleIsPlaced<M>(c: Config<M>, s: Apu<M>, ts: seq<TimerState>)
    requires |ts| == 4
    ensures Placed(c, s, 1, Once(ChainCycle(ts, 0).1), Once(ChainCycle(ts, 1).1)) == AudioCycle(c, s, ts)
  {
    hide ChainCycle, Serve, Merge;
    var o0, o1 := ChainCycle(ts, 0).1, ChainCycle(ts, 1).1;
    MergeAtMostOneEach(o0, o1);
    var s1 := TickUntil(c, s, s.clock + 1);
    OneWindow(c, s);
    if o0 && o1 {
      ServeKeeps(c, s1, 0);
      RunOne(c, Serve(c, s1, 0), s.clock, 1);
      assert [Event(1, 0), Event(1, 1)][1..] == [Event(1, 1)];
    } else if o0 {
      RunOne(c, s, s.clock, 0);
    } else if o1 {
      RunOne(c, s, s.clock, 1);
    }
    EndOfCycle(c, s1, o0, o1);
  }

  lemma MergeAtMostOneEach(o0: bool, o1: bool)
    ensures Merge(Once(o0), Once(o1))
         == if o0 && o1 then [Event(1, 0), Event(1, 1)]
            else if o0 then [Event(1, 0)] else if o1 then [Event(1, 1)] else []
  {
    assert [1 as nat][1..] == [];
    assert Merge([], []) == [];
    assert Merge([], [1]) == [Event(1, 1)];
  }

  lemma RunOne<M>(c: Config<M>, s: Apu<M>, base: nat, timer: nat)
    ensures Run(c, s, base, 1, [Event(1, timer)]) == Serve(c, TickUntil(c, s, base + 1), timer)
  {
    hide Serve, TickUntil;
    var evs := [Event(1, timer)];
    assert evs[1..] == [];
  }

  lemma EndOfCycle<M>(c: Config<M>, s: Apu<M>, o0: bool, o1: bool)
    ensures var s0 := if o0 then Serve(c, s, 0) else s;
            var s1 := if o1 then Serve(c, s0, 1) else s0;
            TickUntil(c, s0, s.clock) == s0 && TickUntil(c, s1, s.clock) == s1
  {
    hide Serve, TickUntil;
    ServeKeeps(c, s, 0);
    var s0 := if o0 then Serve(c, s, 0) else s;
    ServeKeeps(c, s0, 1);
    StaysAt(c, s0);
    StaysAt(c, if o1 then Serve(c, s0, 1) else s0);
  }

  lemma StaysAt<M>(c: Config<M>, s: Apu<M>)
    ensures TickUntil(c, s, s.clock) == s
  {
  }

  lemma OneWindow<M>(c: Config<M>, s: Apu<M>)
    ensures var closes := c.master && (s.clock + 1) % CYCLES_PER_SAMPLE == 0;
            TickUntil(c, s, s.clock + 1) == (if closes then Generate(c, s) else s).(clock := s.clock + 1)
  {
    var k := WindowsClosed(s.clock, s.clock + 1);
    assert k == if (s.clock + 1) % CYCLES_PER_SAMPLE == 0 then 1 else 0;
    assert Emit(c, s, 1) == Emit(c, Generate(c, s), 0);
  }

  lemma OneMoreCycle<M>(c: Config<M>, s: Apu<M>, n: nat, xs: seq<nat>, ys: seq<nat>, o0: bool, o1: bool)
    requires Within(xs, n) && Within(ys, n)
    ensures Placed(c, s, n + 1, xs + (if o0 then [n + 1] else []), ys + if o1 then [n + 1] else [])
         == Placed(c, Placed(c, s, n, xs, ys), 1, Once(o0), Once(o1))
  {
    assert Later(Once(o0), n) == (if o0 then [n + 1] else []) && Later(Once(o1), n) == if o1 then [n + 1] else [];
    assert Within(Once(o0), 1) && Within(Once(o1), 1);
    hide Placed, Later, Once, Within;
    PlacedCompose(c, s, n, 1, xs, ys, Once(o0), Once(o1));
  }

  /** The one-cycle machine is the stretch with every overflow where it happens. */
  lemma {:induction false} CyclesArePlaced<M>(c: Config<M>, s: Apu<M>, ts: seq<TimerState>, n: nat)
    requires |ts| == 4
    ensures AudioCycles(c, s, ts, n) == Placed(c, s, n, Overflows(ts, n, 0), Overflows(ts, n, 1))
  {
    if n == 0 {
      hide TickUntil;
      StaysAt(c, s);
    } else {
      hide AudioCycle, ChainCycle, ChainCycles, Placed, Once;
      CyclesArePlaced(c, s, ts, n - 1);
      var before := ChainCycles(ts, n - 1).0;
      OverflowsAscend(ts, n - 1, 0);
      OverflowsAscend(ts, n - 1, 1);
      CycleIsPlaced(c, AudioCycles(c, s, ts, n - 1), before);
      OneMoreCycle(c, s, n - 1, Overflows(ts, n - 1, 0), Overflows(ts, n - 1, 1),
                   ChainCycle(before, 0).1, ChainCycle(before, 1).1);
    }
  }

  /** A timely batch equals the machine that moves one cycle at a time. */
  lemma BatchIsCycleByCycle<M>(c: Config<M>, s: Apu<M>, ts: seq<TimerState>, n: nat)
    requires |ts| == 4 && AllValid(ts) && Timely(ts, n) && n <= BATCH_LIMIT
    ensures Batch(c, s, ts, n) == AudioCycles(c, s, ts, n)
  {
    hide *;
    MarksRight(ts, n);
    BatchIsPlaced(c, s, ts, n);
    CyclesArePlaced(c, s, ts, n);
  }

  // ---------------------------------------------------------------- cutting a batch

  /** What a cut after `a` cycles must not disturb, where timer 1 counts timer 0: no mark of
      the first part may have been clamped to its end, and the first mark of the second
      part, which starts at timer 0's next overflow, must continue those of the first or lie
      in the last cycle with the mark it replaces clamped to it. */
  predicate CutsClean(ts: seq<TimerState>, a: nat, b: nat)
    requires |ts| == 4 && AllValid(ts)
  {
    Cascades(ts) ==>
      var k, q := After(ts, a, 1).ov.count, After(ts, a, 0).ov.count;
      var u, p0, p1 := ts[0].UntilOverflow(), ts[0].Period(), ts[1].Period();
      && (k == 0 || b == 0 || u + (k - 1) * p1 <= a)
      && (a + b < OverflowTime(ts, 1, k) || k * p1 == q * p0 || u + q * p0 == a + b <= u + k * p1)
  }

  /** The marks of the parts of a cut batch, in order. */
  function CutMarks(ts: seq<TimerState>, a: nat, b: nat): seq<nat>
    requires |ts| == 4 && AllValid(ts)
  {
    Marks(ts, a) + Later(Marks(AfterAll(ts, a), b), a)
  }

  lemma CutIsPlaced<M>(c: Config<M>, s: Apu<M>, ts: seq<TimerState>, a: nat, b: nat)
    requires |ts| == 4 && AllValid(ts) && a + b <= BATCH_LIMIT
    ensures Batch(c, Batch(c, s, ts, a), AfterAll(ts, a), b)
         == Placed(c, s, a + b, Overflows(ts, a + b, 0), CutMarks(ts, a, b))
  {
    hide Batch, Placed, Overflows, Marks, AfterAll, AllValid, ChainCycles, Later;
    var mid := AfterAll(ts, a);
    BatchIsCycles(ts, a);
    OverflowsCut(ts, a, b, 0);
    OverflowsAscend(ts, a, 0);
    OverflowsAscend(mid, b, 0);
    MarksWithin(ts, a);
    MarksWithin(mid, b);
    BatchIsPlaced(c, s, ts, a);
    BatchIsPlaced(c, Batch(c, s, ts, a), mid, b);
    PlacedCompose(c, s, a, b, Overflows(ts, a, 0), Marks(ts, a), Overflows(mid, b, 0), Marks(mid, b));
  }

  lemma CutsRight(ts: seq<TimerState>, a: nat, b: nat)
    requires |ts| == 4 && AllValid(ts) && a + b <= BATCH_LIMIT
    ensures |Marks(ts, a + b)| == |CutMarks(ts, a, b)|
    ensures Marks(ts, a + b) == CutMarks(ts, a, b) <==> CutsClean(ts, a, b)
  {
    hide Overflows, Marks, After, ChainCycles, TimerState.UntilOverflow, TimerState.Period;
    var mid := AfterAll(ts, a);
    MarksWithin(ts, a);
    MarksWithin(ts, a + b);
    MarksWithin(mid, b);
    BatchIsCycles(ts, a);
    OverflowsCut(ts, a, b, 1);
    if Cascades(ts) { CascadeCut(ts, a, b); }
  }

  lemma CascadeMid(ts: seq<TimerState>, a: nat)
    requires |ts| == 4 && AllValid(ts) && Cascades(ts)
    ensures var mid := AfterAll(ts, a);
            && Cascades(mid) && ts[0].Running() && mid[0].Running()
            && mid[1].Period() == ts[1].Period() && mid[0].Period() == ts[0].Period()
            && mid[0].UntilOverflow() == ts[0].UntilOverflow() + After(ts, a, 0).ov.count * ts[0].Period() - a
  {
    hide Advance;
    AdvanceAdvances(ts[0], a);
  }

  lemma CascadeCut(ts: seq<TimerState>, a: nat, b: nat)
    requires |ts| == 4 && AllValid(ts) && a + b <= BATCH_LIMIT && Cascades(ts)
    ensures Marks(ts, a + b) == CutMarks(ts, a, b) <==> CutsClean(ts, a, b)
  {
    hide *;
    FirstMarks(ts, a);
    SecondMarks(ts, a, b);
    FirstMarks(ts, a + b);
    AfterSplit(ts, a, b, 1);
    CutArithmetic(First(ts), Own(ts), Gone(ts, a), a, b, Marks(ts, a), Marks(AfterAll(ts, a), b), Marks(ts, a + b));
    MeansClean(ts, a, b);
  }

  function First(ts: seq<TimerState>): int
    requires |ts| == 4
  {
    ts[0].UntilOverflow()
  }

  function Own(ts: seq<TimerState>): int
    requires |ts| == 4 && AllValid(ts)
  {
    ts[1].Period()
  }

  /** Cycles that timer 0's overflows up to the cut stand for. */
  function Gone(ts: seq<TimerState>, a: nat): int
    requires |ts| == 4 && AllValid(ts)
  {
    After(ts, a, 0).ov.count * ts[0].Period()
  }

  lemma FirstMarks(ts: seq<TimerState>, a: nat)
    requires |ts| == 4 && AllValid(ts) && a <= BATCH_LIMIT && Cascades(ts)
    ensures |Marks(ts, a)| == After(ts, a, 1).ov.count && Comb(Marks(ts, a), First(ts), Own(ts), a)
    ensures |Marks(ts, a)| > 0 ==> First(ts) <= a
    ensures First(ts) >= 1 && Own(ts) >= 0 && Gone(ts, a) >= 0
  {
    assert ts[0].Running() && Own(ts) == ts[1].Period() && First(ts) == ts[0].UntilOverflow();
    hide After, TimerState.UntilOverflow, TimerState.Period, Marks, Comb;
    CascadeMarks(ts, a);
    CascadeFirsts(ts, a);
    UntilPositive(ts[0]);
    MulNonNegative(After(ts, a, 0).ov.count, ts[0].Period());
  }

  lemma SecondMarks(ts: seq<TimerState>, a: nat, b: nat)
    requires |ts| == 4 && AllValid(ts) && a + b <= BATCH_LIMIT && Cascades(ts)
    ensures var mid := AfterAll(ts, a);
            && |Marks(mid, b)| == After(mid, b, 1).ov.count
            && Comb(Marks(mid, b), First(ts) + Gone(ts, a) - a, Own(ts), b)
            && 1 <= First(ts) + Gone(ts, a) - a
            && (|Marks(mid, b)| > 0 ==> First(ts) + Gone(ts, a) <= a + b)
  {
    hide After, AfterAll, TimerState.UntilOverflow, TimerState.Period, Marks, Comb;
    CascadeMid(ts, a);
    FirstMarks(AfterAll(ts, a), b);
  }

  /** The second part overflows exactly if the next overflow falls in it. */
  lemma MeansClean(ts: seq<TimerState>, a: nat, b: nat)
    requires |ts| == 4 && AllValid(ts) && Cascades(ts)
    requires After(ts, a + b, 1).ov.count == After(ts, a, 1).ov.count + After(AfterAll(ts, a), b, 1).ov.count
    ensures CutMarks(ts, a, b) == Marks(ts, a) + Later(Marks(AfterAll(ts, a), b), a)
    ensures CutsClean(ts, a, b) <==>
            Clean(First(ts), Own(ts), Gone(ts, a), a, b, After(ts, a, 1).ov.count,
                  After(AfterAll(ts, a), b, 1).ov.count)
  {
    CascadeTime(ts, 0);
    OverflowedAt(ts, a + b, 1, After(ts, a, 1).ov.count);
    hide After, AfterAll, OverflowTime, Clocked, TimerState.UntilOverflow, TimerState.Period, Marks, Later;
  }

  lemma CascadeFirsts(ts: seq<TimerState>, n: nat)
    requires |ts| == 4 && AllValid(ts) && Cascades(ts)
    ensures After(ts, n, 1).ov.count > 0 ==> ts[0].UntilOverflow() <= n
  {
    hide Advance, AddTicks, TimerState.UntilOverflow, TimerState.Period;
    if After(ts, n, 1).ov.count > 0 {
      assert After(ts, n, 0).ov.count > 0;
      FirstIsExact(ts[0], n);
      FirstInBatch(ts[0], n);
    }
  }

  /** The condition in numbers: `k1` and `k2` marks, timer 0 `gone` cycles on at the cut. */
  predicate Clean(u: int, p: int, gone: int, a: nat, b: nat, k1: nat, k2: nat) {
    && (k1 == 0 || b == 0 || u + (k1 - 1) * p <= a)
    && (k2 == 0 || k1 * p == gone || u + gone == a + b <= u + k1 * p)
  }

  lemma CutArithmetic(u: nat, p: nat, gone: nat, a: nat, b: nat, first: seq<nat>, second: seq<nat>, whole: seq<nat>)
    requires |whole| == |first| + |second|
    requires |first| > 0 ==> u <= a
    requires 1 <= u + gone - a && (|second| > 0 ==> u + gone <= a + b)
    requires Comb(first, u, p, a) && Comb(second, u + gone - a, p, b) && Comb(whole, u, p, a + b)
    ensures whole == first + Later(second, a) <==> Clean(u, p, gone, a, b, |first|, |second|)
  {
    var k := |first|;
    SplitsAt(whole, first, Later(second, a));
    CombSplits(whole, u, p, a + b, k);
    hide Comb, Later;
    FirstPart(u, p, a, b, first, whole[..k]);
    SecondPart(u + k * p, p, u + gone, a, b, second, whole[k..]);
  }

  lemma CombSplits(xs: seq<nat>, x: nat, p: nat, n: nat, k: nat)
    requires k <= |xs| && Comb(xs, x, p, n)
    ensures k * p >= 0 && Comb(xs[..k], x, p, n) && Comb(xs[k..], x + k * p, p, n)
  {
    MulNonNegative(k, p);
    forall i | 0 <= i < |xs| - k
      ensures 0 <= x + k * p + i * p && xs[k..][i] == Clamp(x + k * p + i * p, n)
    {
      Distribute(k, i, p);
      assert xs[k..][i] == xs[k + i];
    }
  }

  lemma SplitsAt(whole: seq<nat>, first: seq<nat>, second: seq<nat>)
    requires |whole| == |first| + |second|
    ensures whole == first + second <==> whole[..|first|] == first && whole[|first|..] == second
  {
    assert whole == whole[..|first|] + whole[|first|..];
  }

  lemma FirstPart(u: nat, p: nat, a: nat, b: nat, first: seq<nat>, whole: seq<nat>)
    requires |whole| == |first| && (|first| > 0 ==> u <= a)
    requires Comb(first, u, p, a) && Comb(whole, u, p, a + b)
    ensures whole == first <==> |first| == 0 || b == 0 || u + (|first| - 1) * p <= a
  {
    if |first| > 0 {
      var last := |first| - 1;
      assert first[last] == Clamp(u + last * p, a) && whole[last] == Clamp(u + last * p, a + b);
      if u + last * p <= a {
        forall k | 0 <= k < |first| ensures first[k] == whole[k] { MulMonotone(k, last, p); }
      }
    }
  }

  lemma SecondPart(x: nat, p: nat, y: nat, a: nat, b: nat, second: seq<nat>, whole: seq<nat>)
    requires |whole| == |second| && y > a && (|second| > 0 ==> y <= a + b)
    requires Comb(second, y - a, p, b) && Comb(whole, x, p, a + b)
    ensures whole == Later(second, a) <==> |second| == 0 || x == y || y == a + b <= x
  {
    if |second| > 0 {
      assert whole[0] == Clamp(x + 0 * p, a + b) && Later(second, a)[0] == y;
      if x == y || y == a + b <= x {
        forall k | 0 <= k < |second| ensures whole[k] == Later(second, a)[k] { MulMonotone(0, k, p); }
      }
    }
  }

  /** The audio path does not depend on how the cycles are batched, where the cut is clean. */
  lemma BatchIndependence<M>(c: Config<M>, s: Apu<M>, ts: seq<TimerState>, a: nat, b: nat)
    requires |ts| == 4 && AllValid(ts) && CutsClean(ts, a, b) && a + b <= BATCH_LIMIT
    ensures Batch(c, s, ts, a + b) == Batch(c, Batch(c, s, ts, a), AfterAll(ts, a), b)
  {
    hide *;
    BatchIsPlaced(c, s, ts, a + b);
    CutIsPlaced(c, s, ts, a, b);
    CutsRight(ts, a, b);
  }
}
