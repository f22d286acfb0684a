/// The sample mixer: panning and volume, the bias clamp, and the integer DC
/// blocker behind it.
module Mixer {
  import opened Arithmetic
  import opened Timers
  import opened Audio

  /** Mixer registers by field: per side the channels panned there (channels 1
      to 4, FIFOs A and B) and the PSG volume 0..7, then the shared fields. */
  datatype Pan = Pan(ch1: bool, ch2: bool, ch3: bool, ch4: bool, fifoA: bool, fifoB: bool, volume: nat)

  datatype Regs = Regs(left: Pan, right: Pan, psgMaster: nat, fullA: bool, fullB: bool, bias: nat, resolution: nat) {
    predicate Valid() {
      && left.volume <= 7 && right.volume <= 7 && psgMaster <= 3
      && bias <= 0x3FE && resolution <= 3
    }
  }

  /** The four PSG channel outputs. */
  datatype Psg = Psg(ch1: int, ch2: int, ch3: int, ch4: int) {
    predicate Valid() { 0 <= ch1 <= 15 && 0 <= ch2 <= 15 && 0 <= ch3 <= 45 && 0 <= ch4 <= 15 }
  }

  function Gate(on: bool, v: int): int { if on then v else 0 }

  function Clamped(v: int, lo: int, hi: int): int { if v < lo then lo else if v > hi then hi else v }

  /** Two to the power of the DAC resolution setting. */
  function Coarseness(resolution: nat): nat {
    if resolution == 0 then 1 else if resolution == 1 then 2 else if resolution == 2 then 4 else 8
  }

  /** The channels of one side, eight times their level. */
  function PsgSum(pan: Pan, psg: Psg): int {
    (Gate(pan.ch1, psg.ch1) + Gate(pan.ch2, psg.ch2) + Gate(pan.ch3, psg.ch3)) * 8 + Gate(pan.ch4, psg.ch4 * 8)
  }

  /** The PSG contribution: sum, side volume, master shift by 4, 3 or 2. */
  function PsgMix(r: Regs, pan: Pan, psg: Psg): int {
    PsgSum(pan, psg) * (pan.volume + 1) / (if r.psgMaster == 0 then 16 else if r.psgMaster == 1 then 8 else 4)
  }

  /** One side before the DAC, in 24.8 fixed point. */
  function Mixed(r: Regs, pan: Pan, psg: Psg, a: int, b: int): int {
    PsgMix(r, pan, psg) * 256
    + Gate(pan.fifoA, a * 256 * 4 / (if r.fullA then 1 else 2))
    + Gate(pan.fifoB, b * 256 * 4 / (if r.fullB then 1 else 2))
  }

  function Bias(r: Regs): int { r.bias / Coarseness(r.resolution) * 256 }

  /** Quantised, with the bias added. */
  function Biased(r: Regs, v: int): int { v / Coarseness(r.resolution) + Bias(r) }

  /** Clamped, without the bias again, and multiplied by the gain. */
  function Gained(r: Regs, v: int): int {
    var d := Coarseness(r.resolution);
    (Clamped(Biased(r, v), 0, 0x3FF / d * 256) - Bias(r)) * (32 * d)
  }

  /** The DAC. */
  function Dac(r: Regs, v: int): int { Gained(r, v) / 256 }

  const LOWEST := -32704
  const HIGHEST := 32736
  const SPAN := HIGHEST - LOWEST
  const I32 := 0x8000_0000

  /** Whatever is mixed, for every register setting, the DAC stays in range. */
  lemma DacBounds(r: Regs, v: int)
    requires r.Valid()
    ensures LOWEST <= Dac(r, v) <= HIGHEST
    ensures LOWEST * 256 <= Gained(r, v) <= HIGHEST * 256
  {
    var d := Coarseness(r.resolution);
    var bias, top := r.bias / d * 256, 0x3FF / d * 256;
    var c := Clamped(v / d + bias, 0, top) - bias;
    assert -bias <= c <= top - bias;
    if d == 1 {
      Scaled(c, 32, -bias, top - bias);
    } else if d == 2 {
      Scaled(c, 64, -bias, top - bias);
    } else if d == 4 {
      Scaled(c, 128, -bias, top - bias);
    } else {
      Scaled(c, 256, -bias, top - bias);
    }
  }

  lemma Scaled(c: int, gain: nat, lo: int, hi: int)
    requires lo <= c <= hi
    ensures lo * gain <= c * gain <= hi * gain
    ensures lo * gain / 256 <= c * gain / 256 <= hi * gain / 256
  {
    MulMonotone(lo, c, gain);
    MulMonotone(c, hi, gain);
  }

  predicate Fits(v: int) { -I32 <= v < I32 }

  /** No intermediate of the mix leaves the 32-bit range: the channel sum and its product with
      the volume, each FIFO's share, the mix, the biased mix, and the clamped product with
      the gain. */
  lemma MixFits(r: Regs, pan: Pan, psg: Psg, a: int, b: int)
    requires r.Valid() && psg.Valid() && pan.volume <= 7 && -128 <= a < 128 && -128 <= b < 128
    ensures 0 <= PsgSum(pan, psg) * (pan.volume + 1) <= 5760 && 0 <= PsgMix(r, pan, psg) <= 1440
    ensures Fits(a * 256 * 4) && Fits(b * 256 * 4) && -262144 <= Mixed(r, pan, psg, a, b) < 700000
    ensures Fits(Biased(r, Mixed(r, pan, psg, a, b))) && Fits(Gained(r, Mixed(r, pan, psg, a, b)))
  {
    var sum := PsgSum(pan, psg);
    assert 0 <= sum <= 720;
    MulMonotone(sum, 720, pan.volume + 1);
    MulMonotone(0, sum, pan.volume + 1);
    BiasedFits(r, Mixed(r, pan, psg, a, b));
    DacBounds(r, Mixed(r, pan, psg, a, b));
    hide Gained, Biased, PsgSum;
  }

  lemma BiasedFits(r: Regs, v: int)
    requires r.Valid() && -262144 <= v < 700000
    ensures Fits(Biased(r, v))
  {
  }

  // ------------------------------------------------------------------ DC blocker

  /** Last input and last output; the output carries eight fraction bits. */
  datatype Filter = Filter(x: int, y: int)

  function Filtered(f: Filter, x: int): Filter { Filter(x, (x - f.x) * 256 + f.y - f.y / 256) }

  function Emitted(f: Filter): int { f.y / 256 }

  /** The invariant: output minus scaled input stays between the negated extremes. */
  predicate Bounded(f: Filter) {
    && LOWEST <= f.x <= HIGHEST
    && -256 * HIGHEST <= f.y - 256 * f.x <= -256 * LOWEST
  }

  /** The invariant survives every input the DAC can produce, no sum overflows,
      and the emitted sample is bounded. */
  lemma FilterBounded(f: Filter, x: int)
    requires Bounded(f) && LOWEST <= x <= HIGHEST
    ensures var g := Filtered(f, x);
            && Bounded(g)
            && -256 * SPAN <= g.y <= 256 * SPAN
            && -SPAN <= Emitted(g) <= SPAN
    ensures var s := (x - f.x) * 256; -I32 <= s < I32 && -I32 <= s + f.y < I32
  {
    var u := f.y - 256 * f.x;
    assert f.y / 256 == u / 256 + f.x;
    assert Filtered(f, x).y - 256 * x == u - u / 256 - f.x;
  }

  function FilterRun(f: Filter, xs: seq<int>): Filter
    decreases xs
  {
    if xs == [] then f else FilterRun(Filtered(f, xs[0]), xs[1..])
  }

  lemma {:induction false} FilterRunBounded(f: Filter, xs: seq<int>)
    requires Bounded(f) && forall i :: 0 <= i < |xs| ==> LOWEST <= xs[i] <= HIGHEST
    ensures Bounded(FilterRun(f, xs))
    decreases xs
  {
    if xs != [] {
      FilterBounded(f, xs[0]);
      hide Filtered, Bounded;
      FilterRunBounded(Filtered(f, xs[0]), xs[1..]);
    }
  }

  /** `n` further samples of unchanged input. */
  function Held(f: Filter, n: nat): Filter {
    if n == 0 then f else Filtered(Held(f, n - 1), f.x)
  }

  function Distance(f: Filter): nat { if f.y >= 0 then f.y else -f.y }

  /** Under constant input the emitted sample reaches 0 and stays there. */
  lemma {:induction false} SettlesToSilence(f: Filter, n: nat)
    ensures var g := Held(f, n);
            && g.x == f.x
            && (f.y >= 0 ==> 0 <= g.y && (Emitted(g) == 0 || g.y <= f.y - n))
            && (f.y <= 0 ==> g.y <= 0 && (g.y == 0 || g.y >= f.y + n))
    ensures n >= Distance(f) ==> Emitted(Held(f, n)) == 0
  {
    if n > 0 {
      SettlesToSilence(f, n - 1);
      Decays(Held(f, n - 1));
    }
  }

  lemma Decays(f: Filter)
    ensures var y := Filtered(f, f.x).y;
            && (f.y >= 256 ==> 0 <= y <= f.y - 1)
            && (0 <= f.y < 256 ==> y == f.y)
            && (f.y < 0 ==> f.y + 1 <= y <= 0)
  {
  }

  // ------------------------------------------------------------------ the mixer

  /** Mixer state: whatever the PSG keeps, and one filter per side. */
  datatype MixState<P> = MixState(psg: P, left: Filter, right: Filter)

  function Sample<P>(r: Regs, step: P -> (P, Psg), m: MixState<P>, a: int, b: int): (MixState<P>, (int, int)) {
    var (p, psg) := step(m.psg);
    var left := Filtered(m.left, Dac(r, Mixed(r, r.left, psg, a, b)));
    var right := Filtered(m.right, Dac(r, Mixed(r, r.right, psg, a, b)));
    (MixState(p, left, right), (Emitted(left), Emitted(right)))
  }

  // ------------------------------------------------------------------ what a sample is

  /** The fields of SOUNDCNT_L, SOUNDCNT_H and SOUNDBIAS. */
  function FromRegisters(low: nat, high: nat, bias: nat): Regs {
    Regs(Pan(low / 0x1000 % 2 == 1, low / 0x2000 % 2 == 1, low / 0x4000 % 2 == 1, low / 0x8000 % 2 == 1,
             high / 0x200 % 2 == 1, high / 0x2000 % 2 == 1, low / 0x10 % 8),
         Pan(low / 0x100 % 2 == 1, low / 0x200 % 2 == 1, low / 0x400 % 2 == 1, low / 0x800 % 2 == 1,
             high / 0x100 % 2 == 1, high / 0x1000 % 2 == 1, low % 8),
         high % 4, high / 4 % 2 == 1, high / 8 % 2 == 1, bias % 0x400 / 2 * 2, bias / 0x4000 % 4)
  }

  /** The levels of the channels whose bits are set in the low four of `pans`. */
  function Levels(pans: nat, psg: Psg): int {
    (if pans % 2 == 1 then psg.ch1 else 0) + (if pans / 2 % 2 == 1 then psg.ch2 else 0)
    + (if pans / 4 % 2 == 1 then psg.ch3 else 0) + (if pans / 8 % 2 == 1 then psg.ch4 else 0)
  }

  /** A FIFO's latch at full or half volume, if it is panned here. */
  function Latched(panned: bool, full: bool, v: int): int {
    if !panned then 0 else if full then 128 * v else 64 * v
  }

  /** A wanted level through the DAC: with the bias added it is cut off at both ends of the
      range, whatever of bias and range the resolution keeps. */
  function Cut(wanted: int, bias: nat, kept: nat): int
    requires kept > 0
  {
    var zero, top := 32 * (bias / kept * kept), 32 * (0x3FF / kept * kept);
    if wanted + zero < 0 then -zero else if wanted + zero > top then top - zero else wanted
  }

  lemma PsgLevels(pan: Pan, psg: Psg, pans: nat)
    requires pan.ch1 == (pans % 2 == 1) && pan.ch2 == (pans / 2 % 2 == 1)
    requires pan.ch3 == (pans / 4 % 2 == 1) && pan.ch4 == (pans / 8 % 2 == 1)
    ensures PsgSum(pan, psg) == 8 * Levels(pans, psg)
  {
  }

  lemma FourBits(low: nat, unit: nat)
    requires unit > 0
    ensures low / unit / 2 == low / (unit * 2) && low / unit / 4 == low / (unit * 4)
            && low / unit / 8 == low / (unit * 8)
  {
    DivTwice(low, unit, 2);
    DivTwice(low, unit, 4);
    DivTwice(low, unit, 8);
  }

  /** The DAC scales exactly: with the range in whole steps nothing is rounded. */
  lemma DacCuts(r: Regs, w: int)
    requires r.resolution <= 3
    ensures Dac(r, 256 * w) == Cut(32 * w, r.bias, [1, 2, 4, 8][r.resolution])
  {
    var beta, top := r.bias / Coarseness(r.resolution), 0x3FF / Coarseness(r.resolution);
    DacScales(Coarseness(r.resolution), w, beta, top);
  }

  lemma DacScales(d: nat, w: int, beta: nat, top: nat)
    requires d == 1 || d == 2 || d == 4 || d == 8
    ensures (Clamped(256 * w / d + beta * 256, 0, top * 256) - beta * 256) * (32 * d) / 256
         == if 32 * w + 32 * (beta * d) < 0 then -32 * (beta * d)
            else if 32 * w + 32 * (beta * d) > 32 * (top * d) then 32 * (top * d) - 32 * (beta * d)
            else 32 * w
  {
  }

  /** The wanted level of a side. */
  lemma MixedLevel(r: Regs, pan: Pan, psg: Psg, a: int, b: int, pans: nat)
    requires r.psgMaster <= 3 && PsgSum(pan, psg) == 8 * Levels(pans, psg)
    ensures var w := 8 * Levels(pans, psg) * (pan.volume + 1) / [16, 8, 4, 4][r.psgMaster];
            exists u :: Mixed(r, pan, psg, a, b) == 256 * u
              && 32 * u == 32 * w + Latched(pan.fifoA, r.fullA, a) + Latched(pan.fifoB, r.fullB, b)
  {
    hide PsgSum, Levels;
    var u := PsgMix(r, pan, psg) + (if !pan.fifoA then 0 else if r.fullA then 4 * a else 2 * a)
             + (if !pan.fifoB then 0 else if r.fullB then 4 * b else 2 * b);
    assert Mixed(r, pan, psg, a, b) == 256 * u;
  }

  /** A side's DAC level. */
  lemma SideLevel(r: Regs, pan: Pan, psg: Psg, a: int, b: int, pans: nat)
    requires r.psgMaster <= 3 && r.resolution <= 3
    requires pan.ch1 == (pans % 2 == 1) && pan.ch2 == (pans / 2 % 2 == 1)
    requires pan.ch3 == (pans / 4 % 2 == 1) && pan.ch4 == (pans / 8 % 2 == 1)
    ensures Dac(r, Mixed(r, pan, psg, a, b))
         == Cut(32 * (8 * Levels(pans, psg) * (pan.volume + 1) / [16, 8, 4, 4][r.psgMaster])
                + Latched(pan.fifoA, r.fullA, a) + Latched(pan.fifoB, r.fullB, b), r.bias, [1, 2, 4, 8][r.resolution])
  {
    PsgLevels(pan, psg, pans);
    MixedLevel(r, pan, psg, a, b, pans);
    hide PsgSum, Levels, Mixed, Latched, Dac, Cut;
    var u :| Mixed(r, pan, psg, a, b) == 256 * u;
    DacCuts(r, u);
  }

  /** One sample from the three registers as the program writes them, in full: each channel
      counts on a side exactly if its bit there is set, the channels together times volume and
      master volume, each FIFO at full or half volume, then the DAC's cut and the filter. */
  lemma SampleMeans<P>(low: nat, high: nat, bias: nat, step: P -> (P, Psg), m: MixState<P>, a: int, b: int)
    ensures var (p, psg) := step(m.psg);
            var (m', pair) := Sample(FromRegisters(low, high, bias), step, m, a, b);
            var master, kept := [16, 8, 4, 4][high % 4], [1, 2, 4, 8][bias / 0x4000 % 4];
            var left := Cut(32 * (8 * Levels(low / 0x1000, psg) * (low / 0x10 % 8 + 1) / master)
                            + Latched(high / 0x200 % 2 == 1, high / 4 % 2 == 1, a)
                            + Latched(high / 0x2000 % 2 == 1, high / 8 % 2 == 1, b), bias % 0x400 / 2 * 2, kept);
            var right := Cut(32 * (8 * Levels(low / 0x100, psg) * (low % 8 + 1) / master)
                             + Latched(high / 0x100 % 2 == 1, high / 4 % 2 == 1, a)
                             + Latched(high / 0x1000 % 2 == 1, high / 8 % 2 == 1, b), bias % 0x400 / 2 * 2, kept);
            && m'.psg == p && m'.left.x == left && m'.right.x == right
            && m'.left.y == 256 * (left - m.left.x) + m.left.y - m.left.y / 256
            && m'.right.y == 256 * (right - m.right.x) + m.right.y - m.right.y / 256
            && pair == (m'.left.y / 256, m'.right.y / 256)
  {
    var r, psg := FromRegisters(low, high, bias), step(m.psg).1;
    FourBits(low, 0x1000);
    FourBits(low, 0x100);
    SideLevel(r, r.left, psg, a, b, low / 0x1000);
    SideLevel(r, r.right, psg, a, b, low / 0x100);
    hide Levels, Mixed, Latched, Dac, Cut;
  }

  /** Exchanging the sides' registers and filters exchanges the samples. */
  lemma SidesExchange<P>(r: Regs, step: P -> (P, Psg), m: MixState<P>, a: int, b: int)
    ensures var (m1, one) := Sample(r, step, m, a, b);
            var (m2, other) := Sample(r.(left := r.right, right := r.left), step,
                                      m.(left := m.right, right := m.left), a, b);
            other == (one.1, one.0) && m2 == m1.(left := m1.right, right := m1.left)
  {
    SameShared(r, step(m.psg).1, a, b, r.left);
    SameShared(r, step(m.psg).1, a, b, r.right);
    hide Dac, Mixed, Filtered;
  }

  lemma SameShared(r: Regs, psg: Psg, a: int, b: int, pan: Pan)
    ensures var r' := r.(left := r.right, right := r.left);
            Dac(r', Mixed(r', pan, psg, a, b)) == Dac(r, Mixed(r, pan, psg, a, b))
  {
    hide Coarseness, PsgSum;
  }

  predicate Quiet<P>(m: MixState<P>) { Bounded(m.left) && Bounded(m.right) }

  predicate InRange(pair: (int, int)) { -SPAN <= pair.0 <= SPAN && -SPAN <= pair.1 <= SPAN }

  lemma SampleBounded<P>(r: Regs, step: P -> (P, Psg), m: MixState<P>, a: int, b: int)
    requires r.Valid() && Quiet(m)
    ensures var (m', pair) := Sample(r, step, m, a, b); Quiet(m') && InRange(pair)
  {
    var (p, psg) := step(m.psg);
    var l, rt := Mixed(r, r.left, psg, a, b), Mixed(r, r.right, psg, a, b);
    DacBounds(r, l);
    DacBounds(r, rt);
    hide Dac, Mixed;
    FilterBounded(m.left, Dac(r, l));
    FilterBounded(m.right, Dac(r, rt));
  }

  /** A run of samples in which every sample may see different registers and latches. */
  datatype Input = Input(regs: Regs, a: int, b: int)

  function Samples<P>(step: P -> (P, Psg), m: MixState<P>, inputs: seq<Input>): seq<(int, int)>
    decreases inputs
  {
    if inputs == [] then []
    else
      var (m', pair) := Sample(inputs[0].regs, step, m, inputs[0].a, inputs[0].b);
      [pair] + Samples(step, m', inputs[1..])
  }

  /** From power-on, every sample of every run is in range. */
  lemma {:induction false} SamplesBounded<P>(step: P -> (P, Psg), m: MixState<P>, inputs: seq<Input>)
    requires Quiet(m) && forall i :: 0 <= i < |inputs| ==> inputs[i].regs.Valid()
    ensures |Samples(step, m, inputs)| == |inputs|
    ensures forall i :: 0 <= i < |inputs| ==> InRange(Samples(step, m, inputs)[i])
    decreases inputs
  {
    if inputs != [] {
      SampleBounded(inputs[0].regs, step, m, inputs[0].a, inputs[0].b);
      hide Sample, InRange, Quiet, Regs.Valid;
      SamplesBounded(step, Sample(inputs[0].regs, step, m, inputs[0].a, inputs[0].b).0, inputs[1..]);
    }
  }

  /** The audio path with this mixer in it. */
  function WithMixer<P>(c: Config<MixState<P>>, r: Regs, step: P -> (P, Psg)): Config<MixState<P>> {
    c.(gen := (m, a, b) => Sample(r, step, m, a, b))
  }

  /** From `s` to `s'` only in-range samples were appended. */
  predicate Extends<P>(s: Apu<MixState<P>>, s': Apu<MixState<P>>) {
    && Quiet(s'.mixer)
    && s.out <= s'.out
    && forall i :: |s.out| <= i < |s'.out| ==> InRange(s'.out[i])
  }

  lemma ExtendsOn<P>(s: Apu<MixState<P>>, s': Apu<MixState<P>>, s'': Apu<MixState<P>>)
    requires Extends(s, s') && Extends(s', s'')
    ensures Extends(s, s'')
  {
    hide InRange, Quiet;
  }

  lemma GenerateInRange<P>(c: Config<MixState<P>>, r: Regs, step: P -> (P, Psg), s: Apu<MixState<P>>)
    requires r.Valid() && Quiet(s.mixer)
    ensures Extends(s, Generate(WithMixer(c, r, step), s))
  {
    SampleBounded(r, step, s.mixer, s.latchA, s.latchB);
    hide Sample, InRange, Quiet;
  }

  lemma {:induction false} EmitInRange<P>(c: Config<MixState<P>>, r: Regs, step: P -> (P, Psg), s: Apu<MixState<P>>,
                                          k: nat)
    requires r.Valid() && Quiet(s.mixer)
    ensures Extends(s, Emit(WithMixer(c, r, step), s, k))
    decreases k
  {
    if k > 0 {
      GenerateInRange(c, r, step, s);
      hide InRange, Quiet, WithMixer, Generate;
      EmitInRange(c, r, step, Generate(WithMixer(c, r, step), s), k - 1);
      ExtendsOn(s, Generate(WithMixer(c, r, step), s), Emit(WithMixer(c, r, step), s, k));
    }
  }

  lemma TickInRange<P>(c: Config<MixState<P>>, r: Regs, step: P -> (P, Psg), s: Apu<MixState<P>>, target: nat)
    requires r.Valid() && Quiet(s.mixer)
    ensures Extends(s, TickUntil(WithMixer(c, r, step), s, target))
  {
    EmitInRange(c, r, step, s, WindowsClosed(s.clock, target));
    hide Emit, InRange, Quiet;
  }

  lemma {:induction false} RunInRange<P>(c: Config<MixState<P>>, r: Regs, step: P -> (P, Psg), s: Apu<MixState<P>>,
                                         base: nat, n: nat, evs: seq<Event>)
    requires r.Valid() && Quiet(s.mixer)
    ensures Extends(s, Run(WithMixer(c, r, step), s, base, n, evs))
    decreases evs
  {
    if evs != [] {
      var c', t := WithMixer(c, r, step), base + Clamp(evs[0].at, n);
      TickInRange(c, r, step, s, t);
      var s1 := TickUntil(c', s, t);
      ServeKeeps(c', s1, evs[0].timer);
      var s2 := Serve(c', s1, evs[0].timer);
      hide TickUntil, Serve, InRange, Quiet, Clamp, WithMixer;
      RunInRange(c, r, step, s2, base, n, evs[1..]);
      ExtendsOn(s, s1, Run(c', s2, base, n, evs[1..]));
    }
  }

  /** Every sample any batch of cycles appends is in range. */
  lemma BatchInRange<P>(c: Config<MixState<P>>, r: Regs, step: P -> (P, Psg), s: Apu<MixState<P>>,
                        ts: seq<TimerState>, cycles: nat)
    requires |ts| == 4 && AllValid(ts) && r.Valid() && Quiet(s.mixer)
    ensures Extends(s, Batch(WithMixer(c, r, step), s, ts, cycles))
  {
    hide Events, TickUntil, Run, Extends, Quiet;
    var c' := WithMixer(c, r, step);
    var evs := Events(ts, cycles);
    var mid := Run(c', s, s.clock, cycles, evs);
    RunInRange(c, r, step, s, s.clock, cycles, evs);
    ExtendsQuiet(s, mid);
    TickInRange(c, r, step, mid, s.clock + cycles);
    ExtendsOn(s, mid, TickUntil(c', mid, s.clock + cycles));
  }

  lemma ExtendsQuiet<P>(s: Apu<MixState<P>>, s': Apu<MixState<P>>)
    requires Extends(s, s')
    ensures Quiet(s'.mixer)
  {
  }

  /** The mixing half of the APU. */
  class SampleMixer {
    var regs: Regs
    var dcXL: int
    var dcYL: int
    var dcXR: int
    var dcYR: int
    var buffer: seq<(int, int)>

    ghost predicate Valid()
      reads this
    {
      && regs.Valid()
      && Bounded(Filter(dcXL, dcYL)) && Bounded(Filter(dcXR, dcYR))
      && forall i :: 0 <= i < |buffer| ==> InRange(buffer[i])
    }

    ghost function State(): MixState<()>
      reads this
    {
      MixState((), Filter(dcXL, dcYL), Filter(dcXR, dcYR))
    }

    constructor (regs: Regs)
      requires regs.Valid()
      ensures Valid() && State() == MixState((), Filter(0, 0), Filter(0, 0)) && buffer == []
    {
      this.regs := regs;
      dcXL, dcYL, dcXR, dcYR, buffer := 0, 0, 0, 0, [];
    }

    /** Mix one stereo sample from the PSG outputs and the two DAC latches. */
    method GenerateSample(psg: Psg, a: int, b: int)
      requires Valid() && psg.Valid() && -128 <= a < 128 && -128 <= b < 128
      modifies this
      ensures Valid() && regs == old(regs)
      ensures var (m, pair) := Sample(regs, (p: ()) => (p, psg), old(State()), a, b);
              State() == m && buffer == old(buffer) + [pair]
    {
      var left := Mixed(regs, regs.left, psg, a, b);
      var right := Mixed(regs, regs.right, psg, a, b);
      MixFits(regs, regs.left, psg, a, b);
      MixFits(regs, regs.right, psg, a, b);
      SampleBounded(regs, (p: ()) => (p, psg), State(), a, b);
      hide Mixed, Dac, Bounded;
      var l, r := Dac(regs, left), Dac(regs, right);
      var yl := (l - dcXL) * 256 + dcYL - dcYL / 256;
      var yr := (r - dcXR) * 256 + dcYR - dcYR / 256;
      dcXL, dcYL := l, yl;
      dcXR, dcYR := r, yr;
      buffer := buffer + [(yl / 256, yr / 256)];
    }
  }
}
