/// A difference in what the DAC latches hold at a sample is a difference in what the mixer
/// emits: with FIFO A at full volume on one side the samples determine the latches.
module Audible {
  import opened Arithmetic
  import opened SoundFifo
  import opened Audio
  import Mixer

  // ------------------------------------------------------------- recording and mixing

  /** A mixer that emits the two latches as they are; timer 1 clocks both FIFOs. */
  function Recording(mem: nat -> Byte): Config<int> {
    Config(true, 1, 1, mem, (m, a, b) => (m, (a, b)))
  }

  /** The same configuration with the emulator's mixer. */
  function Player<P>(mem: nat -> Byte, r: Mixer.Regs, step: P -> (P, Mixer.Psg)): Config<Mixer.MixState<P>> {
    Mixer.WithMixer(Config(true, 1, 1, mem, (m, a, b) => (m, (a, b))), r, step)
  }

  /** What the mixer makes of a record of latches. */
  function Fed<P>(r: Mixer.Regs, step: P -> (P, Mixer.Psg), m: Mixer.MixState<P>, ls: seq<(int, int)>)
    : (Mixer.MixState<P>, seq<(int, int)>)
    decreases |ls|
  {
    if ls == [] then (m, [])
    else
      var (m1, out) := Fed(r, step, m, ls[..|ls| - 1]);
      var (m2, pair) := Mixer.Sample(r, step, m1, ls[|ls| - 1].0, ls[|ls| - 1].1);
      (m2, out + [pair])
  }

  /** The state of the playing APU where the recording one is in `s`. */
  function Playing<P>(r: Mixer.Regs, step: P -> (P, Mixer.Psg), m: Mixer.MixState<P>,
                      s: Apu<int>): Apu<Mixer.MixState<P>> {
    var (m', out) := Fed(r, step, m, s.out);
    Apu(s.clock, s.fifoA, s.fifoB, s.latchA, s.latchB, s.dma, m', out)
  }

  lemma GeneratePlays<P>(mem: nat -> Byte, r: Mixer.Regs, step: P -> (P, Mixer.Psg), m: Mixer.MixState<P>, s: Apu<int>)
    ensures Generate(Player(mem, r, step), Playing(r, step, m, s)) == Playing(r, step, m, Generate(Recording(mem), s))
  {
    hide Mixer.Sample;
    assert (s.out + [(s.latchA, s.latchB)])[..|s.out|] == s.out;
  }

  lemma {:induction false} EmitPlays<P>(mem: nat -> Byte, r: Mixer.Regs, step: P -> (P, Mixer.Psg),
                                        m: Mixer.MixState<P>, s: Apu<int>, k: nat)
    ensures Emit(Player(mem, r, step), Playing(r, step, m, s), k) == Playing(r, step, m, Emit(Recording(mem), s, k))
    decreases k
  {
    if k > 0 {
      GeneratePlays(mem, r, step, m, s);
      hide Generate, Player, Playing, Recording;
      EmitPlays(mem, r, step, m, Generate(Recording(mem), s), k - 1);
    }
  }

  lemma TickPlays<P>(mem: nat -> Byte, r: Mixer.Regs, step: P -> (P, Mixer.Psg), m: Mixer.MixState<P>, s: Apu<int>,
                     target: nat)
    ensures TickUntil(Player(mem, r, step), Playing(r, step, m, s), target)
            == Playing(r, step, m, TickUntil(Recording(mem), s, target))
  {
    EmitPlays(mem, r, step, m, s, WindowsClosed(s.clock, target));
    hide Emit, Fed;
  }

  lemma PopPlays<P>(mem: nat -> Byte, r: Mixer.Regs, step: P -> (P, Mixer.Psg), m: Mixer.MixState<P>, s: Apu<int>,
                    timer: nat)
    ensures Pop(Player(mem, r, step), Playing(r, step, m, s), timer)
            == Playing(r, step, m, Pop(Recording(mem), s, timer))
  {
    hide Fed, Front, Rest;
  }

  lemma RefillPlays<P>(mem: nat -> Byte, r: Mixer.Regs, step: P -> (P, Mixer.Psg), m: Mixer.MixState<P>, s: Apu<int>,
                       k: nat, timer: nat)
    requires k < 4
    ensures Refill(Player(mem, r, step), Playing(r, step, m, s), k, timer)
         == Playing(r, step, m, Refill(Recording(mem), s, k, timer))
  {
    hide Fed, PushAll, Burst, Advanced;
  }

  lemma ServePlays<P>(mem: nat -> Byte, r: Mixer.Regs, step: P -> (P, Mixer.Psg), m: Mixer.MixState<P>, s: Apu<int>,
                      timer: nat)
    ensures Serve(Player(mem, r, step), Playing(r, step, m, s), timer)
            == Playing(r, step, m, Serve(Recording(mem), s, timer))
  {
    PopPlays(mem, r, step, m, s, timer);
    var p := Pop(Recording(mem), s, timer);
    RefillPlays(mem, r, step, m, p, 1, timer);
    RefillPlays(mem, r, step, m, Refill(Recording(mem), p, 1, timer), 2, timer);
    hide Pop, Refill, Fed, Player, Recording;
  }

  lemma {:induction false} RunPlays<P>(mem: nat -> Byte, r: Mixer.Regs, step: P -> (P, Mixer.Psg), m: Mixer.MixState<P>,
                                       s: Apu<int>, base: nat, n: nat, evs: seq<Event>)
    ensures Run(Player(mem, r, step), Playing(r, step, m, s), base, n, evs)
         == Playing(r, step, m, Run(Recording(mem), s, base, n, evs))
    decreases evs
  {
    if evs != [] {
      hide *;
      var c, c', t, timer := Recording(mem), Player(mem, r, step), base + Clamp(evs[0].at, n), evs[0].timer;
      var s1 := TickUntil(c, s, t);
      TickPlays(mem, r, step, m, s, t);
      ServePlays(mem, r, step, m, s1, timer);
      RunFirst(c, s, base, n, evs);
      RunFirst(c', Playing(r, step, m, s), base, n, evs);
      RunPlays(mem, r, step, m, Serve(c, s1, timer), base, n, evs[1..]);
    }
  }

  lemma RunFirst<M>(c: Config<M>, s: Apu<M>, base: nat, n: nat, evs: seq<Event>)
    requires evs != []
    ensures Run(c, s, base, n, evs)
         == Run(c, Serve(c, TickUntil(c, s, base + Clamp(evs[0].at, n)), evs[0].timer), base, n, evs[1..])
  {
    hide TickUntil, Serve, Clamp;
  }

  /** The playing APU does what the recording one does, and mixes what that records. */
  lemma PlacedPlays<P>(mem: nat -> Byte, r: Mixer.Regs, step: P -> (P, Mixer.Psg), m: Mixer.MixState<P>, s: Apu<int>,
                       n: nat, xs: seq<nat>, ys: seq<nat>)
    ensures Placed(Player(mem, r, step), Playing(r, step, m, s), n, xs, ys)
         == Playing(r, step, m, Placed(Recording(mem), s, n, xs, ys))
  {
    hide *;
    var c, p, c', p' := Recording(mem), s, Player(mem, r, step), Playing(r, step, m, s);
    PlacedIs(c, p, n, xs, ys);
    PlacedIs(c', p', n, xs, ys);
    PlayingClock(r, step, m, s);
    RunPlays(mem, r, step, m, s, s.clock, n, Merge(xs, ys));
    TickPlays(mem, r, step, m, Run(c, s, s.clock, n, Merge(xs, ys)), s.clock + n);
  }

  lemma PlacedIs<M>(c: Config<M>, s: Apu<M>, n: nat, xs: seq<nat>, ys: seq<nat>)
    ensures Placed(c, s, n, xs, ys) == TickUntil(c, Run(c, s, s.clock, n, Merge(xs, ys)), s.clock + n)
  {
    hide TickUntil, Run, Merge;
  }

  lemma PlayingClock<P>(r: Mixer.Regs, step: P -> (P, Mixer.Psg), m: Mixer.MixState<P>, s: Apu<int>)
    ensures Playing(r, step, m, s).clock == s.clock
  {
    hide Fed;
  }

  // ------------------------------------------------------------- the latches stay in range

  predicate IsSample(v: int) { -128 <= v < 128 }

  predicate AreSamples(q: Queue) { forall i :: 0 <= i < |q| ==> IsSample(q[i]) }

  /** All of FIFO A, its latch, and the record of it. */
  ghost predicate Sampled(s: Apu<int>) {
    && IsSample(s.latchA) && AreSamples(s.fifoA)
    && forall i :: 0 <= i < |s.out| ==> IsSample(s.out[i].0)
  }

  lemma {:induction false} EmitSampled(mem: nat -> Byte, s: Apu<int>, k: nat)
    requires Sampled(s)
    ensures Sampled(Emit(Recording(mem), s, k))
    decreases k
  {
    if k > 0 { EmitSampled(mem, Generate(Recording(mem), s), k - 1); }
  }

  lemma BurstSampled(mem: nat -> Byte, src: nat, q: Queue)
    requires AreSamples(q)
    ensures AreSamples(PushAll(q, Burst(mem, src)))
  {
    var vs := Burst(mem, src);
    forall i | 0 <= i < |vs|
      ensures IsSample(vs[i])
    {
      var b := mem(Wrap(src / 2 * 2 + i));
      assert vs[i] == Signed(b);
    }
    PushAllKeepsPrefix(q, vs);
    hide PushAll, Burst;
  }

  lemma RefillKeeps(mem: nat -> Byte, s: Apu<int>, k: nat, timer: nat)
    requires k < 4
    ensures var t := Refill(Recording(mem), s, k, timer);
            && t.latchA == s.latchA && t.out == s.out
            && (t.fifoA == s.fifoA || t.fifoA == PushAll(s.fifoA, Burst(mem, s.dma[k].src)))
  {
    hide PushAll, Burst, Advanced, Requests;
  }

  lemma RefillSampled(mem: nat -> Byte, s: Apu<int>, k: nat, timer: nat)
    requires Sampled(s) && k < 4
    ensures Sampled(Refill(Recording(mem), s, k, timer))
  {
    RefillKeeps(mem, s, k, timer);
    BurstSampled(mem, s.dma[k].src, s.fifoA);
    hide AreSamples, IsSample, Refill, PushAll, Burst, Recording;
  }

  lemma ServeSampled(mem: nat -> Byte, s: Apu<int>, timer: nat)
    requires Sampled(s)
    ensures Sampled(Serve(Recording(mem), s, timer))
  {
    var c := Recording(mem);
    var p := Pop(c, s, timer);
    assert Sampled(p);
    RefillSampled(mem, p, 1, timer);
    RefillSampled(mem, Refill(c, p, 1, timer), 2, timer);
    hide Pop, Refill, Sampled;
  }

  lemma TickSampled(mem: nat -> Byte, s: Apu<int>, target: nat)
    requires Sampled(s)
    ensures Sampled(TickUntil(Recording(mem), s, target))
  {
    EmitSampled(mem, s, WindowsClosed(s.clock, target));
    hide Emit;
  }

  lemma {:induction false} RunSampled(mem: nat -> Byte, s: Apu<int>, base: nat, n: nat, evs: seq<Event>)
    requires Sampled(s)
    ensures Sampled(Run(Recording(mem), s, base, n, evs))
    decreases evs
  {
    if evs != [] {
      var t := base + Clamp(evs[0].at, n);
      TickSampled(mem, s, t);
      ServeSampled(mem, TickUntil(Recording(mem), s, t), evs[0].timer);
      hide Sampled, TickUntil, Serve, Recording;
      RunSampled(mem, Serve(Recording(mem), TickUntil(Recording(mem), s, t), evs[0].timer), base, n, evs[1..]);
    }
  }

  lemma PlacedSampled(mem: nat -> Byte, s: Apu<int>, n: nat, xs: seq<nat>, ys: seq<nat>)
    requires Sampled(s)
    ensures Sampled(Placed(Recording(mem), s, n, xs, ys))
  {
    hide Sampled, TickUntil, Run, Merge, Recording;
    RunSampled(mem, s, s.clock, n, Merge(xs, ys));
    TickSampled(mem, Run(Recording(mem), s, s.clock, n, Merge(xs, ys)), s.clock + n);
  }

  // ------------------------------------------------------------- samples determine latches

  /** FIFO A alone on both sides at full volume, the bias in the middle, the finest DAC. */
  const LOUD := Mixer.Regs(FIFO_A_ONLY, FIFO_A_ONLY, 0, true, true, 0x200, 0)
  const FIFO_A_ONLY := Mixer.Pan(false, false, false, false, true, false, 0)

  /** Such a DAC multiplies the latch and never clamps. */
  lemma LoudDac(psg: Mixer.Psg, a: int, b: int)
    requires IsSample(a)
    ensures Mixer.Dac(LOUD, Mixer.Mixed(LOUD, FIFO_A_ONLY, psg, a, b)) == 128 * a
  {
    assert Mixer.PsgSum(FIFO_A_ONLY, psg) == 0;
    assert Mixer.Mixed(LOUD, FIFO_A_ONLY, psg, a, b) == 1024 * a;
  }

  /** After the same state, different inputs of the filter are different samples. */
  lemma EmittedDiffers(f: Mixer.Filter, x: int, x': int)
    requires Mixer.Emitted(Mixer.Filtered(f, x)) == Mixer.Emitted(Mixer.Filtered(f, x'))
    ensures x == x'
  {
    var k := f.y - f.y / 256 - 256 * f.x;
    WholeShift(x, k);
    WholeShift(x', k);
  }

  lemma WholeShift(x: int, k: int)
    ensures (256 * x + k) / 256 == x + k / 256
  {
  }

  lemma LoudSample<P>(step: P -> (P, Mixer.Psg), m: Mixer.MixState<P>, a: int, b: int)
    requires IsSample(a)
    ensures var (m', pair) := Mixer.Sample(LOUD, step, m, a, b);
            m'.left == Mixer.Filtered(m.left, 128 * a) && pair.0 == Mixer.Emitted(m'.left)
  {
    LoudDac(step(m.psg).1, a, b);
    hide Mixer.Dac, Mixer.Mixed, Mixer.Filtered;
  }

  /** Two records that sound the same on the left are the same in latch A. */
  lemma {:induction false} SoundsDiffer<P>(step: P -> (P, Mixer.Psg), m: Mixer.MixState<P>, ls: seq<(int, int)>,
                                           ks: seq<(int, int)>)
    requires |ls| == |ks| && Fed(LOUD, step, m, ls).1 == Fed(LOUD, step, m, ks).1
    requires forall i :: 0 <= i < |ls| ==> IsSample(ls[i].0) && IsSample(ks[i].0)
    ensures forall i :: 0 <= i < |ls| ==> ls[i].0 == ks[i].0
    ensures Fed(LOUD, step, m, ls).0.left == Fed(LOUD, step, m, ks).0.left
    decreases |ls|
  {
    if ls != [] {
      hide Fed, Mixer.Sample, Mixer.Filtered, Mixer.Emitted;
      var n := |ls| - 1;
      var (m1, out1) := Fed(LOUD, step, m, ls[..n]);
      var (m2, out2) := Fed(LOUD, step, m, ks[..n]);
      var (m1', pair1) := FedLast(step, m, ls);
      var (m2', pair2) := FedLast(step, m, ks);
      LoudSample(step, m1, ls[n].0, ls[n].1);
      LoudSample(step, m2, ks[n].0, ks[n].1);
      LastEqual(out1, pair1, out2, pair2);
      SoundsDiffer(step, m, ls[..n], ks[..n]);
      EmittedDiffers(m1.left, 128 * ls[n].0, 128 * ks[n].0);
      assert forall i :: 0 <= i < n ==> ls[i] == ls[..n][i] && ks[i] == ks[..n][i];
    }
  }

  /** The last sample of a record. */
  function FedLast<P>(step: P -> (P, Mixer.Psg), m: Mixer.MixState<P>, ls: seq<(int, int)>)
    : (r: (Mixer.MixState<P>, (int, int)))
    requires ls != []
    ensures var (m1, out) := Fed(LOUD, step, m, ls[..|ls| - 1]);
            && r == Mixer.Sample(LOUD, step, m1, ls[|ls| - 1].0, ls[|ls| - 1].1)
            && Fed(LOUD, step, m, ls) == (r.0, out + [r.1])
  {
    Mixer.Sample(LOUD, step, Fed(LOUD, step, m, ls[..|ls| - 1]).0, ls[|ls| - 1].0, ls[|ls| - 1].1)
  }

  /** Records that differ in latch A sound different. */
  lemma PlayDiffers<P>(step: P -> (P, Mixer.Psg), m: Mixer.MixState<P>, s: Apu<int>, s': Apu<int>, i: nat)
    requires Sampled(s) && Sampled(s') && |s.out| == |s'.out| && i < |s.out| && s.out[i].0 != s'.out[i].0
    ensures Playing(LOUD, step, m, s).out != Playing(LOUD, step, m, s').out
  {
    hide Fed;
    if Playing(LOUD, step, m, s).out == Playing(LOUD, step, m, s').out {
      SoundsDiffer(step, m, s.out, s'.out);
      assert false;
    }
  }

  lemma LastEqual<T>(xs: seq<T>, x: T, ys: seq<T>, y: T)
    requires xs + [x] == ys + [y]
    ensures xs == ys && x == y
  {
    assert (xs + [x])[..|xs|] == xs && (ys + [y])[..|ys|] == ys && (xs + [x])[|xs|] == x;
    assert |xs + [x]| == |ys + [y]|;
  }
}
