/// Timer 1 counting timer 0's overflows: exactly when the batched audio path, which puts
/// such overflows at marks of its own, is the machine that moves one cycle at a time, as
/// heard through the emulator's mixer.
module Cascade {
  import opened Arithmetic
  import opened Timers
  import opened Audio
  import opened SoundStream
  import opened Audible
  import Mixer

  // ------------------------------------------------------------------ splitting times

  /** How many of the times are not after `at`. */
  function CountTo(xs: seq<nat>, at: nat): (k: nat)
    requires Ascending(xs)
    ensures k <= |xs| && forall i :: 0 <= i < |xs| ==> (i < k <==> xs[i] <= at)
  {
    if xs == [] then 0
    else if xs[|xs| - 1] <= at then |xs|
    else CountTo(xs[..|xs| - 1], at)
  }

  /** Times up to `at`, and the later ones counted from there. */
  lemma SplitTimes(xs: seq<nat>, at: nat, n: nat) returns (x1: seq<nat>, x2: seq<nat>)
    requires Ascending(xs) && Within(xs, n) && at <= n
    ensures xs == x1 + Later(x2, at) && |x1| == CountTo(xs, at)
    ensures Within(x1, at) && Within(x2, n - at) && Ascending(x1)
  {
    var k := CountTo(xs, at);
    hide CountTo;
    x1, x2 := xs[..k], seq(|xs| - k, i requires 0 <= i < |xs| - k => xs[k + i] - at);
  }

  // -------------------------------------------------------- a listener that tells them apart

  /** A sound whose first `j` pops can be told from more of them. */
  function Sound(j: nat): nat -> Byte {
    i => if j == 1 || i + 2 == j then 1 else 0
  }

  /** The latch after `p` pops of that sound. */
  function Heard(j: nat, p: nat): int {
    if p == 0 then (if j == 0 then 1 else 0)
    else if p >= 2 && (j == 1 || p == j) then 1 else 0
  }

  const IDLE := DmaChannel(false, Immediate, 0, 0)

  /** Channel 1 feeds FIFO A from address 0; a sample window closes after `hi` cycles. */
  function Listening(j: nat, hi: nat): Apu<int> {
    Apu(511 * hi, [], [], if j == 0 then 1 else 0, 0,
        [IDLE, DmaChannel(true, Special, FIFO_A, 0), IDLE, IDLE], 0, [])
  }

  lemma PlayedIsHeard(j: nat, p: nat)
    requires 0 < p < U32_LIMIT
    ensures Played(Sound(j), 0, p) == Heard(j, p)
  {
  }

  lemma LatchAfter(j: nat, hi: nat, n: nat, xs: seq<nat>, ys: seq<nat>)
    requires |ys| < U32_LIMIT
    ensures Placed(Recording(Sound(j)), Listening(j, hi), n, xs, ys).latchA == Heard(j, |ys|)
  {
    var c, s := Recording(Sound(j)), Listening(j, hi);
    var evs := Merge(xs, ys);
    MergeComplete(xs, ys);
    assert Streaming(c, s, A, 1, 0, 0);
    RunStreams(c, s, s.clock, n, evs, A, 1, 0, 0);
    TraceLength(c, s, s.clock, n, evs, A);
    LastLatch(c, s, s.clock, n, evs, A);
    SamplingStreams(c, Run(c, s, s.clock, n, evs), A, 1, 0, 0, s.clock + n);
    hide Merge, Run, LatchTrace, Streaming, TickUntil, Played, Sound, Of;
    if |ys| > 0 { PlayedIsHeard(j, |ys|); }
  }

  lemma {:induction false} RunKeepsOut<M>(c: Config<M>, s: Apu<M>, base: nat, n: nat, evs: seq<Event>)
    ensures s.out <= Run(c, s, base, n, evs).out
    decreases evs
  {
    if evs != [] {
      hide Serve;
      var t := base + Clamp(evs[0].at, n);
      EmitKeeps(c, s, WindowsClosed(s.clock, t), t);
      ServeKeeps(c, TickUntil(c, s, t), evs[0].timer);
      RunKeepsOut(c, Serve(c, TickUntil(c, s, t), evs[0].timer), base, n, evs[1..]);
    }
  }

  /** Nothing happens before the first cycle has passed. */
  lemma RunVia<M>(c: Config<M>, s: Apu<M>, n: nat, evs: seq<Event>)
    requires n >= 1 && forall i :: 0 <= i < |evs| ==> evs[i].at >= 1
    ensures TickUntil(c, Run(c, TickUntil(c, s, s.clock + 1), s.clock, n, evs), s.clock + n)
         == TickUntil(c, Run(c, s, s.clock, n, evs), s.clock + n)
  {
    hide TickUntil;
    if evs == [] {
      TickUntilVia(c, s, s.clock + 1, s.clock + n);
    } else {
      TickUntilVia(c, s, s.clock + 1, s.clock + Clamp(evs[0].at, n));
    }
  }

  /** A window that closes in the first cycle plays the latches as they stand. */
  lemma NextSample(mem: nat -> Byte, s: Apu<int>, n: nat, xs: seq<nat>, ys: seq<nat>)
    requires n >= 1 && (s.clock + 1) % CYCLES_PER_SAMPLE == 0 && Within(xs, n) && Within(ys, n)
    ensures var out := Placed(Recording(mem), s, n, xs, ys).out; |out| > |s.out| && out[|s.out|].0 == s.latchA
  {
    var c, evs := Recording(mem), Merge(xs, ys);
    MergeAfter(xs, ys, 1);
    RunVia(c, s, n, evs);
    OneWindow(c, s);
    var s1 := TickUntil(c, s, s.clock + 1);
    assert s1.out == s.out + [(s.latchA, s.latchB)];
    RunKeepsOut(c, s1, s.clock, n, evs);
    var r := Run(c, s1, s.clock, n, evs);
    EmitKeeps(c, r, WindowsClosed(r.clock, s.clock + n), 0);
    hide Run, Merge, Emit, Generate;
  }

  /** Which sample it is that closes after `hi` cycles. */
  function SampleIndex(hi: nat): nat
    requires hi > 0
  {
    WindowsClosed(511 * hi, 511 * hi + (hi - 1))
  }

  lemma ListeningIs(j: nat, hi: nat, s: Apu<int>)
    requires hi > 0 && s.clock == 511 * hi + (hi - 1)
    requires |s.out| == |Listening(j, hi).out| + WindowsClosed(Listening(j, hi).clock, s.clock)
    ensures (s.clock + 1) % CYCLES_PER_SAMPLE == 0 && |s.out| == SampleIndex(hi)
  {
  }

  lemma ListeningStarts(j: nat, hi: nat)
    ensures Listening(j, hi).clock == 511 * hi && Recording(Sound(j)).master
  {
  }

  /** That sample shows the latch after the pops that come before cycle `hi`. */
  lemma SampleAt(j: nat, hi: nat, n: nat, xs: seq<nat>, ys: seq<nat>)
    requires 1 <= hi <= n && |ys| < U32_LIMIT
    requires Ascending(xs) && Ascending(ys) && Within(xs, n) && Within(ys, n)
    ensures var out := Placed(Recording(Sound(j)), Listening(j, hi), n, xs, ys).out;
            SampleIndex(hi) < |out| && out[SampleIndex(hi)].0 == Heard(j, CountTo(ys, hi - 1))
  {
    hide *;
    var x1, x2 := SplitTimes(xs, hi - 1, n);
    var y1, y2 := SplitTimes(ys, hi - 1, n);
    var c, s := Recording(Sound(j)), Listening(j, hi);
    ListeningStarts(j, hi);
    PlacedCompose(c, s, hi - 1, n - (hi - 1), x1, y1, x2, y2);
    LatchAfter(j, hi, hi - 1, x1, y1);
    FewUpTo(ys, hi - 1);
    var s1 := Placed(c, s, hi - 1, x1, y1);
    PlacedSamples(c, s, hi - 1, x1, y1);
    ListeningIs(j, hi, s1);
    NextSample(Sound(j), s1, n - (hi - 1), x2, y2);
  }

  lemma FewUpTo(ys: seq<nat>, at: nat)
    requires Ascending(ys)
    ensures CountTo(ys, at) <= |ys| && Ascending(ys[..CountTo(ys, at)])
  {
    hide CountTo;
  }

  /** Times that differ first at `j`, where `ys` has the later one, leave different records. */
  lemma TellsApart(n: nat, xs: seq<nat>, ys: seq<nat>, zs: seq<nat>, j: nat) returns (i: nat)
    requires j < |ys| == |zs| < U32_LIMIT && ys[j] > zs[j] && forall i :: 0 <= i < j ==> ys[i] == zs[i]
    requires Ascending(xs) && Within(xs, n)
    requires Ascending(ys) && Within(ys, n)
    requires Ascending(zs) && Within(zs, n)
    ensures var c, s := Recording(Sound(j)), Listening(j, ys[j]);
            var out, out' := Placed(c, s, n, xs, ys).out, Placed(c, s, n, xs, zs).out;
            i < |out| && i < |out'| && out[i].0 != out'[i].0
  {
    hide Placed, Recording, Listening, SampleIndex, Sound, CountTo;
    var hi := ys[j];
    SampleAt(j, hi, n, xs, ys);
    SampleAt(j, hi, n, xs, zs);
    assert j > 0 ==> ys[j - 1] <= zs[j];
    assert CountTo(ys, hi - 1) == j && CountTo(zs, hi - 1) > j;
    i := SampleIndex(hi);
  }

  lemma ListeningSampled(j: nat, hi: nat)
    ensures Sampled(Listening(j, hi)) && Recording(Sound(j)).master && Listening(j, hi).out == []
  {
  }

  /** And through the mixer they sound different. */
  lemma SoundsApart<P>(n: nat, xs: seq<nat>, ys: seq<nat>, zs: seq<nat>, j: nat, step: P -> (P, Mixer.Psg),
                       m: Mixer.MixState<P>)
    requires j < |ys| == |zs| < U32_LIMIT && ys[j] > zs[j] && forall i :: 0 <= i < j ==> ys[i] == zs[i]
    requires Ascending(xs) && Within(xs, n)
    requires Ascending(ys) && Within(ys, n)
    requires Ascending(zs) && Within(zs, n)
    ensures var c, s := Player(Sound(j), LOUD, step), Playing(LOUD, step, m, Listening(j, ys[j]));
            Placed(c, s, n, xs, ys).out != Placed(c, s, n, xs, zs).out
  {
    hide *;
    var c, s := Recording(Sound(j)), Listening(j, ys[j]);
    var i := TellsApart(n, xs, ys, zs, j);
    ListeningSampled(j, ys[j]);
    PlacedSampled(Sound(j), s, n, xs, ys);
    PlacedSampled(Sound(j), s, n, xs, zs);
    PlacedSamples(c, s, n, xs, ys);
    PlacedSamples(c, s, n, xs, zs);
    PlacedPlays(Sound(j), LOUD, step, m, s, n, xs, ys);
    PlacedPlays(Sound(j), LOUD, step, m, s, n, xs, zs);
    PlayDiffers(step, m, Placed(c, s, n, xs, ys), Placed(c, s, n, xs, zs), i);
  }

  lemma {:induction false} FirstDifference(ys: seq<nat>, zs: seq<nat>) returns (j: nat)
    requires |ys| == |zs| && ys != zs
    ensures j < |ys| && ys[j] != zs[j] && forall i :: 0 <= i < j ==> ys[i] == zs[i]
  {
    if ys[0] != zs[0] {
      j := 0;
    } else {
      assert ys[1..] != zs[1..] by { assert ys == [ys[0]] + ys[1..] && zs == [zs[0]] + zs[1..]; }
      j := FirstDifference(ys[1..], zs[1..]);
      j := j + 1;
      assert forall i :: 1 <= i < j ==> ys[i] == ys[1..][i - 1] && zs[i] == zs[1..][i - 1];
    }
  }

  /** Different overflow times of timer 1 make a difference that the mixer lets one hear,
      whatever the PSG plays. */
  lemma Distinguish<P>(n: nat, xs: seq<nat>, ys: seq<nat>, zs: seq<nat>, step: P -> (P, Mixer.Psg),
                       m: Mixer.MixState<P>)
    returns (c: Config<Mixer.MixState<P>>, s: Apu<Mixer.MixState<P>>)
    requires |ys| == |zs| < U32_LIMIT && ys != zs
    requires Ascending(xs) && Within(xs, n)
    requires Ascending(ys) && Within(ys, n)
    requires Ascending(zs) && Within(zs, n)
    ensures var p := Mixer.WithMixer(c, LOUD, step);
            s.mixer == m && Placed(p, s, n, xs, ys).out != Placed(p, s, n, xs, zs).out
  {
    hide Placed, Listening, Ascending, Within, Sound;
    var j := FirstDifference(ys, zs);
    c := Config(true, 1, 1, Sound(j), (m, a, b) => (m, (a, b)));
    if ys[j] > zs[j] {
      SoundsApart(n, xs, ys, zs, j, step, m);
      s := Playing(LOUD, step, m, Listening(j, ys[j]));
      ListeningSampled(j, ys[j]);
    } else {
      SoundsApart(n, xs, zs, ys, j, step, m);
      s := Playing(LOUD, step, m, Listening(j, zs[j]));
      ListeningSampled(j, zs[j]);
    }
  }

  // ------------------------------------------------------------------- exact conditions

  lemma OverflowsOrdered(ts: seq<TimerState>, n: nat, i: nat)
    requires i < |ts| && n <= BATCH_LIMIT
    ensures Ascending(Overflows(ts, n, i)) && Within(Overflows(ts, n, i), n) && |Overflows(ts, n, i)| < U32_LIMIT
  {
    OverflowsAscend(ts, n, i);
    OverflowsFew(ts, n, i);
    hide Overflows;
  }

  lemma {:induction false} OverflowsFew(ts: seq<TimerState>, n: nat, i: nat)
    requires i < |ts|
    ensures |Overflows(ts, n, i)| <= n
  {
    hide ChainCycle, ChainCycles;
    if n > 0 { OverflowsFew(ts, n - 1, i); }
  }

  lemma LoudValid()
    ensures LOUD.Valid()
  {
  }

  /** One batch played by the emulator's mixer sounds other than the one-cycle machine. */
  ghost predicate Misplays<P(!new)>(ts: seq<TimerState>, n: nat, step: P -> (P, Mixer.Psg), m: Mixer.MixState<P>)
    requires |ts| == 4 && AllValid(ts)
  {
    exists c: Config<Mixer.MixState<P>>, r: Mixer.Regs, s: Apu<Mixer.MixState<P>> ::
      r.Valid() && s.mixer == m
      && Batch(Mixer.WithMixer(c, r, step), s, ts, n).out != AudioCycles(Mixer.WithMixer(c, r, step), s, ts, n).out
  }

  /** A batch played by the emulator's mixer sounds as the one-cycle machine does, for every
      sound, clock and mixer setting, exactly if it is timely; and then all else is equal too. */
  lemma BatchExact<P(!new)>(ts: seq<TimerState>, n: nat, step: P -> (P, Mixer.Psg), m: Mixer.MixState<P>)
    requires |ts| == 4 && AllValid(ts) && n <= BATCH_LIMIT
    ensures Misplays(ts, n, step, m) <==> !Timely(ts, n)
    ensures Timely(ts, n) ==> forall c: Config<Mixer.MixState<P>>, s: Apu<Mixer.MixState<P>> ::
              Batch(c, s, ts, n) == AudioCycles(c, s, ts, n)
  {
    hide Timely, AllValid, Batch, AudioCycles, Mixer.WithMixer, Mixer.Regs.Valid;
    if Timely(ts, n) {
      forall c: Config<Mixer.MixState<P>>, s: Apu<Mixer.MixState<P>>
        ensures Batch(c, s, ts, n) == AudioCycles(c, s, ts, n)
      {
        BatchIsCycleByCycle(c, s, ts, n);
      }
    } else {
      var c, s := Untimely(ts, n, step, m);
      LoudValid();
    }
  }

  lemma Untimely<P>(ts: seq<TimerState>, n: nat, step: P -> (P, Mixer.Psg), m: Mixer.MixState<P>)
    returns (c: Config<Mixer.MixState<P>>, s: Apu<Mixer.MixState<P>>)
    requires |ts| == 4 && AllValid(ts) && n <= BATCH_LIMIT && !Timely(ts, n)
    ensures var p := Mixer.WithMixer(c, LOUD, step);
            s.mixer == m && Batch(p, s, ts, n).out != AudioCycles(p, s, ts, n).out
  {
    hide *;
    MarksRight(ts, n);
    MarksWithin(ts, n);
    OverflowsOrdered(ts, n, 0);
    OverflowsOrdered(ts, n, 1);
    c, s := Distinguish(n, Overflows(ts, n, 0), Marks(ts, n), Overflows(ts, n, 1), step, m);
    BatchIsPlaced(Mixer.WithMixer(c, LOUD, step), s, ts, n);
    CyclesArePlaced(Mixer.WithMixer(c, LOUD, step), s, ts, n);
  }

  /** A cut changes what the emulator's mixer plays. */
  ghost predicate CutHeard<P(!new)>(ts: seq<TimerState>, a: nat, b: nat, step: P -> (P, Mixer.Psg),
                                    m: Mixer.MixState<P>)
    requires |ts| == 4 && AllValid(ts)
  {
    exists c: Config<Mixer.MixState<P>>, r: Mixer.Regs, s: Apu<Mixer.MixState<P>> ::
      r.Valid() && s.mixer == m
      && Batch(Mixer.WithMixer(c, r, step), s, ts, a + b).out
      != Batch(Mixer.WithMixer(c, r, step), Batch(Mixer.WithMixer(c, r, step), s, ts, a), AfterAll(ts, a), b).out
  }

  /** Cutting a batch changes nothing that the emulator's mixer plays, for every sound, clock
      and mixer setting, exactly if the cut is clean; and then nothing else either. */
  lemma CutExact<P(!new)>(ts: seq<TimerState>, a: nat, b: nat, step: P -> (P, Mixer.Psg), m: Mixer.MixState<P>)
    requires |ts| == 4 && AllValid(ts) && a + b <= BATCH_LIMIT
    ensures CutHeard(ts, a, b, step, m) <==> !CutsClean(ts, a, b)
    ensures CutsClean(ts, a, b) ==> forall c: Config<Mixer.MixState<P>>, s: Apu<Mixer.MixState<P>> ::
              Batch(c, s, ts, a + b) == Batch(c, Batch(c, s, ts, a), AfterAll(ts, a), b)
  {
    hide CutsClean, AllValid, AfterAll, Batch, Mixer.WithMixer, Mixer.Regs.Valid;
    if CutsClean(ts, a, b) {
      forall c: Config<Mixer.MixState<P>>, s: Apu<Mixer.MixState<P>>
        ensures Batch(c, s, ts, a + b) == Batch(c, Batch(c, s, ts, a), AfterAll(ts, a), b)
      {
        BatchIndependence(c, s, ts, a, b);
      }
    } else {
      var c, s := Unclean(ts, a, b, step, m);
      LoudValid();
    }
  }

  lemma Unclean<P>(ts: seq<TimerState>, a: nat, b: nat, step: P -> (P, Mixer.Psg), m: Mixer.MixState<P>)
    returns (c: Config<Mixer.MixState<P>>, s: Apu<Mixer.MixState<P>>)
    requires |ts| == 4 && AllValid(ts) && a + b <= BATCH_LIMIT && !CutsClean(ts, a, b)
    ensures var p := Mixer.WithMixer(c, LOUD, step);
            s.mixer == m && Batch(p, s, ts, a + b).out != Batch(p, Batch(p, s, ts, a), AfterAll(ts, a), b).out
  {
    hide *;
    CutsRight(ts, a, b);
    MarksWithin(ts, a + b);
    CutMarksWithin(ts, a, b);
    OverflowsOrdered(ts, a + b, 0);
    OverflowsOrdered(ts, a + b, 1);
    c, s := Distinguish(a + b, Overflows(ts, a + b, 0), Marks(ts, a + b), CutMarks(ts, a, b), step, m);
    BatchIsPlaced(Mixer.WithMixer(c, LOUD, step), s, ts, a + b);
    CutIsPlaced(Mixer.WithMixer(c, LOUD, step), s, ts, a, b);
  }

  lemma CutMarksWithin(ts: seq<TimerState>, a: nat, b: nat)
    requires |ts| == 4 && AllValid(ts) && a + b <= BATCH_LIMIT
    ensures Ascending(CutMarks(ts, a, b)) && Within(CutMarks(ts, a, b), a + b)
  {
    hide Marks, AfterAll, AllValid;
    MarksWithin(ts, a);
    MarksWithin(AfterAll(ts, a), b);
  }

  // -------------------------------------------------------------------- concrete inputs

  const EVERY_CYCLE := TimerState(0xFFFF, 0xFFFF, Control(true, false, false, F1), 0, 0)
  const EVERY_SECOND := TimerState(0xFFFE, 0xFFFE, Control(true, false, false, F1), 0, 0)
  const TWO_TICKS_OFF := TimerState(0, 0xFFFE, Control(true, false, true, F1), 0, 0)
  const EVERY_TICK := TimerState(0xFFFF, 0xFFFF, Control(true, false, true, F1), 0, 0)

  /** Two ticks from overflowing, in batches of two; and one tick from it, counting a slower
      timer, in batches of four: both are heard at other times than they happen, and the
      first depends on where the batch is cut. */
  lemma CascadeDependsOnBatching<P(!new)>(ts: seq<TimerState>, step: P -> (P, Mixer.Psg), m: Mixer.MixState<P>)
    requires |ts| == 4 && AllValid(ts)
    ensures ts[0] == EVERY_CYCLE && ts[1] == TWO_TICKS_OFF ==> Misplays(ts, 2, step, m) && CutHeard(ts, 1, 1, step, m)
    ensures ts[0] == EVERY_SECOND && ts[1] == EVERY_TICK ==> Misplays(ts, 4, step, m)
  {
    ConcreteConditions(ts);
    assert 4 <= BATCH_LIMIT;
    hide *;
    BatchExact(ts, 2, step, m);
    CutExact(ts, 1, 1, step, m);
    BatchExact(ts, 4, step, m);
  }

  lemma ConcreteConditions(ts: seq<TimerState>)
    requires |ts| == 4 && AllValid(ts)
    ensures ts[0] == EVERY_CYCLE && ts[1] == TWO_TICKS_OFF ==> !Timely(ts, 2) && !CutsClean(ts, 1, 1)
    ensures ts[0] == EVERY_SECOND && ts[1] == EVERY_TICK ==> !Timely(ts, 4)
  {
    if ts[1] == TWO_TICKS_OFF || ts[1] == EVERY_TICK {
      if ts[0] == EVERY_CYCLE || ts[0] == EVERY_SECOND {
        assert Cascades(ts);
        CascadeTime(ts, 0);
        CascadeTime(ts, 1);
      }
    }
    hide OverflowTime;
  }
}
