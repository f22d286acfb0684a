/// The bus as the audio path sees it: timers, FIFOs, sound DMA and sample
/// clock, updated in place by one `Tick`.
module Bus {
  import opened Timers
  import opened SoundFifo
  import opened Audio

  /** Interrupt flags raised by the timers in one batch: bits 3 to 6 of IF. */
  function Raised(ts: seq<TimerState>, cycles: nat): set<nat>
    requires |ts| == 4 && AllValid(ts)
  {
    set i | 0 <= i < 4 && After(ts, cycles, i).ov.count > 0 && ts[i].control.irq :: 3 + i
  }

  /** The flags of a batch, by the one-cycle machine: bit `3 + i` exactly if timer `i` may
      interrupt and overflows. */
  lemma FlagsRaised(ts: seq<TimerState>, cycles: nat, f: nat)
    requires |ts| == 4 && AllValid(ts)
    ensures f in Raised(ts, cycles) <==>
            3 <= f <= 6 && ts[f - 3].control.irq && Overflows(ts, cycles, f - 3) != []
  {
    hide After, Overflows;
    if 3 <= f <= 6 {
      OverflowTimes(ts, cycles, f - 3);
    }
  }

  lemma AllFlagsRaised(ts: seq<TimerState>, cycles: nat)
    requires |ts| == 4 && AllValid(ts)
    ensures forall f: nat :: f in Raised(ts, cycles) <==>
              3 <= f <= 6 && ts[f - 3].control.irq && Overflows(ts, cycles, f - 3) != []
  {
    forall f: nat
      ensures f in Raised(ts, cycles) <==> 3 <= f <= 6 && ts[f - 3].control.irq && Overflows(ts, cycles, f - 3) != []
    {
      FlagsRaised(ts, cycles, f);
    }
  }

  /** From the registers: a started timer that is not cascaded raises its flag in a batch
      exactly if bit 6 is set and its counter runs out in it. */
  lemma FlagFromRegister(ts: seq<TimerState>, cycles: nat, i: nat, val: nat)
    requires |ts| == 4 && AllValid(ts) && i < 4 && ts[i].control == FromRegister(val)
    requires val / 0x80 % 2 == 1 && val / 4 % 2 == 0
    ensures 3 + i in Raised(ts, cycles) <==>
              && val / 0x40 % 2 == 1
              && ts[i].delay + (0x1_0000 - ts[i].counter) * [1, 64, 256, 1024][val % 4] - ts[i].prescaler <= cycles
  {
    hide Raised, Overflows, AllValid, TimerState.Valid;
    FlagsRaised(ts, cycles, 3 + i);
    FirstDue(ts, cycles, i, val);
  }

  /** The first overflow, by the registers. */
  lemma FirstDue(ts: seq<TimerState>, cycles: nat, i: nat, val: nat)
    requires |ts| == 4 && AllValid(ts) && i < 4 && ts[i].control == FromRegister(val)
    requires val / 0x80 % 2 == 1 && val / 4 % 2 == 0
    ensures Overflows(ts, cycles, i) != [] <==>
              ts[i].delay + (0x1_0000 - ts[i].counter) * [1, 64, 256, 1024][val % 4] - ts[i].prescaler <= cycles
  {
    hide Overflows, AllValid, FromRegister;
    RegistersDecide(ts, cycles, i, 0, val);
  }

  /** Interrupt flags do not depend on the batching either, cascades included. */
  lemma RaisedCut(ts: seq<TimerState>, a: nat, b: nat)
    requires |ts| == 4 && AllValid(ts)
    ensures Raised(ts, a + b) == Raised(ts, a) + Raised(AfterAll(ts, a), b)
  {
    hide After;
    var mid := AfterAll(ts, a);
    forall i | 0 <= i < 4
      ensures After(ts, a + b, i).ov.count == After(ts, a, i).ov.count + After(mid, b, i).ov.count
      ensures mid[i].control == ts[i].control
    {
      AfterSplit(ts, a, b, i);
    }
    forall f
      ensures f in Raised(ts, a + b) <==> f in Raised(ts, a) + Raised(mid, b)
    {
      var i := f - 3;
      if 0 <= i < 4 {
        assert f in Raised(ts, a + b) <==> After(ts, a + b, i).ov.count > 0 && ts[i].control.irq;
        assert f in Raised(ts, a) <==> After(ts, a, i).ov.count > 0 && ts[i].control.irq;
        assert f in Raised(mid, b) <==> After(mid, b, i).ov.count > 0 && mid[i].control.irq;
      }
    }
  }

  lemma BatchParts<M>(c: Config<M>, s: Apu<M>, ts: seq<TimerState>, cycles: nat)
    requires |ts| == 4 && AllValid(ts) && ts[0].reload < WRAP && ts[1].reload < WRAP
    ensures var evs := Merge(Stamps(After(ts, cycles, 0).ov, ts[0].Period()),
                             Stamps(After(ts, cycles, 1).ov, ts[1].Period()));
            Audio.Batch(c, s, ts, cycles) == Audio.TickUntil(c, Audio.Run(c, s, s.clock, cycles, evs), s.clock + cycles)
  {
    hide After, Stamps, Merge, Audio.Run, Audio.TickUntil;
  }

  lemma KeptByTick(ts: seq<TimerState>, after: seq<TimerState>, cycles: nat)
    requires |ts| == 4 && AllValid(ts) && after == AfterAll(ts, cycles)
    ensures forall i :: 0 <= i < 4 ==> after[i].control == ts[i].control && after[i].reload == ts[i].reload < WRAP
    ensures after[0].Period() == ts[0].Period() && after[1].Period() == ts[1].Period()
  {
    hide After;
  }

  class Bus<M> {
    const timers: TimerBank
    const fifoA: Fifo
    const fifoB: Fifo
    const dma: array<DmaChannel>
    var config: Config<M>
    var latchA: int
    var latchB: int
    var sampleClock: nat
    var mixer: M
    var buffer: seq<(int, int)>
    var irqFlags: set<nat>

    ghost predicate Valid()
      reads this, timers, timers.t, fifoA, fifoB
    {
      && timers.Valid() && fifoA.Valid() && fifoB.Valid()
      && fifoA != fifoB && fifoA.data != fifoB.data
      && dma.Length == 4
      && config.Valid()
    }

    ghost function State(): Apu<M>
      requires Valid()
      reads this, timers, timers.t, fifoA, fifoA.data, fifoB, fifoB.data, dma
    {
      Apu(sampleClock, fifoA.Contents(), fifoB.Contents(), latchA, latchB, dma[..], mixer, buffer)
    }

    constructor (config: Config<M>, mixer: M)
      requires config.Valid()
      ensures Valid() && this.config == config && irqFlags == {}
      ensures State() == Apu(0, [], [], 0, 0, seq(4, _ => DmaChannel(false, Immediate, 0, 0)), mixer, [])
    {
      timers := new TimerBank();
      fifoA := new Fifo();
      fifoB := new Fifo();
      dma := new DmaChannel[4](_ => DmaChannel(false, Immediate, 0, 0));
      this.config, this.mixer := config, mixer;
      latchA, latchB, sampleClock, buffer, irqFlags := 0, 0, 0, [], {};
    }

    method GenerateSample()
      requires Valid()
      modifies this`mixer, this`buffer
      ensures Valid() && State() == Audio.Generate(config, old(State()))
    {
      var (m, pair) := config.gen(mixer, latchA, latchB);
      mixer := m;
      buffer := buffer + [pair];
    }

    /** Emit one sample for every 512-cycle window that closes by `target`. */
    method TickUntil(target: nat)
      requires Valid()
      modifies this`sampleClock, this`mixer, this`buffer
      ensures Valid() && State() == Audio.TickUntil(config, old(State()), target)
    {
      ghost var s := State();
      if !config.master {
        sampleClock := target;
        return;
      }
      var end := (sampleClock / CYCLES_PER_SAMPLE + 1) * CYCLES_PER_SAMPLE;
      ghost var k := 0;
      while end <= target
        invariant Valid() && State() == Audio.Emit(config, s, k)
        invariant end == (s.clock / CYCLES_PER_SAMPLE + 1 + k) * CYCLES_PER_SAMPLE
        invariant k == 0 || end <= target + CYCLES_PER_SAMPLE
      {
        EmitSplit(config, s, k, 1);
        assert Audio.Emit(config, State(), 1) == Audio.Emit(config, Audio.Generate(config, State()), 0);
        GenerateSample();
        end := end + CYCLES_PER_SAMPLE;
        k := k + 1;
      }
      assert k == WindowsClosed(s.clock, target);
      sampleClock := target;
    }

    method OnTimerOverflow(timer: nat)
      requires Valid()
      modifies this`latchA, this`latchB, fifoA, fifoB
      ensures Valid() && State() == Audio.Pop(config, old(State()), timer)
    {
      if timer == config.timerA {
        latchA := fifoA.Read();
      }
      if timer == config.timerB {
        latchB := fifoB.Read();
      }
    }

    /** Read four words at `src` and store them, two bytes at a time. */
    method Transfer(fifo: Fifo, src: nat)
      requires fifo.Valid()
      modifies fifo, fifo.data
      ensures fifo.Valid() && fifo.Contents() == PushAll(old(fifo.Contents()), Burst(config.mem, src))
    {
      ghost var q, bytes := fifo.Contents(), Burst(config.mem, src);
      hide PushAll, Burst;
      for i := 0 to 4
        invariant fifo.Valid() && fifo.Contents() == PushAll(q, bytes[..4 * i])
      {
        WriteWord(fifo, src, i);
        PushAllConcat(q, bytes[..4 * i], bytes[4 * i..4 * i + 4]);
        assert bytes[..4 * i] + bytes[4 * i..4 * i + 4] == bytes[..4 * (i + 1)];
      }
      assert bytes[..16] == bytes;
    }

    /** Word `i` of the burst: read as two halfwords, stored as two byte pairs. */
    method WriteWord(fifo: Fifo, src: nat, i: nat)
      requires fifo.Valid() && i < 4
      modifies fifo, fifo.data
      ensures fifo.Valid()
      ensures fifo.Contents() == PushAll(old(fifo.Contents()), Burst(config.mem, src)[4 * i..4 * i + 4])
    {
      ghost var q, burst := fifo.Contents(), Burst(config.mem, src);
      ghost var lo, hi := burst[4 * i..4 * i + 2], burst[4 * i + 2..4 * i + 4];
      assert lo + hi == Burst(config.mem, src)[4 * i..4 * i + 4];
      hide *;
      var addr := Wrap(src + 4 * i);
      WriteHalfword(fifo, addr, src, 4 * i);
      HalfwordStep(src, 4 * i);
      WriteHalfword(fifo, Wrap(addr + 2), src, 4 * i + 2);
      PushAllConcat(q, lo, hi);
    }

    method WriteHalfword(fifo: Fifo, addr: nat, ghost src: nat, ghost at: nat)
      requires fifo.Valid() && at <= 14 && at % 2 == 0 && addr == Wrap(src + at)
      modifies fifo, fifo.data
      ensures fifo.Valid()
      ensures fifo.Contents() == PushAll(old(fifo.Contents()), Burst(config.mem, src)[at..at + 2])
    {
      var even := addr / 2 * 2;
      HalfwordAddress(src, at);
      assert Burst(config.mem, src)[at..at + 2] == [Signed(config.mem(even)), Signed(config.mem(even + 1))];
      fifo.Write(config.mem(even), config.mem(even + 1));
    }

    method CheckSoundFifoDma(timer: nat)
      requires Valid()
      modifies fifoA, fifoA.data, fifoB, fifoB.data, dma
      ensures Valid()
      ensures State() == Audio.Refill(config, Audio.Refill(config, old(State()), 1, timer), 2, timer)
    {
      ghost var s := State();
      for k := 1 to 3
        invariant Valid()
        invariant k == 1 ==> State() == s
        invariant k == 2 ==> State() == Audio.Refill(config, s, 1, timer)
        invariant k == 3 ==> State() == Audio.Refill(config, Audio.Refill(config, s, 1, timer), 2, timer)
      {
        ServeChannel(k, timer);
      }
    }

    method ServeChannel(k: nat, timer: nat)
      requires Valid() && 1 <= k <= 2
      modifies fifoA, fifoA.data, fifoB, fifoB.data, dma
      ensures Valid() && State() == Audio.Refill(config, old(State()), k, timer)
    {
      hide PushAll, Burst;
      var ch := dma[k];
      if ch.enabled && ch.timing == Special {
        if ch.dst == FIFO_A && config.timerA == timer && fifoA.len <= 16 {
          Transfer(fifoA, ch.src);
          dma[k] := Advanced(ch);
        } else if ch.dst == FIFO_B && config.timerB == timer && fifoB.len <= 16 {
          Transfer(fifoB, ch.src);
          dma[k] := Advanced(ch);
        }
      }
    }

    /** One overflow at clock `at`: samples first, then the pop and the refill. */
    method ServeOverflow(at: nat, timer: nat)
      requires Valid()
      modifies this`sampleClock, this`mixer, this`buffer, this`latchA, this`latchB
      modifies fifoA, fifoA.data, fifoB, fifoB.data, dma
      ensures Valid()
      ensures State() == Audio.Serve(config, Audio.TickUntil(config, old(State()), at), timer)
    {
      hide Audio.TickUntil, Audio.Refill, Audio.Pop;
      TickUntil(at);
      OnTimerOverflow(timer);
      if fifoA.len <= 16 || fifoB.len <= 16 {
        CheckSoundFifoDma(timer);
      }
    }

    /** Advance the timers by a batch and place every overflow among the samples. */
    method Tick(cycles: nat)
      requires Valid() && cycles <= BATCH_LIMIT
      modifies this, timers.t, fifoA, fifoA.data, fifoB, fifoB.data, dma
      ensures Valid() && config == old(config)
      ensures timers.t[..] == AfterAll(old(timers.t[..]), cycles)
      ensures irqFlags == old(irqFlags) + Raised(old(timers.t[..]), cycles)
      ensures forall f: nat :: f in irqFlags <==>
                f in old(irqFlags)
                || (3 <= f <= 6 && old(timers.t[..])[f - 3].control.irq
                    && Overflows(old(timers.t[..]), cycles, f - 3) != [])
      ensures State() == Audio.Batch(config, old(State()), old(timers.t[..]), cycles)
    {
      ghost var ts := timers.t[..];
      assert AllValid(ts);
      hide *;
      var ov := AdvanceTimers(cycles);
      Sound(ov, timers.t[0].Period(), timers.t[1].Period(), cycles);
      BatchParts(config, old(State()), ts, cycles);
      AllFlagsRaised(ts, cycles);
    }

    method AdvanceTimers(cycles: nat) returns (ov: array<TimerOverflow>)
      requires Valid() && cycles <= BATCH_LIMIT
      modifies this`irqFlags, timers.t
      ensures Valid() && State() == old(State())
      ensures fresh(ov) && ov.Length == 4
      ensures timers.t[..] == AfterAll(old(timers.t[..]), cycles)
      ensures irqFlags == old(irqFlags) + Raised(old(timers.t[..]), cycles)
      ensures ov[0] == After(old(timers.t[..]), cycles, 0).ov && ov[1] == After(old(timers.t[..]), cycles, 1).ov
      ensures timers.t[0].reload == old(timers.t[0].reload) < WRAP
              && timers.t[1].reload == old(timers.t[1].reload) < WRAP
      ensures timers.t[0].Period() == old(timers.t[0].Period()) && timers.t[1].Period() == old(timers.t[1].Period())
    {
      ghost var ts := timers.t[..];
      assert AllValid(ts) && forall i :: 0 <= i < 4 ==> ts[i] == timers.t[i] && ts[i].Valid();
      hide After, AfterAll, Raised, AllValid, TimerState.Period;
      ov := timers.Tick(cycles);
      KeptByTick(ts, timers.t[..], cycles);
      assert forall i :: 0 <= i < 4 ==> timers.t[..][i] == timers.t[i];
      RaiseTimerIrqs(ov, ts, cycles);
    }

    /** The APU's share of the batch, from the overflows found. */
    method Sound(ov: array<TimerOverflow>, period0: nat, period1: nat, cycles: nat)
      requires Valid() && ov.Length == 4
      modifies this`sampleClock, this`mixer, this`buffer, this`latchA, this`latchB
      modifies fifoA, fifoA.data, fifoB, fifoB.data, dma
      ensures Valid()
      ensures var s, evs := old(State()), Merge(Stamps(ov[0], period0), Stamps(ov[1], period1));
              State() == Audio.TickUntil(config, Audio.Run(config, s, s.clock, cycles, evs), s.clock + cycles)
    {
      assert State().clock == sampleClock;
      hide *;
      var base := sampleClock;
      MergeAndServe(ov[0], ov[1], period0, period1, base, cycles);
      LateOverflows(ov);
      TickUntil(base + cycles);
    }

    method RaiseTimerIrqs(ov: array<TimerOverflow>, ghost ts: seq<TimerState>, ghost cycles: nat)
      requires timers.Valid() && ov.Length == 4 && |ts| == 4 && AllValid(ts)
      requires forall i :: 0 <= i < 4 ==> ov[i] == After(ts, cycles, i).ov
      requires forall i :: 0 <= i < 4 ==> timers.t[i].control == ts[i].control
      modifies this`irqFlags
      ensures irqFlags == old(irqFlags) + Raised(ts, cycles)
    {
      hide After;
      for i := 0 to 4
        invariant irqFlags == old(irqFlags) +
            set j | 0 <= j < i && After(ts, cycles, j).ov.count > 0 && ts[j].control.irq :: 3 + j
      {
        if ov[i].count > 0 && timers.t[i].control.irq {
          irqFlags := irqFlags + {3 + i};
        }
      }
    }

    /** Timers 2 and 3 never clock a FIFO, so their overflows change nothing here. */
    method LateOverflows(ov: array<TimerOverflow>)
      requires Valid() && ov.Length == 4
      modifies this`latchA, this`latchB, fifoA, fifoB
      ensures Valid() && State() == old(State())
    {
      for i := 2 to 4
        invariant Valid() && State() == old(State())
      {
        if ov[i].count > 0 {
          OnTimerOverflow(i);
        }
      }
    }

    method MergeAndServe(ov0: TimerOverflow, ov1: TimerOverflow, period0: nat, period1: nat, base: nat, cycles: nat)
      requires Valid()
      modifies this`sampleClock, this`mixer, this`buffer, this`latchA, this`latchB
      modifies fifoA, fifoA.data, fifoB, fifoB.data, dma
      ensures Valid()
      ensures State() == Audio.Run(config, old(State()), base, cycles,
                                   Merge(Stamps(ov0, period0), Stamps(ov1, period1)))
    {
      hide *;
      ghost var s, evs := State(), Merge(Stamps(ov0, period0), Stamps(ov1, period1));
      var k0, k1 := 0, 0;
      AllPending(ov0, ov1, period0, period1);
      while k0 < ov0.count || k1 < ov1.count
        invariant k0 <= ov0.count && k1 <= ov1.count && Valid()
        invariant Audio.Run(config, State(), base, cycles, Pending(ov0, ov1, period0, period1, k0, k1))
               == Audio.Run(config, s, base, cycles, evs)
        decreases ov0.count - k0 + ov1.count - k1
      {
        k0, k1 := ServeNext(ov0, ov1, period0, period1, k0, k1, base, cycles);
      }
      NothingPending(config, State(), base, cycles, ov0, ov1, period0, period1);
    }

    /** The body of the merge loop: serve whichever stream is due first. */
    method ServeNext(ov0: TimerOverflow, ov1: TimerOverflow, period0: nat, period1: nat,
                     k0: nat, k1: nat, base: nat, cycles: nat) returns (n0: nat, n1: nat)
      requires Valid() && k0 <= ov0.count && k1 <= ov1.count && (k0 < ov0.count || k1 < ov1.count)
      modifies this`sampleClock, this`mixer, this`buffer, this`latchA, this`latchB
      modifies fifoA, fifoA.data, fifoB, fifoB.data, dma
      ensures Valid() && k0 <= n0 <= ov0.count && k1 <= n1 <= ov1.count && n0 + n1 == k0 + k1 + 1
      ensures Audio.Run(config, State(), base, cycles, Pending(ov0, ov1, period0, period1, n0, n1))
           == Audio.Run(config, old(State()), base, cycles, Pending(ov0, ov1, period0, period1, k0, k1))
    {
      hide *;
      PendingStep(config, State(), base, cycles, ov0, ov1, period0, period1, k0, k1);
      n0, n1 := k0, k1;
      if k0 < ov0.count && (k1 == ov1.count || Stamp(ov0, period0, k0) <= Stamp(ov1, period1, k1)) {
        n0 := k0 + 1;
        ServeOverflow(base + Clamp(Stamp(ov0, period0, k0), cycles), 0);
      } else {
        n1 := k1 + 1;
        ServeOverflow(base + Clamp(Stamp(ov1, period1, k1), cycles), 1);
      }
    }
  }

  /** The overflows still to be served after `k0` of timer 0 and `k1` of timer 1. */
  function Pending(ov0: TimerOverflow, ov1: TimerOverflow, period0: nat, period1: nat, k0: nat, k1: nat): seq<Event>
    requires k0 <= ov0.count && k1 <= ov1.count
  {
    Merge(Stamps(ov0, period0)[k0..], Stamps(ov1, period1)[k1..])
  }

  lemma StampsLength(ov: TimerOverflow, period: nat)
    ensures |Stamps(ov, period)| == ov.count && Stamps(ov, period)[0..] == Stamps(ov, period)
    ensures forall k :: 0 <= k < ov.count ==> Stamps(ov, period)[k] == Stamp(ov, period, k)
  {
    hide Stamp;
  }

  lemma AllPending(ov0: TimerOverflow, ov1: TimerOverflow, period0: nat, period1: nat)
    ensures Pending(ov0, ov1, period0, period1, 0, 0) == Merge(Stamps(ov0, period0), Stamps(ov1, period1))
  {
    StampsLength(ov0, period0);
    StampsLength(ov1, period1);
    hide Stamps;
  }

  lemma NothingPending<M>(c: Config<M>, s: Apu<M>, base: nat, cycles: nat,
                          ov0: TimerOverflow, ov1: TimerOverflow, period0: nat, period1: nat)
    ensures Audio.Run(c, s, base, cycles, Pending(ov0, ov1, period0, period1, ov0.count, ov1.count)) == s
  {
    StampsLength(ov0, period0);
    StampsLength(ov1, period1);
    hide Stamps;
  }

  lemma PendingStep<M>(c: Config<M>, s: Apu<M>, base: nat, cycles: nat, ov0: TimerOverflow, ov1: TimerOverflow,
                       period0: nat, period1: nat, k0: nat, k1: nat)
    requires k0 <= ov0.count && k1 <= ov1.count && (k0 < ov0.count || k1 < ov1.count)
    ensures var a0, a1 := base + Clamp(Stamp(ov0, period0, k0), cycles), base + Clamp(Stamp(ov1, period1, k1), cycles);
            Audio.Run(c, s, base, cycles, Pending(ov0, ov1, period0, period1, k0, k1)) ==
            if k0 < ov0.count && (k1 == ov1.count || Stamp(ov0, period0, k0) <= Stamp(ov1, period1, k1)) then
              Audio.Run(c, Audio.Serve(c, Audio.TickUntil(c, s, a0), 0), base, cycles,
                        Pending(ov0, ov1, period0, period1, k0 + 1, k1))
            else
              Audio.Run(c, Audio.Serve(c, Audio.TickUntil(c, s, a1), 1), base, cycles,
                        Pending(ov0, ov1, period0, period1, k0, k1 + 1))
  {
    StampsLength(ov0, period0);
    StampsLength(ov1, period1);
    hide Stamps, Stamp, Merge, Audio.Run, Audio.Serve, Audio.TickUntil, Clamp;
    MergeStep(Stamps(ov0, period0), Stamps(ov1, period1), k0, k1);
    RunStep(c, s, base, cycles, Pending(ov0, ov1, period0, period1, k0, k1));
  }

  lemma RunStep<M>(c: Config<M>, s: Apu<M>, base: nat, n: nat, evs: seq<Event>)
    requires evs != []
    ensures Audio.Run(c, s, base, n, evs) ==
            Audio.Run(c, Audio.Serve(c, Audio.TickUntil(c, s, base + Clamp(evs[0].at, n)), evs[0].timer), base, n,
                      evs[1..])
  {
    hide Audio.Serve, Audio.TickUntil, Clamp;
  }

  /** The earlier of the two stream heads comes first; timer 0 wins a tie. */
  lemma MergeStep(xs: seq<nat>, ys: seq<nat>, i: nat, j: nat)
    requires i <= |xs| && j <= |ys| && (i < |xs| || j < |ys|)
    ensures Merge(xs[i..], ys[j..]) ==
            if i < |xs| && (j == |ys| || xs[i] <= ys[j]) then [Event(xs[i], 0)] + Merge(xs[i + 1..], ys[j..])
            else [Event(ys[j], 1)] + Merge(xs[i..], ys[j + 1..])
  {
    if i < |xs| {
      assert xs[i..][1..] == xs[i + 1..];
    }
    if j < |ys| {
      assert ys[j..][1..] == ys[j + 1..];
    }
  }

  lemma HalfwordStep(src: nat, at: nat)
    ensures Wrap(Wrap(src + at) + 2) == Wrap(src + (at + 2))
  {
  }

  lemma HalfwordAddress(src: nat, at: nat)
    requires at % 2 == 0
    ensures Wrap(src + at) / 2 * 2 == Wrap(src / 2 * 2 + at)
    ensures Wrap(src + at) / 2 * 2 + 1 == Wrap(src / 2 * 2 + (at + 1))
  {
    var w := (src + at) / U32_LIMIT;
    assert (src + at) % U32_LIMIT == src + at - w * U32_LIMIT;
  }
}
