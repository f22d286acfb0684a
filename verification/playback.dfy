/// What is heard: every sample of a batch shows the byte its FIFO had last popped, and which
/// byte that is follows from the timer's overflows before the sample.
module Playback {
  import opened Timers
  import opened Audio
  import opened SoundStream

  /** A mixer that emits the two latches as they are. */
  ghost predicate Passes<M(!new)>(c: Config<M>) { forall m, a, b :: c.gen(m, a, b).1 == (a, b) }

  function Heard(side: Side, pair: (int, int)): int { if side.A? then pair.0 else pair.1 }

  /** Where the end of sample window `j` after clock `x` lies. */
  function WindowEnd(x: nat, j: nat): (e: nat)
    ensures e > x
  {
    (x / 512 + 1 + j) * 512
  }

  lemma {:induction false} EmitShows<M(!new)>(c: Config<M>, s: Apu<M>, k: nat)
    requires Passes(c)
    ensures Emit(c, s, k).out == s.out + seq(k, _ => (s.latchA, s.latchB))
    decreases k
  {
    if k > 0 {
      EmitShows(c, Generate(c, s), k - 1);
      hide Emit;
      EmitOne(c, s, k);
      assert Generate(c, s).out == s.out + [(s.latchA, s.latchB)];
      assert seq(k, _ => (s.latchA, s.latchB)) == [(s.latchA, s.latchB)] + seq(k - 1, _ => (s.latchA, s.latchB));
    } else {
      assert s.out + seq(0, _ => (s.latchA, s.latchB)) == s.out;
    }
  }

  lemma EmitOne<M>(c: Config<M>, s: Apu<M>, k: nat)
    requires k > 0
    ensures Emit(c, s, k) == Emit(c, Generate(c, s), k - 1)
  {
  }

  /** Sampling on to `target`: one pair of the latches for every multiple of 512 on the way,
      and none while the sound is switched off. */
  lemma SamplesHold<M(!new)>(c: Config<M>, s: Apu<M>, target: nat)
    requires Passes(c) && s.clock <= target
    ensures var r := TickUntil(c, s, target);
            var k := if c.master then target / 512 - s.clock / 512 else 0;
            && r.out == s.out + seq(k, _ => (s.latchA, s.latchB)) && r.clock == target
            && r == s.(clock := target, mixer := r.mixer, out := r.out)
  {
    EmitShows(c, s, WindowsClosed(s.clock, target));
    EmitKeeps(c, s, WindowsClosed(s.clock, target), target);
    hide Emit;
    assert s.out + seq(0, _ => (s.latchA, s.latchB)) == s.out;
  }

  // ------------------------------------------------------------------ one run of overflows

  function When(e: Event, base: nat, n: nat): nat { base + Clamp(e.at, n) }

  /** How many events of a timer come before clock `at`. */
  function Before(evs: seq<Event>, timer: nat, base: nat, n: nat, at: nat): nat {
    if evs == [] then 0
    else (if evs[0].timer == timer && When(evs[0], base, n) < at then 1 else 0) + Before(evs[1..], timer, base, n, at)
  }

  lemma {:induction false} NoneBefore(evs: seq<Event>, timer: nat, base: nat, n: nat, at: nat)
    requires InOrder(evs) && (evs != [] ==> at <= When(evs[0], base, n))
    ensures Before(evs, timer, base, n, at) == 0
  {
    if |evs| > 1 {
      assert evs[0].at <= evs[1].at;
      NoneBefore(evs[1..], timer, base, n, at);
    }
  }

  /** The sample of window end `e`: the byte of the last pop before it, and none of those at it. */
  predicate Shows<M>(c: Config<M>, s: Apu<M>, side: Side, src: nat, pops: nat, base: nat, n: nat, evs: seq<Event>,
                     e: nat, v: int) {
    var m := Before(evs, side.Timer(c), base, n, e);
    v == if m == 0 then side.Latch(s) else Played(c.mem, src, pops + m)
  }

  ghost predicate PlaysOut<M>(c: Config<M>, s: Apu<M>, r: Apu<M>, side: Side, src: nat, pops: nat, base: nat, n: nat,
                              evs: seq<Event>) {
    && r.clock == base + n && s.clock <= r.clock
    && |r.out| == |s.out| + (r.clock / 512 - s.clock / 512) && s.out <= r.out
    && forall j: nat :: j < r.clock / 512 - s.clock / 512 ==>
         Shows(c, s, side, src, pops, base, n, evs, WindowEnd(s.clock, j), Heard(side, r.out[|s.out| + j]))
  }

  lemma NothingMore<M(!new)>(c: Config<M>, s: Apu<M>, base: nat, n: nat, side: Side, src: nat, pops: nat)
    requires c.master && Passes(c) && s.clock <= base + n
    ensures PlaysOut(c, s, TickUntil(c, s, base + n), side, src, pops, base, n, [])
  {
    SamplesHold(c, s, base + n);
    hide TickUntil, Passes, Played;
  }

  /** Sampling up to the first event, then serving it: what the rest plays, the whole plays. */
  lemma OneEvent<M(!new)>(c: Config<M>, s: Apu<M>, s2: Apu<M>, r: Apu<M>, base: nat, n: nat, evs: seq<Event>,
                          side: Side, src: nat, pops: nat, own: nat)
    requires c.master && evs != [] && InOrder(evs)
    requires var t := When(evs[0], base, n);
             && s.clock <= t == s2.clock
             && s2.out == s.out + seq(t / 512 - s.clock / 512, _ => (s.latchA, s.latchB))
    requires own == (if evs[0].timer == side.Timer(c) then 1 else 0)
    requires side.Latch(s2) == if own == 1 then Played(c.mem, src, pops + 1) else side.Latch(s)
    requires PlaysOut(c, s2, r, side, src, pops + own, base, n, evs[1..])
    ensures PlaysOut(c, s, r, side, src, pops, base, n, evs)
  {
    var t, w := When(evs[0], base, n), When(evs[0], base, n) / 512 - s.clock / 512;
    hide Played, InOrder;
    forall j: nat | j < r.clock / 512 - s.clock / 512
      ensures Shows(c, s, side, src, pops, base, n, evs, WindowEnd(s.clock, j), Heard(side, r.out[|s.out| + j]))
    {
      var e := WindowEnd(s.clock, j);
      if j < w {
        assert e <= t;
        NoneBefore(evs, side.Timer(c), base, n, e);
        assert r.out[|s.out| + j] == s2.out[|s.out| + j] == (s.latchA, s.latchB);
      } else {
        assert e > t && e == WindowEnd(s2.clock, j - w);
        assert r.out[|s.out| + j] == r.out[|s2.out| + (j - w)];
        assert Shows(c, s2, side, src, pops + own, base, n, evs[1..], e, Heard(side, r.out[|s2.out| + (j - w)]));
      }
    }
  }

  lemma TailInOrder(evs: seq<Event>, base: nat, n: nat)
    requires evs != [] && InOrder(evs)
    ensures InOrder(evs[1..]) && (|evs| > 1 ==> When(evs[0], base, n) <= When(evs[1], base, n))
  {
    if |evs| > 1 { assert evs[0].at <= evs[1].at; }
  }

  /** Over any overflows in order, every sample shows the byte of the last pop before it. */
  lemma {:induction false} RunPlays<M(!new)>(c: Config<M>, s: Apu<M>, base: nat, n: nat, evs: seq<Event>,
                                             side: Side, k: nat, src: nat, pops: nat)
    requires c.master && Passes(c) && src < U32_LIMIT && Streaming(c, s, side, k, src, pops)
    requires InOrder(evs) && s.clock <= (if evs == [] then base + n else When(evs[0], base, n))
    ensures PlaysOut(c, s, TickUntil(c, Run(c, s, base, n, evs), base + n), side, src, pops, base, n, evs)
    decreases evs
  {
    hide Streaming, Serve, TickUntil, Played, Run, InOrder, PlaysOut, Passes;
    if evs == [] {
      RunNothing(c, s, base, n);
      NothingMore(c, s, base, n, side, src, pops);
    } else {
      var t := When(evs[0], base, n);
      var s1 := TickUntil(c, s, t);
      SamplingStreams(c, s, side, k, src, pops, t);
      SamplesHold(c, s, t);
      var s2 := Serve(c, s1, evs[0].timer);
      ServeKeeps(c, s1, evs[0].timer);
      RunFirst(c, s, base, n, evs);
      TailInOrder(evs, base, n);
      var own := if evs[0].timer == side.Timer(c) then 1 else 0;
      if own == 1 {
        PopStreams(c, s1, side, k, src, pops);
      } else {
        OtherPopStreams(c, s1, side, k, src, pops, evs[0].timer);
      }
      RunPlays(c, s2, base, n, evs[1..], side, k, src, pops + own);
      OneEvent(c, s, s2, TickUntil(c, Run(c, s, base, n, evs), base + n), base, n, evs, side, src, pops, own);
    }
  }

  lemma RunNothing<M>(c: Config<M>, s: Apu<M>, base: nat, n: nat)
    ensures Run(c, s, base, n, []) == s
  {
  }

  lemma RunFirst<M>(c: Config<M>, s: Apu<M>, base: nat, n: nat, evs: seq<Event>)
    requires evs != []
    ensures Run(c, s, base, n, evs)
         == Run(c, Serve(c, TickUntil(c, s, When(evs[0], base, n)), evs[0].timer), base, n, evs[1..])
  {
    hide Serve, TickUntil;
  }

  // ------------------------------------------------------------------ one batch

  /** How many of the numbers lie below `d`. */
  function Below(xs: seq<nat>, d: nat): nat {
    if xs == [] then 0 else (if xs[0] < d then 1 else 0) + Below(xs[1..], d)
  }

  lemma {:induction false} BeforeIsBelow(evs: seq<Event>, timer: nat, base: nat, n: nat, d: nat)
    requires forall i :: 0 <= i < |Of(evs, timer)| ==> Of(evs, timer)[i] <= n
    ensures Before(evs, timer, base, n, base + d) == Below(Of(evs, timer), d)
  {
    if evs != [] {
      var rest := Of(evs[1..], timer);
      if evs[0].timer == timer {
        assert Of(evs, timer) == [evs[0].at] + rest && Of(evs, timer)[0] == evs[0].at;
        assert Of(evs, timer)[1..] == rest;
        assert forall i :: 0 <= i < |rest| ==> rest[i] == Of(evs, timer)[i + 1];
      } else {
        assert Of(evs, timer) == rest;
      }
      BeforeIsBelow(evs[1..], timer, base, n, d);
    }
  }

  /** The latch `m` pops further on: what it was, then 0 for the pop of the empty FIFO, then the
      bytes of the source in order. */
  predicate Sounds<M>(c: Config<M>, s: Apu<M>, side: Side, src: nat, pops: nat, m: nat, v: int) {
    v == if m == 0 then side.Latch(s)
         else if pops + m == 1 then 0
         else SourceByte(c.mem, src, pops + m - 2)
  }

  /** Every sample of a batch, for a FIFO that one DMA channel feeds from `src`: at window end
      `e` it shows the byte of pop number `pops + m`, where `m` is how often the FIFO's timer
      has overflowed in the batch before `e` by the one-cycle machine. */
  lemma BatchPlays<M(!new)>(c: Config<M>, s: Apu<M>, ts: seq<TimerState>, n: nat, side: Side, k: nat, src: nat,
                            pops: nat)
    requires c.Valid() && c.master && Passes(c) && |ts| == 4 && AllValid(ts) && n <= BATCH_LIMIT
    requires src < U32_LIMIT && Streaming(c, s, side, k, src, pops)
    requires side.Timer(c) == 1 ==> !Cascades(ts)
    ensures var r := Batch(c, s, ts, n);
            && r.clock == s.clock + n && s.out <= r.out
            && |r.out| == |s.out| + ((s.clock + n) / 512 - s.clock / 512)
            && forall j: nat :: j < (s.clock + n) / 512 - s.clock / 512 ==>
                 Sounds(c, s, side, src, pops, Below(Overflows(ts, n, side.Timer(c)), WindowEnd(s.clock, j) - s.clock),
                        Heard(side, r.out[|s.out| + j]))
  {
    var evs, r := Events(ts, n), Batch(c, s, ts, n);
    assert side.Timer(c) <= 1;
    hide *;
    BatchRuns(c, s, ts, n, side, k, src, pops);
    PlaysOutIs(c, s, r, side, src, pops, s.clock, n, evs);
    forall j: nat | j < (s.clock + n) / 512 - s.clock / 512
      ensures Sounds(c, s, side, src, pops, Below(Overflows(ts, n, side.Timer(c)), WindowEnd(s.clock, j) - s.clock),
                     Heard(side, r.out[|s.out| + j]))
    {
      SampleSounds(c, s, r, ts, side, src, pops, n, j);
    }
  }

  lemma BatchRuns<M(!new)>(c: Config<M>, s: Apu<M>, ts: seq<TimerState>, n: nat, side: Side, k: nat, src: nat,
                           pops: nat)
    requires c.Valid() && c.master && Passes(c) && |ts| == 4 && AllValid(ts) && n <= BATCH_LIMIT
    requires src < U32_LIMIT && Streaming(c, s, side, k, src, pops)
    ensures PlaysOut(c, s, Batch(c, s, ts, n), side, src, pops, s.clock, n, Events(ts, n))
  {
    hide *;
    EventsOrdered(ts, n);
    BatchIs(c, s, ts, n);
    RunPlays(c, s, s.clock, n, Events(ts, n), side, k, src, pops);
  }

  lemma SampleSounds<M>(c: Config<M>, s: Apu<M>, r: Apu<M>, ts: seq<TimerState>, side: Side, src: nat, pops: nat,
                        n: nat, j: nat)
    requires |ts| == 4 && AllValid(ts) && n <= BATCH_LIMIT && side.Timer(c) <= 1
    requires side.Timer(c) == 1 ==> !Cascades(ts)
    requires PlaysOut(c, s, r, side, src, pops, s.clock, n, Events(ts, n)) && j < r.clock / 512 - s.clock / 512
    ensures |s.out| + j < |r.out|
    ensures Sounds(c, s, side, src, pops, Below(Overflows(ts, n, side.Timer(c)), WindowEnd(s.clock, j) - s.clock),
                   Heard(side, r.out[|s.out| + j]))
  {
    var evs, at := Events(ts, n), WindowEnd(s.clock, j);
    PlaysOutAt(c, s, r, side, src, pops, s.clock, n, evs, j);
    hide *;
    EventTimes(ts, n, side.Timer(c));
    BeforeIsBelow(evs, side.Timer(c), s.clock, n, at - s.clock);
    ShownSounds(c, s, side, src, pops, s.clock, n, evs, at, Heard(side, r.out[|s.out| + j]));
  }

  lemma BatchIs<M>(c: Config<M>, s: Apu<M>, ts: seq<TimerState>, n: nat)
    requires |ts| == 4 && AllValid(ts)
    ensures Batch(c, s, ts, n) == TickUntil(c, Run(c, s, s.clock, n, Events(ts, n)), s.clock + n)
    ensures Events(ts, n) == [] || s.clock <= When(Events(ts, n)[0], s.clock, n)
  {
    hide Events, Run, TickUntil, AllValid;
  }

  lemma PlaysOutIs<M>(c: Config<M>, s: Apu<M>, r: Apu<M>, side: Side, src: nat, pops: nat, base: nat, n: nat,
                      evs: seq<Event>)
    requires PlaysOut(c, s, r, side, src, pops, base, n, evs)
    ensures r.clock == base + n && s.clock <= r.clock && |r.out| == |s.out| + (r.clock / 512 - s.clock / 512)
            && s.out <= r.out
  {
    hide Shows, WindowEnd, Heard;
  }

  lemma PlaysOutAt<M>(c: Config<M>, s: Apu<M>, r: Apu<M>, side: Side, src: nat, pops: nat, base: nat, n: nat,
                      evs: seq<Event>, j: nat)
    requires PlaysOut(c, s, r, side, src, pops, base, n, evs) && j < r.clock / 512 - s.clock / 512
    ensures |s.out| + j < |r.out|
    ensures Shows(c, s, side, src, pops, base, n, evs, WindowEnd(s.clock, j), Heard(side, r.out[|s.out| + j]))
  {
    hide Shows, WindowEnd, Heard;
  }

  lemma ShownSounds<M>(c: Config<M>, s: Apu<M>, side: Side, src: nat, pops: nat, base: nat, n: nat, evs: seq<Event>,
                       e: nat, v: int)
    requires Shows(c, s, side, src, pops, base, n, evs, e, v)
    ensures Sounds(c, s, side, src, pops, Before(evs, side.Timer(c), base, n, e), v)
  {
    hide Before, SourceByte;
  }

  lemma EventsOrdered(ts: seq<TimerState>, n: nat)
    requires |ts| == 4 && AllValid(ts)
    ensures InOrder(Events(ts, n))
    ensures Of(Events(ts, n), 0) == Stamps(After(ts, n, 0).ov, ts[0].Period())
    ensures Of(Events(ts, n), 1) == Stamps(After(ts, n, 1).ov, ts[1].Period())
  {
    var ov0, ov1 := After(ts, n, 0).ov, After(ts, n, 1).ov;
    hide After, Stamps;
    StampsAscend(ov0, ts[0].Period());
    StampsAscend(ov1, ts[1].Period());
    MergeDelivers(Stamps(ov0, ts[0].Period()), Stamps(ov1, ts[1].Period()));
  }

  lemma EventTimes(ts: seq<TimerState>, n: nat, timer: nat)
    requires |ts| == 4 && AllValid(ts) && n <= BATCH_LIMIT && timer <= 1 && (timer == 1 ==> !Cascades(ts))
    ensures Of(Events(ts, n), timer) == Overflows(ts, n, timer)
    ensures forall i :: 0 <= i < |Overflows(ts, n, timer)| ==> Overflows(ts, n, timer)[i] <= n
  {
    EventsOrdered(ts, n);
    hide After, Stamps, Overflows, Events, Of;
    StampsExact(ts, n, timer);
  }
}
