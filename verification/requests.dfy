/// Which interrupts the video timing requests, in which order, and what the V-counter flag
/// says: for every half-line of every frame, from the settings alone.
module Requests {
  import opened Arithmetic
  import opened Scanline
  import opened Frames

  /** What entering half-line `q` requests: inside a line its horizontal blank, at the start of a
      line the counter match and, on line 160, the vertical blank. */
  function Requested(q: nat, s: Settings): seq<Irq> {
    if q % 2 == 1 then (if s.onHBlank then [HBlankIrq] else [])
    else
      (if q / 2 == s.lyc && s.onVCount then [VCountIrq] else [])
      + (if q / 2 == 160 && s.onVBlank then [VBlankIrq] else [])
  }

  /** The next `d` half-lines after `p`. */
  function Series(p: nat, d: nat, s: Settings): seq<Irq>
    requires p < EVENTS
    decreases d
  {
    if d == 0 then [] else Requested(Following(p), s) + Series(Following(p), d - 1, s)
  }

  /** The flag is that of the line now on. */
  predicate Matching(v: Video) { v.flags.vcounter == (v.vcount == v.settings.lyc) }

  lemma NextAsks(v: Video)
    requires |v.queue| == 1 && (v.queue[0].event == HBlank || v.queue[0].event == HDraw) && v.vcount < LINES
    ensures var w, p := Next(v), Position(v);
            && w.settings == v.settings && w.raised == v.raised + Requested(Following(p), v.settings)
            && (p % 2 == 0 ==> w.vcount == v.vcount && w.flags.vcounter == v.flags.vcounter)
            && (p % 2 == 1 ==> Matching(w))
  {
    NextIs(v);
    hide Next;
  }

  /** A burst requests nothing short of the queued event, and with it what its half-line does
      under the settings the burst leaves. */
  lemma StepAsks(v: Video, b: Burst)
    requires Sound(v)
    ensures var w, p := Step(v, b), Position(v);
            && w.settings == (if b.Ran? then b.settings else v.settings)
            && (w.now < v.queue[0].at ==> w.raised == v.raised && w.flags == v.flags && w.vcount == v.vcount)
            && (w.now >= v.queue[0].at ==>
                  && w.raised == v.raised + Requested(Following(p), w.settings)
                  && (p % 2 == 0 ==> w.vcount == v.vcount && w.flags.vcounter == v.flags.vcounter)
                  && (p % 2 == 1 ==> Matching(w)))
  {
    StepIs(v, b);
    var u := Advanced(v, b);
    if u.now >= v.queue[0].at {
      NextAsks(u);
      Fires(u);
    }
    hide Step, Next, Requested, Following;
  }

  /** All bursts leave the same settings. */
  ghost predicate Fixed(cpu: nat -> Burst, s: Settings) { forall i: nat :: cpu(i).Ran? ==> cpu(i).settings == s }

  function Asked(v: Video, s: Settings): seq<Irq>
    requires v.queue != [] && Position(v) < EVENTS
  {
    v.raised + Series(Position(v), Distance(Position(v)), s)
  }

  lemma BurstAsks(v: Video, b: Burst, s: Settings)
    requires Framing(v) && v.settings == s && Matching(v) && (b.Ran? ==> b.settings == s)
    ensures var w := Step(v, b);
            w.settings == s && Matching(w)
            && if w.frameReady then w.raised == Asked(v, s) else Framing(w) && Asked(w, s) == Asked(v, s)
  {
    StepMoves(v, b);
    StepAsks(v, b);
    var p := Position(v);
    SeriesUnfold(p, Distance(p), s);
    DistanceUnfolds(p);
    var w := Step(v, b);
    if w.now >= v.queue[0].at && Following(p) != VBLANK_AT {
      Joined(v.raised, Requested(Following(p), s), Series(Following(p), Distance(p) - 1, s));
    }
    hide Step, Series, Requested, Following, Distance;
  }

  lemma SeriesUnfold(p: nat, d: nat, s: Settings)
    requires p < EVENTS && d > 0
    ensures Series(p, d, s) == Requested(Following(p), s) + Series(Following(p), d - 1, s)
    ensures d == 1 ==> Series(p, d, s) == Requested(Following(p), s)
  {
    assert Series(Following(p), 0, s) == [];
  }

  lemma FixedAt(cpu: nat -> Burst, s: Settings, i: nat)
    requires Fixed(cpu, s)
    ensures cpu(i).Ran? ==> cpu(i).settings == s
  {
  }

  lemma {:induction false} LoopAsks(v: Video, cpu: nat -> Burst, i: nat, start: nat, m: nat, s: Settings)
    requires Framing(v) && start <= v.now && m >= 1 && Bounded(cpu, m) && Latest(v, m) <= start + MAX_CYCLES + m
    requires v.settings == s && Matching(v) && Fixed(cpu, s)
    ensures var w := Loop(v, cpu, i, start).0; w.raised == Asked(v, s) && Matching(w)
    decreases start + MAX_CYCLES + 1 - v.now
  {
    hide *;
    BurstBounded(cpu, i, m);
    FixedAt(cpu, s, i);
    BurstKeeps(v, cpu(i), m);
    BurstAsks(v, cpu(i), s);
    LoopUnfolds(v, cpu, i, start);
    var w := Step(v, cpu(i));
    if !w.frameReady {
      LoopAsks(w, cpu, i + 1, start, m, s);
    }
  }

  /** A frame under constant settings requests exactly what its half-lines up to the vertical
      blank do, in order, and keeps the V-counter flag right. */
  lemma FrameAsks(v: Video, cpu: nat -> Burst, i: nat, m: nat)
    requires Sound(v) && 1 <= m <= LONGEST && Bounded(cpu, m) && Matching(v) && Fixed(cpu, v.settings)
    ensures var w := RunFrame(v, cpu, i).0;
            w.raised == v.raised + Series(Position(v), Distance(Position(v)), v.settings) && Matching(w)
  {
    FrameAhead(v, m);
    CapSlack(m);
    hide Loop, Sound, AtBoundary, BlankDue, Latest, Whole, Framing, Bounded, Slack, Span, Series, Fixed;
    LoopAsks(v.(frameReady := false), cpu, i, v.now, m, v.settings);
  }

  // ------------------------------------------------------------------ how many

  function Count(irqs: seq<Irq>, irq: Irq): nat {
    if irqs == [] then 0 else (if irqs[0] == irq then 1 else 0) + Count(irqs[1..], irq)
  }

  lemma {:induction false} CountConcat(xs: seq<Irq>, ys: seq<Irq>, irq: Irq)
    ensures Count(xs + ys, irq) == Count(xs, irq) + Count(ys, irq)
  {
    if xs == [] {
      assert xs + ys == ys;
    } else {
      assert (xs + ys)[1..] == xs[1..] + ys;
      CountConcat(xs[1..], ys, irq);
    }
  }

  lemma RequestedCounts(q: nat, s: Settings)
    ensures Count(Requested(q, s), HBlankIrq) == if q % 2 == 1 && s.onHBlank then 1 else 0
    ensures Count(Requested(q, s), VCountIrq) == if q == 2 * s.lyc && s.onVCount then 1 else 0
    ensures Count(Requested(q, s), VBlankIrq) == if q == 320 && s.onVBlank then 1 else 0
  {
    CountConcat([VCountIrq], [VBlankIrq], VCountIrq);
    CountConcat([VCountIrq], [VBlankIrq], VBlankIrq);
    CountConcat([VCountIrq], [VBlankIrq], HBlankIrq);
  }

  /** Half-line `q` is among the `d` after `p`. */
  predicate Within(q: nat, p: nat, d: nat) { p < q <= p + d || q + EVENTS <= p + d }

  lemma {:induction false} HBlanks(p: nat, d: nat, s: Settings)
    requires p < EVENTS
    ensures Count(Series(p, d, s), HBlankIrq) == if s.onHBlank then (d + 1 - p % 2) / 2 else 0
    decreases d
  {
    if d > 0 {
      HBlanks(Following(p), d - 1, s);
      RequestedCounts(Following(p), s);
      CountConcat(Requested(Following(p), s), Series(Following(p), d - 1, s), HBlankIrq);
      hide Count, Requested;
    }
  }

  lemma {:induction false} Matches(p: nat, d: nat, s: Settings)
    requires p < EVENTS && d <= EVENTS
    ensures Count(Series(p, d, s), VCountIrq)
         == if s.onVCount && s.lyc < LINES && Within(2 * s.lyc, p, d) then 1 else 0
    decreases d
  {
    if d > 0 {
      Matches(Following(p), d - 1, s);
      RequestedCounts(Following(p), s);
      CountConcat(Requested(Following(p), s), Series(Following(p), d - 1, s), VCountIrq);
      hide Count, Requested;
    }
  }

  lemma {:induction false} VBlanks(p: nat, d: nat, s: Settings)
    requires p < EVENTS && d <= EVENTS
    ensures Count(Series(p, d, s), VBlankIrq) == if s.onVBlank && Within(320, p, d) then 1 else 0
    decreases d
  {
    if d > 0 {
      VBlanks(Following(p), d - 1, s);
      RequestedCounts(Following(p), s);
      CountConcat(Requested(Following(p), s), Series(Following(p), d - 1, s), VBlankIrq);
      hide Count, Requested;
    }
  }

  /** From one vertical blank to the next: 228 horizontal blanks, one counter match if such a
      line exists, and one vertical blank, each if enabled. */
  lemma FrameCounts(v: Video, cpu: nat -> Burst, i: nat, m: nat)
    requires AtBoundary(v) && Position(v) == VBLANK_AT && 1 <= m <= LONGEST && Bounded(cpu, m)
    requires Matching(v) && Fixed(cpu, v.settings)
    ensures var w, s := RunFrame(v, cpu, i).0, v.settings;
            && Count(w.raised, HBlankIrq) == Count(v.raised, HBlankIrq) + (if s.onHBlank then 228 else 0)
            && Count(w.raised, VCountIrq)
               == Count(v.raised, VCountIrq) + (if s.onVCount && s.lyc < 228 then 1 else 0)
            && Count(w.raised, VBlankIrq) == Count(v.raised, VBlankIrq) + (if s.onVBlank then 1 else 0)
  {
    FrameAsks(v, cpu, i, m);
    var s := v.settings;
    HBlanks(VBLANK_AT, EVENTS, s);
    Matches(VBLANK_AT, EVENTS, s);
    VBlanks(VBLANK_AT, EVENTS, s);
    CountConcat(v.raised, Series(VBLANK_AT, EVENTS, s), HBlankIrq);
    CountConcat(v.raised, Series(VBLANK_AT, EVENTS, s), VCountIrq);
    CountConcat(v.raised, Series(VBLANK_AT, EVENTS, s), VBlankIrq);
    hide RunFrame, Series, Count;
  }
}
