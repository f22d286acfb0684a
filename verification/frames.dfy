/// Whole runs of the scanline machine: what always holds between two bursts, which
/// lines a frame draws, how far apart vertical blanks are and when the cap can fire.
module Frames {
  import opened Arithmetic
  import opened Scanline

  const EVENTS := 456
  const VBLANK_AT := 320

  /** Half-lines since line 0: even while the horizontal blank is awaited, odd inside it. */
  function Position(v: Video): nat
    requires v.queue != []
  {
    2 * v.vcount + if v.queue[0].event == HDraw then 1 else 0
  }

  function Following(p: nat): (q: nat)
    requires p < EVENTS
    ensures q < EVENTS
  {
    if p + 1 == EVENTS then 0 else p + 1
  }

  /** How long the half-line at `p` lasts. */
  function Interval(p: nat): nat { if p % 2 == 0 then HDRAW_CYCLES else HBLANK_CYCLES }

  /** One event is queued and not yet due; the flags say where in the frame it falls. */
  predicate Sound(v: Video) {
    && |v.queue| == 1 && (v.queue[0].event == HBlank || v.queue[0].event == HDraw)
    && v.vcount < LINES
    && v.flags.hblank == (v.queue[0].event == HDraw)
    && v.flags.vblank == (v.vcount >= VISIBLE)
    && v.now < v.queue[0].at <= v.now + Interval(Position(v))
  }

  /** An event has just been handled. */
  predicate AtBoundary(v: Video) { Sound(v) && v.queue[0].at == v.now + Interval(Position(v)) }

  /** The line drawn by the event at `p`. */
  function Line(p: nat): seq<nat> { if p % 2 == 0 && p / 2 < VISIBLE then [p / 2] else [] }

  /** Handling the queued event moves one position on. */
  lemma Fires(v: Video)
    requires |v.queue| == 1 && (v.queue[0].event == HBlank || v.queue[0].event == HDraw)
    requires v.vcount < LINES && v.flags.hblank == (v.queue[0].event == HDraw)
            && v.flags.vblank == (v.vcount >= VISIBLE)
    ensures var w := Next(v); var p := Position(v);
            && AtBoundary(w) && w.now == v.now && Position(w) == Following(p)
            && w.drawn == v.drawn + Line(p)
            && w.frameReady == (v.frameReady || Following(p) == VBLANK_AT)
  {
    hide Next;
    NextIs(v);
  }

  lemma NextIs(v: Video)
    requires |v.queue| == 1 && (v.queue[0].event == HBlank || v.queue[0].event == HDraw)
    ensures Next(v) == if v.queue[0].event == HBlank then OnHBlank(v.(queue := [])) else OnHDraw(v.(queue := []))
  {
    hide OnHBlank, OnHDraw;
    assert Without(v.queue, 0) == [];
  }

  /** A burst either stops short of the queued event or handles exactly that one. */
  lemma StepMoves(v: Video, b: Burst)
    requires Sound(v)
    ensures var w := Step(v, b);
            var p, at := Position(v), v.queue[0].at;
            && Sound(w)
            && (w.now < at ==>
                  w.queue == v.queue && Position(w) == p && w.drawn == v.drawn && w.frameReady == v.frameReady)
            && (w.now >= at ==>
                  && AtBoundary(w) && Position(w) == Following(p) && w.drawn == v.drawn + Line(p)
                  && w.frameReady == (v.frameReady || Following(p) == VBLANK_AT))
            && (b.Halted? ==> w.now == at)
            && (b.Ran? ==> w.now == v.now + b.cost)
  {
    StepIs(v, b);
    var u := Advanced(v, b);
    if u.now >= v.queue[0].at { Fires(u); }
    hide Step, Next, Line;
  }

  function Advanced(v: Video, b: Burst): Video {
    (if b.Ran? then v.(settings := b.settings) else v).(now := v.now + Cycles(v, b))
  }

  lemma StepIs(v: Video, b: Burst)
    requires Sound(v)
    ensures var u := Advanced(v, b);
            Step(v, b) == if u.now >= v.queue[0].at then Next(u) else u
  {
    var u := Advanced(v, b);
    hide Handle, Line;
    if u.now >= v.queue[0].at {
      Fires(u);
      assert Due(u) && !Due(Next(u)) && Drain(u) == Drain(Next(u)) == Next(u);
    } else {
      assert !Due(u);
    }
  }

  // ------------------------------------------------------------------ one frame

  /** Events still to come until the vertical blank starts. */
  function Distance(p: nat): (d: nat)
    requires p < EVENTS
    ensures 1 <= d <= EVENTS
  {
    if p < VBLANK_AT then VBLANK_AT - p else VBLANK_AT + EVENTS - p
  }

  /** Cycles from the event at `p` to the one `d - 1` events later, were all on time. */
  function Ahead(p: nat, d: nat): nat
    requires p < EVENTS && d > 0
    decreases d
  {
    if d == 1 then 0 else Interval(Following(p)) + Ahead(Following(p), d - 1)
  }

  /** The lines drawn by `d` events from `p` on. */
  function Lines(p: nat, d: nat): seq<nat>
    requires p < EVENTS
    decreases d
  {
    if d == 0 then [] else Line(p) + Lines(Following(p), d - 1)
  }

  ghost predicate Bounded(cpu: nat -> Burst, m: nat) { forall i: nat :: cpu(i).Ran? ==> cpu(i).cost <= m }

  function At(v: Video): nat
    requires v.queue != []
  {
    v.queue[0].at
  }

  /** When the vertical blank starts if every event from the queued one on is on time. */
  function BlankDue(v: Video): nat
    requires v.queue != [] && Position(v) < EVENTS
  {
    At(v) + Ahead(Position(v), Distance(Position(v)))
  }

  /** How a burst moves the next vertical blank: not at all, or by how late it handles an event. */
  lemma StepDelays(v: Video, b: Burst, m: nat)
    requires Sound(v) && m >= 1 && (b.Ran? ==> b.cost <= m)
    ensures var w := Step(v, b);
            var p := Position(v);
            && v.now < At(v) <= BlankDue(v) && (Distance(p) == 1 ==> BlankDue(v) == At(v))
            && Sound(w) && p < EVENTS && Position(w) < EVENTS && v.now < w.now
            && (w.now < At(v) ==>
                  && Position(w) == p && BlankDue(w) == BlankDue(v)
                  && w.frameReady == v.frameReady && w.drawn == v.drawn)
            && (w.now >= At(v) ==>
                  && AtBoundary(w) && Position(w) == Following(p) && w.now < At(v) + m
                  && w.frameReady == (v.frameReady || Following(p) == VBLANK_AT) && w.drawn == v.drawn + Line(p)
                  && BlankDue(w) == (if Distance(p) == 1 then BlankDue(w) else BlankDue(v) + (w.now - At(v))))
  {
    StepMoves(v, b);
    LinesUnfold(Position(v), Distance(Position(v)));
    hide Step, Lines, Ahead;
  }

  /** How late `k` events can be together when no burst is longer than `m`. */
  function Slack(k: nat, m: nat): nat
    requires m >= 1
  {
    MulNonNegative(k, m - 1);
    k * (m - 1)
  }

  lemma SlackStep(k: nat, m: nat)
    requires m >= 1 && k > 0
    ensures Slack(k, m) == Slack(k - 1, m) + m - 1
  {
    Distribute(k, -1, m - 1);
  }

  lemma SlackMonotone(j: nat, k: nat, m: nat)
    requires m >= 1 && j <= k
    ensures Slack(j, m) <= Slack(k, m)
  {
    MulMonotone(j, k, m - 1);
  }

  lemma BurstBounded(cpu: nat -> Burst, i: nat, m: nat)
    requires Bounded(cpu, m)
    ensures cpu(i).Ran? ==> cpu(i).cost <= m
  {
  }

  /** The latest the next vertical blank can start. */
  function Latest(v: Video, m: nat): nat
    requires v.queue != [] && Position(v) < EVENTS && m >= 1
  {
    BlankDue(v) + Slack(Distance(Position(v)), m)
  }

  /** What will have been drawn by then. */
  function Whole(v: Video): seq<nat>
    requires v.queue != [] && Position(v) < EVENTS
  {
    v.drawn + Lines(Position(v), Distance(Position(v)))
  }

  predicate Framing(v: Video): (ok: bool)
    ensures ok ==> v.queue != [] && Position(v) < EVENTS
  {
    Sound(v) && !v.frameReady
  }

  /** A burst that does not reach the vertical blank changes neither what will be drawn
      nor, for the worse, when the blank can start. */
  lemma BurstKeeps(v: Video, b: Burst, m: nat)
    requires Framing(v) && m >= 1 && (b.Ran? ==> b.cost <= m)
    ensures var w := Step(v, b);
            if w.frameReady then
              AtBoundary(w) && Position(w) == VBLANK_AT && w.drawn == Whole(v) && BlankDue(v) <= w.now <= Latest(v, m)
            else
              Framing(w) && Whole(w) == Whole(v) && BlankDue(v) <= BlankDue(w) && Latest(w, m) <= Latest(v, m)
    ensures v.now < Step(v, b).now && v.now + m <= Latest(v, m)
  {
    StepDelays(v, b, m);
    var p := Position(v);
    var d := Distance(p);
    SlackStep(d, m);
    LinesUnfold(p, d);
    Joined(v.drawn, Line(p), Lines(Following(p), d - 1));
    if d > 1 { SlackStep(d - 1, m); }
    hide Step, Lines, Ahead, Slack, Position, BlankDue, AtBoundary, Sound;
  }

  lemma {:induction false} LoopCompletes(v: Video, cpu: nat -> Burst, i: nat, start: nat, m: nat)
    requires Framing(v) && start <= v.now && m >= 1 && Bounded(cpu, m) && Latest(v, m) <= start + MAX_CYCLES + m
    ensures var (w, _) := Loop(v, cpu, i, start);
            && w.frameReady && AtBoundary(w) && Position(w) == VBLANK_AT
            && w.drawn == Whole(v) && BlankDue(v) <= w.now <= Latest(v, m)
    decreases start + MAX_CYCLES + 1 - v.now
  {
    hide *;
    BurstBounded(cpu, i, m);
    BurstKeeps(v, cpu(i), m);
    LoopUnfolds(v, cpu, i, start);
    var w := Step(v, cpu(i));
    if !w.frameReady {
      LoopCompletes(w, cpu, i + 1, start, m);
    }
  }

  lemma DistanceUnfolds(p: nat)
    requires p < EVENTS
    ensures Following(p) == VBLANK_AT <==> Distance(p) == 1
    ensures Following(p) != VBLANK_AT ==> Distance(Following(p)) == Distance(p) - 1
  {
  }

  lemma LoopUnfolds(v: Video, cpu: nat -> Burst, i: nat, start: nat)
    requires start <= v.now <= start + MAX_CYCLES
    ensures var w := Step(v, cpu(i));
            Loop(v, cpu, i, start) == if w.frameReady then (w, i + 1) else Loop(w, cpu, i + 1, start)
  {
    hide Step;
  }

  lemma LinesUnfold(p: nat, d: nat)
    requires p < EVENTS && d > 0
    ensures Lines(p, d) == Line(p) + Lines(Following(p), d - 1) && Lines(Following(p), 0) == []
    ensures Ahead(p, d) == if d == 1 then 0 else Interval(Following(p)) + Ahead(Following(p), d - 1)
  {
  }

  // ------------------------------------------------------------------ how long a frame is

  /** The length of `k` half-lines from `p` on. */
  function Span(p: nat, k: nat): nat
    requires p < EVENTS
    decreases k
  {
    if k == 0 then 0 else Interval(p) + Span(Following(p), k - 1)
  }

  lemma {:induction false} AheadIsSpan(p: nat, d: nat)
    requires p < EVENTS && d > 0
    ensures Interval(p) + Ahead(p, d) == Span(p, d)
    decreases d
  {
    if d > 1 { AheadIsSpan(Following(p), d - 1); }
  }

  /** Two half-lines make a line of 1232 cycles. */
  lemma {:induction false} SpanLength(p: nat, k: nat)
    requires p < EVENTS
    ensures Span(p, k) == LINE_CYCLES * (k / 2) + if k % 2 == 1 then Interval(p) else 0
    decreases k
  {
    if k > 1 {
      SpanLength(Following(Following(p)), k - 2);
      assert Interval(p) + Interval(Following(p)) == LINE_CYCLES;
    }
  }

  /** Lines `from` to 159, in order. */
  function Rest(from: nat): seq<nat>
    decreases VISIBLE - from
  {
    if from < VISIBLE then [from] + Rest(from + 1) else []
  }

  /** The lines still to be drawn before the next vertical blank. */
  function Undrawn(p: nat): seq<nat> { if p < VBLANK_AT then Rest((p + 1) / 2) else Rest(0) }

  /** Up to the vertical blank every line not yet drawn is drawn, each once and in order. */
  lemma {:induction false} LinesDrawn(p: nat)
    requires p < EVENTS
    ensures Lines(p, Distance(p)) == Undrawn(p)
    decreases Distance(p)
  {
    hide Lines, Undrawn, Rest;
    LinesUnfold(p, Distance(p));
    UndrawnUnfolds(p);
    if Following(p) != VBLANK_AT {
      LinesDrawn(Following(p));
    }
  }

  lemma UndrawnUnfolds(p: nat)
    requires p < EVENTS
    ensures Undrawn(p) == Line(p) + if Following(p) == VBLANK_AT then [] else Undrawn(Following(p))
  {
    assert Rest(VISIBLE) == [];
  }

  lemma {:induction false} RestAt(from: nat, i: nat)
    requires from + i < VISIBLE
    ensures |Rest(from)| == VISIBLE - from && Rest(from)[i] == from + i
    decreases VISIBLE - from
  {
    if i > 0 {
      RestAt(from + 1, i - 1);
    } else if from + 1 < VISIBLE {
      RestAt(from + 1, 0);
    }
  }

  /** The greatest burst for which the cap on a frame's cycles never fires. */
  const LONGEST := 1853

  /** Where the next vertical blank lies, seen from a state between two bursts. */
  lemma FrameAhead(v: Video, m: nat)
    requires Sound(v) && m >= 1
    ensures var u := v.(frameReady := false);
            var p := Position(v);
            && Framing(u) && Position(u) == p < EVENTS && Whole(u) == v.drawn + Undrawn(p)
            && v.now < BlankDue(u) <= v.now + Span(p, Distance(p)) <= v.now + FRAME_CYCLES
            && (AtBoundary(v) ==> BlankDue(u) == v.now + Span(p, Distance(p)))
            && Latest(u, m) == BlankDue(u) + Slack(Distance(p), m) <= BlankDue(u) + Slack(EVENTS, m)
  {
    hide Lines, Ahead, Span, Undrawn, Slack, Rest;
    var p := Position(v);
    var d := Distance(p);
    AheadIsSpan(p, d);
    SpanLength(p, d);
    LinesDrawn(p);
    SlackMonotone(d, EVENTS, m);
    SpanShort(d);
  }

  lemma SpanShort(d: nat)
    requires d <= EVENTS
    ensures LINE_CYCLES * (d / 2) + (if d % 2 == 1 then HDRAW_CYCLES else 0) <= FRAME_CYCLES
  {
  }

  /** From any state between two bursts: while no burst is longer than `LONGEST`, a frame
      runs to the next vertical blank, before the cap, and draws what is left to draw. */
  lemma FrameCompletes(v: Video, cpu: nat -> Burst, i: nat, m: nat)
    requires Sound(v) && 1 <= m <= LONGEST && Bounded(cpu, m)
    ensures var (w, _) := RunFrame(v, cpu, i);
            && w.frameReady && AtBoundary(w) && Position(w) == VBLANK_AT
            && w.drawn == v.drawn + Undrawn(Position(v))
            && v.now < w.now <= v.now + FRAME_CYCLES + Slack(EVENTS, m)
  {
    FrameAhead(v, m);
    CapSlack(m);
    hide Loop, Sound, AtBoundary, Position, BlankDue, Latest, Whole, Framing, Bounded, Slack, Span;
    LoopCompletes(v.(frameReady := false), cpu, i, v.now, m);
  }

  lemma CapSlack(m: nat)
    requires m >= 1
    ensures m <= LONGEST ==> FRAME_CYCLES + Slack(EVENTS, m) <= MAX_CYCLES + m
    ensures m > LONGEST ==> FRAME_CYCLES + Slack(EVENTS, m) > MAX_CYCLES + m
  {
  }

  /** From one vertical blank to the next: all lines are drawn once in order, and the time
      is that of 228 lines plus the lateness of at most 456 events. */
  lemma BlankToBlank(v: Video, cpu: nat -> Burst, i: nat, m: nat)
    requires AtBoundary(v) && Position(v) == VBLANK_AT && 1 <= m <= LONGEST && Bounded(cpu, m)
    ensures var (w, _) := RunFrame(v, cpu, i);
            && w.frameReady && AtBoundary(w) && Position(w) == VBLANK_AT
            && w.drawn == v.drawn + Rest(0)
            && FRAME_CYCLES <= w.now - v.now <= FRAME_CYCLES + Slack(EVENTS, m)
  {
    FrameAhead(v, m);
    CapSlack(m);
    SpanLength(VBLANK_AT, EVENTS);
    assert Undrawn(VBLANK_AT) == Rest(0) && Sound(v);
    hide Loop, Sound, AtBoundary, Position, BlankDue, Latest, Whole, Framing, Bounded, Slack, Span, Undrawn;
    LoopCompletes(v.(frameReady := false), cpu, i, v.now, m);
  }

  // ------------------------------------------------------------------ whole runs

  /** The state after `n` frames from power-on, and the number of bursts run. */
  function Run(cpu: nat -> Burst, n: nat): (Video, nat) {
    if n == 0 then (BOOT, 0)
    else
      var (v, i) := Run(cpu, n - 1);
      RunFrame(v, cpu, i)
  }

  function Screens(n: nat): seq<nat> { if n == 0 then [] else Screens(n - 1) + Rest(0) }

  /** Every frame of every run stops at the vertical blank, having drawn lines 0 to 159. */
  lemma {:induction false} RunDraws(cpu: nat -> Burst, n: nat, m: nat)
    requires 1 <= m <= LONGEST && Bounded(cpu, m)
    ensures var v := Run(cpu, n).0;
            && AtBoundary(v) && Position(v) == (if n == 0 then 0 else VBLANK_AT) && v.drawn == Screens(n)
            && (n > 0 ==> v.frameReady)
  {
    if n > 0 {
      RunDraws(cpu, n - 1, m);
      var (v, i) := Run(cpu, n - 1);
      hide RunFrame, Bounded, Rest;
      FrameCompletes(v, cpu, i, m);
      assert Undrawn(0) == Undrawn(VBLANK_AT) == Rest(0);
    }
  }

  lemma RunSpacing(cpu: nat -> Burst, n: nat, m: nat)
    requires 1 <= m <= LONGEST && Bounded(cpu, m) && n > 0
    ensures FRAME_CYCLES <= Run(cpu, n + 1).0.now - Run(cpu, n).0.now <= FRAME_CYCLES + Slack(EVENTS, m)
  {
    RunDraws(cpu, n, m);
    var (v, i) := Run(cpu, n);
    hide RunFrame, Bounded, Rest;
    BlankToBlank(v, cpu, i, m);
  }

  // ------------------------------------------------------------------ vertical blank interrupts

  function Blanks(raised: seq<Irq>): nat {
    if raised == [] then 0
    else Blanks(raised[..|raised| - 1]) + if raised[|raised| - 1] == VBlankIrq then 1 else 0
  }

  lemma BlanksAppend(raised: seq<Irq>, irq: Irq)
    ensures Blanks(raised + [irq]) == Blanks(raised) + if irq == VBlankIrq then 1 else 0
  {
    assert (raised + [irq])[..|raised|] == raised;
  }

  lemma NextRequests(v: Video)
    requires |v.queue| == 1 && (v.queue[0].event == HBlank || v.queue[0].event == HDraw) && v.vcount < LINES
    ensures Blanks(Next(v).raised) ==
            Blanks(v.raised) + if Following(Position(v)) == VBLANK_AT && v.settings.onVBlank then 1 else 0
    ensures Next(v).settings == v.settings
  {
    BlanksAppend(v.raised, HBlankIrq);
    BlanksAppend(v.raised, VCountIrq);
    BlanksAppend(v.raised, VBlankIrq);
    BlanksAppend(v.raised + [VCountIrq], VBlankIrq);
    hide Blanks;
  }

  lemma StepRequests(v: Video, b: Burst)
    requires Framing(v) && v.settings.onVBlank && (b.Ran? ==> b.settings.onVBlank)
    ensures var w := Step(v, b);
            w.settings.onVBlank && Blanks(w.raised) == Blanks(v.raised) + if w.frameReady then 1 else 0
  {
    StepIs(v, b);
    StepMoves(v, b);
    var u := Advanced(v, b);
    if u.now >= v.queue[0].at { NextRequests(u); }
    hide Step, Next, Line, Blanks;
  }

  ghost predicate Listening(cpu: nat -> Burst) { forall i: nat :: cpu(i).Ran? ==> cpu(i).settings.onVBlank }

  lemma ListeningAt(cpu: nat -> Burst, i: nat)
    requires Listening(cpu)
    ensures cpu(i).Ran? ==> cpu(i).settings.onVBlank
  {
  }

  /** While the program keeps the vertical blank interrupt enabled, a frame requests it once. */
  lemma {:induction false} LoopRequests(v: Video, cpu: nat -> Burst, i: nat, start: nat, m: nat)
    requires Framing(v) && start <= v.now && m >= 1 && Bounded(cpu, m) && Latest(v, m) <= start + MAX_CYCLES + m
    requires v.settings.onVBlank && Listening(cpu)
    ensures Blanks(Loop(v, cpu, i, start).0.raised) == Blanks(v.raised) + 1
    decreases start + MAX_CYCLES + 1 - v.now
  {
    hide *;
    BurstBounded(cpu, i, m);
    ListeningAt(cpu, i);
    BurstKeeps(v, cpu(i), m);
    StepRequests(v, cpu(i));
    LoopUnfolds(v, cpu, i, start);
    var w := Step(v, cpu(i));
    if !w.frameReady {
      LoopRequests(w, cpu, i + 1, start, m);
    }
  }

  lemma FrameRequests(v: Video, cpu: nat -> Burst, i: nat, m: nat)
    requires Sound(v) && 1 <= m <= LONGEST && Bounded(cpu, m) && v.settings.onVBlank && Listening(cpu)
    ensures Blanks(RunFrame(v, cpu, i).0.raised) == Blanks(v.raised) + 1
  {
    FrameAhead(v, m);
    CapSlack(m);
    hide Loop, Sound, AtBoundary, Position, BlankDue, Latest, Whole, Framing, Bounded, Slack, Span, Blanks;
    LoopRequests(v.(frameReady := false), cpu, i, v.now, m);
  }

  // ------------------------------------------------------------------ when the cap fires

  /** Bursts that stop one cycle short of every event and then overrun it by the most. */
  function Overrunning(m: Cost): nat -> Burst {
    var s := Settings(false, false, false, 0);
    i => if i % 4 == 0 then Ran(HDRAW_CYCLES - 1, s) else if i % 4 == 2 then Ran(HBLANK_CYCLES - 1, s) else Ran(m, s)
  }

  /** From a vertical blank such bursts end the frame by the cap, before the next one. */
  lemma FrameCapped(v: Video, m: Cost)
    requires AtBoundary(v) && Position(v) == VBLANK_AT && m > LONGEST
    ensures Bounded(Overrunning(m), m)
    ensures !RunFrame(v, Overrunning(m), 0).0.frameReady
  {
    FrameAhead(v, m);
    CapSlack(m);
    SpanLength(VBLANK_AT, EVENTS);
    var u := v.(frameReady := false);
    assert AtBoundary(u) && Position(u) % 2 == 0;
    hide Loop, AtBoundary, Sound, Position, BlankDue, Latest, Framing, Slack, Span;
    CapReached(u, 0, v.now, m);
  }

  const ONE := Ran(1, Settings(false, false, false, 0))

  /** `k` bursts of one cycle, and then those of `cpu`. */
  function Delayed(k: nat, cpu: nat -> Burst): nat -> Burst { i => if i < k then ONE else cpu(i - k) }

  lemma {:induction false} LoopRises(v: Video, cpu: nat -> Burst, i: nat, start: nat)
    requires start <= v.now
    ensures Loop(v, cpu, i, start).1 >= if v.now - start > MAX_CYCLES then i else i + 1
    decreases start + MAX_CYCLES + 1 - v.now
  {
    hide Step;
    var w := Step(v, cpu(i));
    if v.now - start <= MAX_CYCLES && !w.frameReady { LoopRises(w, cpu, i + 1, start); }
  }

  /** A frame depends on the bursts it runs only. */
  lemma {:induction false} LoopSame(v: Video, cpu1: nat -> Burst, cpu2: nat -> Burst, i: nat, start: nat)
    requires start <= v.now
    requires forall j: nat :: i <= j < Loop(v, cpu1, i, start).1 ==> cpu1(j) == cpu2(j)
    ensures Loop(v, cpu2, i, start) == Loop(v, cpu1, i, start)
    decreases start + MAX_CYCLES + 1 - v.now
  {
    hide Step;
    if v.now - start <= MAX_CYCLES {
      LoopRises(v, cpu1, i, start);
      var w := Step(v, cpu1(i));
      if !w.frameReady { LoopSame(w, cpu1, cpu2, i + 1, start); }
    }
  }

  lemma {:induction false} LoopShifted(v: Video, cpu: nat -> Burst, i: nat, k: nat, start: nat)
    requires start <= v.now
    ensures Loop(v, Delayed(k, cpu), i + k, start) == (Loop(v, cpu, i, start).0, Loop(v, cpu, i, start).1 + k)
    decreases start + MAX_CYCLES + 1 - v.now
  {
    hide Step;
    if v.now - start <= MAX_CYCLES {
      assert Delayed(k, cpu)(i + k) == cpu(i);
      var w := Step(v, cpu(i));
      if !w.frameReady { LoopShifted(w, cpu, i + 1, k, start); }
    }
  }

  /** A run from power-on: a frame of bursts of one cycle, and one that the cap ends. */
  lemma RunCapped(m: Cost) returns (cpu: nat -> Burst)
    requires m > LONGEST
    ensures Bounded(cpu, m) && !Run(cpu, 2).0.frameReady
  {
    var slow: nat -> Burst := i => ONE;
    var (v, k) := Run(slow, 1);
    RunDraws(slow, 1, 1);
    cpu := Delayed(k, Overrunning(m));
    FrameCapped(v, m);
    assert Run(slow, 0) == (BOOT, 0) == Run(cpu, 0);
    LoopSame(BOOT.(frameReady := false), slow, cpu, 0, BOOT.now);
    LoopShifted(v.(frameReady := false), Overrunning(m), 0, k, v.now);
    hide Loop, Overrunning;
    assert Run(cpu, 1) == (v, k);
    assert Run(cpu, 2) == RunFrame(v, cpu, k);
    DelayedBounded(k, Overrunning(m), m);
  }

  lemma DelayedBounded(k: nat, cpu: nat -> Burst, m: Cost)
    requires Bounded(cpu, m)
    ensures Bounded(Delayed(k, cpu), m)
  {
  }

  /** Every frame of every run from power-on ends at a vertical blank, and none by the cap,
      exactly if no burst is longer than 1853 cycles. */
  lemma CapFires(m: Cost)
    ensures (forall cpu: nat -> Burst, n: nat :: Bounded(cpu, m) && n > 0 ==> Run(cpu, n).0.frameReady)
            <==> m <= LONGEST
  {
    hide *;
    if m <= LONGEST {
      forall cpu: nat -> Burst, n: nat | Bounded(cpu, m) && n > 0
        ensures Run(cpu, n).0.frameReady
      {
        RunDraws(cpu, n, m);
      }
    } else {
      var cpu := RunCapped(m);
      assert Bounded(cpu, m) && !Run(cpu, 2).0.frameReady;
    }
  }

  /** Two such bursts stop just before an event and then handle it as late as can be. */
  lemma OverrunShort(v: Video, i: nat, m: Cost)
    requires AtBoundary(v) && !v.frameReady && i % 4 == 2 * (Position(v) % 2)
    ensures var short := Step(v, Overrunning(m)(i));
            && short.now == At(v) - 1 && Framing(short) && At(short) == At(v)
            && Position(short) == Position(v) && BlankDue(short) == BlankDue(v)
  {
    hide Step, BlankDue;
    StepMoves(v, Overrunning(m)(i));
    StepDelays(v, Overrunning(m)(i), HDRAW_CYCLES);
  }

  lemma OverrunLate(v: Video, m: Cost, s: Settings)
    requires Framing(v) && v.now == At(v) - 1
    ensures var late := Step(v, Ran(m, s));
            && late.now == At(v) + m - 1
            && (late.frameReady <==> Distance(Position(v)) == 1)
            && (!late.frameReady ==>
                  AtBoundary(late) && Position(late) == Following(Position(v)) && Latest(late, m) == Latest(v, m))
  {
    hide Step, Ahead, Slack, BlankDue;
    StepMoves(v, Ran(m, s));
    StepDelays(v, Ran(m, s), m);
    SlackStep(Distance(Position(v)), m);
    DistanceUnfolds(Position(v));
  }

  lemma Parity(i: nat, p: nat)
    requires p < EVENTS && i % 4 == 2 * (p % 2)
    ensures (i + 2) % 4 == 2 * (Following(p) % 2)
  {
  }

  lemma Overrun(v: Video, i: nat, m: Cost)
    requires AtBoundary(v) && !v.frameReady && m > LONGEST && i % 4 == 2 * (Position(v) % 2)
    ensures var short := Step(v, Overrunning(m)(i));
            var late := Step(short, Overrunning(m)(i + 1));
            && short.now == At(v) - 1 && !short.frameReady && late.now == At(v) + m - 1
            && (late.frameReady <==> Distance(Position(v)) == 1)
            && (!late.frameReady ==>
                  AtBoundary(late) && Position(late) == Following(Position(v)) && Latest(late, m) == Latest(v, m)
                  && (i + 2) % 4 == 2 * (Position(late) % 2))
  {
    OverrunShort(v, i, m);
    assert Overrunning(m)(i + 1) == Ran(m, Settings(false, false, false, 0));
    assert Sound(v);
    Parity(i, Position(v));
    hide Step, At, Position, BlankDue, Slack, Sound, AtBoundary, Overrunning, Distance, Following;
    OverrunLate(Step(v, Overrunning(m)(i)), m, Settings(false, false, false, 0));
  }

  lemma {:induction false} CapReached(v: Video, i: nat, start: nat, m: Cost)
    requires AtBoundary(v) && !v.frameReady && start <= v.now && m > LONGEST && i % 4 == 2 * (Position(v) % 2)
    requires Latest(v, m) > start + MAX_CYCLES + m
    ensures !Loop(v, Overrunning(m), i, start).0.frameReady
    decreases Distance(Position(v))
  {
    Overrun(v, i, m);
    LatestWhenLast(v, m);
    DistanceUnfolds(Position(v));
    var cpu := Overrunning(m);
    var short := Step(v, cpu(i));
    if v.now - start > MAX_CYCLES {
      LoopCapped(v, cpu, i, start);
    } else {
      LoopUnfolds(v, cpu, i, start);
      if short.now - start > MAX_CYCLES {
        LoopCapped(short, cpu, i + 1, start);
      } else {
        hide AtBoundary, Position, Loop, Step, Latest, Overrunning, Distance, Following;
        LoopUnfolds(short, cpu, i + 1, start);
        CapReached(Step(short, cpu(i + 1)), i + 2, start, m);
      }
    }
  }

  lemma LatestWhenLast(v: Video, m: Cost)
    requires Sound(v)
    ensures Distance(Position(v)) == 1 ==> Latest(v, m) == At(v) + m - 1
  {
    LinesUnfold(Position(v), Distance(Position(v)));
    SlackStep(1, m);
    assert Slack(0, m) == 0;
  }

  lemma LoopCapped(v: Video, cpu: nat -> Burst, i: nat, start: nat)
    requires start + MAX_CYCLES < v.now
    ensures Loop(v, cpu, i, start) == (v, i)
  {
  }
}
