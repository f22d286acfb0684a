/// The scheduler, the video timing handlers and the frame loop that drives them.
module Scanline {

  const LINES := 228
  const VISIBLE := 160
  const HDRAW_CYCLES := 960
  const HBLANK_CYCLES := 272
  const LINE_CYCLES := 1232
  const FRAME_CYCLES := 280896
  const MAX_CYCLES := 4 * FRAME_CYCLES
  const U32_MAX := 0xFFFF_FFFF

  datatype Event = HDraw | HBlank | TimerOverflow(timer: nat)

  datatype Scheduled = Scheduled(at: nat, event: Event)

  datatype Irq = VBlankIrq | HBlankIrq | VCountIrq

  /** What a program writes to the status register. */
  datatype Settings = Settings(onVBlank: bool, onHBlank: bool, onVCount: bool, lyc: nat)

  datatype Flags = Flags(vblank: bool, hblank: bool, vcounter: bool)

  /** `drawn` lists the lines rendered and `raised` the interrupts requested so far. */
  datatype Video = Video(now: nat, queue: seq<Scheduled>, vcount: nat, flags: Flags, settings: Settings,
                         frameReady: bool, drawn: seq<nat>, raised: seq<Irq>)

  // ------------------------------------------------------------------ the scheduler

  /** The index of an earliest entry. */
  function Earliest(q: seq<Scheduled>): (k: nat)
    requires q != []
    ensures k < |q|
  {
    if |q| == 1 then 0
    else
      var k := Earliest(q[..|q| - 1]);
      if q[|q| - 1].at < q[k].at then |q| - 1 else k
  }

  lemma {:induction false} EarliestIsLeast(q: seq<Scheduled>, i: nat)
    requires i < |q|
    ensures q[Earliest(q)].at <= q[i].at
  {
    if |q| > 1 {
      if i < |q| - 1 { EarliestIsLeast(q[..|q| - 1], i); }
    }
  }

  function Without<T>(q: seq<T>, k: nat): seq<T>
    requires k < |q|
  {
    q[..k] + q[k + 1..]
  }

  predicate Due(v: Video) { v.queue != [] && v.queue[Earliest(v.queue)].at <= v.now }

  function Push(v: Video, event: Event, delay: nat): Video {
    v.(queue := v.queue + [Scheduled(v.now + delay, event)])
  }

  function CyclesUntilNext(v: Video): nat {
    if v.queue == [] then U32_MAX
    else
      var at := v.queue[Earliest(v.queue)].at;
      if at < v.now then 0 else if at - v.now < U32_MAX then at - v.now else U32_MAX
  }

  /** How many entries are due. */
  function DueCount(q: seq<Scheduled>, now: nat): nat {
    if q == [] then 0 else (if q[0].at <= now then 1 else 0) + DueCount(q[1..], now)
  }

  lemma {:induction false} DueCountAppend(p: seq<Scheduled>, q: seq<Scheduled>, now: nat)
    ensures DueCount(p + q, now) == DueCount(p, now) + DueCount(q, now)
  {
    if p == [] {
      assert p + q == q;
    } else {
      assert (p + q)[1..] == p[1..] + q;
      DueCountAppend(p[1..], q, now);
    }
  }

  lemma DueCountWithout(q: seq<Scheduled>, k: nat, now: nat)
    requires k < |q|
    ensures DueCount(q, now) == DueCount(Without(q, k), now) + if q[k].at <= now then 1 else 0
  {
    assert q == q[..k] + ([q[k]] + q[k + 1..]);
    DueCountAppend(q[..k], [q[k]] + q[k + 1..], now);
    DueCountAppend([q[k]], q[k + 1..], now);
    DueCountAppend(q[..k], q[k + 1..], now);
  }

  // ------------------------------------------------------------------ the timing handlers

  function Raise(v: Video, irq: Irq, enabled: bool): Video { if enabled then v.(raised := v.raised + [irq]) else v }

  function OnHBlank(v: Video): Video {
    var drawn := if v.vcount < VISIBLE then v.drawn + [v.vcount] else v.drawn;
    var w := v.(drawn := drawn, flags := v.flags.(hblank := true));
    Push(Raise(w, HBlankIrq, v.settings.onHBlank), HDraw, HBLANK_CYCLES)
  }

  function OnHDraw(v: Video): Video {
    var line := (v.vcount + 1) % LINES;
    var matched := line == v.settings.lyc;
    var w := v.(vcount := line, flags := v.flags.(hblank := false, vcounter := matched));
    Push(AtLine(Raise(w, VCountIrq, matched && v.settings.onVCount)), HBlank, HDRAW_CYCLES)
  }

  /** The vertical blank starts on line 160 and ends on line 0. */
  function AtLine(v: Video): Video {
    if v.vcount == VISIBLE then
      Raise(v.(flags := v.flags.(vblank := true), frameReady := true), VBlankIrq, v.settings.onVBlank)
    else if v.vcount == 0 then v.(flags := v.flags.(vblank := false))
    else v
  }

  function Handle(v: Video, e: Event): Video {
    match e
    case HDraw => OnHDraw(v)
    case HBlank => OnHBlank(v)
    case TimerOverflow(_) => v
  }

  /** Take out an earliest entry and handle it. */
  function Next(v: Video): Video
    requires v.queue != []
  {
    var k := Earliest(v.queue);
    Handle(v.(queue := Without(v.queue, k)), v.queue[k].event)
  }

  lemma NextLeavesFewerDue(v: Video)
    requires Due(v)
    ensures Next(v).now == v.now && DueCount(Next(v).queue, v.now) < DueCount(v.queue, v.now)
  {
    var k := Earliest(v.queue);
    DueCountWithout(v.queue, k, v.now);
    var rest := Without(v.queue, k);
    DueCountAppend(rest, [Scheduled(v.now + HBLANK_CYCLES, HDraw)], v.now);
    DueCountAppend(rest, [Scheduled(v.now + HDRAW_CYCLES, HBlank)], v.now);
  }

  function Drain(v: Video): (w: Video)
    ensures w.now == v.now
    decreases DueCount(v.queue, v.now)
  {
    if Due(v) then (NextLeavesFewerDue(v); Drain(Next(v))) else v
  }

  function Tick(v: Video, cycles: nat): Video { Drain(v.(now := v.now + cycles)) }

  // ------------------------------------------------------------------ the frame loop

  type Cost = c: int | 1 <= c witness 1

  /** What the processor does next: idle until the next event, or run for `cost` cycles,
      leaving `settings` in the status register. */
  datatype Burst = Halted | Ran(cost: Cost, settings: Settings)

  function Cycles(v: Video, b: Burst): Cost {
    if b.Ran? then b.cost else if CyclesUntilNext(v) < 1 then 1 else CyclesUntilNext(v)
  }

  function Step(v: Video, b: Burst): (w: Video)
    ensures w.now > v.now
  {
    Tick(if b.Ran? then v.(settings := b.settings) else v, Cycles(v, b))
  }

  /** The loop from burst `i` on; `i` afterwards tells how many bursts were run. */
  function Loop(v: Video, cpu: nat -> Burst, i: nat, start: nat): (Video, nat)
    requires start <= v.now
    decreases start + MAX_CYCLES + 1 - v.now
  {
    if v.now - start > MAX_CYCLES then (v, i)
    else
      var w := Step(v, cpu(i));
      if w.frameReady then (w, i + 1) else Loop(w, cpu, i + 1, start)
  }

  function RunFrame(v: Video, cpu: nat -> Burst, i: nat): (Video, nat) {
    Loop(v.(frameReady := false), cpu, i, v.now)
  }

  const BOOT := Video(0, [Scheduled(HDRAW_CYCLES, HBlank)], 0, Flags(false, false, false),
                      Settings(false, false, false, 0), false, [], [])
}
