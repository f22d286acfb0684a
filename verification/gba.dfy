/// The video timing, the scheduler and the frame loop changed in place.
module FrameLoop {
  import opened Scanline

  class Gba {
    var now: nat
    var queue: seq<Scheduled>
    var vcount: nat
    var flags: Flags
    var settings: Settings
    var frameReady: bool
    var drawn: seq<nat>
    var raised: seq<Irq>

    constructor ()
      ensures State() == BOOT
    {
      now := 0;
      queue := [Scheduled(960, HBlank)];
      vcount := 0;
      flags := Flags(false, false, false);
      settings := Settings(false, false, false, 0);
      frameReady := false;
      drawn, raised := [], [];
    }

    function State(): Video
      reads this
    {
      Video(now, queue, vcount, flags, settings, frameReady, drawn, raised)
    }

    method Request(irq: Irq)
      modifies this`raised
      ensures State() == Raise(old(State()), irq, true)
    {
      raised := raised + [irq];
    }

    method Schedule(event: Event, inCycles: nat)
      modifies this`queue
      ensures State() == Push(old(State()), event, inCycles)
    {
      queue := queue + [Scheduled(now + inCycles, event)];
    }

    method OnHBlank()
      modifies this
      ensures State() == Scanline.OnHBlank(old(State()))
    {
      if vcount < VISIBLE {
        drawn := drawn + [vcount];
      }
      flags := flags.(hblank := true);
      if settings.onHBlank {
        Request(HBlankIrq);
      }
      Schedule(HDraw, HBLANK_CYCLES);
    }

    method OnHDraw()
      modifies this
      ensures State() == Scanline.OnHDraw(old(State()))
    {
      flags := flags.(hblank := false);
      vcount := (vcount + 1) % LINES;
      if vcount == settings.lyc {
        flags := flags.(vcounter := true);
        if settings.onVCount {
          Request(VCountIrq);
        }
      } else {
        flags := flags.(vcounter := false);
      }
      if vcount == VISIBLE {
        flags := flags.(vblank := true);
        frameReady := true;
        if settings.onVBlank {
          Request(VBlankIrq);
        }
      } else if vcount == 0 {
        flags := flags.(vblank := false);
      }
      Schedule(HBlank, HDRAW_CYCLES);
    }

    method Tick(cycles: nat)
      modifies this
      ensures State() == Scanline.Tick(old(State()), cycles)
    {
      now := now + cycles;
      while Due(State())
        invariant Drain(State()) == Scanline.Tick(old(State()), cycles)
        decreases DueCount(queue, now)
      {
        NextLeavesFewerDue(State());
        var k := Earliest(queue);
        var event := queue[k].event;
        queue := Without(queue, k);
        match event {
          case HDraw => OnHDraw();
          case HBlank => OnHBlank();
          case TimerOverflow(_) =>
        }
      }
    }

    method Burst(b: Burst)
      modifies this
      ensures State() == Step(old(State()), b)
    {
      if b.Halted? {
        var until := CyclesUntilNext(State());
        Tick(if until < 1 then 1 else until);
      } else {
        settings := b.settings;
        Tick(b.cost);
      }
    }

    method RunFrame(cpu: nat -> Burst, first: nat) returns (i: nat)
      modifies this
      ensures (State(), i) == Scanline.RunFrame(old(State()), cpu, first)
    {
      frameReady := false;
      var start := now;
      i := first;
      while true
        invariant start <= now
        invariant Loop(State(), cpu, i, start) == Scanline.RunFrame(old(State()), cpu, first)
        decreases start + MAX_CYCLES + 1 - now
      {
        if now - start > MAX_CYCLES {
          break;
        }
        hide Step;
        Burst(cpu(i));
        i := i + 1;
        if frameReady {
          break;
        }
      }
    }
  }
}
