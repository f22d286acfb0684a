/// Driving two emulators with the same inputs and comparing what they show and play.
/// The floating-point measures are parameters: only what they are applied to matters here.
module Lockstep {
  import opened Options

  const GBA_PIXELS := 38400
  const NOISE_FLOOR := 8

  type Pixel = p: int | 0 <= p < 0x1_0000_0000

  type Frame = f: seq<Pixel> | |f| == GBA_PIXELS witness seq(GBA_PIXELS, _ => 0)

  function Black(): Frame { seq(GBA_PIXELS, _ => 0) }

  /** A deterministic emulator: what each call does to its state and what it returns. */
  datatype Emulator<!S> = Emulator(
    setKeys: (S, nat) -> S,
    runFrame: S -> S,
    framebuffer: S -> Frame,
    drainAudio: S -> (seq<int>, S),
    audioRate: S -> nat,
    bootFrames: S -> nat)

  /** The measures that lockstep applies to frames and sound. */
  datatype Metrics<!D> = Metrics(
    ssim: (Frame, Frame) -> D,
    worst: D,
    flat: Frame -> bool,
    luma: (Frame, Frame) -> D,
    moved: (Frame, Frame) -> bool,
    rmsRatio: (seq<int>, seq<int>) -> Option<D>,
    frameThreshold: seq<D> -> D,
    audioThreshold: (seq<int>, nat) -> D,
    audioScore: (seq<int>, seq<int>, nat, D) -> Option<D>,
    collapsed: (seq<D>, seq<bool>, D) -> D)

  // ------------------------------------------------------------------ what an emulator produces

  function Burned<S>(e: Emulator<S>, s: S, k: nat): S {
    if k == 0 then s else e.drainAudio(e.runFrame(Burned(e, s, k - 1))).1
  }

  /** The state in which frame 0 is about to be run. */
  function Booted<S>(e: Emulator<S>, s: S): S { Burned(e, s, e.bootFrames(s)) }

  /** The state after `k` frames played with `keys`. */
  function After<S>(e: Emulator<S>, s: S, keys: nat -> nat, k: nat): S
    decreases k, 0
  {
    if k == 0 then s else e.drainAudio(Ran(e, s, keys, k - 1)).1
  }

  function Ran<S>(e: Emulator<S>, s: S, keys: nat -> nat, k: nat): S
    decreases k, 1
  {
    e.runFrame(e.setKeys(After(e, s, keys, k), keys(k)))
  }

  function Shown<S>(e: Emulator<S>, s: S, keys: nat -> nat, k: nat): Frame { e.framebuffer(Ran(e, s, keys, k)) }

  function Heard<S>(e: Emulator<S>, s: S, keys: nat -> nat, k: nat): seq<int> { e.drainAudio(Ran(e, s, keys, k)).0 }

  // ------------------------------------------------------------------ one frame compared

  /** Five bits a channel, the alpha byte dropped. */
  function Quant5(px: Pixel): nat { px / 8 % 32 + 0x100 * (px / 0x800 % 32) + 0x1_0000 * (px / 0x8_0000 % 32) }

  function Differing(a: seq<Pixel>, b: seq<Pixel>, k: nat): nat
    requires k <= |a| && k <= |b|
  {
    if k == 0 then 0 else Differing(a, b, k - 1) + if Quant5(a[k - 1]) != Quant5(b[k - 1]) then 1 else 0
  }

  datatype Divergence = Divergence(frames: nat, pixels: nat, first: Option<nat>, most: nat, mostAt: Option<nat>)

  function Counted(d: Divergence, frame: nat, diff: nat): Divergence {
    if diff <= NOISE_FLOOR then d
    else
      Divergence(d.frames + 1, d.pixels + diff, if d.first.None? then Some(frame) else d.first,
                 if diff > d.most then diff else d.most, if diff > d.most then Some(frame) else d.mostAt)
  }

  datatype Tally<D> = Tally(histogram: seq<D>, luma: seq<D>, divergence: Divergence, newRun: seq<bool>,
                            defects: seq<D>, previous: Frame, ratios: seq<Option<D>>,
                            refAudio: seq<int>, candAudio: seq<int>)

  function Empty<D>(m: Metrics<D>): Tally<D> {
    Tally([], [], Divergence(0, 0, None, 0, None), [], [], Black(), [], [], [])
  }

  /** The defect of a frame; a flat picture where the reference shows something is the worst. */
  function Defect<D>(m: Metrics<D>, rf: Frame, cf: Frame): D {
    if m.flat(cf) && !m.flat(rf) then m.worst else m.ssim(rf, cf)
  }

  function Compared<D>(m: Metrics<D>, t: Tally<D>, frame: nat, rf: Frame, cf: Frame, ra: seq<int>,
                       ca: seq<int>): Tally<D> {
    var moving := frame == 0 || m.moved(t.previous, rf);
    Tally(t.histogram + [Defect(m, rf, cf)], t.luma + [m.luma(rf, cf)],
          Counted(t.divergence, frame, Differing(rf, cf, GBA_PIXELS)), t.newRun + [moving],
          if frame > 0 && moving then t.defects + [m.ssim(t.previous, rf)] else t.defects, rf,
          t.ratios + [m.rmsRatio(ra, ca)], t.refAudio + ra, t.candAudio + ca)
  }

  function Rounds<R, C, D>(m: Metrics<D>, ref: Emulator<R>, r: R, cand: Emulator<C>, c: C, keys: nat -> nat,
                           k: nat): Tally<D> {
    if k == 0 then Empty(m)
    else
      Compared(m, Rounds(m, ref, r, cand, c, keys, k - 1), k - 1, Shown(ref, r, keys, k - 1),
               Shown(cand, c, keys, k - 1),
               Heard(ref, r, keys, k - 1), Heard(cand, c, keys, k - 1))
  }

  datatype Output<D> = Output(tally: Tally<D>, audioThreshold: D, audioScore: Option<D>, frameThreshold: D,
                              deduped: D, audioRate: nat)

  function Finished<D>(m: Metrics<D>, t: Tally<D>, rate: nat): Output<D> {
    var audioThreshold := m.audioThreshold(t.refAudio, rate);
    var frameThreshold := m.frameThreshold(t.defects);
    Output(t, audioThreshold, m.audioScore(t.refAudio, t.candAudio, rate, audioThreshold), frameThreshold,
           m.collapsed(t.histogram, t.newRun, frameThreshold), rate)
  }

  function Outcome<R, C, D>(m: Metrics<D>, ref: Emulator<R>, r: R, cand: Emulator<C>, c: C, keys: nat -> nat,
                            n: nat): Output<D> {
    var r0, c0 := Booted(ref, r), Booted(cand, c);
    Finished(m, Rounds(m, ref, r0, cand, c0, keys, n), ref.audioRate(r0))
  }

  /** Both references show and play the same in the first `k` frames. */
  ghost predicate Alike<Q, R>(ref1: Emulator<Q>, q: Q, ref2: Emulator<R>, r: R, keys: nat -> nat, k: nat) {
    forall i: nat :: i < k ==>
      Shown(ref1, q, keys, i) == Shown(ref2, r, keys, i) && Heard(ref1, q, keys, i) == Heard(ref2, r, keys, i)
  }

  /** References that show and play the same give the same tally against any candidate. */
  lemma {:induction false} RoundsAgree<Q, R, C, D>(m: Metrics<D>, ref1: Emulator<Q>, q: Q, ref2: Emulator<R>, r: R,
                                                   cand: Emulator<C>, c: C, keys: nat -> nat, k: nat)
    requires Alike(ref1, q, ref2, r, keys, k)
    ensures Rounds(m, ref1, q, cand, c, keys, k) == Rounds(m, ref2, r, cand, c, keys, k)
  {
    hide *;
    if k == 0 {
      RoundsUnfold(m, ref1, q, cand, c, keys, k);
      RoundsUnfold(m, ref2, r, cand, c, keys, k);
    } else {
      AlikeUnfolds(ref1, q, ref2, r, keys, k);
      RoundsAgree(m, ref1, q, ref2, r, cand, c, keys, k - 1);
      RoundsUnfold(m, ref1, q, cand, c, keys, k);
      RoundsUnfold(m, ref2, r, cand, c, keys, k);
    }
  }

  lemma AlikeUnfolds<Q, R>(ref1: Emulator<Q>, q: Q, ref2: Emulator<R>, r: R, keys: nat -> nat, k: nat)
    requires k > 0 && Alike(ref1, q, ref2, r, keys, k)
    ensures Alike(ref1, q, ref2, r, keys, k - 1)
    ensures Shown(ref1, q, keys, k - 1) == Shown(ref2, r, keys, k - 1)
    ensures Heard(ref1, q, keys, k - 1) == Heard(ref2, r, keys, k - 1)
  {
    hide Shown, Heard;
  }

  lemma RoundsUnfold<R, C, D>(m: Metrics<D>, ref: Emulator<R>, r: R, cand: Emulator<C>, c: C, keys: nat -> nat, k: nat)
    ensures Rounds(m, ref, r, cand, c, keys, k) ==
            if k == 0 then Empty(m)
            else Compared(m, Rounds(m, ref, r, cand, c, keys, k - 1), k - 1, Shown(ref, r, keys, k - 1),
                          Shown(cand, c, keys, k - 1), Heard(ref, r, keys, k - 1), Heard(cand, c, keys, k - 1))
  {
    hide Empty, Compared, Shown, Heard;
  }

  // ------------------------------------------------------------------ the comparison loop

  method DiffFrame(a: Frame, b: Frame) returns (count: nat)
    ensures count == Differing(a, b, GBA_PIXELS)
  {
    count := 0;
    for i := 0 to GBA_PIXELS
      invariant count == Differing(a, b, i)
    {
      if Quant5(a[i]) != Quant5(b[i]) {
        count := count + 1;
      }
    }
  }

  method Burn<S>(e: Emulator<S>, s: S) returns (s': S)
    ensures s' == Booted(e, s)
  {
    s' := s;
    for i := 0 to e.bootFrames(s)
      invariant s' == Burned(e, s, i)
    {
      s' := e.runFrame(s');
      var (_, drained) := e.drainAudio(s');
      s' := drained;
    }
  }

  method Compare<D>(m: Metrics<D>, t: Tally<D>, frame: nat, rf: Frame, cf: Frame, ra: seq<int>, ca: seq<int>)
    returns (t': Tally<D>)
    ensures t' == Compared(m, t, frame, rf, cf, ra, ca)
  {
    var defect := m.ssim(rf, cf);
    if m.flat(cf) && !m.flat(rf) {
      defect := m.worst;
    }
    var d := t.divergence;
    var rawDiff := DiffFrame(rf, cf);
    if rawDiff > NOISE_FLOOR {
      d := d.(frames := d.frames + 1, pixels := d.pixels + rawDiff);
      if d.first.None? {
        d := d.(first := Some(frame));
      }
      if rawDiff > d.most {
        d := d.(most := rawDiff, mostAt := Some(frame));
      }
    }
    var inMotion := frame == 0 || m.moved(t.previous, rf);
    var defects := t.defects;
    if frame > 0 && inMotion {
      defects := defects + [m.ssim(t.previous, rf)];
    }
    t' := Tally(t.histogram + [defect], t.luma + [m.luma(rf, cf)], d, t.newRun + [inMotion], defects, rf,
                t.ratios + [m.rmsRatio(ra, ca)], t.refAudio + ra, t.candAudio + ca);
  }

  method Lockstep<R, C, D>(m: Metrics<D>, ref: Emulator<R>, r: R, cand: Emulator<C>, c: C, keys: nat -> nat, n: nat)
    returns (out: Output<D>)
    ensures out == Outcome(m, ref, r, cand, c, keys, n)
  {
    var r' := Burn(ref, r);
    var c' := Burn(cand, c);
    ghost var r0, c0 := r', c';
    var rate := ref.audioRate(r');
    var t := Empty(m);
    for frame := 0 to n
      invariant r' == After(ref, r0, keys, frame) && c' == After(cand, c0, keys, frame)
      invariant t == Rounds(m, ref, r0, cand, c0, keys, frame)
    {
      hide Compared;
      r' := ref.setKeys(r', keys(frame));
      c' := cand.setKeys(c', keys(frame));
      r' := ref.runFrame(r');
      c' := cand.runFrame(c');
      var refFb, candFb := ref.framebuffer(r'), cand.framebuffer(c');
      var (ra, refDrained) := ref.drainAudio(r');
      var (ca, candDrained) := cand.drainAudio(c');
      r', c' := refDrained, candDrained;
      t := Compare(m, t, frame, refFb, candFb, ra, ca);
    }
    out := Finished(m, t, rate);
  }
}
