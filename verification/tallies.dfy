/// What a lockstep run reports, frame by frame, from what the two emulators show and play.
module Tallies {
  import opened Options
  import opened Lockstep

  // ------------------------------------------------------------------ differing pixels

  /** Two pixels differ in the upper five bits of one of their three colours. */
  predicate Differ(a: int, b: int) {
    a / 8 % 32 != b / 8 % 32 || a / 0x800 % 32 != b / 0x800 % 32 || a / 0x8_0000 % 32 != b / 0x8_0000 % 32
  }

  /** The positions below `k` at which two frames differ. */
  function Places(a: seq<Pixel>, b: seq<Pixel>, k: nat): set<nat>
    requires k <= |a| && k <= |b|
  {
    set p: nat | p < k && Differ(a[p], b[p])
  }

  lemma QuantApart(a: Pixel, b: Pixel)
    ensures Quant5(a) != Quant5(b) <==> Differ(a, b)
  {
    var x0, x1, x2 := a / 8 % 32, a / 0x800 % 32, a / 0x8_0000 % 32;
    var y0, y1, y2 := b / 8 % 32, b / 0x800 % 32, b / 0x8_0000 % 32;
    Digits(x0, x1, x2, y0, y1, y2);
  }

  lemma Digits(x0: int, x1: int, x2: int, y0: int, y1: int, y2: int)
    requires 0 <= x0 < 32 && 0 <= x1 < 32 && 0 <= x2 < 32 && 0 <= y0 < 32 && 0 <= y1 < 32 && 0 <= y2 < 32
    ensures x0 + 0x100 * x1 + 0x1_0000 * x2 == y0 + 0x100 * y1 + 0x1_0000 * y2 <==> x0 == y0 && x1 == y1 && x2 == y2
  {
  }

  lemma {:induction false} DifferingCounts(a: seq<Pixel>, b: seq<Pixel>, k: nat)
    requires k <= |a| && k <= |b|
    ensures Differing(a, b, k) == |Places(a, b, k)|
  {
    hide Quant5, Differ;
    if k > 0 {
      DifferingCounts(a, b, k - 1);
      QuantApart(a[k - 1], b[k - 1]);
      assert Places(a, b, k) == Places(a, b, k - 1) + if Differ(a[k - 1], b[k - 1]) then {k - 1} else {};
    } else {
      assert Places(a, b, 0) == {};
    }
  }

  // ------------------------------------------------------------------ the entries of a tally

  /** What the two sides show and play in each frame. */
  datatype Seen = Seen(ref: nat -> Frame, cand: nat -> Frame, refSound: nat -> seq<int>, candSound: nat -> seq<int>) {
    function Size(i: nat): nat { |Places(ref(i), cand(i), GBA_PIXELS)| }

    /** The frames below `n` that differ by more than the noise. */
    function Diverging(n: nat): set<nat> { set i: nat | i < n && Size(i) > 8 }

    /** All their differing pixels. */
    function Total(n: nat): nat {
      if n == 0 then 0 else Total(n - 1) + if Size(n - 1) > 8 then Size(n - 1) else 0
    }
  }

  function Joined(sound: nat -> seq<int>, n: nat): seq<int> {
    if n == 0 then [] else Joined(sound, n - 1) + sound(n - 1)
  }

  /** One entry per frame: the structural defect, which a flat picture makes the worst where
      the reference is not flat, the luma, the start of a new run and the loudness. */
  ghost predicate Entries<D>(m: Metrics<D>, t: Tally<D>, v: Seen, n: nat) {
    && |t.histogram| == n && |t.luma| == n && |t.newRun| == n && |t.ratios| == n
    && (forall i :: 0 <= i < n ==>
          t.histogram[i] == if m.flat(v.cand(i)) && !m.flat(v.ref(i)) then m.worst else m.ssim(v.ref(i), v.cand(i)))
    && (forall i :: 0 <= i < n ==> t.luma[i] == m.luma(v.ref(i), v.cand(i)))
    && (forall i :: 0 <= i < n ==> t.newRun[i] == (i == 0 || m.moved(v.ref(i - 1), v.ref(i))))
    && (forall i :: 0 <= i < n ==> t.ratios[i] == m.rmsRatio(v.refSound(i), v.candSound(i)))
    && t.refAudio == Joined(v.refSound, n) && t.candAudio == Joined(v.candSound, n)
  }

  /** Number, pixels, first and greatest of the diverging frames; of several equally great
      ones the first. */
  predicate Diverges(d: Divergence, v: Seen, n: nat) {
    && d.frames == |v.Diverging(n)| && d.pixels == v.Total(n)
    && (if v.Diverging(n) == {} then d.first == None && d.most == 0 && d.mostAt == None
        else
          && d.first.Some? && d.first.value in v.Diverging(n) && d.mostAt.Some? && d.mostAt.value in v.Diverging(n)
          && d.most == v.Size(d.mostAt.value)
          && forall i :: i in v.Diverging(n) ==>
               && d.first.value <= i && v.Size(i) <= d.most
               && (v.Size(i) == d.most ==> d.mostAt.value <= i))
  }

  /** The defects of the reference against itself: of each frame in motion but the first,
      against the frame before. */
  ghost predicate Motions<D>(m: Metrics<D>, defects: seq<D>, v: Seen, n: nat, at: seq<nat>) {
    && |defects| == |at|
    && (forall j, k :: 0 <= j < k < |at| ==> at[j] < at[k])
    && (forall i: nat :: i in at <==> 0 < i < n && m.moved(v.ref(i - 1), v.ref(i)))
    && (forall j :: 0 <= j < |at| ==> at[j] > 0 && defects[j] == m.ssim(v.ref(at[j] - 1), v.ref(at[j])))
  }

  // ------------------------------------------------------------------ one more frame

  function Next<D>(m: Metrics<D>, t: Tally<D>, v: Seen, n: nat): Tally<D> {
    Compared(m, t, n, v.ref(n), v.cand(n), v.refSound(n), v.candSound(n))
  }

  predicate Previous<D>(t: Tally<D>, v: Seen, n: nat) { n > 0 ==> t.previous == v.ref(n - 1) }

  lemma NextFields<D>(m: Metrics<D>, t: Tally<D>, v: Seen, n: nat)
    ensures var t', rf, cf := Next(m, t, v, n), v.ref(n), v.cand(n);
            && t'.histogram == t.histogram + [if m.flat(cf) && !m.flat(rf) then m.worst else m.ssim(rf, cf)]
            && t'.luma == t.luma + [m.luma(rf, cf)] && t'.newRun == t.newRun + [n == 0 || m.moved(t.previous, rf)]
            && t'.ratios == t.ratios + [m.rmsRatio(v.refSound(n), v.candSound(n))]
            && t'.refAudio == t.refAudio + v.refSound(n) && t'.candAudio == t.candAudio + v.candSound(n)
            && t'.previous == rf
  {
    hide Counted, Differing;
  }

  lemma NextEntries<D>(m: Metrics<D>, t: Tally<D>, v: Seen, n: nat)
    requires Entries(m, t, v, n) && Previous(t, v, n)
    ensures Entries(m, Next(m, t, v, n), v, n + 1) && Previous(Next(m, t, v, n), v, n + 1)
  {
    NextFields(m, t, v, n);
    hide Next;
  }

  lemma NextDiverges<D>(m: Metrics<D>, t: Tally<D>, v: Seen, n: nat)
    requires Diverges(t.divergence, v, n)
    ensures Diverges(Next(m, t, v, n).divergence, v, n + 1)
  {
    DifferingCounts(v.ref(n), v.cand(n), GBA_PIXELS);
    NextDivergence(m, t, v, n);
    CountedDiverges(t.divergence, v, n);
    hide *;
  }

  lemma NextDivergence<D>(m: Metrics<D>, t: Tally<D>, v: Seen, n: nat)
    ensures Next(m, t, v, n).divergence == Counted(t.divergence, n, Differing(v.ref(n), v.cand(n), GBA_PIXELS))
  {
    hide Counted, Differing;
  }

  lemma CountedDiverges(d: Divergence, v: Seen, n: nat)
    requires Diverges(d, v, n)
    ensures Diverges(Counted(d, n, v.Size(n)), v, n + 1)
  {
    hide Seen.Size;
    assert v.Diverging(n + 1) == v.Diverging(n) + if v.Size(n) > 8 then {n} else {};
    assert n !in v.Diverging(n);
    if v.Size(n) > 8 {
      assert n in v.Diverging(n + 1);
    }
  }

  lemma NextDefects<D>(m: Metrics<D>, t: Tally<D>, v: Seen, n: nat)
    requires Previous(t, v, n)
    ensures Next(m, t, v, n).defects
         == if n > 0 && m.moved(v.ref(n - 1), v.ref(n)) then t.defects + [m.ssim(v.ref(n - 1), v.ref(n))] else t.defects
  {
    hide Counted, Differing;
  }

  lemma OneMoreMotion<D>(m: Metrics<D>, defects: seq<D>, v: Seen, n: nat, at: seq<nat>)
    requires Motions(m, defects, v, n, at) && n > 0 && m.moved(v.ref(n - 1), v.ref(n))
    ensures Motions(m, defects + [m.ssim(v.ref(n - 1), v.ref(n))], v, n + 1, at + [n])
  {
    forall j | 0 <= j < |at| ensures at[j] < n { assert at[j] in at; }
  }

  lemma NoMoreMotion<D>(m: Metrics<D>, defects: seq<D>, v: Seen, n: nat, at: seq<nat>)
    requires Motions(m, defects, v, n, at) && (n > 0 ==> !m.moved(v.ref(n - 1), v.ref(n)))
    ensures Motions(m, defects, v, n + 1, at)
  {
  }

  lemma NextMotions<D>(m: Metrics<D>, t: Tally<D>, v: Seen, n: nat, at: seq<nat>) returns (at': seq<nat>)
    requires Motions(m, t.defects, v, n, at) && Previous(t, v, n)
    ensures Motions(m, Next(m, t, v, n).defects, v, n + 1, at')
  {
    hide *;
    NextDefects(m, t, v, n);
    if n > 0 && m.moved(v.ref(n - 1), v.ref(n)) {
      at' := at + [n];
      OneMoreMotion(m, t.defects, v, n, at);
    } else {
      at' := at;
      NoMoreMotion(m, t.defects, v, n, at);
    }
  }

  // ------------------------------------------------------------------ whole runs

  function Watched<R, C>(ref: Emulator<R>, r: R, cand: Emulator<C>, c: C, keys: nat -> nat): Seen {
    Seen((i: nat) => Shown(ref, r, keys, i), (i: nat) => Shown(cand, c, keys, i),
         (i: nat) => Heard(ref, r, keys, i), (i: nat) => Heard(cand, c, keys, i))
  }

  lemma RoundIsNext<R, C, D>(m: Metrics<D>, ref: Emulator<R>, r: R, cand: Emulator<C>, c: C, keys: nat -> nat, k: nat)
    requires k > 0
    ensures Rounds(m, ref, r, cand, c, keys, k)
         == Next(m, Rounds(m, ref, r, cand, c, keys, k - 1), Watched(ref, r, cand, c, keys), k - 1)
  {
    RoundsUnfold(m, ref, r, cand, c, keys, k);
    hide Rounds, Compared, Shown, Heard;
  }

  lemma NothingTallied<D>(m: Metrics<D>, v: Seen)
    ensures Entries(m, Empty(m), v, 0) && Diverges(Empty(m).divergence, v, 0) && Previous(Empty(m), v, 0)
    ensures Motions(m, Empty(m).defects, v, 0, [])
  {
    assert v.Diverging(0) == {};
  }

  lemma {:induction false} RoundsMean<R, C, D>(m: Metrics<D>, ref: Emulator<R>, r: R, cand: Emulator<C>, c: C,
                                               keys: nat -> nat, k: nat) returns (at: seq<nat>)
    ensures var t, v := Rounds(m, ref, r, cand, c, keys, k), Watched(ref, r, cand, c, keys);
            Entries(m, t, v, k) && Diverges(t.divergence, v, k) && Motions(m, t.defects, v, k, at) && Previous(t, v, k)
  {
    hide *;
    var v := Watched(ref, r, cand, c, keys);
    if k == 0 {
      RoundsUnfold(m, ref, r, cand, c, keys, 0);
      NothingTallied(m, v);
      at := [];
    } else {
      var before := RoundsMean(m, ref, r, cand, c, keys, k - 1);
      RoundIsNext(m, ref, r, cand, c, keys, k);
      var t := Rounds(m, ref, r, cand, c, keys, k - 1);
      NextEntries(m, t, v, k - 1);
      NextDiverges(m, t, v, k - 1);
      at := NextMotions(m, t, v, k - 1, before);
    }
  }

  /** What a run of `n` frames reports: `Lockstep` compares the pictures and sounds of the two
      emulators after their own boot frames, frame by frame; the thresholds come from the
      reference alone, and the scores from the entries and the thresholds. */
  lemma OutcomeMeans<R, C, D>(m: Metrics<D>, ref: Emulator<R>, r: R, cand: Emulator<C>, c: C, keys: nat -> nat,
                              n: nat) returns (at: seq<nat>)
    ensures var r0, c0 := Booted(ref, r), Booted(cand, c);
            var out, v := Outcome(m, ref, r, cand, c, keys, n), Watched(ref, r0, cand, c0, keys);
            && Entries(m, out.tally, v, n) && Diverges(out.tally.divergence, v, n)
            && Motions(m, out.tally.defects, v, n, at)
            && out.audioRate == ref.audioRate(r0)
            && out.frameThreshold == m.frameThreshold(out.tally.defects)
            && out.audioThreshold == m.audioThreshold(out.tally.refAudio, out.audioRate)
            && out.audioScore
               == m.audioScore(out.tally.refAudio, out.tally.candAudio, out.audioRate, out.audioThreshold)
            && out.deduped == m.collapsed(out.tally.histogram, out.tally.newRun, out.frameThreshold)
  {
    var r0, c0 := Booted(ref, r), Booted(cand, c);
    at := RoundsMean(m, ref, r0, cand, c0, keys, n);
    hide Booted, Rounds, Watched, Entries, Diverges, Motions;
  }

  // ------------------------------------------------------------------ the calls made

  datatype Call = SetKeys(keys: nat) | RunFrame | DrainAudio

  /** An emulator that only writes down the calls made to it; it asks for `boot` frames. */
  function Recorder(boot: nat): Emulator<seq<Call>> {
    Emulator((s, keys) => s + [SetKeys(keys)], s => s + [RunFrame], s => Black(), s => ([], s + [DrainAudio]), s => 0,
             s => boot)
  }

  function Boots(n: nat): seq<Call> { if n == 0 then [] else Boots(n - 1) + [RunFrame, DrainAudio] }

  function Plays(keys: nat -> nat, n: nat): seq<Call> {
    if n == 0 then [] else Plays(keys, n - 1) + [SetKeys(keys(n - 1)), RunFrame, DrainAudio]
  }

  /** The calls a side sees in a run of `n` frames: each boot frame run and its sound thrown
      away, then for each frame the keys, the frame and the sound; the picture is the one
      after the frame was run. */
  lemma {:induction false} CallsMade(boot: nat, keys: nat -> nat, n: nat)
    ensures After(Recorder(boot), Booted(Recorder(boot), []), keys, n) == Boots(boot) + Plays(keys, n)
    ensures Ran(Recorder(boot), Booted(Recorder(boot), []), keys, n)
         == Boots(boot) + Plays(keys, n) + [SetKeys(keys(n)), RunFrame]
  {
    BootCalls(boot, boot);
    if n > 0 { CallsMade(boot, keys, n - 1); }
    assert Boots(boot) + Plays(keys, 0) == Boots(boot);
  }

  lemma {:induction false} BootCalls(boot: nat, k: nat)
    ensures Burned(Recorder(boot), [], k) == Boots(k)
  {
    if k > 0 { BootCalls(boot, k - 1); }
  }
}
