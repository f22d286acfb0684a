/// A recorded run of the reference, and the stand-in that plays it back.
module RefCache {
  import opened Arithmetic
  import opened Lockstep

  const GBA_BYTES := 4 * GBA_PIXELS
  const CACHE_VERSION := 7

  // ------------------------------------------------------------------ frames as bytes

  function PixelBytes(p: Pixel): (bs: seq<Byte>)
    ensures |bs| == 4
  {
    [p % 0x100, p / 0x100 % 0x100, p / 0x1_0000 % 0x100, p / 0x100_0000]
  }

  function BytesPixel(b0: Byte, b1: Byte, b2: Byte, b3: Byte): Pixel {
    b0 + 0x100 * b1 + 0x1_0000 * b2 + 0x100_0000 * b3
  }

  function ToBytes(f: seq<Pixel>): (bs: seq<Byte>)
    ensures |bs| == 4 * |f|
    decreases |f|
  {
    if f == [] then [] else PixelBytes(f[0]) + ToBytes(f[1..])
  }

  function FromBytes(bs: seq<Byte>, n: nat): (f: seq<Pixel>)
    requires |bs| == 4 * n
    ensures |f| == n
  {
    if n == 0 then [] else [BytesPixel(bs[0], bs[1], bs[2], bs[3])] + FromBytes(bs[4..], n - 1)
  }

  lemma {:induction false} BytesRoundTrip(f: seq<Pixel>)
    ensures FromBytes(ToBytes(f), |f|) == f
    decreases |f|
  {
    if f != [] {
      var bs := ToBytes(f);
      assert bs[4..] == ToBytes(f[1..]) && bs[..4] == PixelBytes(f[0]);
      PixelRoundTrip(f[0]);
      BytesRoundTrip(f[1..]);
      assert bs[0] == PixelBytes(f[0])[0] && bs[1] == PixelBytes(f[0])[1];
      assert bs[2] == PixelBytes(f[0])[2] && bs[3] == PixelBytes(f[0])[3];
      hide PixelBytes, BytesPixel;
    }
  }

  lemma PixelRoundTrip(p: Pixel)
    ensures var bs := PixelBytes(p); BytesPixel(bs[0], bs[1], bs[2], bs[3]) == p
  {
    DivTwice(p, 0x100, 0x100);
    DivTwice(p, 0x1_0000, 0x100);
    Quotient(p, 0x100);
    Quotient(p / 0x100, 0x100);
    Quotient(p / 0x1_0000, 0x100);
  }

  // ------------------------------------------------------------------ the cache

  datatype Inputs = Inputs(wasm: string, rom: string, replay: string)

  datatype Cache<D> = Cache(version: nat, inputs: Inputs, frameCount: nat, audioRate: nat, bootFrames: nat,
                            frames: seq<Byte>, pairs: seq<nat>, audio: seq<int>, frameThreshold: D, audioThreshold: D)

  function Sum(ns: seq<nat>): nat { if ns == [] then 0 else Sum(ns[..|ns| - 1]) + ns[|ns| - 1] }

  /** The lengths that loading checks. */
  predicate Consistent<D>(c: Cache<D>) {
    |c.frames| == c.frameCount * GBA_BYTES && |c.pairs| == c.frameCount && |c.audio| == 2 * Sum(c.pairs)
  }

  datatype Loaded<D> = Stale | Corrupt | Current(cache: Cache<D>)

  method Load<D>(c: Cache<D>, expected: Inputs) returns (r: Loaded<D>)
    ensures r.Current? <==> c.version == CACHE_VERSION && c.inputs == expected && Consistent(c)
    ensures r.Stale? <==> c.version != CACHE_VERSION || c.inputs != expected
    ensures r.Current? ==> r.cache == c
  {
    if c.version != CACHE_VERSION {
      return Stale;
    }
    if c.inputs.wasm != expected.wasm {
      return Stale;
    }
    if c.inputs.rom != expected.rom {
      return Stale;
    }
    if c.inputs.replay != expected.replay {
      return Stale;
    }
    if |c.frames| != c.frameCount * GBA_BYTES {
      return Corrupt;
    }
    if |c.pairs| != c.frameCount {
      return Corrupt;
    }
    if |c.audio| != 2 * Sum(c.pairs) {
      return Corrupt;
    }
    r := Current(c);
  }

  // ------------------------------------------------------------------ recording

  function Frames<S>(e: Emulator<S>, s: S, keys: nat -> nat, k: nat): seq<Byte> {
    if k == 0 then [] else Frames(e, s, keys, k - 1) + ToBytes(Shown(e, s, keys, k - 1))
  }

  function Pairs<S>(e: Emulator<S>, s: S, keys: nat -> nat, k: nat): (ps: seq<nat>)
    ensures |ps| == k
  {
    if k == 0 then [] else Pairs(e, s, keys, k - 1) + [|Heard(e, s, keys, k - 1)| / 2]
  }

  function Audio<S>(e: Emulator<S>, s: S, keys: nat -> nat, k: nat): seq<int> {
    if k == 0 then [] else Audio(e, s, keys, k - 1) + Heard(e, s, keys, k - 1)
  }

  /** The picture on screen before frame `k`, as the recorder remembers it. */
  function Before<S>(e: Emulator<S>, s: S, keys: nat -> nat, k: nat): Frame {
    if k == 0 then Black() else Shown(e, s, keys, k - 1)
  }

  function Defects<S, D>(m: Metrics<D>, e: Emulator<S>, s: S, keys: nat -> nat, k: nat): seq<D> {
    if k == 0 then []
    else
      var defects := Defects(m, e, s, keys, k - 1);
      var previous, fb := Before(e, s, keys, k - 1), Shown(e, s, keys, k - 1);
      if k - 1 > 0 && m.moved(previous, fb) then defects + [m.ssim(previous, fb)] else defects
  }

  /** The cache of `n` frames. */
  function Recorded<S, D>(m: Metrics<D>, e: Emulator<S>, s: S, keys: nat -> nat, n: nat, inputs: Inputs): Cache<D> {
    var s0 := Booted(e, s);
    var rate := e.audioRate(After(e, s0, keys, n));
    Cache(CACHE_VERSION, inputs, n, rate, e.bootFrames(After(e, s0, keys, n)), Frames(e, s0, keys, n),
          Pairs(e, s0, keys, n), Audio(e, s0, keys, n), m.frameThreshold(Defects(m, e, s0, keys, n)),
          m.audioThreshold(Audio(e, s0, keys, n), rate))
  }

  method Write<S, D>(m: Metrics<D>, e: Emulator<S>, s: S, keys: nat -> nat, n: nat, inputs: Inputs)
    returns (c: Cache<D>)
    ensures c == Recorded(m, e, s, keys, n, inputs)
  {
    var s' := Burn(e, s);
    ghost var s0 := s';
    var frames, pairs, audio, defects := [], [], [], [];
    var previous := Black();
    for frame := 0 to n
      invariant s' == After(e, s0, keys, frame) && previous == Before(e, s0, keys, frame)
      invariant frames == Frames(e, s0, keys, frame) && pairs == Pairs(e, s0, keys, frame)
      invariant audio == Audio(e, s0, keys, frame) && defects == Defects(m, e, s0, keys, frame)
    {
      hide ToBytes;
      s' := e.setKeys(s', keys(frame));
      s' := e.runFrame(s');
      var fb := e.framebuffer(s');
      frames := frames + ToBytes(fb);
      if frame > 0 && m.moved(previous, fb) {
        defects := defects + [m.ssim(previous, fb)];
      }
      previous := fb;
      var (samples, drained) := e.drainAudio(s');
      s' := drained;
      pairs := pairs + [|samples| / 2];
      audio := audio + samples;
    }
    var rate := e.audioRate(s');
    c := Cache(CACHE_VERSION, inputs, n, rate, e.bootFrames(s'), frames, pairs, audio,
               m.frameThreshold(defects), m.audioThreshold(audio, rate));
  }

  // ------------------------------------------------------------------ playing back

  /** Where the player stands: the last frame run, the picture and the sound played so far. */
  datatype Player = Player(cursor: int, fb: Frame, offset: nat)

  function Start(): Player { Player(-1, Black(), 0) }

  predicate OnTape<D>(c: Cache<D>, p: Player) { 0 <= p.cursor < c.frameCount }

  function PlayFrame<D>(c: Cache<D>, p: Player): Player
    requires Consistent(c)
  {
    var next := p.(cursor := p.cursor + 1);
    if OnTape(c, next) then next.(fb := FrameBytes(c, next.cursor)) else next
  }

  function FrameBytes<D>(c: Cache<D>, i: nat): Frame
    requires Consistent(c) && i < c.frameCount
  {
    FrameFits(i, c.frameCount);
    FromBytes(c.frames[Offset(i)..Offset(i) + GBA_BYTES], GBA_PIXELS)
  }

  /** Where frame `i` starts. */
  function Offset(i: nat): nat { i * GBA_BYTES }

  lemma FrameFits(i: nat, n: nat)
    requires i < n
    ensures Offset(i) + GBA_BYTES <= Offset(n) && Offset(i + 1) == Offset(i) + GBA_BYTES
  {
    MulMonotone(i + 1, n, GBA_BYTES);
    Distribute(i, 1, GBA_BYTES);
  }

  /** The source stops with a panic when the sound runs out; here nothing is played then. */
  function PlayAudio<D>(c: Cache<D>, p: Player): (seq<int>, Player)
    requires Consistent(c)
  {
    if !OnTape(c, p) then ([], p)
    else
      var end := p.offset + 2 * c.pairs[p.cursor];
      if end <= |c.audio| then (c.audio[p.offset..end], p.(offset := end)) else ([], p)
  }

  /** The cache as a reference: keys are ignored and there are no boot frames to burn. */
  function Cached<D>(c: Cache<D>): Emulator<Player>
    requires Consistent(c)
  {
    Emulator((p: Player, _) => p, (p: Player) => PlayFrame(c, p), (p: Player) => p.fb, (p: Player) => PlayAudio(c, p),
             (_: Player) => c.audioRate, (_: Player) => 0)
  }

  class CachedReference<D> {
    const cache: Cache<D>
    var frameCursor: int
    var fb: Frame
    var audioOffset: nat

    ghost predicate Valid() { Consistent(cache) }

    constructor (cache: Cache<D>)
      requires Consistent(cache)
      ensures this.cache == cache && State() == Start()
    {
      this.cache := cache;
      frameCursor := -1;
      fb := Black();
      audioOffset := 0;
    }

    function State(): Player
      reads this
    {
      Player(frameCursor, fb, audioOffset)
    }

    method RunFrame()
      requires Valid()
      modifies this
      ensures State() == Cached(cache).runFrame(old(State()))
    {
      frameCursor := frameCursor + 1;
      var idx := frameCursor;
      if idx < 0 || idx >= cache.frameCount {
        return;
      }
      FrameFits(idx, cache.frameCount);
      var start := idx * GBA_BYTES;
      fb := FromBytes(cache.frames[start..start + GBA_BYTES], GBA_PIXELS);
    }

    method DrainAudio() returns (samples: seq<int>)
      requires Valid()
      requires 0 <= frameCursor < cache.frameCount ==> audioOffset + 2 * cache.pairs[frameCursor] <= |cache.audio|
      modifies this
      ensures (samples, State()) == Cached(cache).drainAudio(old(State()))
    {
      var idx := frameCursor;
      if idx < 0 || idx >= cache.frameCount {
        return [];
      }
      var end := audioOffset + 2 * cache.pairs[idx];
      samples := cache.audio[audioOffset..end];
      audioOffset := end;
    }
  }

  // ------------------------------------------------------------------ what was recorded, frame by frame

  lemma {:induction false} FramesLength<S>(e: Emulator<S>, s: S, keys: nat -> nat, k: nat)
    ensures |Frames(e, s, keys, k)| == Offset(k)
  {
    if k > 0 {
      FramesLength(e, s, keys, k - 1);
      FrameFits(k - 1, k);
      hide Offset;
    }
  }

  lemma {:induction false} FramesAt<S>(e: Emulator<S>, s: S, keys: nat -> nat, k: nat, i: nat)
    requires i < k
    ensures Offset(i) + GBA_BYTES <= |Frames(e, s, keys, k)|
    ensures Frames(e, s, keys, k)[Offset(i)..Offset(i) + GBA_BYTES] == ToBytes(Shown(e, s, keys, i))
  {
    hide Frames, ToBytes, Shown, Offset;
    var init, last := Frames(e, s, keys, k - 1), ToBytes(Shown(e, s, keys, k - 1));
    FramesUnfold(e, s, keys, k);
    FramesLength(e, s, keys, k - 1);
    FramesLength(e, s, keys, k);
    FrameFits(i, k);
    if i < k - 1 {
      FrameFits(i, k - 1);
      FramesAt(e, s, keys, k - 1, i);
      PrefixSlice(init, last, Offset(i), Offset(i) + GBA_BYTES);
    } else {
      SuffixSlice(init, last, Offset(i), Offset(i) + GBA_BYTES);
    }
  }

  lemma FramesUnfold<S>(e: Emulator<S>, s: S, keys: nat -> nat, k: nat)
    requires k > 0
    ensures Frames(e, s, keys, k) == Frames(e, s, keys, k - 1) + ToBytes(Shown(e, s, keys, k - 1))
  {
  }

  lemma AudioUnfold<S>(e: Emulator<S>, s: S, keys: nat -> nat, k: nat)
    requires k > 0
    ensures Audio(e, s, keys, k) == Audio(e, s, keys, k - 1) + Heard(e, s, keys, k - 1)
  {
  }

  lemma PrefixSlice<T>(xs: seq<T>, ys: seq<T>, from: nat, to: nat)
    requires from <= to <= |xs|
    ensures (xs + ys)[from..to] == xs[from..to]
  {
  }

  lemma SuffixSlice<T>(xs: seq<T>, ys: seq<T>, from: nat, to: nat)
    requires from == |xs| && to == |xs| + |ys|
    ensures (xs + ys)[from..to] == ys
  {
  }

  lemma {:induction false} AudioAt<S>(e: Emulator<S>, s: S, keys: nat -> nat, k: nat, i: nat)
    requires i < k
    ensures var from, to := |Audio(e, s, keys, i)|, |Audio(e, s, keys, i + 1)|;
            && to == from + |Heard(e, s, keys, i)| <= |Audio(e, s, keys, k)|
            && Audio(e, s, keys, k)[from..to] == Heard(e, s, keys, i)
  {
    hide *;
    var init, last := Audio(e, s, keys, k - 1), Heard(e, s, keys, k - 1);
    AudioUnfold(e, s, keys, k);
    AudioUnfold(e, s, keys, i + 1);
    if i < k - 1 {
      AudioAt(e, s, keys, k - 1, i);
      PrefixSlice(init, last, |Audio(e, s, keys, i)|, |Audio(e, s, keys, i + 1)|);
    } else {
      SuffixSlice(init, last, |Audio(e, s, keys, i)|, |Audio(e, s, keys, i + 1)|);
    }
  }

  lemma {:induction false} PairsAt<S>(e: Emulator<S>, s: S, keys: nat -> nat, k: nat, i: nat)
    requires i < k
    ensures Pairs(e, s, keys, k)[i] == |Heard(e, s, keys, i)| / 2
  {
    if i < k - 1 { PairsAt(e, s, keys, k - 1, i); }
  }

  ghost predicate EvenDrains<S>(e: Emulator<S>, s: S, keys: nat -> nat, k: nat) {
    forall i: nat :: i < k ==> |Heard(e, s, keys, i)| % 2 == 0
  }

  /** Counting pairs loses a sample for every odd drain. */
  lemma {:induction false} PairsSum<S>(e: Emulator<S>, s: S, keys: nat -> nat, k: nat)
    ensures 2 * Sum(Pairs(e, s, keys, k)) <= |Audio(e, s, keys, k)|
    ensures 2 * Sum(Pairs(e, s, keys, k)) == |Audio(e, s, keys, k)| <==> EvenDrains(e, s, keys, k)
  {
    if k > 0 {
      PairsSum(e, s, keys, k - 1);
      var ps := Pairs(e, s, keys, k);
      assert ps[..|ps| - 1] == Pairs(e, s, keys, k - 1);
      hide Heard;
      assert EvenDrains(e, s, keys, k) <==> EvenDrains(e, s, keys, k - 1) && |Heard(e, s, keys, k - 1)| % 2 == 0;
    }
  }

  /** Loading accepts a fresh recording exactly when every drain held whole pairs. */
  lemma AcceptedIffEven<S, D>(m: Metrics<D>, e: Emulator<S>, s: S, keys: nat -> nat, n: nat, inputs: Inputs)
    ensures Consistent(Recorded(m, e, s, keys, n, inputs)) <==> EvenDrains(e, Booted(e, s), keys, n)
  {
    FramesLength(e, Booted(e, s), keys, n);
    PairsSum(e, Booted(e, s), keys, n);
  }

  // ------------------------------------------------------------------ the stand-in agrees with the original

  /** The cache holds the first `n` frames, and every drain held whole pairs. */
  ghost predicate Holds<S, D>(c: Cache<D>, e: Emulator<S>, s: S, keys: nat -> nat, n: nat): (ok: bool)
    ensures ok ==> Consistent(c) && c.frameCount == n
  {
    && Consistent(c) && EvenDrains(e, s, keys, n) && c.frameCount == n
    && c.frames == Frames(e, s, keys, n) && c.pairs == Pairs(e, s, keys, n) && c.audio == Audio(e, s, keys, n)
  }

  lemma PlaysFrame<S, D>(c: Cache<D>, e: Emulator<S>, s: S, keys: nat -> nat, n: nat, i: nat, fb: Frame, offset: nat)
    requires Holds(c, e, s, keys, n) && i < n
    ensures PlayFrame(c, Player(i - 1, fb, offset)) == Player(i, Shown(e, s, keys, i), offset)
  {
    FramesAt(e, s, keys, n, i);
    BytesRoundTrip(Shown(e, s, keys, i));
    hide Frames, Pairs, Audio, FromBytes, ToBytes, Shown;
  }

  lemma PlaysAudio<S, D>(c: Cache<D>, e: Emulator<S>, s: S, keys: nat -> nat, n: nat, i: nat, fb: Frame)
    requires Holds(c, e, s, keys, n) && i < n
    ensures PlayAudio(c, Player(i, fb, |Audio(e, s, keys, i)|))
         == (Heard(e, s, keys, i), Player(i, fb, |Audio(e, s, keys, i + 1)|))
  {
    AudioAt(e, s, keys, n, i);
    PairsAt(e, s, keys, n, i);
    assert |Heard(e, s, keys, i)| % 2 == 0;
    hide Frames, Pairs, Audio, Heard, Sum;
  }

  lemma CachedFrame<D>(c: Cache<D>, keys: nat -> nat, i: nat)
    requires Consistent(c)
    ensures var p := PlayFrame(c, After(Cached(c), Start(), keys, i));
            && Shown(Cached(c), Start(), keys, i) == p.fb && Heard(Cached(c), Start(), keys, i) == PlayAudio(c, p).0
            && After(Cached(c), Start(), keys, i + 1) == PlayAudio(c, p).1
  {
    hide PlayFrame, PlayAudio, Consistent;
  }

  /** After `i` frames the player has shown frame `i - 1` and played all sound up to there. */
  lemma {:induction false} PlayerAt<S, D>(c: Cache<D>, e: Emulator<S>, s: S, keys: nat -> nat, n: nat, i: nat)
    requires Holds(c, e, s, keys, n) && i <= n
    ensures After(Cached(c), Start(), keys, i) == Player(i - 1, Before(e, s, keys, i), |Audio(e, s, keys, i)|)
    decreases i, 0
  {
    if i > 0 { PlayerStep(c, e, s, keys, n, i - 1); }
  }

  /** One more frame shows and plays what was recorded. */
  lemma {:induction false} PlayerStep<S, D>(c: Cache<D>, e: Emulator<S>, s: S, keys: nat -> nat, n: nat, i: nat)
    requires Holds(c, e, s, keys, n) && i < n
    ensures Shown(Cached(c), Start(), keys, i) == Shown(e, s, keys, i)
    ensures Heard(Cached(c), Start(), keys, i) == Heard(e, s, keys, i)
    ensures After(Cached(c), Start(), keys, i + 1) == Player(i, Shown(e, s, keys, i), |Audio(e, s, keys, i + 1)|)
    decreases i, 1
  {
    hide *;
    PlayerAt(c, e, s, keys, n, i);
    CachedFrame(c, keys, i);
    PlaysFrame(c, e, s, keys, n, i, Before(e, s, keys, i), |Audio(e, s, keys, i)|);
    PlaysAudio(c, e, s, keys, n, i, Shown(e, s, keys, i));
  }

  lemma CachedAlike<S, D>(c: Cache<D>, e: Emulator<S>, s: S, keys: nat -> nat, recorded: nat, n: nat)
    requires Holds(c, e, s, keys, recorded) && n <= recorded
    ensures Alike(Cached(c), Start(), e, s, keys, n)
  {
    forall i: nat | i < n
      ensures Shown(Cached(c), Start(), keys, i) == Shown(e, s, keys, i)
      ensures Heard(Cached(c), Start(), keys, i) == Heard(e, s, keys, i)
    {
      PlayerStep(c, e, s, keys, recorded, i);
    }
    hide Shown, Heard, Cached;
  }

  lemma RecordedHolds<S, D>(m: Metrics<D>, e: Emulator<S>, s: S, keys: nat -> nat, n: nat, inputs: Inputs)
    requires Consistent(Recorded(m, e, s, keys, n, inputs))
    ensures Holds(Recorded(m, e, s, keys, n, inputs), e, Booted(e, s), keys, n)
  {
    AcceptedIffEven(m, e, s, keys, n, inputs);
    hide Consistent, Frames, Pairs, Audio, EvenDrains, Defects;
  }

  lemma OutcomeOf<R, C, D>(m: Metrics<D>, ref: Emulator<R>, r: R, cand: Emulator<C>, c: C, keys: nat -> nat, n: nat)
    ensures var out := Outcome(m, ref, r, cand, c, keys, n);
            out == Finished(m, Rounds(m, ref, Booted(ref, r), cand, Booted(cand, c), keys, n),
                            ref.audioRate(Booted(ref, r)))
            && out.audioRate == ref.audioRate(Booted(ref, r))
  {
    hide Rounds, Booted;
  }

  lemma CachedBoots<D>(c: Cache<D>)
    requires Consistent(c)
    ensures Booted(Cached(c), Start()) == Start() && Cached(c).audioRate(Start()) == c.audioRate
  {
    hide PlayFrame, PlayAudio;
  }

  /** Against any candidate, for any number of recorded frames: lockstep with a cache that
      loading accepts computes what lockstep with the recorded reference computes, if and
      only if the rate noted after the recording is the rate before it. */
  lemma CachedMatchesLive<S, C, D>(m: Metrics<D>, e: Emulator<S>, s: S, cand: Emulator<C>, c: C, keys: nat -> nat,
                                   n: nat, recorded: nat, inputs: Inputs)
    requires n <= recorded && Consistent(Recorded(m, e, s, keys, recorded, inputs))
    ensures var cache := Recorded(m, e, s, keys, recorded, inputs);
            Outcome(m, Cached(cache), Start(), cand, c, keys, n) == Outcome(m, e, s, cand, c, keys, n)
            <==> e.audioRate(After(e, Booted(e, s), keys, recorded)) == e.audioRate(Booted(e, s))
  {
    var cache := Recorded(m, e, s, keys, recorded, inputs);
    assert cache.audioRate == e.audioRate(After(e, Booted(e, s), keys, recorded));
    hide *;
    RecordedHolds(m, e, s, keys, recorded, inputs);
    CachedAlike(cache, e, Booted(e, s), keys, recorded, n);
    CachedBoots(cache);
    OutcomeOf(m, Cached(cache), Start(), cand, c, keys, n);
    OutcomeOf(m, e, s, cand, c, keys, n);
    RoundsAgree(m, Cached(cache), Start(), e, Booted(e, s), cand, Booted(cand, c), keys, n);
  }

  /** The thresholds baked into a cache are those lockstep derives over the same frames. */
  lemma ThresholdsAgree<S, C, D>(m: Metrics<D>, e: Emulator<S>, s: S, cand: Emulator<C>, c: C, keys: nat -> nat,
                                 n: nat, inputs: Inputs)
    requires e.audioRate(After(e, Booted(e, s), keys, n)) == e.audioRate(Booted(e, s))
    ensures var cache, out := Recorded(m, e, s, keys, n, inputs), Outcome(m, e, s, cand, c, keys, n);
            cache.frameThreshold == out.frameThreshold && cache.audioThreshold == out.audioThreshold
  {
    RoundsRecord(m, e, Booted(e, s), cand, Booted(cand, c), keys, n);
    hide Rounds, Audio, Defects, Booted, After;
  }

  lemma {:induction false} RoundsRecord<S, C, D>(m: Metrics<D>, e: Emulator<S>, s: S, cand: Emulator<C>, c: C,
                                                 keys: nat -> nat, k: nat)
    ensures var t := Rounds(m, e, s, cand, c, keys, k);
            t.refAudio == Audio(e, s, keys, k) && t.defects == Defects(m, e, s, keys, k)
                && t.previous == Before(e, s, keys, k)
  {
    hide *;
    RoundsUnfold(m, e, s, cand, c, keys, k);
    RecordUnfold(m, e, s, keys, k);
    if k == 0 {
      EmptyRecord(m);
    } else {
      RoundsRecord(m, e, s, cand, c, keys, k - 1);
      ComparedKeeps(m, Rounds(m, e, s, cand, c, keys, k - 1), k - 1, Shown(e, s, keys, k - 1),
                    Shown(cand, c, keys, k - 1),
                    Heard(e, s, keys, k - 1), Heard(cand, c, keys, k - 1));
    }
  }

  lemma EmptyRecord<D>(m: Metrics<D>)
    ensures Empty(m).refAudio == [] && Empty(m).defects == [] && Empty(m).previous == Black()
  {
  }

  lemma RecordUnfold<S, D>(m: Metrics<D>, e: Emulator<S>, s: S, keys: nat -> nat, k: nat)
    ensures k == 0 ==> Audio(e, s, keys, k) == [] && Defects(m, e, s, keys, k) == [] && Before(e, s, keys, k) == Black()
    ensures k > 0 ==>
              var previous, fb := Before(e, s, keys, k - 1), Shown(e, s, keys, k - 1);
              && Before(e, s, keys, k) == fb
              && Audio(e, s, keys, k) == Audio(e, s, keys, k - 1) + Heard(e, s, keys, k - 1)
              && Defects(m, e, s, keys, k) == Defects(m, e, s, keys, k - 1) +
                   if k - 1 > 0 && m.moved(previous, fb) then [m.ssim(previous, fb)] else []
  {
    hide Shown, Heard;
  }

  lemma ComparedKeeps<D>(m: Metrics<D>, t: Tally<D>, frame: nat, rf: Frame, cf: Frame, ra: seq<int>, ca: seq<int>)
    ensures var t' := Compared(m, t, frame, rf, cf, ra, ca);
            && t'.refAudio == t.refAudio + ra && t'.previous == rf
            && t'.defects == if frame > 0 && m.moved(t.previous, rf) then t.defects + [m.ssim(t.previous, rf)]
               else t.defects
  {
    hide Differing, Counted, Defect;
  }
}
