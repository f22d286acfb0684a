/// What stands where in a recorded run, byte by byte, and what its player does when the
/// recording is over.
module Recording {
  import opened Lockstep
  import opened RefCache

  /** Byte `b` of a pixel, the lowest first. */
  function ByteAt(pixel: int, b: nat): int
    requires b < 4
  {
    pixel / [1, 0x100, 0x1_0000, 0x100_0000][b] % 0x100
  }

  lemma PixelBytesAt(p: Pixel, b: nat)
    requires b < 4
    ensures PixelBytes(p)[b] == ByteAt(p, b)
  {
  }

  lemma {:induction false} ToBytesAt(f: seq<Pixel>, p: nat, b: nat)
    requires p < |f| && b < 4
    ensures ToBytes(f)[4 * p + b] == ByteAt(f[p], b)
    decreases p
  {
    PixelBytesAt(f[0], b);
    hide ByteAt, PixelBytes;
    if p > 0 {
      ToBytesAt(f[1..], p - 1, b);
      assert ToBytes(f)[4 * p + b] == ToBytes(f[1..])[4 * (p - 1) + b];
    }
  }

  lemma FrameByteAt<S>(e: Emulator<S>, s: S, keys: nat -> nat, n: nat, i: nat, p: nat, b: nat)
    requires i < n && p < 38400 && b < 4
    ensures 0 <= 4 * (38400 * i + p) + b < |Frames(e, s, keys, n)|
    ensures Frames(e, s, keys, n)[4 * (38400 * i + p) + b] == ByteAt(Shown(e, s, keys, i)[p], b)
  {
    FramesAt(e, s, keys, n, i);
    ToBytesAt(Shown(e, s, keys, i), p, b);
    var at := Offset(i);
    assert at == i * 153600;
    hide Frames, ToBytes, Shown, ByteAt, Offset;
    var slice := Frames(e, s, keys, n)[at..at + GBA_BYTES];
    assert slice[4 * p + b] == Frames(e, s, keys, n)[at + (4 * p + b)];
  }

  /** The recording of `n` frames: pixel `p` of frame `i` is four bytes, low byte first, behind
      38400 pixels for each frame before; the sounds follow each other, and each is noted by
      its number of pairs; the rate and the boot frames are those after the run. */
  lemma RecordingMeans<S, D>(m: Metrics<D>, e: Emulator<S>, s: S, keys: nat -> nat, n: nat, inputs: Inputs,
                             i: nat, p: nat, b: nat) returns (from: nat, to: nat)
    requires i < n && p < 38400 && b < 4
    ensures var c, s0 := Recorded(m, e, s, keys, n, inputs), Booted(e, s);
            && c.version == 7 && c.inputs == inputs && c.frameCount == n
            && c.audioRate == e.audioRate(After(e, s0, keys, n)) && c.bootFrames == e.bootFrames(After(e, s0, keys, n))
            && 0 <= 4 * (38400 * i + p) + b < |c.frames|
            && c.frames[4 * (38400 * i + p) + b] == ByteAt(Shown(e, s0, keys, i)[p], b)
            && |c.pairs| == n && c.pairs[i] == |Heard(e, s0, keys, i)| / 2
            && from <= to <= |c.audio| && c.audio[from..to] == Heard(e, s0, keys, i)
            && (i == 0 ==> from == 0) && (i == n - 1 ==> to == |c.audio|)
  {
    var s0 := Booted(e, s);
    FrameByteAt(e, s0, keys, n, i, p, b);
    PairsAt(e, s0, keys, n, i);
    AudioAt(e, s0, keys, n, i);
    from, to := |Audio(e, s0, keys, i)|, |Audio(e, s0, keys, i + 1)|;
    hide Frames, Pairs, Shown, Heard, Defects, After, Booted, ByteAt;
  }

  /** Before frame `i` the player's cursor stands one frame back. */
  lemma {:induction false} CursorAt<D>(c: Cache<D>, keys: nat -> nat, i: nat)
    requires Consistent(c)
    ensures After(Cached(c), Start(), keys, i).cursor == i - 1
  {
    if i > 0 {
      CursorAt(c, keys, i - 1);
      CachedFrame(c, keys, i - 1);
      hide Consistent, FrameBytes;
    }
  }

  /** Past its end a recording shows its last picture on, or black if it has none, and plays
      nothing. */
  lemma {:induction false} PastTheEnd<D>(c: Cache<D>, keys: nat -> nat, i: nat)
    requires Consistent(c) && i >= c.frameCount
    ensures Heard(Cached(c), Start(), keys, i) == []
    ensures Shown(Cached(c), Start(), keys, i)
         == if c.frameCount == 0 then Black() else Shown(Cached(c), Start(), keys, c.frameCount - 1)
  {
    CursorAt(c, keys, i);
    CachedFrame(c, keys, i);
    if i > 0 {
      CursorAt(c, keys, i - 1);
      CachedFrame(c, keys, i - 1);
    }
    hide Consistent, FrameBytes, Shown, Heard;
    if i > c.frameCount {
      PastTheEnd(c, keys, i - 1);
    }
  }
}
