/** Dual_Resampler: whole frames of mixed FM and PSG sound, played out in pieces of any size. The frame
    buffer doubles as scratch space while frames are mixed straight into the caller's buffer. */
module DualResampler {
  import opened BlipBuffer

  /** What the two sources deliver for each frame: resampled stereo sound, and one Blip_Buffer sample a pair. */
  datatype Sources = Sources(size: nat, pcm: nat -> seq<int>, blip: nat -> seq<int>)
  {
    ghost predicate Valid() {
      && size > 0 && size % 2 == 0
      && (forall k :: |pcm(k)| == size)
      && (forall k :: |blip(k)| == size / 2)
    }

    /** The k-th frame: both channels get the same Blip_Buffer sample. */
    ghost function Frame(k: nat): (frame: seq<int>)
      requires Valid()
      ensures |frame| == size
    {
      seq(size, j requires 0 <= j < size => Clamped(pcm(k)[j] * 2 + blip(k)[j / 2]))
    }

    /** A pair of a frame: twice the resampled sound plus the Blip_Buffer's, cut to 16 bits. */
    lemma FrameIsMix(k: nat, i: nat)
      requires Valid() && i < size / 2
      requires forall j :: 2 * i <= j <= 2 * i + 1 ==> -0x100_0000 <= pcm(k)[j] * 2 + blip(k)[i] < 0x100_0000
      ensures Frame(k)[2 * i] == Nearest(pcm(k)[2 * i] * 2 + blip(k)[i])
      ensures Frame(k)[2 * i + 1] == Nearest(pcm(k)[2 * i + 1] * 2 + blip(k)[i])
    {
      ClampedIsNearest(pcm(k)[2 * i] * 2 + blip(k)[i]);
      ClampedIsNearest(pcm(k)[2 * i + 1] * 2 + blip(k)[i]);
    }

    /** The first n frames, one after the other. */
    ghost function Chained(n: nat): (s: seq<int>)
      requires Valid()
      ensures |s| == n * size
    {
      if n == 0 then [] else Grown(n); Chained(n - 1) + Frame(n - 1)
    }

    lemma Grown(n: nat)
      requires n > 0
      ensures (n - 1) * size + size == n * size
    {
    }

    lemma ChainedNext(n: nat)
      requires Valid()
      ensures Chained(n + 1) == Chained(n) + Frame(n) && |Frame(n)| == size
    {
    }

    /** Consecutive pieces join, however many frames were added in between. */
    lemma PiecesJoin(n: nat, m: nat, a: nat, b: nat, c: nat)
      requires Valid() && n <= m && a <= b <= n * size && b <= c <= m * size
      ensures Chained(n)[a..b] + Chained(m)[b..c] == Chained(m)[a..c]
    {
      ChainedPrefix(n, m);
    }

    lemma {:induction false} ChainedPrefix(n: nat, m: nat)
      requires Valid() && n <= m
      ensures Chained(n) <= Chained(m)
    {
      if n < m {
        ChainedPrefix(n, m - 1);
      }
    }
  }

  function Nearest(x: int): int {
    if x < -0x8000 then -0x8000 else if x > 0x7FFF then 0x7FFF else x
  }

  lemma Appended(s: seq<int>, frame: seq<int>, start: nat, count: nat)
    requires start <= |s| && count <= |frame|
    ensures (s + frame)[start..|s| + count] == s[start..] + frame[..count]
    ensures (s + frame)[|s| + count..] == frame[count..]
  {
  }

  class DualResampler {
    const sources: Sources
    const sampleBuf: array<int>
    var bufPos: nat
    var frames: nat                    // frames generated: how far the two sources have been drawn
    ghost var played: nat              // samples handed out

    /** What is left in the buffer is exactly what has been generated and not handed out. */
    ghost predicate Valid()
      reads this, sampleBuf
    {
      && sources.Valid() && sampleBuf.Length == sources.size && bufPos <= sampleBuf.Length
      && played <= |sources.Chained(frames)|
      && sampleBuf[bufPos..] == sources.Chained(frames)[played..]
    }

    constructor (sources: Sources)
      requires sources.Valid()
      ensures Valid() && fresh(sampleBuf) && this.sources == sources && played == 0
    {
      this.sources := sources;
      sampleBuf := new int[sources.size];
      bufPos := sources.size;          // clear
      frames, played := 0, 0;
    }

    /** Mixes the resampled frame in sample_buf with the Blip_Buffer's, possibly in place. */
    method MixSamples(k: nat, out: array<int>, pos: nat)
      requires sources.Valid() && sampleBuf.Length == sources.size && sampleBuf[..] == sources.pcm(k)
      requires pos + sources.size <= out.Length && (out == sampleBuf ==> pos == 0)
      modifies out
      ensures out[pos..pos + sources.size] == sources.Frame(k)
      ensures out[..pos] == old(out[..pos])
    {
      hide Clamped;
      ghost var pcm, frame := sources.pcm(k), sources.Frame(k);
      var blip := sources.blip(k);
      for i := 0 to sources.size / 2
        invariant forall j :: 0 <= j < 2 * i ==> out[pos + j] == frame[j]
        invariant forall j :: 2 * i <= j < sources.size ==> sampleBuf[j] == pcm[j]
        invariant forall j :: 0 <= j < pos ==> out[j] == old(out[j])
      {
        assert frame[2 * i] == Clamped(pcm[2 * i] * 2 + blip[i]);
        assert frame[2 * i + 1] == Clamped(pcm[2 * i + 1] * 2 + blip[i]);
        var s := blip[i];
        var l := sampleBuf[2 * i] * 2 + s;
        var r := sampleBuf[2 * i + 1] * 2 + s;
        out[pos + 2 * i] := Clamped(l);
        out[pos + 2 * i + 1] := Clamped(r);
      }
    }

    /** play_frame_: reads the next frame into sample_buf and mixes it to out. */
    method PlayFrame(out: array<int>, pos: nat)
      requires sources.Valid() && sampleBuf.Length == sources.size
      requires pos + sources.size <= out.Length && (out == sampleBuf ==> pos == 0)
      modifies out, sampleBuf, this`frames
      ensures frames == old(frames) + 1
      ensures out[pos..pos + sources.size] == sources.Frame(old(frames))
      ensures out[..pos] == old(out[..pos])
    {
      var pcm := sources.pcm(frames);
      forall j | 0 <= j < sampleBuf.Length {
        sampleBuf[j] := pcm[j];
      }
      assert sampleBuf[..] == pcm;
      MixSamples(frames, out, pos);
      frames := frames + 1;
    }

    /** memcpy. */
    method CopyOut(from: nat, n: nat, out: array<int>, pos: nat)
      requires out != sampleBuf && from + n <= sampleBuf.Length && pos + n <= out.Length
      modifies out
      ensures out[pos..pos + n] == sampleBuf[from..from + n]
      ensures out[..pos] == old(out[..pos])
    {
      for i := 0 to n
        invariant out[pos..pos + i] == sampleBuf[from..from + i]
        invariant forall j :: 0 <= j < pos ==> out[j] == old(out[j])
      {
        out[pos + i] := sampleBuf[from + i];
      }
    }

    /** dual_play: the next count samples of the chained frames, wherever the last call stopped. */
    method DualPlay(count: nat, out: array<int>)
      requires Valid() && count <= out.Length && out != sampleBuf
      modifies this`bufPos, this`frames, this`played, sampleBuf, out
      ensures Valid() && played == old(played) + count
      ensures out[..count] == sources.Chained(frames)[old(played)..played]
    {
      var size := sources.size;
      ghost var start := played;

      // empty extra buffer
      var done := EmptyExtra(count, out);

      // entire frames
      while count - done >= size
        invariant Valid() && done <= count && played == start + done && (done < count ==> bufPos == size)
        invariant out[..done] == sources.Chained(frames)[start..played]
        decreases count - done
      {
        WholeFrame(out, done, start);
        done := done + size;
      }

      // extra
      if done < count {
        Extra(count - done, out, done, start);
      }
    }

    method EmptyExtra(count: nat, out: array<int>) returns (n: nat)
      requires Valid() && count <= out.Length && out != sampleBuf
      modifies this`bufPos, this`played, out
      ensures Valid() && n <= count && played == old(played) + n && (n < count ==> bufPos == sources.size)
      ensures out[..n] == sources.Chained(frames)[old(played)..played]
    {
      hide Sources.Chained, Sources.Frame;
      n := sources.size - bufPos;
      if n > count {
        n := count;
      }
      CopyOut(bufPos, n, out, 0);
      ghost var left := sources.Chained(frames)[played..];
      assert sampleBuf[bufPos..][..n] == sampleBuf[bufPos..bufPos + n];
      assert left[..n] == sources.Chained(frames)[played..played + n];
      assert sampleBuf[bufPos..][n..] == sampleBuf[bufPos + n..];
      assert left[n..] == sources.Chained(frames)[played + n..];
      bufPos := bufPos + n;
      played := played + n;
    }

    method WholeFrame(out: array<int>, done: nat, ghost start: nat)
      requires Valid() && bufPos == sources.size && out != sampleBuf && done + sources.size <= out.Length
      requires start <= played && out[..done] == sources.Chained(frames)[start..played]
      modifies this`frames, this`played, sampleBuf, out
      ensures Valid() && played == old(played) + sources.size
      ensures out[..done + sources.size] == sources.Chained(frames)[start..played]
    {
      hide Sources.Chained, Sources.Frame, Sources.Valid;
      ghost var before, frame := sources.Chained(frames), sources.Frame(frames);
      sources.ChainedNext(frames);
      PlayFrame(out, done);
      played := played + sources.size;
      Appended(before, frame, start, sources.size);
      assert out[..done + sources.size] == out[..done] + out[done..done + sources.size];
    }

    method Extra(count: nat, out: array<int>, done: nat, ghost start: nat)
      requires Valid() && bufPos == sources.size && out != sampleBuf && 0 < count < sources.size
               && done + count <= out.Length
      requires start <= played && out[..done] == sources.Chained(frames)[start..played]
      modifies this`bufPos, this`frames, this`played, sampleBuf, out
      ensures Valid() && played == old(played) + count
      ensures out[..done + count] == sources.Chained(frames)[start..played]
    {
      hide Sources.Chained, Sources.Frame, Sources.Valid;
      ghost var before, frame := sources.Chained(frames), sources.Frame(frames);
      sources.ChainedNext(frames);
      PlayFrame(sampleBuf, 0);
      assert sampleBuf[..] == frame;
      bufPos := count;
      CopyOut(0, count, out, done);
      played := played + count;
      Appended(before, frame, start, count);
      assert out[..done + count] == out[..done] + out[done..done + count];
    }
  }
}
