/** The samples of a buffer: the `CW_GENERATOR` loops that write a tone, and
    the cleared buffer `create` writes its tone segments into.

    Samples are of any type `S`. The tone is the parameter `tone(t)`, the
    sample `t` frames into a tone segment (the source computes it as
    `volume * scale * sin(2 * pi * frequency * t / rate)`); `silence` is the
    zero the buffer is cleared to. Frames are interleaved: sample `j` of frame
    `f` sits at index `f * channels + j`. */
module ToneRender {
  import opened MorseTable
  import opened MorseSource

  /** Interleaved index `k` belongs to frame `f`. */
  lemma FrameOf(k: nat, channels: nat, f: nat)
    requires channels >= 1 && f * channels <= k < f * channels + channels
    ensures k / channels == f
  {
    DivUnique(k, channels, f, k - f * channels);
  }

  /** The samples of frames `[a, b)` are the indices `[a * channels, b * channels)`. */
  lemma FrameRange(k: nat, channels: nat, a: nat, b: nat)
    requires channels >= 1
    ensures (a * channels <= k < b * channels) <==> (a <= k / channels < b)
  {
    var f := k / channels;
    FrameOf(k, channels, f);
    assert f * channels <= k < (f + 1) * channels;
    if a <= f {
      MulMono(channels, a, f);
    } else {
      MulMono(channels, f + 1, a);
    }
    if f < b {
      MulMono(channels, f + 1, b);
    } else {
      MulMono(channels, b, f);
    }
  }

  /** The inner loop of `CW_GENERATOR`: the same sample on every channel of
      the frame whose samples start at index `base`. */
  method WriteFrame<S>(data: seq<S>, base: nat, channels: nat, value: S) returns (out: seq<S>)
    requires base + channels <= |data|
    ensures |out| == |data|
    ensures forall k :: base <= k < base + channels ==> out[k] == value
    ensures forall k :: 0 <= k < |data| && !(base <= k < base + channels) ==> out[k] == data[k]
  {
    out := data;
    var j := 0;
    while j < channels
      invariant 0 <= j <= channels
      invariant |out| == |data|
      invariant forall k :: base <= k < base + j ==> out[k] == value
      invariant forall k :: 0 <= k < |data| && !(base <= k < base + j) ==> out[k] == data[k]
    {
      out := out[base + j := value];
      j := j + 1;
    }
  }

  /** `CW_GENERATOR`: `n` frames of tone from frame `start` on, the same
      sample on every channel of a frame, the tone's phase counted from the
      first frame written. Nothing outside those frames changes. */
  method WriteTone<S>(data: seq<S>, start: nat, n: nat, channels: nat, tone: int -> S) returns (out: seq<S>)
    requires channels >= 1 && (start + n) * channels <= |data|
    ensures |out| == |data|
    ensures forall k :: start * channels <= k < (start + n) * channels ==>
      out[k] == tone(k / channels - start)
    ensures forall k :: 0 <= k < |data| && !(start * channels <= k < (start + n) * channels) ==>
      out[k] == data[k]
  {
    out := data;
    var lo := start * channels;
    var i := 0;
    while i < n
      invariant 0 <= i <= n
      invariant |out| == |data|
      invariant forall k :: lo <= k < (start + i) * channels ==> out[k] == tone(k / channels - start)
      invariant forall k :: 0 <= k < |data| && !(lo <= k < (start + i) * channels) ==> out[k] == data[k]
    {
      var base := (start + i) * channels;
      var next := (start + i + 1) * channels;
      assert next == base + channels;
      MulMono(channels, start + i + 1, start + n);
      MulMono(channels, start, start + i);
      assert lo <= base && next <= |data|;
      out := WriteFrame(out, base, channels, tone(i));
      forall k | base <= k < next
        ensures out[k] == tone(k / channels - start)
      {
        FrameOf(k, channels, start + i);
      }
      i := i + 1;
    }
  }

  /** The sample at frame `f` once the segments are written in order into a
      cleared buffer: the tone of the last tone segment covering `f`, else
      silence. */
  function SampleAt<S>(segments: seq<Segment>, f: nat, silence: S, tone: int -> S): S
    decreases |segments|
  {
    if segments == [] then silence
    else
      var last := segments[|segments| - 1];
      if last.tone && last.start <= f < last.start + last.length then tone(f - last.start)
      else SampleAt(segments[..|segments| - 1], f, silence, tone)
  }

  /** The sample part of `create`: a buffer of `MaxFrames` frames cleared to
      silence, every tone segment written into it, the result cut to the
      frames the fill loop reached. */
  method RenderBuffer<S>(segments: seq<Segment>, frames: nat, channels: nat, silence: S, tone: int -> S)
    returns (data: seq<S>)
    requires channels >= 1 && frames <= MaxFrames
    requires forall k :: 0 <= k < |segments| ==> segments[k].start + segments[k].length <= MaxFrames
    ensures |data| == frames * channels
    ensures forall k :: 0 <= k < |data| ==> data[k] == SampleAt(segments, k / channels, silence, tone)
  {
    var buffer := seq(MaxFrames * channels, _ => silence);
    var s := 0;
    while s < |segments|
      invariant 0 <= s <= |segments|
      invariant |buffer| == MaxFrames * channels
      invariant forall k :: 0 <= k < |buffer| ==> buffer[k] == SampleAt(segments[..s], k / channels, silence, tone)
    {
      var seg := segments[s];
      var prefix := segments[..s + 1];
      assert prefix[..s] == segments[..s] && prefix[s] == seg;
      if seg.tone {
        MulMono(channels, seg.start + seg.length, MaxFrames);
        var before := buffer;
        buffer := WriteTone(buffer, seg.start, seg.length, channels, tone);
        forall k | 0 <= k < |buffer|
          ensures buffer[k] == SampleAt(prefix, k / channels, silence, tone)
        {
          FrameRange(k, channels, seg.start, seg.start + seg.length);
        }
      } else {
        forall k | 0 <= k < |buffer|
          ensures buffer[k] == SampleAt(prefix, k / channels, silence, tone)
        {
        }
      }
      s := s + 1;
    }
    assert segments[..s] == segments;
    MulMono(channels, frames, MaxFrames);
    data := buffer[..frames * channels];
  }

  /** No two segments overlap, and they come in order. */
  predicate Ordered(segments: seq<Segment>)
  {
    forall a, b :: 0 <= a < b < |segments| ==> segments[a].start + segments[a].length <= segments[b].start
  }

  /** Segments laid end to end from frame `from` come in order, no earlier
      than `from`. */
  lemma {:induction false} TilesOrdered(segments: seq<Segment>, from: nat, to: nat)
    requires Tiles(segments, from, to)
    ensures Ordered(segments)
    ensures forall a :: 0 <= a < |segments| ==> from <= segments[a].start
    decreases |segments|
  {
    if segments != [] {
      var rest := segments[1..];
      TilesOrdered(rest, from + segments[0].length, to);
      assert forall a :: 1 <= a < |segments| ==> segments[a] == rest[a - 1];
    }
  }

  /** A frame no segment covers stays silent. */
  lemma {:induction false} UncoveredIsSilent<S>(segments: seq<Segment>, f: nat, silence: S, tone: int -> S)
    requires forall a :: 0 <= a < |segments| ==> !(segments[a].start <= f < segments[a].start + segments[a].length)
    ensures SampleAt(segments, f, silence, tone) == silence
    decreases |segments|
  {
    if segments != [] {
      var prefix := segments[..|segments| - 1];
      assert forall a :: 0 <= a < |prefix| ==> prefix[a] == segments[a];
      UncoveredIsSilent(prefix, f, silence, tone);
    }
  }

  /** In ordered segments, frame `f` of segment `s` sounds that segment: its
      tone, counted from the segment's start, or silence for a gap. */
  lemma {:induction false} SampleInSegment<S>(segments: seq<Segment>, s: nat, f: nat, silence: S, tone: int -> S)
    requires Ordered(segments) && s < |segments|
    requires segments[s].start <= f < segments[s].start + segments[s].length
    ensures SampleAt(segments, f, silence, tone)
      == if segments[s].tone then tone(f - segments[s].start) else silence
    decreases |segments|
  {
    var last := |segments| - 1;
    var prefix := segments[..last];
    assert forall a :: 0 <= a < |prefix| ==> prefix[a] == segments[a];
    if s < last {
      assert segments[s].start + segments[s].length <= segments[last].start;
      SampleInSegment(prefix, s, f, silence, tone);
    } else if !segments[s].tone {
      forall a | 0 <= a < |prefix|
        ensures !(prefix[a].start <= f < prefix[a].start + prefix[a].length)
      {
        assert prefix[a].start + prefix[a].length <= segments[s].start;
      }
      UncoveredIsSilent(prefix, f, silence, tone);
    }
  }

  /** A buffer `create` returns sounds as the symbols it played: every frame
      inside the segment of symbol `s` carries that symbol's tone, counted
      from where the symbol starts, when it is a dot or a dash, and silence
      when it is a space. */
  lemma BufferSoundsSymbols<S>(src: MorseSrc, d: Timing.Durations, rate: nat, s: nat, f: nat, silence: S, tone: int -> S)
    requires Valid(src) && Timing.Proportional(d) && rate >= 1
    requires Create(src, d, rate).flow.Ok?
    requires var b := Create(src, d, rate).flow.buffer;
      s < |b.segments| && b.segments[s].start <= f < b.segments[s].start + b.segments[s].length
    ensures var b := Create(src, d, rate).flow.buffer;
      var symbol := src.timeline.symbols[src.position + s];
      f < b.frames
      && SampleAt(b.segments, f, silence, tone)
           == if MorseEncoder.IsTone(symbol) then tone(f - b.segments[s].start) else silence
  {
    var b := Create(src, d, rate).flow.buffer;
    CreateTiles(src, d, rate);
    CreatePlays(src, d, rate);
    TilesOrdered(b.segments, 0, b.frames);
    TilesEnd(b.segments, 0, b.frames, s);
    SampleInSegment(b.segments, s, f, silence, tone);
  }

  /** Every segment laid end to end ends no later than the last. */
  lemma {:induction false} TilesEnd(segments: seq<Segment>, from: nat, to: nat, s: nat)
    requires Tiles(segments, from, to) && s < |segments|
    ensures segments[s].start + segments[s].length <= to
    decreases |segments|
  {
    TilesTotal(segments[1..], from + segments[0].length, to);
    if s > 0 {
      TilesEnd(segments[1..], from + segments[0].length, to, s - 1);
    }
  }
}
