/** The push source itself: `gst_morse_src_create` walks the keying string
    (the timeline) and fills one fixed-size buffer per call; `start` rebuilds
    the timeline from the text and `stop` discards it.

    A buffer is described by the segments it is made of: every symbol the fill
    loop consumes contributes one run of frames, a tone for `'.'` and `'-'`
    and silence for `' '`. The samples themselves are rendered from the
    segments by `ToneRender`. */
module MorseSource {
  import opened MorseEncoder
  import opened Timing
  import MorseAlphabet

  /** `max_samples`: the frame capacity of every buffer. */
  const MaxFrames: nat := 5292 * 10

  /** `GST_SECOND`: nanoseconds per second, the unit of timestamps. */
  const Second: nat := 1000000000

  /** The generated keying string, or none before `start` and after `stop`. */
  datatype Timeline = NoTimeline | Timeline(symbols: string)

  /** The element's stream state: the timeline, the index of the next symbol
      to play, and the running presentation time in nanoseconds. */
  datatype MorseSrc = MorseSrc(timeline: Timeline, position: nat, timestamp: nat)

  /** The frames `[start, start + length)` one symbol contributed to a buffer. */
  datatype Segment = Segment(start: nat, length: nat, tone: bool)

  /** A produced buffer: presentation time, duration, frame count, content. */
  datatype Buffer = Buffer(pts: nat, duration: nat, frames: nat, segments: seq<Segment>)

  /** `GST_FLOW_EOS`, or `GST_FLOW_OK` with the buffer handed downstream. */
  datatype Flow = Eos | Ok(buffer: Buffer)

  datatype Step = Step(src: MorseSrc, flow: Flow)

  /** Where the fill loop stopped: next symbol, frames written, segments. */
  datatype Fill = Fill(position: nat, frames: nat, segments: seq<Segment>)

  /** The state `gst_morse_src_init` leaves: no timeline, cursor at zero. */
  function Init(): (src: MorseSrc)
    ensures Valid(src)
  {
    MorseSrc(NoTimeline, 0, 0)
  }

  /** The state `create` relies on: a timeline over the keying symbols with
      the cursor inside it or at its end. */
  predicate Valid(src: MorseSrc)
  {
    match src.timeline
    case NoTimeline => true
    case Timeline(symbols) => IsKeyingString(symbols) && src.position <= |symbols|
  }

  /** The `switch (symbol)` of the fill loop: the frames a symbol lasts. */
  function SymbolFrames(symbol: char, d: Durations): (r: nat)
    ensures Proportional(d) ==>
      r == (if symbol == '-' then 3 * d.dot else if IsKeyingSymbol(symbol) then d.dot else 0)
  {
    match symbol
    case '.' => d.dot
    case '-' => d.dash
    case ' ' => d.space
    case _ => 0
  }

  function Min(a: nat, b: nat): nat
  {
    if a <= b then a else b
  }

  /** The padding the loop adds after a symbol of `n` frames that ends at
      frame `i`: a short symbol is padded up to one space when the rest of
      that space still fits in the buffer. */
  function Padding(n: nat, i: nat, d: Durations): (r: nat)
    requires i <= MaxFrames
    ensures n >= d.space ==> r == 0
    ensures r > 0 ==> n + r == d.space && i + r < MaxFrames
  {
    if n < d.space && d.space < MaxFrames - i then d.space - n else 0
  }

  /** The fill loop of `create`, from symbol `position` and frame `i`. Every
      symbol contributes the frames it lasts or, if fewer, the room left,
      and is consumed either way. */
  function FillBuffer(symbols: string, d: Durations, position: nat, i: nat): (r: Fill)
    requires position <= |symbols| && i <= MaxFrames
    ensures position <= r.position <= |symbols|
    ensures i <= r.frames <= MaxFrames
    ensures r.position == |symbols| || r.frames == MaxFrames
    ensures i < MaxFrames && position < |symbols| ==> position < r.position
    ensures |r.segments| == r.position - position
    decreases |symbols| - position
  {
    if i >= MaxFrames || position >= |symbols| then Fill(position, i, [])
    else
      var symbol := symbols[position];
      var n := Min(MaxFrames - i, SymbolFrames(symbol, d));
      var next := i + n;
      var rest := FillBuffer(symbols, d, position + 1, next + Padding(n, next, d));
      Fill(rest.position, rest.frames, [Segment(i, n, symbol != ' ')] + rest.segments)
  }

  /** `gst_util_uint64_scale (value, num, denom)`: `value * num / denom`, rounded down. */
  function Scale(value: nat, num: nat, denom: nat): (r: nat)
    requires denom >= 1
    ensures r * denom <= value * num < (r + 1) * denom
  {
    var product: nat := value * num;
    FloorDiv(product, denom);
    product / denom
  }

  /** `gst_morse_src_create` at sample rate `rate` with the durations `d`
      fixed at caps negotiation. */
  function Create(src: MorseSrc, d: Durations, rate: nat): (r: Step)
    requires rate >= 1
    ensures r.flow.Eos? <==> (src.timeline.NoTimeline? || src.position >= |src.timeline.symbols|)
    ensures r.flow.Eos? ==> r.src == src
    ensures r.flow.Ok? ==>
      && r.src.timeline == src.timeline
      && src.position < r.src.position <= |src.timeline.symbols|
      && |r.flow.buffer.segments| == r.src.position - src.position
      && r.flow.buffer.frames <= MaxFrames
      && r.flow.buffer.pts == src.timestamp
      && r.src.timestamp == src.timestamp + r.flow.buffer.duration
      && r.flow.buffer.duration * rate <= r.flow.buffer.frames * Second < (r.flow.buffer.duration + 1) * rate
  {
    match src.timeline
    case NoTimeline => Step(src, Eos)
    case Timeline(symbols) =>
      if src.position >= |symbols| then Step(src, Eos)
      else
        var fill := FillBuffer(symbols, d, src.position, 0);
        var duration := Scale(fill.frames, Second, rate);
        Step(MorseSrc(src.timeline, fill.position, src.timestamp + duration),
             Ok(Buffer(src.timestamp, duration, fill.frames, fill.segments)))
  }

  /** `gst_morse_src_start`: a fresh timeline keyed from the text, the cursor
      and the running time back at zero. */
  function Start(src: MorseSrc, text: seq<TextChar>): (r: MorseSrc)
    ensures Valid(r) && r.timeline == Timeline(EncodeText(text)) && |r.timeline.symbols| >= 3
    ensures r.position == 0 && r.timestamp == 0
  {
    TextIsKeying(text);
    MorseSrc(Timeline(EncodeText(text)), 0, 0)
  }

  /** `start` forgets the earlier state: the stream restarts the same way
      from any state. */
  lemma StartForgets(a: MorseSrc, b: MorseSrc, text: seq<TextChar>)
    ensures Start(a, text) == Start(b, text)
  {
  }

  /** `gst_morse_src_stop`: the timeline is freed; the cursor and running
      time are left as they were. */
  function Stop(src: MorseSrc): (r: MorseSrc)
    ensures r.timeline.NoTimeline? && Valid(r)
  {
    src.(timeline := NoTimeline)
  }

  /** The segments lie end to end, the first starting at frame `from` and
      the last ending at frame `to`. */
  predicate Tiles(segments: seq<Segment>, from: nat, to: nat)
    decreases |segments|
  {
    if segments == [] then from == to
    else segments[0].start == from && Tiles(segments[1..], from + segments[0].length, to)
  }

  /** A segment as the fill loop writes one keying symbol: a tone exactly for
      a dot or a dash, lasting the symbol's duration unless the end of the
      buffer cuts it short. */
  predicate Plays(segment: Segment, symbol: char, d: Durations)
  {
    && segment.tone == IsTone(symbol)
    && segment.start < MaxFrames
    && segment.start + segment.length <= MaxFrames
    && segment.length <= SymbolFrames(symbol, d)
    && (segment.length < SymbolFrames(symbol, d) ==> segment.start + segment.length == MaxFrames)
  }

  /** With durations in the 1:3:1 proportion `setcaps` derives, the padding
      branch of the fill loop never adds anything: a symbol is only shorter
      than a space when the buffer is already full. */
  lemma PaddingNeverApplies(symbol: char, d: Durations, i: nat)
    requires IsKeyingSymbol(symbol) && Proportional(d) && i <= MaxFrames
    ensures var n := Min(MaxFrames - i, SymbolFrames(symbol, d));
      Padding(n, i + n, d) == 0
  {
  }

  /** One step of the fill loop, with the padding known to add nothing. */
  lemma FillStep(symbols: string, d: Durations, position: nat, i: nat)
    requires IsKeyingString(symbols) && Proportional(d)
    requires position < |symbols| && i < MaxFrames
    ensures var n := Min(MaxFrames - i, SymbolFrames(symbols[position], d));
      var rest := FillBuffer(symbols, d, position + 1, i + n);
      FillBuffer(symbols, d, position, i)
        == Fill(rest.position, rest.frames, [Segment(i, n, symbols[position] != ' ')] + rest.segments)
  {
    assert IsKeyingSymbol(symbols[position]);
    PaddingNeverApplies(symbols[position], d, i);
  }

  /** The segments of the fill loop lie end to end from frame `i` to the
      frame it stopped at. */
  lemma {:induction false} FillTiles(symbols: string, d: Durations, position: nat, i: nat)
    requires IsKeyingString(symbols) && Proportional(d)
    requires position <= |symbols| && i <= MaxFrames
    ensures var r := FillBuffer(symbols, d, position, i);
      Tiles(r.segments, i, r.frames)
    decreases |symbols| - position
  {
    if i < MaxFrames && position < |symbols| {
      var n := Min(MaxFrames - i, SymbolFrames(symbols[position], d));
      FillStep(symbols, d, position, i);
      FillTiles(symbols, d, position + 1, i + n);
      var r := FillBuffer(symbols, d, position, i);
      assert r.segments[1..] == FillBuffer(symbols, d, position + 1, i + n).segments;
    }
  }

  /** Segment `k` of the fill loop plays symbol `position + k`. */
  lemma {:induction false} FillPlays(symbols: string, d: Durations, position: nat, i: nat)
    requires IsKeyingString(symbols) && Proportional(d)
    requires position <= |symbols| && i <= MaxFrames
    ensures var r := FillBuffer(symbols, d, position, i);
      forall k :: 0 <= k < |r.segments| ==> Plays(r.segments[k], symbols[position + k], d)
    decreases |symbols| - position
  {
    if i < MaxFrames && position < |symbols| {
      var n := Min(MaxFrames - i, SymbolFrames(symbols[position], d));
      FillStep(symbols, d, position, i);
      FillPlays(symbols, d, position + 1, i + n);
      var rest := FillBuffer(symbols, d, position + 1, i + n);
      var r := FillBuffer(symbols, d, position, i);
      assert IsKeyingSymbol(symbols[position]);
      assert Plays(r.segments[0], symbols[position], d);
      forall k | 1 <= k < |r.segments|
        ensures Plays(r.segments[k], symbols[position + k], d)
      {
        assert r.segments[k] == rest.segments[k - 1];
        assert symbols[position + k] == symbols[(position + 1) + (k - 1)];
      }
    }
  }

  /** Only the last segment of the fill loop can be cut short: a cut fills
      the buffer and ends the loop. */
  lemma {:induction false} FillCutsOnlyLast(symbols: string, d: Durations, position: nat, i: nat)
    requires IsKeyingString(symbols) && Proportional(d)
    requires position <= |symbols| && i <= MaxFrames
    ensures var r := FillBuffer(symbols, d, position, i);
      forall k :: 0 <= k < |r.segments| - 1 ==>
        r.segments[k].length == SymbolFrames(symbols[position + k], d)
    decreases |symbols| - position
  {
    if i < MaxFrames && position < |symbols| {
      var n := Min(MaxFrames - i, SymbolFrames(symbols[position], d));
      FillStep(symbols, d, position, i);
      FillCutsOnlyLast(symbols, d, position + 1, i + n);
      var rest := FillBuffer(symbols, d, position + 1, i + n);
      var r := FillBuffer(symbols, d, position, i);
      if n < SymbolFrames(symbols[position], d) {
        assert rest.segments == [];
      }
      forall k | 1 <= k < |r.segments| - 1
        ensures r.segments[k].length == SymbolFrames(symbols[position + k], d)
      {
        assert r.segments[k] == rest.segments[k - 1];
        assert symbols[position + k] == symbols[(position + 1) + (k - 1)];
      }
    }
  }

  /** A buffer `create` returns is made of segments laid end to end from
      its first frame to its last, and is full unless the timeline ran out. */
  lemma CreateTiles(src: MorseSrc, d: Durations, rate: nat)
    requires Valid(src) && Proportional(d) && rate >= 1
    requires Create(src, d, rate).flow.Ok?
    ensures var r := Create(src, d, rate);
      && Tiles(r.flow.buffer.segments, 0, r.flow.buffer.frames)
      && (r.src.position < |src.timeline.symbols| ==> r.flow.buffer.frames == MaxFrames)
  {
    CreateFill(src, d, rate);
    FillTiles(src.timeline.symbols, d, src.position, 0);
  }

  /** Segment `k` of a buffer `create` returns plays symbol `k` from the
      cursor on: a tone exactly for a dot or a dash. */
  lemma CreatePlays(src: MorseSrc, d: Durations, rate: nat)
    requires Valid(src) && Proportional(d) && rate >= 1
    requires Create(src, d, rate).flow.Ok?
    ensures var b := Create(src, d, rate).flow.buffer;
      forall k :: 0 <= k < |b.segments| ==> Plays(b.segments[k], src.timeline.symbols[src.position + k], d)
  {
    CreateFill(src, d, rate);
    FillPlays(src.timeline.symbols, d, src.position, 0);
  }

  /** In a buffer `create` returns, only the last symbol can be cut short. */
  lemma CreateCutsOnlyLast(src: MorseSrc, d: Durations, rate: nat)
    requires Valid(src) && Proportional(d) && rate >= 1
    requires Create(src, d, rate).flow.Ok?
    ensures var b := Create(src, d, rate).flow.buffer;
      forall k :: 0 <= k < |b.segments| - 1 ==>
        b.segments[k].length == SymbolFrames(src.timeline.symbols[src.position + k], d)
  {
    CreateFill(src, d, rate);
    FillCutsOnlyLast(src.timeline.symbols, d, src.position, 0);
  }

  /** A buffer `create` returns is what the fill loop produced from the
      cursor on, starting at frame zero. */
  lemma CreateFill(src: MorseSrc, d: Durations, rate: nat)
    requires Valid(src) && rate >= 1
    requires Create(src, d, rate).flow.Ok?
    ensures var r := Create(src, d, rate);
      var fill := FillBuffer(src.timeline.symbols, d, src.position, 0);
      && r.flow.buffer.frames == fill.frames
      && r.flow.buffer.segments == fill.segments
      && r.src.position == fill.position
  {
  }

  /** `create` keeps the stream state valid. */
  lemma CreateKeepsValid(src: MorseSrc, d: Durations, rate: nat)
    requires Valid(src) && rate >= 1
    ensures Valid(Create(src, d, rate).src)
  {
  }

  /** After `stop`, `create` reports end-of-stream and changes nothing. */
  lemma StopThenEos(src: MorseSrc, d: Durations, rate: nat)
    requires rate >= 1
    ensures Create(Stop(src), d, rate) == Step(Stop(src), Eos)
  {
  }

  /** Before `start`, there is nothing to play. */
  lemma InitThenEos(d: Durations, rate: nat)
    requires rate >= 1
    ensures Create(Init(), d, rate) == Step(Init(), Eos)
  {
  }

  /** After `start`, the first `create` returns a buffer stamped at time zero,
      whatever the text, and whatever the stream did before. */
  lemma StartThenBuffer(src: MorseSrc, text: seq<TextChar>, d: Durations, rate: nat)
    requires rate >= 1
    ensures var r := Create(Start(src, text), d, rate);
      r.flow.Ok? && r.flow.buffer.pts == 0
  {
  }

  /** One step of the fill loop over a space that fits in the buffer. */
  lemma FillSpace(symbols: string, d: Durations, position: nat, i: nat)
    requires position < |symbols| && symbols[position] == ' '
    requires Proportional(d) && i < MaxFrames && i + d.space <= MaxFrames
    ensures var rest := FillBuffer(symbols, d, position + 1, i + d.space);
      FillBuffer(symbols, d, position, i)
        == Fill(rest.position, rest.frames, [Segment(i, d.space, false)] + rest.segments)
  {
    assert SymbolFrames(' ', d) == d.space;
    assert Min(MaxFrames - i, d.space) == d.space;
    assert Padding(d.space, i + d.space, d) == 0;
  }

  /** Three spaces that fit fill three silent segments of one space each. */
  lemma ThreeSpacesFill(symbols: string, d: Durations)
    requires symbols == "   " && Proportional(d) && 3 * d.dot <= MaxFrames
    ensures FillBuffer(symbols, d, 0, 0)
      == Fill(3, 3 * d.dot, [Segment(0, d.dot, false), Segment(d.dot, d.dot, false), Segment(2 * d.dot, d.dot, false)])
  {
    var dot := d.dot;
    var s1 := Segment(dot, dot, false);
    var s2 := Segment(2 * dot, dot, false);
    assert FillBuffer(symbols, d, 3, 3 * dot) == Fill(3, 3 * dot, []);
    FillSpace(symbols, d, 2, 2 * dot);
    FillSpace(symbols, d, 1, dot);
    assert FillBuffer(symbols, d, 1, dot) == Fill(3, 3 * dot, [s1, s2]);
    FillSpace(symbols, d, 0, 0);
  }

  /** Empty text still keys the closing word gap, so the first buffer holds
      three spaces of silence and only the second `create` ends the stream. */
  lemma EmptyTextGivesSilence(src: MorseSrc, d: Durations, rate: nat)
    requires Proportional(d) && rate >= 1 && 3 * d.dot <= MaxFrames
    ensures var first := Create(Start(src, []), d, rate);
      && first.flow.Ok?
      && first.flow.buffer.frames == 3 * d.dot
      && first.flow.buffer.segments
           == [Segment(0, d.dot, false), Segment(d.dot, d.dot, false), Segment(2 * d.dot, d.dot, false)]
      && Create(first.src, d, rate).flow.Eos?
  {
    var start := Start(src, []);
    var symbols := EncodeText([]);
    assert start.timeline.symbols == symbols == "   ";
    ThreeSpacesFill(symbols, d);
    var fill := FillBuffer(symbols, d, 0, 0);
    var first := Create(start, d, rate);
    assert first.flow.buffer.segments == fill.segments;
  }

  /** The frame count of each segment, in order. */
  function Lengths(segments: seq<Segment>): (r: seq<nat>)
    ensures |r| == |segments|
    ensures forall k :: 0 <= k < |r| ==> r[k] == segments[k].length
  {
    if segments == [] then [] else [segments[0].length] + Lengths(segments[1..])
  }

  function Sum(xs: seq<nat>): nat
  {
    if xs == [] then 0 else xs[0] + Sum(xs[1..])
  }

  lemma {:induction false} SumAppend(a: seq<nat>, b: seq<nat>)
    ensures Sum(a + b) == Sum(a) + Sum(b)
    decreases |a|
  {
    if a == [] {
      assert a + b == b;
    } else {
      assert (a + b)[1..] == a[1..] + b;
      SumAppend(a[1..], b);
    }
  }

  /** Segments laid end to end cover exactly their total length. */
  lemma {:induction false} TilesTotal(segments: seq<Segment>, from: nat, to: nat)
    requires Tiles(segments, from, to)
    ensures to == from + Sum(Lengths(segments))
    decreases |segments|
  {
    if segments != [] {
      TilesTotal(segments[1..], from + segments[0].length, to);
      assert Lengths(segments)[1..] == Lengths(segments[1..]);
    }
  }

  /** The nominal frames of the symbols `from` up to `to`, as the durations
      say, with nothing cut. */
  function Span(symbols: string, d: Durations, from: nat, to: nat): nat
    requires from <= to <= |symbols|
    decreases |symbols| - from
  {
    if from == to then 0 else SymbolFrames(symbols[from], d) + Span(symbols, d, from + 1, to)
  }

  /** Symbols still to be played: the measure that ends every run. */
  function Remaining(src: MorseSrc): nat
  {
    match src.timeline
    case NoTimeline => 0
    case Timeline(symbols) => if src.position <= |symbols| then |symbols| - src.position else 0
  }

  /** The segment lengths of all buffers that repeated `create` calls return
      from `src` on until end-of-stream, one per symbol played. */
  function RunLengths(src: MorseSrc, d: Durations, rate: nat): seq<nat>
    requires rate >= 1
    decreases Remaining(src)
  {
    var step := Create(src, d, rate);
    if step.flow.Eos? then []
    else Lengths(step.flow.buffer.segments) + RunLengths(step.src, d, rate)
  }

  /** The frames of all buffers that repeated `create` calls return from
      `src` on until end-of-stream. */
  function RunFrames(src: MorseSrc, d: Durations, rate: nat): nat
    requires rate >= 1
    decreases Remaining(src)
  {
    var step := Create(src, d, rate);
    if step.flow.Eos? then 0
    else step.flow.buffer.frames + RunFrames(step.src, d, rate)
  }

  /** Over a whole run every remaining symbol is played exactly once, for at
      most its nominal duration, and the buffers hold exactly those frames. */
  lemma {:induction false} RunAccounting(src: MorseSrc, d: Durations, rate: nat)
    requires Valid(src) && Proportional(d) && rate >= 1 && src.timeline.Timeline?
    ensures var symbols := src.timeline.symbols;
      var lengths := RunLengths(src, d, rate);
      && |lengths| == |symbols| - src.position
      && RunFrames(src, d, rate) == Sum(lengths)
      && forall k :: 0 <= k < |lengths| ==> lengths[k] <= SymbolFrames(symbols[src.position + k], d)
    decreases Remaining(src)
  {
    var symbols := src.timeline.symbols;
    var step := Create(src, d, rate);
    if step.flow.Ok? {
      var b := step.flow.buffer;
      var here := Lengths(b.segments);
      CreateTiles(src, d, rate);
      CreatePlays(src, d, rate);
      CreateKeepsValid(src, d, rate);
      TilesTotal(b.segments, 0, b.frames);
      RunAccounting(step.src, d, rate);
      var rest := RunLengths(step.src, d, rate);
      SumAppend(here, rest);
      var lengths := RunLengths(src, d, rate);
      assert lengths == here + rest;
      forall k | 0 <= k < |lengths|
        ensures lengths[k] <= SymbolFrames(symbols[src.position + k], d)
      {
        if k < |here| {
          assert lengths[k] == b.segments[k].length;
        } else {
          assert lengths[k] == rest[k - |here|];
          assert symbols[src.position + k] == symbols[step.src.position + (k - |here|)];
        }
      }
    }
  }

  /** Lengths bounded one by one by the symbols' durations sum to at most
      their span, and to exactly the span only when none falls short. */
  lemma {:induction false} SumBelowSpan(lengths: seq<nat>, symbols: string, d: Durations, from: nat)
    requires from <= |symbols| && |lengths| == |symbols| - from
    requires forall k :: 0 <= k < |lengths| ==> lengths[k] <= SymbolFrames(symbols[from + k], d)
    ensures Sum(lengths) <= Span(symbols, d, from, |symbols|)
    ensures Sum(lengths) == Span(symbols, d, from, |symbols|) <==>
      forall k :: 0 <= k < |lengths| ==> lengths[k] == SymbolFrames(symbols[from + k], d)
    decreases |lengths|
  {
    if lengths != [] {
      var tail := lengths[1..];
      assert forall k :: 0 <= k < |tail| ==> tail[k] == lengths[k + 1] && symbols[(from + 1) + k] == symbols[from + (k + 1)];
      SumBelowSpan(tail, symbols, d, from + 1);
      if forall k :: 0 <= k < |tail| ==> tail[k] == SymbolFrames(symbols[(from + 1) + k], d) {
        if lengths[0] == SymbolFrames(symbols[from], d) {
          forall k | 0 <= k < |lengths|
            ensures lengths[k] == SymbolFrames(symbols[from + k], d)
          {
            if k > 0 {
              assert lengths[k] == tail[k - 1];
            }
          }
        }
      }
    }
  }

  /** The audio of a whole run is never longer than the timeline's nominal
      duration, and is exactly as long only when no symbol was cut short at
      the end of a buffer: a cut symbol's remainder is never played. */
  lemma RunNeverExceedsTimeline(src: MorseSrc, d: Durations, rate: nat)
    requires Valid(src) && Proportional(d) && rate >= 1 && src.timeline.Timeline?
    ensures var symbols := src.timeline.symbols;
      var lengths := RunLengths(src, d, rate);
      && |lengths| == |symbols| - src.position
      && RunFrames(src, d, rate) <= Span(symbols, d, src.position, |symbols|)
      && (RunFrames(src, d, rate) == Span(symbols, d, src.position, |symbols|) <==>
            forall k :: 0 <= k < |lengths| ==> lengths[k] == SymbolFrames(symbols[src.position + k], d))
  {
    RunAccounting(src, d, rate);
    SumBelowSpan(RunLengths(src, d, rate), src.timeline.symbols, d, src.position);
  }

  /** The first two fills of the keying of "T" when a dot fills a buffer. */
  lemma CutFills(symbols: string, d: Durations)
    requires symbols == " -    " && d == Durations(52920, 158760, 52920)
    ensures FillBuffer(symbols, d, 0, 0) == Fill(1, MaxFrames, [Segment(0, MaxFrames, false)])
    ensures FillBuffer(symbols, d, 1, 0) == Fill(2, MaxFrames, [Segment(0, MaxFrames, true)])
  {
  }

  /** "T" at 44100 Hz and one word per minute: the first buffer is the
      leading space, the second holds only the first third of the dash, and
      the cursor then moves past the dash, so two thirds of it are never
      played. */
  lemma DashCutAtOneWpm(src: MorseSrc)
    ensures var d := Derive(44100, 1);
      var first := Create(Start(src, ['T']), d, 44100);
      var second := Create(first.src, d, 44100);
      && first.flow.Ok? && first.flow.buffer.segments == [Segment(0, MaxFrames, false)]
      && second.flow.Ok? && second.flow.buffer.segments == [Segment(0, MaxFrames, true)]
      && SymbolFrames('-', d) == 3 * MaxFrames
      && second.src.position == 2
  {
    var d := Derive(44100, 1);
    SlowestDurations();
    MorseAlphabet.TKeying();
    var symbols := EncodeText(['T']);
    assert symbols == " -    ";
    CutFills(symbols, d);
  }
}
