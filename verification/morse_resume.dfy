/** The buffer-production step with resumption (see Findings): a symbol
    that does not fit in the room left in a buffer is cut, and the next
    buffer resumes it where it was cut instead of passing on to the next
    symbol. The state gains the frames already played of the current symbol;
    everything else is as in `MorseSource`. */
module MorseResume {
  import opened MorseEncoder
  import opened Timing
  import opened MorseSource
  import MorseAlphabet

  /** The stream state, with `offset` frames of symbol `position` already played. */
  datatype ResumeSrc = ResumeSrc(timeline: Timeline, position: nat, offset: nat, timestamp: nat)

  datatype ResumeStep = ResumeStep(src: ResumeSrc, flow: Flow)

  /** Where the resuming fill loop stopped. */
  datatype Resumed = Resumed(position: nat, offset: nat, frames: nat, segments: seq<Segment>)

  /** The offset into the current symbol never passes its duration, and is
      zero at the end of the timeline. */
  predicate InSymbol(symbols: string, d: Durations, position: nat, offset: nat)
  {
    position <= |symbols|
    && (position < |symbols| ==> offset <= SymbolFrames(symbols[position], d))
    && (position == |symbols| ==> offset == 0)
  }

  predicate Resumable(src: ResumeSrc, d: Durations)
  {
    match src.timeline
    case NoTimeline => src.offset == 0
    case Timeline(symbols) => IsKeyingString(symbols) && InSymbol(symbols, d, src.position, src.offset)
  }

  /** The fill loop with resumption, from `offset` frames into symbol
      `position` and frame `i` of the buffer. The frames it writes are
      exactly the unplayed frames of the symbols it passes, plus the part
      of the symbol it stops in. */
  function FillResuming(symbols: string, d: Durations, position: nat, offset: nat, i: nat): (r: Resumed)
    requires InSymbol(symbols, d, position, offset) && i <= MaxFrames
    ensures position <= r.position && InSymbol(symbols, d, r.position, r.offset)
    ensures i <= r.frames <= MaxFrames
    ensures r.position == |symbols| || r.frames == MaxFrames
    ensures r.frames + offset == i + Span(symbols, d, position, r.position) + r.offset
    ensures i < MaxFrames && position < |symbols| ==>
      position < r.position || (position == r.position && offset < r.offset)
    decreases |symbols| - position
  {
    if i >= MaxFrames || position >= |symbols| then Resumed(position, offset, i, [])
    else
      var symbol := symbols[position];
      var left := SymbolFrames(symbol, d) - offset;
      var n := Min(MaxFrames - i, left);
      var segment := Segment(i, n, symbol != ' ');
      if n == left then
        var rest := FillResuming(symbols, d, position + 1, 0, i + n);
        Resumed(rest.position, rest.offset, rest.frames, [segment] + rest.segments)
      else
        Resumed(position, offset + n, MaxFrames, [segment])
  }

  /** `create` with resumption. */
  function CreateResuming(src: ResumeSrc, d: Durations, rate: nat): (r: ResumeStep)
    requires Resumable(src, d) && rate >= 1
    ensures Resumable(r.src, d)
    ensures r.flow.Eos? <==> (src.timeline.NoTimeline? || src.position >= |src.timeline.symbols|)
    ensures r.flow.Eos? ==> r.src == src
    ensures r.flow.Ok? ==>
      && r.src.timeline == src.timeline
      && (src.position < r.src.position || (src.position == r.src.position && src.offset < r.src.offset))
      && r.flow.buffer.frames + src.offset
           == Span(src.timeline.symbols, d, src.position, r.src.position) + r.src.offset
      && r.flow.buffer.frames <= MaxFrames
      && r.flow.buffer.pts == src.timestamp
      && r.src.timestamp == src.timestamp + r.flow.buffer.duration
      && r.flow.buffer.duration * rate <= r.flow.buffer.frames * Second < (r.flow.buffer.duration + 1) * rate
  {
    match src.timeline
    case NoTimeline => ResumeStep(src, Eos)
    case Timeline(symbols) =>
      if src.position >= |symbols| then ResumeStep(src, Eos)
      else
        var fill := FillResuming(symbols, d, src.position, src.offset, 0);
        var duration := Scale(fill.frames, Second, rate);
        ResumeStep(ResumeSrc(src.timeline, fill.position, fill.offset, src.timestamp + duration),
                   Ok(Buffer(src.timestamp, duration, fill.frames, fill.segments)))
  }

  /** `start` with resumption: a fresh timeline, nothing of it played yet. */
  function StartResuming(text: seq<TextChar>): (r: ResumeSrc)
    ensures r.position == 0 && r.offset == 0 && r.timestamp == 0
    ensures r.timeline == Timeline(EncodeText(text)) && IsKeyingString(r.timeline.symbols)
  {
    TextIsKeying(text);
    ResumeSrc(Timeline(EncodeText(text)), 0, 0, 0)
  }

  /** The frames of the current symbol not yet played. */
  function LeftInSymbol(src: ResumeSrc, d: Durations): nat
  {
    match src.timeline
    case NoTimeline => 0
    case Timeline(symbols) =>
      if src.position < |symbols| && src.offset <= SymbolFrames(symbols[src.position], d)
      then SymbolFrames(symbols[src.position], d) - src.offset
      else 0
  }

  /** The frames of all buffers repeated resuming `create` calls return
      from `src` on until end-of-stream. */
  function RunResumingFrames(src: ResumeSrc, d: Durations, rate: nat): nat
    requires Resumable(src, d) && rate >= 1
    decreases Remaining(MorseSrc(src.timeline, src.position, src.timestamp)), LeftInSymbol(src, d)
  {
    var step := CreateResuming(src, d, rate);
    if step.flow.Eos? then 0
    else step.flow.buffer.frames + RunResumingFrames(step.src, d, rate)
  }

  lemma {:induction false} SpanSplit(symbols: string, d: Durations, from: nat, mid: nat, to: nat)
    requires from <= mid <= to <= |symbols|
    ensures Span(symbols, d, from, to) == Span(symbols, d, from, mid) + Span(symbols, d, mid, to)
    decreases mid - from
  {
    if from < mid {
      SpanSplit(symbols, d, from + 1, mid, to);
    }
  }

  /** With resumption, a whole run plays every frame the timeline still
      holds: the buffers add up to the nominal duration of the rest of the
      current symbol and all symbols after it. */
  lemma {:induction false} RunPlaysRestOfTimeline(src: ResumeSrc, d: Durations, rate: nat)
    requires Resumable(src, d) && rate >= 1 && src.timeline.Timeline?
    ensures RunResumingFrames(src, d, rate) + src.offset
      == Span(src.timeline.symbols, d, src.position, |src.timeline.symbols|)
    decreases Remaining(MorseSrc(src.timeline, src.position, src.timestamp)), LeftInSymbol(src, d)
  {
    var symbols := src.timeline.symbols;
    var step := CreateResuming(src, d, rate);
    if step.flow.Ok? {
      RunPlaysRestOfTimeline(step.src, d, rate);
      SpanSplit(symbols, d, src.position, step.src.position, |symbols|);
    }
  }

  /** From `start`, the buffers of a whole run add up to the nominal duration
      of the whole keying of the text: no frame is dropped or repeated at a
      buffer boundary. */
  lemma RunPlaysWholeTimeline(text: seq<TextChar>, d: Durations, rate: nat)
    requires rate >= 1
    ensures RunResumingFrames(StartResuming(text), d, rate)
      == Span(EncodeText(text), d, 0, |EncodeText(text)|)
  {
    RunPlaysRestOfTimeline(StartResuming(text), d, rate);
  }

  /** The three fills of the keying of "T" when a dot fills a buffer. */
  lemma ResumedFills(symbols: string, d: Durations)
    requires symbols == " -    " && d == Durations(52920, 158760, 52920)
    ensures FillResuming(symbols, d, 0, 0, 0) == Resumed(1, 0, MaxFrames, [Segment(0, MaxFrames, false)])
    ensures FillResuming(symbols, d, 1, 0, 0) == Resumed(1, MaxFrames, MaxFrames, [Segment(0, MaxFrames, true)])
    ensures FillResuming(symbols, d, 1, MaxFrames, 0) == Resumed(1, 2 * MaxFrames, MaxFrames, [Segment(0, MaxFrames, true)])
    ensures FillResuming(symbols, d, 1, 2 * MaxFrames, 0) == Resumed(2, 0, MaxFrames, [Segment(0, MaxFrames, true)])
  {
  }

  /** The input that loses two thirds of a dash in `MorseSource` plays it
      whole here: the dash lasts three buffers, the third and fourth resume
      it where the one before stopped, and only then the cursor passes it. */
  lemma DashResumedAtOneWpm()
    ensures var d := Derive(44100, 1);
      var first := CreateResuming(StartResuming(['T']), d, 44100);
      var second := CreateResuming(first.src, d, 44100);
      var third := CreateResuming(second.src, d, 44100);
      var fourth := CreateResuming(third.src, d, 44100);
      && second.flow.Ok? && second.flow.buffer.segments == [Segment(0, MaxFrames, true)]
      && second.src.position == 1 && second.src.offset == MaxFrames
      && third.flow.Ok? && third.flow.buffer.segments == [Segment(0, MaxFrames, true)]
      && third.src.position == 1 && third.src.offset == 2 * MaxFrames
      && fourth.flow.Ok? && fourth.flow.buffer.segments == [Segment(0, MaxFrames, true)]
      && fourth.src.position == 2 && fourth.src.offset == 0
  {
    var d := Derive(44100, 1);
    SlowestDurations();
    MorseAlphabet.TKeying();
    var symbols := EncodeText(['T']);
    assert symbols == " -    ";
    ResumedFills(symbols, d);
  }

}
