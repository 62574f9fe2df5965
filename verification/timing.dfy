/** The keying speed: how many audio frames a dot, a dash and a space last,
    derived from the negotiated sample rate and the words-per-minute setting
    (the standard word "PARIS" is 50 dot units long). */
module Timing {

  /** Samples per dot, per dash and per space symbol of the keying string. */
  datatype Durations = Durations(dot: nat, dash: nat, space: nat)

  /** The shape every derived timing has: a dash is three dots, a space one. */
  predicate Proportional(d: Durations)
  {
    d.dash == 3 * d.dot && d.space == d.dot
  }

  /** `a / d` is the largest `q` with `q * d <= a`, and is a natural number. */
  lemma FloorDiv(a: nat, d: nat)
    requires d >= 1
    ensures a / d >= 0
    ensures (a / d) * d <= a < (a / d + 1) * d
  {
    var q := a / d;
    assert a == d * q + a % d;
    assert (q + 1) * d == q * d + d;
  }

  /** The timing lines of `gst_morse_src_setcaps`: `rate * 60 / (wpm * 50)`
      samples per dot, truncating. */
  function Derive(rate: nat, wpm: nat): (d: Durations)
    requires wpm >= 1
    ensures Proportional(d)
    ensures d.dot * (wpm * 50) <= rate * 60 < (d.dot + 1) * (wpm * 50)
  {
    var perMinute: nat := rate * 60;
    var unitsPerMinute: nat := wpm * 50;
    FloorDiv(perMinute, unitsPerMinute);
    var dot := perMinute / unitsPerMinute;
    Durations(dot, 3 * dot, dot)
  }

  /** The default settings, 44100 Hz at 20 words per minute. */
  lemma DefaultDurations()
    ensures Derive(44100, 20) == Durations(2646, 7938, 2646)
  {
  }

  /** The slowest setting at the default rate: one dot fills a whole buffer. */
  lemma SlowestDurations()
    ensures Derive(44100, 1) == Durations(52920, 158760, 52920)
  {
  }
}
