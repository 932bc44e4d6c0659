/** The playback clock of `MinkowskiGrid` in `src/App.jsx`: the pattern time
    `t`, the forward and backward buttons, and the animation loop that, while
    playback runs, advances `t` at most once per 50 ms, by one or by the
    normalised audio energy. Timestamps are logical milliseconds handed in by
    the caller in place of `performance.now()`. */
module Clock {
  import opened Base

  /** One byte of the analyser's frequency data. */
  type Byte = b: int | 0 <= b < 256

  /** `fftSize = 256` gives `frequencyBinCount = 128` bins. */
  const BinCount := 128

  /** The minimum time between two advances: the 20 fps gate. */
  const FrameGap := 50.0

  /** What the loop reads about audio: the toggle, whether the microphone was
      acquired, and the latest frequency data. */
  datatype Audio = Audio(enabled: bool, initialised: bool, bins: seq<Byte>)

  /** The data array is allocated with one byte per analyser bin. */
  predicate WellFormed(a: Audio)
  {
    |a.bins| == BinCount
  }

  /** `t` is the pattern time; `lastTick` the loop's `lastTime`, the moment of
      the last advance (or of the loop's start). */
  datatype Clock = Clock(t: real, running: bool, lastTick: real)

  function Sum(s: seq<Byte>): int
  {
    if |s| == 0 then 0 else s[0] + Sum(s[1..])
  }

  /** The energy of the bins lies between none and every byte at 255. */
  lemma {:induction false} SumBounds(s: seq<Byte>)
    ensures 0 <= Sum(s) <= 255 * |s|
  {
    if |s| > 0 {
      SumBounds(s[1..]);
    }
  }

  /** The sum is `255 * |s|` exactly when every byte is 255, and 0 exactly
      when every byte is 0. */
  lemma {:induction false} SumExtremes(s: seq<Byte>)
    ensures Sum(s) == 255 * |s| <==> forall i :: 0 <= i < |s| ==> s[i] == 255
    ensures Sum(s) == 0 <==> forall i :: 0 <= i < |s| ==> s[i] == 0
  {
    if |s| > 0 {
      SumExtremes(s[1..]);
      SumBounds(s[1..]);
      assert forall i :: 1 <= i < |s| ==> s[i] == s[1..][i - 1];
    }
  }

  /** The amount one advance adds: 1, or `sum / (length * 255) * 2` when audio
      is on and the microphone was acquired. */
  function Increment(a: Audio): (inc: real)
    requires WellFormed(a)
    ensures 0.0 <= inc <= 2.0
    ensures !(a.enabled && a.initialised) ==> inc == 1.0
  {
    if a.enabled && a.initialised then
      SumBounds(a.bins);
      Sum(a.bins) as real / (|a.bins| * 255) as real * 2.0
    else 1.0
  }

  /** With audio live, silence stops the clock, full energy doubles its pace,
      and the increment grows with the energy. */
  lemma IncrementAudio(a: Audio, b: Audio)
    requires WellFormed(a) && WellFormed(b)
    requires a.enabled && a.initialised && b.enabled && b.initialised
    ensures Increment(a) == 0.0 <==> forall i :: 0 <= i < |a.bins| ==> a.bins[i] == 0
    ensures Increment(a) == 2.0 <==> forall i :: 0 <= i < |a.bins| ==> a.bins[i] == 255
    ensures Sum(a.bins) <= Sum(b.bins) ==> Increment(a) <= Increment(b)
  {
    SumExtremes(a.bins);
    var d := (BinCount * 255) as real;
    assert Increment(a) == Sum(a.bins) as real / d * 2.0;
    assert Increment(b) == Sum(b.bins) as real / d * 2.0;
  }

  /** `handleForward`. */
  function Forward(c: Clock): (d: Clock)
    ensures d.t > c.t && d.running == c.running && d.lastTick == c.lastTick
  {
    c.(t := c.t + 1.0)
  }

  /** `handleBackward`. */
  function Backward(c: Clock): (d: Clock)
    ensures d.t < c.t && d.running == c.running && d.lastTick == c.lastTick
  {
    c.(t := c.t - 1.0)
  }

  /** The two steps undo each other, whether or not playback runs. */
  lemma StepsInverse(c: Clock)
    ensures Backward(Forward(c)) == c
    ensures Forward(Backward(c)) == c
  {
  }

  /** Starting playback (re)starts the loop, which reads the time as its
      `lastTime`; the loop also restarts when the audio toggle or the
      microphone state change. */
  function Start(c: Clock, now: real): (d: Clock)
    ensures d.running && d.t == c.t && d.lastTick == now
  {
    Clock(c.t, true, now)
  }

  /** Pausing cancels the pending animation frame. */
  function Pause(c: Clock): (d: Clock)
    ensures !d.running && d.t == c.t
  {
    c.(running := false)
  }

  /** One animation frame at time `now`. */
  function Tick(c: Clock, now: real, a: Audio): (d: Clock)
    requires WellFormed(a)
    ensures d.running == c.running
  {
    if c.running && now - c.lastTick >= FrameGap then
      Clock(c.t + Increment(a), true, now)
    else c
  }

  /** A frame advances the clock exactly when playback runs and 50 ms have
      passed since the last advance; it then adds the increment and records
      the frame's time. Otherwise nothing changes. */
  lemma TickGate(c: Clock, now: real, a: Audio)
    requires WellFormed(a)
    ensures Tick(c, now, a) != c <==> c.running && now - c.lastTick >= FrameGap
    ensures c.running && now - c.lastTick >= FrameGap ==>
              Tick(c, now, a).t == c.t + Increment(a) && Tick(c, now, a).lastTick == now
    ensures !(c.running && now - c.lastTick >= FrameGap) ==> Tick(c, now, a) == c
  {
  }

  /** A run of frames at the given times, with the audio data each frame
      reads, counting the frames that advanced the clock. */
  function Run(c: Clock, frames: seq<(real, Audio)>): (r: (Clock, nat))
    requires forall i :: 0 <= i < |frames| ==> WellFormed(frames[i].1)
    ensures r.1 <= |frames|
    ensures r.0.running == c.running
    decreases |frames|
  {
    if |frames| == 0 then (c, 0)
    else
      var d := Tick(c, frames[0].0, frames[0].1);
      var rest := Run(d, frames[1..]);
      (rest.0, rest.1 + (if c.running && frames[0].0 - c.lastTick >= FrameGap then 1 else 0))
  }

  /** A paused clock never changes, however many frames pass. */
  lemma {:induction false} PausedStays(c: Clock, frames: seq<(real, Audio)>)
    requires forall i :: 0 <= i < |frames| ==> WellFormed(frames[i].1)
    requires !c.running
    ensures Run(c, frames) == (c, 0)
    decreases |frames|
  {
    if |frames| > 0 {
      PausedStays(c, frames[1..]);
    }
  }

  /** Frame times are non-decreasing and none precedes the last advance. */
  predicate Chronological(c: Clock, frames: seq<(real, Audio)>)
  {
    (forall i :: 0 <= i < |frames| ==> c.lastTick <= frames[i].0)
    && (forall i, j :: 0 <= i < j < |frames| ==> frames[i].0 <= frames[j].0)
  }

  /** Advances are 50 ms apart: over a run of frames the number of advances
      times 50 never exceeds the time between the starting `lastTime` and the
      last advance, and each advance moves `t` by at most 2. */
  lemma {:induction false} AdvancesBounded(c: Clock, frames: seq<(real, Audio)>)
    requires forall i :: 0 <= i < |frames| ==> WellFormed(frames[i].1)
    requires Chronological(c, frames)
    ensures var r := Run(c, frames);
            r.1 as real * FrameGap <= r.0.lastTick - c.lastTick
            && c.t <= r.0.t <= c.t + 2.0 * r.1 as real
    ensures |frames| > 0 ==> Run(c, frames).0.lastTick <= frames[|frames| - 1].0
    decreases |frames|
  {
    if |frames| > 0 {
      var d := Tick(c, frames[0].0, frames[0].1);
      assert d.lastTick <= frames[0].0;
      assert Chronological(d, frames[1..]) by {
        assert forall i :: 0 <= i < |frames[1..]| ==> frames[1..][i] == frames[i + 1];
      }
      AdvancesBounded(d, frames[1..]);
      if |frames| == 1 {
        assert Run(d, frames[1..]).0 == d;
      }
    }
  }

  /** Without live audio every advance adds exactly one. */
  lemma {:induction false} SilentRunCounts(c: Clock, frames: seq<(real, Audio)>)
    requires forall i :: 0 <= i < |frames| ==> WellFormed(frames[i].1)
    requires forall i :: 0 <= i < |frames| ==> !(frames[i].1.enabled && frames[i].1.initialised)
    ensures Run(c, frames).0.t == c.t + Run(c, frames).1 as real
    decreases |frames|
  {
    if |frames| > 0 {
      var d := Tick(c, frames[0].0, frames[0].1);
      assert forall i :: 0 <= i < |frames[1..]| ==> frames[1..][i] == frames[i + 1];
      SilentRunCounts(d, frames[1..]);
    }
  }
}
