/** `useDebounce` and the loading guard of `randomizeSettings` in
    `src/App.jsx`. A debounced call cancels the pending timer and schedules a
    new one 800 ms later, so only the last call of a burst runs. The
    randomiser it wraps does nothing while a previous run is still loading,
    and a run clears the flag 300 ms after applying its settings. Time is
    logical milliseconds; the timer queue is the `deadline` field. */
module Debounce {
  import opened Base
  import opened Randomize

  /** The delay `randomizeSettings` passes to `useDebounce`. */
  const Delay := 800.0

  /** The delay before `isLoading` is cleared. */
  const SettleDelay := 300.0

  /** `timeoutRef.current`: when the pending callback is due, if any. */
  datatype Debouncer = Debouncer(deadline: Option<real>)

  /** What happens to the debouncer: a call of the debounced function, or
      time passing up to a moment with no call. */
  datatype Event = Call(at: real) | Wait(until: real)

  function EventTime(e: Event): real
  {
    match e
    case Call(at) => at
    case Wait(until) => until
  }

  /** Calling the debounced function: clear the pending timer, schedule a new
      one. */
  function Schedule(d: Debouncer, now: real): (e: Debouncer)
    ensures e.deadline.Some? && e.deadline.value > now
  {
    Debouncer(Some(now + Delay))
  }

  /** The pending callback is due by `now`. */
  predicate Due(d: Debouncer, now: real)
  {
    d.deadline.Some? && d.deadline.value <= now
  }

  /** One event: a timer due by the event's time fires first (yielding its
      deadline), then a call schedules a fresh timer. */
  function Step(d: Debouncer, e: Event): (r: (Debouncer, seq<real>))
    ensures |r.1| <= 1
    ensures e.Call? ==> r.0 == Schedule(d, e.at)
  {
    var fired := if Due(d, EventTime(e)) then [d.deadline.value] else [];
    var cleared := if Due(d, EventTime(e)) then Debouncer(None) else d;
    (if e.Call? then Schedule(cleared, e.at) else cleared, fired)
  }

  /** Replays events in order, returning the final debouncer and the times at
      which the callback ran. */
  function Replay(d: Debouncer, events: seq<Event>): (r: (Debouncer, seq<real>))
    ensures |r.1| <= |events|
    decreases |events|
  {
    if |events| == 0 then (d, [])
    else
      var s := Step(d, events[0]);
      var rest := Replay(s.0, events[1..]);
      (rest.0, s.1 + rest.1)
  }

  /** The calls of a burst, in order. */
  function Calls(ts: seq<real>): (es: seq<Event>)
    ensures |es| == |ts|
    ensures forall i :: 0 <= i < |ts| ==> es[i] == Call(ts[i])
  {
    if |ts| == 0 then [] else [Call(ts[0])] + Calls(ts[1..])
  }

  /** Consecutive calls less than 800 ms apart. */
  predicate Burst(ts: seq<real>)
  {
    forall i :: 0 < i < |ts| ==> ts[i - 1] <= ts[i] < ts[i - 1] + Delay
  }

  /** During a burst nothing fires, and afterwards the timer is due 800 ms
      after the last call. */
  lemma {:induction false} BurstPending(d: Debouncer, ts: seq<real>)
    requires |ts| > 0 && Burst(ts)
    requires !Due(d, ts[0])
    ensures Replay(d, Calls(ts)) == (Debouncer(Some(ts[|ts| - 1] + Delay)), [])
    decreases |ts|
  {
    var next := Schedule(d, ts[0]);
    assert Calls(ts)[1..] == Calls(ts[1..]);
    if |ts| > 1 {
      assert Burst(ts[1..]) by {
        assert forall i :: 0 <= i < |ts| - 1 ==> ts[1..][i] == ts[i + 1];
      }
      assert !Due(next, ts[1..][0]);
      BurstPending(next, ts[1..]);
    }
  }

  /** A burst of calls, each less than 800 ms after the previous one, runs the
      callback exactly once, 800 ms after the last call, once enough time has
      passed; before that it has not run at all. */
  lemma BurstFiresOnce(ts: seq<real>, until: real)
    requires |ts| > 0 && Burst(ts)
    ensures var last := ts[|ts| - 1];
            Replay(Debouncer(None), Calls(ts) + [Wait(until)])
            == if until >= last + Delay then (Debouncer(None), [last + Delay])
               else (Debouncer(Some(last + Delay)), [])
  {
    var pending := Debouncer(Some(ts[|ts| - 1] + Delay));
    BurstPending(Debouncer(None), ts);
    ReplaySplit(Debouncer(None), Calls(ts), [Wait(until)]);
    WaitFires(pending, until);
    assert [] + Replay(pending, [Wait(until)]).1 == Replay(pending, [Wait(until)]).1;
  }

  /** Waiting fires the pending timer exactly when it is due. */
  lemma WaitFires(d: Debouncer, until: real)
    ensures Replay(d, [Wait(until)])
            == if Due(d, until) then (Debouncer(None), [d.deadline.value]) else (d, [])
  {
    assert [Wait(until)][1..] == [];
    var s := Step(d, Wait(until));
    assert Replay(s.0, []) == (s.0, []);
    assert s.1 + [] == s.1;
  }

  /** Replaying two stretches of events one after the other. */
  lemma {:induction false} ReplaySplit(d: Debouncer, a: seq<Event>, b: seq<Event>)
    ensures var first := Replay(d, a);
            var second := Replay(first.0, b);
            Replay(d, a + b) == (second.0, first.1 + second.1)
    decreases |a|
  {
    if |a| == 0 {
      assert a + b == b;
      assert Replay(d, a) == (d, []);
      assert [] + Replay(d, b).1 == Replay(d, b).1;
    } else {
      var s := Step(d, a[0]);
      var first := Replay(s.0, a[1..]);
      var second := Replay(first.0, b);
      assert Replay(d, a) == (first.0, s.1 + first.1);
      assert (a + b)[0] == a[0];
      assert (a + b)[1..] == a[1..] + b;
      ReplaySplit(s.0, a[1..], b);
      assert Replay(s.0, a[1..] + b) == (second.0, first.1 + second.1);
      assert Replay(d, a + b) == (second.0, s.1 + (first.1 + second.1));
      assert s.1 + (first.1 + second.1) == (s.1 + first.1) + second.1;
    }
  }

  /** Two calls 800 ms or more apart are two bursts: the callback runs after
      each. */
  lemma SeparateCallsFireTwice(t0: real, t1: real, until: real)
    requires t1 >= t0 + Delay && until >= t1 + Delay
    ensures Replay(Debouncer(None), [Call(t0), Call(t1), Wait(until)]).1 == [t0 + Delay, t1 + Delay]
  {
    var events := [Call(t0), Call(t1), Wait(until)];
    var d1 := Debouncer(Some(t0 + Delay));
    var d2 := Debouncer(Some(t1 + Delay));
    assert Step(Debouncer(None), Call(t0)) == (d1, []);
    assert Step(d1, Call(t1)) == (d2, [t0 + Delay]);
    assert Step(d2, Wait(until)) == (Debouncer(None), [t1 + Delay]);
    assert events[1..] == [Call(t1), Wait(until)];
    assert events[1..][1..] == [Wait(until)];
    assert [Wait(until)][1..] == [];
    assert Replay(Debouncer(None), []) == (Debouncer(None), []);
    assert [t1 + Delay] + [] == [t1 + Delay];
    assert Replay(d2, [Wait(until)]) == (Debouncer(None), [t1 + Delay]);
    assert [t0 + Delay] + [t1 + Delay] == [t0 + Delay, t1 + Delay];
    assert Replay(d1, events[1..]) == (Debouncer(None), [t0 + Delay, t1 + Delay]);
  }

  // ------------------------------------------------------ the loading guard

  /** The settings, `isLoading`, and when the pending clear of `isLoading` is
      due. */
  datatype Session = Session(settings: AppSettings, loading: bool, settleAt: Option<real>)

  /** The debounced callback running at `now`: a no-op while loading,
      otherwise one randomisation, with `isLoading` set until the clear runs
      300 ms later. */
  function Invoke(s: Session, on: Toggles, r: Draws, now: real): (n: Session)
    ensures n.loading
    ensures s.loading ==> n == s
  {
    if s.loading then s
    else Session(RandomizeSettings(s.settings, on, r), true, Some(now + SettleDelay))
  }

  /** The `setTimeout` that clears `isLoading`. */
  function Settle(s: Session, now: real): (n: Session)
    ensures n.settings == s.settings
  {
    if s.settleAt.Some? && s.settleAt.value <= now then Session(s.settings, false, None) else s
  }

  /** A run from an idle session applies exactly one randomisation; a second
      run before the flag clears changes nothing; and the flag clears 300 ms
      later, keeping the new settings. */
  lemma InvokeGuarded(s: Session, on: Toggles, r1: Draws, r2: Draws, t1: real, t2: real)
    requires !s.loading
    ensures Invoke(s, on, r1, t1).settings == RandomizeSettings(s.settings, on, r1)
    ensures Invoke(Invoke(s, on, r1, t1), on, r2, t2) == Invoke(s, on, r1, t1)
    ensures var n := Settle(Invoke(s, on, r1, t1), t1 + SettleDelay);
            !n.loading && n.settings == RandomizeSettings(s.settings, on, r1)
    ensures t2 < t1 + SettleDelay ==> Settle(Invoke(s, on, r1, t1), t2).loading
  {
  }

  /** After settling, the next run randomises again. */
  lemma SettledRunsAgain(s: Session, on: Toggles, r1: Draws, r2: Draws, t1: real, t2: real)
    requires !s.loading && t2 >= t1 + SettleDelay
    ensures var settled := Settle(Invoke(s, on, r1, t1), t2);
            Invoke(settled, on, r2, t2).settings == RandomizeSettings(RandomizeSettings(s.settings, on, r1), on, r2)
  {
  }
}
