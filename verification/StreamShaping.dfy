/** Rate shaping of one gateway stream: which messages go out, and why no shaper could send more. */
module StreamShaping {
  import opened Spacing
  import opened Wrappers

  /** The state of one stream, as a value. */
  datatype Stream = Stream(key: string, sequence: nat, dropped: nat, minInterval: real, lastForwardedAt: real)

  /** The interval in milliseconds for a requested rate; no rate, or none above zero, means no shaping. */
  function MinInterval(rateHz: Option<real>): (interval: real)
    ensures interval >= 0.0
    ensures interval == 0.0 <==> rateHz.None? || rateHz.value <= 0.0
    ensures interval > 0.0 ==> interval * rateHz.value == 1000.0
  {
    if rateHz.Some? && rateHz.value > 0.0 then 1000.0 / rateHz.value else 0.0
  }

  function NewStream(key: string, rateHz: Option<real>): Stream {
    Stream(key, 0, 0, MinInterval(rateHz), 0.0)
  }

  /** Whether a message arriving now goes out. */
  predicate Due(s: Stream, now: real) {
    s.minInterval == 0.0 || now - s.lastForwardedAt >= s.minInterval
  }

  /** The state after the decision. */
  function Decided(s: Stream, now: real): Stream {
    if s.minInterval == 0.0 then s
    else if Due(s, now) then s.(lastForwardedAt := now)
    else s.(dropped := s.dropped + 1)
  }

  class StreamState {
    const key: string
    var sequence: nat
    var dropped: nat
    const minInterval: real
    var lastForwardedAt: real

    function View(): Stream
      reads this
    {
      Stream(key, sequence, dropped, minInterval, lastForwardedAt)
    }

    constructor (key: string, rateHz: Option<real>)
      ensures View() == NewStream(key, rateHz)
    {
      this.key := key;
      sequence := 0;
      dropped := 0;
      minInterval := MinInterval(rateHz);
      lastForwardedAt := 0.0;
    }

    method ShouldForward(now: real) returns (forward: bool)
      modifies this
      ensures forward == Due(old(View()), now)
      ensures View() == Decided(old(View()), now)
    {
      if minInterval == 0.0 {
        return true;
      }
      if now - lastForwardedAt >= minInterval {
        lastForwardedAt := now;
        return true;
      }
      dropped := dropped + 1;
      return false;
    }
  }

  // ----- The shaper as a chooser of arrivals -----

  /** The arrival times a stream lets through. */
  function Forwarded(s: Stream, arrivals: seq<real>): seq<real>
    decreases |arrivals|
  {
    if arrivals == [] then []
    else (if Due(s, arrivals[0]) then [arrivals[0]] else []) + Forwarded(Decided(s, arrivals[0]), arrivals[1..])
  }

  /** The state after the decisions on these arrivals. */
  function AllDecided(s: Stream, arrivals: seq<real>): Stream
    decreases |arrivals|
  {
    if arrivals == [] then s else AllDecided(Decided(s, arrivals[0]), arrivals[1..])
  }

  lemma {:induction false} ForwardedAppend(s: Stream, arrivals: seq<real>, now: real)
    ensures Forwarded(s, arrivals + [now])
         == Forwarded(s, arrivals) + if Due(AllDecided(s, arrivals), now) then [now] else []
    ensures AllDecided(s, arrivals + [now]) == Decided(AllDecided(s, arrivals), now)
    decreases |arrivals|
  {
    if arrivals == [] {
      assert [] + [now] == [now] && [now][1..] == [];
    } else {
      assert (arrivals + [now])[1..] == arrivals[1..] + [now];
      ForwardedAppend(Decided(s, arrivals[0]), arrivals[1..], now);
    }
  }

  /** Any other choice: one flag per arrival. */
  function Chosen(arrivals: seq<real>, pick: seq<bool>): seq<real>
    requires |pick| == |arrivals|
  {
    if arrivals == [] then [] else (if pick[0] then [arrivals[0]] else []) + Chosen(arrivals[1..], pick[1..])
  }

  /** Each of `times` lies at least `gap` after the one before it, and the first one at least `gap` after `last`. */
  ghost predicate SpacedFrom(last: real, times: seq<real>, gap: real) {
    Spaced([last] + times, gap)
  }

  lemma {:induction false} SpacedTail(last: real, times: seq<real>, gap: real)
    requires times != []
    ensures SpacedFrom(last, times, gap) <==> times[0] - last >= gap && SpacedFrom(times[0], times[1..], gap)
  {
    var all := [last] + times;
    assert [times[0]] + times[1..] == all[1..];
    if times[0] - last >= gap && SpacedFrom(times[0], times[1..], gap) {
      forall i | 0 < i < |all| ensures all[i] - all[i - 1] >= gap {
        assert i > 1 ==> all[1..][i - 1] == all[i] && all[1..][i - 2] == all[i - 1];
      }
    }
    if SpacedFrom(last, times, gap) {
      forall i | 0 < i < |all[1..]| ensures all[1..][i] - all[1..][i - 1] >= gap {
        assert all[i + 1] - all[i] >= gap;
      }
      assert all[1] - all[0] >= gap;
    }
  }

  /** A shaped stream keeps its interval, counted from the last time it forwarded. */
  lemma {:induction false} ForwardsAreSpaced(s: Stream, arrivals: seq<real>)
    requires s.minInterval > 0.0
    ensures SpacedFrom(s.lastForwardedAt, Forwarded(s, arrivals), s.minInterval)
    decreases |arrivals|
  {
    if arrivals != [] {
      ForwardsAreSpaced(Decided(s, arrivals[0]), arrivals[1..]);
      var f := Forwarded(s, arrivals);
      if Due(s, arrivals[0]) {
        SpacedTail(s.lastForwardedAt, f, s.minInterval);
        assert f[1..] == Forwarded(Decided(s, arrivals[0]), arrivals[1..]);
      } else {
        assert f == Forwarded(Decided(s, arrivals[0]), arrivals[1..]);
      }
    }
  }

  /** So any window of length W carries at most floor(W / interval) + 1 of its messages. */
  lemma {:induction false} ForwardRate(s: Stream, arrivals: seq<real>, lo: real, hi: real)
    requires s.minInterval > 0.0 && lo <= hi
    ensures CountIn(Forwarded(s, arrivals), lo, hi) <= ((hi - lo) / s.minInterval).Floor + 1
  {
    ForwardsAreSpaced(s, arrivals);
    var f := Forwarded(s, arrivals);
    forall i | 0 < i < |f| ensures f[i] - f[i - 1] >= s.minInterval {
      assert ([s.lastForwardedAt] + f)[i + 1] == f[i] && ([s.lastForwardedAt] + f)[i] == f[i - 1];
    }
    WindowBound(f, s.minInterval, lo, hi);
  }

  lemma {:induction false} TailNonDecreasing(arrivals: seq<real>)
    requires NonDecreasing(arrivals) && arrivals != []
    ensures NonDecreasing(arrivals[1..])
    ensures forall i :: 0 <= i < |arrivals| ==> arrivals[0] <= arrivals[i]
  {
    forall i, j | 0 <= i <= j < |arrivals[1..]| ensures arrivals[1..][i] <= arrivals[1..][j] {
      assert arrivals[i + 1] <= arrivals[j + 1];
    }
  }

  /** Greedy stays ahead: no spaced choice that starts no earlier overtakes the shaper, and one that starts
      earlier gains at most one message. */
  lemma {:induction false} StaysAhead(s: Stream, arrivals: seq<real>, pick: seq<bool>, last: real)
    requires s.minInterval > 0.0
    requires |pick| == |arrivals| && NonDecreasing(arrivals)
    requires arrivals != [] ==> s.lastForwardedAt <= arrivals[0]
    requires SpacedFrom(last, Chosen(arrivals, pick), s.minInterval)
    ensures s.lastForwardedAt <= last ==> |Chosen(arrivals, pick)| <= |Forwarded(s, arrivals)|
    ensures |Chosen(arrivals, pick)| <= |Forwarded(s, arrivals)| + 1
    decreases |arrivals|
  {
    if arrivals == [] { return; }
    var t, rest, later := arrivals[0], arrivals[1..], pick[1..];
    var s' := Decided(s, t);
    TailNonDecreasing(arrivals);
    if pick[0] {
      var chosen := Chosen(arrivals, pick);
      SpacedTail(last, chosen, s.minInterval);
      assert chosen[1..] == Chosen(rest, later);
      StaysAhead(s', rest, later, t);
    } else {
      assert Chosen(arrivals, pick) == Chosen(rest, later);
      StaysAhead(s', rest, later, last);
    }
  }

  /** Optimality on all inputs: among the choices of the same arrivals that keep the interval, counted from when
      the stream last forwarded, none forwards more than the shaper does. */
  lemma {:induction false} ShaperIsOptimal(s: Stream, arrivals: seq<real>, pick: seq<bool>)
    requires s.minInterval > 0.0
    requires |pick| == |arrivals| && NonDecreasing(arrivals)
    requires arrivals != [] ==> s.lastForwardedAt <= arrivals[0]
    requires SpacedFrom(s.lastForwardedAt, Chosen(arrivals, pick), s.minInterval)
    ensures |Chosen(arrivals, pick)| <= |Forwarded(s, arrivals)|
  {
    StaysAhead(s, arrivals, pick, s.lastForwardedAt);
  }

  /** No choice of these arrivals that keeps the interval between its own messages forwards more. */
  ghost predicate Optimal(s: Stream, arrivals: seq<real>) {
    forall pick: seq<bool> :: |pick| == |arrivals| && Spaced(Chosen(arrivals, pick), s.minInterval) ==>
      |Chosen(arrivals, pick)| <= |Forwarded(s, arrivals)|
  }

  /** A new stream counts its first interval from time zero. It is optimal on every arrival list that starts at
      `first` exactly when `first` is no earlier than one interval. */
  lemma {:induction false} NewStreamOptimalIff(key: string, rateHz: Option<real>, first: real)
    requires first >= 0.0
    ensures first >= MinInterval(rateHz)
       <==> forall arrivals :: arrivals != [] && arrivals[0] == first && NonDecreasing(arrivals) ==>
              Optimal(NewStream(key, rateHz), arrivals)
  {
    var s := NewStream(key, rateHz);
    if first >= s.minInterval {
      forall arrivals | arrivals != [] && arrivals[0] == first && NonDecreasing(arrivals)
        ensures Optimal(s, arrivals)
      {
        forall pick: seq<bool> | |pick| == |arrivals| && Spaced(Chosen(arrivals, pick), s.minInterval)
          ensures |Chosen(arrivals, pick)| <= |Forwarded(s, arrivals)|
        {
          OptimalAfterOneInterval(s, arrivals, pick);
        }
      }
    } else {
      EarlyMessageIsHeld(key, rateHz, first);
      assert NonDecreasing([first]) && [first][0] == first;
    }
  }

  /** A single message before the first interval is held back, although sending it would keep every spacing. */
  lemma {:induction false} EarlyMessageIsHeld(key: string, rateHz: Option<real>, first: real)
    requires 0.0 <= first < MinInterval(rateHz)
    ensures Forwarded(NewStream(key, rateHz), [first]) == [] && Chosen([first], [true]) == [first]
    ensures !Optimal(NewStream(key, rateHz), [first])
  {
    var s := NewStream(key, rateHz);
    assert [first][1..] == [] && [true][1..] == [];
    assert Chosen([first], [true]) == [first];
    assert Spaced(Chosen([first], [true]), s.minInterval);
    assert |Chosen([first], [true])| > |Forwarded(s, [first])|;
  }

  lemma {:induction false} OptimalAfterOneInterval(s: Stream, arrivals: seq<real>, pick: seq<bool>)
    requires s.minInterval >= 0.0 && s.lastForwardedAt == 0.0
    requires arrivals != [] && arrivals[0] >= s.minInterval && NonDecreasing(arrivals)
    requires |pick| == |arrivals| && Spaced(Chosen(arrivals, pick), s.minInterval)
    ensures |Chosen(arrivals, pick)| <= |Forwarded(s, arrivals)|
  {
    ChosenAreArrivals(arrivals, pick);
    if s.minInterval == 0.0 {
      UnshapedForwardsAll(s, arrivals);
    } else {
      var chosen := Chosen(arrivals, pick);
      forall i | 0 < i < |[0.0] + chosen| ensures ([0.0] + chosen)[i] - ([0.0] + chosen)[i - 1] >= s.minInterval {
        if i == 1 {
          assert chosen[0] in chosen;
        }
      }
      ShaperIsOptimal(s, arrivals, pick);
    }
  }

  lemma {:induction false} ChosenAreArrivals(arrivals: seq<real>, pick: seq<bool>)
    requires |pick| == |arrivals| && NonDecreasing(arrivals)
    ensures |Chosen(arrivals, pick)| <= |arrivals|
    ensures arrivals != [] ==> forall t :: t in Chosen(arrivals, pick) ==> arrivals[0] <= t
  {
    if arrivals != [] {
      TailNonDecreasing(arrivals);
      ChosenAreArrivals(arrivals[1..], pick[1..]);
    }
  }

  lemma {:induction false} UnshapedForwardsAll(s: Stream, arrivals: seq<real>)
    requires s.minInterval == 0.0
    ensures Forwarded(s, arrivals) == arrivals
  {
    if arrivals != [] {
      UnshapedForwardsAll(s, arrivals[1..]);
    }
  }
}
