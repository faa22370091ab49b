/** Overlapping handlers: the inserts a run can make, and so when the effect rate holds for all runs. */
module Overlap {
  import opened Spacing
  import opened Dedup
  import opened JetStream
  import opened ExactlyOnce

  /** A consumer with one guarded subscription whose payloads are the event ids. */
  function OneConsumer(ttl: real): Consumer {
    Consumer({0}, ttl, (payload: string) => payload)
  }

  const OneSubscription := Subscription("events", "consumer")

  /** What the handlers under way will insert. */
  function Coming(handling: seq<InFlight>): (calls: seq<Call>)
    ensures |calls| == |handling|
  {
    if handling == [] then []
    else
      var h := handling[|handling| - 1];
      Coming(handling[..|handling| - 1]) + [Call(h.invocation.msg.payload, h.reading)]
  }

  lemma {:induction false} ComingAt(handling: seq<InFlight>, h: nat)
    requires h < |handling|
    ensures Coming(handling)[h] == Call(handling[h].invocation.msg.payload, handling[h].reading)
  {
    if h < |handling| - 1 {
      ComingAt(handling[..|handling| - 1], h);
    }
  }

  lemma {:induction false} ComingWithout(handling: seq<InFlight>, h: nat)
    requires h < |handling|
    ensures Coming(handling[..h] + handling[h + 1..]) == Coming(handling)[..h] + Coming(handling)[h + 1..]
  {
    var rest := handling[..h] + handling[h + 1..];
    var left := Coming(handling)[..h] + Coming(handling)[h + 1..];
    forall i: nat | i < |rest| ensures Coming(rest)[i] == left[i] {
      ComingRest(handling, h, i);
    }
  }

  lemma {:induction false} ComingRest(handling: seq<InFlight>, h: nat, i: nat)
    requires h < |handling| && i < |handling| - 1
    ensures Coming(handling[..h] + handling[h + 1..])[i] == (Coming(handling)[..h] + Coming(handling)[h + 1..])[i]
  {
    var rest := handling[..h] + handling[h + 1..];
    var k := if i < h then i else i + 1;
    assert rest[i] == handling[k];
    ComingAt(rest, i);
    ComingAt(handling, k);
  }

  lemma {:induction false} ExecuteOne(c: Consumer, actions: seq<Action>, action: Action)
    ensures Execute(c, actions + [action]) == Act(c, Execute(c, actions), action)
  {
    assert (actions + [action])[..|actions|] == actions;
  }

  /** The subscription exists. */
  predicate Ready(s: System) {
    s.broker.subscriptions == [OneSubscription]
  }

  lemma {:induction false} GetReady(ttl: real) returns (actions: seq<Action>)
    ensures var s := Execute(OneConsumer(ttl), actions);
            Ready(s) && s.clock == 0.0 && s.calls == [] && s.handling == []
  {
    ExecuteOne(OneConsumer(ttl), [], Bus(Subscribe("events", "consumer")));
    actions := [] + [Bus(Subscribe("events", "consumer"))];
  }

  /** Any handler can start at any time from now on: publish its message then, and call it. */
  lemma {:induction false} StartOne(ttl: real, actions: seq<Action>, call: Call) returns (more: seq<Action>)
    requires Ready(Execute(OneConsumer(ttl), actions)) && Execute(OneConsumer(ttl), actions).clock <= call.at
    ensures var s, t := Execute(OneConsumer(ttl), actions), Execute(OneConsumer(ttl), more);
            Ready(t) && t.clock == call.at && t.calls == s.calls && Coming(t.handling) == Coming(s.handling) + [call]
  {
    var c := OneConsumer(ttl);
    var s := Execute(c, actions);
    var wait, publish := Wait(call.at - s.clock), Bus(Publish("events", call.key));
    var invoke := Bus(Invoke(|s.broker.tasks|));
    ExecuteOne(c, actions, wait);
    ExecuteOne(c, actions + [wait], publish);
    ExecuteOne(c, actions + [wait] + [publish], invoke);
    more := actions + [wait] + [publish] + [invoke];
    CallsTheHandler(Act(c, s, wait), c, call.key);
  }

  lemma {:induction false} CallsTheHandler(s: System, c: Consumer, key: string)
    requires Ready(s) && c.guarded == {0}
    ensures var t := Act(c, Act(c, s, Bus(Publish("events", key))), Bus(Invoke(|s.broker.tasks|)));
            && Ready(t) && t.clock == s.clock && t.calls == s.calls
            && Coming(t.handling) == Coming(s.handling) + [Call(key, s.clock)]
  {
    var b := s.broker;
    var msg := Message("events", key, b.nextSequence);
    OneMatches(msg);
    var published := Act(c, s, Bus(Publish("events", key)));
    assert published.broker.tasks == b.tasks + [Task(msg, [0])];
    var t := Act(c, published, Bus(Invoke(|b.tasks|)));
    assert t.broker.invoked == b.invoked + [Invocation(0, msg)];
    assert t.handling == s.handling + [InFlight(Invocation(0, msg), s.clock)];
    assert t.handling[..|s.handling|] == s.handling;
  }

  lemma {:induction false} OneMatches(msg: Message)
    requires msg.subject == "events"
    ensures Matching([OneSubscription], msg.subject, 1) == [0]
  {
    assert Matching([OneSubscription], msg.subject, 0) == [];
  }

  lemma {:induction false} StartAll(ttl: real, calls: seq<Call>) returns (actions: seq<Action>)
    requires InClockOrder(calls) && forall i :: 0 <= i < |calls| ==> calls[i].at >= 0.0
    ensures var s := Execute(OneConsumer(ttl), actions);
            && Ready(s) && s.calls == [] && Coming(s.handling) == calls
            && s.clock == if calls == [] then 0.0 else calls[|calls| - 1].at
  {
    if calls == [] {
      actions := GetReady(ttl);
    } else {
      var n := |calls| - 1;
      actions := StartAll(ttl, calls[..n]);
      actions := StartOne(ttl, actions, calls[n]);
    }
  }

  /** Finishing the handler at position `h` makes its insert. */
  lemma {:induction false} FinishOne(c: Consumer, actions: seq<Action>, h: nat) returns (more: seq<Action>)
    requires h < |Execute(c, actions).handling| && forall p :: c.eventId(p) == p
    ensures var s, t := Execute(c, actions), Execute(c, more);
            && t.calls == s.calls + [Coming(s.handling)[h]]
            && Coming(t.handling) == Coming(s.handling)[..h] + Coming(s.handling)[h + 1..]
  {
    var handling := Execute(c, actions).handling;
    more := actions + [Finish(h)];
    ExecuteOne(c, actions, Finish(h));
    ComingAt(handling, h);
    ComingWithout(handling, h);
  }

  /** Handlers under way can get the lock in any order. */
  lemma {:induction false} FinishAll(c: Consumer, actions: seq<Action>, calls: seq<Call>) returns (more: seq<Action>)
    requires forall p :: c.eventId(p) == p
    requires multiset(Coming(Execute(c, actions).handling)) == multiset(calls)
    ensures Execute(c, more).calls == Execute(c, actions).calls + calls
    decreases |calls|
  {
    var made, coming := Execute(c, actions).calls, Coming(Execute(c, actions).handling);
    if calls == [] {
      assert made + [] == made;
      return actions;
    }
    var h := FindIn(coming, calls);
    RemoveBoth(coming, h, calls);
    more := FinishOne(c, actions, h);
    more := FinishAll(c, more, calls[1..]);
    FirstThenRest(made, calls);
  }

  lemma {:induction false} FindIn(a: seq<Call>, b: seq<Call>) returns (h: nat)
    requires b != [] && multiset(a) == multiset(b)
    ensures h < |a| && a[h] == b[0]
  {
    assert b[0] in multiset(a);
    h :| h < |a| && a[h] == b[0];
  }

  lemma {:induction false} FirstThenRest(made: seq<Call>, calls: seq<Call>)
    requires calls != []
    ensures made + [calls[0]] + calls[1..] == made + calls
  {
  }

  lemma {:induction false} RemoveBoth(a: seq<Call>, h: nat, b: seq<Call>)
    requires h < |a| && b != [] && a[h] == b[0] && multiset(a) == multiset(b)
    ensures multiset(a[..h] + a[h + 1..]) == multiset(b[1..])
  {
    assert a == a[..h] + [a[h]] + a[h + 1..];
    assert b == [b[0]] + b[1..];
    assert multiset(a[..h] + a[h + 1..]) == multiset(a) - multiset{a[h]};
    assert multiset(b[1..]) == multiset(b) - multiset{b[0]};
  }

  // ----- Sorting by reading -----

  function Placed(sorted: seq<Call>, call: Call): seq<Call> {
    if sorted == [] || sorted[|sorted| - 1].at <= call.at then sorted + [call]
    else Placed(sorted[..|sorted| - 1], call) + [sorted[|sorted| - 1]]
  }

  function ByReading(calls: seq<Call>): seq<Call> {
    if calls == [] then [] else Placed(ByReading(calls[..|calls| - 1]), calls[|calls| - 1])
  }

  lemma {:induction false} PlacedInOrder(sorted: seq<Call>, call: Call)
    requires InClockOrder(sorted)
    ensures InClockOrder(Placed(sorted, call)) && multiset(Placed(sorted, call)) == multiset(sorted) + multiset{call}
  {
    if sorted != [] && sorted[|sorted| - 1].at > call.at {
      var n := |sorted| - 1;
      PlacedInOrder(sorted[..n], call);
      var p := Placed(sorted[..n], call);
      assert sorted == sorted[..n] + [sorted[n]];
      forall i | 0 <= i < |p| ensures p[i].at <= sorted[n].at {
        assert p[i] in multiset(p);
        assert p[i] in multiset(sorted[..n]) || p[i] == call;
      }
      LaterLast(p, sorted[n]);
    }
  }

  lemma {:induction false} LaterLast(calls: seq<Call>, last: Call)
    requires InClockOrder(calls) && forall i :: 0 <= i < |calls| ==> calls[i].at <= last.at
    ensures InClockOrder(calls + [last])
  {
  }

  lemma {:induction false} SortedByReading(calls: seq<Call>)
    ensures InClockOrder(ByReading(calls)) && multiset(ByReading(calls)) == multiset(calls)
  {
    if calls != [] {
      var n := |calls| - 1;
      SortedByReading(calls[..n]);
      PlacedInOrder(ByReading(calls[..n]), calls[n]);
      assert calls == calls[..n] + [calls[n]];
    }
  }

  // ----- All runs -----

  /** Whatever readings from time zero on, in whatever order, and whatever keys: some run makes just these inserts. */
  lemma {:induction false} EveryOrderHappens(ttl: real, calls: seq<Call>) returns (actions: seq<Action>)
    requires forall i :: 0 <= i < |calls| ==> calls[i].at >= 0.0
    ensures Execute(OneConsumer(ttl), actions).calls == calls
  {
    var sorted := ByReading(calls);
    SortedByReading(calls);
    forall i | 0 <= i < |sorted| ensures sorted[i].at >= 0.0 {
      assert sorted[i] in multiset(calls);
    }
    var started := StartAll(ttl, sorted);
    actions := FinishAll(OneConsumer(ttl), started, calls);
    assert [] + calls == calls;
  }

  /** The rate bound for every run of the system whose inserts have these readings, every consumer and every event. */
  ghost predicate RateHoldsInRuns(ttl: real, readings: seq<real>)
    requires ttl > 0.0
  {
    forall c: Consumer, actions: seq<Action>, e: string ::
      c.ttl == ttl && Readings(Execute(c, actions).calls) == readings ==>
        Bounded(Effects(ttl, Execute(c, actions).calls, e), ttl)
  }

  /** Overlapping handlers included: all runs with these readings keep the rate bound exactly if no reading is stale. */
  lemma {:induction false} EffectRateOfRunsIff(ttl: real, readings: seq<real>)
    requires ttl > 0.0 && forall i :: 0 <= i < |readings| ==> readings[i] >= 0.0
    ensures RateHoldsInRuns(ttl, readings) <==> NoneStale(ttl, readings)
  {
    EffectRateIff(ttl, readings);
    if RateHoldsInRuns(ttl, readings) {
      forall calls: seq<Call>, key: string | Readings(calls) == readings
        ensures Bounded(Effects(ttl, calls, key), ttl)
      {
        forall i | 0 <= i < |calls| ensures calls[i].at >= 0.0 {
          ReadingAt(calls, i);
        }
        var actions := EveryOrderHappens(ttl, calls);
        assert Execute(OneConsumer(ttl), actions).calls == calls;
      }
    }
  }
}
