/** At-least-once delivery behind a dedup set: which events take effect, and how often, in every run. */
module ExactlyOnce {
  import opened Spacing
  import opened Dedup
  import opened JetStream

  /** A consumer: the subscriptions whose handler inserts the event id first, the set's ttl, and how the id is read
      out of a payload. */
  datatype Consumer = Consumer(guarded: set<nat>, ttl: real, eventId: string -> string)

  /** A guarded handler between reading the clock and getting the dedup set's lock. */
  datatype InFlight = InFlight(invocation: Invocation, reading: real)

  /** `calls` and `handled` list the inserts in lock order and what each was made for; `lockedAt` says when. */
  datatype System = System(
    broker: Broker,
    clock: real,
    handling: seq<InFlight>,
    handled: seq<Invocation>,
    calls: seq<Call>,
    lockedAt: seq<real>)

  datatype Action =
    | Bus(step: Step)
    | Finish(handler: nat)
    | Wait(time: real)

  const Start := System(Fresh, 0.0, [], [], [], [])

  function Act(c: Consumer, s: System, action: Action): System {
    match action
    case Bus(step) =>
      var broker := Next(s.broker, step);
      s.(broker := broker,
         handling := if |broker.invoked| > |s.broker.invoked| && broker.invoked[|s.broker.invoked|].sub in c.guarded
                     then s.handling + [InFlight(broker.invoked[|s.broker.invoked|], s.clock)]
                     else s.handling)
    case Finish(h) =>
      if h < |s.handling| then
        var done := s.handling[h];
        s.(handling := s.handling[..h] + s.handling[h + 1..],
           handled := s.handled + [done.invocation],
           calls := s.calls + [Call(c.eventId(done.invocation.msg.payload), done.reading)],
           lockedAt := s.lockedAt + [s.clock])
      else s
    case Wait(time) => if time > 0.0 then s.(clock := s.clock + time) else s
  }

  function Execute(c: Consumer, actions: seq<Action>): System {
    if actions == [] then Start
    else
      var n := |actions| - 1;
      Act(c, Execute(c, actions[..n]), actions[n])
  }

  /** The broker's part of a run. */
  function BusSteps(actions: seq<Action>): seq<Step> {
    if actions == [] then []
    else
      var n := |actions| - 1;
      BusSteps(actions[..n]) + (if actions[n].Bus? then [actions[n].step] else [])
  }

  lemma {:induction false} BrokerRuns(c: Consumer, actions: seq<Action>)
    ensures Execute(c, actions).broker == Run(BusSteps(actions))
  {
    if actions != [] {
      var n := |actions| - 1;
      BrokerRuns(c, actions[..n]);
      if actions[n].Bus? {
        assert BusSteps(actions)[..|BusSteps(actions)| - 1] == BusSteps(actions[..n]);
      } else {
        assert BusSteps(actions) == BusSteps(actions[..n]);
      }
    }
  }

  // ----- Clock readings -----

  ghost predicate ClockInv(s: System) {
    && |s.calls| == |s.lockedAt| == |s.handled|
    && (forall h :: 0 <= h < |s.handling| ==> s.handling[h].reading <= s.clock)
    && (forall j :: 0 <= j < |s.calls| ==> s.calls[j].at <= s.lockedAt[j] <= s.clock)
    && NonDecreasing(s.lockedAt)
  }

  lemma {:induction false} ClockInvHolds(c: Consumer, actions: seq<Action>)
    ensures ClockInv(Execute(c, actions))
  {
    if actions != [] {
      ClockInvHolds(c, actions[..|actions| - 1]);
    }
  }

  /** Handlers run one at a time: none starts while another one holds an unused clock reading. */
  ghost predicate OneAtATime(c: Consumer, actions: seq<Action>) {
    forall n :: 0 <= n <= |actions| ==> |Execute(c, actions[..n]).handling| <= 1
  }

  /** The inserts so far are in clock order, and the handlers under way have read the clock after them. */
  ghost predicate ReadInOrder(s: System) {
    && InClockOrder(s.calls)
    && forall h, j :: 0 <= h < |s.handling| && 0 <= j < |s.calls| ==> s.calls[j].at <= s.handling[h].reading
  }

  lemma {:induction false} OrderStep(c: Consumer, s: System, action: Action)
    requires ReadInOrder(s) && ClockInv(s) && |s.handling| <= 1 && |Act(c, s, action).handling| <= 1
    ensures ReadInOrder(Act(c, s, action))
  {
  }

  /** One handler at a time reads the clock in lock order. */
  lemma {:induction false} OneAtATimeIsInClockOrder(c: Consumer, actions: seq<Action>)
    requires OneAtATime(c, actions)
    ensures ReadInOrder(Execute(c, actions))
  {
    if actions != [] {
      var n := |actions| - 1;
      forall k | 0 <= k <= n ensures |Execute(c, actions[..n][..k]).handling| <= 1 {
        assert actions[..n][..k] == actions[..k];
      }
      OneAtATimeIsInClockOrder(c, actions[..n]);
      ClockInvHolds(c, actions[..n]);
      assert actions[..|actions|] == actions;
      OrderStep(c, Execute(c, actions[..n]), actions[n]);
    }
  }

  /** In every run, however handlers interleave: when a key is accepted again, the clock has reached the first
      acceptance's reading plus ttl. */
  lemma {:induction false} AcceptedAgainOnlyAfterTtl(c: Consumer, actions: seq<Action>, j: nat, i: nat)
    requires var s := Execute(c, actions);
             j < i < |s.calls| && s.calls[j].key == s.calls[i].key
             && Novel(c.ttl, s.calls, j) && Novel(c.ttl, s.calls, i)
    ensures var s := Execute(c, actions);
            |s.lockedAt| == |s.calls| && s.calls[j].at + c.ttl <= s.lockedAt[i] <= s.clock
  {
    var s := Execute(c, actions);
    ClockInvHolds(c, actions);
    var sweep := SweepBetweenAcceptances(c.ttl, s.calls, j, i);
    assert s.calls[sweep].at <= s.lockedAt[sweep] <= s.lockedAt[i];
  }

  // ----- Which deliveries reach the dedup set -----

  function Underway(handling: seq<InFlight>, i: nat, s: nat): nat {
    if handling == [] then 0
    else
      var n := |handling| - 1;
      Underway(handling[..n], i, s)
      + (if handling[n].invocation.sub == i && handling[n].invocation.msg.sequence == s then 1 else 0)
  }

  /** Finishing the handler at position h takes one call out of the ones under way. */
  lemma {:induction false} UnderwayWithout(handling: seq<InFlight>, h: nat, i: nat, s: nat)
    requires h < |handling|
    ensures Underway(handling, i, s)
         == Underway(handling[..h] + handling[h + 1..], i, s) + Underway([handling[h]], i, s)
  {
    var n := |handling| - 1;
    var rest := handling[..h] + handling[h + 1..];
    if h == n {
      assert rest == handling[..n];
    } else {
      UnderwayWithout(handling[..n], h, i, s);
      assert rest[..n - 1] == handling[..n][..h] + handling[..n][h + 1..];
      assert rest[n - 1] == handling[n];
    }
    assert [handling[h]][..0] == [];
  }

  /** The handlers under way and the inserts made account for the calls of guarded handlers, one by one. */
  ghost predicate GuardedAreCounted(c: Consumer, s: System, i: nat, q: nat) {
    Calls(s.handled, i, q) + Underway(s.handling, i, q) == Calls(s.broker.invoked, i, q)
  }

  /** The inserts are made under the id of the message they were made for, by guarded handlers only. */
  ghost predicate KeyedByEvent(c: Consumer, s: System) {
    && |s.calls| == |s.handled|
    && (forall j :: 0 <= j < |s.handled| ==>
          && s.calls[j].key == c.eventId(s.handled[j].msg.payload)
          && s.handled[j].sub in c.guarded
          && s.handled[j] in s.broker.invoked)
    && forall h :: 0 <= h < |s.handling| ==>
         && s.handling[h].invocation.sub in c.guarded
         && s.handling[h].invocation in s.broker.invoked
  }

  lemma {:induction false} EveryGuardedCallInserts(c: Consumer, actions: seq<Action>, i: nat, q: nat)
    requires i in c.guarded
    ensures GuardedAreCounted(c, Execute(c, actions), i, q)
  {
    if actions != [] {
      var n := |actions| - 1;
      var s := Execute(c, actions[..n]);
      EveryGuardedCallInserts(c, actions[..n], i, q);
      StepCounts(c, s, actions[n], i, q);
    }
  }

  lemma {:induction false} StepCounts(c: Consumer, s: System, action: Action, i: nat, q: nat)
    requires i in c.guarded && GuardedAreCounted(c, s, i, q)
    ensures GuardedAreCounted(c, Act(c, s, action), i, q)
  {
    match action
    case Bus(step) =>
      if |Next(s.broker, step).invoked| > |s.broker.invoked| {
        var made := NewCall(s.broker, step);
        CallCounts(c, s, made, i, q);
      }
    case Finish(h) =>
      if h < |s.handling| {
        FinishCounts(c, s, h, i, q);
      }
    case Wait(_) =>
  }

  lemma {:induction false} CallCounts(c: Consumer, s: System, made: Invocation, i: nat, q: nat)
    requires i in c.guarded && GuardedAreCounted(c, s, i, q)
    ensures Calls(s.handled, i, q)
            + Underway(if made.sub in c.guarded then s.handling + [InFlight(made, s.clock)] else s.handling, i, q)
         == Calls(s.broker.invoked + [made], i, q)
  {
    CallAppended(s.broker.invoked, made, i, q);
    StartAppended(s.handling, InFlight(made, s.clock), i, q);
  }

  lemma {:induction false} FinishCounts(c: Consumer, s: System, h: nat, i: nat, q: nat)
    requires h < |s.handling| && GuardedAreCounted(c, s, i, q)
    ensures GuardedAreCounted(c, Act(c, s, Finish(h)), i, q)
  {
    UnderwayWithout(s.handling, h, i, q);
    CallAppended(s.handled, s.handling[h].invocation, i, q);
    assert [s.handling[h]][..0] == [];
  }

  /** A step of the broker makes one handler call at most. */
  lemma {:induction false} NewCall(b: Broker, step: Step) returns (made: Invocation)
    requires |Next(b, step).invoked| > |b.invoked|
    ensures Next(b, step).invoked == b.invoked + [made] && made == Next(b, step).invoked[|b.invoked|]
  {
    made := Next(b, step).invoked[|b.invoked|];
  }

  lemma {:induction false} CallAppended(invoked: seq<Invocation>, made: Invocation, i: nat, q: nat)
    ensures Calls(invoked + [made], i, q)
         == Calls(invoked, i, q) + if made.sub == i && made.msg.sequence == q then 1 else 0
  {
    assert (invoked + [made])[..|invoked|] == invoked;
  }

  lemma {:induction false} StartAppended(handling: seq<InFlight>, started: InFlight, i: nat, q: nat)
    ensures Underway(handling + [started], i, q) == Underway(handling, i, q)
              + if started.invocation.sub == i && started.invocation.msg.sequence == q then 1 else 0
  {
    assert (handling + [started])[..|handling|] == handling;
  }

  lemma {:induction false} InsertsAreKeyedByEvent(c: Consumer, actions: seq<Action>)
    ensures KeyedByEvent(c, Execute(c, actions))
  {
    if actions != [] {
      var n := |actions| - 1;
      InsertsAreKeyedByEvent(c, actions[..n]);
      var s, s' := Execute(c, actions[..n]), Execute(c, actions);
      assert s.broker.invoked <= s'.broker.invoked;
      assert forall x :: x in s.broker.invoked ==> x in s'.broker.invoked;
    }
  }

  lemma {:induction false} FindCall(invoked: seq<Invocation>, i: nat, q: nat) returns (j: nat)
    requires Calls(invoked, i, q) > 0
    ensures j < |invoked| && invoked[j].sub == i && invoked[j].msg.sequence == q
  {
    j := |invoked| - 1;
    if !(invoked[j].sub == i && invoked[j].msg.sequence == q) {
      j := FindCall(invoked[..j], i, q);
    }
  }

  lemma {:induction false} ListedIsCalled(invoked: seq<Invocation>, j: nat)
    requires j < |invoked|
    ensures Calls(invoked, invoked[j].sub, invoked[j].msg.sequence) > 0
  {
    if j < |invoked| - 1 {
      ListedIsCalled(invoked[..|invoked| - 1], j);
    }
  }

  /** Nothing is left to call and no handler is under way. */
  ghost predicate Settled(s: System) {
    && s.handling == []
    && forall t :: 0 <= t < |s.broker.tasks| ==> s.broker.tasks[t].toNotify == []
  }

  lemma {:induction false} NothingPending(tasks: seq<Task>, i: nat, q: nat)
    requires forall t :: 0 <= t < |tasks| ==> tasks[t].toNotify == []
    ensures Pending(tasks, i, q) == 0
  {
    if tasks != [] {
      NothingPending(tasks[..|tasks| - 1], i, q);
    }
  }

  /** Message `q` is owed to guarded subscription `i` and carries event `e`. */
  ghost predicate Owes(c: Consumer, history: seq<Step>, e: string, i: nat, q: nat) {
    && i in c.guarded
    && 1 <= q <= |Published(history)|
    && c.eventId(Published(history)[q - 1].payload) == e
    && Expected(history, i, q) > 0
  }

  ghost predicate Asked(calls: seq<Call>, e: string) {
    exists j: nat :: j < |calls| && calls[j].key == e
  }

  ghost predicate OwedToConsumer(c: Consumer, history: seq<Step>, e: string) {
    exists i: nat, q: nat :: Owes(c, history, e, i, q)
  }

  /** In a settled run every call the history owes to a guarded handler has become one insert. */
  lemma {:induction false} SettledCounts(c: Consumer, actions: seq<Action>, i: nat, q: nat)
    requires Settled(Execute(c, actions)) && i in c.guarded
    ensures Calls(Execute(c, actions).handled, i, q) == Expected(BusSteps(actions), i, q)
  {
    BrokerRuns(c, actions);
    DeliveryIsExact(BusSteps(actions), i, q);
    EveryGuardedCallInserts(c, actions, i, q);
    NothingPending(Execute(c, actions).broker.tasks, i, q);
  }

  /** An insert is made for a message as it was published, by a guarded handler, under the message's event. */
  lemma {:induction false} InsertIsOfPublished(c: Consumer, actions: seq<Action>, j: nat)
    requires j < |Execute(c, actions).handled|
    ensures var s := Execute(c, actions);
            && |s.calls| == |s.handled| && s.handled[j].sub in c.guarded
            && Original(Published(BusSteps(actions)), s.handled[j].msg)
            && s.calls[j].key == c.eventId(s.handled[j].msg.payload)
  {
    BrokerRuns(c, actions);
    BytesAreOriginal(BusSteps(actions));
    InsertsAreKeyedByEvent(c, actions);
  }

  /** What the set is asked about in a settled run is owed. */
  lemma {:induction false} AskedIsOwed(c: Consumer, actions: seq<Action>, j: nat) returns (i: nat, q: nat)
    requires Settled(Execute(c, actions)) && j < |Execute(c, actions).handled|
    ensures |Execute(c, actions).calls| == |Execute(c, actions).handled|
    ensures Owes(c, BusSteps(actions), Execute(c, actions).calls[j].key, i, q)
  {
    var handled := Execute(c, actions).handled;
    InsertIsOfPublished(c, actions, j);
    i, q := handled[j].sub, handled[j].msg.sequence;
    SettledCounts(c, actions, i, q);
    ListedIsCalled(handled, j);
  }

  /** What is owed, the set has been asked about in a settled run. */
  lemma {:induction false} OwedIsAsked(c: Consumer, actions: seq<Action>, e: string, i: nat, q: nat) returns (j: nat)
    requires Settled(Execute(c, actions)) && Owes(c, BusSteps(actions), e, i, q)
    ensures j < |Execute(c, actions).calls| && Execute(c, actions).calls[j].key == e
  {
    var handled := Execute(c, actions).handled;
    SettledCounts(c, actions, i, q);
    j := FindCall(handled, i, q);
    InsertIsOfPublished(c, actions, j);
  }

  /** In a settled run the set has been asked about exactly the events the history owes to guarded handlers. */
  lemma {:induction false} AskedAboutWhatIsOwed(c: Consumer, actions: seq<Action>, e: string)
    requires Settled(Execute(c, actions))
    ensures Asked(Execute(c, actions).calls, e) <==> OwedToConsumer(c, BusSteps(actions), e)
  {
    if Asked(Execute(c, actions).calls, e) {
      var j: nat :| j < |Execute(c, actions).calls| && Execute(c, actions).calls[j].key == e;
      InsertsAreKeyedByEvent(c, actions);
      var i, q := AskedIsOwed(c, actions, j);
    }
    if OwedToConsumer(c, BusSteps(actions), e) {
      var i: nat, q: nat :| Owes(c, BusSteps(actions), e, i, q);
      var j := OwedIsAsked(c, actions, e, i, q);
    }
  }

  // ----- Effects -----

  /** Every run: an event has taken effect exactly when some guarded handler was owed it. Nothing is lost to the
      dedup set and nothing is invented, whatever the interleaving and the clock readings. */
  lemma {:induction false} EffectiveIffOwed(c: Consumer, actions: seq<Action>, e: string)
    requires Settled(Execute(c, actions))
    ensures Effects(c.ttl, Execute(c, actions).calls, e) != [] <==> OwedToConsumer(c, BusSteps(actions), e)
  {
    AskedAboutWhatIsOwed(c, actions, e);
    NothingLost(c.ttl, Execute(c, actions).calls, e);
  }

  /** Every run without stale readings, overlapping handlers included: at most floor(L / ttl) + 1 effects of an event in
      a span of length L. */
  lemma {:induction false} EffectRateOfRuns(c: Consumer, actions: seq<Action>, e: string, lo: real, hi: real)
    requires c.ttl > 0.0 && lo <= hi && NoneStale(c.ttl, Readings(Execute(c, actions).calls))
    ensures CountIn(Effects(c.ttl, Execute(c, actions).calls, e), lo, hi) <= ((hi - lo) / c.ttl).Floor + 1
  {
    EffectRate(c.ttl, Execute(c, actions).calls, e, lo, hi);
  }

  /** One handler at a time never holds a stale reading. */
  lemma {:induction false} OneAtATimeIsNotStale(c: Consumer, actions: seq<Action>)
    requires OneAtATime(c, actions)
    ensures NoneStale(c.ttl, Readings(Execute(c, actions).calls))
  {
    OneAtATimeIsInClockOrder(c, actions);
    ClockOrderIsNotStale(c.ttl, Execute(c, actions).calls);
  }

  /** Every later delivery of the event has read the clock less than ttl after the first one. */
  ghost predicate WithinTtl(c: Consumer, calls: seq<Call>, e: string) {
    forall first: nat :: IsFirst(calls, e, first) ==> ReadInTime(c.ttl, calls, e, first)
  }

  /** No sweep reaches the expiry of the event's first delivery while another delivery of it is still to come. */
  ghost predicate Kept(c: Consumer, calls: seq<Call>, e: string) {
    forall first: nat :: IsFirst(calls, e, first) ==> KeptForAll(c.ttl, calls, e, first)
  }

  /** Every settled run, overlapping handlers included: an event whose deliveries all fall within ttl of the first takes
      effect exactly once if it was owed to the consumer, and never otherwise, exactly if its entry is kept for all of
      them. */
  lemma {:induction false} ExactlyOnceIff(c: Consumer, actions: seq<Action>, e: string)
    requires Settled(Execute(c, actions)) && WithinTtl(c, Execute(c, actions).calls, e)
    ensures |Effects(c.ttl, Execute(c, actions).calls, e)| == (if OwedToConsumer(c, BusSteps(actions), e) then 1 else 0)
            <==> Kept(c, Execute(c, actions).calls, e)
  {
    var calls := Execute(c, actions).calls;
    EffectiveIffOwed(c, actions, e);
    NothingLost(c.ttl, calls, e);
    if j: nat :| j < |calls| && calls[j].key == e {
      var first := FirstCall(calls, e, j);
      assert IsFirst(calls, e, first);
      OnceIff(c.ttl, calls, e, first);
      forall f: nat | IsFirst(calls, e, f) ensures f == first {
        OneFirst(calls, e, f, first);
      }
    }
  }

  lemma {:induction false} OneFirst(calls: seq<Call>, e: string, f: nat, g: nat)
    requires IsFirst(calls, e, f) && IsFirst(calls, e, g)
    ensures f == g
  {
  }

  /** With one handler at a time the entry is always kept, so such an event takes effect exactly once. */
  lemma {:induction false} ExactlyOnceWithinTtl(c: Consumer, actions: seq<Action>, e: string)
    requires OneAtATime(c, actions) && Settled(Execute(c, actions))
    requires WithinTtl(c, Execute(c, actions).calls, e)
    ensures |Effects(c.ttl, Execute(c, actions).calls, e)|
         == if OwedToConsumer(c, BusSteps(actions), e) then 1 else 0
  {
    var calls := Execute(c, actions).calls;
    OneAtATimeIsInClockOrder(c, actions);
    forall first: nat | IsFirst(calls, e, first) ensures KeptForAll(c.ttl, calls, e, first) {
      forall s, i | first < s < i < |calls| && calls[i].key == e ensures calls[s].at < calls[first].at + c.ttl {
        assert calls[s].at <= calls[i].at;
      }
    }
    ExactlyOnceIff(c, actions, e);
  }

  lemma {:induction false} FirstCall(calls: seq<Call>, e: string, j: nat) returns (first: nat)
    requires j < |calls| && calls[j].key == e
    ensures first < |calls| && calls[first].key == e
    ensures forall i :: 0 <= i < first ==> calls[i].key != e
  {
    first := j;
    if i: nat :| i < j && calls[i].key == e {
      first := FirstCall(calls, e, i);
    }
  }
}
