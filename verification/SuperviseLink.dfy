/** The use case around the link monitor: every change of state is offered to the publisher once. */
module LinkSupervision {
  import opened LinkMonitoring
  import opened Words
  import opened Wrappers

  /** A change of state offered to the publisher, and whether the publisher took it. */
  datatype Change = Change(from: LinkState, to: LinkState, delivered: bool)

  /** What the supervisor and the publisher remember. */
  datatype World = World(monitor: Monitor, log: seq<Change>)

  /** An input, and whether the publisher is up when it arrives. */
  datatype Event = Event(input: Input, up: bool)

  function Handled(w: World, e: Event): World {
    var after := Step(w.monitor, e.input);
    World(after, if after.state == w.monitor.state then w.log else w.log + [Change(w.monitor.state, after.state, e.up)])
  }

  datatype Message = Message(payload: string, delivered: bool)

  function Digit(s: LinkState): char {
    match s
    case NeverSeen => '0'
    case Alive => '1'
    case Lost => '2'
  }

  function Payload(from: LinkState, to: LinkState): string {
    "{\"from\":" + [Digit(from)] + ",\"to\":" + [Digit(to)] + "}"
  }

  function Messages(log: seq<Change>): (messages: seq<Message>)
    ensures |messages| == |log|
  {
    if log == [] then []
    else
      var c := log[|log| - 1];
      Messages(log[..|log| - 1]) + [Message(Payload(c.from, c.to), c.delivered)]
  }

  function StateOf(c: char): LinkState {
    if c == '0' then NeverSeen else if c == '1' then Alive else Lost
  }

  /** The change a message tells, from the places of its digits. */
  function Told(m: Message): Option<Change> {
    if |m.payload| == 17 then Some(Change(StateOf(m.payload[8]), StateOf(m.payload[15]), m.delivered)) else None
  }

  lemma {:induction false} PayloadTells(c: Change)
    ensures Told(Message(Payload(c.from, c.to), c.delivered)) == Some(c)
  {
  }

  /** The published texts tell the changes one by one. */
  lemma {:induction false} MessagesTellChanges(log: seq<Change>, i: nat)
    requires i < |log|
    ensures Told(Messages(log)[i]) == Some(log[i])
  {
    if i < |log| - 1 {
      MessagesTellChanges(log[..|log| - 1], i);
    } else {
      PayloadTells(log[i]);
    }
  }

  /** The event bus as this service sees it: a message is delivered if the bus is up, and refused otherwise. */
  class EventPublisher {
    var log: seq<Message>

    constructor ()
      ensures log == []
    {
      log := [];
    }

    method Publish(payload: string, up: bool) returns (r: Result<(), string>)
      modifies this
      ensures log == old(log) + [Message(payload, up)] && (r.Ok? <==> up)
    {
      log := log + [Message(payload, up)];
      return if up then Ok(()) else Err("E_PUBLISH");
    }
  }

  class SuperviseLink {
    const monitor: LinkMonitor
    const publisher: EventPublisher

    ghost predicate Shows(w: World)
      reads monitor, publisher
    {
      monitor.Value() == w.monitor && publisher.log == Messages(w.log)
    }

    constructor (monitor: LinkMonitor, publisher: EventPublisher)
      ensures this.monitor == monitor && this.publisher == publisher
    {
      this.monitor, this.publisher := monitor, publisher;
    }

    /** Fails if the heartbeat is out of order or a change of state could not be published. */
    method HeartbeatReceived(now: Word, up: bool, ghost w: World) returns (r: Result<(), string>)
      requires Shows(w)
      modifies monitor, publisher
      ensures Shows(Handled(w, Event(Heartbeat(now), up)))
      ensures r.Err? <==> Regresses(w.monitor, now) || (w.monitor.state != Alive && !up)
    {
      var t := monitor.OnHeartbeat(now);
      match t {
        case Err(e) =>
          return Err(e);
        case Ok(change) =>
          r := PublishIfChanged(change, up, w.log);
      }
    }

    method Tick(now: Word, up: bool, ghost w: World) returns (r: Result<(), string>)
      requires Shows(w)
      modifies monitor, publisher
      ensures Shows(Handled(w, Event(LinkMonitoring.Tick(now), up)))
      ensures r.Err? <==> TimesOut(w.monitor, now) && !up
    {
      var t := monitor.OnTick(now);
      r := PublishIfChanged(t, up, w.log);
    }

    method PublishIfChanged(t: Transition, up: bool, ghost log: seq<Change>) returns (r: Result<(), string>)
      requires t.changed == (t.from != t.to) && publisher.log == Messages(log)
      modifies publisher
      ensures publisher.log == Messages(if t.changed then log + [Change(t.from, t.to, up)] else log)
      ensures r.Err? <==> t.changed && !up
    {
      if !t.changed {
        return Ok(());
      }
      assert (log + [Change(t.from, t.to, up)])[..|log|] == log;
      r := publisher.Publish("{\"from\":" + [Digit(t.from)] + ",\"to\":" + [Digit(t.to)] + "}", up);
    }
  }

  // ----- Runs -----

  function Life(timeout: Word, events: seq<Event>): World {
    if events == [] then World(Started(timeout), [])
    else Handled(Life(timeout, events[..|events| - 1]), events[|events| - 1])
  }

  function InputsOf(events: seq<Event>): (inputs: seq<Input>)
    ensures |inputs| == |events|
  {
    if events == [] then [] else InputsOf(events[..|events| - 1]) + [events[|events| - 1].input]
  }

  /** The change that message number `i` must tell: seen first, then lost and found in turn. */
  function Expected(i: nat): (LinkState, LinkState) {
    if i == 0 then (NeverSeen, Alive) else if i % 2 == 1 then (Alive, Lost) else (Lost, Alive)
  }

  predicate IsChain(log: seq<Change>) {
    forall i :: 0 <= i < |log| ==> (log[i].from, log[i].to) == Expected(i)
  }

  /** The log tells a chain that ends in the monitor's state. */
  ghost predicate Chained(w: World) {
    IsChain(w.log) && w.monitor.state == if w.log == [] then NeverSeen else Expected(|w.log| - 1).1
  }

  lemma {:induction false} StepChained(w: World, e: Event)
    requires Chained(w)
    ensures Chained(Handled(w, e))
  {
  }

  /** Over every run the attempted publications form one unbroken chain up to the present state. */
  lemma {:induction false} AttemptsFormAChain(timeout: Word, events: seq<Event>)
    ensures Chained(Life(timeout, events))
    ensures Life(timeout, events).monitor == Run(timeout, InputsOf(events))
  {
    if events != [] {
      var n := |events| - 1;
      AttemptsFormAChain(timeout, events[..n]);
      StepChained(Life(timeout, events[..n]), events[n]);
      assert InputsOf(events)[..n] == InputsOf(events[..n]);
    }
  }

  // ----- One loss message per silence -----

  ghost function Silences(inputs: seq<Input>, timeout: Word, n: nat): nat
    requires n <= |inputs|
  {
    if n == 0 then 0 else Silences(inputs, timeout, n - 1) + if Silent(inputs, timeout, n - 1) then 1 else 0
  }

  lemma {:induction false} SilentStays(inputs: seq<Input>, x: Input, timeout: Word, i: nat)
    requires Silent(inputs, timeout, i)
    ensures Silent(inputs + [x], timeout, i)
  {
    AllCountsEarlier(inputs, x);
    var j: nat :| SilenceFound(inputs, timeout, i, j);
    assert forall k: nat :: k < |inputs| ==> (inputs + [x])[k] == inputs[k];
    assert SilenceFound(inputs + [x], timeout, i, j);
  }

  /** One more input adds a silence only if it is the tick that finds the latest heartbeat silent. */
  lemma {:induction false} SilencesStep(inputs: seq<Input>, x: Input, timeout: Word, latest: nat, n: nat)
    requires n <= |inputs|
    requires forall i: nat :: i < |inputs| && IsLatest(inputs, i) ==> i == latest
    ensures Silences(inputs + [x], timeout, n) == Silences(inputs, timeout, n)
              + if latest < n && Silent(inputs + [x], timeout, latest) && !Silent(inputs, timeout, latest) then 1 else 0
  {
    if n > 0 {
      SilencesStep(inputs, x, timeout, latest, n - 1);
      if n - 1 != latest {
        SilentEarlier(inputs, x, timeout, n - 1);
      } else if Silent(inputs, timeout, latest) {
        SilentStays(inputs, x, timeout, latest);
      }
    }
  }

  /** Every second message tells a loss, and there is exactly one for each silence in the history. */
  lemma {:induction false} OneLossPerSilence(timeout: Word, events: seq<Event>)
    ensures |Life(timeout, events).log| / 2 == Silences(InputsOf(events), timeout, |events|)
  {
    if events != [] {
      var n := |events| - 1;
      var before, x := events[..n], events[n].input;
      OneLossPerSilence(timeout, before);
      AttemptsFormAChain(timeout, before);
      SilenceIsALoss(timeout, InputsOf(before), x);
      assert InputsOf(events) == InputsOf(before) + [x];
      HalfStep(Life(timeout, before), events[n]);
    }
  }

  lemma {:induction false} HalfStep(w: World, e: Event)
    requires Chained(w)
    ensures |Handled(w, e).log| / 2 == |w.log| / 2
              + if w.monitor.state == Alive && Step(w.monitor, e.input).state == Lost then 1 else 0
  {
  }

  /** One more input adds a silence exactly if it turns the monitor from alive to lost. */
  lemma {:induction false} SilenceIsALoss(timeout: Word, inputs: seq<Input>, x: Input)
    ensures var m := Run(timeout, inputs);
            Silences(inputs + [x], timeout, |inputs| + 1) == Silences(inputs, timeout, |inputs|)
              + if m.state == Alive && Step(m, x).state == Lost then 1 else 0
  {
    var latest := StateIsHistory(timeout, inputs);
    var latest' := StateIsHistory(timeout, inputs + [x]);
    assert (inputs + [x])[..|inputs|] == inputs;
    NewInputNotSilent(inputs, x, timeout);
    AllCountsEarlier(inputs, x);
    if NoHeartbeat(inputs) {
      SilencesStep(inputs, x, timeout, |inputs|, |inputs|);
    } else {
      SilencesStep(inputs, x, timeout, latest, |inputs|);
      LatestSilent(timeout, inputs, x, latest);
    }
  }

  lemma {:induction false} LatestSilent(timeout: Word, inputs: seq<Input>, x: Input, latest: nat)
    requires IsLatest(inputs, latest) && !NoHeartbeat(inputs)
    ensures Silent(inputs, timeout, latest) <==> Run(timeout, inputs).state == Lost
    ensures !Silent(inputs, timeout, latest) ==>
              (Silent(inputs + [x], timeout, latest) <==> Step(Run(timeout, inputs), x).state == Lost)
  {
    var l := StateIsHistory(timeout, inputs);
    assert l == latest;
    AllCountsEarlier(inputs, x);
    if x.Tick? && TimesOut(Run(timeout, inputs), x.at) {
      assert (inputs + [x])[latest] == inputs[latest];
      assert SilenceFound(inputs + [x], timeout, latest, |inputs|);
    } else if !Silent(inputs, timeout, latest) {
      SilentEarlier(inputs, x, timeout, latest);
    }
  }

  lemma {:induction false} NewInputNotSilent(inputs: seq<Input>, x: Input, timeout: Word)
    ensures !Silent(inputs + [x], timeout, |inputs|)
  {
  }

  // ----- What reaches the subscribers -----

  function Delivered(log: seq<Change>): seq<Change> {
    if log == [] then []
    else Delivered(log[..|log| - 1]) + if log[|log| - 1].delivered then [log[|log| - 1]] else []
  }

  /** A subscriber sees no break: each change starts where the one before ended. */
  predicate Unbroken(changes: seq<Change>) {
    forall i :: 0 <= i < |changes| ==> Meets(changes[..i], changes[i])
  }

  predicate Meets(changes: seq<Change>, c: Change) {
    c.from == if changes == [] then NeverSeen else changes[|changes| - 1].to
  }

  /** How many messages directly before message `k` failed. */
  function Missed(log: seq<Change>, k: nat): (m: nat)
    requires k <= |log|
    ensures m <= k
  {
    if k == 0 || log[k - 1].delivered then 0 else 1 + Missed(log, k - 1)
  }

  /** The first message was delivered if any was, and later failures come in even numbers. */
  predicate FailuresAreEven(log: seq<Change>) {
    forall k :: 0 <= k < |log| && log[k].delivered ==>
      if Missed(log, k) == k then k == 0 else Missed(log, k) % 2 == 0
  }

  lemma {:induction false} LastDelivered(log: seq<Change>)
    ensures var m := Missed(log, |log|);
            if m == |log| then Delivered(log) == []
            else Delivered(log) != [] && Delivered(log)[|Delivered(log)| - 1] == log[|log| - 1 - m]
  {
    if log != [] {
      var n := |log| - 1;
      LastDelivered(log[..n]);
      MissedPrefix(log, n, n);
    }
  }

  lemma {:induction false} MissedPrefix(log: seq<Change>, n: nat, k: nat)
    requires k <= n <= |log|
    ensures Missed(log[..n], k) == Missed(log, k)
  {
    if k > 0 {
      MissedPrefix(log, n, k - 1);
    }
  }

  /** Failed publications are not repeated, so subscribers can see a break: they see none exactly when the failures
      between two delivered messages come in even numbers and none precedes the first. */
  lemma {:induction false} UnbrokenIffFailuresEven(log: seq<Change>)
    requires IsChain(log)
    ensures Unbroken(Delivered(log)) <==> FailuresAreEven(log)
  {
    if log != [] {
      var n := |log| - 1;
      UnbrokenIffFailuresEven(log[..n]);
      LastDelivered(log[..n]);
      LastFailures(log);
      if log[n].delivered {
        UnbrokenStep(log);
      } else {
        assert Delivered(log) == Delivered(log[..n]);
      }
    }
  }

  lemma {:induction false} LastFailures(log: seq<Change>)
    requires log != []
    ensures FailuresAreEven(log) <==> FailuresAreEven(log[..|log| - 1]) && LastFits(log)
  {
    var n := |log| - 1;
    forall k: nat | k <= n ensures Missed(log[..n], k) == Missed(log, k) {
      MissedPrefix(log, n, k);
    }
  }

  predicate LastFits(log: seq<Change>)
    requires log != []
  {
    var n := |log| - 1;
    log[n].delivered ==> if Missed(log, n) == n then n == 0 else Missed(log, n) % 2 == 0
  }

  lemma {:induction false} UnbrokenStep(log: seq<Change>)
    requires log != [] && IsChain(log) && log[|log| - 1].delivered
    ensures Unbroken(Delivered(log)) <==> Unbroken(Delivered(log[..|log| - 1])) && LastFits(log)
  {
    AppendUnbroken(Delivered(log[..|log| - 1]), log[|log| - 1]);
    MeetsIffFits(log);
  }

  lemma {:induction false} MeetsIffFits(log: seq<Change>)
    requires log != [] && IsChain(log) && log[|log| - 1].delivered
    ensures Meets(Delivered(log[..|log| - 1]), log[|log| - 1]) <==> LastFits(log)
  {
    var n := |log| - 1;
    var m := Missed(log, n);
    LastDelivered(log[..n]);
    MissedPrefix(log, n, n);
    assert (log[n].from, log[n].to) == Expected(n);
    if m < n {
      assert (log[n - 1 - m].from, log[n - 1 - m].to) == Expected(n - 1 - m);
      ExpectedMeet(n, m);
    }
  }

  lemma {:induction false} ExpectedMeet(n: nat, m: nat)
    requires m < n
    ensures Expected(n).0 == Expected(n - 1 - m).1 <==> m % 2 == 0
  {
  }

  lemma {:induction false} AppendUnbroken(changes: seq<Change>, c: Change)
    ensures Unbroken(changes + [c]) <==> Unbroken(changes) && Meets(changes, c)
  {
    var more := changes + [c];
    assert forall i :: 0 <= i < |changes| ==> more[..i] == changes[..i] && more[i] == changes[i];
    assert more[..|changes|] == changes && more[|changes|] == c;
  }

  /** A run that breaks the delivered chain: the loss falls into an outage, the recovery does not. */
  lemma {:induction false} LostMessageBreaksTheChain(timeout: Word)
    requires timeout + 1 < WORD
    ensures var log := Life(timeout, [Event(Heartbeat(0), true), Event(Input.Tick(timeout + 1), false),
                                      Event(Heartbeat(timeout + 1), true)]).log;
            IsChain(log) && !Unbroken(Delivered(log))
  {
    var one, two, three := Event(Heartbeat(0), true), Event(Input.Tick(timeout + 1), false),
                           Event(Heartbeat(timeout + 1), true);
    LifeStep(timeout, [], one, [one]);
    LifeStep(timeout, [one], two, [one, two]);
    LifeStep(timeout, [one, two], three, [one, two, three]);
    StaleTickLosesIff(Life(timeout, [one]).monitor, timeout + 1);
    var log := Life(timeout, [one, two, three]).log;
    assert log == [Change(NeverSeen, Alive, true), Change(Alive, Lost, false), Change(Lost, Alive, true)];
    AttemptsFormAChain(timeout, [one, two, three]);
    UnbrokenIffFailuresEven(log);
    assert Missed(log, 1) == 0 && Missed(log, 2) == 1;
  }

  lemma {:induction false} LifeStep(timeout: Word, events: seq<Event>, e: Event, more: seq<Event>)
    requires more == events + [e]
    ensures Life(timeout, more) == Handled(Life(timeout, events), e)
  {
    assert more[..|events|] == events;
  }
}
