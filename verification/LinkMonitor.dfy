/** Link supervision: the incremental monitor against a definition over its whole input history. */
module LinkMonitoring {
  import opened Words
  import opened Wrappers

  /** Unsigned subtraction, which wraps around when the clock reads earlier than `since`. */
  function Elapsed(now: Word, since: Word): Word {
    (now - since) % WORD
  }

  datatype LinkState = NeverSeen | Alive | Lost

  datatype Transition = Transition(from: LinkState, to: LinkState, changed: bool)

  datatype Input = Heartbeat(at: Word) | Tick(at: Word)

  datatype Monitor = Monitor(timeout: Word, lastSeen: Word, state: LinkState)

  function Started(timeout: Word): Monitor {
    Monitor(timeout, 0, NeverSeen)
  }

  predicate Regresses(m: Monitor, now: Word) {
    m.state != NeverSeen && now < m.lastSeen
  }

  predicate TimesOut(m: Monitor, now: Word) {
    m.state == Alive && Elapsed(now, m.lastSeen) > m.timeout
  }

  function Step(m: Monitor, x: Input): Monitor {
    match x
    case Heartbeat(now) => if Regresses(m, now) then m else m.(lastSeen := now, state := Alive)
    case Tick(now) => if TimesOut(m, now) then m.(state := Lost) else m
  }

  class LinkMonitor {
    const timeout: Word
    var lastSeen: Word
    var state: LinkState

    ghost function Value(): Monitor
      reads this
    {
      Monitor(timeout, lastSeen, state)
    }

    constructor (timeout: Word)
      ensures Value() == Started(timeout)
    {
      this.timeout := timeout;
      lastSeen, state := 0, NeverSeen;
    }

    method OnHeartbeat(now: Word) returns (r: Result<Transition, string>)
      modifies this
      ensures Value() == Step(old(Value()), Heartbeat(now))
      ensures r.Err? <==> Regresses(old(Value()), now)
      ensures r.Ok? ==> r.value == Transition(old(state), Alive, old(state) != Alive)
    {
      if state != NeverSeen && now < lastSeen {
        return Err("E_TIME_REGRESSION");
      }
      lastSeen := now;
      var t := TransitionTo(Alive);
      return Ok(t);
    }

    method OnTick(now: Word) returns (t: Transition)
      modifies this
      ensures Value() == Step(old(Value()), Tick(now))
      ensures t == Transition(old(state), state, old(state) != state)
    {
      if state == Alive && (now - lastSeen) % WORD > timeout {
        t := TransitionTo(Lost);
        return;
      }
      return Transition(state, state, false);
    }

    method TransitionTo(next: LinkState) returns (t: Transition)
      modifies this`state
      ensures state == next && t == Transition(old(state), next, old(state) != next)
    {
      t := Transition(state, next, state != next);
      state := next;
    }
  }

  // ----- The state as a definition over the history -----

  function Run(timeout: Word, inputs: seq<Input>): Monitor {
    if inputs == [] then Started(timeout)
    else Step(Run(timeout, inputs[..|inputs| - 1]), inputs[|inputs| - 1])
  }

  /** A heartbeat counts when no earlier heartbeat, whether it counted or not, has a later time. */
  ghost predicate Counts(inputs: seq<Input>, i: nat)
    requires i < |inputs|
  {
    inputs[i].Heartbeat? && forall j :: 0 <= j < i && inputs[j].Heartbeat? ==> inputs[j].at <= inputs[i].at
  }

  ghost predicate IsLatest(inputs: seq<Input>, i: nat) {
    i < |inputs| && Counts(inputs, i) && forall j :: i < j < |inputs| ==> !Counts(inputs, j)
  }

  /** Some tick after heartbeat `i`, before the next one that counts, found it older than the timeout. */
  ghost predicate Silent(inputs: seq<Input>, timeout: Word, i: nat) {
    i < |inputs| && Counts(inputs, i)
    && exists j :: SilenceFound(inputs, timeout, i, j)
  }

  ghost predicate SilenceFound(inputs: seq<Input>, timeout: Word, i: nat, j: nat) {
    i < j < |inputs| && inputs[j].Tick? && Elapsed(inputs[j].at, inputs[i].at) > timeout
    && forall k :: i < k < j ==> !Counts(inputs, k)
  }

  ghost predicate NoHeartbeat(inputs: seq<Input>) {
    forall i :: 0 <= i < |inputs| ==> inputs[i].Tick?
  }

  lemma {:induction false} CountsEarlier(inputs: seq<Input>, x: Input, i: nat)
    requires i < |inputs|
    ensures Counts(inputs + [x], i) <==> Counts(inputs, i)
  {
    assert forall j :: 0 <= j <= i ==> (inputs + [x])[j] == inputs[j];
  }

  lemma {:induction false} AllCountsEarlier(inputs: seq<Input>, x: Input)
    ensures forall i: nat :: i < |inputs| ==> (Counts(inputs + [x], i) <==> Counts(inputs, i))
  {
    forall i: nat | i < |inputs| ensures Counts(inputs + [x], i) <==> Counts(inputs, i) {
      CountsEarlier(inputs, x, i);
    }
  }

  lemma {:induction false} SilentEarlier(inputs: seq<Input>, x: Input, timeout: Word, i: nat)
    requires i < |inputs|
    requires IsLatest(inputs, i) ==> x.Tick? ==> Elapsed(x.at, inputs[i].at) <= timeout
    ensures Silent(inputs + [x], timeout, i) <==> Silent(inputs, timeout, i)
  {
    AllCountsEarlier(inputs, x);
    var more := inputs + [x];
    assert forall j: nat :: j < |inputs| ==> more[j] == inputs[j];
    assert forall j: nat :: j < |inputs| ==>
             (SilenceFound(more, timeout, i, j) <==> SilenceFound(inputs, timeout, i, j));
  }

  /** The latest counting heartbeat gives the monitor its time, and the monitor is lost exactly if that heartbeat was
      found silent. This holds for all runs, ticks out of order included. */
  lemma {:induction false} StateIsHistory(timeout: Word, inputs: seq<Input>) returns (latest: nat)
    ensures var m := Run(timeout, inputs);
            && m.timeout == timeout
            && (m.state == NeverSeen <==> NoHeartbeat(inputs))
            && (m.state != NeverSeen ==> IsLatest(inputs, latest) && m.lastSeen == inputs[latest].at)
            && (m.state == Lost <==> !NoHeartbeat(inputs) && Silent(inputs, timeout, latest))
    ensures !NoHeartbeat(inputs) ==>
              forall i :: 0 <= i < |inputs| && inputs[i].Heartbeat? ==> inputs[i].at <= Run(timeout, inputs).lastSeen
  {
    latest := 0;
    if inputs != [] {
      var n := |inputs| - 1;
      var before, x := inputs[..n], inputs[n];
      latest := StateIsHistory(timeout, before);
      assert inputs == before + [x];
      AllCountsEarlier(before, x);
      var m := Run(timeout, before);
      if x.Heartbeat? {
        if Regresses(m, x.at) {
          assert inputs[latest] == before[latest];
          assert !Counts(inputs, n);
          SilentEarlier(before, x, timeout, latest);
        } else {
          assert Counts(inputs, n);
          assert inputs[n].Heartbeat?;
          latest := n;
        }
      } else if m.state != NeverSeen {
        assert !Counts(inputs, n);
        assert inputs[latest] == before[latest];
        if Elapsed(x.at, m.lastSeen) > timeout {
          assert SilenceFound(inputs, timeout, latest, n);
        } else {
          SilentEarlier(before, x, timeout, latest);
        }
      }
    }
  }

  /** A rejected heartbeat changes nothing, and heartbeats are rejected exactly when an earlier one has a later time. */
  lemma {:induction false} RejectedIff(timeout: Word, inputs: seq<Input>, at: Word)
    ensures Regresses(Run(timeout, inputs), at) <==>
            exists i :: 0 <= i < |inputs| && inputs[i].Heartbeat? && at < inputs[i].at
    ensures Regresses(Run(timeout, inputs), at) ==> Step(Run(timeout, inputs), Heartbeat(at)) == Run(timeout, inputs)
  {
    var latest := StateIsHistory(timeout, inputs);
    var m := Run(timeout, inputs);
    if Regresses(m, at) {
      assert inputs[latest].Heartbeat? && at < inputs[latest].at;
    }
  }

  /** With ticks read on a clock that is past the last heartbeat, silence is plain lateness; an earlier tick wraps
      around and reports a loss at once, unless the timeout is so long that even that is within it. */
  lemma {:induction false} StaleTickLosesIff(m: Monitor, now: Word)
    requires m.state == Alive
    ensures now >= m.lastSeen ==> (TimesOut(m, now) <==> now > m.lastSeen + m.timeout)
    ensures now < m.lastSeen ==> (TimesOut(m, now) <==> m.lastSeen - now < WORD - m.timeout)
  {
  }

  // ----- Timely detection -----

  function RunFrom(m: Monitor, inputs: seq<Input>): Monitor
    decreases |inputs|
  {
    if inputs == [] then m else RunFrom(Step(m, inputs[0]), inputs[1..])
  }

  lemma {:induction false} RunSplits(timeout: Word, inputs: seq<Input>, more: seq<Input>)
    ensures Run(timeout, inputs + more) == RunFrom(Run(timeout, inputs), more)
    decreases |more|
  {
    if more == [] {
      assert inputs + more == inputs;
    } else {
      assert inputs + more == (inputs + [more[0]]) + more[1..];
      assert (inputs + [more[0]])[..|inputs|] == inputs;
      RunSplits(timeout, inputs + [more[0]], more[1..]);
    }
  }

  /** No heartbeat of `inputs` is accepted, and the first tick comes at most `period` after `from`, each later one at
      most `period` after the one before. */
  predicate Ticking(inputs: seq<Input>, lastSeen: Word, from: Word, period: nat) {
    inputs == [] ||
    match inputs[0]
    case Heartbeat(at) => at < lastSeen && Ticking(inputs[1..], lastSeen, from, period)
    case Tick(at) => from <= at <= from + period && Ticking(inputs[1..], lastSeen, at, period)
  }

  /** Ticks at most `period` apart find a loss no later than `period` after the timeout has run out: the first tick
      past it is that early, the monitor is alive until then and lost after it. */
  lemma {:induction false} LossFoundInTime(m: Monitor, inputs: seq<Input>, from: Word, period: nat) returns (k: nat)
    requires m.state == Alive && m.lastSeen <= from <= m.lastSeen + m.timeout
    requires Ticking(inputs, m.lastSeen, from, period)
    requires exists i :: 0 <= i < |inputs| && inputs[i].Tick? && inputs[i].at > m.lastSeen + m.timeout
    ensures k < |inputs| && inputs[k].Tick?
    ensures m.lastSeen + m.timeout < inputs[k].at <= m.lastSeen + m.timeout + period
    ensures RunFrom(m, inputs[..k]) == m && RunFrom(m, inputs[..k + 1]) == m.(state := Lost)
  {
    var x := inputs[0];
    if x.Tick? && x.at > m.lastSeen + m.timeout {
      StaleTickLosesIff(m, x.at);
      assert inputs[..1][0] == x && inputs[..1][1..] == [];
      return 0;
    }
    if x.Tick? {
      StaleTickLosesIff(m, x.at);
    }
    assert Step(m, x) == m;
    var i :| 0 <= i < |inputs| && inputs[i].Tick? && inputs[i].at > m.lastSeen + m.timeout;
    assert inputs[1..][i - 1] == inputs[i];
    k := LossFoundInTime(m, inputs[1..], if x.Tick? then x.at else from, period);
    assert inputs[..k + 1][1..] == inputs[1..][..k];
    assert inputs[..k + 2][1..] == inputs[1..][..k + 1];
    k := k + 1;
  }

  /** In every run that has the monitor alive, what follows is found in time: the run is lost right after the first tick
      past the timeout, which comes no later than `period` after it, and has not changed before. */
  lemma {:induction false} RunFindsLossInTime(timeout: Word, inputs: seq<Input>, more: seq<Input>, from: Word,
                                              period: nat)
    returns (k: nat)
    requires Run(timeout, inputs).state == Alive
    requires Run(timeout, inputs).lastSeen <= from <= Run(timeout, inputs).lastSeen + timeout
    requires Ticking(more, Run(timeout, inputs).lastSeen, from, period)
    requires exists i :: 0 <= i < |more| && more[i].Tick? && more[i].at > Run(timeout, inputs).lastSeen + timeout
    ensures k < |more| && more[k].Tick?
    ensures var due := Run(timeout, inputs).lastSeen + timeout; due < more[k].at <= due + period
    ensures Run(timeout, inputs + more[..k]) == Run(timeout, inputs)
    ensures Run(timeout, inputs + more[..k + 1]) == Run(timeout, inputs).(state := Lost)
  {
    var latest := StateIsHistory(timeout, inputs);
    k := LossFoundInTime(Run(timeout, inputs), more, from, period);
    RunSplits(timeout, inputs, more[..k]);
    RunSplits(timeout, inputs, more[..k + 1]);
  }
}
