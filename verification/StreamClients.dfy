/** What the client of a session sees under a stream's key, and exactly when it can rebuild the source positions. */
module StreamClients {
  import opened StreamSession
  import opened StreamShaping
  import opened Wrappers

  /** The frames with this key. */
  function OnStream(frames: seq<Frame>, key: string): seq<Frame> {
    if frames == [] then []
    else
      var n := |frames| - 1;
      OnStream(frames[..n], key)
      + (if (frames[n].Data? || frames[n].Gap?) && frames[n].stream == key then [frames[n]] else [])
  }

  /** No subscribe arrives while another one still awaits. */
  ghost predicate NoOverlap(steps: seq<Step>) {
    forall n :: 0 <= n < |steps| && steps[n].SubscribeArrives? ==> Run(steps[..n]).waiting == []
  }

  /** No subscribe names a stream key twice. */
  ghost predicate DistinctKeys(steps: seq<Step>) {
    forall n :: 0 <= n < |steps| && steps[n].SubscribeArrives? ==> Distinct(AllOpenings(steps[n].requests))
  }

  ghost predicate Distinct(openings: seq<Opening>) {
    forall i, j :: 0 <= i < j < |openings| ==> openings[i].key != openings[j].key
  }

  /** The live pumps belong to one subscribe, differ in their keys, and have sent all there is since they exist. */
  ghost predicate OneEra(s: Session) {
    && |s.waiting| <= 1
    && (s.waiting != [] ==> s.live == {} && Distinct(s.waiting[0]))
    && (forall p, q :: p in s.live && q in s.live && p < q < |s.pumps| ==>
          s.pumps[p].since == s.pumps[q].since && s.pumps[p].state.key != s.pumps[q].state.key)
    && (forall p, i :: p in s.live && p < |s.pumps| && s.pumps[p].since <= i < |s.sent| && s.sent[i].source.Some? ==>
          s.sent[i].source.value in s.live)
  }

  lemma {:induction false} ErasDoNotMix(steps: seq<Step>)
    requires NoOverlap(steps) && DistinctKeys(steps)
    ensures OneEra(Run(steps))
  {
    if steps != [] {
      var n := |steps| - 1;
      var front := steps[..n];
      forall k | 0 <= k < n && front[k].SubscribeArrives?
        ensures Run(front[..k]).waiting == [] && Distinct(AllOpenings(front[k].requests))
      {
        assert front[..k] == steps[..k];
      }
      ErasDoNotMix(front);
      AuthorsAlwaysExist(front);
      StepKeepsEra(Run(front), steps[n]);
    }
  }

  lemma {:induction false} StepKeepsEra(s: Session, step: Step)
    requires OneEra(s) && AuthorsExist(s)
    requires step.SubscribeArrives? ==> s.waiting == [] && Distinct(AllOpenings(step.requests))
    ensures OneEra(Next(s, step))
  {
    var s' := Next(s, step);
    match step
    case SubscribeResumes =>
      if s.waiting != [] {
        assert s'.live == Positions(|s.pumps|, |s.waiting[0]|);
      }
    case MessageArrives(p, now, payload) =>
    case _ =>
  }

  // ----- Overlaps included: who is live, and what it means for the client -----

  /** Whoever has sent since a live pump exists is live itself. */
  ghost predicate SendersLive(s: Session) {
    forall p, i :: p in s.live && p < |s.pumps| && s.pumps[p].since <= i < |s.sent| && s.sent[i].source.Some? ==>
      s.sent[i].source.value in s.live
  }

  lemma {:induction false} StepKeepsSendersLive(s: Session, step: Step)
    requires SendersLive(s) && AuthorsExist(s)
    ensures SendersLive(Next(s, step))
  {
    match step
    case SubscribeResumes =>
    case MessageArrives(p, now, payload) =>
    case _ =>
  }

  /** This holds in every run, overlapping subscribes included: a subscribe that arrives ends all that is live. */
  lemma {:induction false} SendersAreLive(steps: seq<Step>)
    ensures SendersLive(Run(steps))
  {
    if steps != [] {
      var front := steps[..|steps| - 1];
      SendersAreLive(front);
      AuthorsAlwaysExist(front);
      StepKeepsSendersLive(Run(front), steps[|steps| - 1]);
    }
  }

  /** No other live pump has the key of this one. */
  ghost predicate NoTwin(s: Session, p: nat)
    requires p < |s.pumps|
  {
    forall q :: q in s.live && q < |s.pumps| && q != p ==> s.pumps[q].state.key != s.pumps[p].state.key
  }

  /** What the client sees under the pump's key since the pump exists is exactly what the pump sent. */
  ghost predicate SeesOnly(s: Session, p: nat) {
    && p < |s.pumps| && s.pumps[p].since <= |s.wire|
    && OnStream(s.wire[s.pumps[p].since..], s.pumps[p].state.key) == SentBy(s.sent, p)
  }

  lemma {:induction false} ClientSees(s: Session, p: nat)
    requires AuthorsExist(s) && SendersLive(s) && KeysMatch(s) && p in s.live && p < |s.pumps| && NoTwin(s, p)
    requires s.wire == Frames(s.sent)
    ensures SeesOnly(s, p)
  {
    var since := s.pumps[p].since;
    OneAuthorPerKey(s, p, since, |s.sent|);
    assert s.sent[since..|s.sent|] == s.sent[since..];
    assert s.wire[since..] == Frames(s.sent[since..]);
    SentSince(s.sent, since, p);
  }

  /** On an open socket, overlapping subscribes or not: the client of a live stream whose key no other live stream has
      sees exactly what the stream's pump sent, and so rebuilds the source positions. */
  lemma {:induction false} ClientRebuildsPositions(steps: seq<Step>, p: nat)
    requires p in Run(steps).live && Run(steps).open && p < |Run(steps).pumps| && NoTwin(Run(steps), p)
    ensures SeesOnly(Run(steps), p)
    ensures var pump := Run(steps).pumps[p];
            Rebuilds(OnStream(Run(steps).wire[pump.since..], pump.state.key), pump.received)
  {
    AuthorsAlwaysExist(steps);
    SendersAreLive(steps);
    WireIsPrefix(steps);
    NothingUnaccounted(steps, p);
    SentKeys(steps);
    ClientSees(Run(steps), p);
  }

  /** Without overlapping subscribes and repeated keys that covers every live stream. */
  lemma {:induction false} NoOverlapRebuilds(steps: seq<Step>, p: nat)
    requires NoOverlap(steps) && DistinctKeys(steps) && p in Run(steps).live && Run(steps).open
    ensures SeesOnly(Run(steps), p)
    ensures var pump := Run(steps).pumps[p];
            Rebuilds(OnStream(Run(steps).wire[pump.since..], pump.state.key), pump.received)
  {
    ErasDoNotMix(steps);
    AuthorsAlwaysExist(steps);
    EraHasNoTwins(Run(steps), p);
    ClientRebuildsPositions(steps, p);
  }

  lemma {:induction false} EraHasNoTwins(s: Session, p: nat)
    requires OneEra(s) && p in s.live && p < |s.pumps|
    ensures NoTwin(s, p)
  {
    forall q | q in s.live && q < |s.pumps| && q != p ensures s.pumps[q].state.key != s.pumps[p].state.key {
      if q < p {
        assert s.pumps[q].state.key != s.pumps[p].state.key;
      }
    }
  }

  // ----- The exact condition -----

  predicate AllMessages(steps: seq<Step>) {
    forall i :: 0 <= i < |steps| ==> steps[i].MessageArrives?
  }

  /** The same streams, as far as a client can tell them apart. */
  ghost predicate SameStreams(s: Session, t: Session) {
    && t.live == s.live && t.open == s.open && |t.pumps| == |s.pumps|
    && forall q :: 0 <= q < |s.pumps| ==>
         t.pumps[q].since == s.pumps[q].since && t.pumps[q].state.key == s.pumps[q].state.key
  }

  lemma {:induction false} MessagesKeepStreams(steps: seq<Step>, more: seq<Step>)
    requires AllMessages(more)
    ensures SameStreams(Run(steps), Run(steps + more))
  {
    if more == [] {
      assert steps + more == steps;
    } else {
      var n := |more| - 1;
      MessagesKeepStreams(steps, more[..n]);
      RunStep(steps + more[..n], more[n], steps + more);
    }
  }

  /** A twin whose message is due puts a frame under the key that the pump did not send. */
  lemma {:induction false} TwinIsSeen(s: Session, p: nat, q: nat, now: real, payload: string)
    requires AuthorsExist(s) && p in s.live && q in s.live && p < |s.pumps| && q < |s.pumps| && q != p && s.open
    requires s.pumps[q].state.key == s.pumps[p].state.key && Due(s.pumps[q].state, now)
    requires SeesOnly(s, p) && s.wire == Frames(s.sent)
    ensures !SeesOnly(Next(s, MessageArrives(q, now, payload)), p)
  {
    var frames := Pumped(s.pumps[q].state, now, payload).1;
    var t := Next(s, MessageArrives(q, now, payload));
    var since, key := s.pumps[p].since, s.pumps[p].state.key;
    SentByEmit(s, Some(q), frames, p);
    assert t.wire[since..] == s.wire[since..] + frames;
    AppendSeen(s.wire[since..], frames, key);
  }

  lemma {:induction false} AppendSeen(wire: seq<Frame>, frames: seq<Frame>, key: string)
    requires frames != [] && frames[|frames| - 1].Data? && frames[|frames| - 1].stream == key
    ensures |OnStream(wire + frames, key)| > |OnStream(wire, key)|
  {
    var n := |frames| - 1;
    assert (wire + frames)[..|wire| + n] == wire + frames[..n];
    SeenGrows(wire, frames[..n], key);
  }

  lemma {:induction false} SeenGrows(wire: seq<Frame>, frames: seq<Frame>, key: string)
    ensures |OnStream(wire + frames, key)| >= |OnStream(wire, key)|
  {
    if frames == [] {
      assert wire + frames == wire;
    } else {
      var n := |frames| - 1;
      assert (wire + frames)[..|wire| + n] == wire + frames[..n];
      SeenGrows(wire, frames[..n], key);
    }
  }

  /** Exactly: a live stream on an open socket keeps showing its client what its pump sent, whatever messages arrive
      from now on, if and only if no other live stream has its key. */
  lemma {:induction false} RebuildsIffNoTwin(steps: seq<Step>, p: nat)
    requires p in Run(steps).live && Run(steps).open && p < |Run(steps).pumps|
    ensures (forall more :: AllMessages(more) ==> SeesOnly(Run(steps + more), p)) <==> NoTwin(Run(steps), p)
  {
    if NoTwin(Run(steps), p) {
      forall more | AllMessages(more) ensures SeesOnly(Run(steps + more), p) {
        MessagesKeepStreams(steps, more);
        ClientRebuildsPositions(steps + more, p);
      }
    } else {
      var q :| q in Run(steps).live && q < |Run(steps).pumps| && q != p
               && Run(steps).pumps[q].state.key == Run(steps).pumps[p].state.key;
      TwinBreaks(steps, p, q);
    }
  }

  lemma {:induction false} TwinBreaks(steps: seq<Step>, p: nat, q: nat)
    requires p in Run(steps).live && q in Run(steps).live && Run(steps).open && q != p
    requires p < |Run(steps).pumps| && q < |Run(steps).pumps|
    requires Run(steps).pumps[q].state.key == Run(steps).pumps[p].state.key
    ensures exists more :: AllMessages(more) && !SeesOnly(Run(steps + more), p)
  {
    var s := Run(steps);
    var state := s.pumps[q].state;
    var next := MessageArrives(q, state.lastForwardedAt + state.minInterval, "");
    assert steps + [] == steps;
    assert AllMessages([]) && AllMessages([next]);
    if SeesOnly(s, p) {
      AuthorsAlwaysExist(steps);
      WireIsPrefix(steps);
      RunAppend(steps, next);
      TwinIsSeen(s, p, q, state.lastForwardedAt + state.minInterval, "");
      assert !SeesOnly(Run(steps + [next]), p);
    } else {
      assert !SeesOnly(Run(steps + []), p);
    }
  }

  // ----- The condition in terms of the history -----

  /** The subscribes that await, oldest first. */
  function Awaiting(steps: seq<Step>): seq<seq<Opening>> {
    if steps == [] then []
    else
      var before := Awaiting(steps[..|steps| - 1]);
      match steps[|steps| - 1]
      case SubscribeArrives(requests) => before + [AllOpenings(requests)]
      case SubscribeResumes => if before == [] then [] else before[1..]
      case _ => before
  }

  /** The openings of all subscribes that resumed since a subscribe last arrived or the socket closed. */
  function OpenedSince(steps: seq<Step>): seq<Opening> {
    if steps == [] then []
    else
      var front := steps[..|steps| - 1];
      match steps[|steps| - 1]
      case SubscribeArrives(_) => []
      case SocketCloses => []
      case SubscribeResumes =>
        if Awaiting(front) == [] then OpenedSince(front) else OpenedSince(front) + Awaiting(front)[0]
      case _ => OpenedSince(front)
  }

  /** The last pumps are the live ones, under the keys of these openings. */
  ghost predicate LiveAre(s: Session, openings: seq<Opening>) {
    && |openings| <= |s.pumps|
    && s.live == Positions(|s.pumps| - |openings|, |openings|)
    && forall i :: 0 <= i < |openings| ==> s.pumps[|s.pumps| - |openings| + i].state.key == openings[i].key
  }

  lemma {:induction false} ResumeLiveAre(s: Session, openings: seq<Opening>)
    requires LiveAre(s, openings) && s.waiting != []
    ensures LiveAre(Next(s, SubscribeResumes), openings + s.waiting[0])
  {
    var t := Next(s, SubscribeResumes);
    var all := openings + s.waiting[0];
    forall i | 0 <= i < |all| ensures t.pumps[|t.pumps| - |all| + i].state.key == all[i].key {
      assert i < |openings| ==> t.pumps[|t.pumps| - |all| + i] == s.pumps[|s.pumps| - |openings| + i];
    }
  }

  lemma {:induction false} LiveIsHistory(steps: seq<Step>)
    ensures Run(steps).waiting == Awaiting(steps) && LiveAre(Run(steps), OpenedSince(steps))
  {
    if steps != [] {
      var front, last := steps[..|steps| - 1], steps[|steps| - 1];
      LiveIsHistory(front);
      match last
      case SubscribeResumes =>
        if Run(front).waiting != [] {
          ResumeLiveAre(Run(front), OpenedSince(front));
        }
      case MessageArrives(p, now, payload) =>
      case _ =>
    }
  }

  /** No live stream has a twin exactly if the subscribes resumed since a subscribe last arrived or the socket closed,
      taken together, name no key twice. */
  lemma {:induction false} NoTwinsIffDistinct(steps: seq<Step>)
    ensures (forall p: nat :: p in Run(steps).live && p < |Run(steps).pumps| ==> NoTwin(Run(steps), p))
            <==> Distinct(OpenedSince(steps))
  {
    LiveIsHistory(steps);
    TwinsInList(Run(steps), OpenedSince(steps));
  }

  lemma {:induction false} TwinsInList(s: Session, openings: seq<Opening>)
    requires LiveAre(s, openings)
    ensures (forall p: nat :: p in s.live && p < |s.pumps| ==> NoTwin(s, p)) <==> Distinct(openings)
  {
    var first := |s.pumps| - |openings|;
    if forall p: nat :: p in s.live && p < |s.pumps| ==> NoTwin(s, p) {
      forall i, j | 0 <= i < j < |openings| ensures openings[i].key != openings[j].key {
        assert first + i in s.live && first + j in s.live;
        assert NoTwin(s, first + i);
        assert s.pumps[first + j].state.key == openings[j].key;
      }
    }
    if Distinct(openings) {
      forall p: nat | p in s.live && p < |s.pumps| ensures NoTwin(s, p) {
        forall q | q in s.live && q < |s.pumps| && q != p ensures s.pumps[q].state.key != s.pumps[p].state.key {
          assert s.pumps[first + (p - first)].state.key == openings[p - first].key;
          assert s.pumps[first + (q - first)].state.key == openings[q - first].key;
        }
      }
    }
  }

  lemma {:induction false} SentSince(sent: seq<Sent>, since: nat, p: nat)
    requires since <= |sent| && forall i :: 0 <= i < since ==> sent[i].source != Some(p)
    ensures SentBy(sent, p) == SentBy(sent[since..], p)
  {
    assert sent == sent[..since] + sent[since..];
    SentByAppend(sent[..since], sent[since..], p);
    UnknownSendNothing(sent[..since], p);
  }

  /** Every frame of a pump carries the pump's key, and frames of nobody carry none. */
  ghost predicate KeysMatch(s: Session) {
    forall i :: 0 <= i < |s.sent| ==>
      if s.sent[i].source.Some? then
        && s.sent[i].source.value < |s.pumps|
        && (s.sent[i].frame.Data? || s.sent[i].frame.Gap?)
        && s.sent[i].frame.stream == s.pumps[s.sent[i].source.value].state.key
      else !s.sent[i].frame.Data? && !s.sent[i].frame.Gap?
  }

  lemma {:induction false} SentKeys(steps: seq<Step>)
    ensures KeysMatch(Run(steps))
  {
    if steps != [] {
      SentKeys(steps[..|steps| - 1]);
    }
  }

  /** Since a live pump exists, the frames with its key are its own. */
  lemma {:induction false} KeyIsAuthor(s: Session, p: nat, i: nat)
    requires AuthorsExist(s) && SendersLive(s) && KeysMatch(s) && p < |s.pumps| && NoTwin(s, p)
    requires p in s.live && s.pumps[p].since <= i < |s.sent|
    ensures var f := s.sent[i].frame;
            (f.Data? || f.Gap?) && f.stream == s.pumps[p].state.key <==> s.sent[i].source == Some(p)
  {
    var source := s.sent[i].source;
    if source.Some? {
      assert source.value in s.live;
    }
  }

  lemma {:induction false} OneAuthorPerKey(s: Session, p: nat, from: nat, to: nat)
    requires AuthorsExist(s) && SendersLive(s) && KeysMatch(s) && p < |s.pumps| && NoTwin(s, p)
    requires p in s.live && s.pumps[p].since == from <= to <= |s.sent|
    ensures OnStream(Frames(s.sent[from..to]), s.pumps[p].state.key) == SentBy(s.sent[from..to], p)
  {
    if from < to {
      OneAuthorPerKey(s, p, from, to - 1);
      KeyIsAuthor(s, p, to - 1);
      AppendOnStream(s.sent[from..to - 1], s.sent[to - 1], s.pumps[p].state.key, p);
      SliceEnd(s.sent, from, to);
    }
  }

  lemma {:induction false} SliceEnd(sent: seq<Sent>, from: nat, to: nat)
    requires from < to <= |sent|
    ensures sent[from..to] == sent[from..to - 1] + [sent[to - 1]]
  {
  }

  lemma {:induction false} AppendOnStream(sent: seq<Sent>, last: Sent, key: string, p: nat)
    requires OnStream(Frames(sent), key) == SentBy(sent, p)
    requires (last.frame.Data? || last.frame.Gap?) && last.frame.stream == key <==> last.source == Some(p)
    ensures OnStream(Frames(sent + [last]), key) == SentBy(sent + [last], p)
  {
    assert (sent + [last])[..|sent|] == sent;
    assert Frames(sent + [last])[..|sent|] == Frames(sent);
  }

  lemma {:induction false} RunAppend(steps: seq<Step>, step: Step)
    ensures Run(steps + [step]) == Next(Run(steps), step)
  {
    assert (steps + [step])[..|steps|] == steps;
  }

  /** Two subscribes whose awaits overlap both end up live: the client sees the same message twice, under the same
      key and number, and takes the second frame for a message it is not. */
  lemma {:induction false} OverlapSendsTwice() returns (steps: seq<Step>)
    ensures DistinctKeys(steps) && !NoOverlap(steps)
    ensures Run(steps).live == {0, 1}
    ensures Run(steps).wire == [Data("events.e", 1, "m"), Data("events.e", 1, "m")]
    ensures !Rebuilds(OnStream(Run(steps).wire, "events.e"), ["m"])
  {
    OneOpening();
    steps := OverlapOf([Events(["e"])], "events.e", "m");
    TwiceTheSameIsNotTwo(Data("events.e", 1, "m"), ["m"]);
  }

  lemma {:induction false} OverlapOf(requests: seq<StreamRequest>, key: string, m: string) returns (steps: seq<Step>)
    requires AllOpenings(requests) == [Opening(key, None)]
    ensures DistinctKeys(steps) && !NoOverlap(steps)
    ensures Run(steps).live == {0, 1} && Run(steps).wire == [Data(key, 1, m), Data(key, 1, m)]
  {
    var ask := SubscribeArrives(requests);
    var both := [ask, ask, SubscribeResumes, SubscribeResumes];
    TwoLive(requests, key);
    var first, second := MessageArrives(0, 1.0, m), MessageArrives(1, 1.0, m);
    steps := both + [first] + [second];
    RunAppend(both, first);
    RunAppend(both + [first], second);
    assert Run(both + [first]).wire == [Data(key, 1, m)];
    assert steps[..1] == [ask] && [ask][..0] == [];
    assert steps[1].SubscribeArrives? && Run([ask]).waiting != [];
    assert forall n :: 0 <= n < |steps| && steps[n].SubscribeArrives? ==> steps[n] == ask;
  }

  lemma {:induction false} TwoLive(requests: seq<StreamRequest>, key: string)
    requires AllOpenings(requests) == [Opening(key, None)]
    ensures var ask := SubscribeArrives(requests);
            var state := NewStream(key, None);
            Run([ask, ask, SubscribeResumes, SubscribeResumes])
            == NewSession.(pumps := [PumpRecord(state, [], 0, 0), PumpRecord(state, [], 1, 0)], live := {0, 1},
                           requests := 2)
  {
    var ask := SubscribeArrives(requests);
    var opening := Opening(key, None);
    RunStep([], ask, [ask]);
    assert Run([ask]) == NewSession.(waiting := [[opening]]);
    RunStep([ask], ask, [ask, ask]);
    assert Run([ask, ask]) == NewSession.(waiting := [[opening], [opening]]);
    RunStep([ask, ask], SubscribeResumes, [ask, ask, SubscribeResumes]);
    FirstResumes(key);
    RunStep([ask, ask, SubscribeResumes], SubscribeResumes, [ask, ask, SubscribeResumes, SubscribeResumes]);
    SecondResumes(key);
  }

  lemma {:induction false} RunStep(steps: seq<Step>, step: Step, more: seq<Step>)
    requires more == steps + [step]
    ensures Run(more) == Next(Run(steps), step)
  {
    RunAppend(steps, step);
  }

  lemma {:induction false} FirstResumes(key: string)
    ensures var opening := Opening(key, None);
            Next(NewSession.(waiting := [[opening], [opening]]), SubscribeResumes)
            == NewSession.(pumps := [PumpRecord(NewStream(key, None), [], 0, 0)], live := {0}, requests := 1,
                           waiting := [[opening]])
  {
  }

  lemma {:induction false} SecondResumes(key: string)
    ensures var opening := Opening(key, None);
            var state := NewStream(key, None);
            Next(NewSession.(pumps := [PumpRecord(state, [], 0, 0)], live := {0}, requests := 1, waiting := [[opening]]),
                 SubscribeResumes)
            == NewSession.(pumps := [PumpRecord(state, [], 0, 0), PumpRecord(state, [], 1, 0)], live := {0, 1},
                           requests := 2)
  {
  }

  lemma {:induction false} OneOpening()
    ensures AllOpenings([Events(["e"])]) == [Opening("events.e", None)]
  {
    assert "events." + "e" == "events.e";
    assert ["e"][..0] == [] && OfDomains(["e"]) == [Opening("events.e", None)];
    assert [Events(["e"])][..0] == [] && Openings(Events(["e"])) == [Opening("events.e", None)];
  }

  lemma {:induction false} TwiceTheSameIsNotTwo(frame: Frame, received: seq<string>)
    requires frame.Data? && frame.sequence == 1
    ensures OnStream([frame, frame], frame.stream) == [frame, frame]
    ensures !Rebuilds([frame, frame], received)
  {
    var wire := [frame, frame];
    assert wire[..1] == [frame] && [frame][..0] == [];
    assert OnStream([frame], frame.stream) == [frame];
    assert DataFrames(wire[..1]) == 1;
    assert !Placed(wire, 1, received);
  }
}
