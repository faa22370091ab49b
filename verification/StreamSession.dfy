/** One WebSocket session: pumps that shape their streams onto one wire, and what a client can rebuild from it. */
module StreamSession {
  import opened Spacing
  import opened StreamShaping
  import opened Strings
  import opened Wrappers

  datatype StreamRequest =
    | Telemetry(vehicle: string, categories: seq<string>, rateHz: Option<real>)
    | Events(domains: seq<string>)
    | Unknown

  datatype Frame =
    | Data(stream: string, sequence: nat, payload: string)
    | Gap(stream: string, dropped: nat)
    | Heartbeat
    | Error(message: string)

  /** What a stream carries: one category of a vehicle's telemetry, or the events of one domain. */
  datatype Topic = OfVehicle(vehicle: string, category: string) | OfDomain(domain: string)

  function StreamKey(topic: Topic): string {
    match topic
    case OfVehicle(vehicle, category) => "telemetry." + vehicle + "." + category
    case OfDomain(domain) => "events." + domain
  }

  /** Takes a key apart at its first dots. */
  function ReadKey(key: string): Option<Topic> {
    var dot := IndexOf(key, '.');
    if dot == |key| then None
    else
      var rest := key[dot + 1..];
      if key[..dot] == "events" then Some(OfDomain(rest))
      else
        var end := IndexOf(rest, '.');
        if key[..dot] != "telemetry" || end == |rest| then None else Some(OfVehicle(rest[..end], rest[end + 1..]))
  }

  /** A key tells what its stream carries exactly if that is a domain or a vehicle without a dot in its name. */
  lemma {:induction false} KeyReadsBackIff(topic: Topic)
    ensures ReadKey(StreamKey(topic)) == Some(topic) <==> (topic.OfVehicle? ==> '.' !in topic.vehicle)
  {
    match topic
    case OfDomain(domain) =>
      FirstAt("events", '.', domain);
      assert StreamKey(topic) == "events" + ['.'] + domain;
    case OfVehicle(vehicle, category) =>
      var rest := vehicle + ['.'] + category;
      FirstAt("telemetry", '.', rest);
      assert StreamKey(topic) == "telemetry" + ['.'] + rest;
      if '.' !in vehicle {
        FirstAt(vehicle, '.', category);
      }
  }

  /** A stream to be opened: its key and its rate. */
  datatype Opening = Opening(key: string, rateHz: Option<real>)

  /** The streams one request names. Events are never shaped; a request of another type names none. */
  function Openings(request: StreamRequest): seq<Opening> {
    match request
    case Telemetry(vehicle, categories, rateHz) => OfCategories(vehicle, categories, rateHz)
    case Events(domains) => OfDomains(domains)
    case Unknown => []
  }

  function OfCategories(vehicle: string, categories: seq<string>, rateHz: Option<real>): seq<Opening> {
    if categories == [] then []
    else
      var n := |categories| - 1;
      OfCategories(vehicle, categories[..n], rateHz) + [Opening(StreamKey(OfVehicle(vehicle, categories[n])), rateHz)]
  }

  function OfDomains(domains: seq<string>): seq<Opening> {
    if domains == [] then []
    else
      var n := |domains| - 1;
      OfDomains(domains[..n]) + [Opening(StreamKey(OfDomain(domains[n])), None)]
  }

  function AllOpenings(requests: seq<StreamRequest>): seq<Opening> {
    if requests == [] then []
    else AllOpenings(requests[..|requests| - 1]) + Openings(requests[|requests| - 1])
  }

  /** One turn of a pump's loop: the new stream state and the frames it sends. */
  function Pumped(s: Stream, now: real, payload: string): (Stream, seq<Frame>) {
    var decided := Decided(s, now);
    if !Due(s, now) then (decided, [])
    else
      var out := decided.(dropped := 0, sequence := decided.sequence + 1);
      (out, (if decided.dropped > 0 then [Gap(s.key, decided.dropped)] else [])
            + [Data(s.key, out.sequence, payload)])
  }

  datatype Arrival = Arrival(now: real, payload: string)

  function PumpedAll(s: Stream, arrivals: seq<Arrival>): (Stream, seq<Frame>) {
    if arrivals == [] then (s, [])
    else
      var n := |arrivals| - 1;
      var before := PumpedAll(s, arrivals[..n]);
      var last := Pumped(before.0, arrivals[n].now, arrivals[n].payload);
      (last.0, before.1 + last.1)
  }

  // ----- The frames of a pump are the messages its shaper forwards -----

  function Times(arrivals: seq<Arrival>): (times: seq<real>)
    ensures |times| == |arrivals|
  {
    if arrivals == [] then [] else Times(arrivals[..|arrivals| - 1]) + [arrivals[|arrivals| - 1].now]
  }

  /** The arrivals for which a pump sends a data frame. */
  function Passed(s: Stream, arrivals: seq<Arrival>): seq<Arrival> {
    if arrivals == [] then []
    else
      var n := |arrivals| - 1;
      Passed(s, arrivals[..n]) + if Due(PumpedAll(s, arrivals[..n]).0, arrivals[n].now) then [arrivals[n]] else []
  }

  /** One data frame per arrival, numbered on from `sequence`. */
  function DataFor(key: string, sequence: nat, arrivals: seq<Arrival>): seq<Frame> {
    if arrivals == [] then []
    else
      var n := |arrivals| - 1;
      DataFor(key, sequence, arrivals[..n]) + [Data(key, sequence + n + 1, arrivals[n].payload)]
  }

  function DataOf(frames: seq<Frame>): seq<Frame> {
    if frames == [] then []
    else
      var n := |frames| - 1;
      DataOf(frames[..n]) + if frames[n].Data? then [frames[n]] else []
  }

  lemma {:induction false} DataOfTurn(frames: seq<Frame>, s: Stream, now: real, payload: string)
    ensures DataOf(frames + Pumped(s, now, payload).1)
         == DataOf(frames) + if Due(s, now) then [Data(s.key, s.sequence + 1, payload)] else []
  {
    var more := Pumped(s, now, payload).1;
    if !Due(s, now) {
      assert frames + more == frames;
    } else if |more| == 1 {
      assert (frames + more)[..|frames|] == frames;
    } else {
      assert (frames + more)[..|frames| + 1] == frames + [more[0]];
      assert (frames + [more[0]])[..|frames|] == frames;
    }
  }

  /** Shaping looks at the interval and the last forward only, which a turn leaves as the decision does. */
  predicate SameShaping(s: Stream, t: Stream) {
    s.minInterval == t.minInterval && s.lastForwardedAt == t.lastForwardedAt
  }

  lemma {:induction false} PumpShapes(s: Stream, arrivals: seq<Arrival>)
    ensures Times(Passed(s, arrivals)) == Forwarded(s, Times(arrivals))
    ensures SameShaping(PumpedAll(s, arrivals).0, AllDecided(s, Times(arrivals)))
  {
    if arrivals != [] {
      var n := |arrivals| - 1;
      PumpShapes(s, arrivals[..n]);
      ForwardedAppend(s, Times(arrivals[..n]), arrivals[n].now);
      if Due(PumpedAll(s, arrivals[..n]).0, arrivals[n].now) {
        TimesAppend(Passed(s, arrivals[..n]), arrivals[n]);
      } else {
        assert Passed(s, arrivals) == Passed(s, arrivals[..n]);
      }
    }
  }

  lemma {:induction false} TimesAppend(arrivals: seq<Arrival>, a: Arrival)
    ensures Times(arrivals + [a]) == Times(arrivals) + [a.now]
  {
    assert (arrivals + [a])[..|arrivals|] == arrivals;
  }

  lemma {:induction false} DataForAppend(key: string, sequence: nat, arrivals: seq<Arrival>, a: Arrival)
    ensures DataFor(key, sequence, arrivals + [a])
         == DataFor(key, sequence, arrivals) + [Data(key, sequence + |arrivals| + 1, a.payload)]
  {
    assert (arrivals + [a])[..|arrivals|] == arrivals;
  }

  /** The data frames a pump sends are exactly the forwarded arrivals, in order and numbered without a hole. */
  lemma {:induction false} FramesAreForwards(s: Stream, arrivals: seq<Arrival>)
    ensures DataOf(PumpedAll(s, arrivals).1) == DataFor(s.key, s.sequence, Passed(s, arrivals))
    ensures Times(Passed(s, arrivals)) == Forwarded(s, Times(arrivals))
  {
    PumpShapes(s, arrivals);
    FramesOfPassed(s, arrivals);
  }

  /** The state and the data frames after some arrivals, of which these passed. */
  ghost predicate Shows(s: Stream, after: (Stream, seq<Frame>), passed: seq<Arrival>) {
    && DataOf(after.1) == DataFor(s.key, s.sequence, passed)
    && after.0.sequence == s.sequence + |passed| && after.0.key == s.key
  }

  lemma {:induction false} FramesOfPassed(s: Stream, arrivals: seq<Arrival>)
    ensures Shows(s, PumpedAll(s, arrivals), Passed(s, arrivals))
  {
    if arrivals != [] {
      var n := |arrivals| - 1;
      FramesOfPassed(s, arrivals[..n]);
      TurnShows(s, PumpedAll(s, arrivals[..n]), Passed(s, arrivals[..n]), arrivals[n]);
    }
  }

  lemma {:induction false} TurnShows(s: Stream, before: (Stream, seq<Frame>), passed: seq<Arrival>, a: Arrival)
    requires Shows(s, before, passed)
    ensures var turn := Pumped(before.0, a.now, a.payload);
            Shows(s, (turn.0, before.1 + turn.1), passed + if Due(before.0, a.now) then [a] else [])
  {
    DataOfTurn(before.1, before.0, a.now, a.payload);
    DataForAppend(s.key, s.sequence, passed, a);
    assert passed + [] == passed && DataOf(before.1) + [] == DataOf(before.1);
  }

  /** So the data frames of a pump keep the rate: floor(W / interval) + 1 at most in any window of length W. */
  lemma {:induction false} FrameRate(s: Stream, arrivals: seq<Arrival>, lo: real, hi: real)
    requires s.minInterval > 0.0 && lo <= hi
    ensures |DataOf(PumpedAll(s, arrivals).1)| == |Passed(s, arrivals)|
    ensures CountIn(Times(Passed(s, arrivals)), lo, hi) <= ((hi - lo) / s.minInterval).Floor + 1
  {
    FramesAreForwards(s, arrivals);
    DataForLength(s.key, s.sequence, Passed(s, arrivals));
    ForwardRate(s, Times(arrivals), lo, hi);
  }

  lemma {:induction false} DataForLength(key: string, sequence: nat, arrivals: seq<Arrival>)
    ensures |DataFor(key, sequence, arrivals)| == |arrivals|
  {
    if arrivals != [] {
      DataForLength(key, sequence, arrivals[..|arrivals| - 1]);
    }
  }

  class ClientSession {
    var open: bool
    var wire: seq<Frame>

    constructor ()
      ensures open && wire == []
    {
      open, wire := true, [];
    }

    /** Frames for a closed socket are dropped without a trace. */
    method Send(frame: Frame)
      modifies this`wire
      ensures wire == if open then old(wire) + [frame] else old(wire)
    {
      if open {
        wire := wire + [frame];
      }
    }

    /** Everything a pump does with one message, between two awaits. */
    method PumpOne(state: StreamState, now: real, payload: string)
      modifies this`wire, state
      ensures state.View() == Pumped(old(state.View()), now, payload).0
      ensures wire == if open then old(wire) + Pumped(old(state.View()), now, payload).1 else old(wire)
    {
      var forward := state.ShouldForward(now);
      if !forward {
        return;
      }
      if state.dropped > 0 {
        Send(Gap(state.key, state.dropped));
        state.dropped := 0;
      }
      state.sequence := state.sequence + 1;
      Send(Data(state.key, state.sequence, payload));
    }

    /** Drains a subscription that nothing else interrupts. */
    method Pump(state: StreamState, arrivals: seq<Arrival>)
      modifies this`wire, state
      ensures state.View() == PumpedAll(old(state.View()), arrivals).0
      ensures wire == if open then old(wire) + PumpedAll(old(state.View()), arrivals).1 else old(wire)
    {
      for i := 0 to |arrivals|
        invariant state.View() == PumpedAll(old(state.View()), arrivals[..i]).0
        invariant wire == if open then old(wire) + PumpedAll(old(state.View()), arrivals[..i]).1 else old(wire)
      {
        assert arrivals[..i + 1][..i] == arrivals[..i];
        PumpOne(state, arrivals[i].now, arrivals[i].payload);
      }
      assert arrivals[..|arrivals|] == arrivals;
    }

    /** The part of a subscribe after its await: a fresh state for every stream named, in order. */
    method Establish(requests: seq<StreamRequest>) returns (states: seq<StreamState>)
      ensures AreNew(states, AllOpenings(requests)) && forall i :: 0 <= i < |states| ==> fresh(states[i])
    {
      states := [];
      for r := 0 to |requests|
        invariant AreNew(states, AllOpenings(requests[..r])) && forall i :: 0 <= i < |states| ==> fresh(states[i])
      {
        var more := OpenAll(Openings(requests[r]));
        OpenedSoFar(requests, r);
        NewTogether(states, AllOpenings(requests[..r]), more, Openings(requests[r]));
        states := states + more;
      }
      assert requests[..|requests|] == requests;
    }

    method OpenAll(openings: seq<Opening>) returns (states: seq<StreamState>)
      ensures AreNew(states, openings) && forall i :: 0 <= i < |states| ==> fresh(states[i])
    {
      states := [];
      for c := 0 to |openings|
        invariant AreNew(states, openings[..c]) && forall i :: 0 <= i < |states| ==> fresh(states[i])
      {
        var state := new StreamState(openings[c].key, openings[c].rateHz);
        states := states + [state];
      }
      assert openings[..|openings|] == openings;
    }
  }

  lemma {:induction false} OpenedSoFar(requests: seq<StreamRequest>, r: nat)
    requires r < |requests|
    ensures AllOpenings(requests[..r + 1]) == AllOpenings(requests[..r]) + Openings(requests[r])
  {
    assert requests[..r + 1][..r] == requests[..r];
  }

  lemma {:induction false} NewTogether(states: seq<StreamState>, openings: seq<Opening>, more: seq<StreamState>,
                                       others: seq<Opening>)
    requires AreNew(states, openings) && AreNew(more, others)
    ensures AreNew(states + more, openings + others)
  {
  }

  ghost predicate AreNew(states: seq<StreamState>, openings: seq<Opening>)
    reads states
  {
    && |states| == |openings|
    && forall i :: 0 <= i < |states| ==> states[i].View() == NewStream(openings[i].key, openings[i].rateHz)
  }

  // ----- The session as a step system -----

  /** A pump with everything its subscription has handed it. `request` numbers the subscribe it belongs to, and
      `since` counts the frames sent before it existed. */
  datatype PumpRecord = PumpRecord(state: Stream, received: seq<string>, request: nat, since: nat)

  /** A frame passed to send(), and the pump that sent it. */
  datatype Sent = Sent(source: Option<nat>, frame: Frame)

  datatype Session = Session(
    open: bool,
    pumps: seq<PumpRecord>,
    live: set<nat>,
    requests: nat,
    waiting: seq<seq<Opening>>,
    sent: seq<Sent>,
    wire: seq<Frame>)

  const NewSession := Session(true, [], {}, 0, [], [], [])

  /** A subscribe tears down what is live, awaits, and only then resumes: two steps. */
  datatype Step =
    | SubscribeArrives(requests: seq<StreamRequest>)
    | SubscribeResumes
    | MessageArrives(pump: nat, now: real, payload: string)
    | HeartbeatDue
    | BadMessage(message: string)
    | SocketCloses

  function From(p: Option<nat>, frames: seq<Frame>): seq<Sent> {
    seq(|frames|, i requires 0 <= i < |frames| => Sent(p, frames[i]))
  }

  function Emit(s: Session, p: Option<nat>, frames: seq<Frame>): Session {
    s.(sent := s.sent + From(p, frames), wire := if s.open then s.wire + frames else s.wire)
  }

  function Opened(s: Session, openings: seq<Opening>): seq<PumpRecord> {
    seq(|openings|, i requires 0 <= i < |openings| =>
      PumpRecord(NewStream(openings[i].key, openings[i].rateHz), [], s.requests, |s.sent|))
  }

  function Positions(start: nat, count: nat): (positions: set<nat>)
    ensures forall p: nat :: p in positions <==> start <= p < start + count
  {
    if count == 0 then {} else Positions(start, count - 1) + {start + count - 1}
  }

  function Next(s: Session, step: Step): Session {
    match step
    case SubscribeArrives(requests) =>
      s.(live := {}, waiting := s.waiting + [AllOpenings(requests)])
    case SubscribeResumes =>
      if s.waiting == [] then s
      else
        var newPumps := Opened(s, s.waiting[0]);
        s.(waiting := s.waiting[1..],
           requests := s.requests + 1,
           pumps := s.pumps + newPumps,
           live := s.live + Positions(|s.pumps|, |newPumps|))
    case MessageArrives(p, now, payload) =>
      if p in s.live && p < |s.pumps| then
        var pump := s.pumps[p];
        var (state, frames) := Pumped(pump.state, now, payload);
        Emit(s.(pumps := s.pumps[p := pump.(state := state, received := pump.received + [payload])]), Some(p), frames)
      else s
    case HeartbeatDue => Emit(s, None, [Heartbeat])
    case BadMessage(message) => Emit(s, None, [Error(message)])
    case SocketCloses => s.(open := false, live := {})
  }

  function Run(steps: seq<Step>): Session {
    if steps == [] then NewSession
    else
      var n := |steps| - 1;
      Next(Run(steps[..n]), steps[n])
  }

  /** The frames pump `p` sent. */
  function SentBy(sent: seq<Sent>, p: nat): seq<Frame> {
    if sent == [] then []
    else
      var n := |sent| - 1;
      SentBy(sent[..n], p) + (if sent[n].source == Some(p) then [sent[n].frame] else [])
  }

  // ----- What a client does with the frames of one stream -----

  /** The messages reported as dropped. */
  function Reported(frames: seq<Frame>): nat {
    if frames == [] then 0
    else
      var n := |frames| - 1;
      Reported(frames[..n]) + (if frames[n].Gap? then frames[n].dropped else 0)
  }

  function DataFrames(frames: seq<Frame>): nat {
    if frames == [] then 0
    else
      var n := |frames| - 1;
      DataFrames(frames[..n]) + (if frames[n].Data? then 1 else 0)
  }

  /** The source message a client takes data frame `i` to be: its number plus the drops reported before it. */
  function SourcePosition(frames: seq<Frame>, i: nat): nat
    requires i < |frames| && frames[i].Data?
  {
    frames[i].sequence + Reported(frames[..i])
  }

  /** Frame `i`, if it carries data, is numbered in order and is the source message the client takes it to be. */
  ghost predicate Placed(frames: seq<Frame>, i: nat, received: seq<string>)
    requires i < |frames|
  {
    frames[i].Data? ==>
      && frames[i].sequence == DataFrames(frames[..i]) + 1
      && 1 <= SourcePosition(frames, i) <= |received|
      && frames[i].payload == received[SourcePosition(frames, i) - 1]
  }

  ghost predicate Rebuilds(frames: seq<Frame>, received: seq<string>) {
    forall i: nat :: i < |frames| ==> Placed(frames, i, received)
  }

  /** Received is forwarded plus reported plus not yet reported, and the frames sent tell which is which. */
  ghost predicate Accounts(pump: PumpRecord, frames: seq<Frame>) {
    && |pump.received| == pump.state.sequence + Reported(frames) + pump.state.dropped
    && DataFrames(frames) == pump.state.sequence
    && Rebuilds(frames, pump.received)
    && AllOn(frames, pump.state.key)
  }

  lemma {:induction false} SentByAppend(a: seq<Sent>, b: seq<Sent>, p: nat)
    ensures SentBy(a + b, p) == SentBy(a, p) + SentBy(b, p)
  {
    if b == [] {
      assert a + b == a;
    } else {
      var n := |b| - 1;
      SentByAppend(a, b[..n], p);
      assert (a + b)[..|a| + n] == a + b[..n];
    }
  }

  lemma {:induction false} SentByAuthor(source: Option<nat>, frames: seq<Frame>, p: nat)
    ensures SentBy(From(source, frames), p) == if source == Some(p) then frames else []
  {
    if frames != [] {
      var n := |frames| - 1;
      assert From(source, frames)[..n] == From(source, frames[..n]);
      SentByAuthor(source, frames[..n], p);
    }
  }

  lemma {:induction false} SentByEmit(s: Session, source: Option<nat>, frames: seq<Frame>, p: nat)
    ensures SentBy(Emit(s, source, frames).sent, p)
         == if source == Some(p) then SentBy(s.sent, p) + frames else SentBy(s.sent, p)
  {
    SentByAppend(s.sent, From(source, frames), p);
    SentByAuthor(source, frames, p);
  }

  /** Frames of one key, apart from the accounts. */
  ghost predicate AllOn(frames: seq<Frame>, key: string) {
    forall i :: 0 <= i < |frames| ==> (frames[i].Data? || frames[i].Gap?) && frames[i].stream == key
  }

  lemma {:induction false} TurnAccounts(pump: PumpRecord, frames: seq<Frame>, now: real, payload: string)
    requires Accounts(pump, frames)
    ensures Accounts(pump.(state := Pumped(pump.state, now, payload).0, received := pump.received + [payload]),
                     frames + Pumped(pump.state, now, payload).1)
  {
    if !Due(pump.state, now) {
      HeldAccounts(pump, frames, now, payload);
    } else {
      ForwardedAccounts(pump, frames, now, payload);
    }
  }

  lemma {:induction false} HeldAccounts(pump: PumpRecord, frames: seq<Frame>, now: real, payload: string)
    requires Accounts(pump, frames) && !Due(pump.state, now)
    ensures Accounts(pump.(state := Decided(pump.state, now), received := pump.received + [payload]), frames + [])
  {
    assert frames + [] == frames;
    var received := pump.received + [payload];
    forall i: nat | i < |frames| ensures Placed(frames, i, received) {
      assert Placed(frames, i, pump.received);
    }
  }

  lemma {:induction false} ForwardedAccounts(pump: PumpRecord, frames: seq<Frame>, now: real, payload: string)
    requires Accounts(pump, frames) && Due(pump.state, now)
    ensures Accounts(pump.(state := Pumped(pump.state, now, payload).0, received := pump.received + [payload]),
                     frames + Pumped(pump.state, now, payload).1)
  {
    var (state, more) := Pumped(pump.state, now, payload);
    var received := pump.received + [payload];
    var data := Data(pump.state.key, state.sequence, payload);
    var before := frames;
    if pump.state.dropped > 0 {
      var gap := Gap(pump.state.key, pump.state.dropped);
      before := frames + [gap];
      FrameAccounts(frames, gap);
      AppendRebuilds(frames, pump.received, gap, pump.received);
    }
    assert |pump.received| == pump.state.sequence + Reported(before);
    assert DataFrames(before) == pump.state.sequence && AllOn(before, pump.state.key);
    assert frames + more == before + [data];
    FrameAccounts(before, data);
    AppendRebuilds(before, pump.received, data, received);
  }

  lemma {:induction false} FrameAccounts(frames: seq<Frame>, frame: Frame)
    ensures Reported(frames + [frame]) == Reported(frames) + if frame.Gap? then frame.dropped else 0
    ensures DataFrames(frames + [frame]) == DataFrames(frames) + if frame.Data? then 1 else 0
  {
    assert (frames + [frame])[..|frames|] == frames;
  }

  lemma {:induction false} AppendRebuilds(frames: seq<Frame>, received: seq<string>, frame: Frame,
                                          received': seq<string>)
    requires Rebuilds(frames, received) && received <= received'
    requires frame.Data? ==>
               && frame.sequence == DataFrames(frames) + 1
               && 1 <= frame.sequence + Reported(frames) <= |received'|
               && frame.payload == received'[frame.sequence + Reported(frames) - 1]
    ensures Rebuilds(frames + [frame], received')
  {
    var all := frames + [frame];
    forall i: nat | i < |all| ensures Placed(all, i, received') {
      if i < |frames| {
        PlacedStays(frames, frame, received, received', i);
      } else {
        assert all[..i] == frames;
      }
    }
  }

  lemma {:induction false} PlacedStays(frames: seq<Frame>, frame: Frame, received: seq<string>,
                                       received': seq<string>, i: nat)
    requires i < |frames| && Placed(frames, i, received) && received <= received'
    ensures Placed(frames + [frame], i, received')
  {
    assert (frames + [frame])[..i] == frames[..i];
  }

  /** Who sent what is known, and nobody sends before existing. */
  ghost predicate AuthorsExist(s: Session) {
    && (forall p :: p in s.live ==> p < |s.pumps|)
    && (forall i :: 0 <= i < |s.sent| && s.sent[i].source.Some? ==>
          s.sent[i].source.value < |s.pumps| && s.pumps[s.sent[i].source.value].since <= i)
    && (forall p :: 0 <= p < |s.pumps| ==> s.pumps[p].since <= |s.sent|)
  }

  lemma {:induction false} AuthorsAlwaysExist(steps: seq<Step>)
    ensures AuthorsExist(Run(steps))
  {
    if steps != [] {
      AuthorsAlwaysExist(steps[..|steps| - 1]);
    }
  }

  lemma {:induction false} UnknownSendNothing(sent: seq<Sent>, p: nat)
    requires forall i :: 0 <= i < |sent| ==> sent[i].source != Some(p)
    ensures SentBy(sent, p) == []
  {
    if sent != [] {
      UnknownSendNothing(sent[..|sent| - 1], p);
    }
  }

  /** Conservation, for every pump at every point of every interleaving: received = forwarded + reported + still to
      be reported, and the data frame with number s after a total of g reported drops is received message s + g. */
  lemma {:induction false} NothingUnaccounted(steps: seq<Step>, p: nat)
    requires p < |Run(steps).pumps|
    ensures Accounts(Run(steps).pumps[p], SentBy(Run(steps).sent, p))
  {
    var n := |steps| - 1;
    var s := Run(steps[..n]);
    if p < |s.pumps| {
      NothingUnaccounted(steps[..n], p);
      StepAccounts(s, steps[n], p);
    } else {
      AuthorsAlwaysExist(steps[..n]);
      NewPumpAccounts(s, steps[n], p);
    }
  }

  lemma {:induction false} NewPumpAccounts(s: Session, step: Step, p: nat)
    requires AuthorsExist(s) && |s.pumps| <= p < |Next(s, step).pumps|
    ensures Accounts(Next(s, step).pumps[p], SentBy(Next(s, step).sent, p))
  {
    UnknownSendNothing(s.sent, p);
  }

  /** The account of a pump in a session. */
  ghost predicate Accounted(s: Session, p: nat) {
    p < |s.pumps| && Accounts(s.pumps[p], SentBy(s.sent, p))
  }

  lemma {:induction false} StepAccounts(s: Session, step: Step, p: nat)
    requires Accounted(s, p)
    ensures Accounted(Next(s, step), p)
  {
    match step
    case MessageArrives(q, now, payload) =>
      if q in s.live && q < |s.pumps| {
        MessageAccounts(s, q, now, payload, p);
      }
    case HeartbeatDue => SentByEmit(s, None, [Heartbeat], p);
    case BadMessage(message) => SentByEmit(s, None, [Error(message)], p);
    case _ =>
  }

  lemma {:induction false} MessageAccounts(s: Session, q: nat, now: real, payload: string, p: nat)
    requires Accounted(s, p) && q in s.live && q < |s.pumps|
    ensures Accounted(Next(s, MessageArrives(q, now, payload)), p)
  {
    SentByEmit(s, Some(q), Pumped(s.pumps[q].state, now, payload).1, p);
    if p == q {
      TurnAccounts(s.pumps[p], SentBy(s.sent, p), now, payload);
    }
  }

  /** A gap frame is followed at once by a data frame of the same pump and stream. */
  ghost predicate GapsPrecedeData(frames: seq<Frame>) {
    forall i :: 0 <= i < |frames| && frames[i].Gap? ==>
      i + 1 < |frames| && frames[i + 1].Data? && frames[i + 1].stream == frames[i].stream && frames[i].dropped > 0
  }

  /** On the wire of every session, whatever interleaves and whenever the socket closes. */
  lemma {:induction false} GapsAlwaysPrecedeData(steps: seq<Step>)
    ensures GapsPrecedeData(Run(steps).wire)
  {
    if steps != [] {
      var n := |steps| - 1;
      var s, s' := Run(steps[..n]), Run(steps);
      GapsAlwaysPrecedeData(steps[..n]);
      if s'.wire != s.wire {
        forall i | 0 <= i < |s'.wire| && s'.wire[i].Gap?
          ensures i + 1 < |s'.wire| && s'.wire[i + 1].Data? && s'.wire[i + 1].stream == s'.wire[i].stream
                  && s'.wire[i].dropped > 0
        {
          if i < |s.wire| {
            assert s.wire[i].Gap?;
          }
        }
      }
    }
  }

  function Frames(sent: seq<Sent>): seq<Frame> {
    seq(|sent|, i requires 0 <= i < |sent| => sent[i].frame)
  }

  /** The wire carries what was sent, from the start and without holes, up to where the socket closed. */
  lemma {:induction false} WireIsPrefix(steps: seq<Step>)
    ensures Run(steps).wire <= Frames(Run(steps).sent)
    ensures Run(steps).open ==> Run(steps).wire == Frames(Run(steps).sent)
  {
    if steps != [] {
      WireIsPrefix(steps[..|steps| - 1]);
    }
  }
}
