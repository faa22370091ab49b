/** What each pump of a session carries and sends, told by the subscribes and messages of the run. */
module StreamHistory {
  import opened Spacing
  import opened StreamClients
  import opened StreamSession
  import opened StreamShaping
  import opened Strings
  import opened Wrappers

  // ----- What a list of requests asks for, in order -----

  /** How many streams a request names. */
  function Size(request: StreamRequest): nat {
    match request
    case Telemetry(_, categories, _) => |categories|
    case Events(domains) => |domains|
    case Unknown => 0
  }

  function Sizes(requests: seq<StreamRequest>): nat {
    if requests == [] then 0 else Sizes(requests[..|requests| - 1]) + Size(requests[|requests| - 1])
  }

  /** The opening is the one that the request asks for as its `c`-th. */
  predicate Asks(request: StreamRequest, c: nat, opening: Opening) {
    match request
    case Telemetry(vehicle, categories, rateHz) =>
      && c < |categories| && opening.key == StreamKey(OfVehicle(vehicle, categories[c]))
      && ('.' !in vehicle ==> ReadKey(opening.key) == Some(OfVehicle(vehicle, categories[c])))
      && opening.rateHz == rateHz
    case Events(domains) =>
      && c < |domains| && opening.key == StreamKey(OfDomain(domains[c]))
      && ReadKey(opening.key) == Some(OfDomain(domains[c])) && opening.rateHz == None
    case Unknown => false
  }

  /** Streams are opened in the order of the requests and, within one, of its categories or domains: the `c`-th stream
      of request `r` comes behind those of all earlier requests. */
  lemma {:induction false} OpensWhatIsAsked(requests: seq<StreamRequest>, r: nat, c: nat)
    requires r < |requests| && c < Size(requests[r])
    ensures |AllOpenings(requests)| == Sizes(requests)
    ensures Sizes(requests[..r]) + c < Sizes(requests)
    ensures Asks(requests[r], c, AllOpenings(requests)[Sizes(requests[..r]) + c])
  {
    OpeningsCount(requests);
    OpensOne(requests[r], c);
    OpeningAt(requests, r, c);
  }

  lemma {:induction false} OpeningAt(requests: seq<StreamRequest>, r: nat, c: nat)
    requires r < |requests| && c < |Openings(requests[r])|
    ensures Sizes(requests[..r]) + c < |AllOpenings(requests)|
    ensures AllOpenings(requests)[Sizes(requests[..r]) + c] == Openings(requests[r])[c]
  {
    var n := |requests| - 1;
    LastOpenings(requests, requests[..n], requests[n]);
    if r == n {
      OpeningsCount(requests[..n]);
      AtEnd(AllOpenings(requests), AllOpenings(requests[..n]), Openings(requests[n]), c);
    } else {
      assert requests[..n][..r] == requests[..r];
      OpeningAt(requests[..n], r, c);
      AtFront(AllOpenings(requests), AllOpenings(requests[..n]), Openings(requests[n]), Sizes(requests[..r]) + c);
    }
  }

  lemma {:induction false} LastOpenings(requests: seq<StreamRequest>, front: seq<StreamRequest>, last: StreamRequest)
    requires requests != [] && requests[..|requests| - 1] == front && requests[|requests| - 1] == last
    ensures AllOpenings(requests) == AllOpenings(front) + Openings(last)
  {
  }

  lemma {:induction false} AtEnd<T>(all: seq<T>, a: seq<T>, b: seq<T>, i: nat)
    requires all == a + b && i < |b|
    ensures |a| + i < |all| && all[|a| + i] == b[i]
  {
  }

  lemma {:induction false} AtFront<T>(all: seq<T>, a: seq<T>, b: seq<T>, i: nat)
    requires all == a + b && i < |a|
    ensures i < |all| && all[i] == a[i]
  {
  }

  lemma {:induction false} OpeningsCount(requests: seq<StreamRequest>)
    ensures |AllOpenings(requests)| == Sizes(requests)
  {
    if requests != [] {
      OpeningsCount(requests[..|requests| - 1]);
      var request := requests[|requests| - 1];
      match request
      case Telemetry(vehicle, categories, rateHz) => CategoryAt(vehicle, categories, rateHz, 0);
      case Events(domains) => DomainAt(domains, 0);
      case Unknown =>
    }
  }

  lemma {:induction false} OpensOne(request: StreamRequest, c: nat)
    requires c < Size(request)
    ensures c < |Openings(request)| && Asks(request, c, Openings(request)[c])
  {
    match request
    case Telemetry(vehicle, categories, rateHz) =>
      CategoryAt(vehicle, categories, rateHz, c);
      KeyReadsBackIff(OfVehicle(vehicle, categories[c]));
    case Events(domains) =>
      DomainAt(domains, c);
      KeyReadsBackIff(OfDomain(domains[c]));
  }

  lemma {:induction false} CategoryAt(vehicle: string, categories: seq<string>, rateHz: Option<real>, c: nat)
    ensures |OfCategories(vehicle, categories, rateHz)| == |categories|
    ensures c < |categories| ==>
              OfCategories(vehicle, categories, rateHz)[c]
              == Opening(StreamKey(OfVehicle(vehicle, categories[c])), rateHz)
  {
    if categories != [] {
      CategoryAt(vehicle, categories[..|categories| - 1], rateHz, c);
    }
  }

  lemma {:induction false} DomainAt(domains: seq<string>, c: nat)
    ensures |OfDomains(domains)| == |domains|
    ensures c < |domains| ==> OfDomains(domains)[c] == Opening(StreamKey(OfDomain(domains[c])), None)
  {
    if domains != [] {
      DomainAt(domains[..|domains| - 1], c);
    }
  }

  lemma {:induction false} OpeningsTogether(a: seq<StreamRequest>, b: seq<StreamRequest>)
    ensures AllOpenings(a + b) == AllOpenings(a) + AllOpenings(b)
  {
    if b == [] {
      assert a + b == a;
    } else {
      var front, last := b[..|b| - 1], b[|b| - 1];
      OpeningsTogether(a, front);
      Ends(a, b);
      LastOpenings(a + b, a + front, last);
      LastOpenings(b, front, last);
      JoinLast(AllOpenings(a + b), AllOpenings(a + front), AllOpenings(a), AllOpenings(b), AllOpenings(front),
               Openings(last));
    }
  }

  lemma {:induction false} Ends<T>(a: seq<T>, b: seq<T>)
    requires b != []
    ensures (a + b)[..|a + b| - 1] == a + b[..|b| - 1] && (a + b)[|a + b| - 1] == b[|b| - 1]
  {
  }

  lemma {:induction false} JoinLast<T>(all: seq<T>, front: seq<T>, a: seq<T>, b: seq<T>, b': seq<T>, last: seq<T>)
    requires all == front + last && front == a + b' && b == b' + last
    ensures all == a + b
  {
  }

  // ----- The subscribes of a run -----

  /** The subscribes that arrived and still await, oldest first. */
  function Pending(steps: seq<Step>): seq<seq<StreamRequest>> {
    if steps == [] then []
    else
      var before, s := Pending(steps[..|steps| - 1]), steps[|steps| - 1];
      match s
      case SubscribeArrives(requests) => before + [requests]
      case SubscribeResumes => if before == [] then [] else before[1..]
      case _ => before
  }

  /** The requests of all subscribes that have resumed, in the order they arrived. */
  function Served(steps: seq<Step>): seq<StreamRequest> {
    if steps == [] then []
    else
      var before := steps[..|steps| - 1];
      if steps[|steps| - 1].SubscribeResumes? && Pending(before) != [] then Served(before) + Pending(before)[0]
      else Served(before)
  }

  /** The openings of those requests. */
  function Made(steps: seq<Step>): seq<Opening> {
    if steps == [] then []
    else
      var before := steps[..|steps| - 1];
      if steps[|steps| - 1].SubscribeResumes? && Awaiting(before) != [] then Made(before) + Awaiting(before)[0]
      else Made(before)
  }

  /** Pumps from this one on are live: it is the first one made since a subscribe last arrived or the socket closed. */
  function FirstLive(steps: seq<Step>): nat {
    if steps == [] then 0
    else
      var before, s := steps[..|steps| - 1], steps[|steps| - 1];
      if s.SubscribeArrives? || s.SocketCloses? then |Made(before)| else FirstLive(before)
  }

  /** The messages that reach pump `p`: those for it while it is live. */
  function Arrivals(steps: seq<Step>, p: nat): seq<Arrival> {
    if steps == [] then []
    else
      var before, s := steps[..|steps| - 1], steps[|steps| - 1];
      if s.MessageArrives? && s.pump == p && FirstLive(before) <= p < |Made(before)|
      then Arrivals(before, p) + [Arrival(s.now, s.payload)]
      else Arrivals(before, p)
  }

  function Payloads(arrivals: seq<Arrival>): seq<string> {
    if arrivals == [] then []
    else Payloads(arrivals[..|arrivals| - 1]) + [arrivals[|arrivals| - 1].payload]
  }

  ghost predicate AwaitAs(waiting: seq<seq<Opening>>, pending: seq<seq<StreamRequest>>) {
    && |waiting| == |pending|
    && forall i :: 0 <= i < |waiting| ==> waiting[i] == AllOpenings(pending[i])
  }

  lemma {:induction false} AwaitingIsPending(steps: seq<Step>)
    ensures AwaitAs(Awaiting(steps), Pending(steps))
  {
    if steps != [] {
      AwaitingIsPending(steps[..|steps| - 1]);
    }
  }

  lemma {:induction false} MadeIsServed(steps: seq<Step>)
    ensures Made(steps) == AllOpenings(Served(steps))
  {
    if steps != [] {
      var before := steps[..|steps| - 1];
      MadeIsServed(before);
      AwaitingIsPending(before);
      if Pending(before) != [] {
        OpeningsTogether(Served(before), Pending(before)[0]);
      }
    }
  }

  /** One pump for each opening made. */
  lemma {:induction false} PumpsAreMade(steps: seq<Step>)
    ensures |Run(steps).pumps| == |Made(steps)|
  {
    if steps != [] {
      var before := steps[..|steps| - 1];
      PumpsAreMade(before);
      LiveIsHistory(before);
      OneMorePumps(Run(before), steps[|steps| - 1]);
      assert before + [steps[|steps| - 1]] == steps;
      RunAppend(before, steps[|steps| - 1]);
    }
  }

  lemma {:induction false} OneMorePumps(s: Session, step: Step)
    ensures |Next(s, step).pumps|
         == |s.pumps| + if step.SubscribeResumes? && s.waiting != [] then |s.waiting[0]| else 0
  {
  }

  lemma {:induction false} FirstLiveOpened(steps: seq<Step>)
    ensures FirstLive(steps) + |OpenedSince(steps)| == |Made(steps)|
  {
    if steps != [] {
      FirstLiveOpened(steps[..|steps| - 1]);
    }
  }

  /** Those from the first live one on are live. */
  lemma {:induction false} LiveFrom(steps: seq<Step>, p: nat)
    ensures p in Run(steps).live <==> FirstLive(steps) <= p < |Made(steps)|
  {
    LiveIsHistory(steps);
    PumpsAreMade(steps);
    FirstLiveOpened(steps);
  }

  /** A pump with its whole history: it was made for this opening, these messages reached it, and its state, the
      messages counted as received and the frames sent are what the loop makes of them. */
  ghost predicate IsHistory(s: Session, p: nat, opening: Opening, arrivals: seq<Arrival>)
    requires p < |s.pumps|
  {
    var pumped := PumpedAll(NewStream(opening.key, opening.rateHz), arrivals);
    s.pumps[p].state == pumped.0 && SentBy(s.sent, p) == pumped.1 && s.pumps[p].received == Payloads(arrivals)
  }

  lemma {:induction false} NoArrivalsYet(steps: seq<Step>, p: nat)
    requires p >= |Made(steps)|
    ensures Arrivals(steps, p) == []
  {
    if steps != [] {
      NoArrivalsYet(steps[..|steps| - 1], p);
    }
  }

  lemma {:induction false} PumpIsHistory(steps: seq<Step>, p: nat)
    requires p < |Made(steps)|
    ensures p < |Run(steps).pumps| && IsHistory(Run(steps), p, Made(steps)[p], Arrivals(steps, p))
  {
    var before, s := steps[..|steps| - 1], steps[|steps| - 1];
    PumpsAreMade(steps);
    PumpsAreMade(before);
    LiveIsHistory(before);
    if p < |Made(before)| {
      PumpIsHistory(before, p);
      LiveFrom(before, p);
      StepIsHistory(Run(before), s, p, Made(before)[p], Arrivals(before, p));
    } else {
      AuthorsAlwaysExist(before);
      NoArrivalsYet(before, p);
      NewPumpIsHistory(Run(before), p);
    }
  }

  lemma {:induction false} NewPumpIsHistory(s: Session, p: nat)
    requires AuthorsExist(s) && s.waiting != [] && |s.pumps| <= p < |s.pumps| + |s.waiting[0]|
    ensures IsHistory(Next(s, SubscribeResumes), p, s.waiting[0][p - |s.pumps|], [])
  {
    UnknownSendNothing(s.sent, p);
  }

  lemma {:induction false} StepIsHistory(s: Session, step: Step, p: nat, opening: Opening, arrivals: seq<Arrival>)
    requires p < |s.pumps| && IsHistory(s, p, opening, arrivals)
    ensures var reached := step.MessageArrives? && step.pump == p && p in s.live;
            IsHistory(Next(s, step), p, opening,
                      if reached then arrivals + [Arrival(step.now, step.payload)] else arrivals)
  {
    match step
    case MessageArrives(q, now, payload) =>
      if q in s.live && q < |s.pumps| {
        SentByEmit(s, Some(q), Pumped(s.pumps[q].state, now, payload).1, p);
        assert (arrivals + [Arrival(now, payload)])[..|arrivals|] == arrivals;
      }
    case HeartbeatDue => SentByEmit(s, None, [Heartbeat], p);
    case BadMessage(message) => SentByEmit(s, None, [Error(message)], p);
    case _ =>
  }

  // ----- What a client that asked for a stream is sent -----

  /** The pump of the `c`-th stream of the `r`-th request served. */
  function PumpOf(requests: seq<StreamRequest>, r: nat, c: nat): nat
    requires r < |requests|
  {
    Sizes(requests[..r]) + c
  }

  /** The data frames that pump `p` sent. */
  function Sent(steps: seq<Step>, p: nat): seq<Frame> {
    DataOf(SentBy(Run(steps).sent, p))
  }

  /** The stream a pump starts from, by what was asked for. */
  function StreamOf(request: StreamRequest, c: nat): Stream
    requires c < Size(request)
  {
    match request
    case Telemetry(vehicle, categories, rateHz) => NewStream(StreamKey(OfVehicle(vehicle, categories[c])), rateHz)
    case Events(domains) => NewStream(StreamKey(OfDomain(domains[c])), None)
  }

  lemma {:induction false} SendsWhatItPumps(steps: seq<Step>, r: nat, c: nat)
    requires r < |Served(steps)| && c < Size(Served(steps)[r])
    ensures var p := PumpOf(Served(steps), r, c);
            Sent(steps, p) == DataOf(PumpedAll(StreamOf(Served(steps)[r], c), Arrivals(steps, p)).1)
  {
    var p := PumpOf(Served(steps), r, c);
    OpensWhatIsAsked(Served(steps), r, c);
    MadeIsServed(steps);
    PumpIsHistory(steps, p);
  }

  /** So many frames a window of `width` milliseconds may hold at that rate. */
  function MostIn(width: real, rateHz: real): int {
    (width * rateHz / 1000.0).Floor + 1
  }

  /** A vehicle's category asked for at a rate above zero, in any run: the data frames of its stream carry, in order
      and under its key, messages that reached it, and at most floor(W * rate / 1000) + 1 of them in any window of W
      milliseconds. */
  lemma {:induction false} RateIsKept(steps: seq<Step>, r: nat, c: nat, lo: real, hi: real)
    returns (passed: seq<Arrival>)
    requires r < |Served(steps)| && c < Size(Served(steps)[r]) && lo <= hi
    requires var request := Served(steps)[r];
             request.Telemetry? && request.rateHz.Some? && request.rateHz.value > 0.0
    ensures var request, p := Served(steps)[r], PumpOf(Served(steps), r, c);
            && Sent(steps, p) == DataFor(StreamKey(OfVehicle(request.vehicle, request.categories[c])), 0, passed)
            && IsPart(passed, Arrivals(steps, p))
            && CountIn(Times(passed), lo, hi) <= MostIn(hi - lo, request.rateHz.value)
  {
    var request, p := Served(steps)[r], PumpOf(Served(steps), r, c);
    SendsWhatItPumps(steps, r, c);
    passed := ShapedSendsSome(StreamKey(OfVehicle(request.vehicle, request.categories[c])), request.rateHz.value,
                              Arrivals(steps, p), lo, hi);
  }

  lemma {:induction false} ShapedSendsSome(key: string, rate: real, arrivals: seq<Arrival>, lo: real, hi: real)
    returns (passed: seq<Arrival>)
    requires rate > 0.0 && lo <= hi
    ensures DataOf(PumpedAll(NewStream(key, Some(rate)), arrivals).1) == DataFor(key, 0, passed)
    ensures IsPart(passed, arrivals)
    ensures CountIn(Times(passed), lo, hi) <= MostIn(hi - lo, rate)
  {
    passed := Passed(NewStream(key, Some(rate)), arrivals);
    FramesAreForwards(NewStream(key, Some(rate)), arrivals);
    PassedIsPart(NewStream(key, Some(rate)), arrivals);
    PassedKeepsRate(NewStream(key, Some(rate)), rate, arrivals, lo, hi, hi - lo);
  }

  lemma {:induction false} PassedKeepsRate(stream: Stream, rate: real, arrivals: seq<Arrival>, lo: real, hi: real,
                                           width: real)
    requires rate > 0.0 && lo <= hi && width == hi - lo && stream.minInterval * rate == 1000.0
    requires stream.minInterval > 0.0
    ensures CountIn(Times(Passed(stream, arrivals)), lo, hi) <= MostIn(width, rate)
  {
    FrameRate(stream, arrivals, lo, hi);
    WindowOfRate(CountIn(Times(Passed(stream, arrivals)), lo, hi), width, rate, stream.minInterval);
  }

  /** Events, and telemetry asked for without a rate above zero, go out one data frame per message. */
  lemma {:induction false} UnshapedSendsAll(steps: seq<Step>, r: nat, c: nat)
    requires r < |Served(steps)| && c < Size(Served(steps)[r])
    requires var request := Served(steps)[r];
             request.Telemetry? ==> request.rateHz.None? || request.rateHz.value <= 0.0
    ensures var request, p := Served(steps)[r], PumpOf(Served(steps), r, c);
            Sent(steps, p) == DataFor(StreamKey(if request.Events? then OfDomain(request.domains[c])
                                                else OfVehicle(request.vehicle, request.categories[c])),
                                      0, Arrivals(steps, p))
  {
    var p := PumpOf(Served(steps), r, c);
    var stream := StreamOf(Served(steps)[r], c);
    SendsWhatItPumps(steps, r, c);
    FramesAreForwards(stream, Arrivals(steps, p));
    UnshapedPassesAll(stream, Arrivals(steps, p));
  }

  /** Some of the arrivals, in their order. */
  ghost predicate IsPart(part: seq<Arrival>, arrivals: seq<Arrival>) {
    if arrivals == [] then part == []
    else
      var n := |arrivals| - 1;
      IsPart(part, arrivals[..n])
      || (part != [] && part[|part| - 1] == arrivals[n] && IsPart(part[..|part| - 1], arrivals[..n]))
  }

  lemma {:induction false} PassedIsPart(s: Stream, arrivals: seq<Arrival>)
    ensures IsPart(Passed(s, arrivals), arrivals)
  {
    if arrivals != [] {
      var n := |arrivals| - 1;
      var before, passed := Passed(s, arrivals[..n]), Passed(s, arrivals);
      PassedIsPart(s, arrivals[..n]);
      if Due(PumpedAll(s, arrivals[..n]).0, arrivals[n].now) {
        assert passed[..|passed| - 1] == before;
      } else {
        assert passed == before;
      }
    }
  }

  lemma {:induction false} UnshapedPassesAll(s: Stream, arrivals: seq<Arrival>)
    requires s.minInterval == 0.0
    ensures Passed(s, arrivals) == arrivals && PumpedAll(s, arrivals).0.minInterval == 0.0
  {
    if arrivals != [] {
      UnshapedPassesAll(s, arrivals[..|arrivals| - 1]);
    }
  }

  lemma {:induction false} WindowOfRate(count: nat, width: real, rate: real, interval: real)
    requires rate > 0.0 && interval * rate == 1000.0 && interval > 0.0
    requires count <= (width / interval).Floor + 1
    ensures count <= MostIn(width, rate)
  {
    var q := width / interval;
    assert q * interval == width;
    assert width * rate == q * interval * rate == q * (interval * rate) == q * 1000.0;
  }
}
