/** Whole runs of the logger: moved, emitted and destroyed events, and a reader for the resulting log. */
module LogRuns {
  import opened Strings
  import opened Wrappers
  import opened Json
  import opened Logging

  /** A LogEvent object. `origin` numbers the event it was created for, however often it is moved. */
  datatype Handle = Handle(origin: nat, event: Event, emitted: bool, alive: bool)

  datatype Emission = Emission(origin: nat, event: Event, ts: string, shown: bool)

  datatype Log = Log(handles: seq<Handle>, created: nat, minLevel: Level, emissions: seq<Emission>, out: string)

  datatype Step =
    | Create(level: Level, event: string)
    | Set(handle: nat, msg: string, vehicle: string, corr: string, fields: seq<Member>)
    | Move(handle: nat)
    | EmitNow(handle: nat, ts: string)
    | Destroy(handle: nat, ts: string)
    | SetLevel(level: Level)

  function NewLog(minLevel: Level): Log {
    Log([], 0, minLevel, [], "")
  }

  predicate Usable(log: Log, h: nat) {
    h < |log.handles| && log.handles[h].alive
  }

  function Emitting(log: Log, service: string, h: nat, ts: string): Log
    requires Usable(log, h)
  {
    var handle := log.handles[h];
    if handle.emitted then log
    else
      var shown := Rank(handle.event.level) >= Rank(log.minLevel);
      log.(handles := log.handles[h := handle.(emitted := true)],
           emissions := log.emissions + [Emission(handle.origin, handle.event, ts, shown)],
           out := if shown then log.out + Line(handle.event, ts, service) else log.out)
  }

  function Next(log: Log, service: string, step: Step): Log {
    match step
    case Create(level, event) =>
      log.(handles := log.handles + [Handle(log.created, Event(level, event, "", "", "", []), false, true)],
           created := log.created + 1)
    case Set(h, msg, vehicle, corr, fields) =>
      if Usable(log, h) then
        var event := log.handles[h].event.(msg := msg, vehicle := vehicle, corr := corr, fields := fields);
        log.(handles := log.handles[h := log.handles[h].(event := event)])
      else log
    case Move(h) =>
      if Usable(log, h) then
        log.(handles := log.handles[h := log.handles[h].(emitted := true)] + [log.handles[h]])
      else log
    case EmitNow(h, ts) => if Usable(log, h) then Emitting(log, service, h, ts) else log
    case Destroy(h, ts) =>
      if Usable(log, h) then
        var after := Emitting(log, service, h, ts);
        after.(handles := after.handles[h := after.handles[h].(alive := false)])
      else log
    case SetLevel(level) => log.(minLevel := level)
  }

  function Run(minLevel: Level, service: string, steps: seq<Step>): Log {
    if steps == [] then NewLog(minLevel)
    else
      var n := |steps| - 1;
      Next(Run(minLevel, service, steps[..n]), service, steps[n])
  }

  // ----- Once -----

  /** Handles that still have event `o` to emit. */
  function Holding(handles: seq<Handle>, o: nat): nat {
    if handles == [] then 0
    else
      var n := |handles| - 1;
      Holding(handles[..n], o) + Holds(handles[n], o)
  }

  function Holds(handle: Handle, o: nat): nat {
    if handle.origin == o && handle.alive && !handle.emitted then 1 else 0
  }

  function Emitted(emissions: seq<Emission>, o: nat): nat {
    if emissions == [] then 0
    else
      var n := |emissions| - 1;
      Emitted(emissions[..n], o) + (if emissions[n].origin == o then 1 else 0)
  }

  lemma {:induction false} HoldingUpdate(handles: seq<Handle>, h: nat, handle: Handle, o: nat)
    requires h < |handles|
    ensures Holding(handles[h := handle], o) == Holding(handles, o) - Holds(handles[h], o) + Holds(handle, o)
  {
    var n := |handles| - 1;
    if h < n {
      HoldingUpdate(handles[..n], h, handle, o);
      assert handles[h := handle][..n] == handles[..n][h := handle];
    } else {
      assert handles[h := handle][..n] == handles[..n];
    }
  }

  lemma {:induction false} HoldingAppend(handles: seq<Handle>, handle: Handle, o: nat)
    ensures Holding(handles + [handle], o) == Holding(handles, o) + Holds(handle, o)
  {
    assert (handles + [handle])[..|handles|] == handles;
  }

  lemma {:induction false} EmittingMoves(log: Log, service: string, h: nat, ts: string, o: nat)
    requires Usable(log, h)
    ensures var log' := Emitting(log, service, h, ts);
            && Holding(log'.handles, o) + Emitted(log'.emissions, o)
               == Holding(log.handles, o) + Emitted(log.emissions, o)
            && Usable(log', h) && log'.handles[h].emitted
            && log'.created == log.created && |log'.handles| == |log.handles|
  {
    var handle := log.handles[h];
    if !handle.emitted {
      HoldingUpdate(log.handles, h, handle.(emitted := true), o);
      assert Emitting(log, service, h, ts).emissions[..|log.emissions|] == log.emissions;
    }
  }

  /** In every run each event created so far is either emitted exactly once and held by nobody, or held by exactly
      one object that has yet to emit it. */
  lemma {:induction false} EmittedOrHeldOnce(minLevel: Level, service: string, steps: seq<Step>, o: nat)
    ensures var log := Run(minLevel, service, steps);
            Holding(log.handles, o) + Emitted(log.emissions, o) == if o < log.created then 1 else 0
  {
    if steps != [] {
      var n := |steps| - 1;
      EmittedOrHeldOnce(minLevel, service, steps[..n], o);
      StepKeepsOnce(Run(minLevel, service, steps[..n]), service, steps[n], o);
    }
  }

  lemma {:induction false} StepKeepsOnce(log: Log, service: string, step: Step, o: nat)
    requires Holding(log.handles, o) + Emitted(log.emissions, o) == if o < log.created then 1 else 0
    ensures var log' := Next(log, service, step);
            Holding(log'.handles, o) + Emitted(log'.emissions, o) == if o < log'.created then 1 else 0
  {
    match step
    case Create(level, event) =>
      HoldingAppend(log.handles, Handle(log.created, Event(level, event, "", "", "", []), false, true), o);
    case Set(h, msg, vehicle, corr, fields) =>
      if Usable(log, h) {
        var event := log.handles[h].event.(msg := msg, vehicle := vehicle, corr := corr, fields := fields);
        HoldingUpdate(log.handles, h, log.handles[h].(event := event), o);
      }
    case Move(h) =>
      if Usable(log, h) {
        HoldingUpdate(log.handles, h, log.handles[h].(emitted := true), o);
        HoldingAppend(log.handles[h := log.handles[h].(emitted := true)], log.handles[h], o);
      }
    case EmitNow(h, ts) =>
      if Usable(log, h) {
        EmittingMoves(log, service, h, ts, o);
      }
    case Destroy(h, ts) =>
      if Usable(log, h) {
        EmittingMoves(log, service, h, ts, o);
        var after := Emitting(log, service, h, ts);
        HoldingUpdate(after.handles, h, after.handles[h].(alive := false), o);
      }
    case SetLevel(_) =>
  }

  lemma {:induction false} NothingHeld(handles: seq<Handle>, o: nat)
    requires forall h :: 0 <= h < |handles| ==> !handles[h].alive
    ensures Holding(handles, o) == 0
  {
    if handles != [] {
      NothingHeld(handles[..|handles| - 1], o);
    }
  }

  // ----- The same told by the list of steps -----

  /** The level in force: the one set last. */
  function LevelInForce(minLevel: Level, steps: seq<Step>): Level {
    if steps == [] then minLevel
    else
      var n := |steps| - 1;
      if steps[n].SetLevel? then steps[n].level else LevelInForce(minLevel, steps[..n])
  }

  function Created(steps: seq<Step>): nat {
    if steps == [] then 0
    else
      var n := |steps| - 1;
      Created(steps[..n]) + if steps[n].Create? then 1 else 0
  }

  /** For each object made so far, the number of the event it was made for. */
  function Origins(steps: seq<Step>): seq<nat> {
    if steps == [] then []
    else
      var before, s := steps[..|steps| - 1], steps[|steps| - 1];
      if s.Create? then Origins(before) + [Created(before)]
      else if s.Move? && s.handle < |Origins(before)| && Exists(before, s.handle)
      then Origins(before) + [Origins(before)[s.handle]]
      else Origins(before)
  }

  /** The object was made and not destroyed. */
  predicate Exists(steps: seq<Step>, h: nat) {
    if steps == [] then false
    else
      var before, s := steps[..|steps| - 1], steps[|steps| - 1];
      match s
      case Create(_, _) => h == |Origins(before)| || Exists(before, h)
      case Move(g) => Exists(before, h) || (h == |Origins(before)| && Exists(before, g))
      case Destroy(g, _) => h != g && Exists(before, h)
      case _ => Exists(before, h)
  }

  /** The object still has its event to emit: it was created for it or took it over in a move, and since then it was
      neither emitted, nor destroyed, nor moved from. */
  predicate Owes(steps: seq<Step>, h: nat) {
    if steps == [] then false
    else
      var before, s := steps[..|steps| - 1], steps[|steps| - 1];
      match s
      case Create(_, _) => h == |Origins(before)| || Owes(before, h)
      case Move(g) =>
        if h == |Origins(before)| then Owes(before, g) else h != g && Owes(before, h)
      case EmitNow(g, _) => h != g && Owes(before, h)
      case Destroy(g, _) => h != g && Owes(before, h)
      case _ => Owes(before, h)
  }

  /** Event `o` as it was created and then set through the objects that held it. */
  function Content(steps: seq<Step>, o: nat): Event {
    if steps == [] then Event(Debug, "", "", "", "", [])
    else
      var before, s := steps[..|steps| - 1], steps[|steps| - 1];
      match s
      case Create(level, event) =>
        if o == Created(before) then Event(level, event, "", "", "", []) else Content(before, o)
      case Set(h, msg, vehicle, corr, fields) =>
        var e := Content(before, o);
        if h < |Origins(before)| && Owes(before, h) && Origins(before)[h] == o
        then Event(e.level, e.event, msg, vehicle, corr, fields) else e
      case _ => Content(before, o)
  }

  /** What the steps emit: each time an object that owes its event is emitted or destroyed, the event as last set,
      shown unless its level is below the one in force. */
  function Told(minLevel: Level, steps: seq<Step>): seq<Emission> {
    if steps == [] then []
    else
      var before, s := steps[..|steps| - 1], steps[|steps| - 1];
      if (s.EmitNow? || s.Destroy?) && s.handle < |Origins(before)| && Owes(before, s.handle) then
        var o := Origins(before)[s.handle];
        var e := Content(before, o);
        Told(minLevel, before) + [Emission(o, e, s.ts, !Below(e.level, LevelInForce(minLevel, before)))]
      else Told(minLevel, before)
  }

  lemma {:induction false} LevelIsHistory(minLevel: Level, service: string, steps: seq<Step>)
    ensures Run(minLevel, service, steps).minLevel == LevelInForce(minLevel, steps)
  {
    if steps != [] {
      LevelIsHistory(minLevel, service, steps[..|steps| - 1]);
    }
  }

  lemma {:induction false} CreatedIsHistory(minLevel: Level, service: string, steps: seq<Step>)
    ensures Run(minLevel, service, steps).created == Created(steps)
  {
    if steps != [] {
      CreatedIsHistory(minLevel, service, steps[..|steps| - 1]);
    }
  }

  lemma {:induction false} OnlyHolder(handles: seq<Handle>, g: nat, h: nat, o: nat)
    requires g < |handles| && h < |handles| && g != h
    ensures Holding(handles, o) >= Holds(handles[g], o) + Holds(handles[h], o)
  {
    var n := |handles| - 1;
    if g < n && h < n {
      OnlyHolder(handles[..n], g, h, o);
    } else {
      AHolder(handles[..n], if g < n then g else h, o);
    }
  }

  lemma {:induction false} AHolder(handles: seq<Handle>, h: nat, o: nat)
    requires h < |handles|
    ensures Holding(handles, o) >= Holds(handles[h], o)
  {
    var n := |handles| - 1;
    if h < n {
      AHolder(handles[..n], h, o);
    }
  }

  ghost predicate HandleTold(handle: Handle, steps: seq<Step>, h: nat) {
    && h < |Origins(steps)| && handle.origin == Origins(steps)[h]
    && (handle.alive <==> Exists(steps, h))
    && (handle.emitted <==> !Owes(steps, h))
    && (!handle.emitted ==> handle.alive && handle.event == Content(steps, handle.origin))
  }

  ghost predicate HandlesTold(log: Log, steps: seq<Step>, h: nat) {
    && |log.handles| == |Origins(steps)|
    && (h < |log.handles| ==> HandleTold(log.handles[h], steps, h))
    && (h >= |log.handles| ==> !Exists(steps, h) && !Owes(steps, h))
  }

  lemma {:induction false} OriginsAreCreated(steps: seq<Step>, h: nat)
    requires h < |Origins(steps)|
    ensures Origins(steps)[h] < Created(steps)
  {
    var before, s := steps[..|steps| - 1], steps[|steps| - 1];
    if h < |Origins(before)| {
      OriginsAreCreated(before, h);
    } else if s.Move? {
      OriginsAreCreated(before, s.handle);
    }
  }

  lemma {:induction false} CreateTold(log: Log, service: string, steps: seq<Step>, s: Step, more: seq<Step>, h: nat)
    requires more == steps + [s] && s.Create? && log.created == Created(steps) && HandlesTold(log, steps, h)
    ensures HandlesTold(Next(log, service, s), more, h)
  {
    assert more[..|more| - 1] == steps;
    if h < |Origins(steps)| {
      OriginsAreCreated(steps, h);
    }
  }

  lemma {:induction false} MoveTold(log: Log, service: string, steps: seq<Step>, s: Step, more: seq<Step>, h: nat)
    requires more == steps + [s] && s.Move? && HandlesTold(log, steps, h) && HandlesTold(log, steps, s.handle)
    ensures HandlesTold(Next(log, service, s), more, h)
  {
    assert more[..|more| - 1] == steps;
  }

  lemma {:induction false} SetTold(log: Log, service: string, steps: seq<Step>, s: Step, more: seq<Step>, h: nat)
    requires more == steps + [s] && s.Set? && HandlesTold(log, steps, h) && HandlesTold(log, steps, s.handle)
    requires h < |log.handles| ==> Holding(log.handles, log.handles[h].origin) <= 1
    ensures HandlesTold(Next(log, service, s), more, h)
  {
    assert more[..|more| - 1] == steps;
    if h < |log.handles| && s.handle < |log.handles| && h != s.handle {
      OnlyHolder(log.handles, h, s.handle, log.handles[h].origin);
    }
  }

  lemma {:induction false} EndTold(log: Log, service: string, steps: seq<Step>, s: Step, more: seq<Step>, h: nat)
    requires more == steps + [s] && (s.EmitNow? || s.Destroy?)
    requires HandlesTold(log, steps, h) && HandlesTold(log, steps, s.handle)
    ensures HandlesTold(Next(log, service, s), more, h)
  {
    assert more[..|more| - 1] == steps;
  }

  /** Every object is as the steps tell. */
  lemma {:induction false} HandleIsHistory(minLevel: Level, service: string, steps: seq<Step>, h: nat)
    ensures HandlesTold(Run(minLevel, service, steps), steps, h)
  {
    if steps != [] {
      var before, s := steps[..|steps| - 1], steps[|steps| - 1];
      var log := Run(minLevel, service, before);
      HandleIsHistory(minLevel, service, before, h);
      CreatedIsHistory(minLevel, service, before);
      match s
      case Create(_, _) => CreateTold(log, service, before, s, steps, h);
      case Move(g) =>
        HandleIsHistory(minLevel, service, before, g);
        MoveTold(log, service, before, s, steps, h);
      case Set(g, _, _, _, _) =>
        HandleIsHistory(minLevel, service, before, g);
        if h < |log.handles| {
          EmittedOrHeldOnce(minLevel, service, before, log.handles[h].origin);
        }
        SetTold(log, service, before, s, steps, h);
      case SetLevel(_) =>
      case _ =>
        HandleIsHistory(minLevel, service, before, s.handle);
        EndTold(log, service, before, s, steps, h);
    }
  }

  /** Every run emits what its steps tell: each event as it was created and last set, at its first emission or its
      holder's destruction, shown exactly if its level is not below the level set last before. */
  lemma {:induction false} EmissionsAreTold(minLevel: Level, service: string, steps: seq<Step>)
    ensures Run(minLevel, service, steps).emissions == Told(minLevel, steps)
  {
    if steps != [] {
      var before, s := steps[..|steps| - 1], steps[|steps| - 1];
      EmissionsAreTold(minLevel, service, before);
      if s.EmitNow? || s.Destroy? {
        var log := Run(minLevel, service, before);
        HandleIsHistory(minLevel, service, before, s.handle);
        LevelIsHistory(minLevel, service, before);
        if Usable(log, s.handle) {
          RankTellsBelow(log.handles[s.handle].event.level, log.minLevel);
        }
      }
    }
  }

  /** Once every object is gone, every event has been emitted exactly once. */
  lemma {:induction false} EachEventEmittedOnce(minLevel: Level, service: string, steps: seq<Step>, o: nat)
    requires o < Created(steps) && forall h :: 0 <= h < |Origins(steps)| ==> !Exists(steps, h)
    ensures Emitted(Run(minLevel, service, steps).emissions, o) == Emitted(Told(minLevel, steps), o) == 1
  {
    var log := Run(minLevel, service, steps);
    HandleIsHistory(minLevel, service, steps, 0);
    forall h | 0 <= h < |log.handles| ensures !log.handles[h].alive {
      HandleIsHistory(minLevel, service, steps, h);
    }
    CreatedIsHistory(minLevel, service, steps);
    EmittedOrHeldOnce(minLevel, service, steps, o);
    NothingHeld(log.handles, o);
    EmissionsAreTold(minLevel, service, steps);
  }

  // ----- Reading a log back -----

  /** The emissions not below the level of their moment. */
  function Shown(emissions: seq<Emission>): seq<Emission> {
    if emissions == [] then []
    else
      var n := |emissions| - 1;
      Shown(emissions[..n]) + (if emissions[n].shown then [emissions[n]] else [])
  }

  function LogText(emissions: seq<Emission>, service: string): string {
    if emissions == [] then ""
    else
      var n := |emissions| - 1;
      LogText(emissions[..n], service) + Line(emissions[n].event, emissions[n].ts, service)
  }

  ghost predicate OutputIsLines(log: Log, service: string) {
    log.out == LogText(Shown(log.emissions), service)
  }

  lemma {:induction false} EmittingAddsItsLine(log: Log, service: string, h: nat, ts: string)
    requires Usable(log, h) && OutputIsLines(log, service)
    ensures OutputIsLines(Emitting(log, service, h, ts), service)
  {
    var log' := Emitting(log, service, h, ts);
    if !log.handles[h].emitted {
      assert log'.emissions[..|log.emissions|] == log.emissions;
      var shown := Shown(log'.emissions);
      if log'.emissions[|log.emissions|].shown {
        assert shown[..|shown| - 1] == Shown(log.emissions);
      } else {
        assert shown == Shown(log.emissions);
      }
    }
  }

  lemma {:induction false} StepAddsItsLine(log: Log, service: string, step: Step)
    requires OutputIsLines(log, service)
    ensures OutputIsLines(Next(log, service, step), service)
  {
    if (step.EmitNow? || step.Destroy?) && Usable(log, step.handle) {
      EmittingAddsItsLine(log, service, step.handle, step.ts);
    }
  }

  lemma {:induction false} LogIsLines(minLevel: Level, service: string, steps: seq<Step>)
    ensures OutputIsLines(Run(minLevel, service, steps), service)
  {
    if steps != [] {
      var n := |steps| - 1;
      LogIsLines(minLevel, service, steps[..n]);
      StepAddsItsLine(Run(minLevel, service, steps[..n]), service, steps[n]);
    }
  }

  /** There is one line per emission, in order, and each decodes to the members of its emission. */
  ghost predicate ReadsBack(lines: seq<string>, shown: seq<Emission>, service: string) {
    if shown == [] then lines == []
    else
      && lines != []
      && Decode(lines[|lines| - 1]) == Some(Members(shown[|shown| - 1].event, shown[|shown| - 1].ts, service))
      && ReadsBack(lines[..|lines| - 1], shown[..|shown| - 1], service)
  }

  /** One more line splits off and decodes to the event's members. */
  lemma {:induction false} LineReadsBack(before: string, e: Event, ts: string, service: string) returns (line: string)
    requires Terminated(before)
    ensures Lines(before + Line(e, ts, service)) == Lines(before) + [line]
    ensures Decode(line) == Some(Members(e, ts, service))
    ensures Terminated(before + Line(e, ts, service))
  {
    var members := Members(e, ts, service);
    line := ObjectText(members);
    ObjectIsOneLine(members);
    DecodeInvertsText(members);
    LastLine(before, line);
    assert line + ['\n'] == line + "\n";
  }

  ghost predicate AllReadBack(shown: seq<Emission>, service: string) {
    ReadsBack(Lines(LogText(shown, service)), shown, service) && Terminated(LogText(shown, service))
  }

  lemma {:induction false} LinesReadBack(shown: seq<Emission>, service: string)
    ensures AllReadBack(shown, service)
  {
    if shown != [] {
      LinesReadBack(shown[..|shown| - 1], service);
      LastReadsBack(shown, service);
    }
  }

  lemma {:induction false} LastReadsBack(shown: seq<Emission>, service: string)
    requires shown != [] && AllReadBack(shown[..|shown| - 1], service)
    ensures AllReadBack(shown, service)
  {
    var n := |shown| - 1;
    var before := LogText(shown[..n], service);
    var lines := Lines(before);
    var line := LineReadsBack(before, shown[n].event, shown[n].ts, service);
    assert (lines + [line])[..|lines|] == lines;
  }

  /** Every run: the output splits at line feeds into exactly one line for each event the steps tell and whose level
      is not below the one then in force, in order, and decoding a line gives back the event's members, whatever bytes
      their strings hold. */
  lemma {:induction false} LogReadsBack(minLevel: Level, service: string, steps: seq<Step>)
    ensures ReadsBack(Lines(Run(minLevel, service, steps).out), Shown(Told(minLevel, steps)), service)
  {
    LogIsLines(minLevel, service, steps);
    LinesReadBack(Shown(Run(minLevel, service, steps).emissions), service);
    EmissionsAreTold(minLevel, service, steps);
  }

  // ----- From members back to events -----

  function ReadLevel(name: string): Option<Level> {
    if name == "DEBUG" then Some(Debug)
    else if name == "INFO" then Some(Info)
    else if name == "WARN" then Some(Warn)
    else if name == "ERROR" then Some(Level.Err)
    else None
  }

  /** An optional text member at the front, and what follows it. */
  function TakeText(members: seq<Member>, name: string): (string, seq<Member>) {
    if members != [] && members[0].name == name && members[0].value.Text? && members[0].value.text != "" then
      (members[0].value.text, members[1..])
    else ("", members)
  }

  /** Reads the members behind `svc`: vehicle and correlation id if there, the event, its message if there, and
      the fields. A text member `msg` right behind `event` is taken as the message. */
  function ReadBody(level: Level, members: seq<Member>): Option<Event> {
    var (vehicle, afterVehicle) := TakeText(members, "vehicle");
    var (corr, afterCorr) := TakeText(afterVehicle, "corr");
    if afterCorr == [] || afterCorr[0].name != "event" || !afterCorr[0].value.Text? then None
    else
      var (msg, fields) := TakeText(afterCorr[1..], "msg");
      Some(Event(level, afterCorr[0].value.text, msg, vehicle, corr, fields))
  }

  /** Reads the members of a line as an event with its time stamp and service. */
  function ReadEvent(members: seq<Member>): Option<(Event, string, string)> {
    if |members| < 4 || !members[0].value.Text? || !members[1].value.Text? || !members[2].value.Text?
       || members[0].name != "ts" || members[1].name != "lvl" || members[2].name != "svc" then None
    else
      match ReadLevel(members[1].value.text)
      case None => None
      case Some(level) =>
        match ReadBody(level, members[3..])
        case None => None
        case Some(e) => Some((e, members[0].value.text, members[2].value.text))
  }

  /** An event without a message whose first field looks like one. */
  predicate FieldPosesAsMsg(e: Event) {
    && e.msg == "" && e.fields != [] && e.fields[0].name == "msg"
    && e.fields[0].value.Text? && e.fields[0].value.text != ""
  }

  lemma {:induction false} TakeTextOf(text: string, name: string, rest: seq<Member>)
    requires text == "" ==> TakeText(rest, name) == ("", rest)
    ensures TakeText(Optional(name, text) + rest, name) == (text, rest)
  {
    if text == "" {
      assert [] + rest == rest;
    } else {
      assert ([Member(name, Text(text))] + rest)[1..] == rest;
    }
  }

  /** The event with a posing field taken as its message. */
  function Unposed(e: Event): Event {
    if FieldPosesAsMsg(e) then e.(msg := e.fields[0].value.text, fields := e.fields[1..]) else e
  }

  lemma {:induction false} ReadBodyOf(e: Event)
    ensures ReadBody(e.level, Optional("vehicle", e.vehicle)
                              + (Optional("corr", e.corr)
                                 + ([Member("event", Text(e.event))] + (Optional("msg", e.msg) + e.fields))))
         == Some(Unposed(e))
  {
    var msg := Optional("msg", e.msg) + e.fields;
    var event := [Member("event", Text(e.event))] + msg;
    var corr := Optional("corr", e.corr) + event;
    TakeTextOf(e.corr, "corr", event);
    TakeTextOf(e.vehicle, "vehicle", corr);
    assert event[1..] == msg;
    if FieldPosesAsMsg(e) {
      assert msg == e.fields;
    } else {
      TakeTextOf(e.msg, "msg", e.fields);
    }
  }

  lemma {:induction false} MembersBody(e: Event, ts: string, service: string)
    ensures Members(e, ts, service)[3..]
         == Optional("vehicle", e.vehicle)
            + (Optional("corr", e.corr)
               + ([Member("event", Text(e.event))] + (Optional("msg", e.msg) + e.fields)))
  {
  }

  /** What the reader makes of an event's members: the event, except that a posing field becomes the message. */
  lemma {:induction false} ReadEventOf(e: Event, ts: string, service: string)
    ensures ReadEvent(Members(e, ts, service)) == Some((Unposed(e), ts, service))
  {
    MembersBody(e, ts, service);
    ReadBodyOf(e);
  }

  /** The event itself is read back exactly when no field poses as its message. */
  lemma {:induction false} EventReadsBackIff(e: Event, ts: string, service: string)
    ensures ReadEvent(Members(e, ts, service)) == Some((e, ts, service)) <==> !FieldPosesAsMsg(e)
  {
    ReadEventOf(e, ts, service);
  }

  /** A posing field prints the same line as the message it poses as. */
  lemma {:induction false} PosingFieldPrintsTheSame(e: Event, ts: string, service: string)
    requires FieldPosesAsMsg(e)
    ensures Unposed(e) != e && Line(Unposed(e), ts, service) == Line(e, ts, service)
  {
    var twin := Unposed(e);
    assert [Member("msg", Text(twin.msg))] + twin.fields == e.fields;
    assert Members(twin, ts, service) == Members(e, ts, service);
  }

  /** Two events that print the same line are the same event, once a posing field counts as the message. */
  lemma {:induction false} LineTellsTheEvent(e: Event, e': Event, ts: string, ts': string, service: string,
                                               service': string)
    requires Line(e, ts, service) == Line(e', ts', service')
    ensures Unposed(e) == Unposed(e') && ts == ts' && service == service'
  {
    var text, text' := ObjectText(Members(e, ts, service)), ObjectText(Members(e', ts', service'));
    assert Line(e, ts, service)[..|text|] == text && Line(e', ts', service')[..|text'|] == text';
    DecodeInvertsText(Members(e, ts, service));
    DecodeInvertsText(Members(e', ts', service'));
    ReadEventOf(e, ts, service);
    ReadEventOf(e', ts', service');
  }
}
