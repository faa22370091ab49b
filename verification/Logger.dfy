/** The structured logger: one JSON line per event, emitted exactly once, readable back. */
module Logging {
  import opened Strings
  import opened Wrappers
  import opened Json

  datatype Level = Debug | Info | Warn | Err

  function Rank(level: Level): nat {
    match level
    case Debug => 0
    case Info => 1
    case Warn => 2
    case Err => 3
  }

  /** The order of the levels, pair by pair. */
  predicate Below(a: Level, b: Level) {
    match a
    case Debug => b == Info || b == Warn || b == Level.Err
    case Info => b == Warn || b == Level.Err
    case Warn => b == Level.Err
    case Err => false
  }

  lemma {:induction false} RankTellsBelow(a: Level, b: Level)
    ensures Rank(a) < Rank(b) <==> Below(a, b)
  {
  }

  function LevelName(level: Level): string {
    match level
    case Debug => "DEBUG"
    case Info => "INFO"
    case Warn => "WARN"
    case Err => "ERROR"
  }

  /** What a log event holds. */
  datatype Event = Event(
    level: Level, event: string, msg: string, vehicle: string, corr: string, fields: seq<Member>)

  /** A member that is left out when its text is empty. */
  function Optional(name: string, text: string): seq<Member> {
    if text == "" then [] else [Member(name, Text(text))]
  }

  /** The members of the event's line, in order. */
  function Members(e: Event, ts: string, service: string): seq<Member> {
    Head(e, ts, service) + Optional("msg", e.msg) + e.fields
  }

  function Head(e: Event, ts: string, service: string): seq<Member> {
    [Member("ts", Text(ts))] + [Member("lvl", Text(LevelName(e.level)))] + [Member("svc", Text(service))]
    + Optional("vehicle", e.vehicle) + Optional("corr", e.corr) + [Member("event", Text(e.event))]
  }

  class Logger {
    const service: string
    var out: string
    var minLevel: Level

    constructor (service: string, minLevel: Level)
      ensures this.service == service && out == "" && this.minLevel == minLevel
    {
      this.service := service;
      out := "";
      this.minLevel := minLevel;
    }

    method SetMinLevel(level: Level)
      modifies this`minLevel
      ensures minLevel == level
    {
      minLevel := level;
    }

    method Put(text: string)
      modifies this`out
      ensures out == old(out) + text
    {
      out := out + text;
    }

    /** Writes a string between quotes, character by character. */
    method WriteJsonEscaped(s: string)
      modifies this`out
      ensures out == old(out) + Quoted(s)
    {
      Put("\"");
      WriteEscapedChars(s);
      Put("\"");
      QuoteAround(old(out), s);
    }

    method WriteEscapedChars(s: string)
      modifies this`out
      ensures out == old(out) + Escaped(s)
    {
      assert out + "" == out;
      for i := 0 to |s|
        invariant out == old(out) + Escaped(s[..i])
      {
        EscapedStep(old(out), s, i);
        WriteEscapedChar(s[i]);
      }
      assert s[..|s|] == s;
    }

    method WriteEscapedChar(c: char)
      modifies this`out
      ensures out == old(out) + EscapedChar(c)
    {
      match c {
        case '"' => out := out + "\\\"";
        case '\\' => out := out + "\\\\";
        case '\n' => out := out + "\\n";
        case '\r' => out := out + "\\r";
        case '\t' => out := out + "\\t";
        case _ =>
          if c as int < 0x20 {
            out := out + ("\\u00" + [HexChar(c as int / 16), HexChar(c as int % 16)]);
          } else {
            out := out + [c];
          }
      }
    }

    method WriteValue(v: Value)
      modifies this`out
      ensures out == old(out) + ValueText(v)
    {
      match v
      case Text(s) => WriteJsonEscaped(s);
      case Boolean(b) => Put(if b then "true" else "false");
      case Number(n) => Put(if n < 0 then "-" + Decimal(-n) else Decimal(n));
    }

    /** A comma, the name, a colon and the value. */
    method WriteMember(name: string, v: Value)
      modifies this`out
      ensures out == old(out) + ("," + MemberText(Member(name, v)))
    {
      Put(",");
      WriteJsonEscaped(name);
      Put(":");
      WriteValue(v);
      Gather(old(out), ",", Quoted(name), ":", ValueText(v));
    }

    /** Writes one more member behind those written so far. */
    method WriteMore(name: string, v: Value, ghost start: string, ghost done: seq<Member>)
      requires done != [] && out == start + Unclosed(done)
      modifies this`out
      ensures out == start + Unclosed(done + [Member(name, v)])
    {
      UnclosedAppend(done, Member(name, v));
      WriteMember(name, v);
      Join(start, Unclosed(done), "," + MemberText(Member(name, v)));
    }
  }

  /** The line of an event. */
  function Line(e: Event, ts: string, service: string): string {
    ObjectText(Members(e, ts, service)) + "\n"
  }

  class LogEvent {
    var owner: Logger?
    var level: Level
    var event: string
    var msg: string
    var vehicle: string
    var corr: string
    var fields: seq<Member>
    var emitted: bool

    function View(): Event
      reads this
    {
      Event(level, event, msg, vehicle, corr, fields)
    }

    constructor (owner: Logger, level: Level, event: string)
      ensures this.owner == owner && !emitted && View() == Event(level, event, "", "", "", [])
    {
      this.owner, this.level, this.event := owner, level, event;
      msg, vehicle, corr, fields, emitted := "", "", "", [], false;
    }

    /** The new object takes over what is left to emit. */
    constructor Move(other: LogEvent)
      modifies other`emitted
      ensures owner == old(other.owner) && View() == old(other.View()) && emitted == old(other.emitted)
      ensures other.emitted
    {
      owner, level, event := other.owner, other.level, other.event;
      msg, vehicle, corr, fields, emitted := other.msg, other.vehicle, other.corr, other.fields, other.emitted;
      new;
      other.emitted := true;
    }

    method SetMsg(text: string)
      modifies this`msg
      ensures View() == old(View()).(msg := text)
    {
      msg := text;
    }

    method SetVehicle(id: string)
      modifies this`vehicle
      ensures View() == old(View()).(vehicle := id)
    {
      vehicle := id;
    }

    method SetCorr(id: string)
      modifies this`corr
      ensures View() == old(View()).(corr := id)
    {
      corr := id;
    }

    method AddField(name: string, value: Value)
      modifies this`fields
      ensures View() == old(View()).(fields := old(fields) + [Member(name, value)])
    {
      fields := fields + [Member(name, value)];
    }

    /** Writes the line unless it has been dealt with already or lies below the logger's level. */
    method Emit(ts: string)
      modifies this`emitted, owner
      ensures emitted && owner == old(owner)
      ensures owner != null ==>
                && owner.minLevel == old(owner.minLevel)
                && owner.out == if !old(emitted) && !Below(level, owner.minLevel)
                                then old(owner.out) + Line(View(), ts, owner.service)
                                else old(owner.out)
    {
      if emitted {
        return;
      }
      emitted := true;
      if owner == null || Rank(level) < Rank(owner.minLevel) {
        return;
      }
      Write(owner, ts);
    }

    /** Formats and writes the line. */
    method Write(logger: Logger, ts: string)
      requires owner == logger
      modifies logger`out
      ensures logger.out == old(logger.out) + Line(View(), ts, logger.service)
    {
      ghost var start := logger.out;
      ghost var done := WriteHead(logger, ts);
      if msg != "" {
        logger.WriteMore("msg", Text(msg), start, done);
      }
      done := Grown(done, "msg", msg);
      WriteFields(logger, start, done);
      logger.Put("}\n");
      Close(start, done + fields);
    }

    method WriteFields(logger: Logger, ghost start: string, ghost done: seq<Member>)
      requires done != [] && logger.out == start + Unclosed(done) && owner == logger
      modifies logger`out
      ensures logger.out == start + Unclosed(done + fields)
    {
      assert done + fields[..0] == done;
      for i := 0 to |fields|
        invariant logger.out == start + Unclosed(done + fields[..i])
      {
        logger.WriteMore(fields[i].name, fields[i].value, start, done + fields[..i]);
        OneMore(done, fields, i);
      }
      assert done + fields[..|fields|] == done + fields;
    }

    /** The members from `ts` to `event`. */
    method WriteHead(logger: Logger, ts: string) returns (ghost done: seq<Member>)
      requires owner == logger
      modifies logger`out
      ensures done == Head(View(), ts, logger.service) && logger.out == old(logger.out) + Unclosed(done)
    {
      ghost var start := logger.out;
      logger.Put("{\"ts\":");
      logger.WriteJsonEscaped(ts);
      FirstMember(start, ts);
      done := [Member("ts", Text(ts))];
      logger.WriteMore("lvl", Text(LevelName(level)), start, done);
      done := done + [Member("lvl", Text(LevelName(level)))];
      logger.WriteMore("svc", Text(logger.service), start, done);
      done := done + [Member("svc", Text(logger.service))];
      if vehicle != "" {
        logger.WriteMore("vehicle", Text(vehicle), start, done);
      }
      done := Grown(done, "vehicle", vehicle);
      if corr != "" {
        logger.WriteMore("corr", Text(corr), start, done);
      }
      done := Grown(done, "corr", corr);
      logger.WriteMore("event", Text(event), start, done);
      done := done + [Member("event", Text(event))];
    }

    /** The destructor. */
    method Destroy(ts: string)
      modifies this`emitted, owner
      ensures emitted && owner == old(owner)
      ensures owner != null ==>
                && owner.minLevel == old(owner.minLevel)
                && owner.out == if !old(emitted) && !Below(level, owner.minLevel)
                                then old(owner.out) + Line(View(), ts, owner.service)
                                else old(owner.out)
    {
      if !emitted {
        Emit(ts);
      }
    }
  }

  // ----- Assembling a line -----

  /** An object whose closing brace is still missing. */
  function Unclosed(members: seq<Member>): string
    requires members != []
  {
    "{" + MemberText(members[0]) + MoreMembers(members[1..])
  }

  lemma {:induction false} Grown(done: seq<Member>, name: string, text: string) returns (more: seq<Member>)
    ensures more == done + Optional(name, text)
    ensures text == "" ==> more == done
    ensures text != "" ==> more == done + [Member(name, Text(text))]
  {
    more := done + Optional(name, text);
  }

  lemma {:induction false} OneMore<T>(a: seq<T>, b: seq<T>, i: nat)
    requires i < |b|
    ensures a + b[..i] + [b[i]] == a + b[..i + 1]
  {
  }

  lemma {:induction false} EscapedStep(start: string, s: string, i: nat)
    requires i < |s|
    ensures start + Escaped(s[..i + 1]) == start + Escaped(s[..i]) + EscapedChar(s[i])
  {
    EscapedAppend(s[..i], s[i]);
    assert s[..i] + [s[i]] == s[..i + 1];
    Join(start, Escaped(s[..i]), EscapedChar(s[i]));
  }

  lemma {:induction false} QuoteAround(start: string, s: string)
    ensures start + "\"" + Escaped(s) + "\"" == start + Quoted(s)
  {
  }

  lemma {:induction false} UnclosedAppend(members: seq<Member>, m: Member)
    requires members != []
    ensures Unclosed(members + [m]) == Unclosed(members) + ("," + MemberText(m))
  {
    assert (members + [m])[1..] == members[1..] + [m];
    MoreMembersAppend(members[1..], m);
    Join("{" + MemberText(members[0]), MoreMembers(members[1..]), "," + MemberText(m));
  }

  /** The name `ts` is printed as a literal, which is its own escaped text. */
  lemma {:induction false} FirstMember(start: string, ts: string)
    ensures start + "{\"ts\":" + Quoted(ts) == start + Unclosed([Member("ts", Text(ts))])
  {
    QuotedTs();
    Opened("{\"ts\":", "ts", start, ts);
  }

  lemma {:induction false} QuotedTs()
    ensures "{\"ts\":" == "{" + Quoted("ts") + ":"
  {
    assert "ts"[1..] == "s" && "s"[1..] == "";
    assert Escaped("s") == "s" && Escaped("ts") == "ts";
  }

  lemma {:induction false} Opened(open: string, name: string, start: string, value: string)
    requires open == "{" + Quoted(name) + ":"
    ensures start + open + Quoted(value) == start + Unclosed([Member(name, Text(value))])
  {
    assert MoreMembers([Member(name, Text(value))][1..]) == "";
    Join(start, open, Quoted(value));
    assert "{" + (Quoted(name) + ":" + Quoted(value)) + "" == open + Quoted(value);
  }

  lemma {:induction false} Close(start: string, members: seq<Member>)
    requires members != []
    ensures start + Unclosed(members) + "}\n" == start + (ObjectText(members) + "\n")
  {
    Join(Unclosed(members), "}", "\n");
    Join(start, Unclosed(members), "}\n");
    assert "}" + "\n" == "}\n";
  }

  lemma {:induction false} Gather(a: string, b: string, c: string, d: string, e: string)
    ensures a + b + c + d + e == a + (b + (c + d + e))
  {
  }
}
