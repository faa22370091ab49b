/** The ULog writer: framed messages behind a fixed header, and a reader that needs nothing but the stream. */
module FlightLog {
  import opened Bytes
  import opened LogFormat
  import opened LogTopics
  import opened Sequences
  import opened Strings
  import opened Words
  import opened Wrappers

  // ----- Framing -----

  /** A message: its type character and its payload. */
  datatype Msg = Msg(kind: char, payload: seq<Byte>)

  predicate Framable(m: Msg) {
    m.kind as int < 128 && |m.payload| < 0x1_0000
  }

  /** A two-byte length, the type, the payload. */
  function Frame(m: Msg): seq<Byte> {
    Little(|m.payload|, 2) + [m.kind as int % 256] + m.payload
  }

  predicate AllFramable(msgs: seq<Msg>) {
    forall i :: 0 <= i < |msgs| ==> Framable(msgs[i])
  }

  function Stream(msgs: seq<Msg>): seq<Byte> {
    if msgs == [] then [] else Stream(msgs[..|msgs| - 1]) + Frame(msgs[|msgs| - 1])
  }

  /** Splits a stream by nothing but its own length fields. */
  function ReadFrames(s: seq<Byte>): Option<seq<Msg>>
    decreases |s|
  {
    if s == [] then Some([])
    else if |s| < 3 then None
    else
      var n := FromLittle(s[..2]);
      if |s| < 3 + n || s[2] >= 128 then None
      else
        match ReadFrames(s[3 + n..])
        case None => None
        case Some(more) => Some([Msg(s[2] as char, s[3..3 + n])] + more)
  }

  lemma {:induction false} ReadOneFrame(m: Msg, rest: seq<Byte>)
    requires Framable(m)
    ensures ReadFrames(Frame(m) + rest)
         == match ReadFrames(rest) case None => None case Some(more) => Some([m] + more)
  {
    var s := Frame(m) + rest;
    var n := |m.payload|;
    TwoByteFits(n);
    LittleReadsBack(n, 2);
    assert s[..2] == Little(n, 2) && s[3..3 + n] == m.payload && s[3 + n..] == rest;
  }

  /** A stream splits into exactly the messages it was made of. */
  lemma {:induction false} StreamSplits(msgs: seq<Msg>, rest: seq<Byte>, more: seq<Msg>)
    requires AllFramable(msgs) && ReadFrames(rest) == Some(more)
    ensures ReadFrames(Stream(msgs) + rest) == Some(msgs + more)
  {
    if msgs == [] {
      assert Stream(msgs) + rest == rest && msgs + more == more;
    } else {
      var n := |msgs| - 1;
      ReadOneFrame(msgs[n], rest);
      StreamSplits(msgs[..n], Frame(msgs[n]) + rest, [msgs[n]] + more);
      Join(Stream(msgs[..n]), Frame(msgs[n]), rest);
      Rejoin(msgs, more);
    }
  }

  lemma {:induction false} Rejoin(msgs: seq<Msg>, more: seq<Msg>)
    requires msgs != []
    ensures msgs[..|msgs| - 1] + ([msgs[|msgs| - 1]] + more) == msgs + more
  {
  }

  lemma {:induction false} StreamAppend(msgs: seq<Msg>, m: Msg)
    ensures Stream(msgs + [m]) == Stream(msgs) + Frame(m)
  {
    assert (msgs + [m])[..|msgs|] == msgs;
  }

  // ----- A reader that trusts only what the stream has said before -----

  datatype Reader = Reader(formats: map<string, seq<Field>>, subscribed: map<nat, string>, lastTime: nat)

  const Blank := Reader(map[], map[], 0)

  /** One message. Definitions must come before the first subscription; a subscription must name a format and be
      its first instance; a data
      record must be subscribed, have the size its format says, start with its time and not go back in time. */
  function ReadMsg(r: Reader, m: Msg): Option<Reader> {
    if m.kind == 'B' then Some(r)
    else if m.kind == 'P' then if r.subscribed == map[] then Some(r) else None
    else if m.kind == 'F' then
      match ReadFormat(Decoded(m.payload))
      case None => None
      case Some(topic) =>
        if Size(topic.fields).Some? && r.subscribed == map[]
        then Some(r.(formats := r.formats[topic.name := topic.fields]))
        else None
    else if m.kind == 'A' then
      if |m.payload| < 3 || m.payload[0] != 0 then None
      else
        var name := Decoded(m.payload[3..]);
        if name in r.formats then Some(r.(subscribed := r.subscribed[FromLittle(m.payload[1..3]) := name])) else None
    else if m.kind == 'D' then
      if |m.payload| < 10 then None
      else
        var id, time := FromLittle(m.payload[..2]), FromLittle(m.payload[2..10]);
        if id in r.subscribed && r.subscribed[id] in r.formats
           && Size(r.formats[r.subscribed[id]]) == Some(|m.payload| - 2) && time >= r.lastTime
        then Some(r.(lastTime := time))
        else None
    else None
  }

  function ReadAll(r: Reader, msgs: seq<Msg>): Option<Reader> {
    if msgs == [] then Some(r)
    else
      match ReadAll(r, msgs[..|msgs| - 1])
      case None => None
      case Some(before) => ReadMsg(before, msgs[|msgs| - 1])
  }

  lemma {:induction false} ReadAllParts(r: Reader, a: seq<Msg>, b: seq<Msg>)
    requires ReadAll(r, a).Some?
    ensures ReadAll(r, a + b) == ReadAll(ReadAll(r, a).value, b)
  {
    if b == [] {
      assert a + b == a;
    } else {
      var n := |b| - 1;
      ReadAllParts(r, a, b[..n]);
      assert (a + b)[..|a| + n] == a + b[..n];
    }
  }

  // ----- The writer -----

  /** One row of a profile: a time in microseconds, and the four bytes of each float or 32-bit integer. */
  datatype Sample = Sample(
    time: Word,
    rollRate: FourBytes, pitchRate: FourBytes, yawRate: FourBytes,
    accelX: FourBytes, accelY: FourBytes, accelZ: FourBytes,
    voltage: FourBytes, current: FourBytes, remaining: FourBytes,
    lat: FourBytes, lon: FourBytes, alt: FourBytes, sats: Byte, hdop: FourBytes)

  /** A parameter, its name as UTF-8 bytes. */
  datatype Parameter = Parameter(name: seq<Byte>, value: FourBytes)

  /** The length of a parameter's key is packed into one byte. */
  predicate Packable(p: Parameter) {
    |KeyBytes(p)| < 256
  }

  function Header(start: Word): seq<Byte> {
    [0x55, 0x4C, 0x6F, 0x67, 0x01, 0x12, 0x35] + [1] + Little(start, 8)
  }

  function Zeros(n: nat): (b: seq<Byte>)
    ensures |b| == n && forall i :: 0 <= i < n ==> b[i] == 0
  {
    if n == 0 then [] else Zeros(n - 1) + [0]
  }

  /** Compatible flags, incompatible flags and three appended offsets, all zero. */
  const FlagBits := Msg('B', Zeros(8) + Zeros(8) + Zeros(24))

  function FormatMsg(t: Topic): Msg {
    Msg('F', Encoded(FormatText(t)))
  }

  function KeyBytes(p: Parameter): seq<Byte> {
    Encoded("float ") + p.name
  }

  function ParameterMsg(p: Parameter): Msg {
    Msg('P', [|KeyBytes(p)| % 256] + KeyBytes(p) + p.value)
  }

  function SubscriptionMsg(id: nat, name: string): Msg {
    Msg('A', [0] + Little(id, 2) + Encoded(name))
  }

  /** A data record with the time it is sorted by. */
  datatype Item = Item(time: Word, id: nat, body: seq<Byte>)

  function DataMsg(item: Item): Msg {
    Msg('D', Little(item.id, 2) + item.body)
  }

  function RatesItem(s: Sample): Item {
    Item(s.time, 0, Little(s.time, 8) + s.rollRate + s.pitchRate + s.yawRate)
  }

  function AccelItem(s: Sample): Item {
    Item(s.time, 1, Little(s.time, 8) + s.accelX + s.accelY + s.accelZ)
  }

  function BatteryItem(s: Sample): Item {
    Item(s.time, 2, Little(s.time, 8) + s.voltage + s.current + s.remaining)
  }

  function GpsItem(s: Sample): Item {
    Item(s.time, 3, Little(s.time, 8) + s.lat + s.lon + s.alt + [3] + [s.sats] + s.hdop)
  }

  function EstimatorItem(s: Sample): Item {
    Item(s.time, 4, Little(s.time, 8) + [0, 0] + [0x3F, 0])
  }

  /** The records of row `i`; three topics are logged every fourth row only. */
  function RowItems(i: nat, s: Sample): seq<Item> {
    [RatesItem(s), AccelItem(s)] + (if i % 4 == 0 then [BatteryItem(s), GpsItem(s), EstimatorItem(s)] else [])
  }

  function Items(samples: seq<Sample>): seq<Item> {
    if samples == [] then []
    else
      var n := |samples| - 1;
      Items(samples[..n]) + RowItems(n, samples[n])
  }

  function ItemTime(item: Item): int {
    item.time
  }

  // ----- The messages of a log -----

  function FormatMsgs(topics: seq<Topic>): seq<Msg> {
    if topics == [] then [] else FormatMsgs(topics[..|topics| - 1]) + [FormatMsg(topics[|topics| - 1])]
  }

  function ParameterMsgs(params: seq<Parameter>): seq<Msg> {
    if params == [] then [] else ParameterMsgs(params[..|params| - 1]) + [ParameterMsg(params[|params| - 1])]
  }

  function SubscriptionMsgs(topics: seq<Topic>): seq<Msg> {
    if topics == [] then []
    else
      var id := |topics| - 1;
      SubscriptionMsgs(topics[..id]) + [SubscriptionMsg(id, topics[id].name)]
  }

  function DataMsgs(items: seq<Item>): seq<Msg> {
    if items == [] then [] else DataMsgs(items[..|items| - 1]) + [DataMsg(items[|items| - 1])]
  }

  /** Everything before the data. */
  function Definitions(params: seq<Parameter>): seq<Msg> {
    [FlagBits] + FormatMsgs(Topics) + ParameterMsgs(params) + SubscriptionMsgs(Topics)
  }

  function Messages(params: seq<Parameter>, samples: seq<Sample>): seq<Msg> {
    Definitions(params) + DataMsgs(SortedBy(Items(samples), ItemTime))
  }

  /** Writes the header, the definitions, the subscriptions, and the data of all rows in time order. */
  method WriteUlog(start: Word, params: seq<Parameter>, samples: seq<Sample>) returns (out: seq<Byte>)
    ensures out == Header(start) + Stream(Messages(params, samples))
  {
    ghost var msgs;
    out := Header(start);
    out := out + Frame(FlagBits);
    OneMessage(FlagBits);
    out, msgs := WriteFormats(Topics, out, Header(start), [FlagBits]);
    out, msgs := WriteParameters(params, out, Header(start), msgs);
    out, msgs := WriteSubscriptions(Topics, out, Header(start), msgs);
    out := WriteData(samples, out, Header(start), msgs);
  }

  lemma {:induction false} OneMessage(m: Msg)
    ensures Stream([m]) == Frame(m)
  {
    assert [m][..0] == [] && Stream([]) == [];
  }

  /** One more message behind those written so far. */
  lemma {:induction false} WriteOne(header: seq<Byte>, msgs: seq<Msg>, m: Msg)
    ensures header + Stream(msgs) + Frame(m) == header + Stream(msgs + [m])
  {
    StreamAppend(msgs, m);
    Join(header, Stream(msgs), Frame(m));
  }

  method WriteFormats(topics: seq<Topic>, written: seq<Byte>, ghost header: seq<Byte>, ghost before: seq<Msg>)
    returns (out: seq<Byte>, ghost msgs: seq<Msg>)
    requires written == header + Stream(before)
    ensures msgs == before + FormatMsgs(topics) && out == header + Stream(msgs)
  {
    out, msgs := written, before;
    for i := 0 to |topics|
      invariant msgs == before + FormatMsgs(topics[..i])
      invariant out == header + Stream(msgs)
    {
      var m := FormatMsg(topics[i]);
      assert topics[..i + 1][..i] == topics[..i];
      WriteOne(header, msgs, m);
      out, msgs := out + Frame(m), msgs + [m];
    }
    assert topics[..|topics|] == topics;
  }

  method WriteParameters(params: seq<Parameter>, written: seq<Byte>, ghost header: seq<Byte>, ghost before: seq<Msg>)
    returns (out: seq<Byte>, ghost msgs: seq<Msg>)
    requires written == header + Stream(before)
    ensures msgs == before + ParameterMsgs(params) && out == header + Stream(msgs)
  {
    out, msgs := written, before;
    for i := 0 to |params|
      invariant msgs == before + ParameterMsgs(params[..i])
      invariant out == header + Stream(msgs)
    {
      var m := ParameterMsg(params[i]);
      assert params[..i + 1][..i] == params[..i];
      WriteOne(header, msgs, m);
      out, msgs := out + Frame(m), msgs + [m];
    }
    assert params[..|params|] == params;
  }

  method WriteSubscriptions(topics: seq<Topic>, written: seq<Byte>, ghost header: seq<Byte>, ghost before: seq<Msg>)
    returns (out: seq<Byte>, ghost msgs: seq<Msg>)
    requires written == header + Stream(before)
    ensures msgs == before + SubscriptionMsgs(topics) && out == header + Stream(msgs)
  {
    out, msgs := written, before;
    for i := 0 to |topics|
      invariant msgs == before + SubscriptionMsgs(topics[..i])
      invariant out == header + Stream(msgs)
    {
      var m := SubscriptionMsg(i, topics[i].name);
      assert topics[..i + 1][..i] == topics[..i];
      WriteOne(header, msgs, m);
      out, msgs := out + Frame(m), msgs + [m];
    }
    assert topics[..|topics|] == topics;
  }

  /** Collects the records of all rows, sorts them by time, and writes them. */
  method WriteData(samples: seq<Sample>, written: seq<Byte>, ghost header: seq<Byte>, ghost before: seq<Msg>)
    returns (out: seq<Byte>)
    requires written == header + Stream(before)
    ensures out == header + Stream(before + DataMsgs(SortedBy(Items(samples), ItemTime)))
  {
    var items := CollectItems(samples);
    items := SortedBy(items, ItemTime);
    out := WriteItems(items, written, header, before);
  }

  method CollectItems(samples: seq<Sample>) returns (items: seq<Item>)
    ensures items == Items(samples)
  {
    items := [];
    for i := 0 to |samples|
      invariant items == Items(samples[..i])
    {
      assert samples[..i + 1][..i] == samples[..i];
      items := items + [RatesItem(samples[i])];
      items := items + [AccelItem(samples[i])];
      if i % 4 == 0 {
        items := items + [BatteryItem(samples[i])];
        items := items + [GpsItem(samples[i])];
        items := items + [EstimatorItem(samples[i])];
      }
    }
    assert samples[..|samples|] == samples;
  }

  method WriteItems(items: seq<Item>, written: seq<Byte>, ghost header: seq<Byte>, ghost before: seq<Msg>)
    returns (out: seq<Byte>)
    requires written == header + Stream(before)
    ensures out == header + Stream(before + DataMsgs(items))
  {
    out := written;
    ghost var msgs := before;
    for i := 0 to |items|
      invariant msgs == before + DataMsgs(items[..i])
      invariant out == header + Stream(msgs)
    {
      var m := DataMsg(items[i]);
      assert items[..i + 1][..i] == items[..i];
      WriteOne(header, msgs, m);
      out, msgs := out + Frame(m), msgs + [m];
    }
    assert items[..|items|] == items;
  }

  // ----- The stream describes itself -----

  /** The fields the formats of these topics announce. */
  function FieldsOf(topics: seq<Topic>): map<string, seq<Field>> {
    if topics == [] then map[]
    else
      var n := |topics| - 1;
      FieldsOf(topics[..n])[topics[n].name := topics[n].fields]
  }

  /** The topics subscribed under their positions. */
  function Names(topics: seq<Topic>): map<nat, string> {
    if topics == [] then map[]
    else
      var n := |topics| - 1;
      Names(topics[..n])[n := topics[n].name]
  }

  lemma {:induction false} ReadLast(r: Reader, msgs: seq<Msg>, before: Reader, m: Msg, after: Reader)
    requires ReadAll(r, msgs) == Some(before) && ReadMsg(before, m) == Some(after)
    requires AllFramable(msgs) && Framable(m)
    ensures ReadAll(r, msgs + [m]) == Some(after) && AllFramable(msgs + [m])
  {
    assert (msgs + [m])[..|msgs|] == msgs;
  }

  lemma {:induction false} FormatsAreRead(topics: seq<Topic>)
    requires forall i :: 0 <= i < |topics| ==> Sound(topics[i])
    ensures ReadAll(Blank, FormatMsgs(topics)) == Some(Reader(FieldsOf(topics), map[], 0))
    ensures AllFramable(FormatMsgs(topics))
  {
    if topics != [] {
      var n := |topics| - 1;
      FormatsAreRead(topics[..n]);
      FormatMsgIsRead(Reader(FieldsOf(topics[..n]), map[], 0), topics[n]);
      assert FormatMsgs(topics)[..|FormatMsgs(topics)| - 1] == FormatMsgs(topics[..n]);
    }
  }

  lemma {:induction false} FormatMsgIsRead(r: Reader, t: Topic)
    requires Sound(t) && r.subscribed == map[]
    ensures ReadMsg(r, FormatMsg(t)) == Some(r.(formats := r.formats[t.name := t.fields]))
    ensures Framable(FormatMsg(t))
  {
    FormatReadsBack(t);
    FormatFits(t);
    DecodedEncoded(FormatText(t));
  }

  lemma {:induction false} ParametersAreRead(r: Reader, params: seq<Parameter>)
    requires r.subscribed == map[]
    requires forall i :: 0 <= i < |params| ==> Packable(params[i])
    ensures ReadAll(r, ParameterMsgs(params)) == Some(r)
    ensures AllFramable(ParameterMsgs(params))
  {
    if params != [] {
      var n := |params| - 1;
      ParametersAreRead(r, params[..n]);
      assert ParameterMsgs(params)[..|ParameterMsgs(params)| - 1] == ParameterMsgs(params[..n]);
    }
  }

  lemma {:induction false} SubscriptionsAreRead(r: Reader, topics: seq<Topic>)
    requires r.subscribed == map[] && |topics| < 0x1_0000
    requires forall i :: 0 <= i < |topics| ==> Sound(topics[i]) && topics[i].name in r.formats
    ensures ReadAll(r, SubscriptionMsgs(topics)) == Some(r.(subscribed := Names(topics)))
    ensures AllFramable(SubscriptionMsgs(topics))
  {
    if topics != [] {
      var n := |topics| - 1;
      SubscriptionsAreRead(r, topics[..n]);
      SubscriptionIsRead(r.(subscribed := Names(topics[..n])), n, topics[n].name);
      assert SubscriptionMsgs(topics)[..|SubscriptionMsgs(topics)| - 1] == SubscriptionMsgs(topics[..n]);
    }
  }

  lemma {:induction false} SubscriptionIsRead(r: Reader, id: nat, name: string)
    requires id < 0x1_0000 && IsAscii(name) && |name| < 0x1000 && name in r.formats
    ensures ReadMsg(r, SubscriptionMsg(id, name)) == Some(r.(subscribed := r.subscribed[id := name]))
    ensures Framable(SubscriptionMsg(id, name))
  {
    var p := SubscriptionMsg(id, name).payload;
    assert p[1..3] == Little(id, 2) && p[3..] == Encoded(name);
    TwoByteFits(id);
    LittleReadsBack(id, 2);
    DecodedEncoded(name);
  }

  /** A record with a known id, the announced size, and its own time in front. */
  ghost predicate Announced(item: Item, formats: map<string, seq<Field>>, names: map<nat, string>) {
    && item.id < 0x1_0000
    && item.id in names && names[item.id] in formats
    && 8 <= |item.body| < 0x1000 && Size(formats[names[item.id]]) == Some(|item.body|)
    && item.body[..8] == Little(item.time, 8)
  }

  lemma {:induction false} DataIsRead(r: Reader, items: seq<Item>)
    requires InOrder(items, ItemTime) && r.lastTime == 0
    requires forall i :: 0 <= i < |items| ==> Announced(items[i], r.formats, r.subscribed)
    ensures ReadAll(r, DataMsgs(items))
         == Some(r.(lastTime := if items == [] then 0 else items[|items| - 1].time))
    ensures AllFramable(DataMsgs(items))
  {
    if items != [] {
      var n := |items| - 1;
      var before := r.(lastTime := if n == 0 then 0 else items[n - 1].time);
      DataIsRead(r, items[..n]);
      DataMsgIsRead(before, items[n]);
      ReadLast(r, DataMsgs(items[..n]), before, DataMsg(items[n]), r.(lastTime := items[n].time));
    }
  }

  lemma {:induction false} DataMsgIsRead(r: Reader, item: Item)
    requires Announced(item, r.formats, r.subscribed) && item.time >= r.lastTime
    ensures ReadMsg(r, DataMsg(item)) == Some(r.(lastTime := item.time))
    ensures Framable(DataMsg(item))
  {
    var p := DataMsg(item).payload;
    assert p[..2] == Little(item.id, 2) && p[2..10] == item.body[..8];
    TwoByteFits(item.id);
    LittleReadsBack(item.id, 2);
    EightByteFits(item.time);
    LittleReadsBack(item.time, 8);
  }

  lemma {:induction false} TopicIsSound(id: nat)
    requires id < |Topics|
    ensures Sound(Topics[id])
  {
    if id == 0 {
      RatesIsSound();
    } else if id == 1 {
      AccelIsSound();
    } else if id == 2 {
      BatteryIsSound();
    } else if id == 3 {
      GpsIsSound();
    } else {
      EstimatorIsSound();
    }
  }

  lemma {:induction false} NamesAt(topics: seq<Topic>, id: nat)
    requires id < |topics|
    ensures id in Names(topics) && Names(topics)[id] == topics[id].name
  {
    var n := |topics| - 1;
    if id < n {
      NamesAt(topics[..n], id);
    }
  }

  lemma {:induction false} FieldsAt(topics: seq<Topic>, id: nat)
    requires id < |topics|
    requires forall i, j :: 0 <= i < j < |topics| ==> topics[i].name != topics[j].name
    ensures topics[id].name in FieldsOf(topics) && FieldsOf(topics)[topics[id].name] == topics[id].fields
  {
    var n := |topics| - 1;
    if id < n {
      FieldsAt(topics[..n], id);
    }
  }

  lemma {:induction false} TopicNamesDiffer()
    ensures forall i, j :: 0 <= i < j < |Topics| ==> Topics[i].name != Topics[j].name
  {
    assert |Rates.name| == 24 && |Accel.name| == 12 && |Battery.name| == 14;
    assert |Gps.name| == 20 && |Estimator.name| == 16;
  }

  /** A record of a topic's size, with its own time in front, is announced by the topics. */
  lemma {:induction false} ItemIsAnnounced(item: Item)
    requires item.id < |Topics| && Size(Topics[item.id].fields) == Some(|item.body|)
    requires 8 <= |item.body| < 0x1000 && item.body[..8] == Little(item.time, 8)
    ensures Announced(item, FieldsOf(Topics), Names(Topics))
  {
    TopicNamesDiffer();
    NamesAt(Topics, item.id);
    FieldsAt(Topics, item.id);
  }

  lemma {:induction false} RatesIsAnnounced(s: Sample)
    ensures Announced(RatesItem(s), FieldsOf(Topics), Names(Topics))
  {
    RatesIsSound();
    assert RatesItem(s).body[..8] == Little(s.time, 8);
    ItemIsAnnounced(RatesItem(s));
  }

  lemma {:induction false} AccelIsAnnounced(s: Sample)
    ensures Announced(AccelItem(s), FieldsOf(Topics), Names(Topics))
  {
    AccelIsSound();
    assert AccelItem(s).body[..8] == Little(s.time, 8);
    ItemIsAnnounced(AccelItem(s));
  }

  lemma {:induction false} BatteryIsAnnounced(s: Sample)
    ensures Announced(BatteryItem(s), FieldsOf(Topics), Names(Topics))
  {
    BatteryIsSound();
    assert BatteryItem(s).body[..8] == Little(s.time, 8);
    ItemIsAnnounced(BatteryItem(s));
  }

  lemma {:induction false} GpsIsAnnounced(s: Sample)
    ensures Announced(GpsItem(s), FieldsOf(Topics), Names(Topics))
  {
    GpsIsSound();
    assert GpsItem(s).body[..8] == Little(s.time, 8);
    ItemIsAnnounced(GpsItem(s));
  }

  lemma {:induction false} EstimatorIsAnnounced(s: Sample)
    ensures Announced(EstimatorItem(s), FieldsOf(Topics), Names(Topics))
  {
    EstimatorIsSound();
    assert EstimatorItem(s).body[..8] == Little(s.time, 8);
    ItemIsAnnounced(EstimatorItem(s));
  }

  lemma {:induction false} RowIsAnnounced(i: nat, s: Sample)
    ensures forall x :: x in RowItems(i, s) ==> Announced(x, FieldsOf(Topics), Names(Topics))
  {
    RatesIsAnnounced(s);
    AccelIsAnnounced(s);
    BatteryIsAnnounced(s);
    GpsIsAnnounced(s);
    EstimatorIsAnnounced(s);
    forall x | x in RowItems(i, s) ensures Announced(x, FieldsOf(Topics), Names(Topics)) {
      assert x == RatesItem(s) || x == AccelItem(s) || x == BatteryItem(s) || x == GpsItem(s) || x == EstimatorItem(s);
    }
  }

  lemma {:induction false} ItemsAreAnnounced(samples: seq<Sample>)
    ensures forall x :: x in Items(samples) ==> Announced(x, FieldsOf(Topics), Names(Topics))
  {
    if samples != [] {
      var n := |samples| - 1;
      ItemsAreAnnounced(samples[..n]);
      RowIsAnnounced(n, samples[n]);
    }
  }

  /** For every profile: the bytes behind the sixteen of the header split, by their own length fields, into exactly
      the messages written, and a reader that trusts only what the stream has said accepts all of them: every data
      record was subscribed before under a name whose format came before, fills exactly the size of that format's
      fields, and no record goes back in time. */
  lemma {:induction false} LogDescribesItself(start: Word, params: seq<Parameter>, samples: seq<Sample>)
    requires forall i :: 0 <= i < |params| ==> Packable(params[i])
    ensures |Header(start)| == 16
    ensures ReadFrames(Stream(Messages(params, samples))) == Some(Messages(params, samples))
    ensures ReadAll(Blank, Messages(params, samples)).Some?
  {
    var msgs := Messages(params, samples);
    var r := MessagesAreRead(params, samples);
    StreamSplits(msgs, [], []);
    assert Stream(msgs) + [] == Stream(msgs) && msgs + [] == msgs;
  }

  lemma {:induction false} MessagesAreRead(params: seq<Parameter>, samples: seq<Sample>) returns (r: Reader)
    requires forall i :: 0 <= i < |params| ==> Packable(params[i])
    ensures ReadAll(Blank, Messages(params, samples)) == Some(r) && AllFramable(Messages(params, samples))
    ensures r.formats == FieldsOf(Topics) && r.subscribed == Names(Topics)
  {
    r := DefinitionsAreRead(params);
    var items := SortedBy(Items(samples), ItemTime);
    SortOrders(Items(samples), ItemTime);
    ItemsAreAnnounced(samples);
    forall i | 0 <= i < |items| ensures Announced(items[i], r.formats, r.subscribed) {
      assert items[i] in items;
    }
    DataIsRead(r, items);
    ReadAllParts(Blank, Definitions(params), DataMsgs(items));
    r := r.(lastTime := if items == [] then 0 else items[|items| - 1].time);
  }

  lemma {:induction false} DefinitionsAreRead(params: seq<Parameter>) returns (r: Reader)
    requires forall i :: 0 <= i < |params| ==> Packable(params[i])
    ensures ReadAll(Blank, Definitions(params)) == Some(r) && AllFramable(Definitions(params))
    ensures r == Reader(FieldsOf(Topics), Names(Topics), 0)
  {
    forall i: nat | i < |Topics| ensures Sound(Topics[i]) {
      TopicIsSound(i);
    }
    TopicNamesDiffer();
    r := DefinitionsOfAreRead(Topics, params);
  }

  lemma {:induction false} DefinitionsOfAreRead(topics: seq<Topic>, params: seq<Parameter>) returns (r: Reader)
    requires forall i :: 0 <= i < |params| ==> Packable(params[i])
    requires |topics| < 0x1_0000 && forall i: nat :: i < |topics| ==> Sound(topics[i])
    requires forall i, j :: 0 <= i < j < |topics| ==> topics[i].name != topics[j].name
    ensures r == Reader(FieldsOf(topics), Names(topics), 0)
    ensures var msgs := [FlagBits] + FormatMsgs(topics) + ParameterMsgs(params) + SubscriptionMsgs(topics);
            ReadAll(Blank, msgs) == Some(r) && AllFramable(msgs)
  {
    r := Reader(FieldsOf(topics), map[], 0);
    FlagsAreRead();
    FormatsAreRead(topics);
    ParametersAreRead(r, params);
    forall i | 0 <= i < |topics| ensures topics[i].name in r.formats {
      FieldsAt(topics, i);
    }
    SubscriptionsAreRead(r, topics);
    ReadInParts(Blank, [FlagBits], Blank, FormatMsgs(topics), r, ParameterMsgs(params), r, SubscriptionMsgs(topics));
    r := r.(subscribed := Names(topics));
  }

  lemma {:induction false} ReadInParts(r: Reader, a: seq<Msg>, ra: Reader, b: seq<Msg>, rb: Reader, c: seq<Msg>,
                                       rc: Reader, d: seq<Msg>)
    requires ReadAll(r, a) == Some(ra) && ReadAll(ra, b) == Some(rb) && ReadAll(rb, c) == Some(rc)
    requires AllFramable(a) && AllFramable(b) && AllFramable(c) && AllFramable(d)
    ensures ReadAll(r, a + b + c + d) == ReadAll(rc, d) && AllFramable(a + b + c + d)
  {
    ReadAllParts(r, a, b);
    ReadAllParts(r, a + b, c);
    ReadAllParts(r, a + b + c, d);
  }

  lemma {:induction false} FlagsAreRead()
    ensures ReadAll(Blank, [FlagBits]) == Some(Blank) && Framable(FlagBits)
  {
    assert [FlagBits][..0] == [];
  }
}
