/** The values in a ULog stream: a decoder that knows nothing but the stream, and what it gets out of a written log. */
module FlightData {
  import opened Bytes
  import opened FlightLog
  import opened LogFormat
  import opened LogTopics
  import opened Sequences
  import opened Strings
  import opened Words
  import opened Wrappers

  // ----- The decoder -----

  /** A log: its version, its start time, its messages, and the formats and subscriptions they announce. */
  datatype Ulog = Ulog(version: Byte, start: nat, msgs: seq<Msg>, reader: Reader)

  const Magic: seq<Byte> := [0x55, 0x4C, 0x6F, 0x67, 0x01, 0x12, 0x35]

  /** Forty flag bytes, none set, in front. */
  predicate NoFlags(msgs: seq<Msg>) {
    msgs != [] && msgs[0].kind == 'B' && |msgs[0].payload| == 40 && forall b :: b in msgs[0].payload ==> b == 0
  }

  function ReadUlog(out: seq<Byte>): Option<Ulog> {
    if |out| < 16 || out[..7] != Magic then None
    else
      match ReadFrames(out[16..])
      case None => None
      case Some(msgs) =>
        match ReadAll(Blank, msgs)
        case None => None
        case Some(reader) => Some(Ulog(out[7], FromLittle(out[8..16]), msgs, reader))
  }

  /** The bytes of a field, found by stepping over the fields before it by the sizes of their types. */
  function FieldOf(fields: seq<Field>, name: string, body: seq<Byte>): Option<seq<Byte>> {
    if fields == [] then None
    else
      match TypeSize(fields[0].typ)
      case None => None
      case Some(n) =>
        if |body| < n then None
        else if fields[0].name == name then Some(body[..n])
        else FieldOf(fields[1..], name, body[n..])
  }

  /** A data record subscribed under the topic's name. */
  predicate IsRecordOf(r: Reader, m: Msg, topic: string) {
    && m.kind == 'D' && |m.payload| >= 2
    && FromLittle(m.payload[..2]) in r.subscribed && r.subscribed[FromLittle(m.payload[..2])] == topic
  }

  /** A topic's field in all its records, in the order of the stream. */
  function Column(r: Reader, msgs: seq<Msg>, topic: string, field: string): seq<Option<seq<Byte>>> {
    if msgs == [] || topic !in r.formats then []
    else
      var m := msgs[|msgs| - 1];
      Column(r, msgs[..|msgs| - 1], topic, field)
      + (if IsRecordOf(r, m, topic) then [FieldOf(r.formats[topic], field, m.payload[2..])] else [])
  }

  /** A parameter's name and value, parted by the key's length byte. */
  function ReadParameter(payload: seq<Byte>): Option<Parameter> {
    if payload == [] then None
    else
      var n: nat := payload[0];
      if n < 6 || |payload| != 1 + n + 4 || Decoded(payload[1..7]) != "float " then None
      else Some(Parameter(payload[7..1 + n], payload[1 + n..]))
  }

  function Parameters(msgs: seq<Msg>): seq<Option<Parameter>> {
    if msgs == [] then []
    else
      var m := msgs[|msgs| - 1];
      Parameters(msgs[..|msgs| - 1]) + if m.kind == 'P' then [ReadParameter(m.payload)] else []
  }

  // ----- What a profile holds -----

  /** The quantities of a row, the logged constants included. */
  datatype Quantity =
    | Time
    | RollRate | PitchRate | YawRate
    | AccelX | AccelY | AccelZ
    | Voltage | Current | Remaining
    | Lat | Lon | Alt | FixType | Sats | Hdop
    | InnovationFlags | SolutionFlags

  function Value(q: Quantity, s: Sample): seq<Byte> {
    match q
    case Time => Little(s.time, 8)
    case RollRate => s.rollRate
    case PitchRate => s.pitchRate
    case YawRate => s.yawRate
    case AccelX => s.accelX
    case AccelY => s.accelY
    case AccelZ => s.accelZ
    case Voltage => s.voltage
    case Current => s.current
    case Remaining => s.remaining
    case Lat => s.lat
    case Lon => s.lon
    case Alt => s.alt
    case FixType => [3]
    case Sats => [s.sats]
    case Hdop => s.hdop
    case InnovationFlags => [0, 0]
    case SolutionFlags => [0x3F, 0]
  }

  /** One quantity of these rows, in order. */
  function Picked(rows: seq<Sample>, q: Quantity): seq<Option<seq<Byte>>> {
    if rows == [] then [] else Picked(rows[..|rows| - 1], q) + [Some(Value(q, rows[|rows| - 1]))]
  }

  function RowTime(s: Sample): int {
    s.time
  }

  /** The rows that the topic of this id logs: all of them, or rows 0, 4, 8 and so on. */
  function RowsOf(id: nat, samples: seq<Sample>): seq<Sample> {
    if id < 2 then samples else EveryFourth(samples)
  }

  // ----- From rows to the records of one topic -----

  function ItemOf(id: nat, s: Sample): Item
    requires id < 5
  {
    if id == 0 then RatesItem(s)
    else if id == 1 then AccelItem(s)
    else if id == 2 then BatteryItem(s)
    else if id == 3 then GpsItem(s)
    else EstimatorItem(s)
  }

  type TopicId = id: nat | id < 5

  function Maker(id: TopicId): Sample -> Item {
    (s: Sample) => ItemOf(id, s)
  }

  function HasId(id: TopicId): Item -> bool {
    (x: Item) => x.id == id
  }

  lemma {:induction false} KeptById(items: seq<Item>, id: TopicId)
    requires forall i :: 0 <= i < |items| ==> items[i].id == i
    ensures Kept(items, HasId(id)) == if id < |items| then [items[id]] else []
  {
    if items != [] {
      KeptById(items[..|items| - 1], id);
    }
  }

  lemma {:induction false} RowOfTopic(i: nat, s: Sample, id: TopicId)
    ensures Kept(RowItems(i, s), HasId(id)) == if id < 2 || i % 4 == 0 then [ItemOf(id, s)] else []
  {
    var items := RowItems(i, s);
    RowAt(i, s);
    KeptById(items, id);
  }

  lemma {:induction false} RowAt(i: nat, s: Sample)
    ensures var items := RowItems(i, s);
            |items| == (if i % 4 == 0 then 5 else 2)
            && forall k: nat :: k < |items| ==> items[k].id == k && items[k] == ItemOf(k, s)
  {
  }

  lemma {:induction false} RowsStep(id: nat, samples: seq<Sample>)
    requires samples != []
    ensures var n := |samples| - 1;
            RowsOf(id, samples) == RowsOf(id, samples[..n]) + if id < 2 || n % 4 == 0 then [samples[n]] else []
  {
    var n := |samples| - 1;
    assert samples == samples[..n] + [samples[n]];
    FourthStep(samples[..n], samples[n]);
  }

  /** The records of one topic are made of the rows it logs. */
  lemma {:induction false} ItemsOfTopic(samples: seq<Sample>, id: TopicId)
    ensures Kept(Items(samples), HasId(id)) == Mapped(RowsOf(id, samples), Maker(id))
  {
    if samples == [] {
      assert RowsOf(id, samples) == [];
    } else {
      var n := |samples| - 1;
      ItemsOfTopic(samples[..n], id);
      RowsStep(id, samples);
      KeptTogether(Items(samples[..n]), RowItems(n, samples[n]), HasId(id));
      RowOfTopic(n, samples[n], id);
      MappedMore(RowsOf(id, samples[..n]), samples[n], id < 2 || n % 4 == 0, Maker(id));
    }
  }

  lemma {:induction false} SortedItemsOfTopic(samples: seq<Sample>, id: TopicId)
    ensures Kept(SortedBy(Items(samples), ItemTime), HasId(id))
         == Mapped(SortedBy(RowsOf(id, samples), RowTime), Maker(id))
  {
    KeptSorted(Items(samples), ItemTime, HasId(id));
    ItemsOfTopic(samples, id);
    forall s: Sample ensures ItemTime(Maker(id)(s)) == RowTime(s) {
    }
    SortedMapped(RowsOf(id, samples), RowTime, Maker(id), ItemTime);
  }

  // ----- Reading the records of one topic -----

  /** One field of these records, by the fields of their topic. */
  function Fields(items: seq<Item>, fields: seq<Field>, field: string): seq<Option<seq<Byte>>> {
    if items == [] then []
    else Fields(items[..|items| - 1], fields, field) + [FieldOf(fields, field, items[|items| - 1].body)]
  }

  lemma {:induction false} FieldsLast(items: seq<Item>, last: Item, fields: seq<Field>, field: string)
    ensures Fields(items + [last], fields, field) == Fields(items, fields, field) + [FieldOf(fields, field, last.body)]
  {
    assert (items + [last])[..|items|] == items;
  }

  lemma {:induction false} ColumnTogether(r: Reader, a: seq<Msg>, b: seq<Msg>, topic: string, field: string)
    ensures Column(r, a + b, topic, field) == Column(r, a, topic, field) + Column(r, b, topic, field)
  {
    if b == [] {
      assert a + b == a;
    } else {
      var n := |b| - 1;
      ColumnTogether(r, a, b[..n], topic, field);
      assert (a + b)[..|a| + n] == a + b[..n];
    }
  }

  lemma {:induction false} NoRecords(r: Reader, msgs: seq<Msg>, topic: string, field: string)
    requires forall i :: 0 <= i < |msgs| ==> msgs[i].kind != 'D'
    ensures Column(r, msgs, topic, field) == []
  {
    if msgs != [] {
      NoRecords(r, msgs[..|msgs| - 1], topic, field);
    }
  }

  predicate Announces(r: Reader) {
    r.formats == FieldsOf(Topics) && r.subscribed == Names(Topics)
  }

  /** A record is of the topic whose position is its id. */
  lemma {:induction false} RecordTopic(r: Reader, item: Item, id: TopicId)
    requires Announces(r) && item.id < 5
    ensures IsRecordOf(r, DataMsg(item), Topics[id].name) <==> item.id == id
    ensures Topics[id].name in r.formats && r.formats[Topics[id].name] == Topics[id].fields
  {
    TopicNamesDiffer();
    NamesAt(Topics, item.id);
    FieldsAt(Topics, id);
    var p := DataMsg(item).payload;
    assert p[..2] == Little(item.id, 2);
    TwoByteFits(item.id);
    LittleReadsBack(item.id, 2);
  }

  /** Under this topic's name the reader finds these fields and exactly the records of this id. */
  ghost predicate Routes(r: Reader, id: nat, topic: string, fields: seq<Field>) {
    && topic in r.formats && r.formats[topic] == fields
    && forall x: Item :: x.id < 5 ==> (IsRecordOf(r, DataMsg(x), topic) <==> x.id == id)
  }

  lemma {:induction false} RoutesTopic(r: Reader, id: TopicId)
    requires Announces(r)
    ensures Routes(r, id, Topics[id].name, Topics[id].fields)
  {
    RecordTopic(r, EmptyItem, id);
    forall x: Item | x.id < 5 ensures IsRecordOf(r, DataMsg(x), Topics[id].name) <==> x.id == id {
      RecordTopic(r, x, id);
    }
  }

  const EmptyItem := Item(0, 0, [])

  lemma {:induction false} ColumnOfData(r: Reader, items: seq<Item>, id: TopicId, topic: string, fields: seq<Field>,
                                        field: string)
    requires Routes(r, id, topic, fields) && forall i :: 0 <= i < |items| ==> items[i].id < 5
    ensures Column(r, DataMsgs(items), topic, field) == Fields(Kept(items, HasId(id)), fields, field)
  {
    if items != [] {
      var n := |items| - 1;
      ColumnOfData(r, items[..n], id, topic, fields, field);
      ColumnLast(r, DataMsgs(items[..n]), DataMsg(items[n]), topic, field);
      assert DataMsg(items[n]).payload[2..] == items[n].body;
      var kept := Kept(items[..n], HasId(id));
      FieldsLast(kept, items[n], fields, field);
      assert Kept(items, HasId(id)) == if items[n].id == id then kept + [items[n]] else kept;
      assert Column(r, DataMsgs(items[..n]), topic, field) + [] == Column(r, DataMsgs(items[..n]), topic, field);
    }
  }

  lemma {:induction false} ColumnLast(r: Reader, msgs: seq<Msg>, m: Msg, topic: string, field: string)
    requires topic in r.formats
    ensures Column(r, msgs + [m], topic, field)
         == Column(r, msgs, topic, field)
            + if IsRecordOf(r, m, topic) then [FieldOf(r.formats[topic], field, m.payload[2..])] else []
  {
    assert (msgs + [m])[..|msgs|] == msgs;
  }

  lemma {:induction false} ItemsHaveIds(samples: seq<Sample>)
    ensures forall x :: x in Items(samples) ==> x.id < 5
  {
    if samples != [] {
      ItemsHaveIds(samples[..|samples| - 1]);
    }
  }

  lemma {:induction false} DefinitionsHoldNoData(params: seq<Parameter>)
    ensures forall i :: 0 <= i < |Definitions(params)| ==> Definitions(params)[i].kind != 'D'
  {
    FormatsHoldNoData(Topics);
    ParametersHoldNoData(params);
    SubscriptionsHoldNoData(Topics);
  }

  lemma {:induction false} FormatsHoldNoData(topics: seq<Topic>)
    ensures forall m :: m in FormatMsgs(topics) ==> m.kind == 'F'
  {
    if topics != [] {
      FormatsHoldNoData(topics[..|topics| - 1]);
    }
  }

  lemma {:induction false} ParametersHoldNoData(params: seq<Parameter>)
    ensures forall m :: m in ParameterMsgs(params) ==> m.kind == 'P'
  {
    if params != [] {
      ParametersHoldNoData(params[..|params| - 1]);
    }
  }

  lemma {:induction false} SubscriptionsHoldNoData(topics: seq<Topic>)
    ensures forall m :: m in SubscriptionMsgs(topics) ==> m.kind == 'A'
  {
    if topics != [] {
      SubscriptionsHoldNoData(topics[..|topics| - 1]);
    }
  }

  /** A topic's column in the whole log is that field of the records of the rows it logs, in time order. */
  lemma {:induction false} ColumnOfLog(r: Reader, params: seq<Parameter>, samples: seq<Sample>, id: TopicId,
                                       field: string)
    requires Announces(r)
    ensures Column(r, Messages(params, samples), Topics[id].name, field)
         == Fields(Mapped(SortedBy(RowsOf(id, samples), RowTime), Maker(id)), Topics[id].fields, field)
  {
    var items := SortedBy(Items(samples), ItemTime);
    ItemsHaveIds(samples);
    SortOrders(Items(samples), ItemTime);
    forall i | 0 <= i < |items| ensures items[i].id < 5 {
      assert items[i] in items;
    }
    DefinitionsHoldNoData(params);
    NoRecords(r, Definitions(params), Topics[id].name, field);
    ColumnTogether(r, Definitions(params), DataMsgs(items), Topics[id].name, field);
    RoutesTopic(r, id);
    ColumnOfData(r, items, id, Topics[id].name, Topics[id].fields, field);
    SortedItemsOfTopic(samples, id);
  }

  // ----- The fields of a record -----

  function Values(qs: seq<Quantity>, s: Sample): seq<seq<Byte>> {
    seq(|qs|, i requires 0 <= i < |qs| => Value(qs[i], s))
  }

  /** The fields are of different names and have the widths of these quantities. */
  predicate Lays(fields: seq<Field>, qs: seq<Quantity>) {
    && |fields| == |qs|
    && (forall i, j :: 0 <= i < j < |fields| ==> fields[i].name != fields[j].name)
    && (forall i :: 0 <= i < |fields| ==> TypeSize(fields[i].typ) == Some(Width(qs[i])))
  }

  function Width(q: Quantity): nat {
    match q
    case Time => 8
    case FixType => 1
    case Sats => 1
    case InnovationFlags => 2
    case SolutionFlags => 2
    case _ => 4
  }

  lemma {:induction false} ValueWidth(q: Quantity, s: Sample)
    ensures |Value(q, s)| == Width(q)
  {
  }

  lemma {:induction false} FieldAt(fields: seq<Field>, parts: seq<seq<Byte>>, j: nat)
    requires j < |fields| == |parts|
    requires forall i, k :: 0 <= i < k < |fields| ==> fields[i].name != fields[k].name
    requires forall i :: 0 <= i < |fields| ==> TypeSize(fields[i].typ) == Some(|parts[i]|)
    ensures FieldOf(fields, fields[j].name, Flat(parts)) == Some(parts[j])
  {
    FlatSplits(parts);
    if j > 0 {
      FieldAt(fields[1..], parts[1..], j - 1);
      assert fields[0].name != fields[j].name && fields[1..][j - 1] == fields[j];
    }
  }

  /** What the topic of this id logs of a row, in the order of its fields. */
  function Quantities(id: TopicId): seq<Quantity> {
    if id == 0 then [Time, RollRate, PitchRate, YawRate]
    else if id == 1 then [Time, AccelX, AccelY, AccelZ]
    else if id == 2 then [Time, Voltage, Current, Remaining]
    else if id == 3 then [Time, Lat, Lon, Alt, FixType, Sats, Hdop]
    else [Time, InnovationFlags, SolutionFlags]
  }

  lemma {:induction false} GpsHolds(s: Sample)
    ensures GpsItem(s).body == Flat(Values([Time, Lat, Lon, Alt, FixType, Sats, Hdop], s))
  {
    FlatSeven(Values([Time, Lat, Lon, Alt, FixType, Sats, Hdop], s));
  }

  lemma {:induction false} FloatsHold(s: Sample)
    ensures RatesItem(s).body == Flat(Values([Time, RollRate, PitchRate, YawRate], s))
    ensures AccelItem(s).body == Flat(Values([Time, AccelX, AccelY, AccelZ], s))
    ensures BatteryItem(s).body == Flat(Values([Time, Voltage, Current, Remaining], s))
  {
    FlatFour(Values([Time, RollRate, PitchRate, YawRate], s));
    FlatFour(Values([Time, AccelX, AccelY, AccelZ], s));
    FlatFour(Values([Time, Voltage, Current, Remaining], s));
  }

  lemma {:induction false} EstimatorHolds(s: Sample)
    ensures EstimatorItem(s).body == Flat(Values([Time, InnovationFlags, SolutionFlags], s))
  {
    var p := Values([Time, InnovationFlags, SolutionFlags], s);
    FlatThree(p, 0);
    assert p[0..] == p;
  }

  lemma {:induction false} ItemHolds(id: TopicId, s: Sample)
    ensures ItemOf(id, s).body == Flat(Values(Quantities(id), s))
  {
    FloatsHold(s);
    GpsHolds(s);
    EstimatorHolds(s);
  }

  lemma {:induction false} RecordHolds(id: TopicId, s: Sample, fields: seq<Field>, j: nat)
    requires Lays(fields, Quantities(id)) && j < |fields|
    ensures FieldOf(fields, fields[j].name, ItemOf(id, s).body) == Some(Value(Quantities(id)[j], s))
  {
    var parts := Values(Quantities(id), s);
    ItemHolds(id, s);
    forall i | 0 <= i < |fields| ensures |parts[i]| == Width(Quantities(id)[i]) {
      ValueWidth(Quantities(id)[i], s);
    }
    FieldAt(fields, parts, j);
  }

  /** The records of some rows hold, under a field's name, the quantity at the field's place. */
  lemma {:induction false} FieldsArePicked(rows: seq<Sample>, id: TopicId, fields: seq<Field>, j: nat)
    requires Lays(fields, Quantities(id)) && j < |fields|
    ensures Fields(Mapped(rows, Maker(id)), fields, fields[j].name) == Picked(rows, Quantities(id)[j])
  {
    if rows != [] {
      var n := |rows| - 1;
      FieldsArePicked(rows[..n], id, fields, j);
      FieldsLast(Mapped(rows[..n], Maker(id)), ItemOf(id, rows[n]), fields, fields[j].name);
      RecordHolds(id, rows[n], fields, j);
    }
  }

  lemma {:induction false} RatesLays()
    ensures Lays(Rates.fields, Quantities(0))
  {
    var f := Rates.fields;
    assert f[0].name[0] == 't' && f[1].name[0] == 'r' && f[2].name[0] == 'p' && f[3].name[0] == 'y';
  }

  lemma {:induction false} AccelLays()
    ensures Lays(Accel.fields, Quantities(1))
  {
    var f := Accel.fields;
    assert f[0].name[0] == 't' && f[1].name[0] == 'x' && f[2].name[0] == 'y' && f[3].name[0] == 'z';
  }

  lemma {:induction false} BatteryLays()
    ensures Lays(Battery.fields, Quantities(2))
  {
    var f := Battery.fields;
    assert f[0].name[0] == 't' && f[1].name[0] == 'v' && f[2].name[0] == 'c' && f[3].name[0] == 'r';
  }

  lemma {:induction false} SevenDiffer(f: seq<Field>)
    requires |f| == 7 && |f[0].name| == 9 && |f[1].name| == |f[2].name| == |f[3].name| == 3
    requires |f[4].name| == 8 && |f[5].name| == 15 && |f[6].name| == 4
    requires f[1].name[2] != f[2].name[2] && f[2].name[2] != f[3].name[2] && f[1].name[0] != f[3].name[0]
    ensures forall i, j :: 0 <= i < j < |f| ==> f[i].name != f[j].name
  {
  }

  lemma {:induction false} GpsNamesDiffer()
    ensures forall i, j :: 0 <= i < j < |Gps.fields| ==> Gps.fields[i].name != Gps.fields[j].name
  {
    var f := Gps.fields;
    assert f[1].name[2] == 't' && f[2].name[2] == 'n' && f[3].name[2] == 't';
    assert f[1].name[0] == 'l' && f[3].name[0] == 'a';
    SevenDiffer(f);
  }

  lemma {:induction false} GpsWidths()
    ensures forall i :: 0 <= i < 7 ==> TypeSize(Gps.fields[i].typ) == Some(Width(Quantities(3)[i]))
  {
    var f := Gps.fields;
    assert TypeSize(f[0].typ) == Some(8) && TypeSize(f[4].typ) == TypeSize(f[5].typ) == Some(1);
    assert TypeSize(f[1].typ) == TypeSize(f[2].typ) == TypeSize(f[3].typ) == TypeSize(f[6].typ) == Some(4);
  }

  lemma {:induction false} GpsLays()
    ensures Lays(Gps.fields, Quantities(3))
  {
    GpsNamesDiffer();
    GpsWidths();
  }

  lemma {:induction false} EstimatorLays()
    ensures Lays(Estimator.fields, Quantities(4))
  {
    var f := Estimator.fields;
    assert |f[0].name| == 9 && |f[1].name| == 22 && |f[2].name| == 21;
  }

  lemma {:induction false} TopicLays(id: TopicId)
    ensures Lays(Topics[id].fields, Quantities(id))
  {
    if id == 0 {
      RatesLays();
    } else if id == 1 {
      AccelLays();
    } else if id == 2 {
      BatteryLays();
    } else if id == 3 {
      GpsLays();
    } else {
      EstimatorLays();
    }
  }

  // ----- The parameters and the whole log -----

  function Somes<T>(s: seq<T>): seq<Option<T>> {
    if s == [] then [] else Somes(s[..|s| - 1]) + [Some(s[|s| - 1])]
  }

  lemma {:induction false} ParametersTogether(a: seq<Msg>, b: seq<Msg>)
    ensures Parameters(a + b) == Parameters(a) + Parameters(b)
  {
    if b == [] {
      assert a + b == a;
    } else {
      var n := |b| - 1;
      ParametersTogether(a, b[..n]);
      assert (a + b)[..|a| + n] == a + b[..n];
    }
  }

  lemma {:induction false} NoParameters(msgs: seq<Msg>)
    requires forall m :: m in msgs ==> m.kind != 'P'
    ensures Parameters(msgs) == []
  {
    if msgs != [] {
      NoParameters(msgs[..|msgs| - 1]);
    }
  }

  lemma {:induction false} ParameterReadsBack(p: Parameter)
    requires Packable(p)
    ensures ReadParameter(ParameterMsg(p).payload) == Some(p)
  {
    var key := KeyBytes(p);
    var payload := ParameterMsg(p).payload;
    assert payload[0] == |key| && payload[1..1 + |key|] == key && payload[1 + |key|..] == p.value;
    assert key[..6] == Encoded("float ") && key[6..] == p.name;
    assert payload[1..7] == key[..6] && payload[7..1 + |key|] == key[6..];
    DecodedEncoded("float ");
  }

  lemma {:induction false} ParameterMsgsReadBack(params: seq<Parameter>)
    requires forall i :: 0 <= i < |params| ==> Packable(params[i])
    ensures Parameters(ParameterMsgs(params)) == Somes(params)
  {
    if params != [] {
      var n := |params| - 1;
      ParameterMsgsReadBack(params[..n]);
      ParameterReadsBack(params[n]);
      OneMoreParameter(ParameterMsgs(params[..n]), ParameterMsg(params[n]).payload);
    }
  }

  lemma {:induction false} OneMoreParameter(msgs: seq<Msg>, payload: seq<Byte>)
    ensures Parameters(msgs + [Msg('P', payload)]) == Parameters(msgs) + [ReadParameter(payload)]
  {
    assert (msgs + [Msg('P', payload)])[..|msgs|] == msgs;
  }

  lemma {:induction false} DataHoldsNoParameters(items: seq<Item>)
    ensures forall m :: m in DataMsgs(items) ==> m.kind == 'D'
  {
    if items != [] {
      DataHoldsNoParameters(items[..|items| - 1]);
    }
  }

  lemma {:induction false} LogParameters(params: seq<Parameter>, samples: seq<Sample>)
    requires forall i :: 0 <= i < |params| ==> Packable(params[i])
    ensures Parameters(Messages(params, samples)) == Somes(params)
  {
    var flags, formats, subscriptions := [FlagBits], FormatMsgs(Topics), SubscriptionMsgs(Topics);
    var data := DataMsgs(SortedBy(Items(samples), ItemTime));
    FormatsHoldNoData(Topics);
    SubscriptionsHoldNoData(Topics);
    DataHoldsNoParameters(SortedBy(Items(samples), ItemTime));
    NoParameters(flags + formats);
    NoParameters(subscriptions);
    NoParameters(data);
    ParameterMsgsReadBack(params);
    ParametersTogether(flags + formats, ParameterMsgs(params));
    ParametersTogether(flags + formats + ParameterMsgs(params), subscriptions);
    ParametersTogether(flags + formats + ParameterMsgs(params) + subscriptions, data);
  }

  /** The log written for a profile. */
  function Written(start: Word, params: seq<Parameter>, samples: seq<Sample>): seq<Byte> {
    Header(start) + Stream(Messages(params, samples))
  }

  lemma {:induction false} HeaderReadsBack(start: Word, rest: seq<Byte>)
    ensures var out := Header(start) + rest;
            |out| >= 16 && out[..7] == Magic && out[7] == 1 && FromLittle(out[8..16]) == start && out[16..] == rest
  {
    var out := Header(start) + rest;
    assert out[8..16] == Little(start, 8);
    EightByteFits(start);
    LittleReadsBack(start, 8);
  }

  /** For every profile the decoder gets the version, the start time, no flags, and the parameters' names and values in
      order. */
  lemma {:induction false} UlogReadsBack(start: Word, params: seq<Parameter>, samples: seq<Sample>) returns (log: Ulog)
    requires forall i :: 0 <= i < |params| ==> Packable(params[i])
    ensures ReadUlog(Written(start, params, samples)) == Some(log)
    ensures log.version == 1 && log.start == start && NoFlags(log.msgs) && Parameters(log.msgs) == Somes(params)
    ensures log.msgs == Messages(params, samples) && Announces(log.reader)
  {
    var msgs := Messages(params, samples);
    var r := MessagesAreRead(params, samples);
    LogDescribesItself(start, params, samples);
    HeaderReadsBack(start, Stream(msgs));
    LogParameters(params, samples);
    log := Ulog(1, start, msgs, r);
  }

  /** The decoder finds under the topic's and field's names this quantity of these rows, each row in its place. */
  ghost predicate Says(out: seq<Byte>, topic: string, field: string, rows: seq<Sample>, q: Quantity) {
    && ReadUlog(out).Some?
    && Column(ReadUlog(out).value.reader, ReadUlog(out).value.msgs, topic, field) == Picked(rows, q)
  }

  /** The rows that a topic logs, in time order, ties in row order. */
  function LoggedRows(id: nat, samples: seq<Sample>): seq<Sample> {
    SortedBy(RowsOf(id, samples), RowTime)
  }

  lemma {:induction false} TopicSays(start: Word, params: seq<Parameter>, samples: seq<Sample>, id: TopicId, j: nat)
    requires forall i :: 0 <= i < |params| ==> Packable(params[i])
    requires j < |Quantities(id)|
    ensures j < |Topics[id].fields|
    ensures Says(Written(start, params, samples), Topics[id].name, Topics[id].fields[j].name, LoggedRows(id, samples),
                 Quantities(id)[j])
  {
    TopicLays(id);
    var log := UlogReadsBack(start, params, samples);
    ColumnOfLog(log.reader, params, samples, id, Topics[id].fields[j].name);
    FieldsArePicked(LoggedRows(id, samples), id, Topics[id].fields, j);
  }

  /** Vehicle rates of every row: the rates of roll, pitch and yaw under their names. */
  lemma {:induction false} RatesReadBack(start: Word, params: seq<Parameter>, samples: seq<Sample>)
    requires forall i :: 0 <= i < |params| ==> Packable(params[i])
    ensures var out, rows := Written(start, params, samples), SortedBy(samples, RowTime);
            && Says(out, "vehicle_angular_velocity", "timestamp", rows, Time)
            && Says(out, "vehicle_angular_velocity", "rollspeed", rows, RollRate)
            && Says(out, "vehicle_angular_velocity", "pitchspeed", rows, PitchRate)
            && Says(out, "vehicle_angular_velocity", "yawspeed", rows, YawRate)
  {
    TopicSays(start, params, samples, 0, 0);
    TopicSays(start, params, samples, 0, 1);
    TopicSays(start, params, samples, 0, 2);
    TopicSays(start, params, samples, 0, 3);
  }

  lemma {:induction false} AccelReadsBack(start: Word, params: seq<Parameter>, samples: seq<Sample>)
    requires forall i :: 0 <= i < |params| ==> Packable(params[i])
    ensures var out, rows := Written(start, params, samples), SortedBy(samples, RowTime);
            && Says(out, "sensor_accel", "timestamp", rows, Time)
            && Says(out, "sensor_accel", "x", rows, AccelX)
            && Says(out, "sensor_accel", "y", rows, AccelY)
            && Says(out, "sensor_accel", "z", rows, AccelZ)
  {
    TopicSays(start, params, samples, 1, 0);
    TopicSays(start, params, samples, 1, 1);
    TopicSays(start, params, samples, 1, 2);
    TopicSays(start, params, samples, 1, 3);
  }

  /** Three topics log every fourth row. */
  lemma {:induction false} BatteryReadsBack(start: Word, params: seq<Parameter>, samples: seq<Sample>)
    requires forall i :: 0 <= i < |params| ==> Packable(params[i])
    ensures var out, rows := Written(start, params, samples), SortedBy(EveryFourth(samples), RowTime);
            && Says(out, "battery_status", "timestamp", rows, Time)
            && Says(out, "battery_status", "voltage_v", rows, Voltage)
            && Says(out, "battery_status", "current_a", rows, Current)
            && Says(out, "battery_status", "remaining", rows, Remaining)
  {
    TopicSays(start, params, samples, 2, 0);
    TopicSays(start, params, samples, 2, 1);
    TopicSays(start, params, samples, 2, 2);
    TopicSays(start, params, samples, 2, 3);
  }

  lemma {:induction false} GpsReadsBack(start: Word, params: seq<Parameter>, samples: seq<Sample>)
    requires forall i :: 0 <= i < |params| ==> Packable(params[i])
    ensures var out, rows := Written(start, params, samples), SortedBy(EveryFourth(samples), RowTime);
            && Says(out, "vehicle_gps_position", "timestamp", rows, Time)
            && Says(out, "vehicle_gps_position", "lat", rows, Lat)
            && Says(out, "vehicle_gps_position", "lon", rows, Lon)
            && Says(out, "vehicle_gps_position", "alt", rows, Alt)
            && Says(out, "vehicle_gps_position", "fix_type", rows, FixType)
            && Says(out, "vehicle_gps_position", "satellites_used", rows, Sats)
            && Says(out, "vehicle_gps_position", "hdop", rows, Hdop)
  {
    TopicSays(start, params, samples, 3, 0);
    TopicSays(start, params, samples, 3, 1);
    TopicSays(start, params, samples, 3, 2);
    TopicSays(start, params, samples, 3, 3);
    TopicSays(start, params, samples, 3, 4);
    TopicSays(start, params, samples, 3, 5);
    TopicSays(start, params, samples, 3, 6);
  }

  lemma {:induction false} EstimatorReadsBack(start: Word, params: seq<Parameter>, samples: seq<Sample>)
    requires forall i :: 0 <= i < |params| ==> Packable(params[i])
    ensures var out, rows := Written(start, params, samples), SortedBy(EveryFourth(samples), RowTime);
            && Says(out, "estimator_status", "timestamp", rows, Time)
            && Says(out, "estimator_status", "innovation_check_flags", rows, InnovationFlags)
            && Says(out, "estimator_status", "solution_status_flags", rows, SolutionFlags)
  {
    TopicSays(start, params, samples, 4, 0);
    TopicSays(start, params, samples, 4, 1);
    TopicSays(start, params, samples, 4, 2);
  }
}
