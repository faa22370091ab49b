/** The values in a dataflash stream: columns found by the letters and names of its own FMT records. */
module DataflashColumns {
  import opened Bytes
  import opened Dataflash
  import opened Sequences
  import opened Strings
  import opened Words
  import opened Wrappers

  // ----- The decoder -----

  /** What a FMT record announces. */
  datatype Announced = Announced(typ: Byte, letters: string, columns: seq<string>)

  /** The bytes up to the first zero. */
  function Unpadded(b: seq<Byte>): seq<Byte> {
    if b == [] || b[0] == 0 then [] else [b[0]] + Unpadded(b[1..])
  }

  function Split(text: string): seq<string>
    decreases |text|
  {
    var comma := IndexOf(text, ',');
    if comma == |text| then [text] else [text[..comma]] + Split(text[comma + 1..])
  }

  /** The kinds announced in these records, by their names. */
  function Catalog(records: seq<Record>): map<string, Announced> {
    if records == [] then map[]
    else
      var r := records[|records| - 1];
      var before := Catalog(records[..|records| - 1]);
      if r.typ != FmtType || |r.body| != FmtLength - 3 then before
      else before[Decoded(Unpadded(r.body[2..6])) := AnnouncedBy(r.body)]
  }

  function AnnouncedBy(body: seq<Byte>): Announced
    requires |body| == FmtLength - 3
  {
    Announced(body[0], Decoded(Unpadded(body[6..22])), Split(Decoded(Unpadded(body[22..]))))
  }

  /** The bytes of a column, found by stepping over the columns before it by the sizes of their letters. */
  function ColumnOf(letters: string, columns: seq<string>, name: string, body: seq<Byte>): Option<seq<Byte>> {
    if letters == "" || columns == [] then None
    else
      match LetterSize(letters[0])
      case None => None
      case Some(n) =>
        if |body| < n then None
        else if columns[0] == name then Some(body[..n])
        else ColumnOf(letters[1..], columns[1..], name, body[n..])
  }

  function HasType(typ: Byte): Record -> bool {
    (r: Record) => r.typ == typ
  }

  function Columns(records: seq<Record>, a: Announced, column: string): seq<Option<seq<Byte>>> {
    if records == [] then []
    else
      Columns(records[..|records| - 1], a, column)
      + [ColumnOf(a.letters, a.columns, column, records[|records| - 1].body)]
  }

  /** A column of all records of the kind with this name, in the order of the stream. */
  function Read(out: seq<Byte>, kind: string, column: string): Option<seq<Option<seq<Byte>>>> {
    match Walk(out, map[])
    case None => None
    case Some(records) =>
      var catalog := Catalog(records);
      if kind !in catalog then None
      else Some(Columns(Kept(records, HasType(catalog[kind].typ)), catalog[kind], column))
  }

  // ----- FMT records read back -----

  /** Bytes that no padding can be taken for. */
  predicate Solid(s: string) {
    forall i :: 0 <= i < |s| ==> 0 < s[i] as int < 128
  }

  predicate Fitting(k: Kind) {
    |k.name| <= 4 && |k.letters| <= 16 && |k.columns| <= 64 && Solid(k.name) && Solid(k.letters) && Solid(k.columns)
  }

  lemma {:induction false} UnpaddedPadded(b: seq<Byte>, n: nat)
    requires |b| <= n && forall i :: 0 <= i < |b| ==> b[i] != 0
    ensures Unpadded(Padded(b, n)) == b
  {
    if b != [] {
      UnpaddedPadded(b[1..], n - 1);
      assert Padded(b, n)[1..] == Padded(b[1..], n - 1);
    }
  }

  lemma {:induction false} TextReadsBack(s: string, n: nat)
    requires |s| <= n && Solid(s)
    ensures Decoded(Unpadded(Padded(Encoded(s), n))) == s
  {
    UnpaddedPadded(Encoded(s), n);
    DecodedEncoded(s);
  }

  lemma {:induction false} FmtReadsBack(k: Kind)
    requires Fitting(k)
    ensures var body := FmtRecord(k).body;
            |body| == FmtLength - 3 && Decoded(Unpadded(body[2..6])) == k.name
            && AnnouncedBy(body) == Announced(k.typ, k.letters, Split(k.columns))
  {
    var body := FmtRecord(k).body;
    assert body[2..6] == Padded(Encoded(k.name), 4);
    assert body[6..22] == Padded(Encoded(k.letters), 16);
    assert body[22..] == Padded(Encoded(k.columns), 64);
    TextReadsBack(k.name, 4);
    TextReadsBack(k.letters, 16);
    TextReadsBack(k.columns, 64);
  }

  function Announcements(kinds: seq<Kind>): map<string, Announced> {
    if kinds == [] then map[]
    else
      var k := kinds[|kinds| - 1];
      Announcements(kinds[..|kinds| - 1])[k.name := Announced(k.typ, k.letters, Split(k.columns))]
  }

  lemma {:induction false} CatalogOfFormats(kinds: seq<Kind>)
    requires forall i :: 0 <= i < |kinds| ==> Fitting(kinds[i])
    ensures Catalog(FmtRecords(kinds)) == Announcements(kinds)
  {
    if kinds != [] {
      var n := |kinds| - 1;
      CatalogOfFormats(kinds[..n]);
      FmtReadsBack(kinds[n]);
      OneMoreFormat(FmtRecords(kinds[..n]), FmtRecord(kinds[n]));
    }
  }

  lemma {:induction false} OneMoreFormat(records: seq<Record>, r: Record)
    requires r.typ == FmtType && |r.body| == FmtLength - 3
    ensures Catalog(records + [r]) == Catalog(records)[Decoded(Unpadded(r.body[2..6])) := AnnouncedBy(r.body)]
  {
    assert (records + [r])[..|records|] == records;
  }

  lemma {:induction false} DataAddsNothing(records: seq<Record>, data: seq<Record>)
    requires forall r :: r in data ==> r.typ != FmtType
    ensures Catalog(records + data) == Catalog(records)
  {
    if data == [] {
      assert records + data == records;
    } else {
      var n := |data| - 1;
      DataAddsNothing(records, data[..n]);
      assert (records + data)[..|records| + n] == records + data[..n];
    }
  }

  lemma {:induction false} AnnouncementAt(kinds: seq<Kind>, i: nat)
    requires i < |kinds| && forall i, j :: 0 <= i < j < |kinds| ==> kinds[i].name != kinds[j].name
    ensures kinds[i].name in Announcements(kinds)
    ensures Announcements(kinds)[kinds[i].name] == Announced(kinds[i].typ, kinds[i].letters, Split(kinds[i].columns))
  {
    var n := |kinds| - 1;
    if i < n {
      AnnouncementAt(kinds[..n], i);
    }
  }

  lemma {:induction false} KindNamesDiffer()
    ensures forall i, j :: 0 <= i < j < |Kinds| ==> Kinds[i].name != Kinds[j].name
  {
    assert Imu.name[0] == 'I' && Bat.name[0] == 'B' && Gps.name[0] == 'G' && Text.name[0] == 'M' && Parm.name[0] == 'P';
  }

  lemma {:induction false} ImuFits()
    ensures Fitting(Imu)
  {
  }

  lemma {:induction false} BatFits()
    ensures Fitting(Bat)
  {
  }

  lemma {:induction false} GpsFits()
    ensures Fitting(Gps)
  {
  }

  lemma {:induction false} TextFits()
    ensures Fitting(Text) && Fitting(Parm)
  {
  }

  // ----- Column names -----

  /** Names with commas between them. */
  function Joined(names: seq<string>): string {
    if names == [] then "" else if |names| == 1 then names[0] else names[0] + [','] + Joined(names[1..])
  }

  lemma {:induction false} SplitJoined(names: seq<string>)
    requires names != [] && forall i :: 0 <= i < |names| ==> ',' !in names[i]
    ensures Split(Joined(names)) == names
  {
    if |names| == 1 {
      assert IndexOf(names[0], ',') == |names[0]|;
      assert names == [names[0]];
    } else {
      FirstAt(names[0], ',', Joined(names[1..]));
      SplitJoined(names[1..]);
      assert names == [names[0]] + names[1..];
    }
  }

  lemma {:induction false} NamesOf(k: Kind, names: seq<string>)
    requires k.columns == Joined(names) && names != [] && forall i :: 0 <= i < |names| ==> ',' !in names[i]
    ensures Split(k.columns) == names
  {
    SplitJoined(names);
  }

  const ImuNames := ["TimeUS", "GyrX", "GyrY", "GyrZ", "AccX", "AccY", "AccZ"]
  const BatNames := ["TimeUS", "Volt", "Curr", "CurrTot", "Temp"]
  const GpsNames := ["TimeUS", "Status", "Lat", "Lng", "Alt", "HDop", "NSats"]
  const TextNames := ["TimeUS", "Message"]
  const ParmNames := ["TimeUS", "Name", "Value"]

  lemma {:induction false} ImuTail()
    ensures Joined(ImuNames[3..]) == "GyrZ,AccX,AccY,AccZ"
  {
    var n := ImuNames;
    assert Joined(n[6..]) == "AccZ";
    assert n[5..][1..] == n[6..] && Joined(n[5..]) == "AccY,AccZ";
    assert n[4..][1..] == n[5..] && Joined(n[4..]) == "AccX,AccY,AccZ";
    assert n[3..][1..] == n[4..];
  }

  lemma {:induction false} ImuFromThird()
    ensures Joined(ImuNames[2..]) == "GyrY,GyrZ,AccX,AccY,AccZ"
  {
    ImuTail();
    assert ImuNames[2..][1..] == ImuNames[3..];
  }

  lemma {:induction false} ImuMiddle()
    ensures Joined(ImuNames[1..]) == "GyrX,GyrY,GyrZ,AccX,AccY,AccZ"
  {
    ImuFromThird();
    assert ImuNames[1..][1..] == ImuNames[2..];
  }

  lemma {:induction false} ImuJoined()
    ensures Imu.columns == Joined(ImuNames)
  {
    ImuMiddle();
    assert ImuNames[0] + [','] + Joined(ImuNames[1..]) == Imu.columns;
  }

  lemma {:induction false} ImuNamesAreWhole()
    ensures forall i :: 0 <= i < |ImuNames| ==> ',' !in ImuNames[i]
  {
  }

  lemma {:induction false} ImuColumns()
    ensures Split(Imu.columns) == ImuNames
  {
    ImuJoined();
    ImuNamesAreWhole();
    NamesOf(Imu, ImuNames);
  }

  lemma {:induction false} BatTail()
    ensures Joined(BatNames[1..]) == "Volt,Curr,CurrTot,Temp"
  {
    var n := BatNames;
    assert Joined(n[4..]) == "Temp";
    assert n[3..][1..] == n[4..] && Joined(n[3..]) == "CurrTot,Temp";
    assert n[2..][1..] == n[3..] && Joined(n[2..]) == "Curr,CurrTot,Temp";
    assert n[1..][1..] == n[2..];
  }

  lemma {:induction false} BatColumns()
    ensures Split(Bat.columns) == BatNames
  {
    BatTail();
    NamesOf(Bat, BatNames);
  }

  lemma {:induction false} GpsTail()
    ensures Joined(GpsNames[3..]) == "Lng,Alt,HDop,NSats"
  {
    var n := GpsNames;
    assert Joined(n[6..]) == "NSats";
    assert n[5..][1..] == n[6..] && Joined(n[5..]) == "HDop,NSats";
    assert n[4..][1..] == n[5..] && Joined(n[4..]) == "Alt,HDop,NSats";
    assert n[3..][1..] == n[4..];
  }

  lemma {:induction false} GpsFromThird()
    ensures Joined(GpsNames[2..]) == "Lat,Lng,Alt,HDop,NSats"
  {
    GpsTail();
    assert GpsNames[2..][1..] == GpsNames[3..];
  }

  lemma {:induction false} GpsMiddle()
    ensures Joined(GpsNames[1..]) == "Status,Lat,Lng,Alt,HDop,NSats"
  {
    GpsFromThird();
    assert GpsNames[1..][1..] == GpsNames[2..];
  }

  lemma {:induction false} GpsJoined()
    ensures Gps.columns == Joined(GpsNames)
  {
    GpsMiddle();
    assert GpsNames[0] + [','] + Joined(GpsNames[1..]) == Gps.columns;
  }

  lemma {:induction false} GpsNamesAreWhole()
    ensures forall i :: 0 <= i < |GpsNames| ==> ',' !in GpsNames[i]
  {
  }

  lemma {:induction false} GpsColumns()
    ensures Split(Gps.columns) == GpsNames
  {
    GpsJoined();
    GpsNamesAreWhole();
    NamesOf(Gps, GpsNames);
  }

  lemma {:induction false} TextColumns()
    ensures Split(Text.columns) == TextNames
  {
    assert Joined(TextNames[1..]) == "Message";
    NamesOf(Text, TextNames);
  }

  lemma {:induction false} ParmColumns()
    ensures Split(Parm.columns) == ParmNames
  {
    var n := ParmNames;
    assert Joined(n[2..]) == "Value";
    assert n[1..][1..] == n[2..] && Joined(n[1..]) == "Name,Value";
    NamesOf(Parm, ParmNames);
  }

  // ----- What a row holds -----

  datatype Quantity =
    | Time
    | GyrX | GyrY | GyrZ | AccX | AccY | AccZ
    | Volt | Curr | Zero | Temp
    | Status | Lat | Lng | Alt | HDop | NSats

  function Value(q: Quantity, r: Row): seq<Byte> {
    match q
    case Time => Little(r.time, 8)
    case GyrX => r.gyrX
    case GyrY => r.gyrY
    case GyrZ => r.gyrZ
    case AccX => r.accX
    case AccY => r.accY
    case AccZ => r.accZ
    case Volt => r.volt
    case Curr => r.curr
    case Zero => r.zero
    case Temp => r.temp
    case Status => [3]
    case Lat => r.lat
    case Lng => r.lng
    case Alt => r.alt
    case HDop => r.hdop
    case NSats => [r.sats]
  }

  function Width(q: Quantity): nat {
    match q
    case Time => 8
    case Status => 1
    case NSats => 1
    case _ => 4
  }

  lemma {:induction false} ValueWidth(q: Quantity, r: Row)
    ensures |Value(q, r)| == Width(q)
  {
  }

  function Values(qs: seq<Quantity>, r: Row): seq<seq<Byte>> {
    seq(|qs|, i requires 0 <= i < |qs| => Value(qs[i], r))
  }

  /** One quantity of these rows, in order. */
  function Picked(rows: seq<Row>, q: Quantity): seq<Option<seq<Byte>>> {
    if rows == [] then [] else Picked(rows[..|rows| - 1], q) + [Some(Value(q, rows[|rows| - 1]))]
  }

  /** The columns are of different names and the letters have the widths of these quantities. */
  predicate Lays(letters: string, columns: seq<string>, qs: seq<Quantity>) {
    && |letters| == |columns| == |qs|
    && (forall i, j :: 0 <= i < j < |columns| ==> columns[i] != columns[j])
    && (forall i :: 0 <= i < |letters| ==> LetterSize(letters[i]) == Some(Width(qs[i])))
  }

  lemma {:induction false} ColumnAt(letters: string, columns: seq<string>, parts: seq<seq<Byte>>, j: nat)
    requires j < |letters| == |columns| == |parts|
    requires forall i, k :: 0 <= i < k < |columns| ==> columns[i] != columns[k]
    requires forall i :: 0 <= i < |letters| ==> LetterSize(letters[i]) == Some(|parts[i]|)
    ensures ColumnOf(letters, columns, columns[j], Flat(parts)) == Some(parts[j])
  {
    FlatSplits(parts);
    if j > 0 {
      ColumnAt(letters[1..], columns[1..], parts[1..], j - 1);
      assert columns[0] != columns[j] && columns[1..][j - 1] == columns[j];
    }
  }

  // ----- The three kinds of row records -----

  type RowKind = k: Byte | 1 <= k <= 3 witness 1

  function RecordOf(kind: RowKind, r: Row): Record {
    if kind == 1 then ImuRecord(r) else if kind == 2 then BatRecord(r) else GpsRecord(r)
  }

  function Maker(kind: RowKind): Row -> Record {
    (r: Row) => RecordOf(kind, r)
  }

  function Quantities(kind: RowKind): seq<Quantity> {
    if kind == 1 then [Time, GyrX, GyrY, GyrZ, AccX, AccY, AccZ]
    else if kind == 2 then [Time, Volt, Curr, Zero, Temp]
    else [Time, Status, Lat, Lng, Alt, HDop, NSats]
  }

  function RowsOf(kind: RowKind, rows: seq<Row>): seq<Row> {
    if kind == 1 then rows else EveryFourth(rows)
  }

  lemma {:induction false} ImuHolds(r: Row)
    ensures ImuRecord(r).body == Flat(Values([Time, GyrX, GyrY, GyrZ, AccX, AccY, AccZ], r))
  {
    FlatSeven(Values([Time, GyrX, GyrY, GyrZ, AccX, AccY, AccZ], r));
  }

  lemma {:induction false} BatHolds(r: Row)
    ensures BatRecord(r).body == Flat(Values([Time, Volt, Curr, Zero, Temp], r))
  {
    FlatFive(Values([Time, Volt, Curr, Zero, Temp], r));
  }

  lemma {:induction false} GpsHolds(r: Row)
    ensures GpsRecord(r).body == Flat(Values([Time, Status, Lat, Lng, Alt, HDop, NSats], r))
  {
    FlatSeven(Values([Time, Status, Lat, Lng, Alt, HDop, NSats], r));
  }

  lemma {:induction false} RecordHolds(kind: RowKind, r: Row, letters: string, columns: seq<string>, j: nat)
    requires Lays(letters, columns, Quantities(kind)) && j < |columns|
    ensures ColumnOf(letters, columns, columns[j], RecordOf(kind, r).body) == Some(Value(Quantities(kind)[j], r))
  {
    var parts := Values(Quantities(kind), r);
    BodyHolds(kind, r);
    forall i | 0 <= i < |letters| ensures |parts[i]| == Width(Quantities(kind)[i]) {
      ValueWidth(Quantities(kind)[i], r);
    }
    ColumnAt(letters, columns, parts, j);
  }

  lemma {:induction false} BodyHolds(kind: RowKind, r: Row)
    ensures RecordOf(kind, r).body == Flat(Values(Quantities(kind), r))
  {
    ImuHolds(r);
    BatHolds(r);
    GpsHolds(r);
  }

  lemma {:induction false} ColumnsLast(records: seq<Record>, r: Record, a: Announced, column: string)
    ensures Columns(records + [r], a, column)
         == Columns(records, a, column) + [ColumnOf(a.letters, a.columns, column, r.body)]
  {
    assert (records + [r])[..|records|] == records;
  }

  lemma {:induction false} ColumnsArePicked(rows: seq<Row>, kind: RowKind, a: Announced, j: nat)
    requires Lays(a.letters, a.columns, Quantities(kind)) && j < |a.columns|
    ensures Columns(Mapped(rows, Maker(kind)), a, a.columns[j]) == Picked(rows, Quantities(kind)[j])
  {
    if rows != [] {
      var n := |rows| - 1;
      ColumnsArePicked(rows[..n], kind, a, j);
      ColumnsLast(Mapped(rows[..n], Maker(kind)), RecordOf(kind, rows[n]), a, a.columns[j]);
      RecordHolds(kind, rows[n], a.letters, a.columns, j);
    }
  }

  lemma {:induction false} RowsStep(kind: RowKind, rows: seq<Row>)
    requires rows != []
    ensures var n := |rows| - 1;
            RowsOf(kind, rows) == RowsOf(kind, rows[..n]) + if kind == 1 || n % 4 == 0 then [rows[n]] else []
  {
    var n := |rows| - 1;
    assert rows == rows[..n] + [rows[n]];
    FourthStep(rows[..n], rows[n]);
  }

  lemma {:induction false} RowOfKind(n: nat, r: Row, kind: RowKind)
    ensures Kept([ImuRecord(r)] + (if n % 4 == 0 then [BatRecord(r), GpsRecord(r)] else []), HasType(kind))
         == if kind == 1 || n % 4 == 0 then [RecordOf(kind, r)] else []
  {
    KeptRow(ImuRecord(r), BatRecord(r), GpsRecord(r), n % 4 == 0, kind);
  }

  lemma {:induction false} KeptRow(a: Record, b: Record, c: Record, all: bool, kind: RowKind)
    requires a.typ == 1 && b.typ == 2 && c.typ == 3
    ensures Kept([a] + (if all then [b, c] else []), HasType(kind))
         == if kind == 1 then [a] else if !all then [] else if kind == 2 then [b] else [c]
  {
    KeptLast([], a, HasType(kind));
    assert [] + [a] == [a] && [a] + [] == [a];
    if all {
      KeptLast([a], b, HasType(kind));
      KeptLast([a] + [b], c, HasType(kind));
      assert [a] + [b] + [c] == [a] + [b, c];
    }
  }

  lemma {:induction false} RecordsStep(rows: seq<Row>, kind: RowKind)
    requires rows != []
    ensures var n := |rows| - 1;
            Kept(RowRecords(rows), HasType(kind))
            == Kept(RowRecords(rows[..n]), HasType(kind))
               + if kind == 1 || n % 4 == 0 then [RecordOf(kind, rows[n])] else []
  {
    var n := |rows| - 1;
    var some := if n % 4 == 0 then [BatRecord(rows[n]), GpsRecord(rows[n])] else [];
    RowOfKind(n, rows[n], kind);
    Join(RowRecords(rows[..n]), [ImuRecord(rows[n])], some);
    KeptTogether(RowRecords(rows[..n]), [ImuRecord(rows[n])] + some, HasType(kind));
  }

  /** The records of one kind are made of the rows it logs. */
  lemma {:induction false} RecordsOfKind(rows: seq<Row>, kind: RowKind)
    ensures Kept(RowRecords(rows), HasType(kind)) == Mapped(RowsOf(kind, rows), Maker(kind))
  {
    if rows == [] {
      assert RowsOf(kind, rows) == [];
    } else {
      var n := |rows| - 1;
      RecordsOfKind(rows[..n], kind);
      RowsStep(kind, rows);
      RecordsStep(rows, kind);
      MappedMore(RowsOf(kind, rows[..n]), rows[n], kind == 1 || n % 4 == 0, Maker(kind));
    }
  }

  // ----- The whole stream -----

  function Written(banner: string, params: seq<Parameter>, rows: seq<Row>): seq<Byte> {
    Stream(Records(banner, params, rows))
  }

  lemma {:induction false} FormatsAreFormats(kinds: seq<Kind>)
    ensures forall r :: r in FmtRecords(kinds) ==> r.typ == FmtType
  {
    if kinds != [] {
      FormatsAreFormats(kinds[..|kinds| - 1]);
    }
  }

  lemma {:induction false} ParmsAreParms(params: seq<Parameter>)
    ensures forall r :: r in ParmRecords(params) ==> r.typ == 5
  {
    if params != [] {
      ParmsAreParms(params[..|params| - 1]);
    }
  }

  lemma {:induction false} RowsAreRows(rows: seq<Row>)
    ensures forall r :: r in RowRecords(rows) ==> 1 <= r.typ <= 3
  {
    if rows != [] {
      RowsAreRows(rows[..|rows| - 1]);
    }
  }

  lemma {:induction false} CatalogOfStream(banner: string, params: seq<Parameter>, rows: seq<Row>)
    ensures Catalog(Records(banner, params, rows)) == Announcements(Kinds)
  {
    ImuFits();
    BatFits();
    GpsFits();
    TextFits();
    CatalogOfFormats(Kinds);
    ParmsAreParms(params);
    RowsAreRows(rows);
    DataAddsNothing(FmtRecords(Kinds), [TextRecord(banner)] + ParmRecords(params) + RowRecords(rows));
    Group(FmtRecords(Kinds), [TextRecord(banner)], ParmRecords(params), RowRecords(rows));
  }

  /** The records of a type are those of the part of the stream that has them. */
  lemma {:induction false} KeptOfStream(banner: string, params: seq<Parameter>, rows: seq<Row>, typ: Byte)
    requires 1 <= typ <= 5
    ensures Kept(Records(banner, params, rows), HasType(typ))
         == if typ == 4 then [TextRecord(banner)]
            else if typ == 5 then ParmRecords(params)
            else Kept(RowRecords(rows), HasType(typ))
  {
    FormatsAreFormats(Kinds);
    ParmsAreParms(params);
    RowsAreRows(rows);
    KeptOfParts(FmtRecords(Kinds), [TextRecord(banner)], ParmRecords(params), RowRecords(rows), typ);
  }

  lemma {:induction false} NoneOfType(records: seq<Record>, typ: Byte)
    requires forall r :: r in records ==> r.typ != typ
    ensures Kept(records, HasType(typ)) == []
  {
    AllOrNoneKept(records, HasType(typ));
  }

  lemma {:induction false} AllOfType(records: seq<Record>, typ: Byte)
    requires forall r :: r in records ==> r.typ == typ
    ensures Kept(records, HasType(typ)) == records
  {
    AllOrNoneKept(records, HasType(typ));
  }

  lemma {:induction false} KeptOfParts(a: seq<Record>, b: seq<Record>, c: seq<Record>, d: seq<Record>, typ: Byte)
    requires 1 <= typ <= 5 && (forall r :: r in a ==> r.typ == FmtType) && (forall r :: r in b ==> r.typ == 4)
    requires (forall r :: r in c ==> r.typ == 5) && (forall r :: r in d ==> 1 <= r.typ <= 3)
    ensures Kept(a + b + c + d, HasType(typ))
         == if typ == 4 then b else if typ == 5 then c else Kept(d, HasType(typ))
  {
    KeptFour(a, b, c, d, HasType(typ));
    NoneOfType(a, typ);
    if typ == 4 {
      AllOfType(b, typ);
      NoneOfType(c, typ);
      NoneOfType(d, typ);
      Alone(b);
    } else if typ == 5 {
      NoneOfType(b, typ);
      AllOfType(c, typ);
      NoneOfType(d, typ);
      Alone(c);
    } else {
      NoneOfType(b, typ);
      NoneOfType(c, typ);
      Alone(Kept(d, HasType(typ)));
    }
  }

  lemma {:induction false} Alone<T>(s: seq<T>)
    ensures [] + s + [] + [] == [] + [] + s + [] == [] + [] + [] + s == s
  {
  }

  lemma {:induction false} KeptFour<T>(a: seq<T>, b: seq<T>, c: seq<T>, d: seq<T>, keep: T -> bool)
    ensures Kept(a + b + c + d, keep) == Kept(a, keep) + Kept(b, keep) + Kept(c, keep) + Kept(d, keep)
  {
    KeptTogether(a, b, keep);
    KeptTogether(a + b, c, keep);
    KeptTogether(a + b + c, d, keep);
  }

  lemma {:induction false} CatalogEntry(banner: string, params: seq<Parameter>, rows: seq<Row>, i: nat, k: Kind)
    requires i < |Kinds| && Kinds[i] == k
    ensures var catalog := Catalog(Records(banner, params, rows));
            k.name in catalog && catalog[k.name] == Announced(k.typ, k.letters, Split(k.columns))
  {
    CatalogOfStream(banner, params, rows);
    KindNamesDiffer();
    AnnouncementAt(Kinds, i);
  }

  lemma {:induction false} ReadFrom(out: seq<Byte>, records: seq<Record>, k: Kind, kept: seq<Record>, column: string)
    requires Walk(out, map[]) == Some(records) && k.name in Catalog(records)
    requires Catalog(records)[k.name] == Announced(k.typ, k.letters, Split(k.columns))
    requires Kept(records, HasType(k.typ)) == kept
    ensures Read(out, k.name, column) == Some(Columns(kept, Announced(k.typ, k.letters, Split(k.columns)), column))
  {
  }

  /** Reading a column of a kind reads it from that kind's records. */
  lemma {:induction false} ReadKind(banner: string, params: seq<Parameter>, rows: seq<Row>, i: nat, k: Kind,
                                    column: string)
    requires i < |Kinds| && Kinds[i] == k
    ensures Read(Written(banner, params, rows), k.name, column)
         == Some(Columns(Kept(Records(banner, params, rows), HasType(k.typ)),
                         Announced(k.typ, k.letters, Split(k.columns)), column))
  {
    var records := Records(banner, params, rows);
    StreamWalksExactly(banner, params, rows);
    CatalogEntry(banner, params, rows, i, k);
    ReadFrom(Written(banner, params, rows), records, k, Kept(records, HasType(k.typ)), column);
  }

  /** Under its kind's and column's names the decoder finds this quantity of these rows. */
  ghost predicate Says(out: seq<Byte>, kind: string, column: string, rows: seq<Row>, q: Quantity) {
    Read(out, kind, column) == Some(Picked(rows, q))
  }

  /** The stream announces this kind, and its records of it are made of the rows it logs. */
  ghost predicate Holds(out: seq<Byte>, kind: RowKind, k: Kind, rows: seq<Row>) {
    && Walk(out, map[]).Some? && k.typ == kind
    && k.name in Catalog(Walk(out, map[]).value)
    && Catalog(Walk(out, map[]).value)[k.name] == Announced(kind, k.letters, Split(k.columns))
    && Kept(Walk(out, map[]).value, HasType(kind)) == Mapped(RowsOf(kind, rows), Maker(kind))
  }

  lemma {:induction false} StreamHolds(banner: string, params: seq<Parameter>, rows: seq<Row>, kind: RowKind, k: Kind)
    requires Kinds[kind - 1] == k && k.typ == kind
    ensures Holds(Written(banner, params, rows), kind, k, rows)
  {
    StreamWalksExactly(banner, params, rows);
    CatalogEntry(banner, params, rows, kind - 1, k);
    RowsOfStream(banner, params, rows, kind);
    HoldsFrom(Written(banner, params, rows), Records(banner, params, rows), kind, k, rows);
  }

  lemma {:induction false} RowsOfStream(banner: string, params: seq<Parameter>, rows: seq<Row>, kind: RowKind)
    ensures Kept(Records(banner, params, rows), HasType(kind)) == Mapped(RowsOf(kind, rows), Maker(kind))
  {
    KeptOfStream(banner, params, rows, kind);
    RecordsOfKind(rows, kind);
  }

  lemma {:induction false} HoldsFrom(out: seq<Byte>, records: seq<Record>, kind: RowKind, k: Kind, rows: seq<Row>)
    requires Walk(out, map[]) == Some(records) && k.typ == kind && k.name in Catalog(records)
    requires Catalog(records)[k.name] == Announced(k.typ, k.letters, Split(k.columns))
    requires Kept(records, HasType(kind)) == Mapped(RowsOf(kind, rows), Maker(kind))
    ensures Holds(out, kind, k, rows)
  {
  }

  lemma {:induction false} ReadRows(out: seq<Byte>, rows: seq<Row>, kind: RowKind, k: Kind, names: seq<string>, j: nat)
    requires Holds(out, kind, k, rows) && Split(k.columns) == names
    requires Lays(k.letters, names, Quantities(kind)) && j < |names|
    ensures Says(out, k.name, names[j], RowsOf(kind, rows), Quantities(kind)[j])
  {
    ColumnsArePicked(RowsOf(kind, rows), kind, Announced(kind, k.letters, names), j);
  }

  lemma {:induction false} ImuLays()
    ensures Lays(Imu.letters, ImuNames, Quantities(1))
  {
    ImuWidths();
    ImuNamesDiffer();
  }

  lemma {:induction false} ImuWidths()
    ensures forall i :: 0 <= i < 7 ==> LetterSize(Imu.letters[i]) == Some(Width(Quantities(1)[i]))
  {
  }

  lemma {:induction false} ImuNamesDiffer()
    ensures forall i, j :: 0 <= i < j < 7 ==> ImuNames[i] != ImuNames[j]
  {
    var n := ImuNames;
    assert n[0][0] == 'T' && n[1][0] == n[2][0] == n[3][0] == 'G' && n[4][0] == n[5][0] == n[6][0] == 'A';
    assert n[1][3] == n[4][3] == 'X' && n[2][3] == n[5][3] == 'Y' && n[3][3] == n[6][3] == 'Z';
  }

  lemma {:induction false} BatLays()
    ensures Lays(Bat.letters, BatNames, Quantities(2))
  {
    var n := BatNames;
    assert n[0][0] == 'T' && n[1][0] == 'V' && n[2][0] == n[3][0] == 'C' && n[4][0] == 'T';
    assert |n[0]| == 6 && |n[2]| == 4 && |n[3]| == 7 && |n[4]| == 4;
  }

  lemma {:induction false} GpsLays()
    ensures Lays(Gps.letters, GpsNames, Quantities(3))
  {
    GpsWidths();
    GpsNamesDiffer();
  }

  lemma {:induction false} GpsWidths()
    ensures forall i :: 0 <= i < 7 ==> LetterSize(Gps.letters[i]) == Some(Width(Quantities(3)[i]))
  {
  }

  lemma {:induction false} GpsNamesDiffer()
    ensures forall i, j :: 0 <= i < j < 7 ==> GpsNames[i] != GpsNames[j]
  {
    var n := GpsNames;
    assert n[0][0] == 'T' && n[1][0] == 'S' && n[2][0] == n[3][0] == 'L' && n[4][0] == 'A' && n[5][0] == 'H';
    assert n[6][0] == 'N' && n[2][1] == 'a' && n[3][1] == 'n';
  }

  lemma {:induction false} ImuSays(out: seq<Byte>, rows: seq<Row>, j: nat)
    requires Holds(out, 1, Imu, rows) && j < 7
    ensures Says(out, "IMU", ImuNames[j], rows, Quantities(1)[j])
  {
    ImuColumns();
    ImuLays();
    ReadRows(out, rows, 1, Imu, ImuNames, j);
  }

  lemma {:induction false} ImuReadsBack(banner: string, params: seq<Parameter>, rows: seq<Row>)
    ensures var out := Written(banner, params, rows);
            && Says(out, "IMU", "TimeUS", rows, Time)
            && Says(out, "IMU", "GyrX", rows, GyrX)
            && Says(out, "IMU", "GyrY", rows, GyrY)
            && Says(out, "IMU", "GyrZ", rows, GyrZ)
            && Says(out, "IMU", "AccX", rows, AccX)
            && Says(out, "IMU", "AccY", rows, AccY)
            && Says(out, "IMU", "AccZ", rows, AccZ)
  {
    var out := Written(banner, params, rows);
    StreamHolds(banner, params, rows, 1, Imu);
    ImuSays(out, rows, 0);
    ImuSays(out, rows, 1);
    ImuSays(out, rows, 2);
    ImuSays(out, rows, 3);
    ImuSays(out, rows, 4);
    ImuSays(out, rows, 5);
    ImuSays(out, rows, 6);
  }

  lemma {:induction false} BatSays(out: seq<Byte>, rows: seq<Row>, j: nat)
    requires Holds(out, 2, Bat, rows) && j < 5
    ensures Says(out, "BAT", BatNames[j], EveryFourth(rows), Quantities(2)[j])
  {
    BatColumns();
    BatLays();
    ReadRows(out, rows, 2, Bat, BatNames, j);
  }

  lemma {:induction false} BatReadsBack(banner: string, params: seq<Parameter>, rows: seq<Row>)
    ensures var out, some := Written(banner, params, rows), EveryFourth(rows);
            && Says(out, "BAT", "TimeUS", some, Time)
            && Says(out, "BAT", "Volt", some, Volt)
            && Says(out, "BAT", "Curr", some, Curr)
            && Says(out, "BAT", "CurrTot", some, Zero)
            && Says(out, "BAT", "Temp", some, Temp)
  {
    var out := Written(banner, params, rows);
    StreamHolds(banner, params, rows, 2, Bat);
    BatSays(out, rows, 0);
    BatSays(out, rows, 1);
    BatSays(out, rows, 2);
    BatSays(out, rows, 3);
    BatSays(out, rows, 4);
  }

  lemma {:induction false} GpsSays(out: seq<Byte>, rows: seq<Row>, j: nat)
    requires Holds(out, 3, Gps, rows) && j < 7
    ensures Says(out, "GPS", GpsNames[j], EveryFourth(rows), Quantities(3)[j])
  {
    GpsColumns();
    GpsLays();
    ReadRows(out, rows, 3, Gps, GpsNames, j);
  }

  lemma {:induction false} GpsReadsBack(banner: string, params: seq<Parameter>, rows: seq<Row>)
    ensures var out, some := Written(banner, params, rows), EveryFourth(rows);
            && Says(out, "GPS", "TimeUS", some, Time)
            && Says(out, "GPS", "Status", some, Status)
            && Says(out, "GPS", "Lat", some, Lat)
            && Says(out, "GPS", "Lng", some, Lng)
            && Says(out, "GPS", "Alt", some, Alt)
            && Says(out, "GPS", "HDop", some, HDop)
            && Says(out, "GPS", "NSats", some, NSats)
  {
    var out := Written(banner, params, rows);
    StreamHolds(banner, params, rows, 3, Gps);
    GpsSays(out, rows, 0);
    GpsSays(out, rows, 1);
    GpsSays(out, rows, 2);
    GpsSays(out, rows, 3);
    GpsSays(out, rows, 4);
    GpsSays(out, rows, 5);
    GpsSays(out, rows, 6);
  }

  // ----- Banner and parameters -----

  function FirstOf(s: string, n: nat): string {
    if |s| <= n then s else s[..n]
  }

  /** A text field: padding cut off, its bytes as characters. */
  function TextOf(field: Option<seq<Byte>>): Option<string> {
    match field
    case None => None
    case Some(b) => Some(Decoded(Unpadded(b)))
  }

  lemma {:induction false} FrontReadsBack(s: string, n: nat)
    requires Solid(s)
    ensures Decoded(Unpadded(Padded(Front(Encoded(s), n), n + 1))) == FirstOf(s, n)
  {
    assert Front(Encoded(s), n) == Encoded(FirstOf(s, n));
    TextReadsBack(FirstOf(s, n), n + 1);
  }

  lemma {:induction false} ParmField(p: Parameter, j: nat)
    requires j < 3
    ensures ColumnOf(Parm.letters, ParmNames, ParmNames[j], ParmRecord(p).body)
         == Some([Little(0, 8), Padded(Front(Encoded(p.name), 15), 16), p.value][j])
  {
    var parts := [Little(0, 8), Padded(Front(Encoded(p.name), 15), 16), p.value];
    FlatThree(parts, 0);
    assert parts[0..] == parts;
    assert ParmNames[0][0] == 'T' && ParmNames[1][0] == 'N' && ParmNames[2][0] == 'V';
    ColumnAt(Parm.letters, ParmNames, parts, j);
  }

  lemma {:induction false} ParmColumnAt(params: seq<Parameter>, a: Announced, column: string, i: nat)
    ensures |Columns(ParmRecords(params), a, column)| == |params|
    ensures i < |params| ==>
              Columns(ParmRecords(params), a, column)[i]
              == ColumnOf(a.letters, a.columns, column, ParmRecord(params[i]).body)
  {
    if params != [] {
      ParmColumnAt(params[..|params| - 1], a, column, i);
      ColumnsLast(ParmRecords(params[..|params| - 1]), ParmRecord(params[|params| - 1]), a, column);
    }
  }

  lemma {:induction false} ParmColumn(banner: string, params: seq<Parameter>, rows: seq<Row>, i: nat, j: nat)
    requires i < |params| && j < 3
    ensures var column := Read(Written(banner, params, rows), "PARM", ParmNames[j]);
            && column.Some? && |column.value| == |params|
            && column.value[i]
               == Some([Little(0, 8), Padded(Front(Encoded(params[i].name), 15), 16), params[i].value][j])
  {
    ParmColumns();
    ReadKind(banner, params, rows, 4, Parm, ParmNames[j]);
    KeptOfStream(banner, params, rows, 5);
    ParmColumnAt(params, Announced(5, Parm.letters, ParmNames), ParmNames[j], i);
    ParmField(params[i], j);
  }

  /** Every parameter in order, at time zero, by the first fifteen characters of its name and by its value. */
  lemma {:induction false} ParametersReadBack(banner: string, params: seq<Parameter>, rows: seq<Row>, i: nat)
    requires i < |params| && Solid(params[i].name)
    ensures var out := Written(banner, params, rows);
            var times := Read(out, "PARM", "TimeUS");
            var names, values := Read(out, "PARM", "Name"), Read(out, "PARM", "Value");
            && times.Some? && |times.value| == |params| && times.value[i] == Some(Little(0, 8))
            && names.Some? && |names.value| == |params| && TextOf(names.value[i]) == Some(FirstOf(params[i].name, 15))
            && values.Some? && |values.value| == |params| && values.value[i] == Some(params[i].value)
  {
    ParmColumn(banner, params, rows, i, 0);
    ParmColumn(banner, params, rows, i, 1);
    ParmColumn(banner, params, rows, i, 2);
    FrontReadsBack(params[i].name, 15);
  }

  /** One message, the first 63 characters of the banner. */
  lemma {:induction false} BannerReadsBack(banner: string, params: seq<Parameter>, rows: seq<Row>)
    requires Solid(banner)
    ensures var messages := Read(Written(banner, params, rows), "MSG", "Message");
            messages.Some? && |messages.value| == 1 && TextOf(messages.value[0]) == Some(FirstOf(banner, 63))
  {
    MessageColumn(banner, params, rows);
    FrontReadsBack(banner, 63);
  }

  lemma {:induction false} MessageColumn(banner: string, params: seq<Parameter>, rows: seq<Row>)
    ensures Read(Written(banner, params, rows), "MSG", "Message")
         == Some([Some(Padded(Front(Encoded(banner), 63), 64))])
  {
    ReadKind(banner, params, rows, 3, Text, TextNames[1]);
    KeptOfStream(banner, params, rows, 4);
    MessageField(banner);
  }

  lemma {:induction false} MessageField(banner: string)
    ensures Columns([TextRecord(banner)], Announced(4, Text.letters, Split(Text.columns)), TextNames[1])
         == [Some(Padded(Front(Encoded(banner), 63), 64))]
  {
    TextColumns();
    OneColumn(TextRecord(banner), Announced(4, Text.letters, TextNames), TextNames[1]);
    TextField(banner);
  }

  lemma {:induction false} OneColumn(r: Record, a: Announced, column: string)
    ensures Columns([r], a, column) == [ColumnOf(a.letters, a.columns, column, r.body)]
  {
    assert [r][..0] == [];
  }

  lemma {:induction false} TextField(banner: string)
    ensures ColumnOf(Text.letters, TextNames, TextNames[1], TextRecord(banner).body)
         == Some(Padded(Front(Encoded(banner), 63), 64))
  {
    var parts := [Little(0, 8), Padded(Front(Encoded(banner), 63), 64)];
    FlatOne(parts, 0);
    FlatOne(parts, 1);
    assert parts[0..] == parts && Flat(parts[2..]) == [] && parts[1] + [] == parts[1];
    assert TextNames[0][0] == 'T' && TextNames[1][0] == 'M';
    ColumnAt(Text.letters, TextNames, parts, 1);
  }
}
