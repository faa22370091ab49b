/** The dataflash writer: records behind two marker bytes and a type, whose lengths the stream's own FMT records give. */
module Dataflash {
  import opened Bytes
  import opened Words
  import opened Wrappers

  const Head1: Byte := 0xA3
  const Head2: Byte := 0x95
  const FmtType: Byte := 0x80
  /** FMT records do not describe themselves: a reader has to know their length. */
  const FmtLength := 89

  datatype Record = Record(typ: Byte, body: seq<Byte>)

  function RecordBytes(r: Record): seq<Byte> {
    [Head1, Head2, r.typ] + r.body
  }

  function Stream(records: seq<Record>): seq<Byte> {
    if records == [] then [] else RecordBytes(records[0]) + Stream(records[1..])
  }

  lemma {:induction false} StreamAppend(records: seq<Record>, r: Record)
    ensures Stream(records + [r]) == Stream(records) + RecordBytes(r)
  {
    if records == [] {
      assert [] + [r] == [r] && [r][1..] == [] && Stream([]) == [];
    } else {
      assert (records + [r])[1..] == records[1..] + [r];
      StreamAppend(records[1..], r);
      assert RecordBytes(records[0]) + (Stream(records[1..]) + RecordBytes(r))
          == RecordBytes(records[0]) + Stream(records[1..]) + RecordBytes(r);
    }
  }

  // ----- Format records -----

  /** `n` bytes: the front of `b`, filled up with zeros. */
  function Padded(b: seq<Byte>, n: nat): (p: seq<Byte>)
    ensures |p| == n
    ensures forall i :: 0 <= i < n ==> p[i] == if i < |b| then b[i] else 0
  {
    if n == 0 then []
    else if b == [] then [0] + Padded([], n - 1)
    else [b[0]] + Padded(b[1..], n - 1)
  }

  /** The size a struct format packs into: a count goes with the letter behind it, and `s` is a byte string. */
  function StructSize(format: string, count: nat): nat {
    if format == "" then 0
    else
      var c := format[0];
      if '0' <= c <= '9' then StructSize(format[1..], count * 10 + (c as int - '0' as int))
      else
        LetterBytes(c, count) + StructSize(format[1..], 0)
  }

  function LetterBytes(c: char, count: nat): nat {
    var n := if count == 0 then 1 else count;
    if c == 'Q' then 8 * n else if c == 'f' || c == 'i' then 4 * n else n
  }

  /** The size of a field in a record, by its format letter. */
  function LetterSize(c: char): Option<nat> {
    match c
    case 'Q' => Some(8)
    case 'f' => Some(4)
    case 'L' => Some(4)
    case 'B' => Some(1)
    case 'N' => Some(16)
    case 'Z' => Some(64)
    case _ => None
  }

  /** The size of a record's fields by the letters of its FMT record, up to the padding. */
  function LettersSize(letters: seq<Byte>): Option<nat> {
    if letters == [] || letters[0] == 0 then Some(0)
    else
      match (LetterSize(letters[0] as char), LettersSize(letters[1..]))
      case (Some(n), Some(more)) => Some(n + more)
      case _ => None
  }

  datatype Kind = Kind(typ: Byte, name: string, letters: string, columns: string, struct: string)

  const Imu := Kind(0x01, "IMU", "Qffffff", "TimeUS,GyrX,GyrY,GyrZ,AccX,AccY,AccZ", "Qffffff")
  const Bat := Kind(0x02, "BAT", "Qffff", "TimeUS,Volt,Curr,CurrTot,Temp", "Qffff")
  const Gps := Kind(0x03, "GPS", "QBLLffB", "TimeUS,Status,Lat,Lng,Alt,HDop,NSats", "QBiiffB")
  const Text := Kind(0x04, "MSG", "QZ", "TimeUS,Message", "Q64s")
  const Parm := Kind(0x05, "PARM", "QNf", "TimeUS,Name,Value", "Q16sf")
  const Kinds := [Imu, Bat, Gps, Text, Parm]

  /** The FMT record of a kind. */
  function FmtRecord(k: Kind): Record {
    Record(FmtType,
           [k.typ, (3 + StructSize(k.struct, 0)) % 256]
           + Padded(Encoded(k.name), 4) + Padded(Encoded(k.letters), 16) + Padded(Encoded(k.columns), 64))
  }

  // ----- A reader that knows no length but the one of FMT records -----

  type Table = map<Byte, nat>

  /** What a record adds to the lengths known. */
  function Learned(t: Table, r: Record): Table {
    if r.typ == FmtType && |r.body| == FmtLength - 3 then t[r.body[0] := r.body[1] as nat] else t
  }

  /** The record has the length known for its type; a FMT record announces the length of its own letters. */
  predicate Readable(t: Table, r: Record) {
    if r.typ == FmtType then
      |r.body| == FmtLength - 3 && r.body[0] != FmtType && r.body[1] >= 3
      && LettersSize(r.body[6..22]) == Some(r.body[1] - 3)
    else r.typ in t && |r.body| + 3 == t[r.typ]
  }

  function Length(t: Table, typ: Byte): Option<nat> {
    if typ == 0x80 then Some(89) else if typ in t then Some(t[typ]) else None
  }

  function Walk(s: seq<Byte>, t: Table): Option<seq<Record>>
    decreases |s|
  {
    if s == [] then Some([])
    else if |s| < 3 || s[0] != 0xA3 || s[1] != 0x95 then None
    else
      match Length(t, s[2])
      case None => None
      case Some(n) =>
        if n < 3 || |s| < n then None
        else
          var r := Record(s[2], s[3..n]);
          if !Readable(t, r) then None
          else
            match Walk(s[n..], Learned(t, r))
            case None => None
            case Some(more) => Some([r] + more)
  }

  /** Each record is readable with what the records before it have taught. */
  predicate AllReadable(t: Table, records: seq<Record>)
    decreases |records|
  {
    records == [] || (Readable(t, records[0]) && AllReadable(Learned(t, records[0]), records[1..]))
  }

  function Taught(t: Table, records: seq<Record>): Table
    decreases |records|
  {
    if records == [] then t else Taught(Learned(t, records[0]), records[1..])
  }

  lemma {:induction false} WalkOne(r: Record, rest: seq<Byte>, t: Table)
    requires Readable(t, r)
    ensures Walk(RecordBytes(r) + rest, t)
         == match Walk(rest, Learned(t, r)) case None => None case Some(more) => Some([r] + more)
  {
    var s := RecordBytes(r) + rest;
    var n := |r.body| + 3;
    assert Length(t, r.typ) == Some(n);
    assert s[3..n] == r.body && s[n..] == rest;
  }

  lemma {:induction false} WalkAll(records: seq<Record>, t: Table)
    requires AllReadable(t, records)
    ensures Walk(Stream(records), t) == Some(records)
    decreases |records|
  {
    if records != [] {
      WalkOne(records[0], Stream(records[1..]), t);
      WalkAll(records[1..], Learned(t, records[0]));
      assert [records[0]] + records[1..] == records;
    }
  }

  lemma {:induction false} ReadableParts(t: Table, a: seq<Record>, b: seq<Record>)
    requires AllReadable(t, a) && AllReadable(Taught(t, a), b)
    ensures AllReadable(t, a + b) && Taught(t, a + b) == Taught(Taught(t, a), b)
    decreases |a|
  {
    if a == [] {
      assert a + b == b;
    } else {
      ReadableParts(Learned(t, a[0]), a[1..], b);
      assert (a + b)[1..] == a[1..] + b;
    }
  }

  lemma {:induction false} OneReadable(t: Table, r: Record)
    requires Readable(t, r)
    ensures AllReadable(t, [r]) && Taught(t, [r]) == Learned(t, r)
  {
    assert [r][1..] == [];
  }

  // ----- The writer -----

  datatype Row = Row(
    time: Word, gyrX: FourBytes, gyrY: FourBytes, gyrZ: FourBytes, accX: FourBytes, accY: FourBytes, accZ: FourBytes,
    volt: FourBytes, curr: FourBytes, zero: FourBytes, temp: FourBytes, lat: FourBytes, lng: FourBytes, alt: FourBytes,
    hdop: FourBytes, sats: Byte)

  datatype Parameter = Parameter(name: string, value: FourBytes)

  function Front(b: seq<Byte>, n: nat): (f: seq<Byte>)
    ensures |f| <= n && |f| <= |b|
  {
    if |b| <= n then b else b[..n]
  }

  function TextRecord(text: string): Record {
    Record(Text.typ, Little(0, 8) + Padded(Front(Encoded(text), 63), 64))
  }

  function ParmRecord(p: Parameter): Record {
    Record(Parm.typ, Little(0, 8) + Padded(Front(Encoded(p.name), 15), 16) + p.value)
  }

  function ImuRecord(r: Row): Record {
    Record(Imu.typ, Little(r.time, 8) + r.gyrX + r.gyrY + r.gyrZ + r.accX + r.accY + r.accZ)
  }

  function BatRecord(r: Row): Record {
    Record(Bat.typ, Little(r.time, 8) + r.volt + r.curr + r.zero + r.temp)
  }

  function GpsRecord(r: Row): Record {
    Record(Gps.typ, Little(r.time, 8) + [3] + r.lat + r.lng + r.alt + r.hdop + [r.sats])
  }

  function FmtRecords(kinds: seq<Kind>): seq<Record> {
    if kinds == [] then [] else FmtRecords(kinds[..|kinds| - 1]) + [FmtRecord(kinds[|kinds| - 1])]
  }

  function ParmRecords(params: seq<Parameter>): seq<Record> {
    if params == [] then [] else ParmRecords(params[..|params| - 1]) + [ParmRecord(params[|params| - 1])]
  }

  /** The records of all rows; battery and position are logged every fourth row only. */
  function RowRecords(rows: seq<Row>): seq<Record> {
    if rows == [] then []
    else
      var n := |rows| - 1;
      RowRecords(rows[..n]) + [ImuRecord(rows[n])]
      + (if n % 4 == 0 then [BatRecord(rows[n]), GpsRecord(rows[n])] else [])
  }

  function Records(banner: string, params: seq<Parameter>, rows: seq<Row>): seq<Record> {
    FmtRecords(Kinds) + [TextRecord(banner)] + ParmRecords(params) + RowRecords(rows)
  }

  method WriteDataflash(banner: string, params: seq<Parameter>, rows: seq<Row>) returns (out: seq<Byte>)
    ensures out == Stream(Records(banner, params, rows))
  {
    out := [];
    ghost var done: seq<Record> := [];
    for i := 0 to |Kinds|
      invariant done == FmtRecords(Kinds[..i]) && out == Stream(done)
    {
      assert Kinds[..i + 1][..i] == Kinds[..i];
      out, done := WriteRecord(FmtRecord(Kinds[i]), out, done);
    }
    assert Kinds[..|Kinds|] == Kinds;
    out, done := WriteRecord(TextRecord(banner), out, done);
    out, done := WriteParameters(params, out, done);
    out, done := WriteRows(rows, out, done);
  }

  method WriteParameters(params: seq<Parameter>, written: seq<Byte>, ghost before: seq<Record>)
    returns (out: seq<Byte>, ghost done: seq<Record>)
    requires written == Stream(before)
    ensures done == before + ParmRecords(params) && out == Stream(done)
  {
    out, done := written, before;
    for i := 0 to |params|
      invariant done == before + ParmRecords(params[..i]) && out == Stream(done)
    {
      assert params[..i + 1][..i] == params[..i];
      out, done := WriteRecord(ParmRecord(params[i]), out, done);
    }
    assert params[..|params|] == params;
  }

  method WriteRows(rows: seq<Row>, written: seq<Byte>, ghost before: seq<Record>)
    returns (out: seq<Byte>, ghost done: seq<Record>)
    requires written == Stream(before)
    ensures done == before + RowRecords(rows) && out == Stream(done)
  {
    out, done := written, before;
    for i := 0 to |rows|
      invariant done == before + RowRecords(rows[..i]) && out == Stream(done)
    {
      assert rows[..i + 1][..i] == rows[..i];
      out, done := WriteRecord(ImuRecord(rows[i]), out, done);
      if i % 4 == 0 {
        out, done := WriteRecord(BatRecord(rows[i]), out, done);
        out, done := WriteRecord(GpsRecord(rows[i]), out, done);
      }
    }
    assert rows[..|rows|] == rows;
  }

  method WriteRecord(r: Record, written: seq<Byte>, ghost before: seq<Record>)
    returns (out: seq<Byte>, ghost done: seq<Record>)
    requires written == Stream(before)
    ensures done == before + [r] && out == Stream(done)
  {
    StreamAppend(before, r);
    out, done := written + RecordBytes(r), before + [r];
  }

  // ----- The lengths agree -----

  /** The letters of a kind and its struct format come to the same size, which fits its FMT record. */
  ghost predicate Sound(k: Kind) {
    && k.typ != FmtType
    && |k.letters| <= 16
    && (forall i :: 0 <= i < |k.letters| ==> 0 < k.letters[i] as int < 128)
    && StructSize(k.struct, 0) < 253
    && LettersSize(Encoded(k.letters)) == Some(StructSize(k.struct, 0))
  }

  lemma {:induction false} PaddingAddsNothing(b: seq<Byte>, n: nat)
    requires |b| <= n && forall i :: 0 <= i < |b| ==> b[i] != 0
    ensures LettersSize(Padded(b, n)) == LettersSize(b)
  {
    if b != [] {
      PaddingAddsNothing(b[1..], n - 1);
      assert Padded(b, n)[1..] == Padded(b[1..], n - 1);
    }
  }

  lemma {:induction false} FmtIsReadable(t: Table, k: Kind)
    requires Sound(k)
    ensures Readable(t, FmtRecord(k)) && Learned(t, FmtRecord(k)) == t[k.typ := 3 + StructSize(k.struct, 0)]
  {
    PaddingAddsNothing(Encoded(k.letters), 16);
    FmtBodyIsReadable(t, k.typ, StructSize(k.struct, 0), Padded(Encoded(k.name), 4), Padded(Encoded(k.letters), 16),
                      Padded(Encoded(k.columns), 64));
  }

  lemma {:induction false} FmtBodyIsReadable(t: Table, typ: Byte, size: nat, name: seq<Byte>, letters: seq<Byte>,
                                             columns: seq<Byte>)
    requires typ != FmtType && size < 253 && LettersSize(letters) == Some(size)
    requires |name| == 4 && |letters| == 16 && |columns| == 64
    ensures var r := Record(FmtType, [typ, (3 + size) % 256] + name + letters + columns);
            Readable(t, r) && Learned(t, r) == t[typ := 3 + size]
  {
    FmtBody(typ, (3 + size) % 256, name, letters, columns);
  }

  lemma {:induction false} FmtBody(typ: Byte, length: Byte, name: seq<Byte>, letters: seq<Byte>, columns: seq<Byte>)
    requires |name| == 4 && |letters| == 16 && |columns| == 64
    ensures var body := [typ, length] + name + letters + columns;
            |body| == 86 && body[0] == typ && body[1] == length && body[6..22] == letters
  {
  }

  lemma {:induction false} LettersFrom(b: seq<Byte>, i: nat, n: nat, more: nat)
    requires i < |b| && b[i] != 0 && LetterSize(b[i] as char) == Some(n) && LettersSize(b[i + 1..]) == Some(more)
    ensures LettersSize(b[i..]) == Some(n + more)
  {
    assert b[i..][1..] == b[i + 1..];
  }

  lemma {:induction false} StructFrom(s: string, i: nat, count: nat)
    requires i < |s|
    ensures StructSize(s[i..], count)
         == if '0' <= s[i] <= '9' then StructSize(s[i + 1..], count * 10 + (s[i] as int - '0' as int))
            else LetterBytes(s[i], count) + StructSize(s[i + 1..], 0)
    ensures StructSize("", count) == 0
  {
    assert s[i..][1..] == s[i + 1..];
  }

  lemma {:induction false} ImuLetters()
    ensures LettersSize(Encoded(Imu.letters)) == Some(32)
  {
    var b := Encoded(Imu.letters);
    LettersFrom(b, 6, 4, 0);
    LettersFrom(b, 5, 4, 4);
    LettersFrom(b, 4, 4, 8);
    LettersFrom(b, 3, 4, 12);
    LettersFrom(b, 2, 4, 16);
    LettersFrom(b, 1, 4, 20);
    LettersFrom(b, 0, 8, 24);
    assert b[0..] == b;
  }

  lemma {:induction false} ImuStruct()
    ensures StructSize(Imu.struct, 0) == 32
  {
    var s := Imu.struct;
    StructFrom(s, 6, 0);
    assert StructSize(s[6..], 0) == 4;
    StructFrom(s, 5, 0);
    assert StructSize(s[5..], 0) == 8;
    StructFrom(s, 4, 0);
    assert StructSize(s[4..], 0) == 12;
    StructFrom(s, 3, 0);
    assert StructSize(s[3..], 0) == 16;
    StructFrom(s, 2, 0);
    assert StructSize(s[2..], 0) == 20;
    StructFrom(s, 1, 0);
    assert StructSize(s[1..], 0) == 24;
    StructFrom(s, 0, 0);
    assert StructSize(s[0..], 0) == 32;
    assert s[0..] == s;
  }

  lemma {:induction false} ImuIsSound()
    ensures Sound(Imu) && StructSize(Imu.struct, 0) == 32
  {
    ImuLetters();
    ImuStruct();
  }

  lemma {:induction false} BatLetters()
    ensures LettersSize(Encoded(Bat.letters)) == Some(24)
  {
    var b := Encoded(Bat.letters);
    LettersFrom(b, 4, 4, 0);
    LettersFrom(b, 3, 4, 4);
    LettersFrom(b, 2, 4, 8);
    LettersFrom(b, 1, 4, 12);
    LettersFrom(b, 0, 8, 16);
    assert b[0..] == b;
  }

  lemma {:induction false} BatStruct()
    ensures StructSize(Bat.struct, 0) == 24
  {
    var s := Bat.struct;
    StructFrom(s, 4, 0);
    assert StructSize(s[4..], 0) == 4;
    StructFrom(s, 3, 0);
    assert StructSize(s[3..], 0) == 8;
    StructFrom(s, 2, 0);
    assert StructSize(s[2..], 0) == 12;
    StructFrom(s, 1, 0);
    assert StructSize(s[1..], 0) == 16;
    StructFrom(s, 0, 0);
    assert StructSize(s[0..], 0) == 24;
    assert s[0..] == s;
  }

  lemma {:induction false} BatIsSound()
    ensures Sound(Bat) && StructSize(Bat.struct, 0) == 24
  {
    BatLetters();
    BatStruct();
  }

  lemma {:induction false} GpsLetters()
    ensures LettersSize(Encoded(Gps.letters)) == Some(26)
  {
    var b := Encoded(Gps.letters);
    LettersFrom(b, 6, 1, 0);
    LettersFrom(b, 5, 4, 1);
    LettersFrom(b, 4, 4, 5);
    LettersFrom(b, 3, 4, 9);
    LettersFrom(b, 2, 4, 13);
    LettersFrom(b, 1, 1, 17);
    LettersFrom(b, 0, 8, 18);
    assert b[0..] == b;
  }

  lemma {:induction false} GpsStruct()
    ensures StructSize(Gps.struct, 0) == 26
  {
    var s := Gps.struct;
    StructFrom(s, 6, 0);
    assert StructSize(s[6..], 0) == 1;
    StructFrom(s, 5, 0);
    assert StructSize(s[5..], 0) == 5;
    StructFrom(s, 4, 0);
    assert StructSize(s[4..], 0) == 9;
    StructFrom(s, 3, 0);
    assert StructSize(s[3..], 0) == 13;
    StructFrom(s, 2, 0);
    assert StructSize(s[2..], 0) == 17;
    StructFrom(s, 1, 0);
    assert StructSize(s[1..], 0) == 18;
    StructFrom(s, 0, 0);
    assert StructSize(s[0..], 0) == 26;
    assert s[0..] == s;
  }

  lemma {:induction false} GpsIsSound()
    ensures Sound(Gps) && StructSize(Gps.struct, 0) == 26
  {
    GpsLetters();
    GpsStruct();
    SoundBySizes(Gps, 26);
  }

  lemma {:induction false} SoundBySizes(k: Kind, n: nat)
    requires k.typ != FmtType && |k.letters| <= 16
    requires forall i :: 0 <= i < |k.letters| ==> 0 < k.letters[i] as int < 128
    requires n < 253 && StructSize(k.struct, 0) == n && LettersSize(Encoded(k.letters)) == Some(n)
    ensures Sound(k)
  {
  }

  lemma {:induction false} TextLetters()
    ensures LettersSize(Encoded(Text.letters)) == Some(72)
  {
    var b := Encoded(Text.letters);
    LettersFrom(b, 1, 64, 0);
    LettersFrom(b, 0, 8, 64);
    assert b[0..] == b;
  }

  lemma {:induction false} TextStruct()
    ensures StructSize(Text.struct, 0) == 72
  {
    var s := Text.struct;
    StructFrom(s, 3, 64);
    assert StructSize(s[3..], 64) == 64;
    StructFrom(s, 2, 6);
    assert StructSize(s[2..], 6) == 64;
    StructFrom(s, 1, 0);
    assert StructSize(s[1..], 0) == 64;
    StructFrom(s, 0, 0);
    assert StructSize(s[0..], 0) == 72;
    assert s[0..] == s;
  }

  lemma {:induction false} TextIsSound()
    ensures Sound(Text) && StructSize(Text.struct, 0) == 72
  {
    TextLetters();
    TextStruct();
  }

  lemma {:induction false} ParmLetters()
    ensures LettersSize(Encoded(Parm.letters)) == Some(28)
  {
    var b := Encoded(Parm.letters);
    LettersFrom(b, 2, 4, 0);
    LettersFrom(b, 1, 16, 4);
    LettersFrom(b, 0, 8, 20);
    assert b[0..] == b;
  }

  lemma {:induction false} ParmStruct()
    ensures StructSize(Parm.struct, 0) == 28
  {
    var s := Parm.struct;
    StructFrom(s, 4, 0);
    assert StructSize(s[4..], 0) == 4;
    StructFrom(s, 3, 16);
    assert StructSize(s[3..], 16) == 20;
    StructFrom(s, 2, 1);
    assert StructSize(s[2..], 1) == 20;
    StructFrom(s, 1, 0);
    assert StructSize(s[1..], 0) == 20;
    StructFrom(s, 0, 0);
    assert StructSize(s[0..], 0) == 28;
    assert s[0..] == s;
  }

  lemma {:induction false} ParmIsSound()
    ensures Sound(Parm) && StructSize(Parm.struct, 0) == 28
  {
    ParmLetters();
    ParmStruct();
  }

  const Lengths: Table := map[1 := 35, 2 := 27, 3 := 29, 4 := 75, 5 := 31]

  /** The lengths the FMT records of these kinds announce. */
  function LengthsOf(kinds: seq<Kind>): Table {
    if kinds == [] then map[]
    else
      var n := |kinds| - 1;
      LengthsOf(kinds[..n])[kinds[n].typ := 3 + StructSize(kinds[n].struct, 0)]
  }

  lemma {:induction false} KindsTeach(kinds: seq<Kind>)
    requires forall i :: 0 <= i < |kinds| ==> Sound(kinds[i])
    ensures AllReadable(map[], FmtRecords(kinds)) && Taught(map[], FmtRecords(kinds)) == LengthsOf(kinds)
  {
    if kinds != [] {
      var n := |kinds| - 1;
      KindsTeach(kinds[..n]);
      FmtIsReadable(LengthsOf(kinds[..n]), kinds[n]);
      OneReadable(LengthsOf(kinds[..n]), FmtRecord(kinds[n]));
      ReadableParts(map[], FmtRecords(kinds[..n]), [FmtRecord(kinds[n])]);
    }
  }

  lemma {:induction false} KindsAreSound()
    ensures forall k :: k in Kinds ==> Sound(k)
  {
    ImuIsSound();
    BatIsSound();
    GpsIsSound();
    TextIsSound();
    ParmIsSound();
  }

  lemma {:induction false} KindsHaveLengths()
    ensures LengthsOf(Kinds) == Lengths
  {
    ImuStruct();
    BatStruct();
    GpsStruct();
    TextStruct();
    ParmStruct();
    FiveLengths(Imu, Bat, Gps, Text, Parm);
  }

  lemma {:induction false} FiveLengths(a: Kind, b: Kind, c: Kind, d: Kind, e: Kind)
    ensures LengthsOf([a, b, c, d, e])
         == map[][a.typ := 3 + StructSize(a.struct, 0)][b.typ := 3 + StructSize(b.struct, 0)]
                 [c.typ := 3 + StructSize(c.struct, 0)][d.typ := 3 + StructSize(d.struct, 0)]
                 [e.typ := 3 + StructSize(e.struct, 0)]
  {
    LengthsAppend([], a);
    LengthsAppend([a], b);
    LengthsAppend([a, b], c);
    LengthsAppend([a, b, c], d);
    LengthsAppend([a, b, c, d], e);
    assert [] + [a] == [a] && [a] + [b] == [a, b] && [a, b] + [c] == [a, b, c];
    assert [a, b, c] + [d] == [a, b, c, d] && [a, b, c, d] + [e] == [a, b, c, d, e];
  }

  lemma {:induction false} LengthsAppend(kinds: seq<Kind>, k: Kind)
    ensures LengthsOf(kinds + [k]) == LengthsOf(kinds)[k.typ := 3 + StructSize(k.struct, 0)]
  {
    assert (kinds + [k])[..|kinds|] == kinds;
  }

  /** Data records of the announced lengths are readable and teach nothing. */
  lemma {:induction false} DataIsReadable(t: Table, records: seq<Record>)
    requires forall i :: 0 <= i < |records| ==> records[i].typ != FmtType && Readable(t, records[i])
    ensures AllReadable(t, records) && Taught(t, records) == t
  {
    if records != [] {
      DataIsReadable(t, records[1..]);
    }
  }

  lemma {:induction false} ParmsAreReadable(params: seq<Parameter>)
    ensures forall r :: r in ParmRecords(params) ==> r.typ != FmtType && Readable(Lengths, r)
  {
    if params != [] {
      ParmsAreReadable(params[..|params| - 1]);
    }
  }

  lemma {:induction false} RowsAreReadable(rows: seq<Row>)
    ensures forall r :: r in RowRecords(rows) ==> r.typ != FmtType && Readable(Lengths, r)
  {
    if rows != [] {
      RowsAreReadable(rows[..|rows| - 1]);
    }
  }

  /** For every banner, parameter table and profile: walking the stream by the lengths its own FMT records announce
      visits exactly the records written. */
  lemma {:induction false} StreamWalksExactly(banner: string, params: seq<Parameter>, rows: seq<Row>)
    ensures Walk(Stream(Records(banner, params, rows)), map[]) == Some(Records(banner, params, rows))
  {
    KindsAreSound();
    KindsHaveLengths();
    var data := DataRecords(banner, params, rows);
    WalkBehindFormats(Kinds, data);
    Group(FmtRecords(Kinds), [TextRecord(banner)], ParmRecords(params), RowRecords(rows));
  }

  lemma {:induction false} Group(a: seq<Record>, b: seq<Record>, c: seq<Record>, d: seq<Record>)
    ensures a + b + c + d == a + (b + c + d)
  {
  }

  lemma {:induction false} WalkBehindFormats(kinds: seq<Kind>, data: seq<Record>)
    requires (forall k :: k in kinds ==> Sound(k)) && LengthsOf(kinds) == Lengths
    requires forall i :: 0 <= i < |data| ==> data[i].typ != FmtType && Readable(Lengths, data[i])
    ensures Walk(Stream(FmtRecords(kinds) + data), map[]) == Some(FmtRecords(kinds) + data)
  {
    KindsTeach(kinds);
    DataIsReadable(Lengths, data);
    ReadableParts(map[], FmtRecords(kinds), data);
    WalkAll(FmtRecords(kinds) + data, map[]);
  }

  lemma {:induction false} DataRecords(banner: string, params: seq<Parameter>, rows: seq<Row>)
    returns (data: seq<Record>)
    ensures data == [TextRecord(banner)] + ParmRecords(params) + RowRecords(rows)
    ensures forall i :: 0 <= i < |data| ==> data[i].typ != FmtType && Readable(Lengths, data[i])
  {
    ParmsAreReadable(params);
    RowsAreReadable(rows);
    data := [TextRecord(banner)] + ParmRecords(params) + RowRecords(rows);
    forall i | 0 <= i < |data| ensures data[i].typ != FmtType && Readable(Lengths, data[i]) {
      assert data[i] == TextRecord(banner) || data[i] in ParmRecords(params) || data[i] in RowRecords(rows);
    }
  }
}
