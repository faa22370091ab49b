/** UUID version 7: the packing of its fields, their text, and why the text sorts like the fields
    (section 5.7 of RFC 9562). */
module UuidV7 {
  import opened Bits
  import opened Bytes
  import opened Strings

  /** The clock in milliseconds and the two random fields. */
  datatype Fields = Fields(ms: nat, randA: nat, randB: nat)

  predicate InRange(f: Fields) {
    f.ms < 0x1_0000_0000_0000 && f.randA < 0x1000 && f.randB < 0x4000_0000_0000_0000
  }

  /** The byte of `x` at bit offset `shift`, given as a power of two. */
  function ByteAt(x: nat, shift: nat): Byte
    requires shift > 0
  {
    x / shift % 256
  }

  /** The version bits set over the low four bits of `x`, and the variant bits over the low six. */
  lemma {:induction false} TaggedBytes(x: nat)
    ensures BitOr(0x70, BitAnd(x, 0x0F)) == 0x70 + x % 16
    ensures BitOr(0x80, BitAnd(x, 0x3F)) == 0x80 + x % 64
  {
    assert Power(4) == 16 && Power(6) == 64;
    MaskIsRemainder(x, 4);
    OrIsSum(7, x % 16, 4);
    MaskIsRemainder(x, 6);
    OrIsSum(2, x % 64, 6);
  }

  /** The sixteen bytes. */
  function Packed(f: Fields): (b: seq<Byte>)
    ensures |b| == 16
  {
    [ ByteAt(f.ms, 0x100_0000_0000), ByteAt(f.ms, 0x1_0000_0000), ByteAt(f.ms, 0x100_0000),
      ByteAt(f.ms, 0x1_0000), ByteAt(f.ms, 0x100), ByteAt(f.ms, 1),
      0x70 + f.randA / 0x100 % 16, ByteAt(f.randA, 1),
      0x80 + f.randB / 0x100_0000_0000_0000 % 64, ByteAt(f.randB, 0x1_0000_0000_0000),
      ByteAt(f.randB, 0x100_0000_0000), ByteAt(f.randB, 0x1_0000_0000), ByteAt(f.randB, 0x100_0000),
      ByteAt(f.randB, 0x1_0000), ByteAt(f.randB, 0x100), ByteAt(f.randB, 1) ]
  }

  /** The text of the bytes from position `i` on: two digits each, with a dash before bytes 4, 6, 8 and 10. */
  function TextFrom(b: seq<Byte>, i: nat): string
    requires i <= |b|
    decreases |b| - i
  {
    if i == |b| then ""
    else (if i == 4 || i == 6 || i == 8 || i == 10 then "-" else "")
         + TwoDigits(b[i]) + TextFrom(b, i + 1)
  }

  function TwoDigits(x: Byte): string {
    [HexChar(x / 16), HexChar(x % 16)]
  }

  function Text(f: Fields): string {
    TextFrom(Packed(f), 0)
  }

  lemma {:induction false} TextStep(b: seq<Byte>, i: nat)
    requires i < |b|
    ensures TextFrom(b, i)
         == (if i == 4 || i == 6 || i == 8 || i == 10 then "-" else "") + TwoDigits(b[i]) + TextFrom(b, i + 1)
  {
  }

  /** Fills the byte array, the time first. */
  method Pack(f: Fields) returns (b: array<Byte>)
    ensures fresh(b) && b[..] == Packed(f)
  {
    b := new Byte[16](_ => 0);
    b[0] := ByteAt(f.ms, 0x100_0000_0000);
    b[1] := ByteAt(f.ms, 0x1_0000_0000);
    b[2] := ByteAt(f.ms, 0x100_0000);
    b[3] := ByteAt(f.ms, 0x1_0000);
    b[4] := ByteAt(f.ms, 0x100);
    b[5] := ByteAt(f.ms, 1);
    PackRandom(f, b);
  }

  /** Fills in version, variant and the random fields. */
  method PackRandom(f: Fields, b: array<Byte>)
    requires b.Length == 16 && forall i :: 0 <= i < 6 ==> b[i] == Packed(f)[i]
    modifies b
    ensures b[..] == Packed(f)
  {
    var six, eight := TagBytes(f);
    b[6] := six;
    b[7] := ByteAt(f.randA, 1);
    b[8] := eight;
    b[9] := ByteAt(f.randB, 0x1_0000_0000_0000);
    ghost var p := Packed(f);
    assert b[6] == p[6] && b[7] == p[7] && b[8] == p[8] && b[9] == p[9];
    PackTail(f, b);
  }

  method TagBytes(f: Fields) returns (six: Byte, eight: Byte)
    ensures six == Packed(f)[6] && eight == Packed(f)[8]
  {
    six := Tagged(0x70, 0x0F, f.randA / 0x100);
    eight := Tagged(0x80, 0x3F, f.randB / 0x100_0000_0000_0000);
  }

  method Tagged(tag: Byte, mask: Byte, x: nat) returns (b: Byte)
    requires (tag == 0x70 && mask == 0x0F) || (tag == 0x80 && mask == 0x3F)
    ensures b == tag + x % (mask + 1)
  {
    TaggedBytes(x);
    b := BitOr(tag, BitAnd(x, mask));
  }

  method PackTail(f: Fields, b: array<Byte>)
    requires b.Length == 16 && forall i :: 0 <= i < 10 ==> b[i] == Packed(f)[i]
    modifies b
    ensures b[..] == Packed(f)
  {
    ghost var p := Packed(f);
    b[10] := ByteAt(f.randB, 0x100_0000_0000);
    b[11] := ByteAt(f.randB, 0x1_0000_0000);
    b[12] := ByteAt(f.randB, 0x100_0000);
    b[13] := ByteAt(f.randB, 0x1_0000);
    b[14] := ByteAt(f.randB, 0x100);
    b[15] := ByteAt(f.randB, 1);
    assert b[10] == p[10] && b[11] == p[11] && b[12] == p[12];
    assert b[13] == p[13] && b[14] == p[14] && b[15] == p[15];
    AllSixteen(b[..], p);
  }

  lemma {:induction false} AllSixteen(b: seq<Byte>, p: seq<Byte>)
    requires |b| == 16 == |p| && forall i :: 0 <= i < 10 ==> b[i] == p[i]
    requires b[10] == p[10] && b[11] == p[11] && b[12] == p[12] && b[13] == p[13] && b[14] == p[14] && b[15] == p[15]
    ensures b == p
  {
  }

  /** Writes the bytes as text. */
  method Format(b: array<Byte>) returns (out: string)
    ensures out == TextFrom(b[..], 0)
  {
    out := "";
    for i := 0 to b.Length
      invariant out + TextFrom(b[..], i) == TextFrom(b[..], 0)
    {
      ghost var before, rest := out, TextFrom(b[..], i + 1);
      TextStep(b[..], i);
      if i == 4 || i == 6 || i == 8 || i == 10 {
        out := out + "-";
        JoinFour(before, "-", TwoDigits(b[i]), rest);
        Join("-", TwoDigits(b[i]), rest);
      } else {
        JoinFour(before, "", TwoDigits(b[i]), rest);
        Join("", TwoDigits(b[i]), rest);
        assert before + "" == before;
      }
      out := out + [HexChar(b[i] / 16), HexChar(b[i] % 16)];
    }
    assert out + "" == out;
  }

  /** A UUID for a clock reading and two random draws, each cut down to the width of its field. */
  method Uuid(ms: nat, drawA: nat, drawB: nat) returns (out: string)
    ensures out == Text(Fields(ms, drawA % 0x1000, drawB % 0x4000_0000_0000_0000))
  {
    var b := Pack(Fields(ms, drawA % 0x1000, drawB % 0x4000_0000_0000_0000));
    out := Format(b);
  }

  // ----- The layout as three numbers -----

  /** The `n` low bytes of `x`, most significant first. */
  function BigEndian(x: nat, n: nat): (b: seq<Byte>)
    ensures |b| == n
  {
    if n == 0 then [] else BigEndian(x / 256, n - 1) + [x % 256]
  }

  /** Version 7 in the top four of sixteen bits. */
  function Middle(f: Fields): nat {
    0x7000 + f.randA
  }

  /** The variant of RFC 9562 in the top two of sixty-four bits. */
  function Low(f: Fields): nat {
    0x8000_0000_0000_0000 + f.randB
  }

  lemma {:induction false} FieldsFit(f: Fields)
    requires InRange(f)
    ensures Fits(f.ms, 6) && Fits(Middle(f), 2) && Fits(Low(f), 8)
  {
    FourBigEndian(f.ms);
    FourBigEndian(f.ms / 0x1_0000_0000);
    FourBigEndian(Low(f));
    FourBigEndian(Low(f) / 0x1_0000_0000);
  }

  lemma {:induction false} FourBigEndian(x: nat)
    ensures forall n :: n >= 4 ==> Fits(x, n) == Fits(x / 0x1_0000_0000, n - 4)
    ensures Fits(x, 2) == (x < 0x1_0000) && Fits(x, 4) == (x < 0x1_0000_0000)
  {
    assert x / 256 / 256 == x / 0x1_0000;
    assert x / 0x1_0000 / 256 / 256 == x / 0x1_0000_0000;
    assert Fits(x, 2) == Fits(x / 256, 1) == Fits(x / 0x1_0000, 0);
    assert Fits(x, 4) == Fits(x / 256, 3) == Fits(x / 0x1_0000, 2) == Fits(x / 0x1_0000 / 256, 1);
    forall n | n >= 4 ensures Fits(x, n) == Fits(x / 0x1_0000_0000, n - 4) {
      assert Fits(x, n) == Fits(x / 256, n - 1) == Fits(x / 0x1_0000, n - 2);
      assert Fits(x / 0x1_0000, n - 2) == Fits(x / 0x1_0000 / 256, n - 3) == Fits(x / 0x1_0000_0000, n - 4);
    }
  }

  lemma {:induction false} LowBytes4(x: nat)
    ensures BigEndian(x, 4) == [ByteAt(x, 0x100_0000), ByteAt(x, 0x1_0000), ByteAt(x, 0x100), ByteAt(x, 1)]
    ensures forall n :: n >= 4 ==> BigEndian(x, n) == BigEndian(x / 0x1_0000_0000, n - 4) + BigEndian(x, 4)
  {
    assert x / 1 == x;
    assert x / 256 / 256 == x / 0x1_0000 && x / 0x1_0000 / 256 == x / 0x100_0000;
    assert x / 0x100_0000 / 256 == x / 0x1_0000_0000;
    assert BigEndian(x / 0x1_0000_0000, 0) == [];
    assert BigEndian(x / 0x100_0000, 1) == [ByteAt(x, 0x100_0000)];
    assert BigEndian(x / 0x1_0000, 2) == [ByteAt(x, 0x100_0000), ByteAt(x, 0x1_0000)];
    assert BigEndian(x / 0x100, 3) == [ByteAt(x, 0x100_0000), ByteAt(x, 0x1_0000), ByteAt(x, 0x100)];
    forall n | n >= 4 ensures BigEndian(x, n) == BigEndian(x / 0x1_0000_0000, n - 4) + BigEndian(x, 4) {
      assert BigEndian(x, n) == BigEndian(x / 0x100, n - 1) + [ByteAt(x, 1)];
      assert BigEndian(x / 0x100, n - 1) == BigEndian(x / 0x1_0000, n - 2) + [ByteAt(x, 0x100)];
      assert BigEndian(x / 0x1_0000, n - 2) == BigEndian(x / 0x100_0000, n - 3) + [ByteAt(x, 0x1_0000)];
      assert BigEndian(x / 0x100_0000, n - 3) == BigEndian(x / 0x1_0000_0000, n - 4) + [ByteAt(x, 0x100_0000)];
    }
  }

  lemma {:induction false} TwoBigEndian(x: nat)
    ensures BigEndian(x, 2) == [ByteAt(x, 0x100), ByteAt(x, 1)]
  {
    assert x / 1 == x;
    assert BigEndian(x / 256 / 256, 0) == [] && BigEndian(x / 256, 1) == [ByteAt(x, 0x100)];
  }

  lemma {:induction false} TimeBigEndian(ms: nat)
    ensures BigEndian(ms, 6) == [ ByteAt(ms, 0x100_0000_0000), ByteAt(ms, 0x1_0000_0000), ByteAt(ms, 0x100_0000),
                              ByteAt(ms, 0x1_0000), ByteAt(ms, 0x100), ByteAt(ms, 1) ]
  {
    LowBytes4(ms);
    TwoBigEndian(ms / 0x1_0000_0000);
    assert ms / 0x1_0000_0000 / 0x100 == ms / 0x100_0000_0000;
  }

  lemma {:induction false} MiddleBigEndian(f: Fields)
    requires InRange(f)
    ensures BigEndian(Middle(f), 2) == [0x70 + f.randA / 0x100 % 16, ByteAt(f.randA, 1)]
  {
    TwoBigEndian(Middle(f));
    assert f.randA / 1 == f.randA;
    assert (0x7000 + f.randA) / 0x100 == 0x70 + f.randA / 0x100;
  }

  lemma {:induction false} LowBigEndian(f: Fields)
    requires InRange(f)
    ensures BigEndian(Low(f), 8)
         == [ 0x80 + f.randB / 0x100_0000_0000_0000 % 64, ByteAt(f.randB, 0x1_0000_0000_0000),
              ByteAt(f.randB, 0x100_0000_0000), ByteAt(f.randB, 0x1_0000_0000), ByteAt(f.randB, 0x100_0000),
              ByteAt(f.randB, 0x1_0000), ByteAt(f.randB, 0x100), ByteAt(f.randB, 1) ]
  {
    var r := f.randB;
    var h := r / 0x1_0000_0000;
    LowBytes4(Low(f));
    LowBytes4(0x8000_0000 + h);
    assert Low(f) / 0x1_0000_0000 == 0x8000_0000 + h;
    HighShifts(r);
    LowShifts(r);
  }

  lemma {:induction false} HighShifts(r: nat)
    requires r < 0x4000_0000_0000_0000
    ensures var h := r / 0x1_0000_0000;
            && ByteAt(0x8000_0000 + h, 0x100_0000) == 0x80 + r / 0x100_0000_0000_0000 % 64
            && ByteAt(0x8000_0000 + h, 0x1_0000) == ByteAt(r, 0x1_0000_0000_0000)
            && ByteAt(0x8000_0000 + h, 0x100) == ByteAt(r, 0x100_0000_0000)
            && ByteAt(0x8000_0000 + h, 1) == ByteAt(r, 0x1_0000_0000)
  {
    var h := r / 0x1_0000_0000;
    assert h < 0x4000_0000;
    assert h / 0x100_0000 == r / 0x100_0000_0000_0000;
    assert h / 0x1_0000 == r / 0x1_0000_0000_0000;
    assert h / 0x100 == r / 0x100_0000_0000;
    SetTop(h);
  }

  lemma {:induction false} SetTop(h: nat)
    requires h < 0x4000_0000
    ensures (0x8000_0000 + h) / 0x100_0000 % 256 == 0x80 + h / 0x100_0000 % 64
    ensures (0x8000_0000 + h) / 0x1_0000 % 256 == h / 0x1_0000 % 256
    ensures (0x8000_0000 + h) / 0x100 % 256 == h / 0x100 % 256
    ensures (0x8000_0000 + h) / 1 % 256 == h % 256
  {
    assert (0x8000_0000 + h) / 0x100_0000 == 0x80 + h / 0x100_0000;
    assert (0x8000_0000 + h) / 0x1_0000 == 0x8000 + h / 0x1_0000;
    assert (0x8000_0000 + h) / 0x100 == 0x80_0000 + h / 0x100;
    assert (0x8000_0000 + h) / 1 == 0x8000_0000 + h;
  }

  lemma {:induction false} LowShifts(r: nat)
    ensures var x := 0x8000_0000_0000_0000 + r;
            && ByteAt(x, 0x100_0000) == ByteAt(r, 0x100_0000)
            && ByteAt(x, 0x1_0000) == ByteAt(r, 0x1_0000)
            && ByteAt(x, 0x100) == ByteAt(r, 0x100)
            && ByteAt(x, 1) == ByteAt(r, 1)
  {
    var x := 0x8000_0000_0000_0000 + r;
    assert x / 0x100_0000 == 0x80_0000_0000 + r / 0x100_0000;
    assert x / 0x1_0000 == 0x8000_0000_0000 + r / 0x1_0000;
    assert x / 0x100 == 0x80_0000_0000_0000 + r / 0x100;
    assert x / 1 == x && r / 1 == r;
  }

  /** The bytes are three big-endian numbers in a row: the time, version and first random field, variant and second
      random field. */
  lemma {:induction false} PackedIsThreeNumbers(f: Fields)
    requires InRange(f)
    ensures Packed(f) == BigEndian(f.ms, 6) + BigEndian(Middle(f), 2) + BigEndian(Low(f), 8)
  {
    TimeBigEndian(f.ms);
    MiddleBigEndian(f);
    LowBigEndian(f);
  }

  // ----- Order -----

  /** Lexicographic order of bytes. */
  predicate Less(s: seq<Byte>, t: seq<Byte>) {
    if t == [] then false
    else if s == [] then true
    else if s[0] != t[0] then s[0] < t[0]
    else Less(s[1..], t[1..])
  }

  lemma {:induction false} HexOrder(d: nat, e: nat)
    requires d < 16 && e < 16
    ensures d < e <==> HexChar(d) < HexChar(e)
    ensures d == e <==> HexChar(d) == HexChar(e)
  {
    HexCode(d);
    HexCode(e);
  }

  lemma {:induction false} HexCode(d: nat)
    requires d < 16
    ensures HexChar(d) as int == if d < 10 then '0' as int + d else 'a' as int + d - 10
  {
    assert d == 0 || d == 1 || d == 2 || d == 3 || d == 4 || d == 5 || d == 6 || d == 7
           || d == 8 || d == 9 || d == 10 || d == 11 || d == 12 || d == 13 || d == 14 || d == 15;
  }

  lemma {:induction false} SameStart(c: char, s: string, t: string)
    ensures Before([c] + s, [c] + t) == Before(s, t)
  {
    assert ([c] + s)[1..] == s && ([c] + t)[1..] == t;
  }

  lemma {:induction false} DigitsDecide(x: Byte, y: Byte, s: string, t: string)
    ensures Before(TwoDigits(x) + s, TwoDigits(y) + t) <==> x < y || (x == y && Before(s, t))
  {
    HexOrder(x / 16, y / 16);
    HexOrder(x % 16, y % 16);
    var u, v := TwoDigits(x) + s, TwoDigits(y) + t;
    assert u[1..][1..] == s && v[1..][1..] == t;
  }

  /** The text sorts like the bytes. */
  lemma {:induction false} TextOrder(b: seq<Byte>, c: seq<Byte>, i: nat)
    requires i <= |b| == |c|
    ensures Before(TextFrom(b, i), TextFrom(c, i)) <==> Less(b[i..], c[i..])
    decreases |b| - i
  {
    if i < |b| {
      TextOrder(b, c, i + 1);
      LessStep(b, c, i);
      TextStep(b, i);
      TextStep(c, i);
      var s, t := TextFrom(b, i + 1), TextFrom(c, i + 1);
      DigitsDecide(b[i], c[i], s, t);
      DashOrNone(i, TwoDigits(b[i]), s, TwoDigits(c[i]), t);
    }
  }

  lemma {:induction false} LessStep(b: seq<Byte>, c: seq<Byte>, i: nat)
    requires i < |b| == |c|
    ensures Less(b[i..], c[i..]) <==> b[i] < c[i] || (b[i] == c[i] && Less(b[i + 1..], c[i + 1..]))
  {
    assert b[i..][1..] == b[i + 1..] && c[i..][1..] == c[i + 1..];
  }

  lemma {:induction false} DashOrNone(i: nat, x: string, s: string, y: string, t: string)
    ensures var dash := if i == 4 || i == 6 || i == 8 || i == 10 then "-" else "";
            Before(dash + x + s, dash + y + t) == Before(x + s, y + t)
  {
    if i == 4 || i == 6 || i == 8 || i == 10 {
      SameStart('-', x + s, y + t);
      Join("-", x, s);
      Join("-", y, t);
    } else {
      assert "" + x == x && "" + y == y;
    }
  }

  /** The first parts decide unless they are equal. */
  lemma {:induction false} LessOfParts(a: seq<Byte>, b: seq<Byte>, s: seq<Byte>, t: seq<Byte>)
    requires |a| == |b|
    ensures Less(a + s, b + t) <==> Less(a, b) || (a == b && Less(s, t))
  {
    if a == [] {
      assert a + s == s && b + t == t;
    } else {
      assert (a + s)[1..] == a[1..] + s && (b + t)[1..] == b[1..] + t;
      LessOfParts(a[1..], b[1..], s, t);
      assert a == [a[0]] + a[1..] && b == [b[0]] + b[1..];
    }
  }

  /** Numbers of at most n bytes sort like their bytes, and no two of them have the same ones. */
  lemma {:induction false} BytesSortLikeNumbers(x: nat, y: nat, n: nat)
    requires Fits(x, n) && Fits(y, n)
    ensures Less(BigEndian(x, n), BigEndian(y, n)) <==> x < y
    ensures BigEndian(x, n) == BigEndian(y, n) <==> x == y
  {
    if n > 0 {
      var a, b := BigEndian(x / 256, n - 1), BigEndian(y / 256, n - 1);
      BytesSortLikeNumbers(x / 256, y / 256, n - 1);
      LessOfParts(a, b, [x % 256], [y % 256]);
      assert BigEndian(x, n)[..n - 1] == a && BigEndian(y, n)[..n - 1] == b;
      assert BigEndian(x, n)[n - 1] == x % 256 && BigEndian(y, n)[n - 1] == y % 256;
    }
  }

  predicate FieldsLess(f: Fields, g: Fields) {
    || f.ms < g.ms
    || (f.ms == g.ms && f.randA < g.randA)
    || (f.ms == g.ms && f.randA == g.randA && f.randB < g.randB)
  }

  /** The texts of two UUIDs compare as strings exactly as their fields compare, time first. */
  lemma {:induction false} TextSortsLikeFields(f: Fields, g: Fields)
    requires InRange(f) && InRange(g)
    ensures Before(Text(f), Text(g)) <==> FieldsLess(f, g)
  {
    TextOrder(Packed(f), Packed(g), 0);
    assert Packed(f)[0..] == Packed(f) && Packed(g)[0..] == Packed(g);
    PackedIsThreeNumbers(f);
    PackedIsThreeNumbers(g);
    FieldsFit(f);
    FieldsFit(g);
    BytesSortLikeNumbers(f.ms, g.ms, 6);
    BytesSortLikeNumbers(Middle(f), Middle(g), 2);
    BytesSortLikeNumbers(Low(f), Low(g), 8);
    LessOfParts(BigEndian(f.ms, 6) + BigEndian(Middle(f), 2), BigEndian(g.ms, 6) + BigEndian(Middle(g), 2), BigEndian(Low(f), 8),
                BigEndian(Low(g), 8));
    LessOfParts(BigEndian(f.ms, 6), BigEndian(g.ms, 6), BigEndian(Middle(f), 2), BigEndian(Middle(g), 2));
    SameParts(BigEndian(f.ms, 6), BigEndian(Middle(f), 2), BigEndian(g.ms, 6), BigEndian(Middle(g), 2));
  }

  lemma {:induction false} SameParts(a: seq<Byte>, s: seq<Byte>, b: seq<Byte>, t: seq<Byte>)
    requires |a| == |b|
    ensures a + s == b + t <==> a == b && s == t
  {
    assert (a + s)[..|a|] == a && (a + s)[|a|..] == s;
    assert (b + t)[..|a|] == b && (b + t)[|a|..] == t;
  }

  // ----- Decoding -----

  function HexValue(c: char): int {
    if '0' <= c <= '9' then c as int - '0' as int else c as int - 'a' as int + 10
  }

  /** The digits of a text, without its dashes. */
  function Digits(text: string): seq<int> {
    if text == "" then []
    else if text[0] == '-' then Digits(text[1..])
    else [HexValue(text[0])] + Digits(text[1..])
  }

  function Hex(digits: seq<int>): int {
    if digits == [] then 0 else Hex(digits[..|digits| - 1]) * 16 + digits[|digits| - 1]
  }

  datatype Parsed = Parsed(ms: int, version: int, randA: int, variant: int, randB: int)

  /** Reads a UUID by the layout of section 5.7 of RFC 9562: 48 bits of time, 4 of version, 12 random ones, 2 of
      variant, 62 random ones. */
  function Parse(text: string): Parsed
    requires |Digits(text)| == 32
  {
    var d := Digits(text);
    var middle, low := Hex(d[12..16]), Hex(d[16..]);
    Parsed(Hex(d[..12]), middle / 0x1000, middle % 0x1000,
           low / 0x4000_0000_0000_0000, low % 0x4000_0000_0000_0000)
  }

  function Nibbles(b: seq<Byte>): (d: seq<int>)
    ensures |d| == 2 * |b|
  {
    if b == [] then [] else [b[0] / 16, b[0] % 16] + Nibbles(b[1..])
  }

  lemma {:induction false} NibblesOfParts(a: seq<Byte>, b: seq<Byte>)
    ensures Nibbles(a + b) == Nibbles(a) + Nibbles(b)
  {
    if a == [] {
      assert a + b == b;
    } else {
      assert (a + b)[1..] == a[1..] + b;
      NibblesOfParts(a[1..], b);
    }
  }

  lemma {:induction false} DigitsOfTwo(x: Byte, rest: string)
    ensures Digits(TwoDigits(x) + rest) == [x / 16, x % 16] + Digits(rest)
    ensures Digits("-" + TwoDigits(x) + rest) == [x / 16, x % 16] + Digits(rest)
  {
    HexCode(x / 16);
    HexCode(x % 16);
    var two := TwoDigits(x) + rest;
    assert two[1..][1..] == rest;
    var dashed := "-" + TwoDigits(x) + rest;
    assert dashed[1..] == two;
  }

  lemma {:induction false} DigitsOfText(b: seq<Byte>, i: nat)
    requires i <= |b|
    ensures Digits(TextFrom(b, i)) == Nibbles(b[i..])
    decreases |b| - i
  {
    if i < |b| {
      DigitsOfText(b, i + 1);
      assert b[i..][1..] == b[i + 1..];
      TextStep(b, i);
      DigitsOfTwo(b[i], TextFrom(b, i + 1));
      if !(i == 4 || i == 6 || i == 8 || i == 10) {
        assert "" + TwoDigits(b[i]) == TwoDigits(b[i]);
      }
    }
  }

  /** The digits of a number's bytes are the number in base 16. */
  lemma {:induction false} HexOfBigEndian(x: nat, n: nat)
    requires Fits(x, n)
    ensures Hex(Nibbles(BigEndian(x, n))) == x
  {
    if n > 0 {
      HexOfBigEndian(x / 256, n - 1);
      var last: Byte := x % 256;
      NibblesOfParts(BigEndian(x / 256, n - 1), [last]);
      assert [last][1..] == [];
      assert Nibbles([last]) == [last / 16, last % 16];
      HexAppend(Nibbles(BigEndian(x / 256, n - 1)), last);
    }
  }

  lemma {:induction false} HexAppend(d: seq<int>, x: Byte)
    ensures Hex(d + [x / 16, x % 16]) == Hex(d) * 256 + x
  {
    var all := d + [x / 16, x % 16];
    assert all[..|all| - 1] == d + [x / 16];
    assert (d + [x / 16])[..|d|] == d;
  }

  /** The text decodes back to the time and both random fields, with version 7 and the variant of RFC 9562. */
  lemma {:induction false} ParseInvertsText(f: Fields)
    requires InRange(f)
    ensures |Digits(Text(f))| == 32
    ensures Parse(Text(f)) == Parsed(f.ms, 7, f.randA, 2, f.randB)
  {
    DigitsOfText(Packed(f), 0);
    assert Packed(f)[0..] == Packed(f);
    PackedIsThreeNumbers(f);
    FieldsFit(f);
    var high, middle, low := BigEndian(f.ms, 6), BigEndian(Middle(f), 2), BigEndian(Low(f), 8);
    NibblesOfParts(high + middle, low);
    NibblesOfParts(high, middle);
    HexOfBigEndian(f.ms, 6);
    HexOfBigEndian(Middle(f), 2);
    HexOfBigEndian(Low(f), 8);
    var d := Digits(Text(f));
    assert d[..12] == Nibbles(high) && d[12..16] == Nibbles(middle) && d[16..] == Nibbles(low);
  }
}
