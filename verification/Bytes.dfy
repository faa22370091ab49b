/** Bytes, and numbers as little-endian bytes. */
module Bytes {
  import opened Strings

  type Byte = b: int | 0 <= b < 256

  type FourBytes = b: seq<Byte> | |b| == 4 witness [0, 0, 0, 0]

  /** `x` has no more than `n` bytes. */
  predicate Fits(x: nat, n: nat) {
    if n == 0 then x == 0 else Fits(x / 256, n - 1)
  }

  /** The `n` low bytes of `x`, least significant first. */
  function Little(x: nat, n: nat): (b: seq<Byte>)
    ensures |b| == n
  {
    if n == 0 then [] else [x % 256] + Little(x / 256, n - 1)
  }

  function FromLittle(b: seq<Byte>): nat {
    if b == [] then 0 else b[0] + 256 * FromLittle(b[1..])
  }

  lemma {:induction false} LittleReadsBack(x: nat, n: nat)
    requires Fits(x, n)
    ensures FromLittle(Little(x, n)) == x
  {
    if n > 0 {
      LittleReadsBack(x / 256, n - 1);
      assert Little(x, n)[1..] == Little(x / 256, n - 1);
    }
  }

  lemma {:induction false} TwoByteFits(x: nat)
    requires x < 0x1_0000
    ensures Fits(x, 2)
  {
    assert Fits(x, 2) == Fits(x / 256, 1) == Fits(x / 256 / 256, 0);
  }

  lemma {:induction false} EightByteFits(x: nat)
    requires x < 0x1_0000_0000_0000_0000
    ensures Fits(x, 8)
  {
    var y, z := x / 0x1_0000, x / 0x1_0000_0000;
    var w := z / 0x1_0000;
    assert x / 256 / 256 == y && y / 256 / 256 == z && z / 256 / 256 == w && w < 0x1_0000;
    TwoByteFits(w);
    assert Fits(x, 8) == Fits(x / 256, 7) == Fits(y, 6);
    assert Fits(y, 6) == Fits(y / 256, 5) == Fits(z, 4);
    assert Fits(z, 4) == Fits(z / 256, 3) == Fits(w, 2);
  }

  predicate IsAscii(s: string) {
    forall i :: 0 <= i < |s| ==> s[i] as int < 128
  }

  /** One byte a character, which is the encoding of ASCII text. */
  function Encoded(s: string): (b: seq<Byte>)
    ensures |b| == |s|
  {
    seq(|s|, i requires 0 <= i < |s| => s[i] as int % 256)
  }

  function Decoded(b: seq<Byte>): string {
    seq(|b|, i requires 0 <= i < |b| => b[i] as char)
  }

  lemma {:induction false} DecodedEncoded(s: string)
    requires IsAscii(s)
    ensures Decoded(Encoded(s)) == s
  {
  }

  // ----- Packed fields -----

  /** The parts one after the other. */
  function Flat(parts: seq<seq<Byte>>): seq<Byte> {
    if parts == [] then [] else parts[0] + Flat(parts[1..])
  }

  lemma {:induction false} FlatOne(p: seq<seq<Byte>>, i: nat)
    requires i < |p|
    ensures Flat(p[i..]) == p[i] + Flat(p[i + 1..])
  {
    assert p[i..][1..] == p[i + 1..];
  }

  lemma {:induction false} FlatThree(p: seq<seq<Byte>>, i: nat)
    requires i + 3 == |p|
    ensures Flat(p[i..]) == p[i] + p[i + 1] + p[i + 2]
  {
    FlatOne(p, i);
    FlatOne(p, i + 1);
    FlatOne(p, i + 2);
    Join(p[i], p[i + 1], p[i + 2]);
    assert Flat(p[i + 3..]) == [];
  }

  lemma {:induction false} FlatFour(p: seq<seq<Byte>>)
    requires |p| == 4
    ensures Flat(p) == p[0] + p[1] + p[2] + p[3]
  {
    FlatOne(p, 0);
    FlatThree(p, 1);
    BehindFront(p[0], p[1], p[2], p[3]);
    assert p[0..] == p;
  }

  lemma {:induction false} BehindFront<T>(front: seq<T>, a: seq<T>, b: seq<T>, c: seq<T>)
    ensures front + (a + b + c) == front + a + b + c
  {
  }

  lemma {:induction false} FlatFive(p: seq<seq<Byte>>)
    requires |p| == 5
    ensures Flat(p) == p[0] + p[1] + p[2] + p[3] + p[4]
  {
    FlatOne(p, 0);
    FlatOne(p, 1);
    FlatThree(p, 2);
    Join(p[0], p[1], p[2] + p[3] + p[4]);
    BehindFront(p[0] + p[1], p[2], p[3], p[4]);
    assert p[0..] == p;
  }

  lemma {:induction false} FlatSeven(p: seq<seq<Byte>>)
    requires |p| == 7
    ensures Flat(p) == p[0] + p[1] + p[2] + p[3] + p[4] + p[5] + p[6]
  {
    FlatFour(p[..4]);
    FlatThree(p, 4);
    FlatTogether(p[..4], p[4..]);
    assert p == p[..4] + p[4..];
    BehindFront(p[0] + p[1] + p[2] + p[3], p[4], p[5], p[6]);
  }

  lemma {:induction false} FlatTogether(a: seq<seq<Byte>>, b: seq<seq<Byte>>)
    ensures Flat(a + b) == Flat(a) + Flat(b)
  {
    if a == [] {
      assert a + b == b;
    } else {
      FlatTogether(a[1..], b);
      assert (a + b)[1..] == a[1..] + b;
      Join(a[0], Flat(a[1..]), Flat(b));
    }
  }

  /** The first part, and the rest. */
  lemma {:induction false} FlatSplits(parts: seq<seq<Byte>>)
    requires parts != []
    ensures |parts[0]| <= |Flat(parts)|
    ensures Flat(parts)[..|parts[0]|] == parts[0] && Flat(parts)[|parts[0]|..] == Flat(parts[1..])
  {
  }
}
