/** Lists filtered, mapped, thinned out and sorted, and how these go together. */
module Sequences {

  function Kept<T>(s: seq<T>, keep: T -> bool): seq<T> {
    if s == [] then [] else Kept(s[..|s| - 1], keep) + (if keep(s[|s| - 1]) then [s[|s| - 1]] else [])
  }

  function Mapped<T, U>(s: seq<T>, f: T -> U): seq<U> {
    if s == [] then [] else Mapped(s[..|s| - 1], f) + [f(s[|s| - 1])]
  }

  /** Elements 0, 4, 8 and so on. */
  function EveryFourth<T>(s: seq<T>): (r: seq<T>)
    ensures |r| == (|s| + 3) / 4 && forall i :: 0 <= i < |r| ==> r[i] == s[4 * i]
  {
    seq((|s| + 3) / 4, i requires 0 <= i < (|s| + 3) / 4 => s[4 * i])
  }

  lemma {:induction false} FourthStep<T>(s: seq<T>, x: T)
    ensures EveryFourth(s + [x]) == EveryFourth(s) + if |s| % 4 == 0 then [x] else []
  {
    var a, b := EveryFourth(s + [x]), EveryFourth(s) + if |s| % 4 == 0 then [x] else [];
    assert |a| == |b|;
    forall i | 0 <= i < |a| ensures a[i] == b[i] {
      if i < |EveryFourth(s)| {
        assert a[i] == (s + [x])[4 * i] == s[4 * i];
      } else {
        assert 4 * i == |s|;
      }
    }
  }

  lemma {:induction false} KeptTogether<T>(a: seq<T>, b: seq<T>, keep: T -> bool)
    ensures Kept(a + b, keep) == Kept(a, keep) + Kept(b, keep)
  {
    if b == [] {
      assert a + b == a;
    } else {
      var n := |b| - 1;
      KeptTogether(a, b[..n], keep);
      assert (a + b)[..|a| + n] == a + b[..n];
    }
  }

  lemma {:induction false} AllOrNoneKept<T>(s: seq<T>, keep: T -> bool)
    ensures (forall x :: x in s ==> keep(x)) ==> Kept(s, keep) == s
    ensures (forall x :: x in s ==> !keep(x)) ==> Kept(s, keep) == []
  {
    if s != [] {
      AllOrNoneKept(s[..|s| - 1], keep);
    }
  }

  lemma {:induction false} MappedMore<T, U>(s: seq<T>, x: T, more: bool, f: T -> U)
    ensures Mapped(s + if more then [x] else [], f) == Mapped(s, f) + if more then [f(x)] else []
  {
    if more {
      MappedLast(s, x, f);
    } else {
      assert s + [] == s && Mapped(s, f) + [] == Mapped(s, f);
    }
  }

  lemma {:induction false} MappedLast<T, U>(s: seq<T>, last: T, f: T -> U)
    ensures Mapped(s + [last], f) == Mapped(s, f) + [f(last)]
  {
    assert (s + [last])[..|s|] == s;
  }

  // ----- The stable sort -----

  /** Behind every element whose key is not greater. */
  function Placed<T>(sorted: seq<T>, x: T, key: T -> int): seq<T> {
    if sorted == [] || key(sorted[|sorted| - 1]) <= key(x) then sorted + [x]
    else Placed(sorted[..|sorted| - 1], x, key) + [sorted[|sorted| - 1]]
  }

  function SortedBy<T>(s: seq<T>, key: T -> int): seq<T> {
    if s == [] then [] else Placed(SortedBy(s[..|s| - 1], key), s[|s| - 1], key)
  }

  ghost predicate InOrder<T>(s: seq<T>, key: T -> int) {
    forall i, j :: 0 <= i <= j < |s| ==> key(s[i]) <= key(s[j])
  }

  /** The elements of one key, in order. */
  function WithKey<T>(s: seq<T>, key: T -> int, k: int): seq<T> {
    if s == [] then []
    else WithKey(s[..|s| - 1], key, k) + (if key(s[|s| - 1]) == k then [s[|s| - 1]] else [])
  }

  lemma {:induction false} PlacedHolds<T>(sorted: seq<T>, x: T, key: T -> int, y: T)
    ensures y in Placed(sorted, x, key) <==> y in sorted || y == x
  {
    if sorted != [] && key(sorted[|sorted| - 1]) > key(x) {
      var n := |sorted| - 1;
      PlacedHolds(sorted[..n], x, key, y);
      assert sorted == sorted[..n] + [sorted[n]];
    }
  }

  lemma {:induction false} PlacedIsSorted<T>(sorted: seq<T>, x: T, key: T -> int)
    requires InOrder(sorted, key)
    ensures InOrder(Placed(sorted, x, key), key)
  {
    if sorted != [] && key(sorted[|sorted| - 1]) > key(x) {
      var n := |sorted| - 1;
      PlacedIsSorted(sorted[..n], x, key);
      var p := Placed(sorted[..n], x, key);
      forall i | 0 <= i < |p| ensures key(p[i]) <= key(sorted[n]) {
        PlacedHolds(sorted[..n], x, key, p[i]);
      }
      AppendInOrder(p, sorted[n], key);
    }
  }

  lemma {:induction false} AppendInOrder<T>(s: seq<T>, last: T, key: T -> int)
    requires InOrder(s, key) && forall i :: 0 <= i < |s| ==> key(s[i]) <= key(last)
    ensures InOrder(s + [last], key)
  {
  }

  lemma {:induction false} PlacedKeepsTies<T>(sorted: seq<T>, x: T, key: T -> int, k: int)
    requires InOrder(sorted, key)
    ensures WithKey(Placed(sorted, x, key), key, k) == WithKey(sorted + [x], key, k)
  {
    assert (sorted + [x])[..|sorted|] == sorted;
    if sorted != [] && key(sorted[|sorted| - 1]) > key(x) {
      var n := |sorted| - 1;
      PlacedKeepsTies(sorted[..n], x, key, k);
      assert (sorted[..n] + [x])[..n] == sorted[..n];
      assert Placed(sorted, x, key)[..|Placed(sorted, x, key)| - 1] == Placed(sorted[..n], x, key);
    }
  }

  lemma {:induction false} SortOrders<T>(s: seq<T>, key: T -> int)
    ensures InOrder(SortedBy(s, key), key)
    ensures forall x :: x in SortedBy(s, key) <==> x in s
  {
    if s != [] {
      var n := |s| - 1;
      SortOrders(s[..n], key);
      PlacedIsSorted(SortedBy(s[..n], key), s[n], key);
      forall x ensures x in SortedBy(s, key) <==> x in s {
        PlacedHolds(SortedBy(s[..n], key), s[n], key, x);
        assert x in s <==> x in s[..n] || x == s[n];
      }
    }
  }

  /** The sort orders by the key, keeps elements of one key in their order, and so loses and invents none. */
  lemma {:induction false} SortIsStable<T>(s: seq<T>, key: T -> int, k: int)
    ensures InOrder(SortedBy(s, key), key)
    ensures WithKey(SortedBy(s, key), key, k) == WithKey(s, key, k)
    ensures forall x :: x in SortedBy(s, key) <==> x in s
  {
    SortOrders(s, key);
    if s != [] {
      var n := |s| - 1;
      var sorted := SortedBy(s[..n], key);
      SortIsStable(s[..n], key, k);
      SortOrders(s[..n], key);
      PlacedKeepsTies(sorted, s[n], key, k);
      assert (sorted + [s[n]])[..|sorted|] == sorted;
    }
  }

  lemma {:induction false} KeptHolds<T>(s: seq<T>, keep: T -> bool, x: T)
    ensures x in Kept(s, keep) <==> x in s && keep(x)
  {
    if s != [] {
      var n := |s| - 1;
      KeptHolds(s[..n], keep, x);
      assert s == s[..n] + [s[n]];
    }
  }

  lemma {:induction false} PlacedLast<T>(s: seq<T>, last: T, x: T, key: T -> int)
    requires key(last) > key(x)
    ensures Placed(s + [last], x, key) == Placed(s, x, key) + [last]
  {
    assert (s + [last])[..|s|] == s;
  }

  lemma {:induction false} KeptLast<T>(s: seq<T>, last: T, keep: T -> bool)
    ensures Kept(s + [last], keep) == Kept(s, keep) + if keep(last) then [last] else []
  {
    assert (s + [last])[..|s|] == s;
  }

  lemma {:induction false} PlacedAtEnd<T>(s: seq<T>, x: T, key: T -> int, keep: T -> bool)
    requires InOrder(s, key) && (s == [] || key(s[|s| - 1]) <= key(x))
    ensures Placed(Kept(s, keep), x, key) == Kept(s, keep) + [x]
  {
    var kept := Kept(s, keep);
    if kept != [] {
      KeptHolds(s, keep, kept[|kept| - 1]);
    }
  }

  lemma {:induction false} KeptPlaced<T>(sorted: seq<T>, x: T, key: T -> int, keep: T -> bool)
    requires InOrder(sorted, key)
    ensures Kept(Placed(sorted, x, key), keep)
         == if keep(x) then Placed(Kept(sorted, keep), x, key) else Kept(sorted, keep)
  {
    if sorted == [] || key(sorted[|sorted| - 1]) <= key(x) {
      KeptLast(sorted, x, keep);
      PlacedAtEnd(sorted, x, key, keep);
      assert Kept(sorted, keep) + [] == Kept(sorted, keep);
    } else {
      var n := |sorted| - 1;
      KeptPlaced(sorted[..n], x, key, keep);
      KeptLast(Placed(sorted[..n], x, key), sorted[n], keep);
      PlacedLast(Kept(sorted[..n], keep), sorted[n], x, key);
      assert Kept(sorted[..n], keep) + [] == Kept(sorted[..n], keep);
    }
  }

  /** Sorting what is kept is keeping what is sorted. */
  lemma {:induction false} KeptSorted<T>(s: seq<T>, key: T -> int, keep: T -> bool)
    ensures Kept(SortedBy(s, key), keep) == SortedBy(Kept(s, keep), key)
  {
    if s != [] {
      var n := |s| - 1;
      KeptSorted(s[..n], key, keep);
      SortOrders(s[..n], key);
      KeptPlaced(SortedBy(s[..n], key), s[n], key, keep);
      var kept := Kept(s[..n], keep);
      assert (kept + [s[n]])[..|kept|] == kept && kept + [] == kept;
    }
  }

  lemma {:induction false} PlacedMapped<T(!new), U>(sorted: seq<T>, x: T, key: T -> int, f: T -> U, key': U -> int)
    requires forall y: T :: key'(f(y)) == key(y)
    ensures Placed(Mapped(sorted, f), f(x), key') == Mapped(Placed(sorted, x, key), f)
  {
    if sorted == [] || key(sorted[|sorted| - 1]) <= key(x) {
      MappedLast(sorted, x, f);
    } else {
      var n := |sorted| - 1;
      PlacedMapped(sorted[..n], x, key, f, key');
      MappedLast(Placed(sorted[..n], x, key), sorted[n], f);
      PlacedLast(Mapped(sorted[..n], f), f(sorted[n]), f(x), key');
    }
  }

  /** A map that leaves the key alone may come before or after the sort. */
  lemma {:induction false} SortedMapped<T(!new), U>(s: seq<T>, key: T -> int, f: T -> U, key': U -> int)
    requires forall y: T :: key'(f(y)) == key(y)
    ensures SortedBy(Mapped(s, f), key') == Mapped(SortedBy(s, key), f)
  {
    if s != [] {
      var n := |s| - 1;
      SortedMapped(s[..n], key, f, key');
      PlacedMapped(SortedBy(s[..n], key), s[n], key, f, key');
      var mapped := Mapped(s[..n], f);
      assert (mapped + [f(s[n])])[..|mapped|] == mapped;
    }
  }
}
