/** Per-key sequence numbers and the gap detector that finds what transport has lost of them. */
module SequenceGaps {
  import opened Words

  // ----- Counters -----

  /** The number that follows when the counters stand at `m`; an untouched key stands at 0. */
  function Following(m: map<string, Word>, key: string): Word {
    ((if key in m then m[key] else 0) + 1) % WORD
  }

  class SequenceCounter {
    var counter: Word

    constructor ()
      ensures counter == 0
    {
      counter := 0;
    }

    method Next() returns (n: Word)
      modifies this
      ensures n == counter == (old(counter) + 1) % WORD
    {
      counter := (counter + 1) % WORD;
      return counter;
    }
  }

  class KeyedSequenceCounter {
    var counters: map<string, SequenceCounter>

    ghost predicate Valid()
      reads this
    {
      forall k, k' :: k in counters && k' in counters && counters[k] == counters[k'] ==> k == k'
    }

    ghost function Values(): map<string, Word>
      reads this, counters.Values
    {
      map k | k in counters :: counters[k].counter
    }

    constructor ()
      ensures Valid() && Values() == map[]
    {
      counters := map[];
    }

    /** Makes the key's counter on its first use. */
    method Next(key: string) returns (n: Word)
      requires Valid()
      modifies this, counters.Values
      ensures Valid() && fresh(counters.Values - old(counters.Values))
      ensures n == Following(old(Values()), key) && Values() == old(Values())[key := n]
    {
      var c := CounterOf(key);
      n := Advance(key, c);
    }

    method CounterOf(key: string) returns (c: SequenceCounter)
      requires Valid()
      modifies this
      ensures Valid() && key in counters && counters[key] == c && fresh(counters.Values - old(counters.Values))
      ensures Values() == if key in old(counters) then old(Values()) else old(Values())[key := 0]
    {
      if key !in counters {
        c := new SequenceCounter();
        assert forall k :: k in counters ==> counters[k] in counters.Values;
        counters := counters[key := c];
      } else {
        c := counters[key];
      }
    }

    method Advance(key: string, c: SequenceCounter) returns (n: Word)
      requires Valid() && key in counters && counters[key] == c
      modifies c
      ensures Valid() && counters == old(counters)
      ensures n == Following(old(Values()), key) && Values() == old(Values())[key := n]
    {
      n := c.Next();
    }
  }

  // ----- Runs over many keys -----

  function Run(calls: seq<string>): map<string, Word> {
    if calls == [] then map[]
    else
      var m := Run(calls[..|calls| - 1]);
      m[calls[|calls| - 1] := Following(m, calls[|calls| - 1])]
  }

  /** The numbers this key got, in the order of its calls. */
  function Numbers(calls: seq<string>, key: string): seq<Word> {
    if calls == [] then []
    else
      var before := calls[..|calls| - 1];
      Numbers(before, key) + if calls[|calls| - 1] == key then [Following(Run(before), key)] else []
  }

  /** However the calls of different keys interleave, a key's call number i (from 0) gets i + 1, modulo the word. */
  lemma {:induction false} EachKeyCounts(calls: seq<string>, key: string)
    ensures forall i :: 0 <= i < |Numbers(calls, key)| ==> Numbers(calls, key)[i] == (i + 1) % WORD
    ensures (if key in Run(calls) then Run(calls)[key] else 0) == |Numbers(calls, key)| % WORD
  {
    if calls != [] {
      EachKeyCounts(calls[..|calls| - 1], key);
      WordStep(|Numbers(calls[..|calls| - 1], key)|);
    }
  }

  lemma {:induction false} WordStep(n: nat)
    ensures (n % WORD + 1) % WORD == (n + 1) % WORD
  {
    assert n == n / WORD * WORD + n % WORD;
    if n % WORD + 1 == WORD {
      assert n + 1 == (n / WORD + 1) * WORD;
      Multiple(n / WORD + 1);
    } else {
      Remainder(n / WORD, n % WORD + 1);
    }
  }

  lemma {:induction false} Multiple(q: nat)
    ensures (q * WORD) % WORD == 0
  {
  }

  lemma {:induction false} Remainder(q: nat, r: nat)
    requires r < WORD
    ensures (q * WORD + r) % WORD == r
  {
  }

  // ----- The gap detector -----

  type Gap = (int, int)

  function Gaps(s: seq<int>): seq<Gap> {
    if |s| < 2 then []
    else
      var prev, curr := s[|s| - 2], s[|s| - 1];
      Gaps(s[..|s| - 1]) + if curr != prev + 1 then [(prev, curr)] else []
  }

  method FindGaps(sequences: seq<int>) returns (gaps: seq<Gap>)
    ensures gaps == Gaps(sequences)
  {
    gaps := [];
    if |sequences| == 0 {
      return;
    }
    assert Gaps(sequences[..1]) == [];
    for i := 1 to |sequences|
      invariant gaps == Gaps(sequences[..i])
    {
      var prev, curr := sequences[i - 1], sequences[i];
      assert sequences[..i + 1][..i] == sequences[..i];
      if curr != prev + 1 {
        gaps := gaps + [(prev, curr)];
      }
    }
    assert sequences[..|sequences|] == sequences;
  }

  predicate Increasing(s: seq<int>) {
    forall i, j :: 0 <= i < j < |s| ==> s[i] < s[j]
  }

  ghost predicate InSomeGap(gaps: seq<Gap>, x: int) {
    exists g :: g in gaps && g.0 < x < g.1
  }

  /** The open intervals of the reported pairs hold exactly the numbers missing between the first and the last one
      received. */
  lemma {:induction false} GapsAreTheMissing(s: seq<int>, x: int)
    requires Increasing(s)
    ensures InSomeGap(Gaps(s), x) <==> s != [] && s[0] < x < s[|s| - 1] && x !in s
  {
    if |s| >= 2 {
      var n := |s| - 1;
      GapsAreTheMissing(s[..n], x);
      assert s == s[..n] + [s[n]];
      LastGap(Gaps(s[..n]), s[n - 1], s[n], x);
      BelowLast(s[..n], x);
    }
  }

  lemma {:induction false} BelowLast(s: seq<int>, x: int)
    requires Increasing(s) && s != []
    ensures x > s[|s| - 1] ==> x !in s
  {
  }

  lemma {:induction false} LastGap(gaps: seq<Gap>, prev: int, curr: int, x: int)
    requires prev < curr
    ensures InSomeGap(gaps + (if curr != prev + 1 then [(prev, curr)] else []), x) <==>
            InSomeGap(gaps, x) || prev < x < curr
  {
    var more := gaps + if curr != prev + 1 then [(prev, curr)] else [];
    assert forall g :: g in gaps ==> g in more;
    if prev < x < curr {
      assert (prev, curr) in more;
    }
  }

  function Width(gaps: seq<Gap>): int {
    if gaps == [] then 0 else Width(gaps[..|gaps| - 1]) + gaps[|gaps| - 1].1 - gaps[|gaps| - 1].0 - 1
  }

  /** Nothing is counted twice: what was received and what the gaps hold add up to the whole span. */
  lemma {:induction false} SpanIsReceivedPlusGaps(s: seq<int>)
    requires s != []
    ensures s[|s| - 1] - s[0] + 1 == |s| + Width(Gaps(s))
  {
    if |s| >= 2 {
      var n := |s| - 1;
      SpanIsReceivedPlusGaps(s[..n]);
      var gaps := Gaps(s[..n]);
      if s[n] != s[n - 1] + 1 {
        assert (gaps + [(s[n - 1], s[n])])[..|gaps|] == gaps;
      } else {
        assert gaps + [] == gaps;
      }
    }
  }

  /** For any sequence, ordered or not, no gap is reported exactly when each number is one more than the one before. */
  lemma {:induction false} NoGapIffConsecutive(s: seq<int>)
    ensures Gaps(s) == [] <==> forall i :: 0 < i < |s| ==> s[i] == s[i - 1] + 1
  {
    if |s| >= 2 {
      var n := |s| - 1;
      NoGapIffConsecutive(s[..n]);
      assert forall i :: 0 <= i < n ==> s[..n][i] == s[i];
    }
  }

  /** A key without losses shows no gap exactly as long as its counter has not wrapped around. */
  lemma {:induction false} NoLossNoGapIff(calls: seq<string>, key: string)
    ensures Gaps(Numbers(calls, key)) == [] <==> |Numbers(calls, key)| < WORD
  {
    EachKeyCounts(calls, key);
    NoGapIffConsecutive(Numbers(calls, key));
    if |Numbers(calls, key)| < WORD {
      ShortCountsUp(Numbers(calls, key));
    } else {
      LongWraps(Numbers(calls, key));
    }
  }

  /** The numbers 1, 2, 3, ... */
  predicate CountsUp(sent: seq<int>) {
    forall i :: 0 <= i < |sent| ==> sent[i] == i + 1
  }

  lemma {:induction false} ShortCountsUp(sent: seq<int>)
    requires |sent| < WORD && forall i :: 0 <= i < |sent| ==> sent[i] == (i + 1) % WORD
    ensures CountsUp(sent)
  {
    forall i | 0 <= i < |sent| ensures sent[i] == i + 1 {
      Remainder(0, i + 1);
    }
  }

  lemma {:induction false} LongWraps(sent: seq<int>)
    requires |sent| >= WORD && forall i :: 0 <= i < |sent| ==> sent[i] == (i + 1) % WORD
    ensures exists i :: 0 < i < |sent| && sent[i] != sent[i - 1] + 1
  {
    var last := WORD - 1;
    Multiple(1);
    Remainder(0, last);
    assert sent[last] == 0 && sent[last - 1] == last;
  }

  // ----- Lossy transport -----

  /** What arrives, in order, when only the marked numbers get through. */
  function Received(sent: seq<int>, kept: seq<bool>): seq<int>
    requires |kept| == |sent|
  {
    if sent == [] then []
    else
      var n := |sent| - 1;
      Received(sent[..n], kept[..n]) + if kept[n] then [sent[n]] else []
  }

  lemma {:induction false} ReceivedNumbers(sent: seq<int>, kept: seq<bool>)
    requires |kept| == |sent| && CountsUp(sent)
    ensures Increasing(Received(sent, kept))
    ensures forall x :: x in Received(sent, kept) <==> 1 <= x <= |sent| && kept[x - 1]
  {
    if sent != [] {
      ReceivedNumbers(sent[..|sent| - 1], kept[..|sent| - 1]);
      AppendIncreasing(Received(sent[..|sent| - 1], kept[..|sent| - 1]), |sent|);
    }
  }

  lemma {:induction false} AppendIncreasing(s: seq<int>, x: int)
    requires Increasing(s) && forall y :: y in s ==> y < x
    ensures Increasing(s + [x])
  {
    assert forall i :: 0 <= i < |s| ==> s[i] in s;
  }

  /** End to end: of the numbers a key was given, the reported gaps hold exactly those that were lost with some
      earlier and some later number of the key received. */
  lemma {:induction false} LossesAreLocated(calls: seq<string>, key: string, kept: seq<bool>, x: int)
    requires |kept| == |Numbers(calls, key)| < WORD
    ensures InSomeGap(Gaps(Received(Numbers(calls, key), kept)), x) <==>
            && 1 <= x <= |kept| && !kept[x - 1]
            && (exists a :: 0 <= a < x - 1 && kept[a]) && (exists b :: x <= b < |kept| && kept[b])
  {
    EachKeyCounts(calls, key);
    ShortCountsUp(Numbers(calls, key));
    LocatedInCount(Numbers(calls, key), kept, x);
  }

  lemma {:induction false} LocatedInCount(sent: seq<int>, kept: seq<bool>, x: int)
    requires |kept| == |sent| && CountsUp(sent)
    ensures InSomeGap(Gaps(Received(sent, kept)), x) <==>
            && 1 <= x <= |kept| && !kept[x - 1]
            && (exists a :: 0 <= a < x - 1 && kept[a]) && (exists b :: x <= b < |kept| && kept[b])
  {
    var s := Received(sent, kept);
    ReceivedNumbers(sent, kept);
    GapsAreTheMissing(s, x);
    SomeBelow(s, x);
    KeptBelow(s, kept, x);
    KeptAbove(s, kept, x);
  }

  /** `s` holds the numbers of the flags that are set. */
  ghost predicate Flagged(s: seq<int>, kept: seq<bool>) {
    forall x :: x in s <==> 1 <= x <= |kept| && kept[x - 1]
  }

  lemma {:induction false} KeptBelow(s: seq<int>, kept: seq<bool>, x: int)
    requires Flagged(s, kept)
    ensures (exists y :: y in s && y < x) <==> exists a :: 0 <= a < x - 1 && a < |kept| && kept[a]
  {
    if y :| y in s && y < x {
      assert kept[y - 1];
    }
    if a :| 0 <= a < x - 1 && a < |kept| && kept[a] {
      assert a + 1 in s;
    }
  }

  lemma {:induction false} KeptAbove(s: seq<int>, kept: seq<bool>, x: int)
    requires Flagged(s, kept)
    ensures x >= 1 ==> ((exists y :: y in s && y > x) <==> exists b :: x <= b < |kept| && kept[b])
  {
    if y :| y in s && y > x {
      assert kept[y - 1];
    }
    if x >= 1 {
      if b :| x <= b < |kept| && kept[b] {
        assert b + 1 in s;
      }
    }
  }

  lemma {:induction false} SomeBelow(s: seq<int>, x: int)
    requires Increasing(s)
    ensures s != [] && s[0] < x <==> exists y :: y in s && y < x
    ensures s != [] && s[|s| - 1] > x <==> exists y :: y in s && y > x
  {
    if s != [] {
      assert s[0] in s && s[|s| - 1] in s;
    }
  }
}
