/** The TTL dedup set: a map of expiry times swept on every insert, against the history of its calls. */
module Dedup {
  import opened Spacing

  /** One insert(): the key and the clock reading it took before it got the lock. */
  datatype Call = Call(key: string, at: real)

  datatype Outcome = Outcome(entries: map<string, real>, novel: bool)

  /** What a sweep at `now` leaves behind. */
  function Swept(entries: map<string, real>, now: real): map<string, real> {
    map k | k in entries && entries[k] > now :: entries[k]
  }

  /** Sweep, then insert unless the key is still there. */
  function Inserted(entries: map<string, real>, ttl: real, call: Call): Outcome {
    var live := Swept(entries, call.at);
    if call.key in live then Outcome(live, false) else Outcome(live[call.key := call.at + ttl], true)
  }

  class DedupSet {
    const ttl: real
    var entries: map<string, real>

    constructor (ttl: real)
      ensures this.ttl == ttl && entries == map[]
    {
      this.ttl := ttl;
      entries := map[];
    }

    /** Visits the entries in any order and erases the expired ones. */
    method Sweep(now: real)
      modifies this
      ensures entries == Swept(old(entries), now)
    {
      var unvisited := entries.Keys;
      while unvisited != {}
        invariant unvisited <= entries.Keys
        invariant forall k :: k in entries <==>
                    k in old(entries) && (k in unvisited || old(entries)[k] > now)
        invariant forall k :: k in entries ==> entries[k] == old(entries)[k]
        decreases unvisited
      {
        var k :| k in unvisited;
        if entries[k] <= now {
          entries := entries - {k};
        }
        unvisited := unvisited - {k};
      }
    }

    method Insert(key: string, now: real) returns (novel: bool)
      modifies this
      ensures Outcome(entries, novel) == Inserted(old(entries), ttl, Call(key, now))
    {
      Sweep(now);
      if key in entries {
        return false;
      }
      entries := entries[key := now + ttl];
      return true;
    }

    method Size() returns (n: nat)
      ensures n == |entries|
    {
      n := |entries|;
    }
  }

  // ----- Runs -----

  /** The stored map after the calls, in the order they held the lock. */
  function After(ttl: real, calls: seq<Call>): map<string, real> {
    if calls == [] then map[]
    else
      var n := |calls| - 1;
      Inserted(After(ttl, calls[..n]), ttl, calls[n]).entries
  }

  /** Whether call `i` was told that its key is new. */
  predicate Novel(ttl: real, calls: seq<Call>, i: nat)
    requires i < |calls|
  {
    Inserted(After(ttl, calls[..i]), ttl, calls[i]).novel
  }

  /** The calls held the lock in the order in which they read the clock. */
  ghost predicate InClockOrder(calls: seq<Call>) {
    forall i, j :: 0 <= i <= j < |calls| ==> calls[i].at <= calls[j].at
  }

  /** Call `j` put `key` in, and none of the sweeps after it up to call `n` has reached its expiry. */
  ghost predicate Survives(ttl: real, calls: seq<Call>, j: nat, n: nat, key: string) {
    && j < n <= |calls|
    && calls[j].key == key
    && Novel(ttl, calls, j)
    && forall i :: j < i < n ==> calls[i].at < calls[j].at + ttl
  }

  /** Reading a run up to `n` is the same as running its prefix. */
  lemma {:induction false} PrefixNovel(ttl: real, calls: seq<Call>, n: nat, j: nat)
    requires j < n <= |calls|
    ensures Novel(ttl, calls[..n], j) == Novel(ttl, calls, j)
  {
    assert calls[..n][..j] == calls[..j];
  }

  lemma {:induction false} AfterStep(ttl: real, calls: seq<Call>, m: nat)
    requires m < |calls|
    ensures After(ttl, calls[..m + 1]) == Inserted(After(ttl, calls[..m]), ttl, calls[m]).entries
  {
    assert calls[..m + 1][..m] == calls[..m];
  }

  lemma {:induction false} SurvivorStep(ttl: real, calls: seq<Call>, m: nat, j: nat, key: string)
    requires m < |calls| && Survives(ttl, calls, j, m + 1, key)
    requires j < m ==> key in After(ttl, calls[..m]) && After(ttl, calls[..m])[key] == calls[j].at + ttl
    ensures key in After(ttl, calls[..m + 1]) && After(ttl, calls[..m + 1])[key] == calls[j].at + ttl
  {
    AfterStep(ttl, calls, m);
  }

  lemma {:induction false} StoredStep(ttl: real, calls: seq<Call>, m: nat, key: string, i: nat) returns (j: nat)
    requires m < |calls| && key in After(ttl, calls[..m + 1])
    requires key in After(ttl, calls[..m]) ==>
               Survives(ttl, calls, i, m, key) && After(ttl, calls[..m])[key] == calls[i].at + ttl
    ensures Survives(ttl, calls, j, m + 1, key)
  {
    AfterStep(ttl, calls, m);
    j := if key in Swept(After(ttl, calls[..m]), calls[m].at) then i else m;
  }

  /** Whatever the clock readings, the map holds exactly the acceptances that no later sweep has reached. */
  lemma {:induction false} StoredAreSurvivors(ttl: real, calls: seq<Call>, n: nat, key: string)
    requires n <= |calls|
    ensures key in After(ttl, calls[..n]) <==> exists j: nat :: Survives(ttl, calls, j, n, key)
    ensures forall j: nat :: Survives(ttl, calls, j, n, key) ==> After(ttl, calls[..n])[key] == calls[j].at + ttl
  {
    if n == 0 { return; }
    var m := n - 1;
    StoredAreSurvivors(ttl, calls, m, key);
    forall j: nat | Survives(ttl, calls, j, n, key)
      ensures key in After(ttl, calls[..n]) && After(ttl, calls[..n])[key] == calls[j].at + ttl
    {
      assert j < m ==> Survives(ttl, calls, j, m, key);
      SurvivorStep(ttl, calls, m, j, key);
    }
    if key in After(ttl, calls[..n]) {
      var i: nat :| key in After(ttl, calls[..m]) ==> Survives(ttl, calls, i, m, key);
      var j := StoredStep(ttl, calls, m, key, i);
    }
  }

  /** With the clock read before the lock, two acceptances of one key still have a sweep between them, the
      second's own included, whose reading is at or past the first one's expiry. */
  lemma {:induction false} SweepBetweenAcceptances(ttl: real, calls: seq<Call>, j: nat, i: nat) returns (s: nat)
    requires j < i < |calls| && calls[j].key == calls[i].key
    requires Novel(ttl, calls, j) && Novel(ttl, calls, i)
    ensures j < s <= i && calls[s].at >= calls[j].at + ttl
  {
    s := i;
    if calls[i].at < calls[j].at + ttl {
      StoredAreSurvivors(ttl, calls, i, calls[j].key);
      assert !Survives(ttl, calls, j, i, calls[j].key);
      s :| j < s < i && calls[s].at >= calls[j].at + ttl;
    }
  }

  /** In clock order, for every ttl: a key is new exactly when no acceptance of it is younger than ttl. */
  lemma {:induction false} NovelIffNoRecentAcceptance(ttl: real, calls: seq<Call>, i: nat)
    requires InClockOrder(calls) && i < |calls|
    ensures Novel(ttl, calls, i) <==>
            !exists j: nat :: j < i && calls[j].key == calls[i].key && Novel(ttl, calls, j)
                              && calls[j].at > calls[i].at - ttl
  {
    var key := calls[i].key;
    StoredAreSurvivors(ttl, calls, i, key);
    if j: nat :| j < i && calls[j].key == key && Novel(ttl, calls, j) && calls[j].at > calls[i].at - ttl {
      assert Survives(ttl, calls, j, i, key);
    }
    if !Novel(ttl, calls, i) {
      var j: nat :| Survives(ttl, calls, j, i, key);
      assert calls[j].at > calls[i].at - ttl;
    }
  }

  /** Call `j` was accepted less than ttl before the last call. */
  ghost predicate InWindow(ttl: real, calls: seq<Call>, j: nat) {
    && j < |calls|
    && Novel(ttl, calls, j)
    && calls[j].at > calls[|calls| - 1].at - ttl
  }

  /** The stored map is the acceptances of the last ttl, each with the expiry it was accepted with. */
  ghost predicate HoldsTheWindow(ttl: real, calls: seq<Call>) {
    var stored := After(ttl, calls);
    && (forall j: nat :: InWindow(ttl, calls, j) ==>
          calls[j].key in stored && stored[calls[j].key] == calls[j].at + ttl)
    && (forall key :: key in stored ==> exists j: nat :: InWindow(ttl, calls, j) && calls[j].key == key)
  }

  /** For a positive ttl the set is exactly the window: a rejected duplicate never moves an expiry. */
  lemma {:induction false} StoredIsTheWindow(ttl: real, calls: seq<Call>)
    requires ttl > 0.0 && InClockOrder(calls)
    ensures HoldsTheWindow(ttl, calls)
  {
    var n := |calls|;
    assert calls[..n] == calls;
    forall j: nat | InWindow(ttl, calls, j)
      ensures calls[j].key in After(ttl, calls) && After(ttl, calls)[calls[j].key] == calls[j].at + ttl
    {
      StoredAreSurvivors(ttl, calls, n, calls[j].key);
      assert Survives(ttl, calls, j, n, calls[j].key);
    }
    forall key | key in After(ttl, calls)
      ensures exists j: nat :: InWindow(ttl, calls, j) && calls[j].key == key
    {
      StoredAreSurvivors(ttl, calls, n, key);
      var j: nat :| Survives(ttl, calls, j, n, key);
      assert InWindow(ttl, calls, j);
    }
  }

  /** The set is the window on every run in clock order exactly when ttl is positive. */
  lemma {:induction false} WindowNeedsPositiveTtl(ttl: real)
    ensures (forall calls :: InClockOrder(calls) ==> HoldsTheWindow(ttl, calls)) <==> ttl > 0.0
  {
    if ttl > 0.0 {
      forall calls | InClockOrder(calls) ensures HoldsTheWindow(ttl, calls) {
        StoredIsTheWindow(ttl, calls);
      }
    } else {
      ExpiredAtOnceIsStored(ttl, "k");
      assert InClockOrder([Call("k", 0.0)]);
    }
  }

  /** With a ttl that is not positive a single call already leaves an entry outside the window. */
  lemma {:induction false} ExpiredAtOnceIsStored(ttl: real, key: string)
    requires ttl <= 0.0
    ensures !HoldsTheWindow(ttl, [Call(key, 0.0)])
  {
    var once := [Call(key, 0.0)];
    assert once[..0] == [];
    assert key in After(ttl, once) && After(ttl, once)[key] == ttl;
  }

  // ----- Effects: what a handler guarded by the set lets through -----

  /** The clock readings at which `key` was accepted, in lock order. */
  function Effects(ttl: real, calls: seq<Call>, key: string): seq<real> {
    if calls == [] then []
    else
      var n := |calls| - 1;
      Effects(ttl, calls[..n], key)
      + (if calls[n].key == key && Novel(ttl, calls, n) then [calls[n].at] else [])
  }

  /** Effect number `a` of a key is the reading of one of its acceptances. */
  lemma {:induction false} EffectHasCall(ttl: real, calls: seq<Call>, key: string, a: nat) returns (j: nat)
    requires a < |Effects(ttl, calls, key)|
    ensures j < |calls| && calls[j].key == key && Novel(ttl, calls, j) && calls[j].at == Effects(ttl, calls, key)[a]
  {
    var n := |calls| - 1;
    if a < |Effects(ttl, calls[..n], key)| {
      j := EffectHasCall(ttl, calls[..n], key, a);
      PrefixNovel(ttl, calls, n, j);
    } else {
      j := n;
    }
  }

  // ----- The rate, exactly -----

  function Readings(calls: seq<Call>): (readings: seq<real>)
    ensures |readings| == |calls|
  {
    if calls == [] then [] else Readings(calls[..|calls| - 1]) + [calls[|calls| - 1].at]
  }

  lemma {:induction false} ReadingAt(calls: seq<Call>, i: nat)
    requires i < |calls|
    ensures Readings(calls)[i] == calls[i].at
  {
    if i < |calls| - 1 {
      ReadingAt(calls[..|calls| - 1], i);
    }
  }

  /** A stale triple among the readings of a run. */
  lemma {:induction false} StaleCalls(ttl: real, calls: seq<Call>, j: nat, s: nat, i: nat)
    ensures IsStale(ttl, Readings(calls), j, s, i) <==>
            && j < s < i < |calls| && calls[s].at >= calls[j].at + ttl
            && calls[j].at - ttl < calls[i].at < calls[j].at + ttl
  {
    if j < s < i < |calls| {
      ReadingAt(calls, j);
      ReadingAt(calls, s);
      ReadingAt(calls, i);
    }
  }

  /** Reading `i` lies within ttl of reading `j`, and a sweep between them is already past the expiry of `j`. */
  predicate IsStale(ttl: real, readings: seq<real>, j: nat, s: nat, i: nat) {
    j < s < i < |readings| && readings[s] >= readings[j] + ttl && readings[j] - ttl < readings[i] < readings[j] + ttl
  }

  /** No reading is older than a sweep before it by enough to be let through too soon. */
  ghost predicate NoneStale(ttl: real, readings: seq<real>) {
    forall j: nat, s: nat, i: nat :: !IsStale(ttl, readings, j, s, i)
  }

  lemma {:induction false} ClockOrderIsNotStale(ttl: real, calls: seq<Call>)
    requires InClockOrder(calls)
    ensures NoneStale(ttl, Readings(calls))
  {
    forall j: nat, s: nat, i: nat ensures !IsStale(ttl, Readings(calls), j, s, i) {
      StaleCalls(ttl, calls, j, s, i);
      if j < s < i < |calls| {
        assert calls[s].at <= calls[i].at;
      }
    }
  }

  /** Two acceptances of one key are at least ttl apart if no reading is stale. */
  lemma {:induction false} AcceptancesAreFar(ttl: real, calls: seq<Call>, j: nat, i: nat)
    requires j < i < |calls| && calls[j].key == calls[i].key
    requires Novel(ttl, calls, j) && Novel(ttl, calls, i) && NoneStale(ttl, Readings(calls))
    ensures Far(calls[j].at, calls[i].at, ttl)
  {
    var s := SweepBetweenAcceptances(ttl, calls, j, i);
    if s < i {
      NotStale(ttl, calls, j, s, i);
    }
  }

  lemma {:induction false} NotStale(ttl: real, calls: seq<Call>, j: nat, s: nat, i: nat)
    requires j < s < i < |calls| && NoneStale(ttl, Readings(calls))
    ensures calls[s].at >= calls[j].at + ttl ==> Far(calls[j].at, calls[i].at, ttl)
  {
    assert !IsStale(ttl, Readings(calls), j, s, i);
    StaleCalls(ttl, calls, j, s, i);
  }

  lemma {:induction false} PrefixNoneStale(ttl: real, calls: seq<Call>, n: nat)
    requires n <= |calls| && NoneStale(ttl, Readings(calls))
    ensures NoneStale(ttl, Readings(calls[..n]))
  {
    forall j: nat, s: nat, i: nat ensures !IsStale(ttl, Readings(calls[..n]), j, s, i) {
      if IsStale(ttl, Readings(calls[..n]), j, s, i) {
        PrefixStale(ttl, calls, n, j, s, i);
      }
    }
  }

  lemma {:induction false} PrefixStale(ttl: real, calls: seq<Call>, n: nat, j: nat, s: nat, i: nat)
    requires n <= |calls| && IsStale(ttl, Readings(calls[..n]), j, s, i)
    ensures IsStale(ttl, Readings(calls), j, s, i)
  {
    PrefixReadings(calls, n);
  }

  lemma {:induction false} PrefixReadings(calls: seq<Call>, n: nat)
    requires n <= |calls|
    ensures Readings(calls[..n]) == Readings(calls)[..n]
    decreases |calls|
  {
    if n == |calls| {
      assert calls[..n] == calls;
    } else {
      PrefixReadings(calls[..|calls| - 1], n);
      assert calls[..|calls| - 1][..n] == calls[..n];
    }
  }

  lemma {:induction false} EffectsAreApart(ttl: real, calls: seq<Call>, key: string)
    requires NoneStale(ttl, Readings(calls))
    ensures Apart(Effects(ttl, calls, key), ttl)
  {
    if calls != [] {
      var n := |calls| - 1;
      var before := Effects(ttl, calls[..n], key);
      PrefixNoneStale(ttl, calls, n);
      EffectsAreApart(ttl, calls[..n], key);
      if calls[n].key == key && Novel(ttl, calls, n) {
        forall a | 0 <= a < |before| ensures Far(before[a], calls[n].at, ttl) {
          var j := EffectHasCall(ttl, calls[..n], key, a);
          PrefixNovel(ttl, calls, n, j);
          AcceptancesAreFar(ttl, calls, j, n);
        }
      }
    }
  }

  /** Without stale readings, whatever their order, a key takes effect at most floor(L / ttl) + 1 times in any span of
      length L. */
  lemma {:induction false} EffectRate(ttl: real, calls: seq<Call>, key: string, lo: real, hi: real)
    requires ttl > 0.0 && lo <= hi && NoneStale(ttl, Readings(calls))
    ensures CountIn(Effects(ttl, calls, key), lo, hi) <= ((hi - lo) / ttl).Floor + 1
  {
    EffectsAreApart(ttl, calls, key);
    ApartIsBounded(Effects(ttl, calls, key), ttl, lo, hi);
  }

  /** The rate bound for all runs with these readings, whatever their keys. */
  ghost predicate RateHolds(ttl: real, readings: seq<real>)
    requires ttl > 0.0
  {
    forall calls: seq<Call>, key: string :: Readings(calls) == readings ==> Bounded(Effects(ttl, calls, key), ttl)
  }

  /** The rate bound holds for every run with these readings, every key and every span exactly if no reading is
      stale. */
  lemma {:induction false} EffectRateIff(ttl: real, readings: seq<real>)
    requires ttl > 0.0
    ensures RateHolds(ttl, readings) <==> NoneStale(ttl, readings)
  {
    if NoneStale(ttl, readings) {
      forall calls: seq<Call>, key: string | Readings(calls) == readings
        ensures Bounded(Effects(ttl, calls, key), ttl)
      {
        EffectsAreApart(ttl, calls, key);
        ApartIffBounded(Effects(ttl, calls, key), ttl);
      }
    }
    if j: nat, s: nat, i: nat :| IsStale(ttl, readings, j, s, i) {
      SomeRunBreaksTheRate(ttl, readings, "k", "other", j, s, i);
    }
  }

  lemma {:induction false} SomeRunBreaksTheRate(ttl: real, readings: seq<real>, key: string, other: string, j: nat, s: nat,
                                                i: nat)
    requires ttl > 0.0 && key != other && IsStale(ttl, readings, j, s, i)
    ensures !RateHolds(ttl, readings)
  {
    var calls := CallsAt(readings, key, other, {j, i});
    CallsHaveReadings(readings, key, other, {j, i});
    forall n: nat | n < |calls| ensures calls[n].key == key <==> n == j || n == i {
      CallAt(readings, key, other, {j, i}, n);
    }
    StaleBreaksTheRate(ttl, calls, key, j, s, i);
  }

  /** Calls with these readings: of `key` at the given positions, of `other` elsewhere. */
  function CallsAt(readings: seq<real>, key: string, other: string, positions: set<nat>): (calls: seq<Call>)
    ensures |calls| == |readings|
  {
    if readings == [] then []
    else
      var n := |readings| - 1;
      CallsAt(readings[..n], key, other, positions) + [Call(if n in positions then key else other, readings[n])]
  }

  lemma {:induction false} CallAt(readings: seq<real>, key: string, other: string, positions: set<nat>, n: nat)
    requires n < |readings|
    ensures CallsAt(readings, key, other, positions)[n] == Call(if n in positions then key else other, readings[n])
  {
    if n < |readings| - 1 {
      CallAt(readings[..|readings| - 1], key, other, positions, n);
    }
  }

  lemma {:induction false} CallsHaveReadings(readings: seq<real>, key: string, other: string, positions: set<nat>)
    ensures Readings(CallsAt(readings, key, other, positions)) == readings
  {
    if readings != [] {
      var n := |readings| - 1;
      CallsHaveReadings(readings[..n], key, other, positions);
      var calls := CallsAt(readings, key, other, positions);
      assert calls[..n] == CallsAt(readings[..n], key, other, positions);
    }
  }

  /** Calls of other keys add no effect. */
  lemma {:induction false} EffectsUnchanged(ttl: real, calls: seq<Call>, key: string, m: nat, n: nat)
    requires m <= n <= |calls| && forall i :: m <= i < n ==> calls[i].key != key
    ensures Effects(ttl, calls[..n], key) == Effects(ttl, calls[..m], key)
  {
    if m < n {
      EffectsUnchanged(ttl, calls, key, m, n - 1);
      assert calls[..n][..n - 1] == calls[..n - 1];
    }
  }

  lemma {:induction false} EffectAdded(ttl: real, calls: seq<Call>, key: string, n: nat)
    requires n < |calls|
    ensures Effects(ttl, calls[..n + 1], key)
         == Effects(ttl, calls[..n], key) + if calls[n].key == key && Novel(ttl, calls, n) then [calls[n].at] else []
  {
    assert calls[..n + 1][..n] == calls[..n];
    PrefixNovel(ttl, calls, n + 1, n);
  }

  /** A key called just before a sweep past its expiry and just after it takes effect twice, less than ttl apart. */
  lemma {:induction false} StaleBreaksTheRate(ttl: real, calls: seq<Call>, key: string, j: nat, s: nat, i: nat)
    requires ttl > 0.0 && IsStale(ttl, Readings(calls), j, s, i)
    requires forall n :: 0 <= n < |calls| ==> (calls[n].key == key <==> n == j || n == i)
    ensures Effects(ttl, calls, key) == [calls[j].at, calls[i].at]
    ensures !Bounded(Effects(ttl, calls, key), ttl)
  {
    StaleCalls(ttl, calls, j, s, i);
    NovelOnce(ttl, calls, key, j);
    NovelAgain(ttl, calls, key, j, s, i);
    BothEffects(ttl, calls, key, j, i);
    TooClose(calls[j].at, calls[i].at, ttl);
  }

  lemma {:induction false} TooClose(x: real, y: real, ttl: real)
    requires ttl > 0.0 && x - ttl < y < x + ttl
    ensures !Bounded([x, y], ttl)
  {
    assert !Far([x, y][0], [x, y][1], ttl);
    ApartIffBounded([x, y], ttl);
  }

  lemma {:induction false} BothEffects(ttl: real, calls: seq<Call>, key: string, j: nat, i: nat)
    requires j < i < |calls| && Novel(ttl, calls, j) && Novel(ttl, calls, i)
    requires forall n :: 0 <= n < |calls| ==> (calls[n].key == key <==> n == j || n == i)
    ensures Effects(ttl, calls, key) == [calls[j].at, calls[i].at]
  {
    EffectsUnchanged(ttl, calls, key, 0, j);
    assert calls[..0] == [];
    EffectTaken(ttl, calls, key, j);
    EffectsUnchanged(ttl, calls, key, j + 1, i);
    SecondEffect(ttl, calls, key, j, i);
  }

  lemma {:induction false} SecondEffect(ttl: real, calls: seq<Call>, key: string, j: nat, i: nat)
    requires i < |calls| && calls[i].key == key && Novel(ttl, calls, i) && j < i
    requires Effects(ttl, calls[..i], key) == [calls[j].at]
    requires forall n :: i < n < |calls| ==> calls[n].key != key
    ensures Effects(ttl, calls, key) == [calls[j].at, calls[i].at]
  {
    EffectTaken(ttl, calls, key, i);
    EffectsUnchanged(ttl, calls, key, i + 1, |calls|);
    assert calls[..|calls|] == calls;
  }

  lemma {:induction false} EffectTaken(ttl: real, calls: seq<Call>, key: string, n: nat)
    requires n < |calls| && calls[n].key == key && Novel(ttl, calls, n)
    ensures Effects(ttl, calls[..n + 1], key) == Effects(ttl, calls[..n], key) + [calls[n].at]
  {
    EffectAdded(ttl, calls, key, n);
  }

  lemma {:induction false} NovelOnce(ttl: real, calls: seq<Call>, key: string, j: nat)
    requires j < |calls| && calls[j].key == key && forall n :: 0 <= n < j ==> calls[n].key != key
    ensures Novel(ttl, calls, j)
  {
    StoredAreSurvivors(ttl, calls, j, key);
  }

  lemma {:induction false} NovelAgain(ttl: real, calls: seq<Call>, key: string, j: nat, s: nat, i: nat)
    requires j < s < i < |calls| && calls[i].key == key && calls[s].at >= calls[j].at + ttl
    requires forall n :: 0 <= n < i && calls[n].key == key ==> n == j
    ensures Novel(ttl, calls, i)
  {
    StoredAreSurvivors(ttl, calls, i, key);
    forall m: nat ensures !Survives(ttl, calls, m, i, key) {
    }
  }

  /** A run that breaks the bound: once a later reading has swept the key away, a handler that read the clock long
      before is let through. */
  lemma {:induction false} StaleReadingBreaksTheRate() returns (calls: seq<Call>)
    ensures !NoneStale(50.0, Readings(calls))
    ensures CountIn(Effects(50.0, calls, "k"), 0.0, 40.0) == 2
    ensures (40.0 / 50.0).Floor + 1 == 1
  {
    calls := [Call("k", 10.0), Call("other", 100.0), Call("k", 0.0)];
    StaleCalls(50.0, calls, 0, 1, 2);
    StaleIsLetThrough(50.0, "k", "other");
    assert [10.0, 0.0][..1] == [10.0] && [10.0][..0] == [];
    assert CountIn([10.0], 0.0, 40.0) == 1;
  }

  lemma {:induction false} StaleIsLetThrough(ttl: real, key: string, other: string)
    requires ttl == 50.0 && key != other
    ensures Effects(ttl, [Call(key, 10.0), Call(other, 100.0), Call(key, 0.0)], key) == [10.0, 0.0]
  {
    var first, second, stale := Call(key, 10.0), Call(other, 100.0), Call(key, 0.0);
    var calls := [first, second, stale];
    assert calls[..2] == [first, second] && [first, second][..1] == [first] && [first][..0] == [];
    assert After(ttl, [first]) == map[key := 60.0];
    assert After(ttl, [first, second]) == map[other := 150.0];
    assert Effects(ttl, [first], key) == [10.0];
    assert Effects(ttl, [first, second], key) == [10.0];
  }

  // ----- Exactly once -----

  ghost predicate IsFirst(calls: seq<Call>, key: string, first: nat) {
    first < |calls| && calls[first].key == key && forall i :: 0 <= i < first ==> calls[i].key != key
  }

  /** No sweep reaches the expiry of the key's first call while a later call of the key is still to come. */
  ghost predicate KeptForAll(ttl: real, calls: seq<Call>, key: string, first: nat)
    requires first < |calls|
  {
    forall s, i :: first < s < i < |calls| && calls[i].key == key ==> calls[s].at < calls[first].at + ttl
  }

  /** All later calls of the key have read the clock before the expiry of the first one. */
  ghost predicate ReadInTime(ttl: real, calls: seq<Call>, key: string, first: nat)
    requires first < |calls|
  {
    forall i :: first < i < |calls| && calls[i].key == key ==> calls[i].at < calls[first].at + ttl
  }

  lemma {:induction false} LaterIsDuplicate(ttl: real, calls: seq<Call>, key: string, first: nat, i: nat)
    requires IsFirst(calls, key, first) && KeptForAll(ttl, calls, key, first)
    requires first < i < |calls| && calls[i].key == key && calls[i].at < calls[first].at + ttl
    ensures !Novel(ttl, calls, i)
  {
    NovelOnce(ttl, calls, key, first);
    assert Survives(ttl, calls, first, i, key);
    StoredAreSurvivors(ttl, calls, i, key);
  }

  lemma {:induction false} OnceIfKept(ttl: real, calls: seq<Call>, key: string, first: nat, n: nat)
    requires IsFirst(calls, key, first) && first < n <= |calls|
    requires ReadInTime(ttl, calls, key, first) && KeptForAll(ttl, calls, key, first)
    ensures Effects(ttl, calls[..n], key) == [calls[first].at]
  {
    EffectAdded(ttl, calls, key, n - 1);
    if n - 1 == first {
      NovelOnce(ttl, calls, key, first);
      EffectsUnchanged(ttl, calls, key, 0, first);
      assert calls[..0] == [];
    } else {
      OnceIfKept(ttl, calls, key, first, n - 1);
      if calls[n - 1].key == key {
        LaterIsDuplicate(ttl, calls, key, first, n - 1);
      }
    }
  }

  /** If the entry is gone before call `i`, that call or one before it takes effect again. */
  lemma {:induction false} TwiceIfSwept(ttl: real, calls: seq<Call>, key: string, first: nat, s: nat, i: nat)
    requires IsFirst(calls, key, first) && first < s < i < |calls| && calls[i].key == key
    requires calls[s].at >= calls[first].at + ttl
    ensures |Effects(ttl, calls, key)| >= 2
  {
    NovelOnce(ttl, calls, key, first);
    if j: nat :| first < j < i && calls[j].key == key && Novel(ttl, calls, j) {
      TwoEffects(ttl, calls, key, first, j);
    } else {
      StoredAreSurvivors(ttl, calls, i, key);
      forall m: nat ensures !Survives(ttl, calls, m, i, key) {
      }
      TwoEffects(ttl, calls, key, first, i);
    }
  }

  lemma {:induction false} TwoEffects(ttl: real, calls: seq<Call>, key: string, j: nat, i: nat)
    requires j < i < |calls| && calls[j].key == key == calls[i].key
    requires Novel(ttl, calls, j) && Novel(ttl, calls, i)
    ensures |Effects(ttl, calls, key)| >= 2
  {
    EffectTaken(ttl, calls, key, j);
    EffectsGrow(ttl, calls, key, j + 1, i);
    OneMoreEffect(ttl, calls, key, i);
  }

  lemma {:induction false} OneMoreEffect(ttl: real, calls: seq<Call>, key: string, i: nat)
    requires i < |calls| && calls[i].key == key && Novel(ttl, calls, i)
    ensures |Effects(ttl, calls, key)| > |Effects(ttl, calls[..i], key)|
  {
    EffectTaken(ttl, calls, key, i);
    EffectsGrow(ttl, calls, key, i + 1, |calls|);
    assert calls[..|calls|] == calls;
  }

  lemma {:induction false} EffectsGrow(ttl: real, calls: seq<Call>, key: string, m: nat, n: nat)
    requires m <= n <= |calls|
    ensures |Effects(ttl, calls[..m], key)| <= |Effects(ttl, calls[..n], key)|
  {
    if m < n {
      EffectsGrow(ttl, calls, key, m, n - 1);
      assert calls[..n][..n - 1] == calls[..n - 1];
    }
  }

  /** Whatever the order of the readings: a key whose later calls have read the clock within ttl of its first one takes
      effect exactly once, at the first call, exactly if no sweep reaches the first call's expiry before the last call
      of the key. */
  lemma {:induction false} OnceIff(ttl: real, calls: seq<Call>, key: string, first: nat)
    requires IsFirst(calls, key, first) && ReadInTime(ttl, calls, key, first)
    ensures |Effects(ttl, calls, key)| == 1 <==> KeptForAll(ttl, calls, key, first)
    ensures KeptForAll(ttl, calls, key, first) ==> Effects(ttl, calls, key) == [calls[first].at]
  {
    if KeptForAll(ttl, calls, key, first) {
      OnceIfKept(ttl, calls, key, first, |calls|);
      assert calls[..|calls|] == calls;
    } else {
      var s, i :| first < s < i < |calls| && calls[i].key == key && calls[s].at >= calls[first].at + ttl;
      TwiceIfSwept(ttl, calls, key, first, s, i);
    }
  }

  /** In clock order a key that is called at all, always within ttl of its first call, takes effect exactly once. */
  lemma {:induction false} OnceWithinTtl(ttl: real, calls: seq<Call>, key: string, first: nat)
    requires IsFirst(calls, key, first) && ReadInTime(ttl, calls, key, first) && InClockOrder(calls)
    ensures Effects(ttl, calls, key) == [calls[first].at]
  {
    assert KeptForAll(ttl, calls, key, first) by {
      forall s, i | first < s < i < |calls| && calls[i].key == key ensures calls[s].at < calls[first].at + ttl {
        assert calls[s].at <= calls[i].at;
      }
    }
    OnceIff(ttl, calls, key, first);
  }

  lemma {:induction false} NeverCalled(ttl: real, calls: seq<Call>, key: string)
    requires forall i :: 0 <= i < |calls| ==> calls[i].key != key
    ensures Effects(ttl, calls, key) == []
  {
    if calls != [] {
      NeverCalled(ttl, calls[..|calls| - 1], key);
    }
  }

  /** Whatever the readings, the first call of a key always takes effect, so no event is lost. */
  lemma {:induction false} NothingLost(ttl: real, calls: seq<Call>, key: string)
    ensures Effects(ttl, calls, key) != [] <==> exists i :: 0 <= i < |calls| && calls[i].key == key
  {
    if calls != [] {
      var n := |calls| - 1;
      var front := calls[..n];
      NothingLost(ttl, front, key);
      if i: nat :| i < n && front[i].key == key {
        assert calls[i].key == key;
      } else if calls[n].key == key {
        StoredAreSurvivors(ttl, calls, n, key);
        assert forall j: nat :: j < n ==> calls[j].key == front[j].key != key;
      }
    }
  }
}
