/** Token revocation over time: logout, the expiring denylist, and the two-step check of a request. */
module Revocation {
  import opened Strings
  import opened Wrappers

  /** Expiry is in seconds; all clocks here are in milliseconds. */
  datatype Claims = Claims(jti: string, exp: int)

  const KEY_PREFIX := "uaop:gw:denylist:"

  function Key(jti: string): string {
    KEY_PREFIX + jti
  }

  lemma {:induction false} KeyIsUnique(a: string, b: string)
    ensures Key(a) == Key(b) <==> a == b
  {
    assert Key(a)[|KEY_PREFIX|..] == a && Key(b)[|KEY_PREFIX|..] == b;
  }

  /** Each key is there until its time. */
  type Entries = map<string, nat>

  predicate Present(entries: Entries, key: string, now: nat) {
    key in entries && now < entries[key]
  }

  function Denied(entries: Entries, jti: string, ttl: int, now: nat): Entries {
    if ttl <= 0 then entries else entries[Key(jti) := now + 1000 * ttl]
  }

  class RedisClient {
    var entries: Entries

    constructor ()
      ensures entries == map[]
    {
      entries := map[];
    }

    method SetEx(key: string, seconds: nat, now: nat)
      requires seconds > 0
      modifies this
      ensures entries == old(entries)[key := now + 1000 * seconds]
    {
      entries := entries[key := now + 1000 * seconds];
    }

    method Get(key: string, now: nat) returns (value: Option<string>)
      ensures value.Some? <==> Present(entries, key, now)
    {
      return if key in entries && now < entries[key] then Some("1") else None;
    }
  }

  class Denylist {
    const redis: RedisClient

    constructor (redis: RedisClient)
      ensures this.redis == redis
    {
      this.redis := redis;
    }

    method Revoke(jti: string, ttlSeconds: int, now: nat)
      modifies redis
      ensures redis.entries == Denied(old(redis.entries), jti, ttlSeconds, now)
    {
      if ttlSeconds <= 0 {
        return;
      }
      redis.SetEx(KEY_PREFIX + jti, ttlSeconds, now);
    }

    method IsRevoked(jti: string, now: nat) returns (revoked: bool)
      ensures revoked <==> Present(redis.entries, Key(jti), now)
    {
      var value := redis.Get(KEY_PREFIX + jti, now);
      return value.Some?;
    }
  }

  // ----- The two handlers, up to their await -----

  /** The signature check gives a token's claims; a token is then valid while the clock's whole seconds are before its
      expiry. */
  predicate Unexpired(exp: int, now: nat) {
    now / 1000 < exp
  }

  lemma {:induction false} UnexpiredInMilliseconds(exp: int, now: nat)
    ensures Unexpired(exp, now) <==> now < 1000 * exp
  {
  }

  /** The second word of the header, if the first is Bearer. */
  function BearerToken(header: string): Option<string> {
    var space := IndexOf(header, ' ');
    if space == |header| || header[..space] != "Bearer" then None
    else
      var rest := header[space + 1..];
      var token := rest[..IndexOf(rest, ' ')];
      if token == "" then None else Some(token)
  }

  lemma {:induction false} BearerTokenIff(header: string, token: string)
    requires ' ' !in token && token != ""
    ensures BearerToken(header) == Some(token) <==>
            header == "Bearer" + [' '] + token
            || exists more: string :: header == "Bearer" + [' '] + (token + [' '] + more)
  {
    var space := IndexOf(header, ' ');
    if BearerToken(header) == Some(token) {
      var rest := header[space + 1..];
      assert header == header[..space] + [' '] + rest;
      var end := IndexOf(rest, ' ');
      if end == |rest| {
        assert rest == token;
      } else {
        assert rest == token + [' '] + rest[end + 1..];
      }
    }
    if header == "Bearer" + [' '] + token {
      FirstAt("Bearer", ' ', token);
      assert token[..|token|] == token;
      AbsentAt(token, ' ');
    }
    if more: string :| header == "Bearer" + [' '] + (token + [' '] + more) {
      FirstAt("Bearer", ' ', token + [' '] + more);
      FirstAt(token, ' ', more);
    }
  }

  lemma {:induction false} AbsentAt(s: string, c: char)
    requires c !in s
    ensures IndexOf(s, c) == |s|
  {
  }

  /** The part of authenticate before it waits for the denylist. */
  method Verify(header: string, claimsOf: string -> Option<Claims>, now: nat) returns (r: Result<Claims, string>)
    ensures r.Ok? <==> BearerToken(header).Some? && claimsOf(BearerToken(header).value).Some?
                       && Unexpired(claimsOf(BearerToken(header).value).value.exp, now)
    ensures r.Ok? ==> Some(r.value) == claimsOf(BearerToken(header).value)
    ensures r == Err("missing bearer token") <==> BearerToken(header).None?
  {
    var token := BearerToken(header);
    if token.None? {
      return Err("missing bearer token");
    }
    var claims := claimsOf(token.value);
    if claims.None? || now / 1000 >= claims.value.exp {
      return Err("invalid or expired token");
    }
    return Ok(claims.value);
  }

  function RemainingTtl(exp: int, now: nat): int {
    exp - now / 1000
  }

  // ----- Interleaved runs -----

  /** A logout between computing the TTL and writing it. */
  datatype Logout = Logout(jti: string, ttl: int, startedAt: nat)

  /** A request between verification and the denylist's answer. */
  datatype Check = Check(jti: string, verifiedAt: nat)

  datatype Verdict = Verdict(jti: string, verifiedAt: nat, lookedUpAt: nat, deniedUntil: nat, wasRevoked: bool,
                             accepted: bool)

  /** `revoked` and `slowest`, the longest wait of a finished logout, are history. */
  datatype Gateway = Gateway(now: nat, entries: Entries, logouts: seq<Logout>, checks: seq<Check>, revoked: set<string>,
                             slowest: nat, verdicts: seq<Verdict>)

  datatype Step =
    | Wait(ms: nat)
    | BeginLogout(jti: string)
    | FinishLogout(k: nat)
    | BeginCheck(jti: string)
    | FinishCheck(k: nat)

  function Without<T>(s: seq<T>, k: nat): (r: seq<T>)
    requires k < |s|
    ensures |r| == |s| - 1
    ensures forall i :: 0 <= i < |r| ==> r[i] == s[if i < k then i else i + 1]
  {
    s[..k] + s[k + 1..]
  }

  function DeniedUntil(entries: Entries, jti: string): nat {
    if Key(jti) in entries then entries[Key(jti)] else 0
  }

  /** `exp` is the expiry a token's identifier comes with. Steps of nothing pending do nothing. */
  function Next(g: Gateway, s: Step, exp: string -> int): Gateway {
    match s
    case Wait(ms) => g.(now := g.now + ms)
    case BeginLogout(jti) => g.(logouts := g.logouts + [Logout(jti, RemainingTtl(exp(jti), g.now), g.now)])
    case FinishLogout(k) =>
      if k >= |g.logouts| then g
      else
        var l := g.logouts[k];
        g.(logouts := Without(g.logouts, k), entries := Denied(g.entries, l.jti, l.ttl, g.now),
           revoked := g.revoked + {l.jti},
           slowest := if g.now - l.startedAt > g.slowest then g.now - l.startedAt else g.slowest)
    case BeginCheck(jti) =>
      if Unexpired(exp(jti), g.now) then g.(checks := g.checks + [Check(jti, g.now)]) else g
    case FinishCheck(k) =>
      if k >= |g.checks| then g
      else
        g.(checks := Without(g.checks, k), verdicts := g.verdicts + [VerdictOn(g, g.checks[k])])
  }

  function VerdictOn(g: Gateway, c: Check): Verdict {
    Verdict(c.jti, c.verifiedAt, g.now, DeniedUntil(g.entries, c.jti), c.jti in g.revoked,
            !Present(g.entries, Key(c.jti), g.now))
  }

  function Run(steps: seq<Step>, exp: string -> int): Gateway {
    if steps == [] then Gateway(0, map[], [], [], {}, 0, [])
    else Next(Run(steps[..|steps| - 1], exp), steps[|steps| - 1], exp)
  }

  /** A revoked token is denied up to its expiry, unless it had expired by then. */
  predicate Covered(deniedUntil: int, now: nat, exp: int) {
    deniedUntil >= 1000 * exp || now >= 1000 * exp
  }

  ghost predicate Sound(g: Gateway, exp: string -> int) {
    && (forall l :: l in g.logouts ==> l.startedAt <= g.now && l.ttl == RemainingTtl(exp(l.jti), l.startedAt))
    && (forall c :: c in g.checks ==> c.verifiedAt <= g.now && Unexpired(exp(c.jti), c.verifiedAt))
    && (forall jti :: jti in g.revoked ==> Covered(DeniedUntil(g.entries, jti), g.now, exp(jti)))
    && (forall jti :: Key(jti) in g.entries ==> jti in g.revoked)
    && (forall jti :: Key(jti) in g.entries ==> g.entries[Key(jti)] < 1000 * exp(jti) + 1000 + g.slowest)
    && (forall v :: v in g.verdicts ==> Right(v, exp(v.jti), g.slowest))
  }

  /** What every verdict satisfies. Verification came before expiry. The request passes exactly when the token's entry
      has run out, which without a revocation is always; the entry of a revoked token does not run out before the
      expiry, and it stays less than a second, plus the slowest logout's delay, beyond it. */
  predicate Right(v: Verdict, exp: int, slowest: nat) {
    && v.verifiedAt <= v.lookedUpAt && v.verifiedAt < 1000 * exp
    && (v.accepted <==> v.lookedUpAt >= v.deniedUntil)
    && (!v.wasRevoked ==> v.accepted)
    && (v.wasRevoked ==> Covered(v.deniedUntil, v.lookedUpAt, exp))
    && (v.deniedUntil > 0 ==> v.deniedUntil < 1000 * exp + 1000 + slowest)
  }

  /** The entry outlives the token however late it is written, and by less than a second plus that delay. */
  lemma {:induction false} EntryOutlivesToken(exp: int, started: nat, now: nat)
    requires started <= now && RemainingTtl(exp, started) > 0
    ensures 1000 * exp <= now + 1000 * RemainingTtl(exp, started) < 1000 * exp + 1000 + (now - started)
  {
  }

  /** A logout that writes nothing was of an expired token. */
  lemma {:induction false} SkippedIsExpired(exp: int, started: nat, now: nat)
    requires started <= now && RemainingTtl(exp, started) <= 0
    ensures now >= 1000 * exp
  {
  }

  lemma {:induction false} FinishLogoutSound(g: Gateway, k: nat, exp: string -> int)
    requires Sound(g, exp) && k < |g.logouts|
    ensures Sound(Next(g, FinishLogout(k), exp), exp)
  {
    var l := g.logouts[k];
    var after := Next(g, FinishLogout(k), exp);
    assert l in g.logouts;
    assert forall x :: x in after.logouts ==> x in g.logouts;
    if l.ttl <= 0 {
      SkippedIsExpired(exp(l.jti), l.startedAt, g.now);
    } else {
      EntryOutlivesToken(exp(l.jti), l.startedAt, g.now);
      forall jti ensures Key(jti) == Key(l.jti) <==> jti == l.jti {
        KeyIsUnique(jti, l.jti);
      }
    }
  }

  lemma {:induction false} FinishCheckSound(g: Gateway, k: nat, exp: string -> int)
    requires Sound(g, exp) && k < |g.checks|
    ensures Sound(Next(g, FinishCheck(k), exp), exp)
  {
    var c := g.checks[k];
    assert c in g.checks;
    UnexpiredInMilliseconds(exp(c.jti), c.verifiedAt);
    assert forall x :: x in Next(g, FinishCheck(k), exp).checks ==> x in g.checks;
  }

  /** Every interleaving of logouts, checks and the clock keeps this. */
  lemma {:induction false} RunsAreSound(steps: seq<Step>, exp: string -> int)
    ensures Sound(Run(steps, exp), exp)
  {
    if steps != [] {
      var before, s := steps[..|steps| - 1], steps[|steps| - 1];
      RunsAreSound(before, exp);
      var g := Run(before, exp);
      match s
      case FinishLogout(k) =>
        if k < |g.logouts| {
          FinishLogoutSound(g, k, exp);
        }
      case FinishCheck(k) =>
        if k < |g.checks| {
          FinishCheckSound(g, k, exp);
        }
      case _ =>
    }
  }

  // ----- The same told by the list of steps -----

  function Clock(steps: seq<Step>): nat {
    if steps == [] then 0
    else
      var s := steps[|steps| - 1];
      Clock(steps[..|steps| - 1]) + if s.Wait? then s.ms else 0
  }

  /** The logouts that have begun and not ended, in the order they began. */
  function OpenLogouts(steps: seq<Step>, exp: string -> int): seq<Logout> {
    if steps == [] then []
    else
      var before, s := steps[..|steps| - 1], steps[|steps| - 1];
      var open := OpenLogouts(before, exp);
      match s
      case BeginLogout(jti) => open + [Logout(jti, exp(jti) - Clock(before) / 1000, Clock(before))]
      case FinishLogout(k) => if k < |open| then Without(open, k) else open
      case _ => open
  }

  /** The requests that passed verification and have no answer yet, in the order they began. */
  function OpenChecks(steps: seq<Step>, exp: string -> int): seq<Check> {
    if steps == [] then []
    else
      var before, s := steps[..|steps| - 1], steps[|steps| - 1];
      var open := OpenChecks(before, exp);
      match s
      case BeginCheck(jti) => if Clock(before) < 1000 * exp(jti) then open + [Check(jti, Clock(before))] else open
      case FinishCheck(k) => if k < |open| then Without(open, k) else open
      case _ => open
  }

  /** The last step ends this logout. */
  function EndedLast(steps: seq<Step>, exp: string -> int): Option<Logout> {
    if steps == [] then None
    else
      var open, s := OpenLogouts(steps[..|steps| - 1], exp), steps[|steps| - 1];
      if s.FinishLogout? && s.k < |open| then Some(open[s.k]) else None
  }

  /** The tokens whose logout has ended. */
  function Ended(steps: seq<Step>, exp: string -> int): set<string> {
    if steps == [] then {}
    else
      var last := EndedLast(steps, exp);
      Ended(steps[..|steps| - 1], exp) + if last.Some? then {last.value.jti} else {}
  }

  function Slowest(steps: seq<Step>, exp: string -> int): nat {
    if steps == [] then 0
    else
      var before, last := steps[..|steps| - 1], EndedLast(steps, exp);
      var slowest := Slowest(before, exp);
      if last.Some? && Clock(before) - last.value.startedAt > slowest then Clock(before) - last.value.startedAt
      else slowest
  }

  /** When the denial of a token runs out: set by its last logout to end that began before the expiry. */
  function DenialEnd(steps: seq<Step>, jti: string, exp: string -> int): int {
    if steps == [] then 0
    else
      var before, last := steps[..|steps| - 1], EndedLast(steps, exp);
      if last.Some? && last.value.jti == jti && last.value.startedAt / 1000 < exp(jti)
      then Clock(before) + 1000 * (exp(jti) - last.value.startedAt / 1000)
      else DenialEnd(before, jti, exp)
  }

  /** A request that gets its answer after the first `at` steps. */
  datatype Answer = Answer(check: Check, at: nat)

  function Answers(steps: seq<Step>, exp: string -> int): seq<Answer> {
    if steps == [] then []
    else
      var before, s := steps[..|steps| - 1], steps[|steps| - 1];
      var open, answers := OpenChecks(before, exp), Answers(before, exp);
      if s.FinishCheck? && s.k < |open| then answers + [Answer(open[s.k], |before|)] else answers
  }

  lemma {:induction false} ClockIsHistory(steps: seq<Step>, exp: string -> int)
    ensures Run(steps, exp).now == Clock(steps)
  {
    if steps != [] {
      ClockIsHistory(steps[..|steps| - 1], exp);
    }
  }

  lemma {:induction false} LogoutsAreHistory(steps: seq<Step>, exp: string -> int)
    ensures Run(steps, exp).logouts == OpenLogouts(steps, exp)
  {
    if steps != [] {
      LogoutsAreHistory(steps[..|steps| - 1], exp);
      ClockIsHistory(steps[..|steps| - 1], exp);
    }
  }

  lemma {:induction false} ChecksAreHistory(steps: seq<Step>, exp: string -> int)
    ensures Run(steps, exp).checks == OpenChecks(steps, exp)
  {
    if steps != [] {
      ChecksAreHistory(steps[..|steps| - 1], exp);
      ClockIsHistory(steps[..|steps| - 1], exp);
    }
  }

  lemma {:induction false} EndedIsHistory(steps: seq<Step>, exp: string -> int)
    ensures Run(steps, exp).revoked == Ended(steps, exp)
    ensures Run(steps, exp).slowest == Slowest(steps, exp)
  {
    if steps != [] {
      EndedIsHistory(steps[..|steps| - 1], exp);
      ClockIsHistory(steps[..|steps| - 1], exp);
      LogoutsAreHistory(steps[..|steps| - 1], exp);
    }
  }

  lemma {:induction false} DenialIsHistory(steps: seq<Step>, jti: string, exp: string -> int)
    ensures DeniedUntil(Run(steps, exp).entries, jti) == DenialEnd(steps, jti, exp)
  {
    if steps != [] {
      var before := steps[..|steps| - 1];
      DenialIsHistory(before, jti, exp);
      ClockIsHistory(before, exp);
      LogoutsAreHistory(before, exp);
      var last := EndedLast(steps, exp);
      if last.Some? {
        KeyIsUnique(jti, last.value.jti);
        OpenLogoutTtl(before, exp, last.value);
      }
    }
  }

  lemma {:induction false} OpenLogoutTtl(steps: seq<Step>, exp: string -> int, l: Logout)
    requires l in OpenLogouts(steps, exp)
    ensures l.ttl == exp(l.jti) - l.startedAt / 1000
  {
    var before, s := steps[..|steps| - 1], steps[|steps| - 1];
    if l in OpenLogouts(before, exp) {
      OpenLogoutTtl(before, exp, l);
    }
  }

  lemma {:induction false} NextVerdicts(g: Gateway, s: Step, exp: string -> int)
    ensures Next(g, s, exp).verdicts
         == g.verdicts + if s.FinishCheck? && s.k < |g.checks| then [VerdictOn(g, g.checks[s.k])] else []
  {
  }

  lemma {:induction false} VerdictCount(steps: seq<Step>, exp: string -> int)
    ensures |Run(steps, exp).verdicts| == |Answers(steps, exp)|
  {
    if steps != [] {
      var before := steps[..|steps| - 1];
      VerdictCount(before, exp);
      ChecksAreHistory(before, exp);
      NextVerdicts(Run(before, exp), steps[|steps| - 1], exp);
    }
  }

  /** One verdict for each answered request, in the order of the answers, on the state the steps before it made. */
  lemma {:induction false} VerdictsAreAnswers(steps: seq<Step>, exp: string -> int, i: nat)
    requires i < |Answers(steps, exp)|
    ensures |Run(steps, exp).verdicts| == |Answers(steps, exp)| && Answers(steps, exp)[i].at < |steps|
    ensures var a := Answers(steps, exp)[i];
            Run(steps, exp).verdicts[i] == VerdictOn(Run(steps[..a.at], exp), a.check)
  {
    var before := steps[..|steps| - 1];
    VerdictCount(steps, exp);
    VerdictCount(before, exp);
    ChecksAreHistory(before, exp);
    NextVerdicts(Run(before, exp), steps[|steps| - 1], exp);
    if i < |Answers(before, exp)| {
      VerdictsAreAnswers(before, exp, i);
      assert before[..Answers(before, exp)[i].at] == steps[..Answers(before, exp)[i].at];
    }
  }

  /** Over every run and every answered request: the verdict is on the request whose turn it is. A token passes if no
      logout of it has ended; after one has, it is refused whenever the denylist is asked before the token expires, in
      particular if no time passes between verification and that question. Only a request verified before the expiry
      and looked up after it can pass, and it does so exactly when the denial has run out. */
  lemma {:induction false} RevokedIsRefused(steps: seq<Step>, exp: string -> int, i: nat)
    requires i < |Answers(steps, exp)|
    ensures |Run(steps, exp).verdicts| == |Answers(steps, exp)| && Answers(steps, exp)[i].at < |steps|
    ensures var a := Answers(steps, exp)[i];
            var jti, before, v := a.check.jti, steps[..a.at], Run(steps, exp).verdicts[i];
            && v.jti == jti && v.verifiedAt == a.check.verifiedAt && v.lookedUpAt == Clock(before)
            && (jti !in Ended(before, exp) ==> v.accepted)
            && (jti in Ended(before, exp) && Clock(before) < 1000 * exp(jti) ==> !v.accepted)
            && (jti in Ended(before, exp) && Clock(before) == v.verifiedAt ==> !v.accepted)
            && (jti in Ended(before, exp) ==>
                  (v.accepted <==> v.verifiedAt < 1000 * exp(jti) <= Clock(before)
                                   && DenialEnd(before, jti, exp) <= Clock(before)))
  {
    RunsAreSound(steps, exp);
    VerdictsAreAnswers(steps, exp, i);
    var a := Answers(steps, exp)[i];
    var v := Run(steps, exp).verdicts[i];
    assert v in Run(steps, exp).verdicts;
    ClockIsHistory(steps[..a.at], exp);
    EndedIsHistory(steps[..a.at], exp);
    DenialIsHistory(steps[..a.at], a.check.jti, exp);
  }

  /** The denial of a token reaches its expiry, and goes beyond it by less than a second plus the slowest logout. */
  lemma {:induction false} DenialReachesExpiry(steps: seq<Step>, jti: string, exp: string -> int)
    requires jti in Ended(steps, exp)
    ensures Covered(DenialEnd(steps, jti, exp), Clock(steps), exp(jti))
    ensures DenialEnd(steps, jti, exp) > 0 ==>
              DenialEnd(steps, jti, exp) < 1000 * exp(jti) + 1000 + Slowest(steps, exp)
  {
    RunsAreSound(steps, exp);
    ClockIsHistory(steps, exp);
    EndedIsHistory(steps, exp);
    DenialIsHistory(steps, jti, exp);
  }

  /** Such a request exists for every token: verification and lookup both come after the revocation, and it passes. */
  lemma {:induction false} SlowLookupPasses(jti: string, exp: string -> int)
    requires exp(jti) > 0
    ensures var g := Run([BeginLogout(jti), FinishLogout(0), BeginCheck(jti), Wait(1000 * exp(jti)), FinishCheck(0)],
                         exp);
            |g.verdicts| == 1 && g.verdicts[0].wasRevoked && g.verdicts[0].accepted
  {
    var e := exp(jti);
    var s1, s2, s3 := [BeginLogout(jti)], [BeginLogout(jti), FinishLogout(0)],
                      [BeginLogout(jti), FinishLogout(0), BeginCheck(jti)];
    var s4 := s3 + [Wait(1000 * e)];
    RunStep([], BeginLogout(jti), s1, exp);
    assert Run(s1, exp).logouts == [Logout(jti, e, 0)];
    RunStep(s1, FinishLogout(0), s2, exp);
    RunStep(s2, BeginCheck(jti), s3, exp);
    assert Run(s3, exp).checks == [Check(jti, 0)];
    RunStep(s3, Wait(1000 * e), s4, exp);
    RunStep(s4, FinishCheck(0),
            [BeginLogout(jti), FinishLogout(0), BeginCheck(jti), Wait(1000 * exp(jti)), FinishCheck(0)], exp);
  }

  lemma {:induction false} RunStep(steps: seq<Step>, s: Step, more: seq<Step>, exp: string -> int)
    requires more == steps + [s]
    ensures Run(more, exp) == Next(Run(steps, exp), s, exp)
  {
    assert more[..|steps|] == steps;
  }

  /** Once logged out, always logged out: a check that begins after the logout has ended is under the law above. */
  lemma {:induction false} RevocationStays(steps: seq<Step>, n: nat, exp: string -> int)
    requires n <= |steps|
    ensures Ended(steps[..n], exp) <= Ended(steps, exp)
    decreases |steps|
  {
    if n == |steps| {
      assert steps[..n] == steps;
    } else {
      assert steps[..|steps| - 1][..n] == steps[..n];
      RevocationStays(steps[..|steps| - 1], n, exp);
    }
  }
}
