/**
 * The auto-approval licence: the automation level matrix, the governed
 * policies, the whitelist and the circuit breaker, and the test that decides
 * whether a gated remediation may start without a human.
 */
module AutoPolicy {
  import opened Wrappers

  datatype Level = L0 | L1 | L2 | L3 | L4 | Unknown(name: string)

  datatype LevelRow = LevelRow(level: Level, enabled: bool)

  datatype Policy = Policy(
    id: nat, assetClass: string, opType: string, level: Level,
    whitelistRef: Option<string>, verificationRef: Option<string>)

  datatype Whitelisted = Whitelisted(action: string, enabled: bool, risk: string)

  datatype Phase = Closed | Open | Half

  datatype Breaker = Breaker(phase: Phase, current: nat)

  datatype Config = Config(
    feature: bool, levels: seq<LevelRow>, policies: seq<Policy>,
    whitelist: seq<Whitelisted>, breaker: Option<Breaker>)

  /** The request's fields; an absent key is `None`. */
  datatype Remediation = Remediation(
    risk: Option<string>, assetClass: Option<string>, opType: Option<string>, action: Option<string>)

  // ------------------------------------------------------------ level matrix

  /** The first enabled row's level, or L3 when none is enabled. */
  function CurrentLevel(rows: seq<LevelRow>): Level {
    if rows == [] then L3 else if rows[0].enabled then rows[0].level else CurrentLevel(rows[1..])
  }

  ghost predicate LevelsUnique(rows: seq<LevelRow>) {
    forall i, j :: 0 <= i < j < |rows| ==> rows[i].level != rows[j].level
  }

  /** Exactly the rows of level `l` are enabled. */
  ghost predicate OnlyEnabled(rows: seq<LevelRow>, l: Level) {
    forall i :: 0 <= i < |rows| ==> (rows[i].enabled <==> rows[i].level == l)
  }

  ghost predicate AtMostOneEnabled(rows: seq<LevelRow>) {
    forall i, j :: 0 <= i < |rows| && 0 <= j < |rows| && rows[i].enabled && rows[j].enabled ==> i == j
  }

  ghost predicate HasLevel(rows: seq<LevelRow>, l: Level) {
    exists i :: 0 <= i < |rows| && rows[i].level == l
  }

  lemma {:induction false} CurrentIsEnabled(rows: seq<LevelRow>)
    ensures CurrentLevel(rows) != L3 ==>
              exists i :: 0 <= i < |rows| && rows[i].enabled && rows[i].level == CurrentLevel(rows)
  {
    if rows != [] && !rows[0].enabled {
      var rest := rows[1..];
      CurrentIsEnabled(rest);
      if CurrentLevel(rest) != L3 {
        var i :| 0 <= i < |rest| && rest[i].enabled && rest[i].level == CurrentLevel(rest);
        assert rows[i + 1] == rest[i];
      }
    }
  }

  lemma {:induction false} FirstEnabled(rows: seq<LevelRow>, i: nat)
    requires AtMostOneEnabled(rows) && i < |rows| && rows[i].enabled
    ensures CurrentLevel(rows) == rows[i].level
  {
    if i > 0 {
      assert !rows[0].enabled;
      assert forall k :: 0 <= k < |rows| - 1 ==> rows[1..][k] == rows[k + 1];
      FirstEnabled(rows[1..], i - 1);
    }
  }

  /** L4 may only be enabled over a non-empty set of L4 policies that all carry a verification. */
  predicate L4Governed(policies: seq<Policy>) {
    (exists i :: 0 <= i < |policies| && policies[i].level == L4) &&
    forall i :: 0 <= i < |policies| && policies[i].level == L4 ==> policies[i].verificationRef.Some?
  }

  predicate LevelAccepted(policies: seq<Policy>, l: Level) {
    !l.Unknown? && (l == L4 ==> L4Governed(policies))
  }

  function Enabling(rows: seq<LevelRow>, l: Level): seq<LevelRow> {
    seq(|rows|, i requires 0 <= i < |rows| => LevelRow(rows[i].level, rows[i].level == l))
  }

  /** The matrix after a level was set: its own row is added when it is missing. */
  function WithLevel(rows: seq<LevelRow>, l: Level): seq<LevelRow> {
    if exists i :: 0 <= i < |rows| && rows[i].level == l then Enabling(rows, l)
    else Enabling(rows, l) + [LevelRow(l, true)]
  }

  lemma WithLevelIsExclusive(rows: seq<LevelRow>, l: Level)
    requires LevelsUnique(rows)
    ensures LevelsUnique(WithLevel(rows, l)) && AtMostOneEnabled(WithLevel(rows, l))
    ensures OnlyEnabled(WithLevel(rows, l), l) && HasLevel(WithLevel(rows, l), l)
    ensures CurrentLevel(WithLevel(rows, l)) == l
  {
    var after := WithLevel(rows, l);
    var i := |rows|;
    if k :| 0 <= k < |rows| && rows[k].level == l { i := k; }
    assert after[i].level == l && after[i].enabled;
    FirstEnabled(after, i);
  }

  /** The level matrix as `put_level` updates it in place. */
  class LevelMatrix {
    var rows: seq<LevelRow>

    method PutLevel(policies: seq<Policy>, l: Level) returns (accepted: bool)
      requires LevelsUnique(rows)
      modifies this
      ensures accepted <==> LevelAccepted(policies, l)
      ensures !accepted ==> rows == old(rows)
      ensures accepted ==> rows == WithLevel(old(rows), l)
      ensures accepted ==> CurrentLevel(rows) == l && LevelsUnique(rows) && AtMostOneEnabled(rows)
    {
      accepted := LevelAccepted(policies, l);
      if !accepted { return; }
      WithLevelIsExclusive(rows, l);
      var known := exists i :: 0 <= i < |rows| && rows[i].level == l;
      var n := |rows|;
      if !known { rows := rows + [LevelRow(l, true)]; }
      var k := 0;
      while k < n
        invariant 0 <= k <= n && |rows| == if known then n else n + 1
        invariant forall i :: 0 <= i < k ==> rows[i] == LevelRow(old(rows)[i].level, old(rows)[i].level == l)
        invariant forall i :: k <= i < n ==> rows[i] == old(rows)[i]
        invariant known || rows[n] == LevelRow(l, true)
      {
        rows := rows[k := LevelRow(rows[k].level, rows[k].level == l)];
        k := k + 1;
      }
      assert rows == WithLevel(old(rows), l);
    }
  }

  // ------------------------------------------------------------ the hit test

  predicate Matches(p: Policy, rem: Remediation) {
    Some(p.assetClass) == rem.assetClass && Some(p.opType) == rem.opType && p.level == L4 &&
    p.whitelistRef.Some? && p.verificationRef.Some?
  }

  function Matching(ps: seq<Policy>, rem: Remediation): (r: seq<Policy>)
    ensures forall i :: 0 <= i < |r| ==> Matches(r[i], rem)
  {
    if ps == [] then [] else
    (if Matches(ps[0], rem) then [ps[0]] else []) + Matching(ps[1..], rem)
  }

  predicate LowRiskListed(wl: seq<Whitelisted>, action: string) {
    exists i :: 0 <= i < |wl| && wl[i].action == action && wl[i].enabled && wl[i].risk == "low"
  }

  predicate BreakerOpen(b: Option<Breaker>) { b.Some? && b.value.phase.Open? }

  /** The policy whose reference licenses the request, or `None` for "ask a human". */
  function ResolveAuto(cfg: Config, rem: Option<Remediation>): Option<nat> {
    if rem.None? || !cfg.feature then None
    else if rem.value.risk != Some("low") then None
    else if CurrentLevel(cfg.levels) != L4 then None
    else if BreakerOpen(cfg.breaker) then None
    else
      var ps := Matching(cfg.policies, rem.value);
      if |ps| != 1 then None
      else if rem.value.action != ps[0].whitelistRef then None
      else if !LowRiskListed(cfg.whitelist, ps[0].whitelistRef.value) then None
      else Some(ps[0].id)
  }

  /** Row k is the one and only policy that matches. */
  ghost predicate SoleMatch(ps: seq<Policy>, rem: Remediation, k: int) {
    0 <= k < |ps| && Matches(ps[k], rem) && forall j :: 0 <= j < |ps| && Matches(ps[j], rem) ==> j == k
  }

  lemma {:induction false} MatchingEmpty(ps: seq<Policy>, rem: Remediation)
    ensures Matching(ps, rem) == [] <==> forall j :: 0 <= j < |ps| ==> !Matches(ps[j], rem)
  {
    if ps != [] {
      MatchingEmpty(ps[1..], rem);
      assert forall j :: 0 <= j < |ps[1..]| ==> ps[1..][j] == ps[j + 1];
      assert forall j :: 1 <= j < |ps| ==> ps[j] == ps[1..][j - 1];
    }
  }

  lemma {:induction false} MatchingSingle(ps: seq<Policy>, rem: Remediation)
    ensures |Matching(ps, rem)| == 1 <==> exists k :: SoleMatch(ps, rem, k)
    ensures forall k :: SoleMatch(ps, rem, k) ==> Matching(ps, rem) == [ps[k]]
  {
    if ps != [] {
      var rest := ps[1..];
      MatchingSingle(rest, rem);
      MatchingEmpty(rest, rem);
      assert forall j :: 1 <= j < |ps| ==> ps[j] == rest[j - 1];
      if Matches(ps[0], rem) {
        if Matching(rest, rem) == [] {
          assert SoleMatch(ps, rem, 0);
        } else {
          var j :| 0 <= j < |rest| && Matches(rest[j], rem);
          assert Matches(ps[0], rem) && Matches(ps[j + 1], rem);
        }
      } else {
        forall k | SoleMatch(ps, rem, k) ensures k > 0 && SoleMatch(rest, rem, k - 1) {
          forall j | 0 <= j < |rest| && Matches(rest[j], rem) ensures j == k - 1 {
            assert Matches(ps[j + 1], rem);
          }
        }
        forall k | SoleMatch(rest, rem, k) ensures SoleMatch(ps, rem, k + 1) {
        }
      }
    }
  }

  /** What a hit guarantees, said without the filter and the early exits. */
  ghost predicate Licence(cfg: Config, rem: Remediation, k: int) {
    && cfg.feature
    && rem.risk == Some("low")
    && (exists i :: 0 <= i < |cfg.levels| && cfg.levels[i].enabled && cfg.levels[i].level == L4)
    && !BreakerOpen(cfg.breaker)
    && SoleMatch(cfg.policies, rem, k)
    && rem.action == cfg.policies[k].whitelistRef
    && LowRiskListed(cfg.whitelist, cfg.policies[k].whitelistRef.value)
  }

  lemma L4Current(rows: seq<LevelRow>)
    requires AtMostOneEnabled(rows)
    ensures CurrentLevel(rows) == L4 <==> exists i :: 0 <= i < |rows| && rows[i].enabled && rows[i].level == L4
  {
    CurrentIsEnabled(rows);
    if i :| 0 <= i < |rows| && rows[i].enabled && rows[i].level == L4 {
      FirstEnabled(rows, i);
    }
  }

  /** The hit test is exact: it names policy `id` if and only if the full licence holds. */
  lemma AutoHitExactly(cfg: Config, rem: Option<Remediation>, id: nat)
    requires AtMostOneEnabled(cfg.levels)
    ensures ResolveAuto(cfg, rem) == Some(id) <==>
              rem.Some? && exists k :: Licence(cfg, rem.value, k) && cfg.policies[k].id == id
  {
    if rem.Some? {
      L4Current(cfg.levels);
      MatchingSingle(cfg.policies, rem.value);
      if ResolveAuto(cfg, rem) == Some(id) {
        var k :| SoleMatch(cfg.policies, rem.value, k);
        assert Licence(cfg, rem.value, k);
      }
      forall k | Licence(cfg, rem.value, k) && cfg.policies[k].id == id ensures ResolveAuto(cfg, rem) == Some(id) {
        assert SoleMatch(cfg.policies, rem.value, k);
      }
    }
  }

  // ------------------------------------------------------------ circuit breaker

  function Record(b: Breaker, ok: bool, threshold: int): Breaker {
    match b.phase
    case Half => if ok then Breaker(Closed, 0) else b.(phase := Open)
    case Open => if ok then b.(phase := Half) else b
    case Closed =>
      if ok then b.(current := 0)
      else Breaker(if b.current + 1 >= threshold then Open else Closed, b.current + 1)
  }

  /** The global breaker row. */
  class BreakerRow {
    var phase: Phase
    var current: nat

    constructor ()
      ensures Value() == Breaker(Closed, 0)
    {
      phase, current := Closed, 0;
    }

    function Value(): Breaker
      reads this
    {
      Breaker(phase, current)
    }

    method RecordVerificationResult(ok: bool, threshold: int)
      modifies this
      ensures Value() == Record(old(Value()), ok, threshold)
    {
      if phase == Half {
        if ok { phase, current := Closed, 0; } else { phase := Open; }
      } else if phase == Open {
        if ok { phase := Half; }
      } else if ok {
        current := 0;
      } else {
        current := current + 1;
        if current >= threshold { phase := Open; }
      }
    }
  }

  function RecordAll(b: Breaker, results: seq<bool>, threshold: int): Breaker
    decreases |results|
  {
    if results == [] then b
    else Record(RecordAll(b, results[..|results| - 1], threshold), results[|results| - 1], threshold)
  }

  /** Enough failures in a row open the breaker, whatever happened before. */
  lemma {:induction false} FailuresTrip(b: Breaker, results: seq<bool>, threshold: int)
    requires |results| >= 1
    requires forall i :: 0 <= i < |results| ==> !results[i]
    ensures var after := RecordAll(b, results, threshold);
            after.phase.Open? || (after.phase.Closed? && after.current == b.current + |results| < threshold)
    ensures |results| >= threshold ==> RecordAll(b, results, threshold).phase.Open?
    decreases |results|
  {
    var init := results[..|results| - 1];
    if init == [] {
      assert RecordAll(b, init, threshold) == b;
    } else {
      FailuresTrip(b, init, threshold);
    }
  }

  /** The failures since the last success, counting those the breaker starts with. */
  function Streak(start: nat, results: seq<bool>): nat
    decreases |results|
  {
    if results == [] then start
    else if results[|results| - 1] then 0 else Streak(start, results[..|results| - 1]) + 1
  }

  /** A closed breaker counts exactly the failures in a row. */
  lemma {:induction false} CounterIsStreak(b: Breaker, results: seq<bool>, threshold: int)
    requires RecordAll(b, results, threshold).phase.Closed?
    ensures RecordAll(b, results, threshold).current == Streak(b.current, results)
    decreases |results|
  {
    if results != [] {
      var init := results[..|results| - 1];
      if RecordAll(b, init, threshold).phase.Closed? { CounterIsStreak(b, init, threshold); }
    }
  }

  lemma {:induction false} StreakIsTail(results: seq<bool>, n: nat)
    requires n <= |results|
    ensures Streak(0, results) >= n <==> forall i :: |results| - n <= i < |results| ==> !results[i]
    ensures Streak(0, results) <= |results|
    decreases |results|
  {
    if results != [] {
      var init := results[..|results| - 1];
      StreakIsTail(init, if n > 0 then n - 1 else 0);
      assert forall i :: 0 <= i < |init| ==> init[i] == results[i];
    }
  }

  /** After any history of a fresh breaker that left it closed, the next result opens it if and only
      if the last `threshold` results (at least the last one) are failures. */
  lemma OpensExactlyOnAStreak(results: seq<bool>, ok: bool, threshold: int)
    requires RecordAll(Breaker(Closed, 0), results, threshold).phase.Closed?
    ensures var n, all := if threshold < 1 then 1 else threshold, results + [ok];
            RecordAll(Breaker(Closed, 0), all, threshold).phase.Open? <==>
              n <= |all| && forall i :: |all| - n <= i < |all| ==> !all[i]
  {
    var b, all, n := Breaker(Closed, 0), results + [ok], if threshold < 1 then 1 else threshold;
    assert all[..|all| - 1] == results;
    CounterIsStreak(b, results, threshold);
    StreakIsTail(all, if n <= |all| then n else 0);
    assert !ok ==> Streak(0, all) == Streak(0, results) + 1;
  }

  /** Two successes in a row always close it and reset the counter. */
  lemma TwoSuccessesClose(b: Breaker, results: seq<bool>, threshold: int)
    requires |results| >= 2 && results[|results| - 1] && results[|results| - 2]
    ensures RecordAll(b, results, threshold) == Breaker(Closed, 0)
  {
    var n := |results|;
    var init := results[..n - 1];
    assert init[..n - 2] == results[..n - 2];
    var before := RecordAll(b, results[..n - 2], threshold);
    assert RecordAll(b, init, threshold) == Record(before, true, threshold);
  }

  /** An open breaker only closes through two successes in a row. */
  lemma {:induction false} ReopeningNeedsTwo(b: Breaker, results: seq<bool>, threshold: int)
    requires b.phase.Open? && !RecordAll(b, results, threshold).phase.Open?
    ensures |results| >= 1
    ensures RecordAll(b, results, threshold).phase.Half? ==> results[|results| - 1]
    ensures RecordAll(b, results, threshold).phase.Closed? ==>
              exists i :: 0 <= i < |results| - 1 && results[i] && results[i + 1]
    decreases |results|
  {
    if results != [] {
      var n := |results|;
      var init := results[..n - 1];
      var before := RecordAll(b, init, threshold);
      if !before.phase.Open? {
        ReopeningNeedsTwo(b, init, threshold);
        if before.phase.Half? && results[n - 1] {
          assert results[n - 2] == init[n - 2];
        } else if before.phase.Closed? {
          var i :| 0 <= i < |init| - 1 && init[i] && init[i + 1];
          assert results[i] && results[i + 1];
        }
      }
    }
  }
}
