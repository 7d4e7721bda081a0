/**
 * Escalation over an alert's whole life: when it is bounded, how long it takes,
 * and exactly which level lists make it go on for ever.
 */
module AlertEscalation {
  import opened Wrappers
  import opened AlertModel
  import opened AlertRuns

  /** Position p holds the first occurrence of its level. */
  predicate FirstAt<T(==)>(levels: seq<T>, p: int)
    requires 0 <= p < |levels|
  {
    IndexOf(levels, levels[p]) == p
  }

  /** Every level after position k is a first occurrence: climbing from k never falls back. */
  predicate Climbs<T(==)>(levels: seq<T>, k: int)
    requires -1 <= k < |levels|
  {
    forall p {:trigger FirstAt(levels, p)} :: k < p < |levels| ==> FirstAt(levels, p)
  }

  lemma DistinctLevelsClimb<T>(levels: seq<T>, k: int)
    requires -1 <= k < |levels|
    requires forall i, j :: 0 <= i < j < |levels| ==> levels[i] != levels[j]
    ensures Climbs(levels, k)
  {
    forall p | k < p < |levels| ensures FirstAt(levels, p) {
      assert levels[IndexOf(levels, levels[p])] == levels[p];
    }
  }

  /** The alert's first log row. */
  function First(log: seq<Entry>, a: nat): Option<Entry> {
    if log == [] then None
    else
      var before := First(log[..|log| - 1], a);
      if before.Some? || log[|log| - 1].alert != a then before else Some(log[|log| - 1])
  }

  ghost predicate Counted(levels: seq<string>, log: seq<Entry>, a: nat) {
    match First(log, a)
    case None => Last(log, a, Any).None? && Escalations(log, a) == 0
    case Some(f) =>
      Last(log, a, Any).Some? &&
      (Climbs(levels, IndexOf(levels, f.severity)) ==>
         Escalations(log, a) ==
           IndexOf(levels, Last(log, a, Any).value.severity) - IndexOf(levels, f.severity))
  }

  /** One more row keeps the account: an escalation climbs one position, any other row none. */
  lemma CountedRow(rules: seq<Rule>, alert: Alert, log: seq<Entry>, e: Entry, a: nat)
    requires alert.rule < |rules| && Counted(rules[alert.rule].levels, log, a)
    requires e.alert == a ==> Stepwise(rules, alert, log, e)
    requires e.alert == a && !e.action.Escalate? && Last(log, a, Any).Some? ==> Last(log, a, Any).value.severity == e.severity
    ensures Counted(rules[alert.rule].levels, log + [e], a)
  {
    assert (log + [e])[..|log|] == log;
    var levels, f := rules[alert.rule].levels, First(log, a);
    if e.alert == a && e.action.Escalate? && f.Some? && Climbs(levels, IndexOf(levels, f.value.severity)) {
      var p := IndexOf(levels, Last(log, a, Any).value.severity) + 1;
      assert FirstAt(levels, p);
    }
  }

  lemma {:induction false} CountedPrefix(rules: seq<Rule>, s: State, past: seq<Event>, a: nat, n: nat)
    requires LogOk(rules, s, past) && n <= |s.log|
    requires a in s.alerts && s.alerts[a].rule < |rules|
    ensures Counted(rules[s.alerts[a].rule].levels, s.log[..n], a)
    decreases n
  {
    if n > 0 {
      CountedPrefix(rules, s, past, a, n - 1);
      assert RowOk(rules, s, past, n - 1);
      assert s.log[..n] == s.log[..n - 1] + [s.log[n - 1]];
      CountedRow(rules, s.alerts[a], s.log[..n - 1], s.log[n - 1], a);
    }
  }

  /**
   * In every run, if no level after the alert's initial severity repeats an
   * earlier one: the escalations over its whole life, reopenings included, are
   * exactly the positions climbed, so there are at most as many as levels, and
   * the position of the severity never decreases (it is the initial one plus
   * the escalations so far, at every prefix of the log).
   */
  lemma EscalationsAreBounded(rules: seq<Rule>, steps: seq<Step>, a: nat, n: nat)
    requires a in Run(rules, Start(), steps).alerts && n <= |Run(rules, Start(), steps).log|
    requires Run(rules, Start(), steps).alerts[a].rule < |rules|
    requires var s := Run(rules, Start(), steps);
             var levels := rules[s.alerts[a].rule].levels;
             First(s.log[..n], a).Some? && Climbs(levels, IndexOf(levels, First(s.log[..n], a).value.severity))
    ensures var s := Run(rules, Start(), steps);
            var levels := rules[s.alerts[a].rule].levels;
            Last(s.log[..n], a, Any).Some? &&
            IndexOf(levels, Last(s.log[..n], a, Any).value.severity) ==
              IndexOf(levels, First(s.log[..n], a).value.severity) + Escalations(s.log[..n], a) &&
            Escalations(s.log[..n], a) <= |levels|
  {
    RunOk(rules, steps);
    var s := Run(rules, Start(), steps);
    CountedPrefix(rules, s, s.past, a, n);
  }

  /**
   * In every run, a row that escalates an alert to position p of its levels
   * comes at least p + 1 windows after the row that last made it fire.
   */
  lemma EscalationTakesItsWindows(rules: seq<Rule>, steps: seq<Step>, i: nat) returns (f: nat)
    requires i < |Run(rules, Start(), steps).log|
    requires Run(rules, Start(), steps).log[i].action.Escalate?
    ensures var s := Run(rules, Start(), steps);
            var e := s.log[i];
            && f < i && s.log[f].alert == e.alert && Is(ToFiring, s.log[f])
            && (forall k :: f < k < i && s.log[k].alert == e.alert ==> !Is(ToFiring, s.log[k]))
            && e.alert in s.alerts && s.alerts[e.alert].rule < |rules|
            && var rule := rules[s.alerts[e.alert].rule];
               exists p :: 0 <= p < |rule.levels| && rule.levels[p] == e.severity &&
                           e.at - s.log[f].at >= rule.window * (p + 1)
    ensures var s := Run(rules, Start(), steps);
            var rule := rules[s.alerts[s.log[i].alert].rule];
            Climbs(rule.levels, -1) ==>
              s.log[i].at - s.log[f].at >= rule.window * (IndexOf(rule.levels, s.log[i].severity) + 1)
  {
    RunOk(rules, steps);
    var s := Run(rules, Start(), steps);
    assert RowOk(rules, s, s.past, i);
    var e := s.log[i];
    var rule := rules[s.alerts[e.alert].rule];
    f := LastAt(s.log[..i], e.alert, ToFiring);
    var p := IndexOf(rule.levels, Last(s.log[..i], e.alert, Any).value.severity) + 1;
    assert rule.levels[p] == e.severity;
    if Climbs(rule.levels, -1) { assert FirstAt(rule.levels, p); }
  }

  // ------------------------------------------------------------ repeated levels

  /** The alert is firing or acknowledged under a rule that escalates, and the levels ahead repeat an earlier one. */
  ghost predicate Looping(rules: seq<Rule>, s: State, a: nat) {
    && a in s.alerts && s.alerts[a].rule < |rules|
    && (s.alerts[a].status.Firing? || s.alerts[a].status.Acknowledged?)
    && s.alerts[a].firedAt.Some?
    && var rule := rules[s.alerts[a].rule];
       rule.enabled && rule.escalates && rule.window > 0 && !Climbs(rule.levels, IndexOf(rule.levels, s.alerts[a].severity))
  }

  function LateEnough(rule: Rule, firedAt: int): int { firedAt + rule.window * (|rule.levels| + 1) }

  lemma NextLevelStillLoops<T>(levels: seq<T>, k: int)
    requires -1 <= k < |levels| && !Climbs(levels, k)
    ensures k + 1 < |levels| && !Climbs(levels, IndexOf(levels, levels[k + 1]))
  {
    var p :| k < p < |levels| && !FirstAt(levels, p);
    FirstIsNoLater(levels, p);
    FirstIsNoLater(levels, k + 1);
    assert IndexOf(levels, levels[k + 1]) < p;
  }

  lemma FirstIsNoLater<T>(levels: seq<T>, p: int)
    requires 0 <= p < |levels|
    ensures 0 <= IndexOf(levels, levels[p]) <= p
  {
  }

  lemma LateIsDue(window: int, k: int, n: int, elapsed: int)
    requires window > 0 && k + 1 <= n + 1 && elapsed >= window * (n + 1)
    ensures elapsed >= window * (k + 1)
  {
  }

  lemma LoopingHit(rules: seq<Rule>, s: State, a: nat, now: int, seen: nat)
    requires Looping(rules, s, a)
    requires now >= LateEnough(rules[s.alerts[a].rule], s.alerts[a].firedAt.value)
    ensures var t := NextHit(s, a, rules[s.alerts[a].rule], now, seen);
            && Looping(rules, t, a)
            && Escalations(t.log, a) == Escalations(s.log, a) + 1
            && SameAlert(s.alerts[a], t.alerts[a])
  {
    var rule := rules[s.alerts[a].rule];
    var k := IndexOf(rule.levels, s.alerts[a].severity);
    NextLevelStillLoops(rule.levels, k);
    var touched := Touched(s, a, now);
    var told := Notified(touched, a, rule, now, seen);
    LogGrows(s.log, NewEntry(touched, a, touched.alerts[a], Suppress, now, seen));
    assert Escalations(told.log, a) == Escalations(s.log, a);
    assert told.alerts[a] == touched.alerts[a];
    LateIsDue(rule.window, k + 1, |rule.levels|, now - s.alerts[a].firedAt.value);
    assert EscalationDue(told.alerts[a], rule, now);
    var row := told.alerts[a].(severity := rule.levels[k + 1]);
    LogGrows(told.log, NewEntry(told, a, row, Escalate, now, seen));
  }

  predicate SameAlert(x: Alert, y: Alert) {
    x.rule == y.rule && x.entity == y.entity && x.firedAt == y.firedAt && x.status == y.status
  }

  /** A late event that hits the looping alert. */
  ghost predicate LateHit(rules: seq<Rule>, s: State, a: nat, ev: Event, now: int)
    requires Looping(rules, s, a)
  {
    var rule := rules[s.alerts[a].rule];
    ev.entity == s.alerts[a].entity && Pertains(rule, ev) && ConditionMet(rule, ev) &&
    now >= LateEnough(rule, s.alerts[a].firedAt.value)
  }

  /** From s to t the looping alert escalated `more` times and is otherwise as before. */
  ghost predicate LoopedOn(rules: seq<Rule>, s: State, t: State, a: nat, ev: Event, now: int, more: nat) {
    && a in s.alerts && Looping(rules, t, a) && LateHit(rules, t, a, ev, now)
    && SameAlert(s.alerts[a], t.alerts[a])
    && Escalations(t.log, a) == Escalations(s.log, a) + more
  }

  lemma LoopsChain(rules: seq<Rule>, s: State, t: State, u: State, a: nat, ev: Event, now: int, x: nat, y: nat)
    requires LoopedOn(rules, s, t, a, ev, now, x) && LoopedOn(rules, t, u, a, ev, now, y)
    ensures LoopedOn(rules, s, u, a, ev, now, x + y)
  {
  }

  /** Only the alert's own rule moves it. */
  lemma LoopingOnRule(rules: seq<Rule>, s: State, past: seq<Event>, a: nat, ev: Event, now: int, r: nat) returns (t: State)
    requires Mid(rules, s, past + [ev], r) && r < |rules| && Looping(rules, s, a) && LateHit(rules, s, a, ev, now)
    ensures t == OnRule(s, r, rules[r], ev, now, |past| + 1)
    ensures LoopedOn(rules, s, t, a, ev, now, if s.alerts[a].rule == r then 1 else 0)
  {
    t := OnRuleKeeps(rules, s, past, ev, r, now);
    if s.alerts[a].rule == r {
      FindsIt(rules, s, past + [ev], a);
      LoopingHit(rules, s, a, now, |past| + 1);
    }
  }

  lemma LoopingNext(rules: seq<Rule>, s: State, w: State, a: nat, ev: Event, now: int, r: nat, more: nat)
    returns (t: State)
    requires Inv(rules, s) && r < |rules| && w == OnRules(s, rules, r, ev, now)
    requires LoopedOn(rules, s, w, a, ev, now, more)
    ensures t == OnRule(w, r, rules[r], ev, now, |s.past| + 1)
    ensures LoopedOn(rules, s, t, a, ev, now, more + if s.alerts[a].rule == r then 1 else 0)
  {
    EventBegins(rules, s, ev);
    var before := OnRulesKeeps(rules, s, ev, r, now);
    t := LoopingOnRule(rules, w, s.past, a, ev, now, r);
    LoopsChain(rules, s, w, t, a, ev, now, more, if s.alerts[a].rule == r then 1 else 0);
  }

  lemma {:induction false} LoopingThroughRules(rules: seq<Rule>, s: State, a: nat, ev: Event, now: int, n: nat)
    returns (t: State)
    requires Inv(rules, s) && n <= |rules| && Looping(rules, s, a) && LateHit(rules, s, a, ev, now)
    ensures t == OnRules(s, rules, n, ev, now)
    ensures LoopedOn(rules, s, t, a, ev, now, if s.alerts[a].rule < n then 1 else 0)
    decreases n
  {
    if n == 0 {
      t := s;
    } else {
      var w := LoopingThroughRules(rules, s, a, ev, now, n - 1);
      t := LoopingNext(rules, s, w, a, ev, now, n - 1, if s.alerts[a].rule < n - 1 then 1 else 0);
    }
  }

  lemma FindsIt(rules: seq<Rule>, s: State, past: seq<Event>, a: nat)
    requires Core(rules, s, past) && a in s.alerts && Active(s.alerts[a].status)
    ensures Latest(s.alerts, ActiveFor(s.alerts[a].rule, s.alerts[a].entity), s.next) == Some(a)
  {
    var q := ActiveFor(s.alerts[a].rule, s.alerts[a].entity);
    assert a < s.next && Selects(q, s.alerts[a]);
    OnlyOneFound(rules, s, past, s.alerts[a].rule, s.alerts[a].entity);
  }

  /**
   * The condition is exact: an alert under a rule whose levels ahead repeat an
   * earlier one escalates without end.  Any number of further hits, late
   * enough, each escalate it once more.
   */
  lemma {:induction false} RepeatedLevelsNeverEnd(rules: seq<Rule>, s: State, a: nat, ev: Event, now: int, n: nat)
    requires Inv(rules, s) && Looping(rules, s, a) && LateHit(rules, s, a, ev, now)
    ensures var t := Run(rules, s, seq(n, _ => Ingest(ev, now)));
            Inv(rules, t) && LoopedOn(rules, s, t, a, ev, now, n)
    decreases n
  {
    if n > 0 {
      RepeatedLevelsNeverEnd(rules, s, a, ev, now, n - 1);
      var steps := seq(n, _ => Ingest(ev, now));
      assert steps[..n - 1] == seq(n - 1, _ => Ingest(ev, now));
      var before := Run(rules, s, steps[..n - 1]);
      EvaluatedKeeps(rules, before, ev, now);
      OneMoreHit(rules, before, a, ev, now);
      LoopsChain(rules, s, before, Evaluated(before, rules, ev, now), a, ev, now, n - 1, 1);
    }
  }

  lemma OneMoreHit(rules: seq<Rule>, s: State, a: nat, ev: Event, now: int)
    requires Inv(rules, s) && Looping(rules, s, a) && LateHit(rules, s, a, ev, now)
    ensures LoopedOn(rules, s, Evaluated(s, rules, ev, now), a, ev, now, 1)
  {
    var _ := LoopingThroughRules(rules, s, a, ev, now, |rules|);
  }

  // ------------------------------------------------------------ from the beginning

  /** A rule for the event's kind that fires at once and escalates between two equal levels. */
  function LoopRule(ev: Event, l: string): Rule {
    Rule(true, ev.kind, "", "", "==", 0.0, 0, false, [], l, 0, 0, true, 1, [l, l])
  }

  function OpenedRow(ev: Event, l: string): Alert {
    Alert(0, ev.entity, Pending, l, 0, None, None, 0)
  }

  function FiredRow(ev: Event, l: string): Alert {
    Alert(0, ev.entity, Firing, l, 0, Some(0), None, 0)
  }

  lemma OneRule(s: State, ev: Event, rule: Rule, now: int)
    ensures Evaluated(s, [rule], ev, now) == OnRule(s, 0, rule, ev, now, |s.past| + 1).(past := s.past + [ev])
  {
    assert OnRules(s, [rule], 0, ev, now) == s;
  }

  lemma FirstEventOpens(ev: Event, l: string)
    requires l != "" && ev.value.Absent?
    ensures var s := Evaluated(Start(), [LoopRule(ev, l)], ev, 0);
            s.alerts == map[0 := OpenedRow(ev, l)] && s.next == 1 && s.log == [Entry(0, Fire, None, Pending, l, 0, 1)]
  {
    OneRule(Start(), ev, LoopRule(ev, l), 0);
    assert Latest(Start().alerts, ActiveFor(0, ev.entity), 0) == None;
  }

  lemma SecondEventFires(s: State, ev: Event, l: string)
    requires l != "" && ev.value.Absent?
    requires s.alerts == map[0 := OpenedRow(ev, l)] && s.next == 1
    ensures var t := Evaluated(s, [LoopRule(ev, l)], ev, 0);
            t.alerts == map[0 := FiredRow(ev, l)] &&
            t.log == s.log + [Entry(0, Fire, Some(Pending), Firing, l, 0, |s.past| + 1)]
  {
    OneRule(s, ev, LoopRule(ev, l), 0);
    assert Selects(ActiveFor(0, ev.entity), s.alerts[0]);
    assert Latest(s.alerts, ActiveFor(0, ev.entity), 1) == Some(0);
    assert Touched(s, 0, 0).alerts == s.alerts;
  }

  lemma TwoEvents(rules: seq<Rule>, ev: Event)
    ensures Run(rules, Start(), [Ingest(ev, 0), Ingest(ev, 0)]) ==
            Evaluated(Evaluated(Start(), rules, ev, 0), rules, ev, 0)
  {
    var one, two := [Ingest(ev, 0)], [Ingest(ev, 0), Ingest(ev, 0)];
    assert two[..1] == one && one[..0] == [] && Run(rules, Start(), []) == Start();
    assert Run(rules, Start(), one) == Next(rules, Start(), Ingest(ev, 0));
  }

  lemma EqualLevelsFallBack(l: string)
    ensures IndexOf([l, l], l) == 0 && !Climbs([l, l], 0)
  {
    assert [l, l][0] == l && [l, l][1] == l;
    assert !FirstAt([l, l], 1);
  }

  /** Two events from the empty tables lead to an alert that escalates without end. */
  lemma LoopingReached(ev: Event, l: string)
    requires l != "" && ev.value.Absent?
    ensures var rules := [LoopRule(ev, l)];
            var s := Run(rules, Start(), [Ingest(ev, 0), Ingest(ev, 0)]);
            Looping(rules, s, 0) && LateHit(rules, s, 0, ev, 3) && Escalations(s.log, 0) == 0
  {
    var rules := [LoopRule(ev, l)];
    FirstEventOpens(ev, l);
    var s := Evaluated(Start(), rules, ev, 0);
    SecondEventFires(s, ev, l);
    TwoEvents(rules, ev);
    EqualLevelsFallBack(l);
    LogGrows([], Entry(0, Fire, None, Pending, l, 0, 1));
    assert [] + [Entry(0, Fire, None, Pending, l, 0, 1)] == s.log;
    LogGrows(s.log, Entry(0, Fire, Some(Pending), Firing, l, 0, |s.past| + 1));
  }

  lemma {:induction false} RunConcat(rules: seq<Rule>, s: State, a: seq<Step>, b: seq<Step>)
    ensures Run(rules, s, a + b) == Run(rules, Run(rules, s, a), b)
    decreases |b|
  {
    if b == [] {
      assert a + b == a;
    } else {
      var init := b[..|b| - 1];
      RunConcat(rules, s, a, init);
      assert (a + b)[..|a + b| - 1] == a + init;
    }
  }

  /** Without distinct levels no bound holds: for every n a run from the empty tables escalates
      one alert n times. */
  lemma EscalationsWithoutBound(ev: Event, l: string, n: nat) returns (steps: seq<Step>)
    requires l != "" && ev.value.Absent?
    ensures Escalations(Run([LoopRule(ev, l)], Start(), steps).log, 0) == n
  {
    var rules, begin, more := [LoopRule(ev, l)], [Ingest(ev, 0), Ingest(ev, 0)], seq(n, _ => Ingest(ev, 3));
    steps := begin + more;
    LoopingReached(ev, l);
    RunKeepsInv(rules, Start(), begin);
    RepeatedLevelsNeverEnd(rules, Run(rules, Start(), begin), 0, ev, 3, n);
    RunConcat(rules, Start(), begin, more);
  }

  // ------------------------------------------------------------ notifications

  /**
   * The cooldown is measured from log rows, including the one the firing itself
   * just wrote: with any cooldown set, the notification of a fresh firing is
   * always suppressed.
   */
  lemma FreshFiringIsMutedIff(s: State, a: nat, rule: Rule, now: int, seen: nat)
    requires a in s.alerts
    ensures InCooldown(Fired(s, a, now, seen), a, rule, now) <==> rule.cooldown > 0
  {
    var t := Fired(s, a, now, seen);
    assert t.log[..|s.log|] == s.log;
    assert t.log[|s.log|].action.Fire? && t.log[|s.log|].alert == a;
  }

  predicate FireRow(log: seq<Entry>, a: nat, i: int) {
    0 <= i < |log| && log[i].alert == a && log[i].action.Fire?
  }

  lemma {:induction false} LastFireIsLatest(log: seq<Entry>, a: nat)
    ensures LastFireAt(log, a).None? ==> forall i :: !FireRow(log, a, i)
    ensures LastFireAt(log, a).Some? ==> exists i :: FireRow(log, a, i) && log[i].at == LastFireAt(log, a).value
    ensures LastFireAt(log, a).Some? ==> forall i :: FireRow(log, a, i) ==> log[i].at <= LastFireAt(log, a).value
  {
    if log != [] {
      var init, n := log[..|log| - 1], |log| - 1;
      LastFireIsLatest(init, a);
      assert forall i :: FireRow(log, a, i) <==> FireRow(init, a, i) || (i == n && log[n].alert == a && log[n].action.Fire?);
      assert forall i :: 0 <= i < n ==> init[i] == log[i];
      if FireRow(log, a, n) && LastFireAt(log, a) == Some(log[n].at) {
        assert FireRow(log, a, n);
      } else if LastFireAt(log, a).Some? {
        var i :| FireRow(init, a, i) && init[i].at == LastFireAt(init, a).value;
        assert FireRow(log, a, i);
      }
    }
  }

  /** A hit on an alert that has fired is muted, with a log row of its own, if and only if some fire
      row of the alert is younger than the cooldown. */
  lemma LaterHitIsMutedIff(s: State, a: nat, rule: Rule, now: int, seen: nat)
    requires a in s.alerts && Active(s.alerts[a].status) && !s.alerts[a].status.Pending?
    ensures var t := NextHit(s, a, rule, now, seen);
            && s.log <= t.log
            && (|t.log| > |s.log| && t.log[|s.log|].action.Suppress? <==>
                  rule.cooldown > 0 && exists i :: FireRow(s.log, a, i) && now - s.log[i].at < rule.cooldown)
  {
    LastFireIsLatest(s.log, a);
    if i :| FireRow(s.log, a, i) && now - s.log[i].at < rule.cooldown {
      assert s.log[i].at <= LastFireAt(s.log, a).value;
    }
  }
}
