/** What events, sweeps and operators do to alerts: from every reachable state, each ends in
    exactly the alerts it should. */
module AlertOutcomes {
  import opened Wrappers
  import opened AlertModel
  import opened AlertRuns

  /** The alerts of one rule. */
  ghost function Slice(s: State, r: nat): map<nat, Alert> {
    map b | b in s.alerts && s.alerts[b].rule == r :: s.alerts[b]
  }

  predicate Open(m: map<nat, Alert>, b: nat, entity: string) {
    b in m && Active(m[b].status) && m[b].entity == entity
  }

  /** Resolved for the entity and no longer ago than the rule's convergence window. */
  predicate Recent(rule: Rule, m: map<nat, Alert>, b: nat, entity: string, now: int) {
    b in m && m[b].status.Resolved? && m[b].entity == entity &&
    m[b].resolvedAt.Some? && now - m[b].resolvedAt.value <= rule.converge
  }

  /** The event fails the condition: what was open for its entity is resolved, nothing else changes. */
  ghost predicate Clears(ev: Event, now: int, m: map<nat, Alert>, m': map<nat, Alert>) {
    m'.Keys == m.Keys && forall b :: b in m ==>
      m'[b] == if Open(m, b, ev.entity) then m[b].(status := Resolved, resolvedAt := Some(now)) else m[b]
  }

  ghost predicate OnlyChanged(m: map<nat, Alert>, m': map<nat, Alert>, a: nat) {
    m'.Keys == m.Keys + {a} && forall b :: b in m && b != a ==> m'[b] == m[b]
  }

  /** The severity after a look at an alert: one that has fired moves on to the next level when due. */
  predicate Rises(rule: Rule, now: int, x: Alert, y: Alert) {
    y.severity == if !x.status.Pending? && EscalationDue(x, rule, now)
                  then rule.levels[IndexOf(rule.levels, x.severity) + 1] else x.severity
  }

  /** A hit on an open alert: it fires once it has been pending for the rule's duration. */
  predicate Holds(rule: Rule, now: int, x: Alert, y: Alert) {
    && Active(x.status) && y.rule == x.rule && y.entity == x.entity && y.lastEventAt == now && y.pendingSince == x.pendingSince
    && (x.status.Pending? ==>
          if x.pendingSince + rule.duration <= now then y.status.Firing? && y.firedAt == Some(now)
          else y.status.Pending? && y.firedAt == x.firedAt)
    && (!x.status.Pending? ==> y.status == x.status && y.firedAt == x.firedAt)
    && Rises(rule, now, x, y)
  }

  predicate FirstOf(rule: Rule, ev: Event, level: string) {
    if rule.level != "" then level == rule.level
    else if ev.severity != "" then level == ev.severity else level == "warning"
  }

  /** A hit without an open alert: the latest recent one is reopened, or else a new one is opened. */
  ghost predicate Begins(rule: Rule, ev: Event, now: int, m: map<nat, Alert>, a: nat, y: Alert) {
    && y.entity == ev.entity && y.status.Pending? && y.pendingSince == now && y.lastEventAt == now
    && (a in m ==>
          rule.converge > 0 && Recent(rule, m, a, ev.entity, now) && y.severity == m[a].severity &&
          forall b: nat :: Recent(rule, m, b, ev.entity, now) ==> b <= a)
    && (a !in m ==>
          FirstOf(rule, ev, y.severity) &&
          (rule.converge > 0 ==> forall b :: b in m ==> !Recent(rule, m, b, ev.entity, now)))
  }

  /** The event meets the condition: afterwards `a` is the one open alert for its entity. */
  ghost predicate Raises(rule: Rule, ev: Event, now: int, m: map<nat, Alert>, m': map<nat, Alert>, a: nat) {
    && OnlyChanged(m, m', a) && Open(m', a, ev.entity)
    && (forall b: nat :: Open(m, b, ev.entity) || Open(m', b, ev.entity) ==> b == a)
    && (if Open(m, a, ev.entity) then Holds(rule, now, m[a], m'[a]) else Begins(rule, ev, now, m, a, m'[a]))
  }

  /** What one event makes of the alerts of one rule. */
  ghost predicate Judged(rule: Rule, ev: Event, now: int, m: map<nat, Alert>, m': map<nat, Alert>) {
    if !rule.enabled || !Pertains(rule, ev) then m' == m
    else if ConditionMet(rule, ev) then exists a: nat :: Raises(rule, ev, now, m, m', a)
    else Clears(ev, now, m, m')
  }

  // ------------------------------------------------------------ one rule

  /** From `s` to `t` only alert `a` of rule `r` was written. */
  ghost predicate Wrote(s: State, t: State, r: nat, a: nat) {
    && t.alerts.Keys == s.alerts.Keys + {a} && t.alerts[a].rule == r && (a in s.alerts ==> s.alerts[a].rule == r)
    && forall b :: b in s.alerts && b != a ==> t.alerts[b] == s.alerts[b]
  }

  lemma NotifiedRows(s: State, a: nat, rule: Rule, now: int, seen: nat)
    requires a in s.alerts
    ensures Notified(s, a, rule, now, seen).alerts == s.alerts
  {
    assert s.alerts[a := s.alerts[a]] == s.alerts;
  }

  lemma NextHitRow(s: State, a: nat, rule: Rule, now: int, seen: nat)
    requires a in s.alerts && Active(s.alerts[a].status)
    ensures var t := NextHit(s, a, rule, now, seen);
            Wrote(s, t, s.alerts[a].rule, a) && Holds(rule, now, s.alerts[a], t.alerts[a])
  {
    var t := Touched(s, a, now);
    if t.alerts[a].status.Pending? {
      if now - t.alerts[a].pendingSince >= rule.duration { NotifiedRows(Fired(t, a, now, seen), a, rule, now, seen); }
    } else {
      NotifiedRows(t, a, rule, now, seen);
    }
  }

  lemma FirstHitRow(s: State, r: nat, rule: Rule, ev: Event, now: int, seen: nat) returns (a: nat)
    requires (forall b :: b in s.alerts ==> b < s.next) && forall b: nat :: !Open(Slice(s, r), b, ev.entity)
    ensures var t := FirstHit(s, r, rule, ev, now, seen);
            Wrote(s, t, r, a) && Begins(rule, ev, now, Slice(s, r), a, t.alerts[a])
  {
    var q := ResolvedFor(r, ev.entity, now - rule.converge);
    var recent := Latest(s.alerts, q, s.next);
    forall b: nat ensures Recent(rule, Slice(s, r), b, ev.entity, now) <==> b in s.alerts && Selects(q, s.alerts[b]) {}
    a := if rule.converge > 0 && recent.Some? then recent.value else s.next;
  }

  lemma RaisesSlice(s: State, t: State, r: nat, rule: Rule, ev: Event, now: int, a: nat)
    requires Wrote(s, t, r, a) && Open(Slice(t, r), a, ev.entity)
    requires forall b: nat :: Open(Slice(s, r), b, ev.entity) ==> b == a
    requires if Open(Slice(s, r), a, ev.entity) then Holds(rule, now, s.alerts[a], t.alerts[a])
             else Begins(rule, ev, now, Slice(s, r), a, t.alerts[a])
    ensures Raises(rule, ev, now, Slice(s, r), Slice(t, r), a)
  {
    forall b: nat | b != a ensures Open(Slice(t, r), b, ev.entity) <==> Open(Slice(s, r), b, ev.entity) {}
  }

  lemma OnlyOpen(rules: seq<Rule>, s: State, past: seq<Event>, r: nat, entity: string)
    requires Core(rules, s, past)
    ensures var found := Latest(s.alerts, ActiveFor(r, entity), s.next);
            forall b: nat :: Open(Slice(s, r), b, entity) <==> found == Some(b)
  {
    var found := Latest(s.alerts, ActiveFor(r, entity), s.next);
    forall b | b in s.alerts && Selects(ActiveFor(r, entity), s.alerts[b]) ensures found == Some(b) {
      OnlyOneFound(rules, s, past, r, entity);
    }
  }

  lemma RuleJudges(rules: seq<Rule>, s: State, past: seq<Event>, r: nat, ev: Event, now: int, seen: nat) returns (t: State)
    requires Core(rules, s, past) && r < |rules|
    ensures t == OnRule(s, r, rules[r], ev, now, seen) && Judged(rules[r], ev, now, Slice(s, r), Slice(t, r))
  {
    var rule := rules[r];
    t := OnRule(s, r, rule, ev, now, seen);
    OnlyOpen(rules, s, past, r, ev.entity);
    var found := Latest(s.alerts, ActiveFor(r, ev.entity), s.next);
    if rule.enabled && Pertains(rule, ev) && ConditionMet(rule, ev) {
      if found.Some? {
        NextHitRow(s, found.value, rule, now, seen);
        RaisesSlice(s, t, r, rule, ev, now, found.value);
      } else {
        var a := FirstHitRow(s, r, rule, ev, now, seen);
        RaisesSlice(s, t, r, rule, ev, now, a);
      }
    }
  }

  lemma WroteSpares(s: State, t: State, r: nat, a: nat, other: nat)
    requires Wrote(s, t, r, a) && r != other
    ensures Slice(t, other) == Slice(s, other)
  {
  }

  lemma FirstHitWrites(s: State, r: nat, rule: Rule, ev: Event, now: int, seen: nat) returns (a: nat)
    requires forall b :: b in s.alerts ==> b < s.next
    ensures Wrote(s, FirstHit(s, r, rule, ev, now, seen), r, a)
  {
    var recent := Latest(s.alerts, ResolvedFor(r, ev.entity, now - rule.converge), s.next);
    a := if rule.converge > 0 && recent.Some? then recent.value else s.next;
  }

  lemma RuleSpares(s: State, r: nat, rule: Rule, ev: Event, now: int, seen: nat, other: nat) returns (t: State)
    requires (forall b :: b in s.alerts ==> b < s.next) && r != other
    ensures t == OnRule(s, r, rule, ev, now, seen) && Slice(t, other) == Slice(s, other)
  {
    t := OnRule(s, r, rule, ev, now, seen);
    var found := Latest(s.alerts, ActiveFor(r, ev.entity), s.next);
    if rule.enabled && Pertains(rule, ev) {
      if !ConditionMet(rule, ev) {
        if found.Some? { WroteSpares(s, t, r, found.value, other); }
      } else if found.Some? {
        NextHitRow(s, found.value, rule, now, seen);
        WroteSpares(s, t, r, found.value, other);
      } else {
        var a := FirstHitWrites(s, r, rule, ev, now, seen);
        WroteSpares(s, t, r, a, other);
      }
    }
  }

  // ------------------------------------------------------------ one event

  lemma BeforeRule(rules: seq<Rule>, s: State, ev: Event, now: int, n: nat) returns (before: State)
    requires Inv(rules, s) && n <= |rules|
    ensures before == OnRules(s, rules, n, ev, now) && Core(rules, before, s.past + [ev])
    ensures forall b :: b in before.alerts ==> b < before.next
  {
    EventBegins(rules, s, ev);
    before := OnRulesKeeps(rules, s, ev, n, now);
  }

  /** Rules below `n` have looked at the event. */
  ghost predicate JudgedBy(rules: seq<Rule>, ev: Event, now: int, s: State, t: State, n: nat, r: nat)
    requires r < |rules|
  {
    if r < n then Judged(rules[r], ev, now, Slice(s, r), Slice(t, r)) else Slice(t, r) == Slice(s, r)
  }

  lemma NextRuleJudges(rules: seq<Rule>, s: State, w: State, past: seq<Event>, ev: Event, now: int, n: nat, r: nat)
    returns (t: State)
    requires n < |rules| && r < |rules| && Core(rules, w, past) && JudgedBy(rules, ev, now, s, w, n, r)
    ensures t == OnRule(w, n, rules[n], ev, now, |past|) && JudgedBy(rules, ev, now, s, t, n + 1, r)
  {
    if r == n {
      t := RuleJudges(rules, w, past, r, ev, now, |past|);
    } else {
      t := RuleSpares(w, n, rules[n], ev, now, |past|, r);
    }
  }

  lemma {:induction false} RulesJudge(rules: seq<Rule>, s: State, ev: Event, now: int, n: nat, r: nat) returns (t: State)
    requires Inv(rules, s) && n <= |rules| && r < |rules|
    ensures t == OnRules(s, rules, n, ev, now) && JudgedBy(rules, ev, now, s, t, n, r)
    decreases n
  {
    if n == 0 {
      t := s;
    } else {
      var w := RulesJudge(rules, s, ev, now, n - 1, r);
      var before := BeforeRule(rules, s, ev, now, n - 1);
      t := NextRuleJudges(rules, s, w, s.past + [ev], ev, now, n - 1, r);
    }
  }

  /**
   * In every run, what an event makes of each rule's alerts: nothing if it is none of the rule's
   * business; if it fails the condition, the open alert for its entity is resolved; if it meets
   * it, there is afterwards exactly one, opened, reopened, held or fired as `Raises` says.
   */
  lemma EventOutcome(rules: seq<Rule>, steps: seq<Step>, ev: Event, now: int, r: nat)
    requires r < |rules|
    ensures var s := Run(rules, Start(), steps);
            Judged(rules[r], ev, now, Slice(s, r), Slice(Next(rules, s, Ingest(ev, now)), r))
  {
    RunOk(rules, steps);
    var s := Run(rules, Start(), steps);
    var t := RulesJudge(rules, s, ev, now, |rules|, r);
    assert Slice(Evaluated(s, rules, ev, now), r) == Slice(t, r);
  }

  /** After a failing event no alert of the rule and entity is active; after a hit exactly one is,
      last touched now, and firing if it had been pending for the rule's duration. */
  lemma OneOpenExactlyOnHits(rules: seq<Rule>, steps: seq<Step>, ev: Event, now: int, r: nat)
    requires r < |rules| && rules[r].enabled && Pertains(rules[r], ev)
    ensures var s := Run(rules, Start(), steps);
            var m, m' := Slice(s, r), Slice(Next(rules, s, Ingest(ev, now)), r);
            && (ConditionMet(rules[r], ev) <==> exists a: nat :: Open(m', a, ev.entity))
            && (forall a: nat, b: nat :: Open(m', a, ev.entity) && Open(m', b, ev.entity) ==> a == b)
            && (forall a: nat :: Open(m', a, ev.entity) ==> m'[a].lastEventAt == now)
            && (forall a: nat :: Open(m, a, ev.entity) && m[a].status.Pending? && ConditionMet(rules[r], ev) ==>
                  a in m' && (m'[a].status.Firing? <==> now - m[a].pendingSince >= rules[r].duration))
  {
    EventOutcome(rules, steps, ev, now, r);
    var s := Run(rules, Start(), steps);
    var m, m' := Slice(s, r), Slice(Next(rules, s, Ingest(ev, now)), r);
    if ConditionMet(rules[r], ev) {
      var a: nat :| Raises(rules[r], ev, now, m, m', a);
    }
  }

  // ------------------------------------------------------------ one sweep

  ghost function EarlierActive(alerts: map<nat, Alert>, a: nat): set<nat> {
    set b | b in alerts && b < a && Active(alerts[b].status)
  }

  ghost function Elems(ids: seq<nat>): set<nat> {
    set b | b in ids
  }

  lemma {:induction false} SizeOfDistinct(ids: seq<nat>)
    requires forall i, j :: 0 <= i < j < |ids| ==> ids[i] < ids[j]
    ensures |Elems(ids)| == |ids|
    decreases |ids|
  {
    if ids != [] {
      var init, last := ids[..|ids| - 1], ids[|ids| - 1];
      SizeOfDistinct(init);
      assert Elems(ids) == Elems(init) + {last};
    }
  }

  /** In an ascending list of all active alerts, a position counts the active alerts before it. */
  lemma PositionOf(alerts: map<nat, Alert>, ids: seq<nat>, i: nat)
    requires forall j, k :: 0 <= j < k < |ids| ==> ids[j] < ids[k]
    requires i < |ids| && forall b :: b in ids <==> b <= ids[|ids| - 1] && b in alerts && Active(alerts[b].status)
    ensures |EarlierActive(alerts, ids[i])| == i
  {
    SizeOfDistinct(ids[..i]);
    forall b ensures b in EarlierActive(alerts, ids[i]) <==> b in ids[..i] {
      if b in EarlierActive(alerts, ids[i]) {
        var j :| 0 <= j < |ids| && ids[j] == b;
        assert ids[..i][j] == b;
      }
    }
    assert EarlierActive(alerts, ids[i]) == Elems(ids[..i]);
  }

  /** A sweep looks at the oldest active alerts: those with fewer than 500 active ones before them. */
  lemma SweepListMeaning(alerts: map<nat, Alert>, n: nat, a: nat)
    ensures a in SweepList(alerts, n) <==>
              a < n && a in alerts && Active(alerts[a].status) && |EarlierActive(alerts, a)| < SWEEP_LIMIT
  {
    var ids := ActiveIds(alerts, n);
    if a in ids {
      var i :| 0 <= i < |ids| && ids[i] == a;
      PositionOf(alerts, ids, i);
      if |ids| > SWEEP_LIMIT { InPrefix(ids, SWEEP_LIMIT, i); }
    }
  }

  lemma InPrefix(ids: seq<nat>, k: nat, i: nat)
    requires i < |ids| && k <= |ids| && forall j, m :: 0 <= j < m < |ids| ==> ids[j] < ids[m]
    ensures ids[i] in ids[..k] <==> i < k
  {
    if i < k { assert ids[..k][i] == ids[i]; }
  }

  /** The sweep looks at the alert: it is among the oldest active ones, its rule is enabled, and
      its last event is fresh. */
  ghost predicate Looks(rules: seq<Rule>, s: State, now: int, freshness: int, a: nat) {
    && a in s.alerts && Active(s.alerts[a].status) && |EarlierActive(s.alerts, a)| < SWEEP_LIMIT
    && s.alerts[a].rule < |rules| && rules[s.alerts[a].rule].enabled
    && now <= s.alerts[a].lastEventAt + freshness
  }

  ghost predicate SweptRow(rule: Rule, now: int, x: Alert, y: Alert) {
    && (x.status.Pending? ==>
          y == if x.pendingSince + rule.duration <= now then x.(status := Firing, firedAt := Some(now)) else x)
    && (!x.status.Pending? ==> y == x.(severity := y.severity) && Rises(rule, now, x, y))
  }

  lemma SweepOneRow(rules: seq<Rule>, s: State, a: nat, now: int, freshness: int)
    requires a in s.alerts
    ensures var x, t := s.alerts[a], SweepOne(s, rules, a, now, freshness);
            && t.alerts.Keys == s.alerts.Keys && (forall b :: b in s.alerts && b != a ==> t.alerts[b] == s.alerts[b])
            && if x.rule < |rules| && rules[x.rule].enabled && now <= x.lastEventAt + freshness
               then SweptRow(rules[x.rule], now, x, t.alerts[a]) else t.alerts[a] == x
  {
    var x := s.alerts[a];
    if x.rule < |rules| && x.status.Pending? && now - x.pendingSince >= rules[x.rule].duration {
      NotifiedRows(Fired(s, a, now, |s.past|), a, rules[x.rule], now, |s.past|);
    }
  }

  lemma {:induction false} SweepRows(rules: seq<Rule>, s: State, ids: seq<nat>, now: int, freshness: int, a: nat)
    requires (forall i :: 0 <= i < |ids| ==> ids[i] in s.alerts) && a in s.alerts
    requires forall i, j :: 0 <= i < j < |ids| ==> ids[i] < ids[j]
    ensures var x, t := s.alerts[a], SweepFirst(s, rules, ids, now, freshness);
            if a in ids && x.rule < |rules| && rules[x.rule].enabled && now <= x.lastEventAt + freshness
            then SweptRow(rules[x.rule], now, x, t.alerts[a]) else t.alerts[a] == x
    decreases |ids|
  {
    if ids != [] {
      var init, last := ids[..|ids| - 1], ids[|ids| - 1];
      SweepRows(rules, s, init, now, freshness, a);
      SweepOneRow(rules, SweepFirst(s, rules, init, now, freshness), last, now, freshness);
      assert last !in init;
    }
  }

  /** In every run, what a sweep makes of each alert: one it looks at fires once its duration has
      passed, or escalates when due; a stale one, and any other, stays as it is. */
  lemma SweepOutcome(rules: seq<Rule>, steps: seq<Step>, now: int, freshness: int, a: nat)
    requires a in Run(rules, Start(), steps).alerts
    ensures var s := Run(rules, Start(), steps);
            var t := Next(rules, s, Sweep(now, freshness));
            && t.alerts.Keys == s.alerts.Keys
            && (Looks(rules, s, now, freshness, a) ==> SweptRow(rules[s.alerts[a].rule], now, s.alerts[a], t.alerts[a]))
            && (!Looks(rules, s, now, freshness, a) ==> t.alerts[a] == s.alerts[a])
  {
    RunOk(rules, steps);
    var s := Run(rules, Start(), steps);
    assert a < s.next;
    SweepListMeaning(s.alerts, s.next, a);
    SweepRows(rules, s, SweepList(s.alerts, s.next), now, freshness, a);
  }

  // ------------------------------------------------------------ the log tells what happened

  /** The action of a log row says which move it records. */
  predicate Tells(e: Entry) {
    match e.action
    case Fire => (e.to.Firing? && e.from == Some(Pending)) || (e.to.Pending? && (e.from.None? || e.from == Some(Resolved)))
    case Resolve => e.to.Resolved? && e.from.Some? && Active(e.from.value)
    case Acknowledge => e.to.Acknowledged? && e.from == Some(Firing)
    case Suppress => e.from == Some(e.to) && Active(e.to)
    case Escalate => e.from == Some(e.to) && (e.to.Firing? || e.to.Acknowledged?)
  }

  ghost predicate Telling(log: seq<Entry>) {
    forall i :: 0 <= i < |log| ==> Tells(log[i])
  }

  /** New alerts get fresh ids. */
  ghost predicate Numbered(s: State) {
    forall b :: b in s.alerts ==> b < s.next
  }

  lemma NextHitTells(s: State, a: nat, rule: Rule, now: int, seen: nat) returns (t: State)
    requires Telling(s.log) && Numbered(s) && a in s.alerts && Active(s.alerts[a].status)
    ensures t == NextHit(s, a, rule, now, seen) && Telling(t.log) && Numbered(t)
  {
    t := Touched(s, a, now);
    if t.alerts[a].status.Pending? {
      if now - t.alerts[a].pendingSince >= rule.duration {
        t := PutTells(t, a, t.alerts[a].(status := Firing, firedAt := Some(now)), Fire, now, seen);
        t := NotifiedTells(t, a, rule, now, seen);
      } else {
        t := PutTells(t, a, t.alerts[a], Suppress, now, seen);
      }
    } else {
      t := NotifiedTells(t, a, rule, now, seen);
      if EscalationDue(t.alerts[a], rule, now) {
        t := PutTells(t, a, t.alerts[a].(severity := rule.levels[IndexOf(rule.levels, t.alerts[a].severity) + 1]),
                      Escalate, now, seen);
      }
    }
  }

  lemma PutTells(s: State, a: nat, row: Alert, action: Action, now: int, seen: nat) returns (t: State)
    requires Telling(s.log) && Numbered(s) && Tells(NewEntry(s, a, row, action, now, seen))
    ensures t == Put(s, a, row, action, now, seen) && Telling(t.log) && Numbered(t)
  {
    t := Put(s, a, row, action, now, seen);
  }

  lemma NotifiedTells(s: State, a: nat, rule: Rule, now: int, seen: nat) returns (t: State)
    requires Telling(s.log) && Numbered(s) && a in s.alerts && Active(s.alerts[a].status)
    ensures t == Notified(s, a, rule, now, seen) && Telling(t.log) && Numbered(t) && t.alerts == s.alerts
  {
    NotifiedRows(s, a, rule, now, seen);
    t := s;
    if InCooldown(s, a, rule, now) { t := PutTells(s, a, s.alerts[a], Suppress, now, seen); }
  }

  lemma RuleTells(s: State, r: nat, rule: Rule, ev: Event, now: int, seen: nat) returns (t: State)
    requires Telling(s.log) && Numbered(s)
    ensures t == OnRule(s, r, rule, ev, now, seen) && Telling(t.log) && Numbered(t)
  {
    t := OnRule(s, r, rule, ev, now, seen);
    var found := Latest(s.alerts, ActiveFor(r, ev.entity), s.next);
    if found.Some? { var _ := NextHitTells(s, found.value, rule, now, seen); }
  }

  lemma {:induction false} RulesTell(rules: seq<Rule>, s: State, ev: Event, now: int, n: nat) returns (t: State)
    requires Numbered(s) && Telling(s.log) && n <= |rules|
    ensures t == OnRules(s, rules, n, ev, now) && Telling(t.log) && Numbered(t)
    decreases n
  {
    if n == 0 {
      t := s;
    } else {
      var before := RulesTell(rules, s, ev, now, n - 1);
      t := RuleTells(before, n - 1, rules[n - 1], ev, now, |s.past| + 1);
    }
  }

  lemma SweepOneTells(rules: seq<Rule>, s: State, a: nat, now: int, freshness: int)
    requires Telling(s.log) && a in s.alerts && Active(s.alerts[a].status)
    ensures Telling(SweepOne(s, rules, a, now, freshness).log)
  {
  }

  lemma {:induction false} SweepTells(rules: seq<Rule>, s: State, ids: seq<nat>, now: int, freshness: int)
    requires Telling(s.log) && forall i :: 0 <= i < |ids| ==> ids[i] in s.alerts && Active(s.alerts[ids[i]].status)
    requires forall i, j :: 0 <= i < j < |ids| ==> ids[i] < ids[j]
    ensures Telling(SweepFirst(s, rules, ids, now, freshness).log)
    decreases |ids|
  {
    if ids != [] {
      var init, last := ids[..|ids| - 1], ids[|ids| - 1];
      SweepTells(rules, s, init, now, freshness);
      SweepRows(rules, s, init, now, freshness, last);
      assert last !in init;
      SweepOneTells(rules, SweepFirst(s, rules, init, now, freshness), last, now, freshness);
    }
  }

  /** In every run each log row's action names the move that the row records. */
  lemma {:induction false} LogTellsWhatHappened(rules: seq<Rule>, steps: seq<Step>)
    ensures Telling(Run(rules, Start(), steps).log)
    decreases |steps|
  {
    if steps != [] {
      var init, last := steps[..|steps| - 1], steps[|steps| - 1];
      var s := Run(rules, Start(), init);
      LogTellsWhatHappened(rules, init);
      RunOk(rules, init);
      StepTells(rules, s, last);
    }
  }

  lemma StepTells(rules: seq<Rule>, s: State, step: Step)
    requires Numbered(s) && Telling(s.log)
    ensures Telling(Next(rules, s, step).log)
  {
    match step
    case Ingest(ev, now) => var _ := RulesTell(rules, s, ev, now, |rules|);
    case Sweep(now, freshness) => SweepTells(rules, s, SweepList(s.alerts, s.next), now, freshness);
    case Ack(_, _) =>
    case Close(_, _) =>
  }

  // ------------------------------------------------------------ operators

  /** Acknowledging moves exactly a firing alert, resolving exactly an active one, and both leave
      every other alert alone. */
  lemma OperatorOutcome(rules: seq<Rule>, s: State, a: nat, now: int, b: nat)
    requires b in s.alerts
    ensures var t := Next(rules, s, Ack(a, now));
            b in t.alerts && t.alerts[b].status == if b == a && s.alerts[b].status.Firing? then Acknowledged else s.alerts[b].status
    ensures var t := Next(rules, s, Close(a, now));
            b in t.alerts && t.alerts[b].status == if b == a then Resolved else s.alerts[b].status
    ensures b == a && Active(s.alerts[a].status) ==> Next(rules, s, Close(a, now)).alerts[a].resolvedAt == Some(now)
  {
  }
}
