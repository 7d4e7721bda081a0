/**
 * What holds of the alert tables in every run: one active alert per rule and
 * entity, a contiguous log per alert, firing only after a sustained condition,
 * and bounded escalation.
 */
module AlertRuns {
  import opened Wrappers
  import opened AlertModel

  // ------------------------------------------------------------ reading the log

  datatype What = Any | Opening | ToFiring

  predicate Is(what: What, e: Entry) {
    match what
    case Any => true
    case Opening => e.to.Pending? && e.from != Some(Pending)
    case ToFiring => e.to.Firing? && e.from == Some(Pending)
  }

  /** The alert's last log row of the given sort. */
  function Last(log: seq<Entry>, a: nat, what: What): Option<Entry> {
    if log == [] then None
    else if log[|log| - 1].alert == a && Is(what, log[|log| - 1]) then Some(log[|log| - 1])
    else Last(log[..|log| - 1], a, what)
  }

  function Escalations(log: seq<Entry>, a: nat): nat {
    if log == [] then 0
    else Escalations(log[..|log| - 1], a) +
         if log[|log| - 1].alert == a && log[|log| - 1].action.Escalate? then 1 else 0
  }

  lemma LogGrows(log: seq<Entry>, e: Entry)
    ensures forall a, what :: Last(log + [e], a, what) ==
              if e.alert == a && Is(what, e) then Some(e) else Last(log, a, what)
    ensures forall a :: Escalations(log + [e], a) ==
              Escalations(log, a) + if e.alert == a && e.action.Escalate? then 1 else 0
    ensures forall i :: 0 <= i < |log| ==> (log + [e])[..i] == log[..i]
  {
    assert (log + [e])[..|log|] == log;
  }

  // ------------------------------------------------------------ the log's promises

  /** No event of the window belongs to the rule and entity and fails the condition. */
  ghost predicate Steady(rule: Rule, entity: string, past: seq<Event>, lo: int, hi: int) {
    0 <= lo <= hi <= |past| &&
    forall k :: lo <= k < hi && past[k].entity == entity && Pertains(rule, past[k]) ==> ConditionMet(rule, past[k])
  }

  /**
   * A row that moved an alert to firing: since the alert last became pending, at
   * least the rule's duration has passed, and no event failed the condition.
   */
  ghost predicate Sustained(rules: seq<Rule>, row: Alert, before: seq<Entry>, e: Entry, past: seq<Event>) {
    Is(ToFiring, e) ==>
      row.rule < |rules| &&
      match Last(before, e.alert, Opening)
      case None => false
      case Some(o) =>
        1 <= o.seen && e.at - o.at >= rules[row.rule].duration &&
        Steady(rules[row.rule], row.entity, past, o.seen - 1, e.seen)
  }

  /**
   * An escalation row: the severity moved to the next position p of the levels,
   * and p + 1 windows have passed since the alert last fired.
   */
  ghost predicate Stepwise(rules: seq<Rule>, row: Alert, before: seq<Entry>, e: Entry) {
    e.action.Escalate? ==>
      row.rule < |rules| &&
      match Last(before, e.alert, ToFiring)
      case None => false
      case Some(f) =>
        match Last(before, e.alert, Any)
        case None => false
        case Some(prev) =>
          var rule := rules[row.rule];
          var p := IndexOf(rule.levels, prev.severity) + 1;
          p < |rule.levels| && e.severity == rule.levels[p] && e.at - f.at >= rule.window * (p + 1)
  }

  /** Row i continues where the alert's previous row ended, and keeps both promises. */
  ghost predicate RowOk(rules: seq<Rule>, s: State, past: seq<Event>, i: nat)
    requires i < |s.log|
  {
    var e := s.log[i];
    var before := s.log[..i];
    && e.alert in s.alerts
    && e.seen <= |past|
    && e.from == (match Last(before, e.alert, Any) case None => None case Some(prev) => Some(prev.to))
    && (!e.action.Escalate? ==>
          match Last(before, e.alert, Any) case None => true case Some(prev) => prev.severity == e.severity)
    && Sustained(rules, s.alerts[e.alert], before, e, past)
    && Stepwise(rules, s.alerts[e.alert], before, e)
  }

  ghost predicate LogOk(rules: seq<Rule>, s: State, past: seq<Event>) {
    forall i {:trigger RowOk(rules, s, past, i)} :: 0 <= i < |s.log| ==> RowOk(rules, s, past, i)
  }

  // ------------------------------------------------------------ the rows' promises

  ghost predicate TailOk(s: State, a: nat) {
    match Last(s.log, a, Any)
    case None => a !in s.alerts
    case Some(e) => a in s.alerts && e.to == s.alerts[a].status && e.severity == s.alerts[a].severity
  }

  ghost predicate PendingOk(rules: seq<Rule>, s: State, a: nat, past: seq<Event>)
    requires a in s.alerts
  {
    var row := s.alerts[a];
    row.status.Pending? && row.rule < |rules| && rules[row.rule].enabled ==>
      match Last(s.log, a, Opening)
      case None => false
      case Some(o) =>
        1 <= o.seen && o.at == row.pendingSince &&
        Steady(rules[row.rule], row.entity, past, o.seen - 1, |past|)
  }

  ghost predicate FiredOk(s: State, a: nat)
    requires a in s.alerts
  {
    var row := s.alerts[a];
    row.status.Firing? || row.status.Acknowledged? ==>
      match Last(s.log, a, ToFiring)
      case None => false
      case Some(f) => row.firedAt == Some(f.at)
  }

  /** Both active, for the same rule and entity. */
  predicate Rivals(x: Alert, y: Alert) {
    Active(x.status) && Active(y.status) && x.rule == y.rule && x.entity == y.entity
  }

  ghost predicate SoleActive(s: State) {
    forall a, b :: a in s.alerts && b in s.alerts && Rivals(s.alerts[a], s.alerts[b]) ==> a == b
  }

  /** Everything but the pending rows, over the event history `past`. */
  ghost predicate Core(rules: seq<Rule>, s: State, past: seq<Event>) {
    && (forall a :: a in s.alerts ==> a < s.next && FiredOk(s, a))
    && (forall a :: TailOk(s, a))
    && SoleActive(s)
    && LogOk(rules, s, past)
  }

  /** Rules below `n` have looked at the last event of `past`. */
  ghost predicate Mid(rules: seq<Rule>, s: State, past: seq<Event>, n: nat) {
    && Core(rules, s, past)
    && |past| > 0
    && forall a :: a in s.alerts ==>
         PendingOk(rules, s, a, if s.alerts[a].rule < n then past else past[..|past| - 1])
  }

  ghost predicate Inv(rules: seq<Rule>, s: State) {
    Core(rules, s, s.past) && forall a :: a in s.alerts ==> PendingOk(rules, s, a, s.past)
  }

  // ------------------------------------------------------------ one write

  ghost predicate RivalFree(s: State, a: nat, row: Alert) {
    forall b :: b in s.alerts && b != a ==> !Rivals(s.alerts[b], row)
  }

  function NewEntry(s: State, a: nat, row: Alert, action: Action, now: int, seen: nat): Entry {
    Entry(a, action, StatusOf(s, a), row.status, row.severity, now, seen)
  }

  /** The side conditions under which `Put` keeps the core. */
  ghost predicate Fits(rules: seq<Rule>, s: State, past: seq<Event>, a: nat, row: Alert, action: Action, now: int, seen: nat) {
    && (if a in s.alerts then row.rule == s.alerts[a].rule && row.entity == s.alerts[a].entity else a == s.next)
    && RivalFree(s, a, row)
    && seen <= |past|
    && (!action.Escalate? && a in s.alerts ==> row.severity == s.alerts[a].severity)
    && Sustained(rules, row, s.log, NewEntry(s, a, row, action, now, seen), past)
    && Stepwise(rules, row, s.log, NewEntry(s, a, row, action, now, seen))
    && (row.status.Firing? || row.status.Acknowledged? ==>
          if StatusOf(s, a) == Some(Pending) then row.status.Firing? && row.firedAt == Some(now)
          else a in s.alerts && (s.alerts[a].status.Firing? || s.alerts[a].status.Acknowledged?) &&
               row.firedAt == s.alerts[a].firedAt)
  }

  lemma PutKeepsLog(rules: seq<Rule>, s: State, past: seq<Event>, a: nat, row: Alert, action: Action, now: int, seen: nat)
    requires Core(rules, s, past) && Fits(rules, s, past, a, row, action, now, seen)
    ensures LogOk(rules, Put(s, a, row, action, now, seen), past)
  {
    var t := Put(s, a, row, action, now, seen);
    var e := t.log[|s.log|];
    LogGrows(s.log, e);
    assert TailOk(s, a);
    forall i | 0 <= i < |t.log| ensures RowOk(rules, t, past, i) {
      if i < |s.log| {
        assert RowOk(rules, s, past, i);
        assert t.log[i] == s.log[i] && t.log[..i] == s.log[..i];
      } else {
        assert t.log[..i] == s.log;
      }
    }
  }

  lemma PutKeepsCore(rules: seq<Rule>, s: State, past: seq<Event>, a: nat, row: Alert, action: Action, now: int, seen: nat)
    requires Core(rules, s, past) && Fits(rules, s, past, a, row, action, now, seen)
    ensures Core(rules, Put(s, a, row, action, now, seen), past)
  {
    var t := Put(s, a, row, action, now, seen);
    var e := t.log[|s.log|];
    PutKeepsLog(rules, s, past, a, row, action, now, seen);
    LogGrows(s.log, e);
    forall b ensures TailOk(t, b) { assert TailOk(s, b); }
    forall b | b in t.alerts ensures b < t.next && FiredOk(t, b) {
      if b in s.alerts { assert FiredOk(s, b); }
    }
  }

  /** From s to t only alert `a` was written. */
  ghost predicate OnlyWrote(s: State, t: State, a: nat) {
    && t.past == s.past
    && s.next <= t.next
    && t.alerts.Keys == s.alerts.Keys + {a}
    && (forall b :: b in s.alerts && b != a ==> t.alerts[b] == s.alerts[b])
    && (forall b :: b != a ==> Last(t.log, b, Opening) == Last(s.log, b, Opening))
    && (forall b :: b != a ==> Escalations(t.log, b) == Escalations(s.log, b))
    && (a in s.alerts ==> t.alerts[a].rule == s.alerts[a].rule && t.alerts[a].entity == s.alerts[a].entity)
  }

  lemma PutWrites(s: State, a: nat, row: Alert, action: Action, now: int, seen: nat)
    requires a in s.alerts ==> row.rule == s.alerts[a].rule && row.entity == s.alerts[a].entity
    ensures OnlyWrote(s, Put(s, a, row, action, now, seen), a)
  {
    LogGrows(s.log, NewEntry(s, a, row, action, now, seen));
  }

  // ------------------------------------------------------------ the single changes

  lemma ClosedKeeps(rules: seq<Rule>, s: State, past: seq<Event>, a: nat, now: int)
    requires Core(rules, s, past) && a in s.alerts
    ensures Core(rules, Closed(s, a, now, |past|), past) && OnlyWrote(s, Closed(s, a, now, |past|), a)
    ensures PendingOk(rules, Closed(s, a, now, |past|), a, past)
  {
    var row := s.alerts[a].(status := Resolved, resolvedAt := Some(now));
    PutKeepsCore(rules, s, past, a, row, Resolve, now, |past|);
    PutWrites(s, a, row, Resolve, now, |past|);
  }

  lemma SuppressedKeeps(rules: seq<Rule>, s: State, past: seq<Event>, a: nat, now: int)
    requires Core(rules, s, past) && a in s.alerts && PendingOk(rules, s, a, past)
    ensures Core(rules, Suppressed(s, a, now, |past|), past) && OnlyWrote(s, Suppressed(s, a, now, |past|), a)
    ensures PendingOk(rules, Suppressed(s, a, now, |past|), a, past)
  {
    assert RivalFree(s, a, s.alerts[a]);
    assert FiredOk(s, a);
    PutKeepsCore(rules, s, past, a, s.alerts[a], Suppress, now, |past|);
    PutWrites(s, a, s.alerts[a], Suppress, now, |past|);
    LogGrows(s.log, NewEntry(s, a, s.alerts[a], Suppress, now, |past|));
  }

  lemma NotifiedKeeps(rules: seq<Rule>, s: State, past: seq<Event>, a: nat, rule: Rule, now: int)
    requires Core(rules, s, past) && a in s.alerts && PendingOk(rules, s, a, past)
    ensures var t := Notified(s, a, rule, now, |past|);
            Core(rules, t, past) && OnlyWrote(s, t, a) && PendingOk(rules, t, a, past) && t.alerts[a] == s.alerts[a]
  {
    SuppressedKeeps(rules, s, past, a, now);
  }

  lemma FiredKeeps(rules: seq<Rule>, s: State, past: seq<Event>, a: nat, now: int)
    requires Core(rules, s, past) && a in s.alerts && PendingOk(rules, s, a, past)
    requires s.alerts[a].status.Pending? && s.alerts[a].rule < |rules| && rules[s.alerts[a].rule].enabled
    requires now - s.alerts[a].pendingSince >= rules[s.alerts[a].rule].duration
    ensures Core(rules, Fired(s, a, now, |past|), past) && OnlyWrote(s, Fired(s, a, now, |past|), a)
    ensures PendingOk(rules, Fired(s, a, now, |past|), a, past)
  {
    var row := s.alerts[a].(status := Firing, firedAt := Some(now));
    assert RivalFree(s, a, row) by { assert RivalFree(s, a, s.alerts[a]); }
    PutKeepsCore(rules, s, past, a, row, Fire, now, |past|);
    PutWrites(s, a, row, Fire, now, |past|);
  }

  lemma EscalatedKeeps(rules: seq<Rule>, s: State, past: seq<Event>, a: nat, now: int)
    requires Core(rules, s, past) && a in s.alerts && s.alerts[a].rule < |rules|
    requires s.alerts[a].status.Firing? || s.alerts[a].status.Acknowledged?
    ensures var t := Escalated(s, a, rules[s.alerts[a].rule], now, |past|);
            Core(rules, t, past) && OnlyWrote(s, t, a) && PendingOk(rules, t, a, past)
  {
    var rule := rules[s.alerts[a].rule];
    if EscalationDue(s.alerts[a], rule, now) {
      var row := s.alerts[a].(severity := rule.levels[IndexOf(rule.levels, s.alerts[a].severity) + 1]);
      assert RivalFree(s, a, row) by { assert RivalFree(s, a, s.alerts[a]); }
      assert FiredOk(s, a) && TailOk(s, a);
      assert Stepwise(rules, row, s.log, NewEntry(s, a, row, Escalate, now, |past|));
      PutKeepsCore(rules, s, past, a, row, Escalate, now, |past|);
      PutWrites(s, a, row, Escalate, now, |past|);
    }
  }

  /** A row that just became pending: the opening event is the last one, and it met the condition. */
  lemma OpeningKeeps(rules: seq<Rule>, s: State, past: seq<Event>, a: nat, row: Alert, now: int)
    requires Core(rules, s, past) && |past| > 0
    requires if a in s.alerts then s.alerts[a].status.Resolved? && row.rule == s.alerts[a].rule &&
                                   row.entity == s.alerts[a].entity && row.severity == s.alerts[a].severity
             else a == s.next
    requires row.status.Pending? && row.pendingSince == now && RivalFree(s, a, row)
    requires row.rule < |rules| && ConditionMet(rules[row.rule], past[|past| - 1])
    ensures var t := Put(s, a, row, Fire, now, |past|);
            Core(rules, t, past) && OnlyWrote(s, t, a) && PendingOk(rules, t, a, past)
  {
    PutKeepsCore(rules, s, past, a, row, Fire, now, |past|);
    PutWrites(s, a, row, Fire, now, |past|);
    LogGrows(s.log, NewEntry(s, a, row, Fire, now, |past|));
  }

  lemma TouchedKeeps(rules: seq<Rule>, s: State, past: seq<Event>, a: nat, now: int)
    requires Core(rules, s, past) && a in s.alerts && PendingOk(rules, s, a, past)
    ensures var t := Touched(s, a, now);
            Core(rules, t, past) && OnlyWrote(s, t, a) && PendingOk(rules, t, a, past)
  {
    var t := Touched(s, a, now);
    forall i | 0 <= i < |t.log| ensures RowOk(rules, t, past, i) { assert RowOk(rules, s, past, i); }
    forall b ensures TailOk(t, b) { assert TailOk(s, b); }
    forall b | b in t.alerts ensures b < t.next && FiredOk(t, b) { assert FiredOk(s, b); }
  }

  // ------------------------------------------------------------ one event

  lemma NextHitKeeps(rules: seq<Rule>, s: State, past: seq<Event>, a: nat, now: int)
    requires Core(rules, s, past) && a in s.alerts && PendingOk(rules, s, a, past)
    requires Active(s.alerts[a].status) && s.alerts[a].rule < |rules| && rules[s.alerts[a].rule].enabled
    ensures var t := NextHit(s, a, rules[s.alerts[a].rule], now, |past|);
            Core(rules, t, past) && OnlyWrote(s, t, a) && PendingOk(rules, t, a, past)
  {
    var rule := rules[s.alerts[a].rule];
    var t := Touched(s, a, now);
    TouchedKeeps(rules, s, past, a, now);
    if t.alerts[a].status.Pending? {
      if now - t.alerts[a].pendingSince >= rule.duration {
        FiredKeeps(rules, t, past, a, now);
        NotifiedKeeps(rules, Fired(t, a, now, |past|), past, a, rule, now);
      } else {
        SuppressedKeeps(rules, t, past, a, now);
      }
    } else {
      NotifiedKeeps(rules, t, past, a, rule, now);
      EscalatedKeeps(rules, Notified(t, a, rule, now, |past|), past, a, now);
    }
  }

  lemma FirstHitKeeps(rules: seq<Rule>, s: State, past: seq<Event>, r: nat, ev: Event, now: int) returns (a: nat)
    requires Core(rules, s, past) && |past| > 0 && past[|past| - 1] == ev
    requires r < |rules| && ConditionMet(rules[r], ev)
    requires Latest(s.alerts, ActiveFor(r, ev.entity), s.next).None?
    ensures var t := FirstHit(s, r, rules[r], ev, now, |past|);
            Core(rules, t, past) && OnlyWrote(s, t, a) && PendingOk(rules, t, a, past) && t.alerts[a].rule == r
  {
    var rule := rules[r];
    var recent := Latest(s.alerts, ResolvedFor(r, ev.entity, now - rule.converge), s.next);
    var t := FirstHit(s, r, rule, ev, now, |past|);
    a := if rule.converge > 0 && recent.Some? then recent.value else s.next;
    var row := t.alerts[a];
    assert RivalFree(s, a, row);
    OpeningKeeps(rules, s, past, a, row, now);
  }

  /** A pending row survives an event that is none of its business, or meets the condition. */
  lemma Extends(rules: seq<Rule>, s: State, a: nat, past: seq<Event>, ev: Event)
    requires a in s.alerts && PendingOk(rules, s, a, past)
    requires s.alerts[a].rule < |rules| ==>
               var rule := rules[s.alerts[a].rule];
               !rule.enabled || ev.entity != s.alerts[a].entity || !Pertains(rule, ev) || ConditionMet(rule, ev)
    ensures PendingOk(rules, s, a, past + [ev])
  {
  }

  /** The state after rule r looked at the event, given the alert it wrote. */
  lemma RuleDone(rules: seq<Rule>, s: State, t: State, past: seq<Event>, ev: Event, r: nat, a: nat)
    requires Mid(rules, s, past + [ev], r) && r < |rules|
    requires Core(rules, t, past + [ev]) && OnlyWrote(s, t, a) && PendingOk(rules, t, a, past + [ev])
    requires forall b :: b in s.alerts && b != a && Selects(ActiveFor(r, ev.entity), s.alerts[b]) ==>
               !rules[r].enabled || !Pertains(rules[r], ev) || ConditionMet(rules[r], ev)
    requires t.alerts[a].rule == r
    ensures Mid(rules, t, past + [ev], r + 1)
  {
    var all := past + [ev];
    assert all[..|all| - 1] == past;
    forall b | b in t.alerts
      ensures PendingOk(rules, t, b, if t.alerts[b].rule < r + 1 then all else past)
    {
      if b != a {
        assert PendingOk(rules, s, b, if s.alerts[b].rule < r then all else past);
        if s.alerts[b].rule == r && s.alerts[b].status.Pending? { Extends(rules, s, b, past, ev); }
      }
    }
  }

  /** Nothing was written because the event was none of rule r's business, or nothing was active. */
  lemma RuleIdle(rules: seq<Rule>, s: State, past: seq<Event>, ev: Event, r: nat)
    requires Mid(rules, s, past + [ev], r) && r < |rules|
    requires !rules[r].enabled || !Pertains(rules[r], ev) || Latest(s.alerts, ActiveFor(r, ev.entity), s.next).None?
    ensures Mid(rules, s, past + [ev], r + 1)
  {
    var all := past + [ev];
    assert all[..|all| - 1] == past;
    forall b | b in s.alerts
      ensures PendingOk(rules, s, b, if s.alerts[b].rule < r + 1 then all else past)
    {
      assert PendingOk(rules, s, b, if s.alerts[b].rule < r then all else past);
      if s.alerts[b].rule == r && s.alerts[b].status.Pending? {
        assert b < s.next;
        Extends(rules, s, b, past, ev);
      }
    }
  }

  /** Alerts of rules other than r were left alone. */
  ghost predicate Spares(s: State, t: State, r: nat) {
    forall b :: b in s.alerts && s.alerts[b].rule != r ==>
      b in t.alerts && t.alerts[b] == s.alerts[b] && Escalations(t.log, b) == Escalations(s.log, b)
  }

  lemma OnRuleKeeps(rules: seq<Rule>, s: State, past: seq<Event>, ev: Event, r: nat, now: int) returns (t: State)
    requires Mid(rules, s, past + [ev], r) && r < |rules|
    ensures t == OnRule(s, r, rules[r], ev, now, |past| + 1)
    ensures Mid(rules, t, past + [ev], r + 1)
    ensures Spares(s, t, r)
  {
    var all := past + [ev];
    var rule := rules[r];
    var found := Latest(s.alerts, ActiveFor(r, ev.entity), s.next);
    t := OnRule(s, r, rule, ev, now, |all|);
    if !rule.enabled || !Pertains(rule, ev) || (!ConditionMet(rule, ev) && found.None?) {
      RuleIdle(rules, s, past, ev, r);
    } else if found.None? {
      var a := FirstHitKeeps(rules, s, all, r, ev, now);
      RuleDone(rules, s, t, past, ev, r, a);
    } else {
      var a := found.value;
      OnlyOneFound(rules, s, all, r, ev.entity);
      if !ConditionMet(rule, ev) {
        ClosedKeeps(rules, s, all, a, now);
      } else {
        assert all[..|all| - 1] == past;
        Extends(rules, s, a, past, ev);
        NextHitKeeps(rules, s, all, a, now);
      }
      RuleDone(rules, s, t, past, ev, r, a);
    }
  }

  lemma OnlyOneFound(rules: seq<Rule>, s: State, past: seq<Event>, r: nat, entity: string)
    requires Core(rules, s, past)
    requires Latest(s.alerts, ActiveFor(r, entity), s.next).Some?
    ensures forall b :: b in s.alerts && Selects(ActiveFor(r, entity), s.alerts[b]) ==>
              b == Latest(s.alerts, ActiveFor(r, entity), s.next).value
  {
    var a := Latest(s.alerts, ActiveFor(r, entity), s.next).value;
    forall b | b in s.alerts && Selects(ActiveFor(r, entity), s.alerts[b]) ensures b == a {
      assert Rivals(s.alerts[a], s.alerts[b]);
    }
  }

  lemma {:induction false} OnRulesKeeps(rules: seq<Rule>, s: State, ev: Event, n: nat, now: int) returns (t: State)
    requires Mid(rules, s, s.past + [ev], 0) && n <= |rules|
    ensures t == OnRules(s, rules, n, ev, now)
    ensures Mid(rules, t, s.past + [ev], n)
    decreases n
  {
    if n == 0 {
      t := s;
    } else {
      var before := OnRulesKeeps(rules, s, ev, n - 1, now);
      t := OnRuleKeeps(rules, before, s.past, ev, n - 1, now);
    }
  }

  /** Before any rule looks at the event. */
  lemma EventBegins(rules: seq<Rule>, s: State, ev: Event)
    requires Inv(rules, s)
    ensures Mid(rules, s, s.past + [ev], 0)
  {
    var all := s.past + [ev];
    assert all[..|all| - 1] == s.past;
    forall i | 0 <= i < |s.log| ensures RowOk(rules, s, all, i) { assert RowOk(rules, s, s.past, i); }
  }

  lemma EvaluatedKeeps(rules: seq<Rule>, s: State, ev: Event, now: int)
    requires Inv(rules, s)
    ensures Inv(rules, Evaluated(s, rules, ev, now))
  {
    var all := s.past + [ev];
    EventBegins(rules, s, ev);
    assert all[..|all| - 1] == s.past;
    var t := OnRulesKeeps(rules, s, ev, |rules|, now);
    Relabel(rules, t, t.(past := all), all);
    forall a | a in t.alerts ensures PendingOk(rules, t.(past := all), a, all) {
      assert PendingOk(rules, t, a, if t.alerts[a].rule < |rules| then all else s.past);
    }
  }

  /** The core does not depend on where the history is stored. */
  lemma Relabel(rules: seq<Rule>, s: State, t: State, past: seq<Event>)
    requires Core(rules, s, past) && t == s.(past := t.past)
    ensures Core(rules, t, past)
  {
    forall i | 0 <= i < |t.log| ensures RowOk(rules, t, past, i) { assert RowOk(rules, s, past, i); }
    forall b ensures TailOk(t, b) { assert TailOk(s, b); }
    forall b | b in t.alerts ensures b < t.next && FiredOk(t, b) { assert FiredOk(s, b); }
  }

  // ------------------------------------------------------------ sweep and operators

  lemma WroteKeepsInv(rules: seq<Rule>, s: State, t: State, a: nat)
    requires Inv(rules, s) && Core(rules, t, s.past) && OnlyWrote(s, t, a) && PendingOk(rules, t, a, s.past)
    ensures Inv(rules, t)
  {
    forall b | b in t.alerts ensures PendingOk(rules, t, b, t.past) {
      if b != a { assert PendingOk(rules, s, b, s.past); }
    }
  }

  lemma SweepOneKeeps(rules: seq<Rule>, s: State, a: nat, now: int, freshness: int)
    requires Inv(rules, s) && a in s.alerts && Active(s.alerts[a].status)
    ensures Inv(rules, SweepOne(s, rules, a, now, freshness))
    ensures OnlyWrote(s, SweepOne(s, rules, a, now, freshness), a)
  {
    var row := s.alerts[a];
    var t := SweepOne(s, rules, a, now, freshness);
    if row.rule < |rules| && rules[row.rule].enabled && now - row.lastEventAt <= freshness {
      if !row.status.Pending? {
        EscalatedKeeps(rules, s, s.past, a, now);
        WroteKeepsInv(rules, s, t, a);
      } else if now - row.pendingSince >= rules[row.rule].duration {
        FiredKeeps(rules, s, s.past, a, now);
        NotifiedKeeps(rules, Fired(s, a, now, |s.past|), s.past, a, rules[row.rule], now);
        WroteKeepsInv(rules, s, t, a);
      }
    }
  }

  lemma {:induction false} SweepFirstKeeps(rules: seq<Rule>, s: State, ids: seq<nat>, now: int, freshness: int)
    requires Inv(rules, s)
    requires forall i :: 0 <= i < |ids| ==> ids[i] in s.alerts && Active(s.alerts[ids[i]].status)
    requires forall i, j :: 0 <= i < j < |ids| ==> ids[i] < ids[j]
    ensures Inv(rules, SweepFirst(s, rules, ids, now, freshness))
    ensures forall b :: b in s.alerts && b !in ids ==> SweepFirst(s, rules, ids, now, freshness).alerts[b] == s.alerts[b]
    decreases |ids|
  {
    if ids != [] {
      var init, a := ids[..|ids| - 1], ids[|ids| - 1];
      SweepFirstKeeps(rules, s, init, now, freshness);
      var before := SweepFirst(s, rules, init, now, freshness);
      assert a !in init && before.alerts[a] == s.alerts[a];
      assert SweepFirst(s, rules, ids, now, freshness) == SweepOne(before, rules, a, now, freshness);
      assert forall b :: b !in ids ==> b !in init && b != a;
      SweepOneKeeps(rules, before, a, now, freshness);
    }
  }

  lemma AckKeeps(rules: seq<Rule>, s: State, a: nat, now: int)
    requires Inv(rules, s) && CanAck(s, a)
    ensures Inv(rules, Next(rules, s, Ack(a, now)))
  {
    var row := s.alerts[a].(status := Acknowledged);
    assert RivalFree(s, a, row) by { assert RivalFree(s, a, s.alerts[a]); }
    PutKeepsCore(rules, s, s.past, a, row, Acknowledge, now, |s.past|);
    PutWrites(s, a, row, Acknowledge, now, |s.past|);
    WroteKeepsInv(rules, s, Next(rules, s, Ack(a, now)), a);
  }

  lemma StepKeepsInv(rules: seq<Rule>, s: State, step: Step)
    requires Inv(rules, s)
    ensures Inv(rules, Next(rules, s, step))
  {
    match step
    case Ingest(ev, now) => EvaluatedKeeps(rules, s, ev, now);
    case Sweep(now, freshness) => SweepFirstKeeps(rules, s, SweepList(s.alerts, s.next), now, freshness);
    case Ack(a, now) => if CanAck(s, a) { AckKeeps(rules, s, a, now); }
    case Close(a, now) =>
      if CanClose(s, a) {
        ClosedKeeps(rules, s, s.past, a, now);
        WroteKeepsInv(rules, s, Closed(s, a, now, |s.past|), a);
      }
  }

  lemma {:induction false} RunKeepsInv(rules: seq<Rule>, s: State, steps: seq<Step>)
    requires Inv(rules, s)
    ensures Inv(rules, Run(rules, s, steps))
    decreases |steps|
  {
    if steps != [] {
      RunKeepsInv(rules, s, steps[..|steps| - 1]);
      StepKeepsInv(rules, Run(rules, s, steps[..|steps| - 1]), steps[|steps| - 1]);
    }
  }

  // ------------------------------------------------------------ in every run

  lemma RunOk(rules: seq<Rule>, steps: seq<Step>)
    ensures Inv(rules, Run(rules, Start(), steps))
  {
    RunKeepsInv(rules, Start(), steps);
  }

  /** At most one pending, firing or acknowledged alert per rule and entity. */
  lemma OneActivePerRuleAndEntity(rules: seq<Rule>, steps: seq<Step>, a: nat, b: nat)
    requires a in Run(rules, Start(), steps).alerts && b in Run(rules, Start(), steps).alerts
    requires Rivals(Run(rules, Start(), steps).alerts[a], Run(rules, Start(), steps).alerts[b])
    ensures a == b
  {
    RunOk(rules, steps);
  }

  /** Each alert's log is one contiguous chain that ends in the alert's status and severity. */
  lemma LogIsAChain(rules: seq<Rule>, steps: seq<Step>)
    ensures var s := Run(rules, Start(), steps);
            forall i :: 0 <= i < |s.log| ==>
              s.log[i].from == match Last(s.log[..i], s.log[i].alert, Any)
                               case None => None
                               case Some(prev) => Some(prev.to)
    ensures var s := Run(rules, Start(), steps);
            forall a :: a in s.alerts ==>
              Last(s.log, a, Any).Some? && Last(s.log, a, Any).value.to == s.alerts[a].status &&
              Last(s.log, a, Any).value.severity == s.alerts[a].severity
  {
    RunOk(rules, steps);
    var s := Run(rules, Start(), steps);
    forall i | 0 <= i < |s.log|
      ensures s.log[i].from == match Last(s.log[..i], s.log[i].alert, Any)
                               case None => None
                               case Some(prev) => Some(prev.to)
    {
      assert RowOk(rules, s, s.past, i);
    }
    forall a | a in s.alerts
      ensures Last(s.log, a, Any).Some? && Last(s.log, a, Any).value.to == s.alerts[a].status &&
              Last(s.log, a, Any).value.severity == s.alerts[a].severity
    {
      assert TailOk(s, a);
    }
  }

  /** Where the alert's last row of a sort stands. */
  lemma {:induction false} LastAt(log: seq<Entry>, a: nat, what: What) returns (j: nat)
    requires Last(log, a, what).Some?
    ensures j < |log| && log[j].alert == a && Is(what, log[j]) && Last(log, a, what) == Some(log[j])
    ensures forall k :: j < k < |log| && log[k].alert == a ==> !Is(what, log[k])
    decreases |log|
  {
    var n := |log| - 1;
    if log[n].alert == a && Is(what, log[n]) {
      j := n;
    } else {
      j := LastAt(log[..n], a, what);
    }
  }

  /** Before a row that leaves `pending`, every row of the alert since its last opening ends in `pending`. */
  lemma {:induction false} PendingThroughout(rules: seq<Rule>, s: State, past: seq<Event>, i: nat, j: nat, k: nat)
    requires LogOk(rules, s, past) && j < k < i < |s.log|
    requires s.log[i].from == Some(Pending) && s.log[k].alert == s.log[i].alert
    requires forall m :: j < m < i && s.log[m].alert == s.log[i].alert ==> !Is(Opening, s.log[m])
    ensures s.log[k].to.Pending?
    decreases i - k
  {
    assert RowOk(rules, s, past, i);
    var a := s.log[i].alert;
    PrefixHas(s.log[..i], a, k);
    var m := LastAt(s.log[..i], a, Any);
    if m > k {
      assert !Is(Opening, s.log[m]);
      PendingThroughout(rules, s, past, m, j, k);
    }
  }

  lemma {:induction false} PrefixHas(log: seq<Entry>, a: nat, k: nat)
    requires k < |log| && log[k].alert == a
    ensures Last(log, a, Any).Some?
    decreases |log|
  {
    if k < |log| - 1 { PrefixHas(log[..|log| - 1], a, k); }
  }

  /**
   * Firing means sustained, in every run and through events and sweeps alike:
   * each row i that moves an alert to firing has an opening row j of the same
   * alert (its creation or its last reopening) such that the alert was pending
   * all the way from j to i, at least the rule's duration passed from j to i,
   * and no event evaluated from the opening one up to row i belonged to the
   * rule and entity and failed the condition.
   */
  lemma FiringMeansSustained(rules: seq<Rule>, steps: seq<Step>, i: nat) returns (j: nat)
    requires i < |Run(rules, Start(), steps).log|
    requires Is(ToFiring, Run(rules, Start(), steps).log[i])
    ensures var s := Run(rules, Start(), steps);
            var e := s.log[i];
            && j < i && s.log[j].alert == e.alert && Is(Opening, s.log[j])
            && (forall k :: j < k < i && s.log[k].alert == e.alert ==> s.log[k].to.Pending?)
            && e.alert in s.alerts && s.alerts[e.alert].rule < |rules|
            && var rule := rules[s.alerts[e.alert].rule];
               && e.at - s.log[j].at >= rule.duration
               && s.log[j].seen >= 1
               && Steady(rule, s.alerts[e.alert].entity, s.past, s.log[j].seen - 1, e.seen)
  {
    RunOk(rules, steps);
    j := SustainedRow(rules, Run(rules, Start(), steps), i);
  }

  lemma SustainedRow(rules: seq<Rule>, s: State, i: nat) returns (j: nat)
    requires LogOk(rules, s, s.past) && i < |s.log| && Is(ToFiring, s.log[i])
    ensures var e := s.log[i];
            && j < i && s.log[j].alert == e.alert && Is(Opening, s.log[j])
            && (forall k :: j < k < i && s.log[k].alert == e.alert ==> s.log[k].to.Pending?)
            && e.alert in s.alerts && s.alerts[e.alert].rule < |rules|
            && var rule := rules[s.alerts[e.alert].rule];
               && e.at - s.log[j].at >= rule.duration
               && s.log[j].seen >= 1
               && Steady(rule, s.alerts[e.alert].entity, s.past, s.log[j].seen - 1, e.seen)
  {
    assert RowOk(rules, s, s.past, i);
    j := LastAt(s.log[..i], s.log[i].alert, Opening);
    forall k | j < k < i && s.log[k].alert == s.log[i].alert ensures s.log[k].to.Pending? {
      PendingThroughout(rules, s, s.past, i, j, k);
    }
  }
}
