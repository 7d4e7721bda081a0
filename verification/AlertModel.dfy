/**
 * The alert rule engine: rules, events, alert rows and the append-only alert
 * log, and what one transaction (an ingested event, a sweep, an operator's
 * acknowledge or resolve) makes of them.
 */
module AlertModel {
  import opened Wrappers

  datatype Status = Pending | Firing | Acknowledged | Resolved

  datatype Action = Fire | Suppress | Resolve | Acknowledge | Escalate

  /** An event value: absent, a number, or something that is not a number. */
  datatype Value = Absent | Number(x: real) | Unparsable

  datatype Event = Event(kind: string, source: string, metric: string, entity: string, value: Value, severity: string)

  /** A rule; its id is its place in the rule table. Empty strings and lists mean "any". */
  datatype Rule = Rule(
    enabled: bool, kind: string, source: string, metric: string,
    operator: string, threshold: real, duration: int,
    scoped: bool, scope: seq<string>, level: string,
    cooldown: int, converge: int,
    escalates: bool, window: int, levels: seq<string>)

  datatype Alert = Alert(
    rule: nat, entity: string, status: Status, severity: string,
    pendingSince: int, firedAt: Option<int>, resolvedAt: Option<int>, lastEventAt: int)

  /** A log row; `seen` counts the events evaluated when it was written. */
  datatype Entry = Entry(
    alert: nat, action: Action, from: Option<Status>, to: Status, severity: string, at: int, seen: nat)

  /** The tables, and `past`: the events evaluated so far, oldest first. */
  datatype State = State(alerts: map<nat, Alert>, log: seq<Entry>, next: nat, past: seq<Event>)

  predicate Active(s: Status) { !s.Resolved? }

  // ------------------------------------------------------------ matching

  predicate Pertains(r: Rule, ev: Event) {
    && ev.kind == r.kind
    && (r.source == "" || r.source == ev.source)
    && (r.kind == "metric" ==> r.metric == "" || ev.metric == r.metric)
    && (r.scoped && r.scope != [] ==> ev.entity in r.scope)
  }

  /** A value that is no number only ever satisfies `!=`. */
  predicate CheckCondition(r: Rule, v: Value)
    requires !v.Absent?
  {
    if v.Unparsable? then r.operator == "!="
    else if r.operator == "==" then v.x == r.threshold
    else if r.operator == "!=" then v.x != r.threshold
    else if r.operator == ">" then v.x > r.threshold
    else if r.operator == "<" then v.x < r.threshold
    else if r.operator == ">=" then v.x >= r.threshold
    else if r.operator == "<=" then v.x <= r.threshold
    else false
  }

  predicate ConditionMet(r: Rule, ev: Event) { ev.value.Absent? || CheckCondition(r, ev.value) }

  // ------------------------------------------------------------ queries

  datatype Query =
    | ActiveFor(rule: nat, entity: string)
    | ResolvedFor(rule: nat, entity: string, cutoff: int)

  predicate Selects(q: Query, row: Alert) {
    row.rule == q.rule && row.entity == q.entity &&
    match q
    case ActiveFor(_, _) => Active(row.status)
    case ResolvedFor(_, _, cutoff) =>
      row.status.Resolved? && row.resolvedAt.Some? && row.resolvedAt.value >= cutoff
  }

  /** The selected alert with the highest id below `n`. */
  function Latest(alerts: map<nat, Alert>, q: Query, n: nat): (r: Option<nat>)
    ensures r.Some? ==> r.value < n && r.value in alerts && Selects(q, alerts[r.value])
    ensures r.Some? ==> forall b :: r.value < b < n && b in alerts ==> !Selects(q, alerts[b])
    ensures r.None? ==> forall b :: 0 <= b < n && b in alerts ==> !Selects(q, alerts[b])
  {
    if n == 0 then None
    else if n - 1 in alerts && Selects(q, alerts[n - 1]) then Some(n - 1)
    else Latest(alerts, q, n - 1)
  }

  /** The active alerts below `n`, by ascending id. */
  function ActiveIds(alerts: map<nat, Alert>, n: nat): (ids: seq<nat>)
    ensures forall i :: 0 <= i < |ids| ==> ids[i] < n && ids[i] in alerts && Active(alerts[ids[i]].status)
    ensures forall i, j :: 0 <= i < j < |ids| ==> ids[i] < ids[j]
    ensures forall a :: 0 <= a < n && a in alerts && Active(alerts[a].status) ==> a in ids
  {
    if n == 0 then []
    else if n - 1 in alerts && Active(alerts[n - 1].status) then ActiveIds(alerts, n - 1) + [n - 1]
    else ActiveIds(alerts, n - 1)
  }

  const SWEEP_LIMIT := 500

  function SweepList(alerts: map<nat, Alert>, n: nat): seq<nat> {
    var ids := ActiveIds(alerts, n);
    if |ids| <= SWEEP_LIMIT then ids else ids[..SWEEP_LIMIT]
  }

  function LastFireAt(log: seq<Entry>, a: nat): Option<int> {
    if log == [] then None else
      var e := log[|log| - 1];
      var before := LastFireAt(log[..|log| - 1], a);
      if e.alert != a || !e.action.Fire? then before
      else if before.Some? && before.value > e.at then before
      else Some(e.at)
  }

  /** The first position of `l`, or -1. */
  function IndexOf<T(==)>(levels: seq<T>, l: T): (i: int)
    ensures -1 <= i < |levels|
    ensures i >= 0 ==> levels[i] == l
    ensures forall j :: 0 <= j < |levels| && levels[j] == l ==> 0 <= i <= j
  {
    IndexFrom(levels, l, 0)
  }

  function IndexFrom<T(==)>(levels: seq<T>, l: T, k: nat): (i: int)
    requires k <= |levels|
    ensures -1 <= i < |levels|
    ensures i >= 0 ==> k <= i && levels[i] == l
    ensures forall j :: k <= j < |levels| && levels[j] == l ==> 0 <= i <= j
    decreases |levels| - k
  {
    if k == |levels| then -1
    else if levels[k] == l then k
    else IndexFrom(levels, l, k + 1)
  }

  // ------------------------------------------------------------ row writes

  function StatusOf(s: State, a: nat): Option<Status> {
    if a in s.alerts then Some(s.alerts[a].status) else None
  }

  /** Writes the row and appends its log row: every logged change has this form. */
  function Put(s: State, a: nat, row: Alert, action: Action, now: int, seen: nat): State {
    s.(alerts := s.alerts[a := row],
       log := s.log + [Entry(a, action, StatusOf(s, a), row.status, row.severity, now, seen)],
       next := if a < s.next then s.next else a + 1)
  }

  function Opened(s: State, r: nat, rule: Rule, ev: Event, now: int, seen: nat): State {
    Put(s, s.next, Alert(r, ev.entity, Pending, if rule.level != "" then rule.level
                         else if ev.severity != "" then ev.severity else "warning",
                         now, None, None, now), Fire, now, seen)
  }

  function Reopened(s: State, a: nat, now: int, seen: nat): State
    requires a in s.alerts
  {
    Put(s, a, s.alerts[a].(status := Pending, resolvedAt := None, firedAt := None,
                           pendingSince := now, lastEventAt := now), Fire, now, seen)
  }

  function Fired(s: State, a: nat, now: int, seen: nat): State
    requires a in s.alerts
  {
    Put(s, a, s.alerts[a].(status := Firing, firedAt := Some(now)), Fire, now, seen)
  }

  function Closed(s: State, a: nat, now: int, seen: nat): State
    requires a in s.alerts
  {
    Put(s, a, s.alerts[a].(status := Resolved, resolvedAt := Some(now)), Resolve, now, seen)
  }

  function Suppressed(s: State, a: nat, now: int, seen: nat): State
    requires a in s.alerts
  {
    Put(s, a, s.alerts[a], Suppress, now, seen)
  }

  function Touched(s: State, a: nat, now: int): State
    requires a in s.alerts
  {
    s.(alerts := s.alerts[a := s.alerts[a].(lastEventAt := now)])
  }

  predicate InCooldown(s: State, a: nat, rule: Rule, now: int) {
    rule.cooldown > 0 && LastFireAt(s.log, a).Some? && now - LastFireAt(s.log, a).value < rule.cooldown
  }

  function Notified(s: State, a: nat, rule: Rule, now: int, seen: nat): State
    requires a in s.alerts
  {
    if InCooldown(s, a, rule, now) then Suppressed(s, a, now, seen) else s
  }

  predicate EscalationDue(row: Alert, rule: Rule, now: int) {
    var k := IndexOf(rule.levels, row.severity) + 1;
    rule.escalates && rule.window > 0 && row.firedAt.Some? &&
    k < |rule.levels| && now - row.firedAt.value >= rule.window * (k + 1)
  }

  function Escalated(s: State, a: nat, rule: Rule, now: int, seen: nat): State
    requires a in s.alerts
  {
    var row := s.alerts[a];
    if !EscalationDue(row, rule, now) then s
    else Put(s, a, row.(severity := rule.levels[IndexOf(rule.levels, row.severity) + 1]), Escalate, now, seen)
  }

  // ------------------------------------------------------------ transactions

  /** A hit for which no alert is active: reopen a recent one, or open a new one. */
  function FirstHit(s: State, r: nat, rule: Rule, ev: Event, now: int, seen: nat): State {
    var recent := Latest(s.alerts, ResolvedFor(r, ev.entity, now - rule.converge), s.next);
    if rule.converge > 0 && recent.Some? then Reopened(s, recent.value, now, seen)
    else Opened(s, r, rule, ev, now, seen)
  }

  /** A hit on an active alert. */
  function NextHit(s: State, a: nat, rule: Rule, now: int, seen: nat): State
    requires a in s.alerts
  {
    var t := Touched(s, a, now);
    if t.alerts[a].status.Pending? then
      if now - t.alerts[a].pendingSince >= rule.duration then Notified(Fired(t, a, now, seen), a, rule, now, seen)
      else Suppressed(t, a, now, seen)
    else Escalated(Notified(t, a, rule, now, seen), a, rule, now, seen)
  }

  /** One rule looks at the event. */
  function OnRule(s: State, r: nat, rule: Rule, ev: Event, now: int, seen: nat): State {
    var found := Latest(s.alerts, ActiveFor(r, ev.entity), s.next);
    if !rule.enabled || !Pertains(rule, ev) then s
    else if !ConditionMet(rule, ev) then
      if found.Some? then Closed(s, found.value, now, seen) else s
    else if found.None? then FirstHit(s, r, rule, ev, now, seen)
    else NextHit(s, found.value, rule, now, seen)
  }

  /** The first `n` rules have looked at the event. */
  function OnRules(s: State, rules: seq<Rule>, n: nat, ev: Event, now: int): State
    requires n <= |rules|
  {
    if n == 0 then s
    else OnRule(OnRules(s, rules, n - 1, ev, now), n - 1, rules[n - 1], ev, now, |s.past| + 1)
  }

  function Evaluated(s: State, rules: seq<Rule>, ev: Event, now: int): State {
    OnRules(s, rules, |rules|, ev, now).(past := s.past + [ev])
  }

  function SweepOne(s: State, rules: seq<Rule>, a: nat, now: int, freshness: int): State
    requires a in s.alerts
  {
    var row := s.alerts[a];
    if row.rule >= |rules| || !rules[row.rule].enabled then s
    else if now - row.lastEventAt > freshness then s
    else if row.status.Pending? then
      if now - row.pendingSince >= rules[row.rule].duration
      then Notified(Fired(s, a, now, |s.past|), a, rules[row.rule], now, |s.past|)
      else s
    else Escalated(s, a, rules[row.rule], now, |s.past|)
  }

  function SweepFirst(s: State, rules: seq<Rule>, ids: seq<nat>, now: int, freshness: int): (t: State)
    requires forall i :: 0 <= i < |ids| ==> ids[i] in s.alerts
    ensures t.alerts.Keys == s.alerts.Keys && t.past == s.past
    decreases |ids|
  {
    if ids == [] then s
    else SweepOne(SweepFirst(s, rules, ids[..|ids| - 1], now, freshness), rules, ids[|ids| - 1], now, freshness)
  }

  function Swept(s: State, rules: seq<Rule>, now: int, freshness: int): State {
    SweepFirst(s, rules, SweepList(s.alerts, s.next), now, freshness)
  }

  datatype Step =
    | Ingest(ev: Event, now: int)
    | Sweep(now: int, freshness: int)
    | Ack(a: nat, now: int)
    | Close(a: nat, now: int)

  predicate CanAck(s: State, a: nat) { a in s.alerts && s.alerts[a].status.Firing? }

  predicate CanClose(s: State, a: nat) { a in s.alerts && Active(s.alerts[a].status) }

  function Next(rules: seq<Rule>, s: State, step: Step): State {
    match step
    case Ingest(ev, now) => Evaluated(s, rules, ev, now)
    case Sweep(now, freshness) => Swept(s, rules, now, freshness)
    case Ack(a, now) =>
      if CanAck(s, a) then Put(s, a, s.alerts[a].(status := Acknowledged), Acknowledge, now, |s.past|) else s
    case Close(a, now) => if CanClose(s, a) then Closed(s, a, now, |s.past|) else s
  }

  function Run(rules: seq<Rule>, s: State, steps: seq<Step>): State
    decreases |steps|
  {
    if steps == [] then s else Next(rules, Run(rules, s, steps[..|steps| - 1]), steps[|steps| - 1])
  }

  function Start(): State { State(map[], [], 0, []) }
}
