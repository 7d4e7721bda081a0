/**
 * The alert engine as it works in place: rows are updated field by field and
 * log rows appended, rule by rule and alert by alert.  Every method is proved
 * against the transaction functions of `AlertModel`.
 */
module AlertEngine {
  import opened Wrappers
  import opened AlertModel

  datatype Error = NotFound | BadRequest

  /** The log rows that moved an alert to firing, or that escalated one. */
  function Tally(log: seq<Entry>, firing: bool): nat {
    if log == [] then 0
    else Tally(log[..|log| - 1], firing) +
         (var e := log[|log| - 1];
          if (if firing then e.to.Firing? && e.from == Some(Pending) else e.action.Escalate?) then 1 else 0)
  }

  lemma TallyGrows(log: seq<Entry>, e: Entry)
    ensures Tally(log + [e], true) == Tally(log, true) + if e.to.Firing? && e.from == Some(Pending) then 1 else 0
    ensures Tally(log + [e], false) == Tally(log, false) + if e.action.Escalate? then 1 else 0
  {
    assert (log + [e])[..|log|] == log;
  }

  lemma SweepFirstStep(s: State, rules: seq<Rule>, ids: seq<nat>, i: nat, now: int, freshness: int)
    requires i < |ids| && forall k :: 0 <= k < |ids| ==> ids[k] in s.alerts
    ensures SweepFirst(s, rules, ids[..i + 1], now, freshness) ==
            SweepOne(SweepFirst(s, rules, ids[..i], now, freshness), rules, ids[i], now, freshness)
  {
    assert ids[..i + 1][..i] == ids[..i];
  }

  class Engine {
    const rules: seq<Rule>
    var alerts: map<nat, Alert>
    var log: seq<Entry>
    var next: nat
    var past: seq<Event>

    constructor (rules: seq<Rule>)
      ensures this.rules == rules && Value() == Start()
    {
      this.rules := rules;
      alerts, log, next, past := map[], [], 0, [];
    }

    function Value(): State
      reads this
    {
      State(alerts, log, next, past)
    }

    /** Flushes the row and appends its log row. */
    method Write(a: nat, row: Alert, action: Action, now: int, seen: nat)
      modifies this`alerts, this`log, this`next
      ensures Value() == Put(old(Value()), a, row, action, now, seen)
      ensures Tally(log, true) == Tally(old(log), true) +
                if row.status.Firing? && StatusOf(old(Value()), a) == Some(Pending) then 1 else 0
      ensures Tally(log, false) == Tally(old(log), false) + if action.Escalate? then 1 else 0
    {
      var from := if a in alerts then Some(alerts[a].status) else None;
      alerts := alerts[a := row];
      TallyGrows(log, Entry(a, action, from, row.status, row.severity, now, seen));
      log := log + [Entry(a, action, from, row.status, row.severity, now, seen)];
      if a >= next { next := a + 1; }
    }

    /** The convergence gate: suppresses while the last "fire" row is too recent. */
    method MaybeNotify(a: nat, rule: Rule, now: int, seen: nat) returns (suppressed: bool)
      requires a in alerts
      modifies this`alerts, this`log, this`next
      ensures Value() == Notified(old(Value()), a, rule, now, seen)
      ensures suppressed <==> InCooldown(old(Value()), a, rule, now)
      ensures Tally(log, true) == Tally(old(log), true) && Tally(log, false) == Tally(old(log), false)
    {
      suppressed := false;
      if rule.cooldown > 0 {
        var last := FindLastFire(a);
        if last.Some? && now - last.value < rule.cooldown {
          Write(a, alerts[a], Suppress, now, seen);
          suppressed := true;
        }
      }
    }

    /** Scans the alert's timeline for its latest "fire" row. */
    method FindLastFire(a: nat) returns (last: Option<int>)
      ensures last == LastFireAt(log, a)
    {
      last := None;
      var i := 0;
      while i < |log|
        invariant 0 <= i <= |log| && last == LastFireAt(log[..i], a)
      {
        var e := log[i];
        assert log[..i + 1][..i] == log[..i];
        if e.alert == a && e.action.Fire? && (last.None? || last.value <= e.at) { last := Some(e.at); }
        i := i + 1;
      }
      assert log[..i] == log;
    }

    method MaybeEscalate(a: nat, rule: Rule, now: int, seen: nat) returns (escalated: bool)
      requires a in alerts
      modifies this`alerts, this`log, this`next
      ensures Value() == Escalated(old(Value()), a, rule, now, seen)
      ensures escalated <==> EscalationDue(old(alerts)[a], rule, now)
      ensures Tally(log, true) == Tally(old(log), true)
      ensures Tally(log, false) == Tally(old(log), false) + if escalated then 1 else 0
    {
      var row := alerts[a];
      if !rule.escalates || rule.window <= 0 || row.firedAt.None? { return false; }
      if rule.levels == [] { return false; }
      var k := IndexOf(rule.levels, row.severity) + 1;
      if k >= |rule.levels| { return false; }
      if now - row.firedAt.value < rule.window * (k + 1) { return false; }
      Write(a, row.(severity := rule.levels[k]), Escalate, now, seen);
      escalated := true;
    }

    method ResolveEngine(a: nat, now: int, seen: nat) returns (resolved: bool)
      requires a in alerts
      modifies this`alerts, this`log, this`next
      ensures resolved <==> Active(old(alerts)[a].status)
      ensures Value() == if resolved then Closed(old(Value()), a, now, seen) else old(Value())
    {
      if alerts[a].status.Resolved? { return false; }
      Write(a, alerts[a].(status := Resolved, resolvedAt := Some(now)), Resolve, now, seen);
      resolved := true;
    }

    method TryConverge(r: nat, rule: Rule, ev: Event, now: int, seen: nat) returns (reopened: bool)
      modifies this`alerts, this`log, this`next
      ensures reopened ==> Value() == FirstHit(old(Value()), r, rule, ev, now, seen)
      ensures !reopened ==> Value() == old(Value())
      ensures !reopened ==> FirstHit(Value(), r, rule, ev, now, seen) == Opened(Value(), r, rule, ev, now, seen)
    {
      if rule.converge <= 0 { return false; }
      var recent := Latest(alerts, ResolvedFor(r, ev.entity, now - rule.converge), next);
      if recent.None? { return false; }
      var a := recent.value;
      Write(a, alerts[a].(status := Pending, resolvedAt := None, firedAt := None,
                          pendingSince := now, lastEventAt := now), Fire, now, seen);
      reopened := true;
    }

    method FirstCondition(r: nat, rule: Rule, ev: Event, now: int, seen: nat)
      modifies this`alerts, this`log, this`next
      ensures Value() == FirstHit(old(Value()), r, rule, ev, now, seen)
    {
      var reopened := TryConverge(r, rule, ev, now, seen);
      if !reopened {
        var severity := if rule.level != "" then rule.level else if ev.severity != "" then ev.severity else "warning";
        Write(next, Alert(r, ev.entity, Pending, severity, now, None, None, now), Fire, now, seen);
      }
    }

    /** The duration has elapsed: pending becomes firing, and the notification gate is asked. */
    method FireRow(a: nat, rule: Rule, now: int, seen: nat)
      requires a in alerts && alerts[a].status.Pending?
      modifies this`alerts, this`log, this`next
      ensures Value() == Notified(Fired(old(Value()), a, now, seen), a, rule, now, seen)
      ensures alerts.Keys == old(alerts).Keys
      ensures Tally(log, true) == Tally(old(log), true) + 1 && Tally(log, false) == Tally(old(log), false)
    {
      Write(a, alerts[a].(status := Firing, firedAt := Some(now)), Fire, now, seen);
      var _ := MaybeNotify(a, rule, now, seen);
    }

    method AgainCondition(a: nat, rule: Rule, now: int, seen: nat)
      requires a in alerts
      modifies this`alerts, this`log, this`next
      ensures Value() == NextHit(old(Value()), a, rule, now, seen)
    {
      alerts := alerts[a := alerts[a].(lastEventAt := now)];
      if alerts[a].status.Pending? {
        if now - alerts[a].pendingSince >= rule.duration {
          FireRow(a, rule, now, seen);
        } else {
          Write(a, alerts[a], Suppress, now, seen);
        }
      } else {
        var _ := MaybeNotify(a, rule, now, seen);
        var _ := MaybeEscalate(a, rule, now, seen);
      }
    }

    method EvaluateRule(r: nat, ev: Event, now: int, seen: nat)
      requires r < |rules|
      modifies this`alerts, this`log, this`next
      ensures Value() == OnRule(old(Value()), r, rules[r], ev, now, seen)
    {
      var rule := rules[r];
      if !rule.enabled { return; }
      var found := Latest(alerts, ActiveFor(r, ev.entity), next);
      if !Pertains(rule, ev) { return; }
      if !ConditionMet(rule, ev) {
        if found.Some? { var _ := ResolveEngine(found.value, now, seen); }
        return;
      }
      if found.None? {
        FirstCondition(r, rule, ev, now, seen);
      } else {
        AgainCondition(found.value, rule, now, seen);
      }
    }

    /** One event through every enabled rule, in table order. */
    method EvaluateEvent(ev: Event, now: int)
      modifies this
      ensures Value() == Next(rules, old(Value()), Ingest(ev, now))
    {
      var r := 0;
      while r < |rules|
        invariant 0 <= r <= |rules| && past == old(past)
        invariant Value() == OnRules(old(Value()), rules, r, ev, now)
      {
        EvaluateRule(r, ev, now, |past| + 1);
        r := r + 1;
      }
      past := past + [ev];
    }

    method SweepAlert(a: nat, now: int, freshness: int) returns (fired: bool, escalated: bool)
      requires a in alerts
      modifies this`alerts, this`log, this`next
      ensures Value() == SweepOne(old(Value()), rules, a, now, freshness)
      ensures alerts.Keys == old(alerts).Keys
      ensures Tally(log, true) == Tally(old(log), true) + if fired then 1 else 0
      ensures Tally(log, false) == Tally(old(log), false) + if escalated then 1 else 0
    {
      fired, escalated := false, false;
      var row := alerts[a];
      if row.rule >= |rules| || !rules[row.rule].enabled { return; }
      if now - row.lastEventAt > freshness { return; }
      if row.status.Pending? {
        if now - row.pendingSince >= rules[row.rule].duration {
          FireRow(a, rules[row.rule], now, |past|);
          fired := true;
        }
      } else {
        escalated := MaybeEscalate(a, rules[row.rule], now, |past|);
      }
    }

    method SweepActiveAlerts(now: int, freshness: int) returns (fired: nat, escalated: nat)
      modifies this`alerts, this`log, this`next
      ensures Value() == Next(rules, old(Value()), Sweep(now, freshness))
      ensures Tally(log, true) == Tally(old(log), true) + fired
      ensures Tally(log, false) == Tally(old(log), false) + escalated
    {
      fired, escalated := 0, 0;
      var ids := SweepList(alerts, next);
      var i := 0;
      while i < |ids|
        invariant 0 <= i <= |ids|
        invariant Tally(log, true) == Tally(old(log), true) + fired
        invariant Tally(log, false) == Tally(old(log), false) + escalated
        invariant past == old(past) && alerts.Keys == old(alerts).Keys
        invariant Value() == SweepFirst(old(Value()), rules, ids[..i], now, freshness)
      {
        SweepFirstStep(old(Value()), rules, ids, i, now, freshness);
        var f, e := SweepAlert(ids[i], now, freshness);
        if f { fired := fired + 1; }
        if e { escalated := escalated + 1; }
        i := i + 1;
      }
      assert ids[..i] == ids;
    }

    method AcknowledgeAlert(a: nat, now: int) returns (r: Result<(), Error>)
      modifies this`alerts, this`log, this`next
      ensures Value() == Next(rules, old(Value()), Ack(a, now))
      ensures r.Ok? <==> CanAck(old(Value()), a)
    {
      if a !in alerts { return Err(NotFound); }
      if !alerts[a].status.Firing? { return Err(BadRequest); }
      Write(a, alerts[a].(status := Acknowledged), Acknowledge, now, |past|);
      r := Ok(());
    }

    method ResolveAlert(a: nat, now: int) returns (r: Result<(), Error>)
      modifies this`alerts, this`log, this`next
      ensures Value() == Next(rules, old(Value()), Close(a, now))
      ensures r.Ok? <==> CanClose(old(Value()), a)
    {
      if a !in alerts { return Err(NotFound); }
      if alerts[a].status.Resolved? { return Err(BadRequest); }
      Write(a, alerts[a].(status := Resolved, resolvedAt := Some(now)), Resolve, now, |past|);
      r := Ok(());
    }
  }
}
