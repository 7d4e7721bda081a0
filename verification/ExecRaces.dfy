/**
 * Races on one exec task row: when an update lands, and what holds of the host
 * rows at the moment a finishing update lands.
 */
module ExecRaces {
  import opened Wrappers
  import opened ExecCas

  // ------------------------------------------------------------ lost updates

  predicate Touches(e: Event, c: nat) {
    (e.Read? || e.ReadStats? || e.Cas?) && e.c == c
  }

  ghost predicate Others(es: seq<Event>, c: nat) {
    forall i :: 0 <= i < |es| ==> !Touches(es[i], c)
  }

  lemma {:induction false} SnapshotUntouched(s: State, es: seq<Event>, c: nat)
    requires Others(es, c)
    ensures (c in s.seen <==> c in Run(s, es).seen) && (c in s.seen ==> Run(s, es).seen[c] == s.seen[c])
    ensures (c in s.stats <==> c in Run(s, es).stats) && (c in s.stats ==> Run(s, es).stats[c] == s.stats[c])
    decreases |es|
  {
    if es != [] {
      SnapshotUntouched(s, es[..|es| - 1], c);
      assert !Touches(es[|es| - 1], c);
    }
  }

  lemma RowFixed(s: State, es: seq<Event>)
    requires Inv(s)
    ensures Run(s, es).row == s.row <==> Run(s, es).log == s.log
    ensures Run(s, es).log == s.log <==> Run(s, es).row.version == s.row.version
  {
    RunKeepsInv(s, es);
    assert s.log <= Run(s, es).log;
  }

  /**
   * A client reads the row, everyone else does whatever they like, the client
   * then tries its update.  The update lands exactly when its own guards pass
   * and NO transition landed in between.  A cancel, a timeout, or a cancel
   * followed by a retry back to the same status all defeat it.
   */
  lemma CasLandsIffUndisturbed(s: State, es: seq<Event>, c: nat, role: Role, to: Status)
    requires Inv(s) && Others(es, c) && c in s.seen && s.seen[c] == s.row
    ensures var end := Run(s, es);
            Next(end, Cas(c, role, to)).log != end.log <==>
              && end.log == s.log
              && Attempts(role, s.row.status, to)
              && Expected(role, s.row.status) == s.row.status
              && Aggregated(s, c, role, to)
  {
    SnapshotUntouched(s, es, c);
    RowFixed(s, es);
    RunKeepsInv(s, es);
  }

  /**
   * Status alone would not do: after a cancel and a retry the row shows the very
   * status the client read, yet no update of that client can land any more.
   */
  lemma CancelAndRetryDefeatOldClients(s: State, c: nat, a: nat, b: nat)
    requires Inv(s) && s.row.status.Running? && c in s.seen && s.seen[c] == s.row && c != a && c != b
    ensures var end := Run(s, [Read(a), Cas(a, Canceller, Canceled), Read(b), Cas(b, Retrier, Running)]);
            && end.row.status == s.row.status
            && |end.log| == |s.log| + 2
            && forall role, to :: !Lands(end, c, role, to)
  {
    Unfold4(s, Read(a), Cas(a, Canceller, Canceled), Read(b), Cas(b, Retrier, Running));
  }

  lemma Unfold2(s: State, es: seq<Event>, a: Event, b: Event)
    ensures Run(s, es + [a, b]) == Next(Next(Run(s, es), a), b)
  {
    var all := es + [a, b];
    assert all[..|all| - 1] == es + [a];
    assert (es + [a])[..|es|] == es;
  }

  lemma Unfold4(s: State, a: Event, b: Event, c: Event, d: Event)
    ensures Run(s, [a, b, c, d]) == Next(Next(Next(Next(s, a), b), c), d)
  {
    Unfold2(s, [], a, b);
    assert [] + [a, b] == [a, b];
    Unfold2(s, [a, b], c, d);
    assert [a, b] + [c, d] == [a, b, c, d];
  }

  /**
   * One attempt ends once: between two transitions out of `running` there is a
   * transition into it, so a dispatcher never overwrites a cancel or a timeout.
   */
  lemma {:induction false} OneEndPerAttempt(log: seq<Change>, i: nat, j: nat) returns (k: nat)
    requires Chained(log) && i < j < |log|
    requires log[i].from.Running? && log[j].from.Running?
    ensures i < k < j && log[k].to.Running? && (log[k].role.Retrier? || log[k].role.Approver?)
    decreases j
  {
    k := j - 1;
    assert Linked(log, i) && Linked(log, j) && Linked(log, k);
    if k > 0 { assert Linked(log, k - 1); }
  }

  // ------------------------------------------------------------ hosts at the end

  /**
   * The last of the host's stale starts and terminal results among the events is
   * a stale start: a dispatcher wrote `running` from an old read, and no result
   * came after it.
   */
  predicate LeftRunning(es: seq<Event>, i: nat)
    decreases |es|
  {
    es != [] &&
    var e := es[|es| - 1];
    if e.StaleStart? && e.i == i then true
    else if e.HostResult? && e.i == i && !Active(e.result) then false
    else LeftRunning(es[..|es| - 1], i)
  }

  /** Host i is done, or was left running by a stale start. */
  ghost predicate HostTraced(es: seq<Event>, hosts: seq<HostStatus>, i: nat)
    requires i < |hosts|
  {
    !hosts[i].HPending? && (hosts[i].HRunning? <==> LeftRunning(es, i))
  }

  ghost predicate HostsTraced(n: nat, es: seq<Event>, hosts: seq<HostStatus>) {
    |hosts| == n && forall i {:trigger HostTraced(es, hosts, i)} :: 0 <= i < n ==> HostTraced(es, hosts, i)
  }

  lemma HostTurn(s: State, init: seq<Event>, e: Event)
    requires HostsTraced(|s.hosts|, init, s.hosts) && Next(s, e).log == s.log
    ensures HostsTraced(|s.hosts|, init + [e], Next(s, e).hosts)
  {
    var es := init + [e];
    assert es[..|es| - 1] == init;
    assert Next(s, e).hosts == s.hosts || e.HostStart? || e.StaleStart? || e.HostResult?;
    forall i | 0 <= i < |s.hosts| ensures HostTraced(es, Next(s, e).hosts, i) {
      assert HostTraced(init, s.hosts, i);
    }
  }

  /**
   * As long as no transition lands, finished hosts are re-opened by stale starts
   * alone: `HostStart` finds no pending host, because only a retry makes one.
   */
  lemma {:induction false} HostsBetween(s: State, es: seq<Event>)
    requires Inv(s) && NoneActive(s.hosts) && Run(s, es).log == s.log
    ensures HostsTraced(|s.hosts|, es, Run(s, es).hosts)
    decreases |es|
  {
    if es == [] {
      forall i | 0 <= i < |s.hosts| ensures HostTraced(es, s.hosts, i) { assert !Active(s.hosts[i]); }
    } else {
      var init, e := es[..|es| - 1], es[|es| - 1];
      RunKeepsInv(s, init);
      StepKeepsInv(Run(s, init), e);
      assert Run(s, init).log == s.log;
      HostsBetween(s, init);
      HostTurn(Run(s, init), init, e);
      assert init + [e] == es;
    }
  }

  lemma AggregatedMeansDone(s: State, c: nat, role: Role, to: Status)
    requires (role.Dispatcher? || role.Agent?) && Aggregated(s, c, role, to)
    ensures c in s.stats && NoneActive(s.stats[c])
  {
    AggregateMeaning(s.stats[c]);
    if s.stats[c] != [] { AggregatorsAgree(s.stats[c]); }
  }

  lemma FinishKeepsHosts(s: State, c: nat, role: Role, to: Status)
    requires role.Dispatcher? || role.Agent?
    ensures Next(s, Cas(c, role, to)).hosts == s.hosts
  {
  }

  /** An update that lands was read after the last transition. */
  lemma LandedUndisturbed(s: State, es: seq<Event>, c: nat, role: Role, to: Status)
    requires Inv(s) && Others(es, c) && Lands(Run(s, es), c, role, to)
    ensures Run(s, es).log == s.log
  {
    SnapshotUntouched(s, es, c);
    RunKeepsInv(s, es);
    assert SnapshotOk(s, c);
    RowFixed(s, es);
  }

  /**
   * The counts are read before the update, and host rows may move in between.
   * When a finishing update lands, no host is pending or running at that moment
   * if and only if no host was left running by a stale start since the counts
   * were read.  Nothing else can re-open a host: only a retry makes one pending,
   * and a retry moves the version.
   */
  lemma FinishedTasksHaveNoActiveHost(s: State, es: seq<Event>, c: nat, role: Role, to: Status)
    requires Inv(s) && Others(es, c) && (role.Dispatcher? || role.Agent?)
    requires Lands(Run(Next(s, ReadStats(c)), es), c, role, to)
    ensures var end := Run(Next(s, ReadStats(c)), es);
            && |end.hosts| == |s.hosts|
            && Next(end, Cas(c, role, to)).hosts == end.hosts
            && (NoneActive(end.hosts) <==> forall i :: 0 <= i < |s.hosts| ==> !LeftRunning(es, i))
            && forall i :: 0 <= i < |s.hosts| ==> (Active(end.hosts[i]) <==> LeftRunning(es, i))
  {
    var mid := Next(s, ReadStats(c));
    var end := Run(mid, es);
    StepKeepsInv(s, ReadStats(c));
    LandedUndisturbed(mid, es, c, role, to);
    CountedHostsDone(mid, es, c, role, to);
    HostsBetween(mid, es);
    FinishKeepsHosts(end, c, role, to);
    TracedMeans(|s.hosts|, es, end.hosts);
  }

  lemma CountedHostsDone(mid: State, es: seq<Event>, c: nat, role: Role, to: Status)
    requires c in mid.stats && mid.stats[c] == mid.hosts && Others(es, c)
    requires (role.Dispatcher? || role.Agent?) && Aggregated(Run(mid, es), c, role, to)
    ensures NoneActive(mid.hosts)
  {
    SnapshotUntouched(mid, es, c);
    AggregatedMeansDone(Run(mid, es), c, role, to);
  }

  lemma TracedMeans(n: nat, es: seq<Event>, hosts: seq<HostStatus>)
    requires HostsTraced(n, es, hosts)
    ensures forall i :: 0 <= i < n ==> (Active(hosts[i]) <==> LeftRunning(es, i))
    ensures NoneActive(hosts) <==> forall i :: 0 <= i < n ==> !LeftRunning(es, i)
  {
    forall i | 0 <= i < n ensures Active(hosts[i]) <==> LeftRunning(es, i) {
      assert HostTraced(es, hosts, i);
    }
    if j :| 0 <= j < n && LeftRunning(es, j) { assert Active(hosts[j]); }
  }

  // ------------------------------------------------------------ the stale start, from the beginning

  lemma {:induction false} RunConcat(s: State, a: seq<Event>, b: seq<Event>)
    ensures Run(s, a + b) == Run(Run(s, a), b)
    decreases |b|
  {
    if b == [] {
      assert a + b == a;
    } else {
      var init := b[..|b| - 1];
      RunConcat(s, a, init);
      assert (a + b)[..|a + b| - 1] == a + init;
    }
  }

  /** A task is created and dispatched by client 2, which then starts its one host. */
  function Opening(): seq<Event> {
    [Read(1), Cas(1, Creator, Running), Read(2), HostStart(0)]
  }

  /** The host succeeds and is counted; another dispatcher starts it from an old read. */
  function Overtaken(): seq<Event> {
    [HostResult(0, HSuccess), ReadStats(2), StaleStart(0), Cas(2, Dispatcher, Success)]
  }

  function Dispatched(): State {
    State(Row(Running, 1), [HRunning], map[1 := Row(Running, 1), 2 := Row(Running, 1)], map[],
          [Change(1, Creator, Created, Running, 0)])
  }

  lemma OpeningRuns()
    ensures Run(Init([HPending]), Opening()) == Dispatched()
  {
    Unfold4(Init([HPending]), Read(1), Cas(1, Creator, Running), Read(2), HostStart(0));
    assert seq(1, i requires 0 <= i < 1 => HostAfter(Creator, Running, [HPending][i])) == [HPending];
  }

  /** The state after the stale start: the counts still say that the one host succeeded. */
  function Stale(): State {
    Dispatched().(stats := map[2 := [HSuccess]])
  }

  lemma StaleReached()
    ensures Next(Next(Next(Dispatched(), HostResult(0, HSuccess)), ReadStats(2)), StaleStart(0)) == Stale()
  {
    var s := Dispatched();
    var done := s.(hosts := [HSuccess]);
    assert Next(s, HostResult(0, HSuccess)) == done;
    assert Next(done, ReadStats(2)) == done.(stats := map[2 := [HSuccess]]);
  }

  lemma StaleLands()
    ensures var end := Next(Stale(), Cas(2, Dispatcher, Success));
            end.row == Row(Success, 2) && end.hosts == [HRunning]
  {
    AggregateMeaning([HSuccess]);
    assert Lands(Stale(), 2, Dispatcher, Success);
    FinishKeepsHosts(Stale(), 2, Dispatcher, Success);
  }

  lemma OvertakenRuns()
    ensures var end := Run(Dispatched(), Overtaken());
            end.row == Row(Success, 2) && end.hosts == [HRunning]
  {
    Unfold4(Dispatched(), HostResult(0, HSuccess), ReadStats(2), StaleStart(0), Cas(2, Dispatcher, Success));
    StaleReached();
    StaleLands();
  }

  /** A run from the creation of a task to `success` with a host that is still running. */
  lemma StaleStartSlipsThrough()
    ensures var end := Run(Init([HPending]), Opening() + Overtaken());
            end.row.status == Success && end.hosts == [HRunning]
  {
    OpeningRuns();
    OvertakenRuns();
    RunConcat(Init([HPending]), Opening(), Overtaken());
  }

  // ------------------------------------------------------------ why hosts ended as they did

  ghost predicate Reported(es: seq<Event>, i: nat, h: HostStatus) {
    exists k :: 0 <= k < |es| && es[k].HostResult? && es[k].i == i && es[k].result == h
  }

  ghost predicate Landed(log: seq<Change>, role: Role) {
    exists k :: 0 <= k < |log| && log[k].role == role
  }

  ghost predicate Started(es: seq<Event>, i: nat) {
    exists k :: 0 <= k < |es| && (es[k].HostStart? || es[k].StaleStart?) && es[k].i == i
  }

  /** Success and failure are reported; a cancel or a timeout may also have come with the task's. */
  ghost predicate HostCaused(es: seq<Event>, log: seq<Change>, i: nat, h: HostStatus) {
    match h
    case HPending => true
    case HRunning => Started(es, i)
    case HSuccess => Reported(es, i, h)
    case HFailed => Reported(es, i, h)
    case HCanceled => Reported(es, i, h) || Landed(log, Canceller)
    case HTimedOut => Reported(es, i, h) || Landed(log, Sweeper)
  }

  ghost predicate AllCaused(es: seq<Event>, log: seq<Change>, n: nat, hosts: seq<HostStatus>) {
    |hosts| == n && forall i {:trigger HostCaused(es, log, i, hosts[i])} :: 0 <= i < n ==> HostCaused(es, log, i, hosts[i])
  }

  lemma CausesStay(es: seq<Event>, e: Event, log: seq<Change>, log': seq<Change>, n: nat, hosts: seq<HostStatus>)
    requires AllCaused(es, log, n, hosts) && log <= log'
    ensures AllCaused(es + [e], log', n, hosts)
  {
    var more := es + [e];
    assert forall k :: 0 <= k < |es| ==> more[k] == es[k];
    forall i | 0 <= i < n ensures HostCaused(more, log', i, hosts[i]) {
      assert HostCaused(es, log, i, hosts[i]);
      if Reported(es, i, hosts[i]) {
        var k :| 0 <= k < |es| && es[k].HostResult? && es[k].i == i && es[k].result == hosts[i];
        assert more[k] == es[k];
      }
      if Started(es, i) {
        var k :| 0 <= k < |es| && (es[k].HostStart? || es[k].StaleStart?) && es[k].i == i;
        assert more[k] == es[k];
      }
      forall role | Landed(log, role) ensures Landed(log', role) {
        var k :| 0 <= k < |log| && log[k].role == role;
        assert log'[k] == log[k];
      }
    }
  }

  lemma LastCounts(es: seq<Event>, e: Event)
    ensures e.HostResult? ==> Reported(es + [e], e.i, e.result)
    ensures e.HostStart? || e.StaleStart? ==> Started(es + [e], e.i)
  {
    assert (es + [e])[|es|] == e;
  }

  lemma HostsNext(s: State, es: seq<Event>, e: Event, n: nat)
    requires AllCaused(es, s.log, n, s.hosts)
    ensures AllCaused(es + [e], Next(s, e).log, n, Next(s, e).hosts)
  {
    var t := Next(s, e);
    CausesStay(es, e, s.log, t.log, n, s.hosts);
    LastCounts(es, e);
    if e.Cas? && Lands(s, e.c, e.role, e.to) {
      assert t.log[|s.log|].role == e.role;
      forall i | 0 <= i < n ensures HostCaused(es + [e], t.log, i, t.hosts[i]) {
        assert HostCaused(es + [e], t.log, i, s.hosts[i]);
      }
    } else {
      forall i | 0 <= i < n ensures HostCaused(es + [e], t.log, i, t.hosts[i]) {
        assert HostCaused(es + [e], t.log, i, s.hosts[i]);
      }
    }
  }

  ghost predicate CountsCaused(es: seq<Event>, s: State, n: nat) {
    forall c {:trigger s.stats[c]} :: c in s.stats ==> AllCaused(es, s.log, n, s.stats[c])
  }

  lemma CountsNext(s: State, es: seq<Event>, e: Event, n: nat)
    requires AllCaused(es, s.log, n, s.hosts) && CountsCaused(es, s, n)
    ensures CountsCaused(es + [e], Next(s, e), n)
  {
    var t := Next(s, e);
    forall c | c in t.stats ensures AllCaused(es + [e], t.log, n, t.stats[c]) {
      CausesStay(es, e, s.log, t.log, n, if c in s.stats && t.stats[c] == s.stats[c] then s.stats[c] else s.hosts);
    }
  }

  /** Over every interleaving a host that runs was started, one that succeeded or failed has
      reported it, and one that was canceled or timed out has reported it or went with its task. */
  lemma {:induction false} HostsHaveCauses(hosts: seq<HostStatus>, es: seq<Event>)
    requires forall i :: 0 <= i < |hosts| ==> hosts[i].HPending?
    ensures var s := Run(Init(hosts), es);
            AllCaused(es, s.log, |hosts|, s.hosts) && CountsCaused(es, s, |hosts|)
    decreases |es|
  {
    if es != [] {
      var init, e := es[..|es| - 1], es[|es| - 1];
      assert es == init + [e];
      HostsHaveCauses(hosts, init);
      HostsNext(Run(Init(hosts), init), init, e, |hosts|);
      CountsNext(Run(Init(hosts), init), init, e, |hosts|);
    }
  }

  ghost predicate AllReported(es: seq<Event>, n: nat) {
    n > 0 && forall i {:trigger Reported(es, i, HSuccess)} :: 0 <= i < n ==> Reported(es, i, HSuccess)
  }

  ghost predicate SomeReported(es: seq<Event>, n: nat) {
    exists i {:trigger Reported(es, i, HSuccess)} :: 0 <= i < n && Reported(es, i, HSuccess)
  }

  lemma ReportedGrows(es: seq<Event>, e: Event)
    ensures forall i, h :: Reported(es, i, h) ==> Reported(es + [e], i, h)
  {
    var more := es + [e];
    forall i, h | Reported(es, i, h) ensures Reported(more, i, h) {
      var k :| 0 <= k < |es| && es[k].HostResult? && es[k].i == i && es[k].result == h;
      assert more[k] == es[k];
    }
  }

  /** A finishing update writes what the counted hosts had reported. */
  lemma LandedReport(s: State, es: seq<Event>, n: nat, c: nat, role: Role, to: Status)
    requires Lands(s, c, role, to) && CountsCaused(es, s, n)
    ensures to.Success? ==> AllReported(es, n)
    ensures to.Partial? ==> SomeReported(es, n)
  {
    if to.Success? || to.Partial? {
      var counted := s.stats[c];
      AggregateMeaning(counted);
      AggregatorsAgree(counted);
      assert AllCaused(es, s.log, n, counted);
      forall i | 0 <= i < n && counted[i].HSuccess? ensures Reported(es, i, HSuccess) {
        assert HostCaused(es, s.log, i, counted[i]);
      }
      if to.Success? { assert forall i :: 0 <= i < n ==> counted[i].HSuccess?; }
    }
  }

  /** Over every interleaving: a task that has succeeded has hosts, and each of them has reported
      its success; one that has partly succeeded has a host that has. */
  lemma {:induction false} SuccessMeansReported(hosts: seq<HostStatus>, es: seq<Event>)
    requires forall i :: 0 <= i < |hosts| ==> hosts[i].HPending?
    ensures Run(Init(hosts), es).row.status.Success? ==> AllReported(es, |hosts|)
    ensures Run(Init(hosts), es).row.status.Partial? ==> SomeReported(es, |hosts|)
    decreases |es|
  {
    if es != [] {
      var init, e := es[..|es| - 1], es[|es| - 1];
      assert es == init + [e];
      var s := Run(Init(hosts), init);
      SuccessMeansReported(hosts, init);
      ReportedGrows(init, e);
      if e.Cas? && Lands(s, e.c, e.role, e.to) {
        HostsHaveCauses(hosts, init);
        LandedReport(s, init, |hosts|, e.c, e.role, e.to);
      }
    }
  }

  /** A landed cancel or timeout ends exactly the active hosts, a landed restart resets exactly the
      unsuccessful ones, and every other transition leaves the hosts alone. */
  lemma LandingMovesHosts(s: State, c: nat, role: Role, to: Status, i: nat)
    requires Lands(s, c, role, to) && i < |s.hosts|
    ensures var t := Next(s, Cas(c, role, to));
            && |t.hosts| == |s.hosts|
            && (role.Canceller? || role.Sweeper? ==>
                  NoneActive(t.hosts) && (t.hosts[i] != s.hosts[i] <==> s.hosts[i].HPending? || s.hosts[i].HRunning?))
            && (role.Retrier? && to.Running? ==>
                  (t.hosts[i] == s.hosts[i] || t.hosts[i].HPending?) &&
                  !t.hosts[i].HFailed? && !t.hosts[i].HTimedOut? && !t.hosts[i].HCanceled? &&
                  (s.hosts[i].HSuccess? || s.hosts[i].HRunning? ==> t.hosts[i] == s.hosts[i]))
            && (!role.Canceller? && !role.Sweeper? && !(role.Retrier? && to.Running?) ==> t.hosts == s.hosts)
  {
    var t := Next(s, Cas(c, role, to));
    assert forall j :: 0 <= j < |s.hosts| ==> t.hosts[j] == HostAfter(role, to, s.hosts[j]);
    if !role.Canceller? && !role.Sweeper? && !(role.Retrier? && to.Running?) { assert t.hosts == s.hosts; }
  }
}
