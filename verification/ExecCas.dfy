/**
 * The compare-and-set protocol of one exec task row.
 *
 * Creators, approvers, cancellers, the dispatcher, the agent loop, the timeout
 * sweep and retries read the row at one moment and update it at a later one, in
 * any interleaving.  The update only lands when status and version are still
 * the ones the client expects.
 */
module ExecCas {
  import opened Wrappers

  datatype Status =
    | Created | AwaitingApproval | Approved | Running | Pending
    | Success | Partial | Failed | TimedOut | Canceled

  datatype HostStatus = HPending | HRunning | HSuccess | HFailed | HTimedOut | HCanceled

  datatype Row = Row(status: Status, version: nat)

  predicate Cancellable(s: Status) {
    s.Created? || s.AwaitingApproval? || s.Approved? || s.Running? || s.Pending?
  }

  predicate Retryable(s: Status) { s.Failed? || s.TimedOut? || s.Canceled? }

  predicate Active(h: HostStatus) { h.HPending? || h.HRunning? }

  predicate NoneActive(hosts: seq<HostStatus>) {
    forall i :: 0 <= i < |hosts| ==> !Active(hosts[i])
  }

  // ------------------------------------------------------------ aggregation

  function Count(hosts: seq<HostStatus>, h: HostStatus): nat {
    if hosts == [] then 0
    else (if hosts[|hosts| - 1] == h then 1 else 0) + Count(hosts[..|hosts| - 1], h)
  }

  /** The grouped host counts: only statuses that occur have an entry. */
  function Stats(hosts: seq<HostStatus>): map<HostStatus, nat> {
    map h | h in hosts :: Count(hosts, h)
  }

  function Get(stats: map<HostStatus, nat>, h: HostStatus): nat {
    if h in stats then stats[h] else 0
  }

  function Total(stats: map<HostStatus, nat>): nat {
    Get(stats, HPending) + Get(stats, HRunning) + Get(stats, HSuccess) +
    Get(stats, HFailed) + Get(stats, HTimedOut) + Get(stats, HCanceled)
  }

  function Outcome(stats: map<HostStatus, nat>): Status {
    var success, failed, timed := Get(stats, HSuccess), Get(stats, HFailed), Get(stats, HTimedOut);
    if failed == 0 && timed == 0 && Total(stats) > 0 && success == Total(stats) then Success
    else if failed == 0 && timed == 0 && success > 0 then Partial
    else Failed
  }

  /** The dispatcher's aggregate: `None` while a host is still executing. */
  function DispatchAggregate(hosts: seq<HostStatus>): Option<Status> {
    var stats := Stats(hosts);
    if Get(stats, HRunning) + Get(stats, HPending) > 0 then None else Some(Outcome(stats))
  }

  /** The agent loop's aggregate: also `None` for a task without host rows. */
  function AgentAggregate(hosts: seq<HostStatus>): Option<Status> {
    var stats := Stats(hosts);
    if stats == map[] then None
    else if Get(stats, HRunning) + Get(stats, HPending) > 0 then None
    else Some(Outcome(stats))
  }

  lemma {:induction false} CountZero(hosts: seq<HostStatus>, h: HostStatus)
    ensures Count(hosts, h) == 0 <==> h !in hosts
    ensures Get(Stats(hosts), h) == Count(hosts, h)
  {
    if hosts != [] {
      var last := |hosts| - 1;
      CountZero(hosts[..last], h);
      assert hosts == hosts[..last] + [hosts[last]];
    }
  }

  lemma {:induction false} CountsCover(hosts: seq<HostStatus>)
    ensures Count(hosts, HPending) + Count(hosts, HRunning) + Count(hosts, HSuccess) +
            Count(hosts, HFailed) + Count(hosts, HTimedOut) + Count(hosts, HCanceled) == |hosts|
  {
    if hosts != [] { CountsCover(hosts[..|hosts| - 1]); }
  }

  lemma {:induction false} CountFull(hosts: seq<HostStatus>, h: HostStatus)
    ensures Count(hosts, h) <= |hosts|
    ensures Count(hosts, h) == |hosts| <==> forall i :: 0 <= i < |hosts| ==> hosts[i] == h
  {
    if hosts != [] {
      var last := |hosts| - 1;
      CountFull(hosts[..last], h);
      assert forall i :: 0 <= i < last ==> hosts[..last][i] == hosts[i];
    }
  }

  lemma StatsFacts(hosts: seq<HostStatus>)
    ensures forall h :: Get(Stats(hosts), h) == Count(hosts, h)
    ensures forall h :: Count(hosts, h) == 0 <==> h !in hosts
    ensures Total(Stats(hosts)) == |hosts|
  {
    forall h ensures Get(Stats(hosts), h) == Count(hosts, h) && (Count(hosts, h) == 0 <==> h !in hosts) {
      CountZero(hosts, h);
    }
    CountsCover(hosts);
  }

  /** What the aggregate means, with no reference to counts. */
  lemma AggregateMeaning(hosts: seq<HostStatus>)
    ensures DispatchAggregate(hosts) == None <==> !NoneActive(hosts)
    ensures DispatchAggregate(hosts) == Some(Success) <==>
              hosts != [] && forall i :: 0 <= i < |hosts| ==> hosts[i].HSuccess?
    ensures DispatchAggregate(hosts) == Some(Partial) <==>
              HSuccess in hosts && HCanceled in hosts &&
              forall i :: 0 <= i < |hosts| ==> hosts[i].HSuccess? || hosts[i].HCanceled?
    ensures DispatchAggregate(hosts) == Some(Failed) <==>
              NoneActive(hosts) && (HFailed in hosts || HTimedOut in hosts || HSuccess !in hosts)
  {
    StatsFacts(hosts);
    CountFull(hosts, HSuccess);
    CountsCover(hosts);
    assert HPending !in hosts && HRunning !in hosts <==> NoneActive(hosts);
  }

  /** The two aggregators differ on exactly one input: the task with no host rows. */
  lemma AggregatorsAgree(hosts: seq<HostStatus>)
    ensures DispatchAggregate(hosts) == AgentAggregate(hosts) <==> hosts != []
  {
    if hosts != [] { assert hosts[0] in Stats(hosts); }
  }

  // ------------------------------------------------------------ interleavings

  datatype Role = Creator | Approver | Rejecter | Canceller | Dispatcher | Agent | Sweeper | Retrier

  /** One successful transition; `version` is the version it consumed. */
  datatype Change = Change(client: nat, role: Role, from: Status, to: Status, version: nat)

  datatype State = State(
    row: Row,
    hosts: seq<HostStatus>,
    seen: map<nat, Row>,
    stats: map<nat, seq<HostStatus>>,
    log: seq<Change>)

  datatype Event =
    | Read(c: nat)
    | ReadStats(c: nat)
    | Cas(c: nat, role: Role, to: Status)
    | HostStart(i: nat)
    | StaleStart(i: nat)
    | HostResult(i: nat, result: HostStatus)

  /** A client's own check on the status it read, before it tries the update. */
  predicate Attempts(role: Role, seen: Status, to: Status) {
    match role
    case Creator => to.AwaitingApproval? || to.Running?
    case Approver => to.Running?
    case Rejecter => seen.AwaitingApproval? && to.Canceled?
    case Canceller => Cancellable(seen) && to.Canceled?
    case Dispatcher => seen.Running? && (to.Success? || to.Partial? || to.Failed?)
    case Agent => (seen.Running? || seen.Pending?) && (to.Success? || to.Partial? || to.Failed?)
    case Sweeper => seen.Running? && to.TimedOut?
    case Retrier => Retryable(seen) && (to.AwaitingApproval? || to.Running?)
  }

  /** The from-status of the update: two roles name it outright, the others pass what they read. */
  function Expected(role: Role, seen: Status): Status {
    if role.Creator? then Created else if role.Approver? then AwaitingApproval else seen
  }

  /** The finishing roles write the aggregate of the counts they read. */
  predicate Aggregated(s: State, c: nat, role: Role, to: Status) {
    match role
    case Dispatcher => c in s.stats && DispatchAggregate(s.stats[c]) == Some(to)
    case Agent => c in s.stats && AgentAggregate(s.stats[c]) == Some(to)
    case _ => true
  }

  predicate Lands(s: State, c: nat, role: Role, to: Status) {
    c in s.seen && Attempts(role, s.seen[c].status, to) && Aggregated(s, c, role, to) &&
    s.row == Row(Expected(role, s.seen[c].status), s.seen[c].version)
  }

  /** What a successful transition does to the host rows in the same transaction. */
  function HostAfter(role: Role, to: Status, h: HostStatus): HostStatus {
    if role.Canceller? && Active(h) then HCanceled
    else if role.Sweeper? && Active(h) then HTimedOut
    else if role.Retrier? && to.Running? && (h.HFailed? || h.HTimedOut? || h.HCanceled?) then HPending
    else h
  }

  function Next(s: State, e: Event): State {
    match e
    case Read(c) => s.(seen := s.seen[c := s.row], stats := s.stats - {c})
    case ReadStats(c) => s.(stats := s.stats[c := s.hosts])
    case Cas(c, role, to) =>
      if Lands(s, c, role, to) then
        var row := Row(to, s.row.version + 1);
        State(row,
              seq(|s.hosts|, i requires 0 <= i < |s.hosts| => HostAfter(role, to, s.hosts[i])),
              s.seen[c := row], s.stats - {c},
              s.log + [Change(c, role, s.row.status, to, s.row.version)])
      else s
    case HostStart(i) =>
      if i < |s.hosts| && s.hosts[i].HPending? then s.(hosts := s.hosts[i := HRunning]) else s
    case StaleStart(i) =>
      if i < |s.hosts| then s.(hosts := s.hosts[i := HRunning]) else s
    case HostResult(i, result) =>
      if i < |s.hosts| && !Active(result) then s.(hosts := s.hosts[i := result]) else s
  }

  function Run(s: State, es: seq<Event>): State
    decreases |es|
  {
    if es == [] then s else Next(Run(s, es[..|es| - 1]), es[|es| - 1])
  }

  function Init(hosts: seq<HostStatus>): State {
    State(Row(Created, 0), hosts, map[], map[], [])
  }

  function StatusAt(log: seq<Change>, v: nat): Status
    requires v <= |log|
  {
    if v == 0 then Created else log[v - 1].to
  }

  /** Entry i consumed version i, and starts where entry i - 1 ended. */
  predicate Linked(log: seq<Change>, i: nat)
    requires i < |log|
  {
    log[i].version == i && log[i].from == StatusAt(log, i) &&
    Expected(log[i].role, log[i].from) == log[i].from &&
    Attempts(log[i].role, log[i].from, log[i].to)
  }

  ghost predicate Chained(log: seq<Change>) {
    forall i {:trigger Linked(log, i)} :: 0 <= i < |log| ==> Linked(log, i)
  }

  ghost predicate SnapshotOk(s: State, c: nat)
    requires c in s.seen
  {
    s.seen[c].version <= |s.log| && s.seen[c].status == StatusAt(s.log, s.seen[c].version)
  }

  ghost predicate Inv(s: State) {
    Chained(s.log) &&
    s.row == Row(StatusAt(s.log, |s.log|), |s.log|) &&
    forall c :: c in s.seen ==> SnapshotOk(s, c)
  }

  lemma ChainGrows(log: seq<Change>, ch: Change)
    requires Chained(log) && ch.version == |log| && ch.from == StatusAt(log, |log|)
    requires Attempts(ch.role, ch.from, ch.to) && Expected(ch.role, ch.from) == ch.from
    ensures Chained(log + [ch])
    ensures forall v :: 0 <= v <= |log| ==> StatusAt(log + [ch], v) == StatusAt(log, v)
  {
    var more := log + [ch];
    forall i | 0 <= i < |more| ensures Linked(more, i) {
      if i < |log| { assert Linked(log, i); }
    }
  }

  lemma StepKeepsInv(s: State, e: Event)
    requires Inv(s)
    ensures Inv(Next(s, e))
    ensures s.log <= Next(s, e).log
  {
    if e.Cas? && Lands(s, e.c, e.role, e.to) {
      var ch := Change(e.c, e.role, s.row.status, e.to, s.row.version);
      assert SnapshotOk(s, e.c);
      ChainGrows(s.log, ch);
      forall c | c in Next(s, e).seen ensures SnapshotOk(Next(s, e), c) {
        if c != e.c { assert SnapshotOk(s, c); }
      }
    } else {
      forall c | c in Next(s, e).seen ensures SnapshotOk(Next(s, e), c) {
        if c in s.seen { assert SnapshotOk(s, c); }
      }
    }
  }

  lemma {:induction false} RunKeepsInv(s: State, es: seq<Event>)
    requires Inv(s)
    ensures Inv(Run(s, es))
    ensures s.log <= Run(s, es).log
    decreases |es|
  {
    if es != [] {
      RunKeepsInv(s, es[..|es| - 1]);
      StepKeepsInv(Run(s, es[..|es| - 1]), es[|es| - 1]);
    }
  }

  /**
   * Every interleaving: each version is consumed by exactly one transition, in
   * order; the transitions form one chain of legal moves from `created` to the
   * current status; `approved` and `pending`, which some guards mention, never occur.
   */
  lemma EachVersionConsumedOnce(hosts: seq<HostStatus>, es: seq<Event>)
    ensures var s := Run(Init(hosts), es);
            Chained(s.log) && s.row == Row(StatusAt(s.log, |s.log|), |s.log|)
    ensures var s := Run(Init(hosts), es);
            forall i, j :: 0 <= i < |s.log| && 0 <= j < |s.log| && s.log[i].version == s.log[j].version ==> i == j
    ensures !Run(Init(hosts), es).row.status.Approved? && !Run(Init(hosts), es).row.status.Pending?
  {
    RunKeepsInv(Init(hosts), es);
    var s := Run(Init(hosts), es);
    forall i, j | 0 <= i < |s.log| && 0 <= j < |s.log| && s.log[i].version == s.log[j].version
      ensures i == j
    {
      assert Linked(s.log, i) && Linked(s.log, j);
    }
    if |s.log| > 0 { assert Linked(s.log, |s.log| - 1); }
  }

  predicate Restartable(s: Status) { s == Failed || s == TimedOut || s == Canceled }

  /** The moves of a task's life, each with the one who may make it. */
  predicate Legal(role: Role, from: Status, to: Status) {
    match to
    case Running =>
      (from == Created && role.Creator?) || (from == AwaitingApproval && role.Approver?) || (Restartable(from) && role.Retrier?)
    case AwaitingApproval => (from == Created && role.Creator?) || (Restartable(from) && role.Retrier?)
    case Canceled =>
      (from == AwaitingApproval && role.Rejecter?) ||
      ((from == Created || from == AwaitingApproval || from == Running) && role.Canceller?)
    case TimedOut => from == Running && role.Sweeper?
    case Success => from == Running && (role.Dispatcher? || role.Agent?)
    case Partial => from == Running && (role.Dispatcher? || role.Agent?)
    case Failed => from == Running && (role.Dispatcher? || role.Agent?)
    case _ => false
  }

  /** From the statuses that occur, the clients' guards let through exactly these moves. */
  lemma GuardsAreExact(role: Role, from: Status, to: Status)
    requires !from.Approved? && !from.Pending?
    ensures Attempts(role, from, to) && Expected(role, from) == from <==> Legal(role, from, to)
  {
  }

  /** Every transition of every interleaving is one of these moves. */
  lemma MovesAreLegal(hosts: seq<HostStatus>, es: seq<Event>, i: nat)
    requires i < |Run(Init(hosts), es).log|
    ensures var ch := Run(Init(hosts), es).log[i]; Legal(ch.role, ch.from, ch.to)
  {
    RunKeepsInv(Init(hosts), es);
    var log := Run(Init(hosts), es).log;
    assert Linked(log, i);
    if i > 0 { assert Linked(log, i - 1); }
    GuardsAreExact(log[i].role, log[i].from, log[i].to);
  }

  /** `success` and `partial` are absorbing. */
  lemma {:induction false} FinishedForGood(s: State, es: seq<Event>)
    requires Inv(s) && (s.row.status.Success? || s.row.status.Partial?)
    ensures Run(s, es).row == s.row && Run(s, es).log == s.log
    decreases |es|
  {
    if es != [] {
      var before := Run(s, es[..|es| - 1]);
      FinishedForGood(s, es[..|es| - 1]);
      RunKeepsInv(s, es[..|es| - 1]);
      assert forall c, role, to :: !Lands(before, c, role, to) by {
        assert forall c :: c in before.seen ==> SnapshotOk(before, c);
      }
    }
  }

  // ------------------------------------------------------------ the row itself

  /** The row as the database holds it. */
  class TaskRow {
    var status: Status
    var version: nat

    constructor ()
      ensures Value() == Row(Created, 0)
    {
      status := Created;
      version := 0;
    }

    function Value(): Row
      reads this
    {
      Row(status, version)
    }

    method OptimisticUpdate(from: Status, to: Status, expected: nat) returns (hit: bool)
      modifies this
      ensures hit <==> old(Value()) == Row(from, expected)
      ensures Value() == if hit then Row(to, expected + 1) else old(Value())
    {
      hit := status == from && version == expected;
      if hit {
        status := to;
        version := expected + 1;
      }
    }
  }
}
