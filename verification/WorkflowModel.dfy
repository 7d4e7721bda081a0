/** Rows of a workflow run, the verdict on a pending node, and how one node row
    advances. Row values are immutable; `WorkflowEngine` updates the table of rows. */
module WorkflowModel {
  import opened Wrappers
  import opened Graph
  import opened WorkflowTypes

  const MAX_TIMEOUT: nat := 86400

  datatype NodeStatus = Pending | Running | Waiting | Succeeded | Failed | Skipped | Cancelled
  datatype RunStatus = RunPending | RunRunning | RunSucceeded | RunFailed | RunCancelled
  datatype Reason = TimedOutNode | EngineRestart | ExecTaskFailed | ApprovalRejected

  datatype Node = Node(kind: NodeType, status: NodeStatus, execTask: Option<int>, approval: Option<int>,
                       attempt: nat, startedAt: Option<int>, error: Option<Reason>)

  type Nodes = map<Key, Node>
  type Statuses = map<Key, NodeStatus>

  /** What the database holds for one run. */
  datatype RunState = RunState(status: RunStatus, nodes: Nodes, error: Option<Reason>)

  predicate Terminal(s: NodeStatus) {
    s == Succeeded || s == Failed || s == Skipped || s == Cancelled
  }

  predicate TerminalRun(s: RunStatus) {
    s == RunSucceeded || s == RunFailed || s == RunCancelled
  }

  // ------------------------------------------------------------ the environment

  datatype TaskStatus =
    TaskCreated | AwaitingApproval | TaskRunning | Success | Partial | TaskFailed | TaskTimedOut | Canceled

  datatype ApprovalStatus = ApprovalPending | Approved | Rejected | ApprovalCanceled

  /** How the creation of an exec task ends: an error is raised and nothing is created, the
      task is launched at once, it is gated behind an approval, or it is created and an error
      is raised before its link is committed. */
  datatype Creation = Refused | Launched(task: int) | Gated(task: int, approval: int) | Unlinked(task: int)

  /** Everything one node observes of the outside while it is being advanced. `raises`: its
      turn raises before any of this has an effect, be it a query that fails or a
      configuration the turn cannot use, such as a duration that is no number. */
  datatype Obs = Obs(now: int, task: Option<TaskStatus>, approval: Option<ApprovalStatus>,
                     creation: Creation, newApproval: int, raises: bool)

  /** One engine tick: the order in which the rows come back from the query, the
      time of activation, the observations of the second and third loop, and whether the
      end of the step, with its commit, fails. */
  datatype Tick = Tick(order: seq<Key>, now: int, early: Key -> Obs, late: Key -> Obs, fails: bool)

  // ------------------------------------------------------------ definition access

  function Deps(def: Definition, k: Key): seq<Key> {
    if k in def.nodes then def.nodes[k].dependsOn else []
  }

  function Config(def: Definition, k: Key): NodeConfig {
    if k in def.nodes then def.nodes[k].config else NodeConfig(Absent, NoUntil, 0)
  }

  /** The nodes that name `k` in `on_success`. */
  function SuccessSources(def: Definition, k: Key): set<Key> {
    set s | s in def.nodes && k in def.nodes[s].onSuccess
  }

  /** The nodes that name `k` in `on_failure`. */
  function FailureSources(def: Definition, k: Key): set<Key> {
    set s | s in def.nodes && k in def.nodes[s].onFailure
  }

  function StatusesOf(nodes: Nodes): Statuses {
    map k | k in nodes :: nodes[k].status
  }

  predicate Is(st: Statuses, k: Key, s: NodeStatus) {
    k in st && st[k] == s
  }

  // ------------------------------------------------------------ verdict

  datatype Verdict = Ready | Skip | Wait

  /** The verdict on a pending node, from its dependencies and its route sources. */
  function Judge(deps: seq<Key>, failSrcs: set<Key>, succSrcs: set<Key>, st: Statuses): Verdict {
    if exists s :: s in failSrcs && Is(st, s, Failed) then Verdict.Ready
    else if exists s :: s in succSrcs && Is(st, s, Failed) then Verdict.Skip
    else if exists d :: d in deps && (Is(st, d, Failed) || Is(st, d, Skipped) || Is(st, d, Cancelled)) then Verdict.Skip
    else if exists d :: d in deps && !Is(st, d, Succeeded) then Verdict.Wait
    else if exists s :: s in succSrcs && !Is(st, s, Succeeded) then Verdict.Wait
    else Verdict.Ready
  }

  function VerdictOf(def: Definition, st: Statuses, k: Key): Verdict {
    Judge(Deps(def, k), FailureSources(def, k), SuccessSources(def, k), st)
  }

  /** A failed node routes to `k` through its `on_failure`. */
  ghost predicate FailureRoute(def: Definition, st: Statuses, k: Key) {
    exists s :: s in FailureSources(def, k) && Is(st, s, Failed)
  }

  /** Everything `k` waits for has succeeded. */
  ghost predicate Joined(def: Definition, st: Statuses, k: Key) {
    && (forall d :: d in Deps(def, k) ==> Is(st, d, Succeeded))
    && (forall s :: s in SuccessSources(def, k) ==> Is(st, s, Succeeded))
  }

  /** Why a node may start. */
  ghost predicate Caused(def: Definition, st: Statuses, k: Key) {
    FailureRoute(def, st, k) || Joined(def, st, k)
  }

  lemma ReadyMeansCaused(def: Definition, st: Statuses, k: Key)
    ensures VerdictOf(def, st, k) == Verdict.Ready <==> Caused(def, st, k)
  {
    if Joined(def, st, k) && !FailureRoute(def, st, k) {
      forall d | d in Deps(def, k)
        ensures !Is(st, d, Failed) && !Is(st, d, Skipped) && !Is(st, d, Cancelled)
      {
        assert Is(st, d, Succeeded);
      }
      forall s | s in SuccessSources(def, k) ensures !Is(st, s, Failed) {
        assert Is(st, s, Succeeded);
      }
    }
  }

  /** `later` differs from `now` only on nodes that had neither failed nor succeeded. */
  ghost predicate OutcomesKept(now: Statuses, later: Statuses) {
    forall k :: k in now && (now[k] == Failed || now[k] == Succeeded) ==> Is(later, k, now[k])
  }

  /** A cause, once there, stays. */
  lemma CauseKept(def: Definition, now: Statuses, later: Statuses, k: Key)
    requires OutcomesKept(now, later) && Caused(def, now, k)
    ensures Caused(def, later, k)
  {
    if FailureRoute(def, now, k) {
      var s :| s in FailureSources(def, k) && Is(now, s, Failed);
      assert Is(later, s, Failed);
    } else {
      forall d | d in Deps(def, k) ensures Is(later, d, Succeeded) {
        assert Is(now, d, Succeeded);
      }
      forall s | s in SuccessSources(def, k) ensures Is(later, s, Succeeded) {
        assert Is(now, s, Succeeded);
      }
    }
  }

  // ------------------------------------------------------------ advancing one row

  function Clamp(t: int): nat {
    if t < 0 then 0 else if t > MAX_TIMEOUT then MAX_TIMEOUT else t
  }

  /** The effective timeout: config, else definition defaults, else the type's default. */
  function TimeoutSec(config: Timeout, defaults: Timeout, kind: NodeType): Option<nat> {
    match config
    case Seconds(t) => Some(Clamp(t))
    case Unusable => None
    case Absent =>
      match defaults
      case Seconds(t) => Some(Clamp(t))
      case Unusable => None
      case Absent => if kind.Callback? then Some(MAX_TIMEOUT) else None
  }

  function Elapsed(n: Node, now: int): int {
    if n.startedAt.Some? then now - n.startedAt.value else 0
  }

  predicate Expired(n: Node, config: NodeConfig, defaults: Timeout, now: int) {
    var t := TimeoutSec(config.timeout, defaults, n.kind);
    t.Some? && Elapsed(n, now) >= t.value
  }

  function Succeed(n: Node): Node {
    n.(status := Succeeded, error := None)
  }

  function Fail(n: Node, why: Reason): Node {
    n.(status := Failed, error := Some(why))
  }

  /** What advancing a row yields: a new row and whether it progressed, or a raise. */
  datatype Advance = Moved(node: Node, progressed: bool) | Raised

  predicate Due(n: Node, config: NodeConfig, now: int) {
    if n.kind == NodeType.Wait && !config.until.NoUntil?
    then config.until.BadUntil? || now >= config.until.time
    else Elapsed(n, now) >= config.duration
  }

  /** Follows the linked exec task to its end. */
  function Poll(n: Node, task: Option<TaskStatus>): Advance {
    match task
    case None => Moved(Fail(n, EngineRestart), true)
    case Some(t) =>
      if t == Success || t == Partial then Moved(Succeed(n), true)
      else if t == TaskFailed || t == TaskTimedOut || t == Canceled then Moved(Fail(n, ExecTaskFailed), true)
      else if t == TaskRunning && n.status == Waiting then Moved(n.(status := Running), true)
      else Moved(n, false)
  }

  function Launch(n: Node, o: Obs): Advance {
    match o.creation
    case Refused => Raised
    case Unlinked(_) => Raised
    case Launched(t) => Moved(n.(execTask := Some(t)), true)
    case Gated(t, a) =>
      Moved(n.(execTask := Some(t), approval := Some(a), status := Waiting,
               startedAt := if n.startedAt.Some? then n.startedAt else Some(o.now)), true)
  }

  /** A running row that was not activated in this tick. */
  function AdvanceRunning(n: Node, config: NodeConfig, defaults: Timeout, o: Obs): Advance {
    if o.raises then Raised else
    match n.kind
    case Sleep | Wait =>
      if Expired(n, config, defaults, o.now) then Moved(Fail(n, TimedOutNode), true)
      else if Due(n, config, o.now) then Moved(Succeed(n), true)
      else Moved(n, false)
    case Callback =>
      Moved(n.(status := Waiting, startedAt := if n.startedAt.Some? then n.startedAt else Some(o.now)), true)
    case ManualApproval =>
      if n.approval.None? then
        Moved(n.(approval := Some(o.newApproval), status := Waiting,
                 startedAt := if n.startedAt.Some? then n.startedAt else Some(o.now)), true)
      else Moved(n, false)
    case ExecTask =>
      if n.execTask.None? then Launch(n, o) else Poll(n, o.task)
  }

  /** A waiting row: first the linked task or approval, then the timeout. */
  function AdvanceWaiting(n: Node, config: NodeConfig, defaults: Timeout, o: Obs): (r: Advance)
    ensures r.Moved?
  {
    var polled := if n.kind.ExecTask? && n.execTask.Some? then Poll(n, o.task) else Moved(n, false);
    if polled.node.status != Waiting then polled
    else if n.kind.ManualApproval? && n.approval.Some? && o.approval == Some(Approved) then Moved(Succeed(n), true)
    else if n.kind.ManualApproval? && n.approval.Some?
            && (o.approval == Some(Rejected) || o.approval == Some(ApprovalCanceled)) then
      Moved(Fail(n, ApprovalRejected), true)
    else if Expired(n, config, defaults, o.now) then Moved(Fail(n, TimedOutNode), true)
    else polled
  }

  // ------------------------------------------------------------ the tick as a function

  function Start(n: Node, now: int): Node {
    n.(status := Running, attempt := n.attempt + 1, startedAt := Some(now))
  }

  /** One turn of the first loop. */
  function ActivateOne(def: Definition, now: int, nodes: Nodes, k: Key): Nodes {
    if k !in nodes || nodes[k].status != Pending then nodes
    else match VerdictOf(def, StatusesOf(nodes), k)
      case Ready => nodes[k := Start(nodes[k], now)]
      case Skip => nodes[k := nodes[k].(status := Skipped)]
      case Wait => nodes
  }

  /** The first loop, after the first `i` rows. */
  function Activate(def: Definition, now: int, nodes: Nodes, order: seq<Key>, i: nat): Nodes
    requires i <= |order|
  {
    if i == 0 then nodes else ActivateOne(def, now, Activate(def, now, nodes, order, i - 1), order[i - 1])
  }

  /** The rows the first loop turned from pending to running. */
  function ActivatedKeys(before: Nodes, after: Nodes): set<Key> {
    set k | k in before && k in after && before[k].status == Pending && after[k].status == Running
  }

  /** The state of the second loop: the session's rows, what has been committed,
      the exec tasks created so far, and whether a turn has raised. */
  datatype Sweep = Sweep(nodes: Nodes, saved: RunState, created: seq<(Key, int)>, progressed: bool, raised: bool)

  /** The turn creates a task and raises before the link to it is committed. */
  predicate CreatesUnlinked(n: Node, o: Obs) {
    !o.raises && n.kind.ExecTask? && n.execTask.None? && o.creation.Unlinked?
  }

  /** One turn of the second loop. Creating an exec task commits the session before
      the new task is linked to the row; a launched task is committed again after. */
  function AdvanceOne(def: Definition, t: Tick, activated: set<Key>, w: Sweep, k: Key): Sweep {
    if w.raised || k !in w.nodes || w.nodes[k].status != Running || k in activated then w
    else
      var n := w.nodes[k];
      match AdvanceRunning(n, Config(def, k), def.defaults, t.early(k))
      case Raised =>
        if CreatesUnlinked(n, t.early(k))
        then Sweep(w.nodes, RunState(RunRunning, w.nodes, w.saved.error),
                   w.created + [(k, t.early(k).creation.task)], w.progressed, true)
        else w.(raised := true)
      case Moved(n', p) =>
        var rows := w.nodes[k := n'];
        if n.kind.ExecTask? && n.execTask.None? && n'.execTask.Some? then
          Sweep(rows,
                RunState(RunRunning, if n'.status == Waiting then w.nodes else rows, w.saved.error),
                w.created + [(k, n'.execTask.value)], true, false)
        else w.(nodes := rows, progressed := w.progressed || p)
  }

  function Advances(def: Definition, t: Tick, activated: set<Key>, w: Sweep, i: nat): Sweep
    requires i <= |t.order|
  {
    if i == 0 then w else AdvanceOne(def, t, activated, Advances(def, t, activated, w, i - 1), t.order[i - 1])
  }

  function Settle(def: Definition, t: Tick, nodes: Nodes, k: Key): Node
    requires k in nodes
  {
    if nodes[k].status == Waiting
    then AdvanceWaiting(nodes[k], Config(def, k), def.defaults, t.late(k)).node
    else nodes[k]
  }

  /** The third loop. */
  function Settled(def: Definition, t: Tick, nodes: Nodes): Nodes {
    map k | k in nodes :: Settle(def, t, nodes, k)
  }

  /** Something raises after the second loop: the turn of a waiting row, or the end of the step. */
  predicate RaisesLate(t: Tick, nodes: Nodes) {
    t.fails || exists k :: k in nodes && nodes[k].status == Waiting && t.late(k).raises
  }

  predicate AllTerminal(nodes: Nodes) {
    forall k :: k in nodes ==> Terminal(nodes[k].status)
  }

  predicate AnyFailed(nodes: Nodes) {
    exists k :: k in nodes && nodes[k].status == Failed
  }

  predicate Finalises(nodes: Nodes) {
    nodes != map[] && AllTerminal(nodes)
  }

  /** What one call of `step` does: the state it leaves in the database, its
      result, the exec tasks it created, and whether it raised. */
  datatype Stepped = Stepped(state: RunState, progressed: bool, created: seq<(Key, int)>, raised: bool)

  /** The error of the first failed row, in row order. */
  function FirstError(order: seq<Key>, nodes: Nodes): Option<Reason> {
    if order == [] then None
    else if order[0] in nodes && nodes[order[0]].status == Failed then nodes[order[0]].error
    else FirstError(order[1..], nodes)
  }

  /** The state of a tick after its first two loops. */
  function Swept(def: Definition, s: RunState, t: Tick): Sweep {
    var a := Activate(def, t.now, s.nodes, t.order, |t.order|);
    Advances(def, t, ActivatedKeys(s.nodes, a),
             Sweep(a, s, [], s.status == RunPending || a != s.nodes, false), |t.order|)
  }

  function Step(def: Definition, s: RunState, t: Tick): Stepped {
    if TerminalRun(s.status) then Stepped(s, false, [], false)
    else
      var w := Swept(def, s, t);
      if w.raised || RaisesLate(t, w.nodes) then Stepped(w.saved, false, w.created, true)
      else
        var z := Settled(def, t, w.nodes);
        if !Finalises(z) then
          Stepped(RunState(RunRunning, z, s.error), w.progressed || z != w.nodes, w.created, false)
        else if AnyFailed(z) then
          Stepped(RunState(RunFailed, z, FirstError(t.order, z)), true, w.created, false)
        else
          Stepped(RunState(RunSucceeded, z, s.error), true, w.created, false)
  }

  // ------------------------------------------------------------ cancel and callback

  predicate Open(s: NodeStatus) {
    s == Pending || s == Running || s == Waiting
  }

  function SkipOpen(nodes: Nodes): Nodes {
    map k | k in nodes :: if Open(nodes[k].status) then nodes[k].(status := Skipped) else nodes[k]
  }

  /** `cancel_run`: refused (409) once the run has ended. */
  function Cancel(s: RunState): RunState {
    if TerminalRun(s.status) then s else RunState(RunCancelled, SkipOpen(s.nodes), s.error)
  }

  /** `callback_node` past its token checks: refused (409) unless the node awaits a callback. */
  function Called(s: RunState, k: Key): RunState {
    if k in s.nodes && s.nodes[k].kind.Callback? && s.nodes[k].status == Waiting
    then s.(nodes := s.nodes[k := Succeed(s.nodes[k])])
    else s
  }

  // ------------------------------------------------------------ starting a run

  function NewNode(kind: NodeType): Node {
    Node(kind, Pending, None, None, 0, None, None)
  }

  /** The rows `_start_run` inserts: one pending row per node of the definition. */
  function NewRun(def: Definition): RunState {
    RunState(RunPending, map k | k in def.nodes :: NewNode(def.nodes[k].kind), None)
  }

  /** A query returns every row of the run exactly once, in some order. */
  ghost predicate RowOrder(nodes: Nodes, order: seq<Key>) {
    && (forall k :: k in nodes <==> k in order)
    && (forall i, j :: 0 <= i < j < |order| ==> order[i] != order[j])
  }
}
