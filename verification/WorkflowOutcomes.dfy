/** Why rows end the way they do: over every run each success, failure and timeout traces back
    to an answer of the outside, and each answer has its effect in the step that gets it. */
module WorkflowOutcomes {
  import opened Wrappers
  import opened Graph
  import opened WorkflowTypes
  import opened WorkflowModel
  import opened WorkflowRuns
  import opened WorkflowSkips

  // ------------------------------------------------------------ what counts as a cause

  predicate Finished(task: Option<TaskStatus>) {
    task == Some(Success) || task == Some(Partial)
  }

  predicate Broken(task: Option<TaskStatus>) {
    task == Some(TaskFailed) || task == Some(TaskTimedOut) || task == Some(Canceled)
  }

  predicate Refusal(approval: Option<ApprovalStatus>) {
    approval == Some(Rejected) || approval == Some(ApprovalCanceled)
  }

  predicate Sleeps(kind: NodeType) {
    kind.Sleep? || kind.Wait?
  }

  /** The point a sleep or wait node waits for: a time, else its duration after the start. */
  predicate Passed(config: NodeConfig, kind: NodeType, start: int, now: int) {
    if kind.Wait? && config.until.At? then config.until.time <= now
    else if kind.Wait? && config.until.BadUntil? then true
    else start + config.duration <= now
  }

  function Distance(a: int, b: int): nat {
    if a <= b then b - a else a - b
  }

  /** `n` is the number of the allowed range nearest to `asked`. */
  ghost predicate Nearest(n: nat, asked: int) {
    n <= MAX_TIMEOUT && forall m :: 0 <= m <= MAX_TIMEOUT ==> Distance(n, asked) <= Distance(m, asked)
  }

  /** The first entry that is present decides; only callback nodes have a timeout without one. */
  lemma TimeoutMeaning(config: Timeout, defaults: Timeout, kind: NodeType, n: nat)
    ensures TimeoutSec(config, defaults, kind) == Some(n) <==>
              (var asked := if config.Absent? then defaults else config;
               (asked.Seconds? && Nearest(n, asked.n)) || (asked.Absent? && kind.Callback? && n == MAX_TIMEOUT))
  {
    var asked := if config.Absent? then defaults else config;
    if asked.Seconds? {
      assert Nearest(Clamp(asked.n), asked.n);
      assert Distance(Clamp(asked.n), asked.n) == 0 <==> 0 <= asked.n <= MAX_TIMEOUT;
    }
  }

  /** The effective timeout has passed since the start. */
  predicate Overdue(def: Definition, k: Key, kind: NodeType, start: int, now: int) {
    var limit := TimeoutSec(Config(def, k).timeout, def.defaults, kind);
    limit.Some? && start + limit.value <= now
  }

  /** Tick `t` gave a node of this kind, started at `start`, a reason to succeed. */
  predicate SaysDone(def: Definition, t: Tick, k: Key, kind: NodeType, start: int) {
    match kind
    case ManualApproval => t.late(k).approval == Some(Approved)
    case ExecTask => Finished(t.early(k).task) || Finished(t.late(k).task)
    case Callback => false
    case _ => Passed(Config(def, k), kind, start, t.early(k).now)
  }

  /** Tick `t` gave it a reason to fail with this error. */
  predicate SaysFailed(def: Definition, t: Tick, k: Key, kind: NodeType, start: int, why: Reason) {
    match why
    case ApprovalRejected => kind.ManualApproval? && Refusal(t.late(k).approval)
    case ExecTaskFailed => kind.ExecTask? && (Broken(t.early(k).task) || Broken(t.late(k).task))
    case EngineRestart => kind.ExecTask? && (t.early(k).task.None? || t.late(k).task.None?)
    case TimedOutNode => Overdue(def, k, kind, start, if Sleeps(kind) then t.early(k).now else t.late(k).now)
  }

  /** What one tick may make of a row: a pending row waits on, is skipped or starts; an open row
      ends only for a reason the tick gave; an ended row stays. */
  ghost predicate Told(def: Definition, t: Tick, k: Key, n: Node, n': Node) {
    if n.status == Pending then n' == n || n' == n.(status := Skipped) || n' == Start(n, t.now)
    else if Terminal(n.status) then n' == n
    else
      && n'.kind == n.kind && n'.startedAt == n.startedAt && n.startedAt.Some?
      && n'.status != Pending && n'.status != Skipped && n'.status != Cancelled
      && (n'.status == Succeeded ==> SaysDone(def, t, k, n.kind, n.startedAt.value))
      && (n'.status == Failed ==> n'.error.Some? && SaysFailed(def, t, k, n.kind, n.startedAt.value, n'.error.value))
  }

  lemma RunningTold(def: Definition, t: Tick, k: Key, n: Node, m: Node)
    requires NodeInv(m) && m.status == Running && n.status != Pending && Told(def, t, k, n, m)
    ensures var r := AdvanceRunning(m, Config(def, k), def.defaults, t.early(k));
            r.Moved? ==> Told(def, t, k, n, r.node)
  {
  }

  lemma WaitingTold(def: Definition, t: Tick, k: Key, n: Node, m: Node)
    requires NodeInv(m) && m.status == Waiting && n.status != Pending && Told(def, t, k, n, m)
    ensures Told(def, t, k, n, AdvanceWaiting(m, Config(def, k), def.defaults, t.late(k)).node)
  {
  }

  // ------------------------------------------------------------ one step

  ghost predicate AllTold(def: Definition, t: Tick, m: Nodes, m': Nodes) {
    m'.Keys == m.Keys && forall k {:trigger Told(def, t, k, m[k], m'[k])} :: k in m ==> Told(def, t, k, m[k], m'[k])
  }

  /** A row that was pending before the tick only runs because this tick activated it. */
  ghost predicate FreshRest(m: Nodes, activated: set<Key>, m': Nodes) {
    forall k :: k in m && k in m' && m[k].status == Pending && m'[k].status == Running ==> k in activated
  }

  ghost predicate SweepTold(def: Definition, t: Tick, s: RunState, activated: set<Key>, w: Sweep) {
    AllTold(def, t, s.nodes, w.nodes) && AllTold(def, t, s.nodes, w.saved.nodes) && FreshRest(s.nodes, activated, w.nodes)
  }

  lemma Unmoved(def: Definition, t: Tick, m: Nodes)
    requires forall k :: k in m ==> NodeInv(m[k])
    ensures AllTold(def, t, m, m)
    ensures forall k :: k in m && (m[k].status == Running || m[k].status == Waiting) ==> m[k].startedAt.Some?
  {
    forall k | k in m ensures Told(def, t, k, m[k], m[k]) {
      if m[k].status == Succeeded || m[k].status == Failed { assert Terminal(m[k].status); }
    }
  }

  /** One row over one turn of the second loop. */
  lemma RowTold(def: Definition, t: Tick, activated: set<Key>, w: Sweep, k: Key, j: Key, n: Node)
    requires j in w.nodes && NodeInv(w.nodes[j]) && Told(def, t, j, n, w.nodes[j])
    requires n.status == Pending && w.nodes[j].status == Running ==> j in activated
    ensures var w' := AdvanceOne(def, t, activated, w, k);
            && w'.nodes.Keys == w.nodes.Keys && Told(def, t, j, n, w'.nodes[j])
            && (n.status == Pending ==> w'.nodes[j] == w.nodes[j])
  {
    if j == k && !w.raised && w.nodes[k].status == Running && k !in activated {
      RunningTold(def, t, k, n, w.nodes[k]);
    }
  }

  lemma TurnTold(def: Definition, t: Tick, s: RunState, activated: set<Key>, w: Sweep, k: Key) returns (w': Sweep)
    requires SweepTold(def, t, s, activated, w) && forall j :: j in w.nodes ==> NodeInv(w.nodes[j])
    ensures w' == AdvanceOne(def, t, activated, w, k)
    ensures SweepTold(def, t, s, activated, w')
  {
    AdvanceOneSaved(def, t, activated, w, k);
    forall j | j in s.nodes
      ensures Told(def, t, j, s.nodes[j], AdvanceOne(def, t, activated, w, k).nodes[j])
      ensures s.nodes[j].status == Pending ==> AdvanceOne(def, t, activated, w, k).nodes[j] == w.nodes[j]
    {
      assert Told(def, t, j, s.nodes[j], w.nodes[j]);
      RowTold(def, t, activated, w, k, j, s.nodes[j]);
    }
    TurnKeys(def, t, activated, w, k);
    w' := AdvanceOne(def, t, activated, w, k);
  }

  lemma TurnKeys(def: Definition, t: Tick, activated: set<Key>, w: Sweep, k: Key)
    ensures AdvanceOne(def, t, activated, w, k).nodes.Keys == w.nodes.Keys
  {
  }

  lemma SweepAt(def: Definition, t: Tick, s: RunState, activated: set<Key>, w: Sweep, i: nat) returns (v: Sweep)
    requires i <= |t.order| && SweepOk(def, s, w)
    ensures v == Advances(def, t, activated, w, i) && forall j :: j in v.nodes ==> NodeInv(v.nodes[j])
  {
    AdvancesOk(def, t, activated, s, w, i);
    v := Advances(def, t, activated, w, i);
  }

  lemma {:induction false} TurnsTold(def: Definition, t: Tick, s: RunState, activated: set<Key>, w: Sweep, i: nat)
    requires i <= |t.order| && SweepOk(def, s, w) && SweepTold(def, t, s, activated, w)
    ensures SweepTold(def, t, s, activated, Advances(def, t, activated, w, i))
    decreases i
  {
    if i > 0 {
      TurnsTold(def, t, s, activated, w, i - 1);
      var v := SweepAt(def, t, s, activated, w, i - 1);
      var w' := TurnTold(def, t, s, activated, v, t.order[i - 1]);
      assert Advances(def, t, activated, w, i) == w';
    }
  }

  lemma ActivationTold(def: Definition, s: RunState, t: Tick, a: Nodes)
    requires Inv(def, s) && a == Activate(def, t.now, s.nodes, t.order, |t.order|)
    ensures AllTold(def, t, s.nodes, a) && FreshRest(s.nodes, ActivatedKeys(s.nodes, a), a)
  {
    Unmoved(def, t, s.nodes);
    ActivateKeepsStarted(def, t.now, s.nodes, t.order, |t.order|);
    forall k | k in s.nodes ensures Told(def, t, k, s.nodes[k], a[k]) {
      assert Told(def, t, k, s.nodes[k], s.nodes[k]);
    }
  }

  lemma SettleTold(def: Definition, t: Tick, m: Nodes, w: Nodes)
    requires RowsOk(def, w) && AllTold(def, t, m, w)
    ensures AllTold(def, t, m, Settled(def, t, w))
  {
    forall k | k in m ensures Told(def, t, k, m[k], Settled(def, t, w)[k]) {
      assert Told(def, t, k, m[k], w[k]);
      if w[k].status == Waiting { WaitingTold(def, t, k, m[k], w[k]); }
    }
  }

  /** Every step, raising or not, changes rows only as its tick says. */
  lemma StepTold(def: Definition, s: RunState, t: Tick)
    requires Inv(def, s)
    ensures AllTold(def, t, s.nodes, Step(def, s, t).state.nodes)
  {
    Unmoved(def, t, s.nodes);
    if !TerminalRun(s.status) {
      var a := Activate(def, t.now, s.nodes, t.order, |t.order|);
      ActivationTold(def, s, t, a);
      var w0 := SweepStarts(def, s, t, a);
      TurnsTold(def, t, s, ActivatedKeys(s.nodes, a), w0, |t.order|);
      AdvancesOk(def, t, ActivatedKeys(s.nodes, a), s, w0, |t.order|);
      SettleTold(def, t, s.nodes, Swept(def, s, t).nodes);
      StepNodes(def, s, t);
    }
  }

  // ------------------------------------------------------------ every run

  /** Action `j` of the run is the tick that activates `k`, at time `start`. */
  ghost predicate StartsAt(def: Definition, acts: seq<Action>, j: nat, k: Key, start: int) {
    && j < |acts| && acts[j].DoTick? && acts[j].t.now == start
    && (var s, s' := After(def, NewRun(def), acts[..j]), After(def, NewRun(def), acts[..j + 1]);
        k in s.nodes && k in s'.nodes && s.nodes[k].status == Pending && s'.nodes[k].status == Running)
  }

  ghost predicate DoneAt(def: Definition, acts: seq<Action>, i: nat, k: Key, kind: NodeType, start: int) {
    i < |acts| && match acts[i]
                  case DoTick(t) => SaysDone(def, t, k, kind, start)
                  case DoCallback(j) => kind.Callback? && j == k
                  case DoCancel => false
  }

  ghost predicate FailedAt(def: Definition, acts: seq<Action>, i: nat, k: Key, kind: NodeType, start: int, why: Reason) {
    i < |acts| && acts[i].DoTick? && SaysFailed(def, acts[i].t, k, kind, start, why)
  }

  /** A row was started by a tick of the run, and has ended for a reason that came later. */
  ghost predicate Grounded(def: Definition, acts: seq<Action>, k: Key, n: Node) {
    WasActivated(n.status) ==>
      n.startedAt.Some? && exists j: nat :: StartsAt(def, acts, j, k, n.startedAt.value) && EndedAfter(def, acts, j, k, n)
  }

  ghost predicate EndedAfter(def: Definition, acts: seq<Action>, j: nat, k: Key, n: Node)
    requires n.startedAt.Some?
  {
    && (n.status == Succeeded ==> exists i: nat :: j < i && DoneAt(def, acts, i, k, n.kind, n.startedAt.value))
    && (n.status == Failed ==>
          n.error.Some? && exists i: nat :: j < i && FailedAt(def, acts, i, k, n.kind, n.startedAt.value, n.error.value))
  }

  lemma GroundedGrows(def: Definition, init: seq<Action>, a: Action, k: Key, n: Node)
    requires Grounded(def, init, k, n)
    ensures Grounded(def, init + [a], k, n)
  {
    if WasActivated(n.status) {
      var j: nat :| StartsAt(def, init, j, k, n.startedAt.value) && EndedAfter(def, init, j, k, n);
      var acts := init + [a];
      StartsGrows(def, init, a, j, k, n.startedAt.value);
      if n.status == Succeeded {
        var i: nat :| j < i && DoneAt(def, init, i, k, n.kind, n.startedAt.value);
        assert acts[i] == init[i] && DoneAt(def, acts, i, k, n.kind, n.startedAt.value);
      }
      if n.status == Failed {
        var i: nat :| j < i && FailedAt(def, init, i, k, n.kind, n.startedAt.value, n.error.value);
        assert acts[i] == init[i] && FailedAt(def, acts, i, k, n.kind, n.startedAt.value, n.error.value);
      }
      assert EndedAfter(def, acts, j, k, n);
    }
  }

  lemma StartsGrows(def: Definition, init: seq<Action>, a: Action, j: nat, k: Key, start: int)
    requires StartsAt(def, init, j, k, start)
    ensures StartsAt(def, init + [a], j, k, start)
  {
    assert (init + [a])[..j] == init[..j] && (init + [a])[..j + 1] == init[..j + 1];
  }

  /** The last tick told the change from `n` to `n'`. */
  lemma TickGrounds(def: Definition, init: seq<Action>, t: Tick, k: Key, n: Node, n': Node)
    requires Grounded(def, init, k, n) && Told(def, t, k, n, n') && NodeInv(n)
    requires var s, s' := After(def, NewRun(def), init), After(def, NewRun(def), init + [DoTick(t)]);
             k in s.nodes && k in s'.nodes && s.nodes[k] == n && s'.nodes[k] == n'
    ensures Grounded(def, init + [DoTick(t)], k, n')
  {
    var acts := init + [DoTick(t)];
    assert acts[..|init|] == init && acts[..|init| + 1] == acts;
    if n.status == Pending {
      if n' == Start(n, t.now) { assert StartsAt(def, acts, |init|, k, t.now); }
    } else if Terminal(n.status) {
      GroundedGrows(def, init, DoTick(t), k, n);
    } else {
      var j: nat :| StartsAt(def, init, j, k, n.startedAt.value) && EndedAfter(def, init, j, k, n);
      StartsGrows(def, init, DoTick(t), j, k, n.startedAt.value);
      if n'.status == Succeeded { assert DoneAt(def, acts, |init|, k, n'.kind, n'.startedAt.value); }
      if n'.status == Failed { assert FailedAt(def, acts, |init|, k, n'.kind, n'.startedAt.value, n'.error.value); }
      assert EndedAfter(def, acts, j, k, n');
    }
  }

  lemma CallbackGrounds(def: Definition, init: seq<Action>, c: Key, k: Key, n: Node)
    requires Grounded(def, init, k, n) && NodeInv(n) && n.kind.Callback? && n.status == Waiting && c == k
    ensures Grounded(def, init + [DoCallback(c)], k, Succeed(n))
  {
    var acts := init + [DoCallback(c)];
    var j: nat :| StartsAt(def, init, j, k, n.startedAt.value) && EndedAfter(def, init, j, k, n);
    StartsGrows(def, init, DoCallback(c), j, k, n.startedAt.value);
    assert DoneAt(def, acts, |init|, k, n.kind, n.startedAt.value);
    assert EndedAfter(def, acts, j, k, Succeed(n));
  }

  /**
   * Over every run: each started row was started by a tick, with that tick's time; it succeeded
   * only after a later approval, finished task, callback or elapsed wait, and failed only after
   * a later refusal, broken or lost task, or overdue timeout, whichever its error names.
   */
  lemma {:induction false} OutcomesHaveCauses(def: Definition, acts: seq<Action>, k: Key)
    requires k in def.nodes
    ensures var s := After(def, NewRun(def), acts);
            k in s.nodes && s.nodes[k].kind == def.nodes[k].kind && Grounded(def, acts, k, s.nodes[k])
    decreases |acts|
  {
    NewRunOk(def);
    RunKeepsInv(def, NewRun(def), acts);
    if acts != [] {
      var init, a := acts[..|acts| - 1], acts[|acts| - 1];
      assert acts == init + [a];
      OutcomesHaveCauses(def, init, k);
      RunKeepsInv(def, NewRun(def), init);
      ActionGrounds(def, init, a, k);
    }
  }

  lemma AfterLast(def: Definition, s: RunState, init: seq<Action>, a: Action)
    ensures After(def, s, init + [a]) == Apply(def, After(def, s, init), a)
  {
    assert (init + [a])[..|init|] == init;
  }

  lemma ActionGrounds(def: Definition, init: seq<Action>, a: Action, k: Key)
    requires var s := After(def, NewRun(def), init); Inv(def, s) && k in s.nodes && Grounded(def, init, k, s.nodes[k])
    requires k in After(def, NewRun(def), init + [a]).nodes
    ensures Grounded(def, init + [a], k, After(def, NewRun(def), init + [a]).nodes[k])
  {
    var s := After(def, NewRun(def), init);
    AfterLast(def, NewRun(def), init, a);
    if a.DoTick? {
      StepTold(def, s, a.t);
      assert Told(def, a.t, k, s.nodes[k], Step(def, s, a.t).state.nodes[k]);
      TickGrounds(def, init, a.t, k, s.nodes[k], Step(def, s, a.t).state.nodes[k]);
    } else {
      EventGrounds(def, init, a, s, k);
    }
  }

  lemma EventGrounds(def: Definition, init: seq<Action>, a: Action, s: RunState, k: Key)
    requires Inv(def, s) && k in s.nodes && Grounded(def, init, k, s.nodes[k]) && !a.DoTick?
    ensures Grounded(def, init + [a], k, Apply(def, s, a).nodes[k])
  {
    if Apply(def, s, a).nodes[k] == s.nodes[k] {
      GroundedGrows(def, init, a, k, s.nodes[k]);
    } else if a.DoCallback? {
      CallbackGrounds(def, init, a.k, k, s.nodes[k]);
    }
  }

  // ------------------------------------------------------------ gates

  /** No tick of the run reports the gate's approval as approved. */
  ghost predicate NeverApproved(acts: seq<Action>, g: Key) {
    forall i :: 0 <= i < |acts| && acts[i].DoTick? ==> acts[i].t.late(g).approval != Some(Approved)
  }

  ghost predicate NeverRefused(acts: seq<Action>, g: Key) {
    forall i :: 0 <= i < |acts| && acts[i].DoTick? ==> !Refusal(acts[i].t.late(g).approval)
  }

  /** A gate opens only when it is approved, and is rejected only when it is refused. */
  lemma GateFollowsItsApproval(def: Definition, acts: seq<Action>, g: Key)
    requires g in def.nodes && def.nodes[g].kind.ManualApproval?
    ensures var s := After(def, NewRun(def), acts);
            && g in s.nodes
            && (NeverApproved(acts, g) ==> s.nodes[g].status != Succeeded)
            && (NeverRefused(acts, g) ==> !(s.nodes[g].status == Failed && s.nodes[g].error == Some(ApprovalRejected)))
  {
    OutcomesHaveCauses(def, acts, g);
  }

  /** Each node of the path waits for the one before it, and no failure route leads to it. */
  ghost predicate Follows(def: Definition, p: seq<Key>, i: nat)
    requires 1 <= i < |p|
  {
    p[i - 1] in Awaits(def, p[i]) && FailureSources(def, p[i]) == {}
  }

  ghost predicate Chain(def: Definition, p: seq<Key>) {
    |p| >= 1 && forall i {:trigger Follows(def, p, i)} :: 1 <= i < |p| ==> Follows(def, p, i)
  }

  lemma HeldBack(def: Definition, acts: seq<Action>, q: Key, k: Key)
    requires q in Awaits(def, k) && FailureSources(def, k) == {}
    requires !Is(StatusesOf(After(def, NewRun(def), acts).nodes), q, Succeeded)
    ensures var s := After(def, NewRun(def), acts); k in s.nodes ==> !WasActivated(s.nodes[k].status)
  {
    ReachableStates(def, acts);
    var st := StatusesOf(After(def, NewRun(def), acts).nodes);
    assert !Joined(def, st, k);
    assert !Caused(def, st, k);
  }

  /** As long as a gate is not approved, nothing on any path behind it starts. */
  lemma {:induction false} NothingStartsBehindAGate(def: Definition, acts: seq<Action>, p: seq<Key>)
    requires Chain(def, p) && p[0] in def.nodes && def.nodes[p[0]].kind.ManualApproval? && NeverApproved(acts, p[0])
    ensures var s := After(def, NewRun(def), acts);
            var k := p[|p| - 1];
            && !Is(StatusesOf(s.nodes), k, Succeeded)
            && (|p| > 1 && k in s.nodes ==> !WasActivated(s.nodes[k].status))
    decreases |p|
  {
    var s := After(def, NewRun(def), acts);
    if |p| == 1 {
      GateFollowsItsApproval(def, acts, p[0]);
    } else {
      var q, k := p[..|p| - 1], p[|p| - 1];
      forall i | 1 <= i < |q| ensures Follows(def, q, i) { assert Follows(def, p, i); }
      NothingStartsBehindAGate(def, acts, q);
      assert Follows(def, p, |p| - 1);
      HeldBack(def, acts, q[|q| - 1], k);
    }
  }

  // ------------------------------------------------------------ every answer takes effect

  ghost predicate Distinct(order: seq<Key>) {
    forall i, j :: 0 <= i < j < |order| ==> order[i] != order[j]
  }

  /** A started row over the second loop, when nothing has raised. */
  lemma {:induction false} RowSwept(def: Definition, t: Tick, activated: set<Key>, w: Sweep, i: nat, k: Key)
    requires i <= |t.order| && Distinct(t.order) && k in w.nodes && k !in activated
    requires !Advances(def, t, activated, w, i).raised
    ensures var v := Advances(def, t, activated, w, i);
            k in v.nodes &&
            if w.nodes[k].status == Running && k in t.order[..i] then
              AdvanceRunning(w.nodes[k], Config(def, k), def.defaults, t.early(k)).Moved? &&
              v.nodes[k] == AdvanceRunning(w.nodes[k], Config(def, k), def.defaults, t.early(k)).node
            else v.nodes[k] == w.nodes[k]
    decreases i
  {
    if i > 0 {
      var v := Advances(def, t, activated, w, i - 1);
      assert t.order[..i] == t.order[..i - 1] + [t.order[i - 1]];
      RowSwept(def, t, activated, w, i - 1, k);
      if t.order[i - 1] == k { assert k !in t.order[..i - 1]; }
    }
  }

  /** A row that had been started, after a step that did not raise. */
  lemma StartedRow(def: Definition, s: RunState, t: Tick, k: Key) returns (n: Node, n': Node)
    requires Inv(def, s) && !TerminalRun(s.status) && RowOrder(s.nodes, t.order) && !Step(def, s, t).raised
    requires k in s.nodes && (s.nodes[k].status == Running || s.nodes[k].status == Waiting)
    ensures n == s.nodes[k] && k in Step(def, s, t).state.nodes && n' == Step(def, s, t).state.nodes[k]
    ensures n.status == Waiting ==> n' == AdvanceWaiting(n, Config(def, k), def.defaults, t.late(k)).node
    ensures n.status == Running ==>
              var r := AdvanceRunning(n, Config(def, k), def.defaults, t.early(k));
              r.Moved? && n' == if r.node.status == Waiting
                                 then AdvanceWaiting(r.node, Config(def, k), def.defaults, t.late(k)).node else r.node
  {
    n := s.nodes[k];
    var a := Activate(def, t.now, s.nodes, t.order, |t.order|);
    ActivateKeepsStarted(def, t.now, s.nodes, t.order, |t.order|);
    var w0 := SweepStarts(def, s, t, a);
    RowSwept(def, t, ActivatedKeys(s.nodes, a), w0, |t.order|, k);
    assert t.order[..|t.order|] == t.order;
    TickShape(def, s, t, Swept(def, s, t));
    n' := Step(def, s, t).state.nodes[k];
  }

  /** A row the first loop started rests until the next tick. */
  lemma {:induction false} RowRests(def: Definition, t: Tick, activated: set<Key>, w: Sweep, i: nat, k: Key)
    requires i <= |t.order| && k in w.nodes && (k in activated || w.nodes[k].status != Running)
    ensures var v := Advances(def, t, activated, w, i);
            k in v.nodes && v.nodes[k] == w.nodes[k]
    decreases i
  {
    if i > 0 { RowRests(def, t, activated, w, i - 1, k); }
  }

  ghost predicate MustSkip(def: Definition, m: Nodes, k: Key) {
    SkipCaused(def, StatusesOf(m), k) && !FailureRoute(def, StatusesOf(m), k)
  }

  /** A turn of the first loop changes no row that has ended. */
  lemma TurnKeepsEnded(def: Definition, now: int, m: Nodes, j: Key, x: Key, st: NodeStatus)
    requires Is(StatusesOf(m), x, st) && Terminal(st)
    ensures Is(StatusesOf(ActivateOne(def, now, m, j)), x, st)
  {
  }

  lemma TurnFailsNone(def: Definition, now: int, m: Nodes, j: Key, x: Key)
    requires Is(StatusesOf(ActivateOne(def, now, m, j)), x, Failed)
    ensures Is(StatusesOf(m), x, Failed)
  {
  }

  lemma MustSkipKept(def: Definition, now: int, m: Nodes, j: Key, k: Key)
    requires MustSkip(def, m, k)
    ensures MustSkip(def, ActivateOne(def, now, m, j), k)
  {
    var st, w := StatusesOf(m), ActivateOne(def, now, m, j);
    if x :| x in SuccessSources(def, k) && Is(st, x, Failed) {
      TurnKeepsEnded(def, now, m, j, x, Failed);
    } else {
      var x :| x in Deps(def, k) && (Is(st, x, Failed) || Is(st, x, Skipped) || Is(st, x, Cancelled));
      TurnKeepsEnded(def, now, m, j, x, st[x]);
    }
    forall x | x in FailureSources(def, k) ensures !Is(StatusesOf(w), x, Failed) {
      if Is(StatusesOf(w), x, Failed) { TurnFailsNone(def, now, m, j, x); }
    }
  }

  lemma SkipTurn(def: Definition, now: int, m: Nodes, j: Key, k: Key)
    requires MustSkip(def, m, k) && k in m
    ensures var w := ActivateOne(def, now, m, j);
            k in w && w[k] == if j == k && m[k].status == Pending then m[k].(status := Skipped) else m[k]
  {
    SkipVerdict(def, StatusesOf(m), k);
  }

  /** In one pass of the first loop a row that must be skipped is skipped, wherever it stands. */
  lemma {:induction false} SkippedInPass(def: Definition, now: int, m: Nodes, order: seq<Key>, i: nat, k: Key)
    requires i <= |order| && k in m && m[k].status == Pending && MustSkip(def, m, k)
    ensures var w := Activate(def, now, m, order, i);
            MustSkip(def, w, k) && k in w && w[k] == if k in order[..i] then m[k].(status := Skipped) else m[k]
    decreases i
  {
    if i > 0 {
      var w := Activate(def, now, m, order, i - 1);
      SkippedInPass(def, now, m, order, i - 1, k);
      MustSkipKept(def, now, w, order[i - 1], k);
      SkipTurn(def, now, w, order[i - 1], k);
      assert order[..i] == order[..i - 1] + [order[i - 1]];
    }
  }

  lemma PendingRow(def: Definition, s: RunState, t: Tick, k: Key) returns (a: Nodes)
    requires Inv(def, s) && !TerminalRun(s.status) && RowOrder(s.nodes, t.order) && !Step(def, s, t).raised
    requires k in s.nodes && s.nodes[k].status == Pending
    ensures a == Activate(def, t.now, s.nodes, t.order, |t.order|)
    ensures k in a && k in Step(def, s, t).state.nodes && Step(def, s, t).state.nodes[k] == a[k]
  {
    a := Activate(def, t.now, s.nodes, t.order, |t.order|);
    ActivateKeepsStarted(def, t.now, s.nodes, t.order, |t.order|);
    var w0 := SweepStarts(def, s, t, a);
    RowRests(def, t, ActivatedKeys(s.nodes, a), w0, |t.order|, k);
    TickShape(def, s, t, Swept(def, s, t));
  }

  /** A pending row: the step starts it exactly when it had a cause before, and skips it when it
      had a cause to be skipped and none to start. */
  lemma PendingTakesItsVerdict(def: Definition, s: RunState, t: Tick, k: Key)
    requires Inv(def, s) && !TerminalRun(s.status) && RowOrder(s.nodes, t.order) && !Step(def, s, t).raised
    requires k in s.nodes && s.nodes[k].status == Pending
    ensures k in Step(def, s, t).state.nodes
    ensures var n, n', st := s.nodes[k], Step(def, s, t).state.nodes[k], StatusesOf(s.nodes);
            && (n' == Start(n, t.now) <==> Caused(def, st, k))
            && (MustSkip(def, s.nodes, k) ==> n'.status == Skipped)
  {
    var a := PendingRow(def, s, t, k);
    ActivationIgnoresOrder(def, t.now, s.nodes, t.order);
    ActivateKeepsStarted(def, t.now, s.nodes, t.order, |t.order|);
    if MustSkip(def, s.nodes, k) {
      SkippedInPass(def, t.now, s.nodes, t.order, |t.order|, k);
      assert k in t.order && t.order[..|t.order|] == t.order;
    }
    assert k in ActivatedKeys(s.nodes, a) <==> Caused(def, StatusesOf(s.nodes), k);
  }

  ghost predicate EndsWith(n: Node, why: Reason) {
    n.status == Failed && n.error == Some(why)
  }

  /** A row that gets its task or its approval in a step remembers the very ones that were made. */
  lemma LinksAreTheOnesMade(def: Definition, s: RunState, t: Tick, k: Key)
    requires Inv(def, s) && !TerminalRun(s.status) && RowOrder(s.nodes, t.order) && !Step(def, s, t).raised
    requires k in s.nodes && s.nodes[k].status == Running && s.nodes[k].execTask.None? && s.nodes[k].approval.None?
    ensures k in Step(def, s, t).state.nodes
    ensures var n', o := Step(def, s, t).state.nodes[k], t.early(k);
            && (s.nodes[k].kind.ManualApproval? ==> n'.approval == Some(o.newApproval) && n'.execTask.None?)
            && (s.nodes[k].kind.ExecTask? ==>
                  (o.creation.Launched? || o.creation.Gated?) && n'.execTask == Some(o.creation.task) &&
                  n'.approval == if o.creation.Gated? then Some(o.creation.approval) else None)
  {
    var n, n' := StartedRow(def, s, t, k);
    var m := AdvanceRunning(n, Config(def, k), def.defaults, t.early(k)).node;
    AdvanceKeepsLinks(m, Config(def, k), def.defaults, t.late(k));
  }

  lemma AdvanceKeepsLinks(n: Node, config: NodeConfig, defaults: Timeout, o: Obs)
    ensures var m := AdvanceWaiting(n, config, defaults, o).node; m.execTask == n.execTask && m.approval == n.approval
  {
  }

  /** A waiting gate: approved it succeeds, refused it fails, and otherwise only its timeout ends it. */
  lemma GateTakesItsAnswer(def: Definition, s: RunState, t: Tick, k: Key)
    requires Inv(def, s) && !TerminalRun(s.status) && RowOrder(s.nodes, t.order) && !Step(def, s, t).raised
    requires k in s.nodes && s.nodes[k].kind.ManualApproval? && s.nodes[k].status == Waiting
    ensures k in Step(def, s, t).state.nodes && s.nodes[k].startedAt.Some?
    ensures var n' := Step(def, s, t).state.nodes[k];
            var approval, late := t.late(k).approval, Overdue(def, k, ManualApproval, s.nodes[k].startedAt.value, t.late(k).now);
            && (n'.status == Succeeded <==> approval == Some(Approved))
            && (EndsWith(n', ApprovalRejected) <==> Refusal(approval))
            && (EndsWith(n', TimedOutNode) <==> approval != Some(Approved) && !Refusal(approval) && late)
            && (approval != Some(Approved) && !Refusal(approval) && !late ==> n' == s.nodes[k])
  {
    var n, n' := StartedRow(def, s, t, k);
  }

  /** What the task reports decides over a running row. */
  lemma RunningTaskRow(n: Node, config: NodeConfig, defaults: Timeout, o: Obs)
    requires n.status == Running && n.kind.ExecTask? && n.execTask.Some? && !o.raises
    ensures var m := AdvanceRunning(n, config, defaults, o).node;
            && (m.status == Succeeded <==> Finished(o.task)) && (EndsWith(m, ExecTaskFailed) <==> Broken(o.task))
            && (EndsWith(m, EngineRestart) <==> o.task.None?)
            && (!Finished(o.task) && !Broken(o.task) && o.task.Some? ==> m == n)
  {
  }

  /** Over a waiting row it decides first, then the timeout. */
  lemma WaitingTaskRow(def: Definition, k: Key, n: Node, o: Obs)
    requires n.status == Waiting && n.kind.ExecTask? && n.execTask.Some? && n.startedAt.Some?
    ensures var m := AdvanceWaiting(n, Config(def, k), def.defaults, o).node;
            && (m.status == Succeeded <==> Finished(o.task)) && (EndsWith(m, ExecTaskFailed) <==> Broken(o.task))
            && (EndsWith(m, EngineRestart) <==> o.task.None?)
            && (o.task == Some(TaskRunning) ==> m == n.(status := Running))
            && (o.task == Some(TaskCreated) || o.task == Some(AwaitingApproval) ==>
                  if Overdue(def, k, ExecTask, n.startedAt.value, o.now) then EndsWith(m, TimedOutNode) else m == n)
  {
  }

  /** A row with a task: what the task reports decides; a row still waiting may also time out. */
  lemma TaskRowTakesItsAnswer(def: Definition, s: RunState, t: Tick, k: Key)
    requires Inv(def, s) && !TerminalRun(s.status) && RowOrder(s.nodes, t.order) && !Step(def, s, t).raised
    requires k in s.nodes && s.nodes[k].execTask.Some? && (s.nodes[k].status == Running || s.nodes[k].status == Waiting)
    ensures k in Step(def, s, t).state.nodes && s.nodes[k].startedAt.Some?
    ensures var n, n' := s.nodes[k], Step(def, s, t).state.nodes[k];
            var task := if n.status == Running then t.early(k).task else t.late(k).task;
            var late := n.status == Waiting && Overdue(def, k, ExecTask, n.startedAt.value, t.late(k).now);
            && (n'.status == Succeeded <==> Finished(task))
            && (EndsWith(n', ExecTaskFailed) <==> Broken(task))
            && (EndsWith(n', EngineRestart) <==> task.None?)
            && (task == Some(TaskRunning) ==> n' == n.(status := Running))
            && (task == Some(TaskCreated) || task == Some(AwaitingApproval) ==>
                  if late then EndsWith(n', TimedOutNode) else n' == n)
  {
    var n, n' := StartedRow(def, s, t, k);
    if n.status == Running {
      RunningTaskRow(n, Config(def, k), def.defaults, t.early(k));
    } else {
      WaitingTaskRow(def, k, n, t.late(k));
    }
  }

  /** A sleeping row ends when its wait is over, or before that when its timeout has passed. */
  lemma SleeperTakesItsTime(def: Definition, s: RunState, t: Tick, k: Key)
    requires Inv(def, s) && !TerminalRun(s.status) && RowOrder(s.nodes, t.order) && !Step(def, s, t).raised
    requires k in s.nodes && Sleeps(s.nodes[k].kind) && s.nodes[k].status == Running
    ensures k in Step(def, s, t).state.nodes && s.nodes[k].startedAt.Some?
    ensures var n, n', now := s.nodes[k], Step(def, s, t).state.nodes[k], t.early(k).now;
            var late := Overdue(def, k, n.kind, n.startedAt.value, now);
            var over := Passed(Config(def, k), n.kind, n.startedAt.value, now);
            && (EndsWith(n', TimedOutNode) <==> late)
            && (n'.status == Succeeded <==> over && !late)
            && (!late && !over ==> n' == n)
  {
    var n, n' := StartedRow(def, s, t, k);
  }

  /** A waiting callback succeeds on its call, and otherwise only its timeout ends it. */
  lemma CallbackTakesItsCall(def: Definition, s: RunState, t: Tick, k: Key)
    requires Inv(def, s) && !TerminalRun(s.status) && RowOrder(s.nodes, t.order) && !Step(def, s, t).raised
    requires k in s.nodes && s.nodes[k].kind.Callback? && s.nodes[k].status == Waiting
    ensures k in Called(s, k).nodes && Called(s, k).nodes[k].status == Succeeded
    ensures forall j :: j in s.nodes && j != k ==> j in Called(s, k).nodes && Called(s, k).nodes[j] == s.nodes[j]
    ensures k in Step(def, s, t).state.nodes && s.nodes[k].startedAt.Some?
    ensures var n' := Step(def, s, t).state.nodes[k];
            if Overdue(def, k, Callback, s.nodes[k].startedAt.value, t.late(k).now)
            then EndsWith(n', TimedOutNode) else n' == s.nodes[k]
  {
    var n, n' := StartedRow(def, s, t, k);
  }

  // ------------------------------------------------------------ the end of a run

  lemma {:induction false} FirstErrorIsFirst(order: seq<Key>, m: Nodes)
    requires exists k :: k in order && k in m && m[k].status == Failed
    ensures exists i :: 0 <= i < |order| && order[i] in m && m[order[i]].status == Failed &&
                        FirstError(order, m) == m[order[i]].error &&
                        forall j :: 0 <= j < i && order[j] in m ==> m[order[j]].status != Failed
    decreases |order|
  {
    if !(order[0] in m && m[order[0]].status == Failed) {
      var rest := order[1..];
      var k :| k in order && k in m && m[k].status == Failed;
      assert k in rest;
      FirstErrorIsFirst(rest, m);
      var i :| 0 <= i < |rest| && rest[i] in m && m[rest[i]].status == Failed && FirstError(rest, m) == m[rest[i]].error &&
               forall j :: 0 <= j < i && rest[j] in m ==> m[rest[j]].status != Failed;
      assert order[i + 1] == rest[i];
      assert forall j :: 1 <= j < i + 1 ==> order[j] == rest[j - 1];
    }
  }

  /** A step that ends a live run as failed records the error of the first failed row. */
  lemma FailedRunNamesItsError(def: Definition, s: RunState, t: Tick)
    requires Inv(def, s) && !TerminalRun(s.status) && RowOrder(s.nodes, t.order)
    requires Step(def, s, t).state.status == RunFailed
    ensures var z := Step(def, s, t).state;
            exists i :: 0 <= i < |t.order| && t.order[i] in z.nodes && z.nodes[t.order[i]].status == Failed &&
                        z.error == z.nodes[t.order[i]].error &&
                        forall j :: 0 <= j < i && t.order[j] in z.nodes ==> z.nodes[t.order[j]].status != Failed
  {
    var z := FailedShape(def, s, t);
    var k :| k in z && z[k].status == Failed;
    assert k in t.order;
    FirstErrorIsFirst(t.order, z);
  }

  lemma FailedShape(def: Definition, s: RunState, t: Tick) returns (z: Nodes)
    requires Inv(def, s) && !TerminalRun(s.status) && Step(def, s, t).state.status == RunFailed
    ensures AnyFailed(z) && z.Keys == s.nodes.Keys
    ensures Step(def, s, t).state == RunState(RunFailed, z, FirstError(t.order, z))
  {
    var w, rows := TickParts(def, s, t);
    z := rows;
  }

  /** Cancelling a live run skips exactly its open rows. */
  lemma CancelSkipsOpenRows(def: Definition, s: RunState, k: Key)
    requires Inv(def, s) && !TerminalRun(s.status) && k in s.nodes
    ensures Cancel(s).status == RunCancelled && k in Cancel(s).nodes
    ensures var n, n' := s.nodes[k], Cancel(s).nodes[k];
            if Terminal(n.status) then n' == n else n' == n.(status := Skipped)
  {
  }

  /** Nothing changes a run that has ended. */
  lemma {:induction false} EndedRunsNeverChange(def: Definition, s: RunState, acts: seq<Action>)
    requires Inv(def, s) && TerminalRun(s.status)
    ensures After(def, s, acts) == s
    decreases |acts|
  {
    if acts != [] { EndedRunsNeverChange(def, s, acts[..|acts| - 1]); }
  }
}
