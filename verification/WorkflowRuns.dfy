/** What every run of the workflow engine keeps, whatever the environment does and
    however ticks, cancellations and callbacks interleave. */
module WorkflowRuns {
  import opened Wrappers
  import opened Graph
  import opened WorkflowTypes
  import opened WorkflowModel

  // ------------------------------------------------------------ one row

  /** Activated at some point and not skipped since. */
  ghost predicate WasActivated(s: NodeStatus) {
    s == Running || s == Waiting || s == Succeeded || s == Failed
  }

  /** The ranking behind bounded progress. */
  ghost function Rank(n: Node): nat {
    match n.status
    case Pending => 4
    case Running => if n.execTask.Some? then 1 else 3
    case Waiting => 2
    case _ => 0
  }

  ghost predicate NodeInv(n: Node) {
    && (n.execTask.Some? ==> n.kind.ExecTask?)
    && (n.status == Pending ==> n == NewNode(n.kind))
    && n.attempt <= 1
    && (WasActivated(n.status) ==> n.attempt == 1 && n.startedAt.Some?)
    && (n.status == Running && n.execTask.None? ==> n.approval.None?)
    && (n.status == Waiting ==> n.kind.Callback? || (n.kind.ManualApproval? && n.approval.Some?) || n.execTask.Some?)
    && (n.status == Failed ==> n.error.Some?)
  }

  /** How a row may change between two points of a run: ended rows are frozen, links
      are kept, the row is started at most once, and every change lowers its rank. */
  ghost predicate Evolves(n: Node, n': Node) {
    && n'.kind == n.kind
    && (Terminal(n.status) ==> n' == n)
    && (n.execTask.Some? ==> n'.execTask == n.execTask)
    && (n.approval.Some? ==> n'.approval == n.approval)
    && n.attempt <= n'.attempt
    && (n' != n ==> Rank(n') < Rank(n))
  }

  lemma RunningRowEvolves(n: Node, config: NodeConfig, defaults: Timeout, o: Obs)
    requires NodeInv(n) && n.status == Running
    ensures var r := AdvanceRunning(n, config, defaults, o);
            r.Moved? ==> NodeInv(r.node) && Evolves(n, r.node) && WasActivated(r.node.status)
                         && (r.progressed <==> r.node != n)
  {
  }

  lemma WaitingRowEvolves(n: Node, config: NodeConfig, defaults: Timeout, o: Obs)
    requires NodeInv(n) && n.status == Waiting
    ensures var r := AdvanceWaiting(n, config, defaults, o);
            NodeInv(r.node) && Evolves(n, r.node) && WasActivated(r.node.status) && (r.progressed <==> r.node != n)
            && r.node.execTask == n.execTask
  {
  }

  // ------------------------------------------------------------ all rows of a run

  ghost predicate RowsEvolve(m: Nodes, m': Nodes) {
    m'.Keys == m.Keys && forall k :: k in m ==> Evolves(m[k], m'[k])
  }

  /** Row invariants, and causal order: an activated row had a reason to start. */
  ghost predicate RowsOk(def: Definition, m: Nodes) {
    && m.Keys == def.nodes.Keys
    && (forall k :: k in m ==> m[k].kind == def.nodes[k].kind && NodeInv(m[k]))
    && (forall k {:trigger Caused(def, StatusesOf(m), k)} ::
          k in m && WasActivated(m[k].status) ==> Caused(def, StatusesOf(m), k))
  }

  ghost predicate Inv(def: Definition, s: RunState) {
    && RowsOk(def, s.nodes)
    && (s.status == RunPending ==> forall k :: k in s.nodes ==> s.nodes[k].status == Pending)
    && (TerminalRun(s.status) ==> AllTerminal(s.nodes))
    && (s.status == RunFailed ==> AnyFailed(s.nodes))
    && (s.status == RunSucceeded ==> s.nodes != map[] && !AnyFailed(s.nodes))
  }

  lemma EvolveTransitive(m0: Nodes, m1: Nodes, m2: Nodes)
    requires RowsEvolve(m0, m1) && RowsEvolve(m1, m2)
    ensures RowsEvolve(m0, m2)
    ensures m2 != m0 <==> m1 != m0 || m2 != m1
  {
    forall k | k in m0 ensures Evolves(m0[k], m2[k]) {
      assert Evolves(m0[k], m1[k]) && Evolves(m1[k], m2[k]);
    }
    if m1 != m0 {
      var k :| k in m0 && m1[k] != m0[k];
      assert Evolves(m0[k], m1[k]) && Evolves(m1[k], m2[k]);
      assert Rank(m2[k]) < Rank(m0[k]);
    }
  }

  lemma OutcomesStay(m: Nodes, m': Nodes)
    requires RowsEvolve(m, m')
    ensures OutcomesKept(StatusesOf(m), StatusesOf(m'))
  {
    forall k | k in m && (m[k].status == Failed || m[k].status == Succeeded)
      ensures Is(StatusesOf(m'), k, m[k].status)
    {
      assert Evolves(m[k], m'[k]);
    }
  }

  /** Replacing one row by one it may evolve into keeps all rows in order. */
  lemma RowReplaced(def: Definition, m: Nodes, k: Key, n: Node)
    requires RowsOk(def, m) && k in m && Evolves(m[k], n) && NodeInv(n)
    requires WasActivated(n.status) ==> Caused(def, StatusesOf(m), k)
    ensures RowsOk(def, m[k := n]) && RowsEvolve(m, m[k := n])
  {
    var m' := m[k := n];
    OutcomesStay(m, m');
    forall j | j in m' && WasActivated(m'[j].status) ensures Caused(def, StatusesOf(m'), j) {
      CauseKept(def, StatusesOf(m), StatusesOf(m'), j);
    }
  }

  // ------------------------------------------------------------ the three loops

  lemma {:induction false} ActivateOk(def: Definition, now: int, m: Nodes, order: seq<Key>, i: nat)
    requires RowsOk(def, m) && i <= |order|
    ensures var m' := Activate(def, now, m, order, i);
            RowsOk(def, m') && RowsEvolve(m, m')
  {
    if i > 0 {
      ActivateOk(def, now, m, order, i - 1);
      var w, k := Activate(def, now, m, order, i - 1), order[i - 1];
      var w' := ActivateOne(def, now, w, k);
      if w' != w {
        ReadyMeansCaused(def, StatusesOf(w), k);
        RowReplaced(def, w, k, w'[k]);
        EvolveTransitive(m, w, w');
      }
    }
  }

  /** The first loop leaves started rows alone; a pending row stays, starts or is skipped. */
  lemma {:induction false} ActivateKeepsStarted(def: Definition, now: int, m: Nodes, order: seq<Key>, i: nat)
    requires i <= |order|
    ensures var a := Activate(def, now, m, order, i);
            a.Keys == m.Keys && forall k :: k in m ==>
              if m[k].status != Pending then a[k] == m[k]
              else a[k] == m[k] || a[k] == Start(m[k], now) || a[k] == m[k].(status := Skipped)
    decreases i
  {
    if i > 0 { ActivateKeepsStarted(def, now, m, order, i - 1); }
  }

  /** What holds between the turns of the second loop. */
  ghost predicate SweepOk(def: Definition, s: RunState, w: Sweep) {
    && RowsOk(def, w.nodes) && RowsOk(def, w.saved.nodes)
    && RowsEvolve(s.nodes, w.saved.nodes) && RowsEvolve(w.saved.nodes, w.nodes)
    && (w.saved == s || w.saved.status == RunRunning)
  }

  lemma AdvanceOneRows(def: Definition, t: Tick, activated: set<Key>, w: Sweep, k: Key)
    requires RowsOk(def, w.nodes)
    ensures var w' := AdvanceOne(def, t, activated, w, k);
            RowsOk(def, w'.nodes) && RowsEvolve(w.nodes, w'.nodes)
            && (w'.progressed <==> w.progressed || w'.nodes != w.nodes)
  {
    if !w.raised && k in w.nodes && w.nodes[k].status == Running && k !in activated {
      var r := AdvanceRunning(w.nodes[k], Config(def, k), def.defaults, t.early(k));
      RunningRowEvolves(w.nodes[k], Config(def, k), def.defaults, t.early(k));
      if r.Moved? {
        RowReplaced(def, w.nodes, k, r.node);
        assert r.node != w.nodes[k] <==> w.nodes[k := r.node] != w.nodes;
      }
    }
  }

  lemma AdvanceOneSaved(def: Definition, t: Tick, activated: set<Key>, w: Sweep, k: Key)
    ensures var w' := AdvanceOne(def, t, activated, w, k);
            w'.saved == w.saved
            || (w'.saved.status == RunRunning && (w'.saved.nodes == w.nodes || w'.saved.nodes == w'.nodes))
  {
  }

  lemma AdvanceOneOk(def: Definition, t: Tick, activated: set<Key>, s: RunState, w: Sweep, k: Key)
    requires SweepOk(def, s, w)
    ensures var w' := AdvanceOne(def, t, activated, w, k);
            SweepOk(def, s, w') && RowsEvolve(w.nodes, w'.nodes)
            && (w'.progressed <==> w.progressed || w'.nodes != w.nodes)
  {
    var w' := AdvanceOne(def, t, activated, w, k);
    AdvanceOneRows(def, t, activated, w, k);
    AdvanceOneSaved(def, t, activated, w, k);
    EvolveTransitive(w.saved.nodes, w.nodes, w'.nodes);
    EvolveTransitive(s.nodes, w.saved.nodes, w.nodes);
    EvolveTransitive(s.nodes, w.nodes, w'.nodes);
  }

  lemma {:induction false} AdvancesOk(def: Definition, t: Tick, activated: set<Key>, s: RunState, w: Sweep, i: nat)
    requires SweepOk(def, s, w) && i <= |t.order|
    ensures var w' := Advances(def, t, activated, w, i);
            SweepOk(def, s, w') && RowsEvolve(w.nodes, w'.nodes)
            && (w'.progressed <==> w.progressed || w'.nodes != w.nodes)
  {
    if i > 0 {
      AdvancesOk(def, t, activated, s, w, i - 1);
      var v := Advances(def, t, activated, w, i - 1);
      AdvanceOneOk(def, t, activated, s, v, t.order[i - 1]);
      EvolveTransitive(w.nodes, v.nodes, AdvanceOne(def, t, activated, v, t.order[i - 1]).nodes);
    }
  }

  lemma SettledOk(def: Definition, t: Tick, m: Nodes)
    requires RowsOk(def, m)
    ensures RowsOk(def, Settled(def, t, m)) && RowsEvolve(m, Settled(def, t, m))
  {
    var z := Settled(def, t, m);
    forall k | k in m
      ensures NodeInv(z[k]) && Evolves(m[k], z[k]) && (WasActivated(z[k].status) ==> WasActivated(m[k].status))
    {
      if m[k].status == Waiting {
        WaitingRowEvolves(m[k], Config(def, k), def.defaults, t.late(k));
      }
    }
    OutcomesStay(m, z);
    forall k | k in z && WasActivated(z[k].status) ensures Caused(def, StatusesOf(z), k) {
      CauseKept(def, StatusesOf(m), StatusesOf(z), k);
    }
  }

  // ------------------------------------------------------------ one transaction

  /** The rows a tick of a live run goes through: `w` after the second loop, `z` after the third. */
  lemma TickParts(def: Definition, s: RunState, t: Tick) returns (w: Sweep, z: Nodes)
    requires Inv(def, s) && !TerminalRun(s.status)
    ensures w == Swept(def, s, t) && SweepOk(def, s, w) && RowsEvolve(s.nodes, w.nodes)
    ensures w.progressed <==> s.status == RunPending || w.nodes != s.nodes
    ensures z == Settled(def, t, w.nodes) && RowsOk(def, z) && RowsEvolve(s.nodes, z)
    ensures z != s.nodes <==> w.nodes != s.nodes || z != w.nodes
    ensures Step(def, s, t) ==
      if w.raised || RaisesLate(t, w.nodes) then Stepped(w.saved, false, w.created, true)
      else if !Finalises(z) then
        Stepped(RunState(RunRunning, z, s.error), w.progressed || z != w.nodes, w.created, false)
      else if AnyFailed(z) then Stepped(RunState(RunFailed, z, FirstError(t.order, z)), true, w.created, false)
      else Stepped(RunState(RunSucceeded, z, s.error), true, w.created, false)
  {
    var a := Activate(def, t.now, s.nodes, t.order, |t.order|);
    ActivateOk(def, t.now, s.nodes, t.order, |t.order|);
    var w0 := Sweep(a, s, [], s.status == RunPending || a != s.nodes, false);
    w := Advances(def, t, ActivatedKeys(s.nodes, a), w0, |t.order|);
    AdvancesOk(def, t, ActivatedKeys(s.nodes, a), s, w0, |t.order|);
    EvolveTransitive(s.nodes, a, w.nodes);
    z := Settled(def, t, w.nodes);
    SettledOk(def, t, w.nodes);
    EvolveTransitive(s.nodes, w.nodes, z);
  }

  /** A tick leaves what was committed when it raised, else its settled rows. */
  lemma TickShape(def: Definition, s: RunState, t: Tick, w: Sweep)
    requires !TerminalRun(s.status) && w == Swept(def, s, t)
    ensures var r := Step(def, s, t);
            r.created == w.created && (r.raised <==> w.raised || RaisesLate(t, w.nodes)) &&
            if r.raised then r.state == w.saved
            else r.state.nodes.Keys == w.nodes.Keys &&
                 forall k :: k in w.nodes ==> r.state.nodes[k] == Settle(def, t, w.nodes, k)
  {
  }

  /** Every step, raising or not, keeps the invariant; a step that returns normally
      reports progress exactly when it changed something. */
  lemma StepOk(def: Definition, s: RunState, t: Tick)
    requires Inv(def, s)
    ensures var r := Step(def, s, t);
            Inv(def, r.state) && RowsEvolve(s.nodes, r.state.nodes)
            && (r.progressed <==> !r.raised && r.state != s)
            && RunRank(r.state.status) <= RunRank(s.status)
  {
    if !TerminalRun(s.status) {
      var w, z := TickParts(def, s, t);
      if w.raised || RaisesLate(t, w.nodes) { SavedOk(def, s, w); } else { EndedOk(def, s, z, FirstError(t.order, z)); }
    }
  }

  lemma SavedOk(def: Definition, s: RunState, w: Sweep)
    requires Inv(def, s) && !TerminalRun(s.status) && SweepOk(def, s, w)
    ensures Inv(def, w.saved) && RowsEvolve(s.nodes, w.saved.nodes) && RunRank(w.saved.status) <= RunRank(s.status)
  {
  }

  lemma EndedOk(def: Definition, s: RunState, z: Nodes, error: Option<Reason>)
    requires Inv(def, s) && !TerminalRun(s.status) && RowsOk(def, z)
    ensures !Finalises(z) ==> Inv(def, RunState(RunRunning, z, s.error))
    ensures Finalises(z) && AnyFailed(z) ==> Inv(def, RunState(RunFailed, z, error))
    ensures Finalises(z) && !AnyFailed(z) ==> Inv(def, RunState(RunSucceeded, z, s.error))
  {
  }

  lemma SkipOpenOk(def: Definition, m: Nodes)
    requires RowsOk(def, m)
    ensures RowsOk(def, SkipOpen(m)) && RowsEvolve(m, SkipOpen(m)) && AllTerminal(SkipOpen(m))
  {
    var m' := SkipOpen(m);
    forall k | k in m
      ensures NodeInv(m'[k]) && Evolves(m[k], m'[k]) && Terminal(m'[k].status)
    {
    }
    OutcomesStay(m, m');
    forall k | k in m' && WasActivated(m'[k].status) ensures Caused(def, StatusesOf(m'), k) {
      CauseKept(def, StatusesOf(m), StatusesOf(m'), k);
    }
  }

  lemma CancelOk(def: Definition, s: RunState)
    requires Inv(def, s)
    ensures Inv(def, Cancel(s)) && RowsEvolve(s.nodes, Cancel(s).nodes)
  {
    SkipOpenOk(def, s.nodes);
  }

  lemma CalledOk(def: Definition, s: RunState, k: Key)
    requires Inv(def, s)
    ensures Inv(def, Called(s, k)) && RowsEvolve(s.nodes, Called(s, k).nodes)
  {
    if Called(s, k) != s {
      assert WasActivated(s.nodes[k].status);
      RowReplaced(def, s.nodes, k, Succeed(s.nodes[k]));
    }
  }

  // ------------------------------------------------------------ whole runs

  datatype Action = DoTick(t: Tick) | DoCancel | DoCallback(k: Key)

  ghost function Apply(def: Definition, s: RunState, a: Action): RunState {
    match a
    case DoTick(t) => Step(def, s, t).state
    case DoCancel => Cancel(s)
    case DoCallback(k) => Called(s, k)
  }

  /** The state after a sequence of transactions. */
  ghost function After(def: Definition, s: RunState, acts: seq<Action>): RunState {
    if acts == [] then s else Apply(def, After(def, s, acts[..|acts| - 1]), acts[|acts| - 1])
  }

  lemma ApplyOk(def: Definition, s: RunState, a: Action)
    requires Inv(def, s)
    ensures Inv(def, Apply(def, s, a)) && RowsEvolve(s.nodes, Apply(def, s, a).nodes)
  {
    match a
    case DoTick(t) => StepOk(def, s, t);
    case DoCancel => CancelOk(def, s);
    case DoCallback(k) => CalledOk(def, s, k);
  }

  lemma {:induction false} RunKeepsInv(def: Definition, s: RunState, acts: seq<Action>)
    requires Inv(def, s)
    ensures Inv(def, After(def, s, acts)) && RowsEvolve(s.nodes, After(def, s, acts).nodes)
  {
    if acts != [] {
      var init := acts[..|acts| - 1];
      RunKeepsInv(def, s, init);
      ApplyOk(def, After(def, s, init), acts[|acts| - 1]);
      EvolveTransitive(s.nodes, After(def, s, init).nodes, After(def, s, acts).nodes);
    }
  }

  lemma NewRunOk(def: Definition)
    ensures Inv(def, NewRun(def))
  {
  }

  /** Every reachable state: causal order, one activation per node, a terminal run
      has only terminal nodes, and a run finalised by the engine is failed exactly
      when some node failed. */
  lemma ReachableStates(def: Definition, acts: seq<Action>)
    ensures var s := After(def, NewRun(def), acts);
            && (forall k :: k in s.nodes && WasActivated(s.nodes[k].status) ==> Caused(def, StatusesOf(s.nodes), k))
            && (forall k :: k in s.nodes ==> s.nodes[k].attempt <= 1)
            && (TerminalRun(s.status) ==> AllTerminal(s.nodes))
            && (s.status == RunSucceeded || s.status == RunFailed ==> (s.status == RunFailed <==> AnyFailed(s.nodes)))
  {
    NewRunOk(def);
    RunKeepsInv(def, NewRun(def), acts);
  }

  /** Between any two points of any run an ended node is frozen and links are kept. */
  lemma EndedNodesFrozen(def: Definition, acts: seq<Action>, more: seq<Action>, k: Key)
    requires k in def.nodes
    ensures var s, s' := After(def, NewRun(def), acts), After(def, After(def, NewRun(def), acts), more);
            && k in s.nodes && k in s'.nodes
            && (Terminal(s.nodes[k].status) ==> s'.nodes[k] == s.nodes[k])
            && (s.nodes[k].execTask.Some? ==> s'.nodes[k].execTask == s.nodes[k].execTask)
            && (s.nodes[k].approval.Some? ==> s'.nodes[k].approval == s.nodes[k].approval)
  {
    NewRunOk(def);
    RunKeepsInv(def, NewRun(def), acts);
    var s := After(def, NewRun(def), acts);
    RunKeepsInv(def, s, more);
    assert Evolves(s.nodes[k], After(def, s, more).nodes[k]);
  }

  // ------------------------------------------------------------ bounded progress

  ghost function RunRank(s: RunStatus): nat {
    if s == RunPending then 2 else if s == RunRunning then 1 else 0
  }

  ghost function SumRank(m: Nodes, ks: seq<Key>): nat
    requires forall k :: k in ks ==> k in m
  {
    if ks == [] then 0 else Rank(m[ks[0]]) + SumRank(m, ks[1..])
  }

  ghost function TotalRank(s: RunState, ks: seq<Key>): nat
    requires forall k :: k in ks ==> k in s.nodes
  {
    RunRank(s.status) + SumRank(s.nodes, ks)
  }

  lemma {:induction false} SumRankFalls(m: Nodes, m': Nodes, ks: seq<Key>)
    requires RowsEvolve(m, m') && forall k :: k in ks ==> k in m
    ensures SumRank(m', ks) <= SumRank(m, ks)
    ensures (exists k :: k in ks && m'[k] != m[k]) ==> SumRank(m', ks) < SumRank(m, ks)
  {
    if ks != [] {
      assert Evolves(m[ks[0]], m'[ks[0]]);
      SumRankFalls(m, m', ks[1..]);
      if k :| k in ks && m'[k] != m[k] {
        assert k == ks[0] || k in ks[1..];
      }
    }
  }

  lemma {:induction false} SumRankBound(m: Nodes, ks: seq<Key>)
    requires forall k :: k in ks ==> k in m
    ensures SumRank(m, ks) <= 4 * |ks|
  {
    if ks != [] {
      SumRankBound(m, ks[1..]);
    }
  }

  /** No transaction raises the rank, and a tick that returns true lowers it. */
  lemma RankFalls(def: Definition, s: RunState, a: Action, ks: seq<Key>)
    requires Inv(def, s) && forall k :: k in ks <==> k in def.nodes
    ensures Apply(def, s, a).nodes.Keys == s.nodes.Keys
    ensures TotalRank(Apply(def, s, a), ks) <= TotalRank(s, ks)
    ensures a.DoTick? && Step(def, s, a.t).progressed ==> TotalRank(Apply(def, s, a), ks) < TotalRank(s, ks)
  {
    ApplyOk(def, s, a);
    var s' := Apply(def, s, a);
    SumRankFalls(s.nodes, s'.nodes, ks);
    if a.DoTick? {
      StepOk(def, s, a.t);
      if Step(def, s, a.t).progressed && s'.status == s.status {
        StatusSameMeansRows(def, s, a.t);
        var k :| k in s.nodes && s'.nodes[k] != s.nodes[k];
        assert k in ks;
      }
    }
  }

  lemma StatusSameMeansRows(def: Definition, s: RunState, t: Tick)
    requires Inv(def, s)
    requires Step(def, s, t).progressed && Step(def, s, t).state.status == s.status
    ensures Step(def, s, t).state.nodes != s.nodes
  {
    StepOk(def, s, t);
  }

  /** How many ticks of a run returned true. */
  ghost function Progressing(def: Definition, s: RunState, acts: seq<Action>): nat {
    if acts == [] then 0 else
      var init, a := acts[..|acts| - 1], acts[|acts| - 1];
      Progressing(def, s, init)
      + if a.DoTick? && Step(def, After(def, s, init), a.t).progressed then 1 else 0
  }

  lemma {:induction false} ProgressSpendsRank(def: Definition, s: RunState, acts: seq<Action>, ks: seq<Key>)
    requires Inv(def, s) && forall k :: k in ks <==> k in def.nodes
    ensures After(def, s, acts).nodes.Keys == s.nodes.Keys
    ensures Progressing(def, s, acts) + TotalRank(After(def, s, acts), ks) <= TotalRank(s, ks)
  {
    if acts != [] {
      var init := acts[..|acts| - 1];
      ProgressSpendsRank(def, s, init, ks);
      RunKeepsInv(def, s, init);
      RankFalls(def, After(def, s, init), acts[|acts| - 1], ks);
    }
  }

  /** An n-node run has at most 4n + 2 progressing ticks, whatever the environment does. */
  lemma BoundedProgress(def: Definition, acts: seq<Action>, ks: seq<Key>)
    requires forall k :: k in ks <==> k in def.nodes
    ensures Progressing(def, NewRun(def), acts) <= 4 * |ks| + 2
  {
    NewRunOk(def);
    ProgressSpendsRank(def, NewRun(def), acts, ks);
    SumRankBound(NewRun(def).nodes, ks);
  }

  // ------------------------------------------------------------ row order

  ghost predicate SameOutcomes(m: Nodes, w: Nodes) {
    OutcomesKept(StatusesOf(m), StatusesOf(w)) && OutcomesKept(StatusesOf(w), StatusesOf(m))
  }

  /** With the same outcomes a row has a cause in both or in neither. */
  lemma SameCause(def: Definition, m: Nodes, w: Nodes, k: Key) returns (caused: bool)
    requires SameOutcomes(m, w)
    ensures caused == Caused(def, StatusesOf(w), k)
    ensures caused == Caused(def, StatusesOf(m), k)
  {
    caused := Caused(def, StatusesOf(m), k);
    if caused {
      CauseKept(def, StatusesOf(m), StatusesOf(w), k);
    } else if Caused(def, StatusesOf(w), k) {
      CauseKept(def, StatusesOf(w), StatusesOf(m), k);
    }
  }

  /** What the first loop has done after `i` rows: it has started exactly the caused
      pending rows among them, judged by the statuses before the loop. */
  ghost predicate StartedExactly(def: Definition, m: Nodes, m': Nodes, seen: seq<Key>) {
    && m'.Keys == m.Keys
    && (forall k {:trigger Caused(def, StatusesOf(m), k)} :: k in m && m[k].status == Pending ==>
         (m'[k].status == Running <==> k in seen && Caused(def, StatusesOf(m), k)))
    && (forall k :: k in m && k !in seen ==> m'[k] == m[k])
  }

  /** The state of the first loop: the outcomes are as before, and the rows `seen` are judged. */
  ghost predicate LoopState(def: Definition, m: Nodes, w: Nodes, seen: seq<Key>) {
    SameOutcomes(m, w) && StartedExactly(def, m, w, seen)
  }

  /** A turn of the first loop neither ends a row with an outcome nor undoes one. */
  lemma TurnKeepsOutcomes(def: Definition, now: int, m: Nodes, w: Nodes, k: Key)
    requires SameOutcomes(m, w)
    ensures SameOutcomes(m, ActivateOne(def, now, w, k))
  {
    var w' := ActivateOne(def, now, w, k);
    assert forall j :: j in w ==> j in w' && (w'[j] == w[j] || (j == k && w[j].status == Pending &&
                                              (w'[j].status == Running || w'[j].status == Skipped)));
    assert w'.Keys == w.Keys;
  }

  lemma {:induction false} ActivateSet(def: Definition, now: int, m: Nodes, order: seq<Key>, i: nat)
    requires RowOrder(m, order) && i <= |order|
    ensures LoopState(def, m, Activate(def, now, m, order, i), order[..i])
    decreases i
  {
    if i > 0 {
      ActivateSet(def, now, m, order, i - 1);
      LoopTurn(def, now, m, order, i, Activate(def, now, m, order, i - 1));
    }
  }

  lemma LoopTurn(def: Definition, now: int, m: Nodes, order: seq<Key>, i: nat, before: Nodes)
    requires RowOrder(m, order) && 0 < i <= |order| && LoopState(def, m, before, order[..i - 1])
    ensures LoopState(def, m, ActivateOne(def, now, before, order[i - 1]), order[..i])
  {
    var caused := SameCause(def, m, before, order[i - 1]);
    var w := StartedNext(def, now, m, order, i, before, caused);
    TurnKeepsOutcomes(def, now, m, before, order[i - 1]);
  }

  lemma StartedNext(def: Definition, now: int, m: Nodes, order: seq<Key>, i: nat, before: Nodes, caused: bool)
    returns (w: Nodes)
    requires RowOrder(m, order) && 0 < i <= |order| && StartedExactly(def, m, before, order[..i - 1])
    requires caused == Caused(def, StatusesOf(before), order[i - 1])
    requires caused == Caused(def, StatusesOf(m), order[i - 1])
    ensures w == ActivateOne(def, now, before, order[i - 1]) && StartedExactly(def, m, w, order[..i])
  {
    NextKey(m, order, i);
    w := StartedTurn(def, now, m, before, order[..i - 1], order[i - 1], caused);
  }

  lemma NextKey(m: Nodes, order: seq<Key>, i: nat)
    requires RowOrder(m, order) && 0 < i <= |order|
    ensures order[i - 1] in m && order[i - 1] !in order[..i - 1] && order[..i] == order[..i - 1] + [order[i - 1]]
  {
    assert order[i - 1] in order;
  }

  lemma StartedTurn(def: Definition, now: int, m: Nodes, w: Nodes, seen: seq<Key>, k: Key, caused: bool)
    returns (w': Nodes)
    requires StartedExactly(def, m, w, seen) && k in m && k !in seen
    requires caused == Caused(def, StatusesOf(w), k)
    requires caused == Caused(def, StatusesOf(m), k)
    ensures w' == ActivateOne(def, now, w, k) && StartedExactly(def, m, w', seen + [k])
  {
    w' := ActivateOne(def, now, w, k);
    assert w[k] == m[k];
    ReadyMeansCaused(def, StatusesOf(w), k);
    assert forall j :: j in seen + [k] <==> j in seen || j == k;
  }

  /** The rows one tick activates are the pending rows that had a cause before it,
      in whatever order the rows come back. */
  lemma ActivationIgnoresOrder(def: Definition, now: int, m: Nodes, order: seq<Key>)
    requires RowOrder(m, order)
    ensures ActivatedKeys(m, Activate(def, now, m, order, |order|))
            == set k | k in m && m[k].status == Pending && Caused(def, StatusesOf(m), k)
  {
    ActivateSet(def, now, m, order, |order|);
    assert order[..|order|] == order;
  }

  /** In-pass skips do depend on it: down a chain of dependencies behind a failed
      node, one pass skips both rows in one order and only the nearer in the other. */
  lemma SkipsDependOnOrder(def: Definition, now: int, m: Nodes, a: Key, b: Key, c: Key)
    requires a in m && b in m && c in m && a != b && b != c && a != c
    requires m[a].status == Failed && m[b].status == Pending && m[c].status == Pending
    requires Deps(def, b) == [a] && Deps(def, c) == [b]
    requires SuccessSources(def, b) == {} && FailureSources(def, b) == {}
    requires SuccessSources(def, c) == {} && FailureSources(def, c) == {}
    ensures Is(StatusesOf(Activate(def, now, m, [b, c], 2)), b, Skipped)
    ensures Is(StatusesOf(Activate(def, now, m, [b, c], 2)), c, Skipped)
    ensures Is(StatusesOf(Activate(def, now, m, [c, b], 2)), b, Skipped)
    ensures Is(StatusesOf(Activate(def, now, m, [c, b], 2)), c, Pending)
  {
    var skipped := m[b := m[b].(status := Skipped)];
    assert a in Deps(def, b) && b in Deps(def, c);
    assert forall d :: d in Deps(def, b) ==> d == a;
    assert forall d :: d in Deps(def, c) ==> d == b;
    assert Is(StatusesOf(m), a, Failed) && Is(StatusesOf(m), b, Pending);
    assert Is(StatusesOf(skipped), b, Skipped);
    assert VerdictOf(def, StatusesOf(m), b) == Verdict.Skip;
    assert VerdictOf(def, StatusesOf(skipped), c) == Verdict.Skip;
    assert VerdictOf(def, StatusesOf(m), c) == Verdict.Wait;
    assert Activate(def, now, m, [b, c], 0) == m && Activate(def, now, m, [c, b], 0) == m;
    assert Activate(def, now, m, [b, c], 1) == skipped;
    assert Activate(def, now, m, [c, b], 1) == m;
  }
}
