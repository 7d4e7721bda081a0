/** Why rows are skipped, and which definitions therefore never get stuck. */
module WorkflowSkips {
  import opened Wrappers
  import opened Graph
  import opened WorkflowTypes
  import opened WorkflowModel
  import opened WorkflowRuns
  import opened WorkflowLiveness
  import V = WorkflowValidation

  // ------------------------------------------------------------ the cause of a skip

  /** A failed success source, or a dependency that failed, was skipped or was cancelled. */
  ghost predicate SkipCaused(def: Definition, st: Statuses, k: Key) {
    || (exists s :: s in SuccessSources(def, k) && Is(st, s, Failed))
    || (exists d :: d in Deps(def, k) && (Is(st, d, Failed) || Is(st, d, Skipped) || Is(st, d, Cancelled)))
  }

  ghost predicate SkipsOk(def: Definition, m: Nodes) {
    && (forall k :: k in m ==> m[k].status != Cancelled)
    && (forall k {:trigger SkipCaused(def, StatusesOf(m), k)} ::
          k in m && m[k].status == Skipped ==> SkipCaused(def, StatusesOf(m), k))
  }

  lemma SkipCauseKept(def: Definition, m: Nodes, m': Nodes, k: Key)
    requires RowsEvolve(m, m') && SkipCaused(def, StatusesOf(m), k)
    ensures SkipCaused(def, StatusesOf(m'), k)
  {
    var st, st' := StatusesOf(m), StatusesOf(m');
    forall x | x in m && Terminal(m[x].status) ensures Is(st', x, m[x].status) { assert Evolves(m[x], m'[x]); }
    if s :| s in SuccessSources(def, k) && Is(st, s, Failed) {
      assert Is(st', s, Failed);
    } else {
      var d :| d in Deps(def, k) && (Is(st, d, Failed) || Is(st, d, Skipped) || Is(st, d, Cancelled));
      assert Is(st', d, m[d].status);
    }
  }

  /** A change that skips only rows with a cause. */
  lemma SkipsKept(def: Definition, m: Nodes, m': Nodes)
    requires RowsEvolve(m, m') && SkipsOk(def, m)
    requires forall k :: k in m' && m'[k].status != m[k].status ==>
               m'[k].status != Cancelled && (m'[k].status == Skipped ==> SkipCaused(def, StatusesOf(m), k))
    ensures SkipsOk(def, m')
  {
    forall k | k in m' && m'[k].status == Skipped ensures SkipCaused(def, StatusesOf(m'), k) {
      assert SkipCaused(def, StatusesOf(m), k);
      SkipCauseKept(def, m, m', k);
    }
  }

  /** A pending node is to be skipped exactly when it has such a cause and no failure leads to it. */
  lemma SkipVerdict(def: Definition, st: Statuses, k: Key)
    ensures VerdictOf(def, st, k) == Verdict.Skip <==> SkipCaused(def, st, k) && !FailureRoute(def, st, k)
  {
  }

  lemma TurnSkips(def: Definition, now: int, m: Nodes, k: Key)
    requires RowsOk(def, m) && SkipsOk(def, m)
    ensures SkipsOk(def, ActivateOne(def, now, m, k))
  {
    TurnEvolves(def, now, m, k);
    if k in m && m[k].status == Pending && VerdictOf(def, StatusesOf(m), k) == Verdict.Skip {
      SkipVerdict(def, StatusesOf(m), k);
    }
    SkipsKept(def, m, ActivateOne(def, now, m, k));
  }

  lemma {:induction false} ActivateSkips(def: Definition, now: int, m: Nodes, order: seq<Key>, i: nat)
    requires RowsOk(def, m) && SkipsOk(def, m) && i <= |order|
    ensures SkipsOk(def, Activate(def, now, m, order, i))
    decreases i
  {
    if i > 0 {
      ActivateSkips(def, now, m, order, i - 1);
      ActivateOk(def, now, m, order, i - 1);
      TurnSkips(def, now, Activate(def, now, m, order, i - 1), order[i - 1]);
    }
  }

  lemma AdvanceOneSkipsNone(def: Definition, t: Tick, activated: set<Key>, w: Sweep, k: Key)
    requires RowsOk(def, w.nodes)
    ensures var m := AdvanceOne(def, t, activated, w, k).nodes;
            forall j :: j in m && j in w.nodes && m[j].status != w.nodes[j].status ==> WasActivated(m[j].status)
  {
    if !w.raised && k in w.nodes && w.nodes[k].status == Running && k !in activated {
      RunningRowEvolves(w.nodes[k], Config(def, k), def.defaults, t.early(k));
    }
  }

  lemma AdvanceOneSkips(def: Definition, t: Tick, activated: set<Key>, w: Sweep, k: Key)
    requires RowsOk(def, w.nodes) && SkipsOk(def, w.nodes)
    ensures SkipsOk(def, AdvanceOne(def, t, activated, w, k).nodes)
  {
    AdvanceOneRows(def, t, activated, w, k);
    AdvanceOneSkipsNone(def, t, activated, w, k);
    NoSkipsKept(def, w.nodes, AdvanceOne(def, t, activated, w, k).nodes);
  }

  /** A change that skips nothing. */
  lemma NoSkipsKept(def: Definition, m: Nodes, m': Nodes)
    requires RowsEvolve(m, m') && SkipsOk(def, m)
    requires forall j :: j in m' && j in m && m'[j].status != m[j].status ==> WasActivated(m'[j].status)
    ensures SkipsOk(def, m')
  {
    SkipsKept(def, m, m');
  }

  lemma {:induction false} AdvancesSkips(def: Definition, t: Tick, activated: set<Key>, s: RunState, w: Sweep, i: nat)
    requires SweepOk(def, s, w) && i <= |t.order| && SkipsOk(def, w.nodes) && SkipsOk(def, w.saved.nodes)
    ensures var w' := Advances(def, t, activated, w, i);
            SkipsOk(def, w'.nodes) && SkipsOk(def, w'.saved.nodes)
    decreases i
  {
    if i > 0 {
      var v := Advances(def, t, activated, w, i - 1);
      AdvancesSkips(def, t, activated, s, w, i - 1);
      AdvancesOk(def, t, activated, s, w, i - 1);
      AdvanceOneSkips(def, t, activated, v, t.order[i - 1]);
      AdvanceOneSaved(def, t, activated, v, t.order[i - 1]);
    }
  }

  lemma SettledSkips(def: Definition, t: Tick, m: Nodes)
    requires RowsOk(def, m) && SkipsOk(def, m)
    ensures SkipsOk(def, Settled(def, t, m))
  {
    var z := Settled(def, t, m);
    SettledOk(def, t, m);
    forall k | k in m && z[k].status != m[k].status ensures WasActivated(z[k].status) {
      WaitingRowEvolves(m[k], Config(def, k), def.defaults, t.late(k));
    }
    SkipsKept(def, m, z);
  }

  lemma SweptSkips(def: Definition, s: RunState, t: Tick)
    requires Inv(def, s) && SkipsOk(def, s.nodes)
    ensures var w := Swept(def, s, t);
            RowsOk(def, w.nodes) && SkipsOk(def, w.nodes) && SkipsOk(def, w.saved.nodes)
  {
    var a := Activate(def, t.now, s.nodes, t.order, |t.order|);
    ActivateSkips(def, t.now, s.nodes, t.order, |t.order|);
    var w := SweepStarts(def, s, t, a);
    AdvancesSkips(def, t, ActivatedKeys(s.nodes, a), s, w, |t.order|);
    AdvancesOk(def, t, ActivatedKeys(s.nodes, a), s, w, |t.order|);
  }

  lemma SweepStarts(def: Definition, s: RunState, t: Tick, a: Nodes) returns (w: Sweep)
    requires Inv(def, s) && a == Activate(def, t.now, s.nodes, t.order, |t.order|)
    ensures w == Sweep(a, s, [], s.status == RunPending || a != s.nodes, false) && SweepOk(def, s, w)
    ensures Swept(def, s, t) == Advances(def, t, ActivatedKeys(s.nodes, a), w, |t.order|)
  {
    ActivateOk(def, t.now, s.nodes, t.order, |t.order|);
    w := Sweep(a, s, [], s.status == RunPending || a != s.nodes, false);
  }

  lemma StepSkips(def: Definition, s: RunState, t: Tick)
    requires Inv(def, s) && SkipsOk(def, s.nodes)
    ensures SkipsOk(def, Step(def, s, t).state.nodes)
  {
    if !TerminalRun(s.status) {
      var w := Swept(def, s, t);
      SweptSkips(def, s, t);
      SettledSkips(def, t, w.nodes);
      StepNodes(def, s, t);
    }
  }

  lemma StepNodes(def: Definition, s: RunState, t: Tick)
    requires !TerminalRun(s.status)
    ensures var w := Swept(def, s, t);
            Step(def, s, t).state.nodes ==
              if w.raised || RaisesLate(t, w.nodes) then w.saved.nodes else Settled(def, t, w.nodes)
  {
  }

  lemma CalledSkips(def: Definition, s: RunState, k: Key)
    requires Inv(def, s) && SkipsOk(def, s.nodes)
    ensures SkipsOk(def, Called(s, k).nodes)
  {
    CalledOk(def, s, k);
    SkipsKept(def, s.nodes, Called(s, k).nodes);
  }

  /** In every run that has not been cancelled, a skipped row has a failed success source, or a
      dependency that failed or was skipped; no row is ever cancelled. */
  lemma {:induction false} SkippedRowsHaveACause(def: Definition, acts: seq<Action>)
    ensures var s := After(def, NewRun(def), acts);
            Inv(def, s) && (s.status != RunCancelled ==> SkipsOk(def, s.nodes))
    decreases |acts|
  {
    NewRunOk(def);
    RunKeepsInv(def, NewRun(def), acts);
    if acts != [] {
      var init, a := acts[..|acts| - 1], acts[|acts| - 1];
      SkippedRowsHaveACause(def, init);
      var s := After(def, NewRun(def), init);
      ApplySkips(def, s, a);
    }
  }

  lemma ApplySkips(def: Definition, s: RunState, a: Action)
    requires Inv(def, s) && (s.status != RunCancelled ==> SkipsOk(def, s.nodes))
    ensures Apply(def, s, a).status != RunCancelled ==> SkipsOk(def, Apply(def, s, a).nodes)
  {
    if s.status != RunCancelled {
      match a
      case DoTick(t) => StepSkips(def, s, t);
      case DoCancel =>
      case DoCallback(k) => CalledSkips(def, s, k);
    }
  }

  // ------------------------------------------------------------ definitions that never get stuck

  /** Everything `k` waits for. */
  ghost function Awaits(def: Definition, k: Key): set<Key> {
    (set d | d in Deps(def, k)) + SuccessSources(def, k)
  }

  ghost predicate Covers(def: Definition, b: Key, c: Key) {
    Awaits(def, b) <= Awaits(def, c)
  }

  /** Along every success route b -> c, whatever b waits for, c waits for too. */
  ghost predicate Covered(def: Definition) {
    forall b, c {:trigger Covers(def, b, c)} :: b in SuccessSources(def, c) ==> Covers(def, b, c)
  }

  /** A failed node among those awaited, or a skipped dependency, settles the verdict. */
  lemma NotWaiting(def: Definition, st: Statuses, k: Key, u: Key)
    requires (u in Awaits(def, k) && Is(st, u, Failed)) || (u in Deps(def, k) && Is(st, u, Skipped))
    ensures VerdictOf(def, st, k) != Verdict.Wait
  {
    assert u in SuccessSources(def, k) || u in Deps(def, k);
  }

  lemma AwaitedEdge(def: Definition, u: Key, k: Key)
    requires k in def.nodes && u in Awaits(def, k)
    ensures (u, k) in WaitEdges(def)
  {
  }

  ghost function SkippedSources(def: Definition, m: Nodes, k: Key): set<Key> {
    set x | x in SuccessSources(def, k) && x in m && m[x].status == Skipped
  }

  /** With an acyclic wait graph, a covered definition has no deadlocked state. */
  lemma CoveredNotDeadlocked(def: Definition, s: RunState)
    requires Inv(def, s) && SkipsOk(def, s.nodes) && RefsKnown(def) && s.nodes != map[]
    requires Acyclic(WaitEdges(def)) && Covered(def)
    ensures !Deadlocked(def, s)
  {
    if Deadlocked(def, s) {
      var k, src := StuckOnSkippedSource(def, s);
      var st, skipped := StatusesOf(s.nodes), SkippedSources(def, s.nodes, k);
      assert src in skipped;
      var x := AcyclicHasSource(WaitEdges(def), skipped);
      assert SkipCaused(def, st, x);
      assert Covers(def, x, k);
      if u :| u in Awaits(def, x) && Is(st, u, Failed) {
        NotWaiting(def, st, k, u);
      } else {
        var d :| d in Deps(def, x) && Is(st, d, Skipped);
        assert d in Awaits(def, x);
        AwaitedEdge(def, d, x);
        assert d !in skipped;
        NotWaiting(def, st, k, d);
      }
      assert false;
    }
  }

  /**
   * Every accepted, non-empty definition with an acyclic wait graph in which each success route
   * is covered: no run ever deadlocks, and whenever nothing is in flight the next step makes
   * progress.  Node types and failure routes do not matter.
   */
  lemma CoveredNeverStuck(d: V.RawDefinition, acts: seq<Action>, t: Tick)
    requires V.Acceptable(d) && d.nodes != [] && Acyclic(WaitEdges(Load(d))) && Covered(Load(d))
    ensures var s := After(Load(d), NewRun(Load(d)), acts);
            && !Deadlocked(Load(d), s)
            && (s.status == RunRunning && Quiescent(s.nodes) && RowOrder(s.nodes, t.order) && !t.fails ==>
                  Step(Load(d), s, t).progressed)
  {
    var def := Load(d);
    var s := After(def, NewRun(def), acts);
    SkippedRowsHaveACause(def, acts);
    AcceptedRefsKnown(d);
    HasRows(d, s);
    if s.status != RunCancelled { CoveredNotDeadlocked(def, s); }
    if s.status == RunRunning && Quiescent(s.nodes) && RowOrder(s.nodes, t.order) {
      ProgressUnlessDeadlocked(def, s, t);
    }
  }

  lemma HasRows(d: V.RawDefinition, s: RunState)
    requires V.Acceptable(d) && d.nodes != [] && Inv(Load(d), s)
    ensures s.nodes != map[]
  {
    LoadedKeys(d.nodes);
    assert V.KeyOf(d.nodes[0]) in V.KeysOf(d.nodes);
    assert V.KeyOf(d.nodes[0]) in s.nodes;
  }
}
