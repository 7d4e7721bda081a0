/** When a workflow run can get stuck: the link between what the validator accepts
    and what the engine waits for. */
module WorkflowLiveness {
  import opened Wrappers
  import opened Graph
  import opened WorkflowTypes
  import opened WorkflowModel
  import opened WorkflowRuns
  import V = WorkflowValidation

  /** The engine's wait graph: an edge from what is waited for to the node that waits.
      A node waits for its dependencies and for the sources of its success routes. */
  ghost function WaitEdges(def: Definition): Edges {
    (set k, d | k in def.nodes && d in def.nodes[k].dependsOn :: (d, k))
    + (set s, k | s in def.nodes && k in def.nodes[s].onSuccess :: (s, k))
  }

  ghost predicate RefsKnown(def: Definition) {
    forall k, d :: k in def.nodes && d in def.nodes[k].dependsOn ==> d in def.nodes
  }

  /** Nothing is in flight: every row is pending or has ended. */
  ghost predicate Quiescent(m: Nodes) {
    forall k :: k in m ==> m[k].status == Pending || Terminal(m[k].status)
  }

  ghost function PendingKeys(m: Nodes): set<Key> {
    set k | k in m && m[k].status == Pending
  }

  /** The run has not ended, nothing is in flight, everything pending waits, and the
      run cannot be finalised: it has no rows, or some row is pending. */
  ghost predicate Deadlocked(def: Definition, s: RunState) {
    !TerminalRun(s.status) && Quiescent(s.nodes) && AllWait(def, s.nodes) && !Finalises(s.nodes)
  }

  // ------------------------------------------------------------ what a deadlock needs

  /** With an acyclic wait graph, only a success source that was skipped or cancelled
      can hold everything up. */
  lemma StuckOnSkippedSource(def: Definition, s: RunState) returns (k: Key, src: Key)
    requires Inv(def, s) && RefsKnown(def) && Acyclic(WaitEdges(def))
    requires Deadlocked(def, s) && s.nodes != map[]
    ensures k in s.nodes && s.nodes[k].status == Pending
    ensures src in s.nodes && src in SuccessSources(def, k)
    ensures s.nodes[src].status == Skipped || s.nodes[src].status == Cancelled
  {
    var p :| p in s.nodes && !Terminal(s.nodes[p].status);
    assert p in PendingKeys(s.nodes);
    k := AcyclicHasSource(WaitEdges(def), PendingKeys(s.nodes));
    src := StuckNode(def, s.nodes, k);
  }

  lemma AwaitedHasEnded(def: Definition, m: Nodes, k: Key, d: Key)
    requires k in def.nodes && d in m && Quiescent(m)
    requires !HasPredecessorIn(WaitEdges(def), PendingKeys(m), k)
    requires d in Deps(def, k) || (d in def.nodes && k in def.nodes[d].onSuccess)
    ensures Terminal(m[d].status)
  {
    assert (d, k) in WaitEdges(def);
    assert d !in PendingKeys(m);
  }

  /** A pending node that waits for no pending node, and yet must wait, has a success
      source that was skipped or cancelled. */
  lemma StuckNode(def: Definition, m: Nodes, k: Key) returns (src: Key)
    requires RowsOk(def, m) && RefsKnown(def) && Quiescent(m)
    requires k in m && VerdictOf(def, StatusesOf(m), k) == Verdict.Wait
    requires !HasPredecessorIn(WaitEdges(def), PendingKeys(m), k)
    ensures src in m && src in SuccessSources(def, k) && (m[src].status == Skipped || m[src].status == Cancelled)
  {
    var st := StatusesOf(m);
    forall d | d in Deps(def, k) ensures Is(st, d, Succeeded) {
      AwaitedHasEnded(def, m, k, d);
      assert !Is(st, d, Failed) && !Is(st, d, Skipped) && !Is(st, d, Cancelled);
    }
    src :| src in SuccessSources(def, k) && !Is(st, src, Succeeded);
    AwaitedHasEnded(def, m, k, src);
    assert !Is(st, src, Failed);
  }

  lemma TurnEvolves(def: Definition, now: int, m: Nodes, k: Key)
    requires RowsOk(def, m)
    ensures RowsEvolve(m, ActivateOne(def, now, m, k))
  {
    assert Activate(def, now, m, [k], 0) == m;
    assert Activate(def, now, m, [k], 1) == ActivateOne(def, now, m, k);
    ActivateOk(def, now, m, [k], 1);
  }

  lemma {:induction false} LaterTurnsEvolve(def: Definition, now: int, m: Nodes, order: seq<Key>, i: nat, j: nat)
    requires RowsOk(def, m) && i <= j <= |order|
    ensures RowsEvolve(Activate(def, now, m, order, i), Activate(def, now, m, order, j))
    decreases j
  {
    if i < j {
      var w := Activate(def, now, m, order, j - 1);
      LaterTurnsEvolve(def, now, m, order, i, j - 1);
      ActivateOk(def, now, m, order, j - 1);
      TurnEvolves(def, now, w, order[j - 1]);
      EvolveTransitive(Activate(def, now, m, order, i), w, ActivateOne(def, now, w, order[j - 1]));
    }
  }

  /** Rows only evolve forward: a first loop that changed nothing changed nothing at any turn. */
  lemma UnchangedThroughout(def: Definition, now: int, m: Nodes, order: seq<Key>, i: nat)
    requires RowsOk(def, m) && i <= |order| && Activate(def, now, m, order, |order|) == m
    ensures Activate(def, now, m, order, i) == m
  {
    ActivateOk(def, now, m, order, i);
    LaterTurnsEvolve(def, now, m, order, i, |order|);
    EvolveTransitive(m, Activate(def, now, m, order, i), Activate(def, now, m, order, |order|));
  }

  ghost predicate AllWait(def: Definition, m: Nodes) {
    forall k {:trigger VerdictOf(def, StatusesOf(m), k)} ::
      k in m && m[k].status == Pending ==> VerdictOf(def, StatusesOf(m), k) == Verdict.Wait
  }

  lemma UnchangedMeansWait(def: Definition, now: int, m: Nodes, k: Key)
    requires k in m && m[k].status == Pending && ActivateOne(def, now, m, k) == m
    ensures VerdictOf(def, StatusesOf(m), k) == Verdict.Wait
  {
    assert m[k := m[k].(status := Skipped)][k] != m[k] && m[k := Start(m[k], now)][k] != m[k];
  }

  lemma UnchangedRowWaits(def: Definition, now: int, m: Nodes, order: seq<Key>, j: nat)
    requires RowsOk(def, m) && j < |order| && Activate(def, now, m, order, |order|) == m
    requires order[j] in m && m[order[j]].status == Pending
    ensures VerdictOf(def, StatusesOf(m), order[j]) == Verdict.Wait
  {
    UnchangedThroughout(def, now, m, order, j);
    UnchangedThroughout(def, now, m, order, j + 1);
    UnchangedMeansWait(def, now, m, order[j]);
  }

  /** The first loop changes nothing exactly when every pending row waits. */
  lemma IdleFirstLoop(def: Definition, now: int, m: Nodes, order: seq<Key>)
    requires RowsOk(def, m) && RowOrder(m, order)
    ensures Activate(def, now, m, order, |order|) == m <==> AllWait(def, m)
  {
    if Activate(def, now, m, order, |order|) == m {
      forall k | k in m && m[k].status == Pending ensures VerdictOf(def, StatusesOf(m), k) == Verdict.Wait {
        var j :| 0 <= j < |order| && order[j] == k;
        UnchangedRowWaits(def, now, m, order, j);
      }
    } else if AllWait(def, m) {
      WaitingFirstLoop(def, now, m, order, |order|);
    }
  }

  lemma {:induction false} WaitingFirstLoop(def: Definition, now: int, m: Nodes, order: seq<Key>, i: nat)
    requires i <= |order| && AllWait(def, m)
    ensures Activate(def, now, m, order, i) == m
  {
    if i > 0 {
      WaitingFirstLoop(def, now, m, order, i - 1);
    }
  }

  /** Rows that are not running, or were only just activated, pass the second loop untouched. */
  lemma {:induction false} IdleSecondLoop(def: Definition, t: Tick, activated: set<Key>, w: Sweep, i: nat)
    requires i <= |t.order|
    requires forall k :: k in w.nodes && w.nodes[k].status == Running ==> k in activated
    ensures Advances(def, t, activated, w, i) == w
  {
    if i > 0 {
      IdleSecondLoop(def, t, activated, w, i - 1);
    }
  }

  /** In a quiescent state the whole effect of a tick is that of its first loop. */
  lemma QuiescentTick(def: Definition, s: RunState, t: Tick) returns (a: Nodes)
    requires Inv(def, s) && s.status == RunRunning && Quiescent(s.nodes)
    ensures a == Activate(def, t.now, s.nodes, t.order, |t.order|) && RowsEvolve(s.nodes, a)
    ensures Swept(def, s, t) == Sweep(a, s, [], a != s.nodes, false) && Settled(def, t, a) == a
  {
    a := Activate(def, t.now, s.nodes, t.order, |t.order|);
    ActivateOk(def, t.now, s.nodes, t.order, |t.order|);
    NoWaiting(def, t.now, s.nodes, t.order, |t.order|);
    IdleSecondLoop(def, t, ActivatedKeys(s.nodes, a), Sweep(a, s, [], a != s.nodes, false), |t.order|);
  }

  lemma {:induction false} NoWaiting(def: Definition, now: int, m: Nodes, order: seq<Key>, i: nat)
    requires i <= |order| && Quiescent(m)
    ensures var a := Activate(def, now, m, order, i);
            a.Keys == m.Keys && forall k :: k in a ==>
              a[k].status != Waiting && (a[k].status == Running || a[k].status == Pending ==> m[k].status == Pending)
  {
    if i > 0 {
      NoWaiting(def, now, m, order, i - 1);
      var w, k := Activate(def, now, m, order, i - 1), order[i - 1];
      assert k in w && w[k].status == Pending ==> m[k].status == Pending;
    }
  }

  /** In a quiescent running run a tick raises only if its own end fails, and otherwise
      makes progress exactly when the run is not deadlocked. */
  lemma ProgressUnlessDeadlocked(def: Definition, s: RunState, t: Tick)
    requires Inv(def, s) && RowOrder(s.nodes, t.order) && s.status == RunRunning
    requires Quiescent(s.nodes)
    ensures Step(def, s, t).raised <==> t.fails
    ensures !t.fails ==> (Step(def, s, t).progressed <==> !Deadlocked(def, s))
  {
    var a := QuiescentStep(def, s, t);
    IdleFirstLoop(def, t.now, s.nodes, t.order);
    if a == s.nodes { IdleIffDeadlocked(def, s); } else { MovedNotDeadlocked(def, s); }
  }

  lemma IdleIffDeadlocked(def: Definition, s: RunState)
    requires s.status == RunRunning && Quiescent(s.nodes) && AllWait(def, s.nodes)
    ensures Deadlocked(def, s) <==> !Finalises(s.nodes)
  {
  }

  lemma MovedNotDeadlocked(def: Definition, s: RunState)
    requires !AllWait(def, s.nodes)
    ensures !Deadlocked(def, s)
  {
  }

  lemma QuiescentStep(def: Definition, s: RunState, t: Tick) returns (a: Nodes)
    requires Inv(def, s) && s.status == RunRunning && Quiescent(s.nodes)
    ensures a == Activate(def, t.now, s.nodes, t.order, |t.order|)
    ensures Step(def, s, t).raised <==> t.fails
    ensures !t.fails ==> (Step(def, s, t).progressed <==> a != s.nodes || Finalises(a))
  {
    a := QuiescentTick(def, s, t);
    NoWaiting(def, t.now, s.nodes, t.order, |t.order|);
    assert RaisesLate(t, a) <==> t.fails;
  }

  /** A deadlock is permanent: until the run is cancelled no row ever changes again. */
  lemma {:induction false} DeadlockIsForever(def: Definition, s: RunState, acts: seq<Action>)
    requires Inv(def, s) && Deadlocked(def, s)
    requires forall i :: 0 <= i < |acts| ==> !acts[i].DoCancel?
    ensures After(def, s, acts).nodes == s.nodes && Deadlocked(def, After(def, s, acts))
  {
    if acts != [] {
      var init, a := acts[..|acts| - 1], acts[|acts| - 1];
      DeadlockIsForever(def, s, init);
      RunKeepsInv(def, s, init);
      DeadlockPersists(def, After(def, s, init), a);
    }
  }

  lemma DeadlockPersists(def: Definition, s: RunState, a: Action)
    requires Inv(def, s) && Deadlocked(def, s) && !a.DoCancel?
    ensures Apply(def, s, a).nodes == s.nodes && !TerminalRun(Apply(def, s, a).status)
  {
    if a.DoTick? {
      DeadlockedTick(def, s, a.t);
    }
  }

  lemma DeadlockedTick(def: Definition, s: RunState, t: Tick)
    requires Deadlocked(def, s)
    ensures Step(def, s, t).state == if t.fails then s else RunState(RunRunning, s.nodes, s.error)
  {
    WaitingFirstLoop(def, t.now, s.nodes, t.order, |t.order|);
    IdleSecondLoop(def, t, ActivatedKeys(s.nodes, s.nodes), Sweep(s.nodes, s, [], s.status == RunPending, false), |t.order|);
    assert Swept(def, s, t) == Sweep(s.nodes, s, [], s.status == RunPending, false);
    assert Settled(def, t, s.nodes) == s.nodes;
    assert RaisesLate(t, s.nodes) <==> t.fails;
  }

  /** A run with no nodes never ends by itself. */
  lemma {:induction false} EmptyRunNeverEnds(def: Definition, acts: seq<Action>)
    requires def.nodes == map[] && forall i :: 0 <= i < |acts| ==> !acts[i].DoCancel?
    ensures !TerminalRun(After(def, NewRun(def), acts).status)
  {
    NewRunOk(def);
    assert Deadlocked(def, NewRun(def));
    DeadlockIsForever(def, NewRun(def), acts);
  }

  // ------------------------------------------------------------ from acceptance to liveness

  ghost function ToDef(n: V.RawNode): NodeDef {
    NodeDef(if n.RawNode? && n.kind.Some? then n.kind.value else Sleep,
            if n.RawNode? then n.config else NodeConfig(Absent, NoUntil, 0),
            V.Named(n, V.DependsOn), V.Named(n, V.OnSuccess), V.Named(n, V.OnFailure))
  }

  /** `_load_definition`: node definitions by key, later duplicates winning. */
  ghost function LoadNodes(nodes: seq<V.RawNode>): map<Key, NodeDef> {
    if nodes == [] then map[]
    else LoadNodes(nodes[..|nodes| - 1])[V.KeyOf(nodes[|nodes| - 1]) := ToDef(nodes[|nodes| - 1])]
  }

  ghost function Load(d: V.RawDefinition): Definition
    requires d.RawDefinition?
  {
    Definition(LoadNodes(d.nodes), d.defaults)
  }

  lemma {:induction false} LoadedFrom(nodes: seq<V.RawNode>, k: Key) returns (n: V.RawNode)
    requires k in LoadNodes(nodes)
    ensures n in nodes && V.KeyOf(n) == k && LoadNodes(nodes)[k] == ToDef(n)
  {
    var last := nodes[|nodes| - 1];
    if V.KeyOf(last) == k {
      n := last;
    } else {
      n := LoadedFrom(nodes[..|nodes| - 1], k);
    }
  }

  lemma {:induction false} LoadedKeys(nodes: seq<V.RawNode>)
    ensures LoadNodes(nodes).Keys == V.KeysOf(nodes)
  {
    if nodes != [] {
      LoadedKeys(nodes[..|nodes| - 1]);
      assert nodes == nodes[..|nodes| - 1] + [nodes[|nodes| - 1]];
    }
  }

  lemma {:induction false} FieldsRecorded(nodes: seq<V.RawNode>, n: V.RawNode)
    requires n in nodes
    ensures V.RecordedBy(n) <= V.Recorded(nodes)
  {
    if n != nodes[|nodes| - 1] {
      assert nodes == nodes[..|nodes| - 1] + [nodes[|nodes| - 1]];
      FieldsRecorded(nodes[..|nodes| - 1], n);
    }
  }

  lemma AcceptedRefsKnown(d: V.RawDefinition)
    requires V.Acceptable(d)
    ensures RefsKnown(Load(d))
  {
    LoadedKeys(d.nodes);
    forall k, r | k in Load(d).nodes && r in Load(d).nodes[k].dependsOn ensures r in Load(d).nodes {
      var n := LoadedFrom(d.nodes, k);
      assert V.RefsWellFormed(n, V.KeysOf(d.nodes));
    }
  }

  /** Definitions whose nodes name no success targets. */
  ghost predicate DependsOnly(d: V.RawDefinition) {
    d.RawDefinition? && forall n :: n in d.nodes ==> V.Named(n, V.OnSuccess) == []
  }

  /** Definitions whose nodes name no dependencies. */
  ghost predicate RoutesOnly(d: V.RawDefinition) {
    d.RawDefinition? && forall n :: n in d.nodes ==> V.Named(n, V.DependsOn) == []
  }

  /** The validator's edges are the wait graph of a depends-on-only definition. */
  lemma DependsOnlyWaitsAcyclically(d: V.RawDefinition)
    requires V.Acceptable(d) && DependsOnly(d)
    ensures Acyclic(WaitEdges(Load(d)))
  {
    forall e | e in WaitEdges(Load(d)) ensures e in V.Recorded(d.nodes) {
      if e.0 in Load(d).nodes && e.1 in Load(d).nodes[e.0].onSuccess {
        var n := LoadedFrom(d.nodes, e.0);
      }
      var n := LoadedFrom(d.nodes, e.1);
      FieldsRecorded(d.nodes, n);
      assert e in V.FieldEdges(n, V.DependsOn);
    }
    SubgraphAcyclic(WaitEdges(Load(d)), V.Recorded(d.nodes));
  }

  /** For a routes-only definition they are the wait graph turned round. */
  lemma RoutesOnlyWaitsAcyclically(d: V.RawDefinition)
    requires V.Acceptable(d) && RoutesOnly(d)
    ensures Acyclic(WaitEdges(Load(d)))
  {
    forall e | e in WaitEdges(Load(d)) ensures e in Reverse(V.Recorded(d.nodes)) {
      if e.1 in Load(d).nodes && e.0 in Load(d).nodes[e.1].dependsOn {
        var n := LoadedFrom(d.nodes, e.1);
      }
      var n := LoadedFrom(d.nodes, e.0);
      FieldsRecorded(d.nodes, n);
      assert (e.1, e.0) in V.FieldEdges(n, V.OnSuccess);
    }
    ReverseAcyclic(V.Recorded(d.nodes));
    SubgraphAcyclic(WaitEdges(Load(d)), Reverse(V.Recorded(d.nodes)));
  }

  /** An accepted, non-empty, depends-on-only definition never deadlocks: in every
      reachable state in which nothing is in flight the next tick makes progress. */
  lemma DependsOnlyNeverStuck(d: V.RawDefinition, acts: seq<Action>, t: Tick)
    requires V.Acceptable(d) && DependsOnly(d) && d.nodes != []
    requires RowOrder(NewRun(Load(d)).nodes, t.order)
    requires var s := After(Load(d), NewRun(Load(d)), acts); s.status == RunRunning && Quiescent(s.nodes)
    ensures !t.fails ==> Step(Load(d), After(Load(d), NewRun(Load(d)), acts), t).progressed
  {
    var def := Load(d);
    var s := After(def, NewRun(def), acts);
    NewRunOk(def);
    RunKeepsInv(def, NewRun(def), acts);
    LoadedKeys(d.nodes);
    assert V.KeyOf(d.nodes[0]) in V.KeysOf(d.nodes);
    assert V.KeyOf(d.nodes[0]) in s.nodes;
    if Deadlocked(def, s) {
      AcceptedRefsKnown(d);
      DependsOnlyWaitsAcyclically(d);
      var k, src := StuckOnSkippedSource(def, s);
      var n := LoadedFrom(d.nodes, src);
      assert false;
    }
    ProgressUnlessDeadlocked(def, s, t);
  }

  // ------------------------------------------------------------ mixing the two

  ghost function MixedRaw(): V.RawDefinition {
    var cfg := NodeConfig(Absent, NoUntil, 0);
    V.RawDefinition(
      [V.RawNode(Some("a"), Some(Sleep), V.Refs(["b"]), V.Refs(["b"]), V.Falsy, cfg),
       V.RawNode(Some("b"), Some(Sleep), V.Falsy, V.Falsy, V.Falsy, cfg)], Absent)
  }

  lemma MixedAccepted()
    ensures V.Acceptable(MixedRaw())
  {
    TwoNodesAccepted("a", "b", MixedRaw().nodes[0], MixedRaw().nodes[1]);
  }

  /** A node that names only a second one, which names none, in two of its fields. */
  ghost predicate NamesTwice(a: Key, b: Key, x: V.RawNode, y: V.RawNode) {
    && x.RawNode? && y.RawNode? && V.KeyOf(x) == a && V.KeyOf(y) == b && x.kind.Some? && y.kind.Some?
    && x.dependsOn == V.Refs([b]) && x.onSuccess == V.Refs([b]) && x.onFailure == V.Falsy
    && y.dependsOn == V.Falsy && y.onSuccess == V.Falsy && y.onFailure == V.Falsy
  }

  lemma TwoNodesEdges(a: Key, b: Key, x: V.RawNode, y: V.RawNode)
    requires NamesTwice(a, b, x, y)
    ensures V.Recorded([x, y]) == {(b, a)} && V.RefCount([x, y]) == 2
  {
    var ns := [x, y];
    V.RecordedSnoc(ns, 0);
    V.RecordedSnoc(ns, 1);
    assert ns[..0] == [] && ns[..2] == ns;
    assert b in V.Named(x, V.DependsOn) && b in V.Named(x, V.OnSuccess);
    assert V.FieldEdges(x, V.DependsOn) == {(b, a)} == V.FieldEdges(x, V.OnSuccess);
    assert V.RecordedBy(y) == {};
  }

  lemma TwoNodesAccepted(a: Key, b: Key, x: V.RawNode, y: V.RawNode)
    requires NamesTwice(a, b, x, y) && a != b && a != "" && b != ""
    ensures V.Acceptable(V.RawDefinition([x, y], Absent))
  {
    var ns := [x, y];
    assert V.KeysOf(ns) == {a, b} by { assert x in ns && y in ns; }
    TwoNodesEdges(a, b, x, y);
    FinishOrderAcyclic(V.Recorded(ns), map[a := 0, b := 1]);
  }

  lemma MixedLoaded()
    ensures var ns := MixedRaw().nodes;
            Load(MixedRaw()).nodes == map["a" := ToDef(ns[0]), "b" := ToDef(ns[1])]
  {
    var ns := MixedRaw().nodes;
    assert ns[..1] == [ns[0]] && [ns[0]][..0] == [];
    assert LoadNodes([ns[0]]) == map["a" := ToDef(ns[0])];
  }

  lemma MixedSources(def: Definition)
    requires def == Load(MixedRaw())
    ensures SuccessSources(def, "a") == {} && FailureSources(def, "a") == {} && Deps(def, "a") == ["b"]
    ensures SuccessSources(def, "b") == {"a"} && FailureSources(def, "b") == {} && Deps(def, "b") == []
  {
    MixedLoaded();
  }

  /** The only node `k` waits for is still pending. */
  lemma WaitsForOne(def: Definition, st: Statuses, k: Key, x: Key)
    requires FailureSources(def, k) == {} && Is(st, x, Pending)
    requires forall d :: d in Deps(def, k) || d in SuccessSources(def, k) <==> d == x
    ensures VerdictOf(def, st, k) == Verdict.Wait
  {
    assert !Is(st, x, Succeeded) && !Is(st, x, Failed) && !Is(st, x, Skipped) && !Is(st, x, Cancelled);
    assert x in Deps(def, k) || x in SuccessSources(def, k);
  }

  /** Both nodes are pending and each waits for the other. */
  lemma MixedWaits(def: Definition, m: Nodes)
    requires def == Load(MixedRaw()) && m == NewRun(def).nodes
    ensures AllWait(def, m) && Quiescent(m) && "a" in PendingKeys(m)
  {
    MixedLoaded();
    var st := StatusesOf(m);
    MixedSources(def);
    WaitsForOne(def, st, "a", "b");
    WaitsForOne(def, st, "b", "a");
  }

  lemma MixedDeadlocked()
    ensures Deadlocked(Load(MixedRaw()), NewRun(Load(MixedRaw())))
  {
    var def := Load(MixedRaw());
    MixedWaits(def, NewRun(def).nodes);
    assert !Terminal(NewRun(def).nodes["a"].status);
  }

  /** The validator accepts a definition in which each of two nodes waits for the
      other; its run never changes a row until it is cancelled. */
  lemma {:induction false} MixedDefinitionDeadlocks(acts: seq<Action>)
    requires forall i :: 0 <= i < |acts| ==> !acts[i].DoCancel?
    ensures V.Acceptable(MixedRaw())
    ensures var def := Load(MixedRaw());
            After(def, NewRun(def), acts).nodes == NewRun(def).nodes
            && !TerminalRun(After(def, NewRun(def), acts).status)
  {
    var def := Load(MixedRaw());
    assert V.Acceptable(MixedRaw()) by { MixedAccepted(); }
    MixedDeadlocked();
    NewRunOk(def);
    DeadlockIsForever(def, NewRun(def), acts);
  }
}
