/** Exactly which definitions can get stuck, for definitions of exec tasks without failure
    routes: necessary and sufficient conditions on the definition alone. */
module WorkflowStuck {
  import opened Wrappers
  import opened Graph
  import opened WorkflowTypes
  import opened WorkflowModel
  import opened WorkflowRuns
  import opened WorkflowLiveness
  import opened WorkflowSkips
  import opened WorkflowBiased
  import V = WorkflowValidation

  ghost predicate ExecOnly(def: Definition) {
    forall k :: k in def.nodes ==> def.nodes[k].kind.ExecTask?
  }

  ghost predicate NoFailureRoutes(def: Definition) {
    forall k :: k in def.nodes ==> def.nodes[k].onFailure == []
  }

  lemma NoFailureSources(def: Definition, k: Key)
    requires NoFailureRoutes(def)
    ensures FailureSources(def, k) == {}
  {
  }

  ghost function DepEdges(def: Definition): Edges {
    set k, d | k in def.nodes && d in def.nodes[k].dependsOn :: (d, k)
  }

  /** Along dependencies, `p` leads to `c` from a node that waits for `x`. */
  ghost predicate DoomWalk(def: Definition, p: seq<Key>, x: Key, c: Key) {
    IsWalk(DepEdges(def), p) && p[|p| - 1] == c && x in Awaits(def, p[0])
  }

  /** Once `x` has failed, `c` will be skipped. */
  ghost predicate Dooms(def: Definition, x: Key, c: Key) {
    exists p :: DoomWalk(def, p, x, c)
  }

  ghost predicate Follows(def: Definition, b: Key, c: Key) {
    forall x :: x in Awaits(def, b) ==> Dooms(def, x, c)
  }

  /** Along every success route b -> c: what dooms b by failing dooms c as well. */
  ghost predicate Followed(def: Definition) {
    forall b, c {:trigger Follows(def, b, c)} :: c in def.nodes && b in SuccessSources(def, c) ==> Follows(def, b, c)
  }

  // ------------------------------------------------------------ sufficient

  /** A row with an awaited node that has not succeeded was never started. */
  lemma NotStarted(def: Definition, m: Nodes, k: Key, u: Key)
    requires RowsOk(def, m) && NoFailureRoutes(def) && k in m
    requires u in Awaits(def, k) && !Is(StatusesOf(m), u, Succeeded)
    ensures !WasActivated(m[k].status)
  {
    NoFailureSources(def, k);
    assert !Caused(def, StatusesOf(m), k);
  }

  lemma PushedOut(def: Definition, m: Nodes, k: Key, u: Key)
    requires RowsOk(def, m) && NoFailureRoutes(def) && SkipsOk(def, m) && AllWait(def, m) && k in m
    requires (u in Awaits(def, k) && Is(StatusesOf(m), u, Failed)) || (u in Deps(def, k) && Is(StatusesOf(m), u, Skipped))
    ensures m[k].status == Skipped
  {
    NotWaiting(def, StatusesOf(m), k, u);
    NotStarted(def, m, k, u);
  }

  /** Skipping travels along dependencies. */
  lemma {:induction false} WalkSkipped(def: Definition, m: Nodes, p: seq<Key>)
    requires RowsOk(def, m) && NoFailureRoutes(def) && SkipsOk(def, m) && AllWait(def, m)
    requires IsWalk(DepEdges(def), p) && Is(StatusesOf(m), p[0], Skipped)
    ensures Is(StatusesOf(m), p[|p| - 1], Skipped)
    decreases |p|
  {
    if |p| > 1 {
      var n := |p| - 1;
      WalkSlice(DepEdges(def), p, 0, n);
      assert p[0..n][n - 1] == p[n - 1];
      WalkSkipped(def, m, p[0..n]);
      assert Linked(DepEdges(def), p, n);
      assert p[n - 1] in Deps(def, p[n]);
      PushedOut(def, m, p[n], p[n - 1]);
    }
  }

  /** The first node of a doom walk is a row. */
  lemma WalkStartsAtRow(def: Definition, p: seq<Key>)
    requires IsWalk(DepEdges(def), p) && RefsKnown(def) && p[|p| - 1] in def.nodes
    ensures p[0] in def.nodes
  {
    if |p| > 1 { assert Linked(DepEdges(def), p, 1); }
  }

  /** The skipped success sources of pending rows. */
  ghost function Blockers(def: Definition, m: Nodes): set<Key> {
    set x, k | k in m && m[k].status == Pending && x in SuccessSources(def, k) && x in m && m[x].status == Skipped :: x
  }

  lemma BlockerOf(def: Definition, m: Nodes, x: Key) returns (k: Key)
    requires x in Blockers(def, m)
    ensures k in m && m[k].status == Pending && x in SuccessSources(def, k) && x in m && m[x].status == Skipped
  {
    k :| k in m && m[k].status == Pending && x in SuccessSources(def, k) && x in m && m[x].status == Skipped;
  }

  /** The walk from a failed or skipped `u` pushes out the row at its end. */
  lemma DoomedRowSkipped(def: Definition, m: Nodes, p: seq<Key>, u: Key, c: Key)
    requires RowsOk(def, m) && NoFailureRoutes(def) && RefsKnown(def) && SkipsOk(def, m) && AllWait(def, m) && Quiescent(m)
    requires DoomWalk(def, p, u, c) && c in m
    requires Is(StatusesOf(m), u, Failed) || Is(StatusesOf(m), u, Skipped)
    requires u in Blockers(def, m) ==> Is(StatusesOf(m), u, Failed)
    ensures m[c].status == Skipped
  {
    var first := p[0];
    WalkStartsAtRow(def, p);
    NotStarted(def, m, first, u);
    if Is(StatusesOf(m), u, Failed) || u in Deps(def, first) {
      PushedOut(def, m, first, u);
    } else {
      assert u in SuccessSources(def, first) && m[first].status != Pending;
    }
    WalkSkipped(def, m, p);
  }

  lemma BlockedRow(def: Definition, m: Nodes, src: Key, k: Key)
    requires RowsOk(def, m) && NoFailureRoutes(def) && RefsKnown(def) && SkipsOk(def, m) && AllWait(def, m) && Quiescent(m)
    requires Follows(def, src, k) && k in m && src in m && m[src].status == Skipped
    requires forall d :: d in Deps(def, src) ==> d !in Blockers(def, m)
    ensures m[k].status == Skipped
  {
    var st := StatusesOf(m);
    assert SkipCaused(def, st, src);
    var u :| u in Awaits(def, src) && (Is(st, u, Failed) || (u in Deps(def, src) && Is(st, u, Skipped)));
    assert u in Blockers(def, m) ==> Is(st, u, Failed);
    assert Dooms(def, u, k);
    var p :| DoomWalk(def, p, u, k);
    DoomedRowSkipped(def, m, p, u, k);
  }

  /** With an acyclic wait graph and followed success routes no state is deadlocked. */
  lemma FollowedNotDeadlocked(def: Definition, s: RunState)
    requires Inv(def, s) && SkipsOk(def, s.nodes) && RefsKnown(def) && s.nodes != map[]
    requires NoFailureRoutes(def) && Acyclic(WaitEdges(def)) && Followed(def)
    ensures !Deadlocked(def, s)
  {
    if Deadlocked(def, s) {
      var m := s.nodes;
      var k0, src0 := StuckOnSkippedSource(def, s);
      assert src0 in Blockers(def, m);
      var src := AcyclicHasSource(WaitEdges(def), Blockers(def, m));
      var k := BlockerOf(def, m, src);
      forall d | d in Deps(def, src) ensures d !in Blockers(def, m) {
        AwaitedEdge(def, d, src);
      }
      assert Follows(def, src, k);
      BlockedRow(def, m, src, k);
      assert false;
    }
  }

  // ------------------------------------------------------------ necessary: followed routes

  /** The skipped rows that a failure of `x` does not explain. */
  ghost function Unexplained(def: Definition, m: Nodes, x: Option<Key>): set<Key> {
    set k | k in m && m[k].status == Skipped && !(x.Some? && Dooms(def, x.value, k))
  }

  lemma DoomedDirectly(def: Definition, x: Key, k: Key)
    requires x in Awaits(def, k)
    ensures Dooms(def, x, k)
  {
    assert DoomWalk(def, [k], x, k);
  }

  lemma DoomedThrough(def: Definition, x: Key, d: Key, k: Key)
    requires Dooms(def, x, d) && (d, k) in DepEdges(def)
    ensures Dooms(def, x, k)
  {
    var p :| DoomWalk(def, p, x, d);
    WalkExtend(DepEdges(def), p, k);
    assert DoomWalk(def, p + [k], x, k);
  }

  /** If only `x` has failed, only rows doomed by `x` are skipped. */
  lemma OnlyDoomedSkipped(def: Definition, m: Nodes, x: Option<Key>)
    requires RowsOk(def, m) && SkipsOk(def, m) && Tame(x, m) && Acyclic(DepEdges(def))
    ensures Unexplained(def, m, x) == {}
  {
    var bad := Unexplained(def, m, x);
    if bad != {} {
      var k := AcyclicHasSource(DepEdges(def), bad);
      var st := StatusesOf(m);
      assert SkipCaused(def, st, k);
      if u :| u in Awaits(def, k) && Is(st, u, Failed) {
        assert x == Some(u);
        DoomedDirectly(def, u, k);
      } else {
        var d :| d in Deps(def, k) && Is(st, d, Skipped);
        assert (d, k) in DepEdges(def);
        assert d !in bad;
        DoomedThrough(def, x.value, d, k);
      }
      assert false;
    }
  }

  /** When `x` cannot succeed, b waits for ever, and c with it unless it is skipped. */
  lemma UnfollowedPending(def: Definition, m: Nodes, x: Key, b: Key, c: Key)
    requires RowsOk(def, m) && SkipsOk(def, m) && Tame(Some(x), m)
    requires NoFailureRoutes(def) && Acyclic(DepEdges(def))
    requires c in m && b in SuccessSources(def, c) && x in Awaits(def, b) && !Dooms(def, x, c)
    ensures m[c].status == Pending
  {
    NotStarted(def, m, b, x);
    NotStarted(def, m, c, b);
    OnlyDoomedSkipped(def, m, Some(x));
    assert c !in Unexplained(def, m, Some(x));
  }

  // ------------------------------------------------------------ necessary: an acyclic wait graph

  /** Every member waits for a member. */
  ghost predicate Interlocked(def: Definition, ring: set<Key>) {
    forall k {:trigger HasPredecessorIn(WaitEdges(def), ring, k)} ::
      k in ring ==> k in def.nodes && HasPredecessorIn(WaitEdges(def), ring, k)
  }

  ghost predicate Dormant(ring: set<Key>, m: Nodes) {
    forall k :: k in ring ==> k in m && !WasActivated(m[k].status)
  }

  lemma EdgeAwaited(def: Definition, u: Key, k: Key)
    requires (u, k) in WaitEdges(def) && k in def.nodes
    ensures u in Awaits(def, k)
  {
  }

  lemma NotReady(def: Definition, m: Nodes, ring: set<Key>, k: Key)
    requires Dormant(ring, m) && Interlocked(def, ring) && NoFailureRoutes(def) && k in ring
    ensures VerdictOf(def, StatusesOf(m), k) != Verdict.Ready
  {
    assert HasPredecessorIn(WaitEdges(def), ring, k);
    var u :| u in ring && (u, k) in WaitEdges(def);
    EdgeAwaited(def, u, k);
    NoFailureSources(def, k);
    assert !Is(StatusesOf(m), u, Succeeded);
    ReadyMeansCaused(def, StatusesOf(m), k);
  }

  lemma {:induction false} ActivateDormant(def: Definition, m: Nodes, order: seq<Key>, i: nat, ring: set<Key>)
    requires Dormant(ring, m) && Interlocked(def, ring) && NoFailureRoutes(def) && i <= |order|
    ensures Dormant(ring, Activate(def, 0, m, order, i))
    decreases i
  {
    if i > 0 {
      ActivateDormant(def, m, order, i - 1, ring);
      DormantTurn(def, Activate(def, 0, m, order, i - 1), order[i - 1], ring);
    }
  }

  lemma DormantTurn(def: Definition, m: Nodes, k: Key, ring: set<Key>)
    requires Dormant(ring, m) && Interlocked(def, ring) && NoFailureRoutes(def)
    ensures Dormant(ring, ActivateOne(def, 0, m, k))
  {
    if k in ring { NotReady(def, m, ring, k); }
  }

  lemma {:induction false} RingSleeps(def: Definition, order: seq<Key>, id: Key -> int, n: nat, ring: set<Key>)
    requires Tame(None, NewRun(def).nodes) && RowOrder(NewRun(def).nodes, order)
    requires Interlocked(def, ring) && NoFailureRoutes(def)
    ensures Dormant(ring, After(def, NewRun(def), Ticks(Biased(None, order, id), n)).nodes)
    decreases n
  {
    if n == 0 {
      RingStarts(def, ring);
    } else {
      var t := Biased(None, order, id);
      var s := After(def, NewRun(def), Ticks(t, n - 1));
      RingSleeps(def, order, id, n - 1, ring);
      BiasedRun(def, None, order, id, n - 1);
      LastTick(def, t, n - 1);
      if !TerminalRun(s.status) {
        var a := BiasedStep(def, None, s, order, id);
        ActivateDormant(def, s.nodes, order, |order|, ring);
      }
    }
  }

  lemma RingStarts(def: Definition, ring: set<Key>)
    requires Interlocked(def, ring)
    ensures Dormant(ring, NewRun(def).nodes)
  {
    forall k | k in ring ensures k in def.nodes { assert HasPredecessorIn(WaitEdges(def), ring, k); }
  }

  /** The nodes of a cycle wait for each other. */
  lemma CycleInterlocks(def: Definition, p: seq<Key>) returns (ring: set<Key>)
    requires IsCycle(WaitEdges(def), p) && RoutesKnown(def)
    ensures Interlocked(def, ring) && p[0] in ring
  {
    ring := set k | k in p;
    forall k | k in ring ensures k in def.nodes && HasPredecessorIn(WaitEdges(def), ring, k) {
      var i :| 0 <= i < |p| && p[i] == k;
      var j := if i == 0 then |p| - 1 else i;
      assert Linked(WaitEdges(def), p, j);
      assert p[j - 1] in ring && (p[j - 1], k) in WaitEdges(def);
    }
  }

  ghost predicate RoutesKnown(def: Definition) {
    forall s, k :: s in def.nodes && k in def.nodes[s].onSuccess ==> k in def.nodes
  }

  // ------------------------------------------------------------ the characterisation

  /** No run of the definition ever deadlocks. */
  ghost predicate NeverStuck(def: Definition) {
    forall acts :: !Deadlocked(def, After(def, NewRun(def), acts))
  }

  lemma AcceptedRoutesKnown(d: V.RawDefinition)
    requires V.Acceptable(d)
    ensures RoutesKnown(Load(d))
  {
    LoadedKeys(d.nodes);
    forall s, k | s in Load(d).nodes && k in Load(d).nodes[s].onSuccess ensures k in Load(d).nodes {
      var n := LoadedFrom(d.nodes, s);
      assert V.RefsWellFormed(n, V.KeysOf(d.nodes));
    }
  }

  lemma AcceptedDepsAcyclic(d: V.RawDefinition)
    requires V.Acceptable(d)
    ensures Acyclic(DepEdges(Load(d)))
  {
    forall e | e in DepEdges(Load(d)) ensures e in V.Recorded(d.nodes) {
      var n := LoadedFrom(d.nodes, e.1);
      FieldsRecorded(d.nodes, n);
      assert e in V.FieldEdges(n, V.DependsOn);
    }
    SubgraphAcyclic(DepEdges(Load(d)), V.Recorded(d.nodes));
  }

  /** The rows in the order of the definition. */
  ghost function DefinitionOrder(d: V.RawDefinition): seq<Key>
    requires d.RawDefinition?
  {
    seq(|d.nodes|, i requires 0 <= i < |d.nodes| => V.KeyOf(d.nodes[i]))
  }

  lemma DefinitionOrderOk(d: V.RawDefinition)
    requires V.Acceptable(d)
    ensures RowOrder(NewRun(Load(d)).nodes, DefinitionOrder(d))
  {
    LoadedKeys(d.nodes);
    var order := DefinitionOrder(d);
    forall k ensures k in Load(d).nodes <==> k in order {
      if k in Load(d).nodes {
        var n :| n in d.nodes && V.KeyOf(n) == k;
        var i :| 0 <= i < |d.nodes| && d.nodes[i] == n;
        assert order[i] == k;
      }
    }
  }

  lemma NewRunTame(def: Definition, x: Option<Key>)
    requires ExecOnly(def)
    ensures Tame(x, NewRun(def).nodes)
  {
  }

  lemma {:induction false} TicksNeverCancel(def: Definition, t: Tick, n: nat)
    ensures After(def, NewRun(def), Ticks(t, n)).status != RunCancelled
    decreases n
  {
    if n > 0 {
      TicksNeverCancel(def, t, n - 1);
      LastTick(def, t, n - 1);
      StepNeverCancels(def, After(def, NewRun(def), Ticks(t, n - 1)), t);
    }
  }

  lemma {:induction false} SavedNeverCancelled(def: Definition, t: Tick, activated: set<Key>, w: Sweep, i: nat)
    requires i <= |t.order| && w.saved.status != RunCancelled
    ensures Advances(def, t, activated, w, i).saved.status != RunCancelled
    decreases i
  {
    if i > 0 { SavedNeverCancelled(def, t, activated, w, i - 1); }
  }

  lemma StepNeverCancels(def: Definition, s: RunState, t: Tick)
    requires s.status != RunCancelled
    ensures Step(def, s, t).state.status != RunCancelled
  {
    if !TerminalRun(s.status) {
      var a := Activate(def, t.now, s.nodes, t.order, |t.order|);
      SavedNeverCancelled(def, t, ActivatedKeys(s.nodes, a),
                          Sweep(a, s, [], s.status == RunPending || a != s.nodes, false), |t.order|);
    }
  }

  /** A biased run comes to rest, uncancelled. */
  lemma Rested(def: Definition, x: Option<Key>, order: seq<Key>, id: Key -> int) returns (s: RunState)
    requires ExecOnly(def) && RowOrder(NewRun(def).nodes, order)
    ensures s == After(def, NewRun(def), Ticks(Biased(x, order, id), 4 * |order| + 2))
    ensures AtRest(def, x, s, order, id)
    ensures SkipsOk(def, s.nodes)
  {
    NewRunTame(def, x);
    s := BiasedRest(def, x, order, id);
    UncancelledSkips(def, Biased(x, order, id), 4 * |order| + 2);
  }

  lemma UncancelledSkips(def: Definition, t: Tick, n: nat)
    ensures SkipsOk(def, After(def, NewRun(def), Ticks(t, n)).nodes)
  {
    SkippedRowsHaveACause(def, Ticks(t, n));
    TicksNeverCancel(def, t, n);
  }

  /** A success route that is not followed: the failure of one node deadlocks a run. */
  lemma UnfollowedDeadlocks(d: V.RawDefinition, x: Key, b: Key, c: Key, id: Key -> int) returns (acts: seq<Action>)
    requires V.Acceptable(d) && ExecOnly(Load(d)) && NoFailureRoutes(Load(d)) && c in Load(d).nodes
    requires b in SuccessSources(Load(d), c) && x in Awaits(Load(d), b) && !Dooms(Load(d), x, c)
    ensures Deadlocked(Load(d), After(Load(d), NewRun(Load(d)), acts))
  {
    var order := DefinitionOrder(d);
    DefinitionOrderOk(d);
    acts := Ticks(Biased(Some(x), order, id), 4 * |order| + 2);
    var s := Rested(Load(d), Some(x), order, id);
    AcceptedDepsAcyclic(d);
    UnfollowedAtRest(Load(d), s, x, b, c, order, id);
  }

  lemma UnfollowedAtRest(def: Definition, s: RunState, x: Key, b: Key, c: Key, order: seq<Key>, id: Key -> int)
    requires AtRest(def, Some(x), s, order, id) && SkipsOk(def, s.nodes)
    requires NoFailureRoutes(def) && Acyclic(DepEdges(def))
    requires c in def.nodes && b in SuccessSources(def, c) && x in Awaits(def, b) && !Dooms(def, x, c)
    ensures Deadlocked(def, s)
  {
    UnfollowedPending(def, s.nodes, x, b, c);
    PendingAtRest(def, Some(x), s, order, id, c);
  }

  /** A cycle of waiting: even if every task succeeds, the run deadlocks. */
  lemma CyclicDeadlocks(d: V.RawDefinition, p: seq<Key>, id: Key -> int) returns (acts: seq<Action>)
    requires V.Acceptable(d) && ExecOnly(Load(d)) && NoFailureRoutes(Load(d)) && IsCycle(WaitEdges(Load(d)), p)
    ensures Deadlocked(Load(d), After(Load(d), NewRun(Load(d)), acts))
  {
    AcceptedRoutesKnown(d);
    AcceptedDepsAcyclic(d);
    DefinitionOrderOk(d);
    acts := CycleRests(Load(d), DefinitionOrder(d), p, id);
  }

  lemma CycleRests(def: Definition, order: seq<Key>, p: seq<Key>, id: Key -> int) returns (acts: seq<Action>)
    requires ExecOnly(def) && NoFailureRoutes(def) && RoutesKnown(def) && Acyclic(DepEdges(def))
    requires RowOrder(NewRun(def).nodes, order) && IsCycle(WaitEdges(def), p)
    ensures Deadlocked(def, After(def, NewRun(def), acts))
  {
    acts := Ticks(Biased(None, order, id), 4 * |order| + 2);
    var ring := CycleInterlocks(def, p);
    NewRunTame(def, None);
    RingSleeps(def, order, id, 4 * |order| + 2, ring);
    var s := Rested(def, None, order, id);
    RingAtRest(def, s, ring, p[0], order, id);
  }

  lemma RingAtRest(def: Definition, s: RunState, ring: set<Key>, k: Key, order: seq<Key>, id: Key -> int)
    requires AtRest(def, None, s, order, id) && SkipsOk(def, s.nodes) && Acyclic(DepEdges(def))
    requires Dormant(ring, s.nodes) && k in ring
    ensures Deadlocked(def, s)
  {
    OnlyDoomedSkipped(def, s.nodes, None);
    assert k !in Unexplained(def, s.nodes, None);
    PendingAtRest(def, None, s, order, id, k);
  }

  lemma FollowedNeverStuck(d: V.RawDefinition, acts: seq<Action>)
    requires V.Acceptable(d) && d.nodes != [] && NoFailureRoutes(Load(d))
    requires Acyclic(WaitEdges(Load(d))) && Followed(Load(d))
    ensures !Deadlocked(Load(d), After(Load(d), NewRun(Load(d)), acts))
  {
    var s := After(Load(d), NewRun(Load(d)), acts);
    SkippedRowsHaveACause(Load(d), acts);
    AcceptedRefsKnown(d);
    HasRows(d, s);
    if s.status != RunCancelled { FollowedNotDeadlocked(Load(d), s); }
  }

  /**
   * For accepted, non-empty definitions of exec tasks without failure routes: no run ever
   * deadlocks if and only if the wait graph is acyclic and every success route is followed.
   */
  lemma NeverStuckIff(d: V.RawDefinition)
    requires V.Acceptable(d) && d.nodes != [] && ExecOnly(Load(d)) && NoFailureRoutes(Load(d))
    ensures NeverStuck(Load(d)) <==> Acyclic(WaitEdges(Load(d))) && Followed(Load(d))
  {
    var def := Load(d);
    var id := (k: Key) => |k|;
    if Acyclic(WaitEdges(def)) && Followed(def) {
      forall acts ensures !Deadlocked(def, After(def, NewRun(def), acts)) { FollowedNeverStuck(d, acts); }
    } else if !Acyclic(WaitEdges(def)) {
      var p :| IsCycle(WaitEdges(def), p);
      var acts := CyclicDeadlocks(d, p, id);
    } else {
      var b, c :| c in def.nodes && b in SuccessSources(def, c) && !Follows(def, b, c);
      var x :| x in Awaits(def, b) && !Dooms(def, x, c);
      var acts := UnfollowedDeadlocks(d, x, b, c, id);
    }
  }

  // ------------------------------------------------------------ definitions of routes alone

  ghost predicate TransitiveRoutes(def: Definition) {
    forall a, b, c :: c in def.nodes && b in SuccessSources(def, c) && a in SuccessSources(def, b) ==> a in SuccessSources(def, c)
  }

  lemma RoutesOnlyAwaits(d: V.RawDefinition, k: Key)
    requires V.Acceptable(d) && RoutesOnly(d)
    ensures Deps(Load(d), k) == [] && Awaits(Load(d), k) == SuccessSources(Load(d), k)
  {
    if k in Load(d).nodes { var n := LoadedFrom(d.nodes, k); }
  }

  lemma RoutesOnlyDooms(d: V.RawDefinition, x: Key, c: Key)
    requires V.Acceptable(d) && RoutesOnly(d)
    ensures Dooms(Load(d), x, c) <==> x in SuccessSources(Load(d), c)
  {
    var def := Load(d);
    RoutesOnlyAwaits(d, c);
    forall k ensures Deps(def, k) == [] { RoutesOnlyAwaits(d, k); }
    if Dooms(def, x, c) {
      var p :| DoomWalk(def, p, x, c);
      NoDepsNoEdges(def);
      NoDepsNoWalk(def, p);
    }
    if x in SuccessSources(def, c) { DoomedDirectly(def, x, c); }
  }

  lemma NoDepsNoEdges(def: Definition)
    requires forall k :: Deps(def, k) == []
    ensures DepEdges(def) == {}
  {
    forall k | k in def.nodes ensures def.nodes[k].dependsOn == [] { assert Deps(def, k) == []; }
  }

  lemma NoDepsNoWalk(def: Definition, p: seq<Key>)
    requires IsWalk(DepEdges(def), p) && DepEdges(def) == {}
    ensures |p| == 1
  {
    assert |p| > 1 ==> Linked(DepEdges(def), p, 1);
  }

  /** With routes alone the condition is that the routes are transitive. */
  lemma RoutesOnlyNeverStuckIff(d: V.RawDefinition)
    requires V.Acceptable(d) && d.nodes != [] && ExecOnly(Load(d)) && NoFailureRoutes(Load(d)) && RoutesOnly(d)
    ensures NeverStuck(Load(d)) <==> TransitiveRoutes(Load(d))
  {
    var def := Load(d);
    NeverStuckIff(d);
    RoutesOnlyWaitsAcyclically(d);
    forall b, c | c in def.nodes && b in SuccessSources(def, c)
      ensures Follows(def, b, c) <==> SuccessSources(def, b) <= SuccessSources(def, c)
    {
      RoutesOnlyAwaits(d, b);
      forall x ensures Dooms(def, x, c) <==> x in SuccessSources(def, c) { RoutesOnlyDooms(d, x, c); }
    }
  }
}
