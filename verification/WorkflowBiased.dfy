/** Runs under a one-sided environment: every exec task is created at once, the task of one
    chosen node fails and all others succeed. Such a run comes to rest, and a row that is
    still pending then is stuck for good. */
module WorkflowBiased {
  import opened Wrappers
  import opened Graph
  import opened WorkflowTypes
  import opened WorkflowModel
  import opened WorkflowRuns
  import opened WorkflowLiveness
  import opened WorkflowSkips

  ghost function Answer(x: Option<Key>, id: Key -> int, k: Key): Obs {
    Obs(0, Some(if x == Some(k) then TaskFailed else Success), None, Launched(id(k)), 0, false)
  }

  /** The tick in which only the task of `x`, if there is one, fails. */
  ghost function Biased(x: Option<Key>, order: seq<Key>, id: Key -> int): Tick {
    Tick(order, 0, (k: Key) => Answer(x, id, k), (k: Key) => Answer(x, id, k), false)
  }

  /** What a running exec row becomes on its turn. */
  ghost function Driven(x: Option<Key>, id: Key -> int, n: Node, k: Key): Node {
    if n.execTask.None? then n.(execTask := Some(id(k)))
    else if x == Some(k) then Fail(n, ExecTaskFailed)
    else Succeed(n)
  }

  lemma DrivenTurn(x: Option<Key>, id: Key -> int, n: Node, k: Key, config: NodeConfig, defaults: Timeout)
    requires n.kind.ExecTask? && n.status == Running
    ensures AdvanceRunning(n, config, defaults, Answer(x, id, k)) == Moved(Driven(x, id, n, k), true)
    ensures Driven(x, id, n, k) != n && Driven(x, id, n, k).status != Waiting
  {
  }

  /** Exec rows only, none waiting; only the row of `x` fails, and it does not succeed. */
  ghost predicate Tame(x: Option<Key>, m: Nodes) {
    forall k :: k in m ==>
      && m[k].kind.ExecTask? && m[k].status != Waiting
      && (m[k].status == Failed ==> x == Some(k))
      && (m[k].status == Succeeded ==> x != Some(k))
  }

  ghost predicate Distinct(order: seq<Key>) {
    forall i, j :: 0 <= i < j < |order| ==> order[i] != order[j]
  }

  ghost function RowAfter(x: Option<Key>, id: Key -> int, activated: set<Key>, n: Node, k: Key): Node {
    if n.status == Running && k !in activated then Driven(x, id, n, k) else n
  }

  /** The second loop has driven exactly the rows `seen`. */
  ghost predicate DrivenRows(x: Option<Key>, id: Key -> int, activated: set<Key>, was: Nodes, now: Nodes, seen: seq<Key>) {
    now.Keys == was.Keys &&
    forall k :: k in was ==> now[k] == if k in seen then RowAfter(x, id, activated, was[k], k) else was[k]
  }

  lemma DrivenNext(def: Definition, x: Option<Key>, order: seq<Key>, id: Key -> int, activated: set<Key>,
                   was: Nodes, w: Sweep, seen: seq<Key>, k: Key)
    requires Tame(x, was) && !w.raised && k !in seen && DrivenRows(x, id, activated, was, w.nodes, seen)
    ensures var w' := AdvanceOne(def, Biased(x, order, id), activated, w, k);
            !w'.raised && DrivenRows(x, id, activated, was, w'.nodes, seen + [k])
  {
    if k in was {
      assert w.nodes[k] == was[k];
      if was[k].status == Running && k !in activated {
        DrivenTurn(x, id, was[k], k, Config(def, k), def.defaults);
      }
    }
    assert forall j :: j in seen + [k] <==> j in seen || j == k;
  }

  lemma {:induction false} DrivenLoop(def: Definition, x: Option<Key>, order: seq<Key>, id: Key -> int, activated: set<Key>,
                                      w: Sweep, i: nat)
    requires Tame(x, w.nodes) && !w.raised && Distinct(order) && i <= |order|
    ensures var w' := Advances(def, Biased(x, order, id), activated, w, i);
            !w'.raised && DrivenRows(x, id, activated, w.nodes, w'.nodes, order[..i])
    decreases i
  {
    if i > 0 {
      DrivenLoop(def, x, order, id, activated, w, i - 1);
      assert order[..i] == order[..i - 1] + [order[i - 1]];
      DrivenNext(def, x, order, id, activated, w.nodes,
                 Advances(def, Biased(x, order, id), activated, w, i - 1), order[..i - 1], order[i - 1]);
    }
  }

  /** The rows after one biased step, given the rows `a` after its first loop. */
  ghost predicate BiasedRows(x: Option<Key>, id: Key -> int, m: Nodes, a: Nodes, z: Nodes) {
    a.Keys == m.Keys == z.Keys &&
    forall k :: k in m ==> z[k] == if m[k].status == Running then Driven(x, id, m[k], k) else a[k]
  }

  lemma ActivatedTame(def: Definition, x: Option<Key>, m: Nodes, order: seq<Key>) returns (a: Nodes)
    requires Tame(x, m)
    ensures a == Activate(def, 0, m, order, |order|) && Tame(x, a) && a.Keys == m.Keys
    ensures forall k :: k in m ==>
              if m[k].status != Pending then a[k] == m[k]
              else a[k] == m[k] || a[k] == Start(m[k], 0) || a[k] == m[k].(status := Skipped)
  {
    a := Activate(def, 0, m, order, |order|);
    ActivateKeepsStarted(def, 0, m, order, |order|);
  }

  lemma BiasedStep(def: Definition, x: Option<Key>, s: RunState, order: seq<Key>, id: Key -> int) returns (a: Nodes)
    requires Tame(x, s.nodes) && RowOrder(s.nodes, order) && !TerminalRun(s.status)
    ensures a == Activate(def, 0, s.nodes, order, |order|) && Tame(x, a)
    ensures var r := Step(def, s, Biased(x, order, id));
            !r.raised && BiasedRows(x, id, s.nodes, a, r.state.nodes)
  {
    var t := Biased(x, order, id);
    a := ActivatedTame(def, x, s.nodes, order);
    BiasedSwept(def, x, s, order, id, a);
    StepNodes(def, s, t);
    TickShape(def, s, t, Swept(def, s, t));
    NothingSettles(def, x, id, ActivatedKeys(s.nodes, a), t, a, Swept(def, s, t).nodes, order);
    AllDriven(x, id, s.nodes, a, Swept(def, s, t).nodes, order);
  }

  lemma BiasedSwept(def: Definition, x: Option<Key>, s: RunState, order: seq<Key>, id: Key -> int, a: Nodes)
    requires RowOrder(s.nodes, order) && a == Activate(def, 0, s.nodes, order, |order|) && Tame(x, a)
    ensures var w := Swept(def, s, Biased(x, order, id));
            !w.raised && DrivenRows(x, id, ActivatedKeys(s.nodes, a), a, w.nodes, order)
  {
    DrivenLoop(def, x, order, id, ActivatedKeys(s.nodes, a),
               Sweep(a, s, [], s.status == RunPending || a != s.nodes, false), |order|);
    assert order[..|order|] == order;
  }

  lemma AllDriven(x: Option<Key>, id: Key -> int, m: Nodes, a: Nodes, z: Nodes, order: seq<Key>)
    requires RowOrder(m, order) && a.Keys == m.Keys && DrivenRows(x, id, ActivatedKeys(m, a), a, z, order)
    requires forall k :: k in m ==>
               if m[k].status != Pending then a[k] == m[k]
               else a[k] == m[k] || a[k] == Start(m[k], 0) || a[k] == m[k].(status := Skipped)
    ensures BiasedRows(x, id, m, a, z)
  {
  }

  lemma NothingSettles(def: Definition, x: Option<Key>, id: Key -> int, activated: set<Key>, t: Tick, a: Nodes, m: Nodes, order: seq<Key>)
    requires Tame(x, a) && DrivenRows(x, id, activated, a, m, order)
    ensures Settled(def, t, m) == m
  {
    forall k | k in m ensures m[k].status != Waiting {
      if a[k].status == Running { DrivenTurn(x, id, a[k], k, Config(def, k), def.defaults); }
    }
  }

  lemma BiasedStepTame(def: Definition, x: Option<Key>, s: RunState, order: seq<Key>, id: Key -> int)
    requires Tame(x, s.nodes) && RowOrder(s.nodes, order)
    ensures var r := Step(def, s, Biased(x, order, id));
            !r.raised && Tame(x, r.state.nodes) && r.state.nodes.Keys == s.nodes.Keys
  {
    if !TerminalRun(s.status) {
      var a := BiasedStep(def, x, s, order, id);
    }
  }

  // ------------------------------------------------------------ coming to rest

  ghost function Ticks(t: Tick, n: nat): seq<Action> {
    seq(n, _ => DoTick(t))
  }

  lemma LastTick(def: Definition, t: Tick, n: nat)
    ensures After(def, NewRun(def), Ticks(t, n + 1)) == Step(def, After(def, NewRun(def), Ticks(t, n)), t).state
    ensures Progressing(def, NewRun(def), Ticks(t, n + 1)) == Progressing(def, NewRun(def), Ticks(t, n)) +
              if Step(def, After(def, NewRun(def), Ticks(t, n)), t).progressed then 1 else 0
  {
    assert Ticks(t, n + 1)[..n] == Ticks(t, n);
  }

  lemma {:induction false} BiasedRun(def: Definition, x: Option<Key>, order: seq<Key>, id: Key -> int, n: nat)
    requires Tame(x, NewRun(def).nodes) && RowOrder(NewRun(def).nodes, order)
    ensures var s := After(def, NewRun(def), Ticks(Biased(x, order, id), n));
            Inv(def, s) && Tame(x, s.nodes) && RowOrder(s.nodes, order) && (n > 0 ==> s.status != RunPending)
    decreases n
  {
    NewRunOk(def);
    if n > 0 {
      var t := Biased(x, order, id);
      BiasedRun(def, x, order, id, n - 1);
      var s := After(def, NewRun(def), Ticks(t, n - 1));
      LastTick(def, t, n - 1);
      BiasedStepTame(def, x, s, order, id);
      StepOk(def, s, t);
    }
  }

  /** A step that does not progress is the last one that could. */
  lemma {:induction false} ProgressEveryTime(def: Definition, x: Option<Key>, order: seq<Key>, id: Key -> int, n: nat)
    requires Tame(x, NewRun(def).nodes) && RowOrder(NewRun(def).nodes, order)
    requires var t := Biased(x, order, id); Step(def, After(def, NewRun(def), Ticks(t, n)), t).progressed
    ensures Progressing(def, NewRun(def), Ticks(Biased(x, order, id), n + 1)) == n + 1
    decreases n
  {
    var t := Biased(x, order, id);
    LastTick(def, t, n);
    if n > 0 {
      var s := After(def, NewRun(def), Ticks(t, n - 1));
      LastTick(def, t, n - 1);
      BiasedRun(def, x, order, id, n - 1);
      BiasedStepTame(def, x, s, order, id);
      StepOk(def, s, t);
      ProgressEveryTime(def, x, order, id, n - 1);
    }
  }

  /** A state of a biased run that the biased tick no longer changes. */
  ghost predicate AtRest(def: Definition, x: Option<Key>, s: RunState, order: seq<Key>, id: Key -> int) {
    && Inv(def, s) && Tame(x, s.nodes) && RowOrder(s.nodes, order) && s.status != RunPending
    && Step(def, s, Biased(x, order, id)).state == s
  }

  /** After 4n + 2 biased ticks an n-node run is at rest. */
  lemma BiasedRest(def: Definition, x: Option<Key>, order: seq<Key>, id: Key -> int) returns (s: RunState)
    requires Tame(x, NewRun(def).nodes) && RowOrder(NewRun(def).nodes, order)
    ensures s == After(def, NewRun(def), Ticks(Biased(x, order, id), 4 * |order| + 2))
    ensures AtRest(def, x, s, order, id)
  {
    var t, n := Biased(x, order, id), 4 * |order| + 2;
    s := After(def, NewRun(def), Ticks(t, n));
    BiasedRun(def, x, order, id, n);
    BiasedStepTame(def, x, s, order, id);
    StepOk(def, s, t);
    if Step(def, s, t).progressed {
      ProgressEveryTime(def, x, order, id, n);
      BoundedProgress(def, Ticks(t, n + 1), order);
    }
  }

  lemma RestIsIdle(def: Definition, x: Option<Key>, s: RunState, order: seq<Key>, id: Key -> int)
    requires AtRest(def, x, s, order, id) && s.status == RunRunning
    ensures Quiescent(s.nodes) && Activate(def, 0, s.nodes, order, |order|) == s.nodes
  {
    var a := BiasedStep(def, x, s, order, id);
    var m := s.nodes;
    forall k | k in m ensures m[k].status != Running {
      if m[k].status == Running { DrivenTurn(x, id, m[k], k, Config(def, k), def.defaults); }
    }
    assert a == m;
    forall k | k in m ensures m[k].status == Pending || Terminal(m[k].status) { assert m[k].status != Waiting; }
  }

  lemma RestIsQuiet(def: Definition, x: Option<Key>, s: RunState, order: seq<Key>, id: Key -> int)
    requires AtRest(def, x, s, order, id) && s.status == RunRunning
    ensures Quiescent(s.nodes) && AllWait(def, s.nodes)
  {
    RestIsIdle(def, x, s, order, id);
    IdleFirstLoop(def, 0, s.nodes, order);
  }

  /** A row that is pending when the run has come to rest makes it a deadlock. */
  lemma PendingAtRest(def: Definition, x: Option<Key>, s: RunState, order: seq<Key>, id: Key -> int, c: Key)
    requires AtRest(def, x, s, order, id)
    requires c in s.nodes && s.nodes[c].status == Pending
    ensures Deadlocked(def, s) && s.status == RunRunning
  {
    assert !AllTerminal(s.nodes);
    RestIsQuiet(def, x, s, order, id);
  }
}
