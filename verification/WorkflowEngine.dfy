/** The engine's transactions on the rows of one run: `step`, `cancel_run` and
    `callback_node`, each proved against its specification in `WorkflowModel`. */
module WorkflowEngine {
  import opened Wrappers
  import opened Graph
  import opened WorkflowTypes
  import opened WorkflowModel

  /** The route tables built by `_edges`: target -> set of sources. */
  datatype Routes = Routes(succ: map<Key, set<Key>>, fail: map<Key, set<Key>>)

  function Sources(m: map<Key, set<Key>>, k: Key): set<Key> {
    if k in m then m[k] else {}
  }

  ghost predicate RoutesOf(def: Definition, r: Routes) {
    forall k :: Sources(r.succ, k) == SuccessSources(def, k) && Sources(r.fail, k) == FailureSources(def, k)
  }

  /** Adds `key` as a source of every target in `targets`. */
  method AddTargets(m: map<Key, set<Key>>, targets: seq<Key>, key: Key) returns (r: map<Key, set<Key>>)
    ensures forall k :: Sources(r, k) == if k in targets then Sources(m, k) + {key} else Sources(m, k)
  {
    r := m;
    for i := 0 to |targets|
      invariant forall k :: Sources(r, k) == if k in targets[..i] then Sources(m, k) + {key} else Sources(m, k)
    {
      r := r[targets[i] := Sources(r, targets[i]) + {key}];
      assert targets[..i + 1] == targets[..i] + [targets[i]];
    }
    assert targets[..|targets|] == targets;
  }

  /** `_edges`: inverts the route lists of every node. */
  method BuildRoutes(def: Definition) returns (r: Routes)
    ensures RoutesOf(def, r)
  {
    var succ: map<Key, set<Key>>, fail: map<Key, set<Key>> := map[], map[];
    var rest := def.nodes.Keys;
    while rest != {}
      invariant rest <= def.nodes.Keys
      invariant forall k :: Sources(succ, k) == SuccessSources(def, k) - rest
      invariant forall k :: Sources(fail, k) == FailureSources(def, k) - rest
      decreases rest
    {
      var key :| key in rest;
      succ := AddTargets(succ, def.nodes[key].onSuccess, key);
      fail := AddTargets(fail, def.nodes[key].onFailure, key);
      rest := rest - {key};
    }
    r := Routes(succ, fail);
  }

  /** What a step that does not raise commits. */
  function EndedRun(order: seq<Key>, z: Nodes, error: Option<Reason>): RunState {
    if !Finalises(z) then RunState(RunRunning, z, error)
    else if AnyFailed(z) then RunState(RunFailed, z, FirstError(order, z))
    else RunState(RunSucceeded, z, error)
  }

  /** The third loop has settled exactly the rows `seen`. */
  ghost predicate SettledRows(def: Definition, t: Tick, seen: seq<Key>, was: Nodes, now: Nodes) {
    now.Keys == was.Keys && forall k :: k in was ==> now[k] == if k in seen then Settle(def, t, was, k) else was[k]
  }

  lemma SettleTurn(def: Definition, t: Tick, order: seq<Key>, i: nat, was: Nodes, now: Nodes)
    requires RowOrder(was, order) && i < |order| && SettledRows(def, t, order[..i], was, now)
    ensures var k := order[i];
            && k in was && k in now && now[k] == was[k]
            && (now[k].status == Waiting ==>
                  var r := AdvanceWaiting(now[k], Config(def, k), def.defaults, t.late(k));
                  SettledRows(def, t, order[..i + 1], was, now[k := r.node])
                  && (r.progressed <==> r.node != now[k])
                  && (now[k := r.node] != was <==> now != was || r.progressed))
            && (now[k].status != Waiting ==> SettledRows(def, t, order[..i + 1], was, now))
  {
    var k := order[i];
    assert k in order && k !in order[..i];
    assert order[..i + 1] == order[..i] + [k];
    if now[k].status == Waiting {
      var n := WaitingTurn(now[k], Config(def, k), def.defaults, t.late(k));
      OneMoreRow(was, now, k, n);
    }
  }

  lemma WaitingTurn(n: Node, config: NodeConfig, defaults: Timeout, o: Obs) returns (n': Node)
    requires n.status == Waiting
    ensures n' == AdvanceWaiting(n, config, defaults, o).node
    ensures AdvanceWaiting(n, config, defaults, o).progressed <==> n' != n
  {
    n' := AdvanceWaiting(n, config, defaults, o).node;
  }

  lemma OneMoreRow(was: Nodes, now: Nodes, k: Key, n: Node)
    requires now.Keys == was.Keys && k in was && now[k] == was[k]
    ensures now[k := n] != was <==> now != was || n != now[k]
  {
    if now != was {
      var j :| j in was && now[j] != was[j];
      assert now[k := n][j] != was[j];
    } else if n != now[k] {
      assert now[k := n][k] != was[k];
    } else {
      assert now[k := n] == was;
    }
  }

  /** One run: `db` is the committed state, `status`, `nodes` and `error` the open session. */
  class Run {
    var db: RunState
    var status: RunStatus
    var nodes: Nodes
    var error: Option<Reason>

    constructor (def: Definition)
      ensures db == NewRun(def)
    {
      db := NewRun(def);
      status, nodes, error := RunPending, map[], None;
    }

    /** One turn of the first loop: activates or skips a pending row. */
    method ActivateRow(def: Definition, routes: Routes, now: int, k: Key, st: Statuses, activated: set<Key>)
      returns (st': Statuses, activated': set<Key>, changed: bool)
      requires RoutesOf(def, routes) && k in nodes && st == StatusesOf(nodes)
      modifies this`nodes
      ensures nodes == ActivateOne(def, now, old(nodes), k)
      ensures st' == StatusesOf(nodes) && changed == (nodes != old(nodes))
      ensures activated' == activated + ActivatedKeys(old(nodes), nodes)
    {
      st', activated', changed := st, activated, false;
      if nodes[k].status != Pending { return; }
      RowChanged(nodes, k, Start(nodes[k], now));
      RowChanged(nodes, k, nodes[k].(status := Skipped));
      var verdict := Judge(Deps(def, k), Sources(routes.fail, k), Sources(routes.succ, k), st);
      assert verdict == VerdictOf(def, StatusesOf(nodes), k);
      if verdict.Ready? {
        nodes := nodes[k := nodes[k].(status := Running, attempt := nodes[k].attempt + 1, startedAt := Some(now))];
        activated' := activated + {k};
        st' := st[k := Running];
        changed := true;
      } else if verdict.Skip? {
        nodes := nodes[k := nodes[k].(status := Skipped)];
        st' := st[k := Skipped];
        changed := true;
      }
    }

    /** The first loop; the status table sees earlier turns. */
    method ActivateRows(def: Definition, routes: Routes, t: Tick) returns (activated: set<Key>, progressed: bool)
      requires RoutesOf(def, routes) && RowOrder(nodes, t.order)
      modifies this`nodes
      ensures nodes == Activate(def, t.now, old(nodes), t.order, |t.order|)
      ensures activated == ActivatedKeys(old(nodes), nodes)
      ensures progressed <==> nodes != old(nodes)
    {
      activated, progressed := {}, false;
      var st := StatusesOf(nodes);
      for i := 0 to |t.order|
        invariant nodes == Activate(def, t.now, old(nodes), t.order, i)
        invariant st == StatusesOf(nodes)
        invariant activated == ActivatedKeys(old(nodes), nodes)
        invariant progressed <==> nodes != old(nodes)
      {
        ActivateTurn(def, t.now, old(nodes), t.order, i);
        var changed;
        st, activated, changed := ActivateRow(def, routes, t.now, t.order[i], st, activated);
        progressed := progressed || changed;
      }
    }

    method Commit()
      modifies this`db
      ensures db == RunState(status, nodes, error)
    {
      db := RunState(status, nodes, error);
    }

    /** `_create_exec_task`: the creation commits the session, then the row is
        linked; only an ungated task is committed again. */
    method CreateExecTask(k: Key, o: Obs) returns (raised: bool, task: int)
      requires k in nodes
      modifies this`nodes, this`db
      ensures raised <==> o.creation.Refused? || o.creation.Unlinked?
      ensures raised ==> nodes == old(nodes)
      ensures o.creation.Refused? ==> db == old(db)
      ensures !o.creation.Refused? ==> task == o.creation.task
      ensures !raised ==> nodes == old(nodes)[k := Launch(old(nodes)[k], o).node]
      ensures o.creation.Gated? || o.creation.Unlinked? ==> db == RunState(status, old(nodes), error)
      ensures o.creation.Launched? ==> db == RunState(status, nodes, error)
    {
      raised, task := false, 0;
      match o.creation {
        case Refused => raised := true;
        case Launched(id) =>
          Commit();
          nodes := nodes[k := nodes[k].(execTask := Some(id))];
          Commit();
          task := id;
        case Unlinked(id) =>
          Commit();
          raised := true;
          task := id;
        case Gated(id, a) =>
          Commit();
          var n := nodes[k].(execTask := Some(id));
          n := n.(approval := Some(a), startedAt := if n.startedAt.Some? then n.startedAt else Some(o.now));
          nodes := nodes[k := n.(status := Waiting)];
          task := id;
      }
    }

    /** The second loop: running rows that were not activated in this tick. */
    method AdvanceRunningRows(def: Definition, t: Tick, activated: set<Key>, started: bool)
      returns (progressed: bool, created: seq<(Key, int)>, raised: bool)
      requires status == RunRunning && error == db.error && forall i :: 0 <= i < |t.order| ==> t.order[i] in nodes
      modifies this`nodes, this`db
      ensures var w := Advances(def, t, activated, Sweep(old(nodes), old(db), [], started, false), |t.order|);
              Sweep(nodes, db, created, progressed, raised) == w
      ensures nodes.Keys == old(nodes).Keys
    {
      progressed, created, raised := started, [], false;
      ghost var w0 := Sweep(old(nodes), old(db), [], started, false);
      ghost var w := w0;
      for i := 0 to |t.order|
        invariant w == Advances(def, t, activated, w0, i)
        invariant Sweep(nodes, db, created, progressed, false) == w
        invariant nodes.Keys == old(nodes).Keys && error == db.error
      {
        progressed, created, raised := AdvanceRunningRow(def, t, activated, t.order[i], progressed, created, w);
        w := AdvanceOne(def, t, activated, w, t.order[i]);
        if raised {
          RaisedStays(def, t, activated, w0, i + 1, |t.order|);
          return;
        }
      }
    }

    /** One turn of the second loop. */
    method AdvanceRunningRow(def: Definition, t: Tick, activated: set<Key>, k: Key, before: bool, made: seq<(Key, int)>,
                             ghost w: Sweep)
      returns (progressed: bool, created: seq<(Key, int)>, raised: bool)
      requires status == RunRunning && k in nodes && error == db.error
      requires w == Sweep(nodes, db, made, before, false)
      modifies this`nodes, this`db
      ensures Sweep(nodes, db, created, progressed, raised) == AdvanceOne(def, t, activated, w, k)
      ensures nodes.Keys == old(nodes).Keys && error == db.error
    {
      progressed, created, raised := before, made, false;
      var n := nodes[k];
      if n.status == Running && k !in activated {
        if t.early(k).raises { return before, made, true; }
        if n.kind.ExecTask? && n.execTask.None? {
          var task;
          raised, task := CreateExecTask(k, t.early(k));
          if raised {
            if t.early(k).creation.Unlinked? { created := created + [(k, task)]; }
            return;
          }
          created := created + [(k, task)];
          progressed := true;
        } else {
          var r := AdvanceRunning(n, Config(def, k), def.defaults, t.early(k));
          nodes := nodes[k := r.node];
          progressed := progressed || r.progressed;
        }
      }
    }

    /** The third loop: waiting rows, including those that began to wait in this tick. */
    method AdvanceWaitingRows(def: Definition, t: Tick, before: bool) returns (progressed: bool, raised: bool)
      requires RowOrder(nodes, t.order)
      modifies this`nodes
      ensures raised <==> exists k :: k in old(nodes) && old(nodes)[k].status == Waiting && t.late(k).raises
      ensures !raised ==> nodes == Settled(def, t, old(nodes))
      ensures !raised ==> (progressed <==> before || nodes != old(nodes))
    {
      progressed, raised := before, false;
      for i := 0 to |t.order|
        invariant forall j :: 0 <= j < i ==> !(old(nodes)[t.order[j]].status == Waiting && t.late(t.order[j]).raises)
        invariant SettledRows(def, t, t.order[..i], old(nodes), nodes)
        invariant progressed <==> before || nodes != old(nodes)
      {
        var k := t.order[i];
        SettleTurn(def, t, t.order, i, old(nodes), nodes);
        if nodes[k].status == Waiting {
          if t.late(k).raises { return progressed, true; }
          var r := AdvanceWaiting(nodes[k], Config(def, k), def.defaults, t.late(k));
          if r.progressed {
            progressed := true;
          }
          nodes := nodes[k := r.node];
        }
      }
      assert t.order[..|t.order|] == t.order;
    }

    /** The end of a tick: the run ends once every row is terminal. */
    method Finalise(order: seq<Key>) returns (ended: bool)
      requires status == RunRunning
      modifies this`status, this`error
      ensures ended <==> Finalises(nodes)
      ensures !ended ==> status == RunRunning && error == old(error)
      ensures ended && AnyFailed(nodes) ==> status == RunFailed && error == FirstError(order, nodes)
      ensures ended && !AnyFailed(nodes) ==> status == RunSucceeded && error == old(error)
    {
      ended := nodes != map[] && forall k :: k in nodes ==> Terminal(nodes[k].status);
      if ended {
        if exists k :: k in nodes && nodes[k].status == Failed {
          status := RunFailed;
          error := FirstError(order, nodes);
        } else {
          status := RunSucceeded;
        }
      }
    }

    /** One engine step on the committed state. A raise abandons the session: the
        database keeps what had been committed. */
    method StepRun(def: Definition, t: Tick) returns (progressed: bool, created: seq<(Key, int)>, raised: bool)
      requires RowOrder(db.nodes, t.order)
      modifies this
      ensures Stepped(db, progressed, created, raised) == Step(def, old(db), t)
    {
      if TerminalRun(db.status) { return false, [], false; }
      progressed, created, raised := BeginStep(def, t);
      if raised { return false, created, true; }
      progressed, raised := EndStep(def, t, progressed);
      if raised { progressed := false; }
    }

    /** The first half of a step: load the session, then the first two loops. */
    method BeginStep(def: Definition, t: Tick) returns (progressed: bool, created: seq<(Key, int)>, raised: bool)
      requires !TerminalRun(db.status) && RowOrder(db.nodes, t.order)
      modifies this
      ensures Sweep(nodes, db, created, progressed, raised) == Swept(def, old(db), t)
      ensures status == RunRunning && error == old(db).error && RowOrder(nodes, t.order)
    {
      ghost var s := db;
      status, nodes, error := db.status, db.nodes, db.error;
      progressed := false;
      if status == RunPending {
        status := RunRunning;
        progressed := true;
      }
      var routes := BuildRoutes(def);
      var activated, changed := ActivateRows(def, routes, t);
      ActivateShape(def, t.now, s.nodes, t.order, |t.order|);
      progressed, created, raised := AdvanceRunningRows(def, t, activated, progressed || changed);
    }

    /** The rest of a step: the third loop, the end of the run, and the commit. */
    method EndStep(def: Definition, t: Tick, before: bool) returns (progressed: bool, raised: bool)
      requires status == RunRunning && RowOrder(nodes, t.order)
      modifies this
      ensures raised <==> RaisesLate(t, old(nodes))
      ensures raised ==> db == old(db)
      ensures var z := Settled(def, t, old(nodes));
              !raised ==> db == EndedRun(t.order, z, old(error)) &&
                          (progressed <==> before || z != old(nodes) || Finalises(z))
    {
      progressed, raised := AdvanceWaitingRows(def, t, before);
      if raised || t.fails { return progressed, true; }
      var ended := Finalise(t.order);
      progressed := progressed || ended;
      Commit();
    }

    /** `cancel_run`. */
    method CancelRun() returns (ok: bool)
      modifies this
      ensures ok <==> !TerminalRun(old(db.status))
      ensures db == Cancel(old(db))
    {
      if TerminalRun(db.status) { return false; }
      status, nodes, error := RunCancelled, db.nodes, db.error;
      var rest := nodes.Keys;
      while rest != {}
        invariant rest <= nodes.Keys == old(db.nodes).Keys
        invariant forall k :: k in nodes ==>
          nodes[k] == if k in rest then old(db.nodes)[k] else SkipOpen(old(db.nodes))[k]
        modifies this`nodes
        decreases rest
      {
        var k :| k in rest;
        if Open(nodes[k].status) {
          nodes := nodes[k := nodes[k].(status := Skipped)];
        }
        rest := rest - {k};
      }
      assert nodes == SkipOpen(old(db.nodes));
      Commit();
      ok := true;
    }

    /** `callback_node`: the conditional update that only one request can win. */
    method CallbackNode(k: Key) returns (ok: bool)
      modifies this
      ensures db == Called(old(db), k)
      ensures ok <==> db != old(db)
    {
      if k !in db.nodes || !db.nodes[k].kind.Callback? || db.nodes[k].status != Waiting { return false; }
      db := db.(nodes := db.nodes[k := db.nodes[k].(status := Succeeded, error := None)]);
      ok := true;
    }
  }

  /** The tables derived from the rows, after one pending row has changed. */
  lemma RowChanged(nodes: Nodes, k: Key, n: Node)
    requires k in nodes && nodes[k].status == Pending && n.status != Pending
    ensures StatusesOf(nodes[k := n]) == StatusesOf(nodes)[k := n.status]
    ensures ActivatedKeys(nodes, nodes[k := n]) == if n.status == Running then {k} else {}
    ensures nodes[k := n] != nodes
  {
    assert nodes[k := n][k] != nodes[k];
  }

  /** The first loop changes a row at most once, from pending. */
  lemma {:induction false} ActivateShape(def: Definition, now: int, nodes: Nodes, order: seq<Key>, i: nat)
    requires i <= |order|
    ensures var m := Activate(def, now, nodes, order, i);
            m.Keys == nodes.Keys && forall k :: k in m ==> (m[k] == nodes[k] || (nodes[k].status == Pending != m[k].status))
  {
    if i > 0 {
      ActivateShape(def, now, nodes, order, i - 1);
    }
  }

  /** What one more turn adds to the activated set and to the change flag. */
  lemma ActivateTurn(def: Definition, now: int, nodes: Nodes, order: seq<Key>, i: nat)
    requires i < |order| && order[i] in nodes
    ensures var m, m' := Activate(def, now, nodes, order, i), Activate(def, now, nodes, order, i + 1);
            && order[i] in m && m' == ActivateOne(def, now, m, order[i])
            && ActivatedKeys(nodes, m') == ActivatedKeys(nodes, m) + ActivatedKeys(m, m')
            && (m' != nodes <==> m != nodes || m' != m)
  {
    ActivateShape(def, now, nodes, order, i);
    var m, k := Activate(def, now, nodes, order, i), order[i];
    var m' := ActivateOne(def, now, m, k);
    if m' != m {
      assert m[k].status == Pending && m'[k].status != Pending;
    }
  }

  lemma {:induction false} RaisedStays(def: Definition, t: Tick, activated: set<Key>, w: Sweep, i: nat, j: nat)
    requires i <= j <= |t.order| && Advances(def, t, activated, w, i).raised
    ensures Advances(def, t, activated, w, j) == Advances(def, t, activated, w, i)
  {
    if i < j {
      RaisedStays(def, t, activated, w, i, j - 1);
    }
  }
}
