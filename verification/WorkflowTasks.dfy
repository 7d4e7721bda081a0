/** Exec tasks created for a node: at most one per node, unless a tick raises, at whatever
    point, before the link to the task it created last is committed. */
module WorkflowTasks {
  import opened Wrappers
  import opened Graph
  import opened WorkflowTypes
  import opened WorkflowModel
  import opened WorkflowRuns

  /** The task created for `k`, if any. */
  ghost function TaskOf(created: seq<(Key, int)>, k: Key): Option<int> {
    if created == [] then None
    else if created[|created| - 1].0 == k then Some(created[|created| - 1].1)
    else TaskOf(created[..|created| - 1], k)
  }

  ghost function CountOf(created: seq<(Key, int)>, k: Key): nat {
    if created == [] then 0
    else CountOf(created[..|created| - 1], k) + if created[|created| - 1].0 == k then 1 else 0
  }

  /** The task created last was gated, or the commit of its link failed: its link is not committed. */
  ghost predicate Uncommitted(t: Tick, created: seq<(Key, int)>, k: Key) {
    created != [] && created[|created| - 1].0 == k && (t.early(k).creation.Gated? || t.early(k).creation.Unlinked?)
  }

  lemma Appended(created: seq<(Key, int)>, k: Key, id: int, j: Key)
    ensures TaskOf(created + [(k, id)], j) == if j == k then Some(id) else TaskOf(created, j)
    ensures CountOf(created + [(k, id)], j) == CountOf(created, j) + if j == k then 1 else 0
  {
    assert (created + [(k, id)])[..|created|] == created;
  }

  /** The link of one row during the second loop, against its link before the tick. */
  ghost predicate LinkOk(t: Tick, m: Nodes, w: Sweep, k: Key) {
    && k in m && k in w.nodes && k in w.saved.nodes
    && match TaskOf(w.created, k)
       case None =>
         CountOf(w.created, k) == 0
         && w.nodes[k].execTask == m[k].execTask && w.saved.nodes[k].execTask == m[k].execTask
       case Some(id) =>
         CountOf(w.created, k) == 1 && m[k].execTask.None?
         && w.nodes[k].execTask == (if t.early(k).creation.Unlinked? then None else Some(id))
         && w.saved.nodes[k].execTask == (if Uncommitted(t, w.created, k) then None else Some(id))
         && (t.early(k).creation.Unlinked? ==> w.raised && Uncommitted(t, w.created, k))
  }

  lemma PlainAdvanceKeepsLink(n: Node, config: NodeConfig, defaults: Timeout, o: Obs)
    requires n.status == Running
    ensures var r := AdvanceRunning(n, config, defaults, o);
            r.Moved? && !(n.kind.ExecTask? && n.execTask.None?) ==> r.node.execTask == n.execTask
  {
  }

  lemma AdvanceOneLinks(def: Definition, t: Tick, activated: set<Key>, m: Nodes, w: Sweep, k: Key)
    requires forall j :: j in m <==> j in w.nodes
    requires forall j :: j in m ==> LinkOk(t, m, w, j)
    ensures var w' := AdvanceOne(def, t, activated, w, k);
            (forall j :: j in m <==> j in w'.nodes) && forall j :: j in m ==> LinkOk(t, m, w', j)
  {
    forall j | j in m ensures LinkOk(t, m, AdvanceOne(def, t, activated, w, k), j) {
      if k in m { AdvanceOneLink(def, t, activated, m, w, k, j); }
    }
  }

  lemma AdvanceOneLink(def: Definition, t: Tick, activated: set<Key>, m: Nodes, w: Sweep, k: Key, j: Key)
    requires LinkOk(t, m, w, j) && LinkOk(t, m, w, k)
    ensures LinkOk(t, m, AdvanceOne(def, t, activated, w, k), j)
  {
    if !w.raised && w.nodes[k].status == Running && k !in activated {
      var n, o := w.nodes[k], t.early(k);
      if CreatesUnlinked(n, o) {
        UnlinkedTurn(def, t, activated, w, k);
        UnlinkedLink(t, m, w, AdvanceOne(def, t, activated, w, k), k, j, o.creation.task);
      } else if n.kind.ExecTask? && n.execTask.None? && !o.creation.Refused? && !o.raises {
        TurnCreates(def, t, activated, w, k);
        NewTaskLink(t, m, w, AdvanceOne(def, t, activated, w, k), k, j, o.creation.task);
      } else {
        PlainAdvanceKeepsLink(n, Config(def, k), def.defaults, o);
      }
    }
  }

  /** A turn that creates a task: everything before it is committed, the new link only if the task is not gated. */
  ghost predicate CreatesTask(w: Sweep, w': Sweep, k: Key, id: int, gated: bool) {
    && k in w.nodes && w'.nodes.Keys == w.nodes.Keys && w'.nodes[k].execTask == Some(id) && !w'.raised
    && (forall j :: j in w.nodes && j != k ==> w'.nodes[j] == w.nodes[j])
    && w'.saved.nodes == (if gated then w.nodes else w'.nodes)
    && w'.created == w.created + [(k, id)]
  }

  lemma TurnCreates(def: Definition, t: Tick, activated: set<Key>, w: Sweep, k: Key)
    requires !w.raised && k in w.nodes && w.nodes[k].status == Running && k !in activated
    requires w.nodes[k].kind.ExecTask? && w.nodes[k].execTask.None? && !t.early(k).raises
    requires !t.early(k).creation.Refused? && !t.early(k).creation.Unlinked?
    ensures CreatesTask(w, AdvanceOne(def, t, activated, w, k), k, t.early(k).creation.task, t.early(k).creation.Gated?)
  {
  }

  /** A turn that creates a task whose link is not committed: the session is given up. */
  lemma UnlinkedTurn(def: Definition, t: Tick, activated: set<Key>, w: Sweep, k: Key)
    requires !w.raised && k in w.nodes && w.nodes[k].status == Running && k !in activated
    requires CreatesUnlinked(w.nodes[k], t.early(k))
    ensures var w' := AdvanceOne(def, t, activated, w, k);
            && w'.raised && w'.nodes == w.nodes && w'.saved.nodes == w.nodes
            && w'.created == w.created + [(k, t.early(k).creation.task)]
  {
  }

  lemma UnlinkedLink(t: Tick, m: Nodes, w: Sweep, w': Sweep, k: Key, j: Key, id: int)
    requires LinkOk(t, m, w, j) && LinkOk(t, m, w, k) && w.nodes[k].execTask.None? && t.early(k).creation.Unlinked?
    requires !w.raised && w'.raised && w'.nodes == w.nodes && w'.saved.nodes == w.nodes && w'.created == w.created + [(k, id)]
    ensures LinkOk(t, m, w', j)
  {
    Appended(w.created, k, id, j);
  }

  lemma NewTaskLink(t: Tick, m: Nodes, w: Sweep, w': Sweep, k: Key, j: Key, id: int)
    requires LinkOk(t, m, w, j) && LinkOk(t, m, w, k) && w.nodes[k].execTask.None?
    requires !w.raised && w'.raised == w.raised && !t.early(k).creation.Unlinked?
    requires CreatesTask(w, w', k, id, t.early(k).creation.Gated?)
    ensures LinkOk(t, m, w', j)
  {
    Appended(w.created, k, id, j);
    assert Uncommitted(t, w'.created, j) <==> j == k && t.early(k).creation.Gated?;
  }

  lemma {:induction false} AdvancesLinks(def: Definition, t: Tick, activated: set<Key>, m: Nodes, w: Sweep, i: nat)
    requires i <= |t.order| && (forall j :: j in m <==> j in w.nodes)
    requires forall j :: j in m ==> LinkOk(t, m, w, j)
    ensures var w' := Advances(def, t, activated, w, i);
            (forall j :: j in m <==> j in w'.nodes) && forall j :: j in m ==> LinkOk(t, m, w', j)
  {
    if i > 0 {
      AdvancesLinks(def, t, activated, m, w, i - 1);
      AdvanceOneLinks(def, t, activated, m, Advances(def, t, activated, w, i - 1), t.order[i - 1]);
    }
  }

  lemma {:induction false} ActivateKeepsLinks(def: Definition, now: int, m: Nodes, order: seq<Key>, i: nat)
    requires i <= |order|
    ensures var m' := Activate(def, now, m, order, i);
            m'.Keys == m.Keys && forall k :: k in m ==> m'[k].execTask == m[k].execTask
  {
    if i > 0 {
      ActivateKeepsLinks(def, now, m, order, i - 1);
    }
  }

  /** The tick raised, and the link to the last task it had created was not committed. */
  ghost predicate RaisedUncommitted(def: Definition, s: RunState, t: Tick) {
    var r := Step(def, s, t);
    r.raised && r.created != [] && Uncommitted(t, r.created, r.created[|r.created| - 1].0)
  }

  // ------------------------------------------------------------ stranding, told from the inputs

  /** A running exec row without a task. */
  ghost predicate Needy(s: RunState, k: Key) {
    k in s.nodes && s.nodes[k].status == Running && s.nodes[k].kind.ExecTask? && s.nodes[k].execTask.None?
  }

  /** The second loop meets a needy row for the first time. */
  ghost predicate NeedyTurn(s: RunState, order: seq<Key>, i: nat)
    requires i < |order|
  {
    Needy(s, order[i]) && order[i] !in order[..i]
  }

  /** Turn `i` creates a task and fails to commit the link to it. */
  ghost predicate UnlinkedAt(s: RunState, t: Tick, i: nat)
    requires i < |t.order|
  {
    NeedyTurn(s, t.order, i) && !t.early(t.order[i]).raises && t.early(t.order[i]).creation.Unlinked?
  }

  /** Turn `i` of the second loop raises. */
  ghost predicate RaisesAt(s: RunState, t: Tick, i: nat)
    requires i < |t.order|
  {
    var k := t.order[i];
    || (k in s.nodes && s.nodes[k].status == Running && t.early(k).raises)
    || (NeedyTurn(s, t.order, i) && (t.early(k).creation.Refused? || t.early(k).creation.Unlinked?))
  }

  /** None of the first `i` turns raises. */
  ghost predicate NoRaise(s: RunState, t: Tick, i: nat)
    requires i <= |t.order|
  {
    forall m {:trigger RaisesAt(s, t, m)} :: 0 <= m < i ==> !RaisesAt(s, t, m)
  }

  /** The turn of a running row makes it wait. */
  predicate BeginsToWait(n: Node, o: Obs) {
    n.kind.Callback? || (n.kind.ManualApproval? && n.approval.None?) ||
    (n.kind.ExecTask? && n.execTask.None? && o.creation.Gated?)
  }

  /** The row waits after the first `i` turns: it did before, or its turn made it wait. */
  ghost predicate WaitsAfter(s: RunState, t: Tick, i: nat, k: Key)
    requires i <= |t.order|
  {
    k in s.nodes &&
    (s.nodes[k].status == Waiting ||
     (s.nodes[k].status == Running && k in t.order[..i] && BeginsToWait(s.nodes[k], t.early(k))))
  }

  /** A waiting row's turn raises, or the end of the step does. */
  ghost predicate EndRaises(s: RunState, t: Tick) {
    t.fails || exists k :: WaitsAfter(s, t, |t.order|, k) && t.late(k).raises
  }

  /** The step raises first at turn `j` of its second loop, or after that loop. */
  ghost predicate RaisesFirst(s: RunState, t: Tick, j: nat)
    requires j <= |t.order|
  {
    NoRaise(s, t, j) && if j < |t.order| then RaisesAt(s, t, j) else EndRaises(s, t)
  }

  /** The nearest needy row before turn `j` is the gated row `i`. */
  ghost predicate GatedBefore(s: RunState, t: Tick, i: nat, j: nat)
    requires i < j <= |t.order|
  {
    NeedyTurn(s, t.order, i) && t.early(t.order[i]).creation.Gated? &&
    forall m {:trigger NeedyTurn(s, t.order, m)} :: i < m < j ==> !NeedyTurn(s, t.order, m)
  }

  ghost predicate LosesLast(s: RunState, t: Tick, j: nat)
    requires j <= |t.order|
  {
    (j < |t.order| && UnlinkedAt(s, t, j)) || exists i: nat :: i < j && GatedBefore(s, t, i, j)
  }

  /**
   * The tick will strand a task, told from the rows and the answers it will get: the run is
   * live, something raises, and the first thing that does is the commit of a new link, or the
   * nearest needy row before it is gated.
   */
  ghost predicate Strands(s: RunState, t: Tick) {
    !TerminalRun(s.status) && exists j: nat :: j <= |t.order| && RaisesFirst(s, t, j) && LosesLast(s, t, j)
  }

  ghost function LastNeedy(s: RunState, order: seq<Key>, i: nat): Option<Key>
    requires i <= |order|
  {
    if i == 0 then None else if NeedyTurn(s, order, i - 1) then Some(order[i - 1]) else LastNeedy(s, order, i - 1)
  }

  ghost function LastCreated(created: seq<(Key, int)>): Option<Key> {
    if created == [] then None else Some(created[|created| - 1].0)
  }

  /** The row gets a turn in the second loop. */
  ghost predicate HasTurn(w: Sweep, activated: set<Key>, k: Key) {
    k in w.nodes && w.nodes[k].status == Running && k !in activated
  }

  /** What the first `i` turns have left of one row. */
  ghost predicate RowTraced(s: RunState, t: Tick, activated: set<Key>, w: Sweep, i: nat, k: Key)
    requires i <= |t.order|
  {
    && (k in w.nodes <==> k in s.nodes)
    && (k in s.nodes && s.nodes[k].status == Running && k !in t.order[..i] ==>
          k !in activated && w.nodes[k] == s.nodes[k])
    && (HasTurn(w, activated, k) ==> s.nodes[k].status == Running)
    && (HasTurn(w, activated, k) && w.nodes[k].kind.ExecTask? && w.nodes[k].execTask.None? ==> k !in t.order[..i])
    && (HasTurn(w, activated, k) && BeginsToWait(w.nodes[k], t.early(k)) ==> k !in t.order[..i])
    && (k in w.nodes && w.nodes[k].status == Waiting <==> WaitsAfter(s, t, i, k))
  }

  ghost predicate RowsTraced(s: RunState, t: Tick, activated: set<Key>, w: Sweep, i: nat)
    requires i <= |t.order|
  {
    forall k {:trigger RowTraced(s, t, activated, w, i, k)} :: RowTraced(s, t, activated, w, i, k)
  }

  ghost predicate StoppedAt(s: RunState, t: Tick, w: Sweep, j: nat)
    requires j < |t.order|
  {
    w.raised && RaisesAt(s, t, j) && NoRaise(s, t, j) &&
    LastCreated(w.created) == if UnlinkedAt(s, t, j) then Some(t.order[j]) else LastNeedy(s, t.order, j)
  }

  /** What the second loop has done after `i` turns, told from the inputs. */
  ghost predicate Traced(s: RunState, t: Tick, activated: set<Key>, w: Sweep, i: nat)
    requires i <= |t.order|
  {
    if NoRaise(s, t, i) then
      !w.raised && LastCreated(w.created) == LastNeedy(s, t.order, i) && RowsTraced(s, t, activated, w, i)
    else exists j: nat :: j < i && StoppedAt(s, t, w, j)
  }

  /** The effect of one turn on a row: none without a turn, else what `AdvanceRunning` makes of it. */
  lemma TurnOfRow(def: Definition, t: Tick, activated: set<Key>, w: Sweep, k: Key)
    requires !w.raised
    ensures var w' := AdvanceOne(def, t, activated, w, k);
            && w'.nodes.Keys == w.nodes.Keys
            && (forall j :: j in w.nodes && j != k ==> w'.nodes[j] == w.nodes[j])
            && (!HasTurn(w, activated, k) ==> w' == w)
            && (HasTurn(w, activated, k) ==>
                  match AdvanceRunning(w.nodes[k], Config(def, k), def.defaults, t.early(k))
                  case Raised => w'.raised && LastCreated(w'.created) ==
                                   if CreatesUnlinked(w.nodes[k], t.early(k)) then Some(k) else LastCreated(w.created)
                  case Moved(n, _) => !w'.raised && w'.nodes[k] == n)
  {
  }

  lemma TurnCreated(def: Definition, t: Tick, activated: set<Key>, w: Sweep, k: Key)
    requires !w.raised
    ensures var w' := AdvanceOne(def, t, activated, w, k);
            (!w'.raised ==>
               LastCreated(w'.created) ==
               if HasTurn(w, activated, k) && w.nodes[k].kind.ExecTask? && w.nodes[k].execTask.None? then Some(k)
               else LastCreated(w.created))
  {
  }

  /** When a turn raises, and whether it leaves the row waiting. */
  lemma TurnOutcome(n: Node, config: NodeConfig, defaults: Timeout, o: Obs)
    requires n.status == Running
    ensures var r := AdvanceRunning(n, config, defaults, o);
            && (r.Raised? <==>
                  (o.raises || (n.kind.ExecTask? && n.execTask.None? && (o.creation.Refused? || o.creation.Unlinked?))))
            && (r.Moved? ==> r.node.kind == n.kind && (r.node.status == Waiting <==> BeginsToWait(n, o))
                             && (r.node.status == Running ==>
                                   !BeginsToWait(r.node, o) && (r.node.kind.ExecTask? ==> r.node.execTask.Some?)))
  {
  }

  lemma SeenNext(order: seq<Key>, i: nat, j: Key)
    requires i < |order|
    ensures j in order[..i + 1] <==> j in order[..i] || j == order[i]
  {
    assert order[..i + 1] == order[..i] + [order[i]];
  }

  lemma RowTurn(def: Definition, s: RunState, t: Tick, activated: set<Key>, w: Sweep, i: nat, j: Key)
    requires i < |t.order| && !w.raised && RowTraced(s, t, activated, w, i, j) && RowTraced(s, t, activated, w, i, t.order[i])
    requires !AdvanceOne(def, t, activated, w, t.order[i]).raised
    ensures RowTraced(s, t, activated, AdvanceOne(def, t, activated, w, t.order[i]), i + 1, j)
  {
    var k := t.order[i];
    SeenNext(t.order, i, j);
    TurnOfRow(def, t, activated, w, k);
    if j == k && HasTurn(w, activated, k) {
      TurnOutcome(w.nodes[k], Config(def, k), def.defaults, t.early(k));
      VisitedOnce(s, t, activated, w, i, k);
    }
  }

  /** A row met again has nothing left to begin. */
  lemma VisitedOnce(s: RunState, t: Tick, activated: set<Key>, w: Sweep, i: nat, k: Key)
    requires i <= |t.order| && RowTraced(s, t, activated, w, i, k) && HasTurn(w, activated, k)
    ensures k in t.order[..i] ==> !BeginsToWait(w.nodes[k], t.early(k))
    ensures k !in t.order[..i] ==> w.nodes[k] == s.nodes[k]
    ensures s.nodes[k].status == Running
    ensures k in t.order[..i] ==> !BeginsToWait(s.nodes[k], t.early(k))
  {
  }

  /** The turn raises exactly where the inputs say so. */
  lemma RaiseTurn(def: Definition, s: RunState, t: Tick, activated: set<Key>, w: Sweep, i: nat)
    requires i < |t.order| && !w.raised && RowTraced(s, t, activated, w, i, t.order[i]) && NoRaise(s, t, i)
    ensures var k := t.order[i];
            && (AdvanceOne(def, t, activated, w, k).raised <==> RaisesAt(s, t, i))
            && (NeedyTurn(s, t.order, i) <==>
                  HasTurn(w, activated, k) && w.nodes[k].kind.ExecTask? && w.nodes[k].execTask.None?)
            && (RaisesAt(s, t, i) ==> (UnlinkedAt(s, t, i) <==> CreatesUnlinked(w.nodes[k], t.early(k))) && k in w.nodes)
  {
    var k := t.order[i];
    TurnOfRow(def, t, activated, w, k);
    if k in t.order[..i] {
      var m :| 0 <= m < i && t.order[..i][m] == k;
      assert !RaisesAt(s, t, m);
    }
    if HasTurn(w, activated, k) { TurnOutcome(w.nodes[k], Config(def, k), def.defaults, t.early(k)); }
  }

  lemma TraceTurn(def: Definition, s: RunState, t: Tick, activated: set<Key>, w: Sweep, i: nat)
    requires i < |t.order| && Traced(s, t, activated, w, i)
    ensures Traced(s, t, activated, AdvanceOne(def, t, activated, w, t.order[i]), i + 1)
  {
    var k := t.order[i];
    var w' := AdvanceOne(def, t, activated, w, k);
    assert NoRaise(s, t, i + 1) <==> NoRaise(s, t, i) && !RaisesAt(s, t, i);
    if !NoRaise(s, t, i) {
      assert w' == w;
    } else {
      assert RowTraced(s, t, activated, w, i, k);
      RaiseTurn(def, s, t, activated, w, i);
      TurnOfRow(def, t, activated, w, k);
      if RaisesAt(s, t, i) {
        assert HasTurn(w, activated, k);
        assert StoppedAt(s, t, w', i);
      } else {
        TurnCreated(def, t, activated, w, k);
        var next := i + 1;
        forall j ensures RowTraced(s, t, activated, w', next, j) {
          assert RowTraced(s, t, activated, w, i, j);
          RowTurn(def, s, t, activated, w, i, j);
        }
      }
    }
  }

  lemma {:induction false} Trace(def: Definition, s: RunState, t: Tick, activated: set<Key>, w: Sweep, i: nat)
    requires i <= |t.order| && Traced(s, t, activated, w, 0)
    ensures Traced(s, t, activated, Advances(def, t, activated, w, i), i)
    decreases i
  {
    if i > 0 {
      Trace(def, s, t, activated, w, i - 1);
      TraceTurn(def, s, t, activated, Advances(def, t, activated, w, i - 1), i - 1);
    }
  }

  lemma SweptTraced(def: Definition, s: RunState, t: Tick) returns (activated: set<Key>)
    ensures Traced(s, t, activated, Swept(def, s, t), |t.order|)
  {
    var a := Activate(def, t.now, s.nodes, t.order, |t.order|);
    ActivateKeepsStarted(def, t.now, s.nodes, t.order, |t.order|);
    activated := ActivatedKeys(s.nodes, a);
    var w := Sweep(a, s, [], s.status == RunPending || a != s.nodes, false);
    forall k ensures RowTraced(s, t, activated, w, 0, k) {
      if k in s.nodes { assert s.nodes[k].status != Pending ==> a[k] == s.nodes[k]; }
    }
    Trace(def, s, t, activated, w, |t.order|);
  }

  lemma {:induction false} LastNeedyAt(s: RunState, order: seq<Key>, j: nat) returns (i: nat)
    requires j <= |order| && LastNeedy(s, order, j).Some?
    ensures i < j && NeedyTurn(s, order, i) && LastNeedy(s, order, j) == Some(order[i])
    ensures forall m {:trigger NeedyTurn(s, order, m)} :: i < m < j ==> !NeedyTurn(s, order, m)
    decreases j
  {
    if NeedyTurn(s, order, j - 1) { i := j - 1; } else { i := LastNeedyAt(s, order, j - 1); }
  }

  lemma {:induction false} NearestNeedy(s: RunState, order: seq<Key>, i: nat, j: nat)
    requires i < j <= |order| && NeedyTurn(s, order, i)
    requires forall m {:trigger NeedyTurn(s, order, m)} :: i < m < j ==> !NeedyTurn(s, order, m)
    ensures LastNeedy(s, order, j) == Some(order[i])
    decreases j
  {
    if j > i + 1 { NearestNeedy(s, order, i, j - 1); }
  }

  /** There is one first raise. */
  lemma RaisesFirstOnce(s: RunState, t: Tick, j: nat, m: nat)
    requires j <= |t.order| && m <= |t.order| && RaisesFirst(s, t, j) && RaisesFirst(s, t, m)
    ensures j == m
  {
  }

  /** The last task created before the first raise is the one the inputs tell, and its link is
      uncommitted exactly when they tell so. */
  lemma LastTaskLost(s: RunState, t: Tick, j: nat, last: Option<Key>)
    requires j <= |t.order| && RaisesFirst(s, t, j)
    requires last == if j < |t.order| && UnlinkedAt(s, t, j) then Some(t.order[j]) else LastNeedy(s, t.order, j)
    ensures LosesLast(s, t, j) <==>
              last.Some? && (t.early(last.value).creation.Gated? || t.early(last.value).creation.Unlinked?)
  {
    if !(j < |t.order| && UnlinkedAt(s, t, j)) {
      if last.Some? {
        var i := LastNeedyAt(s, t.order, j);
        assert !RaisesAt(s, t, i);
        if t.early(last.value).creation.Gated? { assert GatedBefore(s, t, i, j); }
      }
      if i: nat :| i < j && GatedBefore(s, t, i, j) { NearestNeedy(s, t.order, i, j); }
    }
  }

  /** Where the step raised, told from its trace. */
  lemma RaisedWhere(def: Definition, s: RunState, t: Tick, w: Sweep, activated: set<Key>) returns (j: nat)
    requires w == Swept(def, s, t) && Traced(s, t, activated, w, |t.order|) && (w.raised || RaisesLate(t, w.nodes))
    ensures j <= |t.order| && RaisesFirst(s, t, j)
    ensures LastCreated(w.created) ==
              if j < |t.order| && UnlinkedAt(s, t, j) then Some(t.order[j]) else LastNeedy(s, t.order, j)
  {
    if NoRaise(s, t, |t.order|) {
      j := |t.order|;
      LateTold(s, t, activated, w);
    } else {
      j :| j < |t.order| && StoppedAt(s, t, w, j);
    }
  }

  lemma LateTold(s: RunState, t: Tick, activated: set<Key>, w: Sweep)
    requires RowsTraced(s, t, activated, w, |t.order|)
    ensures RaisesLate(t, w.nodes) <==> EndRaises(s, t)
  {
    forall k ensures k in w.nodes && w.nodes[k].status == Waiting <==> WaitsAfter(s, t, |t.order|, k) {
      assert RowTraced(s, t, activated, w, |t.order|, k);
    }
  }

  lemma RaisesIfFirst(s: RunState, t: Tick, activated: set<Key>, w: Sweep, j: nat)
    requires Traced(s, t, activated, w, |t.order|) && j <= |t.order| && RaisesFirst(s, t, j)
    ensures w.raised || RaisesLate(t, w.nodes)
  {
    if j == |t.order| {
      LateTold(s, t, activated, w);
    } else {
      assert !NoRaise(s, t, |t.order|);
    }
  }

  /** The inputs tell exactly when a tick loses the link to a task it created. */
  lemma StrandsIff(def: Definition, s: RunState, t: Tick)
    ensures Strands(s, t) <==> RaisedUncommitted(def, s, t)
  {
    if !TerminalRun(s.status) {
      var w := Swept(def, s, t);
      TickShape(def, s, t, w);
      var activated := SweptTraced(def, s, t);
      if w.raised || RaisesLate(t, w.nodes) {
        var j := RaisedWhere(def, s, t, w, activated);
        LastTaskLost(s, t, j, LastCreated(w.created));
        if Strands(s, t) {
          var m: nat :| m <= |t.order| && RaisesFirst(s, t, m) && LosesLast(s, t, m);
          RaisesFirstOnce(s, t, j, m);
        }
      } else if Strands(s, t) {
        var m: nat :| m <= |t.order| && RaisesFirst(s, t, m) && LosesLast(s, t, m);
        RaisesIfFirst(s, t, activated, w, m);
      }
    }
  }

  /** What one tick does to the link of every row: it keeps it, or records the one
      task it created, which is lost exactly for the last task of a stranding tick. */
  lemma TickLinks(def: Definition, s: RunState, t: Tick, k: Key)
    requires Inv(def, s) && k in s.nodes
    ensures var r := Step(def, s, t);
            && k in r.state.nodes
            && CountOf(r.created, k) == (if TaskOf(r.created, k).Some? then 1 else 0)
            && (TaskOf(r.created, k).Some? ==> s.nodes[k].execTask.None?)
            && r.state.nodes[k].execTask ==
                 if TaskOf(r.created, k).None? then s.nodes[k].execTask
                 else if Strands(s, t) && r.created[|r.created| - 1].0 == k then None
                 else TaskOf(r.created, k)
  {
    StrandsIff(def, s, t);
    if !TerminalRun(s.status) {
      SweptLinks(def, s, t, k);
      var w := Swept(def, s, t);
      TickShape(def, s, t, w);
      SettleKeepsLink(def, t, w.nodes, k);
    }
  }

  lemma SweptLinks(def: Definition, s: RunState, t: Tick, k: Key)
    requires k in s.nodes
    ensures LinkOk(t, s.nodes, Swept(def, s, t), k)
  {
    var a := Activate(def, t.now, s.nodes, t.order, |t.order|);
    ActivateKeepsLinks(def, t.now, s.nodes, t.order, |t.order|);
    AdvancesLinks(def, t, ActivatedKeys(s.nodes, a), s.nodes,
                  Sweep(a, s, [], s.status == RunPending || a != s.nodes, false), |t.order|);
  }

  lemma SettleKeepsLink(def: Definition, t: Tick, m: Nodes, k: Key)
    requires k in m
    ensures Settle(def, t, m, k).execTask == m[k].execTask
  {
    assert Poll(m[k], t.late(k).task).node.execTask == m[k].execTask;
  }

  // ------------------------------------------------------------ whole runs

  /** How many exec tasks a run has created for node `k`. */
  ghost function TasksFor(def: Definition, s: RunState, acts: seq<Action>, k: Key): nat {
    if acts == [] then 0 else
      var init, a := acts[..|acts| - 1], acts[|acts| - 1];
      TasksFor(def, s, init, k) + if a.DoTick? then CountOf(Step(def, After(def, s, init), a.t).created, k) else 0
  }

  ghost predicate NeverStrands(def: Definition, s: RunState, acts: seq<Action>) {
    acts == [] ||
      (NeverStrands(def, s, acts[..|acts| - 1])
       && (acts[|acts| - 1].DoTick? ==> !Strands(After(def, s, acts[..|acts| - 1]), acts[|acts| - 1].t)))
  }

  lemma OtherActionsKeepLinks(s: RunState, k: Key, j: Key)
    requires k in s.nodes
    ensures k in Cancel(s).nodes && Cancel(s).nodes[k].execTask == s.nodes[k].execTask
    ensures k in Called(s, j).nodes && Called(s, j).nodes[k].execTask == s.nodes[k].execTask
  {
  }

  /** Without a stranding tick a node gets at most one exec task over the whole run,
      and the run remembers it. */
  lemma {:induction false} AtMostOneTask(def: Definition, acts: seq<Action>, k: Key)
    requires k in def.nodes && NeverStrands(def, NewRun(def), acts)
    ensures k in After(def, NewRun(def), acts).nodes
    ensures TasksFor(def, NewRun(def), acts, k) ==
            if After(def, NewRun(def), acts).nodes[k].execTask.Some? then 1 else 0
  {
    NewRunOk(def);
    if acts != [] {
      var init, a := acts[..|acts| - 1], acts[|acts| - 1];
      AtMostOneTask(def, init, k);
      RunKeepsInv(def, NewRun(def), init);
      var s := After(def, NewRun(def), init);
      match a
      case DoTick(t) => TickLinks(def, s, t, k);
      case DoCancel => OtherActionsKeepLinks(s, k, k);
      case DoCallback(j) => OtherActionsKeepLinks(s, k, j);
    }
  }

  /** A tick leaves a created task unlinked exactly when it strands. */
  lemma LostExactlyWhenStranding(def: Definition, s: RunState, t: Tick)
    requires Inv(def, s) && RowOrder(s.nodes, t.order)
    ensures Strands(s, t) <==>
            var r := Step(def, s, t);
            exists k :: k in r.state.nodes && TaskOf(r.created, k).Some? && r.state.nodes[k].execTask.None?
  {
    StepOk(def, s, t);
    var r := Step(def, s, t);
    StrandsIff(def, s, t);
    forall k | k in s.nodes { TickLinks(def, s, t, k); }
    if Strands(s, t) {
      var k := r.created[|r.created| - 1].0;
      CreatedAreRows(def, s, t);
      assert k in s.nodes && TaskOf(r.created, k).Some?;
    }
  }

  lemma {:induction false} SweepCreatesRows(def: Definition, t: Tick, activated: set<Key>, w: Sweep, i: nat)
    requires i <= |t.order| && w.created == []
    ensures Advances(def, t, activated, w, i).nodes.Keys == w.nodes.Keys
    ensures forall p :: p in Advances(def, t, activated, w, i).created ==> p.0 in w.nodes
  {
    if i > 0 {
      SweepCreatesRows(def, t, activated, w, i - 1);
    }
  }

  lemma CreatedAreRows(def: Definition, s: RunState, t: Tick)
    ensures forall p :: p in Step(def, s, t).created ==> p.0 in s.nodes
  {
    if !TerminalRun(s.status) {
      var a := Activate(def, t.now, s.nodes, t.order, |t.order|);
      ActivateKeepsLinks(def, t.now, s.nodes, t.order, |t.order|);
      SweepCreatesRows(def, t, ActivatedKeys(s.nodes, a),
                       Sweep(a, s, [], s.status == RunPending || a != s.nodes, false), |t.order|);
    }
  }

  // ------------------------------------------------------------ the stranding scenario

  ghost function Lone(kind: NodeType): NodeDef {
    NodeDef(kind, NodeConfig(Absent, NoUntil, 0), [], [], [])
  }

  /** An exec node, and beside it a node of any type. */
  ghost function Pair(kind: NodeType): Definition {
    Definition(map["a" := Lone(ExecTask), "b" := Lone(kind)], Absent)
  }

  /** Creating the task of "a" is gated by an approval; the turn of "b" raises. */
  ghost function BadTick(): Tick {
    var early := (k: Key) => Obs(0, None, None, Gated(1, 1), 0, k != "a");
    Tick(["a", "b"], 0, early, early, false)
  }

  /** Both rows started, neither linked. */
  ghost function Started(kind: NodeType): RunState {
    RunState(RunRunning, map["a" := Start(NewNode(ExecTask), 0), "b" := Start(NewNode(kind), 0)], None)
  }

  /** Neither node of the pair waits for anything. */
  lemma PairIsReady(kind: NodeType, st: Statuses, k: Key)
    ensures VerdictOf(Pair(kind), st, k) == Verdict.Ready
  {
    var def := Pair(kind);
    assert SuccessSources(def, k) == {} && FailureSources(def, k) == {} && Deps(def, k) == [];
  }

  lemma FirstTickActivates(kind: NodeType)
    ensures Activate(Pair(kind), 0, NewRun(Pair(kind)).nodes, ["a", "b"], 2) == Started(kind).nodes
  {
    var def, order := Pair(kind), ["a", "b"];
    var m0 := NewRun(def).nodes;
    assert m0 == map["a" := NewNode(ExecTask), "b" := NewNode(kind)];
    PairIsReady(kind, StatusesOf(m0), "a");
    var m1 := m0["a" := Start(m0["a"], 0)];
    PairIsReady(kind, StatusesOf(m1), "b");
    assert Activate(def, 0, m0, order, 0) == m0;
    assert Activate(def, 0, m0, order, 1) == ActivateOne(def, 0, m0, "a") == m1;
    assert Activate(def, 0, m0, order, 2) == ActivateOne(def, 0, m1, "b");
  }

  /** Rows started in a tick are left alone by its second loop. */
  lemma {:induction false} StartedRowsRest(def: Definition, t: Tick, activated: set<Key>, w: Sweep, i: nat)
    requires i <= |t.order| && forall k :: k in w.nodes ==> k in activated
    ensures Advances(def, t, activated, w, i) == w
    decreases i
  {
    if i > 0 { StartedRowsRest(def, t, activated, w, i - 1); }
  }

  lemma FirstSweep(kind: NodeType)
    ensures Swept(Pair(kind), NewRun(Pair(kind)), BadTick()) ==
            Sweep(Started(kind).nodes, NewRun(Pair(kind)), [], true, false)
  {
    var def, t, a := Pair(kind), BadTick(), Started(kind).nodes;
    var s := NewRun(def);
    FirstTickActivates(kind);
    assert forall k :: k in a ==> k in s.nodes && s.nodes[k].status == Pending && a[k].status == Running;
    StartedRowsRest(def, t, ActivatedKeys(s.nodes, a), Sweep(a, s, [], true, false), 2);
  }

  lemma FirstTickStarts(kind: NodeType)
    ensures Step(Pair(kind), NewRun(Pair(kind)), BadTick()) == Stepped(Started(kind), true, [], false)
  {
    var def, t, a := Pair(kind), BadTick(), Started(kind).nodes;
    FirstSweep(kind);
    assert !RaisesLate(t, a);
    assert Settled(def, t, a) == a;
    assert a["a"].status == Running;
  }

  lemma LaterTicksStrand(kind: NodeType)
    ensures Step(Pair(kind), Started(kind), BadTick()) == Stepped(Started(kind), false, [("a", 1)], true)
  {
    var def, s, t := Pair(kind), Started(kind), BadTick();
    var m := s.nodes;
    assert t.order[0] == "a" && t.order[1] == "b" && Activate(def, 0, m, t.order, 0) == m;
    assert Activate(def, 0, m, t.order, 1) == m;
    assert Activate(def, 0, m, t.order, 2) == m;
    var act := ActivatedKeys(m, m);
    assert act == {};
    var w0 := Sweep(m, s, [], false, false);
    var w1 := Advances(def, t, act, w0, 1);
    assert Advances(def, t, act, w0, 0) == w0;
    assert w1 == AdvanceOne(def, t, act, w0, "a");
    assert w1.saved == s && w1.created == [("a", 1)] && !w1.raised;
    assert w1.nodes["b"] == m["b"];
    var w2 := Advances(def, t, act, w0, 2);
    assert w2 == AdvanceOne(def, t, act, w1, "b") == w1.(raised := true);
  }

  /** The bound of one task per node fails without the condition, whatever the type of the
      node that raises: ticks of this run create any number of tasks for the same node. */
  lemma {:induction false} TasksWithoutBound(kind: NodeType, n: nat)
    ensures var acts := seq(n + 1, i => DoTick(BadTick()));
            After(Pair(kind), NewRun(Pair(kind)), acts) == Started(kind) &&
            TasksFor(Pair(kind), NewRun(Pair(kind)), acts, "a") == n
  {
    var acts := seq(n + 1, i => DoTick(BadTick()));
    var init := seq(n, i => DoTick(BadTick()));
    assert acts == init + [DoTick(BadTick())];
    if n == 0 {
      FirstBadTick(kind);
      assert init == [];
    } else {
      TasksWithoutBound(kind, n - 1);
      LaterBadTick(kind, init);
    }
  }

  lemma FirstBadTick(kind: NodeType)
    ensures var acts := [] + [DoTick(BadTick())];
            After(Pair(kind), NewRun(Pair(kind)), acts) == Started(kind) &&
            TasksFor(Pair(kind), NewRun(Pair(kind)), acts, "a") == 0
  {
    FirstTickStarts(kind);
    LastAction(Pair(kind), NewRun(Pair(kind)), [], BadTick(), "a");
  }

  lemma LaterBadTick(kind: NodeType, init: seq<Action>)
    requires After(Pair(kind), NewRun(Pair(kind)), init) == Started(kind)
    ensures var acts := init + [DoTick(BadTick())];
            After(Pair(kind), NewRun(Pair(kind)), acts) == Started(kind) &&
            TasksFor(Pair(kind), NewRun(Pair(kind)), acts, "a") == TasksFor(Pair(kind), NewRun(Pair(kind)), init, "a") + 1
  {
    LaterTicksStrand(kind);
    LastAction(Pair(kind), NewRun(Pair(kind)), init, BadTick(), "a");
    assert CountOf([("a", 1)], "a") == CountOf([], "a") + 1;
  }

  lemma LastAction(def: Definition, s: RunState, init: seq<Action>, t: Tick, k: Key)
    ensures var acts := init + [DoTick(t)];
            After(def, s, acts) == Step(def, After(def, s, init), t).state &&
            TasksFor(def, s, acts, k) == TasksFor(def, s, init, k) + CountOf(Step(def, After(def, s, init), t).created, k)
  {
    assert (init + [DoTick(t)])[..|init|] == init;
  }
}
