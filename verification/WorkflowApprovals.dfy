/** Approvals raised for manual_approval nodes: the approval and its link to the row are
    written together, so over any run, raises included, a node gets at most one. */
module WorkflowApprovals {
  import opened Wrappers
  import opened Graph
  import opened WorkflowTypes
  import opened WorkflowModel
  import opened WorkflowRuns

  /** The approvals raised for one node: in the open session, and in the database. */
  datatype Asked = Asked(session: nat, committed: nat)

  /** The turn of row `k` raises an approval. */
  ghost predicate RaisesApproval(t: Tick, w: Sweep, activated: set<Key>, k: Key) {
    !t.early(k).raises && !w.raised && k in w.nodes && w.nodes[k].status == Running && k !in activated &&
    w.nodes[k].kind.ManualApproval? && w.nodes[k].approval.None?
  }

  /** The turn of row `k` creates an exec task, and thereby commits the session. */
  ghost predicate Commits(t: Tick, w: Sweep, activated: set<Key>, k: Key) {
    !t.early(k).raises && !w.raised && k in w.nodes && w.nodes[k].status == Running && k !in activated &&
    w.nodes[k].kind.ExecTask? && w.nodes[k].execTask.None? && !t.early(k).creation.Refused?
  }

  /** The approvals raised for node `j` by the first `i` turns of the second loop. */
  ghost function Asks(def: Definition, t: Tick, activated: set<Key>, w: Sweep, i: nat, j: Key): Asked
    requires i <= |t.order|
    decreases i
  {
    if i == 0 then Asked(0, 0)
    else
      var before, k := Advances(def, t, activated, w, i - 1), t.order[i - 1];
      var x := Asks(def, t, activated, w, i - 1, j);
      if RaisesApproval(t, before, activated, k) && k == j then x.(session := x.session + 1)
      else if Commits(t, before, activated, k) then x.(committed := x.session)
      else x
  }

  /** The approvals for node `j` that one step leaves in the database: a raise keeps only what
      had been committed. */
  ghost function ApprovalsOfStep(def: Definition, s: RunState, t: Tick, j: Key): nat {
    if TerminalRun(s.status) then 0
    else
      var a := Activate(def, t.now, s.nodes, t.order, |t.order|);
      var w := Sweep(a, s, [], s.status == RunPending || a != s.nodes, false);
      var x := Asks(def, t, ActivatedKeys(s.nodes, a), w, |t.order|, j);
      if Step(def, s, t).raised then x.committed else x.session
  }

  ghost function Gained(n: Node, n': Node): nat {
    if n.approval.None? && n'.approval.Some? then 1 else 0
  }

  /** The link of a manual row against its approvals. */
  ghost predicate AskOk(m: Nodes, w: Sweep, x: Asked, j: Key) {
    && j in m && j in w.nodes && j in w.saved.nodes
    && m[j].kind.ManualApproval? && w.nodes[j].kind == m[j].kind && w.saved.nodes[j].kind == m[j].kind
    && (m[j].approval.Some? ==> w.nodes[j].approval == m[j].approval && w.saved.nodes[j].approval == m[j].approval)
    && x.session == Gained(m[j], w.nodes[j]) && x.committed == Gained(m[j], w.saved.nodes[j])
  }

  lemma ManualTurn(def: Definition, t: Tick, activated: set<Key>, m: Nodes, w: Sweep, x: Asked, k: Key, j: Key)
    requires AskOk(m, w, x, j)
    ensures AskOk(m, AdvanceOne(def, t, activated, w, k),
                  if RaisesApproval(t, w, activated, k) && k == j then x.(session := x.session + 1)
                  else if Commits(t, w, activated, k) then x.(committed := x.session) else x, j)
  {
    var w' := AdvanceOne(def, t, activated, w, k);
    if Commits(t, w, activated, k) {
      assert k != j && w'.nodes[j] == w.nodes[j] && w'.saved.nodes[j] == w.nodes[j];
    } else {
      assert w'.saved == w.saved;
    }
  }

  lemma {:induction false} AsksOk(def: Definition, t: Tick, activated: set<Key>, m: Nodes, w: Sweep, i: nat, j: Key)
    requires i <= |t.order| && AskOk(m, w, Asked(0, 0), j)
    ensures AskOk(m, Advances(def, t, activated, w, i), Asks(def, t, activated, w, i, j), j)
    decreases i
  {
    if i > 0 {
      AsksOk(def, t, activated, m, w, i - 1, j);
      ManualTurn(def, t, activated, m, Advances(def, t, activated, w, i - 1),
                 Asks(def, t, activated, w, i - 1, j), t.order[i - 1], j);
    }
  }

  lemma {:induction false} ActivateKeepsApprovals(def: Definition, now: int, m: Nodes, order: seq<Key>, i: nat)
    requires i <= |order|
    ensures var a := Activate(def, now, m, order, i);
            a.Keys == m.Keys && forall k :: k in m ==> a[k].approval == m[k].approval && a[k].kind == m[k].kind
    decreases i
  {
    if i > 0 { ActivateKeepsApprovals(def, now, m, order, i - 1); }
  }

  /** One step raises as many approvals for a manual node as it adds links to its row. */
  lemma StepApprovals(def: Definition, s: RunState, t: Tick, j: Key)
    requires j in s.nodes && s.nodes[j].kind.ManualApproval?
    ensures var s' := Step(def, s, t).state;
            j in s'.nodes && s'.nodes[j].kind == s.nodes[j].kind &&
            (s.nodes[j].approval.Some? ==> s'.nodes[j].approval.Some?) &&
            ApprovalsOfStep(def, s, t, j) == Gained(s.nodes[j], s'.nodes[j])
  {
    if !TerminalRun(s.status) {
      var a := Activate(def, t.now, s.nodes, t.order, |t.order|);
      ActivateKeepsApprovals(def, t.now, s.nodes, t.order, |t.order|);
      var w := Sweep(a, s, [], s.status == RunPending || a != s.nodes, false);
      AsksOk(def, t, ActivatedKeys(s.nodes, a), s.nodes, w, |t.order|, j);
      TickShape(def, s, t, Swept(def, s, t));
      SettleKeepsApproval(def, t, Swept(def, s, t).nodes, j);
    }
  }

  lemma SettleKeepsApproval(def: Definition, t: Tick, m: Nodes, k: Key)
    requires k in m
    ensures Settle(def, t, m, k).approval == m[k].approval && Settle(def, t, m, k).kind == m[k].kind
  {
    assert Poll(m[k], t.late(k).task).node.approval == m[k].approval;
  }

  ghost function ApprovalsFor(def: Definition, s: RunState, acts: seq<Action>, k: Key): nat {
    if acts == [] then 0 else
      var init, a := acts[..|acts| - 1], acts[|acts| - 1];
      ApprovalsFor(def, s, init, k) + if a.DoTick? then ApprovalsOfStep(def, After(def, s, init), a.t, k) else 0
  }

  /** Over every run of steps, cancels and callbacks, raises included, a manual node gets at most
      one approval, and exactly when the run remembers it. */
  lemma {:induction false} AtMostOneApproval(def: Definition, acts: seq<Action>, k: Key)
    requires k in def.nodes && def.nodes[k].kind.ManualApproval?
    ensures var s := After(def, NewRun(def), acts);
            k in s.nodes && s.nodes[k].kind.ManualApproval? &&
            ApprovalsFor(def, NewRun(def), acts, k) == if s.nodes[k].approval.Some? then 1 else 0
    decreases |acts|
  {
    if acts != [] {
      var init, a := acts[..|acts| - 1], acts[|acts| - 1];
      AtMostOneApproval(def, init, k);
      if a.DoTick? { StepApprovals(def, After(def, NewRun(def), init), a.t, k); }
    }
  }
}
