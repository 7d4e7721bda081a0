/** The shortest deadlock of an accepted definition that uses routes alone: three nodes in a
    chain of success routes. The first one times out, the second is skipped, and the third
    waits for a success that can no longer come. */
module WorkflowChain {
  import opened Wrappers
  import opened Graph
  import opened WorkflowTypes
  import opened WorkflowModel
  import opened WorkflowRuns
  import opened WorkflowLiveness
  import V = WorkflowValidation

  ghost function ChainNode(key: Key, next: V.RawRefs): V.RawNode {
    V.RawNode(Some(key), Some(Sleep), V.Falsy, next, V.Falsy, NodeConfig(Seconds(0), NoUntil, 0))
  }

  ghost predicate ThreeKeys(a: Key, b: Key, c: Key) {
    a != b && b != c && a != c && a != "" && b != "" && c != ""
  }

  /** a -> b -> c by `on_success`; every node sleeps and times out at once. */
  ghost function ChainRaw(a: Key, b: Key, c: Key): V.RawDefinition {
    V.RawDefinition([ChainNode(a, V.Refs([b])), ChainNode(b, V.Refs([c])), ChainNode(c, V.Falsy)], Absent)
  }

  // ------------------------------------------------------------ the definition is accepted

  lemma RecordedOne(n: V.RawNode, k: Key, r: Key)
    requires n == ChainNode(k, V.Refs([r]))
    ensures V.RecordedBy(n) == {(r, k)}
  {
    assert V.Named(n, V.OnSuccess) == [r] && V.Named(n, V.DependsOn) == [] && V.Named(n, V.OnFailure) == [];
    assert r in V.Named(n, V.OnSuccess);
    assert (r, k) in V.FieldEdges(n, V.OnSuccess);
    assert V.FieldEdges(n, V.OnSuccess) == {(r, k)};
    assert V.FieldEdges(n, V.DependsOn) == {} && V.FieldEdges(n, V.OnFailure) == {};
  }

  lemma RecordedNone(n: V.RawNode, k: Key)
    requires n == ChainNode(k, V.Falsy)
    ensures V.RecordedBy(n) == {}
  {
  }

  lemma ChainEdges(a: Key, b: Key, c: Key)
    ensures V.Recorded(ChainRaw(a, b, c).nodes) == {(b, a), (c, b)} && V.RefCount(ChainRaw(a, b, c).nodes) == 2
  {
    var ns := ChainRaw(a, b, c).nodes;
    V.RecordedSnoc(ns, 0);
    V.RecordedSnoc(ns, 1);
    V.RecordedSnoc(ns, 2);
    assert ns[..0] == [] && ns[..3] == ns;
    RecordedOne(ns[0], a, b);
    RecordedOne(ns[1], b, c);
    RecordedNone(ns[2], c);
  }

  lemma ChainKeys(a: Key, b: Key, c: Key)
    ensures var ns := ChainRaw(a, b, c).nodes;
            V.KeyOf(ns[0]) == a && V.KeyOf(ns[1]) == b && V.KeyOf(ns[2]) == c && V.KeysOf(ns) == {a, b, c}
  {
    var ns := ChainRaw(a, b, c).nodes;
    assert ns[0] in ns && ns[1] in ns && ns[2] in ns;
  }

  lemma ChainRefs(a: Key, b: Key, c: Key, i: nat)
    requires i < 3
    ensures V.RefsWellFormed(ChainRaw(a, b, c).nodes[i], {a, b, c})
    ensures V.Named(ChainRaw(a, b, c).nodes[i], V.DependsOn) == []
  {
  }

  lemma ChainAccepted(a: Key, b: Key, c: Key)
    requires ThreeKeys(a, b, c)
    ensures V.Acceptable(ChainRaw(a, b, c)) && RoutesOnly(ChainRaw(a, b, c))
  {
    var ns := ChainRaw(a, b, c).nodes;
    ChainEdges(a, b, c);
    ChainKeys(a, b, c);
    forall i | 0 <= i < |ns| ensures V.RefsWellFormed(ns[i], V.KeysOf(ns)) && V.Named(ns[i], V.DependsOn) == [] {
      ChainRefs(a, b, c, i);
    }
    ChainAcyclic(a, b, c);
  }

  lemma ChainAcyclic(a: Key, b: Key, c: Key)
    requires ThreeKeys(a, b, c)
    ensures Acyclic({(b, a), (c, b)})
  {
    FinishOrderAcyclic({(b, a), (c, b)}, map[a := 0, b := 1, c := 2]);
  }

  // ------------------------------------------------------------ the definition as the engine loads it

  ghost function SleepDef(next: seq<Key>): NodeDef {
    NodeDef(Sleep, NodeConfig(Seconds(0), NoUntil, 0), [], next, [])
  }

  ghost function Chain(a: Key, b: Key, c: Key): Definition {
    Definition(map[a := SleepDef([b]), b := SleepDef([c]), c := SleepDef([])], Absent)
  }

  lemma ChainLoaded(a: Key, b: Key, c: Key)
    ensures Load(ChainRaw(a, b, c)) == Chain(a, b, c)
  {
    var ns := ChainRaw(a, b, c).nodes;
    assert ns[..2] == [ns[0], ns[1]] && ns[..2][..1] == [ns[0]] && [ns[0]][..0] == [];
    assert LoadNodes([ns[0]]) == map[a := SleepDef([b])];
    assert LoadNodes(ns[..2]) == map[a := SleepDef([b]), b := SleepDef([c])];
  }

  lemma ChainSources(a: Key, b: Key, c: Key)
    requires ThreeKeys(a, b, c)
    ensures var def := Chain(a, b, c);
            SuccessSources(def, a) == {} && SuccessSources(def, b) == {a} && SuccessSources(def, c) == {b}
    ensures forall k :: FailureSources(Chain(a, b, c), k) == {} && Deps(Chain(a, b, c), k) == []
  {
  }

  /** The verdict on a node with one success source and nothing else to wait for. */
  lemma OneSource(def: Definition, st: Statuses, k: Key, src: Key, x: NodeStatus)
    requires FailureSources(def, k) == {} && Deps(def, k) == [] && SuccessSources(def, k) == {src} && Is(st, src, x)
    ensures VerdictOf(def, st, k) ==
              if x == Failed then Verdict.Skip else if x == Succeeded then Verdict.Ready else Verdict.Wait
  {
    assert src in SuccessSources(def, k);
  }

  ghost function Rows(a: Key, b: Key, c: Key, x: Node, y: Node, z: Node): Nodes {
    map[a := x, b := y, c := z]
  }

  lemma ChainVerdicts(a: Key, b: Key, c: Key, x: Node, y: Node, z: Node)
    requires ThreeKeys(a, b, c)
    ensures var def, st := Chain(a, b, c), StatusesOf(Rows(a, b, c, x, y, z));
            && VerdictOf(def, st, a) == Verdict.Ready
            && VerdictOf(def, st, b) ==
                 (if x.status == Failed then Verdict.Skip else if x.status == Succeeded then Verdict.Ready else Verdict.Wait)
            && VerdictOf(def, st, c) ==
                 (if y.status == Failed then Verdict.Skip else if y.status == Succeeded then Verdict.Ready else Verdict.Wait)
  {
    var def, st := Chain(a, b, c), StatusesOf(Rows(a, b, c, x, y, z));
    ChainSources(a, b, c);
    OneSource(def, st, b, a, x.status);
    OneSource(def, st, c, b, y.status);
  }

  // ------------------------------------------------------------ three ticks

  ghost function ChainTick(a: Key, b: Key, c: Key): Tick {
    var obs := (k: Key) => Obs(0, None, None, Refused, 0, false);
    Tick([a, b, c], 0, obs, obs, false)
  }

  ghost function P(): Node { NewNode(Sleep) }

  lemma ThreeTurns(def: Definition, m: Nodes, a: Key, b: Key, c: Key)
    ensures Activate(def, 0, m, [a, b, c], 3) ==
            ActivateOne(def, 0, ActivateOne(def, 0, ActivateOne(def, 0, m, a), b), c)
  {
    var order := [a, b, c];
    assert order[0] == a && order[1] == b && order[2] == c;
    assert Activate(def, 0, m, order, 0) == m;
    assert Activate(def, 0, m, order, 1) == ActivateOne(def, 0, m, a);
    assert Activate(def, 0, m, order, 2) == ActivateOne(def, 0, ActivateOne(def, 0, m, a), b);
  }

  ghost function AfterA(x: Node): Node { if x.status == Pending then Start(x, 0) else x }

  ghost function AfterB(x: Node): Node { if x.status == Failed then P().(status := Skipped) else P() }

  lemma TurnA(a: Key, b: Key, c: Key, x: Node)
    requires ThreeKeys(a, b, c)
    ensures ActivateOne(Chain(a, b, c), 0, Rows(a, b, c, x, P(), P()), a) == Rows(a, b, c, AfterA(x), P(), P())
  {
    ChainVerdicts(a, b, c, x, P(), P());
  }

  lemma TurnB(a: Key, b: Key, c: Key, x: Node)
    requires ThreeKeys(a, b, c) && x.status != Succeeded
    ensures ActivateOne(Chain(a, b, c), 0, Rows(a, b, c, x, P(), P()), b) == Rows(a, b, c, x, AfterB(x), P())
  {
    ChainVerdicts(a, b, c, x, P(), P());
  }

  lemma TurnC(a: Key, b: Key, c: Key, x: Node, y: Node)
    requires ThreeKeys(a, b, c) && y.status != Succeeded && y.status != Failed
    ensures ActivateOne(Chain(a, b, c), 0, Rows(a, b, c, x, y, P()), c) == Rows(a, b, c, x, y, P())
  {
    ChainVerdicts(a, b, c, x, y, P());
  }

  /** The first loop, by the status of the first row. */
  lemma FirstLoop(a: Key, b: Key, c: Key, x: Node)
    requires ThreeKeys(a, b, c) && x.status != Succeeded
    ensures Activate(Chain(a, b, c), 0, Rows(a, b, c, x, P(), P()), [a, b, c], 3) ==
            Rows(a, b, c, AfterA(x), AfterB(AfterA(x)), P())
  {
    ThreeTurns(Chain(a, b, c), Rows(a, b, c, x, P(), P()), a, b, c);
    TurnA(a, b, c, x);
    TurnB(a, b, c, AfterA(x));
    TurnC(a, b, c, AfterA(x), AfterB(AfterA(x)));
  }

  ghost function Live(a: Key, b: Key, c: Key, x: Node, y: Node): RunState {
    RunState(RunRunning, Rows(a, b, c, x, y, P()), None)
  }

  lemma Unsettled(a: Key, b: Key, c: Key, x: Node, y: Node)
    requires ThreeKeys(a, b, c) && x.status != Waiting && y.status != Waiting
    ensures var m := Rows(a, b, c, x, y, P());
            Settled(Chain(a, b, c), ChainTick(a, b, c), m) == m && !Finalises(m)
  {
    assert Rows(a, b, c, x, y, P())[c] == P();
  }

  /** A tick whose second loop finds nothing to do. */
  lemma QuietTick(a: Key, b: Key, c: Key, s: RunState, x: Node, y: Node)
    requires ThreeKeys(a, b, c) && !TerminalRun(s.status) && s.error == None
    requires Activate(Chain(a, b, c), 0, s.nodes, [a, b, c], 3) == Rows(a, b, c, x, y, P())
    requires x.status != Waiting && y.status != Waiting && y.status != Running
    requires x.status == Running ==> a in s.nodes && s.nodes[a].status == Pending
    ensures Step(Chain(a, b, c), s, ChainTick(a, b, c)).state == Live(a, b, c, x, y)
  {
    var def, t, m := Chain(a, b, c), ChainTick(a, b, c), Rows(a, b, c, x, y, P());
    var w := Sweep(m, s, [], s.status == RunPending || m != s.nodes, false);
    IdleSecondLoop(def, t, ActivatedKeys(s.nodes, m), w, 3);
    assert Swept(def, s, t) == w;
    Unsettled(a, b, c, x, y);
  }

  ghost function Begun(): Node { Start(P(), 0) }

  ghost function TimedOut(): Node { Fail(Begun(), TimedOutNode) }

  lemma ChainBegins(a: Key, b: Key, c: Key)
    requires ThreeKeys(a, b, c)
    ensures Step(Chain(a, b, c), NewRun(Chain(a, b, c)), ChainTick(a, b, c)).state == Live(a, b, c, Begun(), P())
  {
    assert NewRun(Chain(a, b, c)).nodes == Rows(a, b, c, P(), P(), P());
    FirstLoop(a, b, c, P());
    QuietTick(a, b, c, NewRun(Chain(a, b, c)), Begun(), P());
  }

  lemma TimesOut(a: Key, b: Key, c: Key)
    requires ThreeKeys(a, b, c)
    ensures var def, t := Chain(a, b, c), ChainTick(a, b, c);
            AdvanceRunning(Begun(), Config(def, a), def.defaults, t.early(a)) == Moved(TimedOut(), true)
  {
  }

  lemma SecondLoop(a: Key, b: Key, c: Key, s: RunState, p: bool)
    requires ThreeKeys(a, b, c)
    ensures var w := Sweep(Rows(a, b, c, Begun(), P(), P()), s, [], p, false);
            Advances(Chain(a, b, c), ChainTick(a, b, c), {}, w, 3) ==
              w.(nodes := Rows(a, b, c, TimedOut(), P(), P()), progressed := true)
  {
    var def, t := Chain(a, b, c), ChainTick(a, b, c);
    var w := Sweep(Rows(a, b, c, Begun(), P(), P()), s, [], p, false);
    var w' := w.(nodes := Rows(a, b, c, TimedOut(), P(), P()), progressed := true);
    TimesOut(a, b, c);
    assert t.order[0] == a && t.order[1] == b && t.order[2] == c;
    assert Advances(def, t, {}, w, 0) == w;
    assert Advances(def, t, {}, w, 1) == AdvanceOne(def, t, {}, w, a) == w';
    assert Advances(def, t, {}, w, 2) == AdvanceOne(def, t, {}, w', b) == w';
  }

  lemma ChainFails(a: Key, b: Key, c: Key)
    requires ThreeKeys(a, b, c)
    ensures Step(Chain(a, b, c), Live(a, b, c, Begun(), P()), ChainTick(a, b, c)).state == Live(a, b, c, TimedOut(), P())
  {
    var s, m := Live(a, b, c, Begun(), P()), Rows(a, b, c, Begun(), P(), P());
    FirstLoop(a, b, c, Begun());
    assert ActivatedKeys(m, m) == {};
    SecondLoop(a, b, c, s, false);
    assert Swept(Chain(a, b, c), s, ChainTick(a, b, c)).nodes == Rows(a, b, c, TimedOut(), P(), P());
    Unsettled(a, b, c, TimedOut(), P());
  }

  lemma ChainSkips(a: Key, b: Key, c: Key)
    requires ThreeKeys(a, b, c)
    ensures Step(Chain(a, b, c), Live(a, b, c, TimedOut(), P()), ChainTick(a, b, c)).state ==
            Live(a, b, c, TimedOut(), AfterB(TimedOut()))
  {
    FirstLoop(a, b, c, TimedOut());
    QuietTick(a, b, c, Live(a, b, c, TimedOut(), P()), TimedOut(), AfterB(TimedOut()));
  }

  lemma ChainStuck(a: Key, b: Key, c: Key)
    requires ThreeKeys(a, b, c)
    ensures Deadlocked(Chain(a, b, c), Live(a, b, c, TimedOut(), AfterB(TimedOut())))
  {
    var m := Rows(a, b, c, TimedOut(), AfterB(TimedOut()), P());
    ChainVerdicts(a, b, c, TimedOut(), AfterB(TimedOut()), P());
    Unsettled(a, b, c, TimedOut(), AfterB(TimedOut()));
    forall k | k in m && m[k].status == Pending ensures VerdictOf(Chain(a, b, c), StatusesOf(m), k) == Verdict.Wait {
      assert k == c;
    }
  }

  lemma ThreeActions(def: Definition, act: Action)
    ensures After(def, NewRun(def), [act, act, act]) == Apply(def, Apply(def, Apply(def, NewRun(def), act), act), act)
  {
    var s := NewRun(def);
    assert [act][..0] == [] && After(def, s, []) == s;
    assert After(def, s, [act]) == Apply(def, s, act);
    assert [act, act][..1] == [act];
    assert After(def, s, [act, act]) == Apply(def, After(def, s, [act]), act);
    assert [act, act, act][..2] == [act, act];
  }

  lemma ThreeTicks(a: Key, b: Key, c: Key)
    requires ThreeKeys(a, b, c)
    ensures var def, act := Chain(a, b, c), DoTick(ChainTick(a, b, c));
            After(def, NewRun(def), [act, act, act]) == Live(a, b, c, TimedOut(), AfterB(TimedOut()))
  {
    ChainBegins(a, b, c);
    ChainFails(a, b, c);
    ChainSkips(a, b, c);
    ThreeActions(Chain(a, b, c), DoTick(ChainTick(a, b, c)));
  }

  lemma ChainOrder(a: Key, b: Key, c: Key)
    requires ThreeKeys(a, b, c)
    ensures RowOrder(NewRun(Chain(a, b, c)).nodes, [a, b, c])
  {
    var order := [a, b, c];
    assert order[0] == a && order[1] == b && order[2] == c;
    forall k ensures k in NewRun(Chain(a, b, c)).nodes <==> k in order {
      assert k in order <==> k == a || k == b || k == c;
    }
  }

  /**
   * For any three keys: the chain is accepted and uses routes alone, three ticks of its run
   * reach a deadlock, and the deadlock lasts until the run is cancelled.
   */
  lemma RouteChainDeadlocks(a: Key, b: Key, c: Key, more: seq<Action>)
    requires ThreeKeys(a, b, c) && forall i :: 0 <= i < |more| ==> !more[i].DoCancel?
    ensures V.Acceptable(ChainRaw(a, b, c)) && RoutesOnly(ChainRaw(a, b, c))
    ensures var def, act := Load(ChainRaw(a, b, c)), DoTick(ChainTick(a, b, c));
            var s := After(def, NewRun(def), [act, act, act]);
            && RowOrder(NewRun(def).nodes, act.t.order)
            && Deadlocked(def, s)
            && After(def, s, more).nodes == s.nodes && Deadlocked(def, After(def, s, more))
  {
    var def, act := Chain(a, b, c), DoTick(ChainTick(a, b, c));
    ChainAccepted(a, b, c);
    ChainLoaded(a, b, c);
    ChainOrder(a, b, c);
    ThreeTicks(a, b, c);
    ChainStuck(a, b, c);
    NewRunOk(def);
    RunKeepsInv(def, NewRun(def), [act, act, act]);
    DeadlockIsForever(def, After(def, NewRun(def), [act, act, act]), more);
  }
}
