/** Validation of a workflow definition: the three-colour depth-first search and
    the structural checks around it. */
module WorkflowValidation {
  import opened Wrappers
  import opened Graph
  import opened WorkflowTypes

  const MAX_NODES: nat := 100
  const MAX_EDGES: nat := 500

  datatype Color = White | Gray | Black

  function EdgeSet(edges: seq<(Key, Key)>): Edges {
    set e | e in edges
  }

  ghost predicate EndpointsIn(g: Edges, keys: set<Key>) {
    forall e :: e in g ==> e.0 in keys && e.1 in keys
  }

  ghost function Set(s: seq<Key>): set<Key> {
    set k | k in s
  }

  lemma SetSnoc(s: seq<Key>, i: nat)
    requires i < |s|
    ensures Set(s[..i + 1]) == Set(s[..i]) + {s[i]}
  {
    assert s[..i + 1] == s[..i] + [s[i]];
  }

  /** The successors of each vertex, as the search reads them. */
  method Adjacency(keys: set<Key>, edges: seq<(Key, Key)>) returns (a: map<Key, seq<Key>>)
    requires EndpointsIn(EdgeSet(edges), keys)
    ensures a.Keys == keys
    ensures forall u, v :: u in keys && v in a[u] ==> (u, v) in EdgeSet(edges) && v in keys
    ensures forall e :: e in EdgeSet(edges) ==> e.0 in keys && e.1 in a[e.0]
  {
    a := map k | k in keys :: [];
    for i := 0 to |edges|
      invariant a.Keys == keys
      invariant forall u, v :: u in keys && v in a[u] ==> (u, v) in EdgeSet(edges) && v in keys
      invariant forall j :: 0 <= j < i ==> edges[j].0 in keys && edges[j].1 in a[edges[j].0]
    {
      var (src, dst) := edges[i];
      assert (src, dst) in EdgeSet(edges);
      a := a[src := a[src] + [dst]];
    }
  }

  /** The state of one run of the search. The colour map is the only state the
      algorithm itself reads; the ghost fields record the current path and the
      order in which vertices were finished. */
  class CycleSearch {
    const keys: set<Key>
    const adj: map<Key, seq<Key>>
    ghost const g: Edges
    var color: map<Key, Color>
    ghost var path: seq<Key>
    ghost var pos: map<Key, nat>
    ghost var clock: nat

    ghost predicate Static() {
      && adj.Keys == keys
      && (forall u, v :: u in keys && v in adj[u] ==> (u, v) in g && v in keys)
      && (forall e :: e in g ==> e.0 in keys && e.1 in adj[e.0])
    }

    /** Grey vertices are the current path, black ones are finished and closed
        under successors, each finishing after all of its successors. */
    ghost predicate Valid() reads this {
      && Static()
      && color.Keys == keys
      && Set(path) + pos.Keys <= keys
      && (forall k :: k in keys ==>
           color[k] == if k in pos then Black else if k in path then Gray else White)
      && (forall k :: k in path ==> k !in pos)
      && (path != [] ==> IsWalk(g, path))
      && (forall e :: e in g && e.0 in pos ==> e.1 in pos && pos[e.1] < pos[e.0])
      && (forall k :: k in pos ==> pos[k] < clock)
    }

    ghost function Whites(): set<Key> reads this {
      keys - Set(path) - pos.Keys
    }

    constructor (keys: set<Key>, edges: seq<(Key, Key)>)
      requires EndpointsIn(EdgeSet(edges), keys)
      ensures Valid() && this.keys == keys && g == EdgeSet(edges)
      ensures path == [] && pos == map[] && Whites() == keys
    {
      var a := Adjacency(keys, edges);
      this.keys := keys;
      adj := a;
      g := EdgeSet(edges);
      color := map k | k in keys :: White;
      path := [];
      pos := map[];
      clock := 0;
    }

    /** Visits a white vertex. A raise exhibits a real cycle; a normal return has
        blackened the vertex and left the grey path as it was. */
    method Visit(node: Key) returns (raised: bool)
      requires Valid() && node in keys && color[node] == White
      requires path != [] ==> (path[|path| - 1], node) in g
      modifies this
      ensures raised ==> !Acyclic(g)
      ensures !raised ==> Valid() && path == old(path) && node in pos && old(pos.Keys) <= pos.Keys
      ensures !raised ==> Whites() <= old(Whites())
      decreases Whites(), 0
    {
      Enter(node);
      raised := ExamineAll(node);
      if raised { return; }
      Finish(node, old(path));
    }

    /** The loop over the successors of the vertex that ends the grey path. */
    method ExamineAll(node: Key) returns (raised: bool)
      requires Valid() && node in keys && path != [] && path[|path| - 1] == node
      modifies this
      ensures raised ==> !Acyclic(g)
      ensures !raised ==> Valid() && path == old(path) && Set(adj[node]) <= pos.Keys && old(pos.Keys) <= pos.Keys
      ensures !raised ==> Whites() <= old(Whites())
      decreases Whites(), 2
    {
      var succs := adj[node];
      Successors(node);
      for i := 0 to |succs|
        invariant Valid() && path == old(path)
        invariant Set(succs[..i]) <= pos.Keys && old(pos.Keys) <= pos.Keys
        invariant Whites() <= old(Whites())
      {
        raised := Examine(node, succs[i]);
        if raised { return; }
        SetSnoc(succs, i);
      }
      assert succs[..|succs|] == succs;
      raised := false;
    }

    /** The body of the loop over successors: a grey successor raises, a white one is visited. */
    method Examine(node: Key, nxt: Key) returns (raised: bool)
      requires Valid() && node in keys && nxt in keys && (node, nxt) in g
      requires path != [] && path[|path| - 1] == node
      modifies this
      ensures raised ==> !Acyclic(g)
      ensures !raised ==> Valid() && path == old(path) && nxt in pos && old(pos.Keys) <= pos.Keys
      ensures !raised ==> Whites() <= old(Whites())
      decreases Whites(), 1
    {
      if color[nxt] == Gray {
        CycleThrough(nxt);
        return true;
      }
      if color[nxt] == White {
        raised := Visit(nxt);
        return;
      }
      raised := false;
    }

    lemma Successors(node: Key)
      requires Static() && node in keys
      ensures forall j :: 0 <= j < |adj[node]| ==> adj[node][j] in keys && (node, adj[node][j]) in g
    {
      assert forall j :: 0 <= j < |adj[node]| ==> adj[node][j] in adj[node];
    }

    /** The first statement of a visit: the vertex turns grey and extends the path. */
    method Enter(node: Key)
      requires Valid() && node in keys && color[node] == White
      requires path != [] ==> (path[|path| - 1], node) in g
      modifies this
      ensures Valid() && path == old(path) + [node] && node !in old(path)
      ensures color == old(color)[node := Gray] && pos == old(pos)
      ensures Whites() < old(Whites())
    {
      if path != [] {
        WalkExtend(g, path, node);
      }
      color := color[node := Gray];
      path := path + [node];
      assert Set(path) == Set(old(path)) + {node};
      assert Whites() == old(Whites()) - {node} && node in old(Whites());
    }

    lemma CycleThrough(nxt: Key)
      requires Valid() && path != [] && nxt in path && (path[|path| - 1], nxt) in g
      ensures !Acyclic(g)
    {
      var i :| 0 <= i < |path| && path[i] == nxt;
      WalkSlice(g, path, i, |path|);
      WalkExtend(g, path[i..|path|], nxt);
      assert IsCycle(g, path[i..|path|] + [nxt]);
    }

    /** The last statement of a visit: the vertex turns black. */
    method Finish(node: Key, ghost before: seq<Key>)
      requires Valid() && node in keys && path == before + [node] && node !in before
      requires Set(adj[node]) <= pos.Keys
      modifies this
      ensures Valid() && path == before
      ensures color == old(color)[node := Black] && pos.Keys == old(pos.Keys) + {node}
      ensures Whites() == old(Whites())
    {
      assert node in path && node !in pos;
      color := color[node := Black];
      pos := pos[node := clock];
      clock := clock + 1;
      if before != [] {
        WalkSlice(g, path, 0, |before|);
        assert path[0..|before|] == before;
      }
      path := before;
      assert Set(before) + {node} == Set(old(path));
    }
  }

  /** The search accepts a finite graph exactly when it has no directed cycle. */
  method AssertAcyclic(keys: set<Key>, edges: seq<(Key, Key)>) returns (raised: bool)
    requires EndpointsIn(EdgeSet(edges), keys)
    ensures raised <==> !Acyclic(EdgeSet(edges))
  {
    var search := new CycleSearch(keys, edges);
    var rest := keys;
    while rest != {}
      invariant search.Valid() && search.path == [] && search.keys == keys && search.g == EdgeSet(edges)
      invariant rest <= keys && keys - rest <= search.pos.Keys
      decreases rest
    {
      var k :| k in rest;
      if search.color[k] == White {
        raised := search.Visit(k);
        if raised { return; }
      }
      rest := rest - {k};
    }
    FinishOrderAcyclic(search.g, search.pos);
    raised := false;
  }

  // ------------------------------------------------------------ definitions

  /** A definition as submitted, with the malformed shapes the validator tells apart.
      A falsy reference list counts as empty. */
  datatype RawRefs = Falsy | NotAList | Refs(refs: seq<Key>)

  datatype RawNode =
    | NotANode
    | RawNode(key: Option<Key>, kind: Option<NodeType>,
              dependsOn: RawRefs, onSuccess: RawRefs, onFailure: RawRefs, config: NodeConfig)

  datatype RawDefinition = NotAnObject | NodesNotAList | RawDefinition(nodes: seq<RawNode>, defaults: Timeout)

  datatype Field = DependsOn | OnSuccess | OnFailure

  datatype Invalid =
    | DefinitionNotAnObject | NodesMustBeAList | NodeCapExceeded
    | NodeNotAnObject(i: nat) | KeyRequired(i: nat) | DuplicateKey(key: Key) | BadType(key: Key)
    | RefsNotAList(key: Key, field: Field) | UnknownRef(key: Key, field: Field, ref: Key)
    | EdgeCapExceeded | ContainsCycle

  function RefsOf(n: RawNode, f: Field): RawRefs {
    if n.NotANode? then Falsy else
      match f
      case DependsOn => n.dependsOn
      case OnSuccess => n.onSuccess
      case OnFailure => n.onFailure
  }

  /** The references a field names; a falsy field names none. */
  function Named(n: RawNode, f: Field): seq<Key> {
    var r := RefsOf(n, f);
    if r.Refs? then r.refs else []
  }

  function KeyOf(n: RawNode): Key {
    if n.RawNode? && n.key.Some? then n.key.value else ""
  }

  ghost predicate NodesWellFormed(nodes: seq<RawNode>) {
    && (forall i :: 0 <= i < |nodes| ==> KeyOf(nodes[i]) != "" && nodes[i].kind.Some?)
    && (forall i, j :: 0 <= i < j < |nodes| ==> KeyOf(nodes[i]) != KeyOf(nodes[j]))
  }

  ghost function KeysOf(nodes: seq<RawNode>): set<Key> {
    set n | n in nodes :: KeyOf(n)
  }

  ghost predicate FieldWellFormed(n: RawNode, f: Field, keys: set<Key>) {
    RefsOf(n, f) != NotAList && forall r :: r in Named(n, f) ==> r in keys
  }

  ghost predicate RefsWellFormed(n: RawNode, keys: set<Key>) {
    FieldWellFormed(n, DependsOn, keys) && FieldWellFormed(n, OnSuccess, keys) && FieldWellFormed(n, OnFailure, keys)
  }

  /** The pairs the validator records for one field: always (reference, node). */
  ghost function FieldEdges(n: RawNode, f: Field): Edges {
    set r | r in Named(n, f) :: (r, KeyOf(n))
  }

  ghost function RecordedBy(n: RawNode): Edges {
    FieldEdges(n, DependsOn) + FieldEdges(n, OnSuccess) + FieldEdges(n, OnFailure)
  }

  ghost function Recorded(nodes: seq<RawNode>): Edges {
    if nodes == [] then {} else Recorded(nodes[..|nodes| - 1]) + RecordedBy(nodes[|nodes| - 1])
  }

  ghost function RefCount(nodes: seq<RawNode>): nat {
    if nodes == [] then 0 else
      var n := nodes[|nodes| - 1];
      RefCount(nodes[..|nodes| - 1]) + |Named(n, DependsOn)| + |Named(n, OnSuccess)| + |Named(n, OnFailure)|
  }

  /** What a definition must satisfy to be stored. */
  ghost predicate Acceptable(d: RawDefinition) {
    && d.RawDefinition? && |d.nodes| <= MAX_NODES
    && NodesWellFormed(d.nodes)
    && (forall i :: 0 <= i < |d.nodes| ==> RefsWellFormed(d.nodes[i], KeysOf(d.nodes)))
    && RefCount(d.nodes) <= MAX_EDGES
    && Acyclic(Recorded(d.nodes))
  }

  /** Each error the validator raises names a real defect. */
  ghost predicate Explains(e: Invalid, d: RawDefinition) {
    var nodes := if d.RawDefinition? then d.nodes else [];
    match e
    case DefinitionNotAnObject => d.NotAnObject?
    case NodesMustBeAList => d.NodesNotAList?
    case NodeCapExceeded => |nodes| > MAX_NODES
    case NodeNotAnObject(i) => i < |nodes| && nodes[i].NotANode?
    case KeyRequired(i) => i < |nodes| && nodes[i].RawNode? && KeyOf(nodes[i]) == ""
    case DuplicateKey(k) => exists i, j :: 0 <= i < j < |nodes| && KeyOf(nodes[i]) == KeyOf(nodes[j]) == k
    case BadType(k) => exists n :: n in nodes && n.RawNode? && KeyOf(n) == k && n.kind.None?
    case RefsNotAList(k, f) => exists n :: n in nodes && KeyOf(n) == k && RefsOf(n, f) == NotAList
    case UnknownRef(k, f, r) => r !in KeysOf(nodes) && exists n :: n in nodes && KeyOf(n) == k && r in Named(n, f)
    case EdgeCapExceeded => RefCount(nodes) > MAX_EDGES
    case ContainsCycle => !Acyclic(Recorded(nodes))
  }

  lemma OneMoreNode(nodes: seq<RawNode>, i: nat)
    requires i < |nodes|
    ensures KeysOf(nodes[..i + 1]) == KeysOf(nodes[..i]) + {KeyOf(nodes[i])}
    ensures NodesWellFormed(nodes[..i]) && KeyOf(nodes[i]) != "" && nodes[i].kind.Some? && KeyOf(nodes[i]) !in KeysOf(nodes[..i])
            ==> NodesWellFormed(nodes[..i + 1])
  {
    assert nodes[..i + 1] == nodes[..i] + [nodes[i]];
    forall j | 0 <= j < i ensures KeyOf(nodes[j]) in KeysOf(nodes[..i]) {
      assert nodes[..i][j] == nodes[j];
    }
  }

  lemma KeyTaken(nodes: seq<RawNode>, i: nat, k: Key) returns (j: nat)
    requires i < |nodes| && k in KeysOf(nodes[..i])
    ensures j < i && KeyOf(nodes[j]) == k
  {
    var n :| n in nodes[..i] && KeyOf(n) == k;
    j :| 0 <= j < i && nodes[..i][j] == n;
  }

  /** The first loop: node shapes, key uniqueness and node types. */
  method CollectKeys(d: RawDefinition) returns (r: Result<set<Key>, Invalid>)
    requires d.RawDefinition?
    ensures r.Ok? <==> NodesWellFormed(d.nodes)
    ensures r.Ok? ==> r.value == KeysOf(d.nodes)
    ensures r.Err? ==> Explains(r.error, d)
  {
    var keys: set<Key> := {};
    for i := 0 to |d.nodes|
      invariant NodesWellFormed(d.nodes[..i]) && keys == KeysOf(d.nodes[..i])
    {
      var node := d.nodes[i];
      assert node in d.nodes;
      OneMoreNode(d.nodes, i);
      if node.NotANode? { return Err(NodeNotAnObject(i)); }
      if node.key.None? || node.key.value == "" { return Err(KeyRequired(i)); }
      if node.key.value in keys {
        var j := KeyTaken(d.nodes, i, node.key.value);
        return Err(DuplicateKey(node.key.value));
      }
      keys := keys + {node.key.value};
      if node.kind.None? { return Err(BadType(node.key.value)); }
    }
    assert d.nodes[..|d.nodes|] == d.nodes;
    r := Ok(keys);
  }

  /** The innermost loop: one reference field of one node. */
  method CollectRefs(n: RawNode, f: Field, keys: set<Key>) returns (r: Result<seq<(Key, Key)>, Invalid>)
    ensures r.Ok? <==> FieldWellFormed(n, f, keys)
    ensures r.Ok? ==> |r.value| == |Named(n, f)| && EdgeSet(r.value) == FieldEdges(n, f)
    ensures r.Err? ==> FieldDefect(r.error, n, keys)
  {
    if RefsOf(n, f) == NotAList { return Err(RefsNotAList(KeyOf(n), f)); }
    var refs := Named(n, f);
    var edges: seq<(Key, Key)> := [];
    for i := 0 to |refs|
      invariant |edges| == i
      invariant forall j :: 0 <= j < i ==> refs[j] in keys && edges[j] == (refs[j], KeyOf(n))
    {
      if refs[i] !in keys { return Err(UnknownRef(KeyOf(n), f, refs[i])); }
      edges := edges + [(refs[i], KeyOf(n))];
    }
    forall e | e in FieldEdges(n, f) ensures e in EdgeSet(edges) {
      var j :| 0 <= j < |refs| && refs[j] == e.0;
      assert edges[j] == e;
    }
    r := Ok(edges);
  }

  /** The loop over the three reference fields of one node. */
  method CollectNode(n: RawNode, keys: set<Key>) returns (r: Result<seq<(Key, Key)>, Invalid>)
    ensures r.Ok? <==> RefsWellFormed(n, keys)
    ensures r.Ok? ==> EdgeSet(r.value) == RecordedBy(n)
    ensures r.Ok? ==> |r.value| == |Named(n, DependsOn)| + |Named(n, OnSuccess)| + |Named(n, OnFailure)|
    ensures r.Err? ==> FieldDefect(r.error, n, keys)
  {
    var a := CollectRefs(n, DependsOn, keys);
    if a.Err? { return a; }
    var b := CollectRefs(n, OnSuccess, keys);
    if b.Err? { return b; }
    var c := CollectRefs(n, OnFailure, keys);
    if c.Err? { return c; }
    assert EdgeSet(a.value + b.value + c.value) == EdgeSet(a.value) + EdgeSet(b.value) + EdgeSet(c.value);
    r := Ok(a.value + b.value + c.value);
  }

  ghost predicate FieldDefect(e: Invalid, n: RawNode, keys: set<Key>) {
    || (e.RefsNotAList? && e.key == KeyOf(n) && RefsOf(n, e.field) == NotAList)
    || (e.UnknownRef? && e.key == KeyOf(n) && e.ref in Named(n, e.field) && e.ref !in keys)
  }

  lemma RecordedSnoc(nodes: seq<RawNode>, i: nat)
    requires i < |nodes|
    ensures Recorded(nodes[..i + 1]) == Recorded(nodes[..i]) + RecordedBy(nodes[i])
    ensures var n := nodes[i];
            RefCount(nodes[..i + 1]) ==
              RefCount(nodes[..i]) + |Named(n, DependsOn)| + |Named(n, OnSuccess)| + |Named(n, OnFailure)|
  {
    assert nodes[..i + 1][..i] == nodes[..i];
  }

  /** The reference loop over all nodes; edges are recorded as (reference, node). */
  method CollectEdges(d: RawDefinition, keys: set<Key>) returns (r: Result<seq<(Key, Key)>, Invalid>)
    requires d.RawDefinition? && NodesWellFormed(d.nodes) && keys == KeysOf(d.nodes)
    ensures r.Ok? <==> forall i :: 0 <= i < |d.nodes| ==> RefsWellFormed(d.nodes[i], keys)
    ensures r.Ok? ==> EdgeSet(r.value) == Recorded(d.nodes) && |r.value| == RefCount(d.nodes)
    ensures r.Err? ==> Explains(r.error, d)
  {
    var edges: seq<(Key, Key)> := [];
    for i := 0 to |d.nodes|
      invariant forall j :: 0 <= j < i ==> RefsWellFormed(d.nodes[j], keys)
      invariant EdgeSet(edges) == Recorded(d.nodes[..i]) && |edges| == RefCount(d.nodes[..i])
    {
      var n := d.nodes[i];
      assert n in d.nodes;
      var a := CollectNode(n, keys);
      if a.Err? { return a; }
      RecordedSnoc(d.nodes, i);
      assert EdgeSet(edges + a.value) == EdgeSet(edges) + EdgeSet(a.value);
      edges := edges + a.value;
    }
    assert d.nodes[..|d.nodes|] == d.nodes;
    r := Ok(edges);
  }

  lemma {:induction false} RecordedEndpoints(nodes: seq<RawNode>, keys: set<Key>)
    requires KeysOf(nodes) <= keys
    requires forall i :: 0 <= i < |nodes| ==> RefsWellFormed(nodes[i], keys)
    ensures EndpointsIn(Recorded(nodes), keys)
  {
    if nodes != [] {
      var init, n := nodes[..|nodes| - 1], nodes[|nodes| - 1];
      assert n in nodes && KeyOf(n) in keys;
      RecordedEndpoints(init, keys);
    }
  }

  /** A definition is accepted exactly when it is acceptable, and every refusal is truthful. */
  method ValidateDefinition(d: RawDefinition) returns (r: Result<RawDefinition, Invalid>)
    ensures r.Ok? <==> Acceptable(d)
    ensures r.Ok? ==> r.value == d
    ensures r.Err? ==> Explains(r.error, d)
  {
    if d.NotAnObject? { return Err(DefinitionNotAnObject); }
    if d.NodesNotAList? { return Err(NodesMustBeAList); }
    if |d.nodes| > MAX_NODES { return Err(NodeCapExceeded); }
    var keys := CollectKeys(d);
    if keys.Err? { return Err(keys.error); }
    var edges := CollectEdges(d, keys.value);
    if edges.Err? { return Err(edges.error); }
    if |edges.value| > MAX_EDGES { return Err(EdgeCapExceeded); }
    RecordedEndpoints(d.nodes, keys.value);
    var cyclic := AssertAcyclic(keys.value, edges.value);
    if cyclic { return Err(ContainsCycle); }
    r := Ok(d);
  }
}
