/** Bounded breadth-first search over CMDB relations: impact and topology. */
module CmdbTopology {
  import opened Wrappers

  const DEPTH_DEFAULT: nat := 2
  const DEPTH_MAX: nat := 3

  datatype Kind = Host | HostGroup | OtherKind(name: string)
  datatype Entity = Entity(kind: Kind, id: int)
  datatype Relation = Relation(src: Entity, dst: Entity, relType: string)
  datatype Direction = Up | Down | Both

  /** What a traversal is asked for; an empty list of relation types means all. */
  datatype Query = Query(relations: seq<Relation>, direction: Direction, relTypes: seq<string>)

  /** Visible host ids and group ids; `None` is unrestricted. */
  datatype Scope = Scope(hosts: Option<set<int>>, groups: Option<set<int>>)

  predicate EntityVisible(s: Scope, e: Entity) {
    match e.kind
    case Host => s.hosts.None? || e.id in s.hosts.value
    case HostGroup => s.groups.None? || e.id in s.groups.value
    case OtherKind(_) => s.hosts.None? && s.groups.None?
  }

  // ------------------------------------------------------------ the graph

  /** The relation is among those fetched for `node`. */
  predicate Fetched(q: Query, r: Relation, node: Entity) {
    && (q.relTypes == [] || r.relType in q.relTypes)
    && match q.direction
       case Down => r.src == node
       case Up => r.dst == node
       case Both => r.src == node || r.dst == node
  }

  function Other(r: Relation, node: Entity): Entity {
    if r.src == node then r.dst else r.src
  }

  /** `_edges_for`. */
  function EdgesFor(rs: seq<Relation>, q: Query, node: Entity): (es: seq<Relation>)
    ensures forall r :: r in es <==> r in rs && Fetched(q, r, node)
  {
    if rs == [] then []
    else if Fetched(q, rs[0], node) then [rs[0]] + EdgesFor(rs[1..], q, node)
    else EdgesFor(rs[1..], q, node)
  }

  ghost predicate Adjacent(q: Query, a: Entity, b: Entity) {
    exists r :: r in q.relations && Fetched(q, r, a) && Other(r, a) == b
  }

  ghost function Neighbours(q: Query, a: Entity): set<Entity> {
    set r | r in q.relations && Fetched(q, r, a) :: Other(r, a)
  }

  /** Where one relation leads from the entities of `s`. */
  ghost function EndsFrom(q: Query, r: Relation, s: set<Entity>): set<Entity> {
    (if r.src in s && Fetched(q, r, r.src) then {Other(r, r.src)} else {}) +
    (if r.dst in s && Fetched(q, r, r.dst) then {Other(r, r.dst)} else {})
  }

  ghost function Reach(q: Query, rs: seq<Relation>, s: set<Entity>): set<Entity>
    decreases |rs|
  {
    if rs == [] then {} else Reach(q, rs[..|rs| - 1], s) + EndsFrom(q, rs[|rs| - 1], s)
  }

  ghost function AllNeighbours(q: Query, s: set<Entity>): set<Entity> {
    Reach(q, q.relations, s)
  }

  lemma {:induction false} ReachSpec(q: Query, rs: seq<Relation>, s: set<Entity>, b: Entity)
    ensures b in Reach(q, rs, s) <==> exists a, r :: a in s && r in rs && Fetched(q, r, a) && Other(r, a) == b
    decreases |rs|
  {
    if rs != [] {
      var init, last := rs[..|rs| - 1], rs[|rs| - 1];
      ReachSpec(q, init, s, b);
      assert forall r :: r in rs <==> r in init || r == last;
    }
  }

  /** The neighbours of a set are the neighbours of its members. */
  lemma AllNeighboursSpec(q: Query, s: set<Entity>)
    ensures forall b :: b in AllNeighbours(q, s) <==> exists a :: a in s && b in Neighbours(q, a)
  {
    forall b ensures b in AllNeighbours(q, s) <==> exists a :: a in s && b in Neighbours(q, a) {
      ReachSpec(q, q.relations, s, b);
    }
  }

  /** The entities within `k` steps of the root. */
  ghost function Ball(q: Query, root: Entity, k: nat): set<Entity>
    decreases k
  {
    if k == 0 then {root} else Ball(q, root, k - 1) + AllNeighbours(q, Ball(q, root, k - 1))
  }

  /** A walk along fetched relations. */
  ghost predicate Walk(q: Query, p: seq<Entity>) {
    |p| >= 1 && forall i {:trigger Hop(q, p, i)} :: 1 <= i < |p| ==> Hop(q, p, i)
  }

  ghost predicate Hop(q: Query, p: seq<Entity>, i: nat)
    requires 1 <= i < |p|
  {
    Adjacent(q, p[i - 1], p[i])
  }

  lemma NeighboursAreAdjacent(q: Query, a: Entity, b: Entity)
    ensures b in Neighbours(q, a) <==> Adjacent(q, a, b)
  {
  }

  /** Balls mean distance: an entity is within `k` steps exactly when some walk of at
      most `k` hops leads to it. */
  lemma {:induction false} BallSound(q: Query, root: Entity, k: nat, x: Entity) returns (p: seq<Entity>)
    requires x in Ball(q, root, k)
    ensures Walk(q, p) && p[0] == root && p[|p| - 1] == x && |p| <= k + 1
    decreases k
  {
    if k == 0 {
      p := [root];
    } else if x in Ball(q, root, k - 1) {
      p := BallSound(q, root, k - 1, x);
    } else {
      AllNeighboursSpec(q, Ball(q, root, k - 1));
      var a :| a in Ball(q, root, k - 1) && x in Neighbours(q, a);
      var w := BallSound(q, root, k - 1, a);
      p := w + [x];
      NeighboursAreAdjacent(q, a, x);
      forall i | 1 <= i < |p| ensures Hop(q, p, i) {
        if i < |w| {
          assert Hop(q, w, i);
        }
      }
    }
  }

  lemma {:induction false} BallComplete(q: Query, root: Entity, k: nat, p: seq<Entity>)
    requires Walk(q, p) && p[0] == root && |p| <= k + 1
    ensures p[|p| - 1] in Ball(q, root, k)
    decreases k
  {
    if |p| == 1 {
      RootInBall(q, root, k);
    } else {
      var w := p[..|p| - 1];
      forall i | 1 <= i < |w| ensures Hop(q, w, i) {
        assert Hop(q, p, i);
      }
      BallComplete(q, root, k - 1, w);
      assert Hop(q, p, |p| - 1);
      AllNeighboursSpec(q, Ball(q, root, k - 1));
      NeighboursAreAdjacent(q, w[|w| - 1], p[|p| - 1]);
    }
  }

  lemma {:induction false} RootInBall(q: Query, root: Entity, k: nat)
    ensures root in Ball(q, root, k)
    decreases k
  {
    if k > 0 { RootInBall(q, root, k - 1); }
  }

  // ------------------------------------------------------------ what the directions mean

  /** A relation of an asked type from `a` to `b`. */
  predicate Arrow(q: Query, r: Relation, a: Entity, b: Entity) {
    r.src == a && r.dst == b && (|q.relTypes| > 0 ==> r.relType in q.relTypes)
  }

  /** One step of a path: down follows a relation to its target, up goes back to its source. */
  ghost predicate Leads(q: Query, a: Entity, b: Entity) {
    exists r :: r in q.relations &&
      ((!q.direction.Up? && Arrow(q, r, a, b)) || (!q.direction.Down? && Arrow(q, r, b, a)))
  }

  lemma AdjacentMeansLeads(q: Query, a: Entity, b: Entity)
    ensures Adjacent(q, a, b) <==> Leads(q, a, b)
  {
    if Leads(q, a, b) {
      var r :| r in q.relations &&
        ((!q.direction.Up? && Arrow(q, r, a, b)) || (!q.direction.Down? && Arrow(q, r, b, a)));
      assert Fetched(q, r, a) && Other(r, a) == b;
    }
  }

  /** A path from `x` to `y` of at most `k` steps. */
  ghost predicate Path(q: Query, p: seq<Entity>, x: Entity, y: Entity, k: nat) {
    && 1 <= |p| <= k + 1 && p[0] == x && p[|p| - 1] == y
    && forall i {:trigger Stride(q, p, i)} :: 1 <= i < |p| ==> Stride(q, p, i)
  }

  ghost predicate Stride(q: Query, p: seq<Entity>, i: nat)
    requires 1 <= i < |p|
  {
    Leads(q, p[i - 1], p[i])
  }

  /** The search finds exactly what such paths reach: downward along relations from source to
      target, upward against them, and in both directions either way. */
  lemma BallMeansPaths(q: Query, root: Entity, k: nat, x: Entity)
    ensures x in Ball(q, root, k) <==> exists p :: Path(q, p, root, x, k)
  {
    if x in Ball(q, root, k) {
      var p := BallSound(q, root, k, x);
      forall i | 1 <= i < |p| ensures Stride(q, p, i) {
        assert Hop(q, p, i);
        AdjacentMeansLeads(q, p[i - 1], p[i]);
      }
      assert Path(q, p, root, x, k);
    }
    if p :| Path(q, p, root, x, k) {
      forall i | 1 <= i < |p| ensures Hop(q, p, i) {
        assert Stride(q, p, i);
        AdjacentMeansLeads(q, p[i - 1], p[i]);
      }
      BallComplete(q, root, k, p);
    }
  }

  function Opposite(q: Query): Query {
    q.(direction := match q.direction case Up => Down case Down => Up case Both => Both)
  }

  function Reversed(p: seq<Entity>): seq<Entity> {
    seq(|p|, i requires 0 <= i < |p| => p[|p| - 1 - i])
  }

  lemma PathReversed(q: Query, p: seq<Entity>, x: Entity, y: Entity, k: nat)
    requires Path(q, p, x, y, k)
    ensures Path(Opposite(q), Reversed(p), y, x, k)
  {
    var w := Reversed(p);
    forall i | 1 <= i < |w| ensures Stride(Opposite(q), w, i) {
      assert Stride(q, p, |p| - i);
      LeadsBack(q, p[|p| - 1 - i], p[|p| - i]);
    }
  }

  lemma LeadsBack(q: Query, a: Entity, b: Entity)
    requires Leads(q, a, b)
    ensures Leads(Opposite(q), b, a)
  {
  }

  lemma Mirrored(q: Query, x: Entity, y: Entity, k: nat)
    requires y in Ball(q, x, k)
    ensures x in Ball(Opposite(q), y, k)
  {
    BallMeansPaths(q, x, k, y);
    var p :| Path(q, p, x, y, k);
    PathReversed(q, p, x, y, k);
    BallMeansPaths(Opposite(q), y, k, x);
  }

  /** An entity lies within `k` steps downstream of another exactly when that one lies within `k`
      steps upstream of it. */
  lemma UpstreamMirrorsDownstream(q: Query, x: Entity, y: Entity, k: nat)
    ensures y in Ball(q, x, k) <==> x in Ball(Opposite(q), y, k)
  {
    assert Opposite(Opposite(q)) == q;
    if y in Ball(q, x, k) { Mirrored(q, x, y, k); }
    if x in Ball(Opposite(q), y, k) { Mirrored(Opposite(q), y, x, k); }
  }

  /** An empty shell stays empty. */
  lemma {:induction false} BallStable(q: Query, root: Entity, k: nat, m: nat)
    requires k <= m && Ball(q, root, k + 1) == Ball(q, root, k)
    ensures Ball(q, root, m) == Ball(q, root, k)
    decreases m
  {
    if k < m {
      BallStable(q, root, k, m - 1);
      var inner := Ball(q, root, m - 1);
      assert Ball(q, root, m) == inner + AllNeighbours(q, inner) == Ball(q, root, k + 1);
    }
  }

  lemma {:induction false} BallMonotone(q: Query, root: Entity, k: nat, m: nat)
    requires k <= m
    ensures Ball(q, root, k) <= Ball(q, root, m)
    decreases m
  {
    if k < m { BallMonotone(q, root, k, m - 1); }
  }

  /** Entities at distance exactly `k`. */
  ghost function Shell(q: Query, root: Entity, k: nat): set<Entity> {
    if k == 0 then {root} else Ball(q, root, k) - Ball(q, root, k - 1)
  }

  /** The next ball needs only the neighbours of the outermost shell. */
  lemma NextBall(q: Query, root: Entity, k: nat)
    ensures Ball(q, root, k + 1) == Ball(q, root, k) + AllNeighbours(q, Shell(q, root, k))
  {
    AllNeighboursSpec(q, Ball(q, root, k));
    AllNeighboursSpec(q, Shell(q, root, k));
    if k > 0 { AllNeighboursSpec(q, Ball(q, root, k - 1)); }
    forall b | b in AllNeighbours(q, Ball(q, root, k)) && b !in AllNeighbours(q, Shell(q, root, k))
      ensures b in Ball(q, root, k)
    {
      var a :| a in Ball(q, root, k) && b in Neighbours(q, a);
      assert k > 0 && a in Ball(q, root, k - 1);
      assert b in AllNeighbours(q, Ball(q, root, k - 1));
    }
  }

  lemma EmptyShell(q: Query, root: Entity, k: nat)
    requires k > 0
    ensures Shell(q, root, k) == {} <==> Ball(q, root, k) == Ball(q, root, k - 1)
  {
    BallMonotone(q, root, k - 1, k);
    if Shell(q, root, k) == {} {
      forall x | x in Ball(q, root, k) ensures x in Ball(q, root, k - 1) {
        assert x !in Shell(q, root, k);
      }
    }
  }

  // ------------------------------------------------------------ sequences of entities

  ghost function Elems(s: seq<Entity>): set<Entity> {
    set e | e in s
  }

  ghost predicate Distinct(s: seq<Entity>) {
    forall i, j :: 0 <= i < j < |s| ==> s[i] != s[j]
  }

  lemma DistinctConcat(a: seq<Entity>, b: seq<Entity>)
    requires Distinct(a) && Distinct(b) && Elems(a) !! Elems(b)
    ensures Distinct(a + b)
  {
    forall i, j | 0 <= i < j < |a + b| ensures (a + b)[i] != (a + b)[j] {
      if i < |a| <= j {
        assert a[i] in Elems(a) && b[j - |a|] in Elems(b);
      }
    }
  }

  /** Nearest first: whoever comes later is in no smaller ball. */
  ghost predicate NearestFirst(q: Query, root: Entity, s: seq<Entity>) {
    forall i, j, k: nat :: 0 <= i < j < |s| && s[j] in Ball(q, root, k) ==> s[i] in Ball(q, root, k)
  }

  lemma NearestConcat(q: Query, root: Entity, a: seq<Entity>, b: seq<Entity>, k: nat)
    requires NearestFirst(q, root, a)
    requires Elems(a) <= Ball(q, root, k) && Elems(b) == Ball(q, root, k + 1) - Ball(q, root, k)
    ensures NearestFirst(q, root, a + b)
  {
    var s := a + b;
    forall i, j, m: nat | 0 <= i < j < |s| && s[j] in Ball(q, root, m) ensures s[i] in Ball(q, root, m) {
      if j < |a| {
        assert s[i] == a[i] && s[j] == a[j];
      } else {
        assert s[j] in Elems(b);
        if m <= k {
          BallMonotone(q, root, m, k);
        } else {
          BallMonotone(q, root, k + 1, m);
          assert s[i] in Elems(a) || s[i] in Elems(b);
        }
      }
    }
  }

  // ------------------------------------------------------------ the traversal

  /** What one level of the search appends: the entities seen for the first time. */
  ghost predicate Discovers(news: seq<Entity>, found: set<Entity>, visited: set<Entity>) {
    Distinct(news) && Elems(news) == found - visited
  }

  /** The two inner loops: all relations of one node. */
  method ExpandNode(q: Query, node: Entity, visited: set<Entity>, nxt: seq<Entity>)
    returns (visited': set<Entity>, nxt': seq<Entity>)
    requires Distinct(nxt) && Elems(nxt) <= visited
    ensures visited' == visited + Neighbours(q, node)
    ensures nxt <= nxt' && Discovers(nxt'[|nxt|..], Neighbours(q, node), visited)
    ensures Distinct(nxt') && Elems(nxt') == Elems(nxt) + (Neighbours(q, node) - visited)
  {
    var es := EdgesFor(q.relations, q, node);
    visited', nxt' := visited, nxt;
    ghost var found: set<Entity> := {};
    for i := 0 to |es|
      invariant found == set r | r in es[..i] :: Other(r, node)
      invariant visited' == visited + found
      invariant nxt <= nxt' && Distinct(nxt') && Elems(nxt') == Elems(nxt) + (found - visited)
      invariant Elems(nxt'[|nxt|..]) == found - visited
    {
      var other := Other(es[i], node);
      assert es[..i + 1] == es[..i] + [es[i]];
      found := found + {other};
      if other !in visited' {
        visited' := visited' + {other};
        assert (nxt' + [other])[|nxt|..] == nxt'[|nxt|..] + [other];
        AddOne(nxt', other);
        AddOne(nxt'[|nxt|..], other);
        nxt' := nxt' + [other];
      }
    }
    assert es[..|es|] == es;
    assert found == Neighbours(q, node);
    assert Distinct(nxt'[|nxt|..]);
  }

  lemma AddOne(s: seq<Entity>, e: Entity)
    ensures Elems(s + [e]) == Elems(s) + {e}
    ensures Distinct(s) && e !in Elems(s) ==> Distinct(s + [e])
  {
  }

  /** One level: all nodes of the frontier. */
  method ExpandLevel(q: Query, frontier: seq<Entity>, visited: set<Entity>)
    returns (visited': set<Entity>, nxt: seq<Entity>)
    ensures visited' == visited + AllNeighbours(q, Elems(frontier))
    ensures Discovers(nxt, AllNeighbours(q, Elems(frontier)), visited)
  {
    visited', nxt := visited, [];
    NoFrontier(q);
    assert Elems(frontier[..0]) == {};
    for i := 0 to |frontier|
      invariant visited' == visited + AllNeighbours(q, Elems(frontier[..i]))
      invariant Distinct(nxt) && Elems(nxt) == AllNeighbours(q, Elems(frontier[..i])) - visited
    {
      LevelGrows(q, frontier, i);
      visited', nxt := ExpandNode(q, frontier[i], visited', nxt);
    }
    assert frontier[..|frontier|] == frontier;
  }

  lemma LevelGrows(q: Query, frontier: seq<Entity>, i: nat)
    requires i < |frontier|
    ensures AllNeighbours(q, Elems(frontier[..i + 1])) ==
            AllNeighbours(q, Elems(frontier[..i])) + Neighbours(q, frontier[i])
  {
    assert frontier[..i + 1] == frontier[..i] + [frontier[i]];
    AddOne(frontier[..i], frontier[i]);
    AllNeighboursSpec(q, Elems(frontier[..i + 1]));
    AllNeighboursSpec(q, Elems(frontier[..i]));
  }

  lemma NoFrontier(q: Query)
    ensures AllNeighbours(q, {}) == {}
  {
    AllNeighboursSpec(q, {});
  }

  lemma NeighboursOfOne(q: Query, node: Entity)
    ensures AllNeighbours(q, {node}) == Neighbours(q, node)
  {
    AllNeighboursSpec(q, {node});
  }

  lemma NeighboursOfMore(q: Query, s: set<Entity>, node: Entity)
    ensures AllNeighbours(q, s + {node}) == AllNeighbours(q, s) + AllNeighbours(q, {node})
  {
    AllNeighboursSpec(q, s + {node});
    AllNeighboursSpec(q, s);
    AllNeighboursSpec(q, {node});
  }

  /** The state of the search after `level` levels. */
  ghost predicate Level(q: Query, root: Entity, level: nat, visited: set<Entity>, order: seq<Entity>, frontier: seq<Entity>) {
    && visited == Ball(q, root, level)
    && Distinct(order) && Elems(order) == Ball(q, root, level) - {root}
    && NearestFirst(q, root, order)
    && Elems(frontier) == Shell(q, root, level)
  }

  lemma LevelUp(q: Query, root: Entity, level: nat, visited: set<Entity>, order: seq<Entity>, frontier: seq<Entity>,
                visited': set<Entity>, nxt: seq<Entity>)
    requires Level(q, root, level, visited, order, frontier)
    requires visited' == visited + AllNeighbours(q, Elems(frontier))
    requires Discovers(nxt, AllNeighbours(q, Elems(frontier)), visited)
    ensures Level(q, root, level + 1, visited', order + nxt, nxt)
  {
    NextBall(q, root, level);
    RootInBall(q, root, level);
    DistinctConcat(order, nxt);
    NearestConcat(q, root, order, nxt, level);
    assert Elems(order + nxt) == Elems(order) + Elems(nxt);
  }

  /** The breadth-first search shared by impact and topology: every entity within
      `depth` steps but the root, each once, nearest first. */
  method Search(q: Query, root: Entity, depth: nat) returns (order: seq<Entity>, truncated: bool)
    ensures Distinct(order) && Elems(order) == Ball(q, root, depth) - {root}
    ensures NearestFirst(q, root, order)
    ensures truncated <==> Truncates(q, root, depth)
  {
    var visited, frontier := {root}, [root];
    order, truncated := [], false;
    assert Elems(frontier) == {root} && Elems(order) == {};
    var level := 0;
    while level < depth
      invariant level <= depth && Level(q, root, level, visited, order, frontier)
      invariant truncated <==> level == depth >= 1 && frontier != []
    {
      var nxt;
      ghost var visited0 := visited;
      visited, nxt := ExpandLevel(q, frontier, visited);
      LevelUp(q, root, level, visited0, order, frontier, visited, nxt);
      order := order + nxt;
      if level == depth - 1 && nxt != [] {
        truncated := true;
      }
      frontier := nxt;
      level := level + 1;
      if frontier == [] { break; }
    }
    SearchDone(q, root, level, depth, visited, order, frontier);
  }

  /** The loop ends at full depth, or early on an empty shell that stays empty. */
  lemma SearchDone(q: Query, root: Entity, level: nat, depth: nat,
                   visited: set<Entity>, order: seq<Entity>, frontier: seq<Entity>)
    requires level <= depth && Level(q, root, level, visited, order, frontier)
    requires level < depth ==> level > 0 && frontier == []
    ensures Elems(order) == Ball(q, root, depth) - {root}
    ensures Truncates(q, root, depth) <==> level == depth >= 1 && frontier != []
  {
    if level < depth {
      EmptyShell(q, root, level);
      BallStable(q, root, level - 1, depth);
      BallStable(q, root, level - 1, depth - 1);
    } else if depth >= 1 {
      EmptyShell(q, root, depth);
      assert frontier != [] ==> frontier[0] in Elems(frontier);
    }
  }

  // ------------------------------------------------------------ impact

  /** The list comprehension over visible entities. */
  function VisibleOf(scope: Scope, s: seq<Entity>): seq<Entity> {
    if s == [] then []
    else VisibleOf(scope, s[..|s| - 1]) + if EntityVisible(scope, s[|s| - 1]) then [s[|s| - 1]] else []
  }

  lemma {:induction false} VisibleKeeps(q: Query, root: Entity, scope: Scope, s: seq<Entity>)
    requires Distinct(s) && NearestFirst(q, root, s)
    ensures var v := VisibleOf(scope, s);
            && (forall e :: e in v <==> e in s && EntityVisible(scope, e))
            && Distinct(v) && NearestFirst(q, root, v)
  {
    if s != [] {
      var init, last := s[..|s| - 1], s[|s| - 1];
      VisibleKeeps(q, root, scope, init);
      assert forall e :: e in s <==> e in init || e == last;
      var w, v := VisibleOf(scope, init), VisibleOf(scope, s);
      forall i, j, k: nat | 0 <= i < j < |v| && v[j] in Ball(q, root, k) ensures v[i] in Ball(q, root, k) && v[i] != v[j] {
        if j < |w| {
          assert v[i] == w[i] && v[j] == w[j];
        } else {
          assert v[i] == w[i] && w[i] in init && v[j] == last;
          var m :| 0 <= m < |init| && init[m] == v[i];
          assert s[m] == v[i];
        }
      }
    }
  }

  /** Depth is optional and must lie in 0..3. */
  function ClampDepth(depth: Option<int>): Option<nat> {
    if depth.None? then Some(DEPTH_DEFAULT)
    else if depth.value < 0 || depth.value > DEPTH_MAX then None
    else Some(depth.value)
  }

  /** Impact returns exactly the visible entities at distance 1 to `depth`, each once and
      nearest first; it is truncated exactly when some entity lies at distance `depth`. */
  method Impact(q: Query, root: Entity, depth: Option<int>, scope: Scope)
    returns (r: Result<(seq<Entity>, bool), ()>)
    ensures r.Err? <==> ClampDepth(depth).None?
    ensures r.Ok? ==>
      var d, (affected, truncated) := ClampDepth(depth).value, r.value;
      && (forall e :: e in affected <==> e in Ball(q, root, d) && e != root && EntityVisible(scope, e))
      && Distinct(affected) && NearestFirst(q, root, affected)
      && (truncated <==> Truncates(q, root, d))
  {
    var d := ClampDepth(depth);
    if d.None? { return Err(()); }
    var order, truncated := Search(q, root, d.value);
    VisibleKeeps(q, root, scope, order);
    assert forall e :: e in order <==> e in Elems(order);
    r := Ok((VisibleOf(scope, order), truncated));
  }

  // ------------------------------------------------------------ topology

  datatype Role = RootRole | DownRole | UpRole

  /** The role says how the entity was first met: as the target or the source of a
      relation fetched for an entity one step nearer. */
  ghost predicate Explained(q: Query, from: Entity, x: Entity, role: Role) {
    exists r :: r in q.relations && Fetched(q, r, from) && Other(r, from) == x
                && role == (if r.src == from then DownRole else UpRole)
  }

  ghost function FetchedFor(q: Query, s: set<Entity>): set<Relation> {
    set r, a | r in q.relations && a in s && Fetched(q, r, a) :: r
  }

  /** Old roles are kept; a new one is explained by a member of `from`. */
  ghost predicate RolesGrow(q: Query, from: set<Entity>, m: map<Entity, Role>, m': map<Entity, Role>) {
    && m'.Keys == m.Keys + AllNeighbours(q, from)
    && (forall x :: x in m ==> m'[x] == m[x])
    && (forall x :: x in m' && x !in m ==> exists a :: a in from && Explained(q, a, x, m'[x]))
  }

  ghost function RelationsOf(seen: seq<Relation>): set<Relation> {
    set r | r in seen
  }

  ghost function EndsOf(seen: seq<Relation>, node: Entity): set<Entity> {
    set r | r in seen :: Other(r, node)
  }

  lemma OneMore(seen: seq<Relation>, r: Relation, node: Entity)
    ensures RelationsOf(seen + [r]) == RelationsOf(seen) + {r}
    ensures EndsOf(seen + [r], node) == EndsOf(seen, node) + {Other(r, node)}
  {
  }

  /** What the inner loop of topology has done after the relations `seen` of one node. */
  ghost predicate NodeLoop(q: Query, node: Entity, seen: seq<Relation>,
                           roles: map<Entity, Role>, edges: set<Relation>, nxt: seq<Entity>,
                           roles': map<Entity, Role>, edges': set<Relation>, nxt': seq<Entity>) {
    && edges' == edges + RelationsOf(seen)
    && roles'.Keys == roles.Keys + EndsOf(seen, node) && (forall x :: x in roles ==> roles'[x] == roles[x])
    && (forall x :: x in roles' && x !in roles ==> Explained(q, node, x, roles'[x]))
    && Distinct(nxt') && Elems(nxt') == Elems(nxt) + (EndsOf(seen, node) - roles.Keys)
  }

  /** One relation: record it, and record the entity at its other end if it is new. */
  method MeetEdge(q: Query, node: Entity, ghost seen: seq<Relation>, r: Relation,
                  ghost roles0: map<Entity, Role>, ghost edges0: set<Relation>, ghost nxt0: seq<Entity>,
                  roles: map<Entity, Role>, edges: set<Relation>, nxt: seq<Entity>)
    returns (roles': map<Entity, Role>, edges': set<Relation>, nxt': seq<Entity>)
    requires NodeLoop(q, node, seen, roles0, edges0, nxt0, roles, edges, nxt)
    requires r in q.relations && Fetched(q, r, node) && Elems(nxt0) <= roles0.Keys
    ensures NodeLoop(q, node, seen + [r], roles0, edges0, nxt0, roles', edges', nxt')
  {
    roles', edges', nxt' := roles, edges + {r}, nxt;
    var other := Other(r, node);
    OneMore(seen, r, node);
    if other !in roles {
      roles' := roles[other := if r.src == node then DownRole else UpRole];
      assert Explained(q, node, other, roles'[other]);
      AddOne(nxt, other);
      nxt' := nxt + [other];
    }
  }

  /** The inner loops of topology: relations, roles and newly met entities of one node. */
  method TopoNode(q: Query, node: Entity, roles: map<Entity, Role>, edges: set<Relation>, nxt: seq<Entity>)
    returns (roles': map<Entity, Role>, edges': set<Relation>, nxt': seq<Entity>)
    requires Distinct(nxt) && Elems(nxt) <= roles.Keys
    ensures RolesGrow(q, {node}, roles, roles')
    ensures edges' == edges + FetchedFor(q, {node})
    ensures Distinct(nxt') && Elems(nxt') == Elems(nxt) + (Neighbours(q, node) - roles.Keys)
  {
    var es := EdgesFor(q.relations, q, node);
    roles', edges', nxt' := roles, edges, nxt;
    for i := 0 to |es|
      invariant NodeLoop(q, node, es[..i], roles, edges, nxt, roles', edges', nxt')
    {
      assert es[i] in es && es[..i + 1] == es[..i] + [es[i]];
      roles', edges', nxt' := MeetEdge(q, node, es[..i], es[i], roles, edges, nxt, roles', edges', nxt');
    }
    assert es[..|es|] == es;
    assert EndsOf(es, node) == Neighbours(q, node);
    NeighboursOfOne(q, node);
    assert RelationsOf(es) == FetchedFor(q, {node});
  }

  lemma RolesChain(q: Query, s: set<Entity>, node: Entity, m0: map<Entity, Role>, m1: map<Entity, Role>, m2: map<Entity, Role>)
    requires RolesGrow(q, s, m0, m1) && RolesGrow(q, {node}, m1, m2)
    ensures RolesGrow(q, s + {node}, m0, m2)
  {
    NeighboursOfMore(q, s, node);
    forall x | x in m2 && x !in m0 ensures exists a :: a in s + {node} && Explained(q, a, x, m2[x]) {
      if x in m1 {
        var a :| a in s && Explained(q, a, x, m1[x]);
        assert a in s + {node};
      } else {
        assert Explained(q, node, x, m2[x]);
      }
    }
  }

  lemma FetchedGrows(q: Query, frontier: seq<Entity>, i: nat)
    requires i < |frontier|
    ensures Elems(frontier[..i + 1]) == Elems(frontier[..i]) + {frontier[i]}
    ensures FetchedFor(q, Elems(frontier[..i + 1])) == FetchedFor(q, Elems(frontier[..i])) + FetchedFor(q, {frontier[i]})
  {
    assert frontier[..i + 1] == frontier[..i] + [frontier[i]];
    AddOne(frontier[..i], frontier[i]);
  }

  method TopoLevel(q: Query, frontier: seq<Entity>, roles: map<Entity, Role>, edges: set<Relation>)
    returns (roles': map<Entity, Role>, edges': set<Relation>, nxt: seq<Entity>)
    ensures RolesGrow(q, Elems(frontier), roles, roles')
    ensures edges' == edges + FetchedFor(q, Elems(frontier))
    ensures Discovers(nxt, AllNeighbours(q, Elems(frontier)), roles.Keys)
  {
    roles', edges', nxt := roles, edges, [];
    NoFrontier(q);
    assert Elems(frontier[..0]) == {};
    for i := 0 to |frontier|
      invariant RolesGrow(q, Elems(frontier[..i]), roles, roles')
      invariant edges' == edges + FetchedFor(q, Elems(frontier[..i]))
      invariant Distinct(nxt) && Elems(nxt) == AllNeighbours(q, Elems(frontier[..i])) - roles.Keys
    {
      LevelGrows(q, frontier, i);
      ghost var roles1 := roles';
      roles', edges', nxt := TopoNode(q, frontier[i], roles', edges', nxt);
      RolesChain(q, Elems(frontier[..i]), frontier[i], roles, roles1, roles');
      FetchedGrows(q, frontier, i);
    }
    assert frontier[..|frontier|] == frontier;
  }

  /** The relations a search of this many levels has fetched. */
  ghost function FetchedWithin(q: Query, root: Entity, levels: nat): set<Relation> {
    if levels == 0 then {} else FetchedFor(q, Ball(q, root, levels - 1))
  }

  /** Every role but the root's is explained by a strictly nearer entity. */
  ghost predicate RolesOk(q: Query, root: Entity, roles: map<Entity, Role>) {
    && root in roles && roles[root] == RootRole
    && forall x :: x in roles && x != root ==> RoleExplained(q, root, x, roles[x])
  }

  ghost predicate RoleExplained(q: Query, root: Entity, x: Entity, role: Role) {
    exists a, k: nat :: a in Ball(q, root, k) && x !in Ball(q, root, k) && Explained(q, a, x, role)
  }

  /** Some entity lies at distance exactly `d`. */
  ghost predicate Truncates(q: Query, root: Entity, d: nat) {
    d >= 1 && Ball(q, root, d) != Ball(q, root, d - 1)
  }

  lemma RolesUp(q: Query, root: Entity, level: nat, roles: map<Entity, Role>, roles': map<Entity, Role>)
    requires roles.Keys == Ball(q, root, level) && RolesOk(q, root, roles)
    requires RolesGrow(q, Shell(q, root, level), roles, roles')
    ensures RolesOk(q, root, roles')
  {
    BallShell(q, root, level);
    forall x | x in roles' && x != root ensures RoleExplained(q, root, x, roles'[x]) {
      if x !in roles {
        var a :| a in Shell(q, root, level) && Explained(q, a, x, roles'[x]);
        assert a in Ball(q, root, level) && x !in Ball(q, root, level);
      }
    }
  }

  lemma BallShell(q: Query, root: Entity, level: nat)
    ensures Shell(q, root, level) <= Ball(q, root, level)
  {
  }

  lemma FetchedUp(q: Query, root: Entity, level: nat)
    ensures FetchedWithin(q, root, level + 1) == FetchedWithin(q, root, level) + FetchedFor(q, Shell(q, root, level))
  {
    if level > 0 {
      BallMonotone(q, root, level - 1, level);
      assert Ball(q, root, level) == Ball(q, root, level - 1) + Shell(q, root, level);
    }
  }

  lemma FetchedStable(q: Query, root: Entity, level: nat, depth: nat)
    requires 0 < level <= depth && Ball(q, root, level) == Ball(q, root, level - 1)
    ensures FetchedWithin(q, root, depth) == FetchedWithin(q, root, level)
  {
    BallStable(q, root, level - 1, depth - 1);
  }

  /** The search of `topology`: roles for the same entities plus the root, and exactly
      the relations fetched for entities nearer than `depth`. */
  method TopoSearch(q: Query, root: Entity, depth: nat)
    returns (order: seq<Entity>, roles: map<Entity, Role>, edges: set<Relation>, truncated: bool)
    ensures Distinct(order) && Elems(order) == Ball(q, root, depth) - {root} && NearestFirst(q, root, order)
    ensures roles.Keys == Ball(q, root, depth) && RolesOk(q, root, roles)
    ensures edges == FetchedWithin(q, root, depth)
    ensures truncated <==> Truncates(q, root, depth)
  {
    roles, edges := map[root := RootRole], {};
    var frontier := [root];
    order, truncated := [], false;
    assert Elems(frontier) == {root} && Elems(order) == {} && roles.Keys == {root};
    var level := 0;
    while level < depth
      invariant level <= depth && Level(q, root, level, roles.Keys, order, frontier)
      invariant RolesOk(q, root, roles) && edges == FetchedWithin(q, root, level)
      invariant truncated <==> level == depth >= 1 && frontier != []
    {
      var nxt;
      ghost var was := roles;
      roles, edges, nxt := TopoLevel(q, frontier, roles, edges);
      LevelUp(q, root, level, was.Keys, order, frontier, roles.Keys, nxt);
      RolesUp(q, root, level, was, roles);
      FetchedUp(q, root, level);
      order := order + nxt;
      if level == depth - 1 && nxt != [] {
        truncated := true;
      }
      frontier := nxt;
      level := level + 1;
      if frontier == [] { break; }
    }
    SearchDone(q, root, level, depth, roles.Keys, order, frontier);
    if level < depth {
      TopoEarly(q, root, level, depth, roles.Keys, order, frontier);
    }
  }

  lemma TopoEarly(q: Query, root: Entity, level: nat, depth: nat,
                  visited: set<Entity>, order: seq<Entity>, frontier: seq<Entity>)
    requires 0 < level < depth && Level(q, root, level, visited, order, frontier) && frontier == []
    ensures Ball(q, root, depth) == visited && FetchedWithin(q, root, depth) == FetchedWithin(q, root, level)
  {
    EmptyShell(q, root, level);
    BallStable(q, root, level - 1, depth);
    FetchedStable(q, root, level, depth);
  }

  lemma EndpointsFound(q: Query, root: Entity, depth: nat, r: Relation)
    requires r in FetchedWithin(q, root, depth)
    ensures r.src in Ball(q, root, depth) && r.dst in Ball(q, root, depth)
  {
    var a :| a in Ball(q, root, depth - 1) && r in q.relations && Fetched(q, r, a);
    AllNeighboursSpec(q, Ball(q, root, depth - 1));
    assert Other(r, a) in Neighbours(q, a);
  }

  ghost function Entities(nodes: seq<(Entity, Role)>): seq<Entity> {
    seq(|nodes|, i requires 0 <= i < |nodes| => nodes[i].0)
  }

  ghost predicate Shows(nodes: seq<(Entity, Role)>, e: Entity) {
    exists n :: n in nodes && n.0 == e
  }

  /** Seen from an entity's role: it is the target, or the source, of a relation of a nearer entity,
      and searches in one direction give one role. */
  lemma RolesMeanDirections(q: Query, root: Entity, x: Entity, role: Role)
    requires RoleExplained(q, root, x, role)
    ensures role == DownRole || role == UpRole
    ensures q.direction.Down? ==> role == DownRole
    ensures q.direction.Up? ==> role == UpRole
    ensures exists a, k: nat, r ::
              a in Ball(q, root, k) && x !in Ball(q, root, k) && r in q.relations &&
              if role == DownRole then Arrow(q, r, a, x) else Arrow(q, r, x, a)
  {
    var a, k: nat :| a in Ball(q, root, k) && x !in Ball(q, root, k) && Explained(q, a, x, role);
    var r :| r in q.relations && Fetched(q, r, a) && Other(r, a) == x &&
             role == (if r.src == a then DownRole else UpRole);
    assert x != a;
    assert if role == DownRole then Arrow(q, r, a, x) else Arrow(q, r, x, a);
  }

  /** The root is nearest of all. */
  lemma RootFirst(q: Query, root: Entity, order: seq<Entity>)
    requires NearestFirst(q, root, order)
    ensures NearestFirst(q, root, [root] + order)
  {
    var s := [root] + order;
    forall i, j, k: nat | 0 <= i < j < |s| && s[j] in Ball(q, root, k) ensures s[i] in Ball(q, root, k) {
      if i == 0 { RootInBall(q, root, k); } else { assert order[j - 1] in Ball(q, root, k); }
    }
  }

  lemma KeepOk(q: Query, root: Entity, d: nat, order: seq<Entity>, scope: Scope)
    requires Distinct(order) && Elems(order) == Ball(q, root, d) - {root} && NearestFirst(q, root, order)
    ensures var keep := VisibleOf(scope, [root] + order);
            && Distinct(keep) && NearestFirst(q, root, keep)
            && forall e :: e in keep <==> e in Ball(q, root, d) && EntityVisible(scope, e)
  {
    RootInBall(q, root, d);
    assert Elems([root]) == {root};
    DistinctConcat([root], order);
    RootFirst(q, root, order);
    VisibleKeeps(q, root, scope, [root] + order);
    forall e ensures e in [root] + order <==> e in Ball(q, root, d) {
      assert e in order <==> e in Elems(order);
    }
  }

  /** Labels each kept entity with its role. */
  method WithRoles(keep: seq<Entity>, roles: map<Entity, Role>) returns (nodes: seq<(Entity, Role)>)
    requires Distinct(keep) && forall e :: e in keep ==> e in roles
    ensures |nodes| == |keep| && forall i :: 0 <= i < |keep| ==> nodes[i] == (keep[i], roles[keep[i]])
    ensures forall e :: Shows(nodes, e) <==> e in keep
    ensures forall n :: n in nodes ==> n.0 in keep && n.1 == roles[n.0]
  {
    nodes := [];
    for i := 0 to |keep|
      invariant |nodes| == i && forall j :: 0 <= j < i ==> nodes[j] == (keep[j], roles[keep[j]])
    {
      assert keep[i] in keep;
      nodes := nodes + [(keep[i], roles[keep[i]])];
    }
    forall e | e in keep ensures Shows(nodes, e) {
      var i :| 0 <= i < |keep| && keep[i] == e;
      assert nodes[i] in nodes;
    }
  }

  /** Topology finds the entities of impact plus the root, each once, nearest first and with
      its role, and every relation it returns joins two of the entities it returns. */
  method Topology(q: Query, root: Entity, depth: Option<int>, scope: Scope)
    returns (r: Result<(seq<(Entity, Role)>, set<Relation>, bool), ()>)
    ensures r.Err? <==> ClampDepth(depth).None?
    ensures r.Ok? ==>
      var d, (nodes, edges, truncated) := ClampDepth(depth).value, r.value;
      && (forall e :: Shows(nodes, e) <==> e in Ball(q, root, d) && EntityVisible(scope, e))
      && (forall i, j :: 0 <= i < j < |nodes| ==> nodes[i].0 != nodes[j].0)
      && NearestFirst(q, root, Entities(nodes))
      && (forall n :: n in nodes && n.0 == root ==> n.1 == RootRole)
      && (forall n :: n in nodes && n.0 != root ==> RoleExplained(q, root, n.0, n.1))
      && (forall x :: x in edges <==>
            x in FetchedWithin(q, root, d) && EntityVisible(scope, x.src) && EntityVisible(scope, x.dst))
      && (forall x :: x in edges ==> Shows(nodes, x.src) && Shows(nodes, x.dst))
      && (truncated <==> Truncates(q, root, d))
  {
    var d := ClampDepth(depth);
    if d.None? { return Err(()); }
    var order, roles, edges, truncated := TopoSearch(q, root, d.value);
    var keep := VisibleOf(scope, [root] + order);
    KeepOk(q, root, d.value, order, scope);
    var nodes := WithRoles(keep, roles);
    assert Entities(nodes) == keep;
    var shown := set x | x in edges && EntityVisible(scope, x.src) && EntityVisible(scope, x.dst);
    forall x | x in shown ensures Shows(nodes, x.src) && Shows(nodes, x.dst) {
      EndpointsFound(q, root, d.value, x);
    }
    r := Ok((nodes, shown, truncated));
  }
}
