/** The knowledge-base category tree: a parent table under create, move and delete,
    kept a forest of bounded depth. A parent of 0 marks a root. */
module CategoryForest {
  import opened Wrappers

  const MAX_DEPTH: nat := 3

  type Parents = map<int, int>

  // ------------------------------------------------------------ ancestor chains

  /** Following parents from `c` reaches the root mark within `n` steps. */
  ghost predicate Rooted(p: Parents, c: int, n: nat)
    decreases n
  {
    c == 0 || (n > 0 && c in p && Rooted(p, p[c], n - 1))
  }

  /** `c` and its ancestors, nearest first. */
  ghost function Chain(p: Parents, c: int, n: nat): seq<int>
    requires Rooted(p, c, n)
    decreases n
  {
    if c == 0 then [] else [c] + Chain(p, p[c], n - 1)
  }

  /** Parents exist, the parent relation has no cycle, and no depth exceeds the maximum. */
  ghost predicate Forest(p: Parents) {
    0 !in p && forall c {:trigger Rooted(p, c, MAX_DEPTH)} :: c in p ==> Rooted(p, c, MAX_DEPTH)
  }

  /** Depth of a category; a root has depth 1, the root mark 0. */
  ghost function Depth(p: Parents, c: int): nat
    requires Rooted(p, c, MAX_DEPTH)
  {
    |Chain(p, c, MAX_DEPTH)|
  }

  /** `d` is `c` or lives under it. */
  ghost predicate Under(p: Parents, c: int, d: int)
    requires Rooted(p, d, MAX_DEPTH)
  {
    c in Chain(p, d, MAX_DEPTH)
  }

  /** The bound on the number of steps does not matter. */
  lemma {:induction false} ChainFuel(p: Parents, c: int, n: nat, m: nat)
    requires Rooted(p, c, n) && n <= m
    ensures Rooted(p, c, m) && Chain(p, c, m) == Chain(p, c, n)
    decreases n
  {
    if c != 0 {
      ChainFuel(p, p[c], n - 1, m - 1);
    }
  }

  lemma {:induction false} ChainLength(p: Parents, c: int, n: nat)
    requires Rooted(p, c, n)
    ensures |Chain(p, c, n)| <= n && Rooted(p, c, |Chain(p, c, n)|)
    decreases n
  {
    if c != 0 {
      ChainLength(p, p[c], n - 1);
    }
  }

  /** One step up: the chain of the parent is the rest of the chain. */
  lemma StepUp(p: Parents, c: int)
    requires Forest(p) && c in p
    ensures Rooted(p, p[c], MAX_DEPTH) && Chain(p, c, MAX_DEPTH) == [c] + Chain(p, p[c], MAX_DEPTH)
    ensures Depth(p, c) == Depth(p, p[c]) + 1
  {
    assert Rooted(p, c, MAX_DEPTH);
    ChainFuel(p, p[c], MAX_DEPTH - 1, MAX_DEPTH);
  }

  /** The chain of a member of a chain is a suffix of it. */
  lemma {:induction false} ChainSuffix(p: Parents, d: int, n: nat, i: nat)
    requires Rooted(p, d, n) && i < |Chain(p, d, n)|
    ensures i <= n && Rooted(p, Chain(p, d, n)[i], n - i)
    ensures Chain(p, Chain(p, d, n)[i], n - i) == Chain(p, d, n)[i..]
    decreases n
  {
    ChainLength(p, d, n);
    if i > 0 {
      ChainSuffix(p, p[d], n - 1, i - 1);
    }
  }

  /** No category is its own ancestor: chains do not repeat. */
  lemma ChainsDoNotRepeat(p: Parents, d: int, n: nat, i: nat, j: nat)
    requires Rooted(p, d, n) && i < j < |Chain(p, d, n)|
    ensures Chain(p, d, n)[i] != Chain(p, d, n)[j]
  {
    var ch := Chain(p, d, n);
    ChainSuffix(p, d, n, i);
    ChainSuffix(p, d, n, j);
    if ch[i] == ch[j] {
      ChainFuel(p, ch[j], n - j, n - i);
    }
  }

  // ------------------------------------------------------------ moving a subtree

  /** Outside the moved subtree nothing changes. */
  lemma {:induction false} OutsideMove(p: Parents, c: int, np: int, d: int, n: nat)
    requires Rooted(p, d, n) && c !in Chain(p, d, n)
    ensures Rooted(p[c := np], d, n) && Chain(p[c := np], d, n) == Chain(p, d, n)
    decreases n
  {
    if d != 0 {
      OutsideMove(p, c, np, p[d], n - 1);
    }
  }

  /** Inside it, the part of the chain down to `c` stays and the new ancestors follow. */
  lemma {:induction false} InsideMove(p: Parents, c: int, np: int, d: int, n: nat, i: nat, m: nat)
    requires c != 0 && Rooted(p, d, n) && i < |Chain(p, d, n)| && Chain(p, d, n)[i] == c
    requires Rooted(p, np, m) && c !in Chain(p, np, m)
    ensures var p' := p[c := np];
            Rooted(p', d, i + 1 + m) && Chain(p', d, i + 1 + m) == Chain(p, d, n)[..i + 1] + Chain(p, np, m)
    decreases n
  {
    var p' := p[c := np];
    OutsideMove(p, c, np, np, m);
    var above := Chain(p, np, m);
    if d == c {
      ChainsStartOnce(p, d, n, i);
      assert Chain(p', d, 1 + m) == [d] + above;
    } else {
      var rest := Chain(p, p[d], n - 1);
      assert i > 0 && rest[i - 1] == c;
      InsideMove(p, c, np, p[d], n - 1, i - 1, m);
      assert Chain(p', d, i + 1 + m) == [d] + Chain(p', p[d], i + m);
      ConsTake(d, rest, i, above);
    }
  }

  lemma ConsTake(x: int, rest: seq<int>, i: nat, above: seq<int>)
    requires i <= |rest|
    ensures [x] + (rest[..i] + above) == ([x] + rest)[..i + 1] + above
  {
    assert ([x] + rest)[..i + 1] == [x] + rest[..i];
  }

  lemma ChainsStartOnce(p: Parents, d: int, n: nat, i: nat)
    requires Rooted(p, d, n) && i < |Chain(p, d, n)| && Chain(p, d, n)[i] == d
    ensures i == 0
  {
    if i > 0 {
      ChainsDoNotRepeat(p, d, n, 0, i);
    }
  }

  /** A move shifts the depths of a whole subtree by the same amount and no other depth. */
  lemma MoveShiftsDepths(p: Parents, c: int, np: int, d: int)
    requires Forest(p) && c in p && (np == 0 || np in p) && !Under(p, c, np) && d in p
    ensures var p' := p[c := np];
            var k := if Under(p, c, d) then Depth(p, d) - Depth(p, c) + 1 + Depth(p, np) else Depth(p, d);
            k >= 0 && Rooted(p', d, k) && |Chain(p', d, k)| == k
  {
    if Under(p, c, d) {
      ShiftInside(p, c, np, d);
    } else {
      ChainLength(p, d, MAX_DEPTH);
      ChainFuel(p, d, Depth(p, d), MAX_DEPTH);
      OutsideMove(p, c, np, d, Depth(p, d));
    }
  }

  lemma ShiftInside(p: Parents, c: int, np: int, d: int)
    requires Forest(p) && c in p && (np == 0 || np in p) && !Under(p, c, np) && d in p && Under(p, c, d)
    ensures var k := Depth(p, d) - Depth(p, c) + 1 + Depth(p, np);
            k >= 0 && Rooted(p[c := np], d, k) && |Chain(p[c := np], d, k)| == k
  {
    var ch := Chain(p, d, MAX_DEPTH);
    var i :| 0 <= i < |ch| && ch[i] == c;
    SuffixDepth(p, d, i);
    ChainLength(p, np, MAX_DEPTH);
    ChainFuel(p, np, Depth(p, np), MAX_DEPTH);
    InsideMove(p, c, np, d, MAX_DEPTH, i, Depth(p, np));
  }

  lemma SuffixDepth(p: Parents, d: int, i: nat)
    requires Forest(p) && d in p && i < Depth(p, d)
    ensures var c := Chain(p, d, MAX_DEPTH)[i]; Rooted(p, c, MAX_DEPTH) && Depth(p, c) == Depth(p, d) - i
  {
    ChainSuffix(p, d, MAX_DEPTH, i);
    ChainFuel(p, Chain(p, d, MAX_DEPTH)[i], MAX_DEPTH - i, MAX_DEPTH);
  }

  /** Hanging a category below itself makes a cycle: no chain through it ends. */
  lemma {:induction false} CycleNeverRooted(p: Parents, c: int, np: int, n: nat, m: nat)
    requires c != 0 && Rooted(p, np, m) && c in Chain(p, np, m)
    ensures !Rooted(p[c := np], c, n)
    decreases n
  {
    if n > 0 && Rooted(p[c := np], np, n - 1) {
      var j := ReachesAgain(p, c, np, np, n - 1, m);
      CycleNeverRooted(p, c, np, j, m);
    }
  }

  lemma {:induction false} ReachesAgain(p: Parents, c: int, np: int, x: int, n: nat, m: nat) returns (j: nat)
    requires Rooted(p, x, m) && c in Chain(p, x, m) && Rooted(p[c := np], x, n)
    ensures j <= n && Rooted(p[c := np], c, j)
    decreases n
  {
    if x == c {
      j := n;
    } else {
      j := ReachesAgain(p, c, np, p[x], n - 1, m - 1);
    }
  }

  // ------------------------------------------------------------ subtree height

  /** `h` is the largest extra depth below `c`. */
  ghost predicate IsHeight(p: Parents, c: int, h: nat)
    requires Forest(p) && c in p
  {
    && (forall d {:trigger Under(p, c, d)} :: d in p && Under(p, c, d) ==> Depth(p, d) <= Depth(p, c) + h)
    && exists d {:trigger Under(p, c, d)} :: d in p && Under(p, c, d) && Depth(p, d) == Depth(p, c) + h
  }

  lemma MovedFits(p: Parents, c: int, np: int, h: nat, d: int)
    requires Forest(p) && c in p && (np == 0 || np in p) && !Under(p, c, np) && IsHeight(p, c, h) && d in p
    requires Depth(p, np) + 1 + h <= MAX_DEPTH
    ensures Rooted(p[c := np], d, MAX_DEPTH)
  {
    MoveShiftsDepths(p, c, np, d);
    ChainLength(p, d, MAX_DEPTH);
    var k := if Under(p, c, d) then Depth(p, d) - Depth(p, c) + 1 + Depth(p, np) else Depth(p, d);
    ChainFuel(p[c := np], d, k, MAX_DEPTH);
  }

  lemma MovedTooDeep(p: Parents, c: int, np: int, d: int)
    requires Forest(p) && c in p && (np == 0 || np in p) && !Under(p, c, np) && d in p && Under(p, c, d)
    requires Depth(p, np) + 1 + Depth(p, d) - Depth(p, c) > MAX_DEPTH
    ensures !Rooted(p[c := np], d, MAX_DEPTH)
  {
    ShiftInside(p, c, np, d);
    var k := Depth(p, d) - Depth(p, c) + 1 + Depth(p, np);
    if Rooted(p[c := np], d, MAX_DEPTH) {
      ChainFuel(p[c := np], d, MAX_DEPTH, k);
      ChainLength(p[c := np], d, MAX_DEPTH);
    }
  }

  /** The check of `update_category` is exact: given an existing target that is not in
      the moved subtree, the move keeps the forest if and only if the new depth of `c`
      plus its height stays within the maximum. */
  lemma MoveCheckExact(p: Parents, c: int, np: int, h: nat)
    requires Forest(p) && c in p && (np == 0 || np in p) && !Under(p, c, np) && IsHeight(p, c, h)
    ensures Forest(p[c := np]) <==> Depth(p, np) + 1 + h <= MAX_DEPTH
  {
    var p' := p[c := np];
    if Depth(p, np) + 1 + h <= MAX_DEPTH {
      forall d | d in p' ensures Rooted(p', d, MAX_DEPTH) {
        MovedFits(p, c, np, h, d);
      }
    } else {
      var d :| d in p && Under(p, c, d) && Depth(p, d) == Depth(p, c) + h;
      MovedTooDeep(p, c, np, d);
      assert d in p' && !Rooted(p', d, MAX_DEPTH);
    }
  }

  /** Moving a category under itself, or under a missing parent, always breaks the forest. */
  lemma BadMove(p: Parents, c: int, np: int)
    requires Forest(p) && c in p && np != 0 && (np !in p || Under(p, c, np))
    ensures !Forest(p[c := np])
  {
    var p' := p[c := np];
    if np !in p {
      assert !Rooted(p', np, MAX_DEPTH - 1);
    } else {
      CycleNeverRooted(p, c, np, MAX_DEPTH, MAX_DEPTH);
    }
    assert !Rooted(p', c, MAX_DEPTH);
    assert c in p';
  }

  /** A new leaf keeps the forest exactly when its depth is within the maximum. */
  lemma NewLeaf(p: Parents, id: int, parent: int)
    requires Forest(p) && id !in p && id != 0 && (parent == 0 || parent in p)
    ensures Forest(p[id := parent]) <==> Depth(p, parent) + 1 <= MAX_DEPTH
  {
    var p' := p[id := parent];
    forall d | d in p ensures Rooted(p', d, MAX_DEPTH) {
      FreshNotInChain(p, id, d, MAX_DEPTH);
      OutsideMove(p, id, parent, d, MAX_DEPTH);
    }
    FreshNotInChain(p, id, parent, MAX_DEPTH);
    OutsideMove(p, id, parent, parent, MAX_DEPTH);
    ChainLength(p, parent, MAX_DEPTH);
    if Depth(p, parent) + 1 <= MAX_DEPTH {
      ChainFuel(p, parent, Depth(p, parent), MAX_DEPTH);
      OutsideMove(p, id, parent, parent, Depth(p, parent));
      ChainFuel(p', parent, Depth(p, parent), MAX_DEPTH - 1);
    } else if Forest(p') {
      assert Rooted(p', id, MAX_DEPTH);
      ChainLength(p', parent, MAX_DEPTH - 1);
      ChainFuel(p', parent, MAX_DEPTH - 1, MAX_DEPTH);
    }
  }

  lemma {:induction false} FreshNotInChain(p: Parents, id: int, d: int, n: nat)
    requires Rooted(p, d, n) && id !in p
    ensures id !in Chain(p, d, n)
    decreases n
  {
    if d != 0 {
      FreshNotInChain(p, id, p[d], n - 1);
    }
  }

  /** Deleting a category keeps the forest exactly when it has no children. */
  lemma DeleteLeaf(p: Parents, c: int)
    requires Forest(p) && c in p
    ensures Forest(p - {c}) <==> forall d :: d in p ==> p[d] != c
  {
    var p' := p - {c};
    if forall d :: d in p ==> p[d] != c {
      forall d | d in p' ensures Rooted(p', d, MAX_DEPTH) {
        WithoutLeaf(p, c, d, MAX_DEPTH);
      }
    } else {
      var d :| d in p && p[d] == c;
      StepUp(p, d);
      assert d != c && d in p';
      assert !Rooted(p', c, MAX_DEPTH - 1);
      assert !Rooted(p', d, MAX_DEPTH);
    }
  }

  lemma {:induction false} WithoutLeaf(p: Parents, c: int, d: int, n: nat)
    requires Rooted(p, d, n) && d != c && forall x :: x in p ==> p[x] != c
    ensures Rooted(p - {c}, d, n)
    decreases n
  {
    if d != 0 {
      WithoutLeaf(p, c, p[d], n - 1);
    }
  }

  // ------------------------------------------------------------ the service

  datatype Refusal = ParentNotFound | NotFound | IntoItself | TooDeep | HasChildren | HasArticles

  /** The category table and the category of every article. */
  class Categories {
    var parent: Parents
    var articles: map<int, int>
    var lastId: nat

    ghost predicate Valid() reads this {
      Forest(parent) && forall c :: c in parent ==> 0 < c <= lastId
    }

    constructor (articles: map<int, int>)
      ensures Valid() && parent == map[] && this.articles == articles
    {
      parent, lastId := map[], 0;
      this.articles := articles;
    }

    /** `_category_depth`; a missing category has depth 0. */
    method CategoryDepth(c: int) returns (depth: nat)
      requires Valid()
      ensures depth == if c in parent then Depth(parent, c) else 0
    {
      depth := 0;
      var cur, seen := c, {};
      while cur != 0 && cur !in seen
        invariant cur == 0 || cur in parent || (cur == c && depth == 0)
        invariant c in parent ==> (cur == 0 || cur in parent) && depth + Depth(parent, cur) == Depth(parent, c)
        invariant c !in parent ==> cur == c && depth == 0 && seen == {}
        invariant forall x :: x in seen ==> x in parent && (cur == 0 || cur in parent) && Depth(parent, x) > Depth(parent, cur)
        decreases if cur in parent then Depth(parent, cur) else 0
      {
        seen := seen + {cur};
        if cur !in parent { return; }
        StepUp(parent, cur);
        depth := depth + 1;
        cur := parent[cur];
      }
      assert c in parent ==> cur == 0;
    }

    /** `_is_descendant`; a missing node descends from itself alone. */
    method IsDescendant(ancestor: int, node: int) returns (r: bool)
      requires Valid()
      ensures r <==> if node == 0 || node in parent then Under(parent, ancestor, node) else node == ancestor
    {
      var cur, seen := node, {};
      while cur != 0 && cur !in seen
        invariant cur == 0 || cur in parent || cur == node
        invariant node == 0 || node in parent ==>
                    (cur == 0 || cur in parent) && (Under(parent, ancestor, node) <==> Under(parent, ancestor, cur))
        invariant node != 0 && node !in parent ==> cur == node && seen == {}
        invariant forall x :: x in seen ==> x in parent && (cur == 0 || cur in parent) && Depth(parent, x) > Depth(parent, cur)
        decreases if cur in parent then Depth(parent, cur) else 0
      {
        if cur in parent { StepUp(parent, cur); }
        if cur == ancestor { return true; }
        seen := seen + {cur};
        if cur !in parent { return false; }
        cur := parent[cur];
      }
      assert cur == 0;
      r := false;
    }

    /** `_subtree_height`: the recursion ends because depths are bounded. */
    method SubtreeHeight(c: int) returns (h: nat)
      requires Valid() && c in parent
      ensures IsHeight(parent, c, h)
      decreases MAX_DEPTH - Depth(parent, c)
    {
      var children: set<int> := set d | d in parent && parent[d] == c;
      h := 0;
      OnlySelf(parent, c);
      var rest := children;
      assert children - rest == {};
      while rest != {}
        invariant rest <= children
        invariant HeightOver(parent, c, children - rest, h)
        decreases rest
      {
        HasElement(rest);
        var k :| k in rest;
        ChildDeeper(parent, c, k);
        var hk := SubtreeHeight(k);
        HeightGrows(parent, c, children - rest, h, k, hk);
        assert children - (rest - {k}) == (children - rest) + {k};
        rest := rest - {k};
        if hk + 1 > h { h := hk + 1; }
      }
      assert children - rest == children;
      HeightDone(parent, c, children, h);
    }

    /** `create_category`: refuses exactly a missing parent or a depth beyond the maximum. */
    method Create(parentId: int) returns (r: Result<int, Refusal>)
      requires Valid()
      modifies this
      ensures Valid() && articles == old(articles)
      ensures r.Ok? <==> (parentId == 0 || parentId in old(parent)) && Forest(old(parent)[old(lastId) + 1 := parentId])
      ensures r.Ok? ==> r.value == old(lastId) + 1 && parent == old(parent)[r.value := parentId]
      ensures r.Err? ==> parent == old(parent)
      ensures r == Err(ParentNotFound) <==> parentId != 0 && parentId !in old(parent)
    {
      var depth := 1;
      if parentId != 0 {
        if parentId !in parent { return Err(ParentNotFound); }
        var above := CategoryDepth(parentId);
        depth := above + 1;
      }
      var id := lastId + 1;
      NewLeaf(parent, id, parentId);
      if depth > MAX_DEPTH { return Err(TooDeep); }
      parent := parent[id := parentId];
      lastId := id;
      r := Ok(id);
    }

    /** `update_category` with a `parent_id`: the move is refused exactly when it would
        break the forest. */
    method Move(c: int, newParent: int) returns (r: Result<(), Refusal>)
      requires Valid()
      modifies this`parent
      ensures Valid()
      ensures r.Ok? <==> c in old(parent) && Forest(old(parent)[c := newParent])
      ensures parent == if r.Ok? then old(parent)[c := newParent] else old(parent)
      ensures r == Err(NotFound) <==> c !in old(parent)
    {
      if c !in parent { return Err(NotFound); }
      var depth := 1;
      if newParent != 0 {
        if newParent !in parent {
          BadMove(parent, c, newParent);
          return Err(ParentNotFound);
        }
        var below := IsDescendant(c, newParent);
        if below {
          BadMove(parent, c, newParent);
          return Err(IntoItself);
        }
        var above := CategoryDepth(newParent);
        depth := above + 1;
      }
      var h := SubtreeHeight(c);
      MoveCheckExact(parent, c, newParent, h);
      if depth + h > MAX_DEPTH { return Err(TooDeep); }
      parent := parent[c := newParent];
      r := Ok(());
    }

    /** `delete_category`: only a category without children and without articles goes. */
    method Delete(c: int) returns (r: Result<(), Refusal>)
      requires Valid()
      modifies this`parent
      ensures Valid()
      ensures r.Ok? <==> c in old(parent) && Forest(old(parent) - {c}) && forall a :: a in articles ==> articles[a] != c
      ensures parent == if r.Ok? then old(parent) - {c} else old(parent)
    {
      if c !in parent { return Err(NotFound); }
      DeleteLeaf(parent, c);
      if exists d :: d in parent && parent[d] == c { return Err(HasChildren); }
      if exists a :: a in articles && articles[a] == c { return Err(HasArticles); }
      parent := parent - {c};
      r := Ok(());
    }
  }

  lemma HasElement(s: set<int>)
    requires s != {}
    ensures exists x :: x in s
  {
    if forall x :: x !in s {
      assert false;
    }
  }

  /** `h` is the largest extra depth below `c`, as far as the children `done` show. */
  ghost predicate HeightOver(p: Parents, c: int, done: set<int>, h: nat)
    requires Forest(p) && c in p
  {
    && (forall k, d {:trigger Under(p, k, d)} :: k in done && d in p && Under(p, k, d) ==> Depth(p, d) <= Depth(p, c) + h)
    && exists d {:trigger Under(p, c, d)} :: d in p && Under(p, c, d) && Depth(p, d) == Depth(p, c) + h
  }

  lemma ChildDeeper(p: Parents, c: int, k: int)
    requires Forest(p) && c in p && k in p && p[k] == c
    ensures Depth(p, k) == Depth(p, c) + 1 <= MAX_DEPTH
  {
    StepUp(p, k);
    ChainLength(p, k, MAX_DEPTH);
  }

  lemma OnlySelf(p: Parents, c: int)
    requires Forest(p) && c in p
    ensures HeightOver(p, c, {}, 0)
  {
    SelfUnder(p, c);
  }

  lemma HeightGrows(p: Parents, c: int, done: set<int>, h: nat, k: int, hk: nat)
    requires Forest(p) && c in p && HeightOver(p, c, done, h)
    requires k in p && p[k] == c && IsHeight(p, k, hk)
    ensures HeightOver(p, c, done + {k}, if hk + 1 > h then hk + 1 else h)
  {
    StepUp(p, k);
    if hk + 1 > h {
      var d :| d in p && Under(p, k, d) && Depth(p, d) == Depth(p, k) + hk;
      UnderChild(p, c, k, d);
    }
  }

  lemma HeightDone(p: Parents, c: int, children: set<int>, h: nat)
    requires Forest(p) && c in p && HeightOver(p, c, children, h)
    requires children == set d | d in p && p[d] == c
    ensures IsHeight(p, c, h)
  {
    forall d | d in p && Under(p, c, d) ensures Depth(p, d) <= Depth(p, c) + h {
      if d != c {
        var k := ChildTowards(p, c, d);
        assert k in children;
      }
    }
  }

  lemma SelfUnder(p: Parents, c: int)
    requires Forest(p) && c in p
    ensures Under(p, c, c)
  {
    StepUp(p, c);
  }

  /** What is under a child is under its parent. */
  lemma UnderChild(p: Parents, c: int, k: int, d: int)
    requires Forest(p) && c in p && k in p && p[k] == c && d in p && Under(p, k, d)
    ensures Under(p, c, d)
  {
    var ch := Chain(p, d, MAX_DEPTH);
    var i :| 0 <= i < |ch| && ch[i] == k;
    ChainLength(p, d, MAX_DEPTH);
    ChainSuffix(p, d, MAX_DEPTH, i);
    ChainFuel(p, k, MAX_DEPTH - i, MAX_DEPTH);
    StepUp(p, k);
    StepUp(p, c);
    assert ch[i..][1] == c;
  }

  /** A proper descendant is under one of the children. */
  lemma {:induction false} ChildTowards(p: Parents, c: int, d: int) returns (k: int)
    requires Forest(p) && c in p && d in p && Under(p, c, d) && d != c
    ensures k in p && p[k] == c && Under(p, k, d)
    decreases Depth(p, d)
  {
    StepUp(p, d);
    SelfUnder(p, d);
    if p[d] == c {
      k := d;
    } else {
      assert c in Chain(p, p[d], MAX_DEPTH);
      k := ChildTowards(p, c, p[d]);
    }
  }
}
