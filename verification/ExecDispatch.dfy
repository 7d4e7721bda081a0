/** The permit accounting of `exec_dispatch`: a dispatch takes a global and a per-host
    permit for each host row it starts, and gives them back row by row.  Every call it
    makes may raise, before or after it has had its effect. */
module ExecDispatch {

  /** The part of an `exec_task_host` row that the loops read. */
  datatype Row = Row(host: int, pending: bool)

  /** How an acquire ends; it may raise without a permit or with one. */
  datatype Acquire = Granted | Denied | RaisedFree | RaisedHeld

  /** How a release ends; it may raise after giving the permit back or before. */
  datatype Release = Given | RaisedGiven | RaisedKept

  /** What the outside decides, per row index: the two acquires and the two releases,
      whether the commit of the row fails, whether reading the row again raises, whether it
      has vanished by then, and whether executing it raises; and whether the rollback after
      a failed start raises. */
  datatype World = World(globalAcquire: nat -> Acquire, hostAcquire: nat -> Acquire,
                         globalRelease: nat -> Release, hostRelease: nat -> Release,
                         commitFails: nat -> bool, readRaises: nat -> bool, vanished: nat -> bool,
                         raises: nat -> bool, rollbackRaises: bool)

  /** Permits taken minus permits given back, for the global key and per host. */
  datatype Held = Held(globals: int, hosts: map<int, int>)

  function On(h: Held, host: int): int {
    if host in h.hosts then h.hosts[host] else 0
  }

  function Take(h: Held, host: int): Held {
    h.(hosts := h.hosts[host := On(h, host) + 1])
  }

  function Give(h: Held, host: int): Held {
    h.(hosts := h.hosts[host := On(h, host) - 1])
  }

  /** The rows whose global permit and whose per-host permit are kept. */
  datatype Kept = Kept(globals: seq<nat>, hosts: seq<nat>)

  const NOTHING := Kept([], [])

  function Plus(a: Kept, b: Kept): Kept {
    Kept(a.globals + b.globals, a.hosts + b.hosts)
  }

  function Both(ids: seq<nat>): Kept {
    Kept(ids, ids)
  }

  function Of(k: nat, global: bool, host: bool): Kept {
    Kept(if global then [k] else [], if host then [k] else [])
  }

  /** How many of the given rows run on `host`. */
  function CountOn(rows: seq<Row>, ids: seq<nat>, host: int): nat {
    if ids == [] then 0
    else CountOn(rows, ids[1..], host) + if ids[0] < |rows| && rows[ids[0]].host == host then 1 else 0
  }

  /** Exactly the permits of these rows are held. */
  ghost predicate HoldsFor(h: Held, rows: seq<Row>, kept: Kept) {
    h.globals == |kept.globals| && forall host :: On(h, host) == CountOn(rows, kept.hosts, host)
  }

  // ------------------------------------------------------------ what is kept

  /** What giving back both permits of a row leaves: the host's first, then the global one. */
  datatype Left = Left(global: bool, host: bool, raised: bool)

  function Returned(w: World, k: nat): Left {
    match w.hostRelease(k)
    case Given => Left(w.globalRelease(k).RaisedKept?, false, !w.globalRelease(k).Given?)
    case RaisedGiven => Left(true, false, true)
    case RaisedKept => Left(true, true, true)
  }

  /** One row of the first loop: it is passed over, started, or ends the loop. */
  datatype Attempt = Passed | Started | Ended(left: Left)

  function Try(rows: seq<Row>, w: World, i: nat): Attempt
    requires i < |rows|
  {
    if !rows[i].pending then Passed
    else match w.globalAcquire(i)
      case Denied => Ended(Left(false, false, false))
      case RaisedFree => Ended(Left(false, false, true))
      case RaisedHeld => Ended(Left(true, false, true))
      case Granted =>
        match w.hostAcquire(i)
        case Denied => Ended(Left(w.globalRelease(i).RaisedKept?, false, !w.globalRelease(i).Given?))
        case RaisedFree => Ended(Left(true, false, true))
        case RaisedHeld => Ended(Left(true, true, true))
        case Granted =>
          if w.commitFails(i) then Ended(Returned(w, i).(raised := true)) else Started
  }

  /** The first loop from row `i`: the started rows, what the row that ended it keeps, and
      whether it ended by raising. */
  datatype Begun = Begun(started: seq<nat>, left: Kept, raised: bool)

  function StartFrom(rows: seq<Row>, w: World, i: nat): Begun
    requires i <= |rows|
    decreases |rows| - i
  {
    if i == |rows| then Begun([], NOTHING, false)
    else match Try(rows, w, i)
      case Passed => StartFrom(rows, w, i + 1)
      case Started => var b := StartFrom(rows, w, i + 1); b.(started := [i] + b.started)
      case Ended(l) => Begun([], Of(i, l.global, l.host), l.raised)
  }

  /** The second loop: what it keeps of the started rows.  A row that vanished keeps its
      permits; whatever raises keeps those of all later rows. */
  function Finish(w: World, started: seq<nat>): Kept {
    if started == [] then NOTHING
    else
      var k, rest := started[0], started[1..];
      if w.readRaises(k) then Both(started)
      else if w.vanished(k) then Plus(Both([k]), Finish(w, rest))
      else
        var l := Returned(w, k);
        Plus(Of(k, l.global, l.host), if w.raises(k) || l.raised then Both(rest) else Finish(w, rest))
  }

  /** The permits a whole dispatch keeps. */
  function DispatchKeeps(rows: seq<Row>, w: World): Kept {
    var b := StartFrom(rows, w, 0);
    Plus(b.left, if b.raised && w.rollbackRaises then Both(b.started) else Finish(w, b.started))
  }

  // ------------------------------------------------------------ when nothing is kept

  /** Row `i` ends the first loop. */
  ghost predicate EndsAt(rows: seq<Row>, w: World, i: nat) {
    i < |rows| && Try(rows, w, i).Ended? && forall m :: 0 <= m < i ==> !Try(rows, w, m).Ended?
  }

  /** Row `i` is started: it could be, and no earlier row ended the loop. */
  ghost predicate Starts(rows: seq<Row>, w: World, i: nat) {
    i < |rows| && Try(rows, w, i).Started? && forall m :: 0 <= m < i ==> !Try(rows, w, m).Ended?
  }

  /** Every call made for the row in the second loop did what it should. */
  predicate Clean(w: World, k: nat) {
    !w.readRaises(k) && !w.vanished(k) && w.hostRelease(k).Given? && !w.globalRelease(k).RaisedKept?
  }

  /** The row's turn raised although its permits came back. */
  predicate Aborts(w: World, k: nat) {
    w.raises(k) || !w.globalRelease(k).Given?
  }

  lemma {:induction false} FinishKeepsNothingIff(w: World, started: seq<nat>)
    ensures Finish(w, started) == NOTHING <==>
            forall j :: 0 <= j < |started| ==> Clean(w, started[j]) && (Aborts(w, started[j]) ==> j == |started| - 1)
  {
    if started != [] {
      var k, rest := started[0], started[1..];
      FinishKeepsNothingIff(w, rest);
      assert forall j :: 1 <= j < |started| ==> started[j] == rest[j - 1];
      assert forall j :: 0 <= j < |rest| ==> rest[j] == started[j + 1];
      var l := Returned(w, k);
      assert Clean(w, k) <==> !w.readRaises(k) && !w.vanished(k) && !l.global && !l.host;
      if Clean(w, k) {
        assert Aborts(w, k) <==> w.raises(k) || l.raised;
        assert Finish(w, started) == if Aborts(w, k) then Both(rest) else Finish(w, rest);
        if Aborts(w, k) && rest != [] { assert started[0] == k; }
      } else {
        assert started[0] == k;
        FinishKeepsFirst(w, started);
      }
    }
  }

  lemma FinishKeepsFirst(w: World, started: seq<nat>)
    requires started != [] && !Clean(w, started[0])
    ensures Finish(w, started) != NOTHING
  {
    var k := started[0];
    if w.readRaises(k) {
      assert Finish(w, started).globals == started;
    } else if w.vanished(k) {
      assert Finish(w, started).globals[0] == k;
    } else {
      assert Returned(w, k).global;
      assert Finish(w, started).globals[0] == k;
    }
  }

  /** The first loop from row `i` on, told row by row. */
  lemma {:induction false} StartedRows(rows: seq<Row>, w: World, i: nat)
    requires i <= |rows| && forall m :: 0 <= m < i ==> !Try(rows, w, m).Ended?
    ensures var b := StartFrom(rows, w, i);
            && (forall k :: k in b.started <==> i <= k && Starts(rows, w, k))
            && (forall x, y :: 0 <= x < y < |b.started| ==> b.started[x] < b.started[y])
            && (b.left == NOTHING <==>
                  forall k :: EndsAt(rows, w, k) ==> !Try(rows, w, k).left.global && !Try(rows, w, k).left.host)
            && (b.raised <==> exists k :: EndsAt(rows, w, k) && Try(rows, w, k).left.raised)
    decreases |rows| - i
  {
    if i < |rows| {
      if Try(rows, w, i).Ended? {
        assert EndsAt(rows, w, i);
        assert forall k :: EndsAt(rows, w, k) ==> k == i;
        var b := StartFrom(rows, w, i);
        assert b.left == NOTHING <==> b.left.globals == [] && b.left.hosts == [];
      } else {
        StartedRows(rows, w, i + 1);
        var rest := StartFrom(rows, w, i + 1).started;
        if Try(rows, w, i).Started? {
          var all := [i] + rest;
          forall k ensures k in all <==> i <= k && Starts(rows, w, k) { assert k in all <==> k == i || k in rest; }
          forall x, y | 0 <= x < y < |all| ensures all[x] < all[y] { assert all[y] in rest; }
        }
      }
    }
  }

  /**
   * A dispatch gives every permit back if and only if: the row that ended the first loop kept
   * none; if that loop raised and the rollback raised too, nothing had been started; otherwise
   * every started row was read, present and released, and none but the last aborted the loop.
   */
  lemma NothingLeaksIff(rows: seq<Row>, w: World)
    ensures var started := StartFrom(rows, w, 0).started;
            DispatchKeeps(rows, w) == NOTHING <==>
              && (forall k :: EndsAt(rows, w, k) ==> !Try(rows, w, k).left.global && !Try(rows, w, k).left.host)
              && (if w.rollbackRaises && (exists k :: EndsAt(rows, w, k) && Try(rows, w, k).left.raised)
                  then forall i :: !Starts(rows, w, i)
                  else forall j :: 0 <= j < |started| ==>
                         Clean(w, started[j]) && (Aborts(w, started[j]) ==> j == |started| - 1))
    ensures forall i :: i in StartFrom(rows, w, 0).started <==> Starts(rows, w, i)
  {
    var b := StartFrom(rows, w, 0);
    StartedRows(rows, w, 0);
    FinishKeepsNothingIff(w, b.started);
    assert b.started == [] <==> forall i :: i !in b.started by {
      if b.started != [] { assert b.started[0] in b.started; }
    }
    var rest := if b.raised && w.rollbackRaises then Both(b.started) else Finish(w, b.started);
    PlusNothing(b.left, rest);
  }

  lemma PlusNothing(a: Kept, b: Kept)
    ensures Plus(a, b) == NOTHING <==> a == NOTHING && b == NOTHING
  {
    if Plus(a, b) == NOTHING { assert |a.globals| == |b.globals| == |a.hosts| == |b.hosts| == 0; }
  }

  // ------------------------------------------------------------ counting

  lemma {:induction false} CountConcat(rows: seq<Row>, a: seq<nat>, b: seq<nat>, host: int)
    ensures CountOn(rows, a + b, host) == CountOn(rows, a, host) + CountOn(rows, b, host)
  {
    if a == [] {
      assert a + b == b;
    } else {
      assert (a + b)[1..] == a[1..] + b;
      CountConcat(rows, a[1..], b, host);
    }
  }

  lemma CountOne(rows: seq<Row>, a: seq<nat>, k: nat, b: seq<nat>, host: int)
    requires k < |rows|
    ensures CountOn(rows, a + [k] + b, host) == CountOn(rows, a + b, host) + if rows[k].host == host then 1 else 0
  {
    CountConcat(rows, a + [k], b, host);
    CountConcat(rows, a, [k], host);
    CountConcat(rows, a, b, host);
    assert [k][1..] == [];
  }

  /** The per-host permit of one more row. */
  lemma HostTaken(h: Held, rows: seq<Row>, kept: Kept, k: nat)
    requires HoldsFor(h, rows, kept) && k < |rows|
    ensures HoldsFor(Take(h, rows[k].host), rows, kept.(hosts := kept.hosts + [k]))
  {
    forall host ensures On(Take(h, rows[k].host), host) == CountOn(rows, kept.hosts + [k], host) {
      CountOne(rows, kept.hosts, k, [], host);
      assert kept.hosts + [k] + [] == kept.hosts + [k] && kept.hosts + [] == kept.hosts;
    }
  }

  /** The per-host permit of the row between `a` and `b`. */
  lemma HostGiven(h: Held, rows: seq<Row>, globals: seq<nat>, a: seq<nat>, k: nat, b: seq<nat>)
    requires HoldsFor(h, rows, Kept(globals, a + [k] + b)) && k < |rows|
    ensures HoldsFor(Give(h, rows[k].host), rows, Kept(globals, a + b))
  {
    forall host ensures On(Give(h, rows[k].host), host) == CountOn(rows, a + b, host) { CountOne(rows, a, k, b, host); }
  }

  // ------------------------------------------------------------ the loops

  /** Gives back both permits of the row between `a` and `b`, the host's first. */
  method GiveBack(rows: seq<Row>, w: World, k: nat, before: Held, ghost a: Kept, ghost b: seq<nat>)
    returns (held: Held, raised: bool)
    requires k < |rows| && HoldsFor(before, rows, Kept(a.globals + [k] + b, a.hosts + [k] + b))
    ensures var l := Returned(w, k);
            raised == l.raised && HoldsFor(held, rows, Plus(Plus(a, Of(k, l.global, l.host)), Both(b)))
  {
    held := before;
    ghost var l := Returned(w, k);
    assert a.globals + [] == a.globals && a.hosts + [] == a.hosts;
    if w.hostRelease(k).RaisedKept? { return held, true; }
    HostGiven(held, rows, a.globals + [k] + b, a.hosts, k, b);
    held := Give(held, rows[k].host);
    if w.hostRelease(k).RaisedGiven? { return held, true; }
    if w.globalRelease(k).RaisedKept? { return held, true; }
    held := held.(globals := held.globals - 1);
    raised := w.globalRelease(k).RaisedGiven?;
  }

  /** One row of the first loop, as the nested handlers run it. */
  method TryRow(rows: seq<Row>, w: World, i: nat, before: Held, ghost started: seq<nat>)
    returns (held: Held, attempt: Attempt)
    requires i < |rows| && HoldsFor(before, rows, Both(started))
    ensures attempt == Try(rows, w, i)
    ensures attempt.Passed? ==> HoldsFor(held, rows, Both(started))
    ensures attempt.Started? ==> HoldsFor(held, rows, Both(started + [i]))
    ensures attempt.Ended? ==> HoldsFor(held, rows, Plus(Both(started), Of(i, attempt.left.global, attempt.left.host)))
  {
    held, attempt := before, Passed;
    assert started + [] == started;
    if !rows[i].pending { return; }
    match w.globalAcquire(i) {
      case Denied => return held, Ended(Left(false, false, false));
      case RaisedFree => return held, Ended(Left(false, false, true));
      case _ =>
    }
    held := held.(globals := held.globals + 1);
    if w.globalAcquire(i).RaisedHeld? { return held, Ended(Left(true, false, true)); }
    match w.hostAcquire(i) {
      case Denied =>
        if !w.globalRelease(i).RaisedKept? { held := held.(globals := held.globals - 1); }
        return held, Ended(Left(w.globalRelease(i).RaisedKept?, false, !w.globalRelease(i).Given?));
      case RaisedFree => return held, Ended(Left(true, false, true));
      case _ =>
    }
    HostTaken(held, rows, Kept(started + [i], started), i);
    held := Take(held, rows[i].host);
    if w.hostAcquire(i).RaisedHeld? { return held, Ended(Left(true, true, true)); }
    if w.commitFails(i) {
      assert started + [i] + [] == started + [i];
      var raised;
      held, raised := GiveBack(rows, w, i, held, Both(started), []);
      PlusEmpty(Plus(Both(started), Of(i, Returned(w, i).global, Returned(w, i).host)));
      return held, Ended(Returned(w, i).(raised := true));
    }
    attempt := Started;
  }

  lemma PlusEmpty(a: Kept)
    ensures Plus(a, Both([])) == a && Plus(a, NOTHING) == a && Plus(NOTHING, a) == a
  {
  }

  function After(started: seq<nat>, b: Begun): Begun {
    b.(started := started + b.started)
  }

  lemma StartStep(rows: seq<Row>, w: World, i: nat, started: seq<nat>)
    requires i < |rows|
    ensures After(started, StartFrom(rows, w, i)) ==
            match Try(rows, w, i)
            case Passed => After(started, StartFrom(rows, w, i + 1))
            case Started => After(started + [i], StartFrom(rows, w, i + 1))
            case Ended(l) => Begun(started, Of(i, l.global, l.host), l.raised)
  {
    var rest := StartFrom(rows, w, i + 1).started;
    assert started + ([i] + rest) == (started + [i]) + rest;
    assert started + [] == started;
  }

  /** The first loop: takes permits row by row until a row ends it; whatever raises in it is
      swallowed by its outer handler. */
  method StartRows(rows: seq<Row>, w: World) returns (started: seq<nat>, held: Held, raised: bool)
    ensures var b := StartFrom(rows, w, 0);
            started == b.started && raised == b.raised && HoldsFor(held, rows, Plus(Both(started), b.left))
    ensures forall k :: k in started ==> k < |rows|
  {
    started, held, raised := [], Held(0, map[]), false;
    ghost var b := StartFrom(rows, w, 0);
    var i := 0;
    while i < |rows|
      invariant 0 <= i <= |rows| && !raised
      invariant HoldsFor(held, rows, Both(started))
      invariant b == After(started, StartFrom(rows, w, i))
      invariant forall k :: k in started ==> k < |rows|
    {
      var attempt;
      StartStep(rows, w, i, started);
      held, attempt := TryRow(rows, w, i, held, started);
      if attempt.Ended? { return started, held, attempt.left.raised; }
      if attempt.Started? { started := started + [i]; }
      i := i + 1;
    }
    PlusEmpty(Both(started));
    assert b == Begun(started, NOTHING, false);
  }

  lemma FinishStep(w: World, lost: Kept, started: seq<nat>, j: nat)
    requires j < |started|
    ensures var k, rest, l := started[j], started[j + 1..], Returned(w, started[j]);
            && Plus(lost, Both(started[j..])) == Kept(lost.globals + [k] + rest, lost.hosts + [k] + rest)
            && Plus(Plus(lost, Both([k])), Both(rest)) == Plus(lost, Both(started[j..]))
            && Plus(lost, Finish(w, started[j..])) ==
                 if w.readRaises(k) then Plus(lost, Both(started[j..]))
                 else if w.vanished(k) then Plus(Plus(lost, Both([k])), Finish(w, rest))
                 else Plus(Plus(lost, Of(k, l.global, l.host)), if w.raises(k) || l.raised then Both(rest) else Finish(w, rest))
  {
    var k, rest := started[j], started[j + 1..];
    assert started[j..] == [k] + rest && started[j..][1..] == rest;
    PlusAssociates(lost, Both([k]), Both(rest));
    PlusAssociates(lost, Both([k]), Finish(w, rest));
    var l := Returned(w, k);
    PlusAssociates(lost, Of(k, l.global, l.host), if w.raises(k) || l.raised then Both(rest) else Finish(w, rest));
  }

  lemma PlusAssociates(a: Kept, b: Kept, c: Kept)
    ensures Plus(Plus(a, b), c) == Plus(a, Plus(b, c))
  {
    assert a.globals + b.globals + c.globals == a.globals + (b.globals + c.globals);
    assert a.hosts + b.hosts + c.hosts == a.hosts + (b.hosts + c.hosts);
  }

  /** The second loop, over the started rows. */
  method FinishRows(rows: seq<Row>, w: World, started: seq<nat>, before: Held, ghost left: Kept) returns (held: Held)
    requires HoldsFor(before, rows, Plus(left, Both(started))) && forall k :: k in started ==> k < |rows|
    ensures HoldsFor(held, rows, Plus(left, Finish(w, started)))
  {
    held := before;
    ghost var lost := left;
    var j := 0;
    assert started[0..] == started;
    while j < |started|
      invariant 0 <= j <= |started|
      invariant HoldsFor(held, rows, Plus(lost, Both(started[j..])))
      invariant Plus(left, Finish(w, started)) == Plus(lost, Finish(w, started[j..]))
    {
      var k := started[j];
      assert k in started;
      FinishStep(w, lost, started, j);
      if w.readRaises(k) { return; }
      if w.vanished(k) {
        lost := Plus(lost, Both([k]));
      } else {
        var raised;
        held, raised := GiveBack(rows, w, k, held, lost, started[j + 1..]);
        lost := Plus(lost, Of(k, Returned(w, k).global, Returned(w, k).host));
        if w.raises(k) || raised { return; }
      }
      j := j + 1;
    }
    assert started[j..] == [];
  }

  lemma Swap(h: Held, rows: seq<Row>, a: Kept, b: Kept)
    requires HoldsFor(h, rows, Plus(a, b))
    ensures HoldsFor(h, rows, Plus(b, a))
  {
    forall host ensures CountOn(rows, a.hosts + b.hosts, host) == CountOn(rows, b.hosts + a.hosts, host) {
      CountConcat(rows, a.hosts, b.hosts, host);
      CountConcat(rows, b.hosts, a.hosts, host);
    }
  }

  /** Conservation of permits: what a dispatch still holds when it returns or raises, whichever
      call raised on the way, are exactly the permits of `DispatchKeeps`. */
  method Dispatch(rows: seq<Row>, w: World) returns (started: seq<nat>, held: Held)
    ensures started == StartFrom(rows, w, 0).started
    ensures HoldsFor(held, rows, DispatchKeeps(rows, w))
  {
    var raised;
    started, held, raised := StartRows(rows, w);
    ghost var left := StartFrom(rows, w, 0).left;
    Swap(held, rows, Both(started), left);
    if raised && w.rollbackRaises { return; }
    held := FinishRows(rows, w, started, held, left);
  }
}
