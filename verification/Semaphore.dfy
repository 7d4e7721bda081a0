/** The Redis counter semaphore that guards dispatch: acquire runs under a lock key,
    release is a bare decrement. Every Redis command is one atomic event, and the
    events of any number of processes interleave freely. */
module Semaphore {

  type Pid = nat

  /** Where a process is in its acquire/release cycle. */
  datatype Pc =
    | Idle             // outside
    | Locked           // SET NX on the lock key succeeded
    | HasRead(cur: int) // the counter has been read
    | Granted          // the counter has been written; the lock is still held
    | Denied           // the counter was at the limit; the lock is still held
    | Holding          // acquire has returned True
    | Dead             // the process has crashed

  /** The lock key, the counter key, and the processes that are not idle. */
  datatype State = State(lock: bool, counter: int, pcs: map<Pid, Pc>)

  datatype Event = SetNx(p: Pid) | Get(p: Pid) | Decide(p: Pid) | Del(p: Pid) | Decr(p: Pid) | Crash(p: Pid) | Expire

  function PcOf(s: State, p: Pid): Pc {
    if p in s.pcs then s.pcs[p] else Idle
  }

  /** The effect of one command; a process performs a command only where its code does. */
  function Next(limit: int, s: State, e: Event): State {
    match e
    case SetNx(p) =>
      if PcOf(s, p) == Idle && !s.lock then State(true, s.counter, s.pcs[p := Locked]) else s
    case Get(p) =>
      if PcOf(s, p) == Locked then s.(pcs := s.pcs[p := HasRead(s.counter)]) else s
    case Decide(p) =>
      var pc := PcOf(s, p);
      if !pc.HasRead? then s
      else if pc.cur < limit then State(s.lock, pc.cur + 1, s.pcs[p := Granted])
      else s.(pcs := s.pcs[p := Denied])
    case Del(p) =>
      if PcOf(s, p) == Granted then State(false, s.counter, s.pcs[p := Holding])
      else if PcOf(s, p) == Denied then State(false, s.counter, s.pcs[p := Idle])
      else s
    case Decr(p) =>
      if PcOf(s, p) == Holding then State(s.lock, s.counter - 1, s.pcs[p := Idle]) else s
    case Crash(p) => s.(pcs := s.pcs[p := Dead])
    case Expire => s.(lock := false)
  }

  function Run(limit: int, s: State, evs: seq<Event>): State {
    if evs == [] then s else Next(limit, Run(limit, s, evs[..|evs| - 1]), evs[|evs| - 1])
  }

  predicate OwnsPermit(pc: Pc) {
    pc == Granted || pc == Holding
  }

  predicate InSection(pc: Pc) {
    pc != Idle && pc != Holding && pc != Dead
  }

  /** The processes that own a permit. */
  function Holders(s: State): set<Pid> {
    set p | p in s.pcs && OwnsPermit(s.pcs[p])
  }

  /** The live processes between SET NX and DEL. */
  function Inside(s: State): set<Pid> {
    set p | p in s.pcs && InSection(s.pcs[p])
  }

  /** Mutual exclusion, and the counter over-approximates the holders: both the
      stored value and a value read by the process that is about to write it back. */
  ghost predicate Inv(limit: int, s: State) {
    && (Inside(s) != {} ==> s.lock)
    && |Inside(s)| <= 1
    && |Holders(s)| <= s.counter
    && (forall p :: p in s.pcs && s.pcs[p].HasRead? ==> |Holders(s)| <= s.pcs[p].cur)
    && |Holders(s)| <= limit
  }

  /** Expiry of the lock key while a live process is inside its critical section. The lock
      of a process that crashed inside may expire at any time. */
  ghost predicate ExpiresInside(s: State, e: Event) {
    e == Expire && Inside(s) != {}
  }

  /** How the two sets change when one process moves. */
  lemma Moves(s: State, s': State, p: Pid, pc: Pc)
    requires s'.pcs == s.pcs[p := pc]
    ensures Inside(s') == if InSection(pc) then Inside(s) + {p} else Inside(s) - {p}
    ensures Holders(s') == if OwnsPermit(pc) then Holders(s) + {p} else Holders(s) - {p}
    ensures p in Inside(s) <==> InSection(PcOf(s, p))
    ensures p in Holders(s) <==> OwnsPermit(PcOf(s, p))
    ensures |Holders(s')| == |Holders(s)| + (if OwnsPermit(pc) then 1 else 0) - (if p in Holders(s) then 1 else 0)
    ensures |Inside(s')| == |Inside(s)| + (if InSection(pc) then 1 else 0) - (if p in Inside(s) then 1 else 0)
  {
    InsideMoves(s, s', p, pc);
    HoldersMove(s, s', p, pc);
    CountMoves(Inside(s), p, InSection(pc));
    CountMoves(Holders(s), p, OwnsPermit(pc));
  }

  lemma InsideMoves(s: State, s': State, p: Pid, pc: Pc)
    requires s'.pcs == s.pcs[p := pc]
    ensures Inside(s') == if InSection(pc) then Inside(s) + {p} else Inside(s) - {p}
    ensures p in Inside(s) <==> InSection(PcOf(s, p))
  {
  }

  lemma HoldersMove(s: State, s': State, p: Pid, pc: Pc)
    requires s'.pcs == s.pcs[p := pc]
    ensures Holders(s') == if OwnsPermit(pc) then Holders(s) + {p} else Holders(s) - {p}
    ensures p in Holders(s) <==> OwnsPermit(PcOf(s, p))
  {
  }

  lemma CountMoves(s: set<Pid>, p: Pid, enters: bool)
    ensures |if enters then s + {p} else s - {p}| == |s| + (if enters then 1 else 0) - (if p in s then 1 else 0)
  {
    if p in s { assert s + {p} == s; }
  }

  /** Leaving or staying outside the section. */
  lemma OutsideKeeps(limit: int, s: State, s': State, p: Pid, pc: Pc)
    requires Inv(limit, s) && s'.pcs == s.pcs[p := pc] && !InSection(pc)
    requires s'.lock == s.lock || (InSection(PcOf(s, p)) && !s'.lock)
    requires OwnsPermit(pc) ==> OwnsPermit(PcOf(s, p))
    requires s'.counter == s.counter || (s'.counter == s.counter - 1 && OwnsPermit(PcOf(s, p)) && !OwnsPermit(pc))
    ensures Inv(limit, s')
  {
    Moves(s, s', p, pc);
    if InSection(PcOf(s, p)) { OnlyInside(s, p); }
    forall q | q in s'.pcs && s'.pcs[q].HasRead? ensures |Holders(s')| <= s'.pcs[q].cur {
      assert q in s.pcs;
    }
  }

  /** Entering the section, or moving inside it, without a permit. */
  lemma InsideKeeps(limit: int, s: State, s': State, p: Pid, pc: Pc)
    requires Inv(limit, s) && s'.pcs == s.pcs[p := pc] && InSection(pc) && !OwnsPermit(pc) && s'.lock
    requires s'.counter == s.counter && !OwnsPermit(PcOf(s, p)) && (pc.HasRead? ==> pc.cur == s.counter)
    requires !s.lock || InSection(PcOf(s, p))
    ensures Inv(limit, s')
  {
    Moves(s, s', p, pc);
    if s.lock { OnlyInside(s, p); }
    forall q | q in s'.pcs && s'.pcs[q].HasRead? ensures |Holders(s')| <= s'.pcs[q].cur {
      if q != p { assert q in Inside(s); }
    }
  }

  /** Writing the counter back: the only process inside takes a permit. */
  lemma GrantKeeps(limit: int, s: State, s': State, p: Pid, cur: int)
    requires Inv(limit, s) && PcOf(s, p) == HasRead(cur) && cur < limit
    requires s' == State(s.lock, cur + 1, s.pcs[p := Granted])
    ensures Inv(limit, s')
  {
    Moves(s, s', p, Granted);
    OnlyInside(s, p);
    assert forall q :: q in s.pcs && s.pcs[q].HasRead? ==> q in Inside(s);
  }

  lemma OnlyInside(s: State, p: Pid)
    requires |Inside(s)| <= 1 && InSection(PcOf(s, p))
    ensures Inside(s) == {p}
  {
    assert p in Inside(s);
    forall q | q in Inside(s) ensures q == p {
      if q != p { OneInside(s, p, q); }
    }
  }

  lemma NextKeepsInv(limit: int, s: State, e: Event)
    requires Inv(limit, s) && !ExpiresInside(s, e)
    ensures Inv(limit, Next(limit, s, e))
  {
    match e
    case SetNx(p) => SetNxKeeps(limit, s, p);
    case Get(p) => GetKeeps(limit, s, p);
    case Decide(p) => DecideKeeps(limit, s, p);
    case Del(p) => DelKeeps(limit, s, p);
    case Decr(p) => DecrKeeps(limit, s, p);
    case Crash(p) => OutsideKeeps(limit, s, Next(limit, s, e), p, Dead);
    case Expire => ExpireKeeps(limit, s);
  }

  lemma ExpireKeeps(limit: int, s: State)
    requires Inv(limit, s) && Inside(s) == {}
    ensures Inv(limit, Next(limit, s, Expire))
  {
    assert Inside(Next(limit, s, Expire)) == {} && Holders(Next(limit, s, Expire)) == Holders(s);
  }

  lemma SetNxKeeps(limit: int, s: State, p: Pid)
    requires Inv(limit, s)
    ensures Inv(limit, Next(limit, s, SetNx(p)))
  {
    if PcOf(s, p) == Idle && !s.lock { InsideKeeps(limit, s, Next(limit, s, SetNx(p)), p, Locked); }
  }

  lemma GetKeeps(limit: int, s: State, p: Pid)
    requires Inv(limit, s)
    ensures Inv(limit, Next(limit, s, Get(p)))
  {
    if PcOf(s, p) == Locked {
      OnlyInside(s, p);
      InsideKeeps(limit, s, Next(limit, s, Get(p)), p, HasRead(s.counter));
    }
  }

  lemma DecideKeeps(limit: int, s: State, p: Pid)
    requires Inv(limit, s)
    ensures Inv(limit, Next(limit, s, Decide(p)))
  {
    var pc := PcOf(s, p);
    if pc.HasRead? {
      OnlyInside(s, p);
      if pc.cur < limit {
        GrantKeeps(limit, s, Next(limit, s, Decide(p)), p, pc.cur);
      } else {
        InsideKeeps(limit, s, Next(limit, s, Decide(p)), p, Denied);
      }
    }
  }

  lemma DelKeeps(limit: int, s: State, p: Pid)
    requires Inv(limit, s)
    ensures Inv(limit, Next(limit, s, Del(p)))
  {
    if PcOf(s, p) == Granted {
      OutsideKeeps(limit, s, Next(limit, s, Del(p)), p, Holding);
    } else if PcOf(s, p) == Denied {
      OutsideKeeps(limit, s, Next(limit, s, Del(p)), p, Idle);
    }
  }

  lemma DecrKeeps(limit: int, s: State, p: Pid)
    requires Inv(limit, s)
    ensures Inv(limit, Next(limit, s, Decr(p)))
  {
    if PcOf(s, p) == Holding { OutsideKeeps(limit, s, Next(limit, s, Decr(p)), p, Idle); }
  }

  lemma OneInside(s: State, p: Pid, q: Pid)
    requires |Inside(s)| <= 1 && q in Inside(s) && p != q
    ensures p !in Inside(s)
  {
    assert |Inside(s) - {q}| == 0;
  }

  /** No event of the run expires the lock inside a critical section. */
  ghost predicate LockOutlives(limit: int, s: State, evs: seq<Event>) {
    evs == [] || (LockOutlives(limit, s, evs[..|evs| - 1])
                  && !ExpiresInside(Run(limit, s, evs[..|evs| - 1]), evs[|evs| - 1]))
  }

  function Start(counter: int): State {
    State(false, counter, map[])
  }

  lemma {:induction false} RunKeepsInv(limit: int, s: State, evs: seq<Event>)
    requires Inv(limit, s) && LockOutlives(limit, s, evs)
    ensures Inv(limit, Run(limit, s, evs))
  {
    if evs != [] {
      RunKeepsInv(limit, s, evs[..|evs| - 1]);
      NextKeepsInv(limit, Run(limit, s, evs[..|evs| - 1]), evs[|evs| - 1]);
    }
  }

  /** Under every interleaving of the commands and crashes of any number of processes, as
      long as the lock key does not expire while a live process is inside its critical
      section, the permits given out never exceed the limit, and the counter never falls
      below them, although release does not take the lock. */
  lemma NeverOverLimit(limit: nat, counter: nat, evs: seq<Event>)
    requires LockOutlives(limit, Start(counter), evs)
    ensures |Holders(Run(limit, Start(counter), evs))| <= limit
    ensures |Holders(Run(limit, Start(counter), evs))| <= Run(limit, Start(counter), evs).counter
  {
    assert Holders(Start(counter)) == {} && Inside(Start(counter)) == {};
    RunKeepsInv(limit, Start(counter), evs);
  }

  // ------------------------------------------------------------ the exact account

  /** The decrements since process p last read the counter. */
  function DecrsSinceGet(limit: int, s: State, evs: seq<Event>, p: Pid): nat
    decreases |evs|
  {
    if evs == [] then 0
    else
      var init, e := evs[..|evs| - 1], evs[|evs| - 1];
      var t := Run(limit, s, init);
      if e == Get(p) && PcOf(t, p) == Locked then 0
      else DecrsSinceGet(limit, s, init, p) + if e.Decr? && PcOf(t, e.p) == Holding then 1 else 0
  }

  /** The process that is about to be granted a permit by the event. */
  predicate Grants(limit: int, t: State, e: Event) {
    e.Decide? && PcOf(t, e.p).HasRead? && PcOf(t, e.p).cur < limit
  }

  /** The decrements that fell between a process's read and its granting write-back. */
  function Lost(limit: int, s: State, evs: seq<Event>): nat
    decreases |evs|
  {
    if evs == [] then 0
    else
      var init, e := evs[..|evs| - 1], evs[|evs| - 1];
      Lost(limit, s, init) +
      if Grants(limit, Run(limit, s, init), e) then DecrsSinceGet(limit, s, init, e.p) else 0
  }

  /** The permits whose owner crashed. */
  function Orphaned(limit: int, s: State, evs: seq<Event>): nat
    decreases |evs|
  {
    if evs == [] then 0
    else
      var init, e := evs[..|evs| - 1], evs[|evs| - 1];
      Orphaned(limit, s, init) +
      if e.Crash? && OwnsPermit(PcOf(Run(limit, s, init), e.p)) then 1 else 0
  }

  /** Every value read is off by exactly the decrements since. */
  ghost predicate ReadsExact(limit: int, s: State, evs: seq<Event>) {
    var t := Run(limit, s, evs);
    forall p :: p in t.pcs && t.pcs[p].HasRead? ==>
      t.pcs[p].cur == t.counter + DecrsSinceGet(limit, s, evs, p)
  }

  /** After a grant nobody else is inside, so nobody has a value read. */
  lemma NoReaderAfterGrant(limit: int, t: State, e: Event)
    requires Inv(limit, t) && Grants(limit, t, e)
    ensures forall p :: p in Next(limit, t, e).pcs ==> !Next(limit, t, e).pcs[p].HasRead?
  {
    OnlyInside(t, e.p);
    assert forall q :: q in t.pcs && t.pcs[q].HasRead? ==> q in Inside(t);
  }

  /** One event, seen from a process whose value is off by `n` decrements. */
  lemma ReadTurn(limit: int, t: State, e: Event, p: Pid, n: nat)
    requires p in t.pcs && t.pcs[p].HasRead? ==> t.pcs[p].cur == t.counter + n
    requires !Grants(limit, t, e) && p in Next(limit, t, e).pcs && Next(limit, t, e).pcs[p].HasRead?
    ensures Next(limit, t, e).pcs[p].cur ==
              Next(limit, t, e).counter +
              if e == Get(p) && PcOf(t, p) == Locked then 0
              else n + if e.Decr? && PcOf(t, e.p) == Holding then 1 else 0
  {
  }

  lemma DecrsStep(limit: int, s: State, init: seq<Event>, e: Event, p: Pid)
    ensures DecrsSinceGet(limit, s, init + [e], p) ==
              var t := Run(limit, s, init);
              if e == Get(p) && PcOf(t, p) == Locked then 0
              else DecrsSinceGet(limit, s, init, p) + if e.Decr? && PcOf(t, e.p) == Holding then 1 else 0
  {
    assert (init + [e])[..|init|] == init;
  }

  lemma ReadStaysExact(limit: int, s: State, init: seq<Event>, e: Event, p: Pid)
    requires ReadsExact(limit, s, init) && !Grants(limit, Run(limit, s, init), e)
    requires var t' := Next(limit, Run(limit, s, init), e); p in t'.pcs && t'.pcs[p].HasRead?
    ensures var t' := Next(limit, Run(limit, s, init), e);
            t'.pcs[p].cur == t'.counter + DecrsSinceGet(limit, s, init + [e], p)
  {
    DecrsStep(limit, s, init, e, p);
    ReadTurn(limit, Run(limit, s, init), e, p, DecrsSinceGet(limit, s, init, p));
  }

  lemma ReadsStayExact(limit: int, s: State, init: seq<Event>, e: Event)
    requires Inv(limit, Run(limit, s, init)) && ReadsExact(limit, s, init)
    ensures ReadsExact(limit, s, init + [e])
  {
    var t := Run(limit, s, init);
    assert (init + [e])[..|init|] == init && Run(limit, s, init + [e]) == Next(limit, t, e);
    if Grants(limit, t, e) {
      NoReaderAfterGrant(limit, t, e);
    } else {
      forall p | p in Next(limit, t, e).pcs && Next(limit, t, e).pcs[p].HasRead?
        ensures Next(limit, t, e).pcs[p].cur == Next(limit, t, e).counter + DecrsSinceGet(limit, s, init + [e], p)
      {
        ReadStaysExact(limit, s, init, e, p);
      }
    }
  }

  /** How a move of one process changes the number of holders. */
  lemma HolderCount(s: State, s': State, p: Pid, pc: Pc)
    requires s'.pcs == s.pcs[p := pc]
    ensures |Holders(s')| == |Holders(s)| + (if OwnsPermit(pc) then 1 else 0) - (if OwnsPermit(PcOf(s, p)) then 1 else 0)
  {
    HoldersMove(s, s', p, pc);
    CountMoves(Holders(s), p, OwnsPermit(pc));
  }

  /** The counter minus the holders changes only by a grant after lost decrements, and by the
      crash of an owner. */
  lemma EventAccount(limit: int, t: State, e: Event)
    ensures var t' := Next(limit, t, e);
            (t'.counter - |Holders(t')|) - (t.counter - |Holders(t)|) ==
              (if Grants(limit, t, e) then PcOf(t, e.p).cur - t.counter else 0) +
              (if e.Crash? && OwnsPermit(PcOf(t, e.p)) then 1 else 0)
  {
    var t' := Next(limit, t, e);
    match e
    case SetNx(p) => if t' != t { HolderCount(t, t', p, Locked); }
    case Get(p) => if t' != t { HolderCount(t, t', p, HasRead(t.counter)); }
    case Decide(p) => if PcOf(t, p).HasRead? { HolderCount(t, t', p, if Grants(limit, t, e) then Granted else Denied); }
    case Del(p) => if PcOf(t, p) == Granted { HolderCount(t, t', p, Holding); }
                   else if PcOf(t, p) == Denied { HolderCount(t, t', p, Idle); }
    case Decr(p) => if PcOf(t, p) == Holding { HolderCount(t, t', p, Idle); }
    case Crash(p) => HolderCount(t, t', p, Dead);
    case Expire => assert Holders(t') == Holders(t);
  }

  /** The account of every run whose lock outlives its sections: the counter is the number
      of holders, plus the decrements lost, plus the permits of crashed owners. */
  lemma {:induction false} CounterAccount(limit: nat, evs: seq<Event>)
    requires LockOutlives(limit, Start(0), evs)
    ensures ReadsExact(limit, Start(0), evs)
    ensures var t := Run(limit, Start(0), evs);
            t.counter == |Holders(t)| + Lost(limit, Start(0), evs) + Orphaned(limit, Start(0), evs)
    decreases |evs|
  {
    assert Holders(Start(0)) == {} && Inside(Start(0)) == {};
    if evs != [] {
      var init, e := evs[..|evs| - 1], evs[|evs| - 1];
      CounterAccount(limit, init);
      RunKeepsInv(limit, Start(0), init);
      ReadsStayExact(limit, Start(0), init, e);
      EventAccount(limit, Run(limit, Start(0), init), e);
      assert init + [e] == evs;
    }
  }

  /** The counter equals the holders exactly when no decrement was lost and no owner crashed. */
  lemma CounterExactIff(limit: nat, evs: seq<Event>)
    requires LockOutlives(limit, Start(0), evs)
    ensures var t := Run(limit, Start(0), evs);
            t.counter == |Holders(t)| <==> Lost(limit, Start(0), evs) == 0 && Orphaned(limit, Start(0), evs) == 0
  {
    CounterAccount(limit, evs);
  }

  // ------------------------------------------------------------ availability

  /** Lost decrements leave at least one permit, as long as no owner crashed. */
  lemma {:induction false} LostBelowLimit(limit: nat, evs: seq<Event>)
    requires limit > 0 && LockOutlives(limit, Start(0), evs)
    ensures Lost(limit, Start(0), evs) + Orphaned(limit, Start(0), evs) < limit
            || Orphaned(limit, Start(0), evs) > 0
    decreases |evs|
  {
    if evs != [] && Orphaned(limit, Start(0), evs) == 0 {
      var init, e := evs[..|evs| - 1], evs[|evs| - 1];
      LostBelowLimit(limit, init);
      CounterAccount(limit, init);
      CounterAccount(limit, evs);
      RunKeepsInv(limit, Start(0), init);
      var t := Run(limit, Start(0), init);
      if Grants(limit, t, e) { Moves(t, Next(limit, t, e), e.p, Granted); }
    }
  }

  /** An uninterrupted acquire. */
  function Acquire(p: Pid): seq<Event> {
    [SetNx(p), Get(p), Decide(p), Del(p)]
  }

  lemma AcquireOutcome(limit: int, s: State, p: Pid)
    requires PcOf(s, p) == Idle
    ensures var s' := Run(limit, s, Acquire(p));
            && (PcOf(s', p) == Holding <==> !s.lock && s.counter < limit)
            && s'.counter == (if PcOf(s', p) == Holding then s.counter + 1 else s.counter)
            && s'.lock == s.lock
            && (PcOf(s', p) != Holding ==> PcOf(s', p) == Idle)
            && (forall q :: q != p ==> PcOf(s', q) == PcOf(s, q))
  {
    UnrollAcquire(limit, s, p);
  }

  /** With nobody inside, nobody holding and the lock free, the next acquire succeeds if and
      only if the permits lost to decrements and crashes leave one. */
  lemma IdleAcquireIff(limit: nat, evs: seq<Event>, p: Pid)
    requires LockOutlives(limit, Start(0), evs)
    requires var s := Run(limit, Start(0), evs);
             Holders(s) == {} && !s.lock && PcOf(s, p) == Idle
    ensures PcOf(Run(limit, Run(limit, Start(0), evs), Acquire(p)), p) == Holding <==>
              Lost(limit, Start(0), evs) + Orphaned(limit, Start(0), evs) < limit
  {
    CounterAccount(limit, evs);
    AcquireOutcome(limit, Run(limit, Start(0), evs), p);
  }

  /** So without a crashed owner it always succeeds: lost decrements alone never close
      the semaphore. */
  lemma IdleMeansAvailable(limit: nat, evs: seq<Event>, p: Pid)
    requires limit > 0 && LockOutlives(limit, Start(0), evs) && Orphaned(limit, Start(0), evs) == 0
    requires var s := Run(limit, Start(0), evs);
             Holders(s) == {} && !s.lock && PcOf(s, p) == Idle
    ensures PcOf(Run(limit, Run(limit, Start(0), evs), Acquire(p)), p) == Holding
  {
    LostBelowLimit(limit, evs);
    IdleAcquireIff(limit, evs, p);
  }

  // ------------------------------------------------------------ what the conditions are for

  /** With the lock expiring inside a critical section two processes hold the one permit. */
  lemma ExpiryBreaksLimit(p: Pid, q: Pid) returns (evs: seq<Event>)
    requires p != q
    ensures Holders(Run(1, Start(0), evs)) == {p, q} && |Holders(Run(1, Start(0), evs))| > 1
  {
    evs := [SetNx(p), Get(p), Expire, SetNx(q), Get(q), Decide(q), Del(q), Decide(p), Del(p)];
    var x: map<Pid, Pc> := map[p := HasRead(0)];
    var st := [Start(0), State(true, 0, map[p := Locked]), State(true, 0, x), State(false, 0, x),
               State(true, 0, x[q := Locked]), State(true, 0, x[q := HasRead(0)]), State(true, 1, x[q := Granted]),
               State(false, 1, x[q := Holding]), State(false, 1, map[p := Granted, q := Holding]),
               State(false, 1, map[p := Holding, q := Holding])];
    assert st[1].pcs == st[0].pcs[p := Locked] && st[8].pcs == st[7].pcs[p := Granted];
    assert st[9].pcs == st[8].pcs[p := Holding];
    RunSnoc(1, Start(0), evs, 9, st);
    assert evs[..9] == evs;
    BothHold(st[9], p, q);
  }

  lemma BothHold(s: State, p: Pid, q: Pid)
    requires p != q && s.pcs == map[p := Holding, q := Holding]
    ensures Holders(s) == {p, q} && |Holders(s)| == 2
  {
    assert p in Holders(s) && q in Holders(s);
  }

  /** A decrement between another process's read and write is lost: nobody holds a
      permit, yet the counter stays above zero. */
  lemma LostDecrement(p: Pid, q: Pid) returns (evs: seq<Event>)
    requires p != q
    ensures LockOutlives(2, Start(0), evs)
    ensures Holders(Run(2, Start(0), evs)) == {} && Run(2, Start(0), evs).counter == 1
  {
    evs := [SetNx(p), Get(p), Decide(p), Del(p), SetNx(q), Get(q), Decr(p), Decide(q), Del(q), Decr(q)];
    var h: map<Pid, Pc>, i: map<Pid, Pc> := map[p := Holding], map[p := Idle];
    var st := [Start(0), State(true, 0, map[p := Locked]), State(true, 0, map[p := HasRead(0)]),
               State(true, 1, map[p := Granted]), State(false, 1, h), State(true, 1, h[q := Locked]),
               State(true, 1, h[q := HasRead(1)]), State(true, 0, i[q := HasRead(1)]), State(true, 2, i[q := Granted]),
               State(false, 2, i[q := Holding]), State(false, 1, i[q := Idle])];
    assert st[1].pcs == st[0].pcs[p := Locked] && st[7].pcs == st[6].pcs[p := Idle];
    RunSnoc(2, Start(0), evs, 10, st);
    NoExpiryOutlives(2, Start(0), evs);
    assert evs[..10] == evs;
    NoneHold(st[10], p, q);
  }

  lemma NoneHold(s: State, p: Pid, q: Pid)
    requires s.pcs == map[p := Idle][q := Idle]
    ensures Holders(s) == {}
  {
  }

  /** A run spelled out state by state. */
  lemma {:induction false} RunSnoc(limit: int, s: State, e: seq<Event>, n: nat, states: seq<State>)
    requires n <= |e| && |states| == |e| + 1 && states[0] == s
    requires forall i :: 0 <= i < |e| ==> states[i + 1] == Next(limit, states[i], e[i])
    ensures Run(limit, s, e[..n]) == states[n]
  {
    if n > 0 {
      RunSnoc(limit, s, e, n - 1, states);
      assert e[..n][..n - 1] == e[..n - 1];
    }
  }

  lemma {:induction false} NoExpiryOutlives(limit: int, s: State, e: seq<Event>)
    requires forall i :: 0 <= i < |e| ==> !e[i].Expire?
    ensures LockOutlives(limit, s, e)
  {
    if e != [] {
      NoExpiryOutlives(limit, s, e[..|e| - 1]);
    }
  }

  // ------------------------------------------------------------ the helper's code

  /** One semaphore key on a Redis server, as the helper's code drives it without interference. */
  class Client {
    var s: State

    constructor (counter: int)
      ensures s == Start(counter)
    {
      s := Start(counter);
    }

    /** `acquire_semaphore`: SET NX, GET, perhaps SET, and DEL in the `finally`. */
    method AcquireSemaphore(p: Pid, limit: int) returns (ok: bool)
      requires PcOf(s, p) == Idle
      modifies this
      ensures s == Run(limit, old(s), Acquire(p))
      ensures ok <==> PcOf(s, p) == Holding
      ensures ok <==> !old(s).lock && old(s).counter < limit
    {
      AcquireOutcome(limit, s, p);
      UnrollAcquire(limit, s, p);
      var acquired := !s.lock;
      if !acquired {
        return false;
      }
      s := State(true, s.counter, s.pcs[p := Locked]);
      var cur := s.counter;
      s := s.(pcs := s.pcs[p := HasRead(cur)]);
      if cur < limit {
        s := State(s.lock, cur + 1, s.pcs[p := Granted]);
        ok := true;
      } else {
        s := s.(pcs := s.pcs[p := Denied]);
        ok := false;
      }
      s := State(false, s.counter, s.pcs[p := if ok then Holding else Idle]);
    }

    /** `release_semaphore`: a bare DECR. */
    method ReleaseSemaphore(p: Pid)
      requires PcOf(s, p) == Holding
      modifies this
      ensures s == Run(0, old(s), [Decr(p)])
    {
      assert [Decr(p)][..0] == [] && Run(0, s, []) == s;
      s := State(s.lock, s.counter - 1, s.pcs[p := Idle]);
    }
  }

  lemma UnrollAcquire(limit: int, s: State, p: Pid)
    ensures Run(limit, s, Acquire(p)) ==
            Next(limit, Next(limit, Next(limit, Next(limit, s, SetNx(p)), Get(p)), Decide(p)), Del(p))
  {
    var a := Acquire(p);
    var s1 := Next(limit, s, SetNx(p));
    var s2 := Next(limit, s1, Get(p));
    var s3 := Next(limit, s2, Decide(p));
    RunSnoc(limit, s, a, 4, [s, s1, s2, s3, Next(limit, s3, Del(p))]);
    assert a[..4] == a;
  }
}
