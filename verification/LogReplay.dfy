/** The realtime log client: WebSocket frames may be lost, duplicated or reordered,
    any number of REST backfills may be in flight, and all of them share one cursor. */
module LogReplay {

  const PAGE_SIZE: nat := 500

  datatype Entry = Entry(seqNo: int, text: string)

  /** The server appends entries in strictly increasing sequence number. */
  ghost predicate Increasing(log: seq<Entry>) {
    forall i, j :: 0 <= i < j < |log| ==> log[i].seqNo < log[j].seqNo
  }

  // ------------------------------------------------------------ the server

  /** `after_seq`: the first `size` committed rows past the cursor, in order. */
  function Page(rows: seq<Entry>, after: int, size: nat): seq<Entry> {
    if rows == [] || size == 0 then []
    else if rows[0].seqNo > after then [rows[0]] + Page(rows[1..], after, size - 1)
    else Page(rows[1..], after, size)
  }

  /** How many entries of the (increasing) log have a sequence number of at most `n`. */
  ghost function Rank(log: seq<Entry>, n: int): (r: nat)
    ensures r <= |log|
  {
    if log == [] || log[0].seqNo > n then 0 else 1 + Rank(log[1..], n)
  }

  lemma {:induction false} RankSplits(log: seq<Entry>, n: int)
    requires Increasing(log)
    ensures forall i :: 0 <= i < |log| ==> (log[i].seqNo <= n <==> i < Rank(log, n))
    decreases |log|
  {
    if log != [] {
      var rest := log[1..];
      RankSplits(rest, n);
      forall i | 0 <= i < |log| ensures log[i].seqNo <= n <==> i < Rank(log, n) {
        if i > 0 { assert rest[i - 1] == log[i]; }
      }
    }
  }

  lemma RankIs(log: seq<Entry>, n: int, r: nat)
    requires Increasing(log) && r <= |log|
    requires (r > 0 ==> log[r - 1].seqNo <= n) && (r < |log| ==> log[r].seqNo > n)
    ensures Rank(log, n) == r
  {
    RankSplits(log, n);
  }

  lemma RankMonotone(log: seq<Entry>, n: int, m: int)
    requires Increasing(log) && n <= m
    ensures Rank(log, n) <= Rank(log, m)
  {
    RankSplits(log, n);
    RankSplits(log, m);
  }

  function Min(a: int, b: int): int {
    if a < b then a else b
  }

  lemma RankOfRest(rows: seq<Entry>, after: int)
    requires Increasing(rows) && rows != []
    ensures Increasing(rows[1..])
    ensures rows[0].seqNo > after ==> Rank(rows[1..], after) == 0
  {
    if |rows| > 1 { assert rows[1..][0] == rows[1]; }
  }

  /** A page is a contiguous piece of the log that begins right after the cursor. */
  lemma {:induction false} PageIsSlice(rows: seq<Entry>, after: int, size: nat)
    requires Increasing(rows)
    ensures Page(rows, after, size) == rows[Rank(rows, after)..Min(|rows|, Rank(rows, after) + size)]
    decreases |rows|
  {
    if rows != [] && size > 0 {
      RankOfRest(rows, after);
      var rest := rows[1..];
      var r := Rank(rest, after);
      if rows[0].seqNo <= after {
        PageIsSlice(rest, after, size);
        PageSkips(rows, after, size, r, Min(|rest|, r + size));
      } else {
        PageIsSlice(rest, after, size - 1);
        PageTakes(rows, after, size, Min(|rest|, size - 1));
      }
    }
  }

  lemma PageSkips(rows: seq<Entry>, after: int, size: nat, i: nat, j: nat)
    requires rows != [] && rows[0].seqNo <= after && size > 0 && i <= j < |rows|
    requires Page(rows[1..], after, size) == rows[1..][i..j]
    ensures Page(rows, after, size) == rows[i + 1..j + 1]
  {
    SliceOfRest(rows, i, j);
  }

  lemma PageTakes(rows: seq<Entry>, after: int, size: nat, j: nat)
    requires rows != [] && rows[0].seqNo > after && size > 0 && j < |rows|
    requires Page(rows[1..], after, size - 1) == rows[1..][0..j]
    ensures Page(rows, after, size) == rows[0..j + 1]
  {
    SliceOfRest(rows, 0, j);
  }

  lemma SliceOfRest(rows: seq<Entry>, i: nat, j: nat)
    requires rows != [] && i <= j < |rows|
    ensures rows[1..][i..j] == rows[i + 1..j + 1]
    ensures i == 0 ==> [rows[0]] + rows[1..][i..j] == rows[0..j + 1]
  {
  }

  lemma SliceOfPrefix(log: seq<Entry>, c: nat, i: nat, j: nat)
    requires i <= j <= c <= |log|
    ensures log[..c][i..j] == log[i..j]
  {
  }

  /** What the REST endpoint sees of the log: a committed prefix. */
  lemma CommittedPage(log: seq<Entry>, c: nat, after: int)
    requires Increasing(log) && c <= |log|
    ensures var i := Rank(log, after);
            i <= |log| && Page(log[..c], after, PAGE_SIZE) == if c <= i then [] else log[i..Min(c, i + PAGE_SIZE)]
  {
    RankSplits(log, after);
    PageIsSlice(log[..c], after, PAGE_SIZE);
    var i := Rank(log, after);
    if c <= i {
      RankIs(log[..c], after, c);
    } else {
      RankIs(log[..c], after, i);
      SliceOfPrefix(log, c, i, Min(c, i + PAGE_SIZE));
    }
  }

  // ------------------------------------------------------------ the client

  /** `appendBatch`: entries at or below the cursor are dropped. */
  function Append(lines: seq<Entry>, lastSeq: int, batch: seq<Entry>): (seq<Entry>, int)
    decreases batch
  {
    if batch == [] then (lines, lastSeq)
    else if batch[0].seqNo > lastSeq then Append(lines + [batch[0]], batch[0].seqNo, batch[1..])
    else Append(lines, lastSeq, batch[1..])
  }

  /** One iteration of a backfill: the request is out, or the answer is on its way. */
  datatype Backfill =
    | Asked(after: int)
    | Answered(after: int, page: seq<Entry>, seen: nat)

  /** `committed` counts the log entries the REST endpoint can see; `next` is a fresh backfill id. */
  datatype System = System(committed: nat, lines: seq<Entry>, lastSeq: int, flights: map<nat, Backfill>, next: nat)

  datatype Event =
    | Commit(upto: nat)     // the server commits a longer prefix
    | Frame(i: nat)         // the frame of log entry i arrives, in any order, any number of times
    | Ask                   // connect() starts a backfill
    | Serve(b: nat)         // the server answers a request
    | Receive(b: nat)       // the answer reaches the client
    | Drop(b: nat)          // the request fails

  function Launch(s: System): System {
    s.(flights := s.flights[s.next := Asked(s.lastSeq)], next := s.next + 1)
  }

  /** The `log` branch of `onmessage`. */
  function OnFrame(s: System, e: Entry): System {
    if e.seqNo <= s.lastSeq then s
    else if e.seqNo == s.lastSeq + 1 then s.(lines := s.lines + [e], lastSeq := e.seqNo)
    else Launch(s)
  }

  /** The rest of a `backfill` iteration once its page is there; `next_seq` is the
      cursor of the request plus the number of rows. */
  function OnPage(s: System, b: nat, after: int, page: seq<Entry>): System {
    var (lines, last) := Append(s.lines, s.lastSeq, page);
    var nextSeq := after + |page|;
    if page == [] || nextSeq <= after
    then s.(lines := lines, lastSeq := last, flights := s.flights - {b})
    else s.(lines := lines, lastSeq := last, flights := s.flights[b := Asked(last)])
  }

  function Next(log: seq<Entry>, s: System, e: Event): System {
    match e
    case Commit(c) => if s.committed <= c <= |log| then s.(committed := c) else s
    case Frame(i) => if i < |log| then OnFrame(s, log[i]) else s
    case Ask => Launch(s)
    case Serve(b) =>
      if b in s.flights && s.flights[b].Asked? && s.committed <= |log| then
        var after := s.flights[b].after;
        s.(flights := s.flights[b := Answered(after, Page(log[..s.committed], after, PAGE_SIZE), s.committed)])
      else s
    case Receive(b) =>
      if b in s.flights && s.flights[b].Answered? then OnPage(s, b, s.flights[b].after, s.flights[b].page) else s
    case Drop(b) => s.(flights := s.flights - {b})
  }

  function Start(): System {
    System(0, [], 0, map[], 0)
  }

  function Run(log: seq<Entry>, s: System, evs: seq<Event>): System {
    if evs == [] then s else Next(log, Run(log, s, evs[..|evs| - 1]), evs[|evs| - 1])
  }

  // ------------------------------------------------------------ the invariant

  /** The part of the log a client with this cursor should show. */
  ghost function Shown(log: seq<Entry>, lastSeq: int): seq<Entry>
    requires Increasing(log) && lastSeq >= 0
  {
    RankMonotone(log, 0, lastSeq);
    log[Rank(log, 0)..Rank(log, lastSeq)]
  }

  ghost predicate FlightOk(log: seq<Entry>, s: System, b: nat)
    requires b in s.flights
  {
    && b < s.next && 0 <= s.flights[b].after <= s.lastSeq
    && (s.flights[b].Answered? ==>
          s.flights[b].seen <= s.committed <= |log|
          && s.flights[b].page == Page(log[..s.flights[b].seen], s.flights[b].after, PAGE_SIZE))
  }

  ghost predicate Inv(log: seq<Entry>, s: System)
    requires Increasing(log)
  {
    && s.committed <= |log| && s.lastSeq >= 0
    && s.lines == Shown(log, s.lastSeq)
    && forall b :: b in s.flights ==> FlightOk(log, s, b)
  }

  /** Appending a piece of the log that does not begin past the cursor. */
  lemma {:induction false} AppendSlice(log: seq<Entry>, lines: seq<Entry>, lastSeq: int, i: nat, j: nat)
    requires Increasing(log) && lastSeq >= 0 && i <= j <= |log| && i <= Rank(log, lastSeq)
    requires lines == Shown(log, lastSeq)
    ensures var r := Append(lines, lastSeq, log[i..j]);
            r.1 >= lastSeq && r.0 == Shown(log, r.1) && (i < j ==> r.1 >= log[j - 1].seqNo)
            && j <= Rank(log, r.1)
    decreases j - i
  {
    RankSplits(log, lastSeq);
    RankSplits(log, 0);
    if i < j {
      var e := log[i];
      assert log[i..j][0] == e && log[i..j][1..] == log[i + 1..j];
      if e.seqNo > lastSeq {
        assert i == Rank(log, lastSeq);
        RankIs(log, e.seqNo, i + 1);
        RankMonotone(log, 0, lastSeq);
        assert lines + [e] == Shown(log, e.seqNo);
        AppendSlice(log, lines + [e], e.seqNo, i + 1, j);
      } else {
        AppendSlice(log, lines, lastSeq, i + 1, j);
      }
    } else {
      assert log[i..j] == [];
    }
  }

  /** The only entry that can follow the cursor directly is the next one of the log. */
  lemma NextEntry(log: seq<Entry>, lastSeq: int, i: nat)
    requires Increasing(log) && lastSeq >= 0 && i < |log| && log[i].seqNo == lastSeq + 1
    ensures Shown(log, lastSeq + 1) == Shown(log, lastSeq) + [log[i]]
  {
    RankIs(log, lastSeq, i);
    RankIs(log, lastSeq + 1, i + 1);
    RankMonotone(log, 0, lastSeq);
  }

  lemma FrameKeepsInv(log: seq<Entry>, s: System, i: nat)
    requires Increasing(log) && Inv(log, s) && i < |log|
    ensures Inv(log, OnFrame(s, log[i]))
  {
    var e := log[i];
    if e.seqNo == s.lastSeq + 1 {
      NextEntry(log, s.lastSeq, i);
      var s' := OnFrame(s, e);
      forall b | b in s'.flights ensures FlightOk(log, s', b) {
        assert FlightOk(log, s, b);
      }
    } else if e.seqNo > s.lastSeq {
      LaunchKeepsInv(log, s);
    }
  }

  lemma LaunchKeepsInv(log: seq<Entry>, s: System)
    requires Increasing(log) && Inv(log, s)
    ensures Inv(log, Launch(s))
  {
    var s' := Launch(s);
    forall b | b in s'.flights ensures FlightOk(log, s', b) {
      if b != s.next {
        assert FlightOk(log, s, b);
      }
    }
  }

  /** What a received page does: the cursor does not fall, the lines stay exact, an
      iteration that continues has moved the cursor, and one that ends has caught up
      with everything committed when its last page was served. */
  lemma PageEffect(log: seq<Entry>, s: System, b: nat)
    requires Increasing(log) && Inv(log, s) && b in s.flights && s.flights[b].Answered?
    ensures var f := s.flights[b];
            var s' := OnPage(s, b, f.after, f.page);
            && s'.lastSeq >= s.lastSeq && s'.lines == Shown(log, s'.lastSeq)
            && (b in s'.flights ==> s'.flights[b] == Asked(s'.lastSeq) && Rank(log, f.after) < Rank(log, s'.lastSeq))
            && (b !in s'.flights ==> f.seen <= Rank(log, s'.lastSeq))
  {
    var f := s.flights[b];
    assert FlightOk(log, s, b);
    CommittedPage(log, f.seen, f.after);
    RankMonotone(log, f.after, s.lastSeq);
    var i := Rank(log, f.after);
    if f.page == [] {
      RankSplits(log, s.lastSeq);
    } else {
      AppendSlice(log, s.lines, s.lastSeq, i, Min(f.seen, i + PAGE_SIZE));
    }
  }

  lemma ReceiveKeepsInv(log: seq<Entry>, s: System, b: nat)
    requires Increasing(log) && Inv(log, s) && b in s.flights && s.flights[b].Answered?
    ensures Inv(log, OnPage(s, b, s.flights[b].after, s.flights[b].page))
  {
    PageEffect(log, s, b);
    var s' := OnPage(s, b, s.flights[b].after, s.flights[b].page);
    assert FlightOk(log, s, b);
    forall d | d in s'.flights ensures FlightOk(log, s', d) {
      assert FlightOk(log, s, d);
    }
  }

  lemma NextKeepsInv(log: seq<Entry>, s: System, e: Event)
    requires Increasing(log) && Inv(log, s)
    ensures Inv(log, Next(log, s, e)) && Next(log, s, e).lastSeq >= s.lastSeq && Next(log, s, e).next >= s.next
  {
    var s' := Next(log, s, e);
    match e
    case Frame(i) =>
      if i < |log| { FrameKeepsInv(log, s, i); }
    case Ask => LaunchKeepsInv(log, s);
    case Receive(b) =>
      if b in s.flights && s.flights[b].Answered? {
        PageEffect(log, s, b);
        ReceiveKeepsInv(log, s, b);
      }
    case _ =>
      forall b | b in s'.flights ensures FlightOk(log, s', b) {
        assert FlightOk(log, s, b);
      }
  }

  lemma {:induction false} RunKeepsInv(log: seq<Entry>, s: System, evs: seq<Event>)
    requires Increasing(log) && Inv(log, s)
    ensures Inv(log, Run(log, s, evs)) && Run(log, s, evs).lastSeq >= s.lastSeq && Run(log, s, evs).next >= s.next
  {
    if evs != [] {
      RunKeepsInv(log, s, evs[..|evs| - 1]);
      NextKeepsInv(log, Run(log, s, evs[..|evs| - 1]), evs[|evs| - 1]);
    }
  }

  lemma StartOk(log: seq<Entry>)
    requires Increasing(log)
    ensures Inv(log, Start())
  {
    RankSplits(log, 0);
  }

  /** Whatever is lost, duplicated or reordered and however many backfills overlap, the
      client shows exactly the entries up to its cursor, in order and once each. */
  lemma LinesAreExact(log: seq<Entry>, evs: seq<Event>)
    requires Increasing(log)
    ensures var s := Run(log, Start(), evs);
            && (forall e :: e in s.lines <==> e in log && 0 < e.seqNo <= s.lastSeq)
            && Increasing(s.lines)
  {
    StartOk(log);
    RunKeepsInv(log, Start(), evs);
    var s := Run(log, Start(), evs);
    RankMonotone(log, 0, s.lastSeq);
    RankSplits(log, 0);
    RankSplits(log, s.lastSeq);
    SliceExact(log, s.lines, Rank(log, 0), Rank(log, s.lastSeq), s.lastSeq);
  }

  /** The entries between two ranks are the ones with numbers in between. */
  lemma SliceExact(log: seq<Entry>, lines: seq<Entry>, lo: nat, hi: nat, last: int)
    requires Increasing(log) && lo <= hi <= |log| && lines == log[lo..hi]
    requires forall i :: 0 <= i < |log| ==> (log[i].seqNo <= 0 <==> i < lo)
    requires forall i :: 0 <= i < |log| ==> (log[i].seqNo <= last <==> i < hi)
    ensures forall e :: e in lines <==> e in log && 0 < e.seqNo <= last
    ensures Increasing(lines)
  {
    assert forall i :: 0 <= i < |lines| ==> lines[i] == log[lo + i];
    forall e | e in lines ensures e in log && 0 < e.seqNo <= last {
      var i :| 0 <= i < |lines| && lines[i] == e;
    }
    forall e | e in log && 0 < e.seqNo <= last ensures e in lines {
      var i :| 0 <= i < |log| && log[i] == e;
      assert e == lines[i - lo];
    }
  }

  /** When a backfill ends on an answer, everything committed by the time that answer
      was served is on screen. */
  lemma EndedBackfillCaughtUp(log: seq<Entry>, evs: seq<Event>, b: nat)
    requires Increasing(log)
    requires var s := Run(log, Start(), evs);
             b in s.flights && s.flights[b].Answered? && b !in Next(log, s, Receive(b)).flights
    ensures var s := Run(log, Start(), evs);
            var s' := Next(log, s, Receive(b));
            s.flights[b].seen <= |log|
            && forall i :: 0 <= i < s.flights[b].seen && log[i].seqNo > 0 ==> log[i] in s'.lines
  {
    StartOk(log);
    RunKeepsInv(log, Start(), evs);
    var s := Run(log, Start(), evs);
    var s' := Next(log, s, Receive(b));
    PageEffect(log, s, b);
    assert FlightOk(log, s, b);
    RankSplits(log, 0);
    RankSplits(log, s'.lastSeq);
    forall i | 0 <= i < s.flights[b].seen && log[i].seqNo > 0 ensures log[i] in s'.lines {
      assert log[i] == s'.lines[i - Rank(log, 0)];
    }
  }

  // ------------------------------------------------------------ every frame counts

  /**
   * In every reachable state a frame either is on screen afterwards, or has asked for a backfill
   * from the cursor: the entry right after the cursor is shown at once, a later one opens a gap,
   * an earlier one changes nothing.
   */
  lemma EveryFrameCounts(log: seq<Entry>, evs: seq<Event>, i: nat)
    requires Increasing(log) && i < |log|
    ensures var s := Run(log, Start(), evs);
            var s' := Next(log, s, Frame(i));
            && (0 < log[i].seqNo <= s.lastSeq + 1 <==> log[i] in s'.lines)
            && (log[i].seqNo == s.lastSeq + 1 ==> s'.lines == s.lines + [log[i]] && s'.lastSeq == log[i].seqNo)
            && (log[i].seqNo > s.lastSeq + 1 <==> s'.flights != s.flights)
            && (log[i].seqNo > s.lastSeq + 1 ==>
                  s.next !in s.flights && s'.flights == s.flights[s.next := Asked(s.lastSeq)] && s'.lines == s.lines)
            && (log[i].seqNo <= s.lastSeq ==> s' == s)
  {
    StartOk(log);
    RunKeepsInv(log, Start(), evs);
    var s := Run(log, Start(), evs);
    forall b | b in s.flights ensures b < s.next { assert FlightOk(log, s, b); }
    assert s.next !in s.flights && s.flights[s.next := Asked(s.lastSeq)] != s.flights;
    LinesAreExact(log, evs);
    var more := evs + [Frame(i)];
    assert more[..|evs|] == evs;
    LinesAreExact(log, more);
  }

  /** The frames of the first `n` entries, each once and in order. */
  function InOrder(n: nat): seq<Event> {
    if n == 0 then [] else InOrder(n - 1) + [Frame(n - 1)]
  }

  /** Over a log numbered from 1 without gaps, frames that arrive in order show it line by line,
      and never ask for a backfill. */
  lemma {:induction false} LiveTail(log: seq<Entry>, n: nat)
    requires n <= |log| && forall i :: 0 <= i < |log| ==> log[i].seqNo == i + 1
    ensures Run(log, Start(), InOrder(n)) == Start().(lines := log[..n], lastSeq := n)
  {
    if n > 0 {
      LiveTail(log, n - 1);
      var evs := InOrder(n);
      assert evs[..|evs| - 1] == InOrder(n - 1) && evs[|evs| - 1] == Frame(n - 1);
      assert log[..n] == log[..n - 1] + [log[n - 1]];
    }
  }

  // ------------------------------------------------------------ recovery

  /** A backfill that is served and answered `n` times. */
  function Rounds(b: nat, n: nat): seq<Event> {
    if n == 0 then [] else Rounds(b, n - 1) + [Serve(b), Receive(b)]
  }

  /** The backfill is over and everything is on screen, or it goes on and has shown `n` entries. */
  ghost predicate Recovering(log: seq<Entry>, s: System, b: nat, n: nat)
    requires Increasing(log)
  {
    && Inv(log, s) && s.committed == |log|
    && if b in s.flights then s.flights[b] == Asked(s.lastSeq) && n <= Rank(log, s.lastSeq)
       else Rank(log, s.lastSeq) == |log|
  }

  lemma OneRound(log: seq<Entry>, s: System, b: nat, n: nat)
    requires Increasing(log) && Recovering(log, s, b, n)
    ensures Recovering(log, Next(log, Next(log, s, Serve(b)), Receive(b)), b, n + 1)
  {
    var t := Next(log, s, Serve(b));
    NextKeepsInv(log, s, Serve(b));
    NextKeepsInv(log, t, Receive(b));
    if b in s.flights { PageEffect(log, t, b); }
  }

  lemma RunTwo(log: seq<Entry>, s: System, evs: seq<Event>, e: Event, f: Event)
    ensures Run(log, s, evs + [e, f]) == Next(log, Next(log, Run(log, s, evs), e), f)
  {
    assert (evs + [e, f])[..|evs| + 1] == evs + [e];
    assert (evs + [e])[..|evs|] == evs;
  }

  lemma {:induction false} RoundsRecover(log: seq<Entry>, s: System, b: nat, n: nat)
    requires Increasing(log) && Recovering(log, s, b, 0)
    ensures Recovering(log, Run(log, s, Rounds(b, n)), b, n)
  {
    if n > 0 {
      RoundsRecover(log, s, b, n - 1);
      OneRound(log, Run(log, s, Rounds(b, n - 1)), b, n - 1);
      RunTwo(log, s, Rounds(b, n - 1), Serve(b), Receive(b));
    }
  }

  /** Whatever was lost before: once everything is committed, one undisturbed backfill ends, and
      then the whole log is on screen. */
  lemma BackfillRecovers(log: seq<Entry>, evs: seq<Event>)
    requires Increasing(log) && Run(log, Start(), evs).committed == |log|
    ensures var s := Run(log, Start(), evs);
            var t := Run(log, Next(log, s, Ask), Rounds(s.next, |log| + 1));
            s.next !in t.flights && forall e :: e in t.lines <==> e in log && e.seqNo > 0
  {
    StartOk(log);
    RunKeepsInv(log, Start(), evs);
    var s := Run(log, Start(), evs);
    NextKeepsInv(log, s, Ask);
    RoundsRecover(log, Next(log, s, Ask), s.next, |log| + 1);
    var t := Run(log, Next(log, s, Ask), Rounds(s.next, |log| + 1));
    RankSplits(log, 0);
    RankSplits(log, t.lastSeq);
    RankMonotone(log, 0, t.lastSeq);
    SliceExact(log, t.lines, Rank(log, 0), Rank(log, t.lastSeq), t.lastSeq);
  }

  // ------------------------------------------------------------ termination

  /** What a backfill may still fetch: the entries past its cursor, plus a last empty page. */
  ghost function Budget(log: seq<Entry>, s: System, b: nat): int {
    if b in s.flights then |log| - Rank(log, s.flights[b].after) + 1 else 0
  }

  ghost function Received(evs: seq<Event>, b: nat, log: seq<Entry>, s: System): nat {
    if evs == [] then 0 else
      var init, e := evs[..|evs| - 1], evs[|evs| - 1];
      var t := Run(log, s, init);
      Received(init, b, log, s) + if e == Receive(b) && b in t.flights && t.flights[b].Answered? then 1 else 0
  }

  lemma BudgetFalls(log: seq<Entry>, s: System, e: Event, b: nat)
    requires Increasing(log) && Inv(log, s) && b < s.next
    ensures 0 <= Budget(log, Next(log, s, e), b) <= Budget(log, s, b)
    ensures e == Receive(b) && b in s.flights && s.flights[b].Answered? ==>
              Budget(log, Next(log, s, e), b) < Budget(log, s, b)
  {
    NextKeepsInv(log, s, e);
    var s' := Next(log, s, e);
    if b in s.flights {
      RankSplits(log, s.flights[b].after);
      if e == Receive(b) && s.flights[b].Answered? {
        PageEffect(log, s, b);
      }
    }
    if b in s'.flights {
      RankSplits(log, s'.flights[b].after);
    }
  }

  lemma {:induction false} ReceivesSpendBudget(log: seq<Entry>, s: System, evs: seq<Event>, b: nat)
    requires Increasing(log) && Inv(log, s) && b < s.next
    ensures 0 <= Budget(log, Run(log, s, evs), b)
    ensures Received(evs, b, log, s) + Budget(log, Run(log, s, evs), b) <= Budget(log, s, b)
  {
    if evs == [] {
      if b in s.flights {
        RankSplits(log, s.flights[b].after);
      }
    } else {
      var init := evs[..|evs| - 1];
      ReceivesSpendBudget(log, s, init, b);
      RunKeepsInv(log, s, init);
      BudgetFalls(log, Run(log, s, init), evs[|evs| - 1], b);
    }
  }

  /** From any reachable state on, a backfill handles at most as many pages as there
      are log entries past its cursor, plus one: the loop ends on a finite log. */
  lemma BackfillTerminates(log: seq<Entry>, before: seq<Event>, evs: seq<Event>, b: nat)
    requires Increasing(log) && b in Run(log, Start(), before).flights
    ensures Received(evs, b, log, Run(log, Start(), before)) <= |log| + 1
  {
    StartOk(log);
    RunKeepsInv(log, Start(), before);
    var s := Run(log, Start(), before);
    assert FlightOk(log, s, b);
    ReceivesSpendBudget(log, s, evs, b);
  }

  // ------------------------------------------------------------ the composable's code

  /** The mutable state of the composable. */
  class Client {
    var lines: seq<Entry>
    var lastSeq: int

    constructor ()
      ensures lines == [] && lastSeq == 0
    {
      lines, lastSeq := [], 0;
    }

    /** `appendBatch`. */
    method AppendBatch(batch: seq<Entry>)
      modifies this
      ensures (lines, lastSeq) == Append(old(lines), old(lastSeq), batch)
    {
      for i := 0 to |batch|
        invariant Append(lines, lastSeq, batch[i..]) == Append(old(lines), old(lastSeq), batch)
      {
        assert batch[i..][0] == batch[i] && batch[i..][1..] == batch[i + 1..];
        if batch[i].seqNo > lastSeq {
          lines := lines + [batch[i]];
          lastSeq := batch[i].seqNo;
        }
      }
    }

    /** The `log` branch of `onmessage`; `gap` asks for a backfill. */
    method OnMessage(e: Entry, ghost s: System) returns (gap: bool)
      requires s.lines == lines && s.lastSeq == lastSeq
      modifies this
      ensures OnFrame(s, e).lines == lines && OnFrame(s, e).lastSeq == lastSeq
      ensures gap <==> OnFrame(s, e) == Launch(s)
    {
      gap := false;
      if e.seqNo > lastSeq {
        if e.seqNo == lastSeq + 1 {
          lines := lines + [e];
          lastSeq := e.seqNo;
        } else {
          gap := true;
        }
      }
    }

    /** One iteration of `backfill` after its `await`: handles the page, tells whether to go on. */
    method HandlePage(page: seq<Entry>, nextSeq: int, prevSeq: int, ghost s: System, ghost b: nat) returns (again: bool)
      requires s.lines == lines && s.lastSeq == lastSeq && nextSeq == prevSeq + |page|
      modifies this
      ensures OnPage(s, b, prevSeq, page).lines == lines && OnPage(s, b, prevSeq, page).lastSeq == lastSeq
      ensures again <==> b in OnPage(s, b, prevSeq, page).flights
    {
      AppendBatch(page);
      again := !(|page| == 0 || nextSeq <= prevSeq);
    }
  }
}
