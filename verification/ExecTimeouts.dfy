/**
 * The background sweep that times out exec tasks: it reads the running tasks
 * once, then updates each due one by compare-and-set.
 */
module ExecTimeouts {
  import opened ExecCas

  /** A task as the timeout sweep read it. */
  datatype Candidate = Candidate(id: nat, snapshot: Row, age: int, timeout: int)

  predicate Due(c: Candidate) { c.age > c.timeout }

  /** The candidate is due and its row is still the one that was read. */
  predicate Hit(c: Candidate, tasks: map<nat, Row>) {
    Due(c) && c.id in tasks && tasks[c.id] == c.snapshot
  }

  ghost predicate TimesOut(rows: seq<Candidate>, tasks: map<nat, Row>, id: nat) {
    exists i :: 0 <= i < |rows| && rows[i].id == id && Hit(rows[i], tasks)
  }

  /** How many candidates are hits. */
  function Hits(rows: seq<Candidate>, tasks: map<nat, Row>): nat {
    if rows == [] then 0
    else Hits(rows[..|rows| - 1], tasks) + if Hit(rows[|rows| - 1], tasks) then 1 else 0
  }

  datatype Tables = Tables(tasks: map<nat, Row>, hosts: map<nat, seq<HostStatus>>)

  /** Exactly the hits among `rows` have become `timed_out`, with their active hosts. */
  ghost predicate Swept(rows: seq<Candidate>, was: Tables, now: Tables, scanned: nat) {
    && now.tasks.Keys == was.tasks.Keys && now.hosts.Keys == was.hosts.Keys
    && (forall id :: id in was.tasks ==>
          now.tasks[id] == if TimesOut(rows, was.tasks, id) then Row(TimedOut, was.tasks[id].version + 1)
                           else was.tasks[id])
    && (forall id :: id in was.hosts ==>
          now.hosts[id] == if TimesOut(rows, was.tasks, id) then Closed(was.hosts[id]) else was.hosts[id])
    && scanned == Hits(rows, was.tasks)
  }

  /** One candidate: the task under compare-and-set, then its active hosts. */
  function AfterOne(t: Tables, c: Candidate): Tables {
    if !Hit(c, t.tasks) then t
    else Tables(t.tasks[c.id := Row(TimedOut, c.snapshot.version + 1)],
                if c.id in t.hosts then t.hosts[c.id := Closed(t.hosts[c.id])] else t.hosts)
  }

  ghost predicate DistinctIds(rows: seq<Candidate>) {
    forall i, j :: 0 <= i < j < |rows| ==> rows[i].id != rows[j].id
  }

  /** The task and host tables under the timeout sweep. */
  class TaskTable {
    var tasks: map<nat, Row>
    var hosts: map<nat, seq<HostStatus>>

    function Value(): Tables
      reads this
    {
      Tables(tasks, hosts)
    }

    method TimeOut(row: Candidate) returns (hit: bool)
      modifies this
      ensures hit == Hit(row, old(tasks)) && Value() == AfterOne(old(Value()), row)
    {
      hit := Due(row) && row.id in tasks && tasks[row.id] == row.snapshot;
      if hit {
        tasks := tasks[row.id := Row(TimedOut, row.snapshot.version + 1)];
        if row.id in hosts { hosts := hosts[row.id := Closed(hosts[row.id])]; }
      }
    }

    /**
     * The sweep over its snapshot: exactly the due tasks whose row is still the
     * one that was read become `timed_out`, together with their active hosts.
     */
    method ScanTimeouts(rows: seq<Candidate>) returns (scanned: nat)
      requires DistinctIds(rows)
      requires forall i :: 0 <= i < |rows| ==> rows[i].snapshot.status.Running?
      modifies this
      ensures Swept(rows, old(Value()), Value(), scanned)
    {
      scanned := 0;
      var n := 0;
      while n < |rows|
        invariant 0 <= n <= |rows|
        invariant Swept(rows[..n], old(Value()), Value(), scanned)
      {
        SweepOne(rows, n, old(Value()), Value(), scanned);
        var hit := TimeOut(rows[n]);
        if hit { scanned := scanned + 1; }
        n := n + 1;
      }
      assert rows[..n] == rows;
    }
  }

  function Closed(hs: seq<HostStatus>): seq<HostStatus> {
    seq(|hs|, i requires 0 <= i < |hs| => HostAfter(Sweeper, TimedOut, hs[i]))
  }

  lemma NotYet(rows: seq<Candidate>, n: nat, tasks: map<nat, Row>)
    requires n < |rows| && DistinctIds(rows)
    ensures !TimesOut(rows[..n], tasks, rows[n].id)
    ensures forall id :: TimesOut(rows[..n + 1], tasks, id) <==>
              TimesOut(rows[..n], tasks, id) || (id == rows[n].id && Hit(rows[n], tasks))
  {
    var next := rows[..n + 1];
    forall id
      ensures TimesOut(next, tasks, id) <==>
              TimesOut(rows[..n], tasks, id) || (id == rows[n].id && Hit(rows[n], tasks))
    {
      assert next[n] == rows[n];
      if TimesOut(rows[..n], tasks, id) {
        var i :| 0 <= i < n && rows[..n][i].id == id && Hit(rows[..n][i], tasks);
        assert next[i] == rows[i];
      }
      if TimesOut(next, tasks, id) {
        var i :| 0 <= i < |next| && next[i].id == id && Hit(next[i], tasks);
        if i < n { assert rows[..n][i] == rows[i]; }
      }
    }
  }

  lemma SweepOne(rows: seq<Candidate>, n: nat, was: Tables, now: Tables, scanned: nat)
    requires n < |rows| && DistinctIds(rows) && Swept(rows[..n], was, now, scanned)
    ensures Swept(rows[..n + 1], was, AfterOne(now, rows[n]), if Hit(rows[n], now.tasks) then scanned + 1 else scanned)
  {
    NotYet(rows, n, was.tasks);
    assert rows[..n + 1][..n] == rows[..n];
    assert Hit(rows[n], now.tasks) == Hit(rows[n], was.tasks);
  }
}
