/** The cluster master's bookkeeping: which worker holds the file-retention sweep.

    Worker ids are handed out in increasing order and are never reused; the source's test
    `retentionSweepWorkerId && ...` for "some id" is therefore `.Some?` here. */
module SweepMaster {
  import opened Options

  /** One entry of `cluster.workers`, listed in the ascending id order of `Object.values`. */
  datatype WorkerRef = WorkerRef(id: nat, connected: bool)

  type Table = seq<WorkerRef>

  datatype View = View(active: int, listening: set<nat>, sweeper: Option<nat>)

  function Ids(table: Table): set<nat> {
    set i | 0 <= i < |table| :: table[i].id
  }

  function Connected(table: Table): (pool: Table)
    ensures forall r :: r in pool <==> r in table && r.connected
  {
    if table == [] then []
    else Connected(table[..|table| - 1]) + if table[|table| - 1].connected then [table[|table| - 1]] else []
  }

  function Listed(table: Table, listening: set<nat>): (pool: Table)
    ensures forall r :: r in pool <==> r in table && r.id in listening
  {
    if table == [] then []
    else Listed(table[..|table| - 1], listening)
         + if table[|table| - 1].id in listening then [table[|table| - 1]] else []
  }

  /** The worker an assignment would elect: the last connected listener, or failing that the last
      connected worker. */
  function Elect(table: Table, listening: set<nat>): Option<nat> {
    var connected := Connected(table);
    var available := Listed(connected, listening);
    var pool := if |available| > 0 then available else connected;
    if pool == [] then None else Some(pool[|pool| - 1].id)
  }

  ghost predicate Ascending(table: Table) {
    forall i, j :: 0 <= i < j < |table| ==> table[i].id < table[j].id
  }

  lemma {:induction false} PoolsAscend(table: Table, listening: set<nat>)
    requires Ascending(table)
    ensures Ascending(Connected(table)) && Ascending(Listed(table, listening))
  {
    if table != [] {
      PoolsAscend(table[..|table| - 1], listening);
    }
  }

  /** The pool an election picks from, by membership. */
  ghost predicate IsPool(pool: Table, table: Table, listening: set<nat>) {
    var someListening := exists r :: r in table && r.connected && r.id in listening;
    forall r :: r in pool <==> r in table && r.connected && (someListening ==> r.id in listening)
  }

  lemma ElectFromPool(table: Table, listening: set<nat>) returns (pool: Table)
    requires Ascending(table)
    ensures IsPool(pool, table, listening) && Ascending(pool)
    ensures Elect(table, listening) == if pool == [] then None else Some(pool[|pool| - 1].id)
  {
    var connected := Connected(table);
    var available := Listed(connected, listening);
    PoolsAscend(table, listening);
    PoolsAscend(connected, listening);
    if |available| > 0 {
      assert available[0] in available;
      pool := available;
    } else {
      forall r | r in connected ensures r.id !in listening {
        assert r !in available;
      }
      pool := connected;
    }
  }

  /** An election fails only when nobody is connected.  It picks a connected worker, a listening one
      if there is any, and the newest of its kind. */
  lemma ElectionOutcome(table: Table, listening: set<nat>)
    requires Ascending(table)
    ensures Elect(table, listening).None? <==> forall r :: r in table ==> !r.connected
    ensures Elect(table, listening).Some? ==>
              var w := Elect(table, listening).value;
              && WorkerRef(w, true) in table
              && (forall r :: r in table && r.connected && r.id in listening ==> w in listening && r.id <= w)
              && (w !in listening ==> forall r :: r in table && r.connected ==> r.id <= w)
  {
    var pool := ElectFromPool(table, listening);
    if pool != [] {
      var last := pool[|pool| - 1];
      assert last in pool && last == WorkerRef(last.id, true);
      forall r | r in pool ensures r.id <= last.id {
        var i :| 0 <= i < |pool| && pool[i] == r;
      }
    }
  }

  /** `assignRetentionSweepWorker`: the new view, and the worker the message was sent to. */
  function Assign(m: View, table: Table): (View, Option<nat>) {
    if m.sweeper.Some? && m.sweeper.value in Ids(table) then (m, None)
    else
      var elected := Elect(table, m.listening);
      if elected.None? then (m, None) else (m.(sweeper := elected), elected)
  }

  function Online(m: View): View {
    m.(active := m.active + 1)
  }

  function Listening(m: View, table: Table, workers: nat, w: nat): (View, Option<nat>) {
    var m1 := m.(listening := m.listening + {w});
    if |m1.listening| == workers || (m1.sweeper.None? && m1.active >= workers) then Assign(m1, table)
    else (m1, None)
  }

  function Exit(m: View, table: Table, w: nat): (View, Option<nat>) {
    var m1 := m.(active := m.active - 1, listening := m.listening - {w});
    if m1.sweeper == Some(w) then Assign(m1.(sweeper := None), table) else (m1, None)
  }

  /** The master process, whose event handlers update its variables in place.  Each handler is
      given the `cluster.workers` it sees and returns the worker it sent the assignment to. */
  class Master {
    const workers: nat
    var activeWorkers: int
    var listeningWorkers: set<nat>
    var retentionSweepWorkerId: Option<nat>

    ghost function State(): View
      reads this
    {
      View(activeWorkers, listeningWorkers, retentionSweepWorkerId)
    }

    constructor (workers: nat)
      ensures this.workers == workers && State() == View(0, {}, None)
    {
      this.workers := workers;
      activeWorkers := 0;
      listeningWorkers := {};
      retentionSweepWorkerId := None;
    }

    method AssignRetentionSweepWorker(table: Table) returns (sent: Option<nat>)
      modifies `retentionSweepWorkerId
      ensures (State(), sent) == Assign(old(State()), table)
    {
      sent := None;
      if retentionSweepWorkerId.Some? && retentionSweepWorkerId.value in Ids(table) {
        return;
      }
      var connectedWorkers := Connected(table);
      var availableWorkers := Listed(connectedWorkers, listeningWorkers);
      var workerPool := if |availableWorkers| > 0 then availableWorkers else connectedWorkers;
      if workerPool == [] {
        return;
      }
      retentionSweepWorkerId := Some(workerPool[|workerPool| - 1].id);
      sent := retentionSweepWorkerId;
    }

    method OnOnline()
      modifies this
      ensures State() == Online(old(State()))
    {
      activeWorkers := activeWorkers + 1;
    }

    method OnListening(table: Table, w: nat) returns (sent: Option<nat>)
      modifies this
      ensures (State(), sent) == Listening(old(State()), table, workers, w)
    {
      sent := None;
      listeningWorkers := listeningWorkers + {w};
      if |listeningWorkers| == workers || (retentionSweepWorkerId.None? && activeWorkers >= workers) {
        sent := AssignRetentionSweepWorker(table);
      }
    }

    method OnExit(table: Table, w: nat) returns (sent: Option<nat>)
      modifies this
      ensures (State(), sent) == Exit(old(State()), table, w)
    {
      sent := None;
      activeWorkers := activeWorkers - 1;
      listeningWorkers := listeningWorkers - {w};
      if retentionSweepWorkerId == Some(w) {
        retentionSweepWorkerId := None;
        sent := AssignRetentionSweepWorker(table);
      }
    }
  }
}
