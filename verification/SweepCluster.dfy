/** The master and its workers as one protocol: every interleaving of forks, lifecycle events,
    deaths, message deliveries and config loads is a sequence of steps from the initial state.

    What is taken from Node: a worker's `online` and `listening` events come over its connected
    channel and before its exit is handled; a handled exit means the process is dead; and a
    worker stays in `cluster.workers` until it has both exited and disconnected. */
module SweepCluster {
  import opened Collections
  import opened Options
  import opened SweepMaster
  import SweepWorker

  /** One worker process, dead or alive: what Node knows of it, how many assignments it was ever
      sent, how many of those are still in flight, and its own flags. */
  datatype Worker = Worker(alive: bool, connected: bool, online: bool, exitHandled: bool,
                           sent: nat, inbox: nat, flags: SweepWorker.Flags)

  const FORKED: Worker := Worker(true, true, false, false, 0, 0, SweepWorker.FRESH)

  /** Worker id `i` is the process `procs[i]`; `workers` is the configured number of workers. */
  datatype Cluster = Cluster(workers: nat, master: View, procs: seq<Worker>)

  datatype Step =
    | GoesOnline(w: nat)
    | Listens(w: nat)
    | Dies(w: nat)
    | Disconnects(w: nat)
    | ExitIsHandled(w: nat)
    | Receives(w: nat)
    | LoadsConfig(w: nat, options: nat)

  predicate InTable(p: Worker) {
    !p.exitHandled || p.connected
  }

  /** `cluster.workers` as the master sees it. */
  function TableOf(procs: seq<Worker>): (table: Table)
    ensures forall r :: r in table <==>
                        r.id < |procs| && InTable(procs[r.id]) && r.connected == procs[r.id].connected
    ensures Ascending(table)
  {
    if procs == [] then []
    else
      var n := |procs| - 1;
      var rest := TableOf(procs[..n]);
      assert forall i | 0 <= i < |rest| :: rest[i] in rest;
      rest + if InTable(procs[n]) then [WorkerRef(n, procs[n].connected)] else []
  }

  function Send(procs: seq<Worker>, to: Option<nat>): seq<Worker> {
    if to.Some? && to.value < |procs|
    then procs[to.value := procs[to.value].(sent := procs[to.value].sent + 1, inbox := procs[to.value].inbox + 1)]
    else procs
  }

  function Exited(procs: seq<Worker>, w: nat): seq<Worker>
    requires w < |procs|
  {
    procs[w := procs[w].(exitHandled := true)]
  }

  function Initial(workers: nat): Cluster {
    Cluster(workers, View(0, {}, None), seq(workers, _ => FORKED))
  }

  predicate Enabled(c: Cluster, step: Step) {
    step.w < |c.procs| &&
    var p := c.procs[step.w];
    match step
    case GoesOnline(_) => p.connected && !p.exitHandled && !p.online
    case Listens(_) => p.connected && !p.exitHandled && p.online
    case Dies(_) => p.alive
    case Disconnects(_) => p.connected
    case ExitIsHandled(_) => !p.alive && !p.exitHandled
    case Receives(_) => p.alive && p.inbox > 0
    case LoadsConfig(_, _) => p.alive && p.flags.options.None?
  }

  function Apply(c: Cluster, step: Step): Cluster
    requires Enabled(c, step)
  {
    var p := c.procs[step.w];
    match step
    case GoesOnline(w) =>
      c.(master := Online(c.master), procs := c.procs[w := p.(online := true)])
    case Listens(w) =>
      var (master, sent) := Listening(c.master, TableOf(c.procs), c.workers, w);
      c.(master := master, procs := Send(c.procs, sent))
    case Dies(w) => c.(procs := c.procs[w := p.(alive := false)])
    case Disconnects(w) => c.(procs := c.procs[w := p.(connected := false)])
    case ExitIsHandled(w) =>
      var exited := Exited(c.procs, w);
      var (master, sent) := Exit(c.master, TableOf(exited), w);
      c.(master := master, procs := Send(exited, sent) + [FORKED])
    case Receives(w) =>
      c.(procs := c.procs[w := p.(inbox := p.inbox - 1,
                                  flags := SweepWorker.Handle(p.flags, SweepWorker.SweepMessage))])
    case LoadsConfig(w, options) =>
      c.(procs := c.procs[w := p.(flags := SweepWorker.Handle(p.flags, SweepWorker.ConfigLoaded(options)))])
  }

  /** The state after the steps, or nothing when one of them was not possible. */
  function Run(workers: nat, steps: seq<Step>): Option<Cluster> {
    if steps == [] then Some(Initial(workers))
    else
      var before := Run(workers, steps[..|steps| - 1]);
      if before.Some? && Enabled(before.value, steps[|steps| - 1])
      then Some(Apply(before.value, steps[|steps| - 1]))
      else None
  }

  /** Every exit is handled after the worker's channel has closed, so that the worker has left
      `cluster.workers` by then.  Node does not promise this order. */
  predicate Prompt(workers: nat, steps: seq<Step>)
    requires Run(workers, steps).Some?
  {
    steps != [] ==>
      var before := Run(workers, steps[..|steps| - 1]).value;
      var step := steps[|steps| - 1];
      && Prompt(workers, steps[..|steps| - 1])
      && (step.ExitIsHandled? ==> !before.procs[step.w].connected)
  }

  // ---------------------------------------------------------------- invariants

  ghost function Unexited(procs: seq<Worker>): set<nat> {
    set i: nat | i < |procs| && !procs[i].exitHandled
  }

  ghost function OnlineNow(procs: seq<Worker>): set<nat> {
    set i: nat | i < |procs| && procs[i].online && !procs[i].exitHandled
  }

  ghost function LostBeforeOnline(procs: seq<Worker>): set<nat> {
    set i: nat | i < |procs| && !procs[i].online && procs[i].exitHandled
  }

  ghost predicate WorkerOk(p: Worker) {
    && (p.exitHandled ==> !p.alive)
    && p.inbox <= p.sent
    && (p.flags.shouldStart ==> p.sent > 0)
    && (p.alive && p.sent > 0 ==> p.inbox > 0 || p.flags.shouldStart)
    && (p.flags.started <==> p.flags.shouldStart && p.flags.options.Some?)
    && |p.flags.sweeps| == if p.flags.started then 1 else 0
  }

  /** Only the recorded sweeper can be an assigned worker whose exit is still to be handled. */
  ghost predicate SweeperOk(c: Cluster) {
    && (c.master.sweeper.Some? ==> c.master.sweeper.value < |c.procs| && c.procs[c.master.sweeper.value].sent > 0)
    && forall i :: 0 <= i < |c.procs| && !c.procs[i].exitHandled && c.procs[i].sent > 0 ==>
                     c.master.sweeper == Some(i) && c.procs[i].sent == 1
  }

  ghost predicate CountsOk(c: Cluster) {
    && |Unexited(c.procs)| == c.workers
    && c.master.listening <= OnlineNow(c.procs)
    && c.master.active == |OnlineNow(c.procs)| - |LostBeforeOnline(c.procs)|
    && (|c.master.listening| == c.workers ==> c.master.sweeper.Some?)
  }

  ghost predicate Inv(c: Cluster) {
    && c.workers >= 1
    && AllOk(c.procs)
    && SweeperOk(c)
    && CountsOk(c)
  }

  /** What promptness adds: the recorded sweeper's exit has not been handled. */
  ghost predicate PromptInv(c: Cluster) {
    && (forall i :: 0 <= i < |c.procs| && c.procs[i].exitHandled ==> !c.procs[i].connected)
    && (c.master.sweeper.Some? && c.master.sweeper.value < |c.procs| ==>
          !c.procs[c.master.sweeper.value].exitHandled)
  }

  lemma InitialInv(workers: nat)
    requires workers >= 1
    ensures Inv(Initial(workers)) && PromptInv(Initial(workers))
  {
    var procs := Initial(workers).procs;
    UnexitedOfForks(workers);
    assert OnlineNow(procs) == {} && LostBeforeOnline(procs) == {};
  }

  lemma UnexitedOfForks(n: nat)
    ensures |Unexited(seq(n, _ => FORKED))| == n
  {
    BelowCount(n);
    assert Unexited(seq(n, _ => FORKED)) == Below(n);
  }

  function Below(n: nat): set<nat> {
    if n == 0 then {} else Below(n - 1) + {n - 1}
  }

  lemma {:induction false} BelowCount(n: nat)
    ensures |Below(n)| == n && forall i: nat :: i in Below(n) <==> i < n
  {
    if n > 0 {
      BelowCount(n - 1);
    }
  }

  ghost predicate AllOk(procs: seq<Worker>) {
    forall i :: 0 <= i < |procs| ==> WorkerOk(procs[i])
  }

  /** Sending an assignment changes no lifecycle. */
  lemma SendKeepsLifecycles(procs: seq<Worker>, to: Option<nat>)
    requires AllOk(procs)
    ensures AllOk(Send(procs, to))
    ensures Unexited(Send(procs, to)) == Unexited(procs)
    ensures OnlineNow(Send(procs, to)) == OnlineNow(procs)
    ensures LostBeforeOnline(Send(procs, to)) == LostBeforeOnline(procs)
  {
  }

  /** Who an election among processes in the table elects. */
  lemma ElectionAmong(c: Cluster)
    ensures var elected := Elect(TableOf(c.procs), c.master.listening);
            && (elected.Some? ==> elected.value < |c.procs| && c.procs[elected.value].connected)
            && (elected.Some? <==> exists v :: 0 <= v < |c.procs| && c.procs[v].connected)
            && (elected.Some? && (exists u: nat :: u in c.master.listening && u < |c.procs| && c.procs[u].connected)
                ==> elected.value in c.master.listening)
  {
    var table := TableOf(c.procs);
    ElectionOutcome(table, c.master.listening);
    forall v: nat | v < |c.procs| && c.procs[v].connected ensures WorkerRef(v, true) in table {}
    forall r | r in table && r.connected ensures r.id < |c.procs| && c.procs[r.id].connected {}
  }

  /** An assignment is sent only to a connected worker, and only when every earlier holder's exit
      has been handled; it leaves the role vacant only when nobody is connected. */
  lemma AssignOutcome(c: Cluster)
    requires SweeperOk(c)
    ensures var (m1, sent) := Assign(c.master, TableOf(c.procs));
            && m1 == c.master.(sweeper := m1.sweeper)
            && (sent.None? ==> m1 == c.master)
            && (m1.sweeper.None? ==> forall v :: 0 <= v < |c.procs| ==> !c.procs[v].connected)
            && (sent.Some? ==>
                  && m1.sweeper == sent
                  && sent.value < |c.procs| && c.procs[sent.value].connected
                  && ((exists u: nat :: u in c.master.listening && u < |c.procs| && c.procs[u].connected)
                      ==> sent.value in c.master.listening)
                  && forall i :: 0 <= i < |c.procs| && !c.procs[i].exitHandled ==> c.procs[i].sent == 0)
  {
    ElectionAmong(c);
    if c.master.sweeper.Some? {
      TableHolds(c.procs, c.master.sweeper.value);
    }
  }

  lemma TableHolds(procs: seq<Worker>, w: nat)
    requires w < |procs|
    ensures w in Ids(TableOf(procs)) <==> InTable(procs[w])
  {
  }

  lemma AssignKeepsSweeper(c: Cluster)
    requires AllOk(c.procs) && SweeperOk(c)
    ensures var (m1, sent) := Assign(c.master, TableOf(c.procs));
            SweeperOk(c.(master := m1, procs := Send(c.procs, sent)))
  {
    AssignOutcome(c);
  }

  /** A step of one process that leaves its exit and its assignments alone. */
  lemma LocalStepKeepsInv(c: Cluster, w: nat, p: Worker)
    requires Inv(c) && w < |c.procs| && WorkerOk(p)
    requires p.exitHandled == c.procs[w].exitHandled && p.sent == c.procs[w].sent && p.online == c.procs[w].online
    ensures Inv(c.(procs := c.procs[w := p]))
  {
    var procs := c.procs[w := p];
    assert Unexited(procs) == Unexited(c.procs);
    assert OnlineNow(procs) == OnlineNow(c.procs);
    assert LostBeforeOnline(procs) == LostBeforeOnline(c.procs);
  }

  lemma OnlineSets(procs: seq<Worker>, w: nat)
    requires w < |procs| && !procs[w].exitHandled && !procs[w].online
    ensures var up := procs[w := procs[w].(online := true)];
            && Unexited(up) == Unexited(procs)
            && OnlineNow(up) == OnlineNow(procs) + {w} && w !in OnlineNow(procs)
            && LostBeforeOnline(up) == LostBeforeOnline(procs)
  {
  }

  lemma OnlineKeepsInv(c: Cluster, w: nat)
    requires Inv(c) && Enabled(c, GoesOnline(w))
    ensures Inv(Apply(c, GoesOnline(w)))
  {
    OnlineSets(c.procs, w);
  }

  lemma ListeningIsBounded(c: Cluster)
    requires Inv(c)
    ensures |c.master.listening| <= |OnlineNow(c.procs)| <= c.workers
  {
    SubsetCardinality(c.master.listening, OnlineNow(c.procs));
    SubsetCardinality(OnlineNow(c.procs), Unexited(c.procs));
  }

  lemma ListensAssigns(c: Cluster, w: nat)
    requires SweeperOk(c) && AllOk(c.procs) && Enabled(c, Listens(w))
    ensures var (m, sent) := Listening(c.master, TableOf(c.procs), c.workers, w);
            && m == c.master.(listening := c.master.listening + {w}, sweeper := m.sweeper)
            && (|m.listening| == c.workers || c.master.active >= c.workers ==> m.sweeper.Some?)
            && (|m.listening| != c.workers && c.master.active < c.workers ==> m.sweeper == c.master.sweeper && sent == None)
            && SweeperOk(c.(master := m, procs := Send(c.procs, sent)))
  {
    var c1 := c.(master := c.master.(listening := c.master.listening + {w}));
    AssignKeepsSweeper(c1);
    AssignOutcome(c1);
  }

  lemma ListensKeepsInv(c: Cluster, w: nat)
    requires Inv(c) && Enabled(c, Listens(w))
    ensures Inv(Apply(c, Listens(w)))
  {
    ListensAssigns(c, w);
    SendKeepsLifecycles(c.procs, Listening(c.master, TableOf(c.procs), c.workers, w).1);
    assert w in OnlineNow(c.procs);
  }

  lemma ExitSets(procs: seq<Worker>, w: nat)
    requires w < |procs| && !procs[w].exitHandled
    ensures Unexited(Exited(procs, w)) == Unexited(procs) - {w}
    ensures OnlineNow(Exited(procs, w)) == OnlineNow(procs) - {w}
    ensures LostBeforeOnline(Exited(procs, w)) == LostBeforeOnline(procs) + if procs[w].online then {} else {w}
    ensures w in Unexited(procs) && w !in LostBeforeOnline(procs)
    ensures w in OnlineNow(procs) <==> procs[w].online
  {
  }

  lemma ForkSets(procs: seq<Worker>)
    ensures OnlineNow(procs + [FORKED]) == OnlineNow(procs)
    ensures LostBeforeOnline(procs + [FORKED]) == LostBeforeOnline(procs)
    ensures Unexited(procs + [FORKED]) == Unexited(procs) + {|procs|}
    ensures |procs| !in Unexited(procs)
  {
  }

  /** Handling an exit and forking the replacement leaves the number of processes to be reaped at `workers`. */
  lemma ExitCounts(c: Cluster, w: nat)
    requires CountsOk(c) && w < |c.procs| && !c.procs[w].exitHandled
    ensures var exited := Exited(c.procs, w);
            && |Unexited(exited) + {|exited|}| == c.workers
            && c.master.listening - {w} <= OnlineNow(exited)
            && |c.master.listening - {w}| < c.workers
            && c.master.active - 1 == |OnlineNow(exited)| - |LostBeforeOnline(exited)|
  {
    var exited := Exited(c.procs, w);
    ExitSets(c.procs, w);
    ForkSets(exited);
    OnlineIsUnexited(exited);
    ExitArithmetic(Unexited(c.procs), OnlineNow(c.procs), LostBeforeOnline(c.procs), c.master.listening, w);
  }

  lemma ExitArithmetic(unexited: set<nat>, online: set<nat>, lost: set<nat>, listening: set<nat>, w: nat)
    requires listening <= online && online - {w} <= unexited - {w} && w in unexited && w !in lost
    ensures |unexited - {w}| == |unexited| - 1 && |listening - {w}| < |unexited|
    ensures if w in online then |online - {w}| == |online| - 1 else online - {w} == online && |lost + {w}| == |lost| + 1
  {
    SubsetCardinality(listening - {w}, online - {w});
    SubsetCardinality(online - {w}, unexited - {w});
  }

  lemma OnlineIsUnexited(procs: seq<Worker>)
    ensures OnlineNow(procs) <= Unexited(procs)
  {
  }

  function ExitMaster(m: View, w: nat): View {
    m.(active := m.active - 1, listening := m.listening - {w}, sweeper := if m.sweeper == Some(w) then None else m.sweeper)
  }

  /** The exit handler is an assignment attempt if the sweeper died, and none otherwise. */
  lemma ExitAssigns(c: Cluster, w: nat)
    requires Inv(c) && Enabled(c, ExitIsHandled(w))
    ensures var exited := Exited(c.procs, w);
            var c1 := Cluster(c.workers, ExitMaster(c.master, w), exited);
            var (m, sent) := Exit(c.master, TableOf(exited), w);
            && AllOk(exited) && SweeperOk(c1)
            && (m, sent) == (if c.master.sweeper == Some(w) then Assign(c1.master, TableOf(exited))
                             else (c1.master, None))
            && SweeperOk(c.(master := m, procs := Send(exited, sent)))
            && m == c1.master.(sweeper := m.sweeper)
  {
    var exited := Exited(c.procs, w);
    var c1 := Cluster(c.workers, ExitMaster(c.master, w), exited);
    assert c1.master.sweeper != Some(w);
    if c.master.sweeper == Some(w) {
      AssignKeepsSweeper(c1);
      AssignOutcome(c1);
    }
  }

  lemma ForkKeepsSweeper(c: Cluster)
    requires SweeperOk(c) && AllOk(c.procs)
    ensures SweeperOk(c.(procs := c.procs + [FORKED])) && AllOk(c.procs + [FORKED])
  {
  }

  lemma ExitKeepsInv(c: Cluster, w: nat)
    requires Inv(c) && Enabled(c, ExitIsHandled(w))
    ensures Inv(Apply(c, ExitIsHandled(w)))
  {
    var exited := Exited(c.procs, w);
    var (m, sent) := Exit(c.master, TableOf(exited), w);
    ExitAssigns(c, w);
    ExitCounts(c, w);
    SendKeepsLifecycles(exited, sent);
    ForkSets(Send(exited, sent));
    ForkKeepsSweeper(c.(master := m, procs := Send(exited, sent)));
  }

  lemma StepKeepsInv(c: Cluster, step: Step)
    requires Inv(c) && Enabled(c, step)
    ensures Inv(Apply(c, step))
  {
    match step
    case GoesOnline(w) => OnlineKeepsInv(c, w);
    case Listens(w) => ListensKeepsInv(c, w);
    case ExitIsHandled(w) => ExitKeepsInv(c, w);
    case Dies(w) => LocalStepKeepsInv(c, w, c.procs[w].(alive := false));
    case Disconnects(w) => LocalStepKeepsInv(c, w, c.procs[w].(connected := false));
    case Receives(w) => LocalStepKeepsInv(c, w, Apply(c, step).procs[w]);
    case LoadsConfig(w, _) => LocalStepKeepsInv(c, w, Apply(c, step).procs[w]);
  }

  lemma PromptListens(c: Cluster, w: nat)
    requires SweeperOk(c) && AllOk(c.procs) && PromptInv(c) && Enabled(c, Listens(w))
    ensures PromptInv(Apply(c, Listens(w)))
  {
  }

  lemma PromptExit(c: Cluster, w: nat)
    requires Inv(c) && PromptInv(c) && Enabled(c, ExitIsHandled(w)) && !c.procs[w].connected
    ensures PromptInv(Apply(c, ExitIsHandled(w)))
  {
    ExitAssigns(c, w);
    PromptAssigns(Cluster(c.workers, ExitMaster(c.master, w), Exited(c.procs, w)));
  }

  /** When nobody whose exit was handled is connected, nobody whose exit was handled is given the role. */
  lemma PromptAssigns(c: Cluster)
    requires SweeperOk(c) && PromptInv(c)
    ensures var (m, sent) := Assign(c.master, TableOf(c.procs));
            PromptInv(Cluster(c.workers, m, Send(c.procs, sent)))
  {
    AssignOutcome(c);
  }

  lemma PromptStepKeepsPrompt(c: Cluster, step: Step)
    requires Inv(c) && PromptInv(c) && Enabled(c, step)
    requires step.ExitIsHandled? ==> !c.procs[step.w].connected
    ensures PromptInv(Apply(c, step))
  {
    match step
    case Listens(w) => PromptListens(c, w);
    case ExitIsHandled(w) => PromptExit(c, w);
    case _ =>
  }

  lemma {:induction false} ReachableInv(workers: nat, steps: seq<Step>)
    requires workers >= 1 && Run(workers, steps).Some?
    ensures Inv(Run(workers, steps).value)
    ensures Prompt(workers, steps) ==> PromptInv(Run(workers, steps).value)
  {
    if steps == [] {
      InitialInv(workers);
    } else {
      var before := steps[..|steps| - 1];
      ReachableInv(workers, before);
      StepKeepsInv(Run(workers, before).value, steps[|steps| - 1]);
      if Prompt(workers, steps) {
        PromptStepKeepsPrompt(Run(workers, before).value, steps[|steps| - 1]);
      }
    }
  }

  // ---------------------------------------------------------------- main results

  /** A live worker the master has sent the role to. */
  ghost predicate Holds(c: Cluster, w: nat) {
    w < |c.procs| && c.procs[w].alive && c.procs[w].sent > 0
  }

  ghost predicate Sweeping(c: Cluster, w: nat) {
    w < |c.procs| && c.procs[w].alive && c.procs[w].flags.sweeps != []
  }

  /** Whatever the interleaving, at most one live worker was ever given the sweep and at most one is
      running it; no process, dead or alive, ever started it twice or without having been given it;
      and a live holder was sent the role exactly once and is the one the master has on record. */
  lemma AtMostOneSweeper(workers: nat, steps: seq<Step>)
    requires workers >= 1 && Run(workers, steps).Some?
    ensures var c := Run(workers, steps).value;
            && (forall v, w :: Holds(c, v) && Holds(c, w) ==> v == w)
            && (forall v, w :: Sweeping(c, v) && Sweeping(c, w) ==> v == w)
            && (forall w: nat :: Sweeping(c, w) ==> Holds(c, w))
            && (forall w: nat :: Holds(c, w) ==> c.procs[w].sent == 1 && c.master.sweeper == Some(w))
            && (forall p :: p in c.procs ==> |p.flags.sweeps| <= 1 && (p.flags.sweeps != [] ==> p.sent > 0))
  {
    ReachableInv(workers, steps);
  }

  /** The assignment is not lost: a live holder with an empty channel and a loaded config is running
      the sweep, whichever of the two came first. */
  lemma HolderSweepsOnceReady(workers: nat, steps: seq<Step>, w: nat)
    requires workers >= 1 && Run(workers, steps).Some?
    requires Holds(Run(workers, steps).value, w)
    requires Run(workers, steps).value.procs[w].inbox == 0
    ensures Sweeping(Run(workers, steps).value, w) <==> Run(workers, steps).value.procs[w].flags.options.Some?
  {
    ReachableInv(workers, steps);
  }

  lemma ReadyHolderSweeps(workers: nat, steps: seq<Step>, w: nat, options: nat) returns (more: seq<Step>)
    requires workers >= 1 && Run(workers, steps).Some? && Holds(Run(workers, steps).value, w)
    requires Run(workers, steps).value.procs[w].flags.shouldStart
    ensures more == [] || more == [LoadsConfig(w, options)]
    ensures Run(workers, steps + more).Some? && Sweeping(Run(workers, steps + more).value, w)
  {
    ReachableInv(workers, steps);
    var c := Run(workers, steps).value;
    if c.procs[w].flags.options.Some? {
      more := [];
      assert steps + [] == steps;
    } else {
      more := [LoadsConfig(w, options)];
      RunExtends(workers, steps, c, LoadsConfig(w, options));
    }
  }

  /** The role cannot be given in vain: from any reachable state a live holder can be brought to sweep by delivering its
      message and loading its config, whichever of these is still to come. */
  lemma HolderCanSweep(workers: nat, steps: seq<Step>, w: nat, options: nat) returns (more: seq<Step>)
    requires workers >= 1 && Run(workers, steps).Some? && Holds(Run(workers, steps).value, w)
    ensures more <= [Receives(w), LoadsConfig(w, options)] || more == [LoadsConfig(w, options)]
    ensures Run(workers, steps + more).Some? && Sweeping(Run(workers, steps + more).value, w)
  {
    ReachableInv(workers, steps);
    var c := Run(workers, steps).value;
    if c.procs[w].inbox == 0 {
      more := ReadyHolderSweeps(workers, steps, w, options);
    } else {
      RunExtends(workers, steps, c, Receives(w));
      var later := ReadyHolderSweeps(workers, steps + [Receives(w)], w, options);
      assert steps + [Receives(w)] + later == steps + ([Receives(w)] + later);
      more := [Receives(w)] + later;
    }
  }

  function Received(steps: seq<Step>, w: nat): nat {
    if steps == [] then 0
    else Received(steps[..|steps| - 1], w) + if steps[|steps| - 1] == Receives(w) then 1 else 0
  }

  /** Each assignment sent arrives at most once: what a worker was sent is what it received and what is still in flight. */
  lemma {:induction false} SentIsReceivedOrInFlight(workers: nat, steps: seq<Step>, w: nat)
    requires Run(workers, steps).Some?
    ensures var c := Run(workers, steps).value;
            if w < |c.procs| then c.procs[w].sent == Received(steps, w) + c.procs[w].inbox else Received(steps, w) == 0
  {
    if steps != [] {
      var before, last := steps[..|steps| - 1], steps[|steps| - 1];
      SentIsReceivedOrInFlight(workers, before, w);
      StepInFlight(Run(workers, before).value, last, w);
    }
  }

  lemma StepInFlight(c: Cluster, step: Step, w: nat)
    requires Enabled(c, step)
    ensures var c1 := Apply(c, step);
            && |c.procs| <= |c1.procs|
            && (w < |c.procs| ==>
                  c1.procs[w].sent - c1.procs[w].inbox
                  == c.procs[w].sent - c.procs[w].inbox + if step == Receives(w) then 1 else 0)
            && (|c.procs| <= w < |c1.procs| ==> c1.procs[w] == FORKED)
  {
    match step
    case Listens(v) => SendInFlight(c.procs, Listening(c.master, TableOf(c.procs), c.workers, v).1, w);
    case ExitIsHandled(v) =>
      var exited := Exited(c.procs, v);
      SendInFlight(exited, Exit(c.master, TableOf(exited), v).1, w);
    case _ =>
  }

  lemma SendInFlight(procs: seq<Worker>, to: Option<nat>, w: nat)
    ensures |Send(procs, to)| == |procs|
    ensures w < |procs| ==> Send(procs, to)[w].sent - Send(procs, to)[w].inbox == procs[w].sent - procs[w].inbox
  {
  }

  /** The counts behind it: processes whose exit is still to be handled always number `workers`, the
      listening ones are among those now online, and `activeWorkers` falls short of the online ones
      by the processes that died without ever coming online. */
  lemma WorkerCounts(workers: nat, steps: seq<Step>)
    requires workers >= 1 && Run(workers, steps).Some?
    ensures var c := Run(workers, steps).value;
            && |Unexited(c.procs)| == workers
            && c.master.listening <= OnlineNow(c.procs) <= Unexited(c.procs)
            && |c.master.listening| <= workers
            && c.master.active == |OnlineNow(c.procs)| - |LostBeforeOnline(c.procs)|
  {
    ReachableInv(workers, steps);
    RunKeepsWorkers(workers, steps);
    ListeningIsBounded(Run(workers, steps).value);
  }

  lemma {:induction false} RunKeepsWorkers(workers: nat, steps: seq<Step>)
    requires Run(workers, steps).Some?
    ensures Run(workers, steps).value.workers == workers
  {
    if steps != [] {
      RunKeepsWorkers(workers, steps[..|steps| - 1]);
      StepKeepsWorkers(Run(workers, steps[..|steps| - 1]).value, steps[|steps| - 1]);
    }
  }

  lemma StepKeepsWorkers(c: Cluster, step: Step)
    requires Enabled(c, step)
    ensures Apply(c, step).workers == c.workers
  {
  }

  /** A worker starting to listen gives the role away exactly when all workers are up: as many as configured listen,
      or as many are online; until then nothing is assigned. */
  lemma RoleIsGivenWhenAllAreUp(c: Cluster, w: nat)
    requires Inv(c) && Enabled(c, Listens(w))
    ensures var c1 := Apply(c, Listens(w));
            var up := |c1.master.listening| == c.workers || c.master.active >= c.workers;
            && c1.master.listening == c.master.listening + {w}
            && (up ==> c1.master.sweeper.Some?)
            && (!up ==> c1.master.sweeper == c.master.sweeper && c1.procs == c.procs)
  {
    ListensAssigns(c, w);
  }

  /** As long as the recorded sweeper is in the table, only the handling of its own exit moves the role. */
  lemma RecordStays(c: Cluster, step: Step, w: nat)
    requires Inv(c) && Enabled(c, step) && step != ExitIsHandled(w)
    requires c.master.sweeper == Some(w) && InTable(c.procs[w])
    ensures var c1 := Apply(c, step);
            && c1.master.sweeper == Some(w) && w < |c1.procs|
            && c1.procs[w].sent == c.procs[w].sent && c1.procs[w].exitHandled == c.procs[w].exitHandled
            && (step != Disconnects(w) ==> c1.procs[w].connected == c.procs[w].connected)
  {
    TableHolds(c.procs, w);
  }

  /** A longer run ends with its last step. */
  lemma LastStep(workers: nat, steps: seq<Step>, more: seq<Step>) returns (c: Cluster)
    requires more != [] && Run(workers, steps + more).Some?
    ensures Run(workers, steps + more[..|more| - 1]) == Some(c) && Enabled(c, more[|more| - 1])
    ensures Run(workers, steps + more) == Some(Apply(c, more[|more| - 1]))
  {
    var all := steps + more;
    assert all[..|all| - 1] == steps + more[..|more| - 1] && all[|all| - 1] == more[|more| - 1];
    c := Run(workers, all[..|all| - 1]).value;
  }

  /** The role is with a process still to be reaped. */
  ghost predicate OnRecord(c: Cluster, w: nat) {
    c.master.sweeper == Some(w) && w < |c.procs| && !c.procs[w].exitHandled
  }

  /** Whatever else happens, a recorded sweeper keeps the role until its own exit is handled, and is not sent it again. */
  lemma {:induction false} RoleStaysUntilExit(workers: nat, steps: seq<Step>, more: seq<Step>, w: nat)
    requires workers >= 1 && Run(workers, steps).Some? && Run(workers, steps + more).Some?
    requires OnRecord(Run(workers, steps).value, w)
    requires ExitIsHandled(w) !in more
    ensures OnRecord(Run(workers, steps + more).value, w)
    ensures Run(workers, steps + more).value.procs[w].sent == 1
  {
    if more == [] {
      assert steps + more == steps;
    } else {
      var c := LastStep(workers, steps, more);
      var before, last := more[..|more| - 1], more[|more| - 1];
      assert last in more && forall step :: step in before ==> step in more;
      RoleStaysUntilExit(workers, steps, before, w);
      ReachableInv(workers, steps + before);
      RecordStays(c, last, w);
    }
    ReachableInv(workers, steps + more);
  }

  /** Once all workers listen the role is given, and every process still to be reaped is listening.
      When exits are prompt, the role is with one of those. */
  lemma FullHouseHasSweeper(workers: nat, steps: seq<Step>)
    requires workers >= 1 && Run(workers, steps).Some?
    requires |Run(workers, steps).value.master.listening| == workers
    ensures var c := Run(workers, steps).value;
            && c.master.listening == Unexited(c.procs)
            && c.master.sweeper.Some?
            && (Prompt(workers, steps) ==>
                  c.master.sweeper.value in c.master.listening && c.procs[c.master.sweeper.value].sent == 1)
  {
    ReachableInv(workers, steps);
    RunKeepsWorkers(workers, steps);
    var c := Run(workers, steps).value;
    SubsetCardinality(c.master.listening, Unexited(c.procs));
  }

  ghost predicate SomeoneConnected(procs: seq<Worker>) {
    exists v :: 0 <= v < |procs| && procs[v].connected
  }

  ghost predicate AnotherListener(c: Cluster, w: nat) {
    exists u: nat :: u in c.master.listening && u != w && u < |c.procs| && c.procs[u].connected
  }

  /** The assignment once the sweeper's exit has vacated the role. */
  lemma VacantAssigns(c: Cluster)
    requires SweeperOk(c) && c.master.sweeper.None?
    ensures var (m, sent) := Assign(c.master, TableOf(c.procs));
            && m.sweeper == sent
            && (sent.Some? <==> SomeoneConnected(c.procs))
            && (sent.Some? ==>
                  && sent.value < |c.procs| && c.procs[sent.value].connected
                  && ((exists u: nat :: u in c.master.listening && u < |c.procs| && c.procs[u].connected)
                      ==> sent.value in c.master.listening))
  {
    AssignOutcome(c);
  }

  lemma HandOverAssigns(c: Cluster, w: nat)
    requires Inv(c) && Enabled(c, ExitIsHandled(w)) && c.master.sweeper == Some(w)
    ensures var (m, sent) := Exit(c.master, TableOf(Exited(c.procs, w)), w);
            && m.sweeper == sent
            && (sent.Some? <==> SomeoneConnected(c.procs))
            && (sent.Some? ==>
                  && sent.value < |c.procs| && c.procs[sent.value].connected
                  && (AnotherListener(c, w) ==> sent.value in c.master.listening && sent.value != w))
  {
    var exited := Exited(c.procs, w);
    ExitAssigns(c, w);
    VacantAssigns(Cluster(c.workers, ExitMaster(c.master, w), exited));
    ExitKeepsConnections(c.procs, w);
    if AnotherListener(c, w) {
      var u: nat :| u in c.master.listening && u != w && u < |c.procs| && c.procs[u].connected;
      assert u in c.master.listening - {w} && exited[u].connected;
    }
  }

  lemma ExitKeepsConnections(procs: seq<Worker>, w: nat)
    requires w < |procs|
    ensures forall v :: 0 <= v < |procs| ==> Exited(procs, w)[v].connected == procs[v].connected
    ensures SomeoneConnected(Exited(procs, w)) <==> SomeoneConnected(procs)
  {
  }

  /** Handling the exit of the recorded sweeper hands the role on in that very step: to a connected
      worker if there is one, to a listening one if another listener is connected, and the record
      is cleared only when nobody is connected. */
  lemma HandOver(c: Cluster, w: nat)
    requires Inv(c) && Enabled(c, ExitIsHandled(w)) && c.master.sweeper == Some(w)
    ensures var c1 := Apply(c, ExitIsHandled(w));
            && (c1.master.sweeper.Some? <==> SomeoneConnected(c.procs))
            && (c1.master.sweeper.Some? ==>
                  var v := c1.master.sweeper.value;
                  && v < |c.procs| && c.procs[v].connected
                  && c1.procs[v].sent == c.procs[v].sent + 1
                  && c1.procs[v].inbox == c.procs[v].inbox + 1
                  && (AnotherListener(c, w) ==> v in c.master.listening && v != w))
  {
    HandOverAssigns(c, w);
  }

  /** With prompt exits the successor's own exit is still to come, so the role cannot get stuck. */
  lemma PromptHandOver(workers: nat, steps: seq<Step>, w: nat)
    requires workers >= 1 && Run(workers, steps).Some? && Prompt(workers, steps)
    requires Enabled(Run(workers, steps).value, ExitIsHandled(w))
    requires Run(workers, steps).value.master.sweeper == Some(w) && !Run(workers, steps).value.procs[w].connected
    ensures var c := Run(workers, steps).value;
            var c1 := Apply(c, ExitIsHandled(w));
            c1.master.sweeper.Some? ==>
              && c1.master.sweeper != Some(w)
              && !c1.procs[c1.master.sweeper.value].exitHandled
              && c1.procs[c1.master.sweeper.value].sent == 1
  {
    ReachableInv(workers, steps);
    var c := Run(workers, steps).value;
    StepKeepsInv(c, ExitIsHandled(w));
    PromptStepKeepsPrompt(c, ExitIsHandled(w));
    HandOver(c, w);
  }

  lemma RunExtends(workers: nat, steps: seq<Step>, c: Cluster, step: Step)
    requires Run(workers, steps) == Some(c) && Enabled(c, step)
    ensures Run(workers, steps + [step]) == Some(Apply(c, step))
  {
  }

  /** The role is recorded for a process that has been reaped. */
  ghost predicate ReapedSweeper(c: Cluster) {
    c.master.sweeper.Some? && c.master.sweeper.value < |c.procs| && c.procs[c.master.sweeper.value].exitHandled
  }

  ghost predicate NewestConnected(procs: seq<Worker>, v: nat) {
    && v < |procs| && procs[v].connected
    && forall u :: 0 <= u < |procs| && procs[u].connected ==> u <= v
  }

  /** Someone is always elected when somebody is connected: a listener, or else the newest connected process. */
  lemma ElectionNewest(c: Cluster)
    ensures var elected := Elect(TableOf(c.procs), c.master.listening);
            && (SomeoneConnected(c.procs) <==> elected.Some?)
            && (elected.Some? ==> elected.value < |c.procs| && c.procs[elected.value].connected)
            && (elected.Some? && elected.value !in c.master.listening ==> NewestConnected(c.procs, elected.value))
  {
    var table := TableOf(c.procs);
    ElectionAmong(c);
    ElectionOutcome(table, c.master.listening);
    forall v: nat | v < |c.procs| && c.procs[v].connected ensures WorkerRef(v, true) in table {}
  }

  lemma SuccessorAssigned(c: Cluster, w: nat)
    requires Inv(c) && Enabled(c, ExitIsHandled(w)) && c.master.sweeper == Some(w)
    ensures var sent := Exit(c.master, TableOf(Exited(c.procs, w)), w).1;
            sent.Some? ==>
              && sent.value < |c.procs|
              && (sent.value !in c.master.listening - {w} ==> NewestConnected(c.procs, sent.value))
  {
    var exited := Exited(c.procs, w);
    ExitAssigns(c, w);
    ElectionNewest(Cluster(c.workers, ExitMaster(c.master, w), exited));
    ExitKeepsConnections(c.procs, w);
  }

  lemma ExitReaps(c: Cluster, w: nat)
    requires Enabled(c, ExitIsHandled(w))
    ensures var c1 := Apply(c, ExitIsHandled(w));
            && |c1.procs| == |c.procs| + 1
            && forall v :: 0 <= v < |c.procs| ==> c1.procs[v].exitHandled == (v == w || c.procs[v].exitHandled)
  {
  }

  /** No process still to be reaped has been sent the role. */
  ghost predicate NobodyHolds(c: Cluster) {
    forall v :: 0 <= v < |c.procs| && !c.procs[v].exitHandled ==> c.procs[v].sent == 0
  }

  lemma ReapedMeansNobody(c: Cluster)
    requires Inv(c) && ReapedSweeper(c)
    ensures NobodyHolds(c) && forall v :: !Holds(c, v)
  {
  }

  lemma SuccessorIsReapedIff(c: Cluster, w: nat)
    requires Inv(c) && Enabled(c, ExitIsHandled(w)) && c.master.sweeper == Some(w)
    ensures var sent := Exit(c.master, TableOf(Exited(c.procs, w)), w).1;
            sent.Some? && sent.value < |c.procs| && (sent.value == w || c.procs[sent.value].exitHandled) <==>
            !AnotherListener(c, w) && exists v: nat :: NewestConnected(c.procs, v) && (v == w || c.procs[v].exitHandled)
  {
    HandOverAssigns(c, w);
    SuccessorAssigned(c, w);
    ChosenIsReapedIff(c, w, Exit(c.master, TableOf(Exited(c.procs, w)), w).1);
  }

  lemma ChosenIsReapedIff(c: Cluster, w: nat, sent: Option<nat>)
    requires CountsOk(c) && (sent.Some? <==> SomeoneConnected(c.procs))
    requires sent.Some? ==>
               && sent.value < |c.procs| && c.procs[sent.value].connected
               && (AnotherListener(c, w) ==> sent.value in c.master.listening && sent.value != w)
               && (sent.value !in c.master.listening - {w} ==> NewestConnected(c.procs, sent.value))
    ensures sent.Some? && sent.value < |c.procs| && (sent.value == w || c.procs[sent.value].exitHandled) <==>
            !AnotherListener(c, w) && exists v: nat :: NewestConnected(c.procs, v) && (v == w || c.procs[v].exitHandled)
  {
    if sent.Some? {
      var v := sent.value;
      if v in c.master.listening - {w} {
        assert v in OnlineNow(c.procs);
        assert AnotherListener(c, w);
      } else {
        assert NewestConnected(c.procs, v) && !AnotherListener(c, w);
      }
    }
  }

  /** Exactly when handing on the role fails: the sweeper's exit leaves the role with a reaped process if and only if no
      other connected worker listens, and the newest connected process is the sweeper itself or already reaped.  No
      process still to be reaped has then been sent the role. */
  lemma HandOverFailsIff(c: Cluster, w: nat)
    requires Inv(c) && Enabled(c, ExitIsHandled(w)) && c.master.sweeper == Some(w)
    ensures var c1 := Apply(c, ExitIsHandled(w));
            && (ReapedSweeper(c1) <==>
                !AnotherListener(c, w) && exists v: nat :: NewestConnected(c.procs, v) && (v == w || c.procs[v].exitHandled))
            && (ReapedSweeper(c1) ==> NobodyHolds(c1))
  {
    var c1 := Apply(c, ExitIsHandled(w));
    HandOverAssigns(c, w);
    SuccessorIsReapedIff(c, w);
    ExitReaps(c, w);
    StepKeepsInv(c, ExitIsHandled(w));
    if ReapedSweeper(c1) {
      ReapedMeansNobody(c1);
    }
  }

  /** The role is recorded for the reaped process `w`. */
  ghost predicate DeadRecord(c: Cluster, w: nat) {
    c.master.sweeper == Some(w) && w < |c.procs| && c.procs[w].exitHandled
  }

  /** The role is recorded for a reaped process whose channel is still open. */
  ghost predicate StuckOn(c: Cluster, w: nat) {
    DeadRecord(c, w) && c.procs[w].connected
  }

  /** The step is a worker starting to listen that fills the house, with the channel of `w` closed. */
  ghost predicate TakesOver(c: Cluster, step: Step, w: nat) {
    step.Listens? && |c.master.listening + {step.w}| == c.workers && w < |c.procs| && !c.procs[w].connected
  }

  lemma ListensMovesRecord(c: Cluster, v: nat, w: nat)
    requires Inv(c) && Enabled(c, Listens(v)) && DeadRecord(c, w)
    ensures Apply(c, Listens(v)).master.sweeper != Some(w) <==> TakesOver(c, Listens(v), w)
  {
    var c1 := c.(master := c.master.(listening := c.master.listening + {v}));
    TableHolds(c.procs, w);
    ElectionAmong(c1);
    AssignOutcome(c1);
  }

  lemma ReapedStays(c: Cluster, step: Step, w: nat)
    requires Inv(c) && Enabled(c, step) && w < |c.procs| && c.procs[w].exitHandled
    ensures var c1 := Apply(c, step);
            w < |c1.procs| && c1.procs[w].exitHandled && (c1.procs[w].connected ==> c.procs[w].connected)
  {
    match step
    case Listens(v) => SendKeepsProcess(c.procs, Listening(c.master, TableOf(c.procs), c.workers, v).1, w);
    case ExitIsHandled(v) =>
      var exited := Exited(c.procs, v);
      SendKeepsProcess(exited, Exit(c.master, TableOf(exited), v).1, w);
    case _ =>
  }

  lemma SendKeepsProcess(procs: seq<Worker>, to: Option<nat>, w: nat)
    requires w < |procs|
    ensures |Send(procs, to)| == |procs|
    ensures Send(procs, to)[w].exitHandled == procs[w].exitHandled && Send(procs, to)[w].connected == procs[w].connected
  {
  }

  /** Only one thing moves the record of a reaped sweeper: a worker that fills the house by listening once the channel of
      the dead process has closed. The closing of the channel itself does not. */
  lemma DeadRecordMovesIff(c: Cluster, step: Step, w: nat)
    requires Inv(c) && Enabled(c, step) && DeadRecord(c, w)
    ensures Apply(c, step).master.sweeper != Some(w) <==> TakesOver(c, step, w)
  {
    if step.Listens? {
      ListensMovesRecord(c, step.w, w);
    }
  }

  /** The process is out of the table and does not have the role. */
  ghost predicate Gone(c: Cluster, w: nat) {
    w < |c.procs| && c.procs[w].exitHandled && !c.procs[w].connected && c.master.sweeper != Some(w)
  }

  /** A process out of the table is never elected again. */
  lemma GoneStays(c: Cluster, step: Step, w: nat)
    requires Inv(c) && Enabled(c, step) && Gone(c, w)
    ensures Gone(Apply(c, step), w)
  {
    ReapedStays(c, step, w);
    match step
    case Listens(v) => AssignOutcome(c.(master := c.master.(listening := c.master.listening + {v})));
    case ExitIsHandled(v) =>
      if c.master.sweeper == Some(v) {
        HandOverAssigns(c, v);
      }
    case _ =>
  }

  /** Some step of `more`, taken after `steps`, moves the record away from `w`. */
  ghost predicate SomeoneTakesOver(workers: nat, steps: seq<Step>, more: seq<Step>, w: nat) {
    more != [] &&
    var before, last := more[..|more| - 1], more[|more| - 1];
    var c := Run(workers, steps + before);
    SomeoneTakesOver(workers, steps, before, w) || (c.Some? && TakesOver(c.value, last, w))
  }

  /** Where the record of a reaped sweeper is after any continuation: where it was, with nobody else holding the role, as
      long as nobody takes over; and gone for good from then on. */
  ghost predicate RecordAfter(c: Cluster, w: nat, takenOver: bool) {
    if takenOver then Gone(c, w) else DeadRecord(c, w)
  }

  lemma RecordStep(c: Cluster, step: Step, w: nat, takenOver: bool)
    requires Inv(c) && Enabled(c, step) && RecordAfter(c, w, takenOver)
    ensures RecordAfter(Apply(c, step), w, takenOver || TakesOver(c, step, w))
  {
    ReapedStays(c, step, w);
    if takenOver {
      GoneStays(c, step, w);
    } else {
      DeadRecordMovesIff(c, step, w);
    }
  }

  lemma {:induction false} RecordAfterRun(workers: nat, steps: seq<Step>, more: seq<Step>, w: nat)
    requires workers >= 1 && Run(workers, steps).Some? && Run(workers, steps + more).Some?
    requires DeadRecord(Run(workers, steps).value, w)
    ensures RecordAfter(Run(workers, steps + more).value, w, SomeoneTakesOver(workers, steps, more, w))
  {
    if more == [] {
      assert steps + more == steps;
    } else {
      var c := LastStep(workers, steps, more);
      var before, last := more[..|more| - 1], more[|more| - 1];
      RecordAfterRun(workers, steps, before, w);
      ReachableInv(workers, steps + before);
      RecordStep(c, last, w, SomeoneTakesOver(workers, steps, before, w));
    }
  }

  /** A reaped sweeper is still on record after any continuation if and only if no worker filled the house by listening
      after the dead process's channel had closed; and while it is, no live worker has the role. */
  lemma DeadRecordLastsUntilTakenOver(workers: nat, steps: seq<Step>, more: seq<Step>, w: nat)
    requires workers >= 1 && Run(workers, steps).Some? && Run(workers, steps + more).Some?
    requires DeadRecord(Run(workers, steps).value, w)
    ensures var c := Run(workers, steps + more).value;
            && (c.master.sweeper == Some(w) <==> !SomeoneTakesOver(workers, steps, more, w))
            && (c.master.sweeper == Some(w) ==> NobodyHolds(c) && forall v :: !Holds(c, v))
  {
    RecordAfterRun(workers, steps, more, w);
    ReachableInv(workers, steps + more);
    var c := Run(workers, steps + more).value;
    if c.master.sweeper == Some(w) {
      ReapedMeansNobody(c);
    }
  }

  /** When a worker starting to listen fills the house, the role ends up with a listener exactly when it was not recorded
      for a reaped process whose channel is still open. */
  lemma FullHouseRecordsAListenerIff(c: Cluster, w: nat)
    requires Inv(c) && Enabled(c, Listens(w)) && |c.master.listening + {w}| == c.workers
    ensures var c1 := Apply(c, Listens(w));
            && c1.master.listening == c.master.listening + {w}
            && c1.master.sweeper.Some?
            && (c1.master.sweeper.value in c1.master.listening
                <==> !(c.master.sweeper.Some? && StuckOn(c, c.master.sweeper.value)))
  {
    RoleIsGivenWhenAllAreUp(c, w);
    StepKeepsInv(c, Listens(w));
    var c1 := Apply(c, Listens(w));
    ListensKeepsExits(c, w);
    OnlineIsUnexited(c1.procs);
    SubsetCardinality(c1.master.listening, Unexited(c1.procs));
    ElectionAmong(c.(master := c.master.(listening := c.master.listening + {w})));
    if c.master.sweeper.Some? {
      TableHolds(c.procs, c.master.sweeper.value);
    }
  }

  lemma ListensKeepsExits(c: Cluster, w: nat)
    requires Inv(c) && Enabled(c, Listens(w))
    ensures var c1 := Apply(c, Listens(w));
            && c1.workers == c.workers && |c1.procs| == |c.procs|
            && forall v :: 0 <= v < |c.procs| ==> c1.procs[v].exitHandled == c.procs[v].exitHandled
  {
  }

  /** For instance, a sweeper whose exit is handled while only its own channel is still open is elected to succeed
      itself, dead as it is. */
  lemma DeadSweeperSucceedsItself(c: Cluster, w: nat)
    requires Inv(c) && Enabled(c, ExitIsHandled(w)) && c.master.sweeper == Some(w)
    requires forall v :: 0 <= v < |c.procs| ==> (c.procs[v].connected <==> v == w)
    ensures var c1 := Apply(c, ExitIsHandled(w));
            && StuckOn(c1, w) && NobodyHolds(c1)
            && |c1.procs| == |c.procs| + 1 && c1.procs[|c.procs|] == FORKED
  {
    assert NewestConnected(c.procs, w);
    HandOver(c, w);
    HandOverFailsIff(c, w);
  }

  /** Such a state is reachable: the only worker comes online, listens, and dies with its channel open. */
  lemma DeadSweeperIsReachable() returns (steps: seq<Step>)
    ensures Run(1, steps).Some?
    ensures var c := Run(1, steps).value;
            && Enabled(c, ExitIsHandled(0)) && c.master.sweeper == Some(0) && |c.procs| == 1
            && forall v :: 0 <= v < |c.procs| ==> (c.procs[v].connected <==> v == 0)
  {
    var c := Initial(1);
    steps := [];
    RunExtends(1, steps, c, GoesOnline(0));
    steps, c := steps + [GoesOnline(0)], Apply(c, GoesOnline(0));
    ReachableInv(1, steps);
    RoleIsGivenWhenAllAreUp(c, 0);
    RunExtends(1, steps, c, Listens(0));
    steps, c := steps + [Listens(0)], Apply(c, Listens(0));
    ReachableInv(1, steps);
    RunExtends(1, steps, c, Dies(0));
    steps := steps + [Dies(0)];
  }

  /** And it can last through a full house: the replacement comes online and listens, so that all workers do, and the
      role is still recorded for the dead process. */
  lemma FullHouseWithDeadSweeper() returns (steps: seq<Step>)
    ensures Run(1, steps).Some?
    ensures var c := Run(1, steps).value;
            && |c.master.listening| == c.workers && StuckOn(c, 0) && forall v :: !Holds(c, v)
  {
    var dead := DeadSweeperIsReachable();
    var c := Run(1, dead).value;
    ReachableInv(1, dead);
    DeadSweeperSucceedsItself(c, 0);
    RunExtends(1, dead, c, ExitIsHandled(0));
    steps := ReplacementListens(dead + [ExitIsHandled(0)], Apply(c, ExitIsHandled(0)));
    ReachableInv(1, steps);
    ReapedMeansNobody(Run(1, steps).value);
  }

  lemma ReplacementListens(stuck: seq<Step>, c: Cluster) returns (steps: seq<Step>)
    requires Run(1, stuck) == Some(c) && |c.procs| == 2 && c.procs[1] == FORKED && StuckOn(c, 0)
    ensures Run(1, steps).Some?
    ensures var c1 := Run(1, steps).value; |c1.master.listening| == c1.workers == 1 && StuckOn(c1, 0)
  {
    ReachableInv(1, stuck);
    RecordStays(c, GoesOnline(1), 0);
    RunExtends(1, stuck, c, GoesOnline(1));
    var up, c1 := stuck + [GoesOnline(1)], Apply(c, GoesOnline(1));
    ReachableInv(1, up);
    RecordStays(c1, Listens(1), 0);
    RunExtends(1, up, c1, Listens(1));
    steps := up + [Listens(1)];
    RoleIsGivenWhenAllAreUp(c1, 1);
    WorkerCounts(1, steps);
    RunKeepsWorkers(1, steps);
    var listening := Run(1, steps).value.master.listening;
    assert 1 in listening;
    SubsetCardinality({1}, listening);
  }

  /** Even the closing of the channel does not end it: all workers listen, the recorded sweeper is dead and disconnected,
      and no live worker has the role. */
  lemma FullHouseWithDepartedSweeper() returns (steps: seq<Step>)
    ensures Run(1, steps).Some?
    ensures var c := Run(1, steps).value;
            && |c.master.listening| == c.workers && DeadRecord(c, 0) && !InTable(c.procs[0]) && forall v :: !Holds(c, v)
  {
    var stuck := FullHouseWithDeadSweeper();
    var c := Run(1, stuck).value;
    ReachableInv(1, stuck);
    RunExtends(1, stuck, c, Disconnects(0));
    steps := stuck + [Disconnects(0)];
    ReachableInv(1, steps);
    ReapedMeansNobody(Run(1, steps).value);
  }
}
