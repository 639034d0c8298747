/** The worker process's side of the retention sweep: three flags that join the master's
    assignment message with the app config, whichever comes first, and start the sweep once. */
module SweepWorker {
  import opened Options

  /** The three flags of one worker process, and the options of every sweep it has started. */
  datatype Flags = Flags(shouldStart: bool, options: Option<nat>, started: bool, sweeps: seq<nat>)

  const FRESH: Flags := Flags(false, None, false, [])

  /** What reaches a worker: the assignment, any other message, or its own loaded config. */
  datatype Event = SweepMessage | OtherMessage | ConfigLoaded(options: nat)

  function StartOnce(f: Flags): Flags {
    if !f.shouldStart || f.started || f.options.None? then f
    else f.(started := true, sweeps := f.sweeps + [f.options.value])
  }

  function Handle(f: Flags, e: Event): Flags {
    match e
    case SweepMessage => StartOnce(f.(shouldStart := true))
    case OtherMessage => f
    case ConfigLoaded(options) => StartOnce(f.(options := Some(options)))
  }

  function HandleAll(es: seq<Event>): Flags {
    if es == [] then FRESH else Handle(HandleAll(es[..|es| - 1]), es[|es| - 1])
  }

  /** The options in force after the events, independently of the flags. */
  function LatestConfig(es: seq<Event>): Option<nat> {
    if es == [] then None
    else if es[|es| - 1].ConfigLoaded? then Some(es[|es| - 1].options)
    else LatestConfig(es[..|es| - 1])
  }

  ghost predicate Assigned(es: seq<Event>) {
    SweepMessage in es
  }

  ghost predicate Ready(es: seq<Event>) {
    Assigned(es) && LatestConfig(es).Some?
  }

  /** What the flags remember of the events. */
  lemma {:induction false} FlagsFollowEvents(es: seq<Event>)
    ensures HandleAll(es).shouldStart <==> Assigned(es)
    ensures HandleAll(es).options == LatestConfig(es)
    ensures HandleAll(es).started <==> Ready(es)
    ensures |HandleAll(es).sweeps| == if Ready(es) then 1 else 0
  {
    if es != [] {
      FlagsFollowEvents(es[..|es| - 1]);
      assert es == es[..|es| - 1] + [es[|es| - 1]];
    }
  }

  /** However the assignment (even sent repeatedly) and the config loads interleave, the sweep is
      started exactly when both have arrived, exactly once, at the first moment both are there,
      and with the options in force at that moment. */
  lemma {:induction false} SweepStartsOnceAtTheJoin(es: seq<Event>)
    ensures !Ready(es) ==> HandleAll(es).sweeps == []
    ensures Ready(es) ==>
              exists j :: 0 <= j < |es| && !Ready(es[..j]) && Ready(es[..j + 1])
                          && HandleAll(es).sweeps == [LatestConfig(es[..j + 1]).value]
  {
    FlagsFollowEvents(es);
    if Ready(es) {
      var n := |es| - 1;
      var before := es[..n];
      FlagsFollowEvents(before);
      assert es[..n + 1] == es;
      if Ready(before) {
        SweepStartsOnceAtTheJoin(before);
        var j :| 0 <= j < n && !Ready(before[..j]) && Ready(before[..j + 1])
                 && HandleAll(before).sweeps == [LatestConfig(before[..j + 1]).value];
        assert before[..j] == es[..j] && before[..j + 1] == es[..j + 1];
      } else {
        assert !Ready(es[..n]) && Ready(es[..n + 1]);
      }
    }
  }

  /** The worker process, whose handlers update the flags. */
  class Process {
    var shouldStartExpiredFileSweep: bool
    var expiredFileSweepOptions: Option<nat>
    var expiredFileSweepStarted: bool
    var sweeps: seq<nat>

    ghost function View(): Flags
      reads this
    {
      Flags(shouldStartExpiredFileSweep, expiredFileSweepOptions, expiredFileSweepStarted, sweeps)
    }

    constructor ()
      ensures View() == FRESH
    {
      shouldStartExpiredFileSweep := false;
      expiredFileSweepOptions := None;
      expiredFileSweepStarted := false;
      sweeps := [];
    }

    method StartExpiredFileSweepOnce()
      modifies this
      ensures View() == StartOnce(old(View()))
    {
      if !shouldStartExpiredFileSweep || expiredFileSweepStarted || expiredFileSweepOptions.None? {
        return;
      }
      expiredFileSweepStarted := true;
      sweeps := sweeps + [expiredFileSweepOptions.value];
    }

    method OnMessage(isSweepAssignment: bool)
      modifies this
      ensures View() == Handle(old(View()), if isSweepAssignment then SweepMessage else OtherMessage)
    {
      if isSweepAssignment {
        shouldStartExpiredFileSweep := true;
        StartExpiredFileSweepOnce();
      }
    }

    method OnConfigLoaded(options: nat)
      modifies this
      ensures View() == Handle(old(View()), ConfigLoaded(options))
    {
      expiredFileSweepOptions := Some(options);
      StartExpiredFileSweepOnce();
    }
  }
}
