/** Counting violations and banning at every multiple of an interval.  The count is read, increased and written back
    in separate steps, so concurrent calls for one user can interleave between them. */
module Violations {
  import opened Options

  // ---------------------------------------------------------------- the threshold test

  /** How many multiples of the interval a count has reached; `/` floors here, for negative counts too. */
  function Threshold(count: int, interval: nat): int
    requires interval > 0
  {
    count / interval
  }

  predicate Crosses(prev: int, count: int, interval: nat)
    requires interval > 0
  {
    Threshold(prev, interval) < Threshold(count, interval)
  }

  lemma ThresholdReached(count: int, interval: nat, k: int)
    requires interval > 0
    ensures Threshold(count, interval) >= k <==> count >= k * interval
  {
    var t := Threshold(count, interval);
    assert count == t * interval + count % interval && 0 <= count % interval < interval;
    if t >= k {
      MulMonotone(k, t, interval);
    } else {
      MulMonotone(t + 1, k, interval);
      assert (t + 1) * interval == t * interval + interval;
    }
  }

  lemma MulMonotone(a: int, b: int, n: nat)
    requires a <= b
    ensures a * n <= b * n
  {
  }

  // ---------------------------------------------------------------- interleaved calls

  /** Where a call for the user stands: not yet read, read, written, or past the ban check. */
  datatype Phase = Started | HasRead(prev: nat) | HasWritten(prev: nat, count: nat) | Checked(prev: nat, count: nat, fired: bool)

  datatype Call = Call(score: nat, phase: Phase)

  /** The stored count of one user (a missing one counts as 0) and all calls ever made. */
  datatype State = State(stored: nat, calls: seq<Call>)

  datatype Step = Arrives(score: nat) | Reads(i: nat) | Writes(i: nat) | Checks(i: nat)

  const INITIAL: State := State(0, [])

  predicate Enabled(s: State, step: Step) {
    match step
    case Arrives(_) => true
    case Reads(i) => i < |s.calls| && s.calls[i].phase.Started?
    case Writes(i) => i < |s.calls| && s.calls[i].phase.HasRead?
    case Checks(i) => i < |s.calls| && s.calls[i].phase.HasWritten?
  }

  function Apply(s: State, step: Step, interval: nat): State
    requires interval > 0 && Enabled(s, step)
  {
    match step
    case Arrives(score) => s.(calls := s.calls + [Call(score, Started)])
    case Reads(i) => s.(calls := s.calls[i := s.calls[i].(phase := HasRead(s.stored))])
    case Writes(i) =>
      var prev := s.calls[i].phase.prev;
      var count := prev + s.calls[i].score;
      State(count, s.calls[i := s.calls[i].(phase := HasWritten(prev, count))])
    case Checks(i) =>
      var HasWritten(prev, count) := s.calls[i].phase;
      s.(calls := s.calls[i := s.calls[i].(phase := Checked(prev, count, Crosses(prev, count, interval)))])
  }

  function Run(steps: seq<Step>, interval: nat): Option<State>
    requires interval > 0
  {
    if steps == [] then Some(INITIAL)
    else
      var before := Run(steps[..|steps| - 1], interval);
      if before.Some? && Enabled(before.value, steps[|steps| - 1])
      then Some(Apply(before.value, steps[|steps| - 1], interval))
      else None
  }

  predicate Wrote(c: Call) {
    c.phase.HasWritten? || c.phase.Checked?
  }

  /** The call took the count across the k-th multiple. */
  ghost predicate Took(c: Call, k: nat, interval: nat) {
    Wrote(c) && c.phase.prev < k * interval <= c.phase.count
  }

  ghost predicate SomeTook(s: State, k: nat, interval: nat) {
    exists i :: 0 <= i < |s.calls| && Took(s.calls[i], k, interval)
  }

  /** Nothing has seen the count at the k-th multiple yet. */
  ghost predicate Below(s: State, bound: int) {
    && s.stored < bound
    && forall i :: 0 <= i < |s.calls| ==>
                     && (s.calls[i].phase.HasRead? ==> s.calls[i].phase.prev < bound)
                     && (Wrote(s.calls[i]) ==> s.calls[i].phase.count < bound)
  }

  function WrittenSum(calls: seq<Call>): nat {
    if calls == [] then 0
    else WrittenSum(calls[..|calls| - 1]) + if Wrote(calls[|calls| - 1]) then calls[|calls| - 1].score else 0
  }

  lemma {:induction false} WrittenSumUpdate(calls: seq<Call>, i: nat, c: Call)
    requires i < |calls| && c.score == calls[i].score && (Wrote(calls[i]) ==> Wrote(c))
    ensures WrittenSum(calls[i := c]) == WrittenSum(calls) + if Wrote(c) && !Wrote(calls[i]) then c.score else 0
  {
    var n := |calls| - 1;
    if i == n {
      assert calls[i := c][..n] == calls[..n];
    } else {
      WrittenSumUpdate(calls[..n], i, c);
      assert calls[i := c][..n] == calls[..n][i := c];
    }
  }

  /** No read value or written count exceeds the scores written by then. */
  ghost predicate Bounded(s: State) {
    && s.stored <= WrittenSum(s.calls)
    && forall i :: 0 <= i < |s.calls| && s.calls[i].phase.HasRead? ==> s.calls[i].phase.prev <= WrittenSum(s.calls)
  }

  ghost predicate ChecksHonest(s: State, interval: nat)
    requires interval > 0
  {
    forall i :: 0 <= i < |s.calls| && s.calls[i].phase.Checked? ==>
                  var p := s.calls[i].phase; p.fired <==> Crosses(p.prev, p.count, interval)
  }

  lemma StepKeepsBounded(s: State, step: Step, interval: nat)
    requires interval > 0 && Enabled(s, step) && Bounded(s)
    ensures Bounded(Apply(s, step, interval))
  {
    StepWrittenSum(s, step, interval);
  }

  lemma StepWrittenSum(s: State, step: Step, interval: nat)
    requires interval > 0 && Enabled(s, step)
    ensures WrittenSum(Apply(s, step, interval).calls)
            == WrittenSum(s.calls) + if step.Writes? then s.calls[step.i].score else 0
  {
    var t := Apply(s, step, interval);
    if step.Arrives? {
      assert t.calls[..|s.calls|] == s.calls;
    } else {
      WrittenSumUpdate(s.calls, step.i, t.calls[step.i]);
    }
  }

  lemma StepKeepsTaken(s: State, step: Step, interval: nat, k: nat)
    requires interval > 0 && Enabled(s, step)
    ensures SomeTook(s, k, interval) ==> SomeTook(Apply(s, step, interval), k, interval)
    ensures Below(s, k * interval) ==>
              Below(Apply(s, step, interval), k * interval) || SomeTook(Apply(s, step, interval), k, interval)
  {
    var t := Apply(s, step, interval);
    if SomeTook(s, k, interval) {
      var i :| 0 <= i < |s.calls| && Took(s.calls[i], k, interval);
      assert Took(t.calls[i], k, interval);
    }
    if Below(s, k * interval) && step.Writes? {
      if t.stored >= k * interval {
        assert Took(t.calls[step.i], k, interval);
      }
    }
  }

  lemma {:induction false} ReachableState(steps: seq<Step>, interval: nat, k: nat)
    requires interval > 0 && k >= 1 && Run(steps, interval).Some?
    ensures Bounded(Run(steps, interval).value) && ChecksHonest(Run(steps, interval).value, interval)
    ensures Below(Run(steps, interval).value, k * interval) || SomeTook(Run(steps, interval).value, k, interval)
  {
    if steps == [] {
      MulMonotone(1, k, interval);
    } else {
      var before := steps[..|steps| - 1];
      var s := Run(before, interval).value;
      ReachableState(before, interval, k);
      StepKeepsBounded(s, steps[|steps| - 1], interval);
      StepKeepsTaken(s, steps[|steps| - 1], interval, k);
    }
  }

  /** Under any interleaving the stored count never exceeds the scores written. */
  lemma CountNeverExceedsScores(steps: seq<Step>, interval: nat)
    requires interval > 0 && Run(steps, interval).Some?
    ensures Run(steps, interval).value.stored <= WrittenSum(Run(steps, interval).value.calls)
  {
    ReachableState(steps, interval, 1);
  }

  lemma {:induction false} TakenStaysTaken(steps: seq<Step>, j: nat, interval: nat, k: nat)
    requires interval > 0 && Run(steps, interval).Some? && j <= |steps|
    ensures Run(steps[..j], interval).Some?
    ensures SomeTook(Run(steps[..j], interval).value, k, interval) ==> SomeTook(Run(steps, interval).value, k, interval)
  {
    if j == |steps| {
      assert steps[..j] == steps;
    } else {
      var before := steps[..|steps| - 1];
      assert before[..j] == steps[..j];
      TakenStaysTaken(before, j, interval, k);
      StepKeepsTaken(Run(before, interval).value, steps[|steps| - 1], interval, k);
    }
  }

  /** If the count ever stood at the k-th multiple, however the calls interleaved, then some call took it across that
      multiple, and that call bans as soon as it is through its check. */
  lemma EveryMultipleReachedIsBanned(steps: seq<Step>, j: nat, interval: nat, k: nat) returns (i: nat)
    requires interval > 0 && k >= 1 && Run(steps, interval).Some? && j <= |steps|
    requires Run(steps[..j], interval).Some? && Run(steps[..j], interval).value.stored >= k * interval
    ensures var calls := Run(steps, interval).value.calls;
            && i < |calls| && Took(calls[i], k, interval)
            && (calls[i].phase.Checked? ==> calls[i].phase.fired)
  {
    ReachableState(steps[..j], interval, k);
    TakenStaysTaken(steps, j, interval, k);
    ReachableState(steps, interval, k);
    var s := Run(steps, interval).value;
    i :| i < |s.calls| && Took(s.calls[i], k, interval);
    ThresholdReached(s.calls[i].phase.prev, interval, k);
    ThresholdReached(s.calls[i].phase.count, interval, k);
  }

  lemma FiredTook(c: Call, interval: nat)
    requires interval > 0 && c.phase.Checked? && Crosses(c.phase.prev, c.phase.count, interval)
    ensures Threshold(c.phase.count, interval) >= 1 && Took(c, Threshold(c.phase.count, interval), interval)
  {
    var k := Threshold(c.phase.count, interval);
    ThresholdReached(c.phase.prev, interval, 0);
    ThresholdReached(c.phase.prev, interval, k);
    ThresholdReached(c.phase.count, interval, k);
  }

  /** A call that bans did take the count across a multiple. */
  lemma BansOnlyOnCrossing(steps: seq<Step>, interval: nat, i: nat)
    requires interval > 0 && Run(steps, interval).Some? && i < |Run(steps, interval).value.calls|
    requires Run(steps, interval).value.calls[i].phase.Checked? && Run(steps, interval).value.calls[i].phase.fired
    ensures exists k: nat :: k >= 1 && Took(Run(steps, interval).value.calls[i], k, interval)
  {
    ReachableState(steps, interval, 1);
    FiredTook(Run(steps, interval).value.calls[i], interval);
  }

  function TwoReadsFirst(): seq<Step> {
    [] + [Arrives(1)] + [Arrives(1)] + [Reads(0)] + [Reads(1)]
  }

  lemma BothReadZero()
    ensures Run(TwoReadsFirst(), 2) == Some(State(0, [Call(1, HasRead(0)), Call(1, HasRead(0))]))
  {
    var c, r := Call(1, Started), Call(1, HasRead(0));
    RunExtends([], INITIAL, Arrives(1), 2, State(0, [c]));
    assert [c] + [c] == [c, c];
    RunExtends([] + [Arrives(1)], State(0, [c]), Arrives(1), 2, State(0, [c, c]));
    var two := [] + [Arrives(1)] + [Arrives(1)];
    assert [c, c][0 := r] == [r, c];
    RunExtends(two, State(0, [c, c]), Reads(0), 2, State(0, [r, c]));
    assert [r, c][1 := r] == [r, r];
    RunExtends(two + [Reads(0)], State(0, [r, c]), Reads(1), 2, State(0, [r, r]));
  }

  /** The count can fall short of the scores: two calls that read before either writes count once, and miss a ban. */
  lemma UpdatesCanBeLost()
    ensures var steps := TwoReadsFirst() + [Writes(0)] + [Writes(1)];
            && Run(steps, 2).Some?
            && WrittenSum(Run(steps, 2).value.calls) == 2
            && Run(steps, 2).value.stored == 1
            && !SomeTook(Run(steps, 2).value, 1, 2)
  {
    var r, w := Call(1, HasRead(0)), Call(1, HasWritten(0, 1));
    BothReadZero();
    assert [r, r][0 := w] == [w, r];
    RunExtends(TwoReadsFirst(), State(0, [r, r]), Writes(0), 2, State(1, [w, r]));
    assert [w, r][1 := w] == [w, w];
    RunExtends(TwoReadsFirst() + [Writes(0)], State(1, [w, r]), Writes(1), 2, State(1, [w, w]));
    assert [w, w][..1] == [w] && [w][..0] == [];
    assert WrittenSum([w]) == 1;
  }

  lemma RunExtends(steps: seq<Step>, s: State, step: Step, interval: nat, t: State)
    requires interval > 0 && Run(steps, interval) == Some(s) && Enabled(s, step) && t == Apply(s, step, interval)
    ensures Run(steps + [step], interval) == Some(t)
  {
  }

  // ---------------------------------------------------------------- when nothing is lost

  /** The calls whose scores are in the count: the last to write, those in the value it had read, and so on back. */
  function Seen(steps: seq<Step>): set<nat> {
    if steps == [] then {}
    else
      var before, last := steps[..|steps| - 1], steps[|steps| - 1];
      if last.Writes? then SeenByRead(before, last.i) + {last.i} else Seen(before)
  }

  /** The calls whose scores are in the value call `i` read. */
  function SeenByRead(steps: seq<Step>, i: nat): set<nat> {
    if steps == [] then {}
    else
      var before, last := steps[..|steps| - 1], steps[|steps| - 1];
      if last == Reads(i) then Seen(before) else SeenByRead(before, i)
  }

  function SeenSum(calls: seq<Call>, seen: set<nat>): nat {
    if calls == [] then 0
    else SeenSum(calls[..|calls| - 1], seen) + if |calls| - 1 in seen then calls[|calls| - 1].score else 0
  }

  ghost predicate AllWrote(calls: seq<Call>, seen: set<nat>) {
    forall i :: i in seen ==> i < |calls| && Wrote(calls[i])
  }

  lemma {:induction false} SeenSumUpdate(calls: seq<Call>, i: nat, c: Call, seen: set<nat>)
    requires i < |calls| && c.score == calls[i].score
    ensures SeenSum(calls[i := c], seen) == SeenSum(calls, seen)
  {
    var n := |calls| - 1;
    if i == n {
      assert calls[i := c][..n] == calls[..n];
    } else {
      SeenSumUpdate(calls[..n], i, c, seen);
      assert calls[i := c][..n] == calls[..n][i := c];
    }
  }

  lemma {:induction false} SeenSumAdds(calls: seq<Call>, i: nat, seen: set<nat>)
    requires i < |calls| && i !in seen
    ensures SeenSum(calls, seen + {i}) == SeenSum(calls, seen) + calls[i].score
  {
    var n := |calls| - 1;
    if i == n {
      SeenSumFrame(calls[..n], i, seen);
    } else {
      SeenSumAdds(calls[..n], i, seen);
    }
  }

  lemma {:induction false} SeenSumFrame(calls: seq<Call>, i: nat, seen: set<nat>)
    requires |calls| <= i
    ensures SeenSum(calls, seen + {i}) == SeenSum(calls, seen)
  {
    if calls != [] {
      SeenSumFrame(calls[..|calls| - 1], i, seen);
    }
  }

  /** The stored count and every value read are the sums of the scores seen. */
  ghost predicate Tracks(s: State, steps: seq<Step>) {
    && s.stored == SeenSum(s.calls, Seen(steps)) && AllWrote(s.calls, Seen(steps))
    && forall i :: 0 <= i < |s.calls| && s.calls[i].phase.HasRead? ==>
                     s.calls[i].phase.prev == SeenSum(s.calls, SeenByRead(steps, i)) && AllWrote(s.calls, SeenByRead(steps, i))
  }

  /** A step that does not write leaves the sums over the calls seen before it alone. */
  lemma StepKeepsSeenSum(s: State, step: Step, interval: nat, seen: set<nat>)
    requires interval > 0 && Enabled(s, step) && AllWrote(s.calls, seen)
    ensures SeenSum(Apply(s, step, interval).calls, seen) == SeenSum(s.calls, seen)
    ensures AllWrote(Apply(s, step, interval).calls, seen)
  {
    var t := Apply(s, step, interval);
    if step.Arrives? {
      assert t.calls[..|s.calls|] == s.calls;
    } else {
      SeenSumUpdate(s.calls, step.i, t.calls[step.i], seen);
    }
  }

  lemma StepKeepsTracks(s: State, steps: seq<Step>, step: Step, interval: nat)
    requires interval > 0 && Enabled(s, step) && Tracks(s, steps)
    ensures Tracks(Apply(s, step, interval), steps + [step])
  {
    var t, after := Apply(s, step, interval), steps + [step];
    assert after[..|steps|] == steps;
    StepKeepsSeenSum(s, step, interval, Seen(steps));
    forall i | 0 <= i < |t.calls| && t.calls[i].phase.HasRead?
      ensures t.calls[i].phase.prev == SeenSum(t.calls, SeenByRead(after, i)) && AllWrote(t.calls, SeenByRead(after, i))
    {
      if step != Reads(i) {
        assert s.calls[i] == t.calls[i];
        StepKeepsSeenSum(s, step, interval, SeenByRead(steps, i));
      }
    }
    if step.Writes? {
      StepKeepsSeenSum(s, step, interval, SeenByRead(steps, step.i));
      SeenSumAdds(t.calls, step.i, SeenByRead(steps, step.i));
    }
  }

  lemma {:induction false} RunTracks(steps: seq<Step>, interval: nat)
    requires interval > 0 && Run(steps, interval).Some?
    ensures Tracks(Run(steps, interval).value, steps)
  {
    if steps != [] {
      var before := steps[..|steps| - 1];
      RunTracks(before, interval);
      assert before + [steps[|steps| - 1]] == steps;
      StepKeepsTracks(Run(before, interval).value, before, steps[|steps| - 1], interval);
    }
  }

  lemma {:induction false} AllSeenIff(calls: seq<Call>, seen: set<nat>)
    requires forall i :: 0 <= i < |calls| && i in seen ==> Wrote(calls[i])
    ensures SeenSum(calls, seen) <= WrittenSum(calls)
    ensures SeenSum(calls, seen) == WrittenSum(calls) <==>
            forall i :: 0 <= i < |calls| && Wrote(calls[i]) && i !in seen ==> calls[i].score == 0
  {
    if calls != [] {
      var n := |calls| - 1;
      AllSeenIff(calls[..n], seen);
      assert calls == calls[..n] + [calls[n]];
    }
  }

  /** Under any interleaving the count is the sum of the scores seen, and so the sum of all scores written exactly when
      no write with a score went unseen. */
  lemma CountIsWhatWasSeen(steps: seq<Step>, interval: nat)
    requires interval > 0 && Run(steps, interval).Some?
    ensures var s := Run(steps, interval).value;
            && s.stored == SeenSum(s.calls, Seen(steps))
            && (s.stored == WrittenSum(s.calls) <==>
                forall i :: 0 <= i < |s.calls| && Wrote(s.calls[i]) && i !in Seen(steps) ==> s.calls[i].score == 0)
  {
    RunTracks(steps, interval);
    AllSeenIff(Run(steps, interval).value.calls, Seen(steps));
  }

  /** Something was written since call `i` read. */
  predicate WrittenSince(steps: seq<Step>, i: nat) {
    steps != [] &&
    var last := steps[|steps| - 1];
    last.Writes? || (last != Reads(i) && WrittenSince(steps[..|steps| - 1], i))
  }

  /** No write lands between a call's read and its write. */
  predicate NoOverlap(steps: seq<Step>) {
    steps == [] ||
    var before, last := steps[..|steps| - 1], steps[|steps| - 1];
    NoOverlap(before) && (last.Writes? ==> !WrittenSince(before, last.i))
  }

  ghost predicate PositiveScores(steps: seq<Step>) {
    forall n :: 0 <= n < |steps| && steps[n].Arrives? ==> steps[n].score > 0
  }

  /** As long as nothing overlapped, the count is exact, and a value read is the count unless it was written since. */
  ghost predicate Exact(s: State, steps: seq<Step>) {
    && s.stored == WrittenSum(s.calls)
    && forall i :: 0 <= i < |s.calls| && s.calls[i].phase.HasRead? && !WrittenSince(steps, i) ==> s.calls[i].phase.prev == s.stored
  }

  /** With positive scores a value read is below the count once it was written since. */
  ghost predicate StaleReadsAreLow(s: State, steps: seq<Step>) {
    forall i :: 0 <= i < |s.calls| && s.calls[i].phase.HasRead? && WrittenSince(steps, i) ==> s.calls[i].phase.prev < s.stored
  }

  /** Once something was lost, it stays lost. */
  ghost predicate Short(s: State) {
    && s.stored < WrittenSum(s.calls)
    && forall i :: 0 <= i < |s.calls| && s.calls[i].phase.HasRead? ==> s.calls[i].phase.prev < WrittenSum(s.calls)
  }

  ghost predicate AllPositive(calls: seq<Call>) {
    forall i :: 0 <= i < |calls| ==> calls[i].score > 0
  }

  lemma StepKeepsExact(s: State, steps: seq<Step>, step: Step, interval: nat)
    requires interval > 0 && Enabled(s, step) && Exact(s, steps) && NoOverlap(steps + [step])
    ensures Exact(Apply(s, step, interval), steps + [step])
    ensures AllPositive(s.calls) && StaleReadsAreLow(s, steps) ==> StaleReadsAreLow(Apply(s, step, interval), steps + [step])
  {
    assert (steps + [step])[..|steps|] == steps;
    StepWrittenSum(s, step, interval);
  }

  lemma StepKeepsShort(s: State, step: Step, interval: nat)
    requires interval > 0 && Enabled(s, step) && Short(s)
    ensures Short(Apply(s, step, interval))
  {
    StepWrittenSum(s, step, interval);
  }

  lemma OverlapMakesShort(s: State, steps: seq<Step>, step: Step, interval: nat)
    requires interval > 0 && Enabled(s, step) && Exact(s, steps) && StaleReadsAreLow(s, steps) && AllPositive(s.calls)
    requires NoOverlap(steps) && !NoOverlap(steps + [step])
    ensures Short(Apply(s, step, interval))
  {
    assert (steps + [step])[..|steps|] == steps;
    StepWrittenSum(s, step, interval);
  }

  lemma {:induction false} NoOverlapIsExact(steps: seq<Step>, interval: nat)
    requires interval > 0 && Run(steps, interval).Some? && NoOverlap(steps)
    ensures Exact(Run(steps, interval).value, steps)
  {
    if steps != [] {
      var before, last := steps[..|steps| - 1], steps[|steps| - 1];
      NoOverlapIsExact(before, interval);
      assert before + [last] == steps;
      StepKeepsExact(Run(before, interval).value, before, last, interval);
    }
  }

  /** With positive scores: exact while nothing overlapped, short ever after. */
  ghost predicate ExactOrShort(s: State, steps: seq<Step>) {
    && AllPositive(s.calls)
    && if NoOverlap(steps) then Exact(s, steps) && StaleReadsAreLow(s, steps) else Short(s)
  }

  lemma StepKeepsExactOrShort(s: State, steps: seq<Step>, step: Step, interval: nat)
    requires interval > 0 && Enabled(s, step) && ExactOrShort(s, steps) && (step.Arrives? ==> step.score > 0)
    ensures ExactOrShort(Apply(s, step, interval), steps + [step])
  {
    assert (steps + [step])[..|steps|] == steps;
    if NoOverlap(steps + [step]) {
      StepKeepsExact(s, steps, step, interval);
    } else if NoOverlap(steps) {
      OverlapMakesShort(s, steps, step, interval);
    } else {
      StepKeepsShort(s, step, interval);
    }
  }

  lemma {:induction false} PositiveRunIsExactOrShort(steps: seq<Step>, interval: nat)
    requires interval > 0 && Run(steps, interval).Some? && PositiveScores(steps)
    ensures ExactOrShort(Run(steps, interval).value, steps)
  {
    if steps != [] {
      var before, last := steps[..|steps| - 1], steps[|steps| - 1];
      PositiveRunIsExactOrShort(before, interval);
      assert before + [last] == steps;
      StepKeepsExactOrShort(Run(before, interval).value, before, last, interval);
    }
  }

  /** If no write lands between a call's read and its write the count is exact; if the scores are positive, only then. */
  lemma CountExactIffNoOverlap(steps: seq<Step>, interval: nat)
    requires interval > 0 && Run(steps, interval).Some?
    ensures var s := Run(steps, interval).value;
            && (NoOverlap(steps) ==> s.stored == WrittenSum(s.calls))
            && (PositiveScores(steps) ==> (s.stored == WrittenSum(s.calls) <==> NoOverlap(steps)))
  {
    if NoOverlap(steps) {
      NoOverlapIsExact(steps, interval);
    } else if PositiveScores(steps) {
      PositiveRunIsExactOrShort(steps, interval);
    }
  }

  /** At most one call took the count across the k-th multiple, and the count is past it. */
  ghost predicate TakenOnce(s: State, k: nat, interval: nat) {
    && (SomeTook(s, k, interval) ==> s.stored >= k * interval)
    && forall i, j :: 0 <= i < j < |s.calls| ==> !(Took(s.calls[i], k, interval) && Took(s.calls[j], k, interval))
  }

  lemma {:induction false} NoOverlapTakesOnce(steps: seq<Step>, interval: nat, k: nat)
    requires interval > 0 && Run(steps, interval).Some? && NoOverlap(steps)
    ensures TakenOnce(Run(steps, interval).value, k, interval)
  {
    if steps != [] {
      var before, last := steps[..|steps| - 1], steps[|steps| - 1];
      var s := Run(before, interval).value;
      NoOverlapTakesOnce(before, interval, k);
      NoOverlapIsExact(before, interval);
      StepTakesOnce(s, last, interval, k);
    }
  }

  lemma StepTakesOnce(s: State, step: Step, interval: nat, k: nat)
    requires interval > 0 && Enabled(s, step) && TakenOnce(s, k, interval)
    requires step.Writes? ==> s.calls[step.i].phase.prev == s.stored
    ensures TakenOnce(Apply(s, step, interval), k, interval)
  {
    var t := Apply(s, step, interval);
    forall i | 0 <= i < |t.calls| && Took(t.calls[i], k, interval)
      ensures (i < |s.calls| && Took(s.calls[i], k, interval)) || (step == Writes(i) && s.stored < k * interval <= t.stored)
    {
    }
  }

  /** Without overlap every multiple up to the sum of the scores is taken by exactly one call, which bans at its check. */
  lemma NoOverlapBansEachMultiple(steps: seq<Step>, interval: nat, k: nat) returns (i: nat)
    requires interval > 0 && k >= 1 && Run(steps, interval).Some? && NoOverlap(steps)
    requires k * interval <= WrittenSum(Run(steps, interval).value.calls)
    ensures var calls := Run(steps, interval).value.calls;
            && i < |calls| && Took(calls[i], k, interval)
            && (calls[i].phase.Checked? ==> calls[i].phase.fired)
            && forall j :: 0 <= j < |calls| && Took(calls[j], k, interval) ==> j == i
  {
    CountExactIffNoOverlap(steps, interval);
    NoOverlapTakesOnce(steps, interval, k);
    assert steps[..|steps|] == steps;
    i := EveryMultipleReachedIsBanned(steps, |steps|, interval, k);
  }

  // ---------------------------------------------------------------- which multiples are banned for

  /** The count stood at the k-th multiple at some point of the run. */
  ghost predicate Reached(steps: seq<Step>, interval: nat, k: nat)
    requires interval > 0
  {
    exists j :: 0 <= j <= |steps| && Run(steps[..j], interval).Some? && Run(steps[..j], interval).value.stored >= k * interval
  }

  lemma ReachedBefore(steps: seq<Step>, interval: nat, k: nat)
    requires interval > 0 && steps != [] && Reached(steps[..|steps| - 1], interval, k)
    ensures Reached(steps, interval, k)
  {
    var before := steps[..|steps| - 1];
    var j :| 0 <= j <= |before| && Run(before[..j], interval).Some? && Run(before[..j], interval).value.stored >= k * interval;
    assert before[..j] == steps[..j];
  }

  lemma StepTakesBelowStored(s: State, step: Step, interval: nat, k: nat)
    requires interval > 0 && Enabled(s, step) && SomeTook(Apply(s, step, interval), k, interval)
    ensures SomeTook(s, k, interval) || Apply(s, step, interval).stored >= k * interval
  {
    var t := Apply(s, step, interval);
    var i :| 0 <= i < |t.calls| && Took(t.calls[i], k, interval);
    if step != Writes(i) {
      assert i < |s.calls| && Took(s.calls[i], k, interval);
    }
  }

  lemma {:induction false} TakenWasReached(steps: seq<Step>, interval: nat, k: nat)
    requires interval > 0 && Run(steps, interval).Some? && SomeTook(Run(steps, interval).value, k, interval)
    ensures Reached(steps, interval, k)
  {
    assert steps[..|steps|] == steps;
    if steps != [] {
      var before := steps[..|steps| - 1];
      StepTakesBelowStored(Run(before, interval).value, steps[|steps| - 1], interval, k);
      if SomeTook(Run(before, interval).value, k, interval) {
        TakenWasReached(before, interval, k);
        ReachedBefore(steps, interval, k);
      }
    }
  }

  /** However the calls interleave, a multiple is taken by some call if and only if the count stood at it at some point. */
  lemma MultipleTakenIffReached(steps: seq<Step>, interval: nat, k: nat)
    requires interval > 0 && k >= 1 && Run(steps, interval).Some?
    ensures SomeTook(Run(steps, interval).value, k, interval) <==> Reached(steps, interval, k)
  {
    if SomeTook(Run(steps, interval).value, k, interval) {
      TakenWasReached(steps, interval, k);
    }
    if Reached(steps, interval, k) {
      var j :| 0 <= j <= |steps| && Run(steps[..j], interval).Some? && Run(steps[..j], interval).value.stored >= k * interval;
      var i := EveryMultipleReachedIsBanned(steps, j, interval, k);
    }
  }

  /** Every written count is at most the bound. */
  ghost predicate CountsUpTo(calls: seq<Call>, bound: int) {
    forall i :: 0 <= i < |calls| && Wrote(calls[i]) ==> calls[i].phase.count <= bound
  }

  lemma StepKeepsCounts(s: State, step: Step, interval: nat, bound: int)
    requires interval > 0 && Enabled(s, step) && CountsUpTo(s.calls, bound)
    requires Apply(s, step, interval).stored <= bound
    ensures CountsUpTo(Apply(s, step, interval).calls, bound)
  {
  }

  /** No count written exceeds the sum of the scores written; after an overlap of positive scores none equals it. */
  lemma {:induction false} CountsStayBelow(steps: seq<Step>, interval: nat)
    requires interval > 0 && Run(steps, interval).Some?
    ensures var s := Run(steps, interval).value;
            && CountsUpTo(s.calls, WrittenSum(s.calls))
            && (PositiveScores(steps) && !NoOverlap(steps) ==> CountsUpTo(s.calls, WrittenSum(s.calls) - 1))
  {
    CountNeverExceedsScores(steps, interval);
    if steps != [] {
      var before, last := steps[..|steps| - 1], steps[|steps| - 1];
      var s, t := Run(before, interval).value, Run(steps, interval).value;
      CountsStayBelow(before, interval);
      StepWrittenSum(s, last, interval);
      StepKeepsCounts(s, last, interval, WrittenSum(t.calls));
      if PositiveScores(steps) && !NoOverlap(steps) {
        PositiveRunIsExactOrShort(steps, interval);
        PositiveRunIsExactOrShort(before, interval);
        StepKeepsCounts(s, last, interval, WrittenSum(t.calls) - 1);
      }
    }
  }

  /** The same state but for which calls banned. */
  ghost predicate Alike(s: State, t: State) {
    && s.stored == t.stored && |s.calls| == |t.calls|
    && forall i :: 0 <= i < |s.calls| ==> s.calls[i].score == t.calls[i].score && AlikePhase(s.calls[i].phase, t.calls[i].phase)
  }

  predicate AlikePhase(p: Phase, q: Phase) {
    if p.Checked? then q.Checked? && p.prev == q.prev && p.count == q.count else p == q
  }

  /** Whether and how the calls read and write does not depend on the interval. */
  lemma {:induction false} RunIgnoresInterval(steps: seq<Step>, a: nat, b: nat)
    requires a > 0 && b > 0 && Run(steps, a).Some?
    ensures Run(steps, b).Some? && Alike(Run(steps, a).value, Run(steps, b).value)
  {
    if steps != [] {
      RunIgnoresInterval(steps[..|steps| - 1], a, b);
    }
  }

  ghost predicate AllMultiplesTaken(steps: seq<Step>, interval: nat)
    requires interval > 0
  {
    && Run(steps, interval).Some?
    && var s := Run(steps, interval).value;
       forall k: nat :: k >= 1 && k * interval <= WrittenSum(s.calls) ==> SomeTook(s, k, interval)
  }

  lemma OverlapMissesTheSum(steps: seq<Step>)
    requires Run(steps, 1).Some? && PositiveScores(steps) && !NoOverlap(steps)
    ensures !AllMultiplesTaken(steps, 1)
  {
    var s := Run(steps, 1).value;
    var k := WrittenSum(s.calls);
    CountsStayBelow(steps, 1);
    PositiveRunIsExactOrShort(steps, 1);
    assert k >= 1 && k * 1 <= k;
    assert !SomeTook(s, k, 1);
  }

  /** Whatever the interval, every multiple up to the sum of the scores is taken if no write lands between a call's read
      and its write; with positive scores, only then. */
  lemma AllMultiplesTakenIffNoOverlap(steps: seq<Step>, interval: nat)
    requires interval > 0 && Run(steps, interval).Some?
    ensures NoOverlap(steps) ==> forall n: nat :: n > 0 ==> AllMultiplesTaken(steps, n)
    ensures PositiveScores(steps) ==> (NoOverlap(steps) <==> forall n: nat :: n > 0 ==> AllMultiplesTaken(steps, n))
  {
    RunIgnoresInterval(steps, interval, 1);
    if NoOverlap(steps) {
      forall n: nat | n > 0 ensures AllMultiplesTaken(steps, n) {
        RunIgnoresInterval(steps, interval, n);
        forall k: nat | k >= 1 && k * n <= WrittenSum(Run(steps, n).value.calls) ensures SomeTook(Run(steps, n).value, k, n) {
          var i := NoOverlapBansEachMultiple(steps, n, k);
        }
      }
    } else if PositiveScores(steps) {
      OverlapMissesTheSum(steps);
    }
  }

  // ---------------------------------------------------------------- one call after the other

  function Sum(scores: seq<nat>): nat {
    if scores == [] then 0 else Sum(scores[..|scores| - 1]) + scores[|scores| - 1]
  }

  /** How many of the calls, made one after the other, ban. */
  function Firings(scores: seq<nat>, interval: nat): nat
    requires interval > 0
  {
    if scores == [] then 0
    else
      var before := scores[..|scores| - 1];
      Firings(before, interval) + if Crosses(Sum(before), Sum(scores), interval) then 1 else 0
  }

  /** No single call jumps over a multiple. */
  ghost predicate NoJump(scores: seq<nat>, interval: nat)
    requires interval > 0
  {
    forall n :: 0 < n <= |scores| ==> Threshold(Sum(scores[..n]), interval) <= Threshold(Sum(scores[..n - 1]), interval) + 1
  }

  lemma {:induction false} FiringsCount(scores: seq<nat>, interval: nat)
    requires interval > 0
    ensures Firings(scores, interval) <= Threshold(Sum(scores), interval)
    ensures Firings(scores, interval) == Threshold(Sum(scores), interval) <==> NoJump(scores, interval)
  {
    if scores != [] {
      var n := |scores| - 1;
      var before := scores[..n];
      FiringsCount(before, interval);
      assert scores[..n + 1] == scores;
      ThresholdReached(Sum(before), interval, Threshold(Sum(before), interval));
      ThresholdReached(Sum(scores), interval, Threshold(Sum(before), interval));
      NoJumpGrows(scores, interval);
    }
  }

  lemma NoJumpGrows(scores: seq<nat>, interval: nat)
    requires interval > 0 && scores != []
    ensures var before := scores[..|scores| - 1];
            NoJump(scores, interval) <==>
            NoJump(before, interval) && Threshold(Sum(scores), interval) <= Threshold(Sum(before), interval) + 1
  {
    var n := |scores| - 1;
    var before := scores[..n];
    assert scores[..n + 1] == scores;
    assert forall m :: 0 <= m <= n ==> before[..m] == scores[..m];
  }

  lemma SmallScoresDoNotJump(scores: seq<nat>, interval: nat)
    requires interval > 0 && forall x :: x in scores ==> x <= interval
    ensures NoJump(scores, interval)
  {
    forall n | 0 < n <= |scores|
      ensures Threshold(Sum(scores[..n]), interval) <= Threshold(Sum(scores[..n - 1]), interval) + 1
    {
      assert scores[..n][..n - 1] == scores[..n - 1] && scores[..n][n - 1] == scores[n - 1];
      assert scores[n - 1] in scores;
      var t := Threshold(Sum(scores[..n - 1]), interval);
      ThresholdReached(Sum(scores[..n - 1]), interval, t + 1);
      ThresholdReached(Sum(scores[..n]), interval, t + 2);
      assert (t + 2) * interval == (t + 1) * interval + interval;
    }
  }

  /** The steps of calls made one after the other. */
  function OneByOne(scores: seq<nat>): seq<Step> {
    if scores == [] then []
    else
      var n := |scores| - 1;
      OneByOne(scores[..n]) + [Arrives(scores[n])] + [Reads(n)] + [Writes(n)] + [Checks(n)]
  }

  function FiredCount(calls: seq<Call>): nat {
    if calls == [] then 0
    else
      var c := calls[|calls| - 1];
      FiredCount(calls[..|calls| - 1]) + if c.phase.Checked? && c.phase.fired then 1 else 0
  }

  lemma {:induction false} OneByOneRun(scores: seq<nat>, interval: nat)
    requires interval > 0
    ensures Run(OneByOne(scores), interval).Some?
    ensures var s := Run(OneByOne(scores), interval).value;
            |s.calls| == |scores| && s.stored == Sum(scores) && FiredCount(s.calls) == Firings(scores, interval)
  {
    if scores != [] {
      var n := |scores| - 1;
      var before := scores[..n];
      OneByOneRun(before, interval);
      var s := Run(OneByOne(before), interval).value;
      var x, prev := scores[n], s.stored;
      var steps := OneByOne(before);
      var cs := s.calls;
      var t0, t1 := State(prev, cs + [Call(x, Started)]), State(prev, cs + [Call(x, HasRead(prev))]);
      var t2 := State(prev + x, cs + [Call(x, HasWritten(prev, prev + x))]);
      var t3 := State(prev + x, cs + [Call(x, Checked(prev, prev + x, Crosses(prev, prev + x, interval)))]);
      RunExtends(steps, s, Arrives(x), interval, t0);
      RunExtends(steps + [Arrives(x)], t0, Reads(n), interval, t1);
      RunExtends(steps + [Arrives(x)] + [Reads(n)], t1, Writes(n), interval, t2);
      RunExtends(steps + [Arrives(x)] + [Reads(n)] + [Writes(n)], t2, Checks(n), interval, t3);
      assert t3.calls[..n] == cs;
    }
  }

  /** Calls made one after the other store the sum of their scores and never ban more often than there are multiples
      in it; they ban once for each exactly when no single call jumps over one, as when no score exceeds the interval. */
  lemma SequentialCallsBanPerMultiple(scores: seq<nat>, interval: nat)
    requires interval > 0
    ensures Run(OneByOne(scores), interval).Some?
    ensures var s := Run(OneByOne(scores), interval).value;
            && s.stored == Sum(scores)
            && FiredCount(s.calls) <= Sum(scores) / interval
            && (FiredCount(s.calls) == Sum(scores) / interval <==> NoJump(scores, interval))
            && ((forall x :: x in scores ==> x <= interval) ==> FiredCount(s.calls) == Sum(scores) / interval)
  {
    OneByOneRun(scores, interval);
    FiringsCount(scores, interval);
    if forall x :: x in scores ==> x <= interval {
      SmallScoresDoNotJump(scores, interval);
    }
  }

  // ---------------------------------------------------------------- the two functions

  /** The ban records once a user, and the address they came from if it is known, are banned. */
  function WithBan(bans: map<string, int>, userId: string, ip: Option<string>, count: int): map<string, int> {
    var banned := bans[userId := count];
    if ip.Some? && ip.value != "" then banned[ip.value := count] else banned
  }

  /** The ban's length: a duration of 0 counts as none given. */
  function BanLength(duration: Option<int>, fallback: int): int {
    if duration.Some? && duration.value != 0 then duration.value else fallback
  }

  ghost function Multiple(k: int, interval: nat): int {
    k * interval
  }

  /** The ban test: some multiple of the interval lies above the old count and not above the new one. */
  lemma CrossesIffMultiple(prev: int, count: int, interval: nat)
    requires interval > 0
    ensures Crosses(prev, count, interval) <==> exists k: int :: prev < Multiple(k, interval) <= count
  {
    var t := Threshold(count, interval);
    ThresholdReached(count, interval, t);
    ThresholdReached(prev, interval, t);
    if Crosses(prev, count, interval) {
      assert prev < Multiple(t, interval) <= count;
    }
    if k: int :| prev < Multiple(k, interval) <= count {
      ThresholdReached(prev, interval, k);
      ThresholdReached(count, interval, k);
    }
  }

  /** A ban is recorded with the count under the user and, if it is known and not empty, under the address; other records
      stay. */
  lemma BanRecords(bans: map<string, int>, userId: string, ip: Option<string>, count: int, key: string)
    ensures var banned := key == userId || (ip == Some(key) && key != "");
            var after := WithBan(bans, userId, ip, count);
            && (key in after <==> key in bans || banned)
            && (key in after ==> after[key] == if banned then count else bans[key])
  {
  }

  /** A ban lasts as long as the violation says, or the default if it says nothing or 0. */
  lemma BanLasts(duration: Option<int>, fallback: int)
    ensures duration.None? || duration == Some(0) ==> BanLength(duration, fallback) == fallback
    ensures forall d :: duration == Some(d) && d != 0 ==> BanLength(duration, fallback) == d
  {
  }

  /** The stores behind the calls of one violation type.  A ban is recorded under the user and under the address. */
  class LogStores {
    const banEnabled: bool
    const interval: nat
    const defaultDuration: int
    var counts: map<string, int>
    var bans: map<string, int>
    var sessionsDeleted: set<string>

    constructor (banEnabled: bool, interval: nat, defaultDuration: int)
      requires interval > 0
      ensures this.banEnabled == banEnabled && this.interval == interval && this.defaultDuration == defaultDuration
      ensures counts == map[] && bans == map[] && sessionsDeleted == {}
    {
      this.banEnabled, this.interval, this.defaultDuration := banEnabled, interval, defaultDuration;
      counts, bans, sessionsDeleted := map[], map[], {};
    }

    function CountOf(userId: string): int
      reads this
    {
      if userId in counts then counts[userId] else 0
    }

    /** `banViolation`: a duration of 0 is no duration, one that is not positive makes the ban a soft one. */
    method BanViolation(userId: string, ip: Option<string>, prev: int, count: int, duration: Option<int>) returns (ban: bool)
      requires interval > 0
      modifies `bans, `sessionsDeleted
      ensures var fires := banEnabled && Crosses(prev, count, interval);
              && sessionsDeleted == old(sessionsDeleted) + (if fires then {userId} else {})
              && (ban <==> fires && BanLength(duration, defaultDuration) > 0)
              && bans == if ban then WithBan(old(bans), userId, ip, count) else old(bans)
    {
      ban := false;
      if !banEnabled {
        return;
      }
      var prevThreshold := Threshold(prev, interval);
      var currentThreshold := Threshold(count, interval);
      if prevThreshold >= currentThreshold {
        return;
      }
      sessionsDeleted := sessionsDeleted + {userId};
      if BanLength(duration, defaultDuration) <= 0 {
        return;
      }
      bans := bans[userId := count];
      if ip.Some? && ip.value != "" {
        bans := bans[ip.value := count];
      }
      ban := true;
    }

    /** `logViolation` run to its end without interference; a missing user id makes it do nothing. */
    method LogViolation(userId: Option<string>, ip: Option<string>, score: int, duration: Option<int>) returns (ban: bool)
      requires interval > 0
      modifies this
      ensures userId.None? || userId.value == "" ==>
                !ban && counts == old(counts) && bans == old(bans) && sessionsDeleted == old(sessionsDeleted)
      ensures userId.Some? && userId.value != "" ==>
                var u, prev := userId.value, old(CountOf(userId.value));
                var fires := banEnabled && Crosses(prev, prev + score, interval);
                && counts == old(counts)[u := prev + score]
                && sessionsDeleted == old(sessionsDeleted) + (if fires then {u} else {})
                && (ban <==> fires && BanLength(duration, defaultDuration) > 0)
                && bans == if ban then WithBan(old(bans), u, ip, prev + score) else old(bans)
    {
      ban := false;
      if userId.None? || userId.value == "" {
        return;
      }
      var userViolations := CountOf(userId.value);
      var violationCount := userViolations + score;
      counts := counts[userId.value := violationCount];
      ban := BanViolation(userId.value, ip, userViolations, violationCount, duration);
    }
  }
}
