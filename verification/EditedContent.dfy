/** Merging a streamed completion into the retained content of an edited response. */
module EditedContent {
  import opened Collections
  import opened Options

  datatype Kind = Text | Think | ActivityLabel | Other(name: string)

  /** The six reasoning-label fields that travel together. */
  datatype Reasoning = Reasoning(title: Option<string>, stepId: Option<string>, attempts: Option<int>,
                                 submittedChars: Option<int>, revision: Option<int>, status: Option<string>)

  const UNLABELLED: Reasoning := Reasoning(None, None, None, None, None, None)

  /** A content part: its own text under its kind, and the fields the merge looks at.  `rest` stands for all others. */
  datatype Part = Part(kind: Kind, text: Option<string>, think: Option<string>, phase: Option<string>,
                       reasoning: Reasoning, labelType: Option<string>, start: Option<int>, end: Option<int>, rest: nat)

  /** A list slot may hold null. */
  type Slot = Option<Part>

  /** An activity label of type "phase" with a numeric start; only these are rebased. */
  predicate IsPhaseLabel(s: Slot) {
    s.Some? && s.value.kind == ActivityLabel && s.value.labelType == Some("phase") && s.value.start.Some?
  }

  function Rebase(s: Slot, offset: int): Slot {
    if !IsPhaseLabel(s) then s
    else
      var p := s.value;
      Some(p.(start := Some(p.start.value + offset),
              end := if p.end.Some? then Some(p.end.value + offset) else None))
  }

  function RebaseAll(parts: seq<Slot>, offset: int): (r: seq<Slot>)
    ensures |r| == |parts| && forall i :: 0 <= i < |parts| ==> r[i] == Rebase(parts[i], offset)
  {
    seq(|parts|, i requires 0 <= i < |parts| => Rebase(parts[i], offset))
  }

  function PhaseOf(s: Slot): Option<string> {
    if s.Some? then s.value.phase else None
  }

  /** The first new part continues the last retained one. */
  predicate MergesFirst(existing: seq<Slot>, completion: seq<Slot>, edited: Kind) {
    && existing != [] && completion != []
    && (edited == Text || edited == Think)
    && var last, first := existing[|existing| - 1], completion[0];
    && last.Some? && first.Some? && last.value.kind == first.value.kind == edited
    && (edited == Text ==> PhaseOf(last) == PhaseOf(first))
  }

  function Fuse(last: Part, first: Part, edited: Kind): Part {
    if edited == Text then
      last.(phase := if first.phase.Some? then first.phase else last.phase,
            text := Some(GetOr(last.text, "") + GetOr(first.text, "")))
    else
      last.(reasoning := if first.reasoning.stepId.Some? then first.reasoning else UNLABELLED,
            think := Some(GetOr(last.think, "") + GetOr(first.think, "")))
  }

  /** How far the completion's indices move. */
  function Offset(existing: seq<Slot>, completion: seq<Slot>, edited: Kind): int {
    if MergesFirst(existing, completion, edited) then |existing| - 1 else |existing|
  }

  /** `mergeEditedContent`. */
  function Merge(existing: seq<Slot>, completion: seq<Slot>, edited: Kind): seq<Slot> {
    if completion == [] then existing
    else
      var adjusted := RebaseAll(completion, Offset(existing, completion, edited));
      if !MergesFirst(existing, completion, edited) then existing + adjusted
      else
        var lastIndex := |existing| - 1;
        existing[lastIndex := Some(Fuse(existing[lastIndex].value, adjusted[0].value, edited))] + adjusted[1..]
  }

  // ---------------------------------------------------------------- positions and labels

  /** Completion part `i` lands at `i + offset`, rebased; only a fused first part is more than that, and then it is the
      retained part extended. Everything before the last retained part stays, and so does the last unless it fuses. */
  lemma PartsLandAtOffset(existing: seq<Slot>, completion: seq<Slot>, edited: Kind)
    ensures var merged, offset := Merge(existing, completion, edited), Offset(existing, completion, edited);
            var fuses := MergesFirst(existing, completion, edited);
            && |merged| == |completion| + offset
            && (fuses <==> offset == |existing| - 1)
            && (forall i :: 0 <= i < offset ==> merged[i] == existing[i])
            && (forall i :: (if fuses then 1 else 0) <= i < |completion| ==>
                  merged[i + offset] == Rebase(completion[i], offset))
            && (fuses ==>
                  && merged[offset].Some?
                  && merged[offset].value == Fuse(existing[offset].value, completion[0].value, edited)
                  && !IsPhaseLabel(merged[offset]) && !IsPhaseLabel(existing[offset]))
  {
  }

  /** The two lists become one part shorter exactly when the last retained part and the first new one are both of the type
      that was edited, text or reasoning, and, for text, of one phase, where having none counts as one; in every other
      case they are laid end to end. */
  lemma FusesExactlyWhen(existing: seq<Slot>, completion: seq<Slot>, edited: Kind)
    ensures var e, c, m := |existing|, |completion|, |Merge(existing, completion, edited)|;
            && (m == e + c || m == e + c - 1)
            && (m == e + c - 1 <==>
                  && e > 0 && c > 0 && existing[e - 1].Some? && completion[0].Some?
                  && var last, first := existing[e - 1].value, completion[0].value;
                     || (edited == Text && last.kind == first.kind == Text && last.phase == first.phase)
                     || (edited == Think && last.kind == first.kind == Think))
  {
  }

  /** The part two parts fuse into is the retained one with the two texts joined; fused reasoning has the new part's label
      fields if that names a step, and no label otherwise. */
  lemma FusedPartJoinsBoth(existing: seq<Slot>, completion: seq<Slot>, edited: Kind)
    requires |Merge(existing, completion, edited)| == |existing| + |completion| - 1
    ensures existing != [] && completion != [] && existing[|existing| - 1].Some? && completion[0].Some?
    ensures var last, first := existing[|existing| - 1].value, completion[0].value;
            var text := (if last.text.Some? then last.text.value else "") + (if first.text.Some? then first.text.value else "");
            var think := (if last.think.Some? then last.think.value else "") + (if first.think.Some? then first.think.value else "");
            var fields := if first.reasoning.stepId.Some? then first.reasoning else Reasoning(None, None, None, None, None, None);
            Merge(existing, completion, edited)[|existing| - 1] ==
            if edited == Text then Some(last.(text := Some(text))) else Some(last.(think := Some(think), reasoning := fields))
  {
  }

  /** Every other part of the completion lands moved by the shift in length.  It is unchanged, unless it is an activity
      label of type "phase" with a numeric start, whose start and numeric end move with it. */
  lemma UnfusedPartsMove(existing: seq<Slot>, completion: seq<Slot>, edited: Kind, i: nat)
    requires i < |completion| && (i > 0 || |Merge(existing, completion, edited)| == |existing| + |completion|)
    ensures var merged := Merge(existing, completion, edited);
            var shift := |merged| - |completion|;
            var was := completion[i];
            && 0 <= i + shift < |merged|
            && merged[i + shift] ==
               if was.Some? && was.value.kind == ActivityLabel && was.value.labelType == Some("phase") && was.value.start.Some?
               then Some(was.value.(start := Some(was.value.start.value + shift),
                                    end := if was.value.end.Some? then Some(was.value.end.value + shift) else None))
               else was
  {
    PartsLandAtOffset(existing, completion, edited);
  }

  /** A label whose bounds make sense in a list of `n` parts: `start` names a part or the end, `end` likewise. */
  ghost predicate InBounds(s: Slot, n: nat) {
    IsPhaseLabel(s) ==>
      && 0 <= s.value.start.value <= n
      && (s.value.end.Some? ==> s.value.start.value <= s.value.end.value <= n)
  }

  ghost predicate AllInBounds(parts: seq<Slot>) {
    forall i :: 0 <= i < |parts| ==> InBounds(parts[i], |parts|)
  }

  /** The part of `merged` at `i + offset` is the part of `completion` at `i`: the same up to rebasing, or, for a fused
      first part, one of its kind and phase whose own text ends with it. */
  ghost predicate SamePart(merged: seq<Slot>, completion: seq<Slot>, i: nat, offset: int) {
    0 <= i < |completion| && 0 <= i + offset < |merged| &&
    var was, now := completion[i], merged[i + offset];
    || now == Rebase(was, offset)
    || (&& i == 0 && was.Some? && now.Some? && now.value.kind == was.value.kind
        && (was.value.kind == Text ==>
              now.value.phase == was.value.phase && EndsWith(GetOr(now.value.text, ""), GetOr(was.value.text, "")))
        && (was.value.kind == Think ==> EndsWith(GetOr(now.value.think, ""), GetOr(was.value.think, ""))))
  }

  predicate EndsWith(s: string, tail: string) {
    |tail| <= |s| && s[|s| - |tail|..] == tail
  }

  lemma FusedEnds(last: Part, first: Part, edited: Kind)
    ensures edited == Text ==> EndsWith(Fuse(last, first, edited).text.value, GetOr(first.text, ""))
    ensures edited == Think ==> EndsWith(Fuse(last, first, edited).think.value, GetOr(first.think, ""))
  {
  }

  /** A rebased label denotes the parts it denoted before: its new start and end name the same parts, and an end equal
      to the completion's length becomes the merged length. */
  lemma LabelsKeepTheirMeaning(existing: seq<Slot>, completion: seq<Slot>, edited: Kind, i: nat)
    requires i < |completion| && IsPhaseLabel(completion[i]) && InBounds(completion[i], |completion|)
    ensures var merged, offset := Merge(existing, completion, edited), Offset(existing, completion, edited);
            && 0 <= i + offset < |merged| && IsPhaseLabel(merged[i + offset])
            && InBounds(merged[i + offset], |merged|)
            && var was, now := completion[i].value, merged[i + offset].value;
            && now == was.(start := now.start, end := now.end)
            && (now.end.Some? <==> was.end.Some?)
            && (was.start.value < |completion| ==>
                  now.start.value == was.start.value + offset && SamePart(merged, completion, was.start.value, offset))
            && (was.start.value == |completion| ==> now.start.value == |merged|)
            && (was.end.Some? ==>
                  && (was.end.value < |completion| ==>
                        now.end.value == was.end.value + offset && SamePart(merged, completion, was.end.value, offset))
                  && (was.end.value == |completion| ==> now.end.value == |merged|))
  {
    PartsLandAtOffset(existing, completion, edited);
    if MergesFirst(existing, completion, edited) {
      FusedEnds(existing[|existing| - 1].value, completion[0].value, edited);
    }
  }

  /** One streamed edit. */
  datatype Edit = Edit(completion: seq<Slot>, edited: Kind)

  function MergeAll(existing: seq<Slot>, edits: seq<Edit>): seq<Slot>
    decreases edits
  {
    if edits == [] then existing else MergeAll(Merge(existing, edits[0].completion, edits[0].edited), edits[1..])
  }

  /** Over any sequence of edits every label stays in bounds, the content never shrinks, and a label once stored is
      never touched again. */
  lemma {:induction false} LabelsSurviveEdits(existing: seq<Slot>, edits: seq<Edit>)
    requires AllInBounds(existing)
    requires forall e :: e in edits ==> AllInBounds(e.completion)
    ensures var merged := MergeAll(existing, edits);
            && AllInBounds(merged) && |existing| <= |merged|
            && forall i :: 0 <= i < |existing| && IsPhaseLabel(existing[i]) ==> merged[i] == existing[i]
    decreases edits
  {
    if edits != [] {
      var e := edits[0];
      assert e in edits;
      MergeKeepsBounds(existing, e.completion, e.edited);
      LabelsSurviveEdits(Merge(existing, e.completion, e.edited), edits[1..]);
    }
  }

  lemma MergeKeepsBounds(existing: seq<Slot>, completion: seq<Slot>, edited: Kind)
    requires AllInBounds(existing) && AllInBounds(completion)
    ensures var merged := Merge(existing, completion, edited);
            && AllInBounds(merged) && |existing| <= |merged|
            && forall i :: 0 <= i < |existing| && IsPhaseLabel(existing[i]) ==> merged[i] == existing[i]
  {
    var merged, offset := Merge(existing, completion, edited), Offset(existing, completion, edited);
    PartsLandAtOffset(existing, completion, edited);
    forall i | 0 <= i < |merged| ensures InBounds(merged[i], |merged|) {
      if i < offset {
        assert InBounds(existing[i], |existing|);
      } else if IsPhaseLabel(merged[i]) {
        assert InBounds(completion[i - offset], |completion|);
        RebasedInBounds(completion[i - offset], |completion|, offset);
        assert merged[i] == Rebase(completion[i - offset], offset);
      }
    }
  }

  lemma RebasedInBounds(s: Slot, n: nat, offset: int)
    requires InBounds(s, n) && offset >= 0
    ensures InBounds(Rebase(s, offset), n + offset)
  {
  }

  // ---------------------------------------------------------------- conservation

  /** What a reader of the content sees: the text of one phase (`None` being the unphased text), all text whatever its
      phase, or the reasoning. */
  datatype Stream = OfPhase(phase: Option<string>) | AllText | AllThink

  /** A stream is the concatenation of what each part contributes. */
  function StreamOf(parts: seq<Slot>, stream: Stream): string {
    if parts == [] then "" else StreamOf(parts[..|parts| - 1], stream) + Own(parts[|parts| - 1], stream)
  }

  function Own(s: Slot, stream: Stream): string {
    if s.None? then ""
    else if stream.AllThink? then (if s.value.kind == Think then GetOr(s.value.think, "") else "")
    else if s.value.kind == Text && (stream.OfPhase? ==> s.value.phase == stream.phase) then GetOr(s.value.text, "")
    else ""
  }

  /** What one part adds to the streams: a text its text, to its own phase and to the text as a whole; reasoning its
      thoughts; anything else nothing. */
  lemma PartInStreams(p: Part, phase: Option<string>)
    ensures Own(Some(p), AllThink) == if p.kind == Think && p.think.Some? then p.think.value else ""
    ensures Own(Some(p), AllText) == if p.kind == Text && p.text.Some? then p.text.value else ""
    ensures Own(Some(p), OfPhase(phase)) == if p.phase == phase then Own(Some(p), AllText) else ""
    ensures Own(None, AllThink) == Own(None, AllText) == Own(None, OfPhase(phase)) == ""
  {
  }

  lemma {:induction false} StreamsConcatenate(a: seq<Slot>, b: seq<Slot>, stream: Stream)
    ensures StreamOf(a + b, stream) == StreamOf(a, stream) + StreamOf(b, stream)
  {
    if b == [] {
      assert a + b == a;
    } else {
      var n := |b| - 1;
      StreamsConcatenate(a, b[..n], stream);
      var all := a + b;
      assert all[..|all| - 1] == a + b[..n] && all[|all| - 1] == b[n];
      assert StreamOf(all, stream) == StreamOf(a + b[..n], stream) + Own(b[n], stream);
      Associate(StreamOf(a, stream), StreamOf(b[..n], stream), Own(b[n], stream));
    }
  }

  lemma {:induction false} RebasingKeepsStreams(parts: seq<Slot>, offset: int, stream: Stream)
    ensures StreamOf(RebaseAll(parts, offset), stream) == StreamOf(parts, stream)
  {
    if parts != [] {
      var n := |parts| - 1;
      RebasingKeepsStreams(parts[..n], offset, stream);
      assert RebaseAll(parts, offset)[..n] == RebaseAll(parts[..n], offset);
    }
  }

  /** Whatever is being edited, each phase's text, the text as a whole, and the reasoning of the merged content are those
      of the retained content followed by those of the completion: nothing is lost or reordered and no text changes
      phase. */
  lemma MergeConservesStreams(existing: seq<Slot>, completion: seq<Slot>, edited: Kind, stream: Stream)
    ensures StreamOf(Merge(existing, completion, edited), stream) == StreamOf(existing, stream) + StreamOf(completion, stream)
  {
    var offset := Offset(existing, completion, edited);
    RebasingKeepsStreams(completion, offset, stream);
    if completion == [] {
    } else if !MergesFirst(existing, completion, edited) {
      StreamsConcatenate(existing, RebaseAll(completion, offset), stream);
    } else {
      var n := |existing| - 1;
      var adjusted := RebaseAll(completion, offset);
      var fused := Some(Fuse(existing[n].value, adjusted[0].value, edited));
      FusedOwn(existing[n].value, adjusted[0].value, edited, stream);
      MergedParts(existing, adjusted, n, fused);
      FusedStream(existing[..n], existing[n], adjusted[0], fused, adjusted[1..], stream);
    }
  }

  lemma FusedOwn(last: Part, first: Part, edited: Kind, stream: Stream)
    requires last.kind == first.kind == edited && (edited == Text ==> last.phase == first.phase)
    requires edited == Text || edited == Think
    ensures Own(Some(Fuse(last, first, edited)), stream) == Own(Some(last), stream) + Own(Some(first), stream)
  {
  }

  lemma MergedParts(existing: seq<Slot>, adjusted: seq<Slot>, n: nat, fused: Slot)
    requires |existing| == n + 1 && adjusted != []
    ensures existing == existing[..n] + [existing[n]]
    ensures adjusted == [adjusted[0]] + adjusted[1..]
    ensures existing[n := fused] + adjusted[1..] == existing[..n] + [fused] + adjusted[1..]
  {
  }

  lemma FusedStream(before: seq<Slot>, x: Slot, y: Slot, fused: Slot, after: seq<Slot>, stream: Stream)
    requires Own(fused, stream) == Own(x, stream) + Own(y, stream)
    ensures StreamOf(before + [fused] + after, stream) == StreamOf(before + [x], stream) + StreamOf([y] + after, stream)
  {
    StreamsConcatenate(before + [fused], after, stream);
    StreamsConcatenate(before, [fused], stream);
    StreamsConcatenate(before, [x], stream);
    StreamsConcatenate([y], after, stream);
    SingleStream(fused, stream);
    SingleStream(x, stream);
    SingleStream(y, stream);
    Regroup(StreamOf(before, stream), Own(x, stream), Own(y, stream), StreamOf(after, stream));
  }

  lemma Regroup(a: string, x: string, y: string, b: string)
    ensures a + (x + y) + b == (a + x) + (y + b)
  {
  }

  lemma SingleStream(s: Slot, stream: Stream)
    ensures StreamOf([s], stream) == Own(s, stream)
  {
    assert [s][..0] == [];
  }

  function Streamed(edits: seq<Edit>, stream: Stream): string {
    if edits == [] then "" else StreamOf(edits[0].completion, stream) + Streamed(edits[1..], stream)
  }

  /** Over any sequence of edits a stream is the retained one followed by everything streamed, in order. */
  lemma {:induction false} EditsConserveStreams(existing: seq<Slot>, edits: seq<Edit>, stream: Stream)
    ensures StreamOf(MergeAll(existing, edits), stream) == StreamOf(existing, stream) + Streamed(edits, stream)
    decreases edits
  {
    if edits != [] {
      var e := edits[0];
      MergeConservesStreams(existing, e.completion, e.edited, stream);
      EditsConserveStreams(Merge(existing, e.completion, e.edited), edits[1..], stream);
      Associate(StreamOf(existing, stream), StreamOf(e.completion, stream), Streamed(edits[1..], stream));
    }
  }

  // ---------------------------------------------------------------- reasoning labels

  /** `p` is a reasoning part that ends with the text of `q` and has the label of `q`, or none if `q` has no step. */
  ghost predicate LabelIsOf(p: Part, q: Part) {
    && p.kind == Think && q.kind == Think
    && EndsWith(GetOr(p.think, ""), GetOr(q.think, ""))
    && (p.reasoning == q.reasoning || (q.reasoning.stepId.None? && p.reasoning == UNLABELLED))
  }

  /** If the slot holds a reasoning part, it ends with, and is labelled as, one of the original parts. */
  ghost predicate HasOriginal(s: Slot, originals: seq<Slot>) {
    s.Some? && s.value.kind == Think ==>
      exists j :: 0 <= j < |originals| && originals[j].Some? && LabelIsOf(s.value, originals[j].value)
  }

  ghost predicate LabelsFit(parts: seq<Slot>, originals: seq<Slot>) {
    forall i :: 0 <= i < |parts| ==> HasOriginal(parts[i], originals)
  }

  /** The retained parts and those of every completion. */
  function Originals(existing: seq<Slot>, edits: seq<Edit>): seq<Slot>
    decreases edits
  {
    if edits == [] then existing else Originals(existing + edits[0].completion, edits[1..])
  }

  /** After any sequence of edits a reasoning part's label is that of the step whose text it ends with; a label never
      outlives the text it was made for by standing on text appended later. */
  lemma LabelsDescribeLatestText(existing: seq<Slot>, edits: seq<Edit>)
    ensures LabelsFit(MergeAll(existing, edits), Originals(existing, edits))
  {
    forall i | 0 <= i < |existing| ensures HasOriginal(existing[i], existing) {
      RebasedLabel(existing[i], 0);
      OriginalAt(existing[i], existing, i);
    }
    EditsKeepLabels(existing, edits, existing);
  }

  lemma {:induction false} EditsKeepLabels(parts: seq<Slot>, edits: seq<Edit>, originals: seq<Slot>)
    requires LabelsFit(parts, originals)
    ensures LabelsFit(MergeAll(parts, edits), Originals(originals, edits))
    decreases edits
  {
    if edits != [] {
      var e := edits[0];
      MergeKeepsLabels(parts, e.completion, e.edited, originals);
      EditsKeepLabels(Merge(parts, e.completion, e.edited), edits[1..], originals + e.completion);
    }
  }

  lemma OriginalAt(s: Slot, originals: seq<Slot>, j: nat)
    requires j < |originals| && LabelCarries(s, originals[j])
    ensures HasOriginal(s, originals)
  {
  }

  lemma OriginalStays(s: Slot, originals: seq<Slot>, more: seq<Slot>)
    requires HasOriginal(s, originals)
    ensures HasOriginal(s, originals + more)
  {
    if s.Some? && s.value.kind == Think {
      var j :| 0 <= j < |originals| && originals[j].Some? && LabelIsOf(s.value, originals[j].value);
      assert (originals + more)[j] == originals[j];
    }
  }

  lemma MergeKeepsLabels(parts: seq<Slot>, completion: seq<Slot>, edited: Kind, originals: seq<Slot>)
    requires LabelsFit(parts, originals)
    ensures LabelsFit(Merge(parts, completion, edited), originals + completion)
  {
    var merged, offset := Merge(parts, completion, edited), Offset(parts, completion, edited);
    PartsLandAtOffset(parts, completion, edited);
    forall i | 0 <= i < |merged| ensures HasOriginal(merged[i], originals + completion) {
      if i < offset {
        OriginalStays(parts[i], originals, completion);
      } else {
        var k := i - offset;
        LandedLabel(parts, completion, edited, k);
        assert (originals + completion)[|originals| + k] == completion[k];
        OriginalAt(merged[i], originals + completion, |originals| + k);
      }
    }
  }

  ghost predicate LabelCarries(now: Slot, was: Slot) {
    now.Some? && now.value.kind == Think ==> was.Some? && LabelIsOf(now.value, was.value)
  }

  lemma LandedLabel(parts: seq<Slot>, completion: seq<Slot>, edited: Kind, i: nat)
    requires i < |completion|
    ensures var merged, offset := Merge(parts, completion, edited), Offset(parts, completion, edited);
            0 <= i + offset < |merged| && LabelCarries(merged[i + offset], completion[i])
  {
    PartsLandAtOffset(parts, completion, edited);
    if i == 0 && MergesFirst(parts, completion, edited) {
      FusedLabel(parts[|parts| - 1].value, completion[0].value, edited);
    } else {
      RebasedLabel(completion[i], Offset(parts, completion, edited));
    }
  }

  lemma FusedLabel(last: Part, first: Part, edited: Kind)
    requires last.kind == first.kind == edited
    ensures LabelCarries(Some(Fuse(last, first, edited)), Some(first))
  {
    FusedEnds(last, first, edited);
  }

  lemma RebasedLabel(s: Slot, offset: int)
    ensures LabelCarries(Rebase(s, offset), s)
  {
  }

  /** A fused text part is the retained part with the texts joined; its phase is the one both sides shared. */
  lemma FusedTextKeepsItsPhase(existing: seq<Slot>, completion: seq<Slot>)
    requires MergesFirst(existing, completion, Text)
    ensures var n := |existing| - 1;
            var fused := Merge(existing, completion, Text)[n].value;
            && fused.phase == existing[n].value.phase == completion[0].value.phase
            && fused == existing[n].value.(text := fused.text)
  {
  }
}
