/** Pruning a conversation to a token budget, newest messages first. */
module TokenBudget {
  import opened Collections
  import opened Options

  /** A message; one whose `tokenCount` is missing never fits, since the sum is then not a number. */
  datatype Message = Message(tokenCount: Option<nat>, rest: nat)

  /** The tokens priming the assistant's reply. */
  const PRIMING: nat := 3

  /** The context holds messages, and an undefined entry when instructions come without any message. */
  datatype Pruned = Pruned(context: seq<Option<Message>>, remaining: int, toRefine: seq<Message>)

  /** The tokens of the messages from index `j` on, or nothing when one of them has no count. */
  function Tokens(messages: seq<Message>, j: nat): Option<nat>
    requires j <= |messages|
    decreases |messages| - j
  {
    if j == |messages| then Some(0)
    else
      var rest := Tokens(messages, j + 1);
      if messages[j].tokenCount.None? || rest.None? then None else Some(messages[j].tokenCount.value + rest.value)
  }

  /** The messages from `j` on, with the priming, fit the budget. */
  ghost predicate Fits(messages: seq<Message>, j: int, budget: int) {
    && 0 <= j <= |messages|
    && Tokens(messages, j).Some?
    && PRIMING + Tokens(messages, j).value <= budget
  }

  /** The messages from `j` on leave room for more. */
  ghost predicate RoomAt(messages: seq<Message>, j: int, budget: int) {
    Fits(messages, j, budget) && PRIMING + Tokens(messages, j).value < budget
  }

  function Lift(messages: seq<Message>): seq<Option<Message>> {
    seq(|messages|, i requires 0 <= i < |messages| => Some(messages[i]))
  }

  /** The index the pruning cuts at: it goes on below `j` while there is room and the next message fits. */
  function Cut(messages: seq<Message>, j: nat, lowest: nat, budget: int): (cut: nat)
    requires lowest <= j <= |messages|
    ensures lowest <= cut <= j
    decreases j
  {
    var used := Tokens(messages, j);
    if j > lowest && used.Some? && PRIMING + used.value < budget
       && messages[j - 1].tokenCount.Some? && PRIMING + used.value + messages[j - 1].tokenCount.value <= budget
    then Cut(messages, j - 1, lowest, budget)
    else j
  }

  /** Index 0 is reserved for the instructions when there are any. */
  function Lowest(messages: seq<Message>, instructions: bool): nat {
    if instructions && messages != [] then 1 else 0
  }

  function CutOf(messages: seq<Message>, budget: int, instructions: bool): (cut: nat)
    ensures Lowest(messages, instructions) <= cut <= |messages|
  {
    Cut(messages, |messages|, Lowest(messages, instructions), budget)
  }

  /** The budget left for messages; `instructions` is the instructions' token count, itself optional. */
  function Budget(maxContextTokens: int, instructions: Option<Option<nat>>): int {
    maxContextTokens - if instructions.Some? then GetOr(instructions.value, 0) else 0
  }

  /** What pruning at `cut` returns. */
  ghost predicate PrunedAt(r: Pruned, original: seq<Message>, cut: nat, budget: int, instructions: bool) {
    && Lowest(original, instructions) <= cut <= |original|
    && r.toRefine == original[Lowest(original, instructions)..cut]
    && r.context == Head(original, instructions) + Lift(original[cut..])
    && Tokens(original, cut) == Some(budget - r.remaining - PRIMING)
  }

  /** The loop: pops the newest message while there is room and it fits, index 0 being reserved for the instructions. */
  method PopWhileFits(original: seq<Message>, budget: int, instructions: bool)
    returns (messages: seq<Message>, context: seq<Option<Message>>, currentTokenCount: int)
    ensures var cut := CutOf(original, budget, instructions);
            && messages == original[..cut] && context == Popped(original, cut)
            && Tokens(original, cut) == Some(currentTokenCount - PRIMING)
  {
    currentTokenCount, messages, context := PRIMING, original, [];
    ghost var lowest := Lowest(original, instructions);
    ghost var cut := CutOf(original, budget, instructions);
    ghost var j := |original|;
    var going := true;
    while going && |messages| > 0 && currentTokenCount < budget
      invariant lowest <= j <= |original| && messages == original[..j]
      invariant Tokens(original, j) == Some(currentTokenCount - PRIMING)
      invariant context == Popped(original, j)
      invariant cut == if going then Cut(original, j, lowest, budget) else j
      decreases |messages|, going
    {
      if |messages| == 1 && instructions {
        going := false;
      } else {
        var popped := messages[|messages| - 1];
        CutStep(original, j, lowest, budget, currentTokenCount - PRIMING);
        if popped.tokenCount.Some? && currentTokenCount + popped.tokenCount.value <= budget {
          messages := messages[..|messages| - 1];
          context := context + [Some(popped)];
          currentTokenCount := currentTokenCount + popped.tokenCount.value;
          j := j - 1;
        } else {
          going := false;
        }
      }
    }
  }

  /** `getMessagesWithinTokenLimit`. */
  method GetMessagesWithinTokenLimit(original: seq<Message>, maxContextTokens: int, instructions: Option<Option<nat>>)
    returns (r: Pruned)
    ensures var budget := Budget(maxContextTokens, instructions);
            PrunedAt(r, original, CutOf(original, budget, instructions.Some?), budget, instructions.Some?)
    ensures var own := if instructions.Some? && instructions.value.Some? then instructions.value.value else 0;
            var cut := CutOf(original, Budget(maxContextTokens, instructions), instructions.Some?);
            && Tokens(original, cut).Some?
            && own + PRIMING + Tokens(original, cut).value + r.remaining == maxContextTokens
  {
    var remainingContextTokens := Budget(maxContextTokens, instructions);
    var messages, context, currentTokenCount := PopWhileFits(original, remainingContextTokens, instructions.Some?);
    if instructions.Some? {
      context := context + [if original == [] then None else Some(original[0])];
      messages := if messages == [] then [] else messages[1..];
    }
    Assembled(original, CutOf(original, remainingContextTokens, instructions.Some?), Lowest(original, instructions.Some?),
              messages, context, instructions.Some?);
    r := Pruned(Reversed(context), remainingContextTokens - currentTokenCount, messages);
  }

  /** The context after popping everything from index `j` on: newest message first. */
  function Popped(messages: seq<Message>, j: nat): seq<Option<Message>>
    requires j <= |messages|
    decreases |messages| - j
  {
    if j == |messages| then [] else Popped(messages, j + 1) + [Some(messages[j])]
  }

  lemma {:induction false} PoppedReversed(messages: seq<Message>, j: nat)
    requires j <= |messages|
    ensures |Popped(messages, j)| == |messages| - j
    ensures forall i :: 0 <= i < |messages| - j ==> Popped(messages, j)[i] == Some(messages[|messages| - 1 - i])
    decreases |messages| - j
  {
    if j < |messages| {
      PoppedReversed(messages, j + 1);
    }
  }

  lemma CutStep(messages: seq<Message>, j: nat, lowest: nat, budget: int, used: int)
    requires lowest < j <= |messages| && Tokens(messages, j) == Some(used) && PRIMING + used < budget
    ensures var count := messages[j - 1].tokenCount;
            if count.Some? && PRIMING + used + count.value <= budget
            then Cut(messages, j, lowest, budget) == Cut(messages, j - 1, lowest, budget)
                 && Tokens(messages, j - 1) == Some(used + count.value)
            else Cut(messages, j, lowest, budget) == j
  {
  }

  lemma Assembled(original: seq<Message>, j: nat, lowest: nat, messages: seq<Message>, context: seq<Option<Message>>,
                  instructions: bool)
    requires lowest == Lowest(original, instructions) && lowest <= j <= |original|
    requires messages == if instructions && original[..j] != [] then original[..j][1..] else original[..j]
    requires context == Popped(original, j) + Head(original, instructions)
    ensures messages == original[lowest..j]
    ensures Reversed(context) == Head(original, instructions) + Lift(original[j..])
  {
    PoppedReversed(original, j);
  }

  /** The entry pushed last, at index 0 of the context: `original[0]`, whatever that is. */
  function Head(messages: seq<Message>, instructions: bool): seq<Option<Message>> {
    if !instructions then [] else if messages == [] then [None] else [Some(messages[0])]
  }

  // ---------------------------------------------------------------- main results

  lemma {:induction false} CutFits(messages: seq<Message>, j: nat, lowest: nat, budget: int)
    requires lowest <= j <= |messages| && Tokens(messages, j).Some?
    ensures var cut := Cut(messages, j, lowest, budget);
            && Tokens(messages, cut).Some?
            && (cut < j ==> Fits(messages, cut, budget))
            && (forall i :: cut < i <= j ==> RoomAt(messages, i, budget))
            && (cut > lowest && RoomAt(messages, cut, budget) ==> !Fits(messages, cut - 1, budget))
    decreases j
  {
    var cut := Cut(messages, j, lowest, budget);
    if cut < j {
      CutFits(messages, j - 1, lowest, budget);
    }
  }

  lemma {:induction false} LongerUsesMore(messages: seq<Message>, i: nat, j: nat)
    requires i <= j <= |messages| && Tokens(messages, i).Some?
    ensures Tokens(messages, j).Some? && Tokens(messages, j).value <= Tokens(messages, i).value
    ensures Tokens(messages, j).value == Tokens(messages, i).value ==>
              forall k :: i <= k < j ==> messages[k].tokenCount == Some(0)
    decreases j - i
  {
    if i < j {
      LongerUsesMore(messages, i + 1, j);
    }
  }

  /** Nothing is lost, duplicated or reordered: what is to be refined and what is kept, instructions first, make up
      the original list, and priming, kept and remaining tokens add up to the budget, which is never exceeded.  Of an
      empty list only an undefined entry for the instructions is kept. */
  lemma NothingLost(r: Pruned, messages: seq<Message>, budget: int, instructions: bool)
    requires PrunedAt(r, messages, CutOf(messages, budget, instructions), budget, instructions)
    ensures messages == [] ==> r.toRefine == [] && r.context == if instructions then [None] else []
    ensures var cut := CutOf(messages, budget, instructions);
            var kept := |messages| - cut;
            && (messages != [] ==>
                  && |r.context| + |r.toRefine| == |messages|
                  && (instructions ==> r.context[0] == Some(messages[0]))
                  && Lift(messages) == r.context[..|r.context| - kept] + Lift(r.toRefine) + r.context[|r.context| - kept..])
            && 3 + Tokens(messages, cut).value + r.remaining == budget
            && (kept > 0 ==> r.remaining >= 0)
  {
    var cut := CutOf(messages, budget, instructions);
    var lowest := Lowest(messages, instructions);
    CutFits(messages, |messages|, lowest, budget);
    LiftSplits(messages, lowest, cut);
    if messages != [] {
      assert |Head(messages, instructions)| == lowest;
      assert Head(messages, instructions) == Lift(messages[..lowest]);
    }
  }

  /** Entry by entry: the instructions' place is the first message, or undefined if there is none; the messages kept are
      those from the cut on, in order; and those to refine are the ones before it. */
  lemma PrunedEntries(r: Pruned, messages: seq<Message>, budget: int, instructions: bool)
    requires PrunedAt(r, messages, CutOf(messages, budget, instructions), budget, instructions)
    ensures var cut, head := CutOf(messages, budget, instructions), if instructions then 1 else 0;
            && |r.context| == head + |messages| - cut
            && (instructions ==> r.context[0] == if messages == [] then None else Some(messages[0]))
            && (forall j :: head <= j < |r.context| ==> r.context[j] == Some(messages[j - head + cut]))
            && |r.toRefine| == (if messages == [] then 0 else cut - head)
            && (forall j :: 0 <= j < |r.toRefine| ==> r.toRefine[j] == messages[j + head])
  {
    assert |Head(messages, instructions)| == if instructions then 1 else 0;
  }

  lemma LiftSplits(messages: seq<Message>, i: nat, j: nat)
    requires i <= j <= |messages|
    ensures Lift(messages) == Lift(messages[..i]) + Lift(messages[i..j]) + Lift(messages[j..])
  {
  }

  /** The tokens from an index on are the sum of the counts, provided every message has one. */
  lemma {:induction false} TokensAreTheSum(messages: seq<Message>, j: nat, counts: seq<nat>)
    requires j <= |messages|
    ensures Tokens(messages, j).Some? <==> forall k :: j <= k < |messages| ==> messages[k].tokenCount.Some?
    ensures |counts| == |messages| - j && (forall k :: 0 <= k < |counts| ==> messages[j + k].tokenCount == Some(counts[k])) ==>
              Tokens(messages, j) == Some(SumOf(counts))
    decreases |messages| - j
  {
    if j < |messages| {
      TokensAreTheSum(messages, j + 1, if counts == [] then [] else counts[1..]);
    }
  }

  ghost function SumOf(counts: seq<nat>): nat {
    if counts == [] then 0 else counts[0] + SumOf(counts[1..])
  }

  /** Any longer suffix that fits only adds zero-token messages to a budget already used up. */
  lemma KeepsLongestSuffix(messages: seq<Message>, budget: int, instructions: bool, j: nat)
    requires Lowest(messages, instructions) <= j < CutOf(messages, budget, instructions)
    requires Fits(messages, j, budget)
    ensures var cut := CutOf(messages, budget, instructions);
            && Tokens(messages, cut).Some? && PRIMING + Tokens(messages, cut).value == budget
            && forall k :: j <= k < cut ==> messages[k].tokenCount == Some(0)
  {
    var cut := CutOf(messages, budget, instructions);
    CutFits(messages, |messages|, Lowest(messages, instructions), budget);
    LongerUsesMore(messages, j, cut);
    LongerUsesMore(messages, j, cut - 1);
  }

  /** What is kept is the longest suffix that fits, except exactly when the budget is used up to the last token and
      the next message has none. */
  lemma KeepsLongestUnlessFull(messages: seq<Message>, budget: int, instructions: bool)
    ensures var cut, lowest := CutOf(messages, budget, instructions), Lowest(messages, instructions);
            && Tokens(messages, cut).Some?
            && ((forall j :: lowest <= j < cut ==> !Fits(messages, j, budget)) <==>
                !(cut > lowest && PRIMING + Tokens(messages, cut).value == budget
                  && messages[cut - 1].tokenCount == Some(0)))
  {
    var cut, lowest := CutOf(messages, budget, instructions), Lowest(messages, instructions);
    CutFits(messages, |messages|, lowest, budget);
    forall j: nat | lowest <= j < cut && Fits(messages, j, budget)
      ensures PRIMING + Tokens(messages, cut).value == budget && messages[cut - 1].tokenCount == Some(0)
    {
      KeepsLongestSuffix(messages, budget, instructions, j);
    }
    if cut > lowest && PRIMING + Tokens(messages, cut).value == budget && messages[cut - 1].tokenCount == Some(0) {
      assert Fits(messages, cut - 1, budget);
    }
  }

  /** A larger budget never keeps fewer messages. */
  lemma LargerBudgetKeepsMore(messages: seq<Message>, small: int, large: int, instructions: bool)
    requires small <= large
    ensures CutOf(messages, large, instructions) <= CutOf(messages, small, instructions)
  {
    CutMonotone(messages, |messages|, Lowest(messages, instructions), small, large);
  }

  lemma {:induction false} CutMonotone(messages: seq<Message>, j: nat, lowest: nat, small: int, large: int)
    requires lowest <= j <= |messages| && small <= large
    ensures Cut(messages, j, lowest, large) <= Cut(messages, j, lowest, small)
    decreases j
  {
    if Cut(messages, j, lowest, small) < j {
      CutMonotone(messages, j - 1, lowest, small, large);
    }
  }
}
