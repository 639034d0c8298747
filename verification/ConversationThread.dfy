/** Rebuilding a conversation thread by walking parent pointers, with or without stopping at a summary. */
module ConversationThread {
  import opened Collections
  import opened Options
  import opened Strings

  // ---------------------------------------------------------------- messages

  /** The `content` field of a summary part: a list of blocks with optional text, a string, or neither. */
  datatype SummaryBody = Blocks(texts: seq<Option<string>>) | Plain(s: string) | NoBody

  /** One content part; a null part is `NullPart`. */
  datatype Part =
    | NullPart
    | SummaryPart(body: SummaryBody, text: Option<string>, tokenCount: Option<nat>)
    | TextPart(value: string)
    | OtherPart(raw: nat)

  datatype Content = NotAList(raw: nat) | Parts(parts: seq<Part>)

  datatype Message = Message(messageId: Option<string>, id: Option<string>, parentMessageId: Option<string>,
                             role: Option<string>, content: Content, tokenCount: Option<nat>,
                             summary: Option<string>, summaryTokenCount: Option<nat>, rest: nat)

  const NO_PARENT: string := "00000000-0000-0000-0000-000000000000"

  function IdOf(m: Message): Option<string> {
    if m.messageId.Some? then m.messageId else m.id
  }

  // ---------------------------------------------------------------- summaries

  function Join(texts: seq<Option<string>>): string {
    if texts == [] then "" else GetOr(texts[0], "") + Join(texts[1..])
  }

  function SummaryText(p: Part): string
    requires p.SummaryPart?
  {
    match p.body
    case Blocks(texts) => Join(texts)
    case Plain(s) => s
    case NoBody => GetOr(p.text, "")
  }

  /** The text is empty once trimmed. */
  predicate IsBlank(text: string) {
    text == [] || (IsSpace(text[0]) && IsBlank(text[1..]))
  }

  lemma {:induction false} BlankIsAllSpace(text: string)
    ensures IsBlank(text) <==> forall c :: c in text ==> IsSpace(c)
  {
    if text != [] {
      BlankIsAllSpace(text[1..]);
      assert text == [text[0]] + text[1..];
    }
  }

  predicate IsSummaryBlock(p: Part) {
    p.SummaryPart? && !IsBlank(SummaryText(p))
  }

  function LastSummary(parts: seq<Part>): (b: Option<Part>)
    ensures b.Some? ==> IsSummaryBlock(b.value)
  {
    if parts == [] then None
    else if IsSummaryBlock(parts[|parts| - 1]) then Some(parts[|parts| - 1])
    else LastSummary(parts[..|parts| - 1])
  }

  /** The block `findSummaryContentBlock` returns: the last summary that is not blank. */
  function SummaryBlock(m: Message): (b: Option<Part>)
    ensures b.Some? ==> IsSummaryBlock(b.value)
  {
    if m.content.Parts? then LastSummary(m.content.parts) else None
  }

  ghost predicate IsLastSummaryPart(parts: seq<Part>, i: int) {
    0 <= i < |parts| && IsSummaryBlock(parts[i]) && forall j :: i < j < |parts| ==> !IsSummaryBlock(parts[j])
  }

  /** The last summary wins: a block is found exactly when there is one, and it is the last. */
  lemma {:induction false} LastSummaryWins(parts: seq<Part>, i: int)
    requires IsLastSummaryPart(parts, i)
    ensures LastSummary(parts) == Some(parts[i])
  {
    if i < |parts| - 1 {
      assert !IsSummaryBlock(parts[|parts| - 1]);
      LastSummaryWins(parts[..|parts| - 1], i);
    }
  }

  lemma {:induction false} NoSummaryNoBlock(parts: seq<Part>)
    ensures LastSummary(parts).None? <==> forall i :: 0 <= i < |parts| ==> !IsSummaryBlock(parts[i])
  {
    if parts != [] {
      NoSummaryNoBlock(parts[..|parts| - 1]);
      assert forall i :: 0 <= i < |parts| - 1 ==> parts[..|parts| - 1][i] == parts[i];
    }
  }

  /** The scan over the parts, front to back, remembering the last hit. */
  method FindSummaryContentBlock(m: Message) returns (lastSummary: Option<Part>)
    ensures lastSummary == SummaryBlock(m)
  {
    lastSummary := None;
    if m.content.NotAList? {
      return;
    }
    var parts := m.content.parts;
    var i := 0;
    while i < |parts|
      invariant 0 <= i <= |parts|
      invariant lastSummary == LastSummary(parts[..i])
    {
      assert parts[..i + 1][..i] == parts[..i];
      if IsSummaryBlock(parts[i]) {
        lastSummary := Some(parts[i]);
      }
      i := i + 1;
    }
    assert parts[..i] == parts;
  }

  /** A legacy summary counts only when it is a non-empty string. */
  predicate HasLegacySummary(m: Message) {
    m.summary.Some? && m.summary.value != ""
  }

  predicate HasSummary(m: Message) {
    SummaryBlock(m).Some? || HasLegacySummary(m)
  }

  /** The message the walk puts in place of one with a summary. */
  function SummaryForm(m: Message): Message
    requires HasSummary(m)
  {
    var block := SummaryBlock(m);
    if block.Some? then
      m.(role := Some("system"), content := Parts([TextPart(SummaryText(block.value))]), tokenCount := block.value.tokenCount)
    else
      m.(role := Some("system"), content := Parts([TextPart(m.summary.value)]),
         tokenCount := if m.summaryTokenCount.Some? then m.summaryTokenCount else m.tokenCount)
  }

  function Resolve(m: Message, summary: bool): Message {
    if summary && HasSummary(m) then SummaryForm(m) else m
  }

  // ---------------------------------------------------------------- the walk, as a specification

  function Find(messages: seq<Message>, id: string): (m: Option<Message>)
    ensures m.Some? ==> m.value in messages && IdOf(m.value) == Some(id)
    ensures m.None? ==> forall x :: x in messages ==> IdOf(x) != Some(id)
  {
    if messages == [] then None
    else if IdOf(messages[0]) == Some(id) then Some(messages[0])
    else Find(messages[1..], id)
  }

  /** The first match, as `Array.prototype.find` returns it. */
  lemma {:induction false} FindIsFirst(messages: seq<Message>, id: string)
    requires Find(messages, id).Some?
    ensures exists i :: 0 <= i < |messages| && messages[i] == Find(messages, id).value
                        && forall j :: 0 <= j < i ==> IdOf(messages[j]) != Some(id)
  {
    if IdOf(messages[0]) == Some(id) {
      assert messages[0] == Find(messages, id).value;
    } else {
      FindIsFirst(messages[1..], id);
      var i :| 0 <= i < |messages[1..]| && messages[1..][i] == Find(messages[1..], id).value
               && forall j :: 0 <= j < i ==> IdOf(messages[1..][j]) != Some(id);
      assert messages[i + 1] == Find(messages, id).value;
      forall j | 0 <= j < i + 1 ensures IdOf(messages[j]) != Some(id) {
        if j > 0 { assert messages[j] == messages[1..][j - 1]; }
      }
    }
  }

  /** Where the walk goes next. */
  function Next(m: Message): Option<string> {
    if m.parentMessageId == Some(NO_PARENT) then None else m.parentMessageId
  }

  /** A current id that ends the loop: null, undefined or the empty string. */
  predicate Falsy(id: Option<string>) {
    id.None? || id.value == ""
  }

  function Ids(messages: seq<Message>): set<string> {
    set m | m in messages && IdOf(m).Some? :: IdOf(m).value
  }

  /** The walk as it visits the original messages, newest first. */
  function Walk(messages: seq<Message>, current: Option<string>, visited: set<string>, summary: bool): seq<Message>
    decreases Ids(messages) - visited
  {
    if Falsy(current) || current.value in visited || Find(messages, current.value).None? then []
    else
      var m := Find(messages, current.value).value;
      assert current.value in Ids(messages);
      [m] + if summary && HasSummary(m) then [] else Walk(messages, Next(m), visited + {current.value}, summary)
  }

  // ---------------------------------------------------------------- what the walk is

  /** `path` follows parent pointers from the message called `start`. */
  ghost predicate IsChain(messages: seq<Message>, start: Option<string>, path: seq<Message>) {
    && (path != [] ==> !Falsy(start) && Find(messages, start.value) == Some(path[0]))
    && forall i :: 0 <= i < |path| - 1 ==> !Falsy(Next(path[i])) && Find(messages, Next(path[i]).value) == Some(path[i + 1])
  }

  ghost predicate DistinctIds(path: seq<Message>) {
    forall i, j :: 0 <= i < j < |path| ==> IdOf(path[i]) != IdOf(path[j])
  }

  /** The id a path leads to. */
  function Beyond(start: Option<string>, path: seq<Message>): Option<string> {
    if path == [] then start else Next(path[|path| - 1])
  }

  /** A path that can go no further: it ends at a root, at a missing parent or at a repetition. */
  ghost predicate Stops(messages: seq<Message>, start: Option<string>, path: seq<Message>) {
    var next := Beyond(start, path);
    || Falsy(next)
    || Find(messages, next.value).None?
    || exists i :: 0 <= i < |path| && IdOf(path[i]) == next
  }

  ghost predicate Avoids(path: seq<Message>, visited: set<string>) {
    forall i :: 0 <= i < |path| ==> IdOf(path[i]).Some? && IdOf(path[i]).value !in visited
  }

  ghost predicate StopsAvoiding(messages: seq<Message>, start: Option<string>, path: seq<Message>, visited: set<string>) {
    Stops(messages, start, path) || Beyond(start, path).value in visited
  }

  lemma {:induction false} WalkIsMaximalChain(messages: seq<Message>, current: Option<string>, visited: set<string>)
    ensures var path := Walk(messages, current, visited, false);
            && IsChain(messages, current, path) && DistinctIds(path) && Avoids(path, visited)
            && StopsAvoiding(messages, current, path, visited)
    decreases Ids(messages) - visited
  {
    var path := Walk(messages, current, visited, false);
    if path != [] {
      var m := path[0];
      assert current.value in Ids(messages);
      WalkIsMaximalChain(messages, Next(m), visited + {current.value});
      var rest := Walk(messages, Next(m), visited + {current.value}, false);
      assert path == [m] + rest;
      StopsOneEarlier(messages, current, m, rest, visited);
    }
  }

  lemma StopsOneEarlier(messages: seq<Message>, current: Option<string>, m: Message, rest: seq<Message>, visited: set<string>)
    requires !Falsy(current) && IdOf(m) == current
    requires StopsAvoiding(messages, Next(m), rest, visited + {current.value})
    ensures StopsAvoiding(messages, current, [m] + rest, visited)
  {
    var path := [m] + rest;
    var next := Beyond(Next(m), rest);
    assert next == Beyond(current, path);
    if !Falsy(next) && Find(messages, next.value).Some? && next.value !in visited {
      if next == current {
        assert IdOf(path[0]) == next;
      } else {
        var i :| 0 <= i < |rest| && IdOf(rest[i]) == next;
        assert IdOf(path[i + 1]) == next;
      }
    }
  }

  lemma {:induction false} MaximalChainIsWalk(messages: seq<Message>, current: Option<string>, visited: set<string>, path: seq<Message>)
    requires IsChain(messages, current, path) && DistinctIds(path) && Avoids(path, visited)
    requires StopsAvoiding(messages, current, path, visited)
    ensures path == Walk(messages, current, visited, false)
    decreases path
  {
    if path != [] {
      var m, rest := path[0], path[1..];
      assert IdOf(m) == current;
      forall i | 0 <= i < |rest| ensures IdOf(rest[i]).Some? && IdOf(rest[i]).value !in visited + {current.value} {
        assert rest[i] == path[i + 1];
      }
      assert Beyond(Next(m), rest) == Beyond(current, path);
      MaximalChainIsWalk(messages, Next(m), visited + {current.value}, rest);
      assert path == [m] + rest;
    }
  }

  /** On any parent graph, cyclic or dangling, the walk is the one chain of distinct messages from the
      requested one that cannot be extended. */
  lemma WalkIsTheMaximalChain(messages: seq<Message>, start: Option<string>, path: seq<Message>)
    ensures path == Walk(messages, start, {}, false) <==>
            IsChain(messages, start, path) && DistinctIds(path) && Stops(messages, start, path)
  {
    WalkIsMaximalChain(messages, start, {});
    if IsChain(messages, start, path) && DistinctIds(path) && Stops(messages, start, path) {
      forall i | 0 <= i < |path| ensures IdOf(path[i]).Some? {
        if i > 0 { assert Find(messages, Next(path[i - 1]).value) == Some(path[i - 1 + 1]); }
      }
      MaximalChainIsWalk(messages, start, {}, path);
    }
  }

  // ---------------------------------------------------------------- the walk on the messages' own fields

  /** A message answers to its `messageId`, or to its `id` if it has no `messageId`. */
  ghost predicate Called(m: Message, id: string) {
    m.messageId == Some(id) || (m.messageId.None? && m.id == Some(id))
  }

  ghost predicate FirstCalled(messages: seq<Message>, id: string, m: Message) {
    exists i :: 0 <= i < |messages| && messages[i] == m && Called(m, id) && forall j :: 0 <= j < i ==> !Called(messages[j], id)
  }

  ghost predicate NobodyCalled(messages: seq<Message>, id: string) {
    forall m :: m in messages ==> !Called(m, id)
  }

  /** A parent id that makes its message a root. */
  ghost predicate RootLink(parent: Option<string>) {
    parent.None? || parent.value == "" || parent.value == "00000000-0000-0000-0000-000000000000"
  }

  /** Each message of the path is the first one called what the one before names as its parent. */
  ghost predicate FollowsParents(messages: seq<Message>, start: Option<string>, path: seq<Message>) {
    && (path != [] ==> start.Some? && start.value != "" && FirstCalled(messages, start.value, path[0]))
    && forall i :: 0 <= i < |path| - 1 ==>
         !RootLink(path[i].parentMessageId) && FirstCalled(messages, path[i].parentMessageId.value, path[i + 1])
  }

  /** No two messages of the path answer to one id. */
  ghost predicate NobodyTwice(path: seq<Message>) {
    forall i, j, id :: 0 <= i < j < |path| && Called(path[i], id) ==> !Called(path[j], id)
  }

  /** The path ends at a root, or where the parent named does not exist or is already in the path. */
  ghost predicate EndsRightly(messages: seq<Message>, start: Option<string>, path: seq<Message>) {
    if path == [] then start.None? || start.value == "" || NobodyCalled(messages, start.value)
    else
      var parent := path[|path| - 1].parentMessageId;
      RootLink(parent) || NobodyCalled(messages, parent.value) || exists i :: 0 <= i < |path| && Called(path[i], parent.value)
  }

  lemma CalledById(m: Message, id: string)
    ensures Called(m, id) <==> IdOf(m) == Some(id)
  {
  }

  lemma FoundIsFirstCalled(messages: seq<Message>, id: string, m: Message)
    ensures Find(messages, id) == Some(m) <==> FirstCalled(messages, id, m)
  {
    forall x ensures Called(x, id) <==> IdOf(x) == Some(id) {
      CalledById(x, id);
    }
    if Find(messages, id).Some? {
      FindIsFirst(messages, id);
      var i :| 0 <= i < |messages| && messages[i] == Find(messages, id).value
               && forall j :: 0 <= j < i ==> IdOf(messages[j]) != Some(id);
      if FirstCalled(messages, id, m) {
        var k :| 0 <= k < |messages| && messages[k] == m && Called(m, id) && forall j :: 0 <= j < k ==> !Called(messages[j], id);
        assert k == i;
      }
    }
  }

  lemma NotFoundIsNobodyCalled(messages: seq<Message>, id: string)
    ensures Find(messages, id).None? <==> NobodyCalled(messages, id)
  {
    forall m ensures Called(m, id) <==> IdOf(m) == Some(id) {
      CalledById(m, id);
    }
  }

  lemma ChainFollowsParents(messages: seq<Message>, start: Option<string>, path: seq<Message>)
    ensures IsChain(messages, start, path) <==> FollowsParents(messages, start, path)
  {
    if path != [] && start.Some? {
      FoundIsFirstCalled(messages, start.value, path[0]);
    }
    forall i | 0 <= i < |path| - 1
      ensures !Falsy(Next(path[i])) && Find(messages, Next(path[i]).value) == Some(path[i + 1]) <==>
              !RootLink(path[i].parentMessageId) && FirstCalled(messages, path[i].parentMessageId.value, path[i + 1])
    {
      if path[i].parentMessageId.Some? {
        FoundIsFirstCalled(messages, path[i].parentMessageId.value, path[i + 1]);
      }
    }
  }

  lemma ChainIsCalled(messages: seq<Message>, start: Option<string>, path: seq<Message>, i: nat)
    requires FollowsParents(messages, start, path) && i < |path|
    ensures IdOf(path[i]).Some?
  {
    if i > 0 {
      var parent := path[i - 1].parentMessageId;
      assert FirstCalled(messages, parent.value, path[i - 1 + 1]);
    }
  }

  lemma DistinctIsNobodyTwice(messages: seq<Message>, start: Option<string>, path: seq<Message>)
    requires FollowsParents(messages, start, path)
    ensures DistinctIds(path) <==> NobodyTwice(path)
  {
    forall i | 0 <= i < |path| ensures IdOf(path[i]).Some? && Called(path[i], IdOf(path[i]).value) {
      ChainIsCalled(messages, start, path, i);
    }
    forall m, id ensures Called(m, id) <==> IdOf(m) == Some(id) {
      CalledById(m, id);
    }
  }

  lemma StopsIsEndsRightly(messages: seq<Message>, start: Option<string>, path: seq<Message>)
    ensures Stops(messages, start, path) <==> EndsRightly(messages, start, path)
  {
    var last := if path == [] then start else path[|path| - 1].parentMessageId;
    if last.Some? {
      NotFoundIsNobodyCalled(messages, last.value);
      forall m ensures Called(m, last.value) <==> IdOf(m) == last {
        CalledById(m, last.value);
      }
    }
  }

  /** The walk on the fields the messages carry: a path is the walk if and only if every message is the first one called
      what the message before names as its parent, none answers to an id twice, and it ends only at a message without
      a parent, or whose parent does not exist or is already in the path. */
  lemma WalkFollowsParents(messages: seq<Message>, start: Option<string>, path: seq<Message>)
    ensures path == Walk(messages, start, {}, false) <==>
            FollowsParents(messages, start, path) && NobodyTwice(path) && EndsRightly(messages, start, path)
  {
    WalkIsTheMaximalChain(messages, start, path);
    ChainFollowsParents(messages, start, path);
    if FollowsParents(messages, start, path) {
      DistinctIsNobodyTwice(messages, start, path);
    }
    StopsIsEndsRightly(messages, start, path);
  }

  /** A message has a summary when it has a non-empty legacy one, or a summary part whose text is not all white space. */
  lemma HasSummaryOnFields(m: Message)
    ensures HasSummary(m) <==>
            || (m.summary.Some? && m.summary.value != "")
            || (m.content.Parts? && exists i :: 0 <= i < |m.content.parts| && m.content.parts[i].SummaryPart?
                                                && exists c :: c in SummaryText(m.content.parts[i]) && !IsSpace(c))
  {
    if m.content.Parts? {
      var parts := m.content.parts;
      NoSummaryNoBlock(parts);
      forall i | 0 <= i < |parts| && parts[i].SummaryPart?
        ensures IsSummaryBlock(parts[i]) <==> exists c :: c in SummaryText(parts[i]) && !IsSpace(c)
      {
        BlankIsAllSpace(SummaryText(parts[i]));
      }
    }
  }

  /** A summary's text: a string as it is, the texts of a list of blocks in order with missing ones left out, and
      otherwise the part's own text. */
  lemma SummaryTextOnFields(p: Part, texts: seq<Option<string>>, last: string)
    requires p.SummaryPart?
    ensures p.body == Blocks([]) ==> SummaryText(p) == ""
    ensures SummaryText(p.(body := Blocks(texts + [Some(last)]))) == SummaryText(p.(body := Blocks(texts))) + last
    ensures SummaryText(p.(body := Blocks(texts + [None]))) == SummaryText(p.(body := Blocks(texts)))
    ensures p.body.Plain? ==> SummaryText(p) == p.body.s
    ensures p.body.NoBody? ==> SummaryText(p) == if p.text.Some? then p.text.value else ""
  {
    JoinAppends(texts, Some(last));
    JoinAppends(texts, None);
  }

  lemma {:induction false} JoinAppends(texts: seq<Option<string>>, last: Option<string>)
    ensures Join(texts + [last]) == Join(texts) + if last.Some? then last.value else ""
  {
    if texts == [] {
      var one := [last];
      assert texts + one == one && one[1..] == [];
      assert Join(one) == GetOr(last, "") + Join([]);
    } else {
      JoinAppends(texts[1..], last);
      var all := texts + [last];
      assert all[1..] == texts[1..] + [last] && all[0] == texts[0];
      Associate(GetOr(texts[0], ""), Join(texts[1..]), GetOr(last, ""));
    }
  }

  // ---------------------------------------------------------------- the summary cut

  /** The newest part of a path, down to and including the first message with a summary. */
  function UpToSummary(path: seq<Message>): seq<Message> {
    if path == [] then []
    else [path[0]] + if HasSummary(path[0]) then [] else UpToSummary(path[1..])
  }

  lemma {:induction false} SummaryWalkFrom(messages: seq<Message>, current: Option<string>, visited: set<string>)
    ensures Walk(messages, current, visited, true) == UpToSummary(Walk(messages, current, visited, false))
    decreases Ids(messages) - visited
  {
    if !Falsy(current) && current.value !in visited && Find(messages, current.value).Some? {
      var m := Find(messages, current.value).value;
      assert current.value in Ids(messages);
      SummaryWalkFrom(messages, Next(m), visited + {current.value});
      var rest := Walk(messages, Next(m), visited + {current.value}, false);
      assert ([m] + rest)[1..] == rest;
    }
  }

  /** Where a path is cut: the first message with a summary ends it, and no newer one has any. */
  lemma {:induction false} CutAtNewestSummary(path: seq<Message>)
    ensures var cut := UpToSummary(path);
            && cut <= path
            && (path != [] ==> cut != [])
            && (forall i :: 0 <= i < |cut| - 1 ==> !HasSummary(cut[i]))
            && (cut != [] && !HasSummary(cut[|cut| - 1]) ==> cut == path)
  {
    if path != [] {
      CutAtNewestSummary(path[1..]);
    }
  }

  // ---------------------------------------------------------------- the loop

  /** What the loop pushes: the message itself, or what the map method made of it. */
  datatype Shown<T> = Unmapped(message: Message) | Mapped(value: T)

  function Show<T>(m: Message, mapMethod: Option<Message -> T>, mapCondition: Option<Message -> bool>): Shown<T> {
    if mapMethod.Some? && (mapCondition.Some? ==> mapCondition.value(m)) then Mapped(mapMethod.value(m)) else Unmapped(m)
  }

  /** The thread is the walk, oldest first, with each message resolved and mapped on its own. */
  ghost predicate IsThread<T(!new)>(ordered: seq<Shown<T>>, path: seq<Message>, mapMethod: Option<Message -> T>,
                                    mapCondition: Option<Message -> bool>, summary: bool) {
    && |ordered| == |path|
    && forall k :: 0 <= k < |path| ==>
                     ordered[k] == Show(Resolve(path[|path| - 1 - k], summary), mapMethod, mapCondition)
  }

  function ShowAll<T>(path: seq<Message>, mapMethod: Option<Message -> T>, mapCondition: Option<Message -> bool>,
                      summary: bool): (pushed: seq<Shown<T>>)
    ensures |pushed| == |path|
  {
    if path == [] then []
    else ShowAll(path[..|path| - 1], mapMethod, mapCondition, summary)
         + [Show(Resolve(path[|path| - 1], summary), mapMethod, mapCondition)]
  }

  lemma {:induction false} ShowAllAt<T>(path: seq<Message>, mapMethod: Option<Message -> T>, mapCondition: Option<Message -> bool>,
                                        summary: bool, k: nat)
    requires k < |path|
    ensures ShowAll(path, mapMethod, mapCondition, summary)[k] == Show(Resolve(path[k], summary), mapMethod, mapCondition)
  {
    if k < |path| - 1 {
      ShowAllAt(path[..|path| - 1], mapMethod, mapCondition, summary, k);
    }
  }

  lemma ShowAllPush<T>(path: seq<Message>, m: Message, mapMethod: Option<Message -> T>, mapCondition: Option<Message -> bool>,
                       summary: bool)
    ensures ShowAll(path + [m], mapMethod, mapCondition, summary)
            == ShowAll(path, mapMethod, mapCondition, summary) + [Show(Resolve(m, summary), mapMethod, mapCondition)]
  {
    assert (path + [m])[..|path|] == path;
  }

  lemma ReversedIsThread<T(!new)>(path: seq<Message>, mapMethod: Option<Message -> T>, mapCondition: Option<Message -> bool>,
                                  summary: bool)
    ensures IsThread(Reversed(ShowAll(path, mapMethod, mapCondition, summary)), path, mapMethod, mapCondition, summary)
  {
    var shown := ShowAll(path, mapMethod, mapCondition, summary);
    var ordered := Reversed(shown);
    forall k | 0 <= k < |path|
      ensures ordered[k] == Show(Resolve(path[|path| - 1 - k], summary), mapMethod, mapCondition)
    {
      var m: nat := |path| - 1 - k;
      ShowAllAt(path, mapMethod, mapCondition, summary, m);
      assert ordered[k] == shown[m];
    }
  }

  /** What remains to be walked after `message`, and whether the loop goes on. */
  ghost function After(messages: seq<Message>, message: Message, visited: set<string>, summary: bool): seq<Message> {
    if summary && HasSummary(message) then [] else Walk(messages, Next(message), visited, summary)
  }

  lemma WalkStep(messages: seq<Message>, id: string, visited: set<string>, summary: bool)
    requires id != "" && id !in visited && Find(messages, id).Some?
    ensures id in Ids(messages)
    ensures Walk(messages, Some(id), visited, summary)
            == [Find(messages, id).value] + After(messages, Find(messages, id).value, visited + {id}, summary)
  {
  }

  /** One visit: the entry to push and whether the message ends the walk. */
  method Visit<T(!new)>(message: Message, mapMethod: Option<Message -> T>, mapCondition: Option<Message -> bool>, summary: bool)
    returns (processed: Shown<T>, hasSummary: bool)
    ensures processed == Show(Resolve(message, summary), mapMethod, mapCondition)
    ensures hasSummary <==> summary && HasSummary(message)
  {
    var block := FindSummaryContentBlock(message);
    hasSummary := summary && (block.Some? || HasLegacySummary(message));
    processed := Show(if hasSummary then SummaryForm(message) else message, mapMethod, mapCondition);
  }

  /** What an entry of the thread is for a message: the map method's value if there is one and the condition, if any, holds,
      and else the message itself. */
  ghost predicate IsEntryFor<T(!new)>(entry: Shown<T>, m: Message, mapMethod: Option<Message -> T>,
                                      mapCondition: Option<Message -> bool>) {
    match entry
    case Mapped(value) => mapMethod.Some? && value == mapMethod.value(m) && (mapCondition.None? || mapCondition.value(m))
    case Unmapped(message) => message == m && (mapMethod.None? || (mapCondition.Some? && !mapCondition.value(m)))
  }

  /** Without summaries every entry is that of its message of the walk, oldest first. */
  lemma ThreadEntries<T(!new)>(ordered: seq<Shown<T>>, path: seq<Message>, mapMethod: Option<Message -> T>,
                               mapCondition: Option<Message -> bool>)
    requires IsThread(ordered, path, mapMethod, mapCondition, false)
    ensures |ordered| == |path|
    ensures forall k :: 0 <= k < |path| ==> IsEntryFor(ordered[k], path[|path| - 1 - k], mapMethod, mapCondition)
  {
  }

  /** `getMessagesForConversation`: the loop with its visited set, and the reversal at the end. */
  method GetMessagesForConversation<T(!new)>(messages: seq<Message>, parentMessageId: Option<string>,
                                             mapMethod: Option<Message -> T>, mapCondition: Option<Message -> bool>,
                                             summary: bool)
    returns (ordered: seq<Shown<T>>)
    ensures IsThread(ordered, Walk(messages, parentMessageId, {}, summary), mapMethod, mapCondition, summary)
  {
    var pushed: seq<Shown<T>> := [];
    ghost var path: seq<Message> := [];
    ghost var rest := Walk(messages, parentMessageId, {}, summary);
    var current, visited, going := parentMessageId, {}, true;
    while going && !Falsy(current) && current.value !in visited
      invariant Walk(messages, parentMessageId, {}, summary) == path + rest
      invariant rest == if going then Walk(messages, current, visited, summary) else []
      invariant pushed == ShowAll(path, mapMethod, mapCondition, summary)
      decreases Ids(messages) - visited, going
    {
      var found := Find(messages, current.value);
      if found.None? {
        going := false;
      } else {
        var message := found.value;
        WalkStep(messages, current.value, visited, summary);
        visited := visited + {current.value};
        var processed, hasSummary := Visit(message, mapMethod, mapCondition, summary);
        ShowAllPush(path, message, mapMethod, mapCondition, summary);
        pushed := pushed + [processed];
        Associate(path, [message], After(messages, message, visited, summary));
        rest := After(messages, message, visited, summary);
        path := path + [message];
        if hasSummary {
          going := false;
        } else {
          current := Next(message);
        }
      }
    }
    assert rest == [] && path + [] == path;
    ReversedIsThread(path, mapMethod, mapCondition, summary);
    ordered := Reversed(pushed);
  }

  // ---------------------------------------------------------------- main results

  /** The summary walk is the full walk cut at its newest message with a summary. */
  lemma SummaryWalkIsCut(messages: seq<Message>, start: Option<string>)
    ensures var path, cut := Walk(messages, start, {}, false), Walk(messages, start, {}, true);
            && |cut| <= |path| && cut == path[..|cut|]
            && (forall i :: 0 <= i < |cut| - 1 ==> !HasSummary(path[i]))
            && (path != [] ==> cut != [])
            && (cut != [] ==> HasSummary(path[|cut| - 1]) || cut == path)
  {
    SummaryWalkFrom(messages, start, {});
    CutAtNewestSummary(Walk(messages, start, {}, false));
  }

  /** The thread with `summary` on is the thread with it off, cut at the newest message with a summary,
      with that head in its summary form and every later message as it was. */
  lemma SummaryModeCutsTheThread<T(!new)>(messages: seq<Message>, start: Option<string>, mapMethod: Option<Message -> T>,
                                          mapCondition: Option<Message -> bool>, off: seq<Shown<T>>, on: seq<Shown<T>>)
    requires IsThread(off, Walk(messages, start, {}, false), mapMethod, mapCondition, false)
    requires IsThread(on, Walk(messages, start, {}, true), mapMethod, mapCondition, true)
    ensures |on| <= |off| == |Walk(messages, start, {}, false)| && (off != [] ==> on != [])
    ensures on != [] ==>
              var head := Walk(messages, start, {}, false)[|on| - 1];
              if HasSummary(head)
              then on == [Show(SummaryForm(head), mapMethod, mapCondition)] + off[|off| - |on| + 1..]
              else on == off
  {
    var path, cut := Walk(messages, start, {}, false), Walk(messages, start, {}, true);
    SummaryWalkIsCut(messages, start);
    if on != [] {
      LaterEntriesAgree(path, cut, mapMethod, mapCondition, off, on);
      var head := path[|on| - 1];
      assert on[0] == Show(Resolve(head, true), mapMethod, mapCondition);
      assert on == [on[0]] + on[1..];
      if !HasSummary(head) {
        UnsummarisedAlike(head, mapMethod, mapCondition);
        assert off == [off[0]] + off[1..];
      }
    }
  }

  lemma LaterEntriesAgree<T(!new)>(path: seq<Message>, cut: seq<Message>, mapMethod: Option<Message -> T>,
                                   mapCondition: Option<Message -> bool>, off: seq<Shown<T>>, on: seq<Shown<T>>)
    requires IsThread(off, path, mapMethod, mapCondition, false) && IsThread(on, cut, mapMethod, mapCondition, true)
    requires 0 < |cut| <= |path| && cut == path[..|cut|]
    requires forall i :: 0 <= i < |cut| - 1 ==> !HasSummary(path[i])
    ensures on[1..] == off[|off| - |on| + 1..]
  {
  }

  lemma UnsummarisedAlike<T>(m: Message, mapMethod: Option<Message -> T>, mapCondition: Option<Message -> bool>)
    requires !HasSummary(m)
    ensures Show(Resolve(m, true), mapMethod, mapCondition) == Show(Resolve(m, false), mapMethod, mapCondition)
  {
  }

  /** What a message is remembered as when it is the previous summary. */
  function SummaryRecord(m: Message): Message
    requires HasSummary(m)
  {
    var block := SummaryBlock(m);
    if block.Some? then m.(summary := Some(SummaryText(block.value)), summaryTokenCount := block.value.tokenCount) else m
  }

  /** The summary form is the message as a system message holding only the summary.  The record remembers the same text,
      and the same token count unless a legacy summary has none of its own. */
  lemma RecordMatchesForm(m: Message)
    requires HasSummary(m)
    ensures var form, record := SummaryForm(m), SummaryRecord(m);
            && form.role == Some("system") && form == m.(role := form.role, content := form.content, tokenCount := form.tokenCount)
            && record == m.(summary := record.summary, summaryTokenCount := record.summaryTokenCount)
            && record.summary.Some? && form.content == Parts([TextPart(record.summary.value)])
            && (form.tokenCount == record.summaryTokenCount
                || (SummaryBlock(m).None? && m.summaryTokenCount.None? && form.tokenCount == m.tokenCount))
    ensures SummaryBlock(m).Some? ==>
              var block := SummaryBlock(m).value;
              && SummaryRecord(m).summary.value == SummaryText(block) && SummaryRecord(m).summaryTokenCount == block.tokenCount
              && SummaryForm(m).tokenCount == block.tokenCount
    ensures SummaryBlock(m).None? ==>
              && SummaryRecord(m) == m && SummaryForm(m).content == Parts([TextPart(m.summary.value)])
              && SummaryForm(m).tokenCount == if m.summaryTokenCount.Some? then m.summaryTokenCount else m.tokenCount
  {
  }

  /** `i` is the last message of the thread that has a summary. */
  ghost predicate IsLastSummary(thread: seq<Message>, i: int) {
    0 <= i < |thread| && HasSummary(thread[i]) && forall j :: i < j < |thread| ==> !HasSummary(thread[j])
  }

  /** A map method that leaves a message's content and legacy summary alone. */
  ghost predicate KeepsSummaries(mapMethod: Option<Message -> Message>) {
    mapMethod.Some? ==>
      forall m :: mapMethod.value(m).content == m.content && mapMethod.value(m).summary == m.summary
  }

  function Visible(s: Shown<Message>): Message {
    if s.Unmapped? then s.message else s.value
  }

  /** The message `loadHistory` finds by scanning the full thread backwards is the one the summary walk stops at. */
  lemma HistoryScanFindsTheCut(messages: seq<Message>, start: Option<string>, mapMethod: Option<Message -> Message>,
                               thread: seq<Message>, i: int)
    requires KeepsSummaries(mapMethod)
    requires var path := Walk(messages, start, {}, false);
             && |thread| == |path|
             && forall k :: 0 <= k < |path| ==> thread[k] == Visible(Show(path[|path| - 1 - k], mapMethod, None))
    ensures var path, cut := Walk(messages, start, {}, false), Walk(messages, start, {}, true);
            IsLastSummary(thread, i) <==>
            i == |path| - |cut| && cut != [] && HasSummary(cut[|cut| - 1])
  {
    var path, cut := Walk(messages, start, {}, false), Walk(messages, start, {}, true);
    SummaryWalkIsCut(messages, start);
    var n := |path|;
    forall k | 0 <= k < n ensures HasSummary(thread[k]) <==> HasSummary(path[n - 1 - k]) {
      MappedKeepsSummary(path[n - 1 - k], mapMethod);
    }
    forall k | n - |cut| < k < n ensures !HasSummary(thread[k]) {
      assert !HasSummary(path[n - 1 - k]);
    }
    if cut != [] {
      assert HasSummary(thread[n - |cut|]) <==> HasSummary(path[|cut| - 1]);
    }
  }

  lemma MappedKeepsSummary(m: Message, mapMethod: Option<Message -> Message>)
    requires KeepsSummaries(mapMethod)
    ensures HasSummary(Visible(Show(m, mapMethod, None))) <==> HasSummary(m)
  {
  }

  /** The backwards scan of `loadHistory`, which stops at the newest message with a summary. */
  method ScanForSummary(thread: seq<Message>) returns (i: int)
    ensures if i == -1 then forall j :: 0 <= j < |thread| ==> !HasSummary(thread[j]) else IsLastSummary(thread, i)
  {
    i := |thread| - 1;
    while i >= 0
      invariant -1 <= i < |thread|
      invariant forall j :: i < j < |thread| ==> !HasSummary(thread[j])
    {
      var block := FindSummaryContentBlock(thread[i]);
      if block.Some? || HasLegacySummary(thread[i]) {
        return;
      }
      i := i - 1;
    }
  }

  /** The client, which remembers the previous summary across calls. */
  class Client {
    const shouldSummarize: bool
    const mapMethod: Option<Message -> Message>
    var previousSummary: Option<Message>

    constructor (shouldSummarize: bool, mapMethod: Option<Message -> Message>)
      ensures this.shouldSummarize == shouldSummarize && this.mapMethod == mapMethod && previousSummary == None
    {
      this.shouldSummarize := shouldSummarize;
      this.mapMethod := mapMethod;
      previousSummary := None;
    }

    /** `loadHistory` after the messages were fetched: the full thread, and the backwards scan for a summary. */
    method LoadHistory(messages: seq<Message>, parentMessageId: Option<string>) returns (thread: seq<Message>)
      modifies this
      ensures var path := Walk(messages, parentMessageId, {}, false);
              && |thread| == |path|
              && forall k :: 0 <= k < |path| ==> thread[k] == Visible(Show(path[|path| - 1 - k], mapMethod, None))
      ensures !shouldSummarize || (forall i :: 0 <= i < |thread| ==> !HasSummary(thread[i])) ==>
                previousSummary == old(previousSummary)
      ensures shouldSummarize ==> forall i :: IsLastSummary(thread, i) ==> previousSummary == Some(SummaryRecord(thread[i]))
    {
      var ordered := GetMessagesForConversation(messages, parentMessageId, mapMethod, None, false);
      thread := seq(|ordered|, k requires 0 <= k < |ordered| => Visible(ordered[k]));
      if !shouldSummarize {
        return;
      }
      var i := ScanForSummary(thread);
      if i >= 0 {
        previousSummary := Some(SummaryRecord(thread[i]));
      }
    }
  }
}
