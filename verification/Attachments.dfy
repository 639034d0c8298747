/** Re-sending the files of earlier messages: each authorised file enters the model's context once, and stored
    references are rebuilt from the authorised records. */
module Attachments {
  import opened Collections
  import opened Options

  /** A file reference or a file record: its `file_id`, if any, and its other fields. */
  datatype Ref = Ref(fileId: Option<string>, fields: map<string, string>)

  /** A list entry may be null. */
  type Refs = seq<Option<Ref>>

  /** A record as stored, with its owner and tenant. */
  datatype Stored = Stored(file: Ref, user: string, tenantId: Option<string>)

  /** The signed-in user, if there is one with an id. */
  datatype Owner = Owner(id: string, tenantId: Option<string>)

  const STRIPPED: set<string> := {"text", "_id", "__v"}
  const PER_MESSAGE: set<string> := {"messageId", "toolCallId"}
  const TOOL_KEYS: set<string> := {"file_search", "web_search", "ui_resources", "memory"}
  const DISPLAY: set<string> :=
    {"filename", "filepath", "expiresAt", "conversationId", "messageId", "toolCallId", "name"}

  /** The id a reference carries: one that is missing or empty does not count. */
  function IdOf(r: Option<Ref>): Option<string> {
    if r.Some? && r.value.fileId.Some? && r.value.fileId.value != "" then r.value.fileId else None
  }

  /** The ids a list of references names. */
  function Named(refs: Refs): set<string> {
    set r | r in refs && IdOf(r).Some? :: IdOf(r).value
  }

  function Pick(fields: map<string, string>, names: set<string>): map<string, string> {
    map k | k in fields && k in names :: fields[k]
  }

  function Sanitize(file: Ref): Ref {
    file.(fields := file.fields - STRIPPED)
  }

  /** What is shown of an attachment without an id: its display fields, and a tool type with its payload. */
  function DisplayFields(r: Ref): map<string, string> {
    Pick(r.fields, DISPLAY + TOOL_KEYS)
    + if "type" in r.fields && r.fields["type"] in TOOL_KEYS then map["type" := r.fields["type"]] else map[]
  }

  function DisplayOnly(r: Option<Ref>): Option<Ref> {
    if r.None? || IdOf(r).Some? || DisplayFields(r.value) == map[] then None else Some(Ref(None, DisplayFields(r.value)))
  }

  // ---------------------------------------------------------------- rebuilding references

  /** The authorised records by id. */
  type Files = map<string, Ref>

  ghost predicate FilesOk(files: Files) {
    forall id :: id in files ==> id != "" && files[id].fileId == Some(id)
  }

  function Rebuilt(r: Option<Ref>, files: Files, preserveDisplayOnly: bool): Option<Ref> {
    var id := IdOf(r);
    if id.Some? && id.value in files then
      var file := Sanitize(files[id.value]);
      Some(file.(fields := file.fields + Pick(r.value.fields, PER_MESSAGE)))
    else if preserveDisplayOnly then DisplayOnly(r)
    else None
  }

  function RebuiltAll(refs: Refs, files: Files, preserveDisplayOnly: bool): Refs {
    if refs == [] then []
    else
      var last := Rebuilt(refs[|refs| - 1], files, preserveDisplayOnly);
      RebuiltAll(refs[..|refs| - 1], files, preserveDisplayOnly) + if last.None? then [] else [last]
  }

  /** `rehydrateMessageFileRefs`; no list, or nothing left of it, gives no list. */
  function Rehydrate(refs: Option<Refs>, files: Files, preserveDisplayOnly: bool): Option<Refs> {
    if refs.None? || RebuiltAll(refs.value, files, preserveDisplayOnly) == [] then None
    else Some(RebuiltAll(refs.value, files, preserveDisplayOnly))
  }

  method RehydrateMessageFileRefs(refs: Option<Refs>, files: Files, preserveDisplayOnly: bool) returns (r: Option<Refs>)
    ensures r == Rehydrate(refs, files, preserveDisplayOnly)
  {
    if refs.None? {
      return None;
    }
    var kept: Refs := [];
    var i := 0;
    while i < |refs.value|
      invariant 0 <= i <= |refs.value| && kept == RebuiltAll(refs.value[..i], files, preserveDisplayOnly)
    {
      assert refs.value[..i + 1][..i] == refs.value[..i];
      var rebuilt := Rebuilt(refs.value[i], files, preserveDisplayOnly);
      if rebuilt.Some? {
        kept := kept + [rebuilt];
      }
      i := i + 1;
    }
    assert refs.value[..i] == refs.value;
    r := if kept == [] then None else Some(kept);
  }

  /** A reference that may survive: an authorised record that was referred to, without its private fields, or, where
      display-only entries are kept, one without an id that shows display fields only. */
  ghost predicate MaySurvive(r: Option<Ref>, refs: Refs, files: Files, preserveDisplayOnly: bool) {
    && r.Some?
    && r.value.fields.Keys !! STRIPPED
    && if IdOf(r).Some? then IdOf(r).value in files && IdOf(r).value in Named(refs)
       else preserveDisplayOnly && r.value.fields.Keys <= DISPLAY + TOOL_KEYS + {"type"} && r.value.fields != map[]
  }

  /** Only such references survive, and every authorised record referred to does. */
  lemma {:induction false} SurvivorsAreAuthorised(refs: Refs, files: Files, preserveDisplayOnly: bool)
    requires FilesOk(files)
    ensures forall r :: r in RebuiltAll(refs, files, preserveDisplayOnly) ==> MaySurvive(r, refs, files, preserveDisplayOnly)
    ensures Named(refs) * files.Keys == Named(RebuiltAll(refs, files, preserveDisplayOnly))
  {
    if refs != [] {
      var n := |refs| - 1;
      SurvivorsAreAuthorised(refs[..n], files, preserveDisplayOnly);
      RebuiltIsAuthorised(refs[n], files, preserveDisplayOnly);
      assert refs == refs[..n] + [refs[n]];
      var last := Rebuilt(refs[n], files, preserveDisplayOnly);
      var before := RebuiltAll(refs[..n], files, preserveDisplayOnly);
      NamedPush(refs[..n], refs[n]);
      NamedPush(before, last);
      assert Named(RebuiltAll(refs, files, preserveDisplayOnly))
             == Named(before) + if last.Some? && IdOf(last).Some? then {IdOf(last).value} else {};
    }
  }

  lemma NamedPush(refs: Refs, r: Option<Ref>)
    ensures Named(refs + [r]) == Named(refs) + if IdOf(r).Some? then {IdOf(r).value} else {}
  {
  }

  /** A rebuilt reference: the authorised record without its private fields, except that the message's own message and
      tool-call ids take precedence. */
  lemma RebuiltIsAuthorised(s: Option<Ref>, files: Files, preserveDisplayOnly: bool)
    requires FilesOk(files)
    ensures var r := Rebuilt(s, files, preserveDisplayOnly);
            && (r.Some? ==> r.value.fields.Keys !! STRIPPED)
            && (IdOf(s).Some? && IdOf(s).value in files ==>
                  && r.Some? && IdOf(r) == IdOf(s)
                  && var file := files[IdOf(s).value];
                  && r.value.fields.Keys == (file.fields.Keys - STRIPPED) + (s.value.fields.Keys * PER_MESSAGE)
                  && forall k :: k in r.value.fields ==>
                       r.value.fields[k] == if k in PER_MESSAGE && k in s.value.fields then s.value.fields[k] else file.fields[k])
            && (!(IdOf(s).Some? && IdOf(s).value in files) && r.Some? ==>
                  IdOf(r).None? && preserveDisplayOnly && r.value.fields.Keys <= DISPLAY + TOOL_KEYS + {"type"}
                  && r.value.fields != map[])
  {
  }

  // ---------------------------------------------------------------- choosing context files

  /** The files a message contributes: those it names that are authorised and not seen before. */
  function Collect(refs: Refs, files: Files, seen: set<string>): (c: (seq<Ref>, set<string>))
    decreases refs
  {
    if refs == [] then ([], seen)
    else
      var id := IdOf(refs[0]);
      if id.None? || id.value in seen || id.value !in files then Collect(refs[1..], files, seen)
      else
        var rest := Collect(refs[1..], files, seen + {id.value});
        ([files[id.value]] + rest.0, rest.1)
  }

  /** What a message contributes: the authorised files it names and that were not seen, each once. */
  ghost predicate TakesTheNew(ctx: seq<Ref>, named: set<string>, files: Files, seen: set<string>) {
    && (forall f :: f in ctx <==> exists id :: id in named * files.Keys - seen && f == files[id])
    && (forall i, j :: 0 <= i < j < |ctx| ==> ctx[i].fileId != ctx[j].fileId)
  }

  lemma TakesOneMore(later: seq<Ref>, named: set<string>, files: Files, seen: set<string>, id: string)
    requires FilesOk(files) && id in files && id !in seen && TakesTheNew(later, named, files, seen + {id})
    ensures TakesTheNew([files[id]] + later, named + {id}, files, seen)
  {
    var now := named + {id};
    forall f ensures f in [files[id]] + later <==> exists x :: x in now * files.Keys - seen && f == files[x] {
      if f == files[id] {
        assert id in now * files.Keys - seen;
      }
    }
    forall i | 0 <= i < |later| ensures later[i].fileId != Some(id) {
      assert later[i] in later;
    }
  }

  lemma {:induction false} CollectTakesTheNew(refs: Refs, files: Files, seen: set<string>)
    requires FilesOk(files)
    ensures TakesTheNew(Collect(refs, files, seen).0, Named(refs), files, seen)
    ensures Collect(refs, files, seen).1 == seen + Named(refs) * files.Keys
    decreases refs
  {
    if refs != [] {
      var id, rest := IdOf(refs[0]), refs[1..];
      assert refs == [refs[0]] + rest;
      assert Named(refs) == Named(rest) + if id.Some? then {id.value} else {};
      if id.None? || id.value in seen || id.value !in files {
        CollectTakesTheNew(rest, files, seen);
        assert Named(refs) * files.Keys - seen == Named(rest) * files.Keys - seen;
      } else {
        CollectTakesTheNew(rest, files, seen + {id.value});
        TakesOneMore(Collect(rest, files, seen + {id.value}).0, Named(rest), files, seen, id.value);
      }
    }
  }

  // ---------------------------------------------------------------- a history of messages

  /** What a message looks like to the bookkeeping. */
  datatype View = View(messageId: string, files: Option<Refs>, attachments: Option<Refs>, steerFiles: seq<Refs>, hasFileContext: bool)

  function FileRefs(v: View): Refs {
    if v.files.Some? then v.files.value else []
  }

  function Concat(lists: seq<Refs>): Refs {
    if lists == [] then [] else lists[0] + Concat(lists[1..])
  }

  /** `collectHistoricalFileRefs`: files, attachments, and the files of steer parts. */
  function HistoricalRefs(v: View): Refs {
    FileRefs(v) + (if v.attachments.Some? then v.attachments.value else []) + Concat(v.steerFiles)
  }

  function HistoricalIds(views: seq<View>): set<string> {
    set v, r | v in views && r in HistoricalRefs(v) && IdOf(r).Some? :: IdOf(r).value
  }

  /** The records the owner-scoped query returns, by id; a later record of one id replaces an earlier one. */
  function Query(ids: set<string>, db: seq<Stored>, user: Option<Owner>): Files {
    if user.None? || user.value.id == "" || ids == {} then map[] else ById(db, ids, user.value)
  }

  function Authorised(views: seq<View>, db: seq<Stored>, user: Option<Owner>): Files {
    Query(HistoricalIds(views), db, user)
  }

  predicate Owned(s: Stored, ids: set<string>, user: Owner) {
    && IdOf(Some(s.file)).Some? && s.file.fileId.value in ids
    && s.user == user.id
    && (user.tenantId.Some? && user.tenantId.value != "" ==> s.tenantId == user.tenantId)
  }

  function ById(db: seq<Stored>, ids: set<string>, user: Owner): Files {
    if db == [] then map[]
    else
      var s := db[|db| - 1];
      var before := ById(db[..|db| - 1], ids, user);
      if Owned(s, ids, user) then before[s.file.fileId.value := s.file] else before
  }

  /** Only records the user owns, in the user's tenant, that the history refers to. */
  lemma {:induction false} OnlyOwnedFiles(db: seq<Stored>, ids: set<string>, user: Owner)
    ensures FilesOk(ById(db, ids, user))
    ensures forall id :: id in ById(db, ids, user) ==> exists s :: s in db && Owned(s, ids, user) && s.file == ById(db, ids, user)[id]
    ensures forall s :: s in db && Owned(s, ids, user) ==> s.file.fileId.value in ById(db, ids, user)
  {
    if db != [] {
      OnlyOwnedFiles(db[..|db| - 1], ids, user);
      assert db == db[..|db| - 1] + [db[|db| - 1]];
    }
  }

  lemma AuthorisedOk(views: seq<View>, db: seq<Stored>, user: Option<Owner>)
    ensures FilesOk(Authorised(views, db, user))
  {
    if user.Some? {
      OnlyOwnedFiles(db, HistoricalIds(views), user.value);
    }
  }

  /** The context files of the messages, in order, and the ids seen after them. */
  function Contexts(views: seq<View>, files: Files, seen: set<string>): (c: (seq<seq<Ref>>, set<string>))
    ensures |c.0| == |views|
  {
    if views == [] then ([], seen)
    else
      var n := |views| - 1;
      var before := Contexts(views[..n], files, seen);
      var last := Collect(FileRefs(views[n]), files, before.1);
      (before.0 + [last.0], last.1)
  }

  ghost predicate NamedBefore(views: seq<View>, k: nat, id: string) {
    exists j :: 0 <= j < k && j < |views| && id in Named(FileRefs(views[j]))
  }

  /** File `id` belongs in the context of message `k`: the message is the first whose files name it, and it is
      authorised and not attached to the current turn. */
  ghost predicate Belongs(views: seq<View>, files: Files, current: set<string>, k: nat, id: string) {
    k < |views| && id in files && id !in current && id in Named(FileRefs(views[k])) && !NamedBefore(views, k, id)
  }

  lemma MentionsOf(views: seq<View>, n: nat, files: Files, current: set<string>)
    requires |views| == n + 1
    ensures forall id, k: nat :: k <= n ==> (NamedBefore(views[..n], k, id) <==> NamedBefore(views, k, id))
    ensures forall id, k: nat :: k < n ==> (Belongs(views[..n], files, current, k, id) <==> Belongs(views, files, current, k, id))
    ensures forall id :: NamedBefore(views, n + 1, id) <==> NamedBefore(views, n, id) || id in Named(FileRefs(views[n]))
  {
  }

  ghost predicate ContextOk(views: seq<View>, files: Files, current: set<string>, k: nat, ctx: seq<Ref>) {
    && (forall f :: f in ctx <==> exists id :: Belongs(views, files, current, k, id) && f == files[id])
    && (forall i, j :: 0 <= i < j < |ctx| ==> ctx[i].fileId != ctx[j].fileId)
  }

  ghost predicate SeenOk(views: seq<View>, files: Files, current: set<string>, seen: set<string>) {
    forall id :: id in seen <==> id in current || (id in files && NamedBefore(views, |views|, id))
  }

  lemma {:induction false} ContextsByFirstMention(views: seq<View>, files: Files, current: set<string>)
    requires FilesOk(files)
    ensures SeenOk(views, files, current, Contexts(views, files, current).1)
    ensures forall k: nat :: k < |views| ==> ContextOk(views, files, current, k, Contexts(views, files, current).0[k])
  {
    if views != [] {
      var n := |views| - 1;
      var before := views[..n];
      ContextsByFirstMention(before, files, current);
      MentionsOf(views, n, files, current);
      var (ctxs, seen) := Contexts(before, files, current);
      LastContext(views, n, files, current, seen);
      forall k: nat | k < n ensures ContextOk(views, files, current, k, ctxs[k]) {
        assert ContextOk(before, files, current, k, ctxs[k]);
      }
    }
  }

  lemma LastContext(views: seq<View>, n: nat, files: Files, current: set<string>, seen: set<string>)
    requires FilesOk(files) && |views| == n + 1 && SeenOk(views[..n], files, current, seen)
    ensures var (ctx, seen') := Collect(FileRefs(views[n]), files, seen);
            ContextOk(views, files, current, n, ctx) && SeenOk(views, files, current, seen')
  {
    MentionsOf(views, n, files, current);
    CollectTakesTheNew(FileRefs(views[n]), files, seen);
    forall id ensures id in Named(FileRefs(views[n])) * files.Keys - seen <==> Belongs(views, files, current, n, id) {}
  }

  /** File `id` is in the context of message `k`. */
  ghost predicate Placed(views: seq<View>, files: Files, current: set<string>, k: nat, id: string) {
    k < |views| && id in files && files[id] in Contexts(views, files, current).0[k]
  }

  lemma PlacedWhereItBelongs(views: seq<View>, files: Files, current: set<string>, k: nat, id: string)
    requires FilesOk(files)
    ensures Placed(views, files, current, k, id) <==> Belongs(views, files, current, k, id)
    ensures Placed(views, files, current, k, id) ==> multiset(Contexts(views, files, current).0[k])[files[id]] == 1
  {
    ContextsByFirstMention(views, files, current);
    if k < |views| {
      assert ContextOk(views, files, current, k, Contexts(views, files, current).0[k]);
    }
    if Placed(views, files, current, k, id) {
      AtMostOnce(Contexts(views, files, current).0[k], files[id]);
    }
  }

  /** The current turn's attachments: none, still being resolved, or known. */
  datatype TurnFiles = NoFiles | Pending | Ready(files: Refs)

  /** The ids that count as attached to the current turn: while the attachments are pending there are none. */
  function CurrentIds(turn: TurnFiles): set<string> {
    if turn.Ready? then Named(turn.files) else {}
  }

  /** Across the whole history an authorised file is placed at most once: in the context of the first message whose
      files name it, and in no other.  It is placed nowhere if it is attached to the current turn, provided that turn's
      attachments are ready; while they are pending such a file is sent again. */
  lemma EachFileOnceAtFirstMention(views: seq<View>, files: Files, turn: TurnFiles, id: string)
    requires FilesOk(files)
    ensures var current := CurrentIds(turn);
            && (forall k: nat :: Placed(views, files, current, k, id) <==> Belongs(views, files, current, k, id))
            && (forall j: nat, k: nat :: Placed(views, files, current, j, id) && Placed(views, files, current, k, id) ==> j == k)
            && ((exists k: nat :: Placed(views, files, current, k, id)) <==>
                id in files && NamedBefore(views, |views|, id) && !(turn.Ready? && id in Named(turn.files)))
  {
    var current := CurrentIds(turn);
    forall k: nat ensures Placed(views, files, current, k, id) <==> Belongs(views, files, current, k, id) {
      PlacedWhereItBelongs(views, files, current, k, id);
    }
    if id in files && id !in current && NamedBefore(views, |views|, id) {
      var k := FirstNaming(views, |views|, id);
      assert Belongs(views, files, current, k, id);
    }
  }

  lemma {:induction false} FirstNaming(views: seq<View>, n: nat, id: string) returns (k: nat)
    requires n <= |views| && NamedBefore(views, n, id)
    ensures k < n && id in Named(FileRefs(views[k])) && !NamedBefore(views, k, id)
  {
    k := n - 1;
    if NamedBefore(views, n - 1, id) {
      k := FirstNaming(views, n - 1, id);
    }
  }

  lemma {:induction false} AtMostOnce(files: seq<Ref>, f: Ref)
    requires forall i, j :: 0 <= i < j < |files| ==> files[i].fileId != files[j].fileId
    ensures multiset(files)[f] <= 1
  {
    if files != [] {
      AtMostOnce(files[1..], f);
      assert files == [files[0]] + files[1..];
    }
  }

  /** A file placed in a context is always one the signed-in user owns. */
  lemma ContextFilesAreOwned(views: seq<View>, db: seq<Stored>, user: Option<Owner>, current: set<string>, k: nat, f: Ref)
    requires k < |views| && f in Contexts(views, Authorised(views, db, user), current).0[k]
    ensures user.Some? && exists s :: s in db && s.file == f && Owned(s, HistoricalIds(views), user.value)
  {
    AuthorisedOk(views, db, user);
    ContextsByFirstMention(views, Authorised(views, db, user), current);
    assert ContextOk(views, Authorised(views, db, user), current, k, Contexts(views, Authorised(views, db, user), current).0[k]);
    OnlyOwnedFiles(db, HistoricalIds(views), user.value);
  }

  // ---------------------------------------------------------------- on the records' own fields

  /** The reference carries this id; an empty one does not count. */
  ghost predicate Carries(r: Option<Ref>, id: string) {
    r.Some? && r.value.fileId == Some(id) && id != ""
  }

  lemma NamedIsCarried(refs: Refs, id: string)
    ensures id in Named(refs) <==> exists r :: r in refs && Carries(r, id)
  {
    forall r | r in refs && Carries(r, id) ensures id in Named(refs) {
      assert IdOf(r) == Some(id);
    }
    if id in Named(refs) {
      var r :| r in refs && IdOf(r).Some? && IdOf(r).value == id;
      assert Carries(r, id);
    }
  }

  /** The reference is among a message's files, its attachments, or the files of its steer parts. */
  ghost predicate Mentions(v: View, r: Option<Ref>) {
    || (v.files.Some? && r in v.files.value)
    || (v.attachments.Some? && r in v.attachments.value)
    || exists l :: l in v.steerFiles && r in l
  }

  lemma {:induction false} ConcatMembers(lists: seq<Refs>, r: Option<Ref>)
    ensures r in Concat(lists) <==> exists l :: l in lists && r in l
  {
    if lists != [] {
      ConcatMembers(lists[1..], r);
      assert lists == [lists[0]] + lists[1..];
    }
  }

  /** Some message of the history mentions the file. */
  ghost predicate InHistory(views: seq<View>, id: string) {
    exists v, r :: v in views && Mentions(v, r) && Carries(r, id)
  }

  lemma HistoryOnFields(views: seq<View>, id: string)
    ensures id in HistoricalIds(views) <==> InHistory(views, id)
  {
    forall v: View, r ensures r in HistoricalRefs(v) <==> Mentions(v, r) {
      ConcatMembers(v.steerFiles, r);
    }
    if InHistory(views, id) {
      var v, r :| v in views && Mentions(v, r) && Carries(r, id);
      assert r in HistoricalRefs(v) && IdOf(r) == Some(id);
    }
    if id in HistoricalIds(views) {
      var v, r :| v in views && r in HistoricalRefs(v) && IdOf(r).Some? && IdOf(r).value == id;
      assert Mentions(v, r) && Carries(r, id);
    }
  }

  /** A stored record of the user's own, in the user's tenant if there is one, that the history mentions. */
  ghost predicate UsersOwn(s: Stored, views: seq<View>, user: Owner, id: string) {
    && s.file.fileId == Some(id) && id != ""
    && s.user == user.id && user.id != ""
    && (user.tenantId.Some? && user.tenantId.value != "" ==> s.tenantId == user.tenantId)
    && InHistory(views, id)
  }

  lemma OwnedIsUsersOwn(s: Stored, views: seq<View>, user: Owner, id: string)
    requires user.id != ""
    ensures UsersOwn(s, views, user, id) <==> Owned(s, HistoricalIds(views), user) && s.file.fileId == Some(id)
  {
    HistoryOnFields(views, id);
    if s.file.fileId.Some? {
      HistoryOnFields(views, s.file.fileId.value);
    }
  }

  /** The authorised files on the records' fields: exactly the ids of the user's own records that the history mentions,
      each with such a record; without a user that has an id there are none. */
  lemma FilesAreTheUsersOwn(views: seq<View>, db: seq<Stored>, user: Option<Owner>, id: string)
    ensures id in Authorised(views, db, user) <==> user.Some? && exists s :: s in db && UsersOwn(s, views, user.value, id)
    ensures id in Authorised(views, db, user) ==>
              exists s :: s in db && UsersOwn(s, views, user.value, id) && s.file == Authorised(views, db, user)[id]
  {
    if user.Some? && user.value.id != "" {
      var ids := HistoricalIds(views);
      OnlyOwnedFiles(db, ids, user.value);
      forall s ensures UsersOwn(s, views, user.value, id) <==> Owned(s, ids, user.value) && s.file.fileId == Some(id) {
        OwnedIsUsersOwn(s, views, user.value, id);
      }
      assert ids == {} ==> forall s :: !Owned(s, ids, user.value);
    }
  }

  /** Of several records with one id the last stored one counts. */
  lemma {:induction false} LastRecordCounts(db: seq<Stored>, ids: set<string>, user: Owner, k: nat)
    requires k < |db| && Owned(db[k], ids, user)
    requires forall j :: k < j < |db| && Owned(db[j], ids, user) ==> db[j].file.fileId != db[k].file.fileId
    ensures var id := db[k].file.fileId.value; id in ById(db, ids, user) && ById(db, ids, user)[id] == db[k].file
  {
    if k < |db| - 1 {
      LastRecordCounts(db[..|db| - 1], ids, user, k);
    }
  }

  /** Every file placed in a context is a record of the user's own, on its fields. */
  lemma ContextsHoldOwnFiles(views: seq<View>, db: seq<Stored>, user: Option<Owner>, current: set<string>, k: nat, f: Ref)
    requires k < |views| && f in Contexts(views, Authorised(views, db, user), current).0[k]
    ensures user.Some? && f.fileId.Some?
    ensures exists s :: s in db && UsersOwn(s, views, user.value, f.fileId.value) && s.file == f
  {
    var files := Authorised(views, db, user);
    AuthorisedOk(views, db, user);
    ContextsByFirstMention(views, files, current);
    assert ContextOk(views, files, current, k, Contexts(views, files, current).0[k]);
    var id :| Belongs(views, files, current, k, id) && f == files[id];
    FilesAreTheUsersOwn(views, db, user, id);
  }

  /** Every rebuilt reference that carries an id stands for such a record, and for one the list named. */
  lemma RebuiltAreTheUsersOwn(refs: Refs, views: seq<View>, db: seq<Stored>, user: Option<Owner>, preserveDisplayOnly: bool,
                              r: Option<Ref>, id: string)
    requires r in RebuiltAll(refs, Authorised(views, db, user), preserveDisplayOnly) && Carries(r, id)
    ensures user.Some? && exists s :: s in db && UsersOwn(s, views, user.value, id)
    ensures exists named :: named in refs && Carries(named, id)
  {
    var files := Authorised(views, db, user);
    AuthorisedOk(views, db, user);
    SurvivorsAreAuthorised(refs, files, preserveDisplayOnly);
    assert MaySurvive(r, refs, files, preserveDisplayOnly);
    FilesAreTheUsersOwn(views, db, user, id);
    NamedIsCarried(refs, id);
  }

  /** A rebuilt reference on its fields.  One to an authorised file has that record's fields without the three private
      ones, its own message and tool-call ids taking precedence; any other is dropped, or, where display-only entries are
      kept and it carries no id, keeps its display fields and tool payloads, and its type if that is a tool's. */
  lemma RebuiltOnFields(s: Ref, files: Files, preserveDisplayOnly: bool, id: string, key: string)
    requires FilesOk(files) && s.fileId == Some(id)
    ensures var r := Rebuilt(Some(s), files, preserveDisplayOnly);
            if id in files then
              && r.Some? && r.value.fileId == Some(id)
              && (key in r.value.fields <==>
                    || (key in {"messageId", "toolCallId"} && key in s.fields)
                    || (key in files[id].fields && key !in {"text", "_id", "__v"}))
              && (key in r.value.fields ==>
                    r.value.fields[key] == if key in {"messageId", "toolCallId"} && key in s.fields then s.fields[key]
                                           else files[id].fields[key])
            else if id != "" || !preserveDisplayOnly then r.None?
            else r == Rebuilt(Some(s.(fileId := None)), files, preserveDisplayOnly)
  {
  }

  lemma DisplayOnlyOnFields(s: Ref, files: Files, key: string)
    requires FilesOk(files) && s.fileId.None?
    ensures Rebuilt(None, files, true).None? && Rebuilt(Some(s), files, false).None?
    ensures var r := Rebuilt(Some(s), files, true);
            && (ShowsKey(s, key) ==> r.Some?)
            && (r.Some? ==>
                  && r.value.fileId.None? && r.value.fields != map[]
                  && (key in r.value.fields <==> ShowsKey(s, key))
                  && (key in r.value.fields ==> r.value.fields[key] == s.fields[key]))
  {
    assert ShowsKey(s, key) <==> key in DisplayFields(s);
  }

  /** A display-only entry shows this field. */
  ghost predicate ShowsKey(s: Ref, key: string) {
    && key in s.fields
    && (|| key in {"filename", "filepath", "expiresAt", "conversationId", "messageId", "toolCallId", "name"}
        || key in {"file_search", "web_search", "ui_resources", "memory"}
        || (key == "type" && s.fields["type"] in {"file_search", "web_search", "ui_resources", "memory"}))
  }

  /** References are rebuilt one by one, in order. */
  lemma {:induction false} RebuildingKeepsOrder(a: Refs, b: Refs, files: Files, preserveDisplayOnly: bool)
    ensures RebuiltAll(a + b, files, preserveDisplayOnly)
            == RebuiltAll(a, files, preserveDisplayOnly) + RebuiltAll(b, files, preserveDisplayOnly)
  {
    if b == [] {
      assert a + b == a;
    } else {
      var n := |b| - 1;
      RebuildingKeepsOrder(a, b[..n], files, preserveDisplayOnly);
      var all := a + b;
      assert all[..|all| - 1] == a + b[..n] && all[|all| - 1] == b[n];
      var last := Rebuilt(b[n], files, preserveDisplayOnly);
      var kept := if last.None? then [] else [last];
      assert RebuiltAll(all, files, preserveDisplayOnly) == RebuiltAll(a + b[..n], files, preserveDisplayOnly) + kept;
      Associate(RebuiltAll(a, files, preserveDisplayOnly), RebuiltAll(b[..n], files, preserveDisplayOnly), kept);
    }
  }

  /** A message's files are gone through in order: what a longer list contributes is what its beginning does, followed by
      what the rest does once that is seen. */
  lemma {:induction false} CollectingKeepsOrder(a: Refs, b: Refs, files: Files, seen: set<string>)
    ensures var first := Collect(a, files, seen);
            var second := Collect(b, files, first.1);
            Collect(a + b, files, seen) == (first.0 + second.0, second.1)
    decreases a
  {
    if a == [] {
      assert a + b == b && [] + Collect(b, files, seen).0 == Collect(b, files, seen).0;
    } else {
      assert (a + b)[1..] == a[1..] + b;
      var id := IdOf(a[0]);
      if id.None? || id.value in seen || id.value !in files {
        CollectingKeepsOrder(a[1..], b, files, seen);
      } else {
        var now := seen + {id.value};
        CollectingKeepsOrder(a[1..], b, files, now);
        var first := Collect(a[1..], files, now);
        Associate([files[id.value]], first.0, Collect(b, files, first.1).0);
      }
    }
  }

  // ---------------------------------------------------------------- the client

  /** A message of the history, which the client updates in place. */
  class Message {
    const messageId: string
    const steerFiles: seq<Refs>
    var files: Option<Refs>
    var attachments: Option<Refs>
    var hasFileContext: bool

    constructor (messageId: string, files: Option<Refs>, attachments: Option<Refs>, steerFiles: seq<Refs>, hasFileContext: bool)
      ensures Look() == View(messageId, files, attachments, steerFiles, hasFileContext)
    {
      this.messageId, this.files, this.attachments := messageId, files, attachments;
      this.steerFiles, this.hasFileContext := steerFiles, hasFileContext;
    }

    function Look(): View
      reads this
    {
      View(messageId, files, attachments, steerFiles, hasFileContext)
    }
  }

  /** A message after the pass: untouched when it has neither files nor attachments, else with its references rebuilt. */
  function Processed(v: View, files: Files): View {
    if v.files.None? && v.attachments.None? then v
    else v.(files := Rehydrate(v.files, files, false), attachments := Rehydrate(v.attachments, files, true), hasFileContext := false)
  }

  /** The file map after the messages: each with context files is recorded under its id. */
  function FileMap(m: map<string, seq<Ref>>, views: seq<View>, ctxs: seq<seq<Ref>>): map<string, seq<Ref>>
    requires |views| == |ctxs|
  {
    if views == [] then m
    else
      var n := |views| - 1;
      var before := FileMap(m, views[..n], ctxs[..n]);
      if ctxs[n] == [] then before else before[views[n].messageId := ctxs[n]]
  }

  /** Message `k` is the last one of its id with a context. */
  ghost predicate LastWithContext(views: seq<View>, ctxs: seq<seq<Ref>>, k: nat)
    requires |views| == |ctxs|
  {
    k < |views| && ctxs[k] != [] && forall j :: k < j < |views| && views[j].messageId == views[k].messageId ==> ctxs[j] == []
  }

  /** Under a message id the map holds the context of the last message of that id that has one. */
  lemma {:induction false} FileMapHoldsLast(m: map<string, seq<Ref>>, views: seq<View>, ctxs: seq<seq<Ref>>, k: nat)
    requires |views| == |ctxs| && LastWithContext(views, ctxs, k)
    ensures views[k].messageId in FileMap(m, views, ctxs) && FileMap(m, views, ctxs)[views[k].messageId] == ctxs[k]
  {
    var n := |views| - 1;
    if k < n {
      assert LastWithContext(views[..n], ctxs[..n], k);
      FileMapHoldsLast(m, views[..n], ctxs[..n], k);
    }
  }

  /** Under every other id it holds what it held before. */
  lemma {:induction false} FileMapKeepsOthers(m: map<string, seq<Ref>>, views: seq<View>, ctxs: seq<seq<Ref>>, id: string)
    requires |views| == |ctxs| && forall k :: 0 <= k < |views| && views[k].messageId == id ==> ctxs[k] == []
    ensures id in FileMap(m, views, ctxs) <==> id in m
    ensures id in m ==> FileMap(m, views, ctxs)[id] == m[id]
  {
    if views != [] {
      var n := |views| - 1;
      FileMapKeepsOthers(m, views[..n], ctxs[..n], id);
    }
  }

  /** A message without files and attachments is left alone; any other loses its file context, and its two lists are the
      rebuilt ones, display-only entries being kept among attachments only, or missing when nothing is left. */
  lemma ProcessedOnFields(v: View, files: Files)
    ensures v.files.None? && v.attachments.None? ==> Processed(v, files) == v
    ensures v.files.Some? || v.attachments.Some? ==>
              && Processed(v, files) == v.(files := Processed(v, files).files, attachments := Processed(v, files).attachments,
                                           hasFileContext := false)
              && IsRebuiltList(Processed(v, files).files, v.files, files, false)
              && IsRebuiltList(Processed(v, files).attachments, v.attachments, files, true)
  {
  }

  ghost predicate IsRebuiltList(after: Option<Refs>, before: Option<Refs>, files: Files, preserveDisplayOnly: bool) {
    match after
    case None => before.None? || RebuiltAll(before.value, files, preserveDisplayOnly) == []
    case Some(kept) => before.Some? && kept != [] && kept == RebuiltAll(before.value, files, preserveDisplayOnly)
  }

  ghost function Looks(messages: seq<Message>): seq<View>
    reads messages
  {
    seq(|messages|, i requires 0 <= i < |messages| reads messages => messages[i].Look())
  }

  lemma CollectStep(refs: Refs, i: nat, files: Files, seen: set<string>)
    requires i < |refs|
    ensures var id := IdOf(refs[i]);
            var now := Collect(refs[i..], files, seen);
            if id.Some? && id.value !in seen && id.value in files then
              var later := Collect(refs[i + 1..], files, seen + {id.value});
              now == ([files[id.value]] + later.0, later.1)
            else now == Collect(refs[i + 1..], files, seen)
  {
    assert refs[i..][1..] == refs[i + 1..];
  }

  /** The first `n` messages have been processed, the others are as they were. */
  ghost predicate PassedUpTo(messages: seq<Message>, views: seq<View>, files: Files, n: int)
    reads messages
  {
    && |views| == |messages|
    && forall j :: 0 <= j < |messages| ==> messages[j].Look() == if j < n then Processed(views[j], files) else views[j]
  }

  lemma ContextsStep(views: seq<View>, i: nat, files: Files, current: set<string>, ctxs: seq<seq<Ref>>, seen: set<string>)
    requires i < |views| && (ctxs, seen) == Contexts(views[..i], files, current)
    ensures var last := Collect(FileRefs(views[i]), files, seen);
            Contexts(views[..i + 1], files, current) == (ctxs + [last.0], last.1)
  {
    assert views[..i + 1][..i] == views[..i];
  }

  lemma FileMapStep(m: map<string, seq<Ref>>, views: seq<View>, i: nat, ctxs: seq<seq<Ref>>, ctx: seq<Ref>)
    requires i < |views| && |ctxs| == i
    ensures var before := FileMap(m, views[..i], ctxs);
            FileMap(m, views[..i + 1], ctxs + [ctx]) == if ctx == [] then before else before[views[i].messageId := ctx]
  {
    assert views[..i + 1][..i] == views[..i];
    assert (ctxs + [ctx])[..i] == ctxs;
  }

  class Client {
    var messageFileMap: map<string, seq<Ref>>

    constructor ()
      ensures messageFileMap == map[]
    {
      messageFileMap := map[];
    }

    /** `collectHistoricalFileIds`. */
    method CollectHistoricalFileIds(messages: seq<Message>) returns (fileIds: set<string>)
      ensures fileIds == HistoricalIds(Looks(messages))
    {
      fileIds := {};
      var i := 0;
      while i < |messages|
        invariant 0 <= i <= |messages|
        invariant fileIds == HistoricalIds(Looks(messages)[..i])
      {
        var refs := HistoricalRefs(messages[i].Look());
        assert Looks(messages)[..i + 1] == Looks(messages)[..i] + [messages[i].Look()];
        fileIds := fileIds + Named(refs);
        i := i + 1;
      }
      assert Looks(messages)[..i] == Looks(messages);
    }

    /** The loop over a message's files. */
    method CollectContext(refs: Refs, files: Files, seen: set<string>) returns (contextFiles: seq<Ref>, contextSeen: set<string>)
      ensures (contextFiles, contextSeen) == Collect(refs, files, seen)
    {
      contextFiles, contextSeen := [], seen;
      var i := 0;
      ghost var whole := Collect(refs, files, seen);
      ghost var rest := whole;
      assert refs[0..] == refs;
      while i < |refs|
        invariant 0 <= i <= |refs|
        invariant rest == Collect(refs[i..], files, contextSeen)
        invariant whole.0 == contextFiles + rest.0 && whole.1 == rest.1
      {
        CollectStep(refs, i, files, contextSeen);
        var id := IdOf(refs[i]);
        if id.Some? && id.value !in contextSeen && id.value in files {
          contextFiles := contextFiles + [files[id.value]];
          contextSeen := contextSeen + {id.value};
        }
        i := i + 1;
        rest := Collect(refs[i..], files, contextSeen);
      }
      assert refs[i..] == [];
      assert rest == ([], contextSeen) && contextFiles + [] == contextFiles;
      assert whole == (whole.0, whole.1);
    }

    /** `processMessage` up to the point where its context files are known, and their record. */
    method ProcessMessage(message: Message, files: Files, seen: set<string>)
      returns (contextFiles: seq<Ref>, contextSeen: set<string>)
      modifies this, message
      ensures message.Look() == old(message.Look()).(files := Rehydrate(old(message.files), files, false),
                                                     attachments := Rehydrate(old(message.attachments), files, true),
                                                     hasFileContext := false)
      ensures (contextFiles, contextSeen) == Collect(FileRefs(old(message.Look())), files, seen)
      ensures messageFileMap == if contextFiles == [] then old(messageFileMap)
                                else old(messageFileMap)[message.messageId := contextFiles]
    {
      message.hasFileContext := false;
      contextFiles, contextSeen := [], seen;
      if message.files.Some? {
        contextFiles, contextSeen := CollectContext(message.files.value, files, seen);
      }
      var rehydratedFiles := RehydrateMessageFileRefs(message.files, files, false);
      message.files := rehydratedFiles;
      var rehydratedAttachments := RehydrateMessageFileRefs(message.attachments, files, true);
      message.attachments := rehydratedAttachments;
      if contextFiles != [] {
        messageFileMap := messageFileMap[message.messageId := contextFiles];
      }
    }

    /** One turn of the pass over the messages, which skips those with neither files nor attachments. */
    method ProcessNext(messages: seq<Message>, i: nat, files: Files, seen: set<string>, ghost views: seq<View>)
      returns (contextSeen: set<string>, ghost ctx: seq<Ref>)
      requires i < |messages| && forall j, k :: 0 <= j < k < |messages| ==> messages[j] != messages[k]
      requires PassedUpTo(messages, views, files, i)
      modifies this, messages[i]
      ensures PassedUpTo(messages, views, files, i + 1)
      ensures (ctx, contextSeen) == Collect(FileRefs(views[i]), files, seen)
      ensures messageFileMap == if ctx == [] then old(messageFileMap) else old(messageFileMap)[views[i].messageId := ctx]
    {
      assert messages[i].Look() == views[i];
      contextSeen, ctx := seen, [];
      if messages[i].files.Some? || messages[i].attachments.Some? {
        var contextFiles;
        contextFiles, contextSeen := ProcessMessage(messages[i], files, seen);
        ctx := contextFiles;
      }
      assert messages[i].Look() == Processed(views[i], files);
      assert forall j :: 0 <= j < |messages| && j != i ==> messages[j].Look() == old(messages[j].Look());
    }

    /** The pass over the messages, with the set of files already in context. */
    method ProcessAll(messages: seq<Message>, files: Files, current: set<string>, ghost views: seq<View>)
      returns (ghost contexts: seq<seq<Ref>>)
      requires forall i, j :: 0 <= i < j < |messages| ==> messages[i] != messages[j]
      requires PassedUpTo(messages, views, files, 0)
      modifies this, messages
      ensures contexts == Contexts(views, files, current).0
      ensures messageFileMap == FileMap(old(messageFileMap), views, contexts)
      ensures PassedUpTo(messages, views, files, |messages|)
    {
      contexts := [];
      ghost var was := messageFileMap;
      var contextSeen := current;
      var i := 0;
      while i < |messages|
        invariant 0 <= i <= |messages| && |contexts| == i
        invariant (contexts, contextSeen) == Contexts(views[..i], files, current)
        invariant messageFileMap == FileMap(was, views[..i], contexts)
        invariant PassedUpTo(messages, views, files, i)
      {
        ContextsStep(views, i, files, current, contexts, contextSeen);
        ghost var ctx;
        contextSeen, ctx := ProcessNext(messages, i, files, contextSeen, views);
        FileMapStep(was, views, i, contexts, ctx);
        contexts := contexts + [ctx];
        i := i + 1;
      }
      assert views[..i] == views;
    }

    /** The ids of the current turn's attachments. */
    method SeenInTurn(turn: TurnFiles) returns (contextSeen: set<string>)
      ensures contextSeen == CurrentIds(turn)
    {
      contextSeen := {};
      if turn.Ready? {
        for i := 0 to |turn.files|
          invariant contextSeen == Named(turn.files[..i])
        {
          var id := IdOf(turn.files[i]);
          assert turn.files[..i + 1] == turn.files[..i] + [turn.files[i]];
          if id.Some? {
            contextSeen := contextSeen + {id.value};
          }
        }
        assert turn.files[..|turn.files|] == turn.files;
      }
    }

    /** `addPreviousAttachments`. */
    method AddPreviousAttachments(messages: seq<Message>, resendFiles: bool, turn: TurnFiles, db: seq<Stored>, user: Option<Owner>)
      returns (ghost contexts: seq<seq<Ref>>)
      requires forall i, j :: 0 <= i < j < |messages| ==> messages[i] != messages[j]
      modifies this, messages
      ensures !resendFiles ==> messageFileMap == old(messageFileMap) && Looks(messages) == old(Looks(messages))
      ensures resendFiles ==>
                var views := old(Looks(messages));
                var files := Authorised(views, db, user);
                && contexts == Contexts(views, files, CurrentIds(turn)).0
                && messageFileMap == FileMap(old(messageFileMap), views, contexts)
                && PassedUpTo(messages, views, files, |messages|)
    {
      contexts := [];
      if !resendFiles {
        return;
      }
      var contextSeen := SeenInTurn(turn);
      var fileIds := CollectHistoricalFileIds(messages);
      contexts := ProcessAll(messages, Query(fileIds, db, user), contextSeen, Looks(messages));
    }
  }
}
