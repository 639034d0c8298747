/** The migration that renames duplicate code-execution files so that the unique partial index on
    (filename, conversationId, context, tenantId) can be built.

    The database is a sequence of records; a query is a function of it.  The order in which the
    aggregation lists the groups, and the order of the files inside a group, is left open. */
module CodeFileDuplicates {
  import opened Options
  import opened FreshNames

  /** A document field: missing altogether, null, or a string. */
  datatype Field = Absent | Null | Value(s: string)

  datatype Record = Record(id: nat, filename: string, conversationId: Field, tenantId: Field,
                           isCode: bool, createdAt: Option<int>, rest: nat)

  type Store = seq<Record>

  /** The key of an aggregation group, which keeps missing and null apart... */
  datatype Key = Key(filename: string, conversationId: Field, tenantId: Field)

  /** ...while the index and an equality query treat a missing field as null. */
  function Norm(f: Field): Field {
    if f.Absent? then Null else f
  }

  function RawKey(r: Record): Key {
    Key(r.filename, r.conversationId, r.tenantId)
  }

  function IndexKey(r: Record): Key {
    Key(r.filename, Norm(r.conversationId), Norm(r.tenantId))
  }

  ghost predicate UniqueIds(store: Store) {
    forall i, j :: 0 <= i < j < |store| ==> store[i].id != store[j].id
  }

  /** What building the unique index demands. */
  ghost predicate IndexBuilds(store: Store) {
    forall i, j :: 0 <= i < j < |store| && store[i].isCode && store[j].isCode ==> IndexKey(store[i]) != IndexKey(store[j])
  }

  // ---------------------------------------------------------------- groups

  datatype FileEntry = FileEntry(id: nat, createdAt: Option<int>)

  datatype Group = Group(key: Key, files: seq<FileEntry>)

  function EntryOf(r: Record): FileEntry {
    FileEntry(r.id, r.createdAt)
  }

  ghost predicate Member(store: Store, key: Key, i: int) {
    0 <= i < |store| && store[i].isCode && RawKey(store[i]) == key
  }

  ghost predicate DistinctEntries(files: seq<FileEntry>) {
    forall i, j :: 0 <= i < j < |files| ==> files[i].id != files[j].id
  }

  /** `g` lists exactly the code files that share its key, at least two of them. */
  ghost predicate IsGroup(store: Store, g: Group) {
    && |g.files| >= 2
    && DistinctEntries(g.files)
    && (forall i :: Member(store, g.key, i) ==> EntryOf(store[i]) in g.files)
    && (forall e :: e in g.files ==> exists i :: Member(store, g.key, i) && EntryOf(store[i]) == e)
  }

  ghost predicate Covered(groups: seq<Group>, key: Key) {
    exists g :: g in groups && g.key == key
  }

  /** What the aggregation returns: every group of duplicates once, in any order. */
  ghost predicate IsGrouping(store: Store, groups: seq<Group>) {
    && (forall g :: g in groups ==> IsGroup(store, g))
    && (forall a, b :: 0 <= a < b < |groups| ==> groups[a].key != groups[b].key)
    && (forall i, j :: 0 <= i < j < |store| && store[i].isCode && store[j].isCode && RawKey(store[i]) == RawKey(store[j])
                       ==> Covered(groups, RawKey(store[i])))
  }

  // ---------------------------------------------------------------- newest first

  function Time(e: FileEntry): int {
    GetOr(e.createdAt, 0)
  }

  function Insert(e: FileEntry, sorted: seq<FileEntry>): seq<FileEntry> {
    if sorted == [] || Time(sorted[0]) <= Time(e) then [e] + sorted
    else [sorted[0]] + Insert(e, sorted[1..])
  }

  /** The stable sort by descending creation time, a missing time counting as 0. */
  function NewestFirst(files: seq<FileEntry>): seq<FileEntry> {
    if files == [] then [] else Insert(files[0], NewestFirst(files[1..]))
  }

  /** When a file counts as created: a missing time is 0. */
  ghost function Created(createdAt: Option<int>): int {
    match createdAt
    case Some(t) => t
    case None => 0
  }

  ghost predicate Descending(files: seq<FileEntry>) {
    forall i, j :: 0 <= i < j < |files| ==> Created(files[i].createdAt) >= Created(files[j].createdAt)
  }

  function At(files: seq<FileEntry>, t: int): seq<FileEntry> {
    if files == [] then []
    else (if Time(files[0]) == t then [files[0]] else []) + At(files[1..], t)
  }

  lemma {:induction false} InsertPermutes(e: FileEntry, sorted: seq<FileEntry>)
    ensures multiset(Insert(e, sorted)) == multiset{e} + multiset(sorted)
  {
    if sorted != [] {
      InsertPermutes(e, sorted[1..]);
      assert sorted == [sorted[0]] + sorted[1..];
    }
  }

  lemma TimeIsCreation(e: FileEntry)
    ensures Time(e) == Created(e.createdAt)
  {
  }

  lemma {:induction false} InsertSorts(e: FileEntry, sorted: seq<FileEntry>)
    requires Descending(sorted)
    ensures Descending(Insert(e, sorted))
  {
    TimeIsCreation(e);
    if sorted != [] {
      TimeIsCreation(sorted[0]);
      if Time(sorted[0]) > Time(e) {
        InsertSorts(e, sorted[1..]);
        InsertStaysBelow(e, sorted[1..], Created(sorted[0].createdAt));
      }
    }
  }

  lemma InsertStaysBelow(e: FileEntry, sorted: seq<FileEntry>, bound: int)
    requires Created(e.createdAt) <= bound && forall i :: 0 <= i < |sorted| ==> Created(sorted[i].createdAt) <= bound
    ensures forall i :: 0 <= i < |Insert(e, sorted)| ==> Created(Insert(e, sorted)[i].createdAt) <= bound
  {
    InsertPermutes(e, sorted);
    var all := Insert(e, sorted);
    forall i | 0 <= i < |all| ensures Created(all[i].createdAt) <= bound {
      assert all[i] in multiset(all);
      assert all[i] == e || all[i] in multiset(sorted);
    }
  }

  lemma AtCons(e: FileEntry, rest: seq<FileEntry>, t: int)
    ensures At([e] + rest, t) == if Time(e) == t then [e] + At(rest, t) else At(rest, t)
  {
  }

  lemma {:induction false} InsertIsStable(e: FileEntry, sorted: seq<FileEntry>, t: int)
    ensures At(Insert(e, sorted), t) == At([e] + sorted, t)
  {
    AtCons(e, sorted, t);
    if sorted != [] && Time(sorted[0]) > Time(e) {
      var rest := sorted[1..];
      InsertIsStable(e, rest, t);
      AtCons(e, rest, t);
      AtCons(sorted[0], Insert(e, rest), t);
      AtCons(sorted[0], rest, t);
      assert sorted == [sorted[0]] + rest;
    }
  }

  lemma {:induction false} NewestFirstSorts(files: seq<FileEntry>)
    ensures Descending(NewestFirst(files))
    ensures multiset(NewestFirst(files)) == multiset(files)
  {
    if files != [] {
      NewestFirstSorts(files[1..]);
      InsertSorts(files[0], NewestFirst(files[1..]));
      InsertPermutes(files[0], NewestFirst(files[1..]));
      assert files == [files[0]] + files[1..];
    }
  }

  /** Entries of one creation time keep their original order. */
  lemma {:induction false} NewestFirstIsStable(files: seq<FileEntry>, t: int)
    ensures At(NewestFirst(files), t) == At(files, t)
  {
    if files != [] {
      var rest := files[1..];
      NewestFirstIsStable(rest, t);
      InsertIsStable(files[0], NewestFirst(rest), t);
      AtCons(files[0], NewestFirst(rest), t);
      AtCons(files[0], rest, t);
      assert files == [files[0]] + rest;
    }
  }

  lemma NewestFirstPermutes(files: seq<FileEntry>)
    requires DistinctEntries(files)
    ensures |NewestFirst(files)| == |files|
    ensures forall e :: e in NewestFirst(files) <==> e in files
    ensures DistinctEntries(NewestFirst(files))
  {
    NewestFirstSorts(files);
    var sorted := NewestFirst(files);
    forall e ensures e in sorted <==> e in files {
      assert e in multiset(sorted) <==> e in multiset(files);
    }
    assert |multiset(sorted)| == |sorted| && |multiset(files)| == |files|;
    forall i, j | 0 <= i < j < |sorted| ensures sorted[i].id != sorted[j].id {
      if sorted[i].id == sorted[j].id {
        assert sorted[i] in files && sorted[j] in files;
        assert sorted[i] == sorted[j];
        MultiplicityOfTwo(sorted, i, j);
        OnceInDistinct(files, sorted[i]);
      }
    }
  }

  lemma MultiplicityOfTwo(files: seq<FileEntry>, i: int, j: int)
    requires 0 <= i < j < |files| && files[i] == files[j]
    ensures multiset(files)[files[i]] >= 2
  {
    assert files == files[..i] + [files[i]] + files[i + 1..j] + [files[j]] + files[j + 1..];
  }

  lemma {:induction false} OnceInDistinct(files: seq<FileEntry>, e: FileEntry)
    requires DistinctEntries(files)
    ensures multiset(files)[e] <= 1
  {
    if files != [] {
      OnceInDistinct(files[1..], e);
      assert files == [files[0]] + files[1..];
      if e == files[0] {
        assert e !in files[1..];
      }
    }
  }

  // ---------------------------------------------------------------- one group

  datatype Rename = Rename(id: nat, to: string)

  /** `e` is the file that keeps the group's name. */
  predicate Keeps(g: Group, e: FileEntry) {
    NewestFirst(g.files) != [] && e == NewestFirst(g.files)[0]
  }

  function Stale(g: Group): seq<FileEntry> {
    if NewestFirst(g.files) == [] then [] else NewestFirst(g.files)[1..]
  }

  /** The names of the query scope: an equality match on null also finds missing fields. */
  function ScopeNames(store: Store, key: Key): set<string> {
    set i | 0 <= i < |store| && store[i].isCode && InScope(store[i], key) :: store[i].filename
  }

  predicate InScope(r: Record, key: Key) {
    Norm(r.conversationId) == Norm(key.conversationId) && Norm(r.tenantId) == Norm(key.tenantId)
  }

  /** The stale files' new names, each reserved before the next is chosen. */
  function AssignNames(stale: seq<FileEntry>, filename: string, taken: set<string>): (rs: seq<Rename>)
    ensures |rs| == |stale|
  {
    if stale == [] then []
    else
      var to := FreshName(filename, taken);
      [Rename(stale[0].id, to)] + AssignNames(stale[1..], filename, taken + {to})
  }

  lemma {:induction false} AssignNamesFresh(stale: seq<FileEntry>, filename: string, taken: set<string>)
    ensures var rs := AssignNames(stale, filename, taken);
            && (forall i :: 0 <= i < |rs| ==> rs[i].id == stale[i].id && rs[i].to !in taken)
            && (forall i, j :: 0 <= i < j < |rs| ==> rs[i].to != rs[j].to)
  {
    if stale != [] {
      AssignNamesFresh(stale[1..], filename, taken + {FreshName(filename, taken)});
    }
  }

  /** `updateOne` by id. */
  function UpdateOne(store: Store, r: Rename): Store {
    seq(|store|, i requires 0 <= i < |store| => if store[i].id == r.id then store[i].(filename := r.to) else store[i])
  }

  function RenameAll(store: Store, rs: seq<Rename>): Store
    decreases rs
  {
    if rs == [] then store else RenameAll(UpdateOne(store, rs[0]), rs[1..])
  }

  /** The renames planned for a group, given the store as it is when the group's turn comes. */
  function Planned(store: Store, g: Group): seq<Rename>
  {
    AssignNames(Stale(g), g.key.filename, ScopeNames(store, g.key))
  }

  /** How a group's turn goes: no error, or an error after so many of its writes took effect. */
  type Fault = Option<nat>

  function Written(planned: seq<Rename>, fault: Fault): seq<Rename> {
    if fault.None? || fault.value >= |planned| then planned else planned[..fault.value]
  }

  function Process(store: Store, g: Group, fault: Fault): Store
  {
    RenameAll(store, Written(Planned(store, g), fault))
  }

  ghost predicate SameButNames(before: Store, after: Store) {
    |after| == |before| && forall i :: 0 <= i < |before| ==> after[i] == before[i].(filename := after[i].filename)
  }

  lemma {:induction false} RenameAllEffect(store: Store, rs: seq<Rename>)
    requires forall j, k :: 0 <= j < k < |rs| ==> rs[j].id != rs[k].id
    ensures SameButNames(store, RenameAll(store, rs))
    ensures forall i :: 0 <= i < |store| && (forall k :: 0 <= k < |rs| ==> rs[k].id != store[i].id)
                        ==> RenameAll(store, rs)[i] == store[i]
    ensures forall i, k :: 0 <= i < |store| && 0 <= k < |rs| && rs[k].id == store[i].id
                           ==> RenameAll(store, rs)[i].filename == rs[k].to
    decreases rs
  {
    if rs != [] {
      var mid, rest := UpdateOne(store, rs[0]), rs[1..];
      RenameAllEffect(mid, rest);
      forall i | 0 <= i < |store|
        ensures RenameAll(store, rs)[i] == store[i].(filename := RenameAll(store, rs)[i].filename)
        ensures (forall k :: 0 <= k < |rs| ==> rs[k].id != store[i].id) ==> RenameAll(store, rs)[i] == store[i]
      {
        assert mid[i].id == store[i].id;
        if forall k :: 0 <= k < |rs| ==> rs[k].id != store[i].id {
          assert forall k :: 0 <= k < |rest| ==> rest[k] == rs[k + 1];
        }
      }
      forall i, k | 0 <= i < |store| && 0 <= k < |rs| && rs[k].id == store[i].id
        ensures RenameAll(store, rs)[i].filename == rs[k].to
      {
        if k == 0 {
          assert forall l :: 0 <= l < |rest| ==> rest[l].id != rs[0].id;
          assert RenameAll(mid, rest)[i] == mid[i];
        } else {
          assert rest[k - 1] == rs[k];
        }
      }
    }
  }

  /** The contract of one group's turn, `complete` when no error cut it short. */
  ghost predicate TurnOk(before: Store, after: Store, g: Group, complete: bool)
  {
    && SameButNames(before, after)
    && (forall i :: 0 <= i < |before| && after[i] != before[i] ==>
                      && Member(before, g.key, i) && !Keeps(g, EntryOf(before[i]))
                      && after[i].filename !in ScopeNames(before, g.key))
    && (forall i, j :: 0 <= i < j < |before| && after[i] != before[i] && after[j] != before[j]
                       ==> after[i].filename != after[j].filename)
    && (complete ==> forall i :: Member(before, g.key, i) && !Keeps(g, EntryOf(before[i])) ==> after[i] != before[i])
  }

  /** The stale files are the group's without the one that keeps the name, and that one is the newest. */
  lemma StaleEntries(g: Group)
    requires DistinctEntries(g.files)
    ensures forall e :: e in Stale(g) <==> e in g.files && !Keeps(g, e)
    ensures DistinctEntries(Stale(g))
    ensures forall k, e :: Keeps(g, k) && e in g.files ==> k in g.files && Created(e.createdAt) <= Created(k.createdAt)
  {
    NewestFirstPermutes(g.files);
    NewestFirstSorts(g.files);
    var sorted := NewestFirst(g.files);
    if sorted != [] {
      TailEntries(sorted);
      HeadIsNewest(sorted);
    }
  }

  lemma TailEntries(sorted: seq<FileEntry>)
    requires sorted != [] && DistinctEntries(sorted)
    ensures forall e :: e in sorted[1..] <==> e in sorted && e != sorted[0]
    ensures DistinctEntries(sorted[1..])
  {
    assert sorted == [sorted[0]] + sorted[1..];
  }

  lemma HeadIsNewest(sorted: seq<FileEntry>)
    requires sorted != [] && Descending(sorted)
    ensures sorted[0] in sorted && forall e :: e in sorted ==> Created(e.createdAt) <= Created(sorted[0].createdAt)
  {
    forall e | e in sorted ensures Created(e.createdAt) <= Created(sorted[0].createdAt) {
      var i :| 0 <= i < |sorted| && sorted[i] == e;
    }
  }

  ghost predicate StaleId(store: Store, g: Group, id: nat) {
    exists i :: Member(store, g.key, i) && store[i].id == id && !Keeps(g, EntryOf(store[i]))
  }

  /** Renames of stale members to unused, different names. */
  ghost predicate Fitting(store: Store, g: Group, rs: seq<Rename>) {
    && (forall k :: 0 <= k < |rs| ==> StaleId(store, g, rs[k].id) && rs[k].to !in ScopeNames(store, g.key))
    && (forall k, l :: 0 <= k < l < |rs| ==> rs[k].id != rs[l].id && rs[k].to != rs[l].to)
  }

  lemma PlannedFits(store: Store, g: Group)
    requires IsGroup(store, g)
    ensures Fitting(store, g, Planned(store, g))
  {
    var stale := Stale(g);
    StaleEntries(g);
    AssignNamesFresh(stale, g.key.filename, ScopeNames(store, g.key));
    var rs := Planned(store, g);
    forall k | 0 <= k < |rs| ensures StaleId(store, g, rs[k].id) {
      assert stale[k] in stale;
      var i :| Member(store, g.key, i) && EntryOf(store[i]) == stale[k];
    }
  }

  lemma FittingChanges(store: Store, g: Group, rs: seq<Rename>, i: int) returns (k: int)
    requires UniqueIds(store) && Fitting(store, g, rs)
    requires 0 <= i < |store| && SameButNames(store, RenameAll(store, rs)) && RenameAll(store, rs)[i] != store[i]
    ensures Member(store, g.key, i) && !Keeps(g, EntryOf(store[i]))
    ensures 0 <= k < |rs| && rs[k].id == store[i].id && RenameAll(store, rs)[i].filename == rs[k].to
  {
    RenameAllEffect(store, rs);
    k :| 0 <= k < |rs| && rs[k].id == store[i].id;
    assert StaleId(store, g, rs[k].id);
  }

  lemma FittingTurn(store: Store, g: Group, rs: seq<Rename>)
    requires UniqueIds(store) && Fitting(store, g, rs)
    ensures TurnOk(store, RenameAll(store, rs), g, false)
  {
    var after := RenameAll(store, rs);
    RenameAllEffect(store, rs);
    forall i | 0 <= i < |store| && after[i] != store[i]
      ensures Member(store, g.key, i) && !Keeps(g, EntryOf(store[i]))
      ensures after[i].filename !in ScopeNames(store, g.key)
    {
      var k := FittingChanges(store, g, rs, i);
    }
    forall i, j | 0 <= i < j < |store| && after[i] != store[i] && after[j] != store[j]
      ensures after[i].filename != after[j].filename
    {
      var k := FittingChanges(store, g, rs, i);
      var l := FittingChanges(store, g, rs, j);
      assert k != l;
    }
  }

  lemma StaleIsPlanned(store: Store, g: Group, e: FileEntry) returns (k: nat)
    requires DistinctEntries(g.files) && e in g.files && !Keeps(g, e)
    ensures k < |Planned(store, g)| && Planned(store, g)[k].id == e.id
    ensures Planned(store, g)[k].to !in ScopeNames(store, g.key)
  {
    var stale := Stale(g);
    StaleEntries(g);
    AssignNamesFresh(stale, g.key.filename, ScopeNames(store, g.key));
    k :| 0 <= k < |stale| && stale[k] == e;
  }

  lemma PlannedRenamesAllStale(store: Store, g: Group, i: int)
    requires IsGroup(store, g)
    requires Member(store, g.key, i) && !Keeps(g, EntryOf(store[i]))
    ensures |RenameAll(store, Planned(store, g))| == |store| && RenameAll(store, Planned(store, g))[i] != store[i]
  {
    var rs := Planned(store, g);
    var k := StaleIsPlanned(store, g, EntryOf(store[i]));
    PlannedFits(store, g);
    RenameAllEffect(store, rs);
    assert RenameAll(store, rs)[i].filename == rs[k].to;
    ScopeNamesHolds(store, g.key, i);
  }

  lemma WrittenFits(store: Store, g: Group, planned: seq<Rename>, fault: Fault)
    requires Fitting(store, g, planned)
    ensures Fitting(store, g, Written(planned, fault))
  {
  }

  /** One group's turn renames only stale members, to names unused in the scope and unlike each other,
      and without an error renames all of them. */
  lemma TurnIsOk(store: Store, g: Group, fault: Fault)
    requires UniqueIds(store) && IsGroup(store, g)
    ensures TurnOk(store, Process(store, g, fault), g, fault.None?)
  {
    PlannedFits(store, g);
    WrittenFits(store, g, Planned(store, g), fault);
    FittingTurn(store, g, Written(Planned(store, g), fault));
    if fault.None? {
      forall i | Member(store, g.key, i) && !Keeps(g, EntryOf(store[i])) ensures Process(store, g, fault)[i] != store[i] {
        PlannedRenamesAllStale(store, g, i);
      }
    }
  }

  // ---------------------------------------------------------------- the loop over the groups

  function RunGroups(store: Store, groups: seq<Group>, faults: seq<Fault>): Store
    requires |faults| == |groups|
    decreases groups
  {
    if groups == [] then store else RunGroups(Process(store, groups[0], faults[0]), groups[1..], faults[1..])
  }

  ghost predicate Collide(store: Store, i: int, j: int) {
    && 0 <= i < j < |store| && store[i].isCode && store[j].isCode
    && IndexKey(store[i]) == IndexKey(store[j])
  }

  /** The record at `i` is as it was. */
  ghost predicate Kept(before: Store, after: Store, i: int) {
    0 <= i < |before| == |after| && after[i] == before[i]
  }

  /** A turn never makes two code files collide that did not collide before. */
  lemma TurnMakesNoCollision(before: Store, after: Store, g: Group, complete: bool, i: int, j: int)
    requires TurnOk(before, after, g, complete)
    requires Collide(after, i, j)
    ensures Kept(before, after, i) && Kept(before, after, j) && Collide(before, i, j)
  {
  }

  lemma ScopeNamesHolds(store: Store, key: Key, i: int)
    requires 0 <= i < |store| && store[i].isCode
    ensures InScope(store[i], key) ==> store[i].filename in ScopeNames(store, key)
  {
  }

  lemma TurnKeepsOtherGroups(before: Store, after: Store, g: Group, complete: bool, h: Group)
    requires TurnOk(before, after, g, complete)
    requires IsGroup(before, h) && h.key != g.key
    ensures IsGroup(after, h)
    ensures forall i :: Member(after, h.key, i) <==> Member(before, h.key, i)
  {
    assert h.files[0] in h.files;
    var m :| Member(before, h.key, m) && EntryOf(before[m]) == h.files[0];
    ScopeNamesHolds(before, g.key, m);
    forall i | Member(after, h.key, i) ensures Member(before, h.key, i) && after[i] == before[i] {}
    forall i | Member(before, h.key, i) ensures Member(after, h.key, i) && after[i] == before[i] {}
    forall e | e in h.files ensures exists i :: Member(after, h.key, i) && EntryOf(after[i]) == e {
      var i :| Member(before, h.key, i) && EntryOf(before[i]) == e;
      assert Member(after, h.key, i);
    }
  }

  ghost predicate Pending(store: Store, groups: seq<Group>) {
    && UniqueIds(store)
    && (forall g :: g in groups ==> IsGroup(store, g))
    && (forall a, b :: 0 <= a < b < |groups| ==> groups[a].key != groups[b].key)
  }

  lemma TurnLeavesPending(store: Store, groups: seq<Group>, fault: Fault)
    requires groups != [] && Pending(store, groups)
    ensures TurnOk(store, Process(store, groups[0], fault), groups[0], fault.None?)
    ensures Pending(Process(store, groups[0], fault), groups[1..])
  {
    var g := groups[0];
    var after := Process(store, g, fault);
    assert g in groups;
    TurnIsOk(store, g, fault);
    forall h | h in groups[1..] ensures IsGroup(after, h) {
      assert h in groups;
      TurnKeepsOtherGroups(store, after, g, fault.None?, h);
    }
  }

  /** What any run does, whatever errors cut its turns short: nothing but the names of stale group members
      change, and files that collide afterwards are unchanged and collided before. */
  lemma {:induction false} RunChangesOnlyStaleNames(store: Store, groups: seq<Group>, faults: seq<Fault>)
    requires Pending(store, groups) && |faults| == |groups|
    ensures var after := RunGroups(store, groups, faults);
            && SameButNames(store, after) && UniqueIds(after)
            && (forall i :: 0 <= i < |store| && after[i] != store[i] ==>
                  exists g :: g in groups && Member(store, g.key, i) && !Keeps(g, EntryOf(store[i])))
            && (forall i, j :: Collide(after, i, j) ==>
                  Kept(store, after, i) && Kept(store, after, j) && Collide(store, i, j))
    decreases groups
  {
    if groups != [] {
      var g := groups[0];
      var mid := Process(store, g, faults[0]);
      TurnLeavesPending(store, groups, faults[0]);
      RunChangesOnlyStaleNames(mid, groups[1..], faults[1..]);
      var after := RunGroups(store, groups, faults);
      forall i | 0 <= i < |store| && after[i] != store[i]
        ensures exists g :: g in groups && Member(store, g.key, i) && !Keeps(g, EntryOf(store[i]))
      {
        if mid[i] != store[i] {
          assert g in groups;
        } else {
          var h :| h in groups[1..] && Member(mid, h.key, i) && !Keeps(h, EntryOf(mid[i]));
          assert h in groups;
        }
      }
      forall i, j | Collide(after, i, j)
        ensures Kept(store, after, i) && Kept(store, after, j) && Collide(store, i, j)
      {
        assert Kept(mid, after, i) && Kept(mid, after, j) && Collide(mid, i, j);
        TurnMakesNoCollision(store, mid, g, faults[0].None?, i, j);
      }
    }
  }

  // ---------------------------------------------------------------- main results

  lemma TurnKeepsKey(store: Store, after: Store, g: Group, complete: bool, i: nat) returns (j: nat)
    requires TurnOk(store, after, g, complete) && IsGroup(store, g)
    requires i < |store| && store[i].isCode
    ensures j < |store| && after[j] == store[j] && store[j].isCode && RawKey(store[j]) == RawKey(store[i])
  {
    j := i;
    if after[i] != store[i] {
      StaleEntries(g);
      NewestFirstPermutes(g.files);
      var keeper := NewestFirst(g.files)[0];
      assert Keeps(g, keeper);
      var m :| Member(store, g.key, m) && EntryOf(store[m]) == keeper;
      j := m;
    }
  }

  /** Every key in use stays in use, on the same record or on one that already had it. */
  lemma {:induction false} KeysSurvive(store: Store, groups: seq<Group>, faults: seq<Fault>, i: nat) returns (k: nat)
    requires Pending(store, groups) && |faults| == |groups|
    requires i < |store| && store[i].isCode
    ensures k < |store| == |RunGroups(store, groups, faults)|
    ensures RunGroups(store, groups, faults)[k] == store[k] && store[k].isCode && RawKey(store[k]) == RawKey(store[i])
    decreases groups
  {
    if groups == [] {
      k := i;
    } else {
      var g := groups[0];
      var mid := Process(store, g, faults[0]);
      TurnLeavesPending(store, groups, faults[0]);
      assert g in groups;
      var j := TurnKeepsKey(store, mid, g, faults[0].None?, i);
      k := KeysSurvive(mid, groups[1..], faults[1..], j);
      SurvivorIsOriginal(store, mid, g, faults[0].None?, j, k);
    }
  }

  lemma SurvivorIsOriginal(store: Store, mid: Store, g: Group, complete: bool, j: nat, k: nat)
    requires TurnOk(store, mid, g, complete)
    requires j < |store| && k < |store| && mid[j] == store[j] && store[j].isCode && mid[k].isCode
    requires RawKey(mid[k]) == RawKey(mid[j])
    ensures mid[k] == store[k]
  {
  }

  ghost predicate NoFault(faults: seq<Fault>) {
    forall f :: f in faults ==> f.None?
  }

  lemma TurnResolves(before: Store, after: Store, g: Group, i: int, j: int)
    requires UniqueIds(before) && TurnOk(before, after, g, true)
    requires i < j && Kept(before, after, i) && Kept(before, after, j)
    ensures !(Member(before, g.key, i) && Member(before, g.key, j))
  {
  }

  lemma CoveredByFirstOrRest(groups: seq<Group>, key: Key)
    requires groups != []
    ensures Covered(groups, key) <==> key == groups[0].key || Covered(groups[1..], key)
  {
  }

  lemma {:induction false} CoveredAreResolved(store: Store, groups: seq<Group>, faults: seq<Fault>, i: int, j: int)
    requires Pending(store, groups) && |faults| == |groups| && NoFault(faults)
    requires Collide(RunGroups(store, groups, faults), i, j)
    ensures |RunGroups(store, groups, faults)| == |store|
    ensures RawKey(store[i]) == RawKey(store[j]) ==> !Covered(groups, RawKey(store[i]))
    decreases groups
  {
    RunChangesOnlyStaleNames(store, groups, faults);
    if groups != [] {
      var g := groups[0];
      var mid := Process(store, g, faults[0]);
      TurnLeavesPending(store, groups, faults[0]);
      RunChangesOnlyStaleNames(mid, groups[1..], faults[1..]);
      assert Collide(mid, i, j);
      TurnMakesNoCollision(store, mid, g, faults[0].None?, i, j);
      CoveredAreResolved(mid, groups[1..], faults[1..], i, j);
      assert faults[0] in faults;
      TurnResolves(store, mid, g, i, j);
      CoveredByFirstOrRest(groups, RawKey(store[i]));
    }
  }

  /** Two code files with one index key always had one aggregation key: no missing field next to a null one. */
  ghost predicate NoSplitKeys(store: Store) {
    forall i, j :: Collide(store, i, j) ==> RawKey(store[i]) == RawKey(store[j])
  }

  /** After a live run without errors no two code files share an aggregation key. */
  lemma CleanRunSeparatesKeys(store: Store, groups: seq<Group>, faults: seq<Fault>, i: int, j: int)
    requires UniqueIds(store) && IsGrouping(store, groups) && |faults| == |groups| && NoFault(faults)
    requires Collide(RunGroups(store, groups, faults), i, j)
    ensures RawKey(RunGroups(store, groups, faults)[i]) != RawKey(RunGroups(store, groups, faults)[j])
  {
    RunChangesOnlyStaleNames(store, groups, faults);
    CoveredAreResolved(store, groups, faults, i, j);
  }

  /** No run, whatever its errors, splits keys or joins split ones. */
  lemma SplitSurvives(store: Store, groups: seq<Group>, faults: seq<Fault>)
    requires Pending(store, groups) && |faults| == |groups|
    ensures NoSplitKeys(store) <==> NoSplitKeys(RunGroups(store, groups, faults))
  {
    var after := RunGroups(store, groups, faults);
    RunChangesOnlyStaleNames(store, groups, faults);
    if !NoSplitKeys(store) {
      var i, j :| Collide(store, i, j) && RawKey(store[i]) != RawKey(store[j]);
      var k := KeysSurvive(store, groups, faults, i);
      var l := KeysSurvive(store, groups, faults, j);
      assert k != l;
      assert Collide(after, if k < l then k else l, if k < l then l else k);
    }
  }

  /** The index builds after an error-free live run exactly when no key was split between missing and null. */
  lemma IndexBuildsIffNoSplitKeys(store: Store, groups: seq<Group>, faults: seq<Fault>)
    requires UniqueIds(store) && IsGrouping(store, groups) && |faults| == |groups| && NoFault(faults)
    ensures IndexBuilds(RunGroups(store, groups, faults)) <==> NoSplitKeys(store)
  {
    SplitSurvives(store, groups, faults);
    var after := RunGroups(store, groups, faults);
    forall i, j | Collide(after, i, j) ensures RawKey(after[i]) != RawKey(after[j]) {
      CleanRunSeparatesKeys(store, groups, faults, i, j);
    }
    SeparateKeysSuffice(after);
  }

  lemma SeparateKeysSuffice(store: Store)
    requires forall i, j :: Collide(store, i, j) ==> RawKey(store[i]) != RawKey(store[j])
    ensures IndexBuilds(store) <==> NoSplitKeys(store)
  {
  }

  /** After an error-free live run the aggregation finds nothing, so a second run writes nothing. */
  lemma SecondRunFindsNothing(store: Store, groups: seq<Group>, faults: seq<Fault>, again: seq<Group>)
    requires UniqueIds(store) && IsGrouping(store, groups) && |faults| == |groups| && NoFault(faults)
    requires IsGrouping(RunGroups(store, groups, faults), again)
    ensures again == []
  {
    var after := RunGroups(store, groups, faults);
    RunChangesOnlyStaleNames(store, groups, faults);
    if again != [] {
      var g := again[0];
      assert g in again && g.files[0] in g.files && g.files[1] in g.files;
      var i :| Member(after, g.key, i) && EntryOf(after[i]) == g.files[0];
      var j :| Member(after, g.key, j) && EntryOf(after[j]) == g.files[1];
      assert i != j;
      var lo, hi := if i < j then i else j, if i < j then j else i;
      assert Collide(after, lo, hi);
      CleanRunSeparatesKeys(store, groups, faults, lo, hi);
    }
  }

  /** The file that keeps its group's name, the newest one, is untouched by any run. */
  lemma NewestKeepsItsName(store: Store, groups: seq<Group>, faults: seq<Fault>, g: Group, i: int)
    requires UniqueIds(store) && IsGrouping(store, groups) && |faults| == |groups|
    requires g in groups && Member(store, g.key, i) && Keeps(g, EntryOf(store[i]))
    ensures |RunGroups(store, groups, faults)| == |store| && RunGroups(store, groups, faults)[i] == store[i]
    ensures forall j :: Member(store, g.key, j) ==> Created(store[j].createdAt) <= Created(store[i].createdAt)
  {
    RunChangesOnlyStaleNames(store, groups, faults);
    StaleEntries(g);
    forall h | h in groups && h.key == g.key ensures h == g {
      var a :| 0 <= a < |groups| && groups[a] == h;
      var b :| 0 <= b < |groups| && groups[b] == g;
      assert a == b;
    }
  }

  /** The split case is real: two records of one name, one with no conversation field and one with a null one. */
  lemma SplitKeysBlockTheIndex()
    ensures var a := Record(0, "a", Absent, Absent, true, None, 0);
            var store := [a, a.(id := 1, conversationId := Null)];
            UniqueIds(store) && IsGrouping(store, []) && !IndexBuilds(RunGroups(store, [], []))
  {
    var a := Record(0, "a", Absent, Absent, true, None, 0);
    var store := [a, a.(id := 1, conversationId := Null)];
    assert IndexKey(store[0]) == IndexKey(store[1]);
  }

  // ---------------------------------------------------------------- on the records' own fields

  /** The unique index takes a missing field and a null one for the same. */
  ghost predicate SameField(a: Field, b: Field) {
    a == b || (!a.Value? && !b.Value?)
  }

  ghost predicate SameEntry(a: Record, b: Record) {
    a.isCode && b.isCode && a.filename == b.filename
    && SameField(a.conversationId, b.conversationId) && SameField(a.tenantId, b.tenantId)
  }

  lemma SameEntryIsCollision(store: Store, i: int, j: int)
    requires 0 <= i < j < |store|
    ensures Collide(store, i, j) <==> SameEntry(store[i], store[j])
  {
  }

  /** Two code files are listed in one group exactly when name, conversation and tenant are the same, a missing field not
      being the same as a null one. */
  lemma GroupsOnFields(store: Store, groups: seq<Group>, i: int, j: int)
    requires UniqueIds(store) && IsGrouping(store, groups)
    requires 0 <= i < j < |store| && store[i].isCode && store[j].isCode
    ensures (exists g :: g in groups && ListedIn(store[i], g) && ListedIn(store[j], g)) <==>
            store[i].filename == store[j].filename && store[i].conversationId == store[j].conversationId
            && store[i].tenantId == store[j].tenantId
  {
    if g :| g in groups && ListedIn(store[i], g) && ListedIn(store[j], g) {
      ListedIsMember(store, g, i);
      ListedIsMember(store, g, j);
    }
    if RawKey(store[i]) == RawKey(store[j]) {
      var g :| g in groups && g.key == RawKey(store[i]);
      assert Member(store, g.key, i) && Member(store, g.key, j);
      assert ListedIn(store[i], g) && ListedIn(store[j], g);
    }
  }

  ghost predicate ListedIn(r: Record, g: Group) {
    exists e :: e in g.files && e.id == r.id
  }

  lemma ListedIsMember(store: Store, g: Group, i: int)
    requires UniqueIds(store) && IsGroup(store, g) && 0 <= i < |store| && ListedIn(store[i], g)
    ensures Member(store, g.key, i)
  {
    var e :| e in g.files && e.id == store[i].id;
    var k :| Member(store, g.key, k) && EntryOf(store[k]) == e;
  }

  /** The index builds after an error-free live run, on the fields: no two code files are one entry of the index then, if
      and only if any two that were one before agreed on both fields exactly. */
  lemma IndexBuildsOnFields(store: Store, groups: seq<Group>, faults: seq<Fault>)
    requires UniqueIds(store) && IsGrouping(store, groups) && |faults| == |groups| && NoFault(faults)
    ensures var after := RunGroups(store, groups, faults);
            (forall i, j :: 0 <= i < j < |after| ==> !SameEntry(after[i], after[j])) <==>
            (forall i, j :: 0 <= i < j < |store| && SameEntry(store[i], store[j]) ==>
              store[i].conversationId == store[j].conversationId && store[i].tenantId == store[j].tenantId)
  {
    IndexBuildsIffNoSplitKeys(store, groups, faults);
    SplitOnFields(store);
    BuildsOnFields(RunGroups(store, groups, faults));
  }

  lemma BuildsOnFields(store: Store)
    ensures IndexBuilds(store) <==> forall i, j :: 0 <= i < j < |store| ==> !SameEntry(store[i], store[j])
  {
    forall i, j | 0 <= i < j < |store| ensures Collide(store, i, j) <==> SameEntry(store[i], store[j]) {
      SameEntryIsCollision(store, i, j);
    }
  }

  lemma SplitOnFields(store: Store)
    ensures NoSplitKeys(store) <==>
            forall i, j :: 0 <= i < j < |store| && SameEntry(store[i], store[j]) ==>
              store[i].conversationId == store[j].conversationId && store[i].tenantId == store[j].tenantId
  {
    forall i, j | 0 <= i < j < |store|
      ensures Collide(store, i, j) <==> SameEntry(store[i], store[j])
      ensures SameEntry(store[i], store[j]) ==>
                (RawKey(store[i]) == RawKey(store[j]) <==>
                 store[i].conversationId == store[j].conversationId && store[i].tenantId == store[j].tenantId)
    {
      SameEntryIsCollision(store, i, j);
    }
  }

  /** The names a group's turn starts with as taken: those of all code files of its conversation and tenant, a missing
      field counting as null. */
  lemma ScopeOnFields(store: Store, key: Key, name: string)
    ensures name in ScopeNames(store, key) <==>
            exists i :: 0 <= i < |store| && store[i].isCode && store[i].filename == name
                        && SameField(store[i].conversationId, key.conversationId) && SameField(store[i].tenantId, key.tenantId)
  {
    forall i | 0 <= i < |store|
      ensures InScope(store[i], key) <==>
              SameField(store[i].conversationId, key.conversationId) && SameField(store[i].tenantId, key.tenantId)
    {
    }
  }

  /** `to` is the first numbered form of `filename` that is not taken. */
  ghost predicate IsFirstFree(to: string, filename: string, taken: set<string>) {
    exists n :: n >= 1 && to == SuffixFilename(filename, n) && to !in taken && TakenUpTo(filename, taken, n - 1)
  }

  ghost function NamesBefore(rs: seq<Rename>, k: nat): set<string>
    requires k <= |rs|
  {
    set r | r in rs[..k] :: r.to
  }

  lemma NamesBeforeCons(r: Rename, rest: seq<Rename>, k: nat)
    requires 1 <= k <= |rest| + 1
    ensures NamesBefore([r] + rest, k) == {r.to} + NamesBefore(rest, k - 1)
  {
    assert ([r] + rest)[..k] == [r] + rest[..k - 1];
  }

  /** Each stale file gets the first numbered form of the group's own name that is neither in use in the scope nor given
      to a file before it. */
  lemma {:induction false} NamesAreFirstFree(stale: seq<FileEntry>, filename: string, taken: set<string>, k: nat)
    requires k < |stale|
    ensures var rs := AssignNames(stale, filename, taken);
            rs[k].id == stale[k].id && IsFirstFree(rs[k].to, filename, taken + NamesBefore(rs, k))
  {
    var rs := AssignNames(stale, filename, taken);
    var to := FreshName(filename, taken);
    if k == 0 {
      assert taken + NamesBefore(rs, 0) == taken;
      FreshIsFirstFree(filename, taken);
    } else {
      var rest := AssignNames(stale[1..], filename, taken + {to});
      NamesAreFirstFree(stale[1..], filename, taken + {to}, k - 1);
      NamesBeforeCons(Rename(stale[0].id, to), rest, k);
      assert taken + NamesBefore(rs, k) == taken + {to} + NamesBefore(rest, k - 1);
    }
  }

  lemma FreshIsFirstFree(filename: string, taken: set<string>)
    ensures IsFirstFree(FreshName(filename, taken), filename, taken)
  {
    var n := FirstFree(filename, taken, 1);
    assert FreshName(filename, taken) == SuffixFilename(filename, n);
  }

  /** All new names are numbered forms of one name. */
  ghost predicate AllSuffixed(rs: seq<Rename>, filename: string) {
    forall k :: 0 <= k < |rs| ==> exists n :: n >= 1 && rs[k].to == SuffixFilename(filename, n)
  }

  lemma WrittenAreSuffixed(store: Store, g: Group, fault: Fault)
    ensures AllSuffixed(Written(Planned(store, g), fault), g.key.filename)
  {
    var planned := Planned(store, g);
    forall k: nat | k < |planned| ensures exists n :: n >= 1 && planned[k].to == SuffixFilename(g.key.filename, n) {
      NamesAreFirstFree(Stale(g), g.key.filename, ScopeNames(store, g.key), k);
    }
  }

  /** A turn changes a record only to a numbered form of the name it had. */
  lemma TurnSuffixes(store: Store, g: Group, fault: Fault, i: int) returns (n: nat)
    requires UniqueIds(store) && IsGroup(store, g)
    requires 0 <= i < |store| == |Process(store, g, fault)| && Process(store, g, fault)[i] != store[i]
    ensures n >= 1 && Process(store, g, fault)[i].filename == SuffixFilename(store[i].filename, n)
  {
    PlannedFits(store, g);
    WrittenFits(store, g, Planned(store, g), fault);
    WrittenAreSuffixed(store, g, fault);
    n := RenamedIsSuffixed(store, g, Written(Planned(store, g), fault), i);
  }

  lemma RenamedIsSuffixed(store: Store, g: Group, rs: seq<Rename>, i: int) returns (n: nat)
    requires UniqueIds(store) && Fitting(store, g, rs) && AllSuffixed(rs, g.key.filename)
    requires 0 <= i < |store| == |RenameAll(store, rs)| && RenameAll(store, rs)[i] != store[i]
    ensures n >= 1 && RenameAll(store, rs)[i].filename == SuffixFilename(store[i].filename, n)
  {
    RenameAllEffect(store, rs);
    var k := FittingChanges(store, g, rs, i);
    n :| n >= 1 && rs[k].to == SuffixFilename(g.key.filename, n);
  }

  lemma FirstRenames(store: Store, rs: seq<Rename>, n: nat, i: nat, k: nat)
    requires n <= |rs| && forall j, l :: 0 <= j < l < |rs| ==> rs[j].id != rs[l].id
    requires i < |store| && k < |rs| && rs[k].id == store[i].id
    ensures |RenameAll(store, rs[..n])| == |store|
    ensures RenameAll(store, rs[..n])[i].filename == if k < n then rs[k].to else store[i].filename
  {
    var first := rs[..n];
    RenameAllEffect(store, first);
    if k < n {
      assert first[k] == rs[k];
    } else {
      forall l | 0 <= l < |first| ensures first[l].id != store[i].id {
        assert first[l] == rs[l];
      }
      assert RenameAll(store, first)[i] == store[i];
    }
  }

  /** A turn cut short has given the stale files their names up to the write that failed, in order, and no others. */
  lemma TurnStopsAtTheFault(store: Store, g: Group, fault: Fault, i: nat, k: nat)
    requires UniqueIds(store) && IsGroup(store, g)
    requires i < |store| && k < |Planned(store, g)| && Planned(store, g)[k].id == store[i].id
    ensures |Process(store, g, fault)| == |store|
    ensures Process(store, g, fault)[i].filename ==
            if fault.Some? && k >= fault.value then store[i].filename else Planned(store, g)[k].to
  {
    var planned := Planned(store, g);
    PlannedIdsDiffer(store, g);
    var n := WrittenIsPrefix(planned, fault);
    FirstRenames(store, planned, n, i, k);
  }

  lemma PlannedIdsDiffer(store: Store, g: Group)
    requires IsGroup(store, g)
    ensures var rs := Planned(store, g); forall j, l :: 0 <= j < l < |rs| ==> rs[j].id != rs[l].id
  {
    PlannedFits(store, g);
  }

  lemma WrittenIsPrefix(planned: seq<Rename>, fault: Fault) returns (n: nat)
    ensures n <= |planned| && Written(planned, fault) == planned[..n]
    ensures n == if fault.Some? && fault.value < |planned| then fault.value else |planned|
  {
    n := if fault.Some? && fault.value < |planned| then fault.value else |planned|;
    assert planned[..|planned|] == planned;
  }

  /** Over a whole run, whatever its errors, a file's name is the one it had or a numbered form of it. */
  lemma {:induction false} RunSuffixes(store: Store, groups: seq<Group>, faults: seq<Fault>, i: int) returns (n: nat)
    requires Pending(store, groups) && |faults| == |groups|
    requires 0 <= i < |store| == |RunGroups(store, groups, faults)| && RunGroups(store, groups, faults)[i] != store[i]
    ensures n >= 1 && RunGroups(store, groups, faults)[i].filename == SuffixFilename(store[i].filename, n)
    decreases groups
  {
    var g := groups[0];
    var mid := Process(store, g, faults[0]);
    assert g in groups;
    TurnLeavesPending(store, groups, faults[0]);
    RunChangesOnlyStaleNames(mid, groups[1..], faults[1..]);
    if mid[i] == store[i] {
      n := RunSuffixes(mid, groups[1..], faults[1..], i);
    } else {
      n := TurnSuffixes(store, g, faults[0], i);
      if RunGroups(mid, groups[1..], faults[1..])[i] != mid[i] {
        var h :| h in groups[1..] && Member(mid, h.key, i) && !Keeps(h, EntryOf(mid[i]));
        assert h in groups;
        TurnKeepsOtherGroups(store, mid, g, faults[0].None?, h);
      }
    }
  }

  // ---------------------------------------------------------------- a run cut short and repeated

  /** A run cut short anywhere and then repeated without errors lets the index build under the same condition on the
      store as it was at first. */
  lemma RerunRecovers(store: Store, groups: seq<Group>, faults: seq<Fault>, again: seq<Group>, clean: seq<Fault>)
    requires UniqueIds(store) && IsGrouping(store, groups) && |faults| == |groups|
    requires IsGrouping(RunGroups(store, groups, faults), again) && |clean| == |again| && NoFault(clean)
    ensures IndexBuilds(RunGroups(RunGroups(store, groups, faults), again, clean)) <==> NoSplitKeys(store)
  {
    RunChangesOnlyStaleNames(store, groups, faults);
    SplitSurvives(store, groups, faults);
    IndexBuildsIffNoSplitKeys(RunGroups(store, groups, faults), again, clean);
  }

  /** The record at `k` has the key of the one at `i`, and nothing newer has it. */
  ghost predicate IsNewest(store: Store, k: int, i: int) {
    && 0 <= k < |store| && 0 <= i < |store| && store[k].isCode && RawKey(store[k]) == RawKey(store[i])
    && forall j :: Member(store, RawKey(store[i]), j) ==> Created(store[j].createdAt) <= Created(store[k].createdAt)
  }

  /** Some other code file of the same key is at least as new. */
  ghost predicate Outdone(store: Store, i: int) {
    && 0 <= i < |store| && store[i].isCode
    && exists j :: j != i && Member(store, RawKey(store[i]), j) && Created(store[i].createdAt) <= Created(store[j].createdAt)
  }

  lemma KeeperOf(store: Store, g: Group) returns (k: nat)
    requires IsGroup(store, g)
    ensures Member(store, g.key, k) && Keeps(g, EntryOf(store[k]))
    ensures forall j :: Member(store, g.key, j) ==> Created(store[j].createdAt) <= Created(store[k].createdAt)
  {
    StaleEntries(g);
    NewestFirstPermutes(g.files);
    var keeper := NewestFirst(g.files)[0];
    assert Keeps(g, keeper);
    k :| Member(store, g.key, k) && EntryOf(store[k]) == keeper;
  }

  /** In any run a newest record of every key is left as it is. */
  lemma RunKeepsNewest(store: Store, groups: seq<Group>, faults: seq<Fault>, i: nat) returns (k: nat)
    requires UniqueIds(store) && IsGrouping(store, groups) && |faults| == |groups|
    requires i < |store| && store[i].isCode
    ensures IsNewest(store, k, i) && Kept(store, RunGroups(store, groups, faults), k)
  {
    RunChangesOnlyStaleNames(store, groups, faults);
    var key := RawKey(store[i]);
    if Covered(groups, key) {
      var g :| g in groups && g.key == key;
      k := KeeperOf(store, g);
      NewestKeepsItsName(store, groups, faults, g, k);
    } else {
      k := i;
      forall j | Member(store, key, j) ensures j == i {
        assert Covered(groups, RawKey(store[if i < j then i else j])) || i == j;
      }
    }
  }

  lemma RunChangesOnlyOutdone(store: Store, groups: seq<Group>, faults: seq<Fault>, i: nat)
    requires UniqueIds(store) && IsGrouping(store, groups) && |faults| == |groups|
    requires i < |store| && !Kept(store, RunGroups(store, groups, faults), i)
    ensures Outdone(store, i)
  {
    RunChangesOnlyStaleNames(store, groups, faults);
    var g :| g in groups && Member(store, g.key, i) && !Keeps(g, EntryOf(store[i]));
    var k := KeeperOf(store, g);
    assert k != i;
  }

  /** Records of one key after a run had that key before, and are as they were. */
  lemma SharersAreKept(store: Store, groups: seq<Group>, faults: seq<Fault>, i: int, j: int)
    requires UniqueIds(store) && IsGrouping(store, groups) && |faults| == |groups| && i != j
    requires var after := RunGroups(store, groups, faults);
             0 <= i < |after| && after[i].isCode && Member(after, RawKey(after[i]), j)
    ensures Kept(store, RunGroups(store, groups, faults), i) && Kept(store, RunGroups(store, groups, faults), j)
  {
    RunChangesOnlyStaleNames(store, groups, faults);
    assert Collide(RunGroups(store, groups, faults), if i < j then i else j, if i < j then j else i);
  }

  lemma CleanRunLeavesOne(store: Store, groups: seq<Group>, faults: seq<Fault>, j: int, k: int)
    requires UniqueIds(store) && IsGrouping(store, groups) && |faults| == |groups| && NoFault(faults)
    requires var after := RunGroups(store, groups, faults);
             0 <= k < |after| && after[k].isCode && Member(after, RawKey(after[k]), j)
    ensures j == k
  {
    if j != k {
      var lo, hi := if j < k then j else k, if j < k then k else j;
      assert Collide(RunGroups(store, groups, faults), lo, hi);
      CleanRunSeparatesKeys(store, groups, faults, lo, hi);
    }
  }

  /** A run cut short anywhere and then repeated without errors leaves each key, as an error-free run does, on exactly one
      record: one of its newest, which neither run touched. */
  lemma RerunKeepsNewest(store: Store, groups: seq<Group>, faults: seq<Fault>, again: seq<Group>, clean: seq<Fault>, i: nat)
    returns (k: nat)
    requires UniqueIds(store) && IsGrouping(store, groups) && |faults| == |groups|
    requires IsGrouping(RunGroups(store, groups, faults), again) && |clean| == |again| && NoFault(clean)
    requires i < |store| && store[i].isCode
    ensures var final := RunGroups(RunGroups(store, groups, faults), again, clean);
            && IsNewest(store, k, i) && Kept(store, final, k)
            && forall j :: Member(final, RawKey(store[i]), j) ==> j == k
  {
    var mid := RunGroups(store, groups, faults);
    var final := RunGroups(mid, again, clean);
    RunChangesOnlyStaleNames(store, groups, faults);
    RunChangesOnlyStaleNames(mid, again, clean);
    var first := RunKeepsNewest(store, groups, faults, i);
    k := RunKeepsNewest(mid, again, clean, first);
    if k != first {
      SharersAreKept(store, groups, faults, first, k);
    }
    forall j | Member(final, RawKey(store[i]), j) ensures j == k {
      CleanRunLeavesOne(mid, again, clean, j, k);
    }
  }

  /** The two runs together change only names, and only of files with another file of their key at least as new; a file
      newer than all others of its key keeps its name. */
  lemma RerunChangesOnlyOutdone(store: Store, groups: seq<Group>, faults: seq<Fault>, again: seq<Group>, more: seq<Fault>)
    requires UniqueIds(store) && IsGrouping(store, groups) && |faults| == |groups|
    requires IsGrouping(RunGroups(store, groups, faults), again) && |more| == |again|
    ensures var final := RunGroups(RunGroups(store, groups, faults), again, more);
            && SameButNames(store, final)
            && forall i :: 0 <= i < |store| && final[i] != store[i] ==> Outdone(store, i)
  {
    var mid := RunGroups(store, groups, faults);
    var final := RunGroups(mid, again, more);
    RunChangesOnlyStaleNames(store, groups, faults);
    RunChangesOnlyStaleNames(mid, again, more);
    forall i | 0 <= i < |store| && final[i] != store[i] ensures Outdone(store, i) {
      if mid[i] != store[i] {
        RunChangesOnlyOutdone(store, groups, faults, i);
      } else {
        RunChangesOnlyOutdone(mid, again, more, i);
        var j :| j != i && Member(mid, RawKey(mid[i]), j) && Created(mid[i].createdAt) <= Created(mid[j].createdAt);
        SharersAreKept(store, groups, faults, i, j);
        assert Member(store, RawKey(store[i]), j);
      }
    }
  }

  // ---------------------------------------------------------------- the script

  function Renamed(groups: seq<Group>, faults: seq<Fault>): nat
    requires |faults| == |groups|
  {
    if groups == [] then 0
    else (if faults[0].None? then |Stale(groups[0])| else 0) + Renamed(groups[1..], faults[1..])
  }

  function Errors(faults: seq<Fault>): nat {
    if faults == [] then 0 else (if faults[0].None? then 0 else 1) + Errors(faults[1..])
  }

  ghost function Changed(before: Store, after: Store): set<nat>
    requires |before| == |after|
  {
    set i: nat | i < |before| && after[i] != before[i]
  }

  function Ids(files: seq<FileEntry>): set<nat> {
    set e | e in files :: e.id
  }

  lemma {:induction false} DistinctIdsCount(files: seq<FileEntry>)
    requires DistinctEntries(files)
    ensures |Ids(files)| == |files|
  {
    if files != [] {
      DistinctIdsCount(files[1..]);
      assert files == [files[0]] + files[1..];
      assert Ids(files) == Ids(files[1..]) + {files[0].id};
    }
  }

  function IdsAt(store: Store, indices: set<nat>): set<nat> {
    set i | i in indices && i < |store| :: store[i].id
  }

  lemma {:induction false} RecordsCount(store: Store, indices: set<nat>)
    requires UniqueIds(store) && forall i :: i in indices ==> i < |store|
    ensures |IdsAt(store, indices)| == |indices|
    decreases |indices|
  {
    if indices != {} {
      var k :| k in indices;
      var rest := indices - {k};
      RecordsCount(store, rest);
      assert IdsAt(store, indices) == IdsAt(store, rest) + {store[k].id};
    }
  }

  lemma ChangedAreStale(store: Store, after: Store, g: Group)
    requires IsGroup(store, g) && TurnOk(store, after, g, true)
    ensures forall i: nat :: i in Changed(store, after) <==> Member(store, g.key, i) && EntryOf(store[i]) in Stale(g)
  {
    StaleEntries(g);
  }

  lemma StaleAreMembers(store: Store, g: Group, e: FileEntry) returns (i: nat)
    requires IsGroup(store, g) && e in Stale(g)
    ensures Member(store, g.key, i) && EntryOf(store[i]) == e
  {
    StaleEntries(g);
    i :| Member(store, g.key, i) && EntryOf(store[i]) == e;
  }

  lemma ChangedIds(store: Store, after: Store, g: Group)
    requires IsGroup(store, g) && TurnOk(store, after, g, true)
    ensures IdsAt(store, Changed(store, after)) == Ids(Stale(g))
  {
    var changed := Changed(store, after);
    ChangedAreStale(store, after, g);
    forall e | e in Stale(g) ensures e.id in IdsAt(store, changed) {
      var i := StaleAreMembers(store, g, e);
      assert i in changed;
    }
    forall i | i in changed ensures store[i].id in Ids(Stale(g)) {
      assert EntryOf(store[i]) in Stale(g);
    }
  }

  /** An undisturbed turn changes as many records as the group has stale files. */
  lemma TurnChangesAllStale(store: Store, after: Store, g: Group)
    requires UniqueIds(store) && IsGroup(store, g) && TurnOk(store, after, g, true)
    ensures |Changed(store, after)| == |Stale(g)|
  {
    StaleEntries(g);
    ChangedIds(store, after, g);
    DistinctIdsCount(Stale(g));
    RecordsCount(store, Changed(store, after));
  }

  /** The reported number of renamed files is the number of records an error-free live run changes. */
  lemma {:induction false} RenamedIsWhatChanged(store: Store, groups: seq<Group>, faults: seq<Fault>)
    requires Pending(store, groups) && |faults| == |groups| && NoFault(faults)
    ensures |RunGroups(store, groups, faults)| == |store|
    ensures Renamed(groups, faults) == |Changed(store, RunGroups(store, groups, faults))|
    decreases groups
  {
    var after := RunGroups(store, groups, faults);
    if groups == [] {
      assert Changed(store, after) == {};
    } else {
      var g := groups[0];
      var mid := Process(store, g, faults[0]);
      assert g in groups && faults[0] in faults;
      TurnLeavesPending(store, groups, faults[0]);
      TurnChangesAllStale(store, mid, g);
      RenamedIsWhatChanged(mid, groups[1..], faults[1..]);
      RunChangesOnlyStaleNames(mid, groups[1..], faults[1..]);
      forall i | i in Changed(mid, after) ensures i !in Changed(store, mid) {
        var h :| h in groups[1..] && Member(mid, h.key, i) && !Keeps(h, EntryOf(mid[i]));
        assert h in groups;
        TurnKeepsOtherGroups(store, mid, g, true, h);
      }
      assert Changed(store, after) == Changed(store, mid) + Changed(mid, after);
    }
  }

  lemma {:induction false} NoErrorsNoFault(faults: seq<Fault>)
    ensures Errors(faults) == 0 <==> NoFault(faults)
  {
    if faults != [] {
      NoErrorsNoFault(faults[1..]);
      assert faults == [faults[0]] + faults[1..];
    }
  }

  lemma RunStep(store: Store, groups: seq<Group>, faults: seq<Fault>, i: nat)
    requires i < |groups| == |faults|
    ensures RunGroups(store, groups[i..], faults[i..])
            == RunGroups(Process(store, groups[i], faults[i]), groups[i + 1..], faults[i + 1..])
    ensures Renamed(groups[i..], faults[i..])
            == (if faults[i].None? then |Stale(groups[i])| else 0) + Renamed(groups[i + 1..], faults[i + 1..])
    ensures Errors(faults[i..]) == (if faults[i].None? then 0 else 1) + Errors(faults[i + 1..])
  {
    assert groups[i..][1..] == groups[i + 1..] && faults[i..][1..] == faults[i + 1..];
  }

  /** One more group adds one to the errors if it is cut short, and otherwise one to the renamed files for each of its
      files but the one that keeps the name. */
  lemma {:induction false} CountersAdd(groups: seq<Group>, faults: seq<Fault>, g: Group, fault: Fault)
    requires |faults| == |groups| && g.files != []
    ensures Errors([]) == 0 && Renamed([], []) == 0
    ensures Errors(faults + [fault]) == Errors(faults) + if fault.Some? then 1 else 0
    ensures Renamed(groups + [g], faults + [fault]) == Renamed(groups, faults) + if fault.Some? then 0 else |g.files| - 1
    decreases groups
  {
    var gs, fs := groups + [g], faults + [fault];
    if groups == [] {
      assert gs[1..] == [] && fs[1..] == [] && gs[0] == g && fs[0] == fault;
      StaleCount(g);
    } else {
      assert gs[1..] == groups[1..] + [g] && fs[1..] == faults[1..] + [fault];
      CountersAdd(groups[1..], faults[1..], g, fault);
    }
  }

  lemma StaleCount(g: Group)
    requires g.files != []
    ensures |Stale(g)| == |g.files| - 1
  {
    NewestFirstSorts(g.files);
    assert |multiset(NewestFirst(g.files))| == |NewestFirst(g.files)| && |multiset(g.files)| == |g.files|;
  }

  /** The migration script: its database and its result counters. */
  class Migration {
    var store: Store
    var duplicateGroups: nat
    var filesRenamed: nat
    var errors: nat
    var indexBuilt: bool

    constructor (store: Store)
      ensures this.store == store
    {
      this.store := store;
      duplicateGroups, filesRenamed, errors, indexBuilt := 0, 0, 0, false;
    }

    /** The rename loop of one group, stopping at the write that throws. */
    method WriteRenames(renames: seq<Rename>, fault: Fault)
      modifies `store
      ensures store == RenameAll(old(store), Written(renames, fault))
    {
      var rs := Written(renames, fault);
      var k := 0;
      assert rs[0..] == rs;
      while k < |rs|
        invariant 0 <= k <= |rs|
        invariant RenameAll(store, rs[k..]) == RenameAll(old(store), rs)
      {
        assert rs[k..][1..] == rs[k + 1..];
        store := UpdateOne(store, rs[k]);
        k := k + 1;
      }
      assert rs[k..] == [];
    }

    /** One group's turn. */
    method ProcessGroup(dryRun: bool, g: Group, fault: Fault)
      modifies `store, `filesRenamed, `errors
      ensures store == if dryRun then old(store) else Process(old(store), g, fault)
      ensures filesRenamed == old(filesRenamed) + if fault.None? then |Stale(g)| else 0
      ensures errors == old(errors) + if fault.None? then 0 else 1
    {
      var renames := Planned(store, g);
      if !dryRun {
        WriteRenames(renames, fault);
      }
      if fault.None? {
        filesRenamed := filesRenamed + |renames|;
      } else {
        errors := errors + 1;
      }
    }

    /** The loop over the groups. */
    method ProcessGroups(dryRun: bool, groups: seq<Group>, faults: seq<Fault>)
      requires |faults| == |groups|
      modifies this
      ensures store == if dryRun then old(store) else RunGroups(old(store), groups, faults)
      ensures duplicateGroups == |groups| && filesRenamed == Renamed(groups, faults)
      ensures errors == Errors(faults) && !indexBuilt
    {
      duplicateGroups := |groups|;
      filesRenamed, errors, indexBuilt := 0, 0, false;
      var i := 0;
      assert groups[0..] == groups && faults[0..] == faults;
      while i < |groups|
        invariant 0 <= i <= |groups|
        invariant dryRun ==> store == old(store)
        invariant !dryRun ==> RunGroups(store, groups[i..], faults[i..]) == RunGroups(old(store), groups, faults)
        invariant filesRenamed + Renamed(groups[i..], faults[i..]) == Renamed(groups, faults)
        invariant errors + Errors(faults[i..]) == Errors(faults)
        invariant duplicateGroups == |groups| && !indexBuilt
      {
        RunStep(store, groups, faults, i);
        ProcessGroup(dryRun, groups[i], faults[i]);
        i := i + 1;
      }
      assert groups[i..] == [] && faults[i..] == [];
    }

    /** A whole run over the groups the aggregation returned; `indexFault` says that building the index fails for a reason
        of its own.  The index is reported built exactly for a live run without errors on a store without split keys. */
    method Run(dryRun: bool, groups: seq<Group>, faults: seq<Fault>, indexFault: bool)
      requires UniqueIds(store) && IsGrouping(store, groups) && |faults| == |groups|
      modifies this
      ensures store == if dryRun then old(store) else RunGroups(old(store), groups, faults)
      ensures duplicateGroups == |groups| && filesRenamed == Renamed(groups, faults)
      ensures indexBuilt <==> !dryRun && NoFault(faults) && NoSplitKeys(old(store)) && !indexFault
      ensures errors == 0 <==> NoFault(faults) && (dryRun || (NoSplitKeys(old(store)) && !indexFault))
    {
      ProcessGroups(dryRun, groups, faults);
      NoErrorsNoFault(faults);
      if !dryRun && errors == 0 {
        IndexBuildsIffNoSplitKeys(old(store), groups, faults);
        if indexFault || Clashing(store) {
          errors := errors + 1;
        } else {
          indexBuilt := true;
        }
      }
    }
  }

  /** The database's own check when it builds the unique index. */
  predicate Clashing(store: Store)
    ensures Clashing(store) <==> !IndexBuilds(store)
  {
    exists i, j :: 0 <= i < j < |store| && store[i].isCode && store[j].isCode && IndexKey(store[i]) == IndexKey(store[j])
  }
}
