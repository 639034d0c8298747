/** The migration from a shared link's `isPublic` field to access-control entries: batched, unordered bulk upserts that
    may fail in part, and a destructive removal of the field at the end. */
module SharedLinkMigration {
  import opened Collections
  import opened Options

  // ---------------------------------------------------------------- the database

  /** The legacy field: missing, exactly false, or anything else (true, and null as well). */
  datatype Flag = Missing | IsFalse | Set

  datatype Link = Link(id: nat, user: Option<nat>, isPublic: Flag, tenantId: Option<nat>, expiredAt: Option<int>)

  datatype Principal = User(id: nat) | Public

  /** What the upsert's filter selects on; the resource type is always the shared link. */
  datatype EntryKey = EntryKey(link: nat, principal: Principal)

  datatype Role = Role(id: nat, permBits: nat)

  /** An access-control entry without its timestamp. */
  datatype Entry = Entry(role: Role, grantedBy: Option<nat>, expiredAt: Option<int>, tenantId: Option<nat>, isUserModel: bool)

  type Acl = map<EntryKey, Entry>

  datatype Roles = Roles(owner: Role, viewer: Role)

  datatype Db = Db(links: seq<Link>, acl: Acl)

  ghost predicate UniqueLinks(links: seq<Link>) {
    forall i, j :: 0 <= i < j < |links| ==> links[i].id != links[j].id
  }

  function Lookup(acl: Acl, key: EntryKey): Option<Entry> {
    if key in acl then Some(acl[key]) else None
  }

  // ---------------------------------------------------------------- upserts

  /** An upsert: the fields it sets (an absent one is left alone) and those it sets only on insertion. */
  datatype Op = Op(key: EntryKey, role: Role, grantedBy: Option<nat>, expiredAt: Option<int>, tenantId: Option<nat>)

  function Or<T>(a: Option<T>, b: Option<T>): Option<T> {
    if a.Some? then a else b
  }

  function Upsert(entry: Option<Entry>, op: Op): Entry {
    match entry
    case None => Entry(op.role, op.grantedBy, op.expiredAt, op.tenantId, op.key.principal.User?)
    case Some(e) => e.(role := op.role, grantedBy := Or(op.grantedBy, e.grantedBy), expiredAt := Or(op.expiredAt, e.expiredAt))
  }

  function ApplyOp(acl: Acl, op: Op): Acl {
    acl[op.key := Upsert(Lookup(acl, op.key), op)]
  }

  function OwnerOps(link: Link, roles: Roles): seq<Op> {
    if link.user.None? then []
    else [Op(EntryKey(link.id, User(link.user.value)), roles.owner, link.user, link.expiredAt, link.tenantId)]
  }

  function PublicOps(link: Link, roles: Roles): seq<Op> {
    if link.isPublic != Set then []
    else [Op(EntryKey(link.id, Public), roles.viewer, link.user, link.expiredAt, link.tenantId)]
  }

  function OpsOf(link: Link, roles: Roles): seq<Op> {
    OwnerOps(link, roles) + PublicOps(link, roles)
  }

  function BulkOps(links: seq<Link>, roles: Roles): seq<Op> {
    if links == [] then [] else BulkOps(links[..|links| - 1], roles) + OpsOf(links[|links| - 1], roles)
  }

  /** How an unordered bulk write goes: all applied, or an error after the operations in `applied` took effect.  The
      error may carry a list of write errors by index; nothing is promised of that list. */
  datatype Outcome = Success | Failed(applied: set<nat>, reported: Option<seq<nat>>)

  predicate Applied(outcome: Outcome, i: nat) {
    outcome.Success? || i in outcome.applied
  }

  function BulkWrite(acl: Acl, ops: seq<Op>, outcome: Outcome): Acl {
    if ops == [] then acl
    else
      var n := |ops| - 1;
      var before := BulkWrite(acl, ops[..n], outcome);
      if Applied(outcome, n) then ApplyOp(before, ops[n]) else before
  }

  // ---------------------------------------------------------------- a batch

  function LinkIds(links: seq<Link>): set<nat> {
    set l | l in links :: l.id
  }

  /** The links a batch marks as failed: those the error's list leads to, or all when there is no list. */
  function FailedIn(links: seq<Link>, ops: seq<Op>, outcome: Outcome): set<nat> {
    if ops == [] || outcome.Success? then {}
    else if outcome.reported.Some? then set i | i in outcome.reported.value && i < |ops| :: ops[i].key.link
    else LinkIds(links)
  }

  /** The errors a batch counts. */
  function ErrorsIn(links: seq<Link>, ops: seq<Op>, outcome: Outcome): nat {
    if ops == [] || outcome.Success? then 0
    else if outcome.reported.Some? then |outcome.reported.value|
    else |links|
  }

  function BatchAcl(acl: Acl, links: seq<Link>, roles: Roles, outcome: Outcome): Acl {
    BulkWrite(acl, BulkOps(links, roles), outcome)
  }

  function BatchFailed(links: seq<Link>, roles: Roles, outcome: Outcome): set<nat> {
    FailedIn(links, BulkOps(links, roles), outcome)
  }

  /** The keys a batch writes. */
  ghost function BatchWritten(links: seq<Link>, roles: Roles, outcome: Outcome): set<EntryKey> {
    var ops := BulkOps(links, roles);
    set i: nat | i < |ops| && Applied(outcome, i) :: ops[i].key
  }

  /** The keys of the grants derived from some links. */
  ghost function GrantKeys(links: seq<Link>, roles: Roles): set<EntryKey> {
    set l, op | l in links && op in OpsOf(l, roles) :: op.key
  }

  /** What processing some links does to the entries: each written key gets its upsert, and nothing else changes. */
  ghost predicate Processed(before: Acl, after: Acl, links: seq<Link>, roles: Roles, written: set<EntryKey>) {
    && written <= GrantKeys(links, roles)
    && (forall l, op :: l in links && op in OpsOf(l, roles) && op.key in written ==>
          Lookup(after, op.key) == Some(Upsert(Lookup(before, op.key), op)))
    && (forall key :: key !in written ==> Lookup(after, key) == Lookup(before, key))
  }

  ghost predicate DistinctKeys(ops: seq<Op>) {
    forall i, j :: 0 <= i < j < |ops| ==> ops[i].key != ops[j].key
  }

  lemma {:induction false} BulkWriteEffect(acl: Acl, ops: seq<Op>, outcome: Outcome)
    requires DistinctKeys(ops)
    ensures forall i: nat :: i < |ops| ==>
              Lookup(BulkWrite(acl, ops, outcome), ops[i].key) ==
              if Applied(outcome, i) then Some(Upsert(Lookup(acl, ops[i].key), ops[i])) else Lookup(acl, ops[i].key)
    ensures forall key :: (forall i :: 0 <= i < |ops| ==> ops[i].key != key) ==>
              Lookup(BulkWrite(acl, ops, outcome), key) == Lookup(acl, key)
  {
    if ops != [] {
      var n := |ops| - 1;
      BulkWriteEffect(acl, ops[..n], outcome);
    }
  }

  lemma {:induction false} BulkOpsMembers(links: seq<Link>, roles: Roles)
    ensures forall op :: op in BulkOps(links, roles) <==> exists l :: l in links && op in OpsOf(l, roles)
  {
    if links != [] {
      var n := |links| - 1;
      BulkOpsMembers(links[..n], roles);
      assert links == links[..n] + [links[n]];
    }
  }

  /** A batch has nothing to write exactly when none of its links has a user or is marked public. */
  lemma NoOpsIff(links: seq<Link>, roles: Roles)
    ensures BulkOps(links, roles) == [] <==> forall l :: l in links ==> l.user.None? && l.isPublic != Set
  {
    BulkOpsMembers(links, roles);
    if BulkOps(links, roles) != [] {
      assert BulkOps(links, roles)[0] in BulkOps(links, roles);
    }
    forall l | l in links && (l.user.Some? || l.isPublic == Set) ensures BulkOps(links, roles) != [] {
      assert OpsOf(l, roles)[0] in OpsOf(l, roles);
      assert OpsOf(l, roles)[0] in BulkOps(links, roles);
    }
  }

  lemma OpsNameTheirLink(l: Link, roles: Roles)
    ensures DistinctKeys(OpsOf(l, roles))
    ensures forall op :: op in OpsOf(l, roles) ==> op.key.link == l.id
  {
  }

  lemma {:induction false} BulkOpsAreDistinct(links: seq<Link>, roles: Roles)
    requires UniqueLinks(links)
    ensures DistinctKeys(BulkOps(links, roles))
    ensures forall op :: op in BulkOps(links, roles) ==> op.key.link in LinkIds(links)
  {
    if links != [] {
      var n := |links| - 1;
      var before, last := BulkOps(links[..n], roles), OpsOf(links[n], roles);
      BulkOpsAreDistinct(links[..n], roles);
      OpsNameTheirLink(links[n], roles);
      assert links[n].id !in LinkIds(links[..n]);
      var all: seq<Op> := before + last;
      forall i, j | 0 <= i < j < |all| ensures all[i].key != all[j].key {
        if i < |before| <= j {
          assert before[i] in before && last[j - |before|] in last;
        }
      }
    }
  }

  lemma OpIndex(links: seq<Link>, roles: Roles, l: Link, op: Op) returns (i: nat)
    requires l in links && op in OpsOf(l, roles)
    ensures i < |BulkOps(links, roles)| && BulkOps(links, roles)[i] == op
  {
    BulkOpsMembers(links, roles);
    assert op in BulkOps(links, roles);
    i :| i < |BulkOps(links, roles)| && BulkOps(links, roles)[i] == op;
  }

  /** A batch writes the keys of the operations applied, and only those. */
  lemma BatchIsProcessed(acl: Acl, links: seq<Link>, roles: Roles, outcome: Outcome)
    requires UniqueLinks(links)
    ensures Processed(acl, BatchAcl(acl, links, roles, outcome), links, roles, BatchWritten(links, roles, outcome))
  {
    var ops := BulkOps(links, roles);
    var after, written := BatchAcl(acl, links, roles, outcome), BatchWritten(links, roles, outcome);
    BulkOpsMembers(links, roles);
    BulkOpsAreDistinct(links, roles);
    BulkWriteEffect(acl, ops, outcome);
    forall key | key in written ensures key in GrantKeys(links, roles) {
      var i: nat :| i < |ops| && ops[i].key == key;
      assert ops[i] in ops;
    }
    forall l, op | l in links && op in OpsOf(l, roles) && op.key in written
      ensures Lookup(after, op.key) == Some(Upsert(Lookup(acl, op.key), op))
    {
      var i := OpIndex(links, roles, l, op);
      var j: nat :| j < |ops| && Applied(outcome, j) && ops[j].key == op.key;
      assert i == j;
    }
    forall key | key !in written ensures Lookup(after, key) == Lookup(acl, key) {
      if i: nat :| i < |ops| && ops[i].key == key {
        assert !Applied(outcome, i);
      }
    }
  }

  /** Some operation of the link is not applied. */
  ghost predicate Unapplied(ops: seq<Op>, outcome: Outcome, id: nat) {
    exists i: nat :: i < |ops| && ops[i].key.link == id && !Applied(outcome, i)
  }

  /** The error carries a list, and none of the link's operations is in it. */
  ghost predicate Unreported(ops: seq<Op>, outcome: Outcome, id: nat) {
    && outcome.Failed? && outcome.reported.Some?
    && forall i: nat :: i < |ops| && ops[i].key.link == id ==> i !in outcome.reported.value
  }

  /** A batch drops a link silently: an operation of its is neither applied nor, like any other of the link, reported. */
  ghost predicate DropsSilently(links: seq<Link>, roles: Roles, outcome: Outcome, id: nat) {
    Unapplied(BulkOps(links, roles), outcome, id) && Unreported(BulkOps(links, roles), outcome, id)
  }

  /** A link of the batch has a grant that was not written. */
  ghost predicate LacksGrant(l: Link, roles: Roles, written: set<EntryKey>) {
    exists op :: op in OpsOf(l, roles) && op.key !in written
  }

  lemma LackingIsUnapplied(links: seq<Link>, roles: Roles, outcome: Outcome, l: Link, op: Op) returns (i: nat)
    requires l in links && op in OpsOf(l, roles) && op.key !in BatchWritten(links, roles, outcome)
    ensures i < |BulkOps(links, roles)| && BulkOps(links, roles)[i].key.link == l.id && !Applied(outcome, i)
  {
    OpsNameTheirLink(l, roles);
    i := OpIndex(links, roles, l, op);
  }

  lemma UnappliedIsLacking(links: seq<Link>, roles: Roles, outcome: Outcome, l: Link, i: nat)
    requires UniqueLinks(links) && l in links
    requires i < |BulkOps(links, roles)| && BulkOps(links, roles)[i].key.link == l.id && !Applied(outcome, i)
    ensures BulkOps(links, roles)[i] in OpsOf(l, roles)
    ensures BulkOps(links, roles)[i].key !in BatchWritten(links, roles, outcome)
  {
    BulkOpsAreDistinct(links, roles);
    OpOfLink(links, roles, l, i);
  }

  lemma LacksIffUnapplied(links: seq<Link>, roles: Roles, outcome: Outcome, l: Link)
    requires UniqueLinks(links) && l in links
    ensures LacksGrant(l, roles, BatchWritten(links, roles, outcome)) <==> Unapplied(BulkOps(links, roles), outcome, l.id)
  {
    var ops, written := BulkOps(links, roles), BatchWritten(links, roles, outcome);
    if LacksGrant(l, roles, written) {
      var op :| op in OpsOf(l, roles) && op.key !in written;
      var i := LackingIsUnapplied(links, roles, outcome, l, op);
    }
    if Unapplied(ops, outcome, l.id) {
      var i: nat :| i < |ops| && ops[i].key.link == l.id && !Applied(outcome, i);
      UnappliedIsLacking(links, roles, outcome, l, i);
    }
  }

  /** A link lacks a grant without being marked exactly when its batch drops it silently. */
  lemma UnmarkedIffDropped(links: seq<Link>, roles: Roles, outcome: Outcome, l: Link)
    requires UniqueLinks(links) && l in links
    ensures LacksGrant(l, roles, BatchWritten(links, roles, outcome)) && l.id !in BatchFailed(links, roles, outcome)
            <==> DropsSilently(links, roles, outcome, l.id)
  {
    LacksIffUnapplied(links, roles, outcome, l);
    assert l.id in LinkIds(links);
  }

  lemma OpOfLink(links: seq<Link>, roles: Roles, l: Link, i: nat)
    requires UniqueLinks(links) && l in links
    requires i < |BulkOps(links, roles)| && BulkOps(links, roles)[i].key.link == l.id
    ensures BulkOps(links, roles)[i] in OpsOf(l, roles)
  {
    var op := BulkOps(links, roles)[i];
    BulkOpsMembers(links, roles);
    assert op in BulkOps(links, roles);
    var m :| m in links && op in OpsOf(m, roles);
    OpsNameTheirLink(m, roles);
    var x :| 0 <= x < |links| && links[x] == l;
    var y :| 0 <= y < |links| && links[y] == m;
    assert x == y;
  }

  // ---------------------------------------------------------------- the run

  /** The batches: documents pile up on `batch`, which is cut off as soon as it reaches the size; what is left at the
      end is a batch too. */
  function Chunks(batch: seq<Link>, docs: seq<Link>, size: int): seq<seq<Link>>
    decreases docs
  {
    if docs == [] then (if batch == [] then [] else [batch])
    else
      var grown := batch + [docs[0]];
      if |grown| >= size then [grown] + Chunks([], docs[1..], size) else Chunks(grown, docs[1..], size)
  }

  lemma ChunksStep(batch: seq<Link>, docs: seq<Link>, i: nat, size: int)
    requires i < |docs|
    ensures var grown := batch + [docs[i]];
            Chunks(batch, docs[i..], size) ==
            if |grown| >= size then [grown] + Chunks([], docs[i + 1..], size) else Chunks(grown, docs[i + 1..], size)
  {
  }

  function Flatten(chunks: seq<seq<Link>>): seq<Link> {
    if chunks == [] then [] else chunks[0] + Flatten(chunks[1..])
  }

  /** Every document is in exactly one batch, in cursor order, whatever the size. */
  lemma {:induction false} ChunksCoverOnce(batch: seq<Link>, docs: seq<Link>, size: int)
    ensures Flatten(Chunks(batch, docs, size)) == batch + docs
    decreases docs
  {
    if docs == [] {
      assert [batch][1..] == [];
    } else {
      var grown := batch + [docs[0]];
      assert batch + docs == grown + docs[1..];
      if |grown| >= size {
        ChunksCoverOnce([], docs[1..], size);
        assert ([grown] + Chunks([], docs[1..], size))[1..] == Chunks([], docs[1..], size);
      } else {
        ChunksCoverOnce(grown, docs[1..], size);
      }
    }
  }

  /** The entries, the failed links and the errors counted so far. */
  datatype Progress = Progress(acl: Acl, failed: set<nat>, errors: nat)

  function AfterBatch(p: Progress, links: seq<Link>, roles: Roles, outcome: Outcome): Progress {
    Progress(BatchAcl(p.acl, links, roles, outcome),
             p.failed + BatchFailed(links, roles, outcome),
             p.errors + ErrorsIn(links, BulkOps(links, roles), outcome))
  }

  /** Processing the batches, the k-th of which goes as `outcomes(k)` says. */
  function RunBatches(p: Progress, chunks: seq<seq<Link>>, k: nat, roles: Roles, outcomes: nat -> Outcome): Progress
    decreases chunks
  {
    if chunks == [] then p
    else RunBatches(AfterBatch(p, chunks[0], roles, outcomes(k)), chunks[1..], k + 1, roles, outcomes)
  }

  /** The keys the batches write, and the links they mark as failed. */
  ghost function RunWritten(chunks: seq<seq<Link>>, k: nat, roles: Roles, outcomes: nat -> Outcome): set<EntryKey>
    decreases chunks
  {
    if chunks == [] then {}
    else BatchWritten(chunks[0], roles, outcomes(k)) + RunWritten(chunks[1..], k + 1, roles, outcomes)
  }

  ghost function RunFailed(chunks: seq<seq<Link>>, k: nat, roles: Roles, outcomes: nat -> Outcome): set<nat>
    decreases chunks
  {
    if chunks == [] then {}
    else BatchFailed(chunks[0], roles, outcomes(k)) + RunFailed(chunks[1..], k + 1, roles, outcomes)
  }

  /** Some batch of the run drops the link silently. */
  ghost predicate RunDrops(chunks: seq<seq<Link>>, k: nat, roles: Roles, outcomes: nat -> Outcome, id: nat) {
    exists j: nat :: j < |chunks| && DropsSilently(chunks[j], roles, outcomes(k + j), id)
  }

  function Unset(links: seq<Link>, failed: set<nat>): (r: seq<Link>)
    ensures |r| == |links|
    ensures forall i :: 0 <= i < |links| ==> r[i] == if links[i].id in failed then links[i] else links[i].(isPublic := Missing)
  {
    seq(|links|, i requires 0 <= i < |links| => if links[i].id in failed then links[i] else links[i].(isPublic := Missing))
  }

  predicate HasPrivate(links: seq<Link>) {
    exists l :: l in links && l.isPublic == IsFalse
  }

  /** How far a run gets: an exception or a kill stops it after so many batches, the last of which may be applied in part,
      before any field is removed; or it comes to the removal, which may in turn miss some links. */
  datatype End = StopsAfter(batches: nat) | Removes(missed: set<nat>)

  /** Everything about a run that the database and the options do not decide. */
  datatype Course = Course(size: int, outcomes: nat -> Outcome, end: End)

  function Batches(db: Db, size: int): seq<seq<Link>> {
    Chunks([], db.links, size)
  }

  /** The batches the run gets to. */
  function Take(chunks: seq<seq<Link>>, end: End): seq<seq<Link>> {
    if end.StopsAfter? && end.batches < |chunks| then chunks[..end.batches] else chunks
  }

  function Attempted(db: Db, course: Course): seq<seq<Link>> {
    Take(Batches(db, course.size), course.end)
  }

  /** A live run: it aborts on links marked private unless forced. */
  function Migrate(db: Db, roles: Roles, force: bool, course: Course): Db {
    if HasPrivate(db.links) && !force then db
    else
      var p := RunBatches(Progress(db.acl, {}, 0), Attempted(db, course), 1, roles, course.outcomes);
      Db(if course.end.StopsAfter? then db.links else Unset(db.links, p.failed + course.end.missed), p.acl)
  }

  lemma BatchesCover(db: Db, size: int)
    ensures Flatten(Batches(db, size)) == db.links
  {
    ChunksCoverOnce([], db.links, size);
    assert [] + db.links == db.links;
  }

  /** The keys a run writes. */
  ghost function Written(db: Db, roles: Roles, course: Course): set<EntryKey> {
    RunWritten(Attempted(db, course), 1, roles, course.outcomes)
  }

  /** The links a run does not remove the field from: all when it stops before, else those marked or missed. */
  ghost function Spared(db: Db, roles: Roles, course: Course): set<nat> {
    if course.end.StopsAfter? then LinkIds(db.links)
    else RunFailed(Batches(db, course.size), 1, roles, course.outcomes) + course.end.missed
  }

  /** The removal comes to the link although its batch dropped it silently. */
  ghost predicate Dropped(db: Db, roles: Roles, course: Course, id: nat) {
    course.end.Removes? && id !in course.end.missed && RunDrops(Batches(db, course.size), 1, roles, course.outcomes, id)
  }

  lemma GrantKeysUnion(first: seq<Link>, second: seq<Link>, roles: Roles)
    ensures GrantKeys(first + second, roles) == GrantKeys(first, roles) + GrantKeys(second, roles)
  {
  }

  lemma OtherLinksLeaveKey(mine: seq<Link>, others: seq<Link>, l: Link, op: Op, roles: Roles)
    requires UniqueLinks(mine + others) || UniqueLinks(others + mine)
    requires l in mine && op in OpsOf(l, roles)
    ensures op.key !in GrantKeys(others, roles)
  {
    var i :| 0 <= i < |mine| && mine[i] == l;
    OpsNameTheirLink(l, roles);
    forall m, o | m in others && o in OpsOf(m, roles) ensures o.key != op.key {
      var j :| 0 <= j < |others| && others[j] == m;
      OpsNameTheirLink(m, roles);
      assert (mine + others)[i] == l && (mine + others)[|mine| + j] == m;
      assert (others + mine)[|others| + i] == l && (others + mine)[j] == m;
    }
  }

  lemma ProcessedCompose(a: Acl, b: Acl, c: Acl, first: seq<Link>, second: seq<Link>, roles: Roles,
                         w1: set<EntryKey>, w2: set<EntryKey>)
    requires UniqueLinks(first + second)
    requires Processed(a, b, first, roles, w1) && Processed(b, c, second, roles, w2)
    ensures Processed(a, c, first + second, roles, w1 + w2)
  {
    GrantKeysUnion(first, second, roles);
    forall l, op | l in first + second && op in OpsOf(l, roles) && op.key in w1 + w2
      ensures Lookup(c, op.key) == Some(Upsert(Lookup(a, op.key), op))
    {
      if l in first {
        OtherLinksLeaveKey(first, second, l, op, roles);
      } else {
        OtherLinksLeaveKey(second, first, l, op, roles);
      }
    }
  }

  lemma FirstIsUnique(first: seq<Link>, second: seq<Link>)
    requires UniqueLinks(first + second)
    ensures UniqueLinks(first) && UniqueLinks(second)
    ensures LinkIds(first) !! LinkIds(second)
  {
    forall i | 0 <= i < |first| ensures (first + second)[i] == first[i] {}
    forall i | 0 <= i < |second| ensures (first + second)[|first| + i] == second[i] {}
    forall x, y | x in first && y in second ensures x.id != y.id {
      var i :| 0 <= i < |first| && first[i] == x;
      var j :| 0 <= j < |second| && second[j] == y;
      assert (first + second)[i] == x && (first + second)[|first| + j] == y;
    }
  }

  /** However the batches go, the run as a whole has written exactly the keys its batches wrote. */
  lemma {:induction false} RunIsProcessed(p: Progress, chunks: seq<seq<Link>>, k: nat, roles: Roles, outcomes: nat -> Outcome)
    requires UniqueLinks(Flatten(chunks))
    ensures RunBatches(p, chunks, k, roles, outcomes).failed == p.failed + RunFailed(chunks, k, roles, outcomes)
    ensures Processed(p.acl, RunBatches(p, chunks, k, roles, outcomes).acl, Flatten(chunks), roles,
                      RunWritten(chunks, k, roles, outcomes))
    decreases chunks
  {
    if chunks != [] {
      var rest := Flatten(chunks[1..]);
      var next := AfterBatch(p, chunks[0], roles, outcomes(k));
      FirstIsUnique(chunks[0], rest);
      BatchIsProcessed(p.acl, chunks[0], roles, outcomes(k));
      RunIsProcessed(next, chunks[1..], k + 1, roles, outcomes);
      ProcessedCompose(p.acl, next.acl, RunBatches(p, chunks, k, roles, outcomes).acl, chunks[0], rest, roles,
                       BatchWritten(chunks[0], roles, outcomes(k)), RunWritten(chunks[1..], k + 1, roles, outcomes));
    }
  }

  lemma BatchFailsOwnLinks(links: seq<Link>, roles: Roles, outcome: Outcome)
    requires UniqueLinks(links)
    ensures BatchFailed(links, roles, outcome) <= LinkIds(links)
  {
    BulkOpsAreDistinct(links, roles);
  }

  lemma {:induction false} RunFailsOwnLinks(chunks: seq<seq<Link>>, k: nat, roles: Roles, outcomes: nat -> Outcome)
    requires UniqueLinks(Flatten(chunks))
    ensures RunFailed(chunks, k, roles, outcomes) <= LinkIds(Flatten(chunks))
    decreases chunks
  {
    if chunks != [] {
      var rest := Flatten(chunks[1..]);
      FirstIsUnique(chunks[0], rest);
      BatchFailsOwnLinks(chunks[0], roles, outcomes(k));
      RunFailsOwnLinks(chunks[1..], k + 1, roles, outcomes);
      assert LinkIds(chunks[0]) <= LinkIds(chunks[0] + rest) && LinkIds(rest) <= LinkIds(chunks[0] + rest);
    }
  }

  lemma DropsOwnLinks(links: seq<Link>, roles: Roles, outcome: Outcome, id: nat)
    requires UniqueLinks(links) && DropsSilently(links, roles, outcome, id)
    ensures id in LinkIds(links)
  {
    var ops := BulkOps(links, roles);
    BulkOpsAreDistinct(links, roles);
    var i: nat :| i < |ops| && ops[i].key.link == id && !Applied(outcome, i);
    assert ops[i] in ops;
  }

  lemma RunDropsLater(chunks: seq<seq<Link>>, k: nat, roles: Roles, outcomes: nat -> Outcome, id: nat)
    requires chunks != [] && RunDrops(chunks[1..], k + 1, roles, outcomes, id)
    ensures RunDrops(chunks, k, roles, outcomes, id)
  {
    var j: nat :| j < |chunks[1..]| && DropsSilently(chunks[1..][j], roles, outcomes(k + 1 + j), id);
    assert chunks[1..][j] == chunks[j + 1] && k + 1 + j == k + (j + 1);
  }

  lemma RunDropsStep(chunks: seq<seq<Link>>, k: nat, roles: Roles, outcomes: nat -> Outcome, id: nat)
    requires chunks != []
    ensures RunDrops(chunks, k, roles, outcomes, id) <==>
            DropsSilently(chunks[0], roles, outcomes(k), id) || RunDrops(chunks[1..], k + 1, roles, outcomes, id)
  {
    assert k + 0 == k;
    if RunDrops(chunks, k, roles, outcomes, id) {
      var j: nat :| j < |chunks| && DropsSilently(chunks[j], roles, outcomes(k + j), id);
      if j > 0 {
        assert chunks[1..][j - 1] == chunks[j] && k + 1 + (j - 1) == k + j;
      }
    }
    if RunDrops(chunks[1..], k + 1, roles, outcomes, id) {
      RunDropsLater(chunks, k, roles, outcomes, id);
    }
  }

  lemma {:induction false} RunDropsOwnLinks(chunks: seq<seq<Link>>, k: nat, roles: Roles, outcomes: nat -> Outcome, id: nat)
    requires UniqueLinks(Flatten(chunks)) && RunDrops(chunks, k, roles, outcomes, id)
    ensures id in LinkIds(Flatten(chunks))
    decreases chunks
  {
    var rest := Flatten(chunks[1..]);
    FirstIsUnique(chunks[0], rest);
    RunDropsStep(chunks, k, roles, outcomes, id);
    if DropsSilently(chunks[0], roles, outcomes(k), id) {
      DropsOwnLinks(chunks[0], roles, outcomes(k), id);
    } else {
      RunDropsOwnLinks(chunks[1..], k + 1, roles, outcomes, id);
    }
  }

  /** Over the whole run, too, a link lacks a grant without being marked exactly when its batch drops it silently. */
  lemma {:induction false} UnmarkedInRunIffDropped(chunks: seq<seq<Link>>, k: nat, roles: Roles, outcomes: nat -> Outcome, l: Link)
    requires UniqueLinks(Flatten(chunks)) && l in Flatten(chunks)
    ensures LacksGrant(l, roles, RunWritten(chunks, k, roles, outcomes)) && l.id !in RunFailed(chunks, k, roles, outcomes)
            <==> RunDrops(chunks, k, roles, outcomes, l.id)
    decreases chunks
  {
    var first, rest := chunks[0], Flatten(chunks[1..]);
    FirstIsUnique(first, rest);
    RunDropsStep(chunks, k, roles, outcomes, l.id);
    if l in first {
      UnmarkedInFirst(chunks, k, roles, outcomes, l);
    } else {
      UnmarkedInRunIffDropped(chunks[1..], k + 1, roles, outcomes, l);
      UnmarkedInRest(chunks, k, roles, outcomes, l);
    }
  }

  lemma UnmarkedInFirst(chunks: seq<seq<Link>>, k: nat, roles: Roles, outcomes: nat -> Outcome, l: Link)
    requires UniqueLinks(Flatten(chunks)) && chunks != [] && l in chunks[0]
    ensures LacksGrant(l, roles, RunWritten(chunks, k, roles, outcomes)) && l.id !in RunFailed(chunks, k, roles, outcomes)
            <==> DropsSilently(chunks[0], roles, outcomes(k), l.id)
    ensures !RunDrops(chunks[1..], k + 1, roles, outcomes, l.id)
  {
    var first, rest := chunks[0], Flatten(chunks[1..]);
    FirstIsUnique(first, rest);
    UnmarkedIffDropped(first, roles, outcomes(k), l);
    RunFailsOwnLinks(chunks[1..], k + 1, roles, outcomes);
    RunIsProcessed(Progress(map[], {}, 0), chunks[1..], k + 1, roles, outcomes);
    forall op | op in OpsOf(l, roles) ensures op.key !in RunWritten(chunks[1..], k + 1, roles, outcomes) {
      OtherLinksLeaveKey(first, rest, l, op, roles);
    }
    assert l.id in LinkIds(first);
    if RunDrops(chunks[1..], k + 1, roles, outcomes, l.id) {
      RunDropsOwnLinks(chunks[1..], k + 1, roles, outcomes, l.id);
    }
  }

  lemma UnmarkedInRest(chunks: seq<seq<Link>>, k: nat, roles: Roles, outcomes: nat -> Outcome, l: Link)
    requires UniqueLinks(Flatten(chunks)) && chunks != [] && l in Flatten(chunks[1..])
    ensures LacksGrant(l, roles, RunWritten(chunks, k, roles, outcomes))
            <==> LacksGrant(l, roles, RunWritten(chunks[1..], k + 1, roles, outcomes))
    ensures l.id in RunFailed(chunks, k, roles, outcomes) <==> l.id in RunFailed(chunks[1..], k + 1, roles, outcomes)
    ensures !DropsSilently(chunks[0], roles, outcomes(k), l.id)
  {
    var first, rest := chunks[0], Flatten(chunks[1..]);
    FirstIsUnique(first, rest);
    BatchIsProcessed(map[], first, roles, outcomes(k));
    BatchFailsOwnLinks(first, roles, outcomes(k));
    forall op | op in OpsOf(l, roles) ensures op.key !in BatchWritten(first, roles, outcomes(k)) {
      OtherLinksLeaveKey(rest, first, l, op, roles);
    }
    assert l.id in LinkIds(rest);
    if DropsSilently(first, roles, outcomes(k), l.id) {
      DropsOwnLinks(first, roles, outcomes(k), l.id);
    }
  }

  lemma {:induction false} FlattenSplits(chunks: seq<seq<Link>>, n: nat)
    requires n <= |chunks|
    ensures Flatten(chunks) == Flatten(chunks[..n]) + Flatten(chunks[n..])
    decreases chunks
  {
    if n == 0 {
      assert chunks[0..] == chunks;
    } else {
      FlattenSplits(chunks[1..], n - 1);
      assert chunks[..n][1..] == chunks[1..][..n - 1] && chunks[n..] == chunks[1..][n - 1..];
      Associate(chunks[0], Flatten(chunks[1..][..n - 1]), Flatten(chunks[n..]));
    }
  }

  /** The batches a run gets to are the first links of the database. */
  lemma AttemptedAreFirst(db: Db, course: Course) returns (rest: seq<Link>)
    ensures db.links == Flatten(Attempted(db, course)) + rest
  {
    BatchesCover(db, course.size);
    var chunks := Batches(db, course.size);
    var n := if course.end.StopsAfter? && course.end.batches < |chunks| then course.end.batches else |chunks|;
    FlattenSplits(chunks, n);
    assert chunks[..|chunks|] == chunks;
    rest := Flatten(chunks[n..]);
  }

  lemma ProcessedOfFirst(a: Acl, b: Acl, first: seq<Link>, rest: seq<Link>, roles: Roles, written: set<EntryKey>)
    requires UniqueLinks(first + rest) && Processed(a, b, first, roles, written)
    ensures Processed(a, b, first + rest, roles, written)
  {
    assert Processed(b, b, rest, roles, {});
    ProcessedCompose(a, b, b, first, rest, roles, written, {});
    assert written + {} == written;
  }

  lemma SparingAll(links: seq<Link>)
    ensures Unset(links, LinkIds(links)) == links
  {
    forall i | 0 <= i < |links| ensures links[i].id in LinkIds(links) {
      assert links[i] in links;
    }
  }

  /** What a live run that does not abort does to the database: it writes exactly the keys its batches applied, and
      removes the field exactly from the links not spared. */
  lemma MigrateEffect(db: Db, roles: Roles, force: bool, course: Course)
    requires UniqueLinks(db.links) && (HasPrivate(db.links) ==> force)
    ensures var after := Migrate(db, roles, force, course);
            && after.links == Unset(db.links, Spared(db, roles, course))
            && Processed(db.acl, after.acl, db.links, roles, Written(db, roles, course))
  {
    var first, start := Attempted(db, course), Progress(db.acl, {}, 0);
    var rest := AttemptedAreFirst(db, course);
    FirstIsUnique(Flatten(first), rest);
    RunIsProcessed(start, first, 1, roles, course.outcomes);
    var p := RunBatches(start, first, 1, roles, course.outcomes);
    ProcessedOfFirst(db.acl, p.acl, Flatten(first), rest, roles, Written(db, roles, course));
    SparingAll(db.links);
    assert {} + RunFailed(first, 1, roles, course.outcomes) == RunFailed(first, 1, roles, course.outcomes);
  }

  /** Without errors nothing is marked. */
  lemma {:induction false} MarkedMeansErrors(p: Progress, chunks: seq<seq<Link>>, k: nat, roles: Roles, outcomes: nat -> Outcome)
    requires p.errors == 0 ==> p.failed == {}
    ensures var after := RunBatches(p, chunks, k, roles, outcomes); after.errors == 0 ==> after.failed == {}
    ensures RunBatches(p, chunks, k, roles, outcomes).errors >= p.errors
    decreases chunks
  {
    if chunks != [] {
      MarkedMeansErrors(AfterBatch(p, chunks[0], roles, outcomes(k)), chunks[1..], k + 1, roles, outcomes);
    }
  }

  // ---------------------------------------------------------------- main results

  /** The entry a grant leaves behind: its role, the link's owner and expiry where the link has them, and the tenant and
      kind of principal set when the entry is new. */
  ghost predicate Granted(before: Acl, after: Acl, link: Link, principal: Principal, role: Role) {
    var key := EntryKey(link.id, principal);
    && key in after
    && after[key].role == role
    && (link.user.Some? ==> after[key].grantedBy == link.user)
    && (link.expiredAt.Some? ==> after[key].expiredAt == link.expiredAt)
    && (key in before ==>
          && (link.user.None? ==> after[key].grantedBy == before[key].grantedBy)
          && (link.expiredAt.None? ==> after[key].expiredAt == before[key].expiredAt)
          && after[key].tenantId == before[key].tenantId && after[key].isUserModel == before[key].isUserModel)
    && (key !in before ==>
          && after[key] == Entry(role, link.user, link.expiredAt, link.tenantId, principal.User?))
  }

  /** Every grant derived from a link is in place. */
  ghost predicate AllGranted(before: Acl, after: Acl, link: Link, roles: Roles) {
    && (link.user.Some? ==> Granted(before, after, link, User(link.user.value), roles.owner))
    && (link.isPublic == Set ==> Granted(before, after, link, Public, roles.viewer))
  }

  lemma WrittenIsGranted(before: Acl, after: Acl, links: seq<Link>, roles: Roles, written: set<EntryKey>, link: Link)
    requires Processed(before, after, links, roles, written)
    requires link in links && !LacksGrant(link, roles, written)
    ensures AllGranted(before, after, link, roles)
  {
    if link.user.Some? {
      assert OwnerOps(link, roles)[0] in OpsOf(link, roles);
    }
    if link.isPublic == Set {
      assert PublicOps(link, roles)[0] in OpsOf(link, roles);
    }
  }

  /** A link is not spared although it lacks a grant exactly when it is dropped silently.  In every other case a link that
      loses its field has every grant derived from it, and a public link keeps its field or gains its entry. */
  lemma NoPublicLinkIsLost(db: Db, roles: Roles, force: bool, course: Course, i: nat)
    requires UniqueLinks(db.links) && i < |db.links|
    ensures HasPrivate(db.links) && !force ==> Migrate(db, roles, force, course) == db
    ensures (HasPrivate(db.links) ==> force) ==>
              var after, link := Migrate(db, roles, force, course), db.links[i];
              && |after.links| == |db.links|
              && after.links[i] == (if link.id in Spared(db, roles, course) then link else link.(isPublic := Missing))
              && (link.id !in Spared(db, roles, course) && LacksGrant(link, roles, Written(db, roles, course))
                  <==> Dropped(db, roles, course, link.id))
              && (!Dropped(db, roles, course, link.id) ==> KeptOrGranted(db.acl, after, link, i, roles))
  {
    if HasPrivate(db.links) && !force {
      return;
    }
    MigrateEffect(db, roles, force, course);
    UnmarkedIffDroppedByRun(db, roles, course, i);
    if !LacksGrant(db.links[i], roles, Written(db, roles, course)) {
      WrittenIsGranted(db.acl, Migrate(db, roles, force, course).acl, db.links, roles,
                       Written(db, roles, course), db.links[i]);
    }
  }

  ghost predicate KeptOrGranted(before: Acl, after: Db, link: Link, i: nat, roles: Roles)
    requires i < |after.links|
  {
    && (after.links[i] == link || AllGranted(before, after.acl, link, roles))
    && (link.isPublic == Set ==> after.links[i].isPublic == Set || Granted(before, after.acl, link, Public, roles.viewer))
  }

  lemma UnmarkedIffDroppedByRun(db: Db, roles: Roles, course: Course, i: nat)
    requires UniqueLinks(db.links) && i < |db.links|
    ensures db.links[i].id !in Spared(db, roles, course)
              && LacksGrant(db.links[i], roles, Written(db, roles, course))
            <==> Dropped(db, roles, course, db.links[i].id)
  {
    BatchesCover(db, course.size);
    assert db.links[i].id in LinkIds(db.links);
    UnmarkedInRunIffDropped(Batches(db, course.size), 1, roles, course.outcomes, db.links[i]);
  }

  /** If the batch fails with a list of write errors, all its unapplied operations are in the list. */
  ghost predicate Complete(links: seq<Link>, roles: Roles, outcome: Outcome) {
    outcome.Failed? && outcome.reported.Some? ==>
      forall i: nat :: i < |BulkOps(links, roles)| && !Applied(outcome, i) ==> i in outcome.reported.value
  }

  ghost predicate ReportsAreComplete(db: Db, roles: Roles, course: Course) {
    var batches := Batches(db, course.size);
    forall j: nat :: j < |batches| ==> Complete(batches[j], roles, course.outcomes(1 + j))
  }

  lemma CompleteReportsDropNothing(db: Db, roles: Roles, course: Course, id: nat)
    requires ReportsAreComplete(db, roles, course)
    ensures !Dropped(db, roles, course, id)
  {
  }

  /** With complete reports the field goes from a link only once every grant derived from it is in place. */
  lemma CompleteReportsLoseNothing(db: Db, roles: Roles, force: bool, course: Course, i: nat)
    requires UniqueLinks(db.links) && i < |db.links| && ReportsAreComplete(db, roles, course)
    ensures var after, link := Migrate(db, roles, force, course), db.links[i];
            && |after.links| == |db.links|
            && KeptOrGranted(db.acl, after, link, i, roles)
  {
    NoPublicLinkIsLost(db, roles, force, course, i);
    CompleteReportsDropNothing(db, roles, course, db.links[i].id);
  }

  /** A public link is lost for good when an error with an empty list keeps its only operation from being applied: the
      field goes, and no entry is left behind. */
  lemma EmptyReportLosesALink(roles: Roles, force: bool, outcomes: nat -> Outcome)
    requires forall k: nat :: outcomes(k) == Failed({}, Some([]))
    ensures var link := Link(7, None, Set, None, None);
            Migrate(Db([link], map[]), roles, force, Course(100, outcomes, Removes({}))) == Db([link.(isPublic := Missing)], map[])
  {
    var link := Link(7, None, Set, None, None);
    var links, db := [link], Db([link], map[]);
    assert [] + [link] == links && links[1..] == [] && links[..0] == [];
    assert Chunks([], links, 100) == Chunks(links, [], 100) == [links];
    assert BulkOps(links, roles) == BulkOps([], roles) + OpsOf(link, roles) == PublicOps(link, roles);
    assert PublicOps(link, roles)[..0] == [] && !Applied(outcomes(1), 0);
    assert BulkWrite(map[], PublicOps(link, roles), outcomes(1)) == BulkWrite(map[], [], outcomes(1)) == map[];
    assert BatchAcl(map[], links, roles, outcomes(1)) == map[] && BatchFailed(links, roles, outcomes(1)) == {};
    var one: seq<seq<Link>> := [links];
    assert one[1..] == [];
    assert AfterBatch(Progress(map[], {}, 0), links, roles, outcomes(1)) == Progress(map[], {}, 0);
    assert RunBatches(Progress(map[], {}, 0), [links], 1, roles, outcomes) == Progress(map[], {}, 0);
    assert Unset(links, {}) == [link.(isPublic := Missing)];
  }

  lemma NoPublicGrantUnlessSet(links: seq<Link>, roles: Roles, i: nat)
    requires UniqueLinks(links) && i < |links| && links[i].isPublic != Set
    ensures EntryKey(links[i].id, Public) !in GrantKeys(links, roles)
  {
    forall l, op | l in links && op in OpsOf(l, roles) ensures op.key != EntryKey(links[i].id, Public) {
      OpsNameTheirLink(l, roles);
      var j :| 0 <= j < |links| && links[j] == l;
      if i == j {
        assert op in OwnerOps(l, roles);
      }
    }
  }

  /** A link that is not marked public never gains, loses or changes a public entry. */
  lemma PrivateLinksStayPrivate(db: Db, roles: Roles, force: bool, course: Course, i: nat)
    requires UniqueLinks(db.links) && i < |db.links| && db.links[i].isPublic != Set
    ensures Lookup(Migrate(db, roles, force, course).acl, EntryKey(db.links[i].id, Public))
            == Lookup(db.acl, EntryKey(db.links[i].id, Public))
  {
    if HasPrivate(db.links) && !force {
      return;
    }
    MigrateEffect(db, roles, force, course);
    NoPublicGrantUnlessSet(db.links, roles, i);
  }

  lemma ProcessedIsDetermined(a: Acl, b: Acl, c: Acl, links: seq<Link>, roles: Roles, written: set<EntryKey>)
    requires Processed(a, b, links, roles, written) && Processed(a, c, links, roles, written)
    ensures b == c
  {
    forall key ensures Lookup(b, key) == Lookup(c, key) {
      if key in written {
        var l, op :| l in links && op in OpsOf(l, roles) && op.key == key;
      }
    }
    SameLookups(b, c);
  }

  lemma SameLookups(b: Acl, c: Acl)
    requires forall key :: Lookup(b, key) == Lookup(c, key)
    ensures b == c
  {
    assert forall key :: key in b <==> Lookup(b, key).Some?;
    assert forall key :: key in c <==> Lookup(c, key).Some?;
    assert forall key :: key in b ==> b[key] == Lookup(b, key).value;
  }

  ghost predicate AllSucceed(outcomes: nat -> Outcome) {
    forall k: nat :: outcomes(k) == Success
  }

  /** A run without failures. */
  ghost predicate Clean(course: Course) {
    course.end == Removes({}) && AllSucceed(course.outcomes)
  }

  lemma {:induction false} SuccessWritesAll(chunks: seq<seq<Link>>, k: nat, roles: Roles, outcomes: nat -> Outcome)
    requires AllSucceed(outcomes)
    ensures RunWritten(chunks, k, roles, outcomes) == GrantKeys(Flatten(chunks), roles)
    ensures RunFailed(chunks, k, roles, outcomes) == {}
    decreases chunks
  {
    if chunks != [] {
      SuccessWritesAll(chunks[1..], k + 1, roles, outcomes);
      BatchWritesAll(chunks[0], roles);
      GrantKeysUnion(chunks[0], Flatten(chunks[1..]), roles);
    }
  }

  lemma BatchWritesAll(links: seq<Link>, roles: Roles)
    ensures BatchWritten(links, roles, Success) == GrantKeys(links, roles)
  {
    var ops := BulkOps(links, roles);
    BulkOpsMembers(links, roles);
    forall key | key in GrantKeys(links, roles) ensures key in BatchWritten(links, roles, Success) {
      var l, op :| l in links && op in OpsOf(l, roles) && op.key == key;
      var i := OpIndex(links, roles, l, op);
      assert Applied(Success, i);
    }
    forall key | key in BatchWritten(links, roles, Success) ensures key in GrantKeys(links, roles) {
      var i: nat :| i < |ops| && ops[i].key == key;
      assert ops[i] in ops;
    }
  }

  /** A run without failures writes every grant and removes the field from every link. */
  lemma CleanRun(db: Db, roles: Roles, force: bool, course: Course)
    requires UniqueLinks(db.links) && Clean(course) && (HasPrivate(db.links) ==> force)
    ensures var after := Migrate(db, roles, force, course);
            && after.links == Unset(db.links, {})
            && Processed(db.acl, after.acl, db.links, roles, GrantKeys(db.links, roles))
  {
    MigrateEffect(db, roles, force, course);
    BatchesCover(db, course.size);
    SuccessWritesAll(Batches(db, course.size), 1, roles, course.outcomes);
  }

  /** The result of a run without failures does not depend on the batch size. */
  lemma BatchSizeDoesNotMatter(db: Db, roles: Roles, force: bool, c1: Course, c2: Course)
    requires UniqueLinks(db.links) && Clean(c1) && Clean(c2)
    ensures Migrate(db, roles, force, c1) == Migrate(db, roles, force, c2)
  {
    if HasPrivate(db.links) && !force {
      return;
    }
    CleanRun(db, roles, force, c1);
    CleanRun(db, roles, force, c2);
    ProcessedIsDetermined(db.acl, Migrate(db, roles, force, c1).acl, Migrate(db, roles, force, c2).acl,
                          db.links, roles, GrantKeys(db.links, roles));
  }

  /** Upserts are idempotent. */
  lemma UpsertTwice(entry: Option<Entry>, op: Op)
    ensures Upsert(Some(Upsert(entry, op)), op) == Upsert(entry, op)
  {
  }

  /** An entry as the source would have made it from a link's own fields: the owner's for the link's user, or a viewer's
      for everybody if the link is marked public. */
  ghost predicate GrantedFrom(before: Acl, after: Acl, link: Link, principal: Principal, roles: Roles) {
    match principal
    case User(u) => link.user == Some(u) && Granted(before, after, link, principal, roles.owner)
    case Public => link.isPublic == Set && Granted(before, after, link, principal, roles.viewer)
  }

  /** However a run goes, an entry it creates or changes belongs to a link of the database and to that link's own user, or
      to everybody if the link is marked public.  All other entries are as they were. */
  lemma OnlyDerivedGrants(db: Db, roles: Roles, force: bool, course: Course, key: EntryKey) returns (i: nat)
    requires UniqueLinks(db.links)
    requires Lookup(Migrate(db, roles, force, course).acl, key) != Lookup(db.acl, key)
    ensures i < |db.links| && db.links[i].id == key.link
    ensures GrantedFrom(db.acl, Migrate(db, roles, force, course).acl, db.links[i], key.principal, roles)
  {
    MigrateEffect(db, roles, force, course);
    var written := Written(db, roles, course);
    assert key in written;
    var l, op :| l in db.links && op in OpsOf(l, roles) && op.key == key;
    i :| 0 <= i < |db.links| && db.links[i] == l;
    WrittenIsGrantedFrom(db.acl, Migrate(db, roles, force, course).acl, db.links, roles, written, l, op);
  }

  lemma WrittenIsGrantedFrom(before: Acl, after: Acl, links: seq<Link>, roles: Roles, written: set<EntryKey>, l: Link, op: Op)
    requires Processed(before, after, links, roles, written)
    requires l in links && op in OpsOf(l, roles) && op.key in written
    ensures op.key.link == l.id && GrantedFrom(before, after, l, op.key.principal, roles)
  {
    OpsNameTheirLink(l, roles);
    assert Lookup(after, op.key) == Some(Upsert(Lookup(before, op.key), op));
    assert op in OwnerOps(l, roles) || op in PublicOps(l, roles);
  }

  /** A failed batch counts an error for every entry of the list, or for every link when there is no list; one that has
      nothing to write counts none. */
  lemma ErrorsOfABatch(links: seq<Link>, roles: Roles, outcome: Outcome)
    ensures ErrorsIn(links, BulkOps(links, roles), outcome) ==
            if outcome.Success? || (forall l :: l in links ==> l.user.None? && l.isPublic != Set) then 0
            else if outcome.reported.Some? then |outcome.reported.value| else |links|
  {
    NoOpsIff(links, roles);
  }

  /** Every batch but the last has exactly the size asked for, or one link if that is not positive, and the last has at
      least one. */
  lemma {:induction false} ChunkSizes(batch: seq<Link>, docs: seq<Link>, size: int, k: nat)
    requires |batch| < (if size > 1 then size else 1) && k < |Chunks(batch, docs, size)|
    ensures var full := if size > 1 then size else 1;
            var chunks := Chunks(batch, docs, size);
            1 <= |chunks[k]| <= full && (k < |chunks| - 1 ==> |chunks[k]| == full)
    decreases docs
  {
    if docs != [] {
      var grown := batch + [docs[0]];
      if |grown| < size {
        ChunkSizes(grown, docs[1..], size, k);
      } else if k > 0 {
        ChunkSizes([], docs[1..], size, k - 1);
      }
    }
  }

  // ---------------------------------------------------------------- repeating a run

  function PublicOp(link: Link, roles: Roles): Op {
    Op(EntryKey(link.id, Public), roles.viewer, link.user, link.expiredAt, link.tenantId)
  }

  /** A run loses a public grant for good: the operation was not applied, the link is not spared, so that its field goes,
      and the entry is not already what the operation would make it. */
  ghost predicate LosesPublicGrant(acl: Acl, l: Link, roles: Roles, written: set<EntryKey>, spared: set<nat>) {
    && l.isPublic == Set && l.id !in spared && PublicOp(l, roles).key !in written
    && Lookup(acl, PublicOp(l, roles).key) != Some(Upsert(Lookup(acl, PublicOp(l, roles).key), PublicOp(l, roles)))
  }

  /** Of a link's operations, the public one of a link whose field is gone is the one a second run does not repeat. */
  lemma LeftOps(links: seq<Link>, spared: set<nat>, roles: Roles, i: nat, op: Op)
    requires UniqueLinks(links) && i < |links| && op in OpsOf(links[i], roles)
    ensures op.key in GrantKeys(Unset(links, spared), roles) <==> op.key.principal.User? || links[i].id in spared
    ensures op.key in GrantKeys(Unset(links, spared), roles) ==> op in OpsOf(Unset(links, spared)[i], roles)
  {
    var l, left := links[i], Unset(links, spared);
    OpsNameTheirLink(l, roles);
    assert left[i] in left;
    if op.key in GrantKeys(left, roles) {
      var m, o :| m in left && o in OpsOf(m, roles) && o.key == op.key;
      OpsNameTheirLink(m, roles);
      var j :| 0 <= j < |left| && left[j] == m;
      assert i == j;
      SameKeySameOp(l, m, roles, op, o);
    }
    if op.key.principal.User? || l.id in spared {
      assert op in OpsOf(left[i], roles);
    }
  }

  lemma SameKeySameOp(l: Link, m: Link, roles: Roles, op: Op, o: Op)
    requires m == l || m == l.(isPublic := Missing)
    requires op in OpsOf(l, roles) && o in OpsOf(m, roles) && o.key == op.key
    ensures op == o && (op.key.principal.User? || m == l)
  {
    if m != l {
      assert o in OwnerOps(l, roles);
    }
  }

  /** What an operation's entry is after both runs. */
  lemma RetriedOp(a: Acl, b: Acl, c: Acl, links: seq<Link>, roles: Roles, written: set<EntryKey>, spared: set<nat>, i: nat, op: Op)
    requires UniqueLinks(links) && i < |links| && op in OpsOf(links[i], roles)
    requires Processed(a, b, links, roles, written)
    requires Processed(b, c, Unset(links, spared), roles, GrantKeys(Unset(links, spared), roles))
    ensures Lookup(c, op.key) == Some(Upsert(Lookup(a, op.key), op))
            <==> !(op == PublicOp(links[i], roles) && LosesPublicGrant(a, links[i], roles, written, spared))
  {
    var left := Unset(links, spared);
    LeftOps(links, spared, roles, i, op);
    UpsertTwice(Lookup(a, op.key), op);
    assert links[i] in links;
    if op.key in GrantKeys(left, roles) {
      assert left[i] in left;
    } else {
      assert Lookup(c, op.key) == Lookup(b, op.key);
    }
    assert op.key.principal.Public? <==> op == PublicOp(links[i], roles);
  }

  lemma LeftKeysAreKeys(links: seq<Link>, spared: set<nat>, roles: Roles)
    ensures GrantKeys(Unset(links, spared), roles) <= GrantKeys(links, roles)
  {
    var left := Unset(links, spared);
    forall m, o | m in left && o in OpsOf(m, roles) ensures o.key in GrantKeys(links, roles) {
      var j :| 0 <= j < |left| && left[j] == m;
      assert links[j] in links && o in OpsOf(links[j], roles);
    }
  }

  /** The two runs together are one complete run exactly when the first lost no public grant. */
  lemma RetryCompletes(a: Acl, b: Acl, c: Acl, links: seq<Link>, roles: Roles, written: set<EntryKey>, spared: set<nat>)
    requires UniqueLinks(links)
    requires Processed(a, b, links, roles, written)
    requires Processed(b, c, Unset(links, spared), roles, GrantKeys(Unset(links, spared), roles))
    ensures Processed(a, c, links, roles, GrantKeys(links, roles))
            <==> forall l :: l in links ==> !LosesPublicGrant(a, l, roles, written, spared)
  {
    LeftKeysAreKeys(links, spared, roles);
    forall l, op | l in links && op in OpsOf(l, roles)
      ensures Lookup(c, op.key) == Some(Upsert(Lookup(a, op.key), op))
              <==> !(op == PublicOp(l, roles) && LosesPublicGrant(a, l, roles, written, spared))
    {
      var i: nat :| i < |links| && links[i] == l;
      RetriedOp(a, b, c, links, roles, written, spared, i, op);
    }
    forall l | l in links && LosesPublicGrant(a, l, roles, written, spared)
      ensures PublicOp(l, roles) in OpsOf(l, roles) && PublicOp(l, roles).key in GrantKeys(links, roles)
    {
      assert PublicOps(l, roles) == [PublicOp(l, roles)];
    }
  }

  lemma UnsetKeepsPrivate(links: seq<Link>, spared: set<nat>)
    ensures HasPrivate(Unset(links, spared)) ==> HasPrivate(links)
    ensures Unset(Unset(links, spared), {}) == Unset(links, {})
  {
    var left := Unset(links, spared);
    forall l | l in left && l.isPublic == IsFalse ensures HasPrivate(links) {
      var i :| 0 <= i < |left| && left[i] == l;
      assert links[i] in links;
    }
  }

  /** A run that failed in any way, followed by one without failures, reaches what a single run without failures reaches
      if and only if the failing run aborted or lost no public grant. */
  lemma FailedRunCanBeRepeated(db: Db, roles: Roles, force: bool, failing: Course, fine: Course, single: Course)
    requires UniqueLinks(db.links) && Clean(fine) && Clean(single)
    ensures Migrate(Migrate(db, roles, force, failing), roles, force, fine) == Migrate(db, roles, force, single)
            <==> || (HasPrivate(db.links) && !force)
                 || forall l :: l in db.links ==>
                      !LosesPublicGrant(db.acl, l, roles, Written(db, roles, failing), Spared(db, roles, failing))
  {
    if HasPrivate(db.links) && !force {
      BatchSizeDoesNotMatter(db, roles, force, fine, single);
      return;
    }
    var mid := Migrate(db, roles, force, failing);
    var written, spared := Written(db, roles, failing), Spared(db, roles, failing);
    MigrateEffect(db, roles, force, failing);
    UnsetKeepsPrivate(db.links, spared);
    CleanRun(mid, roles, force, fine);
    CleanRun(db, roles, force, single);
    var after, once := Migrate(mid, roles, force, fine), Migrate(db, roles, force, single);
    assert after.links == once.links;
    RetryCompletes(db.acl, mid.acl, after.acl, db.links, roles, written, spared);
    if Processed(db.acl, after.acl, db.links, roles, GrantKeys(db.links, roles)) {
      ProcessedIsDetermined(db.acl, after.acl, once.acl, db.links, roles, GrantKeys(db.links, roles));
    }
  }

  /** A run that stops before the removal can always be repeated, whatever its batches did. */
  lemma StoppedRunCanBeRepeated(db: Db, roles: Roles, force: bool, stopped: Course, fine: Course, single: Course)
    requires UniqueLinks(db.links) && stopped.end.StopsAfter? && Clean(fine) && Clean(single)
    ensures Migrate(Migrate(db, roles, force, stopped), roles, force, fine) == Migrate(db, roles, force, single)
  {
    FailedRunCanBeRepeated(db, roles, force, stopped, fine, single);
  }

  /** So can one with complete reports. */
  lemma CompleteReportsCanBeRepeated(db: Db, roles: Roles, force: bool, failing: Course, fine: Course, single: Course)
    requires UniqueLinks(db.links) && Clean(fine) && Clean(single)
    requires ReportsAreComplete(db, roles, failing)
    ensures Migrate(Migrate(db, roles, force, failing), roles, force, fine) == Migrate(db, roles, force, single)
  {
    FailedRunCanBeRepeated(db, roles, force, failing, fine, single);
    var written, spared := Written(db, roles, failing), Spared(db, roles, failing);
    forall l | l in db.links ensures !LosesPublicGrant(db.acl, l, roles, written, spared) {
      var i: nat :| i < |db.links| && db.links[i] == l;
      UnmarkedIffDroppedByRun(db, roles, failing, i);
      CompleteReportsDropNothing(db, roles, failing, l.id);
      if l.isPublic == Set {
        assert PublicOps(l, roles)[0] in OpsOf(l, roles);
      }
    }
  }

  /** Several runs one after the other. */
  function MigrateAll(db: Db, roles: Roles, force: bool, courses: seq<Course>): Db
    decreases courses
  {
    if courses == [] then db else MigrateAll(Migrate(db, roles, force, courses[0]), roles, force, courses[1..])
  }

  /** Every one of the runs stops before the removal or has complete reports. */
  ghost predicate NoneLoses(db: Db, roles: Roles, force: bool, courses: seq<Course>)
    decreases courses
  {
    courses != [] ==>
      && (courses[0].end.StopsAfter? || ReportsAreComplete(db, roles, courses[0]))
      && NoneLoses(Migrate(db, roles, force, courses[0]), roles, force, courses[1..])
  }

  lemma MigrateKeepsIds(db: Db, roles: Roles, force: bool, course: Course)
    requires UniqueLinks(db.links)
    ensures UniqueLinks(Migrate(db, roles, force, course).links)
  {
  }

  /** However often such runs fail, the first run without failures ends as it would have at once. */
  lemma {:induction false} FailuresDoNotAddUp(db: Db, roles: Roles, force: bool, courses: seq<Course>, fine: Course)
    requires UniqueLinks(db.links) && NoneLoses(db, roles, force, courses) && Clean(fine)
    ensures Migrate(MigrateAll(db, roles, force, courses), roles, force, fine) == Migrate(db, roles, force, fine)
    decreases courses
  {
    if courses != [] {
      MigrateKeepsIds(db, roles, force, courses[0]);
      FailuresDoNotAddUp(Migrate(db, roles, force, courses[0]), roles, force, courses[1..], fine);
      if courses[0].end.StopsAfter? {
        StoppedRunCanBeRepeated(db, roles, force, courses[0], fine, fine);
      } else {
        CompleteReportsCanBeRepeated(db, roles, force, courses[0], fine, fine);
      }
    }
  }

  // ---------------------------------------------------------------- the script

  /** Each operation's index leads to the link it is for. */
  ghost predicate IndexLeadsTo(linkIds: seq<nat>, ops: seq<Op>) {
    |linkIds| == |ops| && forall i :: 0 <= i < |ops| ==> linkIds[i] == ops[i].key.link
  }

  /** The migration script: its database, the links it has seen fail, and its counters. */
  class Migration {
    const roles: Roles
    var links: seq<Link>
    var acl: Acl
    var failedLinkIds: set<nat>
    var migrated: nat
    var errors: nat

    constructor (db: Db, roles: Roles)
      ensures links == db.links && acl == db.acl && this.roles == roles
      ensures failedLinkIds == {} && migrated == errors == 0
    {
      this.roles := roles;
      links, acl := db.links, db.acl;
      failedLinkIds, migrated, errors := {}, 0, 0;
    }

    /** The bulk operations of one link, each with the link it is for. */
    method CollectLink(link: Link) returns (ops: seq<Op>, linkIds: seq<nat>)
      ensures ops == OpsOf(link, roles) && IndexLeadsTo(linkIds, ops)
    {
      ops, linkIds := [], [];
      if link.user.Some? {
        linkIds := linkIds + [link.id];
        ops := ops + [Op(EntryKey(link.id, User(link.user.value)), roles.owner, link.user, link.expiredAt, link.tenantId)];
      }
      assert ops == OwnerOps(link, roles);
      if link.isPublic == Set {
        linkIds := linkIds + [link.id];
        ops := ops + [Op(EntryKey(link.id, Public), roles.viewer, link.user, link.expiredAt, link.tenantId)];
      }
      assert ops == OwnerOps(link, roles) + PublicOps(link, roles);
    }

    /** The bulk operations of a batch, each with the link it is for. */
    method CollectOps(batch: seq<Link>) returns (bulkOps: seq<Op>, opIndexToLinkId: seq<nat>)
      modifies `migrated
      ensures bulkOps == BulkOps(batch, roles) && IndexLeadsTo(opIndexToLinkId, bulkOps)
      ensures migrated == old(migrated) + |batch|
    {
      bulkOps, opIndexToLinkId := [], [];
      var i := 0;
      while i < |batch|
        invariant 0 <= i <= |batch| && migrated == old(migrated) + i
        invariant bulkOps == BulkOps(batch[..i], roles) && IndexLeadsTo(opIndexToLinkId, bulkOps)
      {
        var ops, linkIds := CollectLink(batch[i]);
        assert batch[..i + 1][..i] == batch[..i];
        bulkOps, opIndexToLinkId := bulkOps + ops, opIndexToLinkId + linkIds;
        migrated := migrated + 1;
        i := i + 1;
      }
      assert batch[..i] == batch;
    }

    /** The loop over the write errors; an index that leads to no operation marks nothing. */
    method MarkReported(opIndexToLinkId: seq<nat>, writeErrors: seq<nat>, ghost ops: seq<Op>)
      requires IndexLeadsTo(opIndexToLinkId, ops)
      modifies `failedLinkIds, `errors
      ensures failedLinkIds == old(failedLinkIds) + set i | i in writeErrors && i < |ops| :: ops[i].key.link
      ensures errors == old(errors) + |writeErrors|
    {
      errors := errors + |writeErrors|;
      var n := 0;
      while n < |writeErrors|
        invariant 0 <= n <= |writeErrors|
        invariant errors == old(errors) + |writeErrors|
        invariant failedLinkIds == old(failedLinkIds) + set i | i in writeErrors[..n] && i < |ops| :: ops[i].key.link
      {
        var index := writeErrors[n];
        assert writeErrors[..n + 1] == writeErrors[..n] + [index];
        if index < |opIndexToLinkId| {
          failedLinkIds := failedLinkIds + {opIndexToLinkId[index]};
        }
        n := n + 1;
      }
      assert writeErrors[..n] == writeErrors;
    }

    /** `processBatch`: one bulk write, whose failures are traced back to links through the operation indices. */
    method ProcessBatch(batch: seq<Link>, outcome: Outcome)
      modifies this
      ensures links == old(links) && migrated == old(migrated) + |batch|
      ensures Progress(acl, failedLinkIds, errors) ==
              AfterBatch(Progress(old(acl), old(failedLinkIds), old(errors)), batch, roles, outcome)
    {
      var bulkOps, opIndexToLinkId := CollectOps(batch);
      if |bulkOps| > 0 {
        acl := BulkWrite(acl, bulkOps, outcome);
        match outcome
        case Success =>
        case Failed(_, Some(writeErrors)) =>
          MarkReported(opIndexToLinkId, writeErrors, bulkOps);
        case Failed(_, None) =>
          errors := errors + |batch|;
          failedLinkIds := failedLinkIds + LinkIds(batch);
      }
    }

    ghost function Now(): Progress
      reads this
    {
      Progress(acl, failedLinkIds, errors)
    }

    /** Where the run ends up when `done` batches are done and these are to come. */
    ghost function Final(chunks: seq<seq<Link>>, done: nat, course: Course): Progress
      requires course.end.StopsAfter? ==> done <= course.end.batches
      reads this
    {
      RunBatches(Now(), Take(chunks, Left(course.end, done)), done + 1, roles, course.outcomes)
    }

    /** One batch of the loop, unless the run stops before it. */
    method ProcessNext(batch: seq<Link>, ghost later: seq<seq<Link>>, done: nat, course: Course) returns (stopped: bool)
      requires course.end.StopsAfter? ==> done <= course.end.batches
      modifies this
      ensures links == old(links)
      ensures stopped <==> course.end == StopsAfter(done)
      ensures stopped ==> Now() == old(Final([batch] + later, done, course))
      ensures !stopped ==> migrated == old(migrated) + |batch|
                           && Final(later, done + 1, course) == old(Final([batch] + later, done, course))
    {
      if course.end == StopsAfter(done) {
        return true;
      }
      TakeStep(batch, later, course.end, done);
      ghost var rest := Take(later, Left(course.end, done + 1));
      assert ([batch] + rest)[1..] == rest;
      ProcessBatch(batch, course.outcomes(done + 1));
      return false;
    }

    /** With `batch` piled up and `done` batches done, processing the documents from `i` on leads to `target`. */
    ghost predicate OnTrack(docs: seq<Link>, i: int, batch: seq<Link>, done: nat, course: Course, target: Progress)
      reads this
    {
      && 0 <= i <= |docs| && (course.end.StopsAfter? ==> done <= course.end.batches)
      && Final(Chunks(batch, docs[i..], course.size), done, course) == target
    }

    /** One document of the cursor. */
    method TakeDoc(docs: seq<Link>, i: nat, batch: seq<Link>, done: nat, course: Course, ghost target: Progress)
      returns (stopped: bool, batch': seq<Link>, done': nat)
      requires i < |docs| && OnTrack(docs, i, batch, done, course, target)
      modifies this
      ensures links == old(links)
      ensures stopped ==> course.end.StopsAfter? && Now() == target
      ensures !stopped ==> OnTrack(docs, i + 1, batch', done', course, target)
                           && migrated + |batch'| == old(migrated) + |batch| + 1
    {
      stopped, batch', done' := false, batch + [docs[i]], done;
      ChunksStep(batch, docs, i, course.size);
      if |batch'| >= course.size {
        stopped := ProcessNext(batch', Chunks([], docs[i + 1..], course.size), done, course);
        batch', done' := [], done + 1;
      }
    }

    /** The last batch. */
    method TakeRest(docs: seq<Link>, batch: seq<Link>, done: nat, course: Course, ghost target: Progress) returns (stopped: bool)
      requires OnTrack(docs, |docs|, batch, done, course, target)
      modifies this
      ensures links == old(links) && Now() == target
      ensures if stopped then course.end.StopsAfter? else migrated == old(migrated) + |batch|
    {
      stopped := false;
      assert docs[|docs|..] == [] && [batch] + [] == [batch];
      if |batch| > 0 {
        stopped := ProcessNext(batch, [], done, course);
      }
    }

    /** The batching loop over the cursor, and whether it was stopped before the removal. */
    method ProcessAll(docs: seq<Link>, course: Course) returns (stopped: bool)
      requires failedLinkIds == {} && errors == 0 && migrated == 0
      modifies this
      ensures links == old(links) && (stopped <==> course.end.StopsAfter?) && (!stopped ==> migrated == |docs|)
      ensures Now() == old(Final(Chunks([], docs, course.size), 0, course))
    {
      ghost var target := Final(Chunks([], docs, course.size), 0, course);
      assert docs[0..] == docs;
      var batch: seq<Link> := [];
      var batchIndex: nat := 0;
      var i := 0;
      while i < |docs|
        invariant 0 <= i <= |docs| && links == old(links) && migrated + |batch| == i
        invariant OnTrack(docs, i, batch, batchIndex, course, target)
      {
        stopped, batch, batchIndex := TakeDoc(docs, i, batch, batchIndex, course, target);
        if stopped {
          return;
        }
        i := i + 1;
      }
      stopped := TakeRest(docs, batch, batchIndex, course, target);
      stopped := stopped || course.end.StopsAfter?;
    }

    /** A live run on a fresh script. */
    method Run(force: bool, course: Course) returns (aborted: bool, threw: bool)
      requires failedLinkIds == {} && errors == 0 && migrated == 0
      modifies this
      ensures Db(links, acl) == Migrate(Db(old(links), old(acl)), roles, force, course)
      ensures aborted <==> !force && exists l :: l in old(links) && l.isPublic == IsFalse
      ensures threw <==> !aborted && course.end != Removes({})
      ensures !aborted && !threw ==> migrated == |links|
      ensures !aborted && !threw && errors == 0 ==> forall l :: l in links ==> l.isPublic == Missing
    {
      aborted, threw := HasPrivate(links) && !force, false;
      if aborted {
        return;
      }
      MarkedMeansErrors(Progress(acl, {}, 0), Attempted(Db(links, acl), course), 1, roles, course.outcomes);
      threw := ProcessAll(links, course);
      if !threw {
        threw := course.end != Removes({});
        links := Unset(links, failedLinkIds + course.end.missed);
      }
    }
  }

  /** How far the run still gets when so many batches are done. */
  function Left(end: End, done: nat): End
    requires end.StopsAfter? ==> done <= end.batches
  {
    if end.StopsAfter? then StopsAfter(end.batches - done) else end
  }

  lemma TakeStep(batch: seq<Link>, later: seq<seq<Link>>, end: End, done: nat)
    requires end.StopsAfter? ==> done < end.batches
    ensures Take([batch] + later, Left(end, done)) == [batch] + Take(later, Left(end, done + 1))
  {
  }
}
