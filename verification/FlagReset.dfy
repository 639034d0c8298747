/** Resetting the search-index flag of all visible documents in batches, while the clock goes on. */
module FlagReset {
  import opened Collections
  import opened Options
  import opened Strings

  /** A document: its retention fields, its index flag, and the rest.  Missing and null are the same to the queries. */
  datatype Doc = Doc(id: nat, isTemporary: Option<bool>, expiredAt: Option<int>, meiliIndex: Option<bool>, rest: nat)

  /** The retention visibility filter at time `now`. */
  predicate Visible(d: Doc, now: int) {
    || (d.isTemporary == Some(false) && (d.expiredAt.None? || d.expiredAt.value > now))
    || (d.isTemporary.None? && d.expiredAt.None?)
  }

  predicate NeedsReset(d: Doc, now: int) {
    Visible(d, now) && d.meiliIndex != Some(false)
  }

  function Reset(d: Doc): Doc {
    d.(meiliIndex := Some(false))
  }

  ghost predicate UniqueIds(docs: seq<Doc>) {
    forall i, j :: 0 <= i < j < |docs| ==> docs[i].id != docs[j].id
  }

  ghost function Needing(docs: seq<Doc>, now: int): set<nat> {
    set i: nat | i < |docs| && NeedsReset(docs[i], now)
  }

  ghost function Changed(before: seq<Doc>, after: seq<Doc>): set<nat>
    requires |before| == |after|
  {
    set i: nat | i < |before| && before[i] != after[i]
  }

  // ---------------------------------------------------------------- settings

  const DEFAULT_BATCH_SIZE: nat := 1000

  predicate IsDigit(c: char) {
    '0' <= c <= '9'
  }

  function Digits(s: string, value: nat): nat {
    if s == [] || !IsDigit(s[0]) then value else Digits(s[1..], value * 10 + (s[0] as int - '0' as int))
  }

  function TrimStart(s: string): string {
    if s != [] && IsSpace(s[0]) then TrimStart(s[1..]) else s
  }

  /** `parseInt(s, 10)`: white space, a sign, and the digits up to anything else; nothing without a digit. */
  function ParseInt(s: string): Option<int> {
    var t := TrimStart(s);
    var negative := t != [] && t[0] == '-';
    var digits := if t != [] && (t[0] == '-' || t[0] == '+') then t[1..] else t;
    if digits == [] || !IsDigit(digits[0]) then None
    else
      var n: int := Digits(digits, 0);
      Some(if negative then -n else n)
  }

  /** `parseEnvInt`. */
  function ParseEnvInt(value: Option<string>, fallback: nat): nat {
    if value.None? || value.value == "" then fallback
    else
      var parsed := ParseInt(value.value);
      if parsed.None? || parsed.value < 0 then fallback else parsed.value
  }

  function BatchSize(setting: Option<string>): (size: nat)
    ensures size >= 1
  {
    var size := ParseEnvInt(setting, DEFAULT_BATCH_SIZE);
    if size == 0 then DEFAULT_BATCH_SIZE else size
  }

  lemma {:induction false} DigitsPush(a: string, d: char, value: nat)
    requires IsDigit(d) && forall i :: 0 <= i < |a| ==> IsDigit(a[i])
    ensures Digits(a + [d], value) == Digits(a, value) * 10 + (d as int - '0' as int)
    decreases a
  {
    var s := a + [d];
    if a == [] {
      assert s[1..] == [];
    } else {
      assert s[1..] == a[1..] + [d];
      DigitsPush(a[1..], d, value * 10 + (a[0] as int - '0' as int));
    }
  }

  lemma {:induction false} DigitsStop(a: string, junk: string, value: nat)
    requires forall i :: 0 <= i < |a| ==> IsDigit(a[i])
    requires junk == "" || !IsDigit(junk[0])
    ensures Digits(a + junk, value) == Digits(a, value)
    decreases a
  {
    if a == [] {
      assert a + junk == junk;
    } else {
      assert (a + junk)[1..] == a[1..] + junk;
      DigitsStop(a[1..], junk, value * 10 + (a[0] as int - '0' as int));
    }
  }

  lemma {:induction false} DigitsOfNumeral(n: nat)
    ensures Digits(Numeral(n), 0) == n
    ensures Numeral(n) != "" && forall i :: 0 <= i < |Numeral(n)| ==> IsDigit(Numeral(n)[i])
  {
    NumeralReads(n);
    if n >= 10 {
      DigitsOfNumeral(n / 10);
      DigitsPush(Numeral(n / 10), Digit(n % 10), 0);
    } else {
      assert Numeral(n)[1..] == [];
    }
  }

  lemma {:induction false} TrimStartDrops(space: string, rest: string)
    requires forall i :: 0 <= i < |space| ==> IsSpace(space[i])
    requires rest != "" && !IsSpace(rest[0])
    ensures TrimStart(space + rest) == rest
  {
    if space == "" {
      assert space + rest == rest;
    } else {
      assert (space + rest)[1..] == space[1..] + rest;
      TrimStartDrops(space[1..], rest);
    }
  }

  lemma ParseIntReads(space: string, sign: string, n: nat, junk: string)
    requires forall i :: 0 <= i < |space| ==> IsSpace(space[i])
    requires sign == "" || sign == "+" || sign == "-"
    requires junk == "" || !IsDigit(junk[0])
    ensures ParseInt(space + (sign + (Numeral(n) + junk))) == Some(if sign == "-" then 0 - n else n as int)
  {
    var digits := Numeral(n) + junk;
    DigitsOfNumeral(n);
    DigitsStop(Numeral(n), junk, 0);
    assert digits[0] == Numeral(n)[0];
    var signed := sign + digits;
    assert signed[0] == if sign == "" then digits[0] else sign[0];
    assert sign != "" ==> signed[1..] == digits;
    assert sign == "" ==> signed == digits;
    assert IsDigit(signed[0]) || signed[0] == '+' || signed[0] == '-';
    NumbersAreNoSpace(signed[0]);
    TrimStartDrops(space, signed);
  }

  lemma NumbersAreNoSpace(c: char)
    requires IsDigit(c) || c == '+' || c == '-'
    ensures !IsSpace(c)
  {
  }

  /** A setting of decimal digits, after white space and a sign and before anything else, is the batch size if it is a
      positive number; 0 and negative numbers give 1000. */
  lemma BatchSizeReads(space: string, sign: string, n: nat, junk: string)
    requires forall i :: 0 <= i < |space| ==> IsSpace(space[i])
    requires sign == "" || sign == "+" || sign == "-"
    requires junk == "" || !('0' <= junk[0] <= '9')
    ensures BatchSize(Some(space + (sign + (Numeral(n) + junk)))) == if n == 0 || sign == "-" then 1000 else n
  {
    ParseIntReads(space, sign, n, junk);
    DigitsOfNumeral(n);
    assert space + (sign + (Numeral(n) + junk)) != "";
  }

  /** So do a setting that is missing or empty and one that does not start with a number. */
  lemma BatchSizeDefaults(space: string, rest: string)
    requires forall i :: 0 <= i < |space| ==> IsSpace(space[i])
    requires rest != "" && !IsSpace(rest[0]) && !('0' <= rest[0] <= '9') && rest[0] != '+' && rest[0] != '-'
    ensures BatchSize(None) == BatchSize(Some("")) == BatchSize(Some(space + rest)) == 1000
  {
    TrimStartDrops(space, rest);
  }

  // ---------------------------------------------------------------- the collection

  function UpdateMany(docs: seq<Doc>, ids: set<nat>): (r: seq<Doc>)
    ensures |r| == |docs| && forall i :: 0 <= i < |docs| ==> r[i] == if docs[i].id in ids then Reset(docs[i]) else docs[i]
  {
    seq(|docs|, i requires 0 <= i < |docs| => if docs[i].id in ids then Reset(docs[i]) else docs[i])
  }

  ghost function IdsAt(docs: seq<Doc>, indices: set<nat>): set<nat>
    requires forall i :: i in indices ==> i < |docs|
  {
    set i | i in indices :: docs[i].id
  }

  /** The clock only goes forward. */
  ghost predicate Forward(clock: nat -> int) {
    forall i: nat, j: nat :: i <= j ==> clock(i) <= clock(j)
  }

  /** What a batch of the run does: it resets some documents that need it at the time of its query, all of them if they
      are fewer than the limit. */
  ghost predicate IsPage(docs: seq<Doc>, now: int, limit: nat, page: set<nat>) {
    && page <= Needing(docs, now)
    && |page| == if |Needing(docs, now)| < limit then |Needing(docs, now)| else limit
  }

  /** The documents a page does not cover are as they were, those it covers are reset. */
  lemma PageEffect(before: seq<Doc>, docs: seq<Doc>, now: int, page: set<nat>, after: seq<Doc>)
    requires UniqueIds(docs) && page <= Needing(docs, now) && after == UpdateMany(docs, IdsAt(docs, page))
    requires |before| == |docs| && forall i :: 0 <= i < |docs| ==> docs[i] == before[i] || docs[i] == Reset(before[i])
    ensures UniqueIds(after) && |after| == |docs|
    ensures forall i :: 0 <= i < |docs| ==> after[i] == before[i] || after[i] == Reset(before[i])
    ensures forall later: int :: Needing(after, later) == Needing(docs, later) - page
    ensures Changed(before, after) == Changed(before, docs) + page && Changed(before, docs) !! page
    ensures |Changed(before, after)| == |Changed(before, docs)| + |page|
  {
  }

  /** What the retention fields say of a document at a time: a temporary one is never shown, one marked not temporary until
      it expires, and one without a mark as long as it has no expiry. */
  ghost predicate Shown(d: Doc, now: int) {
    match d.isTemporary
    case Some(true) => false
    case Some(false) => (match d.expiredAt case None => true case Some(t) => t > now)
    case None => d.expiredAt == None
  }

  /** A document is reset by a query exactly when it is shown then and its flag is missing or true. */
  lemma NeedsResetOnFields(d: Doc, now: int)
    ensures NeedsReset(d, now) <==> Shown(d, now) && (d.meiliIndex.None? || d.meiliIndex.value)
  {
    match d.isTemporary
    case None =>
    case Some(temporary) => assert d.isTemporary == Some(temporary);
    match d.meiliIndex
    case None =>
    case Some(indexed) => assert d.meiliIndex == Some(indexed);
  }

  /** The result of a run on the documents' own fields. */
  lemma ResetOnFields(before: seq<Doc>, after: seq<Doc>, start: int, end: int)
    requires |before| == |after| && Changed(before, after) <= Needing(before, start) && Needing(after, end) == {}
    requires forall i :: 0 <= i < |after| ==> after[i] == before[i] || after[i] == Reset(before[i])
    ensures forall i :: 0 <= i < |after| && Shown(after[i], end) ==> after[i].meiliIndex == Some(false)
    ensures forall i :: 0 <= i < |after| && after[i] != before[i] ==>
              && Shown(before[i], start) && before[i].meiliIndex != Some(false)
              && after[i] == before[i].(meiliIndex := Some(false))
  {
    forall i | 0 <= i < |after| && Shown(after[i], end) ensures after[i].meiliIndex == Some(false) {
      NeedsResetOnFields(after[i], end);
      assert i !in Needing(after, end);
    }
    forall i | 0 <= i < |after| && after[i] != before[i]
      ensures Shown(before[i], start) && before[i].meiliIndex != Some(false)
    {
      assert i in Changed(before, after);
      NeedsResetOnFields(before[i], start);
    }
  }

  /** As time passes nothing becomes visible that was not. */
  lemma VisibilityFades(docs: seq<Doc>, now: int, later: int)
    requires now <= later
    ensures Needing(docs, later) <= Needing(docs, now)
  {
  }

  class Collection {
    var docs: seq<Doc>

    constructor (docs: seq<Doc>)
      ensures this.docs == docs
    {
      this.docs := docs;
    }

    /** The query with its limit.  Which of the matching documents it returns is up to the database. */
    method FindPage(now: int, limit: nat) returns (ghost page: set<nat>, ids: set<nat>, count: nat)
      requires limit >= 1 && UniqueIds(docs)
      ensures IsPage(docs, now, limit, page) && ids == IdsAt(docs, page) && count == |page|
    {
      page, ids, count := {}, {}, 0;
      var i := 0;
      while i < |docs| && count < limit
        invariant 0 <= i <= |docs| && count == |page| <= limit
        invariant page == set k: nat | k < i && NeedsReset(docs[k], now)
        invariant ids == IdsAt(docs, page)
      {
        if NeedsReset(docs[i], now) {
          page := page + {i};
          ids := ids + {docs[i].id};
          count := count + 1;
        }
        i := i + 1;
      }
      SubsetCardinality(page, Needing(docs, now));
    }

    /** One turn of the loop: query, and update what was found. */
    method ResetPage(now: int, limit: nat, ghost was: seq<Doc>, ghost start: int) returns (count: nat)
      requires limit >= 1 && start <= now && Underway(was, docs, start)
      modifies this
      ensures Underway(was, docs, start)
      ensures |Changed(was, docs)| == |Changed(was, old(docs))| + count
      ensures count < limit ==> Needing(docs, now) == {}
      ensures count > 0 ==> |Needing(docs, start)| < |Needing(old(docs), start)|
    {
      ghost var page;
      var ids;
      page, ids, count := FindPage(now, limit);
      VisibilityFades(docs, start, now);
      ghost var before := docs;
      docs := UpdateMany(docs, ids);
      PageEffect(was, before, now, page, docs);
      UnderwayStep(was, before, docs, start, now, page);
      if count < limit {
        SubsetCardinality(page, Needing(before, now));
      }
      if count > 0 {
        ShrinksBy(Needing(before, start), page);
      }
    }

    /** `batchResetMeiliFlags`, where `clock(k)` is the time of the k-th query.  It ends for every batch size, and `last`
        is the number of its last query: nothing visible then, or later, is left unreset.  What it changes is exactly
        the flag of documents that were visible at the start, and the result is how many those are. */
    method BatchResetMeiliFlags(setting: Option<string>, clock: nat -> int) returns (total: nat, ghost last: nat)
      requires UniqueIds(docs) && Forward(clock)
      modifies this
      ensures |docs| == |old(docs)|
      ensures forall i :: 0 <= i < |docs| ==> docs[i] == old(docs)[i] || docs[i] == Reset(old(docs)[i])
      ensures forall now :: now >= clock(last) ==> Needing(docs, now) == {}
      ensures Changed(old(docs), docs) <= Needing(old(docs), clock(0))
      ensures total == |Changed(old(docs), docs)|
      ensures forall i :: 0 <= i < |docs| && Shown(docs[i], clock(last)) ==> docs[i].meiliIndex == Some(false)
      ensures forall i :: 0 <= i < |docs| && docs[i] != old(docs)[i] ==>
                && Shown(old(docs)[i], clock(0)) && old(docs)[i].meiliIndex != Some(false)
                && docs[i] == old(docs)[i].(meiliIndex := Some(false))
      ensures clock(last) == clock(0) ==>
                Changed(old(docs), docs) == Needing(old(docs), clock(0)) && total == |Needing(old(docs), clock(0))|
    {
      var size := BatchSize(setting);
      total, last := 0, 0;
      var query := 0;
      var hasMore := true;
      assert Changed(docs, docs) == {};
      while hasMore
        invariant Underway(old(docs), docs, clock(0))
        invariant total == |Changed(old(docs), docs)|
        invariant !hasMore ==> Needing(docs, clock(last)) == {}
        decreases hasMore, |Needing(docs, clock(0))|
      {
        last := query;
        var count := ResetPage(clock(query), size, old(docs), clock(0));
        query := query + 1;
        if count == 0 {
          break;
        }
        total := total + count;
        if count < size {
          hasMore := false;
        }
      }
      NothingLeft(old(docs), docs, clock, last);
      ResetOnFields(old(docs), docs, clock(0), clock(last));
    }
  }

  /** The documents part-way through a run that began with `was` at time `start`. */
  ghost predicate Underway(was: seq<Doc>, docs: seq<Doc>, start: int) {
    && UniqueIds(docs) && |docs| == |was|
    && (forall i :: 0 <= i < |docs| ==> docs[i] == was[i] || docs[i] == Reset(was[i]))
    && Changed(was, docs) <= Needing(was, start)
  }

  lemma UnderwayStep(was: seq<Doc>, before: seq<Doc>, after: seq<Doc>, start: int, now: int, page: set<nat>)
    requires Underway(was, before, start) && start <= now && page <= Needing(before, now)
    requires UniqueIds(after) && |after| == |was|
    requires forall i :: 0 <= i < |after| ==> after[i] == was[i] || after[i] == Reset(was[i])
    requires Changed(was, after) == Changed(was, before) + page && Changed(was, before) !! page
    ensures Underway(was, after, start)
  {
  }

  lemma ShrinksBy(a: set<nat>, page: set<nat>)
    requires page <= a && |page| > 0
    ensures |a - page| < |a|
  {
  }

  /** What follows once the last query's documents are all reset. */
  lemma NothingLeft(before: seq<Doc>, after: seq<Doc>, clock: nat -> int, last: nat)
    requires |before| == |after| && Forward(clock)
    requires Needing(after, clock(last)) == {} && Changed(before, after) <= Needing(before, clock(0))
    ensures forall now :: now >= clock(last) ==> Needing(after, now) == {}
    ensures clock(last) == clock(0) ==> Changed(before, after) == Needing(before, clock(0))
  {
    forall now | now >= clock(last) ensures Needing(after, now) == {} {
      VisibilityFades(after, clock(last), now);
    }
    if clock(last) == clock(0) {
      forall i: nat | i in Needing(before, clock(0)) ensures i in Changed(before, after) {
        assert i !in Needing(after, clock(last));
      }
    }
  }
}
