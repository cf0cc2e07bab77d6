/** The local datastore of `src/lib/datastore/local.ts`: one persisted slot
    holding the whole list of session records. Every operation reads the
    whole list, changes it and writes the whole list back; the slot is the
    `sessions` field of `LocalStore`, and each operation's new list is given
    by a function of the old one, about which the lemmas below speak. */
module LocalDatastore {
  import opened Wrappers
  import opened Text
  import opened Seqs
  import opened Schema

  datatype SyncState = Pending | Synced | Error

  /** `SessionRecord` (`sessionType` is the source's `type` key). */
  datatype SessionRecord = SessionRecord(
    id: string,
    createdAt: string,
    syncState: SyncState,
    date: string,
    startTime: Option<string>,
    sessionType: string,
    durationMin: int,
    tags: seq<string>,
    memo: Option<string>)

  /** One key of a `Partial<SessionRecord>`: left out, or given a value. For
      the optional keys, `Put(None)` is a key present with value `undefined`,
      which the spread in `updateSession` copies (the edit page sends that to
      clear a start time or memo). */
  datatype Field<T> = Keep | Put(value: T)

  datatype Patch = Patch(
    id: Field<string>,
    createdAt: Field<string>,
    syncState: Field<SyncState>,
    date: Field<string>,
    startTime: Field<Option<string>>,
    sessionType: Field<string>,
    durationMin: Field<int>,
    tags: Field<seq<string>>,
    memo: Field<Option<string>>)

  /** `{ from?, to? }` of `listSessions`. */
  datatype DateRange = DateRange(from: Option<string>, to: Option<string>)

  function FieldOr<T>(f: Field<T>, current: T): T {
    if f.Put? then f.value else current
  }

  /** The record `addSession` builds from a parsed input:
      `{ id, createdAt, syncState: "pending", ...parsed, tags: parsed.tags ?? [] }`. */
  function NewRecord(q: SessionQuick, id: string, createdAt: string): SessionRecord {
    SessionRecord(id, createdAt, Pending, q.date, q.startTime, q.sessionType, q.durationMin, q.tags, q.memo)
  }

  /** `{ ...old, ...patch, syncState: "pending" }` */
  function ApplyPatch(rec: SessionRecord, p: Patch): SessionRecord {
    SessionRecord(
      FieldOr(p.id, rec.id),
      FieldOr(p.createdAt, rec.createdAt),
      Pending,
      FieldOr(p.date, rec.date),
      FieldOr(p.startTime, rec.startTime),
      FieldOr(p.sessionType, rec.sessionType),
      FieldOr(p.durationMin, rec.durationMin),
      FieldOr(p.tags, rec.tags),
      FieldOr(p.memo, rec.memo))
  }

  /** A bound given as the empty string is falsy and filters nothing. */
  predicate Bound(b: Option<string>) {
    b.Some? && b.value != ""
  }

  /** Not before `from` and not after `to`, both inclusive. */
  predicate InRange(date: string, range: DateRange) {
    (Bound(range.from) ==> StrLe(range.from.value, date))
    && (Bound(range.to) ==> StrLe(date, range.to.value))
  }

  function InRangeTest(range: DateRange): SessionRecord -> bool {
    (r: SessionRecord) => InRange(r.date, range)
  }

  /** The list `listSessions(params)` returns. */
  function Listed(list: seq<SessionRecord>, params: Option<DateRange>): seq<SessionRecord> {
    if params.None? then list else Filter(list, InRangeTest(params.value))
  }

  /** `list.findIndex((s) => s.id === id)`, with -1 as `None`. */
  function FindIndex(list: seq<SessionRecord>, id: string): (r: Option<nat>)
    ensures r.None? <==> forall k :: 0 <= k < |list| ==> list[k].id != id
    ensures r.Some? ==> r.value < |list| && list[r.value].id == id
                        && forall k :: 0 <= k < r.value ==> list[k].id != id
  {
    if list == [] then None
    else if list[0].id == id then Some(0)
    else match FindIndex(list[1..], id)
      case None => None
      case Some(i) => Some(i + 1)
  }

  /** The first record with this id, or none. `getSession` is called by the
      sync layer but is not defined in `local.ts`; this is its assumed
      meaning. */
  function Found(list: seq<SessionRecord>, id: string): Option<SessionRecord> {
    match FindIndex(list, id)
    case None => None
    case Some(i) => Some(list[i])
  }

  /** The new list and the result of `updateSession(id, patch)`. */
  function Updated(list: seq<SessionRecord>, id: string, p: Patch): (seq<SessionRecord>, Option<SessionRecord>) {
    match FindIndex(list, id)
    case None => (list, None)
    case Some(i) => (list[i := ApplyPatch(list[i], p)], Some(ApplyPatch(list[i], p)))
  }

  function NotId(id: string): SessionRecord -> bool {
    (r: SessionRecord) => r.id != id
  }

  /** The list `deleteSession(id)` writes back. */
  function Deleted(list: seq<SessionRecord>, id: string): seq<SessionRecord> {
    Filter(list, NotId(id))
  }

  /** The list after `markSynced(id)`. */
  function MarkedSynced(list: seq<SessionRecord>, id: string): seq<SessionRecord> {
    match FindIndex(list, id)
    case None => list
    case Some(i) => list[i := list[i].(syncState := Synced)]
  }

  predicate IsPending(r: SessionRecord) {
    r.syncState == Pending
  }

  /** The list `pendingSessions()` returns. */
  function PendingOf(list: seq<SessionRecord>): seq<SessionRecord> {
    Filter(list, IsPending)
  }

  predicate NoErrorState(list: seq<SessionRecord>) {
    forall k :: 0 <= k < |list| ==> list[k].syncState != Error
  }

  predicate UniqueIds(list: seq<SessionRecord>) {
    forall i, j :: 0 <= i < j < |list| ==> list[i].id != list[j].id
  }

  /** The persisted slot and the operations of `local.ts`. */
  class LocalStore {
    /** The value stored under the `sessions` key (an absent key reads as
        the empty list). */
    var sessions: seq<SessionRecord>

    constructor ()
      ensures sessions == []
    {
      sessions := [];
    }

    /** `addSession(input)`: validates first, and on failure throws before
        the slot is read or written. `id` and `createdAt` stand for
        `uuid()` and `new Date().toISOString()`. */
    method AddSession(input: RawInput, id: string, createdAt: string) returns (r: Result<SessionRecord, seq<FieldName>>)
      modifies this
      ensures r.Failure? <==> !IsValid(input)
      ensures r.Failure? ==> r.error == Issues(input) && sessions == old(sessions)
      ensures r.Success? ==> r.value == NewRecord(Parse(input).value, id, createdAt)
                             && sessions == old(sessions) + [r.value]
    {
      var parsed := Parse(input);
      if parsed.Failure? {
        return Failure(parsed.error);
      }
      var record := NewRecord(parsed.value, id, createdAt);
      var list := sessions;
      list := list + [record];
      sessions := list;
      r := Success(record);
    }

    /** `listSessions(params)` */
    method ListSessions(params: Option<DateRange>) returns (r: seq<SessionRecord>)
      ensures r == Listed(sessions, params)
      ensures params.Some? ==> forall k :: 0 <= k < |r| ==> r[k] in sessions && InRange(r[k].date, params.value)
    {
      var list := sessions;
      if params.None? {
        return list;
      }
      r := Filter(list, InRangeTest(params.value));
    }

    /** `getSession(id)` (assumed, see `Found`). */
    method GetSession(id: string) returns (r: Option<SessionRecord>)
      ensures r == Found(sessions, id)
      ensures r.Some? ==> r.value in sessions && r.value.id == id
    {
      var list := sessions;
      var index := FindIndex(list, id);
      if index.None? {
        return None;
      }
      r := Some(list[index.value]);
    }

    /** `updateSession(id, patch)`: no write when the id is unknown. */
    method UpdateSession(id: string, patch: Patch) returns (r: Option<SessionRecord>)
      modifies this
      ensures (sessions, r) == Updated(old(sessions), id, patch)
      ensures r.None? ==> sessions == old(sessions)
      ensures r.Some? ==> r.value.syncState == Pending
    {
      var list := sessions;
      var index := FindIndex(list, id);
      if index.None? {
        return None;
      }
      list := list[index.value := ApplyPatch(list[index.value], patch)];
      sessions := list;
      r := Some(list[index.value]);
    }

    /** `deleteSession(id)` */
    method DeleteSession(id: string)
      modifies this
      ensures sessions == Deleted(old(sessions), id)
    {
      var list := sessions;
      var next := Filter(list, NotId(id));
      sessions := next;
    }

    /** `markSynced(id)`: no write when the id is unknown. */
    method MarkSynced(id: string)
      modifies this
      ensures sessions == MarkedSynced(old(sessions), id)
    {
      var list := sessions;
      var index := FindIndex(list, id);
      if index.Some? {
        list := list[index.value := list[index.value].(syncState := Synced)];
        sessions := list;
      }
    }

    /** `pendingSessions()` */
    method PendingSessions() returns (r: seq<SessionRecord>)
      ensures r == PendingOf(sessions)
      ensures forall k :: 0 <= k < |r| ==> r[k] in sessions && r[k].syncState == Pending
    {
      var list := sessions;
      r := Filter(list, IsPending);
    }

    /** `replaceAllSessions(list)`: called by the sync layer but not defined
        in `local.ts`; assumed to overwrite the slot. */
    method ReplaceAllSessions(list: seq<SessionRecord>)
      modifies this
      ensures sessions == list
    {
      sessions := list;
    }
  }

  // ---------------------------------------------------------------------
  // Properties of the operations

  /** `addSession` on valid input builds a pending record with the given id
      and timestamp, the input's fields, and no tags when none were given. */
  lemma AddedRecordShape(input: RawInput, id: string, createdAt: string)
    requires IsValid(input)
    ensures var r := NewRecord(Parse(input).value, id, createdAt);
      && r.id == id && r.createdAt == createdAt && r.syncState == Pending
      && Some(Str(r.date)) == input.date && r.durationMin > 0
      && Some(Str(r.sessionType)) == input.sessionType
      && (input.tags.None? ==> r.tags == [])
      && |r.tags| <= MaxTags
  {
  }

  /** Adding then looking up the new id gives back the added record, when
      the id was not in use. */
  lemma {:induction false} AddThenGet(list: seq<SessionRecord>, r: SessionRecord)
    requires forall k :: 0 <= k < |list| ==> list[k].id != r.id
    ensures Found(list + [r], r.id) == Some(r)
  {
    var l := list + [r];
    assert l[|list|] == r;
    var i := FindIndex(l, r.id);
    assert i.Some?;
    assert i.value == |list|;
  }

  /** Without params the stored list is returned as it is; with params,
      exactly the records in range, in stored order. */
  lemma {:induction false} ListedIsRangeFilter(list: seq<SessionRecord>, range: DateRange, a: seq<SessionRecord>, b: seq<SessionRecord>)
    ensures Listed(list, None) == list
    ensures forall k :: 0 <= k < |list| && InRange(list[k].date, range) ==> list[k] in Listed(list, Some(range))
    ensures forall r :: r in Listed(list, Some(range)) ==> r in list && InRange(r.date, range)
    ensures Listed(a + b, Some(range)) == Listed(a, Some(range)) + Listed(b, Some(range))
  {
    var p := InRangeTest(range);
    forall r | r in Listed(list, Some(range)) ensures r in list && InRange(r.date, range) {
      var s := Filter(list, p);
      var k :| 0 <= k < |s| && s[k] == r;
      assert p(s[k]);
    }
    FilterConcat(a, b, p);
  }

  /** A missing (or empty) bound does not filter. */
  lemma {:induction false} NoBoundsListsAll(list: seq<SessionRecord>, from: Option<string>, to: Option<string>)
    requires !Bound(from) && !Bound(to)
    ensures Listed(list, Some(DateRange(from, to))) == list
  {
    FilterAll(list, InRangeTest(DateRange(from, to)));
  }

  /** `updateSession` on an unknown id returns nothing and writes nothing. */
  lemma UpdateUnknownId(list: seq<SessionRecord>, id: string, p: Patch)
    requires forall k :: 0 <= k < |list| ==> list[k].id != id
    ensures Updated(list, id, p) == (list, None)
  {
  }

  /** One key of the spread `{ ...old, ...patch }`: a key the patch gives
      holds the patch's value afterwards, a key it leaves out keeps the old
      value. */
  predicate Takes<T(==)>(f: Field<T>, before: T, after: T) {
    (f.Put? ==> after == f.value) && (f.Keep? ==> after == before)
  }

  /** `updateSession` on a known id replaces only the first record with that
      id, by the merge of that record and the patch; the result is pending
      whatever the patch says, every key the patch gives takes the patch's
      value, and every key the patch leaves out keeps its old value. */
  lemma UpdateKnownId(list: seq<SessionRecord>, id: string, p: Patch, i: nat)
    requires i < |list| && list[i].id == id
    requires forall k :: 0 <= k < i ==> list[k].id != id
    ensures var (l, r) := Updated(list, id, p);
      && r.Some? && |l| == |list| && l[i] == r.value
      && (forall k :: 0 <= k < |list| && k != i ==> l[k] == list[k])
      && r.value.syncState == Pending
      && Takes(p.id, id, r.value.id)
      && Takes(p.createdAt, list[i].createdAt, r.value.createdAt)
      && Takes(p.date, list[i].date, r.value.date)
      && Takes(p.startTime, list[i].startTime, r.value.startTime)
      && Takes(p.sessionType, list[i].sessionType, r.value.sessionType)
      && Takes(p.durationMin, list[i].durationMin, r.value.durationMin)
      && Takes(p.tags, list[i].tags, r.value.tags)
      && Takes(p.memo, list[i].memo, r.value.memo)
  {
    var j := FindIndex(list, id);
    assert j == Some(i);
  }

  /** Applying the same patch twice is the same as applying it once. */
  lemma PatchIdempotent(r: SessionRecord, p: Patch)
    ensures ApplyPatch(ApplyPatch(r, p), p) == ApplyPatch(r, p)
  {
  }

  /** `deleteSession` removes every record with the id and keeps the others in
      order; deleting twice is the same as deleting once. */
  lemma {:induction false} DeleteProperties(list: seq<SessionRecord>, id: string, a: seq<SessionRecord>)
    ensures forall k :: 0 <= k < |Deleted(list, id)| ==> Deleted(list, id)[k].id != id
    ensures forall k :: 0 <= k < |list| && list[k].id != id ==> list[k] in Deleted(list, id)
    ensures Deleted(a + list, id) == Deleted(a, id) + Deleted(list, id)
    ensures Deleted(Deleted(list, id), id) == Deleted(list, id)
  {
    var s := Deleted(list, id);
    forall k | 0 <= k < |s| ensures s[k].id != id {
      assert NotId(id)(s[k]);
    }
    FilterConcat(a, list, NotId(id));
    FilterIdempotent(list, NotId(id));
  }

  /** `markSynced` changes nothing but the sync state, and only of the first
      record with the id; an unknown id changes nothing. */
  lemma MarkSyncedChangesOnlyFirstMatch(list: seq<SessionRecord>, id: string)
    ensures var l := MarkedSynced(list, id);
      && |l| == |list|
      && (forall k :: 0 <= k < |list| ==> l[k].(syncState := list[k].syncState) == list[k])
      && (forall k :: 0 <= k < |list| && l[k] != list[k] ==>
            list[k].id == id && l[k].syncState == Synced && forall j :: 0 <= j < k ==> list[j].id != id)
      && (forall k :: 0 <= k < |list| && list[k].id == id && (forall j :: 0 <= j < k ==> list[j].id != id) ==>
            l[k].syncState == Synced)
      && ((forall k :: 0 <= k < |list| ==> list[k].id != id) ==> l == list)
  {
    var l := MarkedSynced(list, id);
    forall k | 0 <= k < |list| && list[k].id == id && (forall j :: 0 <= j < k ==> list[j].id != id)
      ensures l[k].syncState == Synced
    {
      var i := FindIndex(list, id);
      assert i.Some?;
      assert !(i.value < k) && !(k < i.value);
    }
  }

  /** `pendingSessions` returns exactly the records in state pending; records
      in state error are not among them. */
  lemma {:induction false} PendingExactlyPending(list: seq<SessionRecord>)
    ensures forall k :: 0 <= k < |list| && list[k].syncState == Pending ==> list[k] in PendingOf(list)
    ensures forall r :: r in PendingOf(list) ==> r in list && r.syncState == Pending
    ensures forall r :: r in PendingOf(list) ==> r.syncState != Error
  {
    forall r | r in PendingOf(list) ensures r in list && r.syncState == Pending {
      var s := PendingOf(list);
      var k :| 0 <= k < |s| && s[k] == r;
      assert IsPending(s[k]);
    }
  }

  /** No local operation ever puts a record into state error: that state is
      declared but never assigned. */
  lemma {:induction false} NoOperationAssignsError(list: seq<SessionRecord>, q: SessionQuick, id: string, createdAt: string, p: Patch)
    requires NoErrorState(list)
    ensures NoErrorState(list + [NewRecord(q, id, createdAt)])
    ensures NoErrorState(Updated(list, id, p).0)
    ensures NoErrorState(Deleted(list, id))
    ensures NoErrorState(MarkedSynced(list, id))
  {
    var d := Deleted(list, id);
    forall k | 0 <= k < |d| ensures d[k].syncState != Error {
      assert d[k] in list;
    }
  }

  /** Ids are unique in the list after an add with a fresh id, and after
      every other local operation that keeps the ids it had. */
  lemma {:induction false} FreshAddKeepsIdsUnique(list: seq<SessionRecord>, r: SessionRecord)
    requires UniqueIds(list)
    requires forall k :: 0 <= k < |list| ==> list[k].id != r.id
    ensures UniqueIds(list + [r])
  {
  }
}
