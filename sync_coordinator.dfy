/** The remote-backed datastore of `src/lib/datastore/supabase.ts`: every
    operation goes to the local store first and then, best effort, to the
    remote table. The remote is an oracle: each call's answer (a user id or
    none, an upsert that succeeds, reports an error or throws, a select that
    returns rows or fails) is a parameter, so every path of the control flow
    can be stated. */
module SyncCoordinator {
  import opened Wrappers
  import opened Seqs
  import opened Schema
  import opened LocalDatastore
  import opened RowMapping

  /** What `supabase.auth.getSession()` yields: a session whose user has
      this id, no session, or an exception. */
  datatype AuthLookup = SessionUser(userId: string) | NoSession | LookupThrew

  /** The answer to one upsert or delete: `{ error: null }`, `{ error }`,
      or a throw. */
  datatype RemoteOutcome = Ok | RemoteError | Threw

  /** The answer to the select of `listSessions`. */
  datatype FetchOutcome = Fetched(data: Option<seq<Row>>) | FetchError | FetchThrew

  /** The id the lookup yields: only a truthy id counts, a thrown lookup
      yields none. */
  function LookedUp(auth: AuthLookup): (u: Option<string>)
    ensures u.Some? ==> Truthy(u)
  {
    if auth.SessionUser? && auth.userId != "" then Some(auth.userId) else None
  }

  /** The user id `ensureSupabaseUserId()` returns: none without a client,
      the cached id when it is truthy, otherwise the looked-up one. */
  function Resolved(hasClient: bool, cache: Option<string>, auth: AuthLookup): (u: Option<string>)
    ensures u.Some? ==> Truthy(u)
    ensures !hasClient ==> u.None?
    ensures hasClient && Truthy(cache) ==> u == cache
  {
    if !hasClient then None else if Truthy(cache) then cache else LookedUp(auth)
  }

  /** The cache after `ensureSupabaseUserId()`: a lookup overwrites it with
      its result, so a failed lookup clears it. */
  function CacheAfter(hasClient: bool, cache: Option<string>, auth: AuthLookup): Option<string> {
    if !hasClient || Truthy(cache) then cache else LookedUp(auth)
  }

  predicate NotSynced(r: SessionRecord) {
    r.syncState != Synced
  }

  /** `localAll.filter((s) => s.syncState !== "synced")` */
  function UnsyncedOf(list: seq<SessionRecord>): seq<SessionRecord> {
    Filter(list, NotSynced)
  }

  function UnsyncedIds(list: seq<SessionRecord>): set<string> {
    set r | r in list && r.syncState != Synced :: r.id
  }

  /** `new Map(localAll.map((s) => [s.id, s])).get(id)`: with repeated ids
      the map keeps the last record. */
  function LastWithId(list: seq<SessionRecord>, id: string): (r: Option<SessionRecord>)
    ensures r.Some? ==> r.value in list && r.value.id == id
    ensures r.None? <==> forall k :: 0 <= k < |list| ==> list[k].id != id
  {
    if list == [] then None
    else if list[|list| - 1].id == id then Some(list[|list| - 1])
    else LastWithId(list[..|list| - 1], id)
  }

  /** The records the merge loop pushes for the remote rows. */
  function RemoteRecords(localAll: seq<SessionRecord>, data: seq<Row>, now: string): seq<SessionRecord> {
    if data == [] then []
    else
      var row := data[|data| - 1];
      RemoteRecords(localAll, data[..|data| - 1], now)
      + (if row.id in UnsyncedIds(localAll) then [] else [FromRow(row, LastWithId(localAll, row.id), now)])
  }

  /** The collection the reconciling read writes back. */
  function Merged(localAll: seq<SessionRecord>, data: seq<Row>, now: string): seq<SessionRecord> {
    UnsyncedOf(localAll) + RemoteRecords(localAll, data, now)
  }

  /** The list after the retry sweep: `markSynced` for each pending record
      whose upsert (the `k`-th attempt) reported no error. */
  function Swept(store: seq<SessionRecord>, pending: seq<SessionRecord>, outcome: nat -> RemoteOutcome): seq<SessionRecord> {
    if pending == [] then store
    else
      var n := |pending| - 1;
      var prev := Swept(store, pending[..n], outcome);
      if outcome(n).Ok? then MarkedSynced(prev, pending[n].id) else prev
  }

  /** The merge loop of `listSessions`: the unsynced local records first,
      then one synced record per remote row whose id is not locally unsynced. */
  method MergeRemote(localAll: seq<SessionRecord>, data: seq<Row>, now: string) returns (merged: seq<SessionRecord>)
    ensures merged == Merged(localAll, data, now)
  {
    var pending := Filter(localAll, NotSynced);
    var pendingIds := set r | r in pending :: r.id;
    assert pendingIds == UnsyncedIds(localAll);
    merged := pending;
    var i := 0;
    while i < |data|
      invariant 0 <= i <= |data|
      invariant merged == pending + RemoteRecords(localAll, data[..i], now)
    {
      var row := data[i];
      assert data[..i + 1][..i] == data[..i];
      if row.id !in pendingIds {
        var base := LastWithId(localAll, row.id);
        merged := merged + [FromRow(row, base, now)];
      }
      i := i + 1;
    }
    assert data[..|data|] == data;
  }

  /** The module state of `supabase.ts` around the local store: whether a
      client is configured, and the cached user id. */
  class SyncStore {
    const local: LocalStore
    /** `supabase` is non-null: the URL and key are configured. */
    const hasClient: bool
    /** `cachedUserId` */
    var cachedUserId: Option<string>

    constructor (local: LocalStore, hasClient: bool)
      ensures this.local == local && this.hasClient == hasClient && cachedUserId == None
    {
      this.local := local;
      this.hasClient := hasClient;
      cachedUserId := None;
    }

    /** The `onAuthStateChange` listener: the cache follows the session. */
    method OnAuthStateChange(sessionUserId: Option<string>)
      modifies this
      ensures cachedUserId == sessionUserId
    {
      cachedUserId := sessionUserId;
    }

    /** `ensureSupabaseUserId()`, one call at a time. */
    method EnsureUserId(auth: AuthLookup) returns (u: Option<string>)
      modifies this
      ensures u == Resolved(hasClient, old(cachedUserId), auth)
      ensures cachedUserId == CacheAfter(hasClient, old(cachedUserId), auth)
    {
      if !hasClient {
        return None;
      }
      if Truthy(cachedUserId) {
        return cachedUserId;
      }
      var fetched := LookedUp(auth);
      if fetched.Some? {
        cachedUserId := fetched;
      }
      u := fetched;
      if u.None? {
        cachedUserId := None;
      }
    }

    /** `addSession(input)`: the local add decides the result; the record
      is marked synced only after an upsert that reported no error. `sent`
      is the row upserted, if any. */
    method AddSession(input: RawInput, id: string, createdAt: string, auth: AuthLookup, upsert: RemoteOutcome)
      returns (r: Result<SessionRecord, seq<FieldName>>, sent: Option<Row>)
      modifies this, local
      ensures r.Failure? <==> !IsValid(input)
      ensures r.Failure? ==> r.error == Issues(input) && sent.None?
                             && local.sessions == old(local.sessions) && cachedUserId == old(cachedUserId)
      ensures r.Success? ==>
        var u := Resolved(hasClient, old(cachedUserId), auth);
        var added := old(local.sessions) + [r.value];
        && r.value == NewRecord(Parse(input).value, id, createdAt)
        && r.value.syncState == Pending
        && sent == (if u.Some? then Some(ToRow(r.value, u)) else None)
        && local.sessions == (if sent.Some? && upsert.Ok? then MarkedSynced(added, id) else added)
        && cachedUserId == CacheAfter(hasClient, old(cachedUserId), auth)
    {
      r := local.AddSession(input, id, createdAt);
      sent := None;
      if r.Failure? || !hasClient {
        return;
      }
      var userId := EnsureUserId(auth);
      if userId.None? {
        return;
      }
      sent := Some(ToRow(r.value, userId));
      if upsert.Ok? {
        local.MarkSynced(r.value.id);
      }
    }

    /** `updateSession(id, patch)`: the local update decides the result;
      `markSynced` is called with the id asked for, after an upsert of the
      updated record that reported no error. */
    method UpdateSession(id: string, patch: Patch, auth: AuthLookup, upsert: RemoteOutcome)
      returns (r: Option<SessionRecord>, sent: Option<Row>)
      modifies this, local
      ensures
        var (updated, result) := Updated(old(local.sessions), id, patch);
        var u := if result.None? then None else Resolved(hasClient, old(cachedUserId), auth);
        && r == result
        && sent == (if u.Some? then Some(ToRow(r.value, u)) else None)
        && local.sessions == (if sent.Some? && upsert.Ok? then MarkedSynced(updated, id) else updated)
        && cachedUserId == (if result.None? then old(cachedUserId) else CacheAfter(hasClient, old(cachedUserId), auth))
    {
      r := local.UpdateSession(id, patch);
      sent := None;
      if r.None? || !hasClient {
        return;
      }
      var userId := EnsureUserId(auth);
      if userId.None? {
        return;
      }
      sent := Some(ToRow(r.value, userId));
      if upsert.Ok? {
        local.MarkSynced(id);
      }
    }

    /** `deleteSession(id)`: the local delete stands whatever the remote
      answers (`outcome`); `deleteSent` tells whether a remote delete was
      issued. */
    method DeleteSession(id: string, auth: AuthLookup, outcome: RemoteOutcome) returns (deleteSent: bool)
      modifies this, local
      ensures local.sessions == Deleted(old(local.sessions), id)
      ensures deleteSent <==> Resolved(hasClient, old(cachedUserId), auth).Some?
      ensures cachedUserId == CacheAfter(hasClient, old(cachedUserId), auth)
    {
      local.DeleteSession(id);
      deleteSent := false;
      if !hasClient {
        return;
      }
      var userId := EnsureUserId(auth);
      if userId.None? {
        return;
      }
      deleteSent := true;
    }

    /** `getSession(id)`: the local lookup. */
    method GetSession(id: string) returns (r: Option<SessionRecord>)
      ensures r == Found(local.sessions, id)
    {
      r := local.GetSession(id);
    }

    /** `listSessions(params)`: the plain local list unless a client, a user
      and a successful select with data are all there; then the merge
      replaces the local collection and the list is read from it. */
    method ListSessions(params: Option<DateRange>, auth: AuthLookup, fetch: FetchOutcome, now: string)
      returns (r: seq<SessionRecord>)
      modifies this, local
      ensures cachedUserId == CacheAfter(hasClient, old(cachedUserId), auth)
      ensures
        var u := Resolved(hasClient, old(cachedUserId), auth);
        if u.Some? && fetch.Fetched? && fetch.data.Some? then
          && local.sessions == Merged(old(local.sessions), fetch.data.value, now)
          && r == Listed(local.sessions, params)
        else
          local.sessions == old(local.sessions) && r == Listed(old(local.sessions), params)
    {
      var fallback := local.ListSessions(params);
      r := fallback;
      if !hasClient {
        return;
      }
      var userId := EnsureUserId(auth);
      if userId.None? || !fetch.Fetched? || fetch.data.None? {
        return;
      }
      var localAll := fallback;
      if params.Some? {
        localAll := local.ListSessions(None);
      }
      var merged := MergeRemote(localAll, fetch.data.value, now);
      local.ReplaceAllSessions(merged);
      r := local.ListSessions(params);
    }

    /** `retrySyncAll()`: one upsert attempt per pending record, in order,
      none skipped because an earlier one failed; `outcome(k)` answers the
      `k`-th attempt and `attempts` are the rows sent. */
    method RetrySyncAll(auth: AuthLookup, outcome: nat -> RemoteOutcome) returns (attempts: seq<Row>)
      modifies this, local
      ensures cachedUserId == CacheAfter(hasClient, old(cachedUserId), auth)
      ensures
        var u := Resolved(hasClient, old(cachedUserId), auth);
        var pending := PendingOf(old(local.sessions));
        if u.None? then
          attempts == [] && local.sessions == old(local.sessions)
        else
          && |attempts| == |pending|
          && (forall k :: 0 <= k < |pending| ==> attempts[k] == ToRow(pending[k], u))
          && local.sessions == Swept(old(local.sessions), pending, outcome)
    {
      attempts := [];
      if !hasClient {
        return;
      }
      var userId := EnsureUserId(auth);
      if userId.None? {
        return;
      }
      var pending := local.PendingSessions();
      var i := 0;
      while i < |pending|
        invariant 0 <= i <= |pending|
        invariant cachedUserId == CacheAfter(hasClient, old(cachedUserId), auth)
        invariant |attempts| == i && forall k :: 0 <= k < i ==> attempts[k] == ToRow(pending[k], userId)
        invariant local.sessions == Swept(old(local.sessions), pending[..i], outcome)
      {
        var session := pending[i];
        attempts := attempts + [ToRow(session, userId)];
        assert pending[..i + 1][..i] == pending[..i];
        if outcome(i).Ok? {
          local.MarkSynced(session.id);
        }
        i := i + 1;
      }
      assert pending[..|pending|] == pending;
    }
  }

  function RowIds(data: seq<Row>): set<string> {
    set row | row in data :: row.id
  }

  /** What the merge loop pushes: synced records, one per remote row whose
      id is not locally unsynced, built on the local record of that id. */
  lemma RemoteRecordsShape(localAll: seq<SessionRecord>, data: seq<Row>, now: string)
    ensures forall m :: m in RemoteRecords(localAll, data, now) ==>
              m.syncState == Synced && m.id !in UnsyncedIds(localAll) && m.id in RowIds(data)
    ensures forall i :: 0 <= i < |data| && data[i].id !in UnsyncedIds(localAll) ==>
              FromRow(data[i], LastWithId(localAll, data[i].id), now) in RemoteRecords(localAll, data, now)
  {
    forall m | m in RemoteRecords(localAll, data, now)
      ensures m.syncState == Synced && m.id !in UnsyncedIds(localAll) && m.id in RowIds(data)
    {
      RemoteRecordFrom(localAll, data, now, m);
      var i :| 0 <= i < |data| && data[i].id == m.id;
      assert data[i] in data;
    }
    forall i | 0 <= i < |data| && data[i].id !in UnsyncedIds(localAll)
      ensures FromRow(data[i], LastWithId(localAll, data[i].id), now) in RemoteRecords(localAll, data, now)
    {
      RemoteRecordOf(localAll, data, now, i);
    }
  }

  /** A pushed record is synced and comes from a remote row whose id is not
      locally unsynced. */
  lemma {:induction false} RemoteRecordFrom(localAll: seq<SessionRecord>, data: seq<Row>, now: string, m: SessionRecord)
    requires m in RemoteRecords(localAll, data, now)
    ensures m.syncState == Synced && m.id !in UnsyncedIds(localAll)
    ensures exists i :: 0 <= i < |data| && data[i].id == m.id
  {
    var n := |data| - 1;
    var row := data[n];
    if m in RemoteRecords(localAll, data[..n], now) {
      RemoteRecordFrom(localAll, data[..n], now, m);
      var i :| 0 <= i < n && data[..n][i].id == m.id;
      assert data[i].id == m.id;
    } else {
      assert data[n].id == m.id;
    }
  }

  /** Each remote row whose id is not locally unsynced is pushed. */
  lemma {:induction false} RemoteRecordOf(localAll: seq<SessionRecord>, data: seq<Row>, now: string, i: nat)
    requires i < |data| && data[i].id !in UnsyncedIds(localAll)
    ensures FromRow(data[i], LastWithId(localAll, data[i].id), now) in RemoteRecords(localAll, data, now)
  {
    var n := |data| - 1;
    if i < n {
      assert data[..n][i] == data[i];
      RemoteRecordOf(localAll, data[..n], now, i);
    }
  }

  /** The reconciling read loses no local edit: every record that is not
      synced survives unchanged, a merged record with a locally unsynced id
      is the local one, every other remote row comes back synced, and a
      synced local record the remote no longer has is dropped. */
  lemma {:induction false} MergeProperties(localAll: seq<SessionRecord>, data: seq<Row>, now: string)
    ensures var merged := Merged(localAll, data, now);
      && (forall k :: 0 <= k < |localAll| && localAll[k].syncState != Synced ==> localAll[k] in merged)
      && (forall m :: m in merged && m.id in UnsyncedIds(localAll) ==> m in localAll && m.syncState != Synced)
      && (forall i :: 0 <= i < |data| && data[i].id !in UnsyncedIds(localAll) ==>
            FromRow(data[i], LastWithId(localAll, data[i].id), now) in merged)
      && (forall r :: r in localAll && r.syncState == Synced && r.id !in RowIds(data) ==> r !in merged)
      && (NoErrorState(localAll) ==> NoErrorState(merged))
  {
    RemoteRecordsShape(localAll, data, now);
    MergeKeepsUnsynced(localAll, data, now);
    MergeUnsyncedIdsAreLocal(localAll, data, now);
    MergeKeepsNoError(localAll, data, now);
  }

  /** No record that is not synced is lost by the merge. */
  lemma MergeKeepsUnsynced(localAll: seq<SessionRecord>, data: seq<Row>, now: string)
    ensures forall k :: 0 <= k < |localAll| && localAll[k].syncState != Synced ==> localAll[k] in Merged(localAll, data, now)
  {
    var keep := UnsyncedOf(localAll);
    forall k | 0 <= k < |localAll| && localAll[k].syncState != Synced ensures localAll[k] in Merged(localAll, data, now) {
      assert NotSynced(localAll[k]);
      assert localAll[k] in keep;
    }
  }

  /** A merged record whose id is locally unsynced is the local record. */
  lemma MergeUnsyncedIdsAreLocal(localAll: seq<SessionRecord>, data: seq<Row>, now: string)
    ensures forall m :: m in Merged(localAll, data, now) && m.id in UnsyncedIds(localAll) ==> m in localAll && m.syncState != Synced
  {
    var keep := UnsyncedOf(localAll);
    var remote := RemoteRecords(localAll, data, now);
    RemoteRecordsShape(localAll, data, now);
    forall m | m in Merged(localAll, data, now) && m.id in UnsyncedIds(localAll) ensures m in localAll && m.syncState != Synced {
      if m in remote {
        assert false;
      }
      assert m in keep;
      var k :| 0 <= k < |keep| && keep[k] == m;
    }
  }

  /** The merge brings no record into state error. */
  lemma MergeKeepsNoError(localAll: seq<SessionRecord>, data: seq<Row>, now: string)
    ensures NoErrorState(localAll) ==> NoErrorState(Merged(localAll, data, now))
  {
    var merged := Merged(localAll, data, now);
    var keep := UnsyncedOf(localAll);
    var remote := RemoteRecords(localAll, data, now);
    if NoErrorState(localAll) {
      RemoteRecordsShape(localAll, data, now);
      forall k | 0 <= k < |merged| ensures merged[k].syncState != Error {
        if k < |keep| {
          assert keep[k] in localAll;
          var j :| 0 <= j < |localAll| && localAll[j] == keep[k];
        } else {
          assert merged[k] == remote[k - |keep|];
          assert merged[k] in remote;
        }
      }
    }
  }

  /** A record left in state error (which no operation of the model sets)
      is kept by every merge, yet `retrySyncAll` never attempts it, because
      `pendingSessions` selects state pending only. */
  lemma ErrorRecordNeverRetried(store: seq<SessionRecord>, k: nat, data: seq<Row>, now: string)
    requires k < |store| && store[k].syncState == Error
    ensures store[k] in Merged(store, data, now)
    ensures store[k] !in PendingOf(store)
  {
    MergeProperties(store, data, now);
    PendingExactlyPending(store);
  }

  /** `markSynced` finds the first record with the id in the old part of a
      list before it looks at a record appended to it. */
  lemma MarkedSyncedAppend(l: seq<SessionRecord>, x: SessionRecord, id: string)
    ensures FindIndex(l, id).Some? ==> MarkedSynced(l + [x], id) == MarkedSynced(l, id) + [x]
    ensures FindIndex(l, id).None? && x.id == id ==> MarkedSynced(l + [x], id) == l + [x.(syncState := Synced)]
  {
    assert forall k :: 0 <= k < |l| ==> (l + [x])[k] == l[k];
    assert (l + [x])[|l|] == x;
  }

  /** `markSynced` looks at ids only. */
  lemma {:induction false} FindIndexSameIds(l1: seq<SessionRecord>, l2: seq<SessionRecord>, id: string)
    requires |l1| == |l2| && forall k :: 0 <= k < |l1| ==> l1[k].id == l2[k].id
    ensures FindIndex(l1, id) == FindIndex(l2, id)
  {
    if l1 != [] && l1[0].id != id {
      FindIndexSameIds(l1[1..], l2[1..], id);
    }
  }

  /** The sweep changes sync states only. */
  lemma {:induction false} SweptShape(a: seq<SessionRecord>, ps: seq<SessionRecord>, oc: nat -> RemoteOutcome)
    ensures |Swept(a, ps, oc)| == |a|
    ensures forall k :: 0 <= k < |a| ==> Swept(a, ps, oc)[k].(syncState := a[k].syncState) == a[k]
  {
    if ps != [] {
      var n := |ps| - 1;
      SweptShape(a, ps[..n], oc);
      MarkSyncedChangesOnlyFirstMatch(Swept(a, ps[..n], oc), ps[n].id);
    }
  }

  /** Sweeping records whose ids all occur in `a` leaves a record appended
      after `a` alone. */
  lemma {:induction false} SweptAppend(a: seq<SessionRecord>, x: SessionRecord, ps: seq<SessionRecord>, oc: nat -> RemoteOutcome)
    requires forall j :: 0 <= j < |ps| ==> FindIndex(a, ps[j].id).Some?
    ensures Swept(a + [x], ps, oc) == Swept(a, ps, oc) + [x]
  {
    if ps != [] {
      var n := |ps| - 1;
      SweptAppend(a, x, ps[..n], oc);
      var prev := Swept(a, ps[..n], oc);
      SweptShape(a, ps[..n], oc);
      assert forall k :: 0 <= k < |a| ==> prev[k].id == a[k].id by {
        forall k | 0 <= k < |a| ensures prev[k].id == a[k].id {
          assert prev[k].(syncState := a[k].syncState) == a[k];
        }
      }
      FindIndexSameIds(prev, a, ps[n].id);
      MarkedSyncedAppend(prev, x, ps[n].id);
    }
  }

  /** One record appended to the store: the sweep treats the old part as
      before and the new record with the next attempt, if it is pending. */
  lemma SweptLast(a: seq<SessionRecord>, x: SessionRecord, oc: nat -> RemoteOutcome)
    requires forall k :: 0 <= k < |a| ==> a[k].id != x.id
    ensures Swept(a + [x], PendingOf(a + [x]), oc)
            == Swept(a, PendingOf(a), oc)
               + [if IsPending(x) && oc(|PendingOf(a)|).Ok? then x.(syncState := Synced) else x]
  {
    var store := a + [x];
    assert store[..|a|] == a;
    var pa := PendingOf(a);
    forall j | 0 <= j < |pa| ensures FindIndex(a, pa[j].id).Some? {
      assert pa[j] in a;
      var k :| 0 <= k < |a| && a[k] == pa[j];
    }
    SweptAppend(a, x, pa, oc);
    var sa := Swept(a, pa, oc);
    if IsPending(x) {
      var ps := PendingOf(store);
      assert ps == pa + [x];
      assert ps[..|pa|] == pa;
      SweptShape(a, pa, oc);
      FindIndexSameIds(sa, a, x.id) by {
        forall k | 0 <= k < |a| ensures sa[k].id == a[k].id {
          assert sa[k].(syncState := a[k].syncState) == a[k];
        }
      }
      MarkedSyncedAppend(sa, x, x.id);
    } else {
      assert PendingOf(store) == pa;
    }
  }

  /** The record at position `j` after the sweep, if each pending record's
      own attempt decides it: that attempt is numbered by the pending records
      before it. */
  function SweptAt(store: seq<SessionRecord>, oc: nat -> RemoteOutcome, j: nat): SessionRecord
    requires j < |store|
  {
    if store[j].syncState == Pending && oc(|PendingOf(store[..j])|).Ok?
    then store[j].(syncState := Synced) else store[j]
  }

  /** With unique ids, `retrySyncAll` marks synced exactly the pending
      records whose own attempt succeeded. */
  lemma {:induction false} SweepMarksExactlySucceeded(store: seq<SessionRecord>, oc: nat -> RemoteOutcome)
    requires UniqueIds(store)
    ensures var s := Swept(store, PendingOf(store), oc);
      |s| == |store| && forall j :: 0 <= j < |store| ==> s[j] == SweptAt(store, oc, j)
  {
    if store != [] {
      var n := |store| - 1;
      var a := store[..n];
      var x := store[n];
      assert store == a + [x];
      assert UniqueIds(a);
      SweepMarksExactlySucceeded(a, oc);
      assert forall k :: 0 <= k < |a| ==> a[k].id != x.id by {
        forall k | 0 <= k < |a| ensures a[k].id != x.id {
          assert store[k] == a[k];
        }
      }
      SweptLast(a, x, oc);
      forall j | 0 <= j < n ensures SweptAt(store, oc, j) == SweptAt(a, oc, j) {
        assert store[..j] == a[..j];
      }
      assert SweptAt(store, oc, n) == (if IsPending(x) && oc(|PendingOf(a)|).Ok? then x.(syncState := Synced) else x);
    }
  }
}
