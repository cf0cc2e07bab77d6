/** The mapping between a local session record (camelCase keys) and a row of
    the remote `sessions` table (snake_case columns) in
    `src/lib/datastore/supabase.ts`. */
module RowMapping {
  import opened Wrappers
  import opened LocalDatastore

  /** A row of the remote table. `None` is SQL `null`; `userId` is the
      `user_id` column, which `toRow` sets only for a truthy user id and the
      select of `listSessions` never reads back. */
  datatype Row = Row(
    id: string,
    date: string,
    startTime: Option<string>,
    sessionType: string,
    durationMin: int,
    tags: Option<seq<string>>,
    memo: Option<string>,
    userId: Option<string>)

  /** `userId ? { user_id: userId } : {}`: only a non-empty id is truthy. */
  predicate Truthy(s: Option<string>) {
    s.Some? && s.value != ""
  }

  /** `toRow(session, userId)` */
  function ToRow(r: SessionRecord, userId: Option<string>): (row: Row)
    ensures row.tags.Some?
    ensures row.userId.Some? <==> Truthy(userId)
    ensures row.userId.Some? ==> row.userId == userId
  {
    Row(r.id, r.date, r.startTime, r.sessionType, r.durationMin, Some(r.tags), r.memo,
        if Truthy(userId) then userId else None)
  }

  /** `fromRow(row, base)`: `now` stands for `new Date().toISOString()`, the
      creation time used when there is no local record to take it from. */
  function FromRow(row: Row, base: Option<SessionRecord>, now: string): (r: SessionRecord)
    ensures r.syncState == Synced
    ensures r.id == row.id
    ensures base.Some? ==> r.createdAt == base.value.createdAt
    ensures base.None? ==> r.createdAt == now
    ensures row.tags.None? ==> r.tags == []
  {
    SessionRecord(
      row.id,
      if base.Some? then base.value.createdAt else now,
      Synced,
      row.date,
      row.startTime,
      row.sessionType,
      row.durationMin,
      row.tags.GetOr([]),
      row.memo)
  }

  /** Round trip record -> row -> record: everything comes back except the
      sync state, which becomes synced. */
  lemma RecordRoundTrip(r: SessionRecord, userId: Option<string>, now: string)
    ensures FromRow(ToRow(r, userId), Some(r), now) == r.(syncState := Synced)
  {
  }

  /** Round trip row -> record -> row: everything comes back except that a
      null tags column becomes the empty array and `user_id` is the one given. */
  lemma RowRoundTrip(row: Row, base: Option<SessionRecord>, now: string, userId: Option<string>)
    requires Truthy(userId)
    ensures ToRow(FromRow(row, base, now), userId) == row.(tags := Some(row.tags.GetOr([])), userId := userId)
  {
  }

  /** Two records that differ only in sync state map to the same row: the
      sync state is local metadata and never reaches the remote. */
  lemma SyncStateNotSent(r: SessionRecord, s: SyncState, userId: Option<string>)
    ensures ToRow(r.(syncState := s), userId) == ToRow(r, userId)
  {
  }
}
