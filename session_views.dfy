/** The views of a session record that the pages compute over the list
    `listSessions` returns: its duration, type and month, the date-and-time
    text they order sessions by, and its tags after `trim`. */
module SessionViews {
  import opened Wrappers
  import opened Text
  import opened Seqs
  import opened Schema
  import opened LocalDatastore

  function DurationOf(r: SessionRecord): int {
    r.durationMin
  }

  function TypeOf(r: SessionRecord): string {
    r.sessionType
  }

  function DateOf(r: SessionRecord): string {
    r.date
  }

  /** `(session) => session.type === t` */
  function HasType(t: string): SessionRecord -> bool {
    (r: SessionRecord) => r.sessionType == t
  }

  /** `` `${date} ${startTime ?? "00:00"}` ``, the text dayjs reads to place a
      session in time. */
  function DateTimeKey(r: SessionRecord): string {
    r.date + " " + r.startTime.GetOr("00:00")
  }

  /** The comparator `dateA - dateB`: earlier sessions first. */
  predicate EarlierFirst(a: SessionRecord, b: SessionRecord) {
    StrLe(DateTimeKey(a), DateTimeKey(b))
  }

  /** The comparator `dateB - dateA`: later sessions first. */
  predicate LaterFirst(a: SessionRecord, b: SessionRecord) {
    StrLe(DateTimeKey(b), DateTimeKey(a))
  }

  /** Both session orders are total preorders, so sorting by them yields a
      sorted permutation. */
  lemma SessionOrdersArePreorders()
    ensures Total(EarlierFirst) && Transitive(EarlierFirst)
    ensures Total(LaterFirst) && Transitive(LaterFirst)
  {
    forall a, b ensures EarlierFirst(a, b) || EarlierFirst(b, a) {
      StrLeTotal(DateTimeKey(a), DateTimeKey(b));
    }
    forall a, b, c | EarlierFirst(a, b) && EarlierFirst(b, c) ensures EarlierFirst(a, c) {
      StrLeTransitive(DateTimeKey(a), DateTimeKey(b), DateTimeKey(c));
    }
    forall a, b ensures LaterFirst(a, b) || LaterFirst(b, a) {
      StrLeTotal(DateTimeKey(a), DateTimeKey(b));
    }
    forall a, b, c | LaterFirst(a, b) && LaterFirst(b, c) ensures LaterFirst(a, c) {
      StrLeTransitive(DateTimeKey(c), DateTimeKey(b), DateTimeKey(a));
    }
  }

  /** `dayjs(date).format("YYYY-MM")` on an ISO 8601 date: its first seven
      characters. */
  function MonthOf(date: string): string {
    if |date| >= 7 then date[..7] else date
  }

  function SessionMonth(r: SessionRecord): string {
    MonthOf(r.date)
  }

  /** The tags of every session, session by session. */
  function AllTags(sessions: seq<SessionRecord>): seq<string> {
    if sessions == [] then []
    else AllTags(sessions[..|sessions| - 1]) + sessions[|sessions| - 1].tags
  }

  /** Every tag occurrence after `trim`, blank ones dropped: what the
      nested `forEach` over sessions and their tags visits and keeps. */
  function TagOccurrences(sessions: seq<SessionRecord>): (r: seq<string>)
    ensures forall k :: 0 <= k < |r| ==> r[k] != ""
  {
    NonBlankTrimmed(AllTags(sessions))
  }

  lemma TagOccurrencesStep(sessions: seq<SessionRecord>, x: SessionRecord)
    ensures TagOccurrences(sessions + [x]) == TagOccurrences(sessions) + NonBlankTrimmed(x.tags)
  {
    assert (sessions + [x])[..|sessions|] == sessions;
    NonBlankTrimmedConcat(AllTags(sessions), x.tags);
  }

  predicate NotBaseType(t: string) {
    t !in SessionTypes
  }

  /** `[...baseOrder, ...types.filter((t) => !baseOrder.includes(t))]`, the
      base order being the keys of the type labels, which are the four
      session types in schema order. After them come the other types, in
      the order `types` lists them. */
  function BaseTypesFirst(types: seq<string>): (r: seq<string>)
    ensures |r| >= 4 && r[..4] == SessionTypes
    ensures Distinct(types) ==> Distinct(r)
    ensures forall i :: 0 <= i < |types| ==> types[i] in r
    ensures forall i :: 0 <= i < |r| ==> r[i] in SessionTypes || r[i] in types
    ensures forall i :: 4 <= i < |r| ==> r[i] !in SessionTypes
    ensures Distinct(types) ==> FollowsOrderOf(r[4..], types)
  {
    FilterKeepsDistinct(types, NotBaseType);
    FilterFollowsOrder(types, NotBaseType);
    var r := SessionTypes + Filter(types, NotBaseType);
    assert r[4..] == Filter(types, NotBaseType);
    r
  }

  function TypesOf(sessions: seq<SessionRecord>): (r: seq<string>)
    ensures |r| == |sessions| && forall i :: 0 <= i < |r| ==> r[i] == sessions[i].sessionType
  {
    seq(|sessions|, i requires 0 <= i < |sessions| => sessions[i].sessionType)
  }

  /** `totals[type] = (totals[type] ?? 0) + session.durationMin` for each
      session in turn: the duration per type. */
  function TotalsMap(sessions: seq<SessionRecord>): map<string, int> {
    if sessions == [] then map[]
    else
      var m := TotalsMap(sessions[..|sessions| - 1]);
      var x := sessions[|sessions| - 1];
      m[x.sessionType := Lookup(m, x.sessionType) + x.durationMin]
  }

  lemma TotalsSnoc(sessions: seq<SessionRecord>, x: SessionRecord)
    ensures var m := TotalsMap(sessions);
      TotalsMap(sessions + [x]) == m[x.sessionType := Lookup(m, x.sessionType) + x.durationMin]
  {
    assert (sessions + [x])[..|sessions|] == sessions;
  }

  /** The totals dictionary: a key per type that occurs, each holding the
      durations of that type added up. */
  lemma {:induction false} TotalsMapSums(sessions: seq<SessionRecord>)
    ensures forall t :: t in TotalsMap(sessions) <==> t in TypesOf(sessions)
    ensures forall t :: Lookup(TotalsMap(sessions), t) == SumWhere(sessions, TypeOf, t, DurationOf)
    decreases |sessions|
  {
    if sessions != [] {
      var n := |sessions| - 1;
      TotalsMapSums(sessions[..n]);
      assert TypesOf(sessions) == TypesOf(sessions[..n]) + [sessions[n].sessionType];
    }
  }

  /** One type's key: present exactly when a session has that type. */
  lemma TotalsHas(sessions: seq<SessionRecord>, t: string)
    ensures t in TotalsMap(sessions) <==> t in TypesOf(sessions)
  {
    TotalsMapSums(sessions);
  }

  /** A type occurs exactly when some session has it. */
  lemma TypesOfHas(sessions: seq<SessionRecord>, t: string)
    ensures t in TypesOf(sessions) <==> exists x :: x in sessions && x.sessionType == t
  {
    if t in TypesOf(sessions) {
      var i :| 0 <= i < |sessions| && TypesOf(sessions)[i] == t;
      assert sessions[i] in sessions;
    }
    if exists x :: x in sessions && x.sessionType == t {
      var x :| x in sessions && x.sessionType == t;
      var i :| 0 <= i < |sessions| && sessions[i] == x;
      assert TypesOf(sessions)[i] == t;
    }
  }
}
