/** The tag analysis page, `src/app/log/tag-analysis/page.tsx`: the stored
    sessions narrowed to one type, grouped by trimmed tag into entries
    (the sessions carrying the tag, latest first, and their total
    duration), the entries ranked, and then narrowed by a text query. */
module TagAnalysis {
  import opened Text
  import opened Seqs
  import opened LocalDatastore
  import opened SessionViews

  /** `typeFilter === "all"` shows every session; any other value keeps the
      sessions of that type, in order. */
  function FilteredSessions(sessions: seq<SessionRecord>, typeFilter: string): (r: seq<SessionRecord>)
    ensures typeFilter == "all" ==> r == sessions
    ensures typeFilter != "all" ==> forall x ::
      multiset(r)[x] == if x.sessionType == typeFilter then multiset(sessions)[x] else 0
  {
    if typeFilter == "all" then sessions
    else
      var p := HasType(typeFilter);
      forall x ensures multiset(Filter(sessions, p))[x] == if p(x) then multiset(sessions)[x] else 0 {
        FilterCount(sessions, p, x);
      }
      Filter(sessions, p)
  }

  /** The type filter keeps the sessions in their stored order: it
      distributes over concatenation, and keeps a single session exactly
      when its type is the selected one or every type is shown. */
  lemma FilteredSessionsInOrder(a: seq<SessionRecord>, b: seq<SessionRecord>, x: SessionRecord, typeFilter: string)
    ensures FilteredSessions(a + b, typeFilter) == FilteredSessions(a, typeFilter) + FilteredSessions(b, typeFilter)
    ensures FilteredSessions([x], typeFilter) == if typeFilter == "all" || x.sessionType == typeFilter then [x] else []
  {
    if typeFilter != "all" {
      FilterConcat(a, b, HasType(typeFilter));
      assert [x][..0] == [];
    }
  }

  /** `{ tag, sessions, totalDuration }` */
  datatype TagEntry = TagEntry(tag: string, sessions: seq<SessionRecord>, totalDuration: int)

  /** One `map.get(normalized)?.push(session)`: the tag and the session
      pushed under it. */
  datatype Push = Push(tag: string, session: SessionRecord)

  /** The pushes of one session: one per tag, in tag order. */
  function Paired(tags: seq<string>, s: SessionRecord): seq<Push> {
    if tags == [] then []
    else Paired(tags[..|tags| - 1], s) + [Push(tags[|tags| - 1], s)]
  }

  lemma PairedSnoc(tags: seq<string>, t: string, s: SessionRecord)
    ensures Paired(tags + [t], s) == Paired(tags, s) + [Push(t, s)]
  {
    assert (tags + [t])[..|tags|] == tags;
  }

  lemma {:induction false} PairedAt(tags: seq<string>, s: SessionRecord)
    ensures |Paired(tags, s)| == |tags|
    ensures forall i :: 0 <= i < |tags| ==> Paired(tags, s)[i] == Push(tags[i], s)
    decreases |tags|
  {
    if tags != [] {
      PairedAt(tags[..|tags| - 1], s);
    }
  }

  /** Every push of the nested `forEach`, in order: each session is pushed
      once under each of its trimmed, non-blank tags. */
  function Pushes(sessions: seq<SessionRecord>): seq<Push> {
    if sessions == [] then []
    else
      var x := sessions[|sessions| - 1];
      Pushes(sessions[..|sessions| - 1]) + Paired(NonBlankTrimmed(x.tags), x)
  }

  function TagsPushed(p: seq<Push>): (r: seq<string>)
    ensures |r| == |p| && forall i :: 0 <= i < |r| ==> r[i] == p[i].tag
  {
    seq(|p|, i requires 0 <= i < |p| => p[i].tag)
  }

  lemma TagsPushedConcat(a: seq<Push>, b: seq<Push>)
    ensures TagsPushed(a + b) == TagsPushed(a) + TagsPushed(b)
  {
  }

  lemma TagsPushedPaired(ts: seq<string>, x: SessionRecord)
    ensures TagsPushed(Paired(ts, x)) == ts
  {
    PairedAt(ts, x);
  }

  /** The tags pushed are the tag occurrences of the sessions. */
  lemma {:induction false} PushedTags(sessions: seq<SessionRecord>)
    ensures TagsPushed(Pushes(sessions)) == TagOccurrences(sessions)
    decreases |sessions|
  {
    if sessions != [] {
      var n := |sessions| - 1;
      var x := sessions[n];
      var before, ts := Pushes(sessions[..n]), NonBlankTrimmed(x.tags);
      PushedTags(sessions[..n]);
      assert sessions == sessions[..n] + [x];
      TagOccurrencesStep(sessions[..n], x);
      TagsPushedConcat(before, Paired(ts, x));
      TagsPushedPaired(ts, x);
    }
  }

  /** A push of tag `t` and session `x` happens exactly when `x` is one of
      the sessions and `t` one of its trimmed, non-blank tags. */
  lemma {:induction false} PushesMembers(sessions: seq<SessionRecord>, t: string, x: SessionRecord)
    ensures Push(t, x) in Pushes(sessions) <==> x in sessions && t in NonBlankTrimmed(x.tags)
    decreases |sessions|
  {
    if sessions != [] {
      var n := |sessions| - 1;
      var y := sessions[n];
      PushesMembers(sessions[..n], t, x);
      assert sessions == sessions[..n] + [y];
      var q := Paired(NonBlankTrimmed(y.tags), y);
      assert Push(t, x) in q <==> x == y && t in NonBlankTrimmed(y.tags) by {
        PairedAt(NonBlankTrimmed(y.tags), y);
        if Push(t, x) in q {
          var i :| 0 <= i < |q| && q[i] == Push(t, x);
        }
        if x == y && t in NonBlankTrimmed(y.tags) {
          var i :| 0 <= i < |NonBlankTrimmed(y.tags)| && NonBlankTrimmed(y.tags)[i] == t;
          assert q[i] == Push(t, x);
        }
      }
    }
  }

  /** The sessions pushed under `t`, in push order. */
  function Group(p: seq<Push>, t: string): seq<SessionRecord> {
    if p == [] then []
    else
      var last := p[|p| - 1];
      Group(p[..|p| - 1], t) + (if last.tag == t then [last.session] else [])
  }

  /** The group of `t` holds one session per push under `t`: as many as `t`
      occurs among the pushed tags, each with a push under `t`, and every
      session pushed under `t`. */
  lemma {:induction false} GroupContents(p: seq<Push>, t: string)
    ensures |Group(p, t)| == multiset(TagsPushed(p))[t]
    ensures forall x :: x in Group(p, t) <==> Push(t, x) in p
    decreases |p|
  {
    if p != [] {
      var n := |p| - 1;
      GroupContents(p[..n], t);
      assert p == p[..n] + [p[n]];
      assert TagsPushed(p) == TagsPushed(p[..n]) + [p[n].tag];
    }
  }

  /** The `Map` the nested `forEach` fills: `map.set(normalized, [])` the
      first time a tag is seen, then a push of the session. */
  function GroupMap(p: seq<Push>): map<string, seq<SessionRecord>> {
    if p == [] then map[]
    else
      var m := GroupMap(p[..|p| - 1]);
      var last := p[|p| - 1];
      m[last.tag := (if last.tag in m then m[last.tag] else []) + [last.session]]
  }

  /** The map holds, for each tag pushed and only those, its group. */
  lemma {:induction false} GroupMapGroups(p: seq<Push>)
    ensures forall t :: t in GroupMap(p) <==> t in TagsPushed(p)
    ensures forall t :: t in GroupMap(p) ==> GroupMap(p)[t] == Group(p, t)
    decreases |p|
  {
    if p != [] {
      var n := |p| - 1;
      var q, last := p[..n], p[n];
      GroupMapGroups(q);
      assert TagsPushed(p) == TagsPushed(q) + [last.tag];
      forall t | t in GroupMap(p) ensures GroupMap(p)[t] == Group(p, t) {
        if t == last.tag && t !in GroupMap(q) {
          GroupContents(q, t);
        }
      }
    }
  }

  lemma GroupMapAt(p: seq<Push>, t: string)
    requires t in TagsPushed(p)
    ensures t in GroupMap(p) && GroupMap(p)[t] == Group(p, t)
  {
    GroupMapGroups(p);
  }

  /** One push more: the list of its tag grows by its session, starting
      from an empty list the first time the tag is seen. */
  lemma GroupMapSnoc(p: seq<Push>, t: string, x: SessionRecord)
    ensures var m := GroupMap(p);
      GroupMap(p + [Push(t, x)]) == m[t := (if t in m then m[t] else []) + [x]]
  {
    assert (p + [Push(t, x)])[..|p|] == p;
  }

  /** The key order grows by the tag when the map has no list for it yet. */
  lemma PushKeyStep(p: seq<Push>, t: string, x: SessionRecord)
    ensures FirstAppearance(TagsPushed(p + [Push(t, x)]))
         == FirstAppearance(TagsPushed(p)) + (if t in GroupMap(p) then [] else [t])
  {
    assert TagsPushed(p + [Push(t, x)]) == TagsPushed(p) + [t];
    FirstAppearanceSnoc(TagsPushed(p), t);
    FirstAppearanceHas(TagsPushed(p), t);
    GroupMapGroups(p);
  }

  /** The entry built for `t`: its sessions latest first, and the total of
      their durations. */
  function EntryFor(p: seq<Push>, t: string): TagEntry {
    var list := Sort(Group(p, t), LaterFirst);
    TagEntry(t, list, Sum(list, DurationOf))
  }

  /** `Array.from(map.entries()).map(...)`, one entry per key in key order. */
  function EntriesFor(p: seq<Push>, keys: seq<string>): (r: seq<TagEntry>)
    ensures |r| == |keys| && forall i :: 0 <= i < |r| ==> r[i] == EntryFor(p, keys[i])
  {
    if keys == [] then []
    else EntriesFor(p, keys[..|keys| - 1]) + [EntryFor(p, keys[|keys| - 1])]
  }

  /** The comparator of the entries: more sessions first, then the larger
      total duration, then the tag in `localeCompare` order. */
  predicate EntryOrder(a: TagEntry, b: TagEntry) {
    |a.sessions| > |b.sessions|
    || (|a.sessions| == |b.sessions|
        && (a.totalDuration > b.totalDuration
            || (a.totalDuration == b.totalDuration && StrLe(a.tag, b.tag))))
  }

  lemma EntryOrderIsPreorder()
    ensures Total(EntryOrder) && Transitive(EntryOrder)
  {
    forall a, b ensures EntryOrder(a, b) || EntryOrder(b, a) {
      StrLeTotal(a.tag, b.tag);
    }
    forall a, b, c | EntryOrder(a, b) && EntryOrder(b, c) ensures EntryOrder(a, c) {
      if |a.sessions| == |b.sessions| == |c.sessions|
         && a.totalDuration == b.totalDuration == c.totalDuration
      {
        StrLeTransitive(a.tag, b.tag, c.tag);
      }
    }
  }

  /** `tagEntries` over the filtered sessions. */
  function TagEntries(sessions: seq<SessionRecord>): seq<TagEntry> {
    Sort(EntriesFor(Pushes(sessions), FirstAppearance(TagOccurrences(sessions))), EntryOrder)
  }

  /** One `map.get(normalized)?.push(session)`, creating the list first. */
  method PushOne(keys: seq<string>, groups: map<string, seq<SessionRecord>>, ghost seen: seq<Push>,
                 t: string, x: SessionRecord)
    returns (keys': seq<string>, groups': map<string, seq<SessionRecord>>)
    requires keys == FirstAppearance(TagsPushed(seen)) && groups == GroupMap(seen)
    ensures keys' == FirstAppearance(TagsPushed(seen + [Push(t, x)]))
    ensures groups' == GroupMap(seen + [Push(t, x)])
  {
    GroupMapSnoc(seen, t, x);
    PushKeyStep(seen, t, x);
    var list := if t in groups then groups[t] else [];
    keys' := if t in groups then keys else keys + [t];
    groups' := groups[t := list + [x]];
  }

  /** One step of the inner `forEach`: trim tag `j` of `x` and push `x`
      under it unless it is blank. */
  method PushTag(keys: seq<string>, groups: map<string, seq<SessionRecord>>, ghost seen: seq<Push>,
                 ghost before: seq<Push>, x: SessionRecord, j: nat)
    returns (keys': seq<string>, groups': map<string, seq<SessionRecord>>, ghost seen': seq<Push>)
    requires j < |x.tags| && seen == before + Paired(NonBlankTrimmed(x.tags[..j]), x)
    requires keys == FirstAppearance(TagsPushed(seen)) && groups == GroupMap(seen)
    ensures seen' == before + Paired(NonBlankTrimmed(x.tags[..j + 1]), x)
    ensures keys' == FirstAppearance(TagsPushed(seen')) && groups' == GroupMap(seen')
  {
    var normalized := Trim(x.tags[j]);
    PushedSoFarStep(before, x, j);
    keys', groups', seen' := keys, groups, seen;
    if normalized != "" {
      keys', groups' := PushOne(keys, groups, seen, normalized, x);
      seen' := seen + [Push(normalized, x)];
    }
  }

  /** The pushes after tag `j`: one more when its trim is not blank. */
  lemma PushedSoFarStep(before: seq<Push>, x: SessionRecord, j: nat)
    requires j < |x.tags|
    ensures var t := Trim(x.tags[j]);
      before + Paired(NonBlankTrimmed(x.tags[..j + 1]), x)
      == before + Paired(NonBlankTrimmed(x.tags[..j]), x) + (if t == "" then [] else [Push(t, x)])
  {
    var t := Trim(x.tags[j]);
    NonBlankTrimmedSnoc(x.tags, j, t);
    if t != "" {
      PairedSnoc(NonBlankTrimmed(x.tags[..j]), t, x);
    }
  }

  /** The inner `forEach`: push one session under each of its tags. */
  method PushSessionTags(keys: seq<string>, groups: map<string, seq<SessionRecord>>, ghost seen: seq<Push>,
                         x: SessionRecord)
    returns (keys': seq<string>, groups': map<string, seq<SessionRecord>>, ghost seen': seq<Push>)
    requires keys == FirstAppearance(TagsPushed(seen)) && groups == GroupMap(seen)
    ensures seen' == seen + Paired(NonBlankTrimmed(x.tags), x)
    ensures keys' == FirstAppearance(TagsPushed(seen')) && groups' == GroupMap(seen')
  {
    keys', groups', seen' := keys, groups, seen;
    assert x.tags[..0] == [];
    var j := 0;
    while j < |x.tags|
      invariant 0 <= j <= |x.tags|
      invariant seen' == seen + Paired(NonBlankTrimmed(x.tags[..j]), x)
      invariant keys' == FirstAppearance(TagsPushed(seen')) && groups' == GroupMap(seen')
    {
      keys', groups', seen' := PushTag(keys', groups', seen', seen, x, j);
      j := j + 1;
    }
    assert x.tags[..|x.tags|] == x.tags;
  }

  /** The nested `forEach`: every push, grouped by tag, with the tags in
      first-seen order. */
  method GroupSessions(sessions: seq<SessionRecord>)
    returns (keys: seq<string>, groups: map<string, seq<SessionRecord>>)
    ensures keys == FirstAppearance(TagOccurrences(sessions))
    ensures groups == GroupMap(Pushes(sessions))
  {
    keys, groups := [], map[];
    ghost var seen: seq<Push> := [];
    var i := 0;
    while i < |sessions|
      invariant 0 <= i <= |sessions|
      invariant seen == Pushes(sessions[..i])
      invariant keys == FirstAppearance(TagsPushed(seen)) && groups == GroupMap(seen)
    {
      assert sessions[..i + 1][..i] == sessions[..i];
      keys, groups, seen := PushSessionTags(keys, groups, seen, sessions[i]);
      i := i + 1;
    }
    assert sessions[..|sessions|] == sessions;
    PushedTags(sessions);
  }

  /** `Array.from(map.entries()).map(...)`: sort each list and add up its
      durations. */
  method BuildEntries(keys: seq<string>, groups: map<string, seq<SessionRecord>>, ghost p: seq<Push>)
    returns (entries: seq<TagEntry>)
    requires groups == GroupMap(p)
    requires forall k :: 0 <= k < |keys| ==> keys[k] in TagsPushed(p)
    ensures entries == EntriesFor(p, keys)
  {
    entries := [];
    var k := 0;
    while k < |keys|
      invariant 0 <= k <= |keys|
      invariant entries == EntriesFor(p, keys[..k])
    {
      GroupMapAt(p, keys[k]);
      var list := Sort(groups[keys[k]], LaterFirst);
      entries := entries + [TagEntry(keys[k], list, Sum(list, DurationOf))];
      assert keys[..k + 1][..k] == keys[..k];
      k := k + 1;
    }
    assert keys[..|keys|] == keys;
  }

  /** `tagEntries`: group the pushes by tag, build one entry per tag in
      first-seen order, and rank the entries. */
  method ComputeTagEntries(sessions: seq<SessionRecord>) returns (r: seq<TagEntry>)
    ensures r == TagEntries(sessions)
  {
    var keys, groups := GroupSessions(sessions);
    PushedTags(sessions);
    var entries := BuildEntries(keys, groups, Pushes(sessions));
    r := Sort(entries, EntryOrder);
  }

  /** Each ranked entry is the entry built for its own tag, which is one of
      the keys. */
  lemma EntryAt(sessions: seq<SessionRecord>, i: nat)
    requires i < |TagEntries(sessions)|
    ensures var e := TagEntries(sessions)[i];
      e.tag in FirstAppearance(TagOccurrences(sessions)) && e == EntryFor(Pushes(sessions), e.tag)
  {
    var keys := FirstAppearance(TagOccurrences(sessions));
    var unsorted := EntriesFor(Pushes(sessions), keys);
    var e := TagEntries(sessions)[i];
    assert e in multiset(unsorted);
    var a :| 0 <= a < |unsorted| && unsorted[a] == e;
  }

  /** Every entry's tag is a trimmed, non-blank tag that occurs. */
  lemma TagEntriesTags(sessions: seq<SessionRecord>)
    ensures var f, occurrences := TagEntries(sessions), TagOccurrences(sessions);
      forall i :: 0 <= i < |f| ==>
        f[i].tag in occurrences && f[i].tag != "" && Trim(f[i].tag) == f[i].tag
  {
    var f, occurrences := TagEntries(sessions), TagOccurrences(sessions);
    NonBlankTrimmedAreTrimmed(AllTags(sessions));
    forall i | 0 <= i < |f| ensures f[i].tag in occurrences && f[i].tag != "" && Trim(f[i].tag) == f[i].tag {
      EntryAt(sessions, i);
    }
  }

  /** No two entries share a tag. */
  lemma TagEntriesDistinct(sessions: seq<SessionRecord>)
    ensures var f := TagEntries(sessions);
      forall i, j :: 0 <= i < j < |f| ==> f[i].tag != f[j].tag
  {
    var f := TagEntries(sessions);
    var keys := FirstAppearance(TagOccurrences(sessions));
    var unsorted := EntriesFor(Pushes(sessions), keys);
    assert Distinct(unsorted) by {
      forall a, b | 0 <= a < b < |unsorted| ensures unsorted[a] != unsorted[b] {
        assert unsorted[a].tag == keys[a] != keys[b] == unsorted[b].tag;
      }
    }
    DistinctPermutation(unsorted, f);
    forall i, j | 0 <= i < j < |f| ensures f[i].tag != f[j].tag {
      EntryAt(sessions, i);
      EntryAt(sessions, j);
    }
  }

  /** Every non-blank tag occurrence has its entry. */
  lemma TagEntriesCover(sessions: seq<SessionRecord>)
    ensures var f, occurrences := TagEntries(sessions), TagOccurrences(sessions);
      forall k :: 0 <= k < |occurrences| ==> exists i :: 0 <= i < |f| && f[i].tag == occurrences[k]
  {
    var f, occurrences := TagEntries(sessions), TagOccurrences(sessions);
    forall k | 0 <= k < |occurrences| ensures exists i :: 0 <= i < |f| && f[i].tag == occurrences[k] {
      EntryOfTag(sessions, occurrences[k]);
    }
  }

  lemma EntryOfTag(sessions: seq<SessionRecord>, t: string)
    requires t in TagOccurrences(sessions)
    ensures exists i :: 0 <= i < |TagEntries(sessions)| && TagEntries(sessions)[i].tag == t
  {
    var f, keys := TagEntries(sessions), FirstAppearance(TagOccurrences(sessions));
    var unsorted := EntriesFor(Pushes(sessions), keys);
    FirstAppearanceHas(TagOccurrences(sessions), t);
    var a :| 0 <= a < |keys| && keys[a] == t;
    var e := unsorted[a];
    assert e in multiset(f);
    var i :| 0 <= i < |f| && f[i] == e;
  }

  /** Each entry lists, latest first, exactly the sessions pushed under its
      tag (a session once per tag occurrence), and its total duration is the
      sum of their durations; the entries are ranked by the comparator. */
  lemma TagEntriesContents(sessions: seq<SessionRecord>)
    ensures var f, occurrences := TagEntries(sessions), TagOccurrences(sessions);
      && SortedBy(f, EntryOrder)
      && forall i :: 0 <= i < |f| ==>
           && SortedBy(f[i].sessions, LaterFirst)
           && |f[i].sessions| == multiset(occurrences)[f[i].tag]
           && (forall x :: x in f[i].sessions <==> x in sessions && f[i].tag in NonBlankTrimmed(x.tags))
           && f[i].totalDuration == Sum(f[i].sessions, DurationOf)
           && f[i].totalDuration == Sum(Group(Pushes(sessions), f[i].tag), DurationOf)
  {
    var f := TagEntries(sessions);
    var p := Pushes(sessions);
    EntryOrderIsPreorder();
    SortSorted(EntriesFor(p, FirstAppearance(TagOccurrences(sessions))), EntryOrder);
    SessionOrdersArePreorders();
    PushedTags(sessions);
    forall i | 0 <= i < |f|
      ensures SortedBy(f[i].sessions, LaterFirst)
      ensures |f[i].sessions| == multiset(TagOccurrences(sessions))[f[i].tag]
      ensures forall x :: x in f[i].sessions <==> x in sessions && f[i].tag in NonBlankTrimmed(x.tags)
      ensures f[i].totalDuration == Sum(f[i].sessions, DurationOf)
      ensures f[i].totalDuration == Sum(Group(p, f[i].tag), DurationOf)
    {
      var t := f[i].tag;
      EntryAt(sessions, i);
      var g := Group(p, t);
      SortSorted(g, LaterFirst);
      GroupContents(p, t);
      SumSort(g, LaterFirst, DurationOf);
      forall x ensures x in f[i].sessions <==> x in sessions && t in NonBlankTrimmed(x.tags) {
        assert x in f[i].sessions <==> x in multiset(g);
        PushesMembers(sessions, t, x);
      }
    }
  }

  function SessionCount(e: TagEntry): int {
    |e.sessions|
  }

  /** Adding up the per-key group sizes over distinct keys. */
  lemma {:induction false} EntriesForCount(p: seq<Push>, keys: seq<string>)
    ensures Sum(EntriesFor(p, keys), SessionCount) == SumOverKeys(keys, TagsPushed(p), Identity, Unit)
    decreases |keys|
  {
    if keys != [] {
      var n := |keys| - 1;
      EntriesForCount(p, keys[..n]);
      var e := EntriesFor(p, keys);
      assert e[..|e| - 1] == EntriesFor(p, keys[..n]);
      GroupContents(p, keys[n]);
      SumWhereUnitIsCount(TagsPushed(p), keys[n]);
    }
  }

  /** The entries hold as many sessions in all as there are non-blank tag
      occurrences among the sessions. */
  lemma TagEntriesCount(sessions: seq<SessionRecord>)
    ensures Sum(TagEntries(sessions), SessionCount) == |TagOccurrences(sessions)|
  {
    var p := Pushes(sessions);
    var occurrences := TagOccurrences(sessions);
    var keys := FirstAppearance(occurrences);
    PushedTags(sessions);
    SumSort(EntriesFor(p, keys), EntryOrder, SessionCount);
    EntriesForCount(p, keys);
    forall x | x in occurrences ensures Identity(x) in keys {
    }
    PartitionSum(keys, occurrences, Identity, Unit);
    SumUnit(occurrences);
  }

  /** `entry.tag.toLowerCase().includes(query)` */
  function TagMatches(query: string): TagEntry -> bool {
    (e: TagEntry) => Contains(ToLower(e.tag), query)
  }

  /** `filteredEntries`: every entry while the trimmed, lower-cased query is
      empty; otherwise the entries whose lower-cased tag contains it, each
      as often as before and in the same order. */
  function FilteredEntries(entries: seq<TagEntry>, tagQuery: string): (r: seq<TagEntry>)
    ensures var query := ToLower(Trim(tagQuery));
      && (query == "" ==> r == entries)
      && (query != "" ==> forall e ::
            multiset(r)[e] == if Contains(ToLower(e.tag), query) then multiset(entries)[e] else 0)
  {
    var query := ToLower(Trim(tagQuery));
    if query == "" then entries
    else
      var p := TagMatches(query);
      forall e ensures multiset(Filter(entries, p))[e] == if p(e) then multiset(entries)[e] else 0 {
        FilterCount(entries, p, e);
      }
      Filter(entries, p)
  }

  /** Narrowing by a query keeps the ranking. */
  lemma FilteredEntriesStaySorted(entries: seq<TagEntry>, tagQuery: string)
    requires SortedBy(entries, EntryOrder)
    ensures SortedBy(FilteredEntries(entries, tagQuery), EntryOrder)
  {
    var query := ToLower(Trim(tagQuery));
    if query != "" {
      FilterSorted(entries, TagMatches(query), EntryOrder);
    }
  }
}
