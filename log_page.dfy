/** The log list page, `src/app/log/page.tsx`: the sessions latest first,
    the total of their durations, and the summary by type (the total per
    type, the total per type and month, the order the types are shown in,
    and the months newest first). */
module LogPage {
  import opened Text
  import opened Seqs
  import opened Schema
  import opened LocalDatastore
  import opened SessionViews

  /** `sortedSessions`: latest first. */
  function SortedSessions(sessions: seq<SessionRecord>): (r: seq<SessionRecord>)
    ensures multiset(r) == multiset(sessions)
  {
    Sort(sessions, LaterFirst)
  }

  lemma SortedSessionsAreSorted(sessions: seq<SessionRecord>)
    ensures SortedBy(SortedSessions(sessions), LaterFirst)
  {
    SessionOrdersArePreorders();
    SortSorted(sessions, LaterFirst);
  }

  /** `totalDuration`: the durations added up. */
  function TotalDuration(sessions: seq<SessionRecord>): int {
    Sum(sessions, DurationOf)
  }

  function MonthsOf(sessions: seq<SessionRecord>): (r: seq<string>)
    ensures |r| == |sessions| && forall i :: 0 <= i < |r| ==> r[i] == SessionMonth(sessions[i])
  {
    seq(|sessions|, i requires 0 <= i < |sessions| => SessionMonth(sessions[i]))
  }

  /** `monthly[type] ?? {}` */
  function Inner(mm: map<string, map<string, int>>, t: string): map<string, int> {
    if t in mm then mm[t] else map[]
  }

  /** `monthly[type][month] = (monthly[type][month] ?? 0) + session.durationMin`
      for each session in turn, creating `monthly[type]` first. */
  function MonthlyMap(sessions: seq<SessionRecord>): map<string, map<string, int>> {
    if sessions == [] then map[]
    else
      var mm := MonthlyMap(sessions[..|sessions| - 1]);
      var x := sessions[|sessions| - 1];
      var inner := Inner(mm, x.sessionType);
      var month := SessionMonth(x);
      mm[x.sessionType := inner[month := Lookup(inner, month) + x.durationMin]]
  }

  /** The duration of a session counted toward type `t` only. */
  function DurationIfType(t: string): SessionRecord -> int {
    (x: SessionRecord) => if x.sessionType == t then x.durationMin else 0
  }

  /** `typeOrder.forEach((type) => { totals[type] = totals[type] ?? 0 })` */
  function FillTotals(m: map<string, int>, keys: seq<string>): map<string, int> {
    if keys == [] then m
    else
      var f := FillTotals(m, keys[..|keys| - 1]);
      var k := keys[|keys| - 1];
      f[k := Lookup(f, k)]
  }

  /** `typeOrder.forEach((type) => { monthly[type] = monthly[type] ?? {} })` */
  function FillMonthly(mm: map<string, map<string, int>>, keys: seq<string>): map<string, map<string, int>> {
    if keys == [] then mm
    else
      var f := FillMonthly(mm, keys[..|keys| - 1]);
      var k := keys[|keys| - 1];
      f[k := Inner(f, k)]
  }

  /** The comparator of the months: the later `YYYY-MM` first. */
  predicate NewerMonthFirst(a: string, b: string) {
    StrLe(b, a)
  }

  lemma NewerMonthFirstIsPreorder()
    ensures Total(NewerMonthFirst) && Transitive(NewerMonthFirst)
  {
    forall a, b ensures NewerMonthFirst(a, b) || NewerMonthFirst(b, a) {
      StrLeTotal(a, b);
    }
    forall a, b, c | NewerMonthFirst(a, b) && NewerMonthFirst(b, c) ensures NewerMonthFirst(a, c) {
      StrLeTransitive(c, b, a);
    }
  }

  datatype TypeSummary = TypeSummary(
    typeOrder: seq<string>,
    totals: map<string, int>,
    monthly: map<string, map<string, int>>,
    months: seq<string>)

  /** `typeOrder`: the four base types, then the other types in the order
      they first occur. */
  function TypeOrder(sessions: seq<SessionRecord>): seq<string> {
    BaseTypesFirst(FirstAppearance(TypesOf(sessions)))
  }

  /** `typeSummary` */
  function TypeSummaryOf(sessions: seq<SessionRecord>): TypeSummary {
    var typeOrder := TypeOrder(sessions);
    TypeSummary(
      typeOrder,
      FillTotals(TotalsMap(sessions), typeOrder),
      FillMonthly(MonthlyMap(sessions), typeOrder),
      Sort(FirstAppearance(MonthsOf(sessions)), NewerMonthFirst))
  }

  /** `monthSet.add(month)` for session `x` after the sessions `before`. */
  method AddMonth(monthSet: seq<string>, ghost before: seq<SessionRecord>, x: SessionRecord)
    returns (monthSet': seq<string>)
    requires monthSet == FirstAppearance(MonthsOf(before))
    ensures monthSet' == FirstAppearance(MonthsOf(before + [x]))
  {
    MonthsSnoc(before, x);
    var month := SessionMonth(x);
    monthSet' := if month in monthSet then monthSet else monthSet + [month];
  }

  /** `totals[type] = (totals[type] ?? 0) + session.durationMin` */
  method AddTotal(totals: map<string, int>, ghost before: seq<SessionRecord>, x: SessionRecord)
    returns (totals': map<string, int>)
    requires totals == TotalsMap(before)
    ensures totals' == TotalsMap(before + [x])
  {
    TotalsSnoc(before, x);
    var t := x.sessionType;
    totals' := totals[t := Lookup(totals, t) + x.durationMin];
  }

  /** `monthly[type][month] = (monthly[type][month] ?? 0) + session.durationMin`,
      after `monthly[type] = {}` when it is missing. */
  method AddMonthly(monthly: map<string, map<string, int>>, ghost before: seq<SessionRecord>, x: SessionRecord)
    returns (monthly': map<string, map<string, int>>)
    requires monthly == MonthlyMap(before)
    ensures monthly' == MonthlyMap(before + [x])
  {
    MonthlySnoc(before, x);
    var t, month := x.sessionType, SessionMonth(x);
    var inner := Inner(monthly, t);
    monthly' := monthly[t := inner[month := Lookup(inner, month) + x.durationMin]];
  }

  /** One session more, as each accumulator sees it. */
  lemma MonthsSnoc(sessions: seq<SessionRecord>, x: SessionRecord)
    ensures var seen := FirstAppearance(MonthsOf(sessions));
      FirstAppearance(MonthsOf(sessions + [x]))
      == seen + (if SessionMonth(x) in seen then [] else [SessionMonth(x)])
  {
    assert MonthsOf(sessions + [x]) == MonthsOf(sessions) + [SessionMonth(x)];
    FirstAppearanceSnoc(MonthsOf(sessions), SessionMonth(x));
  }

  lemma MonthlySnoc(sessions: seq<SessionRecord>, x: SessionRecord)
    ensures var mm := MonthlyMap(sessions);
      var inner := Inner(mm, x.sessionType);
      MonthlyMap(sessions + [x])
      == mm[x.sessionType := inner[SessionMonth(x) := Lookup(inner, SessionMonth(x)) + x.durationMin]]
  {
    assert (sessions + [x])[..|sessions|] == sessions;
  }

  /** The `forEach` over the sessions: the month set and the two
      dictionaries. */
  method Accumulate(sessions: seq<SessionRecord>)
    returns (monthSet: seq<string>, totals: map<string, int>, monthly: map<string, map<string, int>>)
    ensures monthSet == FirstAppearance(MonthsOf(sessions))
    ensures totals == TotalsMap(sessions) && monthly == MonthlyMap(sessions)
  {
    monthSet, totals, monthly := [], map[], map[];
    var i := 0;
    while i < |sessions|
      invariant 0 <= i <= |sessions|
      invariant monthSet == FirstAppearance(MonthsOf(sessions[..i]))
      invariant totals == TotalsMap(sessions[..i]) && monthly == MonthlyMap(sessions[..i])
    {
      assert sessions[..i + 1] == sessions[..i] + [sessions[i]];
      monthSet := AddMonth(monthSet, sessions[..i], sessions[i]);
      totals := AddTotal(totals, sessions[..i], sessions[i]);
      monthly := AddMonthly(monthly, sessions[..i], sessions[i]);
      i := i + 1;
    }
    assert sessions[..|sessions|] == sessions;
  }

  /** The `forEach` over `typeOrder`: a zero total and an empty monthly
      dictionary for every type without one. */
  method FillDefaults(totals: map<string, int>, monthly: map<string, map<string, int>>, typeOrder: seq<string>)
    returns (totals': map<string, int>, monthly': map<string, map<string, int>>)
    ensures totals' == FillTotals(totals, typeOrder) && monthly' == FillMonthly(monthly, typeOrder)
  {
    totals', monthly' := totals, monthly;
    var k := 0;
    while k < |typeOrder|
      invariant 0 <= k <= |typeOrder|
      invariant totals' == FillTotals(totals, typeOrder[..k])
      invariant monthly' == FillMonthly(monthly, typeOrder[..k])
    {
      var t := typeOrder[k];
      assert typeOrder[..k + 1] == typeOrder[..k] + [t];
      FillSnoc(totals, monthly, typeOrder[..k], t);
      totals' := totals'[t := Lookup(totals', t)];
      monthly' := monthly'[t := Inner(monthly', t)];
      k := k + 1;
    }
    assert typeOrder[..|typeOrder|] == typeOrder;
  }

  /** `typeSummary`: one pass over the sessions filling the month set and
      the two dictionaries, then the type order, the defaults for every
      type in it, and the months sorted newest first. */
  method ComputeTypeSummary(sessions: seq<SessionRecord>) returns (summary: TypeSummary)
    ensures summary == TypeSummaryOf(sessions)
  {
    var monthSet, totals, monthly := Accumulate(sessions);
    var typeOrder := BaseTypesFirst(FirstAppearance(TypesOf(sessions)));
    totals, monthly := FillDefaults(totals, monthly, typeOrder);
    var months := Sort(monthSet, NewerMonthFirst);
    summary := TypeSummary(typeOrder, totals, monthly, months);
  }

  lemma FillSnoc(m: map<string, int>, mm: map<string, map<string, int>>, keys: seq<string>, k: string)
    ensures var f := FillTotals(m, keys); FillTotals(m, keys + [k]) == f[k := Lookup(f, k)]
    ensures var f := FillMonthly(mm, keys); FillMonthly(mm, keys + [k]) == f[k := Inner(f, k)]
  {
    assert (keys + [k])[..|keys|] == keys;
  }

  /** The monthly dictionary: a key per type that occurs, each holding, per
      month, the durations of that type in that month added up. */
  lemma {:induction false} MonthlyMapSums(sessions: seq<SessionRecord>)
    ensures forall t :: t in MonthlyMap(sessions) <==> t in TypesOf(sessions)
    ensures forall t, m :: Lookup(Inner(MonthlyMap(sessions), t), m)
                        == SumWhere(sessions, SessionMonth, m, DurationIfType(t))
    decreases |sessions|
  {
    if sessions != [] {
      var n := |sessions| - 1;
      MonthlyMapSums(sessions[..n]);
      assert TypesOf(sessions) == TypesOf(sessions[..n]) + [sessions[n].sessionType];
    }
  }

  /** Filling defaults adds the keys and changes no value. */
  lemma {:induction false} FillTotalsKeeps(m: map<string, int>, keys: seq<string>)
    ensures forall t :: t in FillTotals(m, keys) <==> t in m || t in keys
    ensures forall t :: Lookup(FillTotals(m, keys), t) == Lookup(m, t)
    decreases |keys|
  {
    if keys != [] {
      FillTotalsKeeps(m, keys[..|keys| - 1]);
    }
  }

  lemma {:induction false} FillMonthlyKeeps(mm: map<string, map<string, int>>, keys: seq<string>)
    ensures forall t :: t in FillMonthly(mm, keys) <==> t in mm || t in keys
    ensures forall t :: Inner(FillMonthly(mm, keys), t) == Inner(mm, t)
    decreases |keys|
  {
    if keys != [] {
      FillMonthlyKeeps(mm, keys[..|keys| - 1]);
    }
  }

  /** Over one type, the per-type durations add up to that type's sum. */
  lemma {:induction false} DurationIfTypeSum(sessions: seq<SessionRecord>, t: string)
    ensures Sum(sessions, DurationIfType(t)) == SumWhere(sessions, TypeOf, t, DurationOf)
    decreases |sessions|
  {
    if sessions != [] {
      DurationIfTypeSum(sessions[..|sessions| - 1], t);
    }
  }

  /** `typeOrder` starts with the four base types in order, holds no type
      twice, holds every type that occurs, and nothing else. */
  lemma TypeOrderCovers(sessions: seq<SessionRecord>)
    ensures var order := TypeOrder(sessions);
      && order[..4] == SessionTypes
      && Distinct(order)
      && (forall i :: 0 <= i < |sessions| ==> sessions[i].sessionType in order)
      && (forall i :: 0 <= i < |order| ==> order[i] in SessionTypes || order[i] in TypesOf(sessions))
  {
    var types := TypesOf(sessions);
    var order := TypeOrder(sessions);
    forall i | 0 <= i < |sessions| ensures sessions[i].sessionType in order {
      assert types[i] in FirstAppearance(types);
    }
  }

  /** The shape of `typeOrder`, as `TypeOrderCovers` states it; and the
      other types follow the base types in the order their first session
      appears. */
  lemma TypeOrderShape(sessions: seq<SessionRecord>)
    ensures var order := TypeOrder(sessions);
      && order[..4] == SessionTypes
      && Distinct(order)
      && (forall i :: 0 <= i < |sessions| ==> sessions[i].sessionType in order)
      && (forall i :: 0 <= i < |order| ==> order[i] in SessionTypes || order[i] in TypesOf(sessions))
      && (forall i :: 4 <= i < |order| ==> order[i] !in SessionTypes)
      && FollowsOrderOf(order[4..], TypesOf(sessions))
  {
    var types := TypesOf(sessions);
    var order := TypeOrder(sessions);
    TypeOrderCovers(sessions);
    FirstAppearanceFollowsOrder(types);
    FollowsOrderTrans(order[4..], FirstAppearance(types), types);
  }

  /** The totals hold exactly the types of `typeOrder`, each with the sum of
      the durations of its sessions, 0 for a type without any. */
  lemma TotalsAreTypeSums(sessions: seq<SessionRecord>)
    ensures var s := TypeSummaryOf(sessions);
      && (forall t :: t in s.totals <==> t in s.typeOrder)
      && (forall t :: t in s.totals ==> s.totals[t] == SumWhere(sessions, TypeOf, t, DurationOf))
  {
    var s := TypeSummaryOf(sessions);
    TotalsMapSums(sessions);
    FillTotalsKeeps(TotalsMap(sessions), s.typeOrder);
    TypeOrderCovers(sessions);
    forall t | t in TotalsMap(sessions) ensures t in s.typeOrder {
      var i :| 0 <= i < |TypesOf(sessions)| && TypesOf(sessions)[i] == t;
    }
    forall t | t in s.totals ensures s.totals[t] == SumWhere(sessions, TypeOf, t, DurationOf) {
      assert Lookup(s.totals, t) == s.totals[t];
    }
  }

  /** The totals over `typeOrder` add up to `totalDuration`. */
  lemma TotalsAddUp(sessions: seq<SessionRecord>)
    ensures var s := TypeSummaryOf(sessions);
      SumOfEntries(s.typeOrder, s.totals) == TotalDuration(sessions)
  {
    var s := TypeSummaryOf(sessions);
    TotalsMapSums(sessions);
    FillTotalsKeeps(TotalsMap(sessions), s.typeOrder);
    TypeOrderCovers(sessions);
    SumOfEntriesOverKeys(s.typeOrder, s.totals, sessions, TypeOf, DurationOf);
    forall x | x in sessions ensures TypeOf(x) in s.typeOrder {
      var i :| 0 <= i < |sessions| && sessions[i] == x;
    }
    PartitionSum(s.typeOrder, sessions, TypeOf, DurationOf);
  }

  /** The months are the distinct months of the sessions, newest first. */
  lemma MonthsShape(sessions: seq<SessionRecord>)
    ensures var months := TypeSummaryOf(sessions).months;
      && Distinct(months)
      && SortedBy(months, NewerMonthFirst)
      && (forall i :: 0 <= i < |sessions| ==> SessionMonth(sessions[i]) in months)
      && (forall i :: 0 <= i < |months| ==> months[i] in MonthsOf(sessions))
  {
    var seen := FirstAppearance(MonthsOf(sessions));
    var months := TypeSummaryOf(sessions).months;
    DistinctPermutation(seen, months);
    NewerMonthFirstIsPreorder();
    SortSorted(seen, NewerMonthFirst);
    forall i | 0 <= i < |sessions| ensures SessionMonth(sessions[i]) in months {
      assert MonthsOf(sessions)[i] in seen;
      assert SessionMonth(sessions[i]) in multiset(months);
    }
    forall i | 0 <= i < |months| ensures months[i] in MonthsOf(sessions) {
      assert months[i] in multiset(seen);
    }
  }

  /** The monthly dictionary of each type in `typeOrder` holds, per month,
      the durations of that type in that month added up. */
  lemma MonthlyCells(sessions: seq<SessionRecord>, t: string)
    requires t in TypeOrder(sessions)
    ensures var s := TypeSummaryOf(sessions);
      && t in s.monthly
      && forall m :: Lookup(s.monthly[t], m) == SumWhere(sessions, SessionMonth, m, DurationIfType(t))
  {
    var s := TypeSummaryOf(sessions);
    MonthlyMapSums(sessions);
    FillMonthlyKeeps(MonthlyMap(sessions), s.typeOrder);
    assert Inner(s.monthly, t) == s.monthly[t];
  }

  /** Per type, the monthly values over the months add up to the type's
      total. */
  lemma MonthlyAddsUpToTotal(sessions: seq<SessionRecord>, t: string)
    requires t in TypeOrder(sessions)
    ensures var s := TypeSummaryOf(sessions);
      t in s.monthly && t in s.totals && SumOfEntries(s.months, s.monthly[t]) == s.totals[t]
  {
    var s := TypeSummaryOf(sessions);
    MonthlyCells(sessions, t);
    TotalsAreTypeSums(sessions);
    MonthsShape(sessions);
    SumOfEntriesOverKeys(s.months, s.monthly[t], sessions, SessionMonth, DurationIfType(t));
    forall x | x in sessions ensures SessionMonth(x) in s.months {
      var i :| 0 <= i < |sessions| && sessions[i] == x;
    }
    PartitionSum(s.months, sessions, SessionMonth, DurationIfType(t));
    DurationIfTypeSum(sessions, t);
  }
}
