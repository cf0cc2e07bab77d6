/** The home page, `src/app/page.tsx`: the 42-day calendar grid of a month,
    the sessions grouped by date (each group earliest first), the duration
    per type within the shown month, and the order the types are listed in. */
module HomePage {
  import opened Seqs
  import opened Schema
  import opened LocalDatastore
  import opened SessionViews

  /** Days are numbered from 1970-01-01 (day 0) in the proleptic Gregorian
      calendar, as a date library counts them. */
  function DaysFromCivil(y: int, m: int, d: int): int
    requires 1 <= m <= 12
  {
    var y' := if m <= 2 then y - 1 else y;
    var era := y' / 400;
    var yoe := y' - era * 400;
    var mp := if m > 2 then m - 3 else m + 9;
    var doy := (153 * mp + 2) / 5 + d - 1;
    var doe := yoe * 365 + yoe / 4 - yoe / 100 + doy;
    era * 146097 + doe - 719468
  }

  /** `day()`: 0 for Sunday through 6 for Saturday; 1970-01-01 was a
      Thursday. */
  function Weekday(n: int): int {
    (n + 4) % 7
  }

  predicate IsLeapYear(y: int) {
    y % 4 == 0 && (y % 100 != 0 || y % 400 == 0)
  }

  function DaysInMonth(y: int, m: int): int
    requires 1 <= m <= 12
  {
    if m == 2 then (if IsLeapYear(y) then 29 else 28)
    else if m == 4 || m == 6 || m == 9 || m == 11 then 30
    else 31
  }

  /** `createCalendarDays(month)`: 42 consecutive days from the Sunday on or
      before the first of the month. */
  function CalendarDays(y: int, m: int): (r: seq<int>)
    requires 1 <= m <= 12
    ensures |r| == 42
    ensures forall i :: 0 <= i < |r| ==> r[i] == r[0] + i
    ensures Weekday(r[0]) == 0
    ensures r[0] <= DaysFromCivil(y, m, 1) < r[0] + 7
  {
    var start := DaysFromCivil(y, m, 1);
    WeekStart(start);
    var first := start - Weekday(start);
    seq(42, i requires 0 <= i < 42 => first + i)
  }

  /** Going back from a day by its weekday lands on a Sunday at most six
      days earlier. */
  lemma WeekStart(n: int)
    ensures 0 <= Weekday(n) < 7 && Weekday(n - Weekday(n)) == 0
  {
    var k := (n + 4) / 7;
    assert n + 4 == 7 * k + Weekday(n);
    assert n - Weekday(n) + 4 == 7 * k;
  }

  /** Within a month, the days are numbered one after another. */
  lemma DaysOfMonthConsecutive(y: int, m: int, d: int)
    requires 1 <= m <= 12
    ensures DaysFromCivil(y, m, d) == DaysFromCivil(y, m, 1) + d - 1
  {
  }

  /** Every day of the month lies in the grid, at the place that its
      weekday and the weekday of the first give it. */
  lemma MonthInsideGrid(y: int, m: int, d: int)
    requires 1 <= m <= 12 && 1 <= d <= DaysInMonth(y, m)
    ensures var grid, start := CalendarDays(y, m), DaysFromCivil(y, m, 1);
      Weekday(start) + d - 1 < 42 && grid[Weekday(start) + d - 1] == DaysFromCivil(y, m, d)
  {
    DaysOfMonthConsecutive(y, m, d);
  }

  /** `sortSessions`: earliest first. */
  function SortSessions(sessions: seq<SessionRecord>): (r: seq<SessionRecord>)
    ensures multiset(r) == multiset(sessions)
  {
    Sort(sessions, EarlierFirst)
  }

  lemma SortSessionsSorted(sessions: seq<SessionRecord>)
    ensures SortedBy(SortSessions(sessions), EarlierFirst)
  {
    SessionOrdersArePreorders();
    SortSorted(sessions, EarlierFirst);
  }

  function DatesOf(sessions: seq<SessionRecord>): (r: seq<string>)
    ensures |r| == |sessions| && forall i :: 0 <= i < |r| ==> r[i] == sessions[i].date
  {
    seq(|sessions|, i requires 0 <= i < |sessions| => sessions[i].date)
  }

  function OnDate(d: string): SessionRecord -> bool {
    (x: SessionRecord) => x.date == d
  }

  /** The `Map` after the `forEach`: `map.get(date) ?? []`, push, set. */
  function DateMap(sessions: seq<SessionRecord>): map<string, seq<SessionRecord>> {
    if sessions == [] then map[]
    else
      var m := DateMap(sessions[..|sessions| - 1]);
      var x := sessions[|sessions| - 1];
      m[x.date := (if x.date in m then m[x.date] else []) + [x]]
  }

  lemma DateMapSnoc(sessions: seq<SessionRecord>, x: SessionRecord)
    ensures var m := DateMap(sessions);
      DateMap(sessions + [x]) == m[x.date := (if x.date in m then m[x.date] else []) + [x]]
  {
    assert (sessions + [x])[..|sessions|] == sessions;
  }

  /** The map has a key for each date that occurs and no other, holding the
      sessions of that date in order. */
  lemma {:induction false} DateMapGroups(sessions: seq<SessionRecord>)
    ensures forall d :: d in DateMap(sessions) <==> d in DatesOf(sessions)
    ensures forall d :: d in DateMap(sessions) ==> DateMap(sessions)[d] == Filter(sessions, OnDate(d))
    decreases |sessions|
  {
    if sessions != [] {
      var n := |sessions| - 1;
      DateMapGroups(sessions[..n]);
      assert DatesOf(sessions) == DatesOf(sessions[..n]) + [sessions[n].date];
      forall d | d !in DatesOf(sessions[..n]) ensures Filter(sessions[..n], OnDate(d)) == [] {
        forall i | 0 <= i < n ensures !OnDate(d)(sessions[..n][i]) {
          assert DatesOf(sessions[..n])[i] == sessions[..n][i].date;
        }
        FilterNone(sessions[..n], OnDate(d));
      }
    }
  }

  /** The group of a date: its sessions, earliest first. */
  function DateGroup(sessions: seq<SessionRecord>, d: string): seq<SessionRecord> {
    SortSessions(Filter(sessions, OnDate(d)))
  }

  /** The key order grows by the date of `x` when the map has no list for
      it yet. */
  lemma DateKeyStep(sessions: seq<SessionRecord>, x: SessionRecord)
    ensures FirstAppearance(DatesOf(sessions + [x]))
         == FirstAppearance(DatesOf(sessions)) + (if x.date in DateMap(sessions) then [] else [x.date])
  {
    DateMapGroups(sessions);
    assert DatesOf(sessions + [x]) == DatesOf(sessions) + [x.date];
    FirstAppearanceSnoc(DatesOf(sessions), x.date);
    FirstAppearanceHas(DatesOf(sessions), x.date);
  }

  /** One turn of the `forEach`: append `x` to the list of its date. */
  method AddToDate(keys: seq<string>, groups: map<string, seq<SessionRecord>>,
                   ghost before: seq<SessionRecord>, x: SessionRecord)
    returns (keys': seq<string>, groups': map<string, seq<SessionRecord>>)
    requires keys == FirstAppearance(DatesOf(before)) && groups == DateMap(before)
    ensures keys' == FirstAppearance(DatesOf(before + [x])) && groups' == DateMap(before + [x])
  {
    DateMapSnoc(before, x);
    DateKeyStep(before, x);
    var list := if x.date in groups then groups[x.date] else [];
    keys' := if x.date in groups then keys else keys + [x.date];
    groups' := groups[x.date := list + [x]];
  }

  /** The `forEach` filling the map; `keys` is its insertion order. */
  method GroupByDate(sessions: seq<SessionRecord>)
    returns (keys: seq<string>, groups: map<string, seq<SessionRecord>>)
    ensures keys == FirstAppearance(DatesOf(sessions)) && groups == DateMap(sessions)
  {
    keys, groups := [], map[];
    var i := 0;
    while i < |sessions|
      invariant 0 <= i <= |sessions|
      invariant keys == FirstAppearance(DatesOf(sessions[..i])) && groups == DateMap(sessions[..i])
    {
      assert sessions[..i + 1] == sessions[..i] + [sessions[i]];
      keys, groups := AddToDate(keys, groups, sessions[..i], sessions[i]);
      i := i + 1;
    }
    assert sessions[..|sessions|] == sessions;
  }

  /** `for (const [key, list] of map) map.set(key, sortSessions(list))` */
  method SortGroups(keys: seq<string>, groups: map<string, seq<SessionRecord>>)
    returns (sorted: map<string, seq<SessionRecord>>)
    requires Distinct(keys) && forall d :: d in groups <==> d in keys
    ensures forall d :: d in sorted <==> d in groups
    ensures forall d :: d in sorted ==> sorted[d] == SortSessions(groups[d])
  {
    sorted := groups;
    var k := 0;
    while k < |keys|
      invariant 0 <= k <= |keys|
      invariant forall d :: d in sorted <==> d in groups
      invariant forall j :: 0 <= j < k ==> sorted[keys[j]] == SortSessions(groups[keys[j]])
      invariant forall j :: k <= j < |keys| ==> sorted[keys[j]] == groups[keys[j]]
    {
      sorted := sorted[keys[k] := SortSessions(sorted[keys[k]])];
      k := k + 1;
    }
    forall d | d in sorted ensures sorted[d] == SortSessions(groups[d]) {
      var j :| 0 <= j < |keys| && keys[j] == d;
    }
  }

  /** `sessionsByDate`: a group per date that occurs, holding the sessions
      of that date earliest first. */
  method SessionsByDate(sessions: seq<SessionRecord>)
    returns (keys: seq<string>, byDate: map<string, seq<SessionRecord>>)
    ensures keys == FirstAppearance(DatesOf(sessions))
    ensures forall d :: d in byDate <==> d in DatesOf(sessions)
    ensures forall d :: d in byDate ==> byDate[d] == DateGroup(sessions, d)
  {
    var groups;
    keys, groups := GroupByDate(sessions);
    DateMapGroups(sessions);
    byDate := SortGroups(keys, groups);
  }

  /** A date's group holds every session of that date, as often as it
      occurs, and nothing else, earliest first. */
  lemma DateGroupContents(sessions: seq<SessionRecord>, d: string)
    ensures forall x :: multiset(DateGroup(sessions, d))[x] == if x.date == d then multiset(sessions)[x] else 0
    ensures SortedBy(DateGroup(sessions, d), EarlierFirst)
  {
    forall x ensures multiset(DateGroup(sessions, d))[x] == if x.date == d then multiset(sessions)[x] else 0 {
      FilterCount(sessions, OnDate(d), x);
    }
    SortSessionsSorted(Filter(sessions, OnDate(d)));
  }

  function GroupSize(sessions: seq<SessionRecord>): string -> int {
    (d: string) => |DateGroup(sessions, d)|
  }

  lemma {:induction false} GroupSizesOverKeys(sessions: seq<SessionRecord>, keys: seq<string>)
    ensures Sum(keys, GroupSize(sessions)) == SumOverKeys(keys, sessions, DateOf, Unit)
    decreases |keys|
  {
    if keys != [] {
      var n := |keys| - 1;
      GroupSizesOverKeys(sessions, keys[..n]);
      SumWhereIsFilteredSum(sessions, DateOf, keys[n], Unit, OnDate(keys[n]));
      SumUnit(Filter(sessions, OnDate(keys[n])));
    }
  }

  /** The group sizes add up to the number of sessions. */
  lemma GroupSizesAddUp(sessions: seq<SessionRecord>)
    ensures Sum(FirstAppearance(DatesOf(sessions)), GroupSize(sessions)) == |sessions|
  {
    var keys := FirstAppearance(DatesOf(sessions));
    GroupSizesOverKeys(sessions, keys);
    forall x | x in sessions ensures DateOf(x) in keys {
      var i :| 0 <= i < |sessions| && sessions[i] == x;
      assert DatesOf(sessions)[i] == x.date;
    }
    PartitionSum(keys, sessions, DateOf, Unit);
    SumUnit(sessions);
  }

  /** `dayjs(session.date).isSame(currentMonth, "month")`, the shown month
      given as its `YYYY-MM`. */
  function InMonth(month: string): SessionRecord -> bool {
    (x: SessionRecord) => SessionMonth(x) == month
  }

  /** The month's sessions, in order. */
  lemma FilterStep(sessions: seq<SessionRecord>, x: SessionRecord, month: string)
    ensures Filter(sessions + [x], InMonth(month))
         == Filter(sessions, InMonth(month)) + (if SessionMonth(x) == month then [x] else [])
  {
    assert (sessions + [x])[..|sessions|] == sessions;
  }

  /** `monthlyTotals`: the duration per type over the sessions of the
      month. */
  function MonthTotals(sessions: seq<SessionRecord>, month: string): map<string, int> {
    TotalsMap(Filter(sessions, InMonth(month)))
  }

  /** The key order of the month's totals: the types in the order their
      first session of the month appears. */
  function MonthKeys(sessions: seq<SessionRecord>, month: string): seq<string> {
    FirstAppearance(TypesOf(Filter(sessions, InMonth(month))))
  }

  lemma MonthKeysStep(sessions: seq<SessionRecord>, x: SessionRecord, month: string)
    ensures var keys := MonthKeys(sessions, month);
      MonthKeys(sessions + [x], month)
      == if SessionMonth(x) == month && x.sessionType !in keys then keys + [x.sessionType] else keys
  {
    assert (sessions + [x])[..|sessions|] == sessions;
    var f := Filter(sessions, InMonth(month));
    if SessionMonth(x) == month {
      assert Filter(sessions + [x], InMonth(month)) == f + [x];
      assert TypesOf(f + [x]) == TypesOf(f) + [x.sessionType];
      FirstAppearanceSnoc(TypesOf(f), x.sessionType);
    } else {
      assert Filter(sessions + [x], InMonth(month)) == f;
    }
  }

  /** A session of the month adds its duration to its type. */
  lemma MonthTotalsStepIn(sessions: seq<SessionRecord>, x: SessionRecord, month: string)
    requires SessionMonth(x) == month
    ensures var m := MonthTotals(sessions, month);
      MonthTotals(sessions + [x], month) == m[x.sessionType := Lookup(m, x.sessionType) + x.durationMin]
  {
    var inMonth := Filter(sessions, InMonth(month));
    InMonthStep(sessions, x, month);
    TotalsSnoc(inMonth, x);
  }

  /** A session of the month joins the month's sessions at the end. */
  lemma InMonthStep(sessions: seq<SessionRecord>, x: SessionRecord, month: string)
    requires SessionMonth(x) == month
    ensures Filter(sessions + [x], InMonth(month)) == Filter(sessions, InMonth(month)) + [x]
  {
    FilterStep(sessions, x, month);
  }

  /** A session of another month leaves the totals as they are. */
  lemma MonthTotalsStepOut(sessions: seq<SessionRecord>, x: SessionRecord, month: string)
    requires SessionMonth(x) != month
    ensures MonthTotals(sessions + [x], month) == MonthTotals(sessions, month)
  {
    FilterStep(sessions, x, month);
    assert Filter(sessions, InMonth(month)) + [] == Filter(sessions, InMonth(month));
  }

  /** The key order grows by the type of `x` when `x` is in the month and
      its type has no total yet. */
  lemma MonthKeyStep(sessions: seq<SessionRecord>, x: SessionRecord, month: string)
    ensures MonthKeys(sessions + [x], month)
         == MonthKeys(sessions, month)
            + (if SessionMonth(x) == month && x.sessionType !in MonthTotals(sessions, month) then [x.sessionType] else [])
  {
    var inMonth := Filter(sessions, InMonth(month));
    MonthKeysStep(sessions, x, month);
    TotalsHas(inMonth, x.sessionType);
    FirstAppearanceHas(TypesOf(inMonth), x.sessionType);
  }

  /** One turn of the `forEach` of `monthlyTotals`, as the key order of
      the dictionary sees it: a type gets its key the first time a session
      of the month has it. */
  method AddMonthKey(keys: seq<string>, totals: map<string, int>, ghost before: seq<SessionRecord>,
                     x: SessionRecord, month: string)
    returns (keys': seq<string>)
    requires keys == MonthKeys(before, month) && totals == MonthTotals(before, month)
    ensures keys' == MonthKeys(before + [x], month)
  {
    MonthKeyStep(before, x, month);
    keys' := keys;
    if SessionMonth(x) == month && x.sessionType !in totals {
      keys' := keys + [x.sessionType];
    }
  }

  /** One turn of the `forEach` of `monthlyTotals`: add the duration of a
      session of the month to its type. */
  method AddMonthTotal(totals: map<string, int>, ghost before: seq<SessionRecord>, x: SessionRecord, month: string)
    returns (totals': map<string, int>)
    requires totals == MonthTotals(before, month)
    ensures totals' == MonthTotals(before + [x], month)
  {
    totals' := totals;
    if SessionMonth(x) != month {
      MonthTotalsStepOut(before, x, month);
    } else {
      MonthTotalsStepIn(before, x, month);
      var t := x.sessionType;
      totals' := totals[t := Lookup(totals, t) + x.durationMin];
    }
  }

  /** `monthlyTotals`, with `keys` the key order `Object.keys` sees. */
  method MonthlyTotals(sessions: seq<SessionRecord>, month: string)
    returns (keys: seq<string>, totals: map<string, int>)
    ensures keys == MonthKeys(sessions, month) && totals == MonthTotals(sessions, month)
  {
    keys, totals := [], map[];
    var i := 0;
    while i < |sessions|
      invariant 0 <= i <= |sessions|
      invariant keys == MonthKeys(sessions[..i], month) && totals == MonthTotals(sessions[..i], month)
    {
      assert sessions[..i + 1] == sessions[..i] + [sessions[i]];
      keys := AddMonthKey(keys, totals, sessions[..i], sessions[i], month);
      totals := AddMonthTotal(totals, sessions[..i], sessions[i], month);
      i := i + 1;
    }
    assert sessions[..|sessions|] == sessions;
  }

  /** The month's totals have a key for each type with a session in the
      month, and no other, holding the durations of those sessions added up. */
  lemma MonthTotalsSums(sessions: seq<SessionRecord>, month: string)
    ensures var totals, inMonth := MonthTotals(sessions, month), Filter(sessions, InMonth(month));
      && (forall t :: t in totals <==> exists x :: x in sessions && SessionMonth(x) == month && x.sessionType == t)
      && (forall t :: Lookup(totals, t) == SumWhere(inMonth, TypeOf, t, DurationOf))
  {
    var inMonth := Filter(sessions, InMonth(month));
    forall t ensures t in TotalsMap(inMonth) <==> exists x :: x in sessions && SessionMonth(x) == month && x.sessionType == t {
      MonthTypeHas(sessions, month, t);
    }
    TotalsMapSums(inMonth);
  }

  lemma MonthTypeHas(sessions: seq<SessionRecord>, month: string, t: string)
    ensures t in MonthTotals(sessions, month) <==> exists x :: x in sessions && SessionMonth(x) == month && x.sessionType == t
  {
    var inMonth := Filter(sessions, InMonth(month));
    TotalsHas(inMonth, t);
    TypesOfHas(inMonth, t);
    if exists x :: x in inMonth && x.sessionType == t {
      var x :| x in inMonth && x.sessionType == t;
      FilterHas(sessions, InMonth(month), x);
    }
    if exists x :: x in sessions && SessionMonth(x) == month && x.sessionType == t {
      var x :| x in sessions && SessionMonth(x) == month && x.sessionType == t;
      FilterHas(sessions, InMonth(month), x);
    }
  }

  /** `orderedTypes`: the four base types, then the other keys of the
      month's totals. */
  function OrderedTypes(keys: seq<string>): seq<string> {
    BaseTypesFirst(keys)
  }

  /** The ordered types start with the base types, hold no type twice, and
      hold exactly the base types and the types with a total this month; the
      other types follow in the totals' key order, which is the order their
      first session of the month appears. */
  lemma OrderedTypesShape(sessions: seq<SessionRecord>, month: string)
    ensures var order, totals := OrderedTypes(MonthKeys(sessions, month)), MonthTotals(sessions, month);
      && order[..4] == SessionTypes
      && Distinct(order)
      && (forall t :: t in totals ==> t in order)
      && (forall i :: 0 <= i < |order| ==> order[i] in SessionTypes || order[i] in totals)
      && FollowsOrderOf(order[4..], MonthKeys(sessions, month))
      && FollowsOrderOf(order[4..], TypesOf(Filter(sessions, InMonth(month))))
  {
    var inMonth := Filter(sessions, InMonth(month));
    var keys := MonthKeys(sessions, month);
    var order := OrderedTypes(keys);
    TotalsMapSums(inMonth);
    forall t | t in MonthTotals(sessions, month) ensures t in order {
      var k :| 0 <= k < |TypesOf(inMonth)| && TypesOf(inMonth)[k] == t;
    }
    FirstAppearanceFollowsOrder(TypesOf(inMonth));
    FollowsOrderTrans(order[4..], keys, TypesOf(inMonth));
  }
}
