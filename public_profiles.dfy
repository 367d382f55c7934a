/**
 * The public factory directory page: the search / commodity / price-sort controls
 * over the fetched profile list, and the weekly price chart built from every
 * profile's history. Both page variants share this logic.
 */
module Directory {
  import opened Common
  import opened Seqs
  import opened Text
  import opened ProfileModel
  import opened PriceHistoryModel

  // ---------------------------------------------------------------- controls

  /** The page's three controls: search text, commodity filter and sort option. */
  datatype Controls = Controls(search: string, commodityFilter: string, sortOption: string)

  /** The reset button, which is also the initial state of the controls. */
  function Reset(): (c: Controls)
    ensures c.search == "" && c.commodityFilter == "All" && c.sortOption == "none"
  {
    Controls("", "All", "none")
  }

  /** The search test: the lowercased factory name contains the lowercased search text. */
  function SearchTest(search: string): Profile -> bool {
    (p: Profile) => Contains(ToLower(p.factoryName), ToLower(search))
  }

  /** The commodity test: the profile's commodity is exactly the selected name. */
  function CommodityTest(filter: string): Profile -> bool {
    (p: Profile) => CommodityName(p.commodityType) == filter
  }

  /** The two filters of `filteredProfiles`, each applied only when its control is set. */
  function Kept(profiles: seq<Profile>, c: Controls): (r: seq<Profile>)
    ensures |r| <= |profiles|
    ensures forall p :: p in r ==> p in profiles
  {
    var bySearch := if c.search != "" then Filter(profiles, SearchTest(c.search)) else profiles;
    if c.commodityFilter != "All" then Filter(bySearch, CommodityTest(c.commodityFilter)) else bySearch
  }

  /** Whether a profile passes the controls: an empty search and "All" let everything through. */
  predicate Wanted(c: Controls, p: Profile) {
    && (c.search == "" || SearchTest(c.search)(p))
    && (c.commodityFilter == "All" || CommodityTest(c.commodityFilter)(p))
  }

  function WantedTest(c: Controls): Profile -> bool {
    (p: Profile) => Wanted(c, p)
  }

  /**
   * The filters keep exactly the wanted profiles, in their original relative order, each as
   * often as it occurs in the list.
   */
  lemma KeptExactly(profiles: seq<Profile>, c: Controls)
    ensures Kept(profiles, c) == Filter(profiles, WantedTest(c))
    ensures forall p :: multiset(Kept(profiles, c))[p] == if Wanted(c, p) then multiset(profiles)[p] else 0
  {
    var search := if c.search != "" then SearchTest(c.search) else (p: Profile) => true;
    var commodity := if c.commodityFilter != "All" then CommodityTest(c.commodityFilter) else (p: Profile) => true;
    if c.search == "" {
      FilterKeepsAll(profiles, search);
    }
    var bySearch := Filter(profiles, search);
    if c.commodityFilter == "All" {
      FilterKeepsAll(bySearch, commodity);
    }
    FilterFilter(profiles, search, commodity, WantedTest(c));
    forall p: Profile
      ensures multiset(Kept(profiles, c))[p] == if Wanted(c, p) then multiset(profiles)[p] else 0
    {
      FilterMultiset(profiles, WantedTest(c), p);
    }
  }

  /** After a reset every profile is shown, in list order. */
  lemma ResetKeepsAll(profiles: seq<Profile>)
    ensures Kept(profiles, Reset()) == profiles
  {
  }

  /** The search ignores the case of what is typed. */
  lemma SearchIgnoresCase(search: string, p: Profile)
    ensures SearchTest(ToUpper(search))(p) == SearchTest(search)(p)
  {
    LowerOfUpper(search);
  }

  // ---------------------------------------------------------------- price sort

  /** The sort's comparator says `x` goes strictly before `y`. */
  predicate Precedes(x: Profile, y: Profile, descending: bool) {
    if descending then x.pricePerKilo > y.pricePerKilo else x.pricePerKilo < y.pricePerKilo
  }

  /** `x` may stand before `y`. */
  predicate InOrder(x: Profile, y: Profile, descending: bool) {
    !Precedes(y, x, descending)
  }

  ghost predicate PriceOrdered(s: seq<Profile>, descending: bool) {
    forall i, j :: 0 <= i < j < |s| ==> InOrder(s[i], s[j], descending)
  }

  /** Exchanges two neighbouring entries; the array keeps the same elements. */
  method Swap(a: array<Profile>, i: nat, j: nat)
    requires i < j < a.Length
    modifies a
    ensures a[..] == old(a[..])[i := old(a[j])][j := old(a[i])]
    ensures multiset(a[..]) == multiset(old(a[..]))
  {
    a[i], a[j] := a[j], a[i];
  }

  /** `a.sort((x, y) => y.price - x.price)` or its ascending twin, in place, by insertion. */
  method SortByPrice(a: array<Profile>, descending: bool)
    modifies a
    ensures PriceOrdered(a[..], descending)
    ensures multiset(a[..]) == multiset(old(a[..]))
  {
    var i := 0;
    while i < a.Length
      invariant 0 <= i <= a.Length
      invariant forall k, l :: 0 <= k < l < i ==> InOrder(a[k], a[l], descending)
      invariant multiset(a[..]) == multiset(old(a[..]))
    {
      var j := i;
      while j > 0 && Precedes(a[j], a[j - 1], descending)
        invariant 0 <= j <= i
        invariant forall k, l :: 0 <= k < l <= i && k != j && l != j ==> InOrder(a[k], a[l], descending)
        invariant forall l :: j < l <= i ==> InOrder(a[j], a[l], descending)
        invariant multiset(a[..]) == multiset(old(a[..]))
      {
        Swap(a, j - 1, j);
        j := j - 1;
      }
      i := i + 1;
    }
  }

  /** The spread into a fresh array, sorted there; the list it was copied from is left as it was. */
  method SortedCopy(s: seq<Profile>, descending: bool) returns (r: seq<Profile>)
    ensures PriceOrdered(r, descending)
    ensures multiset(r) == multiset(s)
  {
    var a := new Profile[|s|](i requires 0 <= i < |s| => s[i]);
    assert a[..] == s;
    SortByPrice(a, descending);
    r := a[..];
  }

  /**
   * `filteredProfiles`: the wanted profiles, sorted by price when a price sort is selected and
   * otherwise in list order. The fetched list itself is a value and is left as it was.
   */
  method FilteredProfiles(profiles: seq<Profile>, c: Controls) returns (r: seq<Profile>)
    ensures forall p :: multiset(r)[p] == if Wanted(c, p) then multiset(profiles)[p] else 0
    ensures c.sortOption != "priceHigh" && c.sortOption != "priceLow" ==> r == Filter(profiles, WantedTest(c))
    ensures c.sortOption == "priceHigh" ==> forall i, j :: 0 <= i < j < |r| ==> r[i].pricePerKilo >= r[j].pricePerKilo
    ensures c.sortOption == "priceLow" ==> forall i, j :: 0 <= i < j < |r| ==> r[i].pricePerKilo <= r[j].pricePerKilo
  {
    KeptExactly(profiles, c);
    var filtered := Kept(profiles, c);
    if c.sortOption == "priceHigh" || c.sortOption == "priceLow" {
      r := SortedCopy(filtered, c.sortOption == "priceHigh");
    } else {
      r := filtered;
    }
  }

  // ---------------------------------------------------------------- chart

  const MsPerDay: nat := 86400000

  /** The calendar day (UTC) of a time in milliseconds: the `YYYY-MM-DD` key as a number. */
  function DayKey(time: nat): int {
    time / MsPerDay
  }

  /** Some fetched history has an item on day `d`. */
  ghost predicate OnSomeDay(histories: seq<seq<Snapshot>>, d: int) {
    exists i, j :: 0 <= i < |histories| && 0 <= j < |histories[i]| && DayKey(histories[i][j].date) == d
  }

  /** The nested `forEach` that adds every item's day to a `Set`, kept in insertion order. */
  method CollectDays(histories: seq<seq<Snapshot>>) returns (days: seq<int>)
    ensures Distinct(days)
    ensures forall d :: d in days <==> OnSomeDay(histories, d)
  {
    days := [];
    var i := 0;
    while i < |histories|
      invariant 0 <= i <= |histories|
      invariant Distinct(days)
      invariant forall d :: d in days <==>
                  exists a, b :: 0 <= a < i && 0 <= b < |histories[a]| && DayKey(histories[a][b].date) == d
    {
      var j := 0;
      while j < |histories[i]|
        invariant 0 <= j <= |histories[i]|
        invariant Distinct(days)
        invariant forall d :: d in days <==>
                    || (exists a, b :: 0 <= a < i && 0 <= b < |histories[a]| && DayKey(histories[a][b].date) == d)
                    || (exists b :: 0 <= b < j && DayKey(histories[i][b].date) == d)
      {
        var day := DayKey(histories[i][j].date);
        if day !in days {
          days := days + [day];
        }
        j := j + 1;
      }
      i := i + 1;
    }
  }

  function Identity(d: int): int {
    d
  }

  /** The chart's dates: ascending, at most seven, and the latest of all the days with history. */
  ghost predicate ChartDates(dates: seq<int>, histories: seq<seq<Snapshot>>) {
    && |dates| <= 7
    && (forall i, j :: 0 <= i < j < |dates| ==> dates[i] < dates[j])
    && (forall d :: d in dates ==> OnSomeDay(histories, d))
    && (forall d :: OnSomeDay(histories, d) && d !in dates ==> |dates| == 7 && d < dates[0])
  }

  /** A sorted list without repeats is strictly ascending. */
  lemma StrictlyAscending(s: seq<int>)
    requires Distinct(s) && SortedBy(s, Identity)
    ensures forall i, j :: 0 <= i < j < |s| ==> s[i] < s[j]
  {
    forall i, j | 0 <= i < j < |s|
      ensures s[i] < s[j]
    {
      DistinctAt(s, i, j);
      assert Identity(s[i]) <= Identity(s[j]);
    }
  }

  /** The last seven of an ascending list: ascending, and later than every day left out. */
  lemma {:induction false} KeepLatest(sorted: seq<int>, days: seq<int>)
    requires multiset(sorted) == multiset(days)
    requires forall i, j :: 0 <= i < j < |sorted| ==> sorted[i] < sorted[j]
    ensures var dates := sorted[|sorted| - Min(7, |sorted|)..];
            && |dates| <= 7
            && (forall i, j :: 0 <= i < j < |dates| ==> dates[i] < dates[j])
            && (forall d :: d in dates ==> d in days)
            && (forall d :: d in days && d !in dates ==> |dates| == 7 && d < dates[0])
  {
    var n := |sorted|;
    var start := n - Min(7, n);
    var dates := sorted[start..];
    forall d | d in dates
      ensures d in days
    {
      assert d in multiset(sorted);
    }
    forall d | d in days && d !in dates
      ensures |dates| == 7 && d < dates[0]
    {
      assert d in multiset(days);
      var k :| 0 <= k < n && sorted[k] == d;
      assert k < start;
      assert dates[0] == sorted[start];
    }
  }

  /** Sorting a list of distinct days and keeping the last seven gives the latest seven days. */
  lemma LatestSeven(days: seq<int>)
    requires Distinct(days)
    ensures var sorted := SortBy(days, Identity);
            var dates := sorted[|sorted| - Min(7, |sorted|)..];
            && |dates| <= 7
            && (forall i, j :: 0 <= i < j < |dates| ==> dates[i] < dates[j])
            && (forall d :: d in dates ==> d in days)
            && (forall d :: d in days && d !in dates ==> |dates| == 7 && d < dates[0])
  {
    var sorted := SortBy(days, Identity);
    assert Distinct(sorted) by {
      assert multiset(sorted) == multiset(days);
    }
    StrictlyAscending(sorted);
    KeepLatest(sorted, days);
  }

  /** A chart cell: the row's date, or one factory's price on that date. */
  datatype Cell = DateCell(day: int) | PriceCell(price: int)

  type Row = map<string, Cell>

  /** `history.find(item => day(item.date) === day)`, as an index. */
  function FindOnDay(h: seq<Snapshot>, day: int): (r: Option<nat>)
    ensures r.Some? ==> r.value < |h| && DayKey(h[r.value].date) == day
    ensures r.Some? ==> forall m :: 0 <= m < r.value ==> DayKey(h[m].date) != day
    ensures r.None? ==> forall m :: 0 <= m < |h| ==> DayKey(h[m].date) != day
  {
    if h == [] then None
    else if DayKey(h[0].date) == day then Some(0)
    else
      match FindOnDay(h[1..], day)
      case None => None
      case Some(k) => Some(k + 1)
  }

  /** `record ? record.price : 0`. */
  function Entry(h: seq<Snapshot>, day: int): int {
    match FindOnDay(h, day)
    case None => 0
    case Some(k) => h[k].price
  }

  /** The other page's `r?.price || 0`: a falsy price also becomes 0. */
  function EntryOrZero(h: seq<Snapshot>, day: int): int {
    match FindOnDay(h, day)
    case None => 0
    case Some(k) => if h[k].price != 0 then h[k].price else 0
  }

  /** With integer prices both ways of writing the entry give the same cell. */
  lemma EntryVariantsAgree(h: seq<Snapshot>, day: int)
    ensures EntryOrZero(h, day) == Entry(h, day)
    ensures Entry(h, day) != 0 ==> exists m :: 0 <= m < |h| && DayKey(h[m].date) == day && h[m].price == Entry(h, day)
  {
  }

  /** No name after the `m`-th among the first `n` is the same name. */
  predicate LastNamed(names: seq<string>, m: nat, n: nat)
    requires m < n <= |names|
  {
    forall j :: m < j < n ==> names[j] != names[m]
  }

  /**
   * A row for `day` after the first `n` entries have been written into it: the key "date",
   * plus one key per name whose cell is the last entry written under that name; "date" keeps
   * the day unless some name is "date".
   */
  ghost predicate Written(row: Row, day: int, names: seq<string>, cells: seq<int>, n: nat)
    requires n <= |names| == |cells|
  {
    && row.Keys == {"date"} + NamesAmong(names, n)
    && (forall m :: 0 <= m < n && LastNamed(names, m, n) ==> row[names[m]] == PriceCell(cells[m]))
    && ((forall m :: 0 <= m < n ==> names[m] != "date") ==> row["date"] == DateCell(day))
  }

  /** The names among the first `n` entries. */
  function NamesAmong(names: seq<string>, n: nat): set<string>
    requires n <= |names|
  {
    set x | x in names[..n]
  }

  /** The names among the first `n + 1` are those among the first `n` and the next one. */
  lemma NamesStep(names: seq<string>, n: nat)
    requires n < |names|
    ensures NamesAmong(names, n + 1) == NamesAmong(names, n) + {names[n]}
  {
    assert names[..n + 1] == names[..n] + [names[n]];
  }

  /** A cell last written among the first `n + 1` entries, other than the next one, is already in the row and no later entry overwrites it. */
  lemma KeptCell(row: Row, day: int, names: seq<string>, cells: seq<int>, n: nat, m: nat)
    requires m < n < |names| == |cells|
    requires Written(row, day, names, cells, n)
    requires LastNamed(names, m, n + 1)
    ensures names[m] != names[n] && names[m] in row && row[names[m]] == PriceCell(cells[m])
  {
    assert LastNamed(names, m, n);
    assert names[..n][m] == names[m];
  }

  /** After the next entry is written, every cell last written among the first `n + 1` entries holds that entry. */
  lemma CellsStep(row: Row, day: int, names: seq<string>, cells: seq<int>, n: nat)
    requires n < |names| == |cells|
    requires Written(row, day, names, cells, n)
    ensures var next := row[names[n] := PriceCell(cells[n])];
            forall m :: 0 <= m < n + 1 && LastNamed(names, m, n + 1) ==>
              names[m] in next && next[names[m]] == PriceCell(cells[m])
  {
    var next := row[names[n] := PriceCell(cells[n])];
    forall m | 0 <= m < n + 1 && LastNamed(names, m, n + 1)
      ensures names[m] in next && next[names[m]] == PriceCell(cells[m])
    {
      if m < n {
        KeptCell(row, day, names, cells, n, m);
        assert next[names[m]] == row[names[m]];
      } else {
        assert m == n;
      }
    }
  }

  /** Writing the next entry extends a partial row by one name. */
  lemma WriteStep(row: Row, day: int, names: seq<string>, cells: seq<int>, n: nat)
    requires n < |names| == |cells|
    requires Written(row, day, names, cells, n)
    ensures Written(row[names[n] := PriceCell(cells[n])], day, names, cells, n + 1)
  {
    NamesStep(names, n);
    CellsStep(row, day, names, cells, n);
  }

  function FactoryNames(profiles: seq<Profile>): (r: seq<string>)
    ensures |r| == |profiles| && forall m :: 0 <= m < |r| ==> r[m] == profiles[m].factoryName
  {
    seq(|profiles|, m requires 0 <= m < |profiles| => profiles[m].factoryName)
  }

  function Entries(histories: seq<seq<Snapshot>>, day: int): (r: seq<int>)
    ensures |r| == |histories| && forall m :: 0 <= m < |r| ==> r[m] == Entry(histories[m], day)
  {
    seq(|histories|, m requires 0 <= m < |histories| => Entry(histories[m], day))
  }

  /** The chart row for `day`: the date, and under each factory name the entry of the last profile so named. */
  ghost predicate RowOf(row: Row, day: int, profiles: seq<Profile>, histories: seq<seq<Snapshot>>)
    requires |histories| == |profiles|
  {
    Written(row, day, FactoryNames(profiles), Entries(histories, day), |profiles|)
  }

  /** `const row = { date }` then `row[factoryName] = ...` for each profile in list order. */
  method BuildRow(day: int, profiles: seq<Profile>, histories: seq<seq<Snapshot>>) returns (row: Row)
    requires |histories| == |profiles|
    ensures RowOf(row, day, profiles, histories)
  {
    ghost var names, cells := FactoryNames(profiles), Entries(histories, day);
    row := map["date" := DateCell(day)];
    var i := 0;
    while i < |histories|
      invariant 0 <= i <= |histories|
      invariant Written(row, day, names, cells, i)
    {
      WriteStep(row, day, names, cells, i);
      row := row[profiles[i].factoryName := PriceCell(Entry(histories[i], day))];
      i := i + 1;
    }
  }

  /** The chart's dates: the latest seven distinct days with any history, ascending. */
  method PickDates(histories: seq<seq<Snapshot>>) returns (dates: seq<int>)
    ensures ChartDates(dates, histories)
  {
    var days := CollectDays(histories);
    LatestSeven(days);
    var sorted := SortBy(days, Identity);
    dates := sorted[|sorted| - Min(7, |sorted|)..];
  }

  /**
   * The chart built after fetching: nothing when there are no profiles; otherwise one row per
   * chart date, the dates being the latest seven distinct days with any history.
   */
  method BuildChart(profiles: seq<Profile>, histories: seq<seq<Snapshot>>) returns (dates: seq<int>, rows: seq<Row>)
    requires |histories| == |profiles|
    ensures profiles == [] ==> dates == [] && rows == []
    ensures ChartDates(dates, histories)
    ensures |rows| == |dates|
    ensures forall k :: 0 <= k < |rows| ==> RowOf(rows[k], dates[k], profiles, histories)
  {
    if |profiles| == 0 {
      return [], [];
    }
    dates := PickDates(histories);
    rows := [];
    var k := 0;
    while k < |dates|
      invariant 0 <= k <= |dates|
      invariant |rows| == k
      invariant forall j :: 0 <= j < k ==> RowOf(rows[j], dates[j], profiles, histories)
    {
      var row := BuildRow(dates[k], profiles, histories);
      rows := rows + [row];
      k := k + 1;
    }
  }
}
