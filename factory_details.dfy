/**
 * The factory details page: the fetched price history reshaped for the chart,
 * and the integer parts of the summary figures above it.
 */
module FactoryDetails {
  import opened Common
  import opened Seqs
  import opened PriceHistoryModel

  /** One chart point: the raw date (a clock value) and the price; the display date is not modelled. */
  datatype Point = Point(rawDate: nat, price: int)

  /** The `map` that turns each fetched snapshot into a chart point. */
  function Format(history: seq<Snapshot>): (r: seq<Point>)
    ensures |r| == |history|
    ensures forall i :: 0 <= i < |r| ==> r[i] == Point(history[i].date, history[i].price)
  {
    seq(|history|, i requires 0 <= i < |history| => Point(history[i].date, history[i].price))
  }

  function PricesOf(points: seq<Point>): (r: seq<int>)
    ensures |r| == |points| && forall i :: 0 <= i < |r| ==> r[i] == points[i].price
  {
    seq(|points|, i requires 0 <= i < |points| => points[i].price)
  }

  /** The integer figures of the summary: the average and the percentage are decimals and not modelled. */
  datatype Stats = Stats(highest: int, lowest: int, last: int, previous: int, change: int)

  /** `stats`: none for an empty history. */
  function StatsOf(points: seq<Point>): (r: Option<Stats>)
    ensures r.None? <==> points == []
  {
    if points == [] then None
    else
      var prices := PricesOf(points);
      var n := |prices|;
      var last := prices[n - 1];
      // `prices[n - 2] || last`: a missing entry and a price of 0 are both falsy
      var previous := if n >= 2 && prices[n - 2] != 0 then prices[n - 2] else last;
      Some(Stats(MaxOf(prices), MinOf(prices), last, previous, last - previous))
  }

  /** The highest and lowest figures are prices of the history and bound all of them. */
  lemma StatsBound(points: seq<Point>)
    requires points != []
    ensures var s := StatsOf(points).value;
            && (exists i :: 0 <= i < |points| && points[i].price == s.highest)
            && (exists i :: 0 <= i < |points| && points[i].price == s.lowest)
            && (forall i :: 0 <= i < |points| ==> s.lowest <= points[i].price <= s.highest)
            && s.lowest <= s.highest
  {
    var prices := PricesOf(points);
    var s := StatsOf(points).value;
    assert forall i :: 0 <= i < |points| ==> prices[i] in prices;
    var hi :| 0 <= hi < |prices| && prices[hi] == s.highest;
    var lo :| 0 <= lo < |prices| && prices[lo] == s.lowest;
    assert points[hi].price == s.highest && points[lo].price == s.lowest;
  }

  /** The change compares the last price with the one before it, or is 0 when that is missing or 0. */
  lemma ChangeRule(points: seq<Point>)
    requires points != []
    ensures var s := StatsOf(points).value; var n := |points|;
            && s.last == points[n - 1].price
            && (n >= 2 && points[n - 2].price != 0 ==> s.change == points[n - 1].price - points[n - 2].price)
            && (n == 1 || points[n - 2].price == 0 ==> s.change == 0)
            && s.last - s.change == s.previous
  {
  }

  /** The badge shows the rising arrow exactly when the change is not negative. */
  predicate TrendUp(s: Stats) {
    s.change >= 0
  }

  /** The arrow rises exactly when the last price is at least the one it is compared with. */
  lemma TrendFollowsPrices(points: seq<Point>)
    requires points != []
    ensures TrendUp(StatsOf(points).value) <==> StatsOf(points).value.last >= StatsOf(points).value.previous
    ensures |points| == 1 ==> TrendUp(StatsOf(points).value)
  {
  }
}
