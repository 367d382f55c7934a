/**
 * The scrolling market ticker above the directory: seven figures computed from
 * the profile list, shown three times over.
 */
module MarketTicker {
  import opened Seqs
  import opened ProfileModel

  function Prices(profiles: seq<Profile>): (r: seq<int>)
    ensures |r| == |profiles| && forall i :: 0 <= i < |r| ==> r[i] == profiles[i].pricePerKilo
  {
    seq(|profiles|, i requires 0 <= i < |profiles| => profiles[i].pricePerKilo)
  }

  /** `Math.max(...prices)`, or 0 for an empty list. */
  function MarketHigh(profiles: seq<Profile>): (r: int)
    ensures profiles == [] ==> r == 0
    ensures profiles != [] ==> exists i :: 0 <= i < |profiles| && profiles[i].pricePerKilo == r
    ensures forall i :: 0 <= i < |profiles| ==> profiles[i].pricePerKilo <= r
  {
    if profiles == [] then 0
    else
      var prices := Prices(profiles);
      assert forall i :: 0 <= i < |profiles| ==> prices[i] in prices;
      MaxOf(prices)
  }

  /** `Math.min(...prices)`, or 0 for an empty list. */
  function MarketLow(profiles: seq<Profile>): (r: int)
    ensures profiles == [] ==> r == 0
    ensures profiles != [] ==> exists i :: 0 <= i < |profiles| && profiles[i].pricePerKilo == r
    ensures forall i :: 0 <= i < |profiles| ==> r <= profiles[i].pricePerKilo
  {
    if profiles == [] then 0
    else
      var prices := Prices(profiles);
      assert forall i :: 0 <= i < |profiles| ==> prices[i] in prices;
      MinOf(prices)
  }

  /** The number of profiles whose commodity is exactly `name`. */
  function Units(profiles: seq<Profile>, name: string): nat {
    |Filter(profiles, (p: Profile) => CommodityName(p.commodityType) == name)|
  }

  /** Adding one profile adds one to the count of its own commodity and leaves the other count as it was. */
  lemma UnitsStep(profiles: seq<Profile>, p: Profile, name: string)
    ensures Units(profiles + [p], name) == Units(profiles, name) + (if CommodityName(p.commodityType) == name then 1 else 0)
  {
    FilterAppend(profiles, [p], (q: Profile) => CommodityName(q.commodityType) == name);
  }

  /** Every profile is Tea or Coffee, so the two unit counts add up to the factory count. */
  lemma {:induction false} UnitsAddUp(profiles: seq<Profile>)
    ensures Units(profiles, "Tea") + Units(profiles, "Coffee") == |profiles|
  {
    if profiles != [] {
      UnitsAddUp(profiles[..|profiles| - 1]);
    }
  }

  /** A ticker value: a count, a rupee amount, the average price (a decimal, not modelled), or a word. */
  datatype TickerValue = Count(n: nat) | Rupees(amount: int) | AveragePerKilo | Word(text: string)

  datatype TickerItem = TickerItem(title: string, value: TickerValue)

  /** The seven items, in display order. */
  function Items(profiles: seq<Profile>): (items: seq<TickerItem>)
    ensures |items| == 7
    ensures items[0] == TickerItem("FACTORIES", Count(|profiles|))
    ensures items[1] == TickerItem("AVG PRICE", AveragePerKilo)
    ensures items[2] == TickerItem("MARKET HIGH", Rupees(MarketHigh(profiles)))
    ensures items[3] == TickerItem("MARKET LOW", Rupees(MarketLow(profiles)))
    ensures items[4] == TickerItem("TEA UNITS", Count(Units(profiles, "Tea")))
    ensures items[5] == TickerItem("COFFEE UNITS", Count(Units(profiles, "Coffee")))
    ensures items[6] == TickerItem("STATUS", Word("LIVE"))
    ensures items[4].value.n + items[5].value.n == |profiles|
  {
    UnitsAddUp(profiles);
    [ TickerItem("FACTORIES", Count(|profiles|)),
      TickerItem("AVG PRICE", AveragePerKilo),
      TickerItem("MARKET HIGH", Rupees(MarketHigh(profiles))),
      TickerItem("MARKET LOW", Rupees(MarketLow(profiles))),
      TickerItem("TEA UNITS", Count(Units(profiles, "Tea"))),
      TickerItem("COFFEE UNITS", Count(Units(profiles, "Coffee"))),
      TickerItem("STATUS", Word("LIVE")) ]
  }

  /** The items three times over, as the scrolling strip shows them. */
  function Strip(profiles: seq<Profile>): (r: seq<TickerItem>)
    ensures |r| == 21
    ensures r[..7] == Items(profiles) && r[7..14] == Items(profiles) && r[14..] == Items(profiles)
  {
    var items := Items(profiles);
    items + items + items
  }

  /** Three copies of a list side by side repeat it: entry `k` is entry `k mod |s|` of the list. */
  lemma {:induction false} Tripled<T>(s: seq<T>)
    ensures |s + s + s| == 3 * |s|
    ensures forall k :: 0 <= k < 3 * |s| ==> (s + s + s)[k] == s[k % |s|]
  {
    forall k | 0 <= k < 3 * |s|
      ensures (s + s + s)[k] == s[k % |s|]
    {
      if k < |s| {
        assert k % |s| == k;
      } else if k < 2 * |s| {
        assert k % |s| == k - |s|;
      } else {
        assert k % |s| == k - 2 * |s|;
      }
    }
  }

  /** The strip has 21 entries and its `k`-th entry is item `k mod 7`. */
  lemma StripRepeats(profiles: seq<Profile>)
    ensures |Strip(profiles)| == 21
    ensures forall k :: 0 <= k < 21 ==> Strip(profiles)[k] == Items(profiles)[k % 7]
  {
    Tripled(Items(profiles));
  }
}
