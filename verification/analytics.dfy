/** The dashboard's read-only projections of the ledger: entity and movement
    counts, the seven-day movement trend, the five most-moved products and the
    ten most recent movements. "Now" and "today" are parameters. */
module Analytics {
  import opened Base
  import opened Models
  import opened Sorting
  import opened MovementLedger
  import opened EntityRegistry

  const MicrosPerDay: int := 86_400_000_000
  const TrendDays: int := 7
  const TopLimit: nat := 5
  const RecentLimit: nat := 10

  /** Calendar day (days since the epoch, UTC) of a timestamp: `.date()`.
      Floor division, also for instants before the epoch. */
  function Day(ts: int): int
  {
    ts / MicrosPerDay
  }

  // ---------------------------------------------------------------------
  // Metrics

  datatype Metrics = Metrics(products: nat, locations: nat, movements: nat)

  /** `api_metrics`: the three row counts. */
  function MetricsOf(products: Registry, locations: Registry, ms: Ledger): Metrics
  {
    Metrics(|products|, |locations|, |ms|)
  }

  /** The counts move with the updates: a committed insert adds one row to its
      table, a refused insert or any edit leaves every count alone. */
  lemma MetricsTrackUpdates(products: Registry, locations: Registry, ms: Ledger,
                            id: string, now: int, fromField: string, toField: string,
                            productId: string, qty: int, name: string, description: string)
    ensures
      var before := MetricsOf(products, locations, ms);
      var added := AddMovement(ms, id, now, fromField, toField, productId, qty);
      var edited := EditMovement(ms, id, fromField, toField, productId, qty);
      && MetricsOf(products, locations, added.0).movements == before.movements + (if added.1.Ok? then 1 else 0)
      && MetricsOf(products, locations, edited.0) == before
    ensures
      var before := MetricsOf(products, locations, ms);
      var added := AddEntity(products, id, name, description);
      var edited := EditEntity(products, id, name, description);
      && MetricsOf(added.0, locations, ms).products == before.products + (if added.1.Ok? then 1 else 0)
      && MetricsOf(edited.0, locations, ms) == before
  {
    var added := AddEntity(products, id, name, description);
    if added.1.Ok? {
      assert added.0.Keys == products.Keys + {id};
      assert |added.0.Keys| == |products.Keys| + 1;
    }
    var edited := EditEntity(products, id, name, description);
    assert edited.0.Keys == products.Keys;
  }

  // ---------------------------------------------------------------------
  // Seven-day trend

  function OnDay(d: int): Movement -> int
  {
    (m: Movement) => if Day(m.timestamp) == d then 1 else 0
  }

  /** Number of movements stamped on day `d`. */
  function CountOnDay(ms: Ledger, d: int): int
  {
    SumBy(ms, OnDay(d))
  }

  /** `api_movements_trend`: one label per day from `today - 6` to `today`,
      ascending, each with the number of movements stamped that day. The
      query keeps rows from the window's first midnight on, and the loop
      counts a row only when its day is one of the labels. */
  method MovementsTrend(ms: Ledger, today: int) returns (labels: seq<int>, data: seq<int>)
    ensures |labels| == TrendDays && |data| == TrendDays
    ensures forall i :: 0 <= i < TrendDays ==> labels[i] == today - (TrendDays - 1) + i
    ensures forall i :: 0 <= i < TrendDays ==> data[i] == CountOnDay(ms, labels[i])
  {
    var start := today - (TrendDays - 1);
    var days := seq(TrendDays, k => start + k);
    var dateMap: map<int, int> := map d | d in days :: 0;
    assert forall d :: d in days <==> start <= d <= today by {
      forall d | start <= d <= today ensures d in days {
        assert days[d - start] == d;
      }
    }
    var i := 0;
    while i < |ms|
      invariant 0 <= i <= |ms|
      invariant forall d :: d in dateMap <==> start <= d <= today
      invariant forall d :: d in dateMap ==> dateMap[d] == CountOnDay(ms[..i], d)
    {
      var m := ms[i];
      assert ms[..i + 1] == ms[..i] + [m];
      assert ms[..i + 1][..i] == ms[..i];
      if m.timestamp >= start * MicrosPerDay {
        var d := Day(m.timestamp);
        if d in dateMap {
          dateMap := dateMap[d := dateMap[d] + 1];
        }
      }
      i := i + 1;
    }
    assert ms[..|ms|] == ms;
    labels := days;
    data := seq(TrendDays, k requires 0 <= k < TrendDays => dateMap[start + k]);
  }

  /** Sum of the day counts over `n` consecutive days from `first`. */
  function WindowSum(ms: Ledger, first: int, n: nat): int
    decreases n
  {
    if n == 0 then 0 else WindowSum(ms, first, n - 1) + CountOnDay(ms, first + n - 1)
  }

  function InWindow(first: int, last: int): Movement -> int
  {
    (m: Movement) => if first <= Day(m.timestamp) <= last then 1 else 0
  }

  /** The trend's counts add up to the number of movements stamped inside the
      window: each of those is counted once, and a movement before the window
      or after today is counted nowhere. */
  lemma {:induction false} TrendCountsWindow(ms: Ledger, first: int, n: nat)
    ensures WindowSum(ms, first, n) == SumBy(ms, InWindow(first, first + n - 1))
    decreases n
  {
    if n == 0 {
      SumByZero(ms, InWindow(first, first - 1));
    } else {
      TrendCountsWindow(ms, first, n - 1);
      SumByAdd(ms, InWindow(first, first + n - 2), OnDay(first + n - 1), InWindow(first, first + n - 1));
    }
  }

  /** Adding a movement dated outside the window, anywhere in the ledger,
      changes no count of the trend. */
  lemma TrendIgnoresOutside(before: Ledger, m: Movement, after: Ledger, today: int, i: int)
    requires 0 <= i < TrendDays
    requires Day(m.timestamp) < today - (TrendDays - 1) || today < Day(m.timestamp)
    ensures CountOnDay(before + [m] + after, today - (TrendDays - 1) + i) == CountOnDay(before + after, today - (TrendDays - 1) + i)
  {
    SumByIgnores(before, m, after, OnDay(today - (TrendDays - 1) + i));
  }

  /** An empty ledger gives seven zero counts. */
  lemma TrendOfEmptyLedger(today: int, i: int)
    requires 0 <= i < TrendDays
    ensures CountOnDay([], today - (TrendDays - 1) + i) == 0
  {
  }

  // ---------------------------------------------------------------------
  // Top products by volume moved

  /** One row of `SELECT product_id, SUM(ABS(qty)) ... GROUP BY product_id`. */
  datatype ProductVolume = ProductVolume(productId: string, total: int)

  function TotalOf(v: ProductVolume): int
  {
    v.total
  }

  function MovedBy(p: string): Movement -> int
  {
    (m: Movement) => if m.productId == p then Abs(m.qty) else 0
  }

  /** Units of `p` moved in either direction. */
  function VolumeOf(ms: Ledger, p: string): int
  {
    SumBy(ms, MovedBy(p))
  }

  lemma VolumeNonNegative(ms: Ledger, p: string)
    ensures VolumeOf(ms, p) >= 0
  {
    SumByNonNegative(ms, MovedBy(p));
  }

  /** The groups of `GROUP BY product_id`: each product of the ledger once,
      in order of first appearance. */
  function ProductIds(ms: Ledger): (ids: seq<string>)
    ensures Distinct(ids)
    ensures forall p :: p in ids <==> Mentions(ms, p)
    ensures |ids| <= |ms|
    decreases |ms|
  {
    if ms == [] then []
    else
      var prev := ProductIds(ms[..|ms| - 1]);
      var p := ms[|ms| - 1].productId;
      assert forall q :: Mentions(ms, q) <==> Mentions(ms[..|ms| - 1], q) || p == q by {
        forall q ensures Mentions(ms, q) <==> Mentions(ms[..|ms| - 1], q) || p == q {
          MentionsSnoc(ms, q);
        }
      }
      if p in prev then prev else prev + [p]
  }

  function Groups(ms: Ledger): (groups: seq<ProductVolume>)
    ensures |groups| == |ProductIds(ms)|
    ensures forall i :: 0 <= i < |groups| ==> groups[i] == ProductVolume(ProductIds(ms)[i], VolumeOf(ms, ProductIds(ms)[i]))
  {
    var ids := ProductIds(ms);
    seq(|ids|, i requires 0 <= i < |ids| => ProductVolume(ids[i], VolumeOf(ms, ids[i])))
  }

  /** A group row is the product's true volume, and a product determines its
      row; so the rows are as distinct as the products. */
  lemma GroupsFaithful(ms: Ledger)
    ensures Distinct(Groups(ms))
    ensures forall g :: g in Groups(ms) ==> Mentions(ms, g.productId) && g.total == VolumeOf(ms, g.productId)
    ensures forall p :: Mentions(ms, p) ==> ProductVolume(p, VolumeOf(ms, p)) in Groups(ms)
  {
    var ids := ProductIds(ms);
    var groups := Groups(ms);
    forall i, j | 0 <= i < j < |groups| ensures groups[i] != groups[j] {
      assert groups[i].productId == ids[i];
    }
    forall p | Mentions(ms, p) ensures ProductVolume(p, VolumeOf(ms, p)) in groups {
      var a :| 0 <= a < |ids| && ids[a] == p;
      assert groups[a] == ProductVolume(p, VolumeOf(ms, p));
    }
  }

  /** The query's rows: ordered by volume, highest first, and limited to five.
      Each listed product is in the ledger, listed once, with its true
      volume; no product left out moved more than the last one listed. */
  function RankedVolumes(ms: Ledger): (r: seq<ProductVolume>)
    ensures |r| == Min(TopLimit, |ProductIds(ms)|)
    ensures ms == [] ==> r == []
    ensures SortedDesc(r, TotalOf)
    ensures forall i :: 0 <= i < |r| ==>
      Mentions(ms, r[i].productId) && r[i].total == VolumeOf(ms, r[i].productId) && r[i].total >= 0
    ensures forall i, j :: 0 <= i < j < |r| ==> r[i].productId != r[j].productId
    ensures forall p :: Mentions(ms, p) && (forall i :: 0 <= i < |r| ==> r[i].productId != p) && 0 < |r| ==>
      VolumeOf(ms, p) <= r[|r| - 1].total
  {
    var ranked := SortDesc(Groups(ms), TotalOf);
    var n := Min(TopLimit, |ranked|);
    var r := ranked[..n];
    RankedFacts(ms, ranked, n);
    assert |r| == n && forall i :: 0 <= i < n ==> r[i] == ranked[i];
    r
  }

  lemma RankedFacts(ms: Ledger, ranked: seq<ProductVolume>, n: nat)
    requires ranked == SortDesc(Groups(ms), TotalOf)
    requires n <= |ranked|
    ensures SortedDesc(ranked[..n], TotalOf)
    ensures forall i :: 0 <= i < n ==>
      Mentions(ms, ranked[i].productId) && ranked[i].total == VolumeOf(ms, ranked[i].productId) && ranked[i].total >= 0
    ensures forall i, j :: 0 <= i < j < n ==> ranked[i].productId != ranked[j].productId
    ensures forall p :: Mentions(ms, p) && (forall i :: 0 <= i < n ==> ranked[i].productId != p) && 0 < n ==>
      VolumeOf(ms, p) <= ranked[n - 1].total
  {
    TakeSorted(ranked, n, TotalOf);
    RankedRowsTrue(ms, ranked);
    RankedOmitted(ms, ranked, n);
  }

  lemma RankedRowsTrue(ms: Ledger, ranked: seq<ProductVolume>)
    requires ranked == SortDesc(Groups(ms), TotalOf)
    ensures forall i :: 0 <= i < |ranked| ==>
      Mentions(ms, ranked[i].productId) && ranked[i].total == VolumeOf(ms, ranked[i].productId) && ranked[i].total >= 0
    ensures forall i, j :: 0 <= i < j < |ranked| ==> ranked[i].productId != ranked[j].productId
  {
    var groups := Groups(ms);
    GroupsFaithful(ms);
    PermutationDistinct(groups, ranked);
    forall i | 0 <= i < |ranked|
      ensures Mentions(ms, ranked[i].productId) && ranked[i].total == VolumeOf(ms, ranked[i].productId) && ranked[i].total >= 0
    {
      assert ranked[i] in multiset(ranked);
      assert ranked[i] in groups;
      VolumeNonNegative(ms, ranked[i].productId);
    }
  }

  lemma RankedOmitted(ms: Ledger, ranked: seq<ProductVolume>, n: nat)
    requires ranked == SortDesc(Groups(ms), TotalOf)
    requires n <= |ranked|
    ensures forall p :: Mentions(ms, p) && (forall i :: 0 <= i < n ==> ranked[i].productId != p) && 0 < n ==>
      VolumeOf(ms, p) <= ranked[n - 1].total
  {
    GroupsFaithful(ms);
    forall p | Mentions(ms, p) && (forall i :: 0 <= i < n ==> ranked[i].productId != p) && 0 < n
      ensures VolumeOf(ms, p) <= ranked[n - 1].total
    {
      var g := ProductVolume(p, VolumeOf(ms, p));
      assert g in multiset(ranked);
      var k :| 0 <= k < |ranked| && ranked[k] == g;
      assert n <= k;
    }
  }

  /** `api_top_products`: the ranked rows as chart labels (registered name, or
      the raw id) and data. */
  function TopProducts(ms: Ledger, products: Registry): (chart: (seq<string>, seq<int>))
    ensures |chart.0| == |chart.1| == |RankedVolumes(ms)| <= TopLimit
    ensures forall i :: 0 <= i < |chart.0| ==>
      && chart.0[i] == NameOf(products, RankedVolumes(ms)[i].productId)
      && chart.1[i] == VolumeOf(ms, RankedVolumes(ms)[i].productId)
  {
    var rows := RankedVolumes(ms);
    (seq(|rows|, i requires 0 <= i < |rows| => NameOf(products, rows[i].productId)),
     seq(|rows|, i requires 0 <= i < |rows| => rows[i].total))
  }

  // ---------------------------------------------------------------------
  // Recent movements

  /** One element of the `items` list: the row's six columns. */
  datatype RecentItem = RecentItem(movementId: string, timestamp: int, productId: string,
                                   fromLocation: Option<string>, toLocation: Option<string>, qty: int)

  function ItemOf(m: Movement): RecentItem
  {
    RecentItem(m.movementId, m.timestamp, m.productId, m.fromLocation, m.toLocation, m.qty)
  }

  /** `api_recent_movements`: the ten newest movements, newest first, each
      projected to its columns. Nothing left out is newer than the last item. */
  function RecentMovements(ms: Ledger): (items: seq<RecentItem>)
    ensures |items| == Min(RecentLimit, |ms|)
    ensures forall i, j :: 0 <= i < j < |items| ==> items[i].timestamp >= items[j].timestamp
    ensures forall i :: 0 <= i < |items| ==> items[i] == ItemOf(ListMovements(ms)[i])
    ensures forall i :: 0 <= i < |items| ==> exists m :: m in ms && items[i] == ItemOf(m)
    ensures forall m :: m in ms && ItemOf(m) !in items && 0 < |items| ==> m.timestamp <= items[|items| - 1].timestamp
  {
    var latest := Latest(ms, RecentLimit);
    var items := seq(|latest|, i requires 0 <= i < |latest| => ItemOf(latest[i]));
    RecentFacts(ms, latest, items);
    items
  }

  lemma RecentFacts(ms: Ledger, latest: Ledger, items: seq<RecentItem>)
    requires latest == Latest(ms, RecentLimit)
    requires |items| == |latest| && forall i :: 0 <= i < |latest| ==> items[i] == ItemOf(latest[i])
    ensures forall i :: 0 <= i < |items| ==> exists m :: m in ms && items[i] == ItemOf(m)
    ensures forall m :: m in ms && ItemOf(m) !in items && 0 < |items| ==> m.timestamp <= items[|items| - 1].timestamp
  {
    forall i | 0 <= i < |items|
      ensures exists m :: m in ms && items[i] == ItemOf(m)
    {
      assert latest[i] in multiset(latest);
      assert latest[i] in multiset(ms);
    }
  }
}
