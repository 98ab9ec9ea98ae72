/** The balance report: one pass over the ledger accumulating, per product
    and location, the quantity moved in minus the quantity moved out, then a
    listing of the non-zero results with display names. */
module Balance {
  import opened Base
  import opened Models
  import opened Dicts
  import opened MovementLedger

  // ---------------------------------------------------------------------
  // Reference definition of a balance

  /** The signed change one movement makes to the stock of product `p` at
      location `l`: its quantity arrives at a present destination and leaves
      a present source. */
  function Effect(m: Movement, p: string, l: string): int
  {
    (if m.productId == p && Present(m.toLocation) && m.toLocation.value == l then m.qty else 0)
    - (if m.productId == p && Present(m.fromLocation) && m.fromLocation.value == l then m.qty else 0)
  }

  function EffectAt(p: string, l: string): Movement -> int
  {
    m => Effect(m, p, l)
  }

  /** Net stock of product `p` at location `l` over the whole ledger. */
  function Net(ms: Ledger, p: string, l: string): int
  {
    SumBy(ms, EffectAt(p, l))
  }

  /** `m` names `l` as a present endpoint for product `p`. */
  predicate Touches(m: Movement, p: string, l: string)
  {
    && m.productId == p
    && ((Present(m.toLocation) && m.toLocation.value == l)
        || (Present(m.fromLocation) && m.fromLocation.value == l))
  }

  predicate Touched(ms: Ledger, p: string, l: string)
  {
    exists i :: 0 <= i < |ms| && Touches(ms[i], p, l)
  }

  // ---------------------------------------------------------------------
  // The fold as the source writes it

  /** `balance_data`: product id -> (location id -> running quantity), both
      levels in first-insertion order. */
  type Accumulator = Dict<string, Dict<string, int>>

  predicate WellFormed(acc: Accumulator)
  {
    Valid(acc) && forall p :: p in acc.vals ==> Valid(acc.vals[p])
  }

  /** Running quantity for (p, l); zero when either level has no entry. */
  function Lookup(acc: Accumulator, p: string, l: string): int
  {
    if p in acc.vals then Get(acc.vals[p], l, 0) else 0
  }

  /** `if l not in d: d[l] = 0` followed by `d[l] += delta`. */
  function Credit(inner: Dict<string, int>, l: string, delta: int): (r: Dict<string, int>)
    requires Valid(inner)
    ensures Valid(r)
    ensures Get(r, l, 0) == Get(inner, l, 0) + delta
    ensures forall k :: k != l ==> Get(r, k, 0) == Get(inner, k, 0)
    ensures forall k :: k in r.vals <==> k in inner.vals || k == l
  {
    Put(inner, l, Get(inner, l, 0) + delta)
  }

  /** The two endpoint updates of the loop body, on the product's location
      dict: add `qty` at a present destination, then subtract it at a
      present source. Each location moves by the movement's effect on it,
      and the dict gains exactly the endpoints it names. */
  function Shift(inner: Dict<string, int>, m: Movement): (r: Dict<string, int>)
    requires Valid(inner)
    ensures Valid(r)
    ensures forall l :: Get(r, l, 0) == Get(inner, l, 0) + Effect(m, m.productId, l)
    ensures forall l :: l in r.vals <==> l in inner.vals || Touches(m, m.productId, l)
  {
    var moved := if Present(m.toLocation) then Credit(inner, m.toLocation.value, m.qty) else inner;
    if Present(m.fromLocation) then Credit(moved, m.fromLocation.value, -m.qty) else moved
  }

  /** One iteration of the loop body: make sure the product has a (possibly
      empty) entry, then shift its quantities. */
  function Step(acc: Accumulator, m: Movement): (r: Accumulator)
    requires WellFormed(acc)
    ensures WellFormed(r)
  {
    var inner := if m.productId in acc.vals then acc.vals[m.productId] else Empty();
    Put(acc, m.productId, Shift(inner, m))
  }

  /** The whole loop over the ledger, first movement first. */
  function Accumulate(ms: Ledger): (acc: Accumulator)
    ensures WellFormed(acc)
    decreases |ms|
  {
    if ms == [] then Empty() else Step(Accumulate(ms[..|ms| - 1]), ms[|ms| - 1])
  }

  lemma StepMeaning(acc: Accumulator, m: Movement, p: string, l: string)
    requires WellFormed(acc)
    ensures Lookup(Step(acc, m), p, l) == Lookup(acc, p, l) + Effect(m, p, l)
    ensures p in Step(acc, m).vals <==> p in acc.vals || p == m.productId
    ensures p in Step(acc, m).vals ==>
      (l in Step(acc, m).vals[p].vals <==> (p in acc.vals && l in acc.vals[p].vals) || Touches(m, p, l))
  {
    var inner := if m.productId in acc.vals then acc.vals[m.productId] else Empty();
    var r := Step(acc, m);
    assert r.vals == acc.vals[m.productId := Shift(inner, m)];
    if p == m.productId {
      assert Lookup(r, p, l) == Get(Shift(inner, m), l, 0);
      assert Get(inner, l, 0) == Lookup(acc, p, l);
    } else {
      assert Effect(m, p, l) == 0;
    }
  }

  lemma {:induction false} TouchedSnoc(ms: Ledger, p: string, l: string)
    requires ms != []
    ensures Touched(ms, p, l) <==> Touched(ms[..|ms| - 1], p, l) || Touches(ms[|ms| - 1], p, l)
  {
    var prefix := ms[..|ms| - 1];
    if Touched(ms, p, l) {
      var i :| 0 <= i < |ms| && Touches(ms[i], p, l);
      if i < |ms| - 1 {
        assert prefix[i] == ms[i];
      }
    }
    if Touched(prefix, p, l) {
      var i :| 0 <= i < |prefix| && Touches(prefix[i], p, l);
      assert ms[i] == prefix[i];
    }
  }

  /** The fold computes the reference balance for every pair, has a product
      entry exactly for the products the ledger mentions, and a location
      entry exactly where a movement of that product names the location. */
  lemma {:induction false} AccumulateMeaning(ms: Ledger, p: string, l: string)
    ensures Lookup(Accumulate(ms), p, l) == Net(ms, p, l)
    ensures p in Accumulate(ms).vals <==> Mentions(ms, p)
    ensures p in Accumulate(ms).vals ==> (l in Accumulate(ms).vals[p].vals <==> Touched(ms, p, l))
    decreases |ms|
  {
    if ms != [] {
      var prefix, m := ms[..|ms| - 1], ms[|ms| - 1];
      AccumulateMeaning(prefix, p, l);
      StepMeaning(Accumulate(prefix), m, p, l);
      TouchedSnoc(ms, p, l);
      MentionsSnoc(ms, p);
    }
  }

  /** For a ledger whose endpoints all came through the form conversion, a
      product's location entries are exactly the locations its movements
      name: every non-NULL endpoint is counted. */
  lemma NamedLocationKeys(ms: Ledger, p: string, l: string)
    requires AllNormal(ms)
    requires Mentions(ms, p)
    ensures p in Accumulate(ms).vals
    ensures l in Accumulate(ms).vals[p].vals <==>
      exists i :: 0 <= i < |ms| && ms[i].productId == p && (ms[i].toLocation == Some(l) || ms[i].fromLocation == Some(l))
  {
    AccumulateMeaning(ms, p, l);
    if exists i :: 0 <= i < |ms| && ms[i].productId == p && (ms[i].toLocation == Some(l) || ms[i].fromLocation == Some(l)) {
      var i :| 0 <= i < |ms| && ms[i].productId == p && (ms[i].toLocation == Some(l) || ms[i].fromLocation == Some(l));
      assert NormalEndpoints(ms[i]);
      assert Touches(ms[i], p, l);
    }
  }

  // ---------------------------------------------------------------------
  // The report

  /** One line of the balance page. */
  datatype BalanceRow = BalanceRow(productId: string, productName: string,
                                   locationId: string, locationName: string, qty: int)

  /** The line the report shows for (p, l) when its balance is non-zero. */
  function RowOf(ms: Ledger, products: Registry, locations: Registry, p: string, l: string): BalanceRow
  {
    BalanceRow(p, NameOf(products, p), l, NameOf(locations, l), Net(ms, p, l))
  }

  /** The inner loop: the non-zero locations of one product, in order. */
  function LocationRows(p: string, inner: Dict<string, int>, locs: seq<string>,
                        products: Registry, locations: Registry): seq<BalanceRow>
    requires forall i :: 0 <= i < |locs| ==> locs[i] in inner.vals
    decreases |locs|
  {
    if locs == [] then []
    else
      var l := locs[0];
      (if inner.vals[l] != 0 then [BalanceRow(p, NameOf(products, p), l, NameOf(locations, l), inner.vals[l])] else [])
      + LocationRows(p, inner, locs[1..], products, locations)
  }

  /** The outer loop over the products, in order. */
  function ProductRows(acc: Accumulator, pids: seq<string>, products: Registry, locations: Registry): seq<BalanceRow>
    requires WellFormed(acc)
    requires forall i :: 0 <= i < |pids| ==> pids[i] in acc.vals
    decreases |pids|
  {
    if pids == [] then []
    else
      var inner := acc.vals[pids[0]];
      LocationRows(pids[0], inner, inner.keys, products, locations)
      + ProductRows(acc, pids[1..], products, locations)
  }

  /** `balance_report`. */
  function BalanceReport(ms: Ledger, products: Registry, locations: Registry): seq<BalanceRow>
  {
    var acc := Accumulate(ms);
    ProductRows(acc, acc.keys, products, locations)
  }

  /** No two lines are about the same (product, location) pair. */
  predicate PairsDistinct(rows: seq<BalanceRow>)
  {
    forall i, j :: 0 <= i < j < |rows| ==>
      rows[i].productId != rows[j].productId || rows[i].locationId != rows[j].locationId
  }

  lemma ConcatPairsDistinct(a: seq<BalanceRow>, b: seq<BalanceRow>)
    requires PairsDistinct(a) && PairsDistinct(b)
    requires forall i, j :: 0 <= i < |a| && 0 <= j < |b| ==>
      a[i].productId != b[j].productId || a[i].locationId != b[j].locationId
    ensures PairsDistinct(a + b)
  {
  }

  lemma {:induction false} LocationRowsMeaning(p: string, inner: Dict<string, int>, locs: seq<string>,
                                               products: Registry, locations: Registry)
    requires forall i :: 0 <= i < |locs| ==> locs[i] in inner.vals
    ensures forall r :: r in LocationRows(p, inner, locs, products, locations) <==>
      && r.productId == p
      && r.locationId in locs
      && inner.vals[r.locationId] != 0
      && r == BalanceRow(p, NameOf(products, p), r.locationId, NameOf(locations, r.locationId), inner.vals[r.locationId])
    ensures Distinct(locs) ==> PairsDistinct(LocationRows(p, inner, locs, products, locations))
    decreases |locs|
  {
    if locs != [] {
      LocationRowsMeaning(p, inner, locs[1..], products, locations);
      var rest := LocationRows(p, inner, locs[1..], products, locations);
      var rows := LocationRows(p, inner, locs, products, locations);
      forall r
        ensures r in rows <==>
          && r.productId == p
          && r.locationId in locs
          && inner.vals[r.locationId] != 0
          && r == BalanceRow(p, NameOf(products, p), r.locationId, NameOf(locations, r.locationId), inner.vals[r.locationId])
      {
        assert locs == [locs[0]] + locs[1..];
      }
      if Distinct(locs) {
        assert Distinct(locs[1..]);
        var head := if inner.vals[locs[0]] != 0 then [BalanceRow(p, NameOf(products, p), locs[0], NameOf(locations, locs[0]), inner.vals[locs[0]])] else [];
        forall i, j | 0 <= i < |head| && 0 <= j < |rest|
          ensures head[i].productId != rest[j].productId || head[i].locationId != rest[j].locationId
        {
          assert rest[j] in rest;
          assert rest[j].locationId in locs[1..];
        }
        ConcatPairsDistinct(head, rest);
      }
    }
  }

  lemma {:induction false} ProductRowsMeaning(acc: Accumulator, pids: seq<string>, products: Registry, locations: Registry)
    requires WellFormed(acc)
    requires forall i :: 0 <= i < |pids| ==> pids[i] in acc.vals
    ensures forall r :: r in ProductRows(acc, pids, products, locations) <==>
      && r.productId in pids
      && r.locationId in acc.vals[r.productId].vals
      && acc.vals[r.productId].vals[r.locationId] != 0
      && r == BalanceRow(r.productId, NameOf(products, r.productId), r.locationId,
                         NameOf(locations, r.locationId), acc.vals[r.productId].vals[r.locationId])
    ensures Distinct(pids) ==> PairsDistinct(ProductRows(acc, pids, products, locations))
    decreases |pids|
  {
    if pids != [] {
      var p := pids[0];
      var inner := acc.vals[p];
      ProductRowsMeaning(acc, pids[1..], products, locations);
      LocationRowsMeaning(p, inner, inner.keys, products, locations);
      assert pids == [p] + pids[1..];
      var block := LocationRows(p, inner, inner.keys, products, locations);
      var rest := ProductRows(acc, pids[1..], products, locations);
      if Distinct(pids) {
        assert Distinct(pids[1..]);
        assert Distinct(inner.keys);
        forall i, j | 0 <= i < |block| && 0 <= j < |rest|
          ensures block[i].productId != rest[j].productId || block[i].locationId != rest[j].locationId
        {
          assert block[i] in block;
          assert rest[j] in rest;
        }
        ConcatPairsDistinct(block, rest);
      }
    }
  }

  /** What the balance page lists: exactly the pairs with a non-zero net
      quantity, each once, with the registered names (or the raw ids when
      unregistered) and the reference balance. */
  lemma BalanceReportMeaning(ms: Ledger, products: Registry, locations: Registry)
    ensures forall r :: r in BalanceReport(ms, products, locations) <==>
      r.qty != 0 && r == RowOf(ms, products, locations, r.productId, r.locationId)
    ensures forall p, l :: Net(ms, p, l) != 0 ==> RowOf(ms, products, locations, p, l) in BalanceReport(ms, products, locations)
    ensures forall r :: r in BalanceReport(ms, products, locations) ==> r.qty != 0
    ensures PairsDistinct(BalanceReport(ms, products, locations))
  {
    var acc := Accumulate(ms);
    var report := BalanceReport(ms, products, locations);
    ProductRowsMeaning(acc, acc.keys, products, locations);
    forall r
      ensures r in report <==> r.qty != 0 && r == RowOf(ms, products, locations, r.productId, r.locationId)
    {
      AccumulateMeaning(ms, r.productId, r.locationId);
    }
    forall p, l | Net(ms, p, l) != 0
      ensures RowOf(ms, products, locations, p, l) in report
    {
      AccumulateMeaning(ms, p, l);
    }
  }
}
