/** The console dump's balance summary. It repeats the balance page's loop
    over the ledger statement for statement, then prints every product the
    ledger mentions, each followed by its non-zero locations. */
module ViewDatabase {
  import opened Base
  import opened Models
  import opened Dicts
  import opened MovementLedger
  import opened Balance
  import opened Sorting
  import opened Analytics

  /** `if l not in d: d[l] = 0` then `d[l] += delta`, as two stores. */
  method AddAt(inner: Dict<string, int>, l: string, delta: int) returns (r: Dict<string, int>)
    requires Valid(inner)
    ensures r == Credit(inner, l, delta)
  {
    r := inner;
    if l !in r.vals {
      r := Put(r, l, 0);
      PutPut(inner, l, 0, delta);
    }
    r := Put(r, l, r.vals[l] + delta);
  }

  /** The two endpoint blocks of the dump's loop body for movement `m`,
      applied to the product's location dict. */
  method ShiftQty(inner: Dict<string, int>, m: Movement) returns (r: Dict<string, int>)
    requires Valid(inner)
    ensures r == Shift(inner, m)
  {
    r := inner;
    if Present(m.toLocation) {
      r := AddAt(r, m.toLocation.value, m.qty);
    }
    if Present(m.fromLocation) {
      r := AddAt(r, m.fromLocation.value, -m.qty);
    }
  }

  /** One pass of the dump's loop body for movement `m`. */
  method CollectOne(acc: Accumulator, m: Movement) returns (r: Accumulator)
    requires WellFormed(acc)
    ensures r == Step(acc, m)
  {
    r := acc;
    if m.productId !in r.vals {
      r := Put(r, m.productId, Empty());
    }
    var inner := ShiftQty(r.vals[m.productId], m);
    if m.productId !in acc.vals {
      PutPut(acc, m.productId, Empty(), inner);
    }
    r := Put(r, m.productId, inner);
  }

  /** The dump's own copy of the accumulation loop, written as the source
      writes it: create the product's entry if missing, then for each present
      endpoint create the location's entry at zero if missing and add or
      subtract the quantity. It builds exactly the balance page's
      accumulator. */
  method CollectBalances(ms: Ledger) returns (acc: Accumulator)
    ensures acc == Accumulate(ms)
  {
    acc := Empty();
    var i := 0;
    while i < |ms|
      invariant 0 <= i <= |ms|
      invariant acc == Accumulate(ms[..i])
    {
      assert ms[..i + 1][..i] == ms[..i];
      acc := CollectOne(acc, ms[i]);
      i := i + 1;
    }
    assert ms[..|ms|] == ms;
  }

  /** One printed `location: qty` line. */
  datatype SummaryLine = SummaryLine(locationId: string, qty: int)

  /** One printed product block. */
  datatype SummaryEntry = SummaryEntry(productId: string, lines: seq<SummaryLine>)

  /** The non-zero locations of one product, in insertion order. */
  function NonZeroLines(inner: Dict<string, int>, locs: seq<string>): seq<SummaryLine>
    requires forall i :: 0 <= i < |locs| ==> locs[i] in inner.vals
    decreases |locs|
  {
    if locs == [] then []
    else
      (if inner.vals[locs[0]] != 0 then [SummaryLine(locs[0], inner.vals[locs[0]])] else [])
      + NonZeroLines(inner, locs[1..])
  }

  /** One block per product key, including products none of whose
      locations is non-zero. */
  function Entries(acc: Accumulator, pids: seq<string>): seq<SummaryEntry>
    requires WellFormed(acc)
    requires forall i :: 0 <= i < |pids| ==> pids[i] in acc.vals
    decreases |pids|
  {
    if pids == [] then []
    else
      var inner := acc.vals[pids[0]];
      [SummaryEntry(pids[0], NonZeroLines(inner, inner.keys))] + Entries(acc, pids[1..])
  }

  /** `(product, location, qty)` of a printed line or of a report line. */
  datatype Triple = Triple(productId: string, locationId: string, qty: int)

  function LineTriples(p: string, lines: seq<SummaryLine>): seq<Triple>
    decreases |lines|
  {
    if lines == [] then [] else [Triple(p, lines[0].locationId, lines[0].qty)] + LineTriples(p, lines[1..])
  }

  function EntryTriples(entries: seq<SummaryEntry>): seq<Triple>
    decreases |entries|
  {
    if entries == [] then [] else LineTriples(entries[0].productId, entries[0].lines) + EntryTriples(entries[1..])
  }

  function RowTriples(rows: seq<BalanceRow>): seq<Triple>
    decreases |rows|
  {
    if rows == [] then [] else [Triple(rows[0].productId, rows[0].locationId, rows[0].qty)] + RowTriples(rows[1..])
  }

  lemma {:induction false} RowTriplesAppend(a: seq<BalanceRow>, b: seq<BalanceRow>)
    ensures RowTriples(a + b) == RowTriples(a) + RowTriples(b)
    decreases |a|
  {
    if a == [] {
      assert a + b == b;
    } else {
      assert (a + b)[1..] == a[1..] + b;
      RowTriplesAppend(a[1..], b);
    }
  }

  lemma {:induction false} LineTriplesAppend(p: string, a: seq<SummaryLine>, b: seq<SummaryLine>)
    ensures LineTriples(p, a + b) == LineTriples(p, a) + LineTriples(p, b)
    decreases |a|
  {
    if a == [] {
      assert a + b == b;
    } else {
      assert (a + b)[1..] == a[1..] + b;
      LineTriplesAppend(p, a[1..], b);
    }
  }

  lemma {:induction false} LinesMatchRows(p: string, inner: Dict<string, int>, locs: seq<string>,
                                          products: Registry, locations: Registry)
    requires forall i :: 0 <= i < |locs| ==> locs[i] in inner.vals
    ensures LineTriples(p, NonZeroLines(inner, locs)) == RowTriples(LocationRows(p, inner, locs, products, locations))
    decreases |locs|
  {
    if locs != [] {
      LinesMatchRows(p, inner, locs[1..], products, locations);
      var l := locs[0];
      var line := if inner.vals[l] != 0 then [SummaryLine(l, inner.vals[l])] else [];
      var row := if inner.vals[l] != 0 then [BalanceRow(p, NameOf(products, p), l, NameOf(locations, l), inner.vals[l])] else [];
      LineTriplesAppend(p, line, NonZeroLines(inner, locs[1..]));
      RowTriplesAppend(row, LocationRows(p, inner, locs[1..], products, locations));
    }
  }

  lemma {:induction false} EntriesMatchRows(acc: Accumulator, pids: seq<string>, products: Registry, locations: Registry)
    requires WellFormed(acc)
    requires forall i :: 0 <= i < |pids| ==> pids[i] in acc.vals
    ensures EntryTriples(Entries(acc, pids)) == RowTriples(ProductRows(acc, pids, products, locations))
    decreases |pids|
  {
    if pids != [] {
      var inner := acc.vals[pids[0]];
      EntriesMatchRows(acc, pids[1..], products, locations);
      LinesMatchRows(pids[0], inner, inner.keys, products, locations);
      RowTriplesAppend(LocationRows(pids[0], inner, inner.keys, products, locations), ProductRows(acc, pids[1..], products, locations));
    }
  }

  /** `view_database`'s balance summary: the fold, then one block per product
      in first-appearance order. Read line by line it is the balance page's
      report, with the same values in the same order, whatever the
      registries hold; its blocks are the accumulator's products, in order. */
  method BalanceSummary(ms: Ledger, products: Registry, locations: Registry) returns (entries: seq<SummaryEntry>)
    ensures EntryTriples(entries) == RowTriples(BalanceReport(ms, products, locations))
    ensures |entries| == |ProductIdsOf(ms)|
    ensures forall i :: 0 <= i < |entries| ==> entries[i].productId == ProductIdsOf(ms)[i]
  {
    var acc := CollectBalances(ms);
    entries := Entries(acc, acc.keys);
    EntriesMatchRows(acc, acc.keys, products, locations);
    EntriesKeys(acc, acc.keys);
  }

  /** The product keys of the accumulator, in order. */
  function ProductIdsOf(ms: Ledger): seq<string>
  {
    Accumulate(ms).keys
  }

  lemma {:induction false} EntriesKeys(acc: Accumulator, pids: seq<string>)
    requires WellFormed(acc)
    requires forall i :: 0 <= i < |pids| ==> pids[i] in acc.vals
    ensures |Entries(acc, pids)| == |pids|
    ensures forall i :: 0 <= i < |pids| ==> Entries(acc, pids)[i].productId == pids[i]
    ensures forall i :: 0 <= i < |pids| ==>
      Entries(acc, pids)[i].lines == NonZeroLines(acc.vals[pids[i]], acc.vals[pids[i]].keys)
    decreases |pids|
  {
    if pids != [] {
      EntriesKeys(acc, pids[1..]);
    }
  }

  /** The summary has a block for every product some movement mentions, and
      for no other, each once: also for a product whose balances are all zero
      or whose movements name no location. */
  lemma ProductIdsOfMeaning(ms: Ledger)
    ensures Distinct(ProductIdsOf(ms))
    ensures forall p :: p in ProductIdsOf(ms) <==> Mentions(ms, p)
  {
    forall p ensures p in ProductIdsOf(ms) <==> Mentions(ms, p) {
      AccumulateMeaning(ms, p, "");
    }
  }

  /** The dump and the page differ for a product whose movements name no
      location: the dump still prints the product, as a block with no lines,
      while the page shows no row for it. */
  lemma {:induction false} SilentProductDiffers(ms: Ledger, products: Registry, locations: Registry, p: string)
    requires Mentions(ms, p)
    requires forall i :: 0 <= i < |ms| && ms[i].productId == p ==> !Present(ms[i].fromLocation) && !Present(ms[i].toLocation)
    ensures p in ProductIdsOf(ms)
    ensures SummaryEntry(p, []) in Entries(Accumulate(ms), Accumulate(ms).keys)
    ensures forall r :: r in BalanceReport(ms, products, locations) ==> r.productId != p
  {
    UnplacedProduct(ms, p);
    var acc := Accumulate(ms);
    var k :| 0 <= k < |acc.keys| && acc.keys[k] == p;
    EntriesKeys(acc, acc.keys);
    assert Entries(acc, acc.keys)[k] == SummaryEntry(p, []);
    BalanceReportMeaning(ms, products, locations);
    forall l ensures Net(ms, p, l) == 0 {
      SumByZero(ms, EffectAt(p, l));
    }
  }

  /** A product whose movements name no location has an accumulator entry
      with no location in it. */
  lemma {:induction false} UnplacedProduct(ms: Ledger, p: string)
    requires Mentions(ms, p)
    requires forall i :: 0 <= i < |ms| && ms[i].productId == p ==> !Present(ms[i].fromLocation) && !Present(ms[i].toLocation)
    ensures p in Accumulate(ms).vals
    ensures Accumulate(ms).vals[p].keys == []
  {
    AccumulateMeaning(ms, p, "");
    var inner := Accumulate(ms).vals[p];
    assert Valid(inner);
    forall l ensures l !in inner.keys {
      AccumulateMeaning(ms, p, l);
      assert l !in inner.vals;
    }
    EmptyWithoutMembers(inner.keys);
  }

  /** The dump's product blocks come in the same order as the dashboard's
      `GROUP BY product_id` groups: first appearance in the ledger. */
  lemma {:induction false} SameProductOrder(ms: Ledger)
    ensures ProductIdsOf(ms) == ProductIds(ms)
    decreases |ms|
  {
    if ms != [] {
      var prefix := ms[..|ms| - 1];
      SameProductOrder(prefix);
      var p := ms[|ms| - 1].productId;
      AccumulateMeaning(prefix, p, "");
      assert p in Accumulate(prefix).vals <==> p in ProductIds(prefix);
    }
  }

  /** The dump's movement listing: the ten newest rows, newest first. It is
      the dashboard's recent-movements selection, row for row. */
  function LastMovements(ms: Ledger): (r: Ledger)
    ensures |r| == Min(RecentLimit, |ms|)
    ensures SortedDesc(r, TimestampOf)
    ensures multiset(r) <= multiset(ms)
    ensures |r| == |RecentMovements(ms)| && forall i :: 0 <= i < |r| ==> RecentMovements(ms)[i] == ItemOf(r[i])
  {
    Latest(ms, RecentLimit)
  }
}
