/** Laws of the balance computation: it does not depend on the order of the
    ledger, transfers conserve stock, self-transfers do nothing, and each
    ledger update changes balances by exactly the movement it adds or
    replaces. */
module BalanceLaws {
  import opened Base
  import opened Models
  import opened MovementLedger
  import opened Balance
  import opened Dicts

  /** Replaying the same movements in any order gives the same balances. */
  lemma NetOrderIndependent(ms: Ledger, ms': Ledger, p: string, l: string)
    requires multiset(ms) == multiset(ms')
    ensures Net(ms, p, l) == Net(ms', p, l)
  {
    SumByPermutation(ms, ms', EffectAt(p, l));
  }

  /** ... and therefore the same report lines (possibly in another order). */
  lemma ReportOrderIndependent(ms: Ledger, ms': Ledger, products: Registry, locations: Registry)
    requires multiset(ms) == multiset(ms')
    ensures forall r :: r in BalanceReport(ms, products, locations) <==> r in BalanceReport(ms', products, locations)
  {
    BalanceReportMeaning(ms, products, locations);
    BalanceReportMeaning(ms', products, locations);
    forall r
      ensures r in BalanceReport(ms, products, locations) <==> r in BalanceReport(ms', products, locations)
    {
      NetOrderIndependent(ms, ms', r.productId, r.locationId);
    }
  }

  /** A movement whose source is its destination leaves every balance as it
      was, wherever it stands in the ledger. */
  lemma SelfTransferNoEffect(before: Ledger, m: Movement, after: Ledger, p: string, l: string)
    requires m.fromLocation == m.toLocation
    ensures Net(before + [m] + after, p, l) == Net(before + after, p, l)
  {
    SumByIgnores(before, m, after, EffectAt(p, l));
  }

  /** Recording a movement changes each balance by that movement's effect;
      a refused insert changes nothing. */
  lemma AddMovementRebalances(ms: Ledger, id: string, now: int, fromField: string, toField: string,
                              productId: string, qty: int, p: string, l: string)
    ensures
      var r := AddMovement(ms, id, now, fromField, toField, productId, qty);
      Net(r.0, p, l) == Net(ms, p, l)
        + (if r.1.Ok? then Effect(Movement(id, now, productId, FormEndpoint(fromField), FormEndpoint(toField), qty), p, l) else 0)
  {
    var r := AddMovement(ms, id, now, fromField, toField, productId, qty);
    if r.1.Ok? {
      assert r.0[..|r.0| - 1] == ms;
    }
  }

  /** A committed edit is whole-record replacement for the balances: the old
      row's effect is withdrawn and the new row's effect applied. A refused
      edit (unknown key or out-of-range quantity) changes no balance. */
  lemma EditMovementRebalances(ms: Ledger, id: string, fromField: string, toField: string,
                               productId: string, qty: int, p: string, l: string)
    ensures
      var r := EditMovement(ms, id, fromField, toField, productId, qty);
      match IndexOf(ms, id)
      case None => Net(r.0, p, l) == Net(ms, p, l)
      case Some(k) =>
        Net(r.0, p, l) == Net(ms, p, l) + (if r.1.Ok? then Effect(r.0[k], p, l) - Effect(ms[k], p, l) else 0)
  {
    var r := EditMovement(ms, id, fromField, toField, productId, qty);
    if r.1.Ok? {
      var k := IndexOf(ms, id).value;
      assert r.0 == ms[k := r.0[k]];
      SumByUpdate(ms, k, r.0[k], EffectAt(p, l));
    }
  }

  // ---------------------------------------------------------------------
  // Conservation

  /** What a movement does to the total stock of `p` inside the tracked
      locations: an inflow (destination only) adds its quantity, an outflow
      (source only) removes it, a transfer and an endpoint-less row add
      nothing. */
  function ExternalNet(m: Movement, p: string): int
  {
    if m.productId != p then 0
    else if Present(m.toLocation) && !Present(m.fromLocation) then m.qty
    else if !Present(m.toLocation) && Present(m.fromLocation) then -m.qty
    else 0
  }

  function ExternalAt(p: string): Movement -> int
  {
    m => ExternalNet(m, p)
  }

  /** Sum of the balances of `p` over the listed locations. */
  function StockTotal(ms: Ledger, p: string, locs: seq<string>): int
    decreases |locs|
  {
    if locs == [] then 0 else Net(ms, p, locs[0]) + StockTotal(ms, p, locs[1..])
  }

  /** Sum of one movement's effects on `p` over the listed locations. */
  function EffectTotal(m: Movement, p: string, locs: seq<string>): int
    decreases |locs|
  {
    if locs == [] then 0 else Effect(m, p, locs[0]) + EffectTotal(m, p, locs[1..])
  }

  /** Every present endpoint of every movement of `p` is among `locs`. */
  predicate Covers(ms: Ledger, p: string, locs: seq<string>)
  {
    forall i :: 0 <= i < |ms| && ms[i].productId == p ==>
      && (Present(ms[i].toLocation) ==> ms[i].toLocation.value in locs)
      && (Present(ms[i].fromLocation) ==> ms[i].fromLocation.value in locs)
  }

  lemma {:induction false} StockTotalSnoc(ms: Ledger, m: Movement, p: string, locs: seq<string>)
    ensures StockTotal(ms + [m], p, locs) == StockTotal(ms, p, locs) + EffectTotal(m, p, locs)
    decreases |locs|
  {
    if locs != [] {
      StockTotalSnoc(ms, m, p, locs[1..]);
      assert (ms + [m])[..|ms + [m]| - 1] == ms;
    }
  }

  /** Over distinct locations, a movement's effects add up to its quantity in
      at a listed destination minus its quantity out at a listed source. */
  lemma {:induction false} EffectTotalExact(m: Movement, p: string, locs: seq<string>)
    requires Distinct(locs)
    ensures EffectTotal(m, p, locs) ==
      (if m.productId == p && Present(m.toLocation) && m.toLocation.value in locs then m.qty else 0)
      - (if m.productId == p && Present(m.fromLocation) && m.fromLocation.value in locs then m.qty else 0)
    decreases |locs|
  {
    if locs != [] {
      assert Distinct(locs[1..]);
      assert locs == [locs[0]] + locs[1..];
      EffectTotalExact(m, p, locs[1..]);
    }
  }

  /** Conservation: summed over every location it has touched, the stock of a
      product equals what entered from outside minus what left to outside;
      transfers between tracked locations neither create nor destroy it. */
  lemma {:induction false} Conservation(ms: Ledger, p: string, locs: seq<string>)
    requires Distinct(locs)
    requires Covers(ms, p, locs)
    ensures StockTotal(ms, p, locs) == SumBy(ms, ExternalAt(p))
    decreases |ms|
  {
    if ms == [] {
      assert StockTotal(ms, p, locs) == 0 by {
        StockTotalEmpty(p, locs);
      }
    } else {
      var prefix, m := ms[..|ms| - 1], ms[|ms| - 1];
      assert ms == prefix + [m];
      assert Covers(prefix, p, locs) by {
        forall i | 0 <= i < |prefix| ensures prefix[i] == ms[i] { }
      }
      Conservation(prefix, p, locs);
      StockTotalSnoc(prefix, m, p, locs);
      EffectTotalExact(m, p, locs);
    }
  }

  lemma {:induction false} StockTotalEmpty(p: string, locs: seq<string>)
    ensures StockTotal([], p, locs) == 0
    decreases |locs|
  {
    if locs != [] {
      StockTotalEmpty(p, locs[1..]);
    }
  }

  /** A transfer (both endpoints present) leaves the total stock of every
      product over any set of locations that includes both endpoints as it
      was. */
  lemma TransferConserves(ms: Ledger, m: Movement, p: string, locs: seq<string>)
    requires Present(m.fromLocation) && Present(m.toLocation)
    requires Distinct(locs)
    requires m.fromLocation.value in locs && m.toLocation.value in locs
    ensures StockTotal(ms + [m], p, locs) == StockTotal(ms, p, locs)
  {
    StockTotalSnoc(ms, m, p, locs);
    EffectTotalExact(m, p, locs);
  }

  // ---------------------------------------------------------------------
  // Worked example: 50 units arrive at WH001, 10 move on to STORE1, 3 leave
  // STORE1.

  predicate IsScenario(ms: Ledger)
  {
    && |ms| == 3
    && ms[0] == Movement("M1", 0, "P1", None, Some("WH001"), 50)
    && ms[1] == Movement("M2", 1, "P1", Some("WH001"), Some("STORE1"), 10)
    && ms[2] == Movement("M3", 2, "P1", Some("STORE1"), None, 3)
  }

  lemma CreditFresh(inner: Dict<string, int>, l: string, delta: int)
    requires Valid(inner) && l !in inner.vals
    ensures Credit(inner, l, delta) == Dict(inner.keys + [l], inner.vals[l := delta])
  {
  }

  lemma CreditExisting(inner: Dict<string, int>, l: string, delta: int)
    requires Valid(inner) && l in inner.vals
    ensures Credit(inner, l, delta) == Dict(inner.keys, inner.vals[l := inner.vals[l] + delta])
  {
  }

  /** A transfer of `q` of an already-recorded product from `src` to `dst`. */
  lemma TransferStep(acc: Accumulator, m: Movement, src: string, dst: string, q: int)
    requires WellFormed(acc) && m.productId in acc.vals
    requires m.fromLocation == Some(src) && m.toLocation == Some(dst) && m.qty == q && src != "" && dst != ""
    ensures Step(acc, m) == Put(acc, m.productId, Credit(Credit(acc.vals[m.productId], dst, q), src, -q))
  {
  }

  /** An outflow of `q` of an already-recorded product from `src`. */
  lemma OutflowStep(acc: Accumulator, m: Movement, src: string, q: int)
    requires WellFormed(acc) && m.productId in acc.vals
    requires m.fromLocation == Some(src) && m.toLocation.None? && m.qty == q && src != ""
    ensures Step(acc, m) == Put(acc, m.productId, Credit(acc.vals[m.productId], src, -q))
  {
  }

  lemma ScenarioFirstStep(ms: Ledger)
    requires IsScenario(ms)
    ensures Accumulate(ms[..1]) == Dict(["P1"], map["P1" := Dict(["WH001"], map["WH001" := 50])])
  {
    assert ms[..1][..0] == [];
    var i1 := Credit(Empty(), "WH001", 50);
    CreditFresh(Empty(), "WH001", 50);
    assert i1 == Dict(["WH001"], map["WH001" := 50]);
    assert Shift(Empty(), ms[0]) == i1;
    assert Accumulate(ms[..1]) == Put(Empty(), "P1", i1);
    assert Put(Empty(), "P1", i1) == Dict(["P1"], map["P1" := i1]);
  }

  lemma ScenarioTransfer(a1: Accumulator, m: Movement)
    requires a1 == Dict(["P1"], map["P1" := Dict(["WH001"], map["WH001" := 50])])
    requires m == Movement("M2", 1, "P1", Some("WH001"), Some("STORE1"), 10)
    ensures Step(a1, m) ==
      Dict(["P1"], map["P1" := Dict(["WH001", "STORE1"], map["WH001" := 40, "STORE1" := 10])])
  {
    var i1 := a1.vals["P1"];
    CreditFresh(i1, "STORE1", 10);
    var i2 := Credit(i1, "STORE1", 10);
    assert i2 == Dict(["WH001", "STORE1"], map["WH001" := 50, "STORE1" := 10]);
    CreditExisting(i2, "WH001", -10);
    var i3 := Credit(i2, "WH001", -10);
    assert i3 == Dict(["WH001", "STORE1"], map["WH001" := 40, "STORE1" := 10]);
    TransferStep(a1, m, "WH001", "STORE1", 10);
    assert a1.vals["P1" := i3] == map["P1" := i3];
  }

  lemma ScenarioSecondStep(ms: Ledger)
    requires IsScenario(ms)
    ensures Accumulate(ms[..2]) ==
      Dict(["P1"], map["P1" := Dict(["WH001", "STORE1"], map["WH001" := 40, "STORE1" := 10])])
  {
    ScenarioFirstStep(ms);
    assert ms[..2][..1] == ms[..1];
    ScenarioTransfer(Accumulate(ms[..1]), ms[1]);
  }

  lemma ScenarioThirdStep(a2: Accumulator, m: Movement)
    requires a2 == Dict(["P1"], map["P1" := Dict(["WH001", "STORE1"], map["WH001" := 40, "STORE1" := 10])])
    requires m == Movement("M3", 2, "P1", Some("STORE1"), None, 3)
    ensures Step(a2, m) ==
      Dict(["P1"], map["P1" := Dict(["WH001", "STORE1"], map["WH001" := 40, "STORE1" := 7])])
  {
    var i3 := a2.vals["P1"];
    CreditExisting(i3, "STORE1", -3);
    var i4 := Credit(i3, "STORE1", -3);
    assert i4 == Dict(["WH001", "STORE1"], map["WH001" := 40, "STORE1" := 7]);
    OutflowStep(a2, m, "STORE1", 3);
    assert a2.vals["P1" := i4] == map["P1" := i4];
  }

  lemma ScenarioAccumulates(ms: Ledger)
    requires IsScenario(ms)
    ensures Accumulate(ms) ==
      Dict(["P1"], map["P1" := Dict(["WH001", "STORE1"], map["WH001" := 40, "STORE1" := 7])])
  {
    ScenarioSecondStep(ms);
    assert ms[..2] == ms[..|ms| - 1];
    ScenarioThirdStep(Accumulate(ms[..2]), ms[2]);
  }

  /** The inner loop over the example's final locations. */
  lemma ScenarioRows(inner: Dict<string, int>)
    requires inner == Dict(["WH001", "STORE1"], map["WH001" := 40, "STORE1" := 7])
    ensures LocationRows("P1", inner, inner.keys, map[], map[]) == [
      BalanceRow("P1", "P1", "WH001", "WH001", 40),
      BalanceRow("P1", "P1", "STORE1", "STORE1", 7)]
  {
    assert inner.keys[1..] == ["STORE1"];
    assert LocationRows("P1", inner, ["STORE1"], map[], map[]) == [BalanceRow("P1", "P1", "STORE1", "STORE1", 7)];
  }

  /** The report for the example lists 40 at WH001 and 7 at STORE1, in that
      order, with the raw identifiers as names because nothing is registered. */
  lemma ThreeMovementScenario(ms: Ledger)
    requires IsScenario(ms)
    ensures BalanceReport(ms, map[], map[]) == [
      BalanceRow("P1", "P1", "WH001", "WH001", 40),
      BalanceRow("P1", "P1", "STORE1", "STORE1", 7)]
  {
    ScenarioAccumulates(ms);
    var acc := Accumulate(ms);
    var inner := acc.vals["P1"];
    ScenarioRows(inner);
    assert acc.keys == ["P1"] && acc.keys[1..] == [];
    assert ProductRows(acc, ["P1"], map[], map[]) == LocationRows("P1", inner, inner.keys, map[], map[]) + ProductRows(acc, [], map[], map[]);
  }
}
