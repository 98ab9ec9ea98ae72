/** The movement ledger: recording a movement, editing one in place, and the
    timestamp-descending listing the movement pages show. */
module MovementLedger {
  import opened Base
  import opened Models
  import opened Sorting

  /** `movement_id` is the primary key: no two rows share it. */
  predicate UniqueIds(ms: Ledger)
  {
    forall i, j :: 0 <= i < j < |ms| ==> ms[i].movementId != ms[j].movementId
  }

  /** Some movement of the ledger is about product `p`. */
  predicate Mentions(ms: Ledger, p: string)
  {
    exists i :: 0 <= i < |ms| && ms[i].productId == p
  }

  lemma {:induction false} MentionsSnoc(ms: Ledger, p: string)
    requires ms != []
    ensures Mentions(ms, p) <==> Mentions(ms[..|ms| - 1], p) || ms[|ms| - 1].productId == p
  {
    var prefix := ms[..|ms| - 1];
    if Mentions(ms, p) {
      var i :| 0 <= i < |ms| && ms[i].productId == p;
      if i < |ms| - 1 {
        assert prefix[i] == ms[i];
      }
    }
    if Mentions(prefix, p) {
      var i :| 0 <= i < |prefix| && prefix[i].productId == p;
      assert ms[i] == prefix[i];
    }
  }

  /** Every stored endpoint came through the form conversion. */
  predicate AllNormal(ms: Ledger)
  {
    forall i :: 0 <= i < |ms| ==> NormalEndpoints(ms[i])
  }

  /** Position of the row whose key is `id` (`query.get(id)`); the first one
      if the ledger were ever to hold two. */
  function IndexOf(ms: Ledger, id: string): (r: Option<nat>)
    ensures r.None? <==> forall i :: 0 <= i < |ms| ==> ms[i].movementId != id
    ensures r.Some? ==> r.value < |ms| && ms[r.value].movementId == id
    ensures r.Some? ==> forall j :: 0 <= j < r.value ==> ms[j].movementId != id
    decreases |ms|
  {
    if ms == [] then None
    else if ms[0].movementId == id then Some(0)
    else
      match IndexOf(ms[1..], id)
      case None => None
      case Some(k) => Some(k + 1)
  }

  /** Every stored quantity fits the 64-bit INTEGER column. */
  predicate QtysInRange(ms: Ledger)
  {
    forall i :: 0 <= i < |ms| ==> InInt64(ms[i].qty)
  }

  /** `add_movement`: build the row from the form (empty endpoint fields become
      NULL, the timestamp defaults to the current time `now`) and insert it.
      The commit fails and nothing is stored when the quantity does not fit
      the 64-bit column (the driver refuses to bind it, before the insert
      reaches the key constraint) or when the `movement_id` is taken.
      Neither the sign of the quantity nor the endpoints are validated. */
  function AddMovement(ms: Ledger, id: string, now: int, fromField: string, toField: string,
                       productId: string, qty: int): (r: (Ledger, Outcome))
    ensures r.1 == Failed(Overflow) <==> !InInt64(qty)
    ensures r.1 == Failed(DuplicateKey) <==> InInt64(qty) && exists i :: 0 <= i < |ms| && ms[i].movementId == id
    ensures r.1.Ok? <==> InInt64(qty) && forall i :: 0 <= i < |ms| ==> ms[i].movementId != id
    ensures r.1.Failed? ==> r.0 == ms
    ensures r.1.Ok? ==> r.0 == ms + [Movement(id, now, productId, FormEndpoint(fromField), FormEndpoint(toField), qty)]
    ensures UniqueIds(ms) ==> UniqueIds(r.0)
    ensures AllNormal(ms) ==> AllNormal(r.0)
    ensures QtysInRange(ms) ==> QtysInRange(r.0)
  {
    if !InInt64(qty) then (ms, Failed(Overflow))
    else if IndexOf(ms, id).Some? then (ms, Failed(DuplicateKey))
    else (ms + [Movement(id, now, productId, FormEndpoint(fromField), FormEndpoint(toField), qty)], Ok)
  }

  /** The handler checks neither the sign of the quantity nor the endpoints:
      a zero or negative quantity that fits the column, with both endpoint
      fields empty, is stored like any other row under a fresh key. */
  lemma AddAcceptsUnvalidated(ms: Ledger, id: string, now: int, productId: string, qty: int)
    requires forall i :: 0 <= i < |ms| ==> ms[i].movementId != id
    requires MinInt64 <= qty <= 0
    ensures AddMovement(ms, id, now, "", "", productId, qty).1 == Ok
    ensures AddMovement(ms, id, now, "", "", productId, qty).0 == ms + [Movement(id, now, productId, None, None, qty)]
  {
  }

  /** `edit_movement`: overwrite the endpoints, product and quantity of the row
      keyed `id`. Its key and timestamp stay, every other row stays. An
      unknown key is not found; a quantity the 64-bit column cannot hold
      makes the commit fail and nothing changes. */
  function EditMovement(ms: Ledger, id: string, fromField: string, toField: string,
                        productId: string, qty: int): (r: (Ledger, Outcome))
    ensures (forall i :: 0 <= i < |ms| ==> ms[i].movementId != id) <==> r.1 == Failed(NotFound)
    ensures r.1 == Failed(Overflow) <==> !InInt64(qty) && exists i :: 0 <= i < |ms| && ms[i].movementId == id
    ensures r.1.Ok? <==> InInt64(qty) && exists i :: 0 <= i < |ms| && ms[i].movementId == id
    ensures r.1.Failed? ==> r.0 == ms
    ensures |r.0| == |ms|
    ensures r.1.Ok? ==> exists k :: (
      && 0 <= k < |ms| && ms[k].movementId == id
      && r.0[k] == Movement(id, ms[k].timestamp, productId, FormEndpoint(fromField), FormEndpoint(toField), qty)
      && (forall i :: 0 <= i < |ms| && i != k ==> r.0[i] == ms[i]))
    ensures forall i :: 0 <= i < |ms| ==> r.0[i].movementId == ms[i].movementId && r.0[i].timestamp == ms[i].timestamp
    ensures UniqueIds(ms) ==> UniqueIds(r.0)
    ensures AllNormal(ms) ==> AllNormal(r.0)
    ensures QtysInRange(ms) ==> QtysInRange(r.0)
  {
    match IndexOf(ms, id)
    case None => (ms, Failed(NotFound))
    case Some(k) =>
      if !InInt64(qty) then (ms, Failed(Overflow))
      else
        var prior := ms[k];
        (ms[k := Movement(prior.movementId, prior.timestamp, productId, FormEndpoint(fromField), FormEndpoint(toField), qty)], Ok)
  }

  function TimestampOf(m: Movement): int
  {
    m.timestamp
  }

  /** `ORDER BY timestamp DESC`: every row once, newest first. */
  function ListMovements(ms: Ledger): (r: Ledger)
    ensures SortedDesc(r, TimestampOf)
    ensures multiset(r) == multiset(ms)
    ensures |r| == |ms|
  {
    SortDesc(ms, TimestampOf)
  }

  /** `ORDER BY timestamp DESC LIMIT n`: the `n` newest rows, newest first.
      Nothing left out is newer than the last row shown. */
  function Latest(ms: Ledger, n: nat): (r: Ledger)
    ensures |r| == Min(n, |ms|)
    ensures SortedDesc(r, TimestampOf)
    ensures multiset(r) <= multiset(ms)
    ensures r == ListMovements(ms)[..|r|]
    ensures forall m :: m in ms && m !in r && 0 < |r| ==> m.timestamp <= r[|r| - 1].timestamp
  {
    LatestFacts(ms, ListMovements(ms), Min(n, |ms|));
    ListMovements(ms)[..Min(n, |ms|)]
  }

  lemma LatestFacts(ms: Ledger, all: Ledger, n: nat)
    requires all == ListMovements(ms) && n <= |ms|
    ensures SortedDesc(all[..n], TimestampOf)
    ensures multiset(all[..n]) <= multiset(ms)
    ensures forall m :: m in ms && m !in all[..n] && 0 < n ==> m.timestamp <= all[..n][n - 1].timestamp
  {
    TakeSorted(all, n, TimestampOf);
    LatestOmitted(ms, all, all[..n]);
  }

  lemma LatestOmitted(ms: Ledger, all: Ledger, r: Ledger)
    requires multiset(all) == multiset(ms)
    requires |r| <= |all| && r == all[..|r|]
    requires forall k :: |r| <= k < |all| && 0 < |r| ==> all[k].timestamp <= all[|r| - 1].timestamp
    ensures forall m :: m in ms && m !in r && 0 < |r| ==> m.timestamp <= r[|r| - 1].timestamp
  {
    forall m | m in ms && m !in r && 0 < |r|
      ensures m.timestamp <= r[|r| - 1].timestamp
    {
      assert m in multiset(all);
      var k :| 0 <= k < |all| && all[k] == m;
      assert k >= |r|;
    }
  }
}
