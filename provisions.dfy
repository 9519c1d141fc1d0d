/** The service provision table and its create-or-merge write. A provision is
    identified by its booking, its service and its day; assigning a service that
    already has a row for that key adds to the row's quantity instead of adding a row. */
module Provisions {
  import opened Common
  import opened Models

  datatype Key = Key(bookingId: int, serviceId: int, serviceDate: Date)

  function KeyOf(p: ServiceProvision): Key
  {
    Key(p.bookingId, p.serviceId, p.serviceDate)
  }

  /** The table invariant: at most one row per key. */
  predicate KeysUnique(rows: seq<ServiceProvision>)
  {
    forall i, j :: 0 <= i < |rows| && 0 <= j < |rows| && i != j ==> KeyOf(rows[i]) != KeyOf(rows[j])
  }

  predicate HasKey(rows: seq<ServiceProvision>, k: Key)
  {
    exists i :: 0 <= i < |rows| && KeyOf(rows[i]) == k
  }

  /** The position of the first row with key `k`. */
  function FindProvision(rows: seq<ServiceProvision>, k: Key): (r: Option<nat>)
    ensures r.Some? ==> r.value < |rows| && KeyOf(rows[r.value]) == k
    ensures r.None? <==> !HasKey(rows, k)
  {
    FirstIndex(rows, (p: ServiceProvision) => KeyOf(p) == k)
  }

  /** The table after assigning `quantity` units of the service in `k`: the existing
      row for the key grows by `quantity`, or a row with that quantity is appended. */
  function Upsert(rows: seq<ServiceProvision>, k: Key, quantity: int): (r: seq<ServiceProvision>)
    ensures HasKey(r, k)
  {
    match FindProvision(rows, k)
    case Some(i) =>
      var row := rows[i];
      var updated := rows[i := row.(quantity := row.quantity + quantity)];
      assert KeyOf(updated[i]) == k;
      updated
    case None =>
      var added := rows + [NewProvision(k.bookingId, k.serviceId, k.serviceDate).(quantity := quantity)];
      assert KeyOf(added[|rows|]) == k;
      added
  }

  /** When the key has a row, that row (the only one, by the invariant) gains exactly
      `quantity` and no other row changes; no row is added. */
  lemma UpsertMergesExisting(rows: seq<ServiceProvision>, k: Key, quantity: int, i: nat)
    requires KeysUnique(rows)
    requires i < |rows| && KeyOf(rows[i]) == k
    ensures Upsert(rows, k, quantity) == rows[i := rows[i].(quantity := rows[i].quantity + quantity)]
  {
    var found := FindProvision(rows, k);
    assert found.Some? by { assert HasKey(rows, k); }
    assert found.value == i;
  }

  /** When the key has no row, exactly one row carrying the requested quantity is
      appended and the existing rows stay as they were. */
  lemma UpsertAppendsNew(rows: seq<ServiceProvision>, k: Key, quantity: int)
    requires !HasKey(rows, k)
    ensures Upsert(rows, k, quantity) == rows + [ServiceProvision(k.bookingId, k.serviceId, quantity, k.serviceDate)]
  {
  }

  /** The write keeps at most one row per key. */
  lemma UpsertKeepsKeysUnique(rows: seq<ServiceProvision>, k: Key, quantity: int)
    requires KeysUnique(rows)
    ensures KeysUnique(Upsert(rows, k, quantity))
  {
    var r := Upsert(rows, k, quantity);
    match FindProvision(rows, k)
    case Some(i) =>
      forall a, b | 0 <= a < |r| && 0 <= b < |r| && a != b ensures KeyOf(r[a]) != KeyOf(r[b]) {
        assert KeyOf(r[a]) == KeyOf(rows[a]) && KeyOf(r[b]) == KeyOf(rows[b]);
      }
    case None =>
      forall a, b | 0 <= a < |r| && 0 <= b < |r| && a != b ensures KeyOf(r[a]) != KeyOf(r[b]) {
        if a == |rows| {
          assert KeyOf(r[b]) == KeyOf(rows[b]);
        } else if b == |rows| {
          assert KeyOf(r[a]) == KeyOf(rows[a]);
        }
      }
  }

  /** Every row whose key differs from `k` is untouched, and the table never shrinks
      and grows by at most one row. */
  lemma UpsertLeavesOtherKeys(rows: seq<ServiceProvision>, k: Key, quantity: int)
    ensures |rows| <= |Upsert(rows, k, quantity)| <= |rows| + 1
    ensures forall j :: 0 <= j < |rows| && KeyOf(rows[j]) != k ==> Upsert(rows, k, quantity)[j] == rows[j]
    ensures forall j :: 0 <= j < |rows| ==> KeyOf(Upsert(rows, k, quantity)[j]) == KeyOf(rows[j])
  {
  }

  /** Assigning `q1` and then `q2` to the same key leaves the same table as assigning
      `q1 + q2` once: one row for the key, with the summed quantity. */
  lemma UpsertTwiceMerges(rows: seq<ServiceProvision>, k: Key, q1: int, q2: int)
    requires KeysUnique(rows)
    ensures Upsert(Upsert(rows, k, q1), k, q2) == Upsert(rows, k, q1 + q2)
  {
    var once := Upsert(rows, k, q1);
    UpsertKeepsKeysUnique(rows, k, q1);
    match FindProvision(rows, k)
    case Some(i) =>
      assert KeyOf(once[i]) == k;
      UpsertMergesExisting(once, k, q2, i);
    case None =>
      var n := |rows|;
      assert KeyOf(once[n]) == k;
      UpsertMergesExisting(once, k, q2, n);
  }

  /** The total quantity the table records for key `k`. */
  function TotalQuantity(rows: seq<ServiceProvision>, k: Key): int
  {
    if |rows| == 0 then 0
    else
      var n := |rows| - 1;
      TotalQuantity(rows[..n], k) + (if KeyOf(rows[n]) == k then rows[n].quantity else 0)
  }

  /** Changing one row's quantity, keeping its key, moves that key's total by the
      difference and leaves every other key's total alone. */
  lemma {:induction false} TotalAfterUpdate(rows: seq<ServiceProvision>, i: nat, delta: int, k: Key)
    requires i < |rows|
    ensures TotalQuantity(rows[i := rows[i].(quantity := rows[i].quantity + delta)], k)
         == TotalQuantity(rows, k) + (if KeyOf(rows[i]) == k then delta else 0)
  {
    var n := |rows| - 1;
    var updated := rows[i := rows[i].(quantity := rows[i].quantity + delta)];
    if i < n {
      assert updated[..n] == rows[..n][i := rows[i].(quantity := rows[i].quantity + delta)];
      TotalAfterUpdate(rows[..n], i, delta, k);
    } else {
      assert updated[..n] == rows[..n];
    }
  }

  /** Assigning `quantity` units for `k` raises the total for `k` by exactly that much
      and leaves the total of every other key as it was. */
  lemma UpsertAddsToTotal(rows: seq<ServiceProvision>, k: Key, quantity: int, other: Key)
    ensures TotalQuantity(Upsert(rows, k, quantity), k) == TotalQuantity(rows, k) + quantity
    ensures other != k ==> TotalQuantity(Upsert(rows, k, quantity), other) == TotalQuantity(rows, other)
  {
    match FindProvision(rows, k)
    case Some(i) =>
      TotalAfterUpdate(rows, i, quantity, k);
      TotalAfterUpdate(rows, i, quantity, other);
    case None =>
      var r := Upsert(rows, k, quantity);
      assert r[..|rows|] == rows;
  }
}
