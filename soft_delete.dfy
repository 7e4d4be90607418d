// Soft deletion as the organization and office repositories do it
// (`mark_inactive_if_not_in_list`): every active row whose primary key is
// not in the given list gets is_active = False and a new updated_at.

module SoftDelete {
  import opened Common
  import opened Records
  import opened BaseRepository

  /** `.where(is_active == True).offset(skip).limit(limit)`: the rows at positions skip .. skip+limit-1
      of the active rows, in table order. */
  function ActiveWindow(rows: seq<Record>, skip: nat, limit: nat): (r: seq<Record>)
    ensures var a := Filter(rows, IsActiveRow);
              |r| == (if skip >= |a| then 0 else if limit <= |a| - skip then limit else |a| - skip)
              && forall k :: 0 <= k < |r| ==> r[k] == a[skip + k]
    ensures forall x :: x in r ==> x in rows && IsActiveRow(x)
    ensures skip == 0 && |Filter(rows, IsActiveRow)| <= limit ==> forall x :: x in rows && IsActiveRow(x) ==> x in r
  {
    var active := Filter(rows, IsActiveRow);
    var r := Window(active, skip, limit);
    assert forall x :: x in r ==> x in active by {
      forall x | x in r ensures x in active { var k :| 0 <= k < |r| && r[k] == x; assert active[skip + k] == x; }
    }
    assert skip == 0 && |active| <= limit ==> r == active;
    r
  }

  /** Active and not listed: the rows one call deactivates. */
  predicate Stale(r: Record, ids: seq<Value>)
  {
    IsActiveRow(r) && Col(r, Id) !in ids
  }

  /** The row after `row.is_active = False; row.updated_at = now`. */
  function Deactivate(r: Record, now: int): Record
  {
    r[IsActive := VBool(false)][UpdatedAt := VTime(now)]
  }

  /** The table after one deactivation pass over `rows`. */
  function SoftDeleted(rows: seq<Record>, ids: seq<Value>, now: int): seq<Record>
  {
    seq(|rows|, i requires 0 <= i < |rows| => if Stale(rows[i], ids) then Deactivate(rows[i], now) else rows[i])
  }

  /** How many rows one pass deactivates. */
  function StaleCount(rows: seq<Record>, ids: seq<Value>): nat
    decreases |rows|
  {
    if rows == [] then 0
    else StaleCount(rows[..|rows| - 1], ids) + (if Stale(rows[|rows| - 1], ids) then 1 else 0)
  }

  /** A deactivated row is inactive, carries the new updated_at, and keeps every other column. */
  lemma DeactivateEffect(r: Record, now: int)
    ensures !IsActiveRow(Deactivate(r, now)) && Col(Deactivate(r, now), UpdatedAt) == VTime(now)
    ensures forall f :: f != IsActive && f != UpdatedAt ==> Col(Deactivate(r, now), f) == Col(r, f)
  {
  }

  /** After a pass, a row is active exactly when it was active and listed. */
  lemma SoftDeletedActive(rows: seq<Record>, ids: seq<Value>, now: int, i: nat)
    requires i < |rows|
    ensures |SoftDeleted(rows, ids, now)| == |rows|
    ensures IsActiveRow(SoftDeleted(rows, ids, now)[i]) <==> IsActiveRow(rows[i]) && Col(rows[i], Id) in ids
    ensures Col(SoftDeleted(rows, ids, now)[i], Id) == Col(rows[i], Id)
  {
  }

  lemma {:induction false} StaleCountNone(rows: seq<Record>, ids: seq<Value>)
    requires forall i :: 0 <= i < |rows| ==> !Stale(rows[i], ids)
    ensures StaleCount(rows, ids) == 0
    decreases |rows|
  {
    if rows != [] {
      StaleCountNone(rows[..|rows| - 1], ids);
    }
  }

  /** A second pass with the same list deactivates nothing and changes nothing. */
  lemma SoftDeleteIdempotent(rows: seq<Record>, ids: seq<Value>, now: int, later: int)
    ensures StaleCount(SoftDeleted(rows, ids, now), ids) == 0
    ensures SoftDeleted(SoftDeleted(rows, ids, now), ids, later) == SoftDeleted(rows, ids, now)
  {
    StaleCountNone(SoftDeleted(rows, ids, now), ids);
  }

  /** Deactivates the row at position `i` in place; the primary keys, and so the table's validity, stay. */
  method DeactivateRow(t: Table, i: nat, now: int)
    requires t.Valid() && IsActive in t.schema && UpdatedAt in t.schema && i < |t.rows|
    modifies t
    ensures t.Valid() && t.nextId == old(t.nextId)
    ensures t.rows == old(t.rows)[i := Deactivate(old(t.rows)[i], now)]
  {
    assert RowOk(t.rows[i], t.schema, t.nextId);
    t.rows := t.rows[i := Deactivate(t.rows[i], now)];
    assert forall k :: 0 <= k < |t.rows| ==> Col(t.rows[k], Id) == Col(old(t.rows)[k], Id);
    assert forall k :: 0 <= k < |t.rows| ==> RowOk(t.rows[k], t.schema, t.nextId) by {
      forall k | 0 <= k < |t.rows| ensures RowOk(t.rows[k], t.schema, t.nextId) {
        assert RowOk(old(t.rows)[k], t.schema, t.nextId);
      }
    }
  }

  /** The pass `mark_inactive_if_not_in_list` runs once the list is known to be non-empty: each
      stale row is deactivated in table order, and the number deactivated is returned. */
  method DeactivateUnlisted(t: Table, ids: seq<Value>, now: int) returns (count: nat)
    requires t.Valid() && IsActive in t.schema && UpdatedAt in t.schema
    modifies t
    ensures t.Valid() && t.nextId == old(t.nextId)
    ensures t.rows == SoftDeleted(old(t.rows), ids, now)
    ensures count == StaleCount(old(t.rows), ids)
  {
    count := 0;
    var i := 0;
    while i < |t.rows|
      invariant 0 <= i <= |t.rows| == |old(t.rows)|
      invariant t.Valid() && t.nextId == old(t.nextId)
      invariant forall k :: 0 <= k < i ==> t.rows[k] == SoftDeleted(old(t.rows), ids, now)[k]
      invariant forall k :: i <= k < |t.rows| ==> t.rows[k] == old(t.rows)[k]
      invariant count == StaleCount(old(t.rows)[..i], ids)
    {
      assert old(t.rows)[..i + 1][..i] == old(t.rows)[..i];
      if Stale(t.rows[i], ids) {
        DeactivateRow(t, i, now);
        count := count + 1;
      }
      i := i + 1;
    }
    assert old(t.rows)[..i] == old(t.rows);
  }
}
