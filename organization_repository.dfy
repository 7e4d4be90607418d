// The organization repository (src/db/repositories/organization_repository.py;
// src/repositories/organization_repository.py has the same operations with
// `offset` in place of `skip`): active listings, soft deletion and an
// upsert keyed on the organization name.

module OrganizationRepository {
  import opened Common
  import opened Records
  import opened BaseRepository
  import opened SoftDelete
  import OfficeRepository

  /** A table built with the organization model's columns and defaults. */
  predicate IsOrganizationTable(t: Table)
  {
    t.schema == OrganizationColumns && t.defaults == BaseDefaults && t.stamped == BaseStamped
  }

  /** `get_active_organizations`: active organizations only, windowed by skip/limit in table order. */
  function GetActiveOrganizations(t: Table, skip: nat, limit: nat): (r: seq<Record>)
    reads t
    ensures var a := Filter(t.rows, IsActiveRow);
              |r| == (if skip >= |a| then 0 else if limit <= |a| - skip then limit else |a| - skip)
              && forall k :: 0 <= k < |r| ==> r[k] == a[skip + k]
    ensures forall x :: x in r ==> x in t.rows && IsActiveRow(x)
    ensures skip == 0 && |Filter(t.rows, IsActiveRow)| <= limit ==> forall x :: x in t.rows && IsActiveRow(x) ==> x in r
  {
    ActiveWindow(t.rows, skip, limit)
  }

  /** `mark_inactive_if_not_in_list`: an empty list returns 0 and changes nothing; otherwise exactly the
      active organizations whose id is not listed are deactivated (updated_at = now) and counted. */
  method MarkInactiveIfNotInList(t: Table, ids: seq<Value>, now: int) returns (count: nat)
    requires t.Valid() && IsOrganizationTable(t)
    modifies t
    ensures t.Valid() && t.nextId == old(t.nextId)
    ensures ids == [] ==> count == 0 && t.rows == old(t.rows)
    ensures ids != [] ==> count == StaleCount(old(t.rows), ids) && t.rows == SoftDeleted(old(t.rows), ids, now)
  {
    if |ids| == 0 {
      return 0;
    }
    count := DeactivateUnlisted(t, ids, now);
  }

  /** The lookup key of `upsert`: the organization name (None when the data has none). */
  function NameKey(data: Record): Record
  {
    map[Name := Col(data, Name)]
  }

  /** `upsert`: an organization with this name is updated (with updated_at = now), otherwise a new one
      is created; a name held by at most one organization stays so. */
  method Upsert(t: Table, data: Record, now: int) returns (r: Record)
    requires t.Valid() && IsOrganizationTable(t) && Id !in data
    modifies t
    ensures t.Valid()
    ensures old(t.FindOneBy(NameKey(data))).Some? ==>
              var existing := old(t.FindOneBy(NameKey(data))).value;
              r == Assign(existing, data[UpdatedAt := VTime(now)], t.schema) && |t.rows| == |old(t.rows)|
              && forall k :: 0 <= k < |t.rows| ==> t.rows[k] == if old(t.rows)[k] == existing then r else old(t.rows)[k]
    ensures old(t.FindOneBy(NameKey(data))).None? ==> r == t.Build(data, old(t.nextId), now) && t.rows == old(t.rows) + [r]
    ensures Matches(r, NameKey(data), t.schema)
    ensures AtMostOne(old(t.rows), NameKey(data), t.schema) ==> AtMostOne(t.rows, NameKey(data), t.schema)
  {
    r := t.UpsertBy(NameKey(data), data, data[UpdatedAt := VTime(now)], now);
  }

  /** `get_with_offices`: the active organizations of one window, each with every office that refers to
      it (the `offices` relationship, which ignores is_active). */
  function GetWithOffices(t: Table, offices: Table, skip: nat, limit: nat): (r: seq<(Record, seq<Record>)>)
    reads t, offices
    ensures var a := Filter(t.rows, IsActiveRow);
              |r| == (if skip >= |a| then 0 else if limit <= |a| - skip then limit else |a| - skip)
              && forall k :: 0 <= k < |r| ==> r[k].0 == a[skip + k]
    ensures forall k :: 0 <= k < |r| ==> r[k].0 in t.rows && IsActiveRow(r[k].0)
    ensures forall k, o :: 0 <= k < |r| ==> (o in r[k].1 <==> o in offices.rows && Col(o, OrganizationId) == Col(r[k].0, Id))
  {
    var orgs := GetActiveOrganizations(t, skip, limit);
    seq(|orgs|, i requires 0 <= i < |orgs| reads offices => (orgs[i], OfficeRepository.GetByOrganization(offices, Col(orgs[i], Id))))
  }
}
