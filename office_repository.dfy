// The office repository (src/db/repositories/office_repository.py, of which
// src/repositories/office_repository.py is a copy): active listings, offices
// of one organization, a coordinate square, soft deletion and an upsert
// keyed on (name, organization_id).

module OfficeRepository {
  import opened Common
  import opened Records
  import opened BaseRepository
  import opened SoftDelete

  /** A table built with the office model's columns and defaults. */
  predicate IsOfficeTable(t: Table)
  {
    t.schema == OfficeColumns && t.defaults == BaseDefaults && t.stamped == BaseStamped
  }

  /** `get_active_offices`: active offices only, windowed by skip/limit in table order. */
  function GetActiveOffices(t: Table, skip: nat, limit: nat): (r: seq<Record>)
    reads t
    ensures var a := Filter(t.rows, IsActiveRow);
              |r| == (if skip >= |a| then 0 else if limit <= |a| - skip then limit else |a| - skip)
              && forall k :: 0 <= k < |r| ==> r[k] == a[skip + k]
    ensures forall x :: x in r ==> x in t.rows && IsActiveRow(x)
    ensures skip == 0 && |Filter(t.rows, IsActiveRow)| <= limit ==> forall x :: x in t.rows && IsActiveRow(x) ==> x in r
  {
    ActiveWindow(t.rows, skip, limit)
  }

  /** `get_by_organization`: every office of the organization, active or not, in table order. */
  function GetByOrganization(t: Table, organizationId: Value): (r: seq<Record>)
    reads t
    ensures forall x :: x in r <==> x in t.rows && Col(x, OrganizationId) == organizationId
  {
    Filter(t.rows, ColumnIs(OrganizationId, organizationId))
  }

  function Abs(x: real): real
  {
    if x < 0.0 then -x else x
  }

  /** The row's coordinate lies within `d` of `c` (SQL comparisons with NULL are false). */
  predicate Near(v: Value, c: real, d: real)
  {
    NumKey(v).Some? && c - d <= NumKey(v).value <= c + d
  }

  /** `get_by_coordinates`: the active offices inside the square of half-side radius/111 degrees. */
  function GetByCoordinates(t: Table, lat: real, lng: real, radius: real): (r: seq<Record>)
    reads t
    ensures forall x :: x in r <==> x in t.rows && IsActiveRow(x)
                                    && NumKey(Col(x, Lat)).Some? && Abs(NumKey(Col(x, Lat)).value - lat) <= radius / 111.0
                                    && NumKey(Col(x, Lng)).Some? && Abs(NumKey(Col(x, Lng)).value - lng) <= radius / 111.0
  {
    var d := radius / 111.0;
    Filter(t.rows, x => IsActiveRow(x) && Near(Col(x, Lat), lat, d) && Near(Col(x, Lng), lng, d))
  }

  /** `mark_inactive_if_not_in_list`: an empty list returns 0 and changes nothing; otherwise exactly the
      active offices whose id is not listed are deactivated (updated_at = now) and counted. */
  method MarkInactiveIfNotInList(t: Table, ids: seq<Value>, now: int) returns (count: nat)
    requires t.Valid() && IsOfficeTable(t)
    modifies t
    ensures t.Valid() && t.nextId == old(t.nextId)
    ensures ids == [] ==> count == 0 && t.rows == old(t.rows)
    ensures ids != [] ==> count == StaleCount(old(t.rows), ids) && t.rows == SoftDeleted(old(t.rows), ids, now)
  {
    if |ids| == 0 {
      return 0;
    }
    count := DeactivateUnlisted(t, ids, now);
  }

  /** The lookup key of `upsert`: (name, organization_id). */
  function NameOrgKey(data: Record): Record
  {
    map[Name := Col(data, Name), OrganizationId := Col(data, OrganizationId)]
  }

  /** `upsert`: an office with this (name, organization_id) is updated (with updated_at = now), otherwise
      a new one is created; a pair held by at most one office stays so. */
  method Upsert(t: Table, data: Record, now: int) returns (r: Record)
    requires t.Valid() && IsOfficeTable(t) && Id !in data
    modifies t
    ensures t.Valid()
    ensures old(t.FindOneBy(NameOrgKey(data))).Some? ==>
              var existing := old(t.FindOneBy(NameOrgKey(data))).value;
              r == Assign(existing, data[UpdatedAt := VTime(now)], t.schema) && |t.rows| == |old(t.rows)|
              && forall k :: 0 <= k < |t.rows| ==> t.rows[k] == if old(t.rows)[k] == existing then r else old(t.rows)[k]
    ensures old(t.FindOneBy(NameOrgKey(data))).None? ==> r == t.Build(data, old(t.nextId), now) && t.rows == old(t.rows) + [r]
    ensures Matches(r, NameOrgKey(data), t.schema)
    ensures AtMostOne(old(t.rows), NameOrgKey(data), t.schema) ==> AtMostOne(t.rows, NameOrgKey(data), t.schema)
  {
    r := t.UpsertBy(NameOrgKey(data), data, data[UpdatedAt := VTime(now)], now);
  }
}
