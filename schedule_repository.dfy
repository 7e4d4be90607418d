// The schedule repository (src/repositories/schedule_repository.py): the
// schedules of one office, deleting them all, and adding a batch. The sync
// service uses the last two together to replace an office's schedules.

module ScheduleRepository {
  import opened Common
  import opened Records
  import opened BaseRepository

  /** A table built with the schedule model's columns and defaults. */
  predicate IsScheduleTable(t: Table)
  {
    t.schema == ScheduleColumns && t.defaults == BaseDefaults && t.stamped == BaseStamped
  }

  /** `get_by_office_id`: exactly the schedules whose office_id matches, in table order. */
  function GetByOfficeId(t: Table, officeId: Value): (r: seq<Record>)
    reads t
    ensures forall x :: x in r <==> x in t.rows && Col(x, OfficeId) == officeId
  {
    Filter(t.rows, ColumnIs(OfficeId, officeId))
  }

  /** `delete_by_office_id`: every schedule of the office is deleted; the rest stay, in order. */
  method DeleteByOfficeId(t: Table, officeId: Value)
    requires t.Valid()
    modifies t
    ensures t.Valid() && t.nextId == old(t.nextId)
    ensures t.rows == Filter(old(t.rows), Not(ColumnIs(OfficeId, officeId)))
    ensures GetByOfficeId(t, officeId) == []
    ensures forall other :: other != officeId ==> GetByOfficeId(t, other) == old(GetByOfficeId(t, other))
  {
    var _ := t.DeleteWhere(ColumnIs(OfficeId, officeId));
    FilterEmpty(t.rows, ColumnIs(OfficeId, officeId));
    forall other | other != officeId
      ensures GetByOfficeId(t, other) == old(GetByOfficeId(t, other))
    {
      OtherOfficeKept(old(t.rows), officeId, other);
    }
  }

  /** Removing one office's schedules leaves every other office's schedules as they were. */
  lemma OtherOfficeKept(s: seq<Record>, officeId: Value, other: Value)
    requires other != officeId
    ensures Filter(Filter(s, Not(ColumnIs(OfficeId, officeId))), ColumnIs(OfficeId, other)) == Filter(s, ColumnIs(OfficeId, other))
  {
    FilterFilter(s, Not(ColumnIs(OfficeId, officeId)), ColumnIs(OfficeId, other));
    FilterCongruent(s, x => Not(ColumnIs(OfficeId, officeId))(x) && ColumnIs(OfficeId, other)(x), ColumnIs(OfficeId, other));
  }

  /** A built row holds the model's defaults overridden by the model columns of `data`. */
  lemma BuildHolds(t: Table, data: Record, id: nat, now: int)
    requires Id in t.schema && Id !in t.defaults && Id !in t.stamped && Id !in data && t.defaults.Keys <= t.schema
    ensures Matches(t.Build(data, id, now), t.defaults + data, t.schema)
  {
    var r := t.Build(data, id, now);
    forall f | f in t.defaults + data && f in t.schema ensures Col(r, f) == (t.defaults + data)[f] {
      assert f in r.Keys;
    }
  }

  /** `create_many`: every given schedule is added, in order, each holding its columns over the
      model's defaults and a new primary key, and the same list is returned. */
  method CreateMany(t: Table, schedules: seq<Record>, now: int) returns (created: seq<Record>)
    requires t.Valid() && forall k :: 0 <= k < |schedules| ==> Id !in schedules[k]
    modifies t
    ensures t.Valid() && t.nextId == old(t.nextId) + |schedules|
    ensures |created| == |schedules| && t.rows == old(t.rows) + created
    ensures forall k :: 0 <= k < |created| ==> Matches(created[k], t.defaults + schedules[k], t.schema)
    ensures forall k :: 0 <= k < |created| ==> Col(created[k], Id) == VRef(old(t.nextId) + k)
  {
    created := [];
    var i := 0;
    while i < |schedules|
      invariant 0 <= i <= |schedules| && |created| == i
      invariant t.Valid() && t.nextId == old(t.nextId) + i
      invariant t.rows == old(t.rows) + created
      invariant forall k :: 0 <= k < i ==> Matches(created[k], t.defaults + schedules[k], t.schema)
      invariant forall k :: 0 <= k < i ==> Col(created[k], Id) == VRef(old(t.nextId) + k)
    {
      BuildHolds(t, schedules[i], t.nextId, now);
      var r := t.Create(schedules[i], now);
      created := created + [r];
      i := i + 1;
    }
  }

  /** Deleting an office's schedules and then adding rows that all belong to it leaves exactly those
      rows as its schedules. */
  lemma {:induction false} ReplaceSchedules(s: seq<Record>, created: seq<Record>, officeId: Value)
    requires forall k :: 0 <= k < |created| ==> Col(created[k], OfficeId) == officeId
    ensures Filter(Filter(s, Not(ColumnIs(OfficeId, officeId))) + created, ColumnIs(OfficeId, officeId)) == created
  {
    var kept := Filter(s, Not(ColumnIs(OfficeId, officeId)));
    FilterConcat(kept, created, ColumnIs(OfficeId, officeId));
    FilterEmpty(kept, ColumnIs(OfficeId, officeId));
    FilterKeepsAll(created, ColumnIs(OfficeId, officeId));
  }
}
