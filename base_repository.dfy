// The generic repository of src/db/repositories/base_repository.py: one
// table of rows, created, read, updated and deleted through a session. The
// table keeps insertion order, which is the order the database returns rows
// in when a query has no ORDER BY.

module BaseRepository {
  import opened Common
  import opened Records

  /** Primary keys are pairwise distinct. */
  ghost predicate UniqueIds(rows: seq<Record>)
  {
    forall i, j :: 0 <= i < |rows| && 0 <= j < |rows| && Col(rows[i], Id) == Col(rows[j], Id) ==> i == j
  }

  /** A stored row: only columns of the model, and a primary key below the next one to hand out. */
  ghost predicate RowOk(r: Record, schema: set<Field>, nextId: nat)
  {
    r.Keys <= schema && Id in r && r[Id].VRef? && r[Id].ref < nextId
  }

  /** The first row with this primary key (`session.get`). */
  function Lookup(rows: seq<Record>, id: Value): (r: Option<Record>)
    ensures r.Some? ==> r.value in rows && Col(r.value, Id) == id
    ensures r.None? ==> forall x :: x in rows ==> Col(x, Id) != id
    decreases |rows|
  {
    if rows == [] then None
    else if Col(rows[0], Id) == id then Some(rows[0])
    else Lookup(rows[1..], id)
  }

  /** The first row matching `criteria` (`.first()`), with every earlier row not matching. */
  function FirstMatch(rows: seq<Record>, criteria: Record, schema: set<Field>): (r: Option<Record>)
    ensures r.Some? ==> exists i :: 0 <= i < |rows| && rows[i] == r.value && Matches(rows[i], criteria, schema)
                                      && forall j :: 0 <= j < i ==> !Matches(rows[j], criteria, schema)
    ensures r.None? ==> forall x :: x in rows ==> !Matches(x, criteria, schema)
    decreases |rows|
  {
    if rows == [] then None
    else if Matches(rows[0], criteria, schema) then Some(rows[0])
    else
      var r := FirstMatch(rows[1..], criteria, schema);
      if r.Some? then
        ghost var i :| 0 <= i < |rows[1..]| && rows[1..][i] == r.value && Matches(rows[1..][i], criteria, schema)
                        && forall j :: 0 <= j < i ==> !Matches(rows[1..][j], criteria, schema);
        assert rows[i + 1] == r.value;
        assert forall j :: 1 <= j < i + 1 ==> rows[j] == rows[1..][j - 1];
        r
      else r
  }

  /** The row with every model column of `data` assigned over `row`; keys that are not columns are skipped. */
  function Assign(row: Record, data: Record, schema: set<Field>): Record
  {
    row + Restrict(data, schema)
  }

  lemma FilterUnique(rows: seq<Record>, p: Record -> bool)
    requires UniqueIds(rows)
    ensures UniqueIds(Filter(rows, p))
    decreases |rows|
  {
    if rows != [] {
      FilterUnique(rows[1..], p);
      var t := Filter(rows[1..], p);
      if p(rows[0]) {
        var r := [rows[0]] + t;
        forall y | y in t ensures Col(y, Id) != Col(rows[0], Id) {
          var k :| 0 <= k < |rows[1..]| && rows[1..][k] == y;
          assert rows[k + 1] == y;
        }
        forall i, j | 0 <= i < |r| && 0 <= j < |r| && Col(r[i], Id) == Col(r[j], Id) ensures i == j {
          if i > 0 && j > 0 {
            assert r[i] == t[i - 1] && r[j] == t[j - 1];
          }
        }
      }
    }
  }

  /** A table of one model's rows. `schema` is the model's column set; `defaults` and `stamped` are the
      column defaults the model applies when a row is constructed (a constant, or the creation time). */
  class Table {
    const schema: set<Field>
    const defaults: Record
    const stamped: set<Field>
    var rows: seq<Record>
    var nextId: nat

    ghost predicate Valid()
      reads this
    {
      Id in schema && Id !in defaults && Id !in stamped && defaults.Keys <= schema && stamped <= schema
      && (forall i :: 0 <= i < |rows| ==> RowOk(rows[i], schema, nextId))
      && UniqueIds(rows)
    }

    constructor (schema: set<Field>, defaults: Record, stamped: set<Field>)
      requires Id in schema && Id !in defaults && Id !in stamped && defaults.Keys <= schema && stamped <= schema
      ensures Valid() && rows == []
      ensures this.schema == schema && this.defaults == defaults && this.stamped == stamped
    {
      this.schema := schema;
      this.defaults := defaults;
      this.stamped := stamped;
      rows := [];
      nextId := 0;
    }

    /** The row `model_class(**data)` builds: time defaults, constant defaults, the model columns of
        `data`, and a new primary key. */
    function Build(data: Record, id: nat, now: int): (r: Record)
      requires Id in schema && Id !in defaults && Id !in stamped && Id !in data
      ensures r.Keys == stamped + defaults.Keys + (data.Keys * schema) + {Id}
      ensures r[Id] == VRef(id)
      ensures forall f :: f in data && f in schema ==> r[f] == data[f]
      ensures forall f :: f in defaults && f !in data ==> r[f] == defaults[f]
      ensures forall f :: f in stamped && f !in defaults && f !in data ==> r[f] == VTime(now)
    {
      (map f | f in stamped :: VTime(now)) + defaults + Restrict(data, schema) + map[Id := VRef(id)]
    }

    /** `create`: exactly one row is added, holding the model columns of `data`. */
    method Create(data: Record, now: int) returns (r: Record)
      requires Valid() && Id !in data
      modifies this
      ensures Valid()
      ensures r == Build(data, old(nextId), now)
      ensures rows == old(rows) + [r]
      ensures nextId == old(nextId) + 1
      ensures forall x :: x in old(rows) ==> Col(x, Id) != r[Id]
    {
      r := Build(data, nextId, now);
      assert forall x :: x in rows ==> Col(x, Id) != r[Id] by {
        forall x | x in rows ensures Col(x, Id) != r[Id] {
          var i :| 0 <= i < |rows| && rows[i] == x;
          assert RowOk(rows[i], schema, nextId);
        }
      }
      rows := rows + [r];
      nextId := nextId + 1;
      assert forall i :: 0 <= i < |rows| - 1 ==> rows[i] == old(rows)[i];
      assert forall i :: 0 <= i < |rows| - 1 ==> Col(rows[i], Id) != Col(rows[|rows| - 1], Id) by {
        forall i | 0 <= i < |rows| - 1 ensures Col(rows[i], Id) != Col(rows[|rows| - 1], Id) {
          assert rows[i] in old(rows);
        }
      }
    }

    /** `get`: the row with this primary key, or None when there is none. */
    function Get(id: Value): (r: Option<Record>)
      reads this
      requires Valid()
      ensures r.Some? ==> r.value in rows && Col(r.value, Id) == id
      ensures r.None? <==> forall x :: x in rows ==> Col(x, Id) != id
    {
      assert forall x :: x in rows ==> Id in x by {
        forall x | x in rows ensures Id in x { var i :| 0 <= i < |rows| && rows[i] == x; assert RowOk(rows[i], schema, nextId); }
      }
      Lookup(rows, id)
    }

    /** `get_multi`: the rows at positions skip .. skip+limit-1. */
    function GetMulti(skip: nat, limit: nat): (r: seq<Record>)
      reads this
      ensures |r| <= limit
      ensures forall k :: 0 <= k < |r| ==> skip + k < |rows| && r[k] == rows[skip + k]
      ensures |r| < limit ==> skip + |r| >= |rows|
    {
      Window(rows, skip, limit)
    }

    /** `find_by`: every row equal to `criteria` on its model columns, in table order. */
    function FindBy(criteria: Record): (r: seq<Record>)
      reads this
      ensures forall x :: x in r <==> x in rows && Matches(x, criteria, schema)
    {
      Filter(rows, x => Matches(x, criteria, schema))
    }

    /** `find_one_by`: the first matching row, or None when no row matches. */
    function FindOneBy(criteria: Record): (r: Option<Record>)
      reads this
      ensures r.Some? ==> r.value in rows && Matches(r.value, criteria, schema)
      ensures r.None? <==> forall x :: x in rows ==> !Matches(x, criteria, schema)
      ensures r.Some? ==> exists i :: 0 <= i < |rows| && rows[i] == r.value
                                       && forall j :: 0 <= j < i ==> !Matches(rows[j], criteria, schema)
    {
      FirstMatch(rows, criteria, schema)
    }

    /** `exists`: some row matches, which is the case exactly when `find_by` is non-empty. */
    function Exists(criteria: Record): (b: bool)
      reads this
      ensures b <==> |FindBy(criteria)| > 0
      ensures b <==> exists x :: x in rows && Matches(x, criteria, schema)
    {
      var r := FindOneBy(criteria);
      if r.Some? then
        assert r.value in FindBy(criteria);
        true
      else
        FilterEmpty(rows, x => Matches(x, criteria, schema));
        false
    }

    /** `update`: each key of `data` that is a model column is assigned on the stored row; other keys
        are skipped and every other column and row is unchanged. */
    method Update(row: Record, data: Record) returns (r: Record)
      requires Valid() && row in rows && Id !in data
      modifies this
      ensures Valid() && nextId == old(nextId) && |rows| == |old(rows)|
      ensures r == Assign(row, data, schema)
      ensures forall k :: 0 <= k < |rows| ==> rows[k] == if old(rows)[k] == row then r else old(rows)[k]
    {
      r := row;
      var pending := data.Keys;
      while pending != {}
        invariant pending <= data.Keys
        invariant r.Keys == row.Keys + (data.Keys * schema - pending)
        invariant forall f :: f in r ==> r[f] == if f in data && f in schema && f !in pending then data[f] else row[f]
        decreases pending
      {
        var f :| f in pending;
        if f in schema {
          r := r[f := data[f]];
        }
        pending := pending - {f};
      }
      assert r == Assign(row, data, schema);
      var i :| 0 <= i < |rows| && rows[i] == row;
      assert forall k :: 0 <= k < |rows| && rows[k] == row ==> k == i by {
        forall k | 0 <= k < |rows| && rows[k] == row ensures k == i { assert Col(rows[k], Id) == Col(rows[i], Id); }
      }
      assert RowOk(row, schema, nextId);
      rows := rows[i := r];
      assert forall k :: 0 <= k < |rows| ==> Col(rows[k], Id) == Col(old(rows)[k], Id);
    }

    /** The upsert shape the organization, office and rate repositories share: the first row matching
        `key` is updated with `updateData`, and when none matches a row is created from `data`. A key
        held by at most one row stays so. */
    method UpsertBy(key: Record, data: Record, updateData: Record, now: int) returns (r: Record)
      requires Valid() && Id !in data && Id !in updateData
      requires forall f :: f in key && f in updateData ==> updateData[f] == key[f]
      requires forall f :: f in key && f in schema ==> f !in defaults && f !in stamped && f != Id && Col(data, f) == key[f]
      modifies this
      ensures Valid()
      ensures old(FindOneBy(key)).Some? ==>
                r == Assign(old(FindOneBy(key)).value, updateData, schema) && |rows| == |old(rows)|
                && forall k :: 0 <= k < |rows| ==> rows[k] == if old(rows)[k] == old(FindOneBy(key)).value then r else old(rows)[k]
      ensures old(FindOneBy(key)).None? ==> r == Build(data, old(nextId), now) && rows == old(rows) + [r]
      ensures Matches(r, key, schema)
      ensures AtMostOne(old(rows), key, schema) ==> AtMostOne(rows, key, schema)
    {
      var existing := FindOneBy(key);
      if existing.Some? {
        AssignKeepsMatch(existing.value, updateData, key, schema);
        r := Update(existing.value, updateData);
        if AtMostOne(old(rows), key, schema) {
          ReplaceKeepsAtMostOne(old(rows), rows, existing.value, r, key, schema);
        }
      } else {
        r := Create(data, now);
        assert forall f :: f in key && f in schema ==> Col(r, f) == key[f];
        AppendKeepsAtMostOne(old(rows), r, key, schema);
      }
    }

    /** `delete`: removes and returns the row with this key, or returns None and changes nothing. */
    method Delete(id: Value) returns (r: Option<Record>)
      requires Valid()
      modifies this
      ensures Valid() && nextId == old(nextId)
      ensures r.Some? ==> r.value in old(rows) && Col(r.value, Id) == id
      ensures r.None? ==> rows == old(rows) && forall x :: x in rows ==> Col(x, Id) != id
      ensures rows == Filter(old(rows), IdIsNot(id))
    {
      r := Get(id);
      if r.None? {
        FilterKeepsAll(rows, IdIsNot(id));
      } else {
        FilterUnique(rows, IdIsNot(id));
        rows := Filter(rows, IdIsNot(id));
        forall i | 0 <= i < |rows| ensures RowOk(rows[i], schema, nextId) {
          assert rows[i] in old(rows);
          var k :| 0 <= k < |old(rows)| && old(rows)[k] == rows[i];
        }
      }
    }

    /** The loop `for row in selected: session.delete(row)`: every selected row is removed, every other
        row is kept in order, and `count` is the number of deletions made. */
    method DeleteEach(victims: seq<Record>) returns (count: nat)
      requires Valid() && forall v :: v in victims ==> v in rows
      modifies this
      ensures Valid() && nextId == old(nextId)
      ensures rows == Filter(old(rows), NotIn(victims))
      ensures count == |victims|
    {
      FilterKeepsAll(rows, NotIn(victims[..0]));
      ghost var s0 := rows;
      assert UniqueIds(s0);
      count := 0;
      while count < |victims|
        invariant 0 <= count <= |victims|
        invariant Valid() && nextId == old(nextId)
        invariant rows == Filter(s0, NotIn(victims[..count]))
      {
        DeleteStep(s0, victims, count);
        var _ := Delete(Col(victims[count], Id));
        count := count + 1;
      }
      assert victims[..count] == victims;
    }

    /** Select the rows satisfying `p`, then delete them one by one: the rows failing `p` remain, in
        order, and the number deleted is the number selected. */
    method DeleteWhere(p: Record -> bool) returns (count: nat)
      requires Valid()
      modifies this
      ensures Valid() && nextId == old(nextId)
      ensures rows == Filter(old(rows), Not(p))
      ensures count == |Filter(old(rows), p)| == |old(rows)| - |rows|
    {
      var victims := Filter(rows, p);
      count := DeleteEach(victims);
      FilterCongruent(old(rows), NotIn(victims), Not(p));
      FilterSplitCount(old(rows), p);
    }
  }

  /** The row predicate "primary key differs from `id`". */
  function IdIsNot(id: Value): Record -> bool
  {
    x => Col(x, Id) != id
  }

  /** The WHERE clause `column == v`. */
  function ColumnIs(f: Field, v: Value): Record -> bool
  {
    x => Col(x, f) == v
  }

  /** The row predicate "not one of `victims`". */
  function NotIn(victims: seq<Record>): Record -> bool
  {
    x => x !in victims
  }

  /** Deleting `victims[k]` by primary key from the rows that survive the first `k` victims leaves the
      rows that survive the first `k + 1`, provided it is a row of `s` and no other row shares its key. */
  lemma DeleteStep(s: seq<Record>, victims: seq<Record>, k: nat)
    requires UniqueIds(s) && k < |victims| && victims[k] in s
    ensures Filter(Filter(s, NotIn(victims[..k])), IdIsNot(Col(victims[k], Id))) == Filter(s, NotIn(victims[..k + 1]))
  {
    var v := victims[k];
    assert victims[..k + 1] == victims[..k] + [v];
    forall x | x in s ensures (x !in victims[..k] && Col(x, Id) != Col(v, Id)) == (x !in victims[..k + 1]) {
      var a :| 0 <= a < |s| && s[a] == x;
      var b :| 0 <= b < |s| && s[b] == v;
    }
    FilterFilter(s, NotIn(victims[..k]), IdIsNot(Col(v, Id)));
    FilterCongruent(s, x => NotIn(victims[..k])(x) && IdIsNot(Col(v, Id))(x), NotIn(victims[..k + 1]));
  }

  lemma {:induction false} FilterFilter(s: seq<Record>, p: Record -> bool, q: Record -> bool)
    ensures Filter(Filter(s, p), q) == Filter(s, x => p(x) && q(x))
    decreases |s|
  {
    if s != [] {
      FilterFilter(s[1..], p, q);
    }
  }

  /** At most one row matches `criteria`: the uniqueness an upsert keyed on `criteria` maintains. */
  ghost predicate AtMostOne(rows: seq<Record>, criteria: Record, schema: set<Field>)
  {
    forall i, j :: 0 <= i < |rows| && 0 <= j < |rows| && Matches(rows[i], criteria, schema) && Matches(rows[j], criteria, schema)
      ==> i == j
  }

  /** Assigning data that agrees with the key keeps a matching row matching. */
  lemma AssignKeepsMatch(row: Record, data: Record, criteria: Record, schema: set<Field>)
    requires Matches(row, criteria, schema)
    requires forall f :: f in criteria && f in data ==> data[f] == criteria[f]
    ensures Matches(Assign(row, data, schema), criteria, schema)
  {
  }

  /** Overwriting the only matching row with another matching row keeps the key unique. */
  lemma ReplaceKeepsAtMostOne(before: seq<Record>, after: seq<Record>, row: Record, r: Record,
                              criteria: Record, schema: set<Field>)
    requires |after| == |before| && row in before && Matches(row, criteria, schema)
    requires forall k :: 0 <= k < |after| ==> after[k] == if before[k] == row then r else before[k]
    requires AtMostOne(before, criteria, schema)
    ensures AtMostOne(after, criteria, schema)
  {
    var i :| 0 <= i < |before| && before[i] == row;
    forall a, b | 0 <= a < |after| && 0 <= b < |after| && Matches(after[a], criteria, schema)
                  && Matches(after[b], criteria, schema) ensures a == b {
      assert Matches(before[a], criteria, schema) && Matches(before[b], criteria, schema);
    }
  }

  /** Appending a matching row to a table where nothing matched leaves exactly one match. */
  lemma AppendKeepsAtMostOne(before: seq<Record>, r: Record, criteria: Record, schema: set<Field>)
    requires forall x :: x in before ==> !Matches(x, criteria, schema)
    ensures AtMostOne(before + [r], criteria, schema)
  {
    forall k | 0 <= k < |before| ensures !Matches((before + [r])[k], criteria, schema) {
      assert (before + [r])[k] == before[k] && before[k] in before;
    }
  }
}
