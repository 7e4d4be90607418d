// The reconciliation engine of src/services/sync_service.py. One cycle folds
// a provider snapshot into the stored tables: organizations and offices are
// looked up by external_ref_id and updated or created, every rate entry is
// upserted by (office, currency), every active organization and office not
// seen in the cycle is soft-deleted, and then a second snapshot rewrites the
// coordinates of known offices and replaces their schedules with the parser's
// rows. The two fetches are inputs of the model (None when the fetch raised).

module SyncService {
  import opened Common
  import opened Records
  import opened BaseRepository
  import opened SoftDelete
  import opened ScheduleParser
  import OrganizationRepository
  import OfficeRepository
  import RateRepository
  import ScheduleRepository

  // ----- provider snapshots (field shapes of the exchange and map responses) -----

  /** One rate of an office: buy and sell price and the instant (seconds) it was quoted. */
  datatype OfficeRate = OfficeRate(buy: real, sell: real, time: int)

  /** An office of the exchange snapshot: its provider id, English name and address, and its rates by
      currency in the order the response lists them. */
  datatype OfficeData = OfficeData(id: string, name: string, address: string, rates: seq<(string, OfficeRate)>)

  /** An organization of the exchange snapshot with its offices. */
  datatype OrganizationData = OrganizationData(id: string, name: string, link: string, icon: Option<string>,
                                               offices: seq<OfficeData>)

  datatype ExchangeResponse = ExchangeResponse(organizations: seq<OrganizationData>)

  /** An office of the map snapshot: provider id, coordinates and weekly schedule. */
  datatype MapOffice = MapOffice(id: string, latitude: real, longitude: real, schedule: seq<ScheduleEntry>)

  datatype MapResponse = MapResponse(offices: seq<MapOffice>)

  // ----- statistics -----

  datatype OrgStats = OrgStats(organizationsCreated: nat, organizationsUpdated: nat, officesCreated: nat,
                               officesUpdated: nat, officesDeactivated: nat, ratesCreated: nat, ratesUpdated: nat)

  datatype MapStats = MapStats(officesUpdated: nat, schedulesCreated: nat, schedulesUpdated: nat)

  datatype SyncStats = SyncStats(organizationsCreated: nat, organizationsUpdated: nat, officesCreated: nat,
                                 officesUpdated: nat, officesDeactivated: nat, ratesCreated: nat, ratesUpdated: nat,
                                 schedulesCreated: nat, schedulesUpdated: nat)

  /** `stats.update(map_stats)`: the map phase's keys overwrite, so offices_updated is the map count. */
  function Merge(a: OrgStats, b: MapStats): SyncStats
  {
    SyncStats(a.organizationsCreated, a.organizationsUpdated, a.officesCreated, b.officesUpdated,
              a.officesDeactivated, a.ratesCreated, a.ratesUpdated, b.schedulesCreated, b.schedulesUpdated)
  }

  // ----- what the snapshot asks for -----

  function OrgIds(orgs: seq<OrganizationData>): set<Value>
  {
    set o | o in orgs :: VStr(o.id)
  }

  function OfficeIds(offices: seq<OfficeData>): set<Value>
  {
    set o | o in offices :: VStr(o.id)
  }

  /** The external ids of every office listed under any organization. */
  function AllOfficeIds(orgs: seq<OrganizationData>): set<Value>
    decreases |orgs|
  {
    if orgs == [] then {} else AllOfficeIds(orgs[..|orgs| - 1]) + OfficeIds(orgs[|orgs| - 1].offices)
  }

  /** The number of offices listed, counted with repetitions. */
  function OfficeCount(orgs: seq<OrganizationData>): nat
    decreases |orgs|
  {
    if orgs == [] then 0 else OfficeCount(orgs[..|orgs| - 1]) + |orgs[|orgs| - 1].offices|
  }

  /** The number of rate entries of the given offices. */
  function RateEntries(offices: seq<OfficeData>): nat
    decreases |offices|
  {
    if offices == [] then 0 else RateEntries(offices[..|offices| - 1]) + |offices[|offices| - 1].rates|
  }

  /** The number of rate entries of every office listed. */
  function RateCount(orgs: seq<OrganizationData>): nat
    decreases |orgs|
  {
    if orgs == [] then 0 else RateCount(orgs[..|orgs| - 1]) + RateEntries(orgs[|orgs| - 1].offices)
  }

  // ----- what the store holds -----

  function ExtRefOf(x: Record): Value { Col(x, ExternalRefId) }
  function IdOf(x: Record): Value { Col(x, Id) }
  function RateKeyOf(x: Record): (Value, Value) { (Col(x, OfficeId), Col(x, Currency)) }

  /** The values a column takes over the rows. */
  function Image<T>(rows: seq<Record>, proj: Record -> T): set<T>
  {
    set x | x in rows :: proj(x)
  }

  /** The criteria `find_one_by(external_ref_id=str(id))`. */
  function ExtKey(id: string): Record
  {
    map[ExternalRefId := VStr(id)]
  }

  /** The dicts the cycle writes: an organization, an office listed under `orgId` (with coordinates
      reset to 0.0), one rate of an office, one parsed schedule row of an office. */
  function OrganizationDict(org: OrganizationData): Record
  {
    map[ExternalRefId := VStr(org.id), Name := VStr(org.name), Website := VStr(org.link),
        LogoUrl := if org.icon.Some? then VStr(org.icon.value) else VNone]
  }

  function OfficeDict(office: OfficeData, orgId: Value): Record
  {
    map[ExternalRefId := VStr(office.id), Name := VStr(office.name), Address := VStr(office.address),
        Lat := VReal(0.0), Lng := VReal(0.0), OrganizationId := orgId]
  }

  function RateDict(officeId: Value, currency: string, rate: OfficeRate): Record
  {
    map[OfficeId := officeId, Currency := VStr(currency), BuyRate := VReal(rate.buy),
        SellRate := VReal(rate.sell), Timestamp := VTime(rate.time)]
  }

  function ScheduleDict(row: ScheduleRow, officeId: Value): Record
  {
    map[Day := VInt(row.day), OpensAt := VInt(row.opensAt), ClosesAt := VInt(row.closesAt), OfficeId := officeId]
  }

  function ScheduleDicts(rows: seq<ScheduleRow>, officeId: Value): (r: seq<Record>)
    ensures |r| == |rows|
    ensures forall k :: 0 <= k < |r| ==> r[k] == ScheduleDict(rows[k], officeId)
  {
    seq(|rows|, k requires 0 <= k < |rows| => ScheduleDict(rows[k], officeId))
  }

  // ----- facts about the store -----

  /** Looking an office or organization up by external id finds something exactly when the id is stored. */
  lemma FindByExternalRef(t: Table, id: string)
    requires ExternalRefId in t.schema
    ensures t.FindOneBy(ExtKey(id)).None? <==> VStr(id) !in Image(t.rows, ExtRefOf)
    ensures t.FindOneBy(ExtKey(id)).Some? ==> Col(t.FindOneBy(ExtKey(id)).value, ExternalRefId) == VStr(id)
  {
    if VStr(id) in Image(t.rows, ExtRefOf) {
      var x :| x in t.rows && ExtRefOf(x) == VStr(id);
      assert Matches(x, ExtKey(id), t.schema);
    }
  }

  /** Overwriting one row with a row that agrees on `proj` keeps the image of `proj`; the new row is stored. */
  lemma ReplaceKeepsImage<T>(before: seq<Record>, after: seq<Record>, row: Record, r: Record, proj: Record -> T)
    requires |after| == |before| && row in before && proj(r) == proj(row)
    requires forall k :: 0 <= k < |after| ==> after[k] == if before[k] == row then r else before[k]
    ensures Image(after, proj) == Image(before, proj)
    ensures r in after
  {
    forall v | v in Image(after, proj) ensures v in Image(before, proj) {
      var x :| x in after && proj(x) == v;
      var k :| 0 <= k < |after| && after[k] == x;
      assert before[k] in before;
    }
    forall v | v in Image(before, proj) ensures v in Image(after, proj) {
      var x :| x in before && proj(x) == v;
      var k :| 0 <= k < |before| && before[k] == x;
      assert after[k] in after;
    }
    var i :| 0 <= i < |before| && before[i] == row;
    assert after[i] == r;
  }

  lemma AppendImage<T>(rows: seq<Record>, r: Record, proj: Record -> T)
    ensures Image(rows + [r], proj) == Image(rows, proj) + {proj(r)}
  {
    assert forall x :: x in rows + [r] <==> x in rows || x == r;
  }

  /** Soft deletion changes only is_active and updated_at, so external ids and primary keys stay. */
  lemma SoftDeletedKeepsImages(rows: seq<Record>, ids: seq<Value>, now: int)
    ensures Image(SoftDeleted(rows, ids, now), ExtRefOf) == Image(rows, ExtRefOf)
    ensures Image(SoftDeleted(rows, ids, now), IdOf) == Image(rows, IdOf)
  {
    var after := SoftDeleted(rows, ids, now);
    forall k | 0 <= k < |rows|
      ensures ExtRefOf(after[k]) == ExtRefOf(rows[k]) && IdOf(after[k]) == IdOf(rows[k])
    {
      DeactivateEffect(rows[k], now);
    }
    forall v | v in Image(after, ExtRefOf) ensures v in Image(rows, ExtRefOf) {
      var x :| x in after && ExtRefOf(x) == v;
      var k :| 0 <= k < |after| && after[k] == x;
      assert rows[k] in rows;
    }
    forall v | v in Image(rows, ExtRefOf) ensures v in Image(after, ExtRefOf) {
      var x :| x in rows && ExtRefOf(x) == v;
      var k :| 0 <= k < |rows| && rows[k] == x;
      assert after[k] in after;
    }
    forall v | v in Image(after, IdOf) ensures v in Image(rows, IdOf) {
      var x :| x in after && IdOf(x) == v;
      var k :| 0 <= k < |after| && after[k] == x;
      assert rows[k] in rows;
    }
    forall v | v in Image(rows, IdOf) ensures v in Image(after, IdOf) {
      var x :| x in rows && IdOf(x) == v;
      var k :| 0 <= k < |rows| && rows[k] == x;
      assert after[k] in after;
    }
  }

  /** An update assigns the model columns of `data` and keeps every column `data` does not name. */
  lemma AssignCols(row: Record, data: Record, schema: set<Field>)
    ensures forall f :: f in data && f in schema ==> Col(Assign(row, data, schema), f) == data[f]
    ensures forall f :: f !in data ==> Col(Assign(row, data, schema), f) == Col(row, f)
  {
  }

  /** A created row holds every column of `data` the model has, and is active when the model's
      defaults make it so and `data` does not say otherwise. */
  lemma BuildCols(t: Table, data: Record, id: nat, now: int)
    requires Id in t.schema && Id !in t.defaults && Id !in t.stamped && Id !in data
    ensures forall f :: f in data && f in t.schema ==> Col(t.Build(data, id, now), f) == data[f]
    ensures t.defaults == BaseDefaults && IsActive !in data ==> IsActiveRow(t.Build(data, id, now))
  {
  }

  lemma OrganizationDictKeys(org: OrganizationData)
    ensures OrganizationDict(org).Keys <= OrganizationColumns && Id !in OrganizationDict(org) && IsActive !in OrganizationDict(org)
  {
  }

  lemma OfficeDictKeys(office: OfficeData, orgId: Value)
    ensures OfficeDict(office, orgId).Keys <= OfficeColumns && Id !in OfficeDict(office, orgId) && IsActive !in OfficeDict(office, orgId)
  {
  }

  /** After a deactivation pass with a list, every active row is listed. */
  lemma ActiveAreListed(rows: seq<Record>, ids: seq<Value>, now: int)
    ensures forall x :: x in SoftDeleted(rows, ids, now) && IsActiveRow(x) ==> Col(x, Id) in ids
  {
    forall x | x in SoftDeleted(rows, ids, now) && IsActiveRow(x) ensures Col(x, Id) in ids {
      var k :| 0 <= k < |SoftDeleted(rows, ids, now)| && SoftDeleted(rows, ids, now)[k] == x;
      SoftDeletedActive(rows, ids, now, k);
    }
  }

  /** No row that was inactive in `before` is active at the same position in `after`; rows are only
      ever added at the end. */
  ghost predicate NoneReactivated(before: seq<Record>, after: seq<Record>)
  {
    |before| <= |after| && forall k :: 0 <= k < |before| && !IsActiveRow(before[k]) ==> !IsActiveRow(after[k])
  }

  lemma NoneReactivatedTrans(a: seq<Record>, b: seq<Record>, c: seq<Record>)
    requires NoneReactivated(a, b) && NoneReactivated(b, c)
    ensures NoneReactivated(a, c)
  {
  }

  /** A deactivation pass only ever clears is_active. */
  lemma SoftDeletedNoneReactivated(rows: seq<Record>, ids: seq<Value>, now: int)
    ensures NoneReactivated(rows, SoftDeleted(rows, ids, now))
  {
    forall k | 0 <= k < |rows| && !IsActiveRow(rows[k]) ensures !IsActiveRow(SoftDeleted(rows, ids, now)[k]) {
      SoftDeletedActive(rows, ids, now, k);
    }
  }

  /** The office row written for `office` listed under `orgId`: its external id, its organization and
      coordinates reset to 0.0. */
  predicate SavedOffice(row: Record, office: OfficeData, orgId: Value)
  {
    Col(row, ExternalRefId) == VStr(office.id) && Col(row, OrganizationId) == orgId
    && Col(row, Lat) == VReal(0.0) && Col(row, Lng) == VReal(0.0)
  }

  /** A row holding every column of the office dict is the saved office. */
  lemma OfficeSaved(row: Record, office: OfficeData, orgId: Value)
    requires forall f :: f in OfficeDict(office, orgId) ==> Col(row, f) == OfficeDict(office, orgId)[f]
    ensures SavedOffice(row, office, orgId)
  {
    var d := OfficeDict(office, orgId);
    assert ExternalRefId in d && OrganizationId in d && Lat in d && Lng in d;
  }

  /** How a table has moved on during a cycle: `created` rows appended, the external ids `ids` added,
      no primary key lost and no row reactivated. */
  ghost predicate Progress(before: seq<Record>, after: seq<Record>, ids: set<Value>, created: nat)
  {
    |after| == |before| + created
    && Image(after, ExtRefOf) == Image(before, ExtRefOf) + ids
    && Image(before, IdOf) <= Image(after, IdOf)
    && NoneReactivated(before, after)
  }

  lemma ProgressStep(a: seq<Record>, b: seq<Record>, c: seq<Record>, ids: set<Value>, created: nat, id: Value, isNew: bool)
    requires Progress(a, b, ids, created)
    requires |c| == |b| + (if isNew then 1 else 0)
    requires Image(c, ExtRefOf) == Image(b, ExtRefOf) + {id}
    requires Image(b, IdOf) <= Image(c, IdOf)
    requires NoneReactivated(b, c)
    ensures Progress(a, c, ids + {id}, created + if isNew then 1 else 0)
  {
    NoneReactivatedTrans(a, b, c);
  }

  lemma OfficeIdsStep(list: seq<OfficeData>, j: nat)
    requires j < |list|
    ensures OfficeIds(list[..j + 1]) == OfficeIds(list[..j]) + {VStr(list[j].id)}
  {
    assert list[..j + 1] == list[..j] + [list[j]];
  }

  lemma RateEntriesStep(list: seq<OfficeData>, j: nat)
    requires j < |list|
    ensures RateEntries(list[..j + 1]) == RateEntries(list[..j]) + |list[j].rates|
  {
    assert list[..j + 1][..j] == list[..j];
  }

  /** What processing the offices `list` of one organization with primary key `orgId` leaves behind, the
      office table having gone from `before` to `after`: every listed office was counted once as created
      or updated; `created` rows were appended and the listed external ids are now stored; when every
      listed id was already stored nothing was created; `saved[k]` is the row written for `list[k]` (its
      external id, organization and 0.0 coordinates) and `seen` their primary keys, all stored; no row was
      reactivated; and every rate entry counted as updated, none as created. */
  ghost predicate OfficesDone(before: seq<Record>, after: seq<Record>, list: seq<OfficeData>, orgId: Value,
                              saved: seq<Record>, seen: set<Value>, created: nat, updated: nat,
                              ratesCreated: nat, ratesUpdated: nat)
  {
    created + updated == |list|
    && Progress(before, after, OfficeIds(list), created)
    && (OfficeIds(list) <= Image(before, ExtRefOf) ==> created == 0)
    && |saved| == |list| && (forall k :: 0 <= k < |list| ==> SavedOffice(saved[k], list[k], orgId))
    && seen == Image(saved, IdOf) && seen <= Image(after, IdOf)
    && ratesCreated == 0 && ratesUpdated == RateEntries(list)
  }

  lemma SavedStep(list: seq<OfficeData>, j: nat, orgId: Value, saved: seq<Record>, row: Record)
    requires j < |list| && |saved| == j
    requires forall k :: 0 <= k < j ==> SavedOffice(saved[k], list[..j][k], orgId)
    requires SavedOffice(row, list[j], orgId)
    ensures forall k :: 0 <= k < j + 1 ==> SavedOffice((saved + [row])[k], list[..j + 1][k], orgId)
  {
    forall k | 0 <= k < j + 1 ensures SavedOffice((saved + [row])[k], list[..j + 1][k], orgId) {
      if k < j {
        assert (saved + [row])[k] == saved[k] && list[..j + 1][k] == list[..j][k];
      }
    }
  }

  lemma KnownStep(before: seq<Record>, b: seq<Record>, list: seq<OfficeData>, j: nat, created: nat, isNew: bool)
    requires j < |list|
    requires OfficeIds(list[..j]) <= Image(before, ExtRefOf) ==> created == 0
    requires Image(before, ExtRefOf) <= Image(b, ExtRefOf)
    requires isNew <==> VStr(list[j].id) !in Image(b, ExtRefOf)
    ensures OfficeIds(list[..j + 1]) <= Image(before, ExtRefOf) ==> created + (if isNew then 1 else 0) == 0
  {
    OfficeIdsStep(list, j);
  }

  /** What saving one office did to the office table: the row created exactly when the office's external
      id was new, that id now present, no primary key lost, no row reactivated, the row written for the
      office, and each of its rate entries counted as updated. */
  ghost predicate OfficeStep(b: seq<Record>, c: seq<Record>, office: OfficeData, orgId: Value, row: Record, isNew: bool,
                             rc: nat, ru: nat)
  {
    (isNew <==> VStr(office.id) !in Image(b, ExtRefOf))
    && |c| == |b| + (if isNew then 1 else 0)
    && Image(c, ExtRefOf) == Image(b, ExtRefOf) + {VStr(office.id)}
    && Image(b, IdOf) + {IdOf(row)} <= Image(c, IdOf)
    && NoneReactivated(b, c)
    && SavedOffice(row, office, orgId)
    && rc == 0 && ru == |office.rates|
  }

  /** One more office processed: the summary of the pass folds in its row and counts. */
  lemma OfficesDoneNext(before: seq<Record>, b: seq<Record>, c: seq<Record>, list: seq<OfficeData>, j: nat, orgId: Value,
                        saved: seq<Record>, seen: set<Value>, created: nat, updated: nat, ratesCreated: nat, ratesUpdated: nat,
                        row: Record, isNew: bool, rc: nat, ru: nat,
                        saved': seq<Record>, seen': set<Value>, created': nat, updated': nat, ratesCreated': nat, ratesUpdated': nat)
    requires j < |list|
    requires OfficesDone(before, b, list[..j], orgId, saved, seen, created, updated, ratesCreated, ratesUpdated)
    requires OfficeStep(b, c, list[j], orgId, row, isNew, rc, ru)
    requires saved' == saved + [row] && seen' == seen + {IdOf(row)}
    requires created' == created + (if isNew then 1 else 0) && updated' == updated + (if isNew then 0 else 1)
    requires ratesCreated' == ratesCreated + rc && ratesUpdated' == ratesUpdated + ru
    ensures OfficesDone(before, c, list[..j + 1], orgId, saved', seen', created', updated', ratesCreated', ratesUpdated')
  {
    OfficeIdsStep(list, j);
    ProgressStep(before, b, c, OfficeIds(list[..j]), created, VStr(list[j].id), isNew);
    RateEntriesStep(list, j);
    AppendImage(saved, row, IdOf);
    SavedStep(list, j, orgId, saved, row);
    KnownStep(before, b, list, j, created, isNew);
    assert seen <= Image(b, IdOf) && Image(b, IdOf) + {IdOf(row)} <= Image(c, IdOf);
    assert seen' <= Image(c, IdOf);
  }

  lemma ImageEmpty<T>(rows: seq<Record>, proj: Record -> T)
    ensures Image(rows, proj) == {} <==> rows == []
  {
    if rows != [] {
      assert proj(rows[0]) in Image(rows, proj);
    }
  }

  lemma OrgIdsStep(orgs: seq<OrganizationData>, i: nat)
    requires i < |orgs|
    ensures OrgIds(orgs[..i + 1]) == OrgIds(orgs[..i]) + {VStr(orgs[i].id)}
    ensures AllOfficeIds(orgs[..i + 1]) == AllOfficeIds(orgs[..i]) + OfficeIds(orgs[i].offices)
    ensures OfficeCount(orgs[..i + 1]) == OfficeCount(orgs[..i]) + |orgs[i].offices|
    ensures RateCount(orgs[..i + 1]) == RateCount(orgs[..i]) + RateEntries(orgs[i].offices)
  {
    assert orgs[..i + 1] == orgs[..i] + [orgs[i]];
    assert orgs[..i + 1][..i] == orgs[..i];
  }

  /** What processing the organizations `orgs` leaves behind, before deactivation: each organization and
      each listed office counted once as created or updated, the tables moved on by `Progress` with the
      listed external ids, nothing created when every listed id was already stored, the primary keys seen
      all stored (and none seen exactly when nothing was listed), and every rate entry counted as updated. */
  ghost predicate OrgsDone(orgsBefore: seq<Record>, orgsAfter: seq<Record>, officesBefore: seq<Record>, officesAfter: seq<Record>,
                           orgs: seq<OrganizationData>, seenOrgs: set<Value>, seenOffices: set<Value>,
                           orgsCreated: nat, orgsUpdated: nat, officesCreated: nat, officesUpdated: nat,
                           ratesCreated: nat, ratesUpdated: nat)
  {
    orgsCreated + orgsUpdated == |orgs|
    && Progress(orgsBefore, orgsAfter, OrgIds(orgs), orgsCreated)
    && (OrgIds(orgs) <= Image(orgsBefore, ExtRefOf) ==> orgsCreated == 0)
    && seenOrgs <= Image(orgsAfter, IdOf) && (seenOrgs == {} <==> orgs == [])
    && officesCreated + officesUpdated == OfficeCount(orgs)
    && Progress(officesBefore, officesAfter, AllOfficeIds(orgs), officesCreated)
    && (AllOfficeIds(orgs) <= Image(officesBefore, ExtRefOf) ==> officesCreated == 0)
    && seenOffices <= Image(officesAfter, IdOf) && (seenOffices == {} <==> OfficeCount(orgs) == 0)
    && ratesCreated == 0 && ratesUpdated == RateCount(orgs)
  }

  lemma OrgsKnownStep(before: seq<Record>, b: seq<Record>, orgs: seq<OrganizationData>, i: nat, created: nat, isNew: bool)
    requires i < |orgs|
    requires OrgIds(orgs[..i]) <= Image(before, ExtRefOf) ==> created == 0
    requires Image(before, ExtRefOf) <= Image(b, ExtRefOf)
    requires isNew <==> VStr(orgs[i].id) !in Image(b, ExtRefOf)
    ensures OrgIds(orgs[..i + 1]) <= Image(before, ExtRefOf) ==> created + (if isNew then 1 else 0) == 0
  {
    OrgIdsStep(orgs, i);
  }

  lemma OfficesKnownStep(before: seq<Record>, b: seq<Record>, orgs: seq<OrganizationData>, i: nat, created: nat, fc: nat)
    requires i < |orgs|
    requires AllOfficeIds(orgs[..i]) <= Image(before, ExtRefOf) ==> created == 0
    requires Image(before, ExtRefOf) <= Image(b, ExtRefOf)
    requires OfficeIds(orgs[i].offices) <= Image(b, ExtRefOf) ==> fc == 0
    ensures AllOfficeIds(orgs[..i + 1]) <= Image(before, ExtRefOf) ==> created + fc == 0
  {
    OrgIdsStep(orgs, i);
  }

  lemma OrgsDoneStep(orgsBefore: seq<Record>, ob: seq<Record>, oc: seq<Record>,
                     officesBefore: seq<Record>, fb: seq<Record>, fcRows: seq<Record>,
                     orgs: seq<OrganizationData>, i: nat, seenOrgs: set<Value>, seenOffices: set<Value>,
                     orgsCreated: nat, orgsUpdated: nat, officesCreated: nat, officesUpdated: nat,
                     ratesCreated: nat, ratesUpdated: nat,
                     row: Record, isNew: bool, officeRows: seq<Record>, officeIds: set<Value>,
                     fc: nat, fu: nat, rc: nat, ru: nat)
    requires i < |orgs|
    requires OrgsDone(orgsBefore, ob, officesBefore, fb, orgs[..i], seenOrgs, seenOffices,
                      orgsCreated, orgsUpdated, officesCreated, officesUpdated, ratesCreated, ratesUpdated)
    requires isNew <==> VStr(orgs[i].id) !in Image(ob, ExtRefOf)
    requires |oc| == |ob| + (if isNew then 1 else 0)
    requires Image(oc, ExtRefOf) == Image(ob, ExtRefOf) + {VStr(orgs[i].id)}
    requires Image(ob, IdOf) + {IdOf(row)} <= Image(oc, IdOf)
    requires NoneReactivated(ob, oc)
    requires OfficesDone(fb, fcRows, orgs[i].offices, IdOf(row), officeRows, officeIds, fc, fu, rc, ru)
    ensures var orgs' := orgs[..i + 1];
            var orgsCreated', orgsUpdated' := orgsCreated + (if isNew then 1 else 0), orgsUpdated + (if isNew then 0 else 1);
            var seenOrgs', seenOffices' := seenOrgs + {IdOf(row)}, seenOffices + officeIds;
            && orgsCreated' + orgsUpdated' == |orgs'|
            && Progress(orgsBefore, oc, OrgIds(orgs'), orgsCreated')
            && (OrgIds(orgs') <= Image(orgsBefore, ExtRefOf) ==> orgsCreated' == 0)
            && seenOrgs' <= Image(oc, IdOf) && (seenOrgs' == {} <==> orgs' == [])
            && officesCreated + fc + officesUpdated + fu == OfficeCount(orgs')
            && Progress(officesBefore, fcRows, AllOfficeIds(orgs'), officesCreated + fc)
            && (AllOfficeIds(orgs') <= Image(officesBefore, ExtRefOf) ==> officesCreated + fc == 0)
            && seenOffices' <= Image(fcRows, IdOf) && (seenOffices' == {} <==> OfficeCount(orgs') == 0)
            && ratesCreated + rc == 0 && ratesUpdated + ru == RateCount(orgs')
  {
    OrgIdsStep(orgs, i);
    ProgressStep(orgsBefore, ob, oc, OrgIds(orgs[..i]), orgsCreated, VStr(orgs[i].id), isNew);
    OrgsKnownStep(orgsBefore, ob, orgs, i, orgsCreated, isNew);
    ProgressChain(officesBefore, fb, fcRows, AllOfficeIds(orgs[..i]), officesCreated, OfficeIds(orgs[i].offices), fc);
    OfficesKnownStep(officesBefore, fb, orgs, i, officesCreated, fc);
    ImageEmpty(officeRows, IdOf);
  }

  /** What saving one organization and its offices did to the two tables: the organization row
      created exactly when its external id was new, that id now present, no primary key lost, no row
      reactivated, and its offices processed under the row's primary key. */
  ghost predicate OrganizationStep(ob: seq<Record>, oc: seq<Record>, fb: seq<Record>, fcRows: seq<Record>,
                                   org: OrganizationData, row: Record, isNew: bool,
                                   officeRows: seq<Record>, officeIds: set<Value>, fc: nat, fu: nat, rc: nat, ru: nat)
  {
    (isNew <==> VStr(org.id) !in Image(ob, ExtRefOf))
    && |oc| == |ob| + (if isNew then 1 else 0)
    && Image(oc, ExtRefOf) == Image(ob, ExtRefOf) + {VStr(org.id)}
    && Image(ob, IdOf) + {IdOf(row)} <= Image(oc, IdOf)
    && NoneReactivated(ob, oc)
    && OfficesDone(fb, fcRows, org.offices, IdOf(row), officeRows, officeIds, fc, fu, rc, ru)
  }

  lemma OrgsDoneNext(orgsBefore: seq<Record>, ob: seq<Record>, oc: seq<Record>,
                     officesBefore: seq<Record>, fb: seq<Record>, fcRows: seq<Record>,
                     orgs: seq<OrganizationData>, i: nat, seenOrgs: set<Value>, seenOffices: set<Value>,
                     orgsCreated: nat, orgsUpdated: nat, officesCreated: nat, officesUpdated: nat,
                     ratesCreated: nat, ratesUpdated: nat,
                     row: Record, isNew: bool, officeRows: seq<Record>, officeIds: set<Value>,
                     fc: nat, fu: nat, rc: nat, ru: nat)
    requires i < |orgs|
    requires OrgsDone(orgsBefore, ob, officesBefore, fb, orgs[..i], seenOrgs, seenOffices,
                      orgsCreated, orgsUpdated, officesCreated, officesUpdated, ratesCreated, ratesUpdated)
    requires OrganizationStep(ob, oc, fb, fcRows, orgs[i], row, isNew, officeRows, officeIds, fc, fu, rc, ru)
    ensures OrgsDone(orgsBefore, oc, officesBefore, fcRows, orgs[..i + 1], seenOrgs + {IdOf(row)}, seenOffices + officeIds,
                     orgsCreated + (if isNew then 1 else 0), orgsUpdated + (if isNew then 0 else 1),
                     officesCreated + fc, officesUpdated + fu, ratesCreated + rc, ratesUpdated + ru)
  {
    OrgsDoneStep(orgsBefore, ob, oc, officesBefore, fb, fcRows, orgs, i, seenOrgs, seenOffices, orgsCreated, orgsUpdated,
                 officesCreated, officesUpdated, ratesCreated, ratesUpdated, row, isNew, officeRows, officeIds, fc, fu, rc, ru);
  }

  /** Two stretches of progress make one. */
  lemma ProgressChain(a: seq<Record>, b: seq<Record>, c: seq<Record>, ids: set<Value>, created: nat, more: set<Value>, created2: nat)
    requires Progress(a, b, ids, created) && Progress(b, c, more, created2)
    ensures Progress(a, c, ids + more, created + created2)
  {
    NoneReactivatedTrans(a, b, c);
  }

  /** `list(active_ids)`: the elements of the set in some order. */
  method ListOf(s: set<Value>) returns (l: seq<Value>)
    ensures forall v :: v in l <==> v in s
    ensures l == [] <==> s == {}
  {
    l := [];
    var rest := s;
    while rest != {}
      invariant rest <= s
      invariant forall v :: v in l <==> v in s && v !in rest
      decreases rest
    {
      var v :| v in rest;
      l := l + [v];
      rest := rest - {v};
    }
    if s != {} {
      var v :| v in s;
      assert v in l;
    }
    if l != [] {
      assert l[0] in s;
    }
  }

  /** The lookup-then-write step the cycle does for each organization and each office: the row whose
      external_ref_id is `id` is looked up; when found it is updated with `data`, otherwise a row is
      created from `data` (active by default). An update leaves is_active and the primary key as they were. */
  method SaveByExternalRef(t: Table, id: string, data: Record, now: int) returns (existing: Option<Record>, row: Record, created: bool)
    requires t.Valid() && ExternalRefId in t.schema && t.defaults == BaseDefaults
    requires data.Keys <= t.schema && Id !in data && IsActive !in data
    requires ExternalRefId in data && data[ExternalRefId] == VStr(id)
    modifies t
    ensures t.Valid()
    ensures existing == old(t.FindOneBy(ExtKey(id))) && (created <==> existing.None?)
    ensures created <==> VStr(id) !in Image(old(t.rows), ExtRefOf)
    ensures |t.rows| == |old(t.rows)| + (if created then 1 else 0)
    ensures Image(t.rows, ExtRefOf) == Image(old(t.rows), ExtRefOf) + {VStr(id)}
    ensures Image(old(t.rows), IdOf) <= Image(t.rows, IdOf)
    ensures row in t.rows
    ensures forall f :: f in data ==> Col(row, f) == data[f]
    ensures created ==> IsActiveRow(row)
    ensures existing.Some? ==> Col(row, Id) == Col(existing.value, Id) && IsActiveRow(row) == IsActiveRow(existing.value)
    ensures NoneReactivated(old(t.rows), t.rows)
  {
    existing := t.FindOneBy(ExtKey(id));
    FindByExternalRef(t, id);
    if existing.Some? {
      row := t.Update(existing.value, data);
      created := false;
      AssignCols(existing.value, data, t.schema);
      assert VStr(id) in Image(old(t.rows), ExtRefOf);
      ReplaceKeepsImage(old(t.rows), t.rows, existing.value, row, ExtRefOf);
      ReplaceKeepsImage(old(t.rows), t.rows, existing.value, row, IdOf);
    } else {
      BuildCols(t, data, t.nextId, now);
      row := t.Create(data, now);
      created := true;
      AppendImage(old(t.rows), row, ExtRefOf);
      AppendImage(old(t.rows), row, IdOf);
    }
  }

  /** A stored row holds only columns of its model. */
  lemma StoredKeys(t: Table, x: Record)
    requires t.Valid() && x in t.rows
    ensures x.Keys <= t.schema
  {
    var k :| 0 <= k < |t.rows| && t.rows[k] == x;
    assert RowOk(t.rows[k], t.schema, t.nextId);
  }

  lemma RateDictKeys(officeId: Value, currency: string, rate: OfficeRate)
    ensures Id !in RateDict(officeId, currency, rate)
    ensures RateRepository.OfficeCurrencyKey(RateDict(officeId, currency, rate)) == map[OfficeId := officeId, Currency := VStr(currency)]
    ensures OfficeId in RateColumns && Currency in RateColumns && Other("_is_new") !in RateColumns
  {
  }

  /** One rate entry upserted by (office, currency): the pair now has a stored rate, and the returned
      row holds only rate columns, so it carries no `_is_new`. */
  method SaveRate(t: Table, officeId: Value, currency: string, rate: OfficeRate, now: int) returns (r: Record)
    requires t.Valid() && RateRepository.IsRateTable(t)
    modifies t
    ensures t.Valid()
    ensures Image(t.rows, RateKeyOf) == Image(old(t.rows), RateKeyOf) + {(officeId, VStr(currency))}
    ensures !Truthy(Col(r, Other("_is_new")))
  {
    var data := RateDict(officeId, currency, rate);
    RateDictKeys(officeId, currency, rate);
    var key := RateRepository.OfficeCurrencyKey(data);
    ghost var existing := t.FindOneBy(key);
    r := RateRepository.Upsert(t, data, now);
    assert Col(r, OfficeId) == key[OfficeId] && Col(r, Currency) == key[Currency];
    if existing.Some? {
      assert Col(existing.value, OfficeId) == key[OfficeId] && Col(existing.value, Currency) == key[Currency];
      ReplaceKeepsImage(old(t.rows), t.rows, existing.value, r, RateKeyOf);
    } else {
      AppendImage(old(t.rows), r, RateKeyOf);
      assert r == t.rows[|t.rows| - 1];
    }
    StoredKeys(t, r);
  }

  /** The rates of one office, each entry upserted once. A rate counts as created only when the returned
      row carries a truthy `_is_new`, which no stored rate has, so every entry counts as updated.
      Afterwards every (office, currency) pair of the entries has a stored rate. */
  method SaveRates(t: Table, officeId: Value, entries: seq<(string, OfficeRate)>, now: int) returns (created: nat, updated: nat)
    requires t.Valid() && RateRepository.IsRateTable(t)
    modifies t
    ensures t.Valid()
    ensures created == 0 && updated == |entries|
    ensures Image(t.rows, RateKeyOf) == Image(old(t.rows), RateKeyOf) + set e | e in entries :: (officeId, VStr(e.0))
  {
    created, updated := 0, 0;
    var i := 0;
    while i < |entries|
      invariant 0 <= i <= |entries|
      invariant t.Valid()
      invariant created == 0 && updated == i
      invariant Image(t.rows, RateKeyOf) == Image(old(t.rows), RateKeyOf) + set e | e in entries[..i] :: (officeId, VStr(e.0))
    {
      var (currency, rate) := entries[i];
      var r := SaveRate(t, officeId, currency, rate, now);
      if Truthy(Col(r, Other("_is_new"))) {
        // the rate repository never sets `_is_new`, so rates_created is never incremented
        assert false;
      } else {
        updated := updated + 1;
      }
      assert entries[..i + 1] == entries[..i] + [entries[i]];
      i := i + 1;
    }
    assert entries[..i] == entries;
  }

  // ----- the map phase -----

  /** The dict `_process_map_data` writes into a stored office. */
  function CoordinateDict(office: MapOffice): Record
  {
    map[Lat := VReal(office.latitude), Lng := VReal(office.longitude)]
  }

  /** Writing the coordinates sets latitude and longitude and leaves the external id, the primary
      key and the activity of the office as they were. */
  lemma CoordinatesAssigned(row: Record, office: MapOffice)
    ensures var r := Assign(row, CoordinateDict(office), OfficeColumns);
            Col(r, Lat) == VReal(office.latitude) && Col(r, Lng) == VReal(office.longitude)
            && ExtRefOf(r) == ExtRefOf(row) && IdOf(r) == IdOf(row) && IsActiveRow(r) == IsActiveRow(row)
  {
    var data := CoordinateDict(office);
    AssignCols(row, data, OfficeColumns);
    assert Lat in data && Lng in data && Lat in OfficeColumns && Lng in OfficeColumns;
    assert ExternalRefId !in data && Id !in data && IsActive !in data;
  }

  /** How many offices of the map response are stored (matched by external id): `offices_updated`. */
  function KnownCount(list: seq<MapOffice>, known: set<Value>): (n: nat)
    ensures n <= |list|
    decreases |list|
  {
    if list == [] then 0
    else KnownCount(list[..|list| - 1], known) + (if VStr(list[|list| - 1].id) in known then 1 else 0)
  }

  /** What one office adds to `schedules_created`: nothing unless it is stored and its schedule is
      non-empty, otherwise one schedule per parsed row, and None when the schedule does not parse. */
  function OfficeSchedules(office: MapOffice, known: set<Value>): Option<nat>
  {
    if VStr(office.id) !in known || office.schedule == [] then Some(0)
    else match ScheduleRows(office.schedule)
      case None => None
      case Some(rows) => Some(|rows|)
  }

  /** `schedules_created` of a whole pass, or None when the pass stops at a schedule that does not parse. */
  function ScheduleTotal(list: seq<MapOffice>, known: set<Value>): Option<nat>
    decreases |list|
  {
    if list == [] then Some(0)
    else AddCount(ScheduleTotal(list[..|list| - 1], known), OfficeSchedules(list[|list| - 1], known))
  }

  /** The sum of two counts, None when either is. */
  function AddCount(a: Option<nat>, b: Option<nat>): Option<nat>
  {
    if a.Some? && b.Some? then Some(a.value + b.value) else None
  }

  /** The pass fails exactly when some stored office of the response has a non-empty schedule that
      does not parse. */
  lemma {:induction false} ScheduleTotalFails(list: seq<MapOffice>, known: set<Value>)
    ensures ScheduleTotal(list, known).None? <==>
              exists j :: 0 <= j < |list| && VStr(list[j].id) in known && list[j].schedule != []
                          && ScheduleRows(list[j].schedule).None?
    decreases |list|
  {
    if list != [] {
      var init := list[..|list| - 1];
      ScheduleTotalFails(init, known);
      if ScheduleTotal(init, known).None? {
        var j :| 0 <= j < |init| && VStr(init[j].id) in known && init[j].schedule != [] && ScheduleRows(init[j].schedule).None?;
        assert list[j] == init[j];
      }
      if ScheduleTotal(list, known).None? && ScheduleTotal(init, known).Some? {
        assert OfficeSchedules(list[|list| - 1], known).None?;
      }
      forall j | 0 <= j < |list| && VStr(list[j].id) in known && list[j].schedule != [] && ScheduleRows(list[j].schedule).None?
        ensures ScheduleTotal(list, known).None?
      {
        if j < |init| {
          assert init[j] == list[j];
        }
      }
    }
  }

  /** A response whose offices are all stored updates every one of them; one listing none updates none
      and creates no schedule. */
  lemma {:induction false} KnownCountBounds(list: seq<MapOffice>, known: set<Value>)
    ensures (forall j :: 0 <= j < |list| ==> VStr(list[j].id) in known) ==> KnownCount(list, known) == |list|
    ensures (forall j :: 0 <= j < |list| ==> VStr(list[j].id) !in known) ==>
              KnownCount(list, known) == 0 && ScheduleTotal(list, known) == Some(0)
    decreases |list|
  {
    if list != [] {
      var init := list[..|list| - 1];
      KnownCountBounds(init, known);
      assert forall j :: 0 <= j < |init| ==> init[j] == list[j];
    }
  }

  lemma KnownStepMap(list: seq<MapOffice>, j: nat, known: set<Value>)
    requires j < |list|
    ensures KnownCount(list[..j + 1], known) == KnownCount(list[..j], known) + (if VStr(list[j].id) in known then 1 else 0)
    ensures ScheduleTotal(list[..j + 1], known) == AddCount(ScheduleTotal(list[..j], known), OfficeSchedules(list[j], known))
  {
    assert list[..j + 1][..j] == list[..j];
  }

  /** Once the pass has failed on a prefix it has failed on the whole response. */
  lemma {:induction false} ScheduleTotalFailsLater(list: seq<MapOffice>, j: nat, known: set<Value>)
    requires j <= |list| && ScheduleTotal(list[..j], known).None?
    ensures ScheduleTotal(list, known).None?
    decreases |list| - j
  {
    if j < |list| {
      KnownStepMap(list, j, known);
      ScheduleTotalFailsLater(list, j + 1, known);
    } else {
      assert list[..j] == list;
    }
  }

  /** Two versions of the office table agree on every row's external id, primary key and activeness. */
  ghost predicate SameShape(a: seq<Record>, b: seq<Record>)
  {
    |a| == |b| && forall k :: 0 <= k < |a| ==> ExtRefOf(b[k]) == ExtRefOf(a[k]) && IdOf(b[k]) == IdOf(a[k])
                                                && IsActiveRow(b[k]) == IsActiveRow(a[k])
  }

  lemma SameShapeImages(a: seq<Record>, b: seq<Record>)
    requires SameShape(a, b)
    ensures Image(b, ExtRefOf) == Image(a, ExtRefOf) && Image(b, IdOf) == Image(a, IdOf)
    ensures NoneReactivated(a, b)
  {
    forall v | v in Image(b, ExtRefOf) ensures v in Image(a, ExtRefOf) {
      var x :| x in b && ExtRefOf(x) == v;
      var k :| 0 <= k < |b| && b[k] == x;
      assert ExtRefOf(a[k]) == v;
    }
    forall v | v in Image(a, ExtRefOf) ensures v in Image(b, ExtRefOf) {
      var x :| x in a && ExtRefOf(x) == v;
      var k :| 0 <= k < |a| && a[k] == x;
      assert ExtRefOf(b[k]) == v;
    }
    forall v | v in Image(b, IdOf) ensures v in Image(a, IdOf) {
      var x :| x in b && IdOf(x) == v;
      var k :| 0 <= k < |b| && b[k] == x;
      assert IdOf(a[k]) == v;
    }
    forall v | v in Image(a, IdOf) ensures v in Image(b, IdOf) {
      var x :| x in a && IdOf(x) == v;
      var k :| 0 <= k < |a| && a[k] == x;
      assert IdOf(b[k]) == v;
    }
  }

  lemma SameShapeTrans(a: seq<Record>, b: seq<Record>, c: seq<Record>)
    requires SameShape(a, b) && SameShape(b, c)
    ensures SameShape(a, c)
  {
  }

  /** The first office stored under this external id carries the coordinates of `office`. */
  predicate Placed(rows: seq<Record>, office: MapOffice)
  {
    var found := FirstMatch(rows, ExtKey(office.id), OfficeColumns);
    found.Some? && Col(found.value, Lat) == VReal(office.latitude) && Col(found.value, Lng) == VReal(office.longitude)
  }

  /** Every occurrence of `row` replaced by `r`. */
  ghost predicate ReplacedBy(a: seq<Record>, b: seq<Record>, row: Record, r: Record)
  {
    |b| == |a| && forall k :: 0 <= k < |b| ==> b[k] == if a[k] == row then r else a[k]
  }

  /** Replacing the row a lookup finds by one that still matches moves the lookup to it; replacing a
      row the lookup does not match by another it does not match leaves the lookup as it was. */
  lemma {:induction false} FirstMatchReplace(a: seq<Record>, b: seq<Record>, row: Record, r: Record, criteria: Record, schema: set<Field>)
    requires ReplacedBy(a, b, row, r)
    ensures FirstMatch(a, criteria, schema) == Some(row) && Matches(r, criteria, schema) ==> FirstMatch(b, criteria, schema) == Some(r)
    ensures !Matches(row, criteria, schema) && !Matches(r, criteria, schema) ==> FirstMatch(b, criteria, schema) == FirstMatch(a, criteria, schema)
    decreases |a|
  {
    if a != [] {
      assert ReplacedBy(a[1..], b[1..], row, r) by {
        forall k | 0 <= k < |b| - 1 ensures b[1..][k] == if a[1..][k] == row then r else a[1..][k] {
          assert b[k + 1] == if a[k + 1] == row then r else a[k + 1];
        }
      }
      FirstMatchReplace(a[1..], b[1..], row, r, criteria, schema);
      assert b[0] == if a[0] == row then r else a[0];
    }
  }

  /** The first row under an external id, looked up in the office table. */
  lemma ExtKeyMatches(x: Record, id: string)
    ensures Matches(x, ExtKey(id), OfficeColumns) <==> ExtRefOf(x) == VStr(id)
  {
    assert ExternalRefId in ExtKey(id) && ExternalRefId in OfficeColumns;
  }

  /** The rows stored for an office hold the parsed schedule rows, in order. */
  predicate HoldsSchedule(x: Record, row: ScheduleRow, officeId: Value)
  {
    Col(x, Day) == VInt(row.day) && Col(x, OpensAt) == VInt(row.opensAt) && Col(x, ClosesAt) == VInt(row.closesAt)
    && Col(x, OfficeId) == officeId && IsActiveRow(x)
  }

  /** The schedules of an office after `delete_by_office_id` followed by creating the parsed rows:
      one per row in order, or none when the schedule does not parse. */
  predicate SchedulesFrom(got: seq<Record>, parsed: Option<seq<ScheduleRow>>, officeId: Value)
  {
    match parsed
    case None => got == []
    case Some(rows) => |got| == |rows| && forall k :: 0 <= k < |rows| ==> HoldsSchedule(got[k], rows[k], officeId)
  }

  /** A schedule created from a parsed row holds it and is active. */
  lemma BuiltSchedule(x: Record, row: ScheduleRow, officeId: Value)
    requires Matches(x, BaseDefaults + ScheduleDict(row, officeId), ScheduleColumns)
    ensures HoldsSchedule(x, row, officeId)
  {
    var d := BaseDefaults + ScheduleDict(row, officeId);
    assert Day in d && OpensAt in d && ClosesAt in d && OfficeId in d && IsActive in d;
    assert Day in ScheduleColumns && OpensAt in ScheduleColumns && ClosesAt in ScheduleColumns
           && OfficeId in ScheduleColumns && IsActive in ScheduleColumns;
  }

  /** `create_many` of one Schedule per parsed row of an office: each created schedule holds its row. */
  method CreateSchedules(t: Table, rows: seq<ScheduleRow>, officeId: Value, now: int) returns (created: seq<Record>)
    requires t.Valid() && ScheduleRepository.IsScheduleTable(t)
    modifies t
    ensures t.Valid() && t.rows == old(t.rows) + created
    ensures |created| == |rows| && forall k :: 0 <= k < |rows| ==> HoldsSchedule(created[k], rows[k], officeId)
  {
    var dicts := ScheduleDicts(rows, officeId);
    created := ScheduleRepository.CreateMany(t, dicts, now);
    forall k | 0 <= k < |rows| ensures HoldsSchedule(created[k], rows[k], officeId) {
      assert dicts[k] == ScheduleDict(rows[k], officeId);
      BuiltSchedule(created[k], rows[k], officeId);
    }
  }

  /** Replacing a row by one with the same external id, primary key and activity keeps the shape. */
  lemma ReplacedShape(a: seq<Record>, b: seq<Record>, row: Record, r: Record)
    requires ReplacedBy(a, b, row, r)
    requires ExtRefOf(r) == ExtRefOf(row) && IdOf(r) == IdOf(row) && IsActiveRow(r) == IsActiveRow(row)
    ensures SameShape(a, b)
  {
  }

  /** The office part of one `_process_map_data` step: the first office stored under the map
      office's external id, if any, gets its coordinates; nothing else changes. */
  method PlaceOffice(t: Table, office: MapOffice) returns (found: bool, id: Value, ghost row: Record, ghost r: Record)
    requires t.Valid() && OfficeRepository.IsOfficeTable(t)
    modifies t
    ensures t.Valid()
    ensures found <==> VStr(office.id) in Image(old(t.rows), ExtRefOf)
    ensures SameShape(old(t.rows), t.rows)
    ensures !found ==> t.rows == old(t.rows)
    ensures found ==> ReplacedBy(old(t.rows), t.rows, row, r) && ExtRefOf(row) == VStr(office.id)
                      && ExtRefOf(r) == VStr(office.id) && IdOf(r) == IdOf(row) == id && Placed(t.rows, office)
  {
    FindByExternalRef(t, office.id);
    var existing := t.FindOneBy(ExtKey(office.id));
    if existing.None? {
      found, id, row, r := false, VNone, map[], map[];
      return;
    }
    var stored := existing.value;
    var data := CoordinateDict(office);
    var updated := t.Update(stored, data);
    found, id, row, r := true, IdOf(updated), stored, updated;
    CoordinatesAssigned(row, office);
    ReplacedShape(old(t.rows), t.rows, row, r);
    ExtKeyMatches(row, office.id);
    ExtKeyMatches(r, office.id);
    FirstMatchReplace(old(t.rows), t.rows, row, r, ExtKey(office.id), OfficeColumns);
  }

  /** The counts of the map pass over `list` so far, with `known` the external ids stored before it:
      the offices met that are stored, and the schedules created. */
  ghost predicate MapCounted(known: set<Value>, list: seq<MapOffice>, updated: nat, created: nat)
  {
    updated == KnownCount(list, known) && ScheduleTotal(list, known) == Some(created)
  }

  /** What the map pass over `list` has done to the office table so far: its shape kept, and the
      coordinates of the last listing of every stored office in place. */
  ghost predicate MapPlaced(before: seq<Record>, after: seq<Record>, known: set<Value>, list: seq<MapOffice>)
  {
    SameShape(before, after) && AllPlaced(known, after, list)
  }

  /** Every office of `list` whose external id is `known` carries, in `rows`, the coordinates of its last listing. */
  ghost predicate AllPlaced(known: set<Value>, rows: seq<Record>, list: seq<MapOffice>)
  {
    forall j :: 0 <= j < |list| && VStr(list[j].id) in known && LastListing(list, j) ==> Placed(rows, list[j])
  }

  /** No later entry of the response lists the same office. */
  predicate LastListing(list: seq<MapOffice>, j: nat)
    requires j < |list|
  {
    forall i :: j < i < |list| ==> list[i].id != list[j].id
  }

  lemma PlacedStep(known: set<Value>, b: seq<Record>, c: seq<Record>, list: seq<MapOffice>, j: nat, row: Record, r: Record)
    requires j < |list|
    requires AllPlaced(known, b, list[..j])
    requires VStr(list[j].id) in known ==>
               (ReplacedBy(b, c, row, r) && ExtRefOf(row) == VStr(list[j].id) && ExtRefOf(r) == VStr(list[j].id) && Placed(c, list[j]))
    requires VStr(list[j].id) !in known ==> c == b
    ensures AllPlaced(known, c, list[..j + 1])
  {
    var list' := list[..j + 1];
    forall i | 0 <= i < j + 1 && VStr(list[i].id) in known && LastListing(list', i)
      ensures Placed(c, list[i])
    {
      if i < j {
        assert list'[j] == list[j] && list'[i] == list[i];
        assert list[j].id != list[i].id;
        assert LastListing(list[..j], i) by {
          forall i' | i < i' < j ensures list[..j][i'].id != list[..j][i].id {
            assert list'[i'] == list[i'];
          }
        }
        if VStr(list[j].id) in known {
          ExtKeyMatches(row, list[i].id);
          ExtKeyMatches(r, list[i].id);
          FirstMatchReplace(b, c, row, r, ExtKey(list[i].id), OfficeColumns);
        }
      }
    }
  }

  lemma MapCountedStart(known: set<Value>, list: seq<MapOffice>)
    ensures MapCounted(known, list[..0], 0, 0)
  {
    assert list[..0] == [];
  }

  /** One more office of the map pass: its count and schedules are added, or, when its schedule
      does not parse, the pass has failed. */
  lemma MapCountedNext(known: set<Value>, list: seq<MapOffice>, j: nat, updated: nat, created: nat, found: bool, added: Option<nat>,
                       updated': nat, created': nat)
    requires j < |list| && MapCounted(known, list[..j], updated, created)
    requires found <==> VStr(list[j].id) in known
    requires added == if found then OfficeSchedules(list[j], known) else Some(0)
    requires updated' == (if found then updated + 1 else updated) && (added.Some? ==> created' == created + added.value)
    ensures added.None? <==> ScheduleTotal(list[..j + 1], known).None?
    ensures added.Some? ==> MapCounted(known, list[..j + 1], updated', created')
  {
    KnownStepMap(list, j, known);
  }

  /** One more office of the map pass: the table keeps its shape and the office, when stored, carries
      its coordinates. */
  lemma MapPlacedNext(before: seq<Record>, b: seq<Record>, c: seq<Record>, known: set<Value>, list: seq<MapOffice>, j: nat,
                      found: bool, row: Record, r: Record)
    requires j < |list| && known == Image(before, ExtRefOf)
    requires MapPlaced(before, b, known, list[..j])
    requires found <==> VStr(list[j].id) in Image(b, ExtRefOf)
    requires SameShape(b, c)
    requires !found ==> c == b
    requires found ==> ReplacedBy(b, c, row, r) && ExtRefOf(row) == VStr(list[j].id)
                       && ExtRefOf(r) == VStr(list[j].id) && Placed(c, list[j])
    ensures Image(b, ExtRefOf) == known
    ensures MapPlaced(before, c, known, list[..j + 1])
  {
    SameShapeImages(before, b);
    SameShapeTrans(before, b, c);
    PlacedStep(known, b, c, list, j, row, r);
  }

  class SyncService {
    const organizations: Table
    const offices: Table
    const rates: Table
    const schedules: Table

    ghost predicate Valid()
      reads this, organizations, offices, rates, schedules
    {
      organizations != offices && organizations != rates && organizations != schedules
      && offices != rates && offices != schedules && rates != schedules
      && organizations.Valid() && OrganizationRepository.IsOrganizationTable(organizations)
      && offices.Valid() && OfficeRepository.IsOfficeTable(offices)
      && rates.Valid() && RateRepository.IsRateTable(rates)
      && schedules.Valid() && ScheduleRepository.IsScheduleTable(schedules)
    }

    constructor (organizations: Table, offices: Table, rates: Table, schedules: Table)
      requires organizations != offices && organizations != rates && organizations != schedules
      requires offices != rates && offices != schedules && rates != schedules
      requires organizations.Valid() && OrganizationRepository.IsOrganizationTable(organizations)
      requires offices.Valid() && OfficeRepository.IsOfficeTable(offices)
      requires rates.Valid() && RateRepository.IsRateTable(rates)
      requires schedules.Valid() && ScheduleRepository.IsScheduleTable(schedules)
      ensures Valid()
      ensures this.organizations == organizations && this.offices == offices
      ensures this.rates == rates && this.schedules == schedules
    {
      this.organizations := organizations;
      this.offices := offices;
      this.rates := rates;
      this.schedules := schedules;
    }

    /** One office listed under the organization with primary key `orgId`: saved by external_ref_id
        with that organization and coordinates 0.0, then each of its rate entries upserted once. */
    method ProcessOffice(orgId: Value, office: OfficeData, now: int) returns (row: Record, created: bool, ratesCreated: nat, ratesUpdated: nat)
      requires Valid()
      modifies offices, rates
      ensures Valid()
      ensures OfficeStep(old(offices.rows), offices.rows, office, orgId, row, created, ratesCreated, ratesUpdated)
    {
      var data := OfficeDict(office, orgId);
      OfficeDictKeys(office, orgId);
      var _, saved, isNew := SaveByExternalRef(offices, office.id, data, now);
      row, created := saved, isNew;
      OfficeSaved(row, office, orgId);
      assert IdOf(row) in Image(offices.rows, IdOf);
      ratesCreated, ratesUpdated := SaveRates(rates, Col(row, Id), office.rates, now);
    }

    /** One pass of that loop: office `j` processed, the tallies moved on. */
    method ProcessNextOffice(ghost before: seq<Record>, orgId: Value, list: seq<OfficeData>, j: nat,
                             saved: seq<Record>, seen: set<Value>, created: nat, updated: nat,
                             ratesCreated: nat, ratesUpdated: nat, now: int)
      returns (saved': seq<Record>, seen': set<Value>, created': nat, updated': nat, ratesCreated': nat, ratesUpdated': nat)
      requires Valid() && j < |list|
      requires OfficesDone(before, offices.rows, list[..j], orgId, saved, seen, created, updated, ratesCreated, ratesUpdated)
      modifies offices, rates
      ensures Valid()
      ensures OfficesDone(before, offices.rows, list[..j + 1], orgId, saved', seen', created', updated', ratesCreated', ratesUpdated')
    {
      ghost var mid := offices.rows;
      var row, isNew, c, u := ProcessOffice(orgId, list[j], now);
      created', updated' := created + (if isNew then 1 else 0), updated + (if isNew then 0 else 1);
      saved', seen' := saved + [row], seen + {IdOf(row)};
      ratesCreated', ratesUpdated' := ratesCreated + c, ratesUpdated + u;
      OfficesDoneNext(before, mid, offices.rows, list, j, orgId, saved, seen, created, updated,
                      ratesCreated, ratesUpdated, row, isNew, c, u,
                      saved', seen', created', updated', ratesCreated', ratesUpdated');
    }

    /** The offices listed under the organization with primary key `orgId`, in order (the inner loop of
        the cycle); see `OfficesDone` for what it leaves behind. */
    method ProcessOffices(orgId: Value, list: seq<OfficeData>, now: int)
      returns (saved: seq<Record>, seen: set<Value>, created: nat, updated: nat, ratesCreated: nat, ratesUpdated: nat)
      requires Valid()
      modifies offices, rates
      ensures Valid()
      ensures OfficesDone(old(offices.rows), offices.rows, list, orgId, saved, seen, created, updated, ratesCreated, ratesUpdated)
    {
      saved, seen, created, updated, ratesCreated, ratesUpdated := [], {}, 0, 0, 0, 0;
      assert list[..0] == [];
      var j := 0;
      while j < |list|
        invariant 0 <= j <= |list|
        invariant Valid()
        invariant OfficesDone(old(offices.rows), offices.rows, list[..j], orgId, saved, seen, created, updated, ratesCreated, ratesUpdated)
      {
        saved, seen, created, updated, ratesCreated, ratesUpdated
          := ProcessNextOffice(old(offices.rows), orgId, list, j, saved, seen, created, updated, ratesCreated, ratesUpdated, now);
        j := j + 1;
      }
      assert list[..j] == list;
    }

    /** One organization of the snapshot: saved by external_ref_id (updated when found, created
        otherwise), then its offices processed under its primary key. */
    method ProcessOrganization(org: OrganizationData, now: int)
      returns (row: Record, created: bool, officeRows: seq<Record>, officeIds: set<Value>,
               officesCreated: nat, officesUpdated: nat, ratesCreated: nat, ratesUpdated: nat)
      requires Valid()
      modifies organizations, offices, rates
      ensures Valid()
      ensures OrganizationStep(old(organizations.rows), organizations.rows, old(offices.rows), offices.rows, org, row, created,
                               officeRows, officeIds, officesCreated, officesUpdated, ratesCreated, ratesUpdated)
      ensures forall f :: f in OrganizationDict(org) ==> Col(row, f) == OrganizationDict(org)[f]
    {
      var data := OrganizationDict(org);
      OrganizationDictKeys(org);
      var _, saved, isNew := SaveByExternalRef(organizations, org.id, data, now);
      row, created := saved, isNew;
      assert IdOf(row) in Image(organizations.rows, IdOf);
      officeRows, officeIds, officesCreated, officesUpdated, ratesCreated, ratesUpdated := ProcessOffices(IdOf(row), org.offices, now);
    }

    /** One pass of that loop: organization `i` processed, the tallies moved on. */
    method ProcessNextOrganization(ghost orgsBefore: seq<Record>, ghost officesBefore: seq<Record>,
                                   orgs: seq<OrganizationData>, i: nat, seenOrgs: set<Value>, seenOffices: set<Value>,
                                   orgsCreated: nat, orgsUpdated: nat, officesCreated: nat, officesUpdated: nat,
                                   ratesCreated: nat, ratesUpdated: nat, now: int)
      returns (seenOrgs': set<Value>, seenOffices': set<Value>, orgsCreated': nat, orgsUpdated': nat,
               officesCreated': nat, officesUpdated': nat, ratesCreated': nat, ratesUpdated': nat)
      requires Valid() && i < |orgs|
      requires OrgsDone(orgsBefore, organizations.rows, officesBefore, offices.rows, orgs[..i], seenOrgs, seenOffices,
                        orgsCreated, orgsUpdated, officesCreated, officesUpdated, ratesCreated, ratesUpdated)
      modifies organizations, offices, rates
      ensures Valid()
      ensures OrgsDone(orgsBefore, organizations.rows, officesBefore, offices.rows, orgs[..i + 1], seenOrgs', seenOffices',
                       orgsCreated', orgsUpdated', officesCreated', officesUpdated', ratesCreated', ratesUpdated')
    {
      ghost var orgsMid, officesMid := organizations.rows, offices.rows;
      var row, isNew, officeRows, officeIds, fc, fu, rc, ru := ProcessOrganization(orgs[i], now);
      orgsCreated', orgsUpdated' := orgsCreated + (if isNew then 1 else 0), orgsUpdated + (if isNew then 0 else 1);
      seenOrgs', seenOffices' := seenOrgs + {IdOf(row)}, seenOffices + officeIds;
      officesCreated', officesUpdated' := officesCreated + fc, officesUpdated + fu;
      ratesCreated', ratesUpdated' := ratesCreated + rc, ratesUpdated + ru;
      OrgsDoneNext(orgsBefore, orgsMid, organizations.rows, officesBefore, officesMid, offices.rows,
                   orgs, i, seenOrgs, seenOffices, orgsCreated, orgsUpdated, officesCreated, officesUpdated,
                   ratesCreated, ratesUpdated, row, isNew, officeRows, officeIds, fc, fu, rc, ru);
    }

    /** The loop of `_process_organizations_and_offices` over the organizations of the snapshot. */
    method ProcessOrganizations(orgs: seq<OrganizationData>, now: int)
      returns (activeOrgIds: set<Value>, activeOfficeIds: set<Value>, orgsCreated: nat, orgsUpdated: nat,
               officesCreated: nat, officesUpdated: nat, ratesCreated: nat, ratesUpdated: nat)
      requires Valid()
      modifies organizations, offices, rates
      ensures Valid()
      ensures OrgsDone(old(organizations.rows), organizations.rows, old(offices.rows), offices.rows, orgs,
                       activeOrgIds, activeOfficeIds, orgsCreated, orgsUpdated, officesCreated, officesUpdated,
                       ratesCreated, ratesUpdated)
    {
      orgsCreated, orgsUpdated, officesCreated, officesUpdated, ratesCreated, ratesUpdated := 0, 0, 0, 0, 0, 0;
      activeOrgIds, activeOfficeIds := {}, {};
      assert orgs[..0] == [];
      var i := 0;
      while i < |orgs|
        invariant 0 <= i <= |orgs|
        invariant Valid()
        invariant OrgsDone(old(organizations.rows), organizations.rows, old(offices.rows), offices.rows, orgs[..i],
                           activeOrgIds, activeOfficeIds, orgsCreated, orgsUpdated, officesCreated, officesUpdated,
                           ratesCreated, ratesUpdated)
      {
        activeOrgIds, activeOfficeIds, orgsCreated, orgsUpdated, officesCreated, officesUpdated, ratesCreated, ratesUpdated
          := ProcessNextOrganization(old(organizations.rows), old(offices.rows), orgs, i, activeOrgIds, activeOfficeIds,
                                     orgsCreated, orgsUpdated, officesCreated, officesUpdated, ratesCreated, ratesUpdated, now);
        i := i + 1;
      }
      assert orgs[..i] == orgs;
    }

    /** `_process_organizations_and_offices`: every organization of the snapshot in order, then the
        deactivation of every active organization and office not seen, each only when something was seen.
        The organization count of that pass is discarded; the office count is `offices_deactivated`. */
    method ProcessOrganizationsAndOffices(data: ExchangeResponse, now: int)
      returns (stats: OrgStats, ghost seenOrgs: set<Value>, ghost seenOffices: set<Value>,
               ghost officeIdList: seq<Value>, ghost officesBefore: seq<Record>)
      requires Valid()
      modifies organizations, offices, rates
      ensures Valid()
      ensures var orgs := data.organizations;
              && stats.organizationsCreated + stats.organizationsUpdated == |orgs|
              && stats.officesCreated + stats.officesUpdated == OfficeCount(orgs)
              && stats.ratesCreated == 0 && stats.ratesUpdated == RateCount(orgs)
      ensures |organizations.rows| == |old(organizations.rows)| + stats.organizationsCreated
      ensures |offices.rows| == |old(offices.rows)| + stats.officesCreated
      ensures Image(organizations.rows, ExtRefOf) == Image(old(organizations.rows), ExtRefOf) + OrgIds(data.organizations)
      ensures Image(offices.rows, ExtRefOf) == Image(old(offices.rows), ExtRefOf) + AllOfficeIds(data.organizations)
      ensures OrgIds(data.organizations) <= Image(old(organizations.rows), ExtRefOf) ==> stats.organizationsCreated == 0
      ensures AllOfficeIds(data.organizations) <= Image(old(offices.rows), ExtRefOf) ==> stats.officesCreated == 0
      ensures NoneReactivated(old(organizations.rows), organizations.rows) && NoneReactivated(old(offices.rows), offices.rows)
      ensures seenOrgs <= Image(organizations.rows, IdOf) && (seenOrgs == {} <==> data.organizations == [])
      ensures seenOffices <= Image(offices.rows, IdOf) && (seenOffices == {} <==> OfficeCount(data.organizations) == 0)
      ensures seenOrgs != {} ==> forall x :: x in organizations.rows && IsActiveRow(x) ==> Col(x, Id) in seenOrgs
      ensures seenOffices != {} ==> forall x :: x in offices.rows && IsActiveRow(x) ==> Col(x, Id) in seenOffices
      ensures forall v :: v in officeIdList <==> v in seenOffices
      ensures seenOffices == {} ==> offices.rows == officesBefore && stats.officesDeactivated == 0
      ensures seenOffices != {} ==> offices.rows == SoftDeleted(officesBefore, officeIdList, now)
                                    && stats.officesDeactivated == StaleCount(officesBefore, officeIdList)
    {
      var activeOrgIds, activeOfficeIds, orgsCreated, orgsUpdated, officesCreated, officesUpdated, ratesCreated, ratesUpdated
        := ProcessOrganizations(data.organizations, now);
      seenOrgs, seenOffices := activeOrgIds, activeOfficeIds;

      ghost var orgsBefore := organizations.rows;
      if activeOrgIds != {} {
        var ids := ListOf(activeOrgIds);
        var _ := OrganizationRepository.MarkInactiveIfNotInList(organizations, ids, now);
        SoftDeletedKeepsImages(orgsBefore, ids, now);
        SoftDeletedNoneReactivated(orgsBefore, ids, now);
        NoneReactivatedTrans(old(organizations.rows), orgsBefore, organizations.rows);
        ActiveAreListed(orgsBefore, ids, now);
      }

      officesBefore, officeIdList := offices.rows, [];
      var deactivated := 0;
      if activeOfficeIds != {} {
        var ids := ListOf(activeOfficeIds);
        deactivated := OfficeRepository.MarkInactiveIfNotInList(offices, ids, now);
        SoftDeletedKeepsImages(officesBefore, ids, now);
        SoftDeletedNoneReactivated(officesBefore, ids, now);
        NoneReactivatedTrans(old(offices.rows), officesBefore, offices.rows);
        ActiveAreListed(officesBefore, ids, now);
        officeIdList := ids;
      }
      stats := OrgStats(orgsCreated, orgsUpdated, officesCreated, officesUpdated, deactivated, ratesCreated, ratesUpdated);
    }

    /** The schedule part of `_process_map_data` for a stored office: its schedules are deleted, the
        entries parsed, and one schedule created per parsed row. When the entries do not parse the
        deletion has already been committed, so the office is left with none (and the pass stops). */
    method ReplaceOfficeSchedules(officeId: Value, entries: seq<ScheduleEntry>, now: int) returns (count: Option<nat>)
      requires Valid()
      modifies schedules
      ensures Valid()
      ensures SchedulesFrom(ScheduleRepository.GetByOfficeId(schedules, officeId), ScheduleRows(entries), officeId)
      ensures count == if ScheduleRows(entries).Some? then Some(|ScheduleRows(entries).value|) else None
      ensures forall other :: other != officeId ==>
                ScheduleRepository.GetByOfficeId(schedules, other) == old(ScheduleRepository.GetByOfficeId(schedules, other))
    {
      ScheduleRepository.DeleteByOfficeId(schedules, officeId);
      var parsed := ParseSchedule(entries);
      if parsed.None? {
        return None;
      }
      ghost var mid := schedules.rows;
      var created := CreateSchedules(schedules, parsed.value, officeId, now);
      ScheduleRepository.ReplaceSchedules(old(schedules.rows), created, officeId);
      forall other | other != officeId
        ensures ScheduleRepository.GetByOfficeId(schedules, other) == old(ScheduleRepository.GetByOfficeId(schedules, other))
      {
        FilterConcat(mid, created, ColumnIs(OfficeId, other));
        FilterEmpty(created, ColumnIs(OfficeId, other));
      }
      count := Some(|created|);
    }

    /** One office of `_process_map_data`. An office that is not stored is skipped. The first office
        stored under its external id gets the map coordinates, and when its schedule is non-empty its
        schedules are replaced by the parsed rows; `created` is None when those do not parse. */
    method ProcessMapOffice(office: MapOffice, now: int) returns (found: bool, created: Option<nat>, ghost row: Record, ghost r: Record)
      requires Valid()
      modifies offices, schedules
      ensures Valid()
      ensures found <==> VStr(office.id) in Image(old(offices.rows), ExtRefOf)
      ensures SameShape(old(offices.rows), offices.rows)
      ensures created == if found then OfficeSchedules(office, Image(old(offices.rows), ExtRefOf)) else Some(0)
      ensures !found ==> offices.rows == old(offices.rows) && schedules.rows == old(schedules.rows)
      ensures found ==> ReplacedBy(old(offices.rows), offices.rows, row, r) && ExtRefOf(row) == VStr(office.id)
                        && ExtRefOf(r) == VStr(office.id) && IdOf(r) == IdOf(row) && Placed(offices.rows, office)
      ensures found && office.schedule == [] ==> schedules.rows == old(schedules.rows)
      ensures found && office.schedule != [] ==>
                SchedulesFrom(ScheduleRepository.GetByOfficeId(schedules, IdOf(r)), ScheduleRows(office.schedule), IdOf(r))
      ensures found ==> forall other :: other != IdOf(r) ==>
                ScheduleRepository.GetByOfficeId(schedules, other) == old(ScheduleRepository.GetByOfficeId(schedules, other))
    {
      var id;
      found, id, row, r := PlaceOffice(offices, office);
      if !found || office.schedule == [] {
        created := Some(0);
        return;
      }
      created := ReplaceOfficeSchedules(id, office.schedule, now);
    }

    /** Office `i` of the map response, on top of what the pass over the offices before it has done;
        `failed` when its schedule does not parse. */
    method ProcessNextMapOffice(ghost start: seq<Record>, ghost known: set<Value>, list: seq<MapOffice>, i: nat,
                                updated: nat, created: nat, now: int)
      returns (failed: bool, updated': nat, created': nat)
      requires Valid() && i < |list| && known == Image(start, ExtRefOf)
      requires MapCounted(known, list[..i], updated, created)
      requires MapPlaced(start, offices.rows, known, list[..i])
      modifies offices, schedules
      ensures Valid()
      ensures SameShape(start, offices.rows)
      ensures failed <==> ScheduleTotal(list[..i + 1], known).None?
      ensures !failed ==> MapCounted(known, list[..i + 1], updated', created')
      ensures !failed ==> MapPlaced(start, offices.rows, known, list[..i + 1])
    {
      ghost var before := offices.rows;
      var found, added, row, r := ProcessMapOffice(list[i], now);
      MapPlacedNext(start, before, offices.rows, known, list, i, found, row, r);
      failed, updated' := added.None?, if found then updated + 1 else updated;
      created' := if added.Some? then created + added.value else created;
      MapCountedNext(known, list, i, updated, created, found, added, updated', created');
    }

    /** `_process_map_data`: each office of the map response, in order. The result is None when a
        schedule does not parse; the offices processed before it keep their changes. Otherwise it
        counts the stored offices met and the schedules created. */
    method ProcessMapData(mapData: MapResponse, now: int) returns (stats: Option<MapStats>)
      requires Valid()
      modifies offices, schedules
      ensures Valid()
      ensures SameShape(old(offices.rows), offices.rows)
      ensures stats.None? <==> ScheduleTotal(mapData.offices, Image(old(offices.rows), ExtRefOf)).None?
      ensures stats.Some? ==> stats.value == MapStats(KnownCount(mapData.offices, Image(old(offices.rows), ExtRefOf)),
                                                      ScheduleTotal(mapData.offices, Image(old(offices.rows), ExtRefOf)).value, 0)
      ensures stats.Some? ==> AllPlaced(Image(old(offices.rows), ExtRefOf), offices.rows, mapData.offices)
    {
      var list := mapData.offices;
      var updated, created := 0, 0;
      ghost var known := Image(offices.rows, ExtRefOf);
      MapCountedStart(known, list);
      assert list[..0] == [];
      var i := 0;
      while i < |list|
        invariant 0 <= i <= |list|
        invariant Valid()
        invariant MapCounted(known, list[..i], updated, created)
        invariant MapPlaced(old(offices.rows), offices.rows, known, list[..i])
      {
        var failed;
        failed, updated, created := ProcessNextMapOffice(old(offices.rows), known, list, i, updated, created, now);
        if failed {
          ScheduleTotalFailsLater(list, i + 1, known);
          return None;
        }
        i := i + 1;
      }
      assert list[..i] == list;
      stats := Some(MapStats(updated, created, 0));
    }

    /** `sync_data`, with the two fetched responses as inputs (None when a fetch raised): the exchange
        snapshot is processed, then the map snapshot, and the two statistics dicts are merged. The
        result is None when either fetch failed or a schedule does not parse; what the organization
        phase wrote stays written. */
    method SyncData(exchange: Option<ExchangeResponse>, mapData: Option<MapResponse>, now: int) returns (stats: Option<SyncStats>)
      requires Valid()
      modifies organizations, offices, rates, schedules
      ensures Valid()
      ensures exchange.None? ==> stats.None? && organizations.rows == old(organizations.rows) && offices.rows == old(offices.rows)
                                 && rates.rows == old(rates.rows) && schedules.rows == old(schedules.rows)
      ensures exchange.Some? ==>
                Image(organizations.rows, ExtRefOf) == Image(old(organizations.rows), ExtRefOf) + OrgIds(exchange.value.organizations)
                && Image(offices.rows, ExtRefOf) == Image(old(offices.rows), ExtRefOf) + AllOfficeIds(exchange.value.organizations)
      ensures stats.Some? <==> exchange.Some? && mapData.Some?
                               && ScheduleTotal(mapData.value.offices, Image(old(offices.rows), ExtRefOf)
                                                                       + AllOfficeIds(exchange.value.organizations)).Some?
      ensures stats.Some? ==>
                var orgs, list := exchange.value.organizations, mapData.value.offices;
                var known := Image(old(offices.rows), ExtRefOf) + AllOfficeIds(orgs);
                && stats.value.organizationsCreated + stats.value.organizationsUpdated == |orgs|
                && |organizations.rows| == |old(organizations.rows)| + stats.value.organizationsCreated
                && |offices.rows| == |old(offices.rows)| + stats.value.officesCreated
                && (OrgIds(orgs) <= Image(old(organizations.rows), ExtRefOf) ==> stats.value.organizationsCreated == 0)
                && (AllOfficeIds(orgs) <= Image(old(offices.rows), ExtRefOf) ==> stats.value.officesCreated == 0)
                && stats.value.ratesCreated == 0 && stats.value.ratesUpdated == RateCount(orgs)
                && stats.value.officesUpdated == KnownCount(list, known)
                && stats.value.schedulesCreated == ScheduleTotal(list, known).value && stats.value.schedulesUpdated == 0
                && AllPlaced(known, offices.rows, list)
    {
      if exchange.None? {
        return None;
      }
      var orgStats, _, _, _, _ := ProcessOrganizationsAndOffices(exchange.value, now);
      if mapData.None? {
        return None;
      }
      ghost var middle := offices.rows;
      var mapStats := ProcessMapData(mapData.value, now);
      if mapStats.None? {
        return None;
      }
      SameShapeImages(middle, offices.rows);
      stats := Some(Merge(orgStats, mapStats.value));
    }
  }
}
