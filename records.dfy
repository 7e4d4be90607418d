// Stored rows. Each SQLModel row is a map from column to value; the four
// table models differ only in their set of columns (`schema`). A column a
// row does not hold reads as NULL, which is also what SQLAlchemy compares
// against when a filter is given `None` (`col == None` becomes `IS NULL`).

module Records {
  import opened Common

  /** Every column name of the organization, office, rate and schedule models, plus any other key. */
  datatype Field =
    | Id | CreatedAt | UpdatedAt | IsActive
    | ExternalRefId | Name | Description | Website | LogoUrl
    | Address | Lat | Lng | OrganizationId
    | OfficeId | Currency | BuyRate | SellRate | Timestamp
    | Day | OpensAt | ClosesAt
    | Other(key: string)

  /** Column values: NULL, booleans, integers, floats, strings, primary keys and UTC instants (seconds). */
  datatype Value =
    | VNone
    | VBool(b: bool)
    | VInt(i: int)
    | VReal(x: real)
    | VStr(s: string)
    | VRef(ref: nat)
    | VTime(t: int)

  type Record = map<Field, Value>

  /** Columns of `BaseModel`: created_at, updated_at, is_active and a UUID primary key. */
  const BaseColumns: set<Field> := {Id, CreatedAt, UpdatedAt, IsActive}
  const OrganizationColumns: set<Field> := BaseColumns + {ExternalRefId, Name, Description, Website, LogoUrl}
  const OfficeColumns: set<Field> := BaseColumns + {Name, Address, Lat, Lng, OrganizationId, ExternalRefId}
  /** `Rate` derives from SQLModel directly: no created_at/updated_at/is_active. */
  const RateColumns: set<Field> := {Id, OfficeId, Currency, BuyRate, SellRate, Timestamp}
  const ScheduleColumns: set<Field> := BaseColumns + {Day, OpensAt, ClosesAt, OfficeId}

  /** Defaults `BaseModel` applies when a row is constructed: is_active = True, created_at and
      updated_at = the creation time. `Rate` only stamps its timestamp. */
  const BaseDefaults: Record := map[IsActive := VBool(true)]
  const BaseStamped: set<Field> := {CreatedAt, UpdatedAt}
  const RateStamped: set<Field> := {Timestamp}

  /** `getattr(row, f)`, NULL when the row holds no such column. */
  function Col(r: Record, f: Field): Value
  {
    if f in r then r[f] else VNone
  }

  /** The WHERE clause built by `find_by`: equality on each key that is a column; other keys are skipped. */
  predicate Matches(r: Record, criteria: Record, schema: set<Field>)
  {
    forall f :: f in criteria && f in schema ==> Col(r, f) == criteria[f]
  }

  /** The keys of `data` that are columns of the model (what `hasattr` lets through). */
  function Restrict(data: Record, schema: set<Field>): (r: Record)
    ensures r.Keys == data.Keys * schema
    ensures forall f :: f in r ==> r[f] == data[f]
  {
    map f | f in data && f in schema :: data[f]
  }

  /** Python truthiness of a column value (a primary key or an instant is always truthy). */
  predicate Truthy(v: Value)
  {
    match v
    case VNone => false
    case VBool(b) => b
    case VInt(i) => i != 0
    case VReal(x) => x != 0.0
    case VStr(s) => s != ""
    case VRef(_) => true
    case VTime(_) => true
  }

  predicate IsActiveRow(r: Record)
  {
    Col(r, IsActive) == VBool(true)
  }

  /** A numeric column as an ORDER BY key; NULL and non-numbers give None, which SQLite sorts lowest. */
  function NumKey(v: Value): Option<real>
  {
    match v
    case VInt(i) => Some(i as real)
    case VReal(x) => Some(x)
    case VTime(t) => Some(t as real)
    case _ => None
  }

  /** The order SQLite gives ORDER BY keys, NULL lowest. */
  predicate KeyLe(a: Option<real>, b: Option<real>)
  {
    a.None? || (b.Some? && a.value <= b.value)
  }
}
