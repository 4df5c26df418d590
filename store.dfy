/** The three ODS tables and the `insert_*` functions of the sink, modelled on
    `INSERT ... ON CONFLICT (key) DO UPDATE SET ...` as a map upsert. Each table
    maps a key value to its row; a failed statement is rolled back. */
module Store {
  import opened Json
  import opened Records

  datatype Kind = Customers | CreditApplications | VehicleOwnership

  /** A table's conflict key, its column list and the columns of its SET list. */
  datatype TableSpec = TableSpec(key: string, columns: set<string>, updated: set<string>)

  const CustomerColumns: set<string> := {
    "customer_id", "nik", "full_name", "date_of_birth", "gender",
    "marital_status", "phone_number", "email", "address", "city",
    "province", "postal_code", "occupation", "employer_name", "monthly_income",
    "employment_status", "years_of_employment", "education_level",
    "emergency_contact_name", "emergency_contact_phone",
    "emergency_contact_relation", "credit_score", "customer_segment",
    "registration_date", "last_updated", "status", "created_by", "updated_by",
    "cdc_timestamp", "cdc_operation"
  }

  /** `created_by` and the key are missing from the customers SET list. */
  const CustomerUpdated: set<string> := {
    "nik", "full_name", "date_of_birth", "gender",
    "marital_status", "phone_number", "email", "address", "city",
    "province", "postal_code", "occupation", "employer_name", "monthly_income",
    "employment_status", "years_of_employment", "education_level",
    "emergency_contact_name", "emergency_contact_phone",
    "emergency_contact_relation", "credit_score", "customer_segment",
    "registration_date", "last_updated", "status", "updated_by",
    "cdc_timestamp", "cdc_operation"
  }

  const CreditApplicationColumns: set<string> := {
    "application_id", "customer_id", "application_date", "vehicle_type", "vehicle_brand",
    "vehicle_model", "vehicle_year", "vehicle_price", "down_payment", "loan_amount",
    "tenor_months", "interest_rate", "monthly_installment", "application_status",
    "approval_date", "rejection_reason", "disbursement_date", "first_installment_date",
    "last_payment_date", "outstanding_amount", "payment_status", "collateral_status",
    "notes", "processed_by", "approved_by", "created_date", "cdc_timestamp", "cdc_operation"
  }

  const CreditApplicationUpdated: set<string> := {
    "customer_id", "application_date", "vehicle_type", "vehicle_brand",
    "vehicle_model", "vehicle_year", "vehicle_price", "down_payment", "loan_amount",
    "tenor_months", "interest_rate", "monthly_installment", "application_status",
    "approval_date", "rejection_reason", "disbursement_date", "first_installment_date",
    "last_payment_date", "outstanding_amount", "payment_status", "collateral_status",
    "notes", "processed_by", "approved_by", "created_date", "cdc_timestamp", "cdc_operation"
  }

  const VehicleOwnershipColumns: set<string> := {
    "ownership_id", "customer_id", "vehicle_type", "brand", "model",
    "year", "vehicle_price", "purchase_date", "ownership_status",
    "registration_number", "chassis_number", "engine_number",
    "created_date", "cdc_timestamp", "cdc_operation"
  }

  const VehicleOwnershipUpdated: set<string> := {
    "customer_id", "vehicle_type", "brand", "model",
    "year", "vehicle_price", "purchase_date", "ownership_status",
    "registration_number", "chassis_number", "engine_number",
    "created_date", "cdc_timestamp", "cdc_operation"
  }

  function SpecOf(kind: Kind): TableSpec {
    match kind
    case Customers => TableSpec("customer_id", CustomerColumns, CustomerUpdated)
    case CreditApplications => TableSpec("application_id", CreditApplicationColumns, CreditApplicationUpdated)
    case VehicleOwnership => TableSpec("ownership_id", VehicleOwnershipColumns, VehicleOwnershipUpdated)
  }

  /** The record mapper of each table. */
  function RulesOf(kind: Kind): map<string, Rule> {
    match kind
    case Customers => CustomerRules
    case CreditApplications => CreditApplicationRules
    case VehicleOwnership => VehicleOwnershipRules
  }

  /** The SET lists: every non-key column, except `created_by` for customers;
      the key is written only by the INSERT half. */
  lemma SetLists()
    ensures SpecOf(Customers).updated == CustomerColumns - {"customer_id", "created_by"}
    ensures SpecOf(CreditApplications).updated == CreditApplicationColumns - {"application_id"}
    ensures SpecOf(VehicleOwnership).updated == VehicleOwnershipColumns - {"ownership_id"}
    ensures forall k: Kind :: Consistent(SpecOf(k)) && SpecOf(k).key !in SpecOf(k).updated
  {
  }

  /** The mappers produce exactly the columns each statement binds. */
  lemma MapperColumns(kind: Kind)
    ensures RulesOf(kind).Keys == SpecOf(kind).columns
  {
  }

  type Table = map<Cell, Row>

  /** The key is a column and the SET list names columns only. */
  predicate Consistent(spec: TableSpec) {
    spec.key in spec.columns && spec.updated <= spec.columns
  }

  /** Every stored row has exactly the table's columns and is filed under its
      own key value. */
  predicate WellFormed(spec: TableSpec, table: Table) {
    forall id :: id in table ==> table[id].Keys == spec.columns && spec.key in table[id] && table[id][spec.key] == id
  }

  /** The row the INSERT half writes: the record's value for every column. */
  function Project(spec: TableSpec, rec: Row): (row: Row)
    requires spec.columns <= rec.Keys
    ensures row.Keys == spec.columns
    ensures forall c :: c in spec.columns ==> row[c] == rec[c]
  {
    map c | c in spec.columns :: rec[c]
  }

  /** One upsert. With no row at the record's key the projected record is
      inserted; otherwise the SET columns take the record's values and the
      others keep the stored ones. */
  function Upsert(spec: TableSpec, table: Table, rec: Row): (r: Table)
    requires Consistent(spec) && spec.columns <= rec.Keys
    ensures r.Keys == table.Keys + {rec[spec.key]}
    ensures forall id :: id in table && id != rec[spec.key] ==> r[id] == table[id]
    ensures r[rec[spec.key]].Keys == spec.columns
    ensures forall c :: c in spec.updated ==> r[rec[spec.key]][c] == rec[c]
    ensures rec[spec.key] !in table ==> r[rec[spec.key]] == Project(spec, rec)
    ensures rec[spec.key] in table ==>
              forall c :: c in spec.columns - spec.updated && c in table[rec[spec.key]] ==>
                r[rec[spec.key]][c] == table[rec[spec.key]][c]
  {
    var id := rec[spec.key];
    if id !in table then table[id := Project(spec, rec)]
    else
      var old_ := table[id];
      table[id := map c | c in spec.columns :: if c in spec.updated || c !in old_ then rec[c] else old_[c]]
  }

  /** Upserting keeps a table well formed. */
  lemma UpsertWellFormed(spec: TableSpec, table: Table, rec: Row)
    requires Consistent(spec) && spec.columns <= rec.Keys
    requires WellFormed(spec, table)
    ensures WellFormed(spec, Upsert(spec, table, rec))
  {
    var id := rec[spec.key];
    var r := Upsert(spec, table, rec);
    if id in table {
      assert table[id][spec.key] == id;
    }
    assert r[id][spec.key] == id;
  }

  /** Applying the same record twice gives the same table as applying it once. */
  lemma UpsertIdempotent(spec: TableSpec, table: Table, rec: Row)
    requires Consistent(spec) && spec.columns <= rec.Keys
    ensures Upsert(spec, Upsert(spec, table, rec), rec) == Upsert(spec, table, rec)
  {
    var id := rec[spec.key];
    var once := Upsert(spec, table, rec);
    var twice := Upsert(spec, once, rec);
    assert twice[id] == once[id];
    assert twice == once;
  }

  /** Where the SET list holds every non-key column, the later of two records
      with the same key decides the whole row. */
  lemma UpsertLastWriteWins(spec: TableSpec, table: Table, a: Row, b: Row)
    requires Consistent(spec) && spec.columns <= a.Keys
    requires spec.columns <= b.Keys
    requires a[spec.key] == b[spec.key]
    requires spec.updated == spec.columns - {spec.key}
    requires WellFormed(spec, table)
    ensures Upsert(spec, Upsert(spec, table, a), b) == Upsert(spec, table, b)
  {
    var id := b[spec.key];
    var lhs, rhs := Upsert(spec, Upsert(spec, table, a), b), Upsert(spec, table, b);
    assert lhs[id] == Project(spec, b);
    if id in table {
      assert table[id][spec.key] == id;
    }
    assert rhs[id] == Project(spec, b);
    assert lhs == rhs;
  }

  lemma LastWriteWinsApplicationsAndVehicles(kind: Kind, table: Table, a: Row, b: Row)
    requires kind != Customers
    requires SpecOf(kind).columns <= a.Keys && SpecOf(kind).columns <= b.Keys
    requires a[SpecOf(kind).key] == b[SpecOf(kind).key]
    requires WellFormed(SpecOf(kind), table)
    ensures Upsert(SpecOf(kind), Upsert(SpecOf(kind), table, a), b) == Upsert(SpecOf(kind), table, b)
  {
    SetLists();
    UpsertLastWriteWins(SpecOf(kind), table, a, b);
  }

  /** Where the SET list holds every column but the key and `keep`, two
      writes with the same key leave the row as the later record has it,
      except `keep`, which stays as the first writer (the stored row, or else
      the earlier record) set it. */
  lemma UpsertKeepsColumn(spec: TableSpec, table: Table, a: Row, b: Row, keep: string)
    requires Consistent(spec) && spec.columns <= a.Keys && spec.columns <= b.Keys
    requires a[spec.key] == b[spec.key]
    requires keep in spec.columns && keep != spec.key
    requires spec.updated == spec.columns - {spec.key, keep}
    requires WellFormed(spec, table)
    ensures var id := b[spec.key];
            var first := if id in table then table[id][keep] else a[keep];
            Upsert(spec, Upsert(spec, table, a), b) ==
              Upsert(spec, table, b)[id := Project(spec, b)[keep := first]]
  {
    var id := b[spec.key];
    var first := if id in table then table[id][keep] else a[keep];
    var mid := Upsert(spec, table, a);
    assert mid[id][keep] == first;
    var row := Upsert(spec, mid, b)[id];
    var want := Project(spec, b)[keep := first];
    assert row == want by {
      assert row.Keys == want.Keys;
      forall c | c in spec.columns
        ensures row[c] == want[c]
      {
        if c != keep && c != spec.key {
          assert c in spec.updated;
        }
        if c == spec.key && c != keep && id in table {
          assert table[id][spec.key] == id;
        }
      }
    }
  }

  /** For customers, a later write with the same key overwrites every column
      except `created_by`, which keeps the first writer's value. */
  lemma CustomerCreatedByKept(table: Table, a: Row, b: Row)
    requires CustomerColumns <= a.Keys && CustomerColumns <= b.Keys
    requires a["customer_id"] == b["customer_id"]
    requires WellFormed(SpecOf(Customers), table)
    ensures var id := b["customer_id"];
            var spec := SpecOf(Customers);
            var first := if id in table then table[id]["created_by"] else a["created_by"];
            Upsert(spec, Upsert(spec, table, a), b) ==
              Upsert(spec, table, b)[id := Project(spec, b)["created_by" := first]]
  {
    SetLists();
    UpsertKeepsColumn(SpecOf(Customers), table, a, b, "created_by");
  }

  /** The three tables of the ODS database. */
  datatype Tables = Tables(customers: Table, applications: Table, vehicles: Table)

  function TableOf(t: Tables, kind: Kind): Table {
    match kind
    case Customers => t.customers
    case CreditApplications => t.applications
    case VehicleOwnership => t.vehicles
  }

  function WithTable(t: Tables, kind: Kind, table: Table): (r: Tables)
    ensures TableOf(r, kind) == table
    ensures forall k :: k != kind ==> TableOf(r, k) == TableOf(t, k)
  {
    match kind
    case Customers => t.(customers := table)
    case CreditApplications => t.(applications := table)
    case VehicleOwnership => t.(vehicles := table)
  }

  predicate TablesWellFormed(t: Tables) {
    forall k: Kind :: WellFormed(SpecOf(k), TableOf(t, k))
  }

  /** The columns `insert_credit_application` and `insert_vehicle_ownership`
      set to None when `record.get` finds None for them. */
  function NullFilled(kind: Kind): set<string> {
    match kind
    case Customers => {}
    case CreditApplications => {"approval_date", "created_date"}
    case VehicleOwnership => {"created_date"}
  }

  /** The record after the pre-insert normalisation: an absent NullFilled
      column is added as None; every other entry is left as it was. */
  function Normalize(kind: Kind, rec: Row): (r: Row)
    ensures r.Keys == rec.Keys + NullFilled(kind)
    ensures forall c :: c in rec ==> r[c] == rec[c]
    ensures forall c :: c in NullFilled(kind) && c !in rec ==> r[c] == Plain(Null)
  {
    map c | c in rec.Keys + NullFilled(kind) :: if c in rec then rec[c] else Plain(Null)
  }

  /** Every placeholder of the statement has a value in the record; without
      one the driver raises KeyError, which the function's handler turns into
      a rollback. */
  predicate Bindable(kind: Kind, rec: Row) {
    SpecOf(kind).columns <= rec.Keys
  }

  /** `insert_*`: the new tables and the returned flag. The statement fails
      when `executeFails` (a database error) or when the record cannot be
      bound; then nothing changes and the result is False. */
  function Insert(kind: Kind, t: Tables, rec: Row, executeFails: bool): (r: (Tables, bool))
    ensures r.1 <==> !executeFails && Bindable(kind, Normalize(kind, rec))
    ensures !r.1 ==> r.0 == t
    ensures r.1 ==> forall k :: k != kind ==> TableOf(r.0, k) == TableOf(t, k)
    ensures r.1 ==> var n := Normalize(kind, rec);
                    TableOf(r.0, kind) == Upsert(SpecOf(kind), TableOf(t, kind), n)
  {
    var n := Normalize(kind, rec);
    SetLists();
    if executeFails || !Bindable(kind, n) then (t, false)
    else (WithTable(t, kind, Upsert(SpecOf(kind), TableOf(t, kind), n)), true)
  }

  /** A successful insert keeps the tables well formed. */
  lemma InsertWellFormed(kind: Kind, t: Tables, rec: Row, executeFails: bool)
    requires TablesWellFormed(t)
    ensures TablesWellFormed(Insert(kind, t, rec, executeFails).0)
  {
    var (t', ok) := Insert(kind, t, rec, executeFails);
    if ok {
      SetLists();
      UpsertWellFormed(SpecOf(kind), TableOf(t, kind), Normalize(kind, rec));
      assert forall k :: TableOf(t', k) == (if k == kind then Upsert(SpecOf(kind), TableOf(t, kind), Normalize(kind, rec)) else TableOf(t, k));
    }
  }

  /** Normalisation changes nothing on a record that already has the
      NullFilled columns. */
  lemma NormalizeIdentity(kind: Kind, rec: Row)
    requires NullFilled(kind) <= rec.Keys
    ensures Normalize(kind, rec) == rec
  {
    assert Normalize(kind, rec).Keys == rec.Keys;
  }

  /** The NullFilled columns are columns of the table. */
  lemma NullFilledColumns(kind: Kind)
    ensures NullFilled(kind) <= SpecOf(kind).columns
  {
  }

  /** A record produced by the table's mapper needs no normalisation and binds
      every placeholder, so only a database error can make its insert fail. */
  lemma ConvertedRecordInserts(kind: Kind, payload: JSON)
    requires ConvertRecord(RulesOf(kind), payload).Ok?
    ensures var rec := ConvertRecord(RulesOf(kind), payload).value;
            Normalize(kind, rec) == rec && Bindable(kind, rec)
  {
    MapperColumns(kind);
    NullFilledColumns(kind);
    NormalizeIdentity(kind, ConvertRecord(RulesOf(kind), payload).value);
  }

  /** The ODS database the sink writes to. */
  class Database {
    var customers: Table
    var applications: Table
    var vehicles: Table

    function Snapshot(): Tables
      reads this
    {
      Tables(customers, applications, vehicles)
    }

    predicate Valid()
      reads this
    {
      TablesWellFormed(Snapshot())
    }

    constructor (initial: Tables)
      requires TablesWellFormed(initial)
      ensures Valid() && Snapshot() == initial
    {
      customers, applications, vehicles := initial.customers, initial.applications, initial.vehicles;
    }

    /** Executes one insert of `kind` and commits it, or rolls it back. */
    method Execute(kind: Kind, rec: Row, executeFails: bool) returns (ok: bool)
      requires Valid()
      modifies this
      ensures Valid()
      ensures (Snapshot(), ok) == Insert(kind, old(Snapshot()), rec, executeFails)
    {
      InsertWellFormed(kind, Snapshot(), rec, executeFails);
      var (t, success) := Insert(kind, Snapshot(), rec, executeFails);
      customers, applications, vehicles := t.customers, t.applications, t.vehicles;
      ok := success;
    }

    method InsertCustomer(rec: Row, executeFails: bool) returns (ok: bool)
      requires Valid()
      modifies this
      ensures Valid()
      ensures (Snapshot(), ok) == Insert(Customers, old(Snapshot()), rec, executeFails)
    {
      ok := Execute(Customers, rec, executeFails);
    }

    method InsertCreditApplication(rec: Row, executeFails: bool) returns (ok: bool)
      requires Valid()
      modifies this
      ensures Valid()
      ensures (Snapshot(), ok) == Insert(CreditApplications, old(Snapshot()), rec, executeFails)
    {
      ok := Execute(CreditApplications, rec, executeFails);
    }

    method InsertVehicleOwnership(rec: Row, executeFails: bool) returns (ok: bool)
      requires Valid()
      modifies this
      ensures Valid()
      ensures (Snapshot(), ok) == Insert(VehicleOwnership, old(Snapshot()), rec, executeFails)
    {
      ok := Execute(VehicleOwnership, rec, executeFails);
    }
  }
}
