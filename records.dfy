/** The three record mappers of the ODS sink (`convert_customer_record`,
    `convert_credit_application_record`, `convert_vehicle_ownership_record`).
    Each builds a fresh row, one column at a time, from the payload's fields:
    a column is a copy of a payload field (with a literal default used only
    when the field is absent) or a decoded date, timestamp or decimal. */
module Records {
  import opened Wrappers
  import opened Json
  import opened Calendar
  import opened Codec

  /** A column value as handed to the database driver; Python's None (SQL
      NULL) is `Plain(Null)`. */
  datatype Cell =
    | Plain(j: JSON)
    | DateCell(date: Date)
    | TimestampCell(ms: int)
    | DecimalCell(dec: Decimal)

  /** Python truthiness of a column value: a date or a datetime is always
      true, a float is false when zero. */
  predicate CellTruthy(c: Cell) {
    match c
    case Plain(j) => Truthy(j)
    case DecimalCell(d) => d.unscaled != 0
    case _ => true
  }

  /** A record: column name to value, like the Python dict the mappers build. */
  type Row = map<string, Cell>

  /** How a column is computed from the payload field it reads. */
  datatype Conversion =
    | Copy(default: JSON)      // payload.get(field, default)
    | AsDate                   // convert_debezium_date(payload.get(field))
    | AsDateIfTruthy           // convert_debezium_date(v) if v else None
    | AsTimestamp              // convert_debezium_timestamp(payload.get(field))
    | AsDecimal(scale: nat)    // convert_debezium_decimal(payload.get(field), scale)

  datatype Rule = Rule(field: string, conv: Conversion)

  /** A plain copy of the like-named field, None when absent. */
  function Copied(field: string): Rule {
    Rule(field, Copy(Null))
  }

  function DateCellOf(o: Option<Date>): Cell {
    if o.Some? then DateCell(o.value) else Plain(Null)
  }

  function TimestampCellOf(o: Option<int>): Cell {
    if o.Some? then TimestampCell(o.value) else Plain(Null)
  }

  function DecimalCellOf(o: Option<Decimal>): Cell {
    if o.Some? then DecimalCell(o.value) else Plain(Null)
  }

  /** The value of one column, or Raises when its decoder raises. */
  function ApplyRule(rule: Rule, m: map<string, JSON>): (r: Result<Cell>)
    ensures rule.conv.Copy? ==> r == Ok(Plain(GetOr(m, rule.field, rule.conv.default)))
  {
    var v := Get(m, rule.field);
    match rule.conv
    case Copy(d) => Ok(Plain(GetOr(m, rule.field, d)))
    case AsDate =>
      var o :- ConvertDate(v);
      Ok(DateCellOf(o))
    case AsDateIfTruthy =>
      if Truthy(v) then
        var o :- ConvertDate(v);
        Ok(DateCellOf(o))
      else Ok(Plain(Null))
    case AsTimestamp =>
      var o :- ConvertTimestamp(v);
      Ok(TimestampCellOf(o))
    case AsDecimal(scale) =>
      var o :- ConvertDecimal(v, scale);
      Ok(DecimalCellOf(o))
  }

  /** The row built by a set of column rules. `payload.get` on a value that is
      not a dict raises, and so does any column whose decoder raises; the
      caller's exception handler then drops the message. */
  function ConvertRecord(rules: map<string, Rule>, payload: JSON): (r: Result<Row>)
    ensures r.Raises? <==>
              !payload.Obj? || exists c :: c in rules && ApplyRule(rules[c], payload.fields).Raises?
    ensures r.Ok? ==> r.value.Keys == rules.Keys
    ensures r.Ok? ==> forall c :: c in rules ==> Ok(r.value[c]) == ApplyRule(rules[c], payload.fields)
  {
    if !payload.Obj? then Raises
    else if exists c :: c in rules && ApplyRule(rules[c], payload.fields).Raises? then Raises
    else Ok(map c | c in rules :: ApplyRule(rules[c], payload.fields).value)
  }

  /** The columns of `convert_customer_record`. */
  const CustomerRules: map<string, Rule> := map[
    "customer_id" := Copied("customer_id"),
    "nik" := Copied("nik"),
    "full_name" := Copied("full_name"),
    "gender" := Copied("gender"),
    "marital_status" := Copied("marital_status"),
    "phone_number" := Copied("phone_number"),
    "email" := Copied("email"),
    "address" := Copied("address"),
    "city" := Copied("city"),
    "province" := Copied("province"),
    "postal_code" := Copied("postal_code"),
    "occupation" := Copied("occupation"),
    "employer_name" := Copied("employer_name"),
    "employment_status" := Copied("employment_status"),
    "years_of_employment" := Copied("years_of_employment"),
    "education_level" := Copied("education_level"),
    "emergency_contact_name" := Copied("emergency_contact_name"),
    "emergency_contact_phone" := Copied("emergency_contact_phone"),
    "emergency_contact_relation" := Copied("emergency_contact_relation"),
    "credit_score" := Copied("credit_score"),
    "customer_segment" := Copied("customer_segment"),
    "status" := Rule("status", Copy(Str("Active"))),
    "created_by" := Rule("created_by", Copy(Str("SYSTEM"))),
    "updated_by" := Rule("updated_by", Copy(Str("SYSTEM"))),
    "date_of_birth" := Rule("date_of_birth", AsDate),
    "registration_date" := Rule("registration_date", AsTimestamp),
    "last_updated" := Rule("last_updated", AsTimestamp),
    "monthly_income" := Rule("monthly_income", AsDecimal(2)),
    "cdc_operation" := Rule("__op", Copy(Str("r"))),
    "cdc_timestamp" := Rule("__source_ts_ms", AsTimestamp)
  ]

  /** The columns of `convert_credit_application_record`. */
  const CreditApplicationRules: map<string, Rule> := map[
    "application_id" := Copied("application_id"),
    "customer_id" := Copied("customer_id"),
    "vehicle_type" := Copied("vehicle_type"),
    "vehicle_brand" := Copied("vehicle_brand"),
    "vehicle_model" := Copied("vehicle_model"),
    "vehicle_year" := Copied("vehicle_year"),
    "tenor_months" := Copied("tenor_months"),
    "application_status" := Copied("application_status"),
    "rejection_reason" := Copied("rejection_reason"),
    "payment_status" := Rule("payment_status", Copy(Str("Current"))),
    "collateral_status" := Rule("collateral_status", Copy(Str("Held"))),
    "notes" := Copied("notes"),
    "processed_by" := Copied("processed_by"),
    "approved_by" := Copied("approved_by"),
    "application_date" := Rule("application_date", AsTimestamp),
    "approval_date" := Rule("approval_date", AsTimestamp),
    "created_date" := Rule("created_date", AsTimestamp),
    "disbursement_date" := Rule("disbursement_date", AsDateIfTruthy),
    "first_installment_date" := Rule("first_installment_date", AsDateIfTruthy),
    "last_payment_date" := Rule("last_payment_date", AsDateIfTruthy),
    "vehicle_price" := Rule("vehicle_price", AsDecimal(2)),
    "down_payment" := Rule("down_payment", AsDecimal(2)),
    "loan_amount" := Rule("loan_amount", AsDecimal(2)),
    "interest_rate" := Rule("interest_rate", AsDecimal(2)),
    "monthly_installment" := Rule("monthly_installment", AsDecimal(2)),
    "outstanding_amount" := Rule("outstanding_amount", AsDecimal(2)),
    "cdc_operation" := Rule("__op", Copy(Str("r"))),
    "cdc_timestamp" := Rule("__source_ts_ms", AsTimestamp)
  ]

  /** The columns of `convert_vehicle_ownership_record`. */
  const VehicleOwnershipRules: map<string, Rule> := map[
    "ownership_id" := Copied("ownership_id"),
    "customer_id" := Copied("customer_id"),
    "vehicle_type" := Copied("vehicle_type"),
    "brand" := Copied("brand"),
    "model" := Copied("model"),
    "year" := Copied("year"),
    "ownership_status" := Copied("ownership_status"),
    "registration_number" := Copied("registration_number"),
    "chassis_number" := Copied("chassis_number"),
    "engine_number" := Copied("engine_number"),
    "vehicle_price" := Rule("vehicle_price", AsDecimal(2)),
    "purchase_date" := Rule("purchase_date", AsDate),
    "created_date" := Rule("created_date", AsTimestamp),
    "cdc_operation" := Rule("__op", Copy(Str("r"))),
    "cdc_timestamp" := Rule("__source_ts_ms", AsTimestamp)
  ]

  function ConvertCustomerRecord(payload: JSON): Result<Row> {
    ConvertRecord(CustomerRules, payload)
  }

  function ConvertCreditApplicationRecord(payload: JSON): Result<Row> {
    ConvertRecord(CreditApplicationRules, payload)
  }

  function ConvertVehicleOwnershipRecord(payload: JSON): Result<Row> {
    ConvertRecord(VehicleOwnershipRules, payload)
  }

  /** A defaulted copy: the field's value, an explicit null included, when the
      field is present, and the default only when it is absent. */
  predicate DefaultedCopy(row: Row, column: string, m: map<string, JSON>, field: string, default: JSON) {
    column in row &&
    (field in m ==> row[column] == Plain(m[field])) &&
    (field !in m ==> row[column] == Plain(default))
  }

  /** The customer columns and their defaults. */
  lemma CustomerRecordDefaults(payload: JSON)
    requires ConvertCustomerRecord(payload).Ok?
    ensures var row, m := ConvertCustomerRecord(payload).value, payload.fields;
            row.Keys == CustomerRules.Keys &&
            DefaultedCopy(row, "customer_id", m, "customer_id", Null) &&
            DefaultedCopy(row, "status", m, "status", Str("Active")) &&
            DefaultedCopy(row, "created_by", m, "created_by", Str("SYSTEM")) &&
            DefaultedCopy(row, "updated_by", m, "updated_by", Str("SYSTEM")) &&
            DefaultedCopy(row, "cdc_operation", m, "__op", Str("r"))
  {
    var row, m := ConvertCustomerRecord(payload).value, payload.fields;
    assert Ok(row["status"]) == ApplyRule(CustomerRules["status"], m);
    assert Ok(row["created_by"]) == ApplyRule(CustomerRules["created_by"], m);
    assert Ok(row["updated_by"]) == ApplyRule(CustomerRules["updated_by"], m);
    assert Ok(row["cdc_operation"]) == ApplyRule(CustomerRules["cdc_operation"], m);
    assert Ok(row["customer_id"]) == ApplyRule(CustomerRules["customer_id"], m);
  }

  /** The credit-application columns and their defaults. */
  lemma CreditApplicationRecordDefaults(payload: JSON)
    requires ConvertCreditApplicationRecord(payload).Ok?
    ensures var row, m := ConvertCreditApplicationRecord(payload).value, payload.fields;
            row.Keys == CreditApplicationRules.Keys &&
            DefaultedCopy(row, "application_id", m, "application_id", Null) &&
            DefaultedCopy(row, "payment_status", m, "payment_status", Str("Current")) &&
            DefaultedCopy(row, "collateral_status", m, "collateral_status", Str("Held")) &&
            DefaultedCopy(row, "cdc_operation", m, "__op", Str("r"))
  {
    var row, m := ConvertCreditApplicationRecord(payload).value, payload.fields;
    assert Ok(row["application_id"]) == ApplyRule(CreditApplicationRules["application_id"], m);
    assert Ok(row["payment_status"]) == ApplyRule(CreditApplicationRules["payment_status"], m);
    assert Ok(row["collateral_status"]) == ApplyRule(CreditApplicationRules["collateral_status"], m);
    assert Ok(row["cdc_operation"]) == ApplyRule(CreditApplicationRules["cdc_operation"], m);
  }

  /** The vehicle-ownership columns and their defaults. */
  lemma VehicleOwnershipRecordDefaults(payload: JSON)
    requires ConvertVehicleOwnershipRecord(payload).Ok?
    ensures var row, m := ConvertVehicleOwnershipRecord(payload).value, payload.fields;
            row.Keys == VehicleOwnershipRules.Keys &&
            DefaultedCopy(row, "ownership_id", m, "ownership_id", Null) &&
            DefaultedCopy(row, "cdc_operation", m, "__op", Str("r"))
  {
    var row, m := ConvertVehicleOwnershipRecord(payload).value, payload.fields;
    assert Ok(row["ownership_id"]) == ApplyRule(VehicleOwnershipRules["ownership_id"], m);
    assert Ok(row["cdc_operation"]) == ApplyRule(VehicleOwnershipRules["cdc_operation"], m);
  }

  /** The three optional application dates are None for every falsy input,
      epoch day 0 included. */
  lemma ApplicationDatesFalsyAreNone(payload: JSON, column: string)
    requires ConvertCreditApplicationRecord(payload).Ok?
    requires column in {"disbursement_date", "first_installment_date", "last_payment_date"}
    requires !Truthy(Get(payload.fields, column))
    ensures ConvertCreditApplicationRecord(payload).value[column] == Plain(Null)
  {
    var row, m := ConvertCreditApplicationRecord(payload).value, payload.fields;
    assert CreditApplicationRules[column] == Rule(column, AsDateIfTruthy);
    assert Ok(row[column]) == ApplyRule(CreditApplicationRules[column], m);
  }

  /** Epoch day 0 is 1970-01-01 for a customer's date of birth (unlike a
      credit application's disbursement date, see ApplicationDatesFalsyAreNone). */
  lemma CustomerEpochDayZero(payload: JSON)
    requires ConvertCustomerRecord(payload).Ok?
    requires Get(payload.fields, "date_of_birth") == Int(0)
    ensures ConvertCustomerRecord(payload).value["date_of_birth"] == DateCell(Date(1970, 1, 1))
  {
    ConvertDateZero();
    assert CustomerRules["date_of_birth"] == Rule("date_of_birth", AsDate);
    assert Ok(ConvertCustomerRecord(payload).value["date_of_birth"])
        == ApplyRule(CustomerRules["date_of_birth"], payload.fields);
  }

  /** Epoch day 0 is 1970-01-01 for a vehicle's purchase date. */
  lemma VehicleEpochDayZero(payload: JSON)
    requires ConvertVehicleOwnershipRecord(payload).Ok?
    requires Get(payload.fields, "purchase_date") == Int(0)
    ensures ConvertVehicleOwnershipRecord(payload).value["purchase_date"] == DateCell(Date(1970, 1, 1))
  {
    ConvertDateZero();
    assert VehicleOwnershipRules["purchase_date"] == Rule("purchase_date", AsDate);
    assert Ok(ConvertVehicleOwnershipRecord(payload).value["purchase_date"])
        == ApplyRule(VehicleOwnershipRules["purchase_date"], payload.fields);
  }
}
