/** Maintenance types, maintenance records and reminders: their fields,
    defaults and string forms, and the foreign-key relations the delete rules
    follow (vehicle -> record and record -> reminder cascade; a maintenance
    type is protected while a record refers to it). */
module Maintenance {
  import opened Common
  import opened Vehicles

  datatype Status = Pending | InProgress | Completed | Cancelled {
    /** The value stored in the database column. */
    function Value(): string {
      match this
      case Pending => "pending"
      case InProgress => "in_progress"
      case Completed => "completed"
      case Cancelled => "cancelled"
    }
  }

  /** The choices check on the status column: a value is accepted exactly when
      it is the stored value of one of the four statuses. */
  function ParseStatus(s: string): (r: Option<Status>)
    ensures r.Some? ==> r.value.Value() == s
    ensures forall st: Status :: st.Value() == s ==> r == Some(st)
  {
    if s == "pending" then Some(Pending)
    else if s == "in_progress" then Some(InProgress)
    else if s == "completed" then Some(Completed)
    else if s == "cancelled" then Some(Cancelled)
    else None
  }

  /** A decimal amount, carried as its text; nothing computes with it. */
  type Decimal = string

  datatype MaintenanceType = MaintenanceType(
    name: string,                          // unique over all types
    description: string,
    recommendedIntervalKm: Option<nat>,
    recommendedIntervalMonths: Option<nat>
  )

  datatype MaintenanceRecord = MaintenanceRecord(
    vehicle: nat,                          // CASCADE
    maintenanceType: nat,                  // PROTECT
    datePerformed: Date,
    mileageAtService: nat,
    cost: Decimal,
    serviceProvider: string,
    notes: string,
    nextDueDate: Option<Date>,
    nextDueMileage: Option<nat>,
    status: Status
  )

  datatype Reminder = Reminder(
    maintenanceRecord: nat,                // CASCADE
    dueDate: Date,
    isCompleted: bool,
    notes: string
  )

  /** A record built with only its required fields: every other field takes
      the model's default (cost 0.00, status completed, nothing due). */
  function NewRecord(vehicle: nat, maintenanceType: nat, datePerformed: Date, mileageAtService: nat): (r: MaintenanceRecord)
    ensures r.status == Completed && r.cost == "0.00"
    ensures r.nextDueDate.None? && r.nextDueMileage.None?
    ensures r.serviceProvider == "" && r.notes == ""
  {
    MaintenanceRecord(vehicle, maintenanceType, datePerformed, mileageAtService, "0.00", "", "", None, None, Completed)
  }

  /** A reminder built with only its required fields: not completed, no notes. */
  function NewReminder(maintenanceRecord: nat, dueDate: Date): (r: Reminder)
    ensures !r.isCompleted && r.notes == ""
  {
    Reminder(maintenanceRecord, dueDate, false, "")
  }

  /** `MaintenanceType.__str__`: the name. */
  function TypeStr(t: MaintenanceType): string {
    t.name
  }

  /** Under the unique name constraint, a type's string form identifies the
      type. */
  lemma TypeStrIdentifies(types: map<nat, MaintenanceType>, a: nat, b: nat)
    requires UniqueTypeNames(types) && a in types && b in types
    requires TypeStr(types[a]) == TypeStr(types[b])
    ensures a == b
  {
  }

  /** `MaintenanceRecord.__str__`: the type's name, the vehicle's string form,
      then the date performed in parentheses; `render` is the date's text,
      which day numbers do not carry. */
  function RecordStr(t: MaintenanceType, v: Vehicle, rec: MaintenanceRecord, render: Date -> string): (r: string)
    ensures var n := |t.name| + 3 + |VehicleStr(v)|;
      && |r| == n + 3 + |render(rec.datePerformed)|
      && r[..|t.name| + 3] == t.name + " - "
      && r[|t.name| + 3..n] == VehicleStr(v)
      && r[n..] == " (" + render(rec.datePerformed) + ")"
  {
    var tail := " (" + render(rec.datePerformed) + ")";
    var r := TypeStr(t) + " - " + VehicleStr(v) + tail;
    assert r == (t.name + " - ") + (VehicleStr(v) + tail);
    r
  }

  /** `Reminder.__str__` for a reminder of the record `rec`, whose type is
      `t` and whose vehicle is `v`: the record's string form after
      "Reminder for ", then the due date after " - Due: ". */
  function ReminderStr(t: MaintenanceType, v: Vehicle, rec: MaintenanceRecord, rem: Reminder, render: Date -> string): (r: string)
    ensures var n := 13 + |RecordStr(t, v, rec, render)|;
      && |r| == n + 8 + |render(rem.dueDate)|
      && r[..13] == "Reminder for "
      && r[13..n] == RecordStr(t, v, rec, render)
      && r[n..] == " - Due: " + render(rem.dueDate)
  {
    var recordText := RecordStr(t, v, rec, render);
    var tail := " - Due: " + render(rem.dueDate);
    var r := "Reminder for " + recordText + tail;
    assert r == "Reminder for " + (recordText + tail);
    r
  }

  /** `name` is unique over all maintenance types. */
  predicate UniqueTypeNames(types: map<nat, MaintenanceType>) {
    forall a, b {:trigger types[a].name, types[b].name} :: a in types && b in types && types[a].name == types[b].name ==> a == b
  }

  /** Every record's vehicle and type exist. */
  predicate RecordsLinked(records: map<nat, MaintenanceRecord>, vehicleIds: set<nat>, typeIds: set<nat>) {
    forall k :: k in records ==> records[k].vehicle in vehicleIds && records[k].maintenanceType in typeIds
  }

  /** Every reminder's record exists. */
  predicate RemindersLinked(reminders: map<nat, Reminder>, recordIds: set<nat>) {
    forall k {:trigger reminders[k].maintenanceRecord} :: k in reminders ==> reminders[k].maintenanceRecord in recordIds
  }

  /** The records of one vehicle (`vehicle.maintenance_records`). */
  function RecordsOf(records: map<nat, MaintenanceRecord>, vehicle: nat): set<nat> {
    set k | k in records && records[k].vehicle == vehicle
  }

  /** The reminders of the given records. */
  function RemindersOfAny(reminders: map<nat, Reminder>, recordIds: set<nat>): set<nat> {
    set k | k in reminders && reminders[k].maintenanceRecord in recordIds
  }

  /** The reminders of one record (`record.reminders`). */
  function RemindersFor(reminders: map<nat, Reminder>, record: nat): (r: set<nat>)
    ensures r == RemindersOfAny(reminders, {record})
  {
    set k | k in reminders && reminders[k].maintenanceRecord == record
  }

  /** The records that refer to a maintenance type: while there is one, the
      PROTECT rule refuses to delete the type. */
  function RecordsOfType(records: map<nat, MaintenanceRecord>, t: nat): set<nat> {
    set k | k in records && records[k].maintenanceType == t
  }

  /** Removing a record set together with all reminders of those records keeps
      every remaining reminder pointing at a remaining record. */
  lemma CascadeKeepsRemindersLinked(records: map<nat, MaintenanceRecord>, reminders: map<nat, Reminder>, gone: set<nat>)
    requires RemindersLinked(reminders, records.Keys)
    ensures RemindersLinked(reminders - RemindersOfAny(reminders, gone), (records - gone).Keys)
    ensures forall k :: k in reminders && reminders[k].maintenanceRecord !in gone ==> k in reminders - RemindersOfAny(reminders, gone)
  {
  }
}
