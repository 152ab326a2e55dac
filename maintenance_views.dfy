/** The maintenance view sets. Every lookup is scoped to the requesting
    user: records through their vehicle's owner, reminders through their
    record's vehicle's owner. `perform_create` saves the record (with its
    signals) and then applies the mileage maximum again; `create_reminder`
    adds one more reminder to a record without any limit; `mark_completed`
    sets one flag; the two `upcoming` queries list what is due from today
    on, in order of due date. Today is a parameter. */
module MaintenanceViews {
  import opened Common
  import opened Vehicles
  import opened Maintenance
  import opened Database
  import opened Signals
  import opened Ordering

  /** `MaintenanceRecordViewSet.get_queryset`: the records on vehicles the
      user owns. */
  function OwnedRecords(vehicles: map<nat, Vehicle>, records: map<nat, MaintenanceRecord>, user: nat): (r: set<nat>)
    ensures forall k :: k in r ==> k in records && records[k].vehicle in vehicles
    ensures forall k :: k in r <==> k in records && records[k].vehicle in vehicles && vehicles[records[k].vehicle].owner == user
  {
    set k | k in records && records[k].vehicle in vehicles && vehicles[records[k].vehicle].owner == user
  }

  /** `ReminderViewSet.get_queryset`: the reminders whose record is on a
      vehicle the user owns. */
  function OwnedReminders(vehicles: map<nat, Vehicle>, records: map<nat, MaintenanceRecord>,
                          reminders: map<nat, Reminder>, user: nat): (r: set<nat>)
    ensures forall k :: k in r ==> k in reminders
  {
    set k | k in reminders && reminders[k].maintenanceRecord in records
              && records[reminders[k].maintenanceRecord].vehicle in vehicles
              && vehicles[records[reminders[k].maintenanceRecord].vehicle].owner == user
  }

  /** The reminder filter through two foreign keys selects exactly the
      reminders of the records the user's record listing shows. */
  lemma OwnedRemindersAreThoseOfOwnedRecords(vehicles: map<nat, Vehicle>, records: map<nat, MaintenanceRecord>,
                                             reminders: map<nat, Reminder>, user: nat)
    ensures OwnedReminders(vehicles, records, reminders, user)
         == RemindersOfAny(reminders, OwnedRecords(vehicles, records, user))
  {
  }

  /** Two users never see a common record or reminder. */
  lemma ListingsAreDisjoint(vehicles: map<nat, Vehicle>, records: map<nat, MaintenanceRecord>,
                            reminders: map<nat, Reminder>, u1: nat, u2: nat)
    requires u1 != u2
    ensures OwnedRecords(vehicles, records, u1) * OwnedRecords(vehicles, records, u2) == {}
    ensures OwnedReminders(vehicles, records, reminders, u1) * OwnedReminders(vehicles, records, reminders, u2) == {}
  {
  }

  /** The records of the user whose next due date is today or later. */
  function DueRecords(vehicles: map<nat, Vehicle>, records: map<nat, MaintenanceRecord>, user: nat, today: Date): (r: set<nat>)
    ensures forall k :: k in r ==> k in records && records[k].nextDueDate.Some?
  {
    set k | k in OwnedRecords(vehicles, records, user) && records[k].nextDueDate.Some? && records[k].nextDueDate.value >= today
  }

  /** `MaintenanceRecordViewSet.upcoming`: the user's records due today or
      later, each once, in ascending order of next due date; a record without
      a next due date is never listed. */
  ghost function UpcomingRecords(vehicles: map<nat, Vehicle>, records: map<nat, MaintenanceRecord>, user: nat, today: Date)
    : (r: seq<nat>)
    ensures forall i :: 0 <= i < |r| ==> r[i] in records && records[r[i]].nextDueDate.Some?
    ensures forall k :: k in r <==>
      k in records && records[k].vehicle in vehicles && vehicles[records[k].vehicle].owner == user
      && records[k].nextDueDate.Some? && records[k].nextDueDate.value >= today
    ensures Distinct(r)
    ensures forall i, j :: 0 <= i < j < |r| ==> records[r[i]].nextDueDate.value <= records[r[j]].nextDueDate.value
  {
    var due := DueRecords(vehicles, records, user, today);
    var key := map k | k in due :: records[k].nextDueDate.value;
    var r := OrderByKey(due, key);
    assert forall i :: 0 <= i < |r| ==> r[i] in due;
    r
  }

  /** The user's reminders not completed and due today or later. */
  function DueReminders(vehicles: map<nat, Vehicle>, records: map<nat, MaintenanceRecord>,
                        reminders: map<nat, Reminder>, user: nat, today: Date): (r: set<nat>)
    ensures forall k :: k in r ==> k in reminders
  {
    set k | k in OwnedReminders(vehicles, records, reminders, user) && !reminders[k].isCompleted && reminders[k].dueDate >= today
  }

  /** `ReminderViewSet.upcoming`: the user's reminders not completed and due
      today or later, each once, in ascending order of due date. */
  ghost function UpcomingReminders(vehicles: map<nat, Vehicle>, records: map<nat, MaintenanceRecord>,
                                   reminders: map<nat, Reminder>, user: nat, today: Date)
    : (r: seq<nat>)
    ensures forall i :: 0 <= i < |r| ==> r[i] in reminders
    ensures forall k :: k in r <==>
      k in OwnedReminders(vehicles, records, reminders, user) && !reminders[k].isCompleted && reminders[k].dueDate >= today
    ensures Distinct(r)
    ensures forall i, j :: 0 <= i < j < |r| ==> reminders[r[i]].dueDate <= reminders[r[j]].dueDate
  {
    var due := DueReminders(vehicles, records, reminders, user, today);
    var key := map k | k in due :: reminders[k].dueDate;
    var r := OrderByKey(due, key);
    assert forall i :: 0 <= i < |r| ==> r[i] in due;
    r
  }

  /** The reminder table after `mark_completed` on `id`: that reminder is
      completed, every other field and every other reminder as before. */
  function MarkedCompleted(reminders: map<nat, Reminder>, id: nat): (r: map<nat, Reminder>)
    requires id in reminders
    ensures r.Keys == reminders.Keys
    ensures r[id].isCompleted && r[id] == reminders[id].(isCompleted := r[id].isCompleted)
    ensures forall k :: k in reminders && k != id ==> r[k] == reminders[k]
  {
    reminders[id := reminders[id].(isCompleted := true)]
  }

  /** Marking a reminder completed twice is marking it once. */
  lemma MarkedCompletedIdempotent(reminders: map<nat, Reminder>, id: nat)
    requires id in reminders
    ensures MarkedCompleted(MarkedCompleted(reminders, id), id) == MarkedCompleted(reminders, id)
  {
  }

  /** A reminder marked completed drops out of the upcoming reminders, and
      the others stay as they were. */
  lemma MarkedCompletedLeavesUpcoming(vehicles: map<nat, Vehicle>, records: map<nat, MaintenanceRecord>,
                                      reminders: map<nat, Reminder>, id: nat, user: nat, today: Date)
    requires id in reminders
    ensures id !in UpcomingReminders(vehicles, records, MarkedCompleted(reminders, id), user, today)
    ensures forall k :: k != id ==>
      (k in UpcomingReminders(vehicles, records, MarkedCompleted(reminders, id), user, today)
       <==> k in UpcomingReminders(vehicles, records, reminders, user, today))
  {
    var after := MarkedCompleted(reminders, id);
    assert forall k :: k in OwnedReminders(vehicles, records, after, user) <==> k in OwnedReminders(vehicles, records, reminders, user);
  }

  /** A reminder added to a record adds one to the record's reminders,
      however many it had: nothing limits a record to one reminder. */
  lemma AddedReminderCounts(reminders: map<nat, Reminder>, newId: nat, rem: Reminder)
    requires newId !in reminders
    ensures RemindersFor(reminders[newId := rem], rem.maintenanceRecord)
         == RemindersFor(reminders, rem.maintenanceRecord) + {newId}
    ensures |RemindersFor(reminders[newId := rem], rem.maintenanceRecord)|
         == |RemindersFor(reminders, rem.maintenanceRecord)| + 1
  {
    assert RemindersFor(reminders[newId := rem], rem.maintenanceRecord)
        == RemindersFor(reminders, rem.maintenanceRecord) + {newId};
  }

  /** The body of a `create_reminder` request: the `ReminderSerializer`
      fields. The body's record id must name some record, though the view
      then attaches the reminder to the record in the URL. */
  datatype ReminderInput = ReminderInput(
    maintenanceRecord: Option<nat>,
    dueDate: Option<Date>,
    isCompleted: Option<bool>,
    notes: Option<string>
  )

  /** The serializer's validation of a body with every model field: the
      required record must be given and exist, the required due date must be
      given; the flag and the notes may be left out. */
  function ValidReminderInput(records: map<nat, MaintenanceRecord>, input: ReminderInput): (ok: bool)
    ensures ok ==> input.dueDate.Some? && input.maintenanceRecord.Some? && input.maintenanceRecord.value in records
  {
    input.maintenanceRecord.Some? && input.maintenanceRecord.value in records && input.dueDate.Some?
  }

  /** The reminder the serializer builds for record `rid`; an absent flag or
      note takes the model's default. */
  function ReminderFromInput(rid: nat, input: ReminderInput): (r: Reminder)
    requires input.dueDate.Some?
    ensures r.maintenanceRecord == rid && r.dueDate == input.dueDate.value
    ensures input.isCompleted.None? ==> !r.isCompleted
    ensures input.notes.None? ==> r.notes == ""
    ensures input.isCompleted.Some? ==> r.isCompleted == input.isCompleted.value
    ensures input.notes.Some? ==> r.notes == input.notes.value
  {
    var base := NewReminder(rid, input.dueDate.value);
    base.(isCompleted := input.isCompleted.GetOr(base.isCompleted), notes := input.notes.GetOr(base.notes))
  }

  /** `MaintenanceRecordViewSet.perform_create`. The record is saved, which
      runs both signals; then the vehicle's mileage is set to the maximum of
      its (already raised) mileage and the record's, and the vehicle is
      saved again. A vehicle or type that does not exist fails validation.
      The vehicle need not belong to the requester. */
  method PerformCreate(db: Db, rec: MaintenanceRecord) returns (r: Result<nat>)
    requires db.Valid()
    modifies db`vehicles, db`nextVehicle, db`records, db`nextRecord, db`reminders, db`nextReminder
    ensures db.Valid()
    ensures r.Err? <==> rec.vehicle !in old(db.vehicles) || rec.maintenanceType !in old(db.types)
    ensures r.Err? ==> r.error == BadRequest && unchanged(db)
    ensures r.Ok? ==>
      && r.value == old(db.nextRecord)
      && db.records == old(db.records)[r.value := rec]
      && db.vehicles == RaisedMileage(old(db.vehicles), rec.vehicle, rec.mileageAtService)
      && db.vehicles[rec.vehicle].currentMileage == Max(old(db.vehicles)[rec.vehicle].currentMileage, rec.mileageAtService)
      && (rec.nextDueDate.None? ==> db.reminders == old(db.reminders))
      && (rec.nextDueDate.Some? ==>
            db.reminders == old(db.reminders)[old(db.nextReminder) :=
              Reminder(r.value, rec.nextDueDate.value, false, ReminderNote(db.vehicles[rec.vehicle], db.types[rec.maintenanceType]))])
  {
    if rec.vehicle !in db.vehicles || rec.maintenanceType !in db.types {
      return Err(BadRequest);
    }
    ghost var before := db.vehicles;
    ghost var remindersBefore := db.reminders;
    var id := SaveRecord(db, None, rec);
    var vehicle := db.vehicles[rec.vehicle];
    RaisedMileageIdempotent(before, rec.vehicle, rec.mileageAtService);
    OwnRegistrationIsFree(db.vehicles, rec.vehicle);
    NormalizedVinFixed(vehicle.vinNumber);
    var saved := db.SaveVehicle(Some(rec.vehicle), vehicle.(currentMileage := Max(vehicle.currentMileage, rec.mileageAtService)));
    assert db.vehicles == RaisedMileage(before, rec.vehicle, rec.mileageAtService);
    r := Ok(id);
  }

  /** `MaintenanceRecordViewSet.create_reminder`: the record is looked up
      among the user's records, the body is validated, and one more reminder
      is added to the record. */
  method CreateReminder(db: Db, user: nat, rid: nat, input: ReminderInput) returns (r: Result<nat>)
    requires db.Valid()
    modifies db`reminders, db`nextReminder
    ensures db.Valid()
    ensures rid !in OwnedRecords(old(db.vehicles), old(db.records), user) ==> r == Err(NotFound)
    ensures rid in OwnedRecords(old(db.vehicles), old(db.records), user) && !ValidReminderInput(old(db.records), input)
      ==> r == Err(BadRequest)
    ensures r.Err? ==> db.reminders == old(db.reminders) && db.nextReminder == old(db.nextReminder)
    ensures rid in OwnedRecords(old(db.vehicles), old(db.records), user) && ValidReminderInput(old(db.records), input) ==>
      && r == Ok(old(db.nextReminder))
      && db.reminders == old(db.reminders)[r.value := ReminderFromInput(rid, input)]
      && RemindersFor(db.reminders, rid) == RemindersFor(old(db.reminders), rid) + {r.value}
  {
    if rid !in OwnedRecords(db.vehicles, db.records, user) {
      return Err(NotFound);
    }
    if !ValidReminderInput(db.records, input) {
      return Err(BadRequest);
    }
    AddedReminderCounts(db.reminders, db.nextReminder, ReminderFromInput(rid, input));
    var id := db.WriteReminder(None, ReminderFromInput(rid, input));
    r := Ok(id);
  }

  /** `ReminderViewSet.mark_completed`: the reminder is looked up among the
      user's reminders and its flag set. */
  method MarkCompleted(db: Db, user: nat, id: nat) returns (r: Result<nat>)
    requires db.Valid()
    modifies db`reminders, db`nextReminder
    ensures db.Valid()
    ensures id !in OwnedReminders(old(db.vehicles), old(db.records), old(db.reminders), user) ==>
      r == Err(NotFound) && db.reminders == old(db.reminders)
    ensures id in OwnedReminders(old(db.vehicles), old(db.records), old(db.reminders), user) ==>
      r == Ok(id) && db.reminders == MarkedCompleted(old(db.reminders), id)
    ensures db.nextReminder == old(db.nextReminder)
  {
    if id !in OwnedReminders(db.vehicles, db.records, db.reminders, user) {
      return Err(NotFound);
    }
    var reminder := db.reminders[id];
    var written := db.WriteReminder(Some(id), reminder.(isCompleted := true));
    r := Ok(id);
  }
}
