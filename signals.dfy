/** The two signal handlers attached to maintenance records and the save
    they surround. Before a record is written, the vehicle's current mileage
    is raised to the record's mileage when that is higher
    (`update_vehicle_mileage`, a running maximum). After it is written, when
    the record has a next due date, the record's reminder is created or
    updated with that date, not completed, and a note naming the vehicle and
    the maintenance type (`create_or_update_reminder`). Nothing is deleted
    when the record has no next due date. */
module Signals {
  import opened Common
  import opened Vehicles
  import opened Maintenance
  import opened Database

  /** The vehicle table after the pre-save rule: the record's vehicle carries
      the larger of its mileage and the record's; nothing else changes. */
  function RaisedMileage(vehicles: map<nat, Vehicle>, vid: nat, mileage: nat): (r: map<nat, Vehicle>)
    ensures r.Keys == vehicles.Keys
    ensures vid in vehicles ==> r[vid] == vehicles[vid].(currentMileage := Max(vehicles[vid].currentMileage, mileage))
    ensures forall k :: k in vehicles && k != vid ==> r[k] == vehicles[k]
  {
    if mileage != 0 && vid in vehicles && mileage > vehicles[vid].currentMileage
    then vehicles[vid := vehicles[vid].(currentMileage := mileage)]
    else vehicles
  }

  /** A record whose mileage is zero or not above the vehicle's leaves the
      vehicle table as it is. */
  lemma RaisedMileageUnchanged(vehicles: map<nat, Vehicle>, vid: nat, mileage: nat)
    requires vid in vehicles
    requires mileage == 0 || mileage <= vehicles[vid].currentMileage
    ensures RaisedMileage(vehicles, vid, mileage) == vehicles
  {
  }

  /** Applying the rule twice with the same mileage is applying it once. */
  lemma RaisedMileageIdempotent(vehicles: map<nat, Vehicle>, vid: nat, mileage: nat)
    ensures RaisedMileage(RaisedMileage(vehicles, vid, mileage), vid, mileage) == RaisedMileage(vehicles, vid, mileage)
  {
  }

  /** Saving two records in either order leaves the same mileages. */
  lemma RaisedMileageCommutes(vehicles: map<nat, Vehicle>, a: nat, ma: nat, b: nat, mb: nat)
    ensures RaisedMileage(RaisedMileage(vehicles, a, ma), b, mb) == RaisedMileage(RaisedMileage(vehicles, b, mb), a, ma)
  {
    var left := RaisedMileage(RaisedMileage(vehicles, a, ma), b, mb);
    var right := RaisedMileage(RaisedMileage(vehicles, b, mb), a, ma);
    assert left.Keys == right.Keys;
    forall k | k in left ensures left[k] == right[k] {
    }
  }

  /** The note of an upcoming-maintenance reminder: the vehicle's and the
      maintenance type's string forms. */
  function ReminderNote(v: Vehicle, t: MaintenanceType): (r: string)
    ensures |r| == 25 + |VehicleStr(v)| + 3 + |t.name|
    ensures r[..25] == "Upcoming maintenance for " && r[25..25 + |VehicleStr(v)|] == VehicleStr(v)
    ensures r[25 + |VehicleStr(v)|..] == " - " + t.name
  {
    var tail := " - " + TypeStr(t);
    var r := "Upcoming maintenance for " + VehicleStr(v) + tail;
    assert r == "Upcoming maintenance for " + (VehicleStr(v) + tail);
    r
  }

  /** The note does not depend on the vehicle's mileage, so it reads the same
      before and after the pre-save rule raised it. */
  lemma ReminderNoteIgnoresMileage(v: Vehicle, mileage: nat, t: MaintenanceType)
    ensures ReminderNote(v.(currentMileage := mileage), t) == ReminderNote(v, t)
  {
  }

  /** `Reminder.objects.update_or_create(maintenance_record=rid, defaults=...)`
      on the reminder table: the record's reminder takes the new due date and
      note and becomes not completed; when the record has none, one is
      inserted under the new id `newId`. With two or more reminders Django
      raises instead, so the record may have at most one. */
  function UpsertReminder(reminders: map<nat, Reminder>, newId: nat, rid: nat, due: Date, note: string): (r: map<nat, Reminder>)
    requires newId !in reminders
    requires |RemindersFor(reminders, rid)| <= 1
    ensures |RemindersFor(r, rid)| == 1
    ensures RemindersFor(r, rid) == if RemindersFor(reminders, rid) == {} then {newId} else RemindersFor(reminders, rid)
    ensures forall k :: k in RemindersFor(r, rid) ==> r[k] == Reminder(rid, due, false, note)
    ensures forall k :: k in reminders && reminders[k].maintenanceRecord != rid ==> k in r && r[k] == reminders[k]
    ensures r.Keys == reminders.Keys + RemindersFor(r, rid)
  {
    var row := Reminder(rid, due, false, note);
    if RemindersFor(reminders, rid) == {} then
      InsertOnlyReminder(reminders, rid, newId, row);
      reminders[newId := row]
    else
      var k :| k in RemindersFor(reminders, rid);
      SingletonOfAtMostOne(RemindersFor(reminders, rid), k);
      RewriteOnlyReminder(reminders, rid, k, row);
      reminders[k := row]
  }

  /** Inserting a row for a record that has no reminder under a fresh id
      makes it the record's only reminder and changes no other row. */
  lemma InsertOnlyReminder(reminders: map<nat, Reminder>, rid: nat, newId: nat, row: Reminder)
    requires RemindersFor(reminders, rid) == {} && newId !in reminders && row.maintenanceRecord == rid
    ensures RemindersFor(reminders[newId := row], rid) == {newId}
    ensures forall k :: k in reminders ==> reminders[newId := row][k] == reminders[k]
    ensures reminders[newId := row].Keys == reminders.Keys + {newId}
  {
    forall j | j in reminders ensures reminders[j].maintenanceRecord != rid {
      assert j !in RemindersFor(reminders, rid);
    }
  }

  /** Rewriting a record's only reminder with a row of the same record
      leaves it the record's only reminder and changes no other row. */
  lemma RewriteOnlyReminder(reminders: map<nat, Reminder>, rid: nat, k: nat, row: Reminder)
    requires RemindersFor(reminders, rid) == {k} && row.maintenanceRecord == rid
    ensures RemindersFor(reminders[k := row], rid) == {k}
    ensures forall j :: j in reminders && j != k ==> reminders[k := row][j] == reminders[j]
    ensures reminders[k := row].Keys == reminders.Keys
  {
    forall j | j in reminders[k := row] && j != k ensures reminders[j].maintenanceRecord != rid {
      assert j !in RemindersFor(reminders, rid);
    }
  }

  /** Saving the record again with the same due date and note changes nothing
      and inserts nothing. */
  lemma UpsertReminderIdempotent(reminders: map<nat, Reminder>, newId: nat, newId2: nat, rid: nat, due: Date, note: string)
    requires newId !in reminders
    requires |RemindersFor(reminders, rid)| <= 1
    requires newId2 !in UpsertReminder(reminders, newId, rid, due, note)
    ensures UpsertReminder(UpsertReminder(reminders, newId, rid, due, note), newId2, rid, due, note)
         == UpsertReminder(reminders, newId, rid, due, note)
  {
    var once := UpsertReminder(reminders, newId, rid, due, note);
    var twice := UpsertReminder(once, newId2, rid, due, note);
    assert RemindersFor(once, rid) != {};
    assert twice.Keys == once.Keys;
    forall k | k in twice ensures twice[k] == once[k] {
      if k !in RemindersFor(once, rid) {
        assert once[k].maintenanceRecord != rid;
      }
    }
  }

  /** When the record has exactly one reminder, the upsert rewrites that one
      row. */
  lemma UpsertReminderSingle(reminders: map<nat, Reminder>, newId: nat, rid: nat, k: nat, due: Date, note: string)
    requires newId !in reminders
    requires RemindersFor(reminders, rid) == {k}
    ensures UpsertReminder(reminders, newId, rid, due, note) == reminders[k := Reminder(rid, due, false, note)]
  {
    var r := UpsertReminder(reminders, newId, rid, due, note);
    var w := reminders[k := Reminder(rid, due, false, note)];
    assert r.Keys == w.Keys;
    forall j | j in r ensures r[j] == w[j] {
      if j != k {
        assert j !in RemindersFor(reminders, rid);
      }
    }
  }

  /** `update_vehicle_mileage`, the pre-save handler. */
  method UpdateVehicleMileage(db: Db, rec: MaintenanceRecord)
    requires db.Valid()
    requires rec.vehicle in db.vehicles
    modifies db`vehicles, db`nextVehicle
    ensures db.Valid()
    ensures db.vehicles == RaisedMileage(old(db.vehicles), rec.vehicle, rec.mileageAtService)
    ensures db.nextVehicle == old(db.nextVehicle)
  {
    if rec.mileageAtService != 0 {
      var vehicle := db.vehicles[rec.vehicle];
      if rec.mileageAtService > vehicle.currentMileage {
        OwnRegistrationIsFree(db.vehicles, rec.vehicle);
        NormalizedVinFixed(vehicle.vinNumber);
        var r := db.SaveVehicle(Some(rec.vehicle), vehicle.(currentMileage := rec.mileageAtService));
      }
    }
  }

  /** `create_or_update_reminder`, the post-save handler, for the record
      `instance` just stored under `rid`. Only a record with a next due date
      reaches `update_or_create`, so only then may it have at most one
      reminder. */
  method CreateOrUpdateReminder(db: Db, rid: nat, instance: MaintenanceRecord)
    requires db.Valid()
    requires rid in db.records && db.records[rid] == instance
    requires instance.nextDueDate.Some? ==> |RemindersFor(db.reminders, rid)| <= 1
    modifies db`reminders, db`nextReminder
    ensures db.Valid()
    ensures instance.nextDueDate.None? ==> db.reminders == old(db.reminders) && db.nextReminder == old(db.nextReminder)
    ensures instance.nextDueDate.Some? ==>
      db.reminders == UpsertReminder(old(db.reminders), old(db.nextReminder), rid, instance.nextDueDate.value,
                                     ReminderNote(db.vehicles[instance.vehicle], db.types[instance.maintenanceType]))
  {
    if instance.nextDueDate.Some? {
      var note := ReminderNote(db.vehicles[instance.vehicle], db.types[instance.maintenanceType]);
      var row := Reminder(rid, instance.nextDueDate.value, false, note);
      var existing := RemindersFor(db.reminders, rid);
      if existing == {} {
        var id := db.WriteReminder(None, row);
      } else {
        var k :| k in existing;
        SingletonOfAtMostOne(existing, k);
        UpsertReminderSingle(db.reminders, db.nextReminder, rid, k, instance.nextDueDate.value, note);
        var id := db.WriteReminder(Some(k), row);
      }
    }
  }

  /** `MaintenanceRecord.save` with both handlers: the pre-save mileage rule
      and the row write under `pk` or a fresh id, then the reminder upsert. */
  method SaveRecord(db: Db, pk: Option<nat>, rec: MaintenanceRecord) returns (id: nat)
    requires db.Valid()
    requires pk.Some? ==> pk.value in db.records
    requires pk.Some? && rec.nextDueDate.Some? ==> |RemindersFor(db.reminders, pk.value)| <= 1
    requires rec.vehicle in db.vehicles && rec.maintenanceType in db.types
    modifies db`vehicles, db`nextVehicle, db`records, db`nextRecord, db`reminders, db`nextReminder
    ensures db.Valid()
    ensures id == pk.GetOr(old(db.nextRecord))
    ensures db.records == old(db.records)[id := rec]
    ensures db.nextRecord == if pk.Some? then old(db.nextRecord) else old(db.nextRecord) + 1
    ensures db.vehicles == RaisedMileage(old(db.vehicles), rec.vehicle, rec.mileageAtService)
    ensures db.nextVehicle == old(db.nextVehicle)
    ensures rec.nextDueDate.None? ==> db.reminders == old(db.reminders) && db.nextReminder == old(db.nextReminder)
    ensures rec.nextDueDate.Some? ==>
      db.reminders == UpsertReminder(old(db.reminders), old(db.nextReminder), id, rec.nextDueDate.value,
                                     ReminderNote(db.vehicles[rec.vehicle], db.types[rec.maintenanceType]))
  {
    id := PreSaveAndWrite(db, pk, rec);
    assert rec.nextDueDate.Some? ==> |RemindersFor(db.reminders, id)| <= 1;
    CreateOrUpdateReminder(db, id, rec);
  }

  /** The part of `MaintenanceRecord.save` before the post-save signal: the
      mileage rule, then the row write. The reminder table is not touched,
      and the record's reminders are those it had before (none for a new
      record). */
  method PreSaveAndWrite(db: Db, pk: Option<nat>, rec: MaintenanceRecord) returns (id: nat)
    requires db.Valid()
    requires pk.Some? ==> pk.value in db.records
    requires rec.vehicle in db.vehicles && rec.maintenanceType in db.types
    modifies db`vehicles, db`nextVehicle, db`records, db`nextRecord
    ensures db.Valid()
    ensures id == pk.GetOr(old(db.nextRecord))
    ensures db.records == old(db.records)[id := rec]
    ensures db.nextRecord == if pk.Some? then old(db.nextRecord) else old(db.nextRecord) + 1
    ensures db.vehicles == RaisedMileage(old(db.vehicles), rec.vehicle, rec.mileageAtService)
    ensures db.nextVehicle == old(db.nextVehicle)
    ensures pk.None? ==> RemindersFor(db.reminders, id) == {}
  {
    UpdateVehicleMileage(db, rec);
    if pk.None? {
      NoRemindersForFreshRecord(db.reminders, db.records.Keys, db.nextRecord);
    }
    id := db.WriteRecord(pk, rec);
  }

  /** A record id that no stored record has yet has no reminders. */
  lemma NoRemindersForFreshRecord(reminders: map<nat, Reminder>, recordIds: set<nat>, id: nat)
    requires RemindersLinked(reminders, recordIds)
    requires id !in recordIds
    ensures RemindersFor(reminders, id) == {}
  {
  }
}
