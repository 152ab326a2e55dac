/** The database: one in-memory table per model, each a map from row id to
    row, and one id counter per table (ids are never reused). `Valid()` is
    what the schema's constraints and the models' `save` overrides maintain,
    given that every write goes through `save`: the database itself keeps
    every foreign key pointing at an existing row and the unique columns
    unique; `VehicleImage.save` keeps each vehicle to at most one primary
    image, and `Vehicle.save` keeps every stored VIN normalised.

    The methods here are the models' own writes: the user manager's
    `create_user` and `create_superuser`, the `save` overrides of `Vehicle`
    and `VehicleImage`, plain row writes, and the deletes that follow the
    CASCADE and PROTECT rules of the foreign keys. */
module Database {
  import opened Common
  import opened Users
  import opened Vehicles
  import opened Maintenance

  class Db {
    var users: map<nat, User>
    var vehicles: map<nat, Vehicle>
    var images: map<nat, VehicleImage>
    var types: map<nat, MaintenanceType>
    var records: map<nat, MaintenanceRecord>
    var reminders: map<nat, Reminder>

    var nextUser: nat
    var nextVehicle: nat
    var nextImage: nat
    var nextType: nat
    var nextRecord: nat
    var nextReminder: nat

    ghost predicate Valid()
      reads this
    {
      && KeysBelow(users.Keys, nextUser)
      && KeysBelow(vehicles.Keys, nextVehicle)
      && KeysBelow(images.Keys, nextImage)
      && KeysBelow(types.Keys, nextType)
      && KeysBelow(records.Keys, nextRecord)
      && KeysBelow(reminders.Keys, nextReminder)
      && TablesConsistent(users, vehicles, images, types, records, reminders)
    }

    constructor ()
      ensures Valid()
      ensures users == map[] && vehicles == map[] && images == map[]
      ensures types == map[] && records == map[] && reminders == map[]
    {
      users, vehicles, images := map[], map[], map[];
      types, records, reminders := map[], map[], map[];
      nextUser, nextVehicle, nextImage := 0, 0, 0;
      nextType, nextRecord, nextReminder := 0, 0, 0;
    }

    /** `UserManager.create_user`: an empty e-mail is refused before anything
        is written; otherwise the address is normalised and the user row is
        inserted, unless the address is already taken. */
    method CreateUser(email: string, firstName: string, lastName: string, extra: ExtraFields,
                      normalizeEmail: string -> string)
      returns (r: Result<nat>)
      requires Valid()
      modifies this`users, this`nextUser
      ensures Valid()
      ensures email == "" ==> r == Err(EmailRequired)
      ensures email != "" && normalizeEmail(email) in EmailsOf(old(users)) ==> r == Err(Integrity)
      ensures r.Err? ==> users == old(users) && nextUser == old(nextUser)
      ensures email != "" && normalizeEmail(email) !in EmailsOf(old(users)) ==>
        && r == Ok(old(nextUser))
        && users == old(users)[old(nextUser) := NewUser(normalizeEmail(email), firstName, lastName, extra)]
        && nextUser == old(nextUser) + 1
    {
      if email == "" {
        return Err(EmailRequired);
      }
      var normalized := normalizeEmail(email);
      var user := NewUser(normalized, firstName, lastName, extra);
      if normalized in EmailsOf(users) {
        return Err(Integrity);
      }
      r := Ok(nextUser);
      users := users[nextUser := user];
      nextUser := nextUser + 1;
    }

    /** `UserManager.create_superuser`: `is_staff`, `is_superuser` and
        `is_active` are defaulted to true in the extra fields, then the first
        two must be true; the user is then created by `create_user`. */
    method CreateSuperuser(email: string, firstName: string, lastName: string, extra: ExtraFields,
                           normalizeEmail: string -> string)
      returns (r: Result<nat>)
      requires Valid()
      modifies this`users, this`nextUser
      ensures Valid()
      ensures !Get(extra, IS_STAFF, true) ==> r == Err(NotStaff)
      ensures Get(extra, IS_STAFF, true) && !Get(extra, IS_SUPERUSER, true) ==> r == Err(NotSuperuser)
      ensures Get(extra, IS_STAFF, true) && Get(extra, IS_SUPERUSER, true) ==>
        (r.Ok? <==> email != "" && normalizeEmail(email) !in EmailsOf(old(users)))
      ensures Get(extra, IS_STAFF, true) && Get(extra, IS_SUPERUSER, true) && email == "" ==> r == Err(EmailRequired)
      ensures Get(extra, IS_STAFF, true) && Get(extra, IS_SUPERUSER, true) ==>
        (email != "" && normalizeEmail(email) in EmailsOf(old(users)) ==> r == Err(Integrity))
      ensures r.Err? ==> users == old(users) && nextUser == old(nextUser)
      ensures r.Ok? ==>
        && r == Ok(old(nextUser))
        && users == old(users)[r.value := User(normalizeEmail(email), firstName, lastName,
                                               Get(extra, IS_ACTIVE, true), true, true)]
        && nextUser == old(nextUser) + 1
    {
      var fields := extra;
      fields := SetDefault(fields, IS_STAFF, true);
      fields := SetDefault(fields, IS_SUPERUSER, true);
      fields := SetDefault(fields, IS_ACTIVE, true);
      if !fields[IS_STAFF] {
        return Err(NotStaff);
      }
      if !fields[IS_SUPERUSER] {
        return Err(NotSuperuser);
      }
      r := CreateUser(email, firstName, lastName, fields, normalizeEmail);
    }

    /** `Vehicle.save`: the VIN is normalised, then the row is written under
        `pk` (an update) or under a fresh id (an insert). The write is refused
        when the owner does not exist or the registration number belongs to
        another vehicle. */
    method SaveVehicle(pk: Option<nat>, v: Vehicle) returns (r: Result<nat>)
      requires Valid()
      requires pk.Some? ==> pk.value in vehicles
      modifies this`vehicles, this`nextVehicle
      ensures Valid()
      ensures var id := pk.GetOr(old(nextVehicle));
        && (r.Err? <==> v.owner !in users || v.registrationNumber in OtherRegistrations(old(vehicles), id))
        && (r.Err? ==> r.error == Integrity && vehicles == old(vehicles) && nextVehicle == old(nextVehicle))
        && (r.Ok? ==> r.value == id && vehicles == old(vehicles)[id := v.(vinNumber := NormalizeVin(v.vinNumber))])
        && (r.Ok? ==> nextVehicle == if pk.Some? then old(nextVehicle) else old(nextVehicle) + 1)
    {
      var vehicle := v;
      if vehicle.vinNumber != "" {
        vehicle := vehicle.(vinNumber := NormalizeVin(vehicle.vinNumber));
      }
      var id := pk.GetOr(nextVehicle);
      if vehicle.owner !in users || vehicle.registrationNumber in OtherRegistrations(vehicles, id) {
        return Err(Integrity);
      }
      vehicles := vehicles[id := vehicle];
      if pk.None? {
        nextVehicle := nextVehicle + 1;
      }
      r := Ok(id);
    }

    /** `VehicleImage.save`: when the image is primary, every other primary
        image of the same vehicle is cleared first; then the image's row is
        written under `pk` or a fresh id. Refused when the vehicle does not
        exist. */
    method SaveImage(pk: Option<nat>, img: VehicleImage) returns (r: Result<nat>)
      requires Valid()
      requires pk.Some? ==> pk.value in images
      modifies this`images, this`nextImage
      ensures Valid()
      ensures var id := pk.GetOr(old(nextImage));
        && (r.Err? <==> img.vehicle !in vehicles)
        && (r.Err? ==> r.error == Integrity && images == old(images) && nextImage == old(nextImage))
        && (r.Ok? ==> r.value == id && images == SaveImageRow(old(images), id, img))
        && (r.Ok? ==> nextImage == if pk.Some? then old(nextImage) else old(nextImage) + 1)
    {
      if img.vehicle !in vehicles {
        return Err(Integrity);
      }
      var id := pk.GetOr(nextImage);
      ghost var saved := SaveImageRow(images, id, img);
      SaveImageRowKeepsInvariants(images, vehicles.Keys, id, img);
      if img.isPrimary {
        images := ClearOtherPrimaries(images, img.vehicle, id);
      }
      images := images[id := img];
      assert images == saved;
      assert ImagesLinked(images, vehicles.Keys) && AtMostOnePrimary(images);
      if pk.None? {
        nextImage := nextImage + 1;
      }
      r := Ok(id);
    }

    /** Saving a maintenance type: refused when another type has the name. */
    method SaveType(pk: Option<nat>, t: MaintenanceType) returns (r: Result<nat>)
      requires Valid()
      requires pk.Some? ==> pk.value in types
      modifies this`types, this`nextType
      ensures Valid()
      ensures var id := pk.GetOr(old(nextType));
        && (r.Err? <==> exists k :: k in old(types) && k != id && old(types)[k].name == t.name)
        && (r.Err? ==> r.error == Integrity && types == old(types) && nextType == old(nextType))
        && (r.Ok? ==> r.value == id && types == old(types)[id := t])
        && (r.Ok? ==> nextType == if pk.Some? then old(nextType) else old(nextType) + 1)
    {
      var id := pk.GetOr(nextType);
      if t.name in (set k | k in types && k != id :: types[k].name) {
        return Err(Integrity);
      }
      types := types[id := t];
      if pk.None? {
        nextType := nextType + 1;
      }
      r := Ok(id);
    }

    /** The row write of a maintenance record (what `save` does between its
        pre-save and post-save signals), under `pk` or a fresh id. */
    method WriteRecord(pk: Option<nat>, rec: MaintenanceRecord) returns (id: nat)
      requires Valid()
      requires pk.Some? ==> pk.value in records
      requires rec.vehicle in vehicles && rec.maintenanceType in types
      modifies this`records, this`nextRecord
      ensures Valid()
      ensures id == pk.GetOr(old(nextRecord))
      ensures records == old(records)[id := rec]
      ensures nextRecord == if pk.Some? then old(nextRecord) else old(nextRecord) + 1
    {
      id := pk.GetOr(nextRecord);
      records := records[id := rec];
      if pk.None? {
        nextRecord := nextRecord + 1;
      }
    }

    /** The row write of a reminder, under `pk` or a fresh id. */
    method WriteReminder(pk: Option<nat>, rem: Reminder) returns (id: nat)
      requires Valid()
      requires pk.Some? ==> pk.value in reminders
      requires rem.maintenanceRecord in records
      modifies this`reminders, this`nextReminder
      ensures Valid()
      ensures id == pk.GetOr(old(nextReminder))
      ensures reminders == old(reminders)[id := rem]
      ensures nextReminder == if pk.Some? then old(nextReminder) else old(nextReminder) + 1
    {
      if pk.Some? {
        id := pk.value;
        reminders := reminders[id := rem];
      } else {
        id := nextReminder;
        reminders := reminders[id := rem];
        nextReminder := nextReminder + 1;
      }
    }

    /** Deleting an image: nothing refers to an image, so nothing else goes. */
    method DeleteImage(id: nat)
      requires Valid()
      requires id in images
      modifies this`images
      ensures Valid()
      ensures images == old(images) - {id}
    {
      KeysBelowShrink(images.Keys, (images - {id}).Keys, nextImage);
      images := images - {id};
    }

    /** Deleting a maintenance record deletes its reminders (CASCADE). */
    method DeleteRecord(id: nat)
      requires Valid()
      requires id in records
      modifies this`records, this`reminders
      ensures Valid()
      ensures records == old(records) - {id}
      ensures reminders == old(reminders) - RemindersFor(old(reminders), id)
      ensures forall k :: k in reminders ==> reminders[k].maintenanceRecord != id
    {
      CascadeKeepsRemindersLinked(records, reminders, {id});
      reminders := reminders - RemindersFor(reminders, id);
      records := records - {id};
    }

    /** Deleting a vehicle deletes its images and its maintenance records, and
        with the records their reminders (CASCADE). */
    method DeleteVehicle(id: nat)
      requires Valid()
      requires id in vehicles
      modifies this`vehicles, this`images, this`records, this`reminders
      ensures Valid()
      ensures vehicles == old(vehicles) - {id}
      ensures images == old(images) - ImagesOf(old(images), id)
      ensures records == old(records) - RecordsOf(old(records), id)
      ensures reminders == old(reminders) - RemindersOfAny(old(reminders), RecordsOf(old(records), id))
      ensures forall k :: k in records ==> records[k].vehicle != id
    {
      DeleteRecordsOf(id);
      DeleteVehicleRow(id);
    }

    /** The first step of the vehicle cascade: the vehicle's records and
        their reminders go. */
    method DeleteRecordsOf(id: nat)
      requires Valid()
      modifies this`records, this`reminders
      ensures Valid()
      ensures records == old(records) - RecordsOf(old(records), id)
      ensures reminders == old(reminders) - RemindersOfAny(old(reminders), RecordsOf(old(records), id))
      ensures RecordsOf(records, id) == {}
    {
      var gone := RecordsOf(records, id);
      CascadeKeepsRemindersLinked(records, reminders, gone);
      KeysBelowShrink(reminders.Keys, (reminders - RemindersOfAny(reminders, gone)).Keys, nextReminder);
      KeysBelowShrink(records.Keys, (records - gone).Keys, nextRecord);
      reminders := reminders - RemindersOfAny(reminders, gone);
      records := records - gone;
    }

    /** The second step: with no record left on the vehicle, its images and
        its own row go. */
    method DeleteVehicleRow(id: nat)
      requires Valid()
      requires RecordsOf(records, id) == {}
      modifies this`vehicles, this`images
      ensures Valid()
      ensures vehicles == old(vehicles) - {id}
      ensures images == old(images) - ImagesOf(old(images), id)
      ensures forall k :: k in records ==> records[k].vehicle != id
    {
      forall k | k in records ensures records[k].vehicle != id {
        assert k !in RecordsOf(records, id);
      }
      KeysBelowShrink(images.Keys, (images - ImagesOf(images, id)).Keys, nextImage);
      KeysBelowShrink(vehicles.Keys, (vehicles - {id}).Keys, nextVehicle);
      images := images - ImagesOf(images, id);
      vehicles := vehicles - {id};
    }

    /** Deleting a maintenance type is refused, changing nothing, while any
        record refers to it (PROTECT). */
    method DeleteType(id: nat) returns (r: Result<nat>)
      requires Valid()
      requires id in types
      modifies this`types
      ensures Valid()
      ensures RecordsOfType(records, id) != {} ==> r == Err(Protected) && types == old(types)
      ensures RecordsOfType(records, id) == {} ==> r == Ok(id) && types == old(types) - {id}
    {
      if RecordsOfType(records, id) != {} {
        return Err(Protected);
      }
      forall k | k in records ensures records[k].maintenanceType != id {
        assert k !in RecordsOfType(records, id);
      }
      types := types - {id};
      r := Ok(id);
    }
  }

  /** The table invariants: foreign keys resolve and unique columns are
      unique (the schema's constraints), at most one primary image per
      vehicle and stored VINs normalised (the `save` overrides). */
  ghost predicate TablesConsistent(users: map<nat, User>, vehicles: map<nat, Vehicle>, images: map<nat, VehicleImage>,
                                   types: map<nat, MaintenanceType>, records: map<nat, MaintenanceRecord>,
                                   reminders: map<nat, Reminder>)
  {
    && UniqueEmails(users)
    && OwnersExist(vehicles, users.Keys)
    && UniqueRegistrations(vehicles)
    && VinsNormalized(vehicles)
    && ImagesLinked(images, vehicles.Keys)
    && AtMostOnePrimary(images)
    && UniqueTypeNames(types)
    && RecordsLinked(records, vehicles.Keys, types.Keys)
    && RemindersLinked(reminders, records.Keys)
  }
}
