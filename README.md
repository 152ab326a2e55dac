# Vehicle maintenance tracker: the write rules, verified

This project models the core of a Django REST backend where users keep
their vehicles, the vehicles' images, maintenance records and due-date
reminders. The database is modelled as one `Database.Db` object holding one
table per model. Each table is a map from row id to row, with an id counter
per table (ids are never reused). `Db.Valid()` is what the schema's
constraints and the models' `save` overrides maintain, given that every
write goes through `save`:

- every foreign key points at an existing row (a database constraint);
- e-mail addresses, registration numbers and maintenance-type names are
  unique (database constraints);
- a vehicle has at most one primary image (kept by `VehicleImage.save`, not
  by the database);
- every stored VIN is upper case without spaces (kept by `Vehicle.save`, not
  by the database).

Each table write is a method whose contract states the new tables in terms
of the old ones, often through a specification function. The properties
the code promises are lemmas about those functions. The modules follow the
source files:

- `Users` (`users/models.py`): `create_user`, `create_superuser`,
  `get_full_name` and `get_short_name`. The two manager methods are
  `Db.CreateUser` and `Db.CreateSuperuser`.
- `Vehicles` (`vehicles/models.py`): VIN normalisation, `__str__` and the
  single-primary rule of `VehicleImage.save`. The saves are `Db.SaveVehicle`
  and `Db.SaveImage`.
- `Maintenance` (`maintenance/models.py`): the three row types, the status
  enum, the defaults and the string forms. The CASCADE and PROTECT delete
  rules are the `Db.Delete…` methods.
- `Signals` (`maintenance/signals.py`): the pre-save mileage maximum
  (`RaisedMileage`) and the post-save reminder upsert (`UpsertReminder`).
  `SaveRecord` is `MaintenanceRecord.save` with both handlers attached.
- `MaintenanceViews` (`maintenance/views.py`) and `VehicleViews`
  (`vehicles/views.py`): the per-user querysets, `perform_create`,
  `create_reminder`, `mark_completed`, the two `upcoming` queries, and the
  `set-primary-image` and `delete-image` actions.
- `Text`, `Ordering` and `Common` hold the Python string operations the
  code uses, `order_by` on a date column, and options and results.

Dates are day numbers. "Today" is a parameter of the `upcoming` queries.
`normalize_email` is a function parameter of the user manager methods. The
date text in the record and reminder string forms is a `Date -> string`
parameter. A refused write or request is a `Result` error:

- `NotFound`: HTTP 404 from a lookup scoped to the requesting user;
- `BadRequest`: HTTP 400 from serializer validation;
- `Integrity`: a unique or foreign-key constraint;
- `Protected`: a PROTECT delete;
- `EmailRequired`, `NotStaff`, `NotSuperuser`: the `ValueError`s of the user manager.

### Behaviour of the code worth knowing

- Saving a record with no `next_due_date` deletes nothing:
  `maintenance/signals.py:10` only ever creates or updates a reminder.
- `perform_create` does not check that the record's vehicle belongs to the
  requester. The create serializer accepts any vehicle id
  (`maintenance/serializers.py:47-51`). `MaintenanceViews.PerformCreate`
  takes no user.
- `create_reminder` adds a reminder with no uniqueness check, so a record can
  have two reminders (`MaintenanceViews.AddedReminderCounts`). After that,
  a save of that record with a `next_due_date` makes Django's
  `update_or_create` in the post-save signal raise; a save without one
  never calls it and keeps every reminder. The model states this as the
  precondition `|RemindersFor(...)| <= 1` of `Signals.UpsertReminder`, and
  as the same precondition for a save with a next due date in
  `Signals.CreateOrUpdateReminder` and `Signals.SaveRecord`.

## Model

| member | source | states |
|---|---|---|
| Text.Strip | users/models.py:139 | the result is the slice of the input between its leading and its trailing run of Python whitespace: everything cut off is whitespace, the result neither starts nor ends with whitespace, and it is empty exactly when the input is all whitespace |
| Text.Upper | vehicles/models.py:64 | every character is upper-cased in place (ASCII letters), length kept |
| Text.Remove | vehicles/models.py:64 | `replace(" ", "")`: the character no longer occurs, nothing new appears, the result is never longer, a string without it is unchanged, and a one-character string loses exactly that character |
| Text.RemoveCounts | vehicles/models.py:64 | every character other than the removed one occurs in the result exactly as often as in the input |
| Text.RemoveAppend | vehicles/models.py:64 | removing from a concatenation is removing from each part and concatenating, so what is kept stays in the input's order |
| Text.UpperRemoveCommute | vehicles/models.py:64 | upper-casing then removing spaces equals removing spaces then upper-casing |
| Text.NatToString | vehicles/models.py:59 | `str(int)`: a non-empty string of decimal digits with no leading zero |
| Text.NatToStringRoundTrip | vehicles/models.py:59 | the digits read back as the number |
| Users.SetDefault | users/models.py:59-61 | `setdefault`: a key already given keeps its value, a missing key gets the default, no other key changes |
| Users.NewUser | users/models.py:35-40 | the new row carries the given e-mail and names; a flag not given takes the field default (active yes, staff no, superuser no) |
| Users.FullName | users/models.py:137-139 | first and last name joined by a space, stripped: no surrounding whitespace, never longer than the join |
| Users.FullNameOfTrimmedNames | users/models.py:137-139 | when both names are non-empty, the first name does not start and the last name does not end with whitespace, the full name is exactly the two names joined by one space |
| Users.FullNameOfBlankNames | users/models.py:137-139 | two empty or blank names give the empty full name |
| Users.FirstNameStartsFullName | users/models.py:137-139 | a non-empty first name with no surrounding whitespace is a prefix of the full name |
| Users.ShortName | users/models.py:141-149 | the first name, unchanged; when it has no surrounding whitespace it is where the full name begins |
| Users.UserStrIdentifies | users/models.py:126-128 | the string form is the e-mail address, so under the unique e-mail constraint two users with the same string form are the same user |
| Database.Db.CreateUser | users/models.py:30-44 | an empty e-mail is refused before anything is written; a normalised address already taken is refused by the unique constraint; otherwise exactly one row is added under a fresh id |
| Database.Db.CreateSuperuser | users/models.py:59-71 | `is_staff` or `is_superuser` given as anything but true is refused; with both true or absent, an empty e-mail is `EmailRequired` and a taken normalised address is `Integrity`, as in `create_user`; otherwise the new row is staff and superuser, active unless `is_active` was given false |
| Vehicles.ParseVehicleType | vehicles/models.py:7-13 | a stored value names exactly one vehicle type, and each type's value is accepted |
| Vehicles.NormalizeVin | vehicles/models.py:63-64 | the saved VIN has no space and no ASCII lower-case letter, is never longer, and an empty VIN stays empty |
| Vehicles.NormalizedVinFixed | vehicles/models.py:63-64 | a VIN already in normal form is left as it is |
| Vehicles.NormalizeVinIdempotent | vehicles/models.py:64 | normalising twice is normalising once |
| Vehicles.NormalizeVinKeepsLetters | vehicles/models.py:64 | the normal form is the VIN with its spaces removed, then upper-cased; with `Text.RemoveCounts` and `Text.RemoveAppend`, every non-space character is kept, in order |
| Vehicles.YearText | vehicles/models.py:59 | a set year is rendered as its decimal digits |
| Vehicles.VehicleStr | vehicles/models.py:58-59 | the year's text, then a space, the make, a space, the model and " (", then the registration number and ")", each part at its exact position |
| Vehicles.ImageStr | vehicles/models.py:89-90 | "Image of ", then the vehicle's string form, then the image id's digits in parentheses |
| Vehicles.ImageStrIdentifies | vehicles/models.py:89-90 | two images of one vehicle with the same string form have the same id |
| Vehicles.NewVehicle | vehicles/models.py:29-50 | a vehicle built from its required fields has type car, mileage 0, no year, purchase date, colour or VIN |
| Vehicles.OwnRegistrationIsFree | vehicles/models.py:24-28 | with unique registration numbers, re-saving a vehicle under its own id never clashes with another vehicle |
| Vehicles.ClearOtherPrimaries | vehicles/models.py:94-98 | the bulk update clears the flag of every other image of that vehicle, touches only that flag, never sets it, and leaves the kept image and other vehicles' images alone |
| Vehicles.SaveImageRowSinglePrimary | vehicles/models.py:92-99 | after saving a primary image it is its vehicle's only primary image; at most one primary per vehicle is kept; other vehicles' images never change; saving a non-primary image changes no other row |
| Vehicles.SaveImageRowKeepsInvariants | vehicles/models.py:92-99 | saving an image of an existing vehicle keeps every image linked and at most one primary per vehicle |
| Database.Db.SaveVehicle | vehicles/models.py:61-65 | the row is written with its VIN normalised under its own or a fresh id; it is refused, changing nothing, exactly when the owner is missing or another vehicle has the registration number |
| Database.Db.SaveImage | vehicles/models.py:92-99 | the image table becomes `SaveImageRow` of the old one; refused, changing nothing, exactly when the vehicle is missing |
| Maintenance.ParseStatus | maintenance/models.py:33-37 | a stored status value names exactly one of the four statuses |
| Maintenance.NewRecord | maintenance/models.py:51-82 | a record built from its required fields has status completed, cost 0.00 and nothing due |
| Maintenance.NewReminder | maintenance/models.py:103-105 | a new reminder is not completed and has no notes |
| Maintenance.TypeStrIdentifies | maintenance/models.py:26-27 | the string form is the type's name, so under the unique name constraint two types with the same string form are the same type |
| Maintenance.RecordStr | maintenance/models.py:91-92 | the type's name and " - ", then the vehicle's string form, then the date performed in parentheses |
| Maintenance.ReminderStr | maintenance/models.py:114-115 | "Reminder for ", then the string form `RecordStr` gives the reminder's record, then " - Due: " and the due date |
| Maintenance.CascadeKeepsRemindersLinked | maintenance/models.py:97-102 | deleting records together with their reminders leaves every other reminder, each still pointing at a remaining record |
| Database.Db.SaveType | maintenance/models.py:6-20 | a maintenance type is written unless another type has its name, which is refused changing nothing |
| Database.Db.WriteRecord | maintenance/models.py:39-50 | a record whose vehicle and type exist is written under its own or a fresh id, nothing else changing |
| Database.Db.WriteReminder | maintenance/models.py:97-105 | a reminder whose record exists is written under its own or a fresh id, nothing else changing |
| Database.Db.DeleteRecord | maintenance/models.py:97-102 | deleting a record deletes exactly its reminders; none of the remaining reminders points at it |
| Database.Db.DeleteVehicle | maintenance/models.py:39-44 | deleting a vehicle deletes exactly its images, its records and those records' reminders; no remaining record points at it |
| Database.Db.DeleteRecordsOf | maintenance/models.py:39-44 | the vehicle's records and exactly their reminders are removed |
| Database.Db.DeleteVehicleRow | vehicles/models.py:70-75 | with no record left on it, the vehicle and exactly its images are removed |
| Database.Db.DeleteType | maintenance/models.py:45-50 | a type some record refers to is refused and nothing changes; otherwise exactly that type is removed |
| Database.Db.DeleteImage | vehicles/views.py:80 | exactly that image row is removed |
| Signals.RaisedMileage | maintenance/signals.py:25-28 | the record's vehicle ends with the maximum of its mileage and the record's; no other vehicle and no other field changes |
| Signals.RaisedMileageUnchanged | maintenance/signals.py:25-26 | a mileage of zero, or not above the vehicle's, leaves the vehicle table unchanged |
| Signals.RaisedMileageIdempotent | maintenance/signals.py:25-28 | applying the rule twice with the same record is applying it once |
| Signals.RaisedMileageCommutes | maintenance/signals.py:25-28 | two records saved in either order leave the same mileages |
| Signals.ReminderNote | maintenance/signals.py:16 | "Upcoming maintenance for ", then the vehicle's string form, then " - " and the maintenance type's name, each part at its exact position |
| Signals.ReminderNoteIgnoresMileage | maintenance/signals.py:16 | the note reads the same before and after the mileage is raised |
| Signals.UpsertReminder | maintenance/signals.py:11-18 | for a record with at most one reminder (with more, `update_or_create` raises): afterwards it has exactly one, the one it had or a new row when it had none; it has the new due date and note and is not completed (even if it was); no other reminder changes and no other row is added |
| Signals.UpsertReminderIdempotent | maintenance/signals.py:11-18 | re-saving with the same due date changes nothing and inserts nothing |
| Signals.UpsertReminderSingle | maintenance/signals.py:11-17 | with exactly one reminder, that row is updated in place and nothing is inserted |
| Signals.UpdateVehicleMileage | maintenance/signals.py:20-28 | the vehicle table becomes `RaisedMileage` of the old one |
| Signals.CreateOrUpdateReminder | maintenance/signals.py:5-18 | with no next due date the reminder table is unchanged; with one it becomes `UpsertReminder` of the old table |
| Signals.PreSaveAndWrite | maintenance/signals.py:20-28 | the mileage rule, then the record row; a new record has no reminders yet |
| Signals.SaveRecord | maintenance/signals.py:5-28 | saving a record writes it, raises the vehicle's mileage as `RaisedMileage`, and upserts its reminder exactly when it has a next due date |
| Ordering.OrderByKey | maintenance/views.py:65 | `order_by`: every id once, nothing else, in ascending order of its key |
| MaintenanceViews.OwnedRecords | maintenance/views.py:38-39 | a listed record exists and is on a vehicle the user owns, and every such record is listed |
| MaintenanceViews.OwnedReminders | maintenance/views.py:98-101 | only reminders in the table are listed |
| MaintenanceViews.OwnedRemindersAreThoseOfOwnedRecords | maintenance/views.py:98-101 | the reminder filter through two foreign keys lists exactly the reminders of the user's records |
| MaintenanceViews.ListingsAreDisjoint | maintenance/views.py:38-39 | two users have no record and no reminder in common |
| MaintenanceViews.UpcomingRecords | maintenance/views.py:60-65 | exactly the user's records with a next due date of today or later, each once, in ascending order of that date; records without a due date are excluded |
| MaintenanceViews.UpcomingReminders | maintenance/views.py:116-122 | exactly the user's reminders not completed and due today or later, each once, in ascending order of due date |
| MaintenanceViews.MarkedCompleted | maintenance/views.py:111-113 | the chosen reminder is completed with every other field kept; every other reminder is unchanged |
| MaintenanceViews.MarkedCompletedIdempotent | maintenance/views.py:111-113 | marking twice is marking once |
| MaintenanceViews.MarkedCompletedLeavesUpcoming | maintenance/views.py:112-122 | a reminder marked completed drops out of the upcoming reminders and no other reminder enters or leaves |
| MaintenanceViews.AddedReminderCounts | maintenance/views.py:84-85 | adding a reminder to a record adds exactly one to its reminders, however many it had |
| MaintenanceViews.ValidReminderInput | maintenance/serializers.py:12-16 | the body is the definition: a valid body names an existing record and gives a due date; the flag and the notes may be left out |
| MaintenanceViews.ReminderFromInput | maintenance/views.py:79-85 | the new reminder belongs to the record in the URL, with the given due date; a flag or notes given are kept, and absent ones take `Maintenance.NewReminder`'s defaults, not completed and empty |
| MaintenanceViews.PerformCreate | maintenance/views.py:48-58 | a missing vehicle or type is a bad request that changes nothing; otherwise the record gets a fresh id, the vehicle's mileage is the maximum of old and record mileage (the second maximum repeats the signal's), and a reminder is inserted exactly when a next due date is set |
| MaintenanceViews.CreateReminder | maintenance/views.py:75-87 | a record outside the user's records is not found, an invalid body is a bad request, neither changes anything; otherwise one reminder is appended to the record |
| MaintenanceViews.MarkCompleted | maintenance/views.py:108-114 | a reminder outside the user's reminders is not found and nothing changes; otherwise the table becomes `MarkedCompleted` of the old one |
| VehicleViews.OwnedVehicles | vehicles/views.py:31-33 | a vehicle is listed exactly when the user owns it |
| VehicleViews.OwnedVehiclesPartition | vehicles/views.py:31-33 | two users never reach a common vehicle, and every vehicle is reachable by its owner |
| VehicleViews.SetPrimaryImage | vehicles/views.py:59-72 | not found, changing nothing, exactly when the vehicle is not the user's or the image is not among its images; otherwise the image becomes its vehicle's sole primary image and other vehicles' images are untouched |
| VehicleViews.DeleteImage | vehicles/views.py:74-86 | not found, changing nothing, exactly when the vehicle is not the user's or the image is not among its images; otherwise exactly that image is removed |

## Left out

- HTTP routing, view-set dispatch, pagination, filter and search backends, ordering parameters, and status codes other than found, not-found and bad-request: framework plumbing.
- JWT issuance and blacklisting, password hashing and `set_password`, `email_user`, image file storage and URL building, and logging: these are library calls or I/O.
- `normalize_email` is a parameter of the user manager methods. It is a library function whose behaviour the model does not fix.
- Users.NewUser: the extra fields are the three boolean flags. Other keyword fields, and flag values that are not booleans, are not modelled. So `is not True` becomes "is false".
- Text.Upper: only ASCII letters are upper-cased. Python's `str.upper` also maps other letters, some to several characters (`ß` becomes `SS`).
- Vehicles.NormalizeVin: "no lower-case letter" and "never longer" hold of the ASCII model only. In the source, `upper()` also upper-cases letters such as `é`, and `"ß".upper()` is `"SS"`, so a saved VIN can grow, even past `max_length=17` (vehicles/models.py:41).
- Database.Db.SaveVehicle: a save with `update_fields` is modelled as a whole-row write. This is equal for the only such save (the mileage signal), because the stored VIN is already normalised.
- Signals.UpsertReminder: requires at most one reminder for the record. With two or more, Django's `update_or_create` raises `MultipleObjectsReturned`, and the model does not imitate that error.
- Signals.CreateOrUpdateReminder: when the record has a next due date, requires at most one reminder for it. With two or more, Django's `update_or_create` raises an error, and the model does not imitate that error. A record without a next due date may have any number of reminders, and none is touched.
- Signals.SaveRecord: requires at most one reminder when re-saving an existing record with a next due date, for the same reason.
- MaintenanceViews.UpcomingRecords: the order among records with equal due dates is left unspecified, as the query leaves it.
- MaintenanceViews.UpcomingReminders: the order among reminders with equal due dates is left unspecified, as the query leaves it.
- MaintenanceViews.PerformCreate: does not model `last_maintenance_date`. `Vehicle` has no such field, so the assignment is never stored.
- MaintenanceViews.PerformCreate: the in-memory vehicle object is taken to equal its stored row. A concurrent write between validation and save is not modelled.
- The record and reminder `__str__` forms take the date's text as a parameter, because day numbers carry no calendar.
- `mark_uncompleted` and `DeleteAccountView` are routed but have no implementation in the source.
- The other actions of the view sets are left out: vehicle creation and update, `upload_image`, and the nested image view set. So are the generic create, update and delete of the model view sets. They are not part of this model.
- Deleting a user (CASCADE to vehicles) is left out; no view of the core deletes users.
- Vehicle image files, timestamps (`created_at`, `updated_at`, `uploaded_at`, `date_joined`) and the models' `Meta.ordering` are left out.
- Rows are written only with their own id or a fresh counter id. Explicit ids chosen by a client are not modelled.
- MaintenanceViews.PerformCreate: does not model integer width. `mileage_at_service`, `next_due_mileage` and `current_mileage` are `PositiveIntegerField`s, bounded at 2147483647, and serializer validation refuses larger values; the model's `nat` is unbounded, so any mileage is accepted.
- Database.Db.SaveVehicle, Database.Db.CreateUser, Database.Db.SaveType, Database.Db.SaveImage and MaintenanceViews.PerformCreate: do not model the `CharField` length limits, which serializer validation and the database's varchar columns enforce. Among them are `make` and `model_name` (100), `registration_number` (50), `color` (50), `vin_number` (17) and `vehicle_type` (20) in vehicles/models.py:22-44; `first_name` and `last_name` (50) in users/models.py:85-94, and the e-mail field's default limit of 254; `MaintenanceType.name` (100) in maintenance/models.py:7; `service_provider` (200) in maintenance/models.py:59-63; and `caption` (255) in vehicles/models.py:80. The model accepts strings of any length.
- Database.Db.SaveVehicle: does not model integer width either. `year` and `current_mileage` are bounded at 2147483647 in the database; the model accepts any `nat`. The two interval fields of `MaintenanceType` are bounded the same way and are unbounded in the model.
- Races on the read-modify-write of `current_mileage`, and transaction isolation, are left out: this is concurrency.
