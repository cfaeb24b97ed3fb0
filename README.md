# Battery inventory: the capacity rule and the stores around it

This project models the core of a small Django application. The application keeps, for each user account:

- battery types;
- battery models;
- devices, each with a battery type and a capacity of 1 to 10;
- assignments of a quantity of one battery model to one device.

The one real rule is the allocation check on an assignment's quantity. The batteries assigned to a device must not exceed its capacity.

The model has these parts:

- `Models` (models.dfy) holds the schema as four tables of type `map<Pk, Row>`. It also holds:
  - the capacity validators;
  - the foreign keys and their `on_delete=CASCADE` behaviour, which Django carries out itself;
  - the `__str__` formats;
  - the capacity rule itself, `WithinCapacity`: no device holds more than its capacity.
- `Aggregates` (aggregates.dfy) holds the SQL `SUM` over a table, which is NULL over no rows, and the key order that options are listed in.
- `Numerals` (numerals.dfy) holds Python's `str(int)` and reading a number back.
- `Forms` (forms.dfy) holds:
  - `clean_battery_qty` as the pure function `CheckQty`;
  - the whole assignment-form validation `CleanAssignment`, including the ways it raises;
  - the device form;
  - the two filter forms as classes whose constructors build their choice lists.
- `Orm` (orm.dfy) holds the database as a class `Store`. Its fields are the tables and the auto-increment counter. Each method is one INSERT, UPDATE or DELETE, except `UpsertDevice`: an UPDATE of the row with the given id, followed by an INSERT under that id when no row matched. That is what `save()` does with an id set, and it is the path of the device takeover.
- `Http` (http.dfy) holds what a view returns.
- `AssignmentViews` (assignment_views.dfy) and `DeviceViews` (device_views.dfy) hold:
  - the list views, as methods over the tables;
  - the detail and delete views, as methods on a `Store`;
  - the lemmas on when the capacity rule survives a write.

Some outcomes are exceptions that escape a view. They are modelled as the results `Crash`, `ServerError` and `Failed`:

- a `KeyError` or `MultipleObjectsReturned` inside the check;
- an unbound local after an invalid filter form;
- a view that returns `None`.

## Behaviour as coded

Two behaviours of the check are easy to misread:

- **The noun in the rejection message.** It is "batteries" exactly when the ceiling is above 1. A ceiling of 0 or below therefore reads "battery" (forms.py:60).
- **The committed sum.** It counts the assignments on every device with the submitted description. It includes the record being edited only while that record sits on such a device. On a move the record still sits on its old device, so it is not in the sum, yet its old quantity is added back to the ceiling (forms.py:43-53). This is the first row under Findings.

## Model

| member | source | states |
|---|---|---|
| Aggregates.Aggregate | battery/views/assignment.py:58 | `Sum` over the rows is None exactly when there are no rows, and otherwise the total |
| Aggregates.Ascending | battery/forms.py:84 | the ids of a query in increasing order, each once, and nothing else |
| Numerals.Decimal | battery/forms.py:61 | the f-string rendering of the ceiling: a numeral with no space, with a leading minus exactly for negative values, no leading zero and no "-0" |
| Numerals.CanonicalIsDecimal | battery/forms.py:61 | every numeral without leading zero (and not "-0") is the rendering of the number it reads as, so the rendering of each integer is the only such numeral |
| Numerals.DecimalRoundTrip | battery/forms.py:61 | reading a rendered integer back gives the same integer |
| Models.Purge | battery/models.py:24-48 | a cascading delete keeps exactly the rows that neither were deleted nor reference a deleted row |
| Models.PurgeKeepsConsistent | battery/models.py:24-48 | after a cascading delete no foreign key dangles, rows still refer only to their own account, and capacities stay in range |
| Models.PurgeKeepsCapacity | battery/models.py:43-44 | a cascading delete never puts a device over its capacity |
| Models.DeleteAssignmentRemovesOnlyIt | battery/views/assignment.py:128-129 | deleting an assignment removes that one row and changes nothing else |
| Models.DeleteDeviceCascades | battery/models.py:43 | deleting a device removes it and exactly the assignments on it |
| Models.DeleteModelCascades | battery/models.py:44 | deleting a battery model removes it and exactly the assignments of that model |
| Models.DeleteTypeCascades | battery/models.py:24-43 | deleting a battery type removes its devices and, through them, their assignments |
| Models.DeleteAssignment | battery/views/assignment.py:128-129 | `BatteryAssignment.delete()` as a cascade from that one row; `DeleteAssignmentRemovesOnlyIt` states its effect |
| Models.DeleteDevice | battery/views/device.py:94-95 | `Device.delete()` as a cascade from that device; `DeleteDeviceCascades` states its effect |
| Models.DeleteModel | battery/views/model.py:65-66 | `BatteryModel.delete()` as a cascade from that model; `DeleteModelCascades` states its effect |
| Models.DeleteType | battery/views/type.py:65-66 | `BatteryType.delete()` as a cascade from that type; `DeleteTypeCascades` states its effect |
| Models.DeleteUser | battery/models.py:14-48 | deleting an account as a cascade from every row whose `user` is that account; `DeleteUserRemovesOwnedRows` states its effect |
| Models.DeleteUserRemovesOwnedRows | battery/models.py:14-48 | when every row refers only to rows of its own account (`OwnersAgree`), deleting an account removes exactly the rows it owns, in all four tables; without it the cascade also takes other accounts' rows (`DeviceViews.TakeoverThenDeleteAccount`) |
| Models.SaveAssignment | battery/views/assignment.py:93 | saving an assignment leaves the other tables unchanged |
| Models.SaveDevice | battery/views/device.py:59 | saving a device leaves the other tables unchanged |
| Models.LoadAfterSave | battery/views/assignment.py:90-93 | saving row k moves its old quantity off its old device and adds the new quantity to the new device |
| Models.DeviceLabel | battery/models.py:29-30 | a device's label starts with its description and " (" and ends with ")"; the count and the type code between them are read back by `DeviceLabelShowsCapacity` and `DeviceLabelShowsType` |
| Models.AssignmentLabel | battery/models.py:51-52 | an assignment's label starts with its device's label and " (" and ends with ")"; the count and the model's description between them are read back by `AssignmentLabelShowsQty` and `AssignmentLabelShowsModel` |
| Models.TypeLabel | battery/models.py:17-19 | `BatteryType.__str__`: the type code alone, shown in device labels (`DeviceLabelShowsType`) and the type options (`Forms.TypeRowsListOwnedTypes`) |
| Models.ModelLabel | battery/models.py:38-39 | `BatteryModel.__str__`: the description, shown in assignment labels (`AssignmentLabelShowsModel`) and the model options (`Forms.ModelRowsListOwnedModels`) |
| Models.NameReadsBack | battery/models.py:30 | the name in "prefix (Nx name)" reads back as that name, whatever it contains |
| Models.DeviceLabelShowsType | battery/models.py:30 | a device's label ends with its battery type's code, after the count |
| Models.AssignmentLabelShowsModel | battery/models.py:52 | an assignment's label ends with its battery model's description, after the count |
| Models.CountReadsBack | battery/models.py:30 | the count in "prefix (Nx tail)" reads back as N |
| Models.DeviceLabelShowsCapacity | battery/models.py:30 | the capacity can be read back from a device's label |
| Models.AssignmentLabelShowsQty | battery/models.py:52 | the quantity can be read back from an assignment's label |
| Forms.Pooled | battery/forms.py:43-44 | the rows summed are exactly the account's assignments whose device has the chosen description, whichever device that is |
| Forms.OrZero | battery/forms.py:46 | a missing aggregate reads as 0 and any present sum as itself: the truthiness test turns only None and 0 into 0 |
| Forms.PooledTotal | battery/forms.py:43-46 | the committed sum is the total over those rows, and 0 when there are none |
| Forms.Noun | battery/forms.py:60 | "batteries" exactly when the ceiling exceeds 1, otherwise "battery" |
| Forms.CapacityMessage | battery/forms.py:61 | the rejection message starts "No more than " |
| Forms.NounInMessage | battery/forms.py:60-61 | the message shows the pluralised noun right after the ceiling, and ends " can be assigned to this device." |
| Forms.CeilingInMessage | battery/forms.py:61 | the ceiling, zero and negative values included, can be read back from the message |
| Forms.MessageDeterminesCeiling | battery/forms.py:61 | two different ceilings never give the same message |
| Forms.CheckQty | battery/forms.py:53-65 | a quantity is accepted iff 1 ≤ qty ≤ capacity − committed + initial; it is returned unchanged; a rejection carries the message for that ceiling, from which the ceiling reads back |
| Forms.CheckQtyBoundaries | battery/forms.py:56-62 | 0 is always rejected, the ceiling itself is accepted when it is at least 1, and one more than the ceiling is rejected with the ceiling's message |
| Forms.CleanAssignment | battery/forms.py:29-65 | validation crashes iff the quantity is well formed while the device is invalid or shares its description; it succeeds iff every field is valid and 1 ≤ qty ≤ ceiling, keeping the submitted values; otherwise the device and model fields are in error iff they are invalid, the quantity field iff it is malformed or the capacity check rejected it, and the capacity message appears iff the quantity and device fields are valid and the quantity is outside 1..ceiling, and it is exactly the message for that ceiling |
| Forms.Strip | battery/models.py:23 | the result is the slice of the text between its leading and its trailing blanks, has no surrounding blank, and is empty exactly when the text is all blank |
| Forms.DeviceFormOk | battery/forms.py:107-115 | the device form is valid iff the stripped description has 1 to 100 characters and no NUL character, the battery type is one of the account's, and the capacity is within 1..10 |
| Forms.BlankDescriptionRejected | battery/models.py:23 | a description made only of blanks never passes the device form |
| Forms.DeviceOf | battery/views/device.py:53-54 | the saved device holds the stripped description, the submitted battery type and capacity, and the account as owner |
| Forms.Options | battery/forms.py:84 | one option per key, in key order, each labelled by its row's text |
| Forms.OptionsOfAscending | battery/forms.py:84 | the options over a set of ids list each id once, in ascending order, and nothing else |
| Forms.TypeRowsListOwnedTypes | battery/forms.py:84 | the battery type options are exactly the account's types, labelled by their codes |
| Forms.ModelRowsListOwnedModels | battery/forms.py:90 | the battery model options are exactly the account's models, labelled by their descriptions |
| Forms.CleanChoice | battery/forms.py:86 | an optional choice accepts empty input as unselected and otherwise only the value of an option |
| Forms.AssignmentFilterForm.constructor | battery/forms.py:70-92 | each select is the '0' prompt followed by the account's rows |
| Forms.DeviceFilterForm.constructor | battery/forms.py:120-136 | the type select is the '0' prompt followed by the account's types |
| Forms.PromptedChoiceAccepts | battery/forms.py:85-86 | a select headed by a '0' prompt accepts a number iff it is 0 or one of the listed ids |
| Forms.TypeFilterAccepts | battery/forms.py:134-136 | the battery type filter accepts exactly '0' and the account's own type ids |
| Forms.ModelFilterAccepts | battery/forms.py:90-92 | the battery model filter accepts exactly '0' and the account's own model ids |
| Orm.Store.constructor | battery/models.py:11-48 | the database starts with empty tables |
| Orm.Store.InsertAssignment | battery/views/assignment.py:93 | a new assignment is stored under a fresh id, and foreign keys still resolve |
| Orm.Store.UpdateAssignment | battery/views/assignment.py:90-93 | the assignment with the given id is overwritten and nothing else changes |
| Orm.Store.InsertDevice | battery/views/device.py:59 | a new device is stored under a fresh id |
| Orm.Store.UpsertDevice | battery/views/device.py:56-59 | saving a device under a given id overwrites or creates that row, whoever owned it |
| Orm.Store.Delete | battery/views/device.py:94-95 | a delete leaves exactly the cascade's result |
| AssignmentViews.Listed | battery/views/assignment.py:29-44 | the listed rows are exactly the account's assignments that match the type filter through their device and match the model filter |
| AssignmentViews.ListAssignments | battery/views/assignment.py:13-60 | with no type parameter every assignment of the account is listed; otherwise the page fails iff the filter is not one of the options or the model is left empty; the four filter cases pick the rows; the total is the sum over exactly the listed rows |
| AssignmentViews.AssignmentDetail | battery/views/assignment.py:71-121 | 404 for a foreign or missing assignment on update; validation uses initial 0 on create and the stored quantity on update; only a valid form writes, saving the record with the account as owner under a fresh id or the given id |
| AssignmentViews.AssignmentDelete | battery/views/assignment.py:125-135 | a POST removes exactly the account's assignment with that id, or answers 404; a GET changes nothing |
| AssignmentViews.LoadWithinPooled | battery/forms.py:43-46 | when every row refers only to rows of its own account (`OwnersAgree`), the committed sum is at least the device's own load |
| AssignmentViews.PooledIsLoad | battery/forms.py:43-46 | in a `Consistent` database (links resolve, `OwnersAgree`, capacities in range) with no other device of the same description, the committed sum is the device's load |
| AssignmentViews.SaveOwnRecordKeepsConsistent | battery/forms.py:25-26 | a record built from the account's own device and model keeps every row within its account |
| AssignmentViews.CreateKeepsCapacity | battery/views/assignment.py:77-93 | from a state where every row refers only to rows of its own account (`OwnersAgree`) and every device is within capacity, a create that passed the check keeps every device within its capacity |
| AssignmentViews.SameDeviceUpdateKeepsCapacity | battery/views/assignment.py:79-93 | from a state where every row refers only to rows of its own account (`OwnersAgree`) and every device is within capacity, an update that passed the check and stays on its device keeps every device within its capacity |
| AssignmentViews.DeleteAssignmentKeepsInvariant | battery/views/assignment.py:128-129 | deleting an assignment keeps every device within its capacity |
| AssignmentViews.UnchangedEditRevalidates | battery/forms.py:53-56 | when every row refers only to rows of its own account (`OwnersAgree`), resubmitting an unchanged assignment passes again whenever its device is within capacity, its device's description is unique among the account's devices, and its quantity is at least 1 |
| AssignmentViews.SharedDescriptionCrashes | battery/forms.py:33 | two of the account's devices with one description make the check raise |
| AssignmentViews.MoveAccepted | battery/forms.py:53 | moving 4 batteries onto a device already holding 3 of 4 is accepted |
| AssignmentViews.MoveCanOverfill | battery/forms.py:53 | that accepted move leaves the device holding 7 batteries against a capacity of 4 |
| AssignmentViews.CleanFollowsCeiling | battery/forms.py:29-65 | the validation outcome depends on the rows only through the devices, the models and the ceiling |
| AssignmentViews.ExcludingEditedKeepsCapacity | battery/forms.py:48-53 | with the edited record left out of the sum, every accepted update keeps every device within capacity, moves included, from a state satisfying `OwnersAgree` |
| AssignmentViews.ExcludingEditedAgreesOnSameDevice | battery/forms.py:48-53 | for an update on the same device, leaving the record out gives the same outcome as adding its old quantity back |
| AssignmentViews.ExcludingEditedRejectsMove | battery/forms.py:53 | the corrected check rejects the overfilling move and names a ceiling of 1 |
| DeviceViews.DevicesListed | battery/views/device.py:24-27 | the listed devices are exactly the account's devices of the filtered type, or all of them for 0 |
| DeviceViews.ListDevices | battery/views/device.py:13-42 | with no type parameter every device of the account is listed; otherwise the page fails iff the value is not an option; the total is the sum of the listed capacities |
| DeviceViews.DeviceDetail | battery/views/device.py:46-87 | a GET answers 404 for a device that is not the account's; a POST writes iff the form is valid, as a new row or over the row with the given id, owned by the account |
| DeviceViews.DeviceDelete | battery/views/device.py:91-96 | a POST removes the account's device and its assignments, or answers 404; a GET gets no response |
| DeviceViews.DeviceCreateKeepsInvariant | battery/views/device.py:53-59 | a new device has nothing assigned, so the capacity rule still holds |
| DeviceViews.OwnDeviceUpdate | battery/views/device.py:49-59 | editing an own device keeps rows within their accounts, and the rule holds afterwards iff the new capacity covers the device's load |
| DeviceViews.DeviceEditCanOverfill | battery/views/device.py:49-59 | lowering a full device's capacity is accepted and breaks the rule |
| DeviceViews.ForeignDeviceTakeover | battery/views/device.py:56-59 | a POST update of another account's device is saved, leaving that account's assignment on a device it no longer owns |
| DeviceViews.TakeoverThenCreateOverfills | battery/forms.py:43-44 | after a takeover, the device's previous owner's batteries are no longer counted for its new owner, so a create that passes the check leaves the device over capacity; the database it starts from is the one the takeover saves (`DeviceViews.TakenOverIsSaved`) |
| DeviceViews.TakenOverIsSaved | battery/views/device.py:56-59 | account 2's device form passes, and saving it over device 1 gives exactly the taken-over database |
| DeviceViews.TakeoverThenDeleteAccount | battery/models.py:26 | after a takeover, deleting the new owner's account also deletes the previous owner's assignment, through the cascade on the device |
| DeviceViews.GuardedUpdateKeepsOwnership | battery/views/device.py:82 | an update that is looked up by owner first writes only the account's own device and keeps every row within its account |
| DeviceViews.DeviceDeleteKeepsInvariant | battery/views/device.py:94-95 | deleting a device keeps the capacity rule and leaves no assignment on it |

## Findings

| source | as written | input that shows it | evidently intended | confidence | as-written member | corrected member |
|---|---|---|---|---|---|---|
| battery/forms.py:53 | the ceiling adds the edited record's old quantity back even when the update moves the record to another device | two devices of capacity 4 each hold 3 batteries; assignment 1 is moved to the second device with quantity 4, the ceiling is 4 − 3 + 3 = 4, and the device ends with 7 | leave the edited record out of the committed sum and add nothing back | high, not executed | AssignmentViews.MoveCanOverfill | AssignmentViews.ExcludingEditedKeepsCapacity |
| battery/views/device.py:56-59 | an update saves the device under the posted id without checking whose it is | account 2 posts an update for account 1's device 1 with its own battery type, and the row becomes account 2's while account 1's assignment stays on it; the assignment check then ignores those batteries for account 2 (`DeviceViews.TakeoverThenCreateOverfills`), and deleting account 2 deletes account 1's assignment (`DeviceViews.TakeoverThenDeleteAccount`) | answer 404 unless the id is the account's own device, as the GET path does at battery/views/device.py:82 | high, not executed | DeviceViews.ForeignDeviceTakeover | DeviceViews.GuardedUpdateKeepsOwnership |

The views `AssignmentDetail` and `DeviceDetail` model the code as written. The corrected definitions stand beside them: `CleanUpdateExcludingEdited` and `GuardedDeviceUpdate`.

## Left out

- Query order: lists of rows are modelled as maps, without order. Choice lists are modelled in ascending id order, the order an unordered query usually returns.
- Form input parsing: text to integers and ids is abstracted to `Option` values. Field error messages other than the capacity message are not modelled; only which fields are in error.
- Model validation after the form's field cleaning (`ModelForm` calling `full_clean`) is modelled only for the device capacity. `DeviceFormOk` checks `MinValueValidator(1)` and `MaxValueValidator(10)` through `CapacityInRange`. The 32767 column bound on an assignment's quantity is not enforced.
- Orm.Store: one id counter serves all four tables, while the database keeps one per table. Ids still never repeat within a table, which is all the views rely on.
- Orm.Store.UpsertDevice: it moves the counter past an id that was saved explicitly, as SQLite does. A PostgreSQL sequence would not move, so a later insert could collide with that id; the model does not capture that error.
- Forms.Strip: blanks are the characters Python's `str.isspace()` holds for in current Unicode versions; a Python built on an older Unicode table may differ.
- The race between reading the sum and saving the row is left out. The model is sequential.
- Login, CSRF and templates are left out. The content of the pages a GET renders is left out too, including the initial quantity 1 of an empty form.
- battery/views/model.py and battery/views/type.py are not part of this model. Their GET (line 53) and delete (line 65) look the row up by owner, and their cascading deletes are `Models.DeleteModel` and `Models.DeleteType`. Their POST update (lines 28-31) sets the posted id and saves with no owner lookup, the same takeover as battery/views/device.py:56-59. Taking over a battery type leaves the previous owner's devices on a foreign type, and taking over a battery model leaves the previous owner's assignments on a foreign model; either way `OwnersAgree` fails, and the capacity lemmas that assume it no longer apply.
- battery/views/signup.py and accounts/adapter.py are not part of this model: the seeding on signup is switched off by the adapter. Deleting an account is `Models.DeleteUser`.
- The URL configuration and the admin registration are not part of this model.
