/** battery/views/assignment.py: the account's assignment list with its
    filter and total, the create/update screen that saves through the
    capacity check, and deletion. Also what that check does and does not
    guarantee about the rule that no device holds more batteries than its
    capacity. */
module AssignmentViews {
  import opened Aggregates
  import opened Models
  import opened Forms
  import opened Orm
  import opened Http

  // ---------------------------------------------------------------------
  // assignment: the list
  // ---------------------------------------------------------------------

  /** The rows the list shows for a battery type filter `t` and a battery
      model filter `m`, 0 meaning "not filtered": the account's own
      assignments, on a device of type `t`, of model `m`. */
  predicate Matches(db: Db, owner: Owner, t: int, m: int, a: Assignment) {
    && a.owner == owner
    && (t == 0 || (a.device in db.devices && db.devices[a.device].batteryType == t))
    && (m == 0 || a.batteryModel == m)
  }

  function Listed(db: Db, owner: Owner, t: int, m: int): (r: map<Pk, Assignment>)
    ensures SubTable(r, db.assignments)
    ensures forall k :: k in r <==> k in db.assignments && Matches(db, owner, t, m, db.assignments[k])
  {
    map k | k in db.assignments && Matches(db, owner, t, m, db.assignments[k]) :: db.assignments[k]
  }

  /** The filter the page can apply: both selects submitted with one of
      their options. A battery model left empty while a battery type is
      given reaches the query as '' and fails there. */
  predicate FilterApplies(db: Db, owner: Owner, typeParam: Param, modelParam: Param) {
    && typeParam.Numeral? && (typeParam.n == 0 || typeParam.n in OwnedTypes(db, owner))
    && modelParam.Numeral? && (modelParam.n == 0 || modelParam.n in OwnedModels(db, owner))
  }

  /** The list view. Without a battery type parameter (or with an empty one)
      every assignment of the account is listed, whatever battery model is
      asked for; otherwise the filter form is validated and the four cases
      of the two selects pick the query. An invalid form leaves the list
      unbound when the total is computed. */
  method ListAssignments(db: Db, owner: Owner, typeParam: Param, modelParam: Param) returns (page: Page<Assignment>)
    ensures !Given(typeParam) ==> page == Page(Listed(db, owner, 0, 0), Aggregate(Listed(db, owner, 0, 0), Qty))
    ensures Given(typeParam) ==> (page.Failed? <==> !FilterApplies(db, owner, typeParam, modelParam))
    ensures Given(typeParam) && page.Page? ==> page.rows == Listed(db, owner, typeParam.n, modelParam.n)
    ensures page.Page? ==> page.total == Aggregate(page.rows, Qty)
  {
    var form := new AssignmentFilterForm(db, owner);
    if Given(typeParam) {
      var typeFilter := CleanChoice(form.typeChoices, typeParam);
      var modelFilter := CleanChoice(form.modelChoices, modelParam);
      if typeParam.Numeral? { TypeFilterAccepts(db, owner, typeParam.n); }
      if modelParam.Numeral? { ModelFilterAccepts(db, owner, modelParam.n); }
      if typeFilter.None? || modelFilter.None? {
        return Failed;
      }
      var t, m := typeFilter.value, modelFilter.value;
      var rows;
      if t == Picked(0) && m == Picked(0) {
        rows := Listed(db, owner, 0, 0);
      } else if t == Picked(0) {
        if m == Unselected { return Failed; }
        rows := Listed(db, owner, 0, m.value);
      } else if m == Picked(0) {
        rows := Listed(db, owner, t.value, 0);
      } else {
        if m == Unselected { return Failed; }
        rows := Listed(db, owner, t.value, m.value);
      }
      page := Page(rows, Aggregate(rows, Qty));
    } else {
      var rows := Listed(db, owner, 0, 0);
      page := Page(rows, Aggregate(rows, Qty));
    }
  }

  // ---------------------------------------------------------------------
  // assignment_detail: create and update
  // ---------------------------------------------------------------------

  /** The assignment `pk` exists and belongs to the account (the lookup
      that answers 404 otherwise). */
  predicate Owned(db: Db, owner: Owner, pk: Pk) {
    pk in db.assignments && db.assignments[pk].owner == owner
  }

  /** The quantity the view puts in form.initial before validating. */
  function InitialQty(db: Db, pk: Pk, create: bool): nat
    requires !create ==> pk in db.assignments
  {
    if create then 0 else db.assignments[pk].qty
  }

  /** The detail view. A GET renders the form (404 for an assignment the
      account does not own). A POST validates against the stored quantity
      of the row being edited (0 when creating) and, when valid, saves the
      record with the account as owner: a new row when creating, the row
      `pk` when updating. An invalid form changes nothing. */
  method AssignmentDetail(store: Store, owner: Owner, post: bool, pk: Pk, create: bool, input: AssignmentInput)
    returns (resp: Response)
    requires store.Valid()
    modifies store
    ensures store.Valid()
    ensures resp != Redirect ==> store.db == old(store.db) && store.next == old(store.next)
    ensures !create && !Owned(old(store.db), owner, pk) ==> resp == NotFound
    ensures !post && (create || Owned(old(store.db), owner, pk)) ==> resp == Render
    ensures post && (create || Owned(old(store.db), owner, pk)) ==>
      var c := CleanAssignment(old(store.db), owner, input, InitialQty(old(store.db), pk, create));
      && (c.Crash? <==> resp == ServerError)
      && (c.Errors? <==> resp == Render)
      && (c.Cleaned? <==> resp == Redirect)
      && (c.Cleaned? ==>
            store.db == SaveAssignment(old(store.db), if create then old(store.next) else pk, Record(c, owner)))
    ensures create && resp == Redirect ==> old(store.next) !in old(store.db.assignments)
  {
    if !post {
      if !create && !Owned(store.db, owner, pk) {
        return NotFound;
      }
      return Render;
    }
    var initial: nat;
    if create {
      initial := 0;
    } else {
      if !Owned(store.db, owner, pk) {
        return NotFound;
      }
      initial := store.db.assignments[pk].qty;
    }
    var c := CleanAssignment(store.db, owner, input, initial);
    match c
    case Crash =>
      resp := ServerError;
    case Errors(_, _) =>
      resp := Render;
    case Cleaned(device, batteryModel, qty) =>
      var record := Assignment(device, batteryModel, qty, owner);
      if create {
        var k := store.InsertAssignment(record);
      } else {
        store.UpdateAssignment(pk, record);
      }
      resp := Redirect;
  }

  // ---------------------------------------------------------------------
  // assignment_delete
  // ---------------------------------------------------------------------

  /** A POST deletes the account's assignment `pk` and nothing else (404 if
      the account has none with that id); a GET only renders the
      confirmation page. */
  method AssignmentDelete(store: Store, owner: Owner, post: bool, pk: Pk) returns (resp: Response)
    requires store.Valid()
    modifies store
    ensures store.Valid() && store.next == old(store.next)
    ensures !post ==> resp == Render && store.db == old(store.db)
    ensures post && !Owned(old(store.db), owner, pk) ==> resp == NotFound && store.db == old(store.db)
    ensures post && Owned(old(store.db), owner, pk) ==>
      resp == Redirect && store.db == old(store.db).(assignments := old(store.db.assignments) - {pk})
  {
    if !post {
      return Render;
    }
    if !Owned(store.db, owner, pk) {
      return NotFound;
    }
    DeleteAssignmentRemovesOnlyIt(store.db, pk);
    store.Delete({}, {}, {}, {pk});
    resp := Redirect;
  }

  // ---------------------------------------------------------------------
  // What the check guarantees
  // ---------------------------------------------------------------------

  /** Everything on one of the account's devices is counted in the sum the
      check subtracts, as long as rows refer only to rows of their own
      account. */
  lemma LoadWithinPooled(db: Db, owner: Owner, d: Pk)
    requires Consistent(db) && OwnsDevice(db, owner, d)
    ensures Load(db, d) <= PooledTotal(db, owner, db.devices[d].description)
  {
    var desc := db.devices[d].description;
    TotalMonotonic(OnDevice(db.assignments, d), Pooled(db, owner, desc), Qty);
  }

  /** When no other device of the account shares the description, the sum
      the check subtracts is exactly the device's load. */
  lemma PooledIsLoad(db: Db, owner: Owner, d: Pk)
    requires Consistent(db) && OwnsDevice(db, owner, d) && UniquelyNamed(db, owner, d)
    ensures PooledTotal(db, owner, db.devices[d].description) == Load(db, d)
  {
    var desc := db.devices[d].description;
    forall k | k in Pooled(db, owner, desc) ensures k in OnDevice(db.assignments, d) {
      var e := db.assignments[k].device;
      assert e in DevicesNamed(db, owner, desc);
    }
    assert Pooled(db, owner, desc) == OnDevice(db.assignments, d);
  }

  /** A saved record whose device and model are the account's own keeps
      every row within its account. */
  lemma SaveOwnRecordKeepsConsistent(db: Db, owner: Owner, k: Pk, a: Assignment)
    requires Consistent(db)
    requires a.owner == owner && OwnsDevice(db, owner, a.device) && OwnsModel(db, owner, a.batteryModel)
    ensures Consistent(SaveAssignment(db, k, a))
  {
  }

  /** Creating an assignment that passed the check keeps every device within
      its capacity. */
  lemma CreateKeepsCapacity(db: Db, owner: Owner, input: AssignmentInput, key: Pk)
    requires Consistent(db) && WithinCapacity(db)
    requires key !in db.assignments
    requires CleanAssignment(db, owner, input, 0).Cleaned?
    ensures var r := SaveAssignment(db, key, Record(CleanAssignment(db, owner, input, 0), owner));
      Consistent(r) && WithinCapacity(r)
  {
    var a := Record(CleanAssignment(db, owner, input, 0), owner);
    var r := SaveAssignment(db, key, a);
    SaveOwnRecordKeepsConsistent(db, owner, key, a);
    forall d | d in r.devices ensures Load(r, d) <= r.devices[d].capacity {
      LoadAfterSave(db, key, a, d);
      if d == a.device {
        LoadWithinPooled(db, owner, d);
      }
    }
  }

  /** Updating an assignment that stays on its device, when the update
      passed the check, keeps every device within its capacity. */
  lemma SameDeviceUpdateKeepsCapacity(db: Db, owner: Owner, input: AssignmentInput, pk: Pk)
    requires Consistent(db) && WithinCapacity(db)
    requires Owned(db, owner, pk)
    requires CleanAssignment(db, owner, input, db.assignments[pk].qty).Cleaned?
    requires CleanAssignment(db, owner, input, db.assignments[pk].qty).device == db.assignments[pk].device
    ensures var r := SaveAssignment(db, pk, Record(CleanAssignment(db, owner, input, db.assignments[pk].qty), owner));
      Consistent(r) && WithinCapacity(r)
  {
    var a := Record(CleanAssignment(db, owner, input, db.assignments[pk].qty), owner);
    var r := SaveAssignment(db, pk, a);
    SaveOwnRecordKeepsConsistent(db, owner, pk, a);
    forall d | d in r.devices ensures Load(r, d) <= r.devices[d].capacity {
      LoadAfterSave(db, pk, a, d);
      if d == a.device {
        LoadWithinPooled(db, owner, d);
      }
    }
  }

  /** Re-submitting an assignment unchanged passes the check again as long
      as its device is within capacity: the ceiling is then at least the
      stored quantity. */
  lemma UnchangedEditRevalidates(db: Db, owner: Owner, pk: Pk)
    requires Consistent(db) && Owned(db, owner, pk)
    requires var a := db.assignments[pk];
      && a.qty >= 1
      && UniquelyNamed(db, owner, a.device)
      && Load(db, a.device) <= db.devices[a.device].capacity
    ensures var a := db.assignments[pk];
      CleanAssignment(db, owner, AssignmentInput(Some(a.device), Some(a.batteryModel), Some(a.qty)), a.qty)
        == Cleaned(a.device, a.batteryModel, a.qty)
  {
    var a := db.assignments[pk];
    PooledIsLoad(db, owner, a.device);
  }

  /** Two of the account's devices with the same description make the check
      fail with an exception for either of them. */
  lemma SharedDescriptionCrashes(db: Db, owner: Owner, d1: Pk, d2: Pk, input: AssignmentInput, initial: int)
    requires OwnsDevice(db, owner, d1) && OwnsDevice(db, owner, d2) && d1 != d2
    requires db.devices[d1].description == db.devices[d2].description
    requires input.device == Some(d1) && QtyFieldOk(input)
    ensures CleanAssignment(db, owner, input, initial) == Crash
  {
    assert d2 in DevicesNamed(db, owner, db.devices[d1].description);
  }

  // ---------------------------------------------------------------------
  // Moving an assignment to another device
  // ---------------------------------------------------------------------

  /** An account with two devices of capacity 4, each holding 3 batteries. */
  function TwoDevices(): Db {
    Db(
      map[1 := BatteryType("AA", "", 1)],
      map[1 := Device("Remote", 1, 4, 1), 2 := Device("Clock", 1, 4, 1)],
      map[1 := BatteryModel("Rechargeable 1.2V", 1)],
      map[1 := Assignment(1, 1, 3, 1), 2 := Assignment(2, 1, 3, 1)])
  }

  /** Assignment 1 moved from the remote to the clock with 4 batteries. */
  function MoveToClock(): AssignmentInput {
    AssignmentInput(Some(2), Some(1), Some(4))
  }

  lemma TwoDevicesLoads()
    ensures Load(TwoDevices(), 1) == 3 && Load(TwoDevices(), 2) == 3
    ensures PooledTotal(TwoDevices(), 1, "Clock") == 3
  {
    var db := TwoDevices();
    var a1, a2 := db.assignments[1], db.assignments[2];
    assert OnDevice(db.assignments, 1) == map[1 := a1];
    assert OnDevice(db.assignments, 2) == map[2 := a2];
    assert Pooled(db, 1, "Clock") == map[2 := a2];
    TotalInsert(map[], Qty, 1, a1);
    TotalInsert(map[], Qty, 2, a2);
  }

  lemma TwoDevicesConsistent()
    ensures Consistent(TwoDevices()) && WithinCapacity(TwoDevices()) && Owned(TwoDevices(), 1, 1)
  {
    var db := TwoDevices();
    assert Linked(db);
    assert OwnersAgree(db);
    assert CapacitiesInRange(db);
    TwoDevicesLoads();
    forall d | d in db.devices ensures Load(db, d) <= db.devices[d].capacity {
      assert d == 1 || d == 2;
    }
  }

  lemma MoveAccepted()
    ensures CleanAssignment(TwoDevices(), 1, MoveToClock(), 3) == Cleaned(2, 1, 4)
  {
    var db := TwoDevices();
    TwoDevicesLoads();
    assert DevicesNamed(db, 1, "Clock") == {2};
    assert FormCeiling(db, 1, 2, 3) == 4;
  }

  /** The check adds the moved record's old quantity back even though it
      was never counted on the new device, so a move can overfill it: here
      the clock ends up holding 7 batteries. */
  lemma MoveCanOverfill()
    ensures Consistent(TwoDevices()) && WithinCapacity(TwoDevices()) && Owned(TwoDevices(), 1, 1)
    ensures CleanAssignment(TwoDevices(), 1, MoveToClock(), 3) == Cleaned(2, 1, 4)
    ensures var r := SaveAssignment(TwoDevices(), 1, Assignment(2, 1, 4, 1));
      !WithinCapacity(r) && Load(r, 2) == 7
  {
    TwoDevicesConsistent();
    MoveAccepted();
    TwoDevicesLoads();
    var db := TwoDevices();
    LoadAfterSave(db, 1, Assignment(2, 1, 4, 1), 2);
    var r := SaveAssignment(db, 1, Assignment(2, 1, 4, 1));
    assert 2 in r.devices && r.devices[2].capacity == 4;
  }

  /** The check the update evidently intends: the record being edited is
      left out of the committed sum, and nothing is added back. */
  function CleanUpdateExcludingEdited(db: Db, owner: Owner, input: AssignmentInput, pk: Pk): AssignmentClean {
    CleanAssignment(DeleteAssignment(db, pk), owner, input, 0)
  }

  /** Deleting an assignment keeps every row within its account and every
      device within its capacity. */
  lemma DeleteAssignmentKeepsInvariant(db: Db, pk: Pk)
    requires Consistent(db) && WithinCapacity(db)
    ensures var r := DeleteAssignment(db, pk);
      Consistent(r) && WithinCapacity(r) && pk !in r.assignments
  {
    PurgeKeepsConsistent(db, {}, {}, {}, {pk});
    PurgeKeepsCapacity(db, {}, {}, {}, {pk});
  }

  /** With the edited record excluded, every accepted update keeps every
      device within capacity, moves included. */
  lemma ExcludingEditedKeepsCapacity(db: Db, owner: Owner, input: AssignmentInput, pk: Pk)
    requires Consistent(db) && WithinCapacity(db)
    requires CleanUpdateExcludingEdited(db, owner, input, pk).Cleaned?
    ensures var r := SaveAssignment(db, pk, Record(CleanUpdateExcludingEdited(db, owner, input, pk), owner));
      Consistent(r) && WithinCapacity(r)
  {
    var without := DeleteAssignment(db, pk);
    var c := CleanAssignment(without, owner, input, 0);
    assert c == CleanUpdateExcludingEdited(db, owner, input, pk);
    DeleteAssignmentKeepsInvariant(db, pk);
    CreateKeepsCapacity(without, owner, input, pk);
    SaveOverDeleted(db, pk, Record(c, owner));
  }

  /** Saving row `pk` over a database without it is saving it in place. */
  lemma SaveOverDeleted(db: Db, pk: Pk, a: Assignment)
    ensures SaveAssignment(DeleteAssignment(db, pk), pk, a) == SaveAssignment(db, pk, a)
  {
    DeleteAssignmentRemovesOnlyIt(db, pk);
    assert (db.assignments - {pk})[pk := a] == db.assignments[pk := a];
  }

  /** The check depends on the rows only through the devices, the models
      and the ceiling it computes. */
  lemma CleanFollowsCeiling(db1: Db, db2: Db, owner: Owner, input: AssignmentInput, initial1: int, initial2: int)
    requires db1.devices == db2.devices && db1.models == db2.models
    requires input.device.Some? && input.device.value in db1.devices ==>
      FormCeiling(db1, owner, input.device.value, initial1) == FormCeiling(db2, owner, input.device.value, initial2)
    ensures CleanAssignment(db1, owner, input, initial1) == CleanAssignment(db2, owner, input, initial2)
  {
  }

  /** For an update that stays on its device the two checks agree. */
  lemma ExcludingEditedAgreesOnSameDevice(db: Db, owner: Owner, input: AssignmentInput, pk: Pk)
    requires Consistent(db) && Owned(db, owner, pk)
    requires input.device == Some(db.assignments[pk].device)
    ensures CleanUpdateExcludingEdited(db, owner, input, pk) == CleanAssignment(db, owner, input, db.assignments[pk].qty)
  {
    var a := db.assignments[pk];
    var without := DeleteAssignment(db, pk);
    DeleteAssignmentRemovesOnlyIt(db, pk);
    var desc := db.devices[a.device].description;
    assert Pooled(without, owner, desc) == Pooled(db, owner, desc) - {pk};
    TotalRemove(Pooled(db, owner, desc), Qty, pk);
    CleanFollowsCeiling(without, db, owner, input, 0, a.qty);
  }

  /** The corrected check turns the overfilling move down, naming a ceiling
      of 1. */
  lemma ExcludingEditedRejectsMove()
    ensures CleanUpdateExcludingEdited(TwoDevices(), 1, MoveToClock(), 1) == Errors({QtyField}, Some(CapacityMessage(1)))
  {
    var db := TwoDevices();
    var without := DeleteAssignment(db, 1);
    DeleteAssignmentRemovesOnlyIt(db, 1);
    var a2 := db.assignments[2];
    assert Pooled(without, 1, "Clock") == map[2 := a2];
    TotalInsert(map[], Qty, 2, a2);
    assert DevicesNamed(without, 1, "Clock") == {2};
  }
}
