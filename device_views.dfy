/** battery/views/device.py: the account's device list with its battery
    type filter and capacity total, the create/update screen, and deletion
    with its cascade. Also what a device write does to the rule that no
    device holds more batteries than its capacity. */
module DeviceViews {
  import opened Aggregates
  import opened Models
  import opened Forms
  import opened Orm
  import opened Http

  // ---------------------------------------------------------------------
  // device: the list
  // ---------------------------------------------------------------------

  /** The rows the list shows for a battery type filter `t`, 0 meaning "not
      filtered": the account's own devices of type `t`. */
  predicate DeviceMatches(owner: Owner, t: int, d: Device) {
    d.owner == owner && (t == 0 || d.batteryType == t)
  }

  function DevicesListed(db: Db, owner: Owner, t: int): (r: map<Pk, Device>)
    ensures SubTable(r, db.devices)
    ensures forall k :: k in r <==> k in db.devices && DeviceMatches(owner, t, db.devices[k])
  {
    map k | k in db.devices && DeviceMatches(owner, t, db.devices[k]) :: db.devices[k]
  }

  /** The battery type parameter names one of the select's options. */
  predicate TypeFilterApplies(db: Db, owner: Owner, typeParam: Param) {
    typeParam.Numeral? && (typeParam.n == 0 || typeParam.n in OwnedTypes(db, owner))
  }

  /** The list view. Without a battery type parameter (or with an empty one)
      every device of the account is listed; otherwise the filter form is
      validated, '0' lists every device and a type id lists that type's. An
      invalid form leaves the list unbound when the total is computed. The
      total is the sum of the listed devices' capacities. */
  method ListDevices(db: Db, owner: Owner, typeParam: Param) returns (page: Page<Device>)
    ensures !Given(typeParam) ==> page == Page(DevicesListed(db, owner, 0), Aggregate(DevicesListed(db, owner, 0), Capacity))
    ensures Given(typeParam) ==> (page.Failed? <==> !TypeFilterApplies(db, owner, typeParam))
    ensures Given(typeParam) && page.Page? ==> page.rows == DevicesListed(db, owner, typeParam.n)
    ensures page.Page? ==> page.total == Aggregate(page.rows, Capacity)
  {
    var rows;
    if Given(typeParam) {
      var form := new DeviceFilterForm(db, owner);
      var typeFilter := CleanChoice(form.typeChoices, typeParam);
      if typeParam.Numeral? { TypeFilterAccepts(db, owner, typeParam.n); }
      if typeFilter.None? {
        return Failed;
      }
      var t := typeFilter.value;
      if t == Picked(0) {
        rows := DevicesListed(db, owner, 0);
      } else {
        rows := DevicesListed(db, owner, t.value);
      }
    } else {
      rows := DevicesListed(db, owner, 0);
    }
    page := Page(rows, Aggregate(rows, Capacity));
  }

  // ---------------------------------------------------------------------
  // device_detail: create and update
  // ---------------------------------------------------------------------

  /** The detail view. A GET renders the form (404 for a device the account
      does not own). A POST validates the form and, when valid, saves the
      device with the account as owner: a new row when creating, the row
      `pk` when updating. The update path looks neither at whose row `pk`
      is nor at the assignments already on it. An invalid form changes
      nothing. */
  method DeviceDetail(store: Store, owner: Owner, post: bool, pk: Pk, create: bool, input: DeviceInput)
    returns (resp: Response)
    requires store.Valid()
    modifies store
    ensures store.Valid()
    ensures resp != Redirect ==> store.db == old(store.db) && store.next == old(store.next)
    ensures !post ==> resp == (if create || OwnsDevice(old(store.db), owner, pk) then Render else NotFound)
    ensures post ==> (resp == Redirect <==> DeviceFormOk(old(store.db), owner, input))
    ensures post && resp != Redirect ==> resp == Render
    ensures post && resp == Redirect ==>
      store.db == SaveDevice(old(store.db), if create then old(store.next) else pk, DeviceOf(old(store.db), owner, input))
    ensures create && resp == Redirect ==> old(store.next) !in old(store.db.devices)
  {
    if !post {
      if !create && !OwnsDevice(store.db, owner, pk) {
        return NotFound;
      }
      return Render;
    }
    if !DeviceFormOk(store.db, owner, input) {
      return Render;
    }
    var device := DeviceOf(store.db, owner, input);
    if create {
      var k := store.InsertDevice(device);
    } else {
      store.UpsertDevice(pk, device);
    }
    resp := Redirect;
  }

  // ---------------------------------------------------------------------
  // device_delete
  // ---------------------------------------------------------------------

  /** A POST deletes the account's device `pk` together with its
      assignments (404 if the account has no such device). A GET gets no
      response from the view at all, which the framework reports as an
      error. */
  method DeviceDelete(store: Store, owner: Owner, post: bool, pk: Pk) returns (resp: Response)
    requires store.Valid()
    modifies store
    ensures store.Valid() && store.next == old(store.next)
    ensures !post ==> resp == ServerError && store.db == old(store.db)
    ensures post && !OwnsDevice(old(store.db), owner, pk) ==> resp == NotFound && store.db == old(store.db)
    ensures post && OwnsDevice(old(store.db), owner, pk) ==>
      resp == Redirect && store.db == DeleteDevice(old(store.db), pk)
  {
    if !post {
      return ServerError;
    }
    if !OwnsDevice(store.db, owner, pk) {
      return NotFound;
    }
    store.Delete({}, {pk}, {}, {});
    resp := Redirect;
  }

  // ---------------------------------------------------------------------
  // What a device write does to the capacity rule
  // ---------------------------------------------------------------------

  /** Saving a device leaves every other device's load and capacity alone. */
  lemma SaveDeviceKeepsOthers(db: Db, k: Pk, d: Device, e: Pk)
    requires e != k && e in db.devices
    ensures var r := SaveDevice(db, k, d);
      e in r.devices && r.devices[e] == db.devices[e] && Load(r, e) == Load(db, e)
  {
  }

  /** A new device starts with nothing assigned, so creating one keeps
      every row within its account and every device within capacity. */
  lemma DeviceCreateKeepsInvariant(db: Db, owner: Owner, input: DeviceInput, key: Pk)
    requires Consistent(db) && WithinCapacity(db)
    requires DeviceFormOk(db, owner, input) && key !in db.devices
    ensures var r := SaveDevice(db, key, DeviceOf(db, owner, input));
      Consistent(r) && WithinCapacity(r) && Load(r, key) == 0
  {
    var d := DeviceOf(db, owner, input);
    var r := SaveDevice(db, key, d);
    assert OnDevice(r.assignments, key) == map[];
    forall e | e in r.devices ensures Load(r, e) <= r.devices[e].capacity {
      if e != key {
        SaveDeviceKeepsOthers(db, key, d, e);
      }
    }
  }

  /** Editing one of the account's own devices keeps every row within its
      account, and the capacity rule holds afterwards exactly when the new
      capacity covers what is already assigned to the device: nothing in
      the view checks that. */
  lemma OwnDeviceUpdate(db: Db, owner: Owner, input: DeviceInput, pk: Pk)
    requires Consistent(db) && WithinCapacity(db)
    requires DeviceFormOk(db, owner, input) && OwnsDevice(db, owner, pk)
    ensures var r := SaveDevice(db, pk, DeviceOf(db, owner, input));
      && Consistent(r)
      && (WithinCapacity(r) <==> Load(db, pk) <= input.capacity.value)
  {
    var d := DeviceOf(db, owner, input);
    var r := SaveDevice(db, pk, d);
    assert Load(r, pk) == Load(db, pk);
    forall e | e in r.devices && e != pk ensures Load(r, e) <= r.devices[e].capacity {
      SaveDeviceKeepsOthers(db, pk, d, e);
    }
  }

  /** One account with a four-battery remote holding four batteries. */
  function FullRemote(): Db {
    Db(
      map[1 := BatteryType("AA", "", 1)],
      map[1 := Device("Remote", 1, 4, 1)],
      map[1 := BatteryModel("Rechargeable 1.2V", 1)],
      map[1 := Assignment(1, 1, 4, 1)])
  }

  lemma FullRemoteLoad()
    ensures Load(FullRemote(), 1) == 4
  {
    var db := FullRemote();
    assert OnDevice(db.assignments, 1) == db.assignments;
    TotalInsert(map[], Qty, 1, db.assignments[1]);
    assert map[][1 := db.assignments[1]] == db.assignments;
  }

  lemma FullRemoteConsistent()
    ensures Consistent(FullRemote()) && WithinCapacity(FullRemote()) && Load(FullRemote(), 1) == 4
  {
    FullRemoteLoad();
  }

  lemma RemoteFormOk()
    ensures DeviceFormOk(FullRemote(), 1, DeviceInput("Remote", Some(1), Some(2)))
  {
    StripKeepsTrimmed("Remote");
  }

  /** Lowering the remote's capacity to 2 is accepted and leaves it holding
      more batteries than it can. */
  lemma DeviceEditCanOverfill()
    ensures Consistent(FullRemote()) && WithinCapacity(FullRemote())
    ensures DeviceFormOk(FullRemote(), 1, DeviceInput("Remote", Some(1), Some(2)))
    ensures !WithinCapacity(SaveDevice(FullRemote(), 1, DeviceOf(FullRemote(), 1, DeviceInput("Remote", Some(1), Some(2)))))
  {
    FullRemoteConsistent();
    RemoteFormOk();
    OwnDeviceUpdate(FullRemote(), 1, DeviceInput("Remote", Some(1), Some(2)), 1);
  }

  // ---------------------------------------------------------------------
  // Updating a device of another account
  // ---------------------------------------------------------------------

  /** Account 1's remote with 3 batteries assigned to it, and account 2
      with a battery type and a battery model of its own. */
  function TwoAccounts(): Db {
    Db(
      map[1 := BatteryType("AA", "", 1), 2 := BatteryType("AAA", "", 2)],
      map[1 := Device("Remote", 1, 4, 1)],
      map[1 := BatteryModel("Rechargeable 1.2V", 1), 2 := BatteryModel("Alkaline", 2)],
      map[1 := Assignment(1, 1, 3, 1)])
  }

  /** Account 2's device form, posted as an update of device 1. */
  function Takeover(): DeviceInput {
    DeviceInput("Mine", Some(2), Some(4))
  }

  /** A POST from account 2 to update device 1 is saved: the device leaves
      account 1's list and account 1's assignment now sits on account 2's
      device. */
  lemma ForeignDeviceTakeover()
    ensures Consistent(TwoAccounts()) && !OwnsDevice(TwoAccounts(), 2, 1)
    ensures DeviceFormOk(TwoAccounts(), 2, Takeover())
    ensures var r := SaveDevice(TwoAccounts(), 1, DeviceOf(TwoAccounts(), 2, Takeover()));
      && Linked(r) && !OwnersAgree(r)
      && DevicesListed(r, 1, 0) == map[]
      && 1 in DevicesListed(r, 2, 0)
  {
    var db := TwoAccounts();
    StripKeepsTrimmed("Mine");
    var r := SaveDevice(db, 1, DeviceOf(db, 2, Takeover()));
    assert r.devices[1].owner == 2 && r.assignments[1].owner == 1;
  }

  /** The database once account 2's takeover of device 1 is saved. */
  function TakenOver(): Db {
    TwoAccounts().(devices := map[1 := Device("Mine", 2, 4, 2)])
  }

  lemma TakenOverIsSaved()
    ensures DeviceFormOk(TwoAccounts(), 2, Takeover())
    ensures SaveDevice(TwoAccounts(), 1, DeviceOf(TwoAccounts(), 2, Takeover())) == TakenOver()
  {
    StripKeepsTrimmed("Mine");
  }

  lemma TakenOverLoad()
    ensures Load(TakenOver(), 1) == 3
    ensures Pooled(TakenOver(), 2, "Mine") == map[]
  {
    var db := TakenOver();
    assert OnDevice(db.assignments, 1) == db.assignments;
    TotalInsert(map[], Qty, 1, db.assignments[1]);
    assert map[][1 := db.assignments[1]] == db.assignments;
  }

  /** After the takeover the assignment check no longer counts account 1's
      batteries on the device, which now belongs to account 2: account 2
      may assign a full load on top of them. The database still satisfies
      everything the views rely on, and the device is still within
      capacity before the create. */
  lemma TakeoverThenCreateOverfills()
    ensures var r := TakenOver();
      && Linked(r) && CapacitiesInRange(r) && WithinCapacity(r) && !OwnersAgree(r)
      && CleanAssignment(r, 2, AssignmentInput(Some(1), Some(2), Some(4)), 0) == Cleaned(1, 2, 4)
      && !WithinCapacity(SaveAssignment(r, 2, Assignment(1, 2, 4, 2)))
  {
    var r := TakenOver();
    TakenOverLoad();
    assert DevicesNamed(r, 2, "Mine") == {1};
    assert FormCeiling(r, 2, 1, 0) == 4;
    LoadAfterSave(r, 2, Assignment(1, 2, 4, 2), 1);
    var after := SaveAssignment(r, 2, Assignment(1, 2, 4, 2));
    assert Load(after, 1) == 7 && 1 in after.devices && after.devices[1].capacity == 4;
  }

  /** Deleting account 2 after its takeover also deletes account 1's
      assignment: the device it sits on now belongs to account 2 and
      cascades with it. */
  lemma TakeoverThenDeleteAccount()
    ensures var r := TakenOver();
      && 1 in r.assignments && r.assignments[1].owner == 1
      && 1 !in DeleteUser(r, 2).assignments
  {
    var r := TakenOver();
    var owned := set k | k in r.devices && r.devices[k].owner == 2;
    assert 1 in owned;
    var types := set k | k in r.types && r.types[k].owner == 2;
    assert 1 in GoneDevices(r, types, owned);
  }

  /** The update the view evidently intends: a 404, leaving the database
      alone, unless `pk` is the account's own device. */
  function GuardedDeviceUpdate(db: Db, owner: Owner, pk: Pk, input: DeviceInput): Option<Db>
    requires DeviceFormOk(db, owner, input)
  {
    if OwnsDevice(db, owner, pk) then Some(SaveDevice(db, pk, DeviceOf(db, owner, input))) else None
  }

  /** The guarded update keeps every row within its account and never
      changes another account's device. */
  lemma GuardedUpdateKeepsOwnership(db: Db, owner: Owner, pk: Pk, input: DeviceInput)
    requires Consistent(db) && DeviceFormOk(db, owner, input)
    ensures var r := GuardedDeviceUpdate(db, owner, pk, input);
      && (r.Some? <==> OwnsDevice(db, owner, pk))
      && (r.Some? ==> Consistent(r.value))
      && (r.Some? ==> forall e :: e in db.devices && db.devices[e].owner != owner ==>
            e in r.value.devices && r.value.devices[e] == db.devices[e])
  {
    if OwnsDevice(db, owner, pk) {
      var d := DeviceOf(db, owner, input);
      var r := SaveDevice(db, pk, d);
      forall k | k in r.assignments ensures r.devices[r.assignments[k].device].owner == r.assignments[k].owner {
      }
    }
  }

  /** Deleting a device (and its assignments) keeps every row within its
      account and every device within capacity. */
  lemma DeviceDeleteKeepsInvariant(db: Db, pk: Pk)
    requires Consistent(db) && WithinCapacity(db)
    ensures var r := DeleteDevice(db, pk);
      Consistent(r) && WithinCapacity(r) && pk !in r.devices
      && forall k :: k in r.assignments ==> r.assignments[k].device != pk
  {
    PurgeKeepsConsistent(db, {}, {pk}, {}, {});
    PurgeKeepsCapacity(db, {}, {pk}, {}, {});
    DeleteDeviceCascades(db, pk);
  }
}
