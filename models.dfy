/** The four tables of battery/models.py, their column bounds, the
    `on_delete=CASCADE` relations between them and the `__str__` labels.
    Every row carries the account (`owner`) it belongs to. */
module Models {
  import opened Aggregates
  import opened Numerals

  /** The id of an account (the `user` foreign key of every table). */
  type Owner = nat

  datatype BatteryType = BatteryType(code: string, description: string, owner: Owner)

  /** `capacity` is the device's `battery_qty` column: how many batteries of
      its type it holds. */
  datatype Device = Device(description: string, batteryType: Pk, capacity: nat, owner: Owner)

  datatype BatteryModel = BatteryModel(description: string, owner: Owner)

  /** `qty` is the assignment's `battery_qty` column, a PositiveSmallIntegerField
      with no validator of its own. */
  datatype Assignment = Assignment(device: Pk, batteryModel: Pk, qty: nat, owner: Owner)

  datatype Db = Db(
    types: map<Pk, BatteryType>,
    devices: map<Pk, Device>,
    models: map<Pk, BatteryModel>,
    assignments: map<Pk, Assignment>)


  /** The validators on Device.battery_qty: MinValueValidator(1) and
      MaxValueValidator(10). */
  const MinCapacity := 1
  const MaxCapacity := 10

  predicate CapacityInRange(c: int) {
    MinCapacity <= c <= MaxCapacity
  }

  /** Every device capacity satisfies its validators. The database itself
      only enforces the column range; the bound holds because every write
      goes through the device form. */
  predicate CapacitiesInRange(db: Db) {
    forall k :: k in db.devices ==> CapacityInRange(db.devices[k].capacity)
  }

  /** Every foreign key points at an existing row. */
  predicate Linked(db: Db) {
    && (forall k :: k in db.devices ==> db.devices[k].batteryType in db.types)
    && (forall k :: k in db.assignments ==> db.assignments[k].device in db.devices)
    && (forall k :: k in db.assignments ==> db.assignments[k].batteryModel in db.models)
  }

  /** Every row refers only to rows of its own account. */
  predicate OwnersAgree(db: Db)
    requires Linked(db)
  {
    && (forall k :: k in db.devices ==> db.types[db.devices[k].batteryType].owner == db.devices[k].owner)
    && (forall k :: k in db.assignments ==> db.devices[db.assignments[k].device].owner == db.assignments[k].owner)
    && (forall k :: k in db.assignments ==> db.models[db.assignments[k].batteryModel].owner == db.assignments[k].owner)
  }

  predicate Consistent(db: Db) {
    Linked(db) && OwnersAgree(db) && CapacitiesInRange(db)
  }

  function Qty(a: Assignment): int { a.qty }

  function Capacity(d: Device): int { d.capacity }

  /** The assignments referencing device `d`. */
  function OnDevice(m: map<Pk, Assignment>, d: Pk): (r: map<Pk, Assignment>)
    ensures SubTable(r, m)
    ensures forall k :: k in r <==> k in m && m[k].device == d
  {
    map k | k in m && m[k].device == d :: m[k]
  }

  /** How many batteries are assigned to device `d`. */
  function Load(db: Db, d: Pk): int {
    Total(OnDevice(db.assignments, d), Qty)
  }

  /** The rule the allocation check is there to keep: no device holds more
      batteries than its capacity. */
  predicate WithinCapacity(db: Db) {
    forall d :: d in db.devices ==> Load(db, d) <= db.devices[d].capacity
  }

  // ---------------------------------------------------------------------
  // Deletion with on_delete=CASCADE
  // ---------------------------------------------------------------------

  /** The devices that go when the types `ts` and the devices `ds` are
      deleted (Device.battery_type cascades). */
  function GoneDevices(db: Db, ts: set<Pk>, ds: set<Pk>): set<Pk> {
    set k | k in db.devices && (k in ds || db.devices[k].batteryType in ts)
  }

  /** Deletes the given rows and every row that depends on them, the way
      Django's deletion collector carries out `on_delete=CASCADE`: a device goes with its type, an
      assignment with its device or its battery model. The relations are
      at most two deep (type, device, assignment), so one pass is the whole
      closure. */
  function Purge(db: Db, ts: set<Pk>, ds: set<Pk>, ms: set<Pk>, as_: set<Pk>): (r: Db)
    ensures forall k :: k in r.types <==> k in db.types && k !in ts
    ensures forall k :: k in r.devices <==> k in db.devices && k !in GoneDevices(db, ts, ds)
    ensures forall k :: k in r.models <==> k in db.models && k !in ms
    ensures forall k :: k in r.assignments <==>
      && k in db.assignments && k !in as_
      && db.assignments[k].device !in GoneDevices(db, ts, ds)
      && db.assignments[k].batteryModel !in ms
    ensures SubTable(r.types, db.types) && SubTable(r.devices, db.devices)
    ensures SubTable(r.models, db.models) && SubTable(r.assignments, db.assignments)
  {
    var goneDevices := GoneDevices(db, ts, ds);
    Db(
      map k | k in db.types && k !in ts :: db.types[k],
      map k | k in db.devices && k !in goneDevices :: db.devices[k],
      map k | k in db.models && k !in ms :: db.models[k],
      map k | k in db.assignments && k !in as_
              && db.assignments[k].device !in goneDevices
              && db.assignments[k].batteryModel !in ms :: db.assignments[k])
  }

  /** BatteryAssignment.delete(): nothing depends on an assignment. */
  function DeleteAssignment(db: Db, k: Pk): Db {
    Purge(db, {}, {}, {}, {k})
  }

  /** Device.delete(): its assignments go with it. */
  function DeleteDevice(db: Db, d: Pk): Db {
    Purge(db, {}, {d}, {}, {})
  }

  /** BatteryModel.delete(): the assignments of that model go with it. */
  function DeleteModel(db: Db, m: Pk): Db {
    Purge(db, {}, {}, {m}, {})
  }

  /** BatteryType.delete(): its devices go, and their assignments. */
  function DeleteType(db: Db, t: Pk): Db {
    Purge(db, {t}, {}, {}, {})
  }

  /** Deleting an account: every table's `user` key cascades. */
  function DeleteUser(db: Db, u: Owner): Db {
    Purge(db,
      set k | k in db.types && db.types[k].owner == u,
      set k | k in db.devices && db.devices[k].owner == u,
      set k | k in db.models && db.models[k].owner == u,
      set k | k in db.assignments && db.assignments[k].owner == u)
  }

  /** A cascading delete leaves no dangling foreign key, keeps every row
      within its own account, and never raises a device's load. */
  lemma PurgeKeepsConsistent(db: Db, ts: set<Pk>, ds: set<Pk>, ms: set<Pk>, as_: set<Pk>)
    ensures var r := Purge(db, ts, ds, ms, as_);
      && (Linked(db) ==> Linked(r))
      && (Linked(db) && OwnersAgree(db) ==> OwnersAgree(r))
      && (CapacitiesInRange(db) ==> CapacitiesInRange(r))
  {
  }

  lemma {:induction false} PurgeKeepsCapacity(db: Db, ts: set<Pk>, ds: set<Pk>, ms: set<Pk>, as_: set<Pk>)
    requires WithinCapacity(db)
    ensures WithinCapacity(Purge(db, ts, ds, ms, as_))
  {
    var r := Purge(db, ts, ds, ms, as_);
    forall d | d in r.devices ensures Load(r, d) <= r.devices[d].capacity {
      TotalMonotonic(OnDevice(r.assignments, d), OnDevice(db.assignments, d), Qty);
    }
  }

  /** Deleting an assignment removes that row and nothing else. */
  lemma DeleteAssignmentRemovesOnlyIt(db: Db, k: Pk)
    ensures DeleteAssignment(db, k) == db.(assignments := db.assignments - {k})
  {
    assert GoneDevices(db, {}, {}) == {};
  }

  /** Deleting a device removes exactly it and the assignments that reference
      it; nothing else changes. */
  lemma DeleteDeviceCascades(db: Db, d: Pk)
    requires Linked(db)
    ensures var r := DeleteDevice(db, d);
      && r.devices == db.devices - {d}
      && r.types == db.types && r.models == db.models
      && r.assignments == (map k | k in db.assignments && db.assignments[k].device != d :: db.assignments[k])
  {
    var r := DeleteDevice(db, d);
    var gone := GoneDevices(db, {}, {d});
    assert forall k :: k in gone <==> k in db.devices && k == d;
    assert r.devices == db.devices - {d};
    var kept := map k | k in db.assignments && db.assignments[k].device != d :: db.assignments[k];
    assert forall k :: k in r.assignments <==> k in kept;
    assert r.assignments == kept;
  }

  /** Deleting a battery model removes exactly the assignments of that model. */
  lemma DeleteModelCascades(db: Db, m: Pk)
    ensures var r := DeleteModel(db, m);
      && r.models == db.models - {m}
      && r.types == db.types && r.devices == db.devices
      && r.assignments == (map k | k in db.assignments && db.assignments[k].batteryModel != m :: db.assignments[k])
  {
    assert GoneDevices(db, {}, {}) == {};
  }

  /** Deleting a battery type removes its devices and, through them, their
      assignments. */
  lemma DeleteTypeCascades(db: Db, t: Pk)
    requires Linked(db)
    ensures var r := DeleteType(db, t);
      && r.types == db.types - {t}
      && r.models == db.models
      && r.devices == (map k | k in db.devices && db.devices[k].batteryType != t :: db.devices[k])
      && r.assignments == (map k | k in db.assignments && db.devices[db.assignments[k].device].batteryType != t
                                 :: db.assignments[k])
  {
  }

  /** Deleting an account removes exactly the rows it owns, provided rows
      refer only to rows of their own account. */
  lemma DeleteUserRemovesOwnedRows(db: Db, u: Owner)
    requires Linked(db) && OwnersAgree(db)
    ensures var r := DeleteUser(db, u);
      && r.types == (map k | k in db.types && db.types[k].owner != u :: db.types[k])
      && r.devices == (map k | k in db.devices && db.devices[k].owner != u :: db.devices[k])
      && r.models == (map k | k in db.models && db.models[k].owner != u :: db.models[k])
      && r.assignments == (map k | k in db.assignments && db.assignments[k].owner != u :: db.assignments[k])
  {
  }

  // ---------------------------------------------------------------------
  // Saving a row
  // ---------------------------------------------------------------------

  /** BatteryAssignment.save(): the row with id `k` becomes `a`, whether it
      existed or not. */
  function SaveAssignment(db: Db, k: Pk, a: Assignment): (r: Db)
    ensures r.types == db.types && r.devices == db.devices && r.models == db.models
  {
    db.(assignments := db.assignments[k := a])
  }

  /** Device.save(): the row with id `k` becomes `d`, whether it existed or
      not. */
  function SaveDevice(db: Db, k: Pk, d: Device): (r: Db)
    ensures r.types == db.types && r.models == db.models && r.assignments == db.assignments
  {
    db.(devices := db.devices[k := d])
  }

  /** How saving an assignment changes a device's load: the row's old
      quantity leaves its old device and the new quantity joins the new one. */
  lemma LoadAfterSave(db: Db, k: Pk, a: Assignment, d: Pk)
    ensures Load(SaveAssignment(db, k, a), d) ==
      Load(db, d)
      - (if k in db.assignments && db.assignments[k].device == d then db.assignments[k].qty else 0)
      + (if a.device == d then a.qty else 0)
  {
    var m := db.assignments;
    var before := OnDevice(m, d);
    var after := OnDevice(m[k := a], d);
    if a.device == d {
      assert after == before[k := a];
      if k in before {
        TotalReplace(before, Qty, k, a);
      } else {
        TotalInsert(before, Qty, k, a);
      }
    } else {
      assert after == before - {k};
      if k in before {
        TotalRemove(before, Qty, k);
      } else {
        assert after == before;
      }
    }
  }

  // ---------------------------------------------------------------------
  // String representations
  // ---------------------------------------------------------------------

  /** BatteryType.__str__: the type code alone. */
  function TypeLabel(t: BatteryType): string { t.code }

  /** BatteryModel.__str__: the description. */
  function ModelLabel(m: BatteryModel): string { m.description }

  /** Device.__str__, "description (Nx type)". */
  function DeviceLabel(db: Db, d: Pk): (s: string)
    requires d in db.devices && db.devices[d].batteryType in db.types
    ensures var dev := db.devices[d];
      && dev.description + " (" <= s
      && s[|s| - 1] == ')'
  {
    var dev := db.devices[d];
    dev.description + " (" + Decimal(dev.capacity) + "x " + TypeLabel(db.types[dev.batteryType]) + ")"
  }

  /** BatteryAssignment.__str__, "device (Nx model)", where device is the
      device's own label. */
  function AssignmentLabel(db: Db, k: Pk): (s: string)
    requires Linked(db) && k in db.assignments
    ensures var dl := DeviceLabel(db, db.assignments[k].device);
      && dl + " (" <= s
      && s[|s| - 1] == ')'
  {
    var a := db.assignments[k];
    DeviceLabel(db, a.device) + " (" + Decimal(a.qty) + "x " + ModelLabel(db.models[a.batteryModel]) + ")"
  }

  /** The count in a label can be read back: after the prefix and " (", the
      first word is the count followed by 'x'. */
  function CountAfter(s: string, prefixLength: nat): int {
    if prefixLength + 2 <= |s| then
      var w := FirstWord(s[prefixLength + 2..]);
      if 2 <= |w| && w[|w| - 1] == 'x' && IsNumeral(w[..|w| - 1])
      then ParseDecimal(w[..|w| - 1]) else -1
    else -1
  }

  lemma {:induction false} CountReadsBack(prefix: string, n: nat, tail: string)
    ensures CountAfter(prefix + " (" + Decimal(n) + "x " + tail, |prefix|) == n
  {
    var s := prefix + " (" + Decimal(n) + "x " + tail;
    var word := Decimal(n) + "x";
    assert s[|prefix| + 2..] == word + " " + tail;
    FirstWordOf(word, tail);
    assert word[..|word| - 1] == Decimal(n);
    DecimalRoundTrip(n);
  }

  /** The name a label ends with: what follows the count's word, up to the
      closing parenthesis. */
  function NameAfter(s: string, prefixLength: nat): string {
    if prefixLength + 2 <= |s| then
      var rest := s[prefixLength + 2..];
      var w := FirstWord(rest);
      if |w| + 2 <= |rest| then rest[|w| + 1..|rest| - 1] else ""
    else ""
  }

  lemma NameReadsBack(prefix: string, n: nat, tail: string)
    ensures NameAfter(prefix + " (" + Decimal(n) + "x " + tail + ")", |prefix|) == tail
  {
    var s := prefix + " (" + Decimal(n) + "x " + tail + ")";
    var word := Decimal(n) + "x";
    var rest := s[|prefix| + 2..];
    assert rest == word + " " + (tail + ")");
    FirstWordOf(word, tail + ")");
    assert rest[|word| + 1..|rest| - 1] == tail;
  }

  /** A device's label ends with its battery type's code. */
  lemma DeviceLabelShowsType(db: Db, d: Pk)
    requires d in db.devices && db.devices[d].batteryType in db.types
    ensures NameAfter(DeviceLabel(db, d), |db.devices[d].description|) == TypeLabel(db.types[db.devices[d].batteryType])
  {
    var dev := db.devices[d];
    NameReadsBack(dev.description, dev.capacity, TypeLabel(db.types[dev.batteryType]));
  }

  /** An assignment's label ends with its battery model's description. */
  lemma AssignmentLabelShowsModel(db: Db, k: Pk)
    requires Linked(db) && k in db.assignments
    ensures NameAfter(AssignmentLabel(db, k), |DeviceLabel(db, db.assignments[k].device)|)
      == ModelLabel(db.models[db.assignments[k].batteryModel])
  {
    var a := db.assignments[k];
    NameReadsBack(DeviceLabel(db, a.device), a.qty, ModelLabel(db.models[a.batteryModel]));
  }

  /** A device's label shows its capacity right after its description. */
  lemma DeviceLabelShowsCapacity(db: Db, d: Pk)
    requires d in db.devices && db.devices[d].batteryType in db.types
    ensures CountAfter(DeviceLabel(db, d), |db.devices[d].description|) == db.devices[d].capacity
  {
    var dev := db.devices[d];
    CountReadsBack(dev.description, dev.capacity, TypeLabel(db.types[dev.batteryType]) + ")");
    assert DeviceLabel(db, d) == dev.description + " (" + Decimal(dev.capacity) + "x " + (TypeLabel(db.types[dev.batteryType]) + ")");
  }

  /** An assignment's label shows its quantity right after its device's label. */
  lemma AssignmentLabelShowsQty(db: Db, k: Pk)
    requires Linked(db) && k in db.assignments
    ensures CountAfter(AssignmentLabel(db, k), |DeviceLabel(db, db.assignments[k].device)|) == db.assignments[k].qty
  {
    var a := db.assignments[k];
    var dl := DeviceLabel(db, a.device);
    CountReadsBack(dl, a.qty, ModelLabel(db.models[a.batteryModel]) + ")");
    assert AssignmentLabel(db, k) == dl + " (" + Decimal(a.qty) + "x " + (ModelLabel(db.models[a.batteryModel]) + ")");
  }
}
