/** The database behind the views: the four tables and the auto-increment
    counter that hands out new ids. The views change it only through these
    methods, each one INSERT, UPDATE or DELETE statement. */
module Orm {
  import opened Aggregates
  import opened Models

  /** Every id in use is below `next`. */
  predicate KeysBelow(db: Db, next: Pk) {
    && (forall k :: k in db.types ==> k < next)
    && (forall k :: k in db.devices ==> k < next)
    && (forall k :: k in db.models ==> k < next)
    && (forall k :: k in db.assignments ==> k < next)
  }

  class Store {
    var db: Db
    /** The next id the database assigns to an inserted row. */
    var next: Pk

    /** What the database guarantees: foreign keys resolve, ids below the
        counter are the only ones in use, and (since every device is written
        through the device form) capacities are within their validators. */
    ghost predicate Valid()
      reads this
    {
      KeysBelow(db, next) && Linked(db) && CapacitiesInRange(db)
    }

    constructor ()
      ensures Valid()
      ensures db == Db(map[], map[], map[], map[]) && next == 1
    {
      db := Db(map[], map[], map[], map[]);
      next := 1;
    }

    /** INSERT of a new assignment under a fresh id. */
    method InsertAssignment(a: Assignment) returns (k: Pk)
      requires Valid()
      requires a.device in db.devices && a.batteryModel in db.models
      modifies this
      ensures Valid()
      ensures k == old(next) && k !in old(db.assignments)
      ensures db == SaveAssignment(old(db), k, a) && next == old(next) + 1
    {
      k := next;
      db := SaveAssignment(db, k, a);
      next := next + 1;
    }

    /** UPDATE of the existing assignment `k`. */
    method UpdateAssignment(k: Pk, a: Assignment)
      requires Valid()
      requires k in db.assignments
      requires a.device in db.devices && a.batteryModel in db.models
      modifies this
      ensures Valid()
      ensures db == SaveAssignment(old(db), k, a) && next == old(next)
    {
      db := SaveAssignment(db, k, a);
    }

    /** INSERT of a new device under a fresh id. */
    method InsertDevice(d: Device) returns (k: Pk)
      requires Valid()
      requires d.batteryType in db.types && CapacityInRange(d.capacity)
      modifies this
      ensures Valid()
      ensures k == old(next) && k !in old(db.devices)
      ensures db == SaveDevice(old(db), k, d) && next == old(next) + 1
    {
      k := next;
      db := SaveDevice(db, k, d);
      next := next + 1;
    }

    /** Saving a device under a given id: an UPDATE of that row when it
        exists, otherwise an INSERT with that id, after which the counter
        moves past it. Whose row it was is not looked at. */
    method UpsertDevice(k: Pk, d: Device)
      requires Valid()
      requires d.batteryType in db.types && CapacityInRange(d.capacity)
      modifies this
      ensures Valid()
      ensures db == SaveDevice(old(db), k, d)
      ensures next == if k < old(next) then old(next) else k + 1
    {
      db := SaveDevice(db, k, d);
      if k >= next {
        next := k + 1;
      }
    }

    /** DELETE of one row of some table, with the cascade it triggers. */
    method Delete(ts: set<Pk>, ds: set<Pk>, ms: set<Pk>, as_: set<Pk>)
      requires Valid()
      modifies this
      ensures Valid()
      ensures db == Purge(old(db), ts, ds, ms, as_) && next == old(next)
    {
      PurgeKeepsConsistent(db, ts, ds, ms, as_);
      db := Purge(db, ts, ds, ms, as_);
    }
  }
}
