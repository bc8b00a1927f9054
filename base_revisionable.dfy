/**
 * Revisionable: the original base class. Its `save()` snapshots the record,
 * lets the parent save run and, when that succeeds, stores one revision per
 * revisionable dirty field, each with its own insert. It drops every object
 * from the snapshots, excludes nothing at run time and never re-checks that
 * a dirty field really changed.
 */
module BaseRevisionable {
  import opened Php
  import opened Policy
  import opened Store
  import opened Capture

  /** A model extending the base class. */
  class Revisionable {
    const className: string   // get_class($this): the type the rows are written with
    var original: map<string, Value>
    var attributes: map<string, Value>
    var recordExists: bool

    var revisionEnabled: bool
    var keepRevisionOf: seq<string>
    var dontKeepRevisionOf: seq<string>

    var originalData: map<string, Value>
    var updatedData: map<string, Value>
    var updating: bool
    var dirty: map<string, Value>

    /** The keys the last afterSave recorded, in the order it inserted them. */
    ghost var recorded: seq<string>

    /** The declared defaults: revisions on, both lists empty. */
    constructor (className: string)
      ensures this.className == className
      ensures original == map[] && attributes == map[] && !recordExists
      ensures revisionEnabled && keepRevisionOf == [] && dontKeepRevisionOf == []
      ensures originalData == map[] && updatedData == map[] && !updating && dirty == map[]
    {
      this.className := className;
      original := map[];
      attributes := map[];
      recordExists := false;
      revisionEnabled := true;
      keepRevisionOf := [];
      dontKeepRevisionOf := [];
      originalData := map[];
      updatedData := map[];
      updating := false;
      dirty := map[];
      recorded := [];
    }

    /** `$this->id`: the key the rows are written with. */
    function Id(): Value
      reads this
    {
      Get(attributes, "id")
    }

    /** `beforeSave()`: snapshot both attribute maps without any object,
        take the dirty map and remember whether this save updates a stored row. */
    method BeforeSave()
      modifies this`originalData, this`updatedData, this`dirty, this`updating
      ensures !revisionEnabled ==>
                originalData == old(originalData) && updatedData == old(updatedData) &&
                dirty == old(dirty) && updating == old(updating)
      ensures revisionEnabled ==> originalData == original - Objects(attributes)
      ensures revisionEnabled ==> updatedData == attributes - Objects(attributes)
      ensures revisionEnabled ==> dirty == Dirty(attributes, original) && updating == recordExists
    {
      if revisionEnabled {
        var od, ud := DropObjects(original, attributes);
        originalData := od;
        updatedData := ud;
        dirty := Dirty(attributes, original);
        updating := recordExists;
      }
    }

    /** `changedRevisionableFields()`: every revisionable dirty field, with
        the other dirty keys unset from both snapshots. */
    method ChangedRevisionableFields() returns (changes: map<string, Value>)
      modifies this`originalData, this`updatedData
      ensures changes == BaseChanges(dirty, keepRevisionOf, dontKeepRevisionOf)
      ensures originalData == old(originalData) - BaseDiscarded(dirty, keepRevisionOf, dontKeepRevisionOf)
      ensures updatedData == old(updatedData) - BaseDiscarded(dirty, keepRevisionOf, dontKeepRevisionOf)
    {
      var od, ud;
      changes, od, ud := FilterRevisionable(dirty, originalData, updatedData, keepRevisionOf, dontKeepRevisionOf);
      originalData := od;
      updatedData := ud;
    }

    /** `afterSave()`: for an update with revisions on, one row per recorded
        change, each inserted on its own. */
    method AfterSave(store: Table, user: Value, now: Value)
      requires store.Valid()
      modifies this`originalData, this`updatedData, this`recorded, store
      ensures store.Valid()
      ensures !(revisionEnabled && updating) ==>
                store.rows == old(store.rows) && store.nextId == old(store.nextId) &&
                originalData == old(originalData) && updatedData == old(updatedData)
      ensures revisionEnabled && updating ==>
                originalData == old(originalData) - BaseDiscarded(dirty, keepRevisionOf, dontKeepRevisionOf) &&
                updatedData == old(updatedData) - BaseDiscarded(dirty, keepRevisionOf, dontKeepRevisionOf) &&
                Enumerates(recorded, BaseChanges(dirty, keepRevisionOf, dontKeepRevisionOf).Keys) &&
                store.rows == old(store.rows) +
                  Stamped(Entries(recorded, className, Id(), originalData, updatedData, user, now), old(store.nextId)) &&
                store.nextId == old(store.nextId) + |recorded|
    {
      if revisionEnabled && updating {
        var changes := ChangedRevisionableFields();
        var order := InsertEach(store, changes, className, Id(), originalData, updatedData, user, now);
        recorded := order;
      }
    }

    /** `save()`: beforeSave, the parent save (whose outcome is `parentSaves`),
        then afterSave only when the parent save succeeded; its result is the
        parent's. */
    method Save(parentSaves: bool, store: Table, user: Value, now: Value) returns (saved: bool)
      requires store.Valid()
      modifies this`originalData, this`updatedData, this`dirty, this`updating, this`recorded, store
      ensures saved == parentSaves
      ensures store.Valid()
      ensures revisionEnabled ==> dirty == Dirty(attributes, original) && updating == recordExists
      ensures !revisionEnabled ==> dirty == old(dirty) && updating == old(updating)
      ensures !(parentSaves && revisionEnabled && recordExists) ==>
                store.rows == old(store.rows) && store.nextId == old(store.nextId)
      ensures parentSaves && revisionEnabled && recordExists ==>
                var discarded := BaseDiscarded(dirty, keepRevisionOf, dontKeepRevisionOf);
                originalData == original - Objects(attributes) - discarded &&
                updatedData == attributes - Objects(attributes) - discarded &&
                Enumerates(recorded, BaseChanges(dirty, keepRevisionOf, dontKeepRevisionOf).Keys) &&
                store.rows == old(store.rows) +
                  Stamped(Entries(recorded, className, Id(), originalData, updatedData, user, now), old(store.nextId)) &&
                store.nextId == old(store.nextId) + |recorded|
    {
      BeforeSave();
      saved := parentSaves;
      if saved {
        AfterSave(store, user, now);
      }
    }
  }

  /** The loop of `beforeSave()`: every object value is unset from both snapshots. */
  method DropObjects(original: map<string, Value>, attributes: map<string, Value>)
    returns (originalData: map<string, Value>, updatedData: map<string, Value>)
    ensures originalData == original - Objects(attributes)
    ensures updatedData == attributes - Objects(attributes)
  {
    originalData, updatedData := original, attributes;
    var pending := attributes.Keys;
    while pending != {}
      invariant pending <= attributes.Keys
      invariant originalData == original - DroppedObjects(attributes, pending)
      invariant updatedData == attributes - DroppedObjects(attributes, pending)
      decreases pending
    {
      var k :| k in pending;
      if attributes[k].Obj? {
        originalData := originalData - {k};
        updatedData := updatedData - {k};
      }
      assert DroppedObjects(attributes, pending - {k})
          == DroppedObjects(attributes, pending) + (if attributes[k].Obj? then {k} else {});
      pending := pending - {k};
    }
    assert DroppedObjects(attributes, {}) == Objects(attributes);
  }

  /** The objects of `m` the beforeSave loop has dropped once `pending` is left to visit. */
  function DroppedObjects(m: map<string, Value>, pending: set<string>): set<string> {
    set k | k in m && k !in pending && m[k].Obj?
  }

  /** The loop of `changedRevisionableFields()`: a revisionable dirty field
      is recorded, any other is unset from both snapshots. */
  method FilterRevisionable(dirty: map<string, Value>, originalData: map<string, Value>, updatedData: map<string, Value>,
                            keepRevisionOf: seq<string>, dontKeepRevisionOf: seq<string>)
    returns (changes: map<string, Value>, od: map<string, Value>, ud: map<string, Value>)
    ensures changes == BaseChanges(dirty, keepRevisionOf, dontKeepRevisionOf)
    ensures od == originalData - BaseDiscarded(dirty, keepRevisionOf, dontKeepRevisionOf)
    ensures ud == updatedData - BaseDiscarded(dirty, keepRevisionOf, dontKeepRevisionOf)
  {
    od, ud := originalData, updatedData;
    changes := map[];
    var pending := dirty.Keys;
    while pending != {}
      invariant pending <= dirty.Keys
      invariant changes == BaseChanges(dirty - pending, keepRevisionOf, dontKeepRevisionOf)
      invariant od == originalData - BaseDiscarded(dirty - pending, keepRevisionOf, dontKeepRevisionOf)
      invariant ud == updatedData - BaseDiscarded(dirty - pending, keepRevisionOf, dontKeepRevisionOf)
      decreases pending
    {
      var k :| k in pending;
      FilterRevisionableStep(dirty, pending, k, originalData, updatedData, keepRevisionOf, dontKeepRevisionOf,
                             changes, od, ud);
      if IsRevisionable(k, keepRevisionOf, dontKeepRevisionOf) {
        changes := changes[k := dirty[k]];
      } else {
        ud := ud - {k};
        od := od - {k};
      }
      pending := pending - {k};
    }
    assert dirty - pending == dirty;
  }

  /** One turn of the loop of `changedRevisionableFields()` keeps its invariant. */
  lemma FilterRevisionableStep(dirty: map<string, Value>, pending: set<string>, k: string,
                               originalData: map<string, Value>, updatedData: map<string, Value>,
                               keepRevisionOf: seq<string>, dontKeepRevisionOf: seq<string>,
                               changes: map<string, Value>, od: map<string, Value>, ud: map<string, Value>)
    requires k in pending && pending <= dirty.Keys
    requires changes == BaseChanges(dirty - pending, keepRevisionOf, dontKeepRevisionOf)
    requires od == originalData - BaseDiscarded(dirty - pending, keepRevisionOf, dontKeepRevisionOf)
    requires ud == updatedData - BaseDiscarded(dirty - pending, keepRevisionOf, dontKeepRevisionOf)
    ensures var next := dirty - (pending - {k});
            var changes' := BaseChanges(next, keepRevisionOf, dontKeepRevisionOf);
            var discarded' := BaseDiscarded(next, keepRevisionOf, dontKeepRevisionOf);
            if IsRevisionable(k, keepRevisionOf, dontKeepRevisionOf) then
              changes' == changes[k := dirty[k]] && od == originalData - discarded' && ud == updatedData - discarded'
            else
              changes' == changes && od - {k} == originalData - discarded' && ud - {k} == updatedData - discarded'
  {
    var done := dirty - pending;
    assert dirty - (pending - {k}) == done[k := dirty[k]];
    BaseStep(done, k, dirty[k], keepRevisionOf, dontKeepRevisionOf);
  }

  /** One more dirty key visited by the base loop: recorded when revisionable, discarded otherwise. */
  lemma BaseStep(done: map<string, Value>, key: string, value: Value,
                 keepRevisionOf: seq<string>, dontKeepRevisionOf: seq<string>)
    requires key !in done
    ensures BaseChanges(done[key := value], keepRevisionOf, dontKeepRevisionOf)
            == if IsRevisionable(key, keepRevisionOf, dontKeepRevisionOf)
               then BaseChanges(done, keepRevisionOf, dontKeepRevisionOf)[key := value]
               else BaseChanges(done, keepRevisionOf, dontKeepRevisionOf)
    ensures BaseDiscarded(done[key := value], keepRevisionOf, dontKeepRevisionOf)
            == BaseDiscarded(done, keepRevisionOf, dontKeepRevisionOf) +
               (if IsRevisionable(key, keepRevisionOf, dontKeepRevisionOf) then {} else {key})
  {
  }

  /** The loop of `afterSave()`: one `Revision::save()` per recorded change,
      in the order the loop visits the keys. */
  method InsertEach(store: Table, changes: map<string, Value>, revisionableType: string, id: Value,
                    originalData: map<string, Value>, updatedData: map<string, Value>, user: Value, now: Value)
    returns (ghost order: seq<string>)
    requires store.Valid()
    modifies store
    ensures store.Valid()
    ensures Enumerates(order, changes.Keys)
    ensures store.rows == old(store.rows) +
              Stamped(Entries(order, revisionableType, id, originalData, updatedData, user, now), old(store.nextId))
    ensures store.nextId == old(store.nextId) + |order|
  {
    order := [];
    var pending := changes.Keys;
    assert Stamped([], store.nextId) == [];
    while pending != {}
      invariant pending <= changes.Keys
      invariant store.Valid()
      invariant Enumerates(order, changes.Keys - pending)
      invariant store.rows == old(store.rows) +
                  Stamped(Entries(order, revisionableType, id, originalData, updatedData, user, now), old(store.nextId))
      invariant store.nextId == old(store.nextId) + |order|
      decreases pending
    {
      var k :| k in pending;
      var revision := Entry(revisionableType, id, k, Get(originalData, k), Get(updatedData, k), user, now, now);
      store.Insert([revision]);
      InsertStep(order, k, revisionableType, id, originalData, updatedData, user, now, old(store.nextId));
      VisitStep(order, changes.Keys, pending, k);
      order := order + [k];
      pending := pending - {k};
    }
    assert changes.Keys - pending == changes.Keys;
  }

  /** Inserting one more row after the rows of `order` gives the rows of `order + [k]`. */
  lemma InsertStep(order: seq<string>, k: string, revisionableType: string, id: Value,
                   originalData: map<string, Value>, updatedData: map<string, Value>, user: Value, now: Value,
                   start: nat)
    ensures var es := Entries(order, revisionableType, id, originalData, updatedData, user, now);
            var e := Entry(revisionableType, id, k, Get(originalData, k), Get(updatedData, k), user, now, now);
            Stamped(es, start) + Stamped([e], start + |order|)
            == Stamped(Entries(order + [k], revisionableType, id, originalData, updatedData, user, now), start)
  {
  }

  /** Visiting one more pending key extends the enumeration of the visited keys. */
  lemma VisitStep(order: seq<string>, keys: set<string>, pending: set<string>, k: string)
    requires pending <= keys && k in pending && Enumerates(order, keys - pending)
    ensures Enumerates(order + [k], keys - (pending - {k}))
  {
    EnumeratesSnoc(order, keys - pending, k);
    assert keys - (pending - {k}) == (keys - pending) + {k};
  }

  /** With the declared defaults every dirty field is recorded and nothing is discarded. */
  lemma DefaultsRecordEveryDirtyField(dirty: map<string, Value>)
    ensures BaseChanges(dirty, [], []) == dirty
    ensures BaseDiscarded(dirty, [], []) == {}
  {
  }

  /** The base class records every revisionable dirty field, even one whose
      value only looks different or is an array: with equal loose values
      before and after it still writes a row, which the traits would not. */
  lemma BaseRecordsUnchangedValue()
    ensures var dirty := map["age" := Str("1")];
            var originalData := map["age" := Int(1)];
            var updatedData := map["age" := Str("1")];
            "age" in BaseChanges(dirty, [], []) &&
            "age" !in TraitChanges(dirty, originalData, updatedData, [], [])
  {
    assert LooseEquals(Int(1), Str("1")) by {
      ParseDecimal(1);
    }
  }
}
