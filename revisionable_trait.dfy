/**
 * RevisionableTrait: the engine most models use. `preSave` snapshots the
 * record before a save, `postSave` records the changed fields afterwards,
 * under the history limit and its cleanup; `postDelete` records soft
 * deletes, and the child and sync hooks record relation changes.
 */
module RevisionableTrait {
  import opened Wrappers
  import opened Php
  import opened Policy
  import opened Store
  import opened Capture

  /** How the trait combines a declared list with the list it collected:
      PHP's `+`, an index union, when the list is declared. */
  function Merged(declared: Option<seq<string>>, collected: seq<string>): (r: seq<string>)
    ensures declared.None? ==> r == collected
    ensures declared.Some? ==> |r| == if |declared.value| < |collected| then |collected| else |declared.value|
    ensures declared.Some? ==> r[..|declared.value|] == declared.value
    ensures declared.Some? ==> forall i | |declared.value| <= i < |r| :: r[i] == collected[i]
  {
    if declared.Some? then IndexUnion(declared.value, collected) else collected
  }

  /** The table after a batch is recorded: nothing for an empty batch;
      otherwise, when `trim`, the subject's |batch| oldest rows go first, then
      the batch is inserted. */
  function Recorded(rows: seq<Row>, s: Subject, trim: bool, batch: seq<Entry>, start: nat): seq<Row> {
    if batch == [] then rows
    else (if trim then Without(rows, Elems(OldestIds(rows, s, |batch|))) else rows) + Stamped(batch, start)
  }

  /** `array_keys($this->$relation->modelKeys())`: the positions of the
      related keys, not the keys. */
  function SyncedKeys(modelKeys: seq<Value>): (r: seq<Value>)
    ensures |r| == |modelKeys|
    ensures forall i | 0 <= i < |r| :: r[i] == Int(i)
  {
    seq(|modelKeys|, i requires 0 <= i < |modelKeys| => Int(i))
  }

  /** The snapshot `preSync` evidently means to keep: the related keys. */
  function IntendedSyncedKeys(modelKeys: seq<Value>): (r: seq<Value>)
    ensures r == modelKeys
  {
    modelKeys
  }

  /** A model using the trait, with the properties it may declare. */
  class Model {
    const className: string   // get_class($this): the type the rows are written with
    const morphClass: string  // getMorphClass(): the type revisionHistory() counts by
    var key: Value            // getKey()
    var original: map<string, Value>
    var attributes: map<string, Value>
    var recordExists: bool

    var revisionEnabled: Option<bool>
    var keepRevisionOf: Option<seq<string>>
    var dontKeepRevisionOf: Option<seq<string>>
    var historyLimit: Option<int>
    var revisionCleanup: Option<bool>
    var forceDeleting: Option<bool>
    var softDelete: Option<bool>

    var originalData: map<string, Value>
    var updatedData: map<string, Value>
    var updating: bool
    var dontKeep: seq<string>
    var doKeep: seq<string>
    var dirtyData: map<string, Value>
    var childData: Value
    var syncData: map<string, seq<Value>>

    /** The keys the last preSave dropped as objects, in the order it visited them. */
    ghost var autoExcluded: seq<string>
    /** The keys the last postSave recorded, in the order of its batch. */
    ghost var recorded: seq<string>

    constructor (className: string, morphClass: string)
      ensures this.className == className && this.morphClass == morphClass
      ensures key == Null && original == map[] && attributes == map[] && !recordExists
      ensures revisionEnabled.None? && keepRevisionOf.None? && dontKeepRevisionOf.None?
      ensures historyLimit.None? && revisionCleanup.None? && forceDeleting.None? && softDelete.None?
      ensures originalData == map[] && updatedData == map[] && !updating
      ensures dontKeep == [] && doKeep == [] && dirtyData == map[] && childData == Null && syncData == map[]
    {
      this.className := className;
      this.morphClass := morphClass;
      key := Null;
      original := map[];
      attributes := map[];
      recordExists := false;
      revisionEnabled := None;
      keepRevisionOf := None;
      dontKeepRevisionOf := None;
      historyLimit := None;
      revisionCleanup := None;
      forceDeleting := None;
      softDelete := None;
      originalData := map[];
      updatedData := map[];
      updating := false;
      dontKeep := [];
      doKeep := [];
      dirtyData := map[];
      childData := Null;
      syncData := map[];
      autoExcluded := [];
      recorded := [];
    }

    /** The rows `revisionHistory()` sees. */
    function History(): (h: Subject)
      reads this
      ensures forall r: Row :: Of(r, h) <==> r.entry.revisionableType == morphClass && r.entry.revisionableId == key
    {
      Subject(morphClass, key)
    }

    /** `isLimitReached()`. */
    function LimitReached(store: Table): (r: bool)
      reads this, store
      ensures historyLimit.None? ==> !r
      ensures historyLimit == Some(0) ==> r
      ensures r <==> historyLimit.Some? && CountOf(store.rows, History()) >= historyLimit.value
    {
      historyLimit.Some? && store.Count(History()) >= historyLimit.value
    }

    /** `isRevisionCleanup()`. */
    function Cleanup(): (r: bool)
      reads this
      ensures revisionCleanup.None? ==> !r
      ensures r <==> revisionCleanup == Some(true)
    {
      revisionCleanup == Some(true)
    }

    /** `prepareRevision($key, $old, $new)`. */
    function PrepareRevision(field: string, oldValue: Value, newValue: Value, user: Value, now: Value): (e: Entry)
      reads this
      ensures e.revisionableType == className && e.revisionableId == key
      ensures e.key == field && e.oldValue == oldValue && e.newValue == newValue && e.userId == user
    {
      Entry(className, key, field, oldValue, newValue, user, now, now)
    }

    /** `preSave()`: snapshot both attribute maps without the objects that
        cannot be compared, exclude those keys, merge the declared lists and
        take the dirty map. */
    method PreSave()
      modifies this`originalData, this`updatedData, this`dontKeep, this`doKeep, this`attributes,
               this`dirtyData, this`updating, this`autoExcluded
      ensures !Enabled(revisionEnabled) ==>
                originalData == old(originalData) && updatedData == old(updatedData) && dontKeep == old(dontKeep) &&
                doKeep == old(doKeep) && attributes == old(attributes) && dirtyData == old(dirtyData) &&
                updating == old(updating)
      ensures Enabled(revisionEnabled) ==> Enumerates(autoExcluded, Unstringable(old(attributes)))
      ensures Enabled(revisionEnabled) ==> originalData == original - Unstringable(old(attributes))
      ensures Enabled(revisionEnabled) ==> updatedData == old(attributes) - Unstringable(old(attributes))
      ensures Enabled(revisionEnabled) ==> dontKeep == Merged(dontKeepRevisionOf, old(dontKeep) + autoExcluded)
      ensures Enabled(revisionEnabled) ==> doKeep == Merged(keepRevisionOf, old(doKeep))
      ensures Enabled(revisionEnabled) ==> attributes == old(attributes) - {"dontKeepRevisionOf", "keepRevisionOf"}
      ensures Enabled(revisionEnabled) ==> dirtyData == Dirty(attributes, original) && updating == recordExists
    {
      if Enabled(revisionEnabled) {
        SnapshotAttributes();
        MergeLists();
        TakeDirty();
      }
    }

    /** First step of preSave: copy both attribute maps, dropping the objects
        without `__toString` and excluding their keys. */
    method SnapshotAttributes()
      modifies this`originalData, this`updatedData, this`dontKeep, this`autoExcluded
      ensures Enumerates(autoExcluded, Unstringable(attributes))
      ensures originalData == original - Unstringable(attributes)
      ensures updatedData == attributes - Unstringable(attributes)
      ensures dontKeep == old(dontKeep) + autoExcluded
    {
      var od, ud, dk, excluded := DropUnstringable(original, attributes, dontKeep);
      originalData := od;
      updatedData := ud;
      dontKeep := dk;
      autoExcluded := excluded;
    }

    /** Second step of preSave: put the declared lists in front of the
        collected ones with PHP's `+`. */
    method MergeLists()
      modifies this`dontKeep, this`doKeep
      ensures dontKeep == Merged(dontKeepRevisionOf, old(dontKeep))
      ensures doKeep == Merged(keepRevisionOf, old(doKeep))
    {
      dontKeep := Merged(dontKeepRevisionOf, dontKeep);
      doKeep := Merged(keepRevisionOf, doKeep);
    }

    /** Last step of preSave: drop the two list attributes, take the dirty
        map and remember whether this save updates a stored row. */
    method TakeDirty()
      modifies this`attributes, this`dirtyData, this`updating
      ensures attributes == old(attributes) - {"dontKeepRevisionOf", "keepRevisionOf"}
      ensures dirtyData == Dirty(attributes, original)
      ensures updating == recordExists
    {
      attributes := attributes - {"dontKeepRevisionOf", "keepRevisionOf"};
      dirtyData := Dirty(attributes, original);
      updating := recordExists;
    }

    /** `changedRevisionableFields()`: the recorded changes, with the keys it
        will not record unset from both snapshots. */
    method ChangedRevisionableFields() returns (changes: map<string, Value>)
      modifies this`originalData, this`updatedData
      ensures changes == TraitChanges(dirtyData, old(originalData), old(updatedData), doKeep, dontKeep)
      ensures originalData == old(originalData) - TraitDiscarded(dirtyData, doKeep, dontKeep)
      ensures updatedData == old(updatedData) - TraitDiscarded(dirtyData, doKeep, dontKeep)
    {
      var od, ud;
      changes, od, ud := FilterChanges(dirtyData, originalData, updatedData, doKeep, dontKeep);
      originalData := od;
      updatedData := ud;
    }

    /** `postSave()`: when revisions are on, the save was an update and the
        limit is not reached (or cleanup is on), one row per recorded change,
        inserted in one batch; when the limit is reached with cleanup, as many
        of the subject's oldest rows are deleted first. */
    method PostSave(store: Table, user: Value, now: Value)
      requires store.Valid()
      modifies this`originalData, this`updatedData, this`recorded, store
      ensures store.Valid()
      ensures var limitReached := historyLimit.Some? && old(store.Count(History())) >= historyLimit.value;
              var go := Enabled(revisionEnabled) && updating && (!limitReached || Cleanup());
              if !go then
                store.rows == old(store.rows) && store.nextId == old(store.nextId) &&
                originalData == old(originalData) && updatedData == old(updatedData)
              else
                var changes := TraitChanges(dirtyData, old(originalData), old(updatedData), doKeep, dontKeep);
                originalData == old(originalData) - TraitDiscarded(dirtyData, doKeep, dontKeep) &&
                updatedData == old(updatedData) - TraitDiscarded(dirtyData, doKeep, dontKeep) &&
                Enumerates(recorded, changes.Keys) &&
                store.nextId == old(store.nextId) + |recorded| &&
                store.rows == Recorded(old(store.rows), History(), limitReached && Cleanup(),
                                       Entries(recorded, className, key, originalData, updatedData, user, now),
                                       old(store.nextId))
    {
      var limitReached := LimitReached(store);
      var cleanup := Cleanup();
      if Enabled(revisionEnabled) && updating && (!limitReached || cleanup) {
        var changes := ChangedRevisionableFields();
        var revisions, order := BuildRevisions(changes, className, key, originalData, updatedData, user, now);
        recorded := order;
        if |revisions| > 0 {
          if limitReached && cleanup {
            store.DeleteOldest(History(), |revisions|);
          }
          store.Insert(revisions);
        }
      }
    }

    /** `postDelete()`: one 'deleted_at' row for a soft delete, when revisions
        are on and 'deleted_at' is revisionable. */
    method PostDelete(store: Table, user: Value, now: Value)
      requires store.Valid()
      modifies store
      ensures store.Valid()
      ensures var go := Enabled(revisionEnabled) && IsSoftDelete(forceDeleting, softDelete) &&
                        IsRevisionable("deleted_at", doKeep, dontKeep);
              store.nextId == old(store.nextId) + (if go then 1 else 0) &&
              store.rows == old(store.rows) +
                (if go then Stamped([PrepareRevision("deleted_at", Null, Get(attributes, "deleted_at"), user, now)],
                                    old(store.nextId))
                 else [])
    {
      if Enabled(revisionEnabled) && IsSoftDelete(forceDeleting, softDelete) && IsRevisionable("deleted_at", doKeep, dontKeep) {
        store.Insert([Entry(className, key, "deleted_at", Null, Get(attributes, "deleted_at"), user, now, now)]);
      }
    }

    /** `cleanupRevisions($count)`: with the limit reached and cleanup on,
        delete the subject's `count` oldest rows. */
    method CleanupRevisions(store: Table, count: nat)
      requires store.Valid()
      modifies store
      ensures store.Valid() && store.nextId == old(store.nextId)
      ensures old(LimitReached(store)) && Cleanup() ==>
                store.rows == Without(old(store.rows), Elems(OldestIds(old(store.rows), History(), count)))
      ensures !(old(LimitReached(store)) && Cleanup()) ==> store.rows == old(store.rows)
    {
      if LimitReached(store) && Cleanup() {
        store.DeleteOldest(History(), count);
      }
    }

    /** `cleanupRevisions()` then `dbInsert($revision)`: how the child and
        sync hooks store their one row. */
    method CleanupAndInsert(store: Table, revision: Entry)
      requires store.Valid()
      modifies store
      ensures store.Valid()
      ensures store.rows == Recorded(old(store.rows), History(), old(LimitReached(store)) && Cleanup(), [revision],
                                     old(store.nextId))
      ensures store.nextId == old(store.nextId) + 1
    {
      CleanupRevisions(store, 1);
      store.Insert([revision]);
    }

    /** `preSaveChild($relation, $model)`: keep the child's JSON as stored
        (`found`, or null when the row is gone) for a revisionable relation. */
    method PreSaveChild(relation: string, found: Option<string>)
      modifies this`childData
      ensures Enabled(revisionEnabled) && IsRelationRevisionable(relation, keepRevisionOf, dontKeepRevisionOf) ==>
                childData == (if found.Some? then Str(found.value) else Null)
      ensures !(Enabled(revisionEnabled) && IsRelationRevisionable(relation, keepRevisionOf, dontKeepRevisionOf)) ==>
                childData == old(childData)
    {
      if Enabled(revisionEnabled) && IsRelationRevisionable(relation, keepRevisionOf, dontKeepRevisionOf) {
        childData := if found.Some? then Str(found.value) else Null;
      }
    }

    /** `postSaveChild($relation, $model)`: one row from the kept JSON to the
        child's new JSON, after a one-row cleanup. */
    method PostSaveChild(store: Table, relation: string, childJson: string, user: Value, now: Value)
      requires store.Valid()
      modifies store
      ensures store.Valid()
      ensures var limitReached := old(LimitReached(store));
              store.rows == if Enabled(revisionEnabled) && (!limitReached || Cleanup()) then
                              Recorded(old(store.rows), History(), limitReached && Cleanup(),
                                       [PrepareRevision(relation, childData, Str(childJson), user, now)], old(store.nextId))
                            else old(store.rows)
      ensures store.nextId == old(store.nextId) + (if Enabled(revisionEnabled) && (!old(LimitReached(store)) || Cleanup()) then 1 else 0)
    {
      if Enabled(revisionEnabled) && (!LimitReached(store) || Cleanup()) {
        var revision := PrepareRevision(relation, childData, Str(childJson), user, now);
        CleanupAndInsert(store, revision);
      }
    }

    /** `postDeleteChild($model, $relation)`: one row from the child's JSON to
        null, after a one-row cleanup; the limit does not stop it. */
    method PostDeleteChild(store: Table, childJson: string, relation: string, user: Value, now: Value)
      requires store.Valid()
      modifies store
      ensures store.Valid()
      ensures store.rows == if Enabled(revisionEnabled) then
                              Recorded(old(store.rows), History(), old(LimitReached(store)) && Cleanup(),
                                       [PrepareRevision(relation, Str(childJson), Null, user, now)], old(store.nextId))
                            else old(store.rows)
      ensures store.nextId == old(store.nextId) + (if Enabled(revisionEnabled) then 1 else 0)
    {
      if Enabled(revisionEnabled) {
        var revision := PrepareRevision(relation, Str(childJson), Null, user, now);
        CleanupAndInsert(store, revision);
      }
    }

    /** `preSync($relation)`: for a revisionable relation, keep what is
        synced now (`modelKeys` are the related rows' keys). */
    method PreSync(relation: string, modelKeys: seq<Value>)
      modifies this`syncData
      ensures Enabled(revisionEnabled) && IsRelationRevisionable(relation, keepRevisionOf, dontKeepRevisionOf) ==>
                syncData == map[relation := SyncedKeys(modelKeys)]
      ensures !(Enabled(revisionEnabled) && IsRelationRevisionable(relation, keepRevisionOf, dontKeepRevisionOf)) ==>
                syncData == old(syncData)
    {
      if Enabled(revisionEnabled) && IsRelationRevisionable(relation, keepRevisionOf, dontKeepRevisionOf) {
        syncData := map[relation := SyncedKeys(modelKeys)];
      }
    }

    /** The `preSync` the comment beside it describes: keep the related keys
        themselves. */
    method PreSyncIntended(relation: string, modelKeys: seq<Value>)
      modifies this`syncData
      ensures Enabled(revisionEnabled) && IsRelationRevisionable(relation, keepRevisionOf, dontKeepRevisionOf) ==>
                syncData == map[relation := IntendedSyncedKeys(modelKeys)]
      ensures !(Enabled(revisionEnabled) && IsRelationRevisionable(relation, keepRevisionOf, dontKeepRevisionOf)) ==>
                syncData == old(syncData)
    {
      if Enabled(revisionEnabled) && IsRelationRevisionable(relation, keepRevisionOf, dontKeepRevisionOf) {
        syncData := map[relation := IntendedSyncedKeys(modelKeys)];
      }
    }

    /** `postSync($relation, $ids)`: one row from the kept snapshot to the new
        ids, both JSON-encoded by `encode`, after a one-row cleanup. */
    method PostSync(store: Table, relation: string, ids: seq<Value>, encode: seq<Value> -> string, user: Value, now: Value)
      requires store.Valid()
      modifies store
      ensures store.Valid()
      ensures var limitReached := old(LimitReached(store));
              store.rows == if Enabled(revisionEnabled) && (!limitReached || Cleanup()) && relation in syncData then
                              Recorded(old(store.rows), History(), limitReached && Cleanup(),
                                       [PrepareRevision(relation, Str(encode(syncData[relation])), Str(encode(ids)), user, now)],
                                       old(store.nextId))
                            else old(store.rows)
      ensures store.nextId == old(store.nextId) +
                (if Enabled(revisionEnabled) && (!old(LimitReached(store)) || Cleanup()) && relation in syncData then 1 else 0)
    {
      if Enabled(revisionEnabled) && (!LimitReached(store) || Cleanup()) && relation in syncData {
        var revision := PrepareRevision(relation, Str(encode(syncData[relation])), Str(encode(ids)), user, now);
        CleanupAndInsert(store, revision);
      }
    }

    /** `disableRevisionField($field)`: append the field, or every field of a
        (nested) array in order, to `dontKeepRevisionOf`, creating it if unset. */
    method DisableRevisionField(f: FieldArg)
      modifies this`dontKeepRevisionOf
      ensures dontKeepRevisionOf == Some(old(dontKeepRevisionOf).GetOr([]) + Flatten(f))
      decreases f
    {
      if dontKeepRevisionOf.None? {
        dontKeepRevisionOf := Some([]);
      }
      match f
      case Field(name) =>
        dontKeepRevisionOf := Some(dontKeepRevisionOf.value + [name]);
      case Fields(items) =>
        ghost var start := dontKeepRevisionOf.value;
        assert items[..0] == [];
        assert start + FlattenAll(items[..0]) == start;
        for i := 0 to |items|
          invariant dontKeepRevisionOf == Some(start + FlattenAll(items[..i]))
        {
          FlattenAllSnoc(items, i);
          ghost var before := dontKeepRevisionOf.value;
          DisableRevisionField(items[i]);
          assert dontKeepRevisionOf.value == before + Flatten(items[i]);
          assert before + Flatten(items[i]) == start + FlattenAll(items[..i + 1]);
        }
        assert items[..|items|] == items;
    }
  }

  /** The loop of `postSave()`: one row per recorded change, in the order the
      loop visits the keys. */
  method BuildRevisions(changes: map<string, Value>, revisionableType: string, id: Value,
                        originalData: map<string, Value>, updatedData: map<string, Value>, user: Value, now: Value)
    returns (revisions: seq<Entry>, ghost order: seq<string>)
    ensures Enumerates(order, changes.Keys)
    ensures revisions == Entries(order, revisionableType, id, originalData, updatedData, user, now)
  {
    revisions := [];
    order := [];
    var pending := changes.Keys;
    while pending != {}
      invariant pending <= changes.Keys
      invariant Enumerates(order, changes.Keys - pending)
      invariant revisions == Entries(order, revisionableType, id, originalData, updatedData, user, now)
      decreases pending
    {
      var k :| k in pending;
      revisions := revisions + [Entry(revisionableType, id, k, Get(originalData, k), Get(updatedData, k), user, now, now)];
      EnumeratesSnoc(order, changes.Keys - pending, k);
      order := order + [k];
      assert changes.Keys - (pending - {k}) == (changes.Keys - pending) + {k};
      pending := pending - {k};
    }
    assert changes.Keys - pending == changes.Keys;
  }

  // ---------------------------------------------------------------------------
  // Retention

  lemma {:induction false} OthersOfAppend(a: seq<Row>, b: seq<Row>, s: Subject)
    ensures OthersOf(a + b, s) == OthersOf(a, s) + OthersOf(b, s)
  {
    if a != [] {
      assert (a + b)[0] == a[0];
      assert (a + b)[1..] == a[1..] + b;
      OthersOfAppend(a[1..], b, s);
    } else {
      assert a + b == b;
    }
  }

  lemma {:induction false} OthersOfStamped(entries: seq<Entry>, start: nat, s: Subject)
    requires forall e | e in entries :: e.revisionableType == s.revisionableType && e.revisionableId == s.revisionableId
    ensures OthersOf(Stamped(entries, start), s) == []
  {
    if entries != [] {
      assert Stamped(entries, start)[1..] == Stamped(entries[1..], start + 1);
      OthersOfStamped(entries[1..], start + 1, s);
    }
  }

  /** Recording a batch for a subject never touches another subject's rows. */
  lemma RecordedKeepsOthers(rows: seq<Row>, s: Subject, trim: bool, batch: seq<Entry>, start: nat)
    requires Ascending(rows)
    requires forall e | e in batch :: e.revisionableType == s.revisionableType && e.revisionableId == s.revisionableId
    ensures OthersOf(Recorded(rows, s, trim, batch, start), s) == OthersOf(rows, s)
  {
    if batch != [] {
      var kept := if trim then Without(rows, Elems(OldestIds(rows, s, |batch|))) else rows;
      if trim {
        DeleteOldestKeepsOthers(rows, s, |batch|);
      }
      OthersOfAppend(kept, Stamped(batch, start), s);
      OthersOfStamped(batch, start, s);
    }
  }

  /** With cleanup, a full history stays full: each recorded row replaces
      one of the subject's oldest. */
  lemma RecordedKeepsHistorySize(rows: seq<Row>, s: Subject, batch: seq<Entry>, start: nat)
    requires Ascending(rows)
    requires forall e | e in batch :: e.revisionableType == s.revisionableType && e.revisionableId == s.revisionableId
    requires |batch| <= CountOf(rows, s)
    ensures CountOf(Recorded(rows, s, true, batch, start), s) == CountOf(rows, s)
  {
    if batch != [] {
      var kept := Without(rows, Elems(OldestIds(rows, s, |batch|)));
      DeleteOldestCount(rows, s, |batch|);
      CountOfAppend(kept, Stamped(batch, start), s);
      CountOfStamped(batch, start, s);
    }
  }

  /** Without cleanup, recording only adds the batch to the subject's count. */
  lemma RecordedGrowsHistory(rows: seq<Row>, s: Subject, batch: seq<Entry>, start: nat)
    requires forall e | e in batch :: e.revisionableType == s.revisionableType && e.revisionableId == s.revisionableId
    ensures CountOf(Recorded(rows, s, false, batch, start), s) == CountOf(rows, s) + |batch|
  {
    if batch != [] {
      CountOfAppend(rows, Stamped(batch, start), s);
      CountOfStamped(batch, start, s);
    }
  }

  // ---------------------------------------------------------------------------
  // The index union of preSave

  /** When the declared exclude-list is at least as long as what preSave
      collected, the union keeps only the declared list: every auto-excluded
      key not declared is dropped again. */
  lemma UnionDropsCollected(declared: seq<string>, collected: seq<string>, x: string)
    requires |collected| <= |declared| && x in collected && x !in declared
    ensures x !in Merged(Some(declared), collected)
  {
  }

  /** The concrete case: a model declaring `dontKeepRevisionOf = ['password']`
      whose 'created_at' holds an object without __toString. preSave drops the
      object and collects 'created_at', the union forgets it, so the key stays
      revisionable and, being dirty, is recorded with a null new value. */
  lemma ObjectKeyRecordedAsNull()
    ensures var dontKeep := Merged(Some(["password"]), [] + ["created_at"]);
            var attributes := map["created_at" := Obj(None)];
            var dirty := Dirty(attributes, map[]);
            var originalData := map[] - Unstringable(attributes);
            var updatedData := attributes - Unstringable(attributes);
            dontKeep == ["password"] &&
            "created_at" in TraitChanges(dirty, originalData, updatedData, [], dontKeep) &&
            EntryFor("User", Int(1), "created_at", originalData, updatedData, Null, Null).newValue == Null
  {
    var attributes := map["created_at" := Obj(None)];
    assert "created_at" in Unstringable(attributes);
    var updatedData := attributes - Unstringable(attributes);
    assert "created_at" !in updatedData;
    assert Dirty(attributes, map[])["created_at"] == Obj(None);
  }

  // ---------------------------------------------------------------------------
  // The sync snapshot

  /** preSync keeps positions: for the related keys [7, 9] it stores [0, 1],
      so a sync that changes nothing is recorded as a change. */
  lemma SyncSnapshotIsPositions()
    ensures SyncedKeys([Int(7), Int(9)]) == [Int(0), Int(1)]
    ensures SyncedKeys([Int(7), Int(9)]) != [Int(7), Int(9)]
  {
    assert SyncedKeys([Int(7), Int(9)])[0] == Int(0);
  }

  /** The positions depend only on how many rows were related: two different
      relations of the same size give the same old value. */
  lemma SyncSnapshotForgetsKeys(a: seq<Value>, b: seq<Value>)
    requires |a| == |b|
    ensures SyncedKeys(a) == SyncedKeys(b)
  {
  }

  /** The last row of a recorded one-row batch is that row, with the next id. */
  lemma RecordedOneIsLast(rows: seq<Row>, s: Subject, trim: bool, e: Entry, start: nat)
    ensures var r := Recorded(rows, s, trim, [e], start);
            |r| > 0 && r[|r| - 1] == Row(start, e)
  {
  }

  /** As written: preSync then postSync of the very keys that were related
      records a row whose old value differs from its new value whenever the
      keys are not the positions 0..n-1 and the encoding tells lists apart. */
  method ResyncAsWritten(m: Model, store: Table, relation: string, keys: seq<Value>,
                         encode: seq<Value> -> string, user: Value, now: Value)
    requires store.Valid()
    requires Enabled(m.revisionEnabled) && IsRelationRevisionable(relation, m.keepRevisionOf, m.dontKeepRevisionOf)
    requires !m.LimitReached(store) || m.Cleanup()
    requires forall a, b :: encode(a) == encode(b) ==> a == b
    requires keys != SyncedKeys(keys)
    modifies m`syncData, store
    ensures store.Valid() && |store.rows| > 0
    ensures var last := store.rows[|store.rows| - 1].entry;
            last.key == relation && last.oldValue == Str(encode(SyncedKeys(keys))) &&
            last.newValue == Str(encode(keys)) && last.oldValue != last.newValue
  {
    m.PreSync(relation, keys);
    assert m.syncData[relation] == SyncedKeys(keys);
    ghost var rows, start, trim := store.rows, store.nextId, m.LimitReached(store) && m.Cleanup();
    ghost var revision := m.PrepareRevision(relation, Str(encode(SyncedKeys(keys))), Str(encode(keys)), user, now);
    m.PostSync(store, relation, keys, encode, user, now);
    assert store.rows == Recorded(rows, m.History(), trim, [revision], start);
    RecordedOneIsLast(rows, m.History(), trim, revision, start);
  }

  /** Corrected: with the intended snapshot, re-syncing the keys that were
      related records a row whose old and new values are the same. */
  method ResyncIntended(m: Model, store: Table, relation: string, keys: seq<Value>,
                        encode: seq<Value> -> string, user: Value, now: Value)
    requires store.Valid()
    requires Enabled(m.revisionEnabled) && IsRelationRevisionable(relation, m.keepRevisionOf, m.dontKeepRevisionOf)
    requires !m.LimitReached(store) || m.Cleanup()
    modifies m`syncData, store
    ensures store.Valid() && |store.rows| > 0
    ensures var last := store.rows[|store.rows| - 1].entry;
            last.key == relation && last.oldValue == last.newValue == Str(encode(keys))
  {
    m.PreSyncIntended(relation, keys);
    assert m.syncData[relation] == keys;
    ghost var rows, start, trim := store.rows, store.nextId, m.LimitReached(store) && m.Cleanup();
    ghost var revision := m.PrepareRevision(relation, Str(encode(keys)), Str(encode(keys)), user, now);
    m.PostSync(store, relation, keys, encode, user, now);
    assert store.rows == Recorded(rows, m.History(), trim, [revision], start);
    RecordedOneIsLast(rows, m.History(), trim, revision, start);
  }

  // ---------------------------------------------------------------------------
  // Two updates give two revisions

  /** A user created with a name, then updated to 'Judd' and to 'James'
      (no revision settings, so nothing is excluded and nothing is dropped):
      each update records its one changed field, and the history holds two
      rows, whatever order postSave visits the changes in. */
  lemma RevisionsStored(order1: seq<string>, order2: seq<string>)
    requires Enumerates(order1, {"name"}) && Enumerates(order2, {"name"})
    ensures var created := map["name" := Str("James Judd")];
            var judd := map["name" := Str("Judd")];
            var james := map["name" := Str("James")];
            var s := Subject("User", Int(1));
            var rows1 := Recorded([], s, false, Entries(order1, "User", Int(1), created, judd, Null, Null), 1);
            var rows2 := Recorded(rows1, s, false, Entries(order2, "User", Int(1), judd, james, Null, Null), 2);
            TraitChanges(Dirty(judd, created), created, judd, [], []) == judd &&
            TraitChanges(Dirty(james, judd), judd, james, [], []) == james &&
            CountOf(rows2, s) == 2
  {
    var created := map["name" := Str("James Judd")];
    var judd := map["name" := Str("Judd")];
    var james := map["name" := Str("James")];
    var s := Subject("User", Int(1));
    assert Dirty(judd, created) == judd;
    assert Dirty(james, judd) == james;
    DistinctCardinality(order1, {"name"});
    DistinctCardinality(order2, {"name"});
    var batch1 := Entries(order1, "User", Int(1), created, judd, Null, Null);
    var batch2 := Entries(order2, "User", Int(1), judd, james, Null, Null);
    RecordedGrowsHistory([], s, batch1, 1);
    RecordedGrowsHistory(Recorded([], s, false, batch1, 1), s, batch2, 2);
  }
}
