/**
 * CommonTrait: the later copy of the trait's capture step. Its preSave puts
 * the declared lists in front of the collected ones by concatenation
 * (`array_merge`), so the keys it excludes at run time stay excluded.
 */
module CommonTrait {
  import opened Wrappers
  import opened Php
  import opened Policy
  import opened Capture

  /** `array_merge($declared, $collected)` on two lists when the list is
      declared, the collected list alone otherwise. */
  function Concatenated(declared: Option<seq<string>>, collected: seq<string>): (r: seq<string>)
    ensures |r| == (if declared.Some? then |declared.value| else 0) + |collected|
    ensures forall x :: x in r <==> (declared.Some? && x in declared.value) || x in collected
    ensures declared.Some? ==> r[..|declared.value|] == declared.value
  {
    if declared.Some? then declared.value + collected else collected
  }

  /** A model using CommonTrait, with the properties it may declare. */
  class Model {
    var original: map<string, Value>
    var attributes: map<string, Value>
    var recordExists: bool

    var revisionEnabled: Option<bool>
    var keepRevisionOf: Option<seq<string>>
    var dontKeepRevisionOf: Option<seq<string>>

    var originalData: map<string, Value>
    var updatedData: map<string, Value>
    var updating: bool
    var dontKeep: seq<string>
    var doKeep: seq<string>
    var dirtyData: map<string, Value>

    /** The keys the last preSave dropped as objects, in the order it visited them. */
    ghost var autoExcluded: seq<string>

    constructor ()
      ensures original == map[] && attributes == map[] && !recordExists
      ensures revisionEnabled.None? && keepRevisionOf.None? && dontKeepRevisionOf.None?
      ensures originalData == map[] && updatedData == map[] && !updating
      ensures dontKeep == [] && doKeep == [] && dirtyData == map[]
    {
      original := map[];
      attributes := map[];
      recordExists := false;
      revisionEnabled := None;
      keepRevisionOf := None;
      dontKeepRevisionOf := None;
      originalData := map[];
      updatedData := map[];
      updating := false;
      dontKeep := [];
      doKeep := [];
      dirtyData := map[];
      autoExcluded := [];
    }

    /** `preSave()`: snapshot both attribute maps without the objects that
        cannot be compared, exclude those keys, concatenate the declared lists
        in front and take the dirty map; every dropped key ends up excluded. */
    method PreSave()
      modifies this`originalData, this`updatedData, this`dontKeep, this`doKeep, this`attributes,
               this`dirtyData, this`updating, this`autoExcluded
      ensures !Enabled(revisionEnabled) ==>
                originalData == old(originalData) && updatedData == old(updatedData) && dontKeep == old(dontKeep) &&
                doKeep == old(doKeep) && attributes == old(attributes) && dirtyData == old(dirtyData) &&
                updating == old(updating)
      ensures Enabled(revisionEnabled) ==> Enumerates(autoExcluded, Unstringable(old(attributes)))
      ensures Enabled(revisionEnabled) ==> originalData == original - Unstringable(old(attributes))
      ensures Enabled(revisionEnabled) ==> updatedData == old(attributes) - Unstringable(old(attributes))
      ensures Enabled(revisionEnabled) ==> dontKeep == Concatenated(dontKeepRevisionOf, old(dontKeep) + autoExcluded)
      ensures Enabled(revisionEnabled) ==> doKeep == Concatenated(keepRevisionOf, old(doKeep))
      ensures Enabled(revisionEnabled) ==> forall k | k in Unstringable(old(attributes)) :: k in dontKeep
      ensures Enabled(revisionEnabled) ==> attributes == old(attributes) - {"dontKeepRevisionOf", "keepRevisionOf"}
      ensures Enabled(revisionEnabled) ==> dirtyData == Dirty(attributes, original) && updating == recordExists
    {
      if Enabled(revisionEnabled) {
        SnapshotAttributes();
        MergeLists();
        TakeDirty();
      }
    }

    /** First step of preSave: copy both attribute maps, dropping the objects
        without `__toString` and excluding their keys. */
    method SnapshotAttributes()
      modifies this`originalData, this`updatedData, this`dontKeep, this`autoExcluded
      ensures Enumerates(autoExcluded, Unstringable(attributes))
      ensures originalData == original - Unstringable(attributes)
      ensures updatedData == attributes - Unstringable(attributes)
      ensures dontKeep == old(dontKeep) + autoExcluded
    {
      var od, ud, dk, excluded := DropUnstringable(original, attributes, dontKeep);
      originalData := od;
      updatedData := ud;
      dontKeep := dk;
      autoExcluded := excluded;
    }

    /** Second step of preSave: put the declared lists in front of the
        collected ones with `array_merge`. */
    method MergeLists()
      modifies this`dontKeep, this`doKeep
      ensures dontKeep == Concatenated(dontKeepRevisionOf, old(dontKeep))
      ensures doKeep == Concatenated(keepRevisionOf, old(doKeep))
    {
      dontKeep := Concatenated(dontKeepRevisionOf, dontKeep);
      doKeep := Concatenated(keepRevisionOf, doKeep);
    }

    /** Last step of preSave: drop the two list attributes, take the dirty
        map and remember whether this save updates a stored row. */
    method TakeDirty()
      modifies this`attributes, this`dirtyData, this`updating
      ensures attributes == old(attributes) - {"dontKeepRevisionOf", "keepRevisionOf"}
      ensures dirtyData == Dirty(attributes, original)
      ensures updating == recordExists
    {
      attributes := attributes - {"dontKeepRevisionOf", "keepRevisionOf"};
      dirtyData := Dirty(attributes, original);
      updating := recordExists;
    }

    /** `changedRevisionableFields()`: the recorded changes, with the keys it
        will not record unset from both snapshots. */
    method ChangedRevisionableFields() returns (changes: map<string, Value>)
      modifies this`originalData, this`updatedData
      ensures changes == TraitChanges(dirtyData, old(originalData), old(updatedData), doKeep, dontKeep)
      ensures originalData == old(originalData) - TraitDiscarded(dirtyData, doKeep, dontKeep)
      ensures updatedData == old(updatedData) - TraitDiscarded(dirtyData, doKeep, dontKeep)
    {
      var od, ud;
      changes, od, ud := FilterChanges(dirtyData, originalData, updatedData, doKeep, dontKeep);
      originalData := od;
      updatedData := ud;
    }

    /** `disableRevisionField($field)`: append the field, or every field of a
        (nested) array in order, to `dontKeepRevisionOf`, creating it if unset. */
    method DisableRevisionField(f: FieldArg)
      modifies this`dontKeepRevisionOf
      ensures dontKeepRevisionOf == Some(old(dontKeepRevisionOf).GetOr([]) + Flatten(f))
      decreases f
    {
      if dontKeepRevisionOf.None? {
        dontKeepRevisionOf := Some([]);
      }
      match f
      case Field(name) =>
        dontKeepRevisionOf := Some(dontKeepRevisionOf.value + [name]);
      case Fields(items) =>
        ghost var start := dontKeepRevisionOf.value;
        assert items[..0] == [];
        assert start + FlattenAll(items[..0]) == start;
        for i := 0 to |items|
          invariant dontKeepRevisionOf == Some(start + FlattenAll(items[..i]))
        {
          FlattenAllSnoc(items, i);
          ghost var before := dontKeepRevisionOf.value;
          DisableRevisionField(items[i]);
          assert dontKeepRevisionOf.value == before + Flatten(items[i]);
          assert before + Flatten(items[i]) == start + FlattenAll(items[..i + 1]);
        }
        assert items[..|items|] == items;
    }
  }

  /** Concatenation loses nothing: a key collected at run time stays in the
      exclude list, so it is recorded only when the include-list names it. */
  lemma CollectedStaysExcluded(declared: Option<seq<string>>, collected: seq<string>, k: string,
                               dirty: map<string, Value>, originalData: map<string, Value>,
                               updatedData: map<string, Value>, doKeep: seq<string>)
    requires k in collected && k !in doKeep
    ensures !IsRevisionable(k, doKeep, Concatenated(declared, collected))
    ensures k !in TraitChanges(dirty, originalData, updatedData, doKeep, Concatenated(declared, collected))
  {
  }

  /** The case where the index union loses the key: `dontKeepRevisionOf =
      ['password']` and 'created_at' holding an object without __toString.
      With concatenation 'created_at' stays excluded and is not recorded. */
  lemma ObjectKeyNotRecorded()
    ensures var dontKeep := Concatenated(Some(["password"]), [] + ["created_at"]);
            var attributes := map["created_at" := Obj(None)];
            var dirty := Dirty(attributes, map[]);
            var originalData := map[] - Unstringable(attributes);
            var updatedData := attributes - Unstringable(attributes);
            dontKeep == ["password", "created_at"] &&
            "created_at" in dirty &&
            "created_at" !in TraitChanges(dirty, originalData, updatedData, [], dontKeep)
  {
    var attributes := map["created_at" := Obj(None)];
    assert Dirty(attributes, map[])["created_at"] == Obj(None);
    CollectedStaysExcluded(Some(["password"]), ["created_at"], "created_at", Dirty(attributes, map[]),
                           map[] - Unstringable(attributes), attributes - Unstringable(attributes), []);
  }
}
