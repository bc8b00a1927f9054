/**
 * What the three versions of the engine compute from a save, stated as
 * functions: the dirty map, the object values dropped from the snapshots,
 * the fields that end up recorded, and the rows built for them, together
 * with the two loops the traits share (the object drop of preSave and the
 * filter of changedRevisionableFields). The classes in RevisionableTrait,
 * CommonTrait and BaseRevisionable are proved to compute exactly these.
 */
module Capture {
  import opened Wrappers
  import opened Php
  import opened Policy
  import opened Store

  /** Eloquent's `getDirty()`: attributes that are new or differ from the
      stored original. */
  function Dirty(attributes: map<string, Value>, original: map<string, Value>): (d: map<string, Value>)
    ensures d.Keys <= attributes.Keys
    ensures forall k | k in attributes :: k in d <==> (k !in original || original[k] != attributes[k])
    ensures forall k | k in d :: d[k] == attributes[k]
  {
    map k | k in attributes && (k !in original || original[k] != attributes[k]) :: attributes[k]
  }

  /** Keys holding an object without `__toString`: the two traits drop these. */
  function Unstringable(m: map<string, Value>): set<string> {
    set k | k in m && m[k] == Obj(None)
  }

  /** Keys holding any object: the base class drops these. */
  function Objects(m: map<string, Value>): set<string> {
    set k | k in m && m[k].Obj?
  }

  /** `xs` lists the elements of `s`, each once, in some order: how a
      `foreach` over a PHP array visits its keys. */
  ghost predicate Enumerates(xs: seq<string>, s: set<string>) {
    (forall i, j | 0 <= i < j < |xs| :: xs[i] != xs[j]) && (forall x :: x in xs <==> x in s)
  }

  // ---------------------------------------------------------------------------
  // changedRevisionableFields of the two traits

  /** The trait filter: revisionable and not an array. */
  predicate Kept(key: string, value: Value, doKeep: seq<string>, dontKeep: seq<string>) {
    IsRevisionable(key, doKeep, dontKeep) && !value.Arr?
  }

  /** The trait's re-check that a dirty field really changed. */
  predicate StillDiffers(originalData: map<string, Value>, updatedData: map<string, Value>, key: string) {
    !IsSet(originalData, key) || !LooseEquals(originalData[key], Get(updatedData, key))
  }

  /** The fields the traits record, each with its dirty value. */
  function TraitChanges(dirty: map<string, Value>, originalData: map<string, Value>, updatedData: map<string, Value>,
                        doKeep: seq<string>, dontKeep: seq<string>): (r: map<string, Value>)
    ensures r.Keys <= dirty.Keys
    ensures forall k | k in dirty ::
              k in r <==> Kept(k, dirty[k], doKeep, dontKeep) && StillDiffers(originalData, updatedData, k)
    ensures forall k | k in r :: r[k] == dirty[k]
  {
    map k | k in dirty && Kept(k, dirty[k], doKeep, dontKeep) && StillDiffers(originalData, updatedData, k) :: dirty[k]
  }

  /** The dirty keys the traits unset from both snapshots. */
  function TraitDiscarded(dirty: map<string, Value>, doKeep: seq<string>, dontKeep: seq<string>): (r: set<string>)
    ensures forall k :: k in r <==> k in dirty && !Kept(k, dirty[k], doKeep, dontKeep)
  {
    set k | k in dirty && !Kept(k, dirty[k], doKeep, dontKeep)
  }

  /** One more dirty key visited by the trait's loop: recorded when kept and
      still different, otherwise discarded when not kept. */
  lemma TraitStep(done: map<string, Value>, key: string, value: Value, originalData: map<string, Value>,
                  updatedData: map<string, Value>, doKeep: seq<string>, dontKeep: seq<string>)
    requires key !in done
    ensures TraitChanges(done[key := value], originalData, updatedData, doKeep, dontKeep)
            == if Kept(key, value, doKeep, dontKeep) && StillDiffers(originalData, updatedData, key)
               then TraitChanges(done, originalData, updatedData, doKeep, dontKeep)[key := value]
               else TraitChanges(done, originalData, updatedData, doKeep, dontKeep)
    ensures TraitDiscarded(done[key := value], doKeep, dontKeep)
            == TraitDiscarded(done, doKeep, dontKeep) + (if Kept(key, value, doKeep, dontKeep) then {} else {key})
  {
  }

  /** The loop of `changedRevisionableFields()`: a dirty field that is
      revisionable and not an array is recorded when it still differs from the
      original snapshot; any other dirty field is unset from both snapshots. */
  method FilterChanges(dirty: map<string, Value>, originalData: map<string, Value>, updatedData: map<string, Value>,
                       doKeep: seq<string>, dontKeep: seq<string>)
    returns (changes: map<string, Value>, od: map<string, Value>, ud: map<string, Value>)
    ensures changes == TraitChanges(dirty, originalData, updatedData, doKeep, dontKeep)
    ensures od == originalData - TraitDiscarded(dirty, doKeep, dontKeep)
    ensures ud == updatedData - TraitDiscarded(dirty, doKeep, dontKeep)
  {
    od, ud := originalData, updatedData;
    changes := map[];
    var pending := dirty.Keys;
    while pending != {}
      invariant pending <= dirty.Keys
      invariant changes == TraitChanges(dirty - pending, originalData, updatedData, doKeep, dontKeep)
      invariant od == originalData - TraitDiscarded(dirty - pending, doKeep, dontKeep)
      invariant ud == updatedData - TraitDiscarded(dirty - pending, doKeep, dontKeep)
      decreases pending
    {
      var k :| k in pending;
      FilterStep(dirty, pending, k, originalData, updatedData, doKeep, dontKeep, changes, od, ud);
      if IsRevisionable(k, doKeep, dontKeep) && !dirty[k].Arr? {
        if !IsSet(od, k) || !LooseEquals(od[k], Get(ud, k)) {
          changes := changes[k := dirty[k]];
        }
      } else {
        ud := ud - {k};
        od := od - {k};
      }
      pending := pending - {k};
    }
    assert dirty - pending == dirty;
  }

  /** One turn of the loop of `changedRevisionableFields()` keeps its invariant. */
  lemma FilterStep(dirty: map<string, Value>, pending: set<string>, k: string,
                   originalData: map<string, Value>, updatedData: map<string, Value>,
                   doKeep: seq<string>, dontKeep: seq<string>,
                   changes: map<string, Value>, od: map<string, Value>, ud: map<string, Value>)
    requires k in pending && pending <= dirty.Keys
    requires changes == TraitChanges(dirty - pending, originalData, updatedData, doKeep, dontKeep)
    requires od == originalData - TraitDiscarded(dirty - pending, doKeep, dontKeep)
    requires ud == updatedData - TraitDiscarded(dirty - pending, doKeep, dontKeep)
    ensures var next := dirty - (pending - {k});
            var changes' := TraitChanges(next, originalData, updatedData, doKeep, dontKeep);
            var discarded' := TraitDiscarded(next, doKeep, dontKeep);
            if !Kept(k, dirty[k], doKeep, dontKeep) then
              changes' == changes && od - {k} == originalData - discarded' && ud - {k} == updatedData - discarded'
            else
              od == originalData - discarded' && ud == updatedData - discarded' &&
              changes' == (if StillDiffers(od, ud, k) then changes[k := dirty[k]] else changes)
  {
    var done := dirty - pending;
    assert dirty - (pending - {k}) == done[k := dirty[k]];
    TraitStep(done, k, dirty[k], originalData, updatedData, doKeep, dontKeep);
    assert k !in TraitDiscarded(done, doKeep, dontKeep);
    assert IsSet(od, k) == IsSet(originalData, k) && Get(ud, k) == Get(updatedData, k);
  }

  /** The loop of `preSave()`: every value that is an object without
      `__toString` is unset from both snapshots and its key pushed onto the
      exclude list, in the order the loop visits the keys. */
  method DropUnstringable(original: map<string, Value>, attributes: map<string, Value>, dontKeep: seq<string>)
    returns (originalData: map<string, Value>, updatedData: map<string, Value>, excludes: seq<string>,
             ghost excluded: seq<string>)
    ensures Enumerates(excluded, Unstringable(attributes))
    ensures originalData == original - Unstringable(attributes)
    ensures updatedData == attributes - Unstringable(attributes)
    ensures excludes == dontKeep + excluded
  {
    originalData, updatedData, excludes := original, attributes, dontKeep;
    var pending := attributes.Keys;
    excluded := [];
    while pending != {}
      invariant pending <= attributes.Keys
      invariant originalData == original - Dropped(attributes, pending)
      invariant updatedData == attributes - Dropped(attributes, pending)
      invariant excludes == dontKeep + excluded
      invariant Enumerates(excluded, Dropped(attributes, pending))
      decreases pending
    {
      var k :| k in pending;
      if attributes[k] == Obj(None) {
        originalData := originalData - {k};
        updatedData := updatedData - {k};
        excludes := excludes + [k];
        EnumeratesSnoc(excluded, Dropped(attributes, pending), k);
        excluded := excluded + [k];
      }
      assert Dropped(attributes, pending - {k})
          == Dropped(attributes, pending) + (if attributes[k] == Obj(None) then {k} else {});
      pending := pending - {k};
    }
    assert Dropped(attributes, {}) == Unstringable(attributes);
  }

  /** The keys of `m` the preSave loop has dropped once `pending` is left to visit. */
  function Dropped(m: map<string, Value>, pending: set<string>): set<string> {
    set k | k in m && k !in pending && m[k] == Obj(None)
  }

  // ---------------------------------------------------------------------------
  // changedRevisionableFields of the base class

  /** The fields the base class records: every revisionable dirty field. */
  function BaseChanges(dirty: map<string, Value>, keepRevisionOf: seq<string>, dontKeepRevisionOf: seq<string>)
    : (r: map<string, Value>)
    ensures r.Keys <= dirty.Keys
    ensures forall k | k in dirty :: k in r <==> IsRevisionable(k, keepRevisionOf, dontKeepRevisionOf)
    ensures forall k | k in r :: r[k] == dirty[k]
  {
    map k | k in dirty && IsRevisionable(k, keepRevisionOf, dontKeepRevisionOf) :: dirty[k]
  }

  function BaseDiscarded(dirty: map<string, Value>, keepRevisionOf: seq<string>, dontKeepRevisionOf: seq<string>)
    : (r: set<string>)
    ensures forall k :: k in r <==> k in dirty && !IsRevisionable(k, keepRevisionOf, dontKeepRevisionOf)
  {
    set k | k in dirty && !IsRevisionable(k, keepRevisionOf, dontKeepRevisionOf)
  }

  /** The trait records a subset of what the base class would record with
      the same lists, and every field it leaves out is an array or unchanged. */
  lemma TraitRecordsLessThanBase(dirty: map<string, Value>, originalData: map<string, Value>,
                                 updatedData: map<string, Value>, doKeep: seq<string>, dontKeep: seq<string>)
    ensures TraitChanges(dirty, originalData, updatedData, doKeep, dontKeep).Keys
            <= BaseChanges(dirty, doKeep, dontKeep).Keys
    ensures forall k | k in BaseChanges(dirty, doKeep, dontKeep) && k !in TraitChanges(dirty, originalData, updatedData, doKeep, dontKeep)
              :: dirty[k].Arr? || (IsSet(originalData, k) && LooseEquals(originalData[k], Get(updatedData, k)))
  {
  }

  // ---------------------------------------------------------------------------
  // Rows

  /** The row postSave builds for one recorded key: old value from the
      original snapshot (null when absent), new value from the updated one. */
  function EntryFor(revisionableType: string, id: Value, key: string, originalData: map<string, Value>,
                    updatedData: map<string, Value>, user: Value, now: Value): (e: Entry)
    ensures e.key == key && e.revisionableType == revisionableType && e.revisionableId == id
    ensures e.oldValue == (if key in originalData then originalData[key] else Null)
    ensures e.newValue == (if key in updatedData then updatedData[key] else Null)
  {
    Entry(revisionableType, id, key, Get(originalData, key), Get(updatedData, key), user, now, now)
  }

  /** The rows for the keys `order`, in that order. */
  function Entries(order: seq<string>, revisionableType: string, id: Value, originalData: map<string, Value>,
                   updatedData: map<string, Value>, user: Value, now: Value): (es: seq<Entry>)
    ensures |es| == |order|
    ensures forall i | 0 <= i < |order| :: es[i] == EntryFor(revisionableType, id, order[i], originalData, updatedData, user, now)
  {
    seq(|order|, i requires 0 <= i < |order| => EntryFor(revisionableType, id, order[i], originalData, updatedData, user, now))
  }

  /** A batch built from an enumeration of the recorded keys has one row per
      key: the keys of its rows are exactly the recorded keys, without repeats. */
  lemma EntriesCoverKeys(order: seq<string>, keys: set<string>, revisionableType: string, id: Value,
                         originalData: map<string, Value>, updatedData: map<string, Value>, user: Value, now: Value)
    requires Enumerates(order, keys)
    ensures var es := Entries(order, revisionableType, id, originalData, updatedData, user, now);
            |es| == |keys| &&
            (forall k :: k in keys <==> exists i | 0 <= i < |es| :: es[i].key == k) &&
            (forall i, j | 0 <= i < j < |es| :: es[i].key != es[j].key)
  {
    var es := Entries(order, revisionableType, id, originalData, updatedData, user, now);
    DistinctCardinality(order, keys);
    assert forall i | 0 <= i < |es| :: es[i].key == order[i];
    forall k
      ensures k in keys <==> exists i | 0 <= i < |es| :: es[i].key == k
    {
      if k in keys {
        var i :| 0 <= i < |order| && order[i] == k;
        assert es[i].key == k;
      }
    }
  }

  /** A repeat-free listing of a set is as long as the set is large. */
  lemma {:induction false} DistinctCardinality(xs: seq<string>, s: set<string>)
    requires Enumerates(xs, s)
    ensures |xs| == |s|
    decreases |xs|
  {
    if xs == [] {
      assert forall x :: x !in s;
    } else {
      var last := xs[|xs| - 1];
      var init := xs[..|xs| - 1];
      assert last !in init by {
        forall i | 0 <= i < |init| ensures init[i] != last {
          assert xs[i] != xs[|xs| - 1];
        }
      }
      assert forall x :: x in init ==> x in xs by {
        forall x | x in init ensures x in xs {
          var i :| 0 <= i < |init| && init[i] == x;
          assert xs[i] == x;
        }
      }
      assert forall x :: x in s - {last} <==> x in init by {
        forall x ensures x in s - {last} <==> x in init {
          if x in s - {last} {
            var i :| 0 <= i < |xs| && xs[i] == x;
            assert i < |xs| - 1;
            assert init[i] == x;
          }
        }
      }
      DistinctCardinality(init, s - {last});
    }
  }

  /** Appending a key not yet visited keeps an enumeration repeat-free. */
  lemma EnumeratesSnoc(xs: seq<string>, s: set<string>, x: string)
    requires Enumerates(xs, s) && x !in s
    ensures Enumerates(xs + [x], s + {x})
  {
    var ys := xs + [x];
    forall i, j | 0 <= i < j < |ys|
      ensures ys[i] != ys[j]
    {
      if j == |xs| {
        assert ys[i] == xs[i];
        assert xs[i] in xs;
      }
    }
  }
}
