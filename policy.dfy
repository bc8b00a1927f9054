/**
 * The revisioning policy a model declares through its properties, and the
 * pure predicates over it that every version of the engine uses: which field
 * is revisionable, which relation is, whether a delete is a soft delete, the
 * null and unknown display strings, and the two ways the versions merge the
 * declared lists with the lists collected at run time.
 */
module Policy {
  import opened Wrappers

  /** `isRevisionable($key)`: an include-list entry wins, then an exclude-list
      entry, and otherwise everything is revisionable unless an include-list exists. */
  function IsRevisionable(key: string, doKeep: seq<string>, dontKeep: seq<string>): (r: bool)
    ensures r <==> key in doKeep || (key !in dontKeep && doKeep == [])
  {
    if key in doKeep then true
    else if key in dontKeep then false
    else |doKeep| == 0
  }

  /** `isRelationRevisionable($relation)`: a declared include-list decides alone,
      even when empty; else a declared exclude-list; else every relation. */
  function IsRelationRevisionable(relation: string, keepRevisionOf: Option<seq<string>>,
                                  dontKeepRevisionOf: Option<seq<string>>): (r: bool)
    ensures keepRevisionOf == Some([]) ==> !r
    ensures r <==> (if keepRevisionOf.Some? then relation in keepRevisionOf.value
                    else dontKeepRevisionOf.None? || relation !in dontKeepRevisionOf.value)
  {
    if keepRevisionOf.Some? then relation in keepRevisionOf.value
    else if dontKeepRevisionOf.Some? then relation !in dontKeepRevisionOf.value
    else true
  }

  /** `isSoftDelete()`: Laravel 4.2+'s forceDeleting flag first, then the older softDelete flag. */
  function IsSoftDelete(forceDeleting: Option<bool>, softDelete: Option<bool>): (r: bool)
    ensures forceDeleting == Some(true) ==> !r
    ensures r <==> (forceDeleting == Some(false) || (forceDeleting.None? && softDelete == Some(true)))
  {
    if forceDeleting.Some? then !forceDeleting.value
    else if softDelete.Some? then softDelete.value
    else false
  }

  /** `!isset($this->revisionEnabled) || $this->revisionEnabled`. */
  function Enabled(revisionEnabled: Option<bool>): (r: bool)
    ensures revisionEnabled.None? ==> r
    ensures r <==> revisionEnabled != Some(false)
  {
    revisionEnabled.None? || revisionEnabled.value
  }

  /** `getRevisionNullString()`: the configured string, else "nothing". */
  function NullString(revisionNullString: Option<string>): (s: string)
    ensures revisionNullString.None? ==> s == "nothing"
    ensures revisionNullString.Some? ==> s == revisionNullString.value
  {
    revisionNullString.GetOr("nothing")
  }

  /** `getRevisionUnknownString()`: the configured string, else "unknown". */
  function UnknownString(revisionUnknownString: Option<string>): (s: string)
    ensures revisionUnknownString.None? ==> s == "unknown"
    ensures revisionUnknownString.Some? ==> s == revisionUnknownString.value
  {
    revisionUnknownString.GetOr("unknown")
  }

  /** PHP's `$a + $b` on two lists: every entry of `a`, then the entries of
      `b` at positions `a` does not have. */
  function IndexUnion(a: seq<string>, b: seq<string>): (r: seq<string>)
    ensures |r| == if |a| < |b| then |b| else |a|
    ensures forall i | 0 <= i < |r| :: r[i] == if i < |a| then a[i] else b[i]
  {
    if |b| <= |a| then a else a + b[|a|..]
  }

  /** An entry of the right operand survives the index union only if it sits
      past the end of the left operand or the left operand has it too. */
  lemma IndexUnionLosesShadowed(a: seq<string>, b: seq<string>, x: string)
    requires x in b && x !in a
    ensures x in IndexUnion(a, b) <==> exists i | |a| <= i < |b| :: b[i] == x
  {
    var r := IndexUnion(a, b);
    if x in r {
      var i :| 0 <= i < |r| && r[i] == x;
      if i < |a| {
        assert false;
      }
    } else {
      forall i | |a| <= i < |b|
        ensures b[i] != x
      {
        assert r[i] == b[i];
      }
    }
  }

  /** The argument of `disableRevisionField`: one field name or a (nested) array of them. */
  datatype FieldArg = Field(name: string) | Fields(items: seq<FieldArg>)

  /** The names `disableRevisionField(f)` appends, in the order it appends them. */
  function Flatten(f: FieldArg): seq<string>
    decreases f
  {
    match f
    case Field(name) => [name]
    case Fields(items) => FlattenAll(items)
  }

  function FlattenAll(items: seq<FieldArg>): seq<string>
    decreases items
  {
    if items == [] then [] else Flatten(items[0]) + FlattenAll(items[1..])
  }

  /** Flattening an array prefix one element further appends that element's
      names: the elements are handled left to right. */
  lemma {:induction false} FlattenAllSnoc(items: seq<FieldArg>, i: nat)
    requires i < |items|
    ensures FlattenAll(items[..i + 1]) == FlattenAll(items[..i]) + Flatten(items[i])
    decreases i
  {
    if i > 0 {
      FlattenAllSnoc(items[1..], i - 1);
      assert items[..i + 1][1..] == items[1..][..i];
      assert items[..i][1..] == items[1..][..i - 1];
    }
  }
}
