# revisionable, modelled in Dafny

This project models the audit-trail engine of VentureCraft/revisionable, a Laravel package.
When an Eloquent model is saved, the engine keeps a history of which field changed from what to
what. It has four parts.

- **Change capture, in three versions.**
  - `RevisionableTrait` snapshots the stored and in-memory attributes before a save (`preSave`). After the save (`postSave`) it records one row per changed, revisionable field. It also applies a history limit with optional cleanup of the oldest rows, records soft deletes, and has hooks for child relations and for `sync`.
  - `CommonTrait` is the later copy of the capture step. It merges the include and exclude lists by concatenation.
  - `Revisionable` is the original base class. It wraps `save()` and inserts its rows one at a time.
- **The revisions table.** A sequence of rows with increasing ids, counted per subject and trimmed by deleting a subject's oldest rows.
- **Revision rendering** (`Revision`), which gives:
  - the display name of a field;
  - whether the field is a foreign key;
  - the related model;
  - the displayed old and new value, through relations, null and unknown strings, mutators and formatters;
  - the one-line description.
- **The `FieldFormatter` mini-language** of `name:argument` specs, and the `makeRevision` row builder.

Modules, one per file:

| file | module | contents |
|---|---|---|
| `wrappers.dfy` | Wrappers | `Option`, `Result` |
| `php.dfy` | Php | the PHP values the engine meets; truthiness, `==`, string conversion, array keys, explode/implode, strpos/strrpos, `str_replace` |
| `policy.dfy` | Policy | the declared policy: the `isRevisionable` family, the index union, `disableRevisionField` arguments |
| `store.dfy` | Store | the revisions table (`class Table`) and the retention lemmas |
| `capture.dfy` | Capture | what a save records, as functions; the two loops both traits share |
| `revisionable_trait.dfy` | RevisionableTrait | `class Model` with the trait's hooks; retention and sync lemmas |
| `common_trait.dfy` | CommonTrait | `class Model` with the later trait's hooks |
| `base_revisionable.dfy` | BaseRevisionable | `class Revisionable`, the base class |
| `revision.dfy` | Revision | rendering |
| `field_formatter.dfy` | FieldFormatter | the formatter language |
| `make_revision.dfy` | MakeRevision | `makeRevision` |

How the code is stated in Dafny:

- A PHP array with string keys is a `map<string, Value>`.
- A `map` has no order, while PHP arrays keep insertion order and `foreach` visits them in that order. The loops therefore pick any pending key (`:|`), so every proved property holds for whatever order PHP uses. The order they visited the keys in is kept as a ghost sequence, and `Enumerates` says that sequence lists every key exactly once. Where the order changes the outcome, "## Left out" says so.
- Every class method is proved against functions of the model's modules (`Capture`, `Store`, `Policy` and `RevisionableTrait`), or states its new state outright. The lemmas about those functions state what the engine promises.
- The database, the clock and the authenticated user are parameters:
  - a `Table` object;
  - `now` and `user` values;
  - an `Env` holding the classes and their methods, the morph map, `Str::camel`, `Str::studly` and date formatting.
- Reading an undefined array index is modelled as the `null` PHP returns for it.

Behaviour of the code worth stating plainly:

- `getValue` throws when neither the relation name nor its camel-case form is a method (Revision.php:243-247).
- `isRelated` tries only the literal name with every '_id' removed (Revision.php:324); only `getValue` tries the camel-case form.
- `getValue` returns an empty reference's null string unformatted (Revision.php:258-262), while an unknown string is formatted (Revision.php:268).
- `preSync` stores the positions of the related keys, although the comment at RevisionableTrait.php:271 says it keeps their ids (see Findings).

## Model

| member | source | states |
|---|---|---|
| Policy.IsRevisionable | src/Venturecraft/Revisionable/RevisionableTrait.php:564-579 | a key is revisionable iff it is in doKeep, or it is not in dontKeep and doKeep is empty: the include-list wins over the exclude-list; the copies in CommonTrait.php (190-205) and Revisionable.php (155-166, over keepRevisionOf/dontKeepRevisionOf) apply the same rule |
| Policy.IsRelationRevisionable | src/Venturecraft/Revisionable/RevisionableTrait.php:588-599 | a declared include-list decides alone, so an empty one rejects every relation; else a declared exclude-list; else true |
| Policy.Enabled | src/Venturecraft/Revisionable/RevisionableTrait.php:527-530 | revisions are on when revisionEnabled is unset, and on iff it is not set to false; the same test is inlined at 308 and 400 |
| Policy.IsSoftDelete | src/Venturecraft/Revisionable/RevisionableTrait.php:606-619 | true iff forceDeleting is set to false, or it is unset and softDelete is set to true; the copy in CommonTrait.php (212-225) is the same |
| Policy.NullString | src/Venturecraft/Revisionable/RevisionableTrait.php:660-663 | the configured null string, else 'nothing'; the same in CommonTrait.php (266-269) |
| Policy.UnknownString | src/Venturecraft/Revisionable/RevisionableTrait.php:672-675 | the configured unknown string, else 'unknown'; the same in CommonTrait.php (279-282) |
| Policy.IndexUnion | src/Venturecraft/Revisionable/RevisionableTrait.php:326-332 | PHP `+` on two lists: as long as the longer one; position i holds the left entry when the left list has one, else the right entry |
| Policy.IndexUnionLosesShadowed | src/Venturecraft/Revisionable/RevisionableTrait.php:326-328 | an entry only the right list has survives the union iff it sits at a position past the end of the left list |
| Policy.FlattenAllSnoc | src/Venturecraft/Revisionable/RevisionableTrait.php:691-694 | the elements of an array argument are disabled left to right |
| Store.Table.Insert | src/Venturecraft/Revisionable/RevisionableTrait.php:429-435 | the rows are appended in order with consecutive fresh ids and the table stays ordered by id |
| Store.Table.DeleteOldest | src/Venturecraft/Revisionable/RevisionableTrait.php:383-388 | the loop deleting the subject's n first rows by ascending id leaves exactly the table without those rows |
| Store.DeleteOldestCount | src/Venturecraft/Revisionable/RevisionableTrait.php:384 | deleting the n oldest removes exactly min(n, count) rows of the subject |
| Store.DeleteOldestKeepsOthers | src/Venturecraft/Revisionable/RevisionableTrait.php:384 | every other subject's rows stay, in order |
| Store.DeleteOldestTakesOldest | src/Venturecraft/Revisionable/RevisionableTrait.php:384 | every deleted id is smaller than the id of every surviving row of the subject |
| Store.CountOfAppend | src/Venturecraft/Revisionable/RevisionableTrait.php:537-541 | the per-subject count of two tables put together is the sum of the counts |
| Store.CountOfStamped | src/Venturecraft/Revisionable/RevisionableTrait.php:389-390 | every row of a batch for a subject counts towards that subject |
| Capture.Dirty | src/Venturecraft/Revisionable/RevisionableTrait.php:337 | the dirty map holds exactly the attributes that are new or differ from the original, with their new values |
| Capture.TraitChanges | src/Venturecraft/Revisionable/RevisionableTrait.php:457-476 | a dirty key is recorded iff it is revisionable, not an array, and either unset in originalData or loosely different from updatedData; it keeps its dirty value |
| Capture.TraitDiscarded | src/Venturecraft/Revisionable/RevisionableTrait.php:467-472 | the dirty keys unset from both snapshots are exactly the non-revisionable or array-valued ones |
| Capture.TraitStep | src/Venturecraft/Revisionable/RevisionableTrait.php:460-473 | visiting one more dirty key records it when kept and still different, and discards it when not kept |
| Capture.FilterChanges | src/Venturecraft/Revisionable/CommonTrait.php:164-180 | the loop returns exactly TraitChanges and removes exactly TraitDiscarded from both snapshots |
| Capture.FilterStep | src/Venturecraft/Revisionable/RevisionableTrait.php:463-472 | one turn of the filter loop keeps its invariant in each of its three branches |
| Capture.DropUnstringable | src/Venturecraft/Revisionable/RevisionableTrait.php:316-322 | the loop removes from both snapshots exactly the objects without __toString and appends each of their keys once to the exclude list |
| Capture.BaseChanges | src/Venturecraft/Revisionable/Revisionable.php:129-146 | the base class records a dirty key iff it is revisionable, with no array filter and no equality re-check |
| Capture.BaseDiscarded | src/Venturecraft/Revisionable/Revisionable.php:136-141 | the base class discards exactly the non-revisionable dirty keys |
| Capture.TraitRecordsLessThanBase | src/Venturecraft/Revisionable/RevisionableTrait.php:463-464 | with the same lists the trait records a subset of what the base class records; every key it leaves out is an array or loosely unchanged |
| Capture.EntryFor | src/Venturecraft/Revisionable/RevisionableTrait.php:370-379 | a row has the key, the old value from originalData (null when absent) and the new value from updatedData |
| Capture.Entries | src/Venturecraft/Revisionable/RevisionableTrait.php:369-380 | one row per key, in the order given |
| Capture.EntriesCoverKeys | src/Venturecraft/Revisionable/RevisionableTrait.php:369-380 | the batch has exactly one row per recorded key: as many rows as keys, every key present, no key twice |
| Capture.DistinctCardinality | src/Venturecraft/Revisionable/RevisionableTrait.php:369 | a foreach visiting every key once takes as many turns as there are keys |
| Capture.EnumeratesSnoc | src/Venturecraft/Revisionable/RevisionableTrait.php:369 | visiting a new key extends the enumeration of the visited keys |
| RevisionableTrait.Merged | src/Venturecraft/Revisionable/RevisionableTrait.php:326-332 | without a declared list the collected one stays; with one, the result is as long as the longer list, starts with the declared list, and keeps collected entries only past its end |
| RevisionableTrait.Model.constructor | src/Venturecraft/Revisionable/RevisionableTrait.php:18-50 | a model starts with no properties declared and empty snapshots and lists |
| RevisionableTrait.Model.History | src/Venturecraft/Revisionable/RevisionableTrait.php:112-115 | the subject's history is exactly the rows whose revisionable_type is the morph class and whose revisionable_id is the key |
| RevisionableTrait.Model.LimitReached | src/Venturecraft/Revisionable/RevisionableTrait.php:537-541 | unset historyLimit never limits and a limit of 0 always does; reached iff historyLimit is set and the subject's row count is at least it |
| RevisionableTrait.Model.Cleanup | src/Venturecraft/Revisionable/RevisionableTrait.php:548-555 | false when revisionCleanup is unset; true iff it is set to true |
| RevisionableTrait.Model.PrepareRevision | src/Venturecraft/Revisionable/RevisionableTrait.php:487-499 | the row carries the class, the key, the given values and the user |
| RevisionableTrait.Model.PreSave | src/Venturecraft/Revisionable/RevisionableTrait.php:306-340 | disabled: nothing changes; enabled: both snapshots lose exactly the objects without __toString, their keys are appended to dontKeep, the declared lists go in front with the index union, the two list attributes are unset, and dirtyData is the dirty map |
| RevisionableTrait.Model.SnapshotAttributes | src/Venturecraft/Revisionable/RevisionableTrait.php:311-322 | the snapshots lose exactly the objects without __toString and dontKeep gains each of their keys once, in some visiting order (see "## Left out") |
| RevisionableTrait.Model.MergeLists | src/Venturecraft/Revisionable/RevisionableTrait.php:326-332 | each declared list is put in front of the collected one with the index union |
| RevisionableTrait.Model.TakeDirty | src/Venturecraft/Revisionable/RevisionableTrait.php:334-338 | the list attributes are unset, dirtyData is the dirty map and updating is exists |
| RevisionableTrait.Model.ChangedRevisionableFields | src/Venturecraft/Revisionable/RevisionableTrait.php:457-476 | returns exactly TraitChanges and removes exactly TraitDiscarded from both snapshots |
| RevisionableTrait.Model.PostSave | src/Venturecraft/Revisionable/RevisionableTrait.php:348-393 | nothing is written unless enabled, updating, and under the limit or with cleanup; otherwise one row per recorded change and the next id advances by their number; an empty batch writes nothing; with the limit reached and cleanup on, the subject's batch-size oldest rows go first |
| RevisionableTrait.Model.PostDelete | src/Venturecraft/Revisionable/RevisionableTrait.php:398-417 | exactly one 'deleted_at' row from null to deleted_at, with the next id, inserted iff enabled, a soft delete and 'deleted_at' revisionable; otherwise the table and the next id are unchanged |
| RevisionableTrait.Model.CleanupRevisions | src/Venturecraft/Revisionable/RevisionableTrait.php:508-520 | with the limit reached and cleanup on, the subject's count oldest rows are deleted; otherwise nothing changes |
| RevisionableTrait.Model.CleanupAndInsert | src/Venturecraft/Revisionable/RevisionableTrait.php:234-236 | a one-row cleanup then the insert of the one row; the next id advances by exactly one |
| RevisionableTrait.Model.PreSaveChild | src/Venturecraft/Revisionable/RevisionableTrait.php:203-213 | for a revisionable relation with revisions on, the child's stored JSON (null when the row is gone) is kept; otherwise nothing changes |
| RevisionableTrait.Model.PostSaveChild | src/Venturecraft/Revisionable/RevisionableTrait.php:223-238 | under the limit or with cleanup, one row from the kept JSON to the child's new JSON, after a one-row cleanup; the next id advances by one iff the row is written |
| RevisionableTrait.Model.PostDeleteChild | src/Venturecraft/Revisionable/RevisionableTrait.php:248-257 | with revisions on, one row from the child's JSON to null after a one-row cleanup; the limit does not stop it; the next id advances by one iff the row is written |
| RevisionableTrait.Model.PreSync | src/Venturecraft/Revisionable/RevisionableTrait.php:266-277 | for a revisionable relation the sync snapshot is replaced by one entry for the relation |
| RevisionableTrait.Model.PreSyncIntended | src/Venturecraft/Revisionable/RevisionableTrait.php:266-277 | the corrected preSync: for a revisionable relation the snapshot holds the related keys themselves |
| RevisionableTrait.Model.PostSync | src/Venturecraft/Revisionable/RevisionableTrait.php:287-299 | with revisions on, under the limit or with cleanup, and a snapshot for the relation: one row from the encoded snapshot to the encoded ids; the next id advances by one iff the row is written |
| RevisionableTrait.Model.DisableRevisionField | src/Venturecraft/Revisionable/RevisionableTrait.php:686-701 | dontKeepRevisionOf becomes the old list (empty when unset) followed by every field of the argument, nested arrays flattened in order |
| RevisionableTrait.BuildRevisions | src/Venturecraft/Revisionable/RevisionableTrait.php:367-380 | the loop builds one row per change, in the order it visits the changed keys |
| RevisionableTrait.SyncedKeys | src/Venturecraft/Revisionable/RevisionableTrait.php:272 | the snapshot holds the positions 0..n-1 of the related keys |
| RevisionableTrait.IntendedSyncedKeys | src/Venturecraft/Revisionable/RevisionableTrait.php:271-275 | the snapshot the comment describes: the related keys themselves |
| RevisionableTrait.OthersOfAppend | src/Venturecraft/Revisionable/RevisionableTrait.php:390 | appending rows keeps the other subjects' rows of both parts, in order |
| RevisionableTrait.OthersOfStamped | src/Venturecraft/Revisionable/RevisionableTrait.php:370-372 | a batch written for the model holds no row of another subject |
| RevisionableTrait.RecordedKeepsOthers | src/Venturecraft/Revisionable/RevisionableTrait.php:382-391 | recording a batch, with or without cleanup, leaves every other subject's rows as they were |
| RevisionableTrait.RecordedKeepsHistorySize | src/Venturecraft/Revisionable/RevisionableTrait.php:383-390 | with cleanup and a full history, the subject's count stays the same: each new row replaces an oldest one |
| RevisionableTrait.RecordedGrowsHistory | src/Venturecraft/Revisionable/RevisionableTrait.php:389-390 | without cleanup the subject's count grows by the batch size |
| RevisionableTrait.UnionDropsCollected | src/Venturecraft/Revisionable/RevisionableTrait.php:320-328 | when the declared exclude-list is at least as long as the collected one, a collected key it does not name is dropped |
| RevisionableTrait.ObjectKeyRecordedAsNull | src/Venturecraft/Revisionable/RevisionableTrait.php:316-328 | with dontKeepRevisionOf = ['password'] an object-valued 'created_at' is recorded, with a null new value |
| RevisionableTrait.SyncSnapshotIsPositions | src/Venturecraft/Revisionable/RevisionableTrait.php:272 | for related keys [7, 9] the snapshot is [0, 1], not the keys |
| RevisionableTrait.SyncSnapshotForgetsKeys | src/Venturecraft/Revisionable/RevisionableTrait.php:272 | any two relations of the same size give the same snapshot |
| RevisionableTrait.RecordedOneIsLast | src/Venturecraft/Revisionable/RevisionableTrait.php:295-297 | the row a one-row cleanup-and-insert writes is the table's last row, with the next id |
| RevisionableTrait.ResyncAsWritten | src/Venturecraft/Revisionable/RevisionableTrait.php:266-298 | preSync then postSync of the same related keys, as written, records a row from the encoded positions to the encoded keys; with an injective encoding the two differ whenever the keys are not 0..n-1 |
| RevisionableTrait.ResyncIntended | src/Venturecraft/Revisionable/RevisionableTrait.php:266-298 | with the corrected preSync, postSync of the same related keys records a row whose old and new values are equal |
| RevisionableTrait.RevisionsStored | tests/RevisionTest.php:61-81 | creating 'James Judd' then updating the name to 'Judd' and to 'James' records the one name change each time, and the history holds 2 rows |
| CommonTrait.Concatenated | src/Venturecraft/Revisionable/CommonTrait.php:114-120 | array_merge of two lists: their lengths add, the declared list comes first, and an entry is in the result iff it is in either list |
| CommonTrait.Model.constructor | src/Venturecraft/Revisionable/CommonTrait.php:11-38 | a model starts with no properties declared and empty snapshots and lists |
| CommonTrait.Model.PreSave | src/Venturecraft/Revisionable/CommonTrait.php:94-128 | disabled: nothing changes; enabled: the snapshots lose exactly the objects without __toString, the declared lists are concatenated in front, and every dropped key ends up in dontKeep |
| CommonTrait.Model.SnapshotAttributes | src/Venturecraft/Revisionable/CommonTrait.php:99-110 | the snapshots lose exactly the objects without __toString and dontKeep gains their keys |
| CommonTrait.Model.MergeLists | src/Venturecraft/Revisionable/CommonTrait.php:114-120 | each declared list is concatenated in front of the collected one |
| CommonTrait.Model.TakeDirty | src/Venturecraft/Revisionable/CommonTrait.php:122-126 | the list attributes are unset, dirtyData is the dirty map and updating is exists |
| CommonTrait.Model.ChangedRevisionableFields | src/Venturecraft/Revisionable/CommonTrait.php:162-181 | returns exactly TraitChanges; non-revisionable and array-valued dirty keys are unset from both snapshots, and unchanged revisionable ones stay |
| CommonTrait.Model.DisableRevisionField | src/Venturecraft/Revisionable/CommonTrait.php:293-308 | dontKeepRevisionOf becomes the old list (empty when unset) followed by every field of the argument in order |
| CommonTrait.CollectedStaysExcluded | src/Venturecraft/Revisionable/CommonTrait.php:114-116 | a key collected at run time and not in the include-list is not revisionable and never recorded |
| CommonTrait.ObjectKeyNotRecorded | src/Venturecraft/Revisionable/CommonTrait.php:104-116 | with dontKeepRevisionOf = ['password'] an object-valued 'created_at' stays excluded and is not recorded |
| BaseRevisionable.Revisionable.constructor | src/Venturecraft/Revisionable/Revisionable.php:19-31 | the defaults: revisions on, both lists empty |
| BaseRevisionable.Revisionable.BeforeSave | src/Venturecraft/Revisionable/Revisionable.php:71-90 | disabled: nothing changes; enabled: both snapshots lose every object, nothing is excluded, dirty is the dirty map and updating is exists |
| BaseRevisionable.Revisionable.ChangedRevisionableFields | src/Venturecraft/Revisionable/Revisionable.php:129-146 | returns exactly BaseChanges and removes exactly BaseDiscarded from both snapshots |
| BaseRevisionable.Revisionable.AfterSave | src/Venturecraft/Revisionable/Revisionable.php:98-121 | for an update with revisions on, one row per recorded key from originalData to updatedData, appended one insert at a time; otherwise nothing |
| BaseRevisionable.Revisionable.Save | src/Venturecraft/Revisionable/Revisionable.php:52-63 | beforeSave always runs; afterSave runs iff the parent save succeeded; the result is the parent's; when rows are written the next id advances by their number |
| BaseRevisionable.DropObjects | src/Venturecraft/Revisionable/Revisionable.php:79-84 | the loop removes exactly the object values from both snapshots |
| BaseRevisionable.FilterRevisionable | src/Venturecraft/Revisionable/Revisionable.php:132-144 | the loop returns exactly BaseChanges and removes exactly BaseDiscarded |
| BaseRevisionable.FilterRevisionableStep | src/Venturecraft/Revisionable/Revisionable.php:134-141 | one turn of the loop keeps its invariant in both branches |
| BaseRevisionable.BaseStep | src/Venturecraft/Revisionable/Revisionable.php:134-141 | visiting one more dirty key records it iff revisionable and discards it otherwise |
| BaseRevisionable.InsertEach | src/Venturecraft/Revisionable/Revisionable.php:106-117 | one save per change, in visiting order: the table gains exactly the batch's rows with consecutive ids |
| BaseRevisionable.InsertStep | src/Venturecraft/Revisionable/Revisionable.php:115 | one more single-row insert extends the batch's rows by that row |
| BaseRevisionable.VisitStep | src/Venturecraft/Revisionable/Revisionable.php:106 | visiting one more key extends the enumeration of the visited keys |
| BaseRevisionable.DefaultsRecordEveryDirtyField | src/Venturecraft/Revisionable/Revisionable.php:25-31 | with both lists empty every dirty field is recorded and none is discarded |
| BaseRevisionable.BaseRecordsUnchangedValue | src/Venturecraft/Revisionable/Revisionable.php:134-135 | a field dirty as 1 vs '1' is recorded by the base class but not by the traits |
| Revision.Morph | src/Venturecraft/Revisionable/Revision.php:85 | the morph map entry for the type, else the type itself |
| Revision.Subject | src/Venturecraft/Revisionable/Revision.php:85-86 | the subject's class when the resolved type is a class, else ClassNotFound for it |
| Revision.Format | src/Venturecraft/Revisionable/Revision.php:180-191 | an unknown subject class fails; a key without an entry in the formatted-fields table gives the value unchanged; a key with one gives FieldFormatter's result for the subject's table; so a failure needs an applicable spec |
| Revision.FieldName | src/Venturecraft/Revisionable/Revision.php:63-94 | succeeds iff the subject class exists; the name is a configured one, the key itself, or the key with every '_id' removed |
| Revision.FieldNameByPosition | src/Venturecraft/Revisionable/Revision.php:67-71 | without a truthy configured name: '_id' after position 0 and not at 0 removes every '_id'; no '_id', or '_id' at 0, leaves the key |
| Revision.FieldNameOverride | src/Venturecraft/Revisionable/Revision.php:65-66 | a truthy configured display name wins |
| Revision.FieldNameIsRelatedModel | src/Venturecraft/Revisionable/Revision.php:63-72 | for a key whose only '_id' is its suffix, the display name and the related model are both the key without '_id' |
| Revision.FieldNameIdAtStart | src/Venturecraft/Revisionable/Revision.php:67 | a key starting with '_id' is shown as it is, since strpos gives the falsy 0 |
| Revision.IsRelated | src/Venturecraft/Revisionable/Revision.php:303-331 | succeeds iff the subject class exists; true iff the key is in the relationship map, or the subject has the method named without '_id' and the key ends with '_id' |
| Revision.RelatedModel | src/Venturecraft/Revisionable/Revision.php:338-351 | succeeds iff the subject class exists; the map entry for a mapped key; otherwise a prefix of the key, which for a key ending in '_id' is the key without it |
| Revision.IsRelatedByConvention | src/Venturecraft/Revisionable/Revision.php:303-331 | without a map entry a key is related iff the subject has the method named without '_id' and the key ends with '_id' |
| Revision.MapTakesPrecedence | src/Venturecraft/Revisionable/Revision.php:318-320 | a mapped key is related and resolves to its mapped model, whatever its name |
| Revision.FormatKey | src/Venturecraft/Revisionable/Revision.php:277-279 | a mutator result can key the table iff it is no array or object |
| Revision.RelatedClass | src/Venturecraft/Revisionable/Revision.php:240-249 | fails when the related model name does; a resolved class is one of the program's classes, reached through a method named like the relation or its camel-case form; when the literal name is a method, success holds iff it is a relation to a known class |
| Revision.LiteralRelationResolves | src/Venturecraft/Revisionable/Revision.php:243-249 | when the subject has a method named exactly like the relation, that relation's class is used |
| Revision.CamelFallbackResolves | src/Venturecraft/Revisionable/Revision.php:243-249 | when only the camel-case form is a relation method, its related class is used |
| Revision.PlainValue | src/Venturecraft/Revisionable/Revision.php:289-295 | without a format entry, the mutator's result when the subject has `get<Studly>Attribute`, else the raw value; an unknown subject class fails |
| Revision.GetValue | src/Venturecraft/Revisionable/Revision.php:229-296 | a type that is no class is only formatted; a failing isRelated fails; an unrelated field is a plain value (the related cases are the lemmas below) |
| Revision.UnknownTypeOnlyFormats | src/Venturecraft/Revisionable/Revision.php:236-295 | a type that is no class is only formatted |
| Revision.PlainFieldIsFormatted | src/Venturecraft/Revisionable/Revision.php:286-295 | a non-relation field without a mutator shows its raw value, formatted |
| Revision.PlainFieldIsMutated | src/Venturecraft/Revisionable/Revision.php:289-292 | a non-relation field with a subject mutator shows the mutator's result for the stored value, formatted under the key |
| Revision.MissingRelationThrows | src/Venturecraft/Revisionable/Revision.php:243-249 | a relation that neither the name nor its camel-case form names is an error |
| Revision.EmptyReferenceShowsNullString | src/Venturecraft/Revisionable/Revision.php:255-263 | a null or '' reference shows the related class's null string, unformatted, or 'Nothing' |
| Revision.DanglingReferenceShowsUnknown | src/Venturecraft/Revisionable/Revision.php:265-272 | a reference to a missing row shows the unknown string, formatted, or 'Unknown' |
| Revision.FoundReferenceShowsName | src/Venturecraft/Revisionable/Revision.php:274-283 | a found row shows its identifiableName, formatted under the key |
| Revision.FoundReferenceIsMutated | src/Venturecraft/Revisionable/Revision.php:275-280 | a found row with a mutator for the key is formatted under the mutator's result as the key; an array or object result fails as an illegal offset |
| Revision.FoundWithoutNameIsPlain | src/Venturecraft/Revisionable/Revision.php:275-291 | a found row without identifiableName falls through to the plain-value path |
| Revision.Description | src/Venturecraft/Revisionable/Revision.php:212-219 | a result starts "Changed {key} from " for a truthy old_value and "Initialised {key} with " otherwise; in the second case only the new value has to render |
| Revision.DescriptionShape | src/Venturecraft/Revisionable/Revision.php:212-219 | "Changed {key} from {old} to {new}" iff old_value is truthy, else "Initialised {key} with {new}", the old value being rendered only in the first case |
| FieldFormatter.LowerAscii | src/Venturecraft/Revisionable/FieldFormatter.php:39 | ASCII case folding, character by character, as method names compare |
| FieldFormatter.Lookup | src/Venturecraft/Revisionable/FieldFormatter.php:39 | each of the six static method names, in any ASCII case, selects its own formatter, and any other name none |
| FieldFormatter.Sprintf | src/Venturecraft/Revisionable/FieldFormatter.php:61 | a template without '%' is returned as it is; only a template with '%' can fail |
| FieldFormatter.SprintfFrom | src/Venturecraft/Revisionable/FieldFormatter.php:99 | the rest of a template can fail only if it holds a '%' |
| FieldFormatter.SprintfPlain | src/Venturecraft/Revisionable/FieldFormatter.php:99 | a template without '%' comes out unchanged |
| FieldFormatter.SprintfSubstitutes | src/Venturecraft/Revisionable/FieldFormatter.php:99 | one '%s' is replaced by the value's string form |
| FieldFormatter.SprintfTwoArguments | src/Venturecraft/Revisionable/FieldFormatter.php:99 | a second '%s' fails for lack of an argument |
| FieldFormatter.Boolean | src/Venturecraft/Revisionable/FieldFormatter.php:72-83 | the result is one of the '|'-separated labels, or 'Yes' or 'No' |
| FieldFormatter.BooleanLabels | src/Venturecraft/Revisionable/FieldFormatter.php:72-83 | with two labels, the second for a truthy value and the first for a falsy one |
| FieldFormatter.BooleanDefault | src/Venturecraft/Revisionable/FieldFormatter.php:78-80 | with more or fewer than two labels, 'Yes'/'No' |
| FieldFormatter.StringFormat | src/Venturecraft/Revisionable/FieldFormatter.php:93-100 | a template without '%' is returned as it is; without a template it fails iff the value has no string form |
| FieldFormatter.StringDefaultIsText | src/Venturecraft/Revisionable/FieldFormatter.php:93-100 | without a template the result is the value as a string |
| FieldFormatter.Datetime | src/Venturecraft/Revisionable/FieldFormatter.php:110-114 | an empty value gives null |
| FieldFormatter.OptionsSpec | src/Venturecraft/Revisionable/FieldFormatter.php:128-144 | fails iff the value is an array or object, which cannot be an array key; a result is never null |
| FieldFormatter.OptionsLastWins | src/Venturecraft/Revisionable/FieldFormatter.php:134-137 | the last option for a key decides its caption |
| FieldFormatter.OptionsOtherKey | src/Venturecraft/Revisionable/FieldFormatter.php:134-137 | an option for another key leaves a caption as it was |
| FieldFormatter.Options | src/Venturecraft/Revisionable/FieldFormatter.php:128-144 | the loop builds exactly the table of the options, and the result is the caption for the value or 'undefined' |
| FieldFormatter.IsEmpty | src/Venturecraft/Revisionable/FieldFormatter.php:57-62 | with options without '%' it succeeds with one of the labels, or 'Yes' or 'No' |
| FieldFormatter.IsEmptyLabels | src/Venturecraft/Revisionable/FieldFormatter.php:57-62 | null and every value loosely equal to '' (such as '', false, or an object whose __toString gives '') get the first label; any other value gets the second |
| FieldFormatter.Dispatch | src/Venturecraft/Revisionable/FieldFormatter.php:40 | boolean never fails; string with a template without '%' gives the template; datetime of an empty value is null; options fails iff the value is an array or object; naming format itself fails for lack of arguments |
| FieldFormatter.FormatSpec | src/Venturecraft/Revisionable/FieldFormatter.php:28-47 | the format can fail only when some spec for the key holds a ':' |
| FieldFormatter.FormatNoMatch | src/Venturecraft/Revisionable/FieldFormatter.php:30-46 | with no spec for the key that holds a ':', the value comes back unchanged |
| FieldFormatter.FormatFirstApplicable | src/Venturecraft/Revisionable/FieldFormatter.php:36-42 | the first applicable spec 'name:rest' runs formatter name on all of rest, colons included; an unknown name returns the value |
| FieldFormatter.Format | src/Venturecraft/Revisionable/FieldFormatter.php:28-47 | the search loop with its continue, early return and break computes the same result as the first-applicable-spec rule |
| MakeRevision.MakeRevision | src/Venturecraft/Revisionable/MakeRevisionTrait.php:20-34 | every default column is present; supplied columns override; key/old/new stay null unless supplied; extra columns are added; type and id default to the morph class and key, user_id to the system user, and created_at and updated_at to the current time |
| Php.FirstIndex | src/Venturecraft/Revisionable/FieldFormatter.php:31 | the first position of the delimiter |
| Php.Split | src/Venturecraft/Revisionable/FieldFormatter.php:31 | explode gives at least one part, none holding the delimiter |
| Php.JoinSplit | src/Venturecraft/Revisionable/FieldFormatter.php:37-40 | implode undoes explode |
| Php.SplitHead | src/Venturecraft/Revisionable/FieldFormatter.php:37-40 | the head of explode is the text before the first delimiter, and the rest, re-joined, is the text after it |
| Php.StrPos | src/Venturecraft/Revisionable/Revision.php:67 | a result is a position where the needle occurs with no occurrence before it; None iff it occurs nowhere |
| Php.StrRPos | src/Venturecraft/Revisionable/Revision.php:307 | a result is a position where the needle occurs with no occurrence after it; None iff it occurs nowhere |
| Php.RemoveAll | src/Venturecraft/Revisionable/Revision.php:68 | the string is unchanged iff the needle does not occur; otherwise it gets shorter by at least one needle |
| Php.LastOccurrenceIsSuffix | src/Venturecraft/Revisionable/Revision.php:307-314 | the last occurrence starts at len - 3 iff the key ends with it |
| Php.StripSoleSuffix | src/Venturecraft/Revisionable/Revision.php:68 | removing every '_id' of a key whose only '_id' is its suffix strips the suffix |
| Php.ToText | src/Venturecraft/Revisionable/FieldFormatter.php:99 | only an object without __toString has no string form; a string is its own |
| Php.LooseEquals | src/Venturecraft/Revisionable/FieldFormatter.php:59 | every value is loosely equal to itself |
| Php.LooseEqualsSymmetric | src/Venturecraft/Revisionable/RevisionableTrait.php:464 | `==` gives the same answer with its operands swapped |
| Php.KeyOf | src/Venturecraft/Revisionable/FieldFormatter.php:139 | an array or object is no key; an int is its own key; a string becomes an int key only when it is that int's decimal form, else stays a string key |
| Php.IntAndStringKeysAgree | src/Venturecraft/Revisionable/FieldFormatter.php:136-139 | an integer and a string address the same array slot iff the string is the integer's decimal form |
| Php.DecimalRoundTrip | src/Venturecraft/Revisionable/FieldFormatter.php:136 | parsing a string gives i iff the string is i's decimal form |

## Left out

- Database I/O is replaced by a `Table` of rows: `DB::table()->insert`, the `revisionHistory()` queries, `morphMany`/`morphTo`, and `Revision::save()`.
- The acting user is a parameter: `getUserId`, `getSystemUserId`, `userResponsible` and `getRevisionableName` call authentication libraries.
- The current time is an opaque parameter `now`.
- The date formatting of `datetime` is a function in `Env`.
- `Str::camel` and `Str::studly` are functions in `Env`.
- `class_exists`, `method_exists` and `new $class` are answered by `Env`.
- JSON encoding (`toJson`, `json_encode`) is a function parameter or an opaque string.
- Event registration (`boot`, `bootRevisionableTrait`), `HasManyRevisionable`, `BelongsToManyRevisionable`, the service providers, the controller, the routes, the view, the migrations and the config file are not part of this model.
- `postCreate` and `additional_fields` are not part of this model: they have no implementation in the package's own code.
- The tests' `additional_fields` cases are not part of this model, for the same reason.
- `Revision::prepareForDatabase` is not part of this model: it only fills and saves.
- A read of an undefined array index (`$this->updatedData[$key]` at RevisionableTrait.php:375, `$this->originalData[$key]` at Revisionable.php:112) is modelled as PHP's null result. The notice, which Laravel may turn into an exception, is not modelled.
- Loose comparison models only PHP 8 `==` on the values the engine meets. A numeric string compares with an integer only through its canonical decimal form, so leading zeros, whitespace and floats are not modelled.
- `Capture.Dirty` approximates Eloquent's `getDirty`. It compares values structurally, so its casts and its numeric-string leniency are not modelled.
- `FieldFormatter.Sprintf` models only the `%s` and `%%` conversions.
- `FieldFormatter.FormatSpec` compares the table key with `===`, where the code uses `$pkey == $key`.
- `RevisionableTrait.Model.CleanupRevisions` deletes by ascending id, where the code orders by `created_at` (RevisionableTrait.php:511-514). `created_at` holds whole seconds, so rows saved in the same second tie and the database may pick any of them; ascending id is one of the orders it may use, not the only one.
- `RevisionableTrait.Model.PreSaveChild` keeps the child's JSON in `childData`. The code stores it in `originalData`, which `postSave` shares.
- `RevisionableTrait.Model.PrepareRevision` writes `get_class()` as the row's type. `revisionHistory()` counts by the morph class. The two are kept as separate constants, `className` and `morphClass`, so a model whose two differ is modelled as the code behaves.
- `RevisionableTrait.RevisionsStored` states the test at the level of the specification functions, not as a sequence of method calls on one object.
- `BaseRevisionable.Revisionable.Save` takes the parent save's outcome as a parameter. The parent's own state changes (syncing `original`, setting `exists`) are not modelled.
- `Capture.DropUnstringable` appends the keys of the dropped objects in the order its loop visits them, which the model leaves free. PHP visits them in attribute insertion order (RevisionableTrait.php:316-321), and the model's attributes are a `map` without that order.
- `RevisionableTrait.Model.SnapshotAttributes` therefore states `autoExcluded` only as an enumeration of the dropped keys, not in attribute order.
- `RevisionableTrait.Model.PreSave` inherits that gap: when the declared exclude-list shadows part of the collected keys, the model does not say which of them the index union drops (for `['password']` and objects `a` then `b`, PHP loses `a` and keeps `b`). `RevisionableTrait.UnionDropsCollected` covers the case where every collected key is lost.
- `Policy.IsRevisionable` compares with exact string equality, where `in_array` compares loosely. Keys that PHP 8 deems equal only as numeric strings (such as '1' and '01') are treated as different.
- `MakeRevision.MakeRevision` gives `created_at` and `updated_at` the same `now`. The code builds two `new \DateTime()` values, which may differ by the time between the two calls.
- `BaseRevisionable.Revisionable.AfterSave` takes the acting user's id as the parameter `user` and writes it, `Null` included. The code reads `\Auth::user()->id` (Revisionable.php:114), which with nobody logged in reads a property of null. Under Laravel that warning becomes an exception, raised after the parent save succeeded and before any revision row is saved. That failure is not modelled, and so `BaseRevisionable.Revisionable.Save` does not model it either.
- `Php.LooseEquals` compares two objects by their `__toString` text only. PHP 8 compares `DateTime` objects (Carbon included) by the instant they denote, and other objects by class and by loosely equal properties. So two dates with the same text in different time zones count as equal in the model, and `Capture.TraitChanges`, through `Capture.StillDiffers` (the `!=` at RevisionableTrait.php:464), then passes over such a change.
- `MakeRevision.MakeRevision` keeps every supplied column under its own name. `array_merge` renumbers integer keys, so a numeric-string column such as '5' would be appended rather than kept; no column of the revisions table has such a name.
- `Php.RemoveAll` models `str_replace` with an empty replacement by one scan from left to right. Overlapping occurrences cannot arise for '_id'.

## Findings

| source | as written | input that shows it | evidently intended | confidence | as-written member | corrected member |
|---|---|---|---|---|---|---|
| src/Venturecraft/Revisionable/RevisionableTrait.php:326-328 | `dontKeepRevisionOf + dontKeep` is an index union, so the keys preSave just collected at positions the declared list already occupies are dropped | `dontKeepRevisionOf = ['password']`, attribute 'created_at' holding an object without __toString: it stays revisionable and is recorded with a null new value | every collected key stays excluded, as the concatenation at CommonTrait.php:114-116 does | high (not executed) | RevisionableTrait.ObjectKeyRecordedAsNull | CommonTrait.ObjectKeyNotRecorded |
| src/Venturecraft/Revisionable/RevisionableTrait.php:272 | `array_keys($this->$relation->modelKeys())` keeps the positions 0..n-1, not the related keys | related keys [7, 9]: the snapshot is [0, 1], so postSync records [0,1] → [7,9] for a sync that changes nothing | keep the related keys, as the comment at line 271 says | high (not executed) | RevisionableTrait.SyncSnapshotIsPositions | RevisionableTrait.ResyncIntended |
