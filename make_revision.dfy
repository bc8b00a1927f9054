/**
 * `makeRevision($data)`: a revision row as a column map, the caller's data
 * merged over a row of defaults.
 */
module MakeRevision {
  import opened Php

  /** The columns every row built this way has. */
  const DefaultColumns: set<string> :=
    {"revisionable_type", "revisionable_id", "key", "old_value", "new_value", "user_id", "created_at", "updated_at"}

  /** The default row: the model's morph class and key, no key or values
      yet, the system user and the current time. */
  function Defaults(morphClass: string, id: Value, userId: Value, now: Value): map<string, Value> {
    map["revisionable_type" := Str(morphClass),
        "revisionable_id" := id,
        "key" := Null,
        "old_value" := Null,
        "new_value" := Null,
        "user_id" := userId,
        "created_at" := now,
        "updated_at" := now]
  }

  /** `array_merge($default, $data)` on string-keyed data: a supplied column
      overrides its default and any other column is added. */
  function MakeRevision(morphClass: string, id: Value, userId: Value, now: Value, data: map<string, Value>)
    : (row: map<string, Value>)
    ensures DefaultColumns <= row.Keys
    ensures row.Keys == DefaultColumns + data.Keys
    ensures forall c | c in data :: row[c] == data[c]
    ensures forall c | c in {"key", "old_value", "new_value"} && c !in data :: row[c] == Null
    ensures "revisionable_type" !in data ==> row["revisionable_type"] == Str(morphClass)
    ensures "revisionable_id" !in data ==> row["revisionable_id"] == id
    ensures "user_id" !in data ==> row["user_id"] == userId
    ensures "created_at" !in data ==> row["created_at"] == now
    ensures "updated_at" !in data ==> row["updated_at"] == now
  {
    Defaults(morphClass, id, userId, now) + data
  }
}
