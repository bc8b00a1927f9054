/**
 * The revisions table: rows appended by bulk insert with increasing ids,
 * counted per subject (the `revisionHistory()` relation), and trimmed by
 * deleting a subject's oldest rows, which the engine selects ordered by id
 * and deletes one by one.
 */
module Store {
  import opened Php

  /** The columns the engine writes: revisionable_type, revisionable_id, key,
      old_value, new_value, user_id, created_at, updated_at. */
  datatype Entry = Entry(
    revisionableType: string,
    revisionableId: Value,
    key: string,
    oldValue: Value,
    newValue: Value,
    userId: Value,
    createdAt: Value,
    updatedAt: Value)

  /** A stored row: the auto-increment id and the columns. */
  datatype Row = Row(id: nat, entry: Entry)

  /** The record a revision belongs to: its morph type and its key. */
  datatype Subject = Subject(revisionableType: string, revisionableId: Value)

  predicate Of(r: Row, s: Subject) {
    r.entry.revisionableType == s.revisionableType && r.entry.revisionableId == s.revisionableId
  }

  /** `revisionHistory()->count()`. */
  function CountOf(rows: seq<Row>, s: Subject): nat {
    if rows == [] then 0 else (if Of(rows[0], s) then 1 else 0) + CountOf(rows[1..], s)
  }

  /** The rows of every other subject, in table order. */
  function OthersOf(rows: seq<Row>, s: Subject): seq<Row> {
    if rows == [] then [] else (if Of(rows[0], s) then [] else [rows[0]]) + OthersOf(rows[1..], s)
  }

  /** `revisionHistory()->orderBy('id', 'asc')->limit(n)->get()`, as ids: the
      first `n` rows of the subject (table order is id order, see `Ascending`). */
  function OldestIds(rows: seq<Row>, s: Subject, n: nat): seq<nat> {
    if rows == [] || n == 0 then []
    else if Of(rows[0], s) then [rows[0].id] + OldestIds(rows[1..], s, n - 1)
    else OldestIds(rows[1..], s, n)
  }

  /** The table after deleting the rows whose id is in `ids`. */
  function Without(rows: seq<Row>, ids: set<nat>): seq<Row> {
    if rows == [] then [] else (if rows[0].id in ids then [] else [rows[0]]) + Without(rows[1..], ids)
  }

  function Elems(xs: seq<nat>): set<nat> {
    set x | x in xs
  }

  /** The rows a bulk insert of `entries` adds when the next id is `start`. */
  function Stamped(entries: seq<Entry>, start: nat): (rows: seq<Row>)
    ensures |rows| == |entries|
    ensures forall i | 0 <= i < |rows| :: rows[i] == Row(start + i, entries[i])
  {
    seq(|entries|, i requires 0 <= i < |entries| => Row(start + i, entries[i]))
  }

  predicate Ascending(rows: seq<Row>) {
    forall i, j | 0 <= i < j < |rows| :: rows[i].id < rows[j].id
  }

  // ---------------------------------------------------------------------------
  // Lemmas about deleting the oldest rows

  lemma {:induction false} WithoutMembers(rows: seq<Row>, ids: set<nat>)
    ensures forall r | r in Without(rows, ids) :: r in rows && r.id !in ids
  {
    if rows != [] {
      WithoutMembers(rows[1..], ids);
    }
  }

  lemma AscendingTail(rows: seq<Row>)
    requires Ascending(rows) && rows != []
    ensures Ascending(rows[1..])
    ensures forall r | r in rows[1..] :: rows[0].id < r.id
  {
    forall r | r in rows[1..]
      ensures rows[0].id < r.id
    {
      var j :| 0 <= j < |rows[1..]| && rows[1..][j] == r;
      assert rows[j + 1] == r;
    }
  }

  lemma {:induction false} WithoutAscending(rows: seq<Row>, ids: set<nat>)
    requires Ascending(rows)
    ensures Ascending(Without(rows, ids))
  {
    if rows != [] {
      var t := rows[1..];
      AscendingTail(rows);
      WithoutAscending(t, ids);
      WithoutMembers(t, ids);
      var w := Without(rows, ids);
      if rows[0].id !in ids {
        assert w == [rows[0]] + Without(t, ids);
        forall i, j | 0 <= i < j < |w|
          ensures w[i].id < w[j].id
        {
          assert w[j] == Without(t, ids)[j - 1];
          if i > 0 {
            assert w[i] == Without(t, ids)[i - 1];
          } else {
            assert w[j] in Without(t, ids);
          }
        }
      }
    }
  }

  /** Deleting `x` after the rows of `ids` leaves what deleting `ids + {x}` leaves. */
  lemma {:induction false} WithoutOneMore(rows: seq<Row>, ids: set<nat>, x: nat)
    ensures Without(Without(rows, ids), {x}) == Without(rows, ids + {x})
  {
    if rows != [] {
      WithoutOneMore(rows[1..], ids, x);
      if rows[0].id !in ids {
        assert Without(rows, ids) == [rows[0]] + Without(rows[1..], ids);
        assert ([rows[0]] + Without(rows[1..], ids))[1..] == Without(rows[1..], ids);
        assert Without(Without(rows, ids), {x})
            == (if rows[0].id == x then [] else [rows[0]]) + Without(Without(rows[1..], ids), {x});
      } else {
        assert Without(rows, ids) == Without(rows[1..], ids);
        assert Without(rows, ids + {x}) == Without(rows[1..], ids + {x});
      }
    }
  }

  /** Deletion only looks at the ids the table holds. */
  lemma {:induction false} WithoutSameIds(rows: seq<Row>, a: set<nat>, b: set<nat>)
    requires forall r | r in rows :: r.id in a <==> r.id in b
    ensures Without(rows, a) == Without(rows, b)
  {
    if rows != [] {
      WithoutSameIds(rows[1..], a, b);
    }
  }

  lemma {:induction false} OldestIdsAreRowsOf(rows: seq<Row>, s: Subject, n: nat)
    ensures |OldestIds(rows, s, n)| <= n
    ensures forall x | x in OldestIds(rows, s, n) :: exists r | r in rows :: r.id == x && Of(r, s)
  {
    if rows != [] && n != 0 {
      OldestIdsAreRowsOf(rows[1..], s, if Of(rows[0], s) then n - 1 else n);
    }
  }

  /** How many of the subject's rows the cleanup still has to take from the
      rest of the table once it has looked at the first row. */
  function Remaining(r: Row, s: Subject, n: nat): nat {
    if n > 0 && Of(r, s) then n - 1 else n
  }

  /** One step of the cleanup: the first row goes exactly when it is the
      subject's and some deletions are left; the rest is the cleanup of the tail. */
  lemma OldestStep(rows: seq<Row>, s: Subject, n: nat)
    requires Ascending(rows) && rows != []
    ensures Without(rows, Elems(OldestIds(rows, s, n)))
         == (if n > 0 && Of(rows[0], s) then [] else [rows[0]])
            + Without(rows[1..], Elems(OldestIds(rows[1..], s, Remaining(rows[0], s, n))))
  {
    var t := rows[1..];
    AscendingTail(rows);
    var v := OldestIds(rows, s, n);
    var v' := OldestIds(t, s, Remaining(rows[0], s, n));
    OldestIdsAreRowsOf(t, s, Remaining(rows[0], s, n));
    if n == 0 {
      assert v == [] && v' == [];
      assert Elems(v) == Elems(v');
    } else if Of(rows[0], s) {
      assert Elems(v) == Elems(v') + {rows[0].id};
      WithoutSameIds(t, Elems(v), Elems(v'));
    } else {
      assert v == v';
      assert rows[0].id !in Elems(v);
    }
  }

  /** Retention cleanup removes exactly `min(n, count)` rows of the subject. */
  lemma {:induction false} DeleteOldestCount(rows: seq<Row>, s: Subject, n: nat)
    requires Ascending(rows)
    ensures var c := CountOf(rows, s);
            CountOf(Without(rows, Elems(OldestIds(rows, s, n))), s) == c - (if n < c then n else c)
  {
    if rows != [] {
      AscendingTail(rows);
      OldestStep(rows, s, n);
      DeleteOldestCount(rows[1..], s, Remaining(rows[0], s, n));
      var w := Without(rows[1..], Elems(OldestIds(rows[1..], s, Remaining(rows[0], s, n))));
      if !(n > 0 && Of(rows[0], s)) {
        assert ([rows[0]] + w)[0] == rows[0];
        assert ([rows[0]] + w)[1..] == w;
      } else {
        assert [] + w == w;
      }
    }
  }

  /** Retention cleanup leaves the rows of every other subject as they were. */
  lemma {:induction false} DeleteOldestKeepsOthers(rows: seq<Row>, s: Subject, n: nat)
    requires Ascending(rows)
    ensures OthersOf(Without(rows, Elems(OldestIds(rows, s, n))), s) == OthersOf(rows, s)
  {
    if rows != [] {
      AscendingTail(rows);
      OldestStep(rows, s, n);
      DeleteOldestKeepsOthers(rows[1..], s, Remaining(rows[0], s, n));
      var w := Without(rows[1..], Elems(OldestIds(rows[1..], s, Remaining(rows[0], s, n))));
      if !(n > 0 && Of(rows[0], s)) {
        assert ([rows[0]] + w)[0] == rows[0];
        assert ([rows[0]] + w)[1..] == w;
      } else {
        assert [] + w == w;
      }
    }
  }

  /** The deleted rows are the oldest: every row of the subject that survives
      has a larger id than every deleted one. */
  lemma {:induction false} DeleteOldestTakesOldest(rows: seq<Row>, s: Subject, n: nat)
    requires Ascending(rows)
    ensures forall x, r | x in OldestIds(rows, s, n) && r in Without(rows, Elems(OldestIds(rows, s, n))) && Of(r, s)
              :: x < r.id
  {
    if rows != [] {
      var t := rows[1..];
      var m := Remaining(rows[0], s, n);
      AscendingTail(rows);
      OldestStep(rows, s, n);
      DeleteOldestTakesOldest(t, s, m);
      var w := Without(t, Elems(OldestIds(t, s, m)));
      WithoutMembers(t, Elems(OldestIds(t, s, m)));
      OldestIdsAreRowsOf(t, s, m);
      if n > 0 && Of(rows[0], s) {
        assert OldestIds(rows, s, n) == [rows[0].id] + OldestIds(t, s, m);
      } else {
        assert OldestIds(rows, s, n) == OldestIds(t, s, m);
        forall x, r | x in OldestIds(rows, s, n) && r in [rows[0]] + w && Of(r, s)
          ensures x < r.id
        {
          if r == rows[0] {
            assert false;
          }
        }
      }
    }
  }

  lemma {:induction false} CountOfAppend(a: seq<Row>, b: seq<Row>, s: Subject)
    ensures CountOf(a + b, s) == CountOf(a, s) + CountOf(b, s)
  {
    if a != [] {
      assert (a + b)[0] == a[0];
      assert (a + b)[1..] == a[1..] + b;
      CountOfAppend(a[1..], b, s);
      assert CountOf(a + b, s) == (if Of(a[0], s) then 1 else 0) + CountOf(a[1..] + b, s);
    } else {
      assert a + b == b;
    }
  }

  /** Every row of a bulk insert for subject `s` counts towards `s`. */
  lemma {:induction false} CountOfStamped(entries: seq<Entry>, start: nat, s: Subject)
    requires forall e | e in entries :: e.revisionableType == s.revisionableType && e.revisionableId == s.revisionableId
    ensures CountOf(Stamped(entries, start), s) == |entries|
  {
    if entries != [] {
      assert Stamped(entries, start)[1..] == Stamped(entries[1..], start + 1);
      CountOfStamped(entries[1..], start + 1, s);
    }
  }

  // ---------------------------------------------------------------------------

  /** The revisions table, shared by every model that keeps revisions. */
  class Table {
    var rows: seq<Row>
    var nextId: nat

    ghost predicate Valid()
      reads this
    {
      Ascending(rows) && forall r | r in rows :: r.id < nextId
    }

    constructor ()
      ensures Valid() && rows == [] && nextId == 1
    {
      rows := [];
      nextId := 1;
    }

    /** `revisionHistory()->count()` for one subject. */
    function Count(s: Subject): nat
      reads this
    {
      CountOf(rows, s)
    }

    /** `DB::table('revisions')->insert($entries)`: one statement for the whole batch. */
    method Insert(entries: seq<Entry>)
      requires Valid()
      modifies this
      ensures Valid()
      ensures rows == old(rows) + Stamped(entries, old(nextId))
      ensures nextId == old(nextId) + |entries|
    {
      rows := rows + Stamped(entries, nextId);
      nextId := nextId + |entries|;
    }

    /** Select the subject's `n` oldest rows by ascending id, then delete each. */
    method DeleteOldest(s: Subject, n: nat)
      requires Valid()
      modifies this
      ensures Valid() && nextId == old(nextId)
      ensures rows == Without(old(rows), Elems(OldestIds(old(rows), s, n)))
    {
      var victims := OldestIds(rows, s, n);
      ghost var before := rows;
      assert Without(before, {}) == before by {
        WithoutNone(before);
      }
      var i := 0;
      assert Elems(victims[..0]) == {};
      while i < |victims|
        invariant 0 <= i <= |victims|
        invariant rows == Without(before, Elems(victims[..i]))
        invariant Valid() && nextId == old(nextId)
      {
        WithoutOneMore(before, Elems(victims[..i]), victims[i]);
        assert Elems(victims[..i + 1]) == Elems(victims[..i]) + {victims[i]} by {
          assert victims[..i + 1] == victims[..i] + [victims[i]];
        }
        WithoutAscending(rows, {victims[i]});
        WithoutMembers(rows, {victims[i]});
        rows := Without(rows, {victims[i]});
        i := i + 1;
      }
      assert victims[..i] == victims;
    }
  }

  lemma {:induction false} WithoutNone(rows: seq<Row>)
    ensures Without(rows, {}) == rows
  {
    if rows != [] {
      WithoutNone(rows[1..]);
    }
  }
}
