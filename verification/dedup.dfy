/** The clean-up script that removes duplicated tasks: tasks with equal
    description, date, category, priority and owner are duplicates; the one
    with the smallest id is kept and the others are deleted, 100 ids per
    statement. */
module Dedup {
  import opened Wrappers
  import opened Seqs
  import opened Calendar
  import opened Records

  /** What makes two tasks duplicates; the status and the other columns do
      not take part. */
  datatype DupKey = DupKey(descricao: string, data: Option<PyDate>, categoria: string,
                           prioridade: string, owner: Option<int>)

  function KeyOf(row: Row<Task>): DupKey {
    DupKey(row.value.descricao, row.value.data, row.value.categoria, row.value.prioridade, row.owner)
  }

  /** Every key of the first `n` rows is in `seen`, with an id no larger
      than theirs. */
  predicate KeysKnown(rows: seq<Row<Task>>, n: int, seen: map<DupKey, int>)
    requires 0 <= n <= |rows|
  {
    forall j :: 0 <= j < n ==> KeyOf(rows[j]) in seen && seen[KeyOf(rows[j])] <= rows[j].id
  }

  /** Every id in `seen` is the id of one of the first `n` rows with that key. */
  predicate KeptAreRows(rows: seq<Row<Task>>, n: int, seen: map<DupKey, int>)
    requires 0 <= n <= |rows|
  {
    forall k :: k in seen ==> exists j :: 0 <= j < n && rows[j].id == seen[k] && KeyOf(rows[j]) == k
  }

  /** Among the first `n` rows, `dups` holds the ids not kept for their key. */
  predicate DupsExact(rows: seq<Row<Task>>, n: int, seen: map<DupKey, int>, dups: seq<int>)
    requires 0 <= n <= |rows| && KeysKnown(rows, n, seen)
  {
    forall j :: 0 <= j < n ==> (rows[j].id in dups <==> rows[j].id != seen[KeyOf(rows[j])])
  }

  /** `dups` holds only ids of the first `n` rows. */
  predicate DupsAreRows(rows: seq<Row<Task>>, n: int, dups: seq<int>)
    requires 0 <= n <= |rows|
  {
    forall x :: x in dups ==> exists j :: 0 <= j < n && rows[j].id == x
  }

  /** The state of the scan after the first `n` rows: `seen` maps every key
      met so far to the smallest id among those rows with that key, and `dups`
      holds exactly the ids of the other rows met so far. */
  predicate Scanned(rows: seq<Row<Task>>, n: int, seen: map<DupKey, int>, dups: seq<int>)
    requires 0 <= n <= |rows|
  {
    KeysKnown(rows, n, seen) && KeptAreRows(rows, n, seen)
    && DupsExact(rows, n, seen, dups) && DupsAreRows(rows, n, dups)
  }

  /** The outcome of the whole scan. */
  predicate Removal(rows: seq<Row<Task>>, seen: map<DupKey, int>, dups: seq<int>) {
    Scanned(rows, |rows|, seen, dups)
  }

  predicate NoRepeats(xs: seq<int>) {
    forall a, b :: 0 <= a < b < |xs| ==> xs[a] != xs[b]
  }

  lemma IdsDiffer(rows: seq<Row<Task>>, a: int, b: int)
    requires DistinctIds(rows) && 0 <= a < |rows| && 0 <= b < |rows| && a != b
    ensures rows[a].id != rows[b].id
  {
    if b < a {
    }
  }

  /** The id of row `i` is not among the ids collected before it. */
  lemma NotYetCollected(rows: seq<Row<Task>>, i: int, dups: seq<int>)
    requires DistinctIds(rows) && 0 <= i < |rows| && DupsAreRows(rows, i, dups)
    ensures rows[i].id !in dups
  {
    forall j | 0 <= j < i
      ensures rows[j].id != rows[i].id
    {
      IdsDiffer(rows, i, j);
    }
  }

  /** A larger prefix still holds the witnesses of a smaller one. */
  lemma Widen(rows: seq<Row<Task>>, i: int, seen: map<DupKey, int>, dups: seq<int>)
    requires 0 <= i < |rows| && KeptAreRows(rows, i, seen) && DupsAreRows(rows, i, dups)
    ensures KeptAreRows(rows, i + 1, seen) && DupsAreRows(rows, i + 1, dups)
  {
    forall k | k in seen
      ensures exists j :: 0 <= j < i + 1 && rows[j].id == seen[k] && KeyOf(rows[j]) == k
    {
      var j :| 0 <= j < i && rows[j].id == seen[k] && KeyOf(rows[j]) == k;
    }
    forall x | x in dups
      ensures exists j :: 0 <= j < i + 1 && rows[j].id == x
    {
      var j :| 0 <= j < i && rows[j].id == x;
    }
  }

  /** Appending an id not yet present keeps the list free of repeats. */
  lemma AppendFresh(xs: seq<int>, x: int)
    requires NoRepeats(xs) && x !in xs
    ensures NoRepeats(xs + [x])
  {
  }

  /** `StepNew` for the keys and the duplicates. */
  lemma NewKeys(rows: seq<Row<Task>>, i: int, seen: map<DupKey, int>, dups: seq<int>)
    requires DistinctIds(rows) && 0 <= i < |rows| && KeysKnown(rows, i, seen)
    requires DupsExact(rows, i, seen, dups) && DupsAreRows(rows, i, dups)
    requires KeyOf(rows[i]) !in seen
    ensures KeysKnown(rows, i + 1, seen[KeyOf(rows[i]) := rows[i].id])
    ensures DupsExact(rows, i + 1, seen[KeyOf(rows[i]) := rows[i].id], dups)
  {
    var seen' := seen[KeyOf(rows[i]) := rows[i].id];
    NotYetCollected(rows, i, dups);
    assert KeysKnown(rows, i + 1, seen');
    forall j | 0 <= j < i + 1
      ensures rows[j].id in dups <==> rows[j].id != seen'[KeyOf(rows[j])]
    {
      if j < i {
        assert KeyOf(rows[j]) != KeyOf(rows[i]);
      }
    }
  }

  /** `StepNew` for the witnesses. */
  lemma NewWitnesses(rows: seq<Row<Task>>, i: int, seen: map<DupKey, int>, dups: seq<int>)
    requires 0 <= i < |rows| && KeptAreRows(rows, i, seen) && DupsAreRows(rows, i, dups)
    ensures KeptAreRows(rows, i + 1, seen[KeyOf(rows[i]) := rows[i].id]) && DupsAreRows(rows, i + 1, dups)
  {
    var k := KeyOf(rows[i]);
    var seen' := seen[k := rows[i].id];
    Widen(rows, i, seen, dups);
    forall k' | k' in seen'
      ensures exists j :: 0 <= j < i + 1 && rows[j].id == seen'[k'] && KeyOf(rows[j]) == k'
    {
      if k' == k {
        assert rows[i].id == seen'[k'] && KeyOf(rows[i]) == k';
      }
    }
  }

  /** A key met for the first time: remember the row's id. */
  lemma StepNew(rows: seq<Row<Task>>, i: int, seen: map<DupKey, int>, dups: seq<int>)
    requires DistinctIds(rows) && 0 <= i < |rows| && Scanned(rows, i, seen, dups)
    requires KeyOf(rows[i]) !in seen
    ensures Scanned(rows, i + 1, seen[KeyOf(rows[i]) := rows[i].id], dups)
  {
    NewKeys(rows, i, seen, dups);
    NewWitnesses(rows, i, seen, dups);
  }

  /** `StepLater` for the keys and the duplicates. */
  lemma LaterDups(rows: seq<Row<Task>>, i: int, seen: map<DupKey, int>, dups: seq<int>)
    requires DistinctIds(rows) && 0 <= i < |rows| && KeysKnown(rows, i, seen)
    requires DupsExact(rows, i, seen, dups) && DupsAreRows(rows, i, dups)
    requires KeyOf(rows[i]) in seen && rows[i].id > seen[KeyOf(rows[i])]
    ensures KeysKnown(rows, i + 1, seen)
    ensures DupsExact(rows, i + 1, seen, dups + [rows[i].id])
  {
    var dups' := dups + [rows[i].id];
    assert KeysKnown(rows, i + 1, seen);
    forall j | 0 <= j < i + 1
      ensures rows[j].id in dups' <==> rows[j].id != seen[KeyOf(rows[j])]
    {
      if j < i {
        IdsDiffer(rows, i, j);
      }
    }
  }

  /** `StepLater` for the witnesses. */
  lemma LaterWitnesses(rows: seq<Row<Task>>, i: int, seen: map<DupKey, int>, dups: seq<int>)
    requires 0 <= i < |rows| && KeptAreRows(rows, i, seen) && DupsAreRows(rows, i, dups)
    ensures KeptAreRows(rows, i + 1, seen) && DupsAreRows(rows, i + 1, dups + [rows[i].id])
  {
    Widen(rows, i, seen, dups);
    forall x | x in dups + [rows[i].id]
      ensures exists j :: 0 <= j < i + 1 && rows[j].id == x
    {
      if x == rows[i].id {
        assert rows[i].id == x;
      }
    }
  }

  /** A known key and a larger id: the row is a duplicate. */
  lemma StepLater(rows: seq<Row<Task>>, i: int, seen: map<DupKey, int>, dups: seq<int>)
    requires DistinctIds(rows) && 0 <= i < |rows| && Scanned(rows, i, seen, dups) && NoRepeats(dups)
    requires KeyOf(rows[i]) in seen && rows[i].id > seen[KeyOf(rows[i])]
    ensures Scanned(rows, i + 1, seen, dups + [rows[i].id])
    ensures NoRepeats(dups + [rows[i].id])
  {
    NotYetCollected(rows, i, dups);
    AppendFresh(dups, rows[i].id);
    LaterDups(rows, i, seen, dups);
    LaterWitnesses(rows, i, seen, dups);
  }

  /** `StepEarlier` for the ids kept: the row's id is the new smallest. */
  lemma EarlierKeys(rows: seq<Row<Task>>, i: int, seen: map<DupKey, int>)
    requires 0 <= i < |rows| && KeysKnown(rows, i, seen)
    requires KeyOf(rows[i]) in seen && rows[i].id < seen[KeyOf(rows[i])]
    ensures KeysKnown(rows, i + 1, seen[KeyOf(rows[i]) := rows[i].id])
  {
    var seen' := seen[KeyOf(rows[i]) := rows[i].id];
    forall j | 0 <= j < i + 1
      ensures KeyOf(rows[j]) in seen' && seen'[KeyOf(rows[j])] <= rows[j].id
    {
    }
  }

  /** `StepEarlier` for the ids collected: the old kept id joins them. */
  lemma EarlierDups(rows: seq<Row<Task>>, i: int, seen: map<DupKey, int>, dups: seq<int>, j0: int)
    requires DistinctIds(rows) && 0 <= i < |rows| && KeysKnown(rows, i, seen) && DupsExact(rows, i, seen, dups)
    requires DupsAreRows(rows, i, dups)
    requires KeyOf(rows[i]) in seen && rows[i].id < seen[KeyOf(rows[i])]
    requires 0 <= j0 < i && rows[j0].id == seen[KeyOf(rows[i])] && KeyOf(rows[j0]) == KeyOf(rows[i])
    ensures KeysKnown(rows, i + 1, seen[KeyOf(rows[i]) := rows[i].id])
    ensures DupsExact(rows, i + 1, seen[KeyOf(rows[i]) := rows[i].id], dups + [seen[KeyOf(rows[i])]])
  {
    var k := KeyOf(rows[i]);
    var m := seen[k];
    var seen' := seen[k := rows[i].id];
    var dups' := dups + [m];
    EarlierKeys(rows, i, seen);
    NotYetCollected(rows, i, dups);
    forall j | 0 <= j < i + 1
      ensures rows[j].id in dups' <==> rows[j].id != seen'[KeyOf(rows[j])]
    {
      if j < i {
        IdsDiffer(rows, i, j);
        if j != j0 {
          IdsDiffer(rows, j, j0);
        }
      }
    }
  }

  /** `StepEarlier` for the witnesses: row `i` for the key's new id, row
      `j0` for the id that became a duplicate. */
  lemma EarlierWitnesses(rows: seq<Row<Task>>, i: int, seen: map<DupKey, int>, dups: seq<int>, j0: int)
    requires 0 <= i < |rows| && KeptAreRows(rows, i, seen) && DupsAreRows(rows, i, dups)
    requires KeyOf(rows[i]) in seen && 0 <= j0 < i && rows[j0].id == seen[KeyOf(rows[i])]
    ensures KeptAreRows(rows, i + 1, seen[KeyOf(rows[i]) := rows[i].id])
    ensures DupsAreRows(rows, i + 1, dups + [seen[KeyOf(rows[i])]])
  {
    var k := KeyOf(rows[i]);
    var m := seen[k];
    var seen' := seen[k := rows[i].id];
    Widen(rows, i, seen, dups);
    forall k' | k' in seen'
      ensures exists j :: 0 <= j < i + 1 && rows[j].id == seen'[k'] && KeyOf(rows[j]) == k'
    {
      if k' == k {
        assert rows[i].id == seen'[k'] && KeyOf(rows[i]) == k';
      }
    }
    forall x | x in dups + [m]
      ensures exists j :: 0 <= j < i + 1 && rows[j].id == x
    {
      if x == m {
        assert rows[j0].id == x;
      }
    }
  }

  /** The id kept so far for a key is not among the duplicates. */
  lemma KeptNotCollected(rows: seq<Row<Task>>, i: int, seen: map<DupKey, int>, dups: seq<int>, j0: int)
    requires 0 <= i <= |rows| && KeysKnown(rows, i, seen) && DupsExact(rows, i, seen, dups)
    requires 0 <= j0 < i && rows[j0].id == seen[KeyOf(rows[j0])]
    ensures rows[j0].id !in dups
  {
  }

  /** A known key and a smaller id: the row takes over and the previously
      kept id becomes a duplicate. */
  lemma StepEarlier(rows: seq<Row<Task>>, i: int, seen: map<DupKey, int>, dups: seq<int>)
    requires DistinctIds(rows) && 0 <= i < |rows| && Scanned(rows, i, seen, dups) && NoRepeats(dups)
    requires KeyOf(rows[i]) in seen && rows[i].id < seen[KeyOf(rows[i])]
    ensures Scanned(rows, i + 1, seen[KeyOf(rows[i]) := rows[i].id], dups + [seen[KeyOf(rows[i])]])
    ensures NoRepeats(dups + [seen[KeyOf(rows[i])]])
  {
    var k := KeyOf(rows[i]);
    var j0 :| 0 <= j0 < i && rows[j0].id == seen[k] && KeyOf(rows[j0]) == k;
    KeptNotCollected(rows, i, seen, dups, j0);
    EarlierDups(rows, i, seen, dups, j0);
    EarlierWitnesses(rows, i, seen, dups, j0);
  }

  /** The scan of `remove_duplicates`, over the tasks in the order the
      database returns them. */
  method FindDuplicates(rows: seq<Row<Task>>) returns (seen: map<DupKey, int>, dups: seq<int>)
    requires DistinctIds(rows)
    ensures Removal(rows, seen, dups)
    ensures NoRepeats(dups)
    ensures |dups| == |rows| - |seen|
  {
    seen, dups := map[], [];
    var i := 0;
    while i < |rows|
      invariant 0 <= i <= |rows|
      invariant Scanned(rows, i, seen, dups)
      invariant NoRepeats(dups)
      invariant |dups| + |seen| == i
    {
      var task := rows[i];
      var key := KeyOf(task);
      if key in seen {
        var existing := seen[key];
        if task.id > existing {
          StepLater(rows, i, seen, dups);
          dups := dups + [task.id];
        } else {
          assert existing != task.id by {
            var j :| 0 <= j < i && rows[j].id == existing && KeyOf(rows[j]) == key;
            IdsDiffer(rows, i, j);
          }
          StepEarlier(rows, i, seen, dups);
          dups := dups + [existing];
          seen := seen[key := task.id];
        }
      } else {
        StepNew(rows, i, seen, dups);
        seen := seen[key := task.id];
      }
      i := i + 1;
    }
  }

  // ---------------------------------------------------------------------------
  // Consequences of the scan

  /** A task whose key no other task has is never deleted. */
  lemma UniqueKeyKept(rows: seq<Row<Task>>, seen: map<DupKey, int>, dups: seq<int>, j: int)
    requires Removal(rows, seen, dups) && 0 <= j < |rows|
    requires forall m :: 0 <= m < |rows| && m != j ==> KeyOf(rows[m]) != KeyOf(rows[j])
    ensures rows[j].id !in dups
  {
    var m :| 0 <= m < |rows| && rows[m].id == seen[KeyOf(rows[j])] && KeyOf(rows[m]) == KeyOf(rows[j]);
  }

  /** Every row of `a` is a row of `b`. */
  predicate RowsWithin(a: seq<Row<Task>>, b: seq<Row<Task>>) {
    forall i :: 0 <= i < |a| ==> a[i] in b
  }

  /** Half of `OrderIndependent`: each key's kept id in `a` is its kept id in `b`. */
  lemma SameKept(a: seq<Row<Task>>, b: seq<Row<Task>>,
                 seenA: map<DupKey, int>, dupsA: seq<int>, seenB: map<DupKey, int>, dupsB: seq<int>)
    requires RowsWithin(a, b) && RowsWithin(b, a)
    requires Removal(a, seenA, dupsA) && Removal(b, seenB, dupsB)
    ensures forall k :: k in seenA ==> k in seenB && seenB[k] <= seenA[k]
  {
    forall k | k in seenA
      ensures k in seenB && seenB[k] <= seenA[k]
    {
      var ja :| 0 <= ja < |a| && a[ja].id == seenA[k] && KeyOf(a[ja]) == k;
      var jb :| 0 <= jb < |b| && b[jb] == a[ja];
    }
  }

  /** Half of `OrderIndependent`: the ids `a` deletes, `b` deletes too. */
  lemma SameDeleted(a: seq<Row<Task>>, b: seq<Row<Task>>,
                    seenA: map<DupKey, int>, dupsA: seq<int>, seenB: map<DupKey, int>, dupsB: seq<int>)
    requires DistinctIds(a) && RowsWithin(a, b) && seenA == seenB
    requires Removal(a, seenA, dupsA) && Removal(b, seenB, dupsB)
    ensures forall x :: x in dupsA ==> x in dupsB
  {
    forall x | x in dupsA
      ensures x in dupsB
    {
      var ja :| 0 <= ja < |a| && a[ja].id == x;
      var jb :| 0 <= jb < |b| && b[jb] == a[ja];
    }
  }

  /** The kept ids and the deleted ids do not depend on the order in which
      the database returns the tasks. */
  lemma OrderIndependent(a: seq<Row<Task>>, b: seq<Row<Task>>,
                         seenA: map<DupKey, int>, dupsA: seq<int>, seenB: map<DupKey, int>, dupsB: seq<int>)
    requires forall r :: r in a <==> r in b
    requires DistinctIds(a) && DistinctIds(b)
    requires Removal(a, seenA, dupsA) && Removal(b, seenB, dupsB)
    ensures seenA == seenB
    ensures forall x :: x in dupsA <==> x in dupsB
  {
    SameKept(a, b, seenA, dupsA, seenB, dupsB);
    SameKept(b, a, seenB, dupsB, seenA, dupsA);
    assert seenA.Keys == seenB.Keys;
    SameDeleted(a, b, seenA, dupsA, seenB, dupsB);
    SameDeleted(b, a, seenB, dupsB, seenA, dupsA);
  }

  // ---------------------------------------------------------------------------
  // Deleting in batches

  /** `[ids[i:i+size] for i in range(0, len(ids), size)]`. */
  function Batches(ids: seq<int>, size: nat): (r: seq<seq<int>>)
    requires size > 0
    ensures forall i :: 0 <= i < |r| ==> 1 <= |r[i]| <= size
    decreases |ids|
  {
    if ids == [] then []
    else if |ids| <= size then [ids]
    else [ids[..size]] + Batches(ids[size..], size)
  }

  function Flatten(xss: seq<seq<int>>): seq<int> {
    if xss == [] then [] else xss[0] + Flatten(xss[1..])
  }

  /** The batches are the id list cut into pieces, in order. */
  lemma {:induction false} BatchesFlatten(ids: seq<int>, size: nat)
    requires size > 0
    ensures Flatten(Batches(ids, size)) == ids
    decreases |ids|
  {
    if |ids| > size {
      var r := Batches(ids, size);
      BatchesFlatten(ids[size..], size);
      assert r[0] == ids[..size] && r[1..] == Batches(ids[size..], size);
      assert ids[..size] + ids[size..] == ids;
    }
  }

  function NotIn(ids: seq<int>): Row<Task> -> bool {
    (row: Row<Task>) => row.id !in ids
  }

  /** One `DELETE … WHERE id IN (batch)` per batch, in order. */
  function DeleteBatches(rows: seq<Row<Task>>, batches: seq<seq<int>>): seq<Row<Task>>
    decreases |batches|
  {
    if batches == [] then rows else DeleteBatches(Keep(rows, NotIn(batches[0])), batches[1..])
  }

  /** Deleting batch after batch deletes every id of every batch. */
  lemma {:induction false} DeleteBatchesAll(rows: seq<Row<Task>>, batches: seq<seq<int>>)
    ensures DeleteBatches(rows, batches) == Keep(rows, NotIn(Flatten(batches)))
    decreases |batches|
  {
    if batches == [] {
      KeepAll(rows, NotIn([]));
    } else {
      var rest := Flatten(batches[1..]);
      DeleteBatchesAll(Keep(rows, NotIn(batches[0])), batches[1..]);
      KeepKeep(rows, NotIn(batches[0]), NotIn(rest));
      KeepCongruent(rows, Both(NotIn(batches[0]), NotIn(rest)), NotIn(batches[0] + rest));
    }
  }

  /** The rows the deletion leaves are the rows whose id is kept for their key. */
  lemma LeftAreKept(rows: seq<Row<Task>>, seen: map<DupKey, int>, dups: seq<int>)
    requires Removal(rows, seen, dups)
    ensures forall r :: r in Keep(rows, NotIn(dups)) <==> r in rows && r.id == seen[KeyOf(r)]
  {
    var left := Keep(rows, NotIn(dups));
    forall r | r in rows
      ensures r in left <==> r.id == seen[KeyOf(r)]
    {
      var j :| 0 <= j < |rows| && rows[j] == r;
      assert r.id in dups <==> r.id != seen[KeyOf(r)];
    }
  }

  /** After the batches of 100 are deleted, the tasks left are the kept
      ones: for every key exactly one task, the one with the smallest id. */
  lemma OnePerKeyLeft(rows: seq<Row<Task>>, seen: map<DupKey, int>, dups: seq<int>)
    requires DistinctIds(rows) && Removal(rows, seen, dups)
    ensures var left := DeleteBatches(rows, Batches(dups, 100));
      (forall r :: r in left <==> r in rows && r.id == seen[KeyOf(r)])
      && (forall k :: k in seen ==> exists r :: r in left && KeyOf(r) == k)
      && (forall r1, r2 :: r1 in left && r2 in left && KeyOf(r1) == KeyOf(r2) ==> r1 == r2)
  {
    BatchesFlatten(dups, 100);
    DeleteBatchesAll(rows, Batches(dups, 100));
    var left := Keep(rows, NotIn(dups));
    LeftAreKept(rows, seen, dups);
    forall k | k in seen
      ensures exists r :: r in left && KeyOf(r) == k
    {
      var j :| 0 <= j < |rows| && rows[j].id == seen[k] && KeyOf(rows[j]) == k;
      assert rows[j] in left;
    }
    forall r1, r2 | r1 in left && r2 in left && KeyOf(r1) == KeyOf(r2)
      ensures r1 == r2
    {
      var a :| 0 <= a < |rows| && rows[a] == r1;
      var b :| 0 <= b < |rows| && rows[b] == r2;
      if a != b {
        IdsDiffer(rows, a, b);
      }
    }
  }
}
