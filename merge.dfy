/**
 * The incremental merge: every row of the master table whose key occurs in
 * the increment is dropped, and the increment is appended after the rows
 * that are left (`prev_df[~prev_df[key].isin(curr_df[key].unique())]`
 * followed by `pd.concat([...], ignore_index=True)`). No deduplication pass
 * follows.
 */
module Incremental {
  import opened Results
  import opened Text
  import opened Frames

  /** Which of the two tables an error is about. */
  datatype Side = Master | Increment

  datatype MergeError =
    | MissingKeyColumn(side: Side)    // `df[key]` raises KeyError
    | DuplicateKeyColumn(side: Side)  // `df[key]` is a table, which has no `unique()` / `isin()`
    | NonUniqueColumns                // `concat` cannot align tables with repeated labels

  // ---------------------------------------------------------------- labels

  predicate Unique<T(==)>(s: seq<T>) {
    forall i, j :: 0 <= i < j < |s| ==> s[i] != s[j]
  }

  /** In a sequence without repetitions, `x` is only found where it is. */
  lemma FirstPosUnique<T>(s: seq<T>, i: nat)
    requires Unique(s) && i < |s|
    ensures FirstPos(s, s[i]) == i
  {
  }

  /** The cell under label `l`: `row[l]` as pandas looks it up, the first column with that label. */
  function CellAt(row: seq<Cell>, cols: seq<string>, l: string): Cell
    requires |row| == |cols| && l in cols
  {
    row[FirstPos(cols, l)]
  }

  /** `row`, laid out under labels `u`, has under every label the cell `src` has
      under it, or NaN where `src` has no such column. */
  predicate Aligned(row: seq<Cell>, u: seq<string>, src: seq<Cell>, cols: seq<string>)
    requires |row| == |u| && |src| == |cols|
  {
    forall l {:trigger CellAt(row, u, l)} :: l in u ==> CellAt(row, u, l) == if l in cols then CellAt(src, cols, l) else NaN
  }

  /** The labels of `b` that `a` lacks, in the order of `b`. */
  function NewColumns(a: seq<string>, b: seq<string>): (r: seq<string>)
    ensures forall c :: c in r <==> c in b && c !in a
    ensures Unique(b) ==> Unique(r)
  {
    if b == [] then []
    else (if b[0] in a then [] else [b[0]]) + NewColumns(a, b[1..])
  }

  /** One label is new exactly when the first table lacks it. */
  lemma NewColumnsOne(a: seq<string>, c: string)
    ensures NewColumns(a, [c]) == if c in a then [] else [c]
  {
    assert [c][1..] == [];
  }

  /** Concatenation is associative. */
  lemma AppendAssoc<T>(x: seq<T>, y: seq<T>, z: seq<T>)
    ensures x + (y + z) == (x + y) + z
  {
  }

  /** A concatenation with a non-empty first part starts as that part does. */
  lemma AppendTail<T>(x: seq<T>, y: seq<T>)
    requires x != []
    ensures (x + y)[0] == x[0] && (x + y)[1..] == x[1..] + y
  {
  }

  /** The new labels of a non-empty `b` are those of its first label, then those of the rest. */
  lemma NewColumnsCons(a: seq<string>, b: seq<string>)
    requires b != []
    ensures NewColumns(a, b) == NewColumns(a, [b[0]]) + NewColumns(a, b[1..])
  {
    NewColumnsOne(a, b[0]);
  }

  /** The new labels keep the order of `b`: those of `b1 + b2` are those of `b1`
      followed by those of `b2`. */
  lemma {:induction false} NewColumnsAppend(a: seq<string>, b1: seq<string>, b2: seq<string>)
    ensures NewColumns(a, b1 + b2) == NewColumns(a, b1) + NewColumns(a, b2)
  {
    if b1 == [] {
      assert b1 + b2 == b2;
    } else {
      var t := b1[1..];
      AppendTail(b1, b2);
      NewColumnsCons(a, b1);
      NewColumnsCons(a, b1 + b2);
      NewColumnsAppend(a, t, b2);
      AppendAssoc(NewColumns(a, [b1[0]]), NewColumns(a, t), NewColumns(a, b2));
    }
  }

  /** When every label of `b` is already in `a` there is nothing new. */
  lemma {:induction false} NoNewColumns(a: seq<string>, b: seq<string>)
    requires forall c :: c in b ==> c in a
    ensures NewColumns(a, b) == []
  {
    if b != [] {
      assert b[0] in a;
      NoNewColumns(a, b[1..]);
    }
  }

  /** Two label sequences without repetitions and without common labels join to one without repetitions. */
  lemma UniqueAppend(a: seq<string>, b: seq<string>)
    requires Unique(a) && Unique(b)
    requires forall c :: c in b ==> c !in a
    ensures Unique(a + b)
  {
    forall i, j | 0 <= i < j < |a + b| ensures (a + b)[i] != (a + b)[j] {
      if i < |a| && j >= |a| {
        assert (a + b)[j] in b;
      }
    }
  }

  // ---------------------------------------------------------------- concat

  /** One row of `concat`'s result: reindexed to labels `u`, NaN where its table has no such column. */
  function AlignRow(row: seq<Cell>, cols: seq<string>, u: seq<string>): (r: seq<Cell>)
    requires |row| == |cols|
    ensures |r| == |u|
    ensures Aligned(r, u, row, cols)
  {
    var r := seq(|u|, p requires 0 <= p < |u| => if u[p] in cols then CellAt(row, cols, u[p]) else NaN);
    assert forall l :: l in u ==> r[FirstPos(u, l)] == (if l in cols then CellAt(row, cols, l) else NaN);
    r
  }

  function AlignRows(rows: seq<seq<Cell>>, cols: seq<string>, u: seq<string>): (r: seq<seq<Cell>>)
    requires forall i :: 0 <= i < |rows| ==> |rows[i]| == |cols|
    ensures |r| == |rows|
    ensures forall i :: 0 <= i < |rows| ==> r[i] == AlignRow(rows[i], cols, u)
  {
    seq(|rows|, i requires 0 <= i < |rows| => AlignRow(rows[i], cols, u))
  }

  /** Reindexing rows to their own labels changes nothing when those labels do not repeat. */
  lemma AlignRowsSelf(rows: seq<seq<Cell>>, cols: seq<string>)
    requires Unique(cols)
    requires forall i :: 0 <= i < |rows| ==> |rows[i]| == |cols|
    ensures AlignRows(rows, cols, cols) == rows
  {
    forall i, p | 0 <= i < |rows| && 0 <= p < |cols|
      ensures AlignRows(rows, cols, cols)[i][p] == rows[i][p]
    {
      FirstPosUnique(cols, p);
    }
    assert forall i :: 0 <= i < |rows| ==> AlignRows(rows, cols, cols)[i] == rows[i];
  }

  /** Whether a column of the joined table holds text: it does where either table's column does. */
  function ObjectFlags(a: Frame, b: Frame, u: seq<string>): (r: seq<bool>)
    requires WellFormed(a) && WellFormed(b)
    ensures |r| == |u|
  {
    seq(|u|, p requires 0 <= p < |u| =>
      (u[p] in a.columns && a.objectCols[FirstPos(a.columns, u[p])]) ||
      (u[p] in b.columns && b.objectCols[FirstPos(b.columns, u[p])]))
  }

  /** A row laid out under `u` shows, under any label of `u`, what `Aligned` promises. */
  lemma AlignedAt(row: seq<Cell>, u: seq<string>, src: seq<Cell>, cols: seq<string>, l: string)
    requires |row| == |u| && |src| == |cols|
    requires Aligned(row, u, src, cols) && l in u
    ensures CellAt(row, u, l) == if l in cols then CellAt(src, cols, l) else NaN
  {
  }

  /** `concat` of two tables with identical labels: the rows stacked as they are. */
  function Stacked(a: Frame, b: Frame): Frame
    requires WellFormed(a) && WellFormed(b) && a.columns == b.columns
  {
    Frame(a.columns,
          seq(|a.columns|, p requires 0 <= p < |a.columns| => a.objectCols[p] || b.objectCols[p]),
          a.rows + b.rows)
  }

  /** The labels `concat` gives two tables: those of `a`, then the new ones of `b`. */
  function JoinedColumns(a: seq<string>, b: seq<string>): seq<string> {
    a + NewColumns(a, b)
  }

  /** `concat` of two tables with different labels: both reindexed to the joined labels. */
  function Reindexed(a: Frame, b: Frame): Frame
    requires WellFormed(a) && WellFormed(b)
  {
    var u := JoinedColumns(a.columns, b.columns);
    Frame(u, ObjectFlags(a, b, u), AlignRows(a.rows, a.columns, u) + AlignRows(b.rows, b.columns, u))
  }

  /** What `concat` promises about its result `r`: the joined labels, the rows of
      `a` then those of `b`, each showing its own cells under its labels and NaN elsewhere. */
  predicate Concatenated(a: Frame, b: Frame, r: Frame)
    requires WellFormed(a) && WellFormed(b)
  {
    && WellFormed(r)
    && r.columns == JoinedColumns(a.columns, b.columns)
    && |r.rows| == |a.rows| + |b.rows|
    && (forall i :: 0 <= i < |a.rows| ==> Aligned(r.rows[i], r.columns, a.rows[i], a.columns))
    && (forall i :: 0 <= i < |b.rows| ==> Aligned(r.rows[|a.rows| + i], r.columns, b.rows[i], b.columns))
  }

  lemma StackedFacts(a: Frame, b: Frame)
    requires WellFormed(a) && WellFormed(b) && a.columns == b.columns
    ensures Concatenated(a, b, Stacked(a, b))
  {
    var r := Stacked(a, b);
    NoNewColumns(a.columns, b.columns);
    assert a.columns + [] == a.columns;
    forall i | 0 <= i < |r.rows| ensures Aligned(r.rows[i], a.columns, r.rows[i], a.columns) {
    }
    assert forall i :: 0 <= i < |b.rows| ==> r.rows[|a.rows| + i] == b.rows[i];
  }

  lemma ReindexedFacts(a: Frame, b: Frame)
    requires WellFormed(a) && WellFormed(b)
    ensures Concatenated(a, b, Reindexed(a, b))
  {
    var u := JoinedColumns(a.columns, b.columns);
    var ra := AlignRows(a.rows, a.columns, u);
    var rb := AlignRows(b.rows, b.columns, u);
    var r := Reindexed(a, b);
    assert r.rows == ra + rb;
    forall i | 0 <= i < |a.rows| ensures Aligned(r.rows[i], u, a.rows[i], a.columns) {
      assert r.rows[i] == ra[i];
    }
    forall i | 0 <= i < |b.rows| ensures Aligned(r.rows[|a.rows| + i], u, b.rows[i], b.columns) {
      assert r.rows[|a.rows| + i] == rb[i];
    }
  }

  /** `pd.concat([a, b], ignore_index=True)`: the rows of `a` then the rows of `b`.
      Identical labels are stacked as they are; otherwise both tables are reindexed
      to the labels of `a` followed by the new labels of `b`, which needs labels
      that do not repeat. */
  function Concat(a: Frame, b: Frame): (r: Result<Frame, MergeError>)
    requires WellFormed(a) && WellFormed(b)
    ensures r.Success? <==> a.columns == b.columns || (Unique(a.columns) && Unique(b.columns))
    ensures r.Failure? ==> r.error == NonUniqueColumns
    ensures r.Success? ==> Concatenated(a, b, r.value)
    ensures r.Success? && a.columns == b.columns ==> r.value.rows == a.rows + b.rows
  {
    if a.columns == b.columns then
      StackedFacts(a, b);
      Success(Stacked(a, b))
    else if Unique(a.columns) && Unique(b.columns) then
      ReindexedFacts(a, b);
      Success(Reindexed(a, b))
    else
      Failure(NonUniqueColumns)
  }

  // ---------------------------------------------------------------- keys

  /** `df[k]` names exactly one column. */
  predicate KeyUnique(f: Frame, k: string) {
    multiset(f.columns)[k] == 1
  }

  /** `df[k].unique()`, as a set. */
  function KeySet(f: Frame, k: string): set<Cell>
    requires WellFormed(f) && k in f.columns
  {
    set i | 0 <= i < |f.rows| :: CellAt(f.rows[i], f.columns, k)
  }

  /** `rows[~rows[k].isin(keys)]`: the rows whose key is not in `keys`, in their order. */
  function Kept(rows: seq<seq<Cell>>, cols: seq<string>, k: string, keys: set<Cell>): (r: seq<seq<Cell>>)
    requires k in cols
    requires forall i :: 0 <= i < |rows| ==> |rows[i]| == |cols|
    ensures |r| <= |rows|
    ensures forall i :: 0 <= i < |r| ==> |r[i]| == |cols| && CellAt(r[i], cols, k) !in keys
  {
    if rows == [] then []
    else
      var rest := Kept(rows[1..], cols, k, keys);
      if CellAt(rows[0], cols, k) in keys then rest else [rows[0]] + rest
  }

  /** The filter drops every row whose key is in `keys` and keeps every other
      row as many times as it occurs. */
  lemma {:induction false} KeptCount(rows: seq<seq<Cell>>, cols: seq<string>, k: string, keys: set<Cell>, x: seq<Cell>)
    requires k in cols
    requires forall i :: 0 <= i < |rows| ==> |rows[i]| == |cols|
    requires |x| == |cols|
    ensures multiset(Kept(rows, cols, k, keys))[x] == if CellAt(x, cols, k) in keys then 0 else multiset(rows)[x]
  {
    if rows != [] {
      KeptCount(rows[1..], cols, k, keys, x);
      assert rows == [rows[0]] + rows[1..];
    }
  }

  /** The filter keeps every row exactly when no row's key is in `keys`. */
  lemma {:induction false} KeptLength(rows: seq<seq<Cell>>, cols: seq<string>, k: string, keys: set<Cell>)
    requires k in cols
    requires forall i :: 0 <= i < |rows| ==> |rows[i]| == |cols|
    ensures |Kept(rows, cols, k, keys)| == |rows| <==>
              forall i :: 0 <= i < |rows| ==> CellAt(rows[i], cols, k) !in keys
  {
    if rows != [] {
      KeptLength(rows[1..], cols, k, keys);
      assert forall i :: 1 <= i < |rows| ==> rows[i] == rows[1..][i - 1];
    }
  }

  /** The filter keeps order: filtering a concatenation is concatenating the filtered parts. */
  lemma {:induction false} KeptAppend(a: seq<seq<Cell>>, b: seq<seq<Cell>>, cols: seq<string>, k: string, keys: set<Cell>)
    requires k in cols
    requires forall i :: 0 <= i < |a| ==> |a[i]| == |cols|
    requires forall i :: 0 <= i < |b| ==> |b[i]| == |cols|
    ensures Kept(a + b, cols, k, keys) == Kept(a, cols, k, keys) + Kept(b, cols, k, keys)
  {
    if a != [] {
      assert (a + b)[1..] == a[1..] + b;
      assert (a + b)[0] == a[0];
      KeptAppend(a[1..], b, cols, k, keys);
    } else {
      assert a + b == b;
    }
  }

  /** Rows none of whose keys are in `keys` all survive; rows all of whose keys are in it all go. */
  lemma {:induction false} KeptAllOrNone(rows: seq<seq<Cell>>, cols: seq<string>, k: string, keys: set<Cell>)
    requires k in cols
    requires forall i :: 0 <= i < |rows| ==> |rows[i]| == |cols|
    ensures (forall i :: 0 <= i < |rows| ==> CellAt(rows[i], cols, k) !in keys) ==> Kept(rows, cols, k, keys) == rows
    ensures (forall i :: 0 <= i < |rows| ==> CellAt(rows[i], cols, k) in keys) ==> Kept(rows, cols, k, keys) == []
  {
    if rows != [] {
      KeptAllOrNone(rows[1..], cols, k, keys);
      assert forall i :: 1 <= i < |rows| ==> rows[i] == rows[1..][i - 1];
      assert rows == [rows[0]] + rows[1..];
    }
  }

  /** The master rows that survive the merge. */
  function Survivors(master: Frame, inc: Frame, k: string): seq<seq<Cell>>
    requires WellFormed(master) && WellFormed(inc)
    requires k in master.columns && k in inc.columns
  {
    Kept(master.rows, master.columns, k, KeySet(inc, k))
  }

  // ---------------------------------------------------------------- merge

  /** The merge step: read the increment's keys, drop the master rows holding any
      of them, and append the increment. `curr_df[key]` is evaluated before
      `prev_df[key]`, so the increment's key column is checked first. */
  function Merge(master: Frame, inc: Frame, k: string): (r: Result<Frame, MergeError>)
    requires WellFormed(master) && WellFormed(inc)
    ensures r.Success? <==>
              && KeyUnique(inc, k) && KeyUnique(master, k)
              && (master.columns == inc.columns || (Unique(master.columns) && Unique(inc.columns)))
    ensures k !in inc.columns ==> r == Failure(MissingKeyColumn(Increment))
    ensures multiset(inc.columns)[k] > 1 ==> r == Failure(DuplicateKeyColumn(Increment))
    ensures KeyUnique(inc, k) && k !in master.columns ==> r == Failure(MissingKeyColumn(Master))
    ensures KeyUnique(inc, k) && multiset(master.columns)[k] > 1 ==> r == Failure(DuplicateKeyColumn(Master))
    ensures r.Success? ==> WellFormed(r.value)
  {
    if k !in inc.columns then Failure(MissingKeyColumn(Increment))
    else if !KeyUnique(inc, k) then Failure(DuplicateKeyColumn(Increment))
    else if k !in master.columns then Failure(MissingKeyColumn(Master))
    else if !KeyUnique(master, k) then Failure(DuplicateKeyColumn(Master))
    else
      Concat(KeptFrame(master, inc, k), inc)
  }

  /** The master table cut down to its surviving rows. */
  function KeptFrame(master: Frame, inc: Frame, k: string): Frame
    requires WellFormed(master) && WellFormed(inc)
    requires k in master.columns && k in inc.columns
  {
    Frame(master.columns, master.objectCols, Survivors(master, inc, k))
  }

  /** A merge that succeeds is the concat of the surviving master rows with the increment. */
  lemma MergeIsConcat(master: Frame, inc: Frame, k: string)
    requires WellFormed(master) && WellFormed(inc)
    requires Merge(master, inc, k).Success?
    ensures k in master.columns && k in inc.columns && KeyUnique(master, k) && KeyUnique(inc, k)
    ensures WellFormed(KeptFrame(master, inc, k))
    ensures Concatenated(KeptFrame(master, inc, k), inc, Merge(master, inc, k).value)
    ensures master.columns == inc.columns ==>
              Merge(master, inc, k).value.rows == Survivors(master, inc, k) + inc.rows
  {
  }

  /** The same, as an equation between the two results. */
  lemma MergeIsConcatEq(master: Frame, inc: Frame, k: string)
    requires WellFormed(master) && WellFormed(inc)
    requires Merge(master, inc, k).Success?
    ensures k in master.columns && k in inc.columns
    ensures WellFormed(KeptFrame(master, inc, k))
    ensures Merge(master, inc, k) == Concat(KeptFrame(master, inc, k), inc)
  {
  }

  /** The row-count law: the result has the surviving master rows plus every
      increment row; it is exactly as long as both tables together when no
      master key occurs in the increment. */
  lemma MergeRowCount(master: Frame, inc: Frame, k: string)
    requires WellFormed(master) && WellFormed(inc)
    requires Merge(master, inc, k).Success?
    ensures var r := Merge(master, inc, k).value;
            && |r.rows| == |Survivors(master, inc, k)| + |inc.rows|
            && |r.rows| <= |master.rows| + |inc.rows|
            && (|r.rows| == |master.rows| + |inc.rows| <==>
                  forall i :: 0 <= i < |master.rows| ==>
                    CellAt(master.rows[i], master.columns, k) !in KeySet(inc, k))
  {
    MergeIsConcat(master, inc, k);
    KeptLength(master.rows, master.columns, k, KeySet(inc, k));
  }

  /** The result's labels are the master's labels followed by the increment's new
      ones, and the key is found at the same position as in the master table. */
  lemma MergeColumns(master: Frame, inc: Frame, k: string)
    requires WellFormed(master) && WellFormed(inc)
    requires Merge(master, inc, k).Success?
    ensures var r := Merge(master, inc, k).value;
            && r.columns == JoinedColumns(master.columns, inc.columns)
            && (forall l :: l in r.columns <==> l in master.columns || l in inc.columns)
            && KeyUnique(r, k)
            && FirstPos(r.columns, k) == FirstPos(master.columns, k)
  {
    MergeIsConcat(master, inc, k);
    var r := Merge(master, inc, k).value;
    var extra := NewColumns(master.columns, inc.columns);
    assert r.columns == master.columns + extra;
    assert multiset(r.columns) == multiset(master.columns) + multiset(extra);
    assert k !in extra;
    var p := FirstPos(master.columns, k);
    assert r.columns[..p] == master.columns[..p];
    assert r.columns[p] == k;
  }

  /** Replacement is whole and by key: a row of the result holds a key that
      occurs in the increment exactly when it is one of the appended increment rows. */
  lemma MergeReplacesByKey(master: Frame, inc: Frame, k: string)
    requires WellFormed(master) && WellFormed(inc)
    requires Merge(master, inc, k).Success?
    ensures var r := Merge(master, inc, k).value;
            var s := Survivors(master, inc, k);
            forall i :: 0 <= i < |r.rows| ==>
              (CellAt(r.rows[i], r.columns, k) in KeySet(inc, k) <==> i >= |s|)
  {
    MergeIsConcat(master, inc, k);
    var r := Merge(master, inc, k).value;
    var kept := KeptFrame(master, inc, k);
    var keys := KeySet(inc, k);
    forall j | 0 <= j < |inc.rows| ensures CellAt(inc.rows[j], inc.columns, k) in keys {
    }
    ConcatKeys(kept, inc, r, k, keys);
  }

  /** In a concat result, a row holds a key from `keys` exactly when it came from
      `b`, provided every row of `b` does and no row of `a` does. */
  lemma ConcatKeys(a: Frame, b: Frame, r: Frame, k: string, keys: set<Cell>)
    requires WellFormed(a) && WellFormed(b) && Concatenated(a, b, r)
    requires k in a.columns && k in b.columns
    requires forall i :: 0 <= i < |a.rows| ==> CellAt(a.rows[i], a.columns, k) !in keys
    requires forall j :: 0 <= j < |b.rows| ==> CellAt(b.rows[j], b.columns, k) in keys
    ensures forall i :: 0 <= i < |r.rows| ==> (CellAt(r.rows[i], r.columns, k) in keys <==> i >= |a.rows|)
  {
    assert k in r.columns;
    forall i | 0 <= i < |r.rows|
      ensures CellAt(r.rows[i], r.columns, k) in keys <==> i >= |a.rows|
    {
      if i < |a.rows| {
        AlignedAt(r.rows[i], r.columns, a.rows[i], a.columns, k);
      } else {
        var j := i - |a.rows|;
        assert r.rows[|a.rows| + j] == r.rows[i];
        AlignedAt(r.rows[i], r.columns, b.rows[j], b.columns, k);
      }
    }
  }

  /** The increment rows sit, aligned, after the survivors in a table that
      concatenates the kept master rows with the increment. */
  lemma ConcatenatedSecond(kept: Frame, inc: Frame, r: Frame, n: nat)
    requires WellFormed(kept) && WellFormed(inc) && Concatenated(kept, inc, r) && n == |kept.rows|
    ensures |r.rows| == n + |inc.rows|
    ensures forall i :: 0 <= i < |inc.rows| ==> Aligned(r.rows[n + i], r.columns, inc.rows[i], inc.columns)
  {
  }

  /** Every increment row survives, duplicates included, in order, after the
      surviving master rows, under the same labels. */
  lemma MergeKeepsIncrement(master: Frame, inc: Frame, k: string)
    requires WellFormed(master) && WellFormed(inc)
    requires Merge(master, inc, k).Success?
    ensures var r := Merge(master, inc, k).value;
            var s := Survivors(master, inc, k);
            forall i :: 0 <= i < |inc.rows| ==> Aligned(r.rows[|s| + i], r.columns, inc.rows[i], inc.columns)
  {
    MergeIsConcat(master, inc, k);
    ConcatenatedSecond(KeptFrame(master, inc, k), inc, Merge(master, inc, k).value, |Survivors(master, inc, k)|);
  }

  /** The master rows whose key is not in the increment are kept as they were:
      each as many times as it occurred, in order, at the head of the result. */
  lemma MergeKeepsUnmatched(master: Frame, inc: Frame, k: string)
    requires WellFormed(master) && WellFormed(inc)
    requires Merge(master, inc, k).Success?
    ensures var r := Merge(master, inc, k).value;
            var s := Survivors(master, inc, k);
            && (forall i :: 0 <= i < |master.rows| && CellAt(master.rows[i], master.columns, k) !in KeySet(inc, k) ==>
                  multiset(s)[master.rows[i]] == multiset(master.rows)[master.rows[i]])
            && (forall i :: 0 <= i < |s| ==> Aligned(r.rows[i], r.columns, s[i], master.columns))
  {
    MergeIsConcat(master, inc, k);
    forall i | 0 <= i < |master.rows| {
      KeptCount(master.rows, master.columns, k, KeySet(inc, k), master.rows[i]);
    }
  }

  /** With identical labels the merge is plain stacking. */
  lemma MergeSameColumns(master: Frame, inc: Frame, k: string)
    requires WellFormed(master) && WellFormed(inc)
    requires Merge(master, inc, k).Success? && master.columns == inc.columns
    ensures var r := Merge(master, inc, k).value;
            r.columns == master.columns && r.rows == Survivors(master, inc, k) + inc.rows
  {
    MergeIsConcat(master, inc, k);
    NoNewColumns(master.columns, inc.columns);
    assert master.columns + [] == master.columns;
  }

  /** Concatenating the increment onto the head of a concat result, the
      rows that came from `a`, gives that result back. */
  lemma ConcatAgain(a: Frame, b: Frame)
    requires WellFormed(a) && WellFormed(b)
    requires Concat(a, b).Success?
    ensures var r := Concat(a, b).value;
            Concat(Frame(r.columns, r.objectCols, r.rows[..|a.rows|]), b) == Success(r)
  {
    var u := Concat(a, b).value.columns;
    if a.columns == b.columns {
      ConcatAgainSame(a, b);
    } else if u == b.columns {
      ConcatAgainOnto(a, b);
    } else {
      ConcatAgainUnion(a, b);
    }
  }

  lemma ConcatAgainSame(a: Frame, b: Frame)
    requires WellFormed(a) && WellFormed(b)
    requires a.columns == b.columns
    ensures Concat(a, b).Success?
    ensures var r := Concat(a, b).value;
            Concat(Frame(r.columns, r.objectCols, r.rows[..|a.rows|]), b) == Success(r)
  {
    var r := Concat(a, b).value;
    var n := |a.rows|;
    assert r.rows[..n] == a.rows;
    var c := Concat(Frame(r.columns, r.objectCols, r.rows[..n]), b).value;
    assert c.objectCols == r.objectCols;
  }

  lemma ConcatAgainOnto(a: Frame, b: Frame)
    requires WellFormed(a) && WellFormed(b)
    requires a.columns != b.columns && Unique(a.columns) && Unique(b.columns)
    requires Concat(a, b).value.columns == b.columns
    ensures var r := Concat(a, b).value;
            Concat(Frame(r.columns, r.objectCols, r.rows[..|a.rows|]), b) == Success(r)
  {
    var r := Concat(a, b).value;
    var n := |a.rows|;
    var u := r.columns;
    var head := Frame(u, r.objectCols, r.rows[..n]);
    AlignRowsSelf(b.rows, b.columns);
    assert r.rows[n..] == b.rows;
    assert r.rows == r.rows[..n] + r.rows[n..];
    var c := Concat(head, b).value;
    assert c.rows == r.rows;
    forall p | 0 <= p < |u| ensures c.objectCols[p] == r.objectCols[p] {
      FirstPosUnique(b.columns, p);
    }
    assert c.objectCols == r.objectCols;
  }

  lemma ConcatAgainUnion(a: Frame, b: Frame)
    requires WellFormed(a) && WellFormed(b)
    requires a.columns != b.columns && Unique(a.columns) && Unique(b.columns)
    requires Concat(a, b).value.columns != b.columns
    ensures var r := Concat(a, b).value;
            Concat(Frame(r.columns, r.objectCols, r.rows[..|a.rows|]), b) == Success(r)
  {
    var r := Concat(a, b).value;
    var n := |a.rows|;
    var u := r.columns;
    assert forall c :: c in b.columns ==> c in u;
    assert Unique(u) by {
      UniqueAppend(a.columns, NewColumns(a.columns, b.columns));
    }
    NoNewColumns(u, b.columns);
    assert u + [] == u;
    AlignRowsSelf(r.rows[..n], u);
    assert r.rows[n..] == AlignRows(b.rows, b.columns, u);
    assert r.rows == r.rows[..n] + r.rows[n..];
    FlagsAgainUnion(a, b, u, r.objectCols);
  }

  /** Filtering a merge result by the same increment keeps exactly the surviving master rows. */
  lemma SurvivorsAgain(master: Frame, inc: Frame, k: string)
    requires WellFormed(master) && WellFormed(inc)
    requires Merge(master, inc, k).Success?
    ensures var r := Merge(master, inc, k).value;
            && WellFormed(r) && KeyUnique(r, k)
            && Survivors(r, inc, k) == r.rows[..|Survivors(master, inc, k)|]
  {
    var r := Merge(master, inc, k).value;
    MergeColumns(master, inc, k);
    MergeReplacesByKey(master, inc, k);
    KeptSplit(r.rows, r.columns, k, KeySet(inc, k), |Survivors(master, inc, k)|);
  }

  /** Rows whose keys are outside `keys` up to position `n` and inside it after are filtered to their first `n`. */
  lemma KeptSplit(rows: seq<seq<Cell>>, cols: seq<string>, k: string, keys: set<Cell>, n: nat)
    requires k in cols
    requires forall i :: 0 <= i < |rows| ==> |rows[i]| == |cols|
    requires n <= |rows|
    requires forall i :: 0 <= i < |rows| ==> (CellAt(rows[i], cols, k) in keys <==> i >= n)
    ensures Kept(rows, cols, k, keys) == rows[..n]
  {
    var head := rows[..n];
    var tail := rows[n..];
    assert rows == head + tail;
    assert forall i :: 0 <= i < |head| ==> head[i] == rows[i];
    assert forall i :: 0 <= i < |tail| ==> tail[i] == rows[n + i];
    KeptAppend(head, tail, cols, k, keys);
    KeptAllOrNone(head, cols, k, keys);
    KeptAllOrNone(tail, cols, k, keys);
  }

  /** Merging the same increment again changes nothing: the step is an idempotent upsert. */
  lemma MergeIdempotent(master: Frame, inc: Frame, k: string)
    requires WellFormed(master) && WellFormed(inc)
    requires Merge(master, inc, k).Success?
    ensures var r := Merge(master, inc, k).value;
            Merge(r, inc, k) == Success(r)
  {
    MergeIsConcatEq(master, inc, k);
    SurvivorsAgain(master, inc, k);
    ConcatAgain(KeptFrame(master, inc, k), inc);
  }

  /** The text flags of a second concat onto the joined labels are unchanged. */
  lemma FlagsAgainUnion(a: Frame, b: Frame, u: seq<string>, obj: seq<bool>)
    requires WellFormed(a) && WellFormed(b)
    requires Unique(u) && obj == ObjectFlags(a, b, u)
    requires forall c :: c in b.columns ==> c in u
    ensures ObjectFlags(Frame(u, obj, []), b, u) == obj
  {
    forall p | 0 <= p < |u| ensures ObjectFlags(Frame(u, obj, []), b, u)[p] == obj[p] {
      FirstPosUnique(u, p);
    }
  }

  // The worked example: master {1: A, 2: B}, increment {2: B2, 3: C}.
  const ExampleColumns: seq<string> := ["key", "val"]
  const ExampleMaster: Frame := Frame(ExampleColumns, [false, true], [[Num("1"), Str("A")], [Num("2"), Str("B")]])
  const ExampleIncrement: Frame := Frame(ExampleColumns, [false, true], [[Num("2"), Str("B2")], [Num("3"), Str("C")]])

  lemma ExampleSurvivors()
    ensures Survivors(ExampleMaster, ExampleIncrement, "key") == [[Num("1"), Str("A")]]
  {
    var master := ExampleMaster;
    var inc := ExampleIncrement;
    assert FirstPos(ExampleColumns, "key") == 0;
    assert CellAt(inc.rows[0], ExampleColumns, "key") == Num("2");
    assert CellAt(inc.rows[1], ExampleColumns, "key") == Num("3");
    assert KeySet(inc, "key") == {Num("2"), Num("3")};
    var keys := KeySet(inc, "key");
    assert CellAt(master.rows[0], ExampleColumns, "key") !in keys;
    assert CellAt(master.rows[1], ExampleColumns, "key") in keys;
    assert Kept(master.rows[1..], ExampleColumns, "key", keys) == [];
  }

  /** The worked example gives {1: A, 2: B2, 3: C}: key 2's old row is gone. */
  lemma MergeExample()
    ensures var r := Merge(ExampleMaster, ExampleIncrement, "key");
            && r.Success? && r.value.columns == ExampleColumns
            && r.value.rows == [[Num("1"), Str("A")], [Num("2"), Str("B2")], [Num("3"), Str("C")]]
  {
    assert multiset(ExampleColumns)["key"] == 1;
    ExampleSurvivors();
    MergeSameColumns(ExampleMaster, ExampleIncrement, "key");
  }

  // An increment holding key 5 twice, merged into a master holding keys 5 and 6.
  const DuplicateColumns: seq<string> := ["key"]
  const DuplicateMaster: Frame := Frame(DuplicateColumns, [false], [[Num("5")], [Num("6")]])
  const DuplicateIncrement: Frame := Frame(DuplicateColumns, [false], [[Num("5")], [Num("5")]])

  lemma DuplicateSurvivors()
    ensures Survivors(DuplicateMaster, DuplicateIncrement, "key") == [[Num("6")]]
  {
    var master := DuplicateMaster;
    var inc := DuplicateIncrement;
    assert FirstPos(DuplicateColumns, "key") == 0;
    assert CellAt(inc.rows[0], DuplicateColumns, "key") == Num("5");
    assert CellAt(inc.rows[1], DuplicateColumns, "key") == Num("5");
    assert KeySet(inc, "key") == {Num("5")};
    var keys := KeySet(inc, "key");
    assert CellAt(master.rows[0], DuplicateColumns, "key") in keys;
    assert CellAt(master.rows[1], DuplicateColumns, "key") !in keys;
    assert Kept(master.rows[1..], DuplicateColumns, "key", keys) == [[Num("6")]];
  }

  /** No implicit deduplication: both increment rows with key 5 are in the result. */
  lemma MergeKeepsDuplicateKeys()
    ensures var r := Merge(DuplicateMaster, DuplicateIncrement, "key");
            r.Success? && r.value.rows == [[Num("6")], [Num("5")], [Num("5")]]
  {
    assert multiset(DuplicateColumns)["key"] == 1;
    DuplicateSurvivors();
    MergeSameColumns(DuplicateMaster, DuplicateIncrement, "key");
  }
}
