/**
 * Tables and the passes of the pipeline that rewrite them: folding line
 * breaks out of header names, renaming by the schema, `preprocessed_df`
 * (normalising every text column of a copy) and the boolean mapping of the
 * six flag columns. The passes the source runs in place are methods of the
 * class `DataFrame`, each proved against a function on table values.
 */
module Frames {
  import opened Text
  import opened Schema

  /** One cell of a pandas DataFrame. */
  datatype Cell =
    | Str(s: string)      // a Python string
    | Flag(b: bool)       // a Python bool
    | Num(repr: string)   // a number, by the text `str()` gives it
    | NaN                 // a missing value, what `read_csv` makes of an empty field

  /** `str(val)`. */
  function Repr(c: Cell): string {
    match c
    case Str(s) => s
    case Flag(b) => if b then "True" else "False"
    case Num(r) => r
    case NaN => "nan"
  }

  /** A table value: header labels, which columns have `object` dtype, and the rows. */
  datatype Frame = Frame(columns: seq<string>, objectCols: seq<bool>, rows: seq<seq<Cell>>)

  /** Every row has one cell per column, and every column has a dtype. */
  predicate WellFormed(f: Frame) {
    && |f.objectCols| == |f.columns|
    && forall i :: 0 <= i < |f.rows| ==> |f.rows[i]| == |f.columns|
  }

  /** `DataFrame.shape`. */
  function Shape(f: Frame): (nat, nat) {
    (|f.rows|, |f.columns|)
  }

  // ---------------------------------------------------------------- headers

  /** Every header with `\n` replaced by a space. */
  function FoldHeaders(cols: seq<string>): (r: seq<string>)
    ensures |r| == |cols|
    ensures forall i :: 0 <= i < |r| ==> r[i] == ReplaceNewlines(cols[i])
    ensures forall i :: 0 <= i < |r| ==> '\n' !in r[i] && |r[i]| == |cols[i]|
    ensures forall i :: 0 <= i < |r| && '\n' !in cols[i] ==> r[i] == cols[i]
  {
    forall i | 0 <= i < |cols| && '\n' !in cols[i] ensures ReplaceNewlines(cols[i]) == cols[i] {
      ReplaceNewlinesNoop(cols[i]);
    }
    seq(|cols|, i requires 0 <= i < |cols| => ReplaceNewlines(cols[i]))
  }

  /** The labels after `rename(columns={col: ncol})`: every label `col` becomes `ncol`. */
  function Relabel(cols: seq<string>, col: string, ncol: string): (r: seq<string>)
    ensures |r| == |cols|
    ensures forall k :: 0 <= k < |cols| ==> r[k] == if cols[k] == col then ncol else cols[k]
  {
    seq(|cols|, k requires 0 <= k < |cols| => if cols[k] == col then ncol else cols[k])
  }

  /** The labels `names` once those among `done` have had their line breaks replaced. */
  function FoldedAmong(names: seq<string>, done: seq<string>): (r: seq<string>)
    ensures |r| == |names|
    ensures forall k :: 0 <= k < |names| ==>
              r[k] == if names[k] in done then ReplaceNewlines(names[k]) else names[k]
  {
    seq(|names|, k requires 0 <= k < |names| => if names[k] in done then ReplaceNewlines(names[k]) else names[k])
  }

  /** `names[..i + 1]` holds a label exactly when `names[..i]` does or it is `names[i]`. */
  lemma PrefixGrows(names: seq<string>, i: nat, x: string)
    requires i < |names|
    ensures x in names[..i + 1] <==> x in names[..i] || x == names[i]
  {
    assert names[..i + 1] == names[..i] + [names[i]];
  }

  /** One turn of the header loop for a label holding a line break: renaming it
      adds it to the labels already folded. */
  lemma FoldStepRenamed(names: seq<string>, i: nat)
    requires i < |names| && '\n' in names[i]
    ensures Relabel(FoldedAmong(names, names[..i]), names[i], ReplaceNewlines(names[i]))
            == FoldedAmong(names, names[..i + 1])
  {
    var col := names[i];
    var cur := FoldedAmong(names, names[..i]);
    var next := FoldedAmong(names, names[..i + 1]);
    var r := Relabel(cur, col, ReplaceNewlines(col));
    forall k | 0 <= k < |names| ensures r[k] == next[k] {
      PrefixGrows(names, i, names[k]);
      if names[k] in names[..i] {
        assert cur[k] == ReplaceNewlines(names[k]);
        assert cur[k] != col by { assert '\n' !in cur[k]; }
      } else {
        assert cur[k] == names[k];
      }
    }
  }

  /** One turn of the header loop for a label without a line break: skipping it
      leaves the labels as if it had been folded. */
  lemma FoldStepSkipped(names: seq<string>, i: nat)
    requires i < |names| && '\n' !in names[i]
    ensures FoldedAmong(names, names[..i]) == FoldedAmong(names, names[..i + 1])
  {
    var col := names[i];
    var cur := FoldedAmong(names, names[..i]);
    var next := FoldedAmong(names, names[..i + 1]);
    ReplaceNewlinesNoop(col);
    forall k | 0 <= k < |names| ensures cur[k] == next[k] {
      PrefixGrows(names, i, names[k]);
    }
  }

  /** Before the loop nothing is folded; after it every label is. */
  lemma FoldEnds(names: seq<string>)
    ensures FoldedAmong(names, []) == names
    ensures FoldedAmong(names, names) == FoldHeaders(names)
  {
    assert forall k :: 0 <= k < |names| ==> FoldedAmong(names, [])[k] == names[k];
    assert forall k :: 0 <= k < |names| ==> FoldedAmong(names, names)[k] == FoldHeaders(names)[k];
  }

  /** `rename(columns=mapping)` on a table: new labels, same rows. */
  function RenameFrame(f: Frame, mapping: map<string, string>): (r: Frame)
    ensures r.objectCols == f.objectCols && r.rows == f.rows
    ensures |r.columns| == |f.columns|
    ensures forall j :: 0 <= j < |f.columns| && f.columns[j] in mapping ==> r.columns[j] == mapping[f.columns[j]]
    ensures forall j :: 0 <= j < |f.columns| && f.columns[j] !in mapping ==> r.columns[j] == f.columns[j]
  {
    f.(columns := RenameHeaders(f.columns, mapping))
  }

  // ---------------------------------------------------------------- cells

  /** A rewrite applied to every cell of one column. */
  datatype CellOp = Normalize | MapFlag

  /** `normalize_string(str(c))` as `apply` uses it: the result is always a string,
      empty for the sentinel and otherwise the stripped text of `c` up to case. */
  function NormalizeCell(c: Cell): (r: Cell)
    ensures r.Str? && NoEdgeSpace(r.s) && NoLower(r.s)
    ensures Strip(Repr(c)) == "()" ==> r == Str("")
    ensures Strip(Repr(c)) != "()" ==> SameIgnoringCase(r.s, Strip(Repr(c)))
  {
    Str(NormalizeString(Repr(c)))
  }

  /** `replace({'Y': True, 'YES': True, 'N': False, 'NO': False})` on one cell. */
  function FlagCell(c: Cell): Cell {
    match c
    case Str(v) =>
      if v == "Y" || v == "YES" then Flag(true)
      else if v == "N" || v == "NO" then Flag(false)
      else c
    case _ => c
  }

  function ApplyOp(op: CellOp, c: Cell): Cell {
    match op
    case Normalize => NormalizeCell(c)
    case MapFlag => FlagCell(c)
  }

  /** The rows with column `j` rewritten by `op`. */
  function MapColumn(rows: seq<seq<Cell>>, j: nat, op: CellOp): (r: seq<seq<Cell>>)
    requires forall i :: 0 <= i < |rows| ==> j < |rows[i]|
    ensures |r| == |rows|
    ensures forall i :: 0 <= i < |rows| ==> |r[i]| == |rows[i]|
    ensures forall i, k :: 0 <= i < |rows| && 0 <= k < |rows[i]| ==>
              r[i][k] == if k == j then ApplyOp(op, rows[i][k]) else rows[i][k]
  {
    seq(|rows|, i requires 0 <= i < |rows| => rows[i][j := ApplyOp(op, rows[i][j])])
  }

  /** Every row with the cells of each column `k` that `sel[k]` selects rewritten by `op`. */
  function RewriteWhere(rows: seq<seq<Cell>>, sel: seq<bool>, op: CellOp): (r: seq<seq<Cell>>)
    requires forall i :: 0 <= i < |rows| ==> |rows[i]| == |sel|
    ensures |r| == |rows|
    ensures forall i :: 0 <= i < |r| ==> |r[i]| == |sel|
    ensures forall i, k :: 0 <= i < |rows| && 0 <= k < |sel| ==>
              r[i][k] == if sel[k] then ApplyOp(op, rows[i][k]) else rows[i][k]
  {
    seq(|rows|, i requires 0 <= i < |rows| =>
      seq(|sel|, k requires 0 <= k < |sel| => if sel[k] then ApplyOp(op, rows[i][k]) else rows[i][k]))
  }

  /** The selection `sel` cut down to the columns before `n`. */
  function Before(sel: seq<bool>, n: nat): (r: seq<bool>)
    ensures |r| == |sel|
    ensures forall k :: 0 <= k < |sel| ==> r[k] == (k < n && sel[k])
  {
    seq(|sel|, k requires 0 <= k < |sel| => k < n && sel[k])
  }

  /** The columns whose label is one of `names`. */
  function Labelled(cols: seq<string>, names: seq<string>): (sel: seq<bool>)
    ensures |sel| == |cols|
    ensures forall k :: 0 <= k < |cols| ==> sel[k] == (cols[k] in names)
  {
    seq(|cols|, k requires 0 <= k < |cols| => cols[k] in names)
  }

  /** Selecting no column rewrites nothing. */
  lemma RewriteNone(rows: seq<seq<Cell>>, sel: seq<bool>, op: CellOp)
    requires forall i :: 0 <= i < |rows| ==> |rows[i]| == |sel|
    requires forall k :: 0 <= k < |sel| ==> !sel[k]
    ensures RewriteWhere(rows, sel, op) == rows
  {
    var r := RewriteWhere(rows, sel, op);
    assert forall i :: 0 <= i < |rows| ==> r[i] == rows[i];
  }

  /** Rewriting column `n` after the selected columns before it is rewriting the
      selected columns up to and including `n`; an unselected `n` changes nothing. */
  lemma RewriteStep(rows: seq<seq<Cell>>, sel: seq<bool>, n: nat, op: CellOp)
    requires forall i :: 0 <= i < |rows| ==> |rows[i]| == |sel|
    requires n < |sel|
    ensures sel[n] ==> MapColumn(RewriteWhere(rows, Before(sel, n), op), n, op)
                       == RewriteWhere(rows, Before(sel, n + 1), op)
    ensures !sel[n] ==> Before(sel, n) == Before(sel, n + 1)
  {
    var done := RewriteWhere(rows, Before(sel, n), op);
    var next := RewriteWhere(rows, Before(sel, n + 1), op);
    if sel[n] {
      var m := MapColumn(done, n, op);
      assert forall i :: 0 <= i < |rows| ==> m[i] == next[i];
    } else {
      assert forall k :: 0 <= k < |sel| ==> Before(sel, n)[k] == Before(sel, n + 1)[k];
    }
  }

  /** Mapping the flags of one more label after those of `done` is mapping the flags of
      `done + [col]`: a cell mapped twice is mapped once. */
  lemma FlagsOneMore(rows: seq<seq<Cell>>, cols: seq<string>, done: seq<string>, col: string)
    requires forall i :: 0 <= i < |rows| ==> |rows[i]| == |cols|
    ensures RewriteWhere(RewriteWhere(rows, Labelled(cols, done), MapFlag), Labelled(cols, [col]), MapFlag)
            == RewriteWhere(rows, Labelled(cols, done + [col]), MapFlag)
  {
    var once := RewriteWhere(rows, Labelled(cols, done), MapFlag);
    var twice := RewriteWhere(once, Labelled(cols, [col]), MapFlag);
    var want := RewriteWhere(rows, Labelled(cols, done + [col]), MapFlag);
    forall i | 0 <= i < |rows| ensures twice[i] == want[i] {
      forall k | 0 <= k < |cols| ensures twice[i][k] == want[i][k] {
        assert cols[k] in done + [col] <==> cols[k] in done || cols[k] == col;
      }
    }
  }

  /** `preprocessed_df`: every cell of an `object` column normalised, everything else kept. */
  function Preprocess(f: Frame): (r: Frame)
    requires WellFormed(f)
    ensures WellFormed(r)
    ensures r.columns == f.columns && r.objectCols == f.objectCols && |r.rows| == |f.rows|
  {
    f.(rows := RewriteWhere(f.rows, f.objectCols, Normalize))
  }

  /** After `preprocessed_df` every cell of a text column is the normalised text of
      its own value, so a string with no edge whitespace and no lower-case letter,
      and every other column is as it was. */
  lemma PreprocessNormalizes(f: Frame)
    requires WellFormed(f)
    ensures var r := Preprocess(f);
            forall i, j :: 0 <= i < |f.rows| && 0 <= j < |f.columns| ==>
              if f.objectCols[j] then
                && r.rows[i][j] == NormalizeCell(f.rows[i][j])
                && r.rows[i][j].Str? && NoEdgeSpace(r.rows[i][j].s) && NoLower(r.rows[i][j].s)
              else r.rows[i][j] == f.rows[i][j]
  {
  }

  /** Preprocessing a preprocessed table changes nothing. */
  lemma PreprocessIdempotent(f: Frame)
    requires WellFormed(f)
    ensures Preprocess(Preprocess(f)) == Preprocess(f)
  {
    var r := Preprocess(f);
    var rr := Preprocess(r);
    forall i, j | 0 <= i < |f.rows| && 0 <= j < |f.columns|
      ensures rr.rows[i][j] == r.rows[i][j]
    {
      if f.objectCols[j] {
        NormalizeIdempotent(Repr(f.rows[i][j]));
      }
    }
    assert forall i :: 0 <= i < |f.rows| ==> rr.rows[i] == r.rows[i];
  }

  /** The boolean mapping: every cell of a column whose label is a flag column is mapped. */
  function MapFlags(f: Frame): (r: Frame)
    requires WellFormed(f)
    ensures WellFormed(r)
    ensures r.columns == f.columns && r.objectCols == f.objectCols && |r.rows| == |f.rows|
  {
    f.(rows := RewriteWhere(f.rows, Labelled(f.columns, BoolCols), MapFlag))
  }

  /** The mapping is partial and three-way: in a flag column `Y`/`YES` become true,
      `N`/`NO` become false, and every other cell is left exactly as it was;
      columns outside the six are untouched. */
  lemma MapFlagsCells(f: Frame, i: nat, j: nat)
    requires WellFormed(f) && i < |f.rows| && j < |f.columns|
    ensures var c := f.rows[i][j];
            var r := MapFlags(f).rows[i][j];
            && (f.columns[j] !in BoolCols ==> r == c)
            && (f.columns[j] in BoolCols ==>
                  && (r == Flag(true) <==> c == Str("Y") || c == Str("YES") || c == Flag(true))
                  && (r == Flag(false) <==> c == Str("N") || c == Str("NO") || c == Flag(false))
                  && (!r.Flag? ==> r == c))
  {
  }

  /** Mapping flags twice is mapping them once. */
  lemma MapFlagsIdempotent(f: Frame)
    requires WellFormed(f)
    ensures MapFlags(MapFlags(f)) == MapFlags(f)
  {
    var r := MapFlags(f);
    var rr := MapFlags(r);
    assert forall i :: 0 <= i < |f.rows| ==> rr.rows[i] == r.rows[i];
  }

  /** A text flag cell after normalisation and mapping: true exactly when it
      normalises to `Y` or `YES`, false exactly for `N` or `NO`, and otherwise
      its normalised text. */
  lemma NormalizedFlag(c: Cell)
    ensures var v := NormalizeString(Repr(c));
            var r := FlagCell(NormalizeCell(c));
            && (r == Flag(true) <==> v == "Y" || v == "YES")
            && (r == Flag(false) <==> v == "N" || v == "NO")
            && (!r.Flag? ==> r == Str(v))
  {
  }

  lemma LowerYStrips()
    ensures Strip(" y") == "y"
  {
    var s := " y";
    assert s[1..2] == "y";
    assert SpacesIn(s, 0, 1);
    StripUnique(s, "y", 1);
  }

  lemma LowerYNormalizes()
    ensures NormalizeCell(Str(" y")) == Str("Y")
  {
    LowerYStrips();
    assert Upper("y")[0] == 'Y';
  }


  lemma MaybeUpper()
    ensures Upper("maybe") == "MAYBE"
  {
    var u := Upper("maybe");
    assert u[0] == 'M' && u[1] == 'A' && u[2] == 'Y' && u[3] == 'B' && u[4] == 'E';
  }

  lemma MaybeNormalizes()
    ensures NormalizeCell(Str("maybe")) == Str("MAYBE")
  {
    StripNoEdge("maybe");
    MaybeUpper();
  }


  /** In a flag column, `y` is read as true and `maybe` stays text, as `MAYBE`. */
  lemma FlagExamples()
    ensures FlagCell(NormalizeCell(Str(" y"))) == Flag(true)
    ensures FlagCell(NormalizeCell(Str("maybe"))) == Str("MAYBE")
  {
    LowerYNormalizes();
    MaybeNormalizes();
  }


  // ---------------------------------------------------------------- the in-place passes

  /** A pandas DataFrame object, whose labels and cells the pipeline updates in place. */
  class DataFrame {
    var columns: seq<string>
    var objectCols: seq<bool>
    var rows: seq<seq<Cell>>

    function Value(): Frame
      reads this
    {
      Frame(columns, objectCols, rows)
    }

    constructor (f: Frame)
      ensures Value() == f
    {
      columns := f.columns;
      objectCols := f.objectCols;
      rows := f.rows;
    }

    /** `df.copy()`. */
    method Copy() returns (c: DataFrame)
      ensures fresh(c) && c.Value() == Value()
    {
      c := new DataFrame(Value());
    }

    /** `rename(columns={col: ncol}, inplace=True)`: every column labelled `col` is relabelled. */
    method RenameInPlace(col: string, ncol: string)
      modifies this
      ensures columns == Relabel(old(columns), col, ncol)
      ensures objectCols == old(objectCols) && rows == old(rows)
    {
      columns := Relabel(columns, col, ncol);
    }

    /** The header loop: for each label of `columns.to_list()` that holds a line
        break, rename it to the same text with the line breaks replaced by spaces. */
    method FoldHeaderNames()
      modifies this
      ensures Value() == old(Value()).(columns := FoldHeaders(old(columns)))
    {
      var names := columns;
      FoldEnds(names);
      var i := 0;
      while i < |names|
        invariant 0 <= i <= |names|
        invariant objectCols == old(objectCols) && rows == old(rows)
        invariant columns == FoldedAmong(names, names[..i])
      {
        var col := names[i];
        if '\n' in col {
          FoldStepRenamed(names, i);
          RenameInPlace(col, ReplaceNewlines(col));
        } else {
          FoldStepSkipped(names, i);
        }
        i := i + 1;
      }
      assert names[..i] == names;
    }

    /** `df[col] = df[col].apply(...)` / `df[col].replace(..., inplace=True)` at position `j`. */
    method Rewrite(j: nat, op: CellOp)
      requires forall i :: 0 <= i < |rows| ==> j < |rows[i]|
      modifies this
      ensures rows == MapColumn(old(rows), j, op)
      ensures columns == old(columns) && objectCols == old(objectCols)
    {
      rows := MapColumn(rows, j, op);
    }

    /** Rewrite, column by column, every column that `sel` selects. */
    method RewriteColumns(sel: seq<bool>, op: CellOp)
      requires forall i :: 0 <= i < |rows| ==> |rows[i]| == |sel|
      modifies this
      ensures rows == RewriteWhere(old(rows), sel, op)
      ensures columns == old(columns) && objectCols == old(objectCols)
    {
      ghost var orig := rows;
      RewriteNone(orig, Before(sel, 0), op);
      var j := 0;
      while j < |sel|
        invariant 0 <= j <= |sel|
        invariant columns == old(columns) && objectCols == old(objectCols)
        invariant rows == RewriteWhere(orig, Before(sel, j), op)
        invariant forall i :: 0 <= i < |rows| ==> |rows[i]| == |sel|
      {
        RewriteStep(orig, sel, j, op);
        ghost var next := RewriteWhere(orig, Before(sel, j + 1), op);
        if sel[j] {
          Rewrite(j, op);
          assert rows == next;
        } else {
          assert rows == next;
        }
        j := j + 1;
      }
      assert Before(sel, j) == sel;
    }

    /** The flag loop: for each of the six flag columns that is present, map its values. */
    method ReplaceFlags()
      requires WellFormed(Value())
      modifies this
      ensures Value() == MapFlags(old(Value()))
    {
      ghost var orig := rows;
      RewriteNone(orig, Labelled(columns, []), MapFlag);
      var b := 0;
      while b < |BoolCols|
        invariant 0 <= b <= |BoolCols|
        invariant columns == old(columns) && objectCols == old(objectCols)
        invariant rows == RewriteWhere(orig, Labelled(columns, BoolCols[..b]), MapFlag)
      {
        var col := BoolCols[b];
        FlagsOneMore(orig, columns, BoolCols[..b], col);
        if col in columns {
          RewriteColumns(Labelled(columns, [col]), MapFlag);
        } else {
          RewriteNone(rows, Labelled(columns, [col]), MapFlag);
        }
        assert BoolCols[..b + 1] == BoolCols[..b] + [col];
        b := b + 1;
      }
      assert BoolCols[..b] == BoolCols;
    }
  }

  /** `preprocessed_df`: copy the table, then rewrite each `object` column of the copy.
      The caller's table is left as it was. */
  method PreprocessedDf(df: DataFrame) returns (pre: DataFrame)
    requires WellFormed(df.Value())
    ensures fresh(pre)
    ensures pre.Value() == Preprocess(df.Value())
  {
    pre := df.Copy();
    pre.RewriteColumns(pre.objectCols, Normalize);
  }
}
