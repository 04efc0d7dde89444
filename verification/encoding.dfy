/**
  The feature-encoding pipeline shared by the prediction endpoint and the
  standalone form: drop the label column from the persisted column list,
  one-hot expand the record, add the expected columns that are missing,
  project onto the expected columns in their order, and rescale the four
  numeric columns in place.

  A one-row data frame is a map from column name to value; the raw record is
  the list of (field name, cell) pairs the frame is built from.
*/
module Encoding {
  import opened Wrappers

  /** A cell of the raw one-row frame: a number, a string, or an absent value. */
  datatype Cell = Number(x: real) | Text(s: string) | Missing

  /** One named field of the raw record. */
  datatype Field = Field(name: string, cell: Cell)

  /** The label column that the persisted column list still contains. */
  const Label: string := "churn"

  /** The numeric columns, in the order the scaler was fitted on. */
  const NumCols: seq<string> := ["seniorcitizen", "tenure", "monthlycharges", "totalcharges"]

  // ---------------------------------------------------------------------------
  // The expected column list
  // ---------------------------------------------------------------------------

  /** The persisted column list without its label entries. */
  function DropLabel(columns: seq<string>): (kept: seq<string>)
    ensures Label !in kept
    ensures forall c :: c in columns && c != Label ==> c in kept
    ensures forall c :: c in kept ==> c in columns
    ensures |kept| <= |columns|
  {
    if columns == [] then []
    else (if columns[0] == Label then [] else [columns[0]]) + DropLabel(columns[1..])
  }

  /** Filtering distributes over concatenation. */
  lemma {:induction false} DropLabelAppend(a: seq<string>, b: seq<string>)
    ensures DropLabel(a + b) == DropLabel(a) + DropLabel(b)
  {
    if a == [] {
      assert a + b == b;
    } else {
      assert (a + b)[0] == a[0];
      assert (a + b)[1..] == a[1..] + b;
      DropLabelAppend(a[1..], b);
    }
  }

  /** A kept entry lands at the position given by the number of entries kept before it. */
  lemma DropLabelAt(columns: seq<string>, i: nat)
    requires i < |columns| && columns[i] != Label
    ensures |DropLabel(columns[..i])| < |DropLabel(columns)|
    ensures DropLabel(columns)[|DropLabel(columns[..i])|] == columns[i]
  {
    assert columns == columns[..i] + columns[i..];
    DropLabelAppend(columns[..i], columns[i..]);
    assert columns[i..][0] == columns[i];
  }

  /**
    Filtering keeps the relative order of the entries it keeps: the i-th and
    j-th entries (i < j) land at increasing positions of the result.
  */
  lemma DropLabelKeepsOrder(columns: seq<string>, i: nat, j: nat)
    requires i < j < |columns|
    requires columns[i] != Label && columns[j] != Label
    ensures var p, q := |DropLabel(columns[..i])|, |DropLabel(columns[..j])|;
      p < q < |DropLabel(columns)| &&
      DropLabel(columns)[p] == columns[i] && DropLabel(columns)[q] == columns[j]
  {
    DropLabelAt(columns, i);
    DropLabelAt(columns, j);
    var prefix := columns[..j];
    assert prefix == columns[..i] + prefix[i..];
    DropLabelAppend(columns[..i], prefix[i..]);
    assert prefix[i..][0] == columns[i];
  }

  // ---------------------------------------------------------------------------
  // One-hot expansion
  // ---------------------------------------------------------------------------

  /** The name of the indicator column for a field value: prefix, '_', value. */
  function DummyName(field: string, value: string): string
  {
    field + "_" + value
  }

  /** For prefixes without '_', the indicator name determines the field and the value. */
  lemma DummyNameInjective(f1: string, v1: string, f2: string, v2: string)
    requires '_' !in f1 && '_' !in f2
    requires DummyName(f1, v1) == DummyName(f2, v2)
    ensures f1 == f2 && v1 == v2
  {
    var s := DummyName(f1, v1);
    assert s[|f1|] == '_';
    assert s == DummyName(f2, v2) && s[|f2|] == '_';
    assert |f1| == |f2|;
    assert f1 == s[..|f1|] && f2 == s[..|f2|];
    assert v1 == s[|f1| + 1..] && v2 == s[|f2| + 1..];
  }

  /** An indicator name always contains '_'. */
  lemma DummyNameHasUnderscore(field: string, value: string)
    ensures '_' in DummyName(field, value)
  {
    assert DummyName(field, value)[|field|] == '_';
  }

  /** No numeric column name contains '_', so no indicator column is numeric. */
  lemma DummyNameNotNumeric(field: string, value: string)
    ensures DummyName(field, value) !in NumCols
  {
    DummyNameHasUnderscore(field, value);
    assert forall k :: 0 <= k < |NumCols| ==> '_' !in NumCols[k];
  }

  /** The column a field contributes to the expanded frame, if any. */
  function ColumnOf(f: Field): Option<string>
  {
    match f.cell
    case Number(_) => Some(f.name)
    case Text(v) => Some(DummyName(f.name, v))
    case Missing => None
  }

  /** The value of that column: the number itself, or 1 for an indicator. */
  function ValueOf(f: Field): real
  {
    match f.cell
    case Number(x) => x
    case Text(_) => 1.0
    case Missing => 0.0
  }

  /** What the frame built from the record needs: distinct field names without '_'. */
  ghost predicate WellFormed(rec: seq<Field>)
  {
    && (forall i :: 0 <= i < |rec| ==> '_' !in rec[i].name)
    && (forall i, j :: 0 <= i < j < |rec| ==> rec[i].name != rec[j].name)
  }

  /** Two differently named fields of a well-formed record never produce the same column. */
  lemma ColumnsDistinct(f: Field, g: Field)
    requires '_' !in f.name && '_' !in g.name && f.name != g.name
    requires ColumnOf(f).Some? && ColumnOf(g).Some?
    ensures ColumnOf(f) != ColumnOf(g)
  {
    match f.cell
    case Number(_) =>
      match g.cell {
        case Number(_) =>
        case Text(w) => DummyNameHasUnderscore(g.name, w);
      }
    case Text(v) =>
      match g.cell {
        case Number(_) => DummyNameHasUnderscore(f.name, v);
        case Text(w) =>
          if DummyName(f.name, v) == DummyName(g.name, w) {
            DummyNameInjective(f.name, v, g.name, w);
          }
      }
  }

  /**
    The one-hot expansion of a one-row frame: numeric fields pass through
    under their own name, a string field f with value v becomes column f_v
    set to 1, and an absent value produces no column.
  */
  function GetDummies(rec: seq<Field>): (df: map<string, real>)
    ensures forall i :: 0 <= i < |rec| && ColumnOf(rec[i]).Some? ==> ColumnOf(rec[i]).value in df
    ensures forall c :: c in df ==> exists i :: 0 <= i < |rec| && ColumnOf(rec[i]) == Some(c)
  {
    if rec == [] then map[]
    else
      var rest := GetDummies(rec[1..]);
      assert forall i :: 1 <= i < |rec| ==> rec[i] == rec[1..][i - 1];
      match ColumnOf(rec[0])
      case Some(c) => rest[c := ValueOf(rec[0])]
      case None => rest
  }

  /** In a well-formed record, each produced column holds its field's value. */
  lemma {:induction false} GetDummiesValue(rec: seq<Field>, i: nat)
    requires WellFormed(rec)
    requires i < |rec| && ColumnOf(rec[i]).Some?
    ensures GetDummies(rec)[ColumnOf(rec[i]).value] == ValueOf(rec[i])
  {
    if i > 0 {
      var tail := rec[1..];
      assert tail[i - 1] == rec[i];
      assert WellFormed(tail) by {
        forall a, b | 0 <= a < b < |tail| ensures tail[a].name != tail[b].name {
          assert tail[a] == rec[a + 1] && tail[b] == rec[b + 1];
        }
      }
      GetDummiesValue(tail, i - 1);
      if ColumnOf(rec[0]).Some? {
        ColumnsDistinct(rec[0], rec[i]);
      }
    }
  }

  /** A column name an indicator can never collide with. */
  lemma DummyNotFromNumber(rec: seq<Field>, k: nat, w: string, j: nat)
    requires WellFormed(rec) && k < |rec| && j < |rec|
    requires ColumnOf(rec[j]) == Some(DummyName(rec[k].name, w))
    ensures j == k && rec[k].cell == Text(w)
  {
    match rec[j].cell
    case Number(_) =>
      DummyNameHasUnderscore(rec[k].name, w);
      assert false;
    case Text(u) =>
      DummyNameInjective(rec[j].name, u, rec[k].name, w);
  }

  // ---------------------------------------------------------------------------
  // Reconciliation against the expected columns
  // ---------------------------------------------------------------------------

  /**
    The "add missing columns" loop: every expected column that the frame lacks
    is added with value 0; columns the frame already has keep their value.
  */
  method AddMissingColumns(df: map<string, real>, columns: seq<string>) returns (out: map<string, real>)
    ensures forall c :: c in df ==> c in out && out[c] == df[c]
    ensures forall c :: c in columns ==> c in out
    ensures forall c :: c in out && c !in df ==> c in columns && out[c] == 0.0
    ensures (forall c :: c in columns ==> c in df) ==> out == df
  {
    out := df;
    for i := 0 to |columns|
      invariant forall c :: c in df ==> c in out && out[c] == df[c]
      invariant forall c :: c in columns[..i] ==> c in out
      invariant forall c :: c in out && c !in df ==> c in columns[..i] && out[c] == 0.0
      invariant (forall c :: c in columns ==> c in df) ==> out == df
    {
      assert columns[..i + 1] == columns[..i] + [columns[i]];
      if columns[i] !in out {
        out := out[columns[i] := 0.0];
      }
    }
    assert columns[..|columns|] == columns;
  }

  /** The frame restricted to the expected columns, in their order. */
  function Project(df: map<string, real>, columns: seq<string>): seq<real>
    requires forall c :: c in columns ==> c in df
  {
    seq(|columns|, i requires 0 <= i < |columns| => df[columns[i]])
  }

  // ---------------------------------------------------------------------------
  // Scaling of the numeric columns
  // ---------------------------------------------------------------------------

  /** A fitted per-column affine transform of the numeric columns: x * factor + shift. */
  datatype Scaler = Scaler(factor: seq<real>, shift: seq<real>) {

    /** The scaler was fitted on exactly the four numeric columns. */
    predicate Fits()
    {
      |factor| == |NumCols| && |shift| == |NumCols|
    }

    function Apply(k: nat, x: real): real
      requires Fits() && k < |NumCols|
    {
      x * factor[k] + shift[k]
    }
  }

  /** The position of a numeric column in the scaler's column order. */
  function NumIndex(c: string): (k: nat)
    requires c in NumCols
    ensures k < |NumCols| && NumCols[k] == c
  {
    if c == NumCols[0] then 0
    else if c == NumCols[1] then 1
    else if c == NumCols[2] then 2
    else 3
  }

  /**
    What selecting the numeric columns by name needs: each of them is an
    expected column, and none of them is expected twice.
  */
  ghost predicate HasNumericColumns(columns: seq<string>)
  {
    && (forall k :: 0 <= k < |NumCols| ==> NumCols[k] in columns)
    && (forall i, j :: 0 <= i < j < |columns| && columns[i] in NumCols ==> columns[i] != columns[j])
  }

  /** A row whose numeric positions are rescaled and whose other positions are kept. */
  function Scaled(columns: seq<string>, scaler: Scaler, row: seq<real>): seq<real>
    requires |row| == |columns| && scaler.Fits()
  {
    seq(|row|, i requires 0 <= i < |row| =>
      if columns[i] in NumCols then scaler.Apply(NumIndex(columns[i]), row[i]) else row[i])
  }

  /** The first position of an expected column. */
  function IndexOf(columns: seq<string>, c: string): (i: nat)
    requires c in columns
    ensures i < |columns| && columns[i] == c
  {
    if columns[0] == c then 0 else 1 + IndexOf(columns[1..], c)
  }

  /**
    The in-place rescaling of the numeric slice of the reordered row: for each
    numeric column, find its position and replace the value by the scaler's
    transform of it.
  */
  method ScaleNumeric(a: array<real>, columns: seq<string>, scaler: Scaler)
    requires a.Length == |columns| && scaler.Fits() && HasNumericColumns(columns)
    modifies a
    ensures a[..] == Scaled(columns, scaler, old(a[..]))
  {
    for k := 0 to |NumCols|
      invariant forall i :: 0 <= i < a.Length ==>
        a[i] == if columns[i] in NumCols && NumIndex(columns[i]) < k
                then scaler.Apply(NumIndex(columns[i]), old(a[i])) else old(a[i])
    {
      var p := IndexOf(columns, NumCols[k]);
      assert NumIndex(columns[p]) == k;
      forall i | 0 <= i < a.Length && i != p && columns[i] in NumCols
        ensures NumIndex(columns[i]) != k
      {
        if i < p {} else {}
      }
      a[p] := scaler.Apply(k, a[p]);
    }
  }

  // ---------------------------------------------------------------------------
  // The encoded row
  // ---------------------------------------------------------------------------

  /**
    The value an expected column receives: the frame's value (0 when the frame
    lacks the column), rescaled when the column is numeric.
  */
  function ColumnValue(scaler: Scaler, df: map<string, real>, c: string): real
    requires scaler.Fits()
  {
    var raw := if c in df then df[c] else 0.0;
    if c in NumCols then scaler.Apply(NumIndex(c), raw) else raw
  }

  /** The model input for a frame: one value per expected column, in their order. */
  function Encoded(columns: seq<string>, scaler: Scaler, df: map<string, real>): seq<real>
    requires scaler.Fits()
  {
    seq(|columns|, i requires 0 <= i < |columns| => ColumnValue(scaler, df, columns[i]))
  }

  /**
    The whole encoding of one record: expand, add the missing expected columns,
    reorder, rescale the numeric slice. Entry i of the row is the value of
    expected column i and of nothing else.
  */
  method EncodeRow(rec: seq<Field>, columns: seq<string>, scaler: Scaler) returns (row: seq<real>)
    requires scaler.Fits() && HasNumericColumns(columns)
    ensures |row| == |columns|
    ensures forall i :: 0 <= i < |columns| ==> row[i] == ColumnValue(scaler, GetDummies(rec), columns[i])
    ensures row == Encoded(columns, scaler, GetDummies(rec))
  {
    var expanded := GetDummies(rec);
    var df := AddMissingColumns(expanded, columns);
    var reordered := Project(df, columns);
    var a := new real[|reordered|](i requires 0 <= i < |reordered| => reordered[i]);
    assert a[..] == reordered;
    ScaleNumeric(a, columns, scaler);
    row := a[..];
    assert forall i :: 0 <= i < |columns| ==>
      reordered[i] == if columns[i] in expanded then expanded[columns[i]] else 0.0;
  }

  // ---------------------------------------------------------------------------
  // What the encoding promises
  // ---------------------------------------------------------------------------

  /**
    Position i of the encoded row of a well-formed record, when column i is an
    indicator f_w of field f, is 1 exactly when f holds the string w, and 0
    otherwise: 0 when f is absent, 0 when f holds another value.
  */
  lemma OneHotAt(rec: seq<Field>, k: nat, columns: seq<string>, scaler: Scaler, i: nat, w: string)
    requires WellFormed(rec) && k < |rec|
    requires scaler.Fits() && i < |columns|
    requires columns[i] == DummyName(rec[k].name, w)
    ensures Encoded(columns, scaler, GetDummies(rec))[i] == if rec[k].cell == Text(w) then 1.0 else 0.0
  {
    DummyNameNotNumeric(rec[k].name, w);
    DummyPresent(rec, k, w);
    if rec[k].cell == Text(w) {
      GetDummiesValue(rec, k);
    }
  }

  /**
    The expansion of a well-formed record has the indicator column f_w of its
    field f exactly when f holds the string w: one indicator per present
    field, none for an absent one.
  */
  lemma DummyPresent(rec: seq<Field>, k: nat, w: string)
    requires WellFormed(rec) && k < |rec|
    ensures DummyName(rec[k].name, w) in GetDummies(rec) <==> rec[k].cell == Text(w)
  {
    var d := DummyName(rec[k].name, w);
    if d in GetDummies(rec) {
      var j :| 0 <= j < |rec| && ColumnOf(rec[j]) == Some(d);
      DummyNotFromNumber(rec, k, w, j);
    }
  }

  /**
    Position i of the encoded row, when column i is the numeric field named
    by rec[k], holds the scaler's transform of that field's raw number.
  */
  lemma NumericAt(rec: seq<Field>, k: nat, columns: seq<string>, scaler: Scaler, i: nat)
    requires WellFormed(rec) && k < |rec| && rec[k].cell.Number?
    requires scaler.Fits() && i < |columns|
    requires columns[i] == rec[k].name && rec[k].name in NumCols
    ensures Encoded(columns, scaler, GetDummies(rec))[i]
         == scaler.Apply(NumIndex(rec[k].name), rec[k].cell.x)
  {
    GetDummiesValue(rec, k);
  }

  /**
    When every numeric field of the record is one of the four numeric columns,
    every other position of the encoded row is an unscaled 0 or 1.
  */
  lemma OnlyNumericScaled(rec: seq<Field>, columns: seq<string>, scaler: Scaler, i: nat)
    requires WellFormed(rec)
    requires forall j :: 0 <= j < |rec| && rec[j].cell.Number? ==> rec[j].name in NumCols
    requires scaler.Fits() && i < |columns| && columns[i] !in NumCols
    ensures Encoded(columns, scaler, GetDummies(rec))[i] == 0.0
         || Encoded(columns, scaler, GetDummies(rec))[i] == 1.0
  {
    var c := columns[i];
    var df := GetDummies(rec);
    assert Encoded(columns, scaler, df)[i] == ColumnValue(scaler, df, c);
    assert ColumnValue(scaler, df, c) == if c in df then df[c] else 0.0;
    if c in df {
      FrameIndicator(rec, c);
    }
  }

  /** A non-numeric column of the expansion is an indicator holding 1. */
  lemma FrameIndicator(rec: seq<Field>, c: string)
    requires WellFormed(rec)
    requires forall j :: 0 <= j < |rec| && rec[j].cell.Number? ==> rec[j].name in NumCols
    requires c !in NumCols && c in GetDummies(rec)
    ensures GetDummies(rec)[c] == 1.0
  {
    var j :| 0 <= j < |rec| && ColumnOf(rec[j]) == Some(c);
    GetDummiesValue(rec, j);
  }

  /**
    A string value whose indicator column is not expected leaves the encoded
    row exactly as if the field were absent: the unseen category is absorbed
    without an error.
  */
  lemma UnseenValueActsAbsent(rec: seq<Field>, k: nat, columns: seq<string>, scaler: Scaler)
    requires WellFormed(rec) && k < |rec| && rec[k].cell.Text?
    requires DummyName(rec[k].name, rec[k].cell.s) !in columns
    requires scaler.Fits()
    ensures Encoded(columns, scaler, GetDummies(rec))
         == Encoded(columns, scaler, GetDummies(rec[k := Field(rec[k].name, Missing)]))
  {
    var rec' := rec[k := Field(rec[k].name, Missing)];
    var df, df' := GetDummies(rec), GetDummies(rec');
    forall c | c in columns
      ensures ColumnValue(scaler, df, c) == ColumnValue(scaler, df', c)
    {
      ClearedFieldAgrees(rec, k, c);
    }
    var e, e' := Encoded(columns, scaler, df), Encoded(columns, scaler, df');
    assert forall i :: 0 <= i < |columns| ==> e[i] == ColumnValue(scaler, df, columns[i]) == e'[i];
  }

  /** Clearing field k changes the frame only at the column that field produced. */
  lemma ClearedFieldAgrees(rec: seq<Field>, k: nat, c: string)
    requires WellFormed(rec) && k < |rec| && ColumnOf(rec[k]) != Some(c)
    ensures var rec' := rec[k := Field(rec[k].name, Missing)];
      && (c in GetDummies(rec) <==> c in GetDummies(rec'))
      && (c in GetDummies(rec) ==> GetDummies(rec)[c] == GetDummies(rec')[c])
  {
    var rec' := rec[k := Field(rec[k].name, Missing)];
    assert WellFormed(rec');
    var df, df' := GetDummies(rec), GetDummies(rec');
    if c in df {
      var j :| 0 <= j < |rec| && ColumnOf(rec[j]) == Some(c);
      assert rec'[j] == rec[j];
      GetDummiesValue(rec, j);
      GetDummiesValue(rec', j);
    }
    if c in df' {
      var j :| 0 <= j < |rec'| && ColumnOf(rec'[j]) == Some(c);
      assert rec'[j] == rec[j];
    }
  }

  // ---------------------------------------------------------------------------
  // The loaded artifacts and the classifier
  // ---------------------------------------------------------------------------

  /** A two-class probability row: [P(stays), P(churns)]. */
  predicate IsDistribution(p: seq<real>)
  {
    |p| == 2 && 0.0 <= p[0] && 0.0 <= p[1] && p[0] + p[1] == 1.0
  }

  /** The classifier's contract: every input row gets a two-class distribution. */
  ghost predicate Probabilistic(model: seq<real> -> seq<real>)
  {
    forall row :: IsDistribution(model(row))
  }

  /**
    The artifacts loaded once at start-up: the expected columns (label already
    dropped), the fitted scaler, and the classifier's probability function on
    one row.
  */
  datatype Artifacts = Artifacts(columns: seq<string>, scaler: Scaler, model: seq<real> -> seq<real>) {

    /**
      The artifacts agree with each other as the pipeline needs: the label is
      no longer an expected column, the scaler fits the numeric columns, each
      of which is expected once, and the classifier yields distributions.
    */
    ghost predicate Ready()
    {
      Label !in columns && scaler.Fits() && HasNumericColumns(columns) && Probabilistic(model)
    }
  }

  /** The start-up load: the persisted columns are filtered of the label. */
  function Load(storedColumns: seq<string>, scaler: Scaler, model: seq<real> -> seq<real>): (a: Artifacts)
    ensures Label !in a.columns
    ensures forall c :: c in storedColumns && c != Label ==> c in a.columns
    ensures forall c :: c in a.columns ==> c in storedColumns
  {
    Artifacts(DropLabel(storedColumns), scaler, model)
  }

  /**
    Loading is what makes artifacts ready: once the label is filtered out, a
    fitted scaler, a filtered list that names each numeric column once and a
    probabilistic classifier are all the handlers need.
  */
  lemma LoadReady(storedColumns: seq<string>, scaler: Scaler, model: seq<real> -> seq<real>)
    requires scaler.Fits() && HasNumericColumns(DropLabel(storedColumns)) && Probabilistic(model)
    ensures Load(storedColumns, scaler, model).Ready()
    ensures Load(storedColumns, scaler, model).columns == DropLabel(storedColumns)
  {
  }

  /** The positive-class probability for one encoded row: column 1 of the model's output. */
  function ChurnProbability(model: seq<real> -> seq<real>, row: seq<real>): (p: real)
    requires Probabilistic(model)
    ensures 0.0 <= p <= 1.0
    ensures p == 1.0 - model(row)[0]
  {
    assert IsDistribution(model(row));
    model(row)[1]
  }
}
