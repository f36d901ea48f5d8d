/** Tables in the shape pandas gives them to the transformers: an ordered list of
    column labels, one column of cells per label, and the row index. A `DataFrame`
    object holds such a table and is updated in place, as a pandas frame is. */
module Frames {

  datatype Option<T> = None | Some(value: T)

  /** One cell: a string or a number (pandas dtypes are not modelled). */
  datatype Cell = Text(s: string) | Num(x: real)

  /** A column label. `Dummy(f, c)` is the label scikit-learn's OneHotEncoder
      spells "<f>_<c>"; it is kept structured so that its parts can be read back. */
  datatype Name = Field(key: string) | Dummy(feature: Name, category: Cell)

  /** The exceptions the transformers can raise. */
  datatype Error =
    | MissingColumns          // pandas KeyError when selecting X[features]
    | NotFitted               // transform on a transformer whose estimator was never fitted
    | NotNumeric              // MinMaxScaler given a string cell
    | EmptyInput              // a scikit-learn estimator given a frame with no rows
    | NoFeatures              // MinMaxScaler.fit given a frame with no columns
    | MixedTypes(column: Name) // sorting a column that holds both strings and numbers
    | UnseenLabel(column: Name) // LabelEncoder.transform meets a value it was not fitted on

  datatype Result<T> = Ok(value: T) | Err(error: Error)

  datatype Table = Table(columns: seq<Name>, cells: map<Name, seq<Cell>>, index: seq<int>)

  predicate Distinct<T(==)>(s: seq<T>) {
    forall i, j :: 0 <= i < j < |s| ==> s[i] != s[j]
  }

  /** Labels are unique, every label has a column, every column has one cell per row. */
  ghost predicate WellFormed(t: Table) {
    && Distinct(t.columns)
    && (forall n :: n in t.cells <==> n in t.columns)
    && (forall n :: n in t.cells ==> |t.cells[n]| == |t.index|)
  }

  /** `set(names).issubset(X.columns)` */
  predicate Has(t: Table, names: seq<Name>): (b: bool)
    ensures b <==> (set n | n in names) <= (set n | n in t.columns)
  {
    var mine, theirs := set m | m in names, set m | m in t.columns;
    assert forall n :: n in mine <==> n in names;
    assert forall n :: n in theirs <==> n in t.columns;
    forall n :: n in names ==> n in t.columns
  }

  /** `X[name] = col`: overwrites an existing column in place, or appends a new one last. */
  function Assigned(t: Table, name: Name, col: seq<Cell>): (r: Table)
    requires WellFormed(t) && |col| == |t.index|
    ensures WellFormed(r) && r.index == t.index && name in r.cells && r.cells[name] == col
    ensures forall n :: n in r.columns <==> n in t.columns || n == name
    ensures forall n :: n in t.cells && n != name ==> r.cells[n] == t.cells[n]
  {
    Table(if name in t.columns then t.columns else t.columns + [name], t.cells[name := col], t.index)
  }

  /** `X[names] = values` for labels that are all present: only those columns change. */
  function Overwritten(t: Table, m: map<Name, seq<Cell>>): (r: Table)
    requires WellFormed(t)
    requires forall n :: n in m ==> n in t.cells && |m[n]| == |t.index|
    ensures WellFormed(r) && r.columns == t.columns && r.index == t.index
    ensures forall n :: n in t.cells && n !in m ==> r.cells[n] == t.cells[n]
    ensures forall n :: n in m ==> r.cells[n] == m[n]
  {
    Table(t.columns, t.cells + m, t.index)
  }

  /** The labels of `cols` that are not in `names`, in their original relative order. */
  function Without(cols: seq<Name>, names: seq<Name>): (r: seq<Name>)
    ensures |r| <= |cols|
  {
    if cols == [] then []
    else if cols[0] in names then Without(cols[1..], names)
    else [cols[0]] + Without(cols[1..], names)
  }

  /** The kept labels are exactly those of `cols` that are not in `names`. */
  lemma {:induction false} WithoutMembers(cols: seq<Name>, names: seq<Name>)
    ensures forall n :: n in Without(cols, names) <==> n in cols && n !in names
  {
    if cols != [] {
      WithoutMembers(cols[1..], names);
      assert cols == [cols[0]] + cols[1..];
    }
  }

  /** Dropping labels from a list without repeats leaves a list without repeats. */
  lemma {:induction false} WithoutDistinct(cols: seq<Name>, names: seq<Name>)
    requires Distinct(cols)
    ensures Distinct(Without(cols, names))
  {
    if cols != [] {
      var tail := cols[1..];
      assert Distinct(tail) by {
        forall i, j | 0 <= i < j < |tail| ensures tail[i] != tail[j] {
          assert tail[i] == cols[i + 1] && tail[j] == cols[j + 1];
        }
      }
      WithoutDistinct(tail, names);
      if cols[0] !in names {
        WithoutMembers(tail, names);
        assert cols[0] !in tail;
        DistinctAppend([cols[0]], Without(tail, names));
      }
    }
  }

  /** Where the i-th kept label sits in `cols`. */
  function KeptPosition(cols: seq<Name>, names: seq<Name>, i: int): (p: nat)
    requires 0 <= i < |Without(cols, names)|
    ensures p < |cols| && cols[p] == Without(cols, names)[i]
  {
    if cols[0] in names then 1 + KeptPosition(cols[1..], names, i)
    else if i == 0 then 0
    else 1 + KeptPosition(cols[1..], names, i - 1)
  }

  /** The kept labels appear in the same relative order as in `cols`. */
  lemma {:induction false} WithoutKeepsOrder(cols: seq<Name>, names: seq<Name>, i: int, j: int)
    requires 0 <= i < j < |Without(cols, names)|
    ensures KeptPosition(cols, names, i) < KeptPosition(cols, names, j)
  {
    var tail := cols[1..];
    if cols[0] in names {
      WithoutKeepsOrder(tail, names, i, j);
    } else if i > 0 {
      assert |Without(cols, names)| == |Without(tail, names)| + 1;
      WithoutKeepsOrder(tail, names, i - 1, j - 1);
    }
  }

  /** `X.drop(names, axis=1)` for labels that are all present. */
  function Dropped(t: Table, names: seq<Name>): (r: Table)
    requires WellFormed(t) && Has(t, names)
    ensures WellFormed(r) && r.index == t.index
    ensures forall n :: n in r.cells <==> n in t.cells && n !in names
    ensures forall n :: n in r.cells ==> r.cells[n] == t.cells[n]
  {
    WithoutMembers(t.columns, names);
    WithoutDistinct(t.columns, names);
    Table(Without(t.columns, names), t.cells - (set n | n in names), t.index)
  }

  /** `pd.concat([a, b], axis=1)` of two tables on the same index with no shared label. */
  function Concat(a: Table, b: Table): (r: Table)
    requires WellFormed(a) && WellFormed(b) && a.index == b.index
    requires forall n :: n in a.columns ==> n !in b.columns
    ensures WellFormed(r) && r.index == a.index
    ensures forall n :: n in r.cells <==> n in a.cells || n in b.cells
    ensures forall n :: n in a.cells ==> r.cells[n] == a.cells[n]
    ensures forall n :: n in b.cells ==> r.cells[n] == b.cells[n]
  {
    DistinctAppend(a.columns, b.columns);
    Table(a.columns + b.columns, a.cells + b.cells, a.index)
  }

  lemma DistinctAppend<T>(a: seq<T>, b: seq<T>)
    requires Distinct(a) && Distinct(b)
    requires forall x :: x in a ==> x !in b
    ensures Distinct(a + b)
  {
    forall i, j | 0 <= i < j < |a + b|
      ensures (a + b)[i] != (a + b)[j]
    {
      if i < |a| && j >= |a| {
        assert (a + b)[i] in a && (a + b)[j] in b;
      }
    }
  }

  /** A pandas DataFrame object: its fields change in place. */
  class DataFrame {
    var columns: seq<Name>
    var cells: map<Name, seq<Cell>>
    var index: seq<int>

    function View(): Table
      reads this
    {
      Table(columns, cells, index)
    }

    ghost predicate Valid()
      reads this
    {
      WellFormed(View())
    }

    /** `pd.DataFrame(...)` */
    constructor (t: Table)
      requires WellFormed(t)
      ensures Valid() && View() == t
    {
      columns, cells, index := t.columns, t.cells, t.index;
    }

    /** `X.copy()`: a new object with the same contents. */
    method Copy() returns (r: DataFrame)
      requires Valid()
      ensures fresh(r) && r.Valid() && r.View() == View()
    {
      r := new DataFrame(View());
    }

    /** `X[name] = col` */
    method Assign(name: Name, col: seq<Cell>)
      requires Valid() && |col| == |index|
      modifies this
      ensures Valid() && View() == Assigned(old(View()), name, col)
    {
      if name !in columns {
        columns := columns + [name];
      }
      cells := cells[name := col];
    }

    /** `X[names] = values` */
    method Overwrite(m: map<Name, seq<Cell>>)
      requires Valid()
      requires forall n :: n in m ==> n in cells && |m[n]| == |index|
      modifies this
      ensures Valid() && View() == Overwritten(old(View()), m)
    {
      cells := cells + m;
    }

    /** `X.drop(names, axis=1)`: a new frame; this one is left as it was. */
    method Drop(names: seq<Name>) returns (r: DataFrame)
      requires Valid() && Has(View(), names)
      ensures fresh(r) && r.Valid() && r.View() == Dropped(View(), names)
    {
      r := new DataFrame(Dropped(View(), names));
    }
  }

  /** `pd.concat([a, b], axis=1)` */
  method ConcatColumns(a: DataFrame, b: DataFrame) returns (r: DataFrame)
    requires a.Valid() && b.Valid() && a.index == b.index
    requires forall n :: n in a.columns ==> n !in b.columns
    ensures fresh(r) && r.Valid() && r.View() == Concat(a.View(), b.View())
  {
    r := new DataFrame(Concat(a.View(), b.View()));
  }
}
