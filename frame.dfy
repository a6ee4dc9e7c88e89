/** The part of a pandas DataFrame the feature code uses: integer row labels,
    named columns in insertion order, and the column assignment
    `df[name] = values` that changes it in place. */
module Frame {
  import opened Wrappers
  import opened PyErrors
  import opened Atoms

  /** A table cell: an ASE `Atoms` object, a float, or anything else. */
  datatype Cell = AtomsCell(particle: Particle) | FloatCell(value: real) | OtherCell

  /** A DataFrame as a value: row labels, column names, and each column's
      cells by row position. */
  datatype Table = Table(index: seq<int>, columns: seq<string>, data: map<string, seq<Cell>>)

  /** Column names are unique, name exactly the stored columns, and every
      column has one cell per row. */
  predicate WellFormed(t: Table) {
    && (forall i, j :: 0 <= i < j < |t.columns| ==> t.columns[i] != t.columns[j])
    && (forall c :: c in t.data ==> c in t.columns)
    && (forall i :: 0 <= i < |t.columns| ==> t.columns[i] in t.data)
    && (forall c :: c in t.data ==> |t.data[c]| == |t.index|)
  }

  /** `after` is `before` with exactly the column `name` set to `values`:
      same rows, every other column untouched, an existing column keeps its
      place and a new one goes last. */
  predicate SetsOneColumn(before: Table, after: Table, name: string, values: seq<Cell>) {
    && after.index == before.index
    && after.data.Keys == before.data.Keys + {name}
    && after.data[name] == values
    && (forall c :: c in before.data && c != name ==> after.data[c] == before.data[c])
    && after.columns == if name in before.data then before.columns else before.columns + [name]
  }

  /** `df[name] = values` for a column aligned with the table's rows. */
  function SetColumn(t: Table, name: string, values: seq<Cell>): (r: Table)
    requires WellFormed(t) && |values| == |t.index|
    ensures WellFormed(r)
    ensures SetsOneColumn(t, r, name, values)
  {
    var r := Table(t.index, if name in t.data then t.columns else t.columns + [name], t.data[name := values]);
    SetColumnWellFormed(t, r, name, values);
    r
  }

  lemma SetColumnWellFormed(t: Table, r: Table, name: string, values: seq<Cell>)
    requires WellFormed(t) && |values| == |t.index|
    requires r == Table(t.index, if name in t.data then t.columns else t.columns + [name], t.data[name := values])
    ensures WellFormed(r)
  {
    if name !in t.data {
      assert name !in t.columns;
      forall i, j | 0 <= i < j < |r.columns|
        ensures r.columns[i] != r.columns[j]
      {
        if j == |t.columns| {
          assert r.columns[i] == t.columns[i];
        }
      }
    }
  }

  /** Setting the same column twice leaves what the second write wrote:
      the second assignment overwrites, it adds no column. */
  lemma SetColumnTwice(t: Table, name: string, v1: seq<Cell>, v2: seq<Cell>)
    requires WellFormed(t) && |v1| == |t.index| && |v2| == |t.index|
    ensures SetColumn(SetColumn(t, name, v1), name, v2) == SetColumn(t, name, v2)
  {
    var t1 := SetColumn(t, name, v1);
    assert t1.data[name := v2] == t.data[name := v2];
  }

  /** One row of `df["obj"].apply(f)`: `f` on the row's `Atoms` object; any
      other cell has no such method and raises `AttributeError`. */
  function ApplyCell(c: Cell, f: Particle -> Result<real, PyError>): (r: Result<Cell, PyError>)
    ensures r.Success? <==> c.AtomsCell? && f(c.particle).Success?
    ensures r.Success? ==> r.value == FloatCell(f(c.particle).value)
    ensures r.Failure? ==> r.error == if c.AtomsCell? then f(c.particle).error else AttributeError
  {
    match c
    case AtomsCell(p) => (var x :- f(p); Success(FloatCell(x)))
    case _ => Failure(AttributeError)
  }

  /** Row `i` is the first row on which `f` raises, and it raises `e`. */
  predicate FirstFailure(cells: seq<Cell>, f: Particle -> Result<real, PyError>, e: PyError) {
    exists i :: 0 <= i < |cells| && ApplyCell(cells[i], f) == Failure(e)
                && forall j :: 0 <= j < i ==> ApplyCell(cells[j], f).Success?
  }

  lemma FirstFailureCons(cells: seq<Cell>, f: Particle -> Result<real, PyError>, e: PyError)
    requires cells != [] && ApplyCell(cells[0], f).Success?
    requires FirstFailure(cells[1..], f, e)
    ensures FirstFailure(cells, f, e)
  {
    var i :| 0 <= i < |cells[1..]| && ApplyCell(cells[1..][i], f) == Failure(e)
             && forall j :: 0 <= j < i ==> ApplyCell(cells[1..][j], f).Success?;
    assert forall j :: 1 <= j < i + 1 ==> cells[j] == cells[1..][j - 1];
  }

  /** `Series.apply(f)`: every row in order; the first row that raises
      decides the exception and no column comes out. */
  function ApplyRows(cells: seq<Cell>, f: Particle -> Result<real, PyError>): (r: Result<seq<Cell>, PyError>)
    ensures r.Success? <==> forall i :: 0 <= i < |cells| ==> ApplyCell(cells[i], f).Success?
    ensures r.Success? ==> |r.value| == |cells|
    ensures r.Success? ==> forall i :: 0 <= i < |cells| ==> ApplyCell(cells[i], f) == Success(r.value[i])
    ensures r.Failure? ==> FirstFailure(cells, f, r.error)
  {
    if cells == [] then Success([])
    else
      match ApplyCell(cells[0], f)
      case Failure(e) => Failure(e)
      case Success(first) =>
        match ApplyRows(cells[1..], f)
        case Failure(e) =>
          FirstFailureCons(cells, f, e);
          Failure(e)
        case Success(rest) => Success([first] + rest)
  }

  /** Position of the first occurrence of `x` in `s`. */
  function PositionOf(s: seq<int>, x: int): (k: nat)
    requires x in s
    ensures k < |s| && s[k] == x
    ensures forall j :: 0 <= j < k ==> s[j] != x
  {
    if s[0] == x then 0 else 1 + PositionOf(s[1..], x)
  }

  /** `df.loc[0, "obj"]` used as an `Atoms` object. A missing `obj` column
      or row label 0 raises `KeyError`. A label 0 held by several rows
      makes pandas return a Series, and a cell that is not an `Atoms`
      object lacks `get_chemical_symbols`: both end in `AttributeError`. */
  function RowZeroParticle(t: Table): (r: Result<Particle, PyError>)
    requires WellFormed(t)
    ensures r.Success? <==>
      "obj" in t.data && multiset(t.index)[0] == 1 && t.data["obj"][PositionOf(t.index, 0)].AtomsCell?
    ensures r.Success? ==> r.value == t.data["obj"][PositionOf(t.index, 0)].particle
    ensures r.Failure? ==> (r.error == KeyError <==> "obj" !in t.data || 0 !in t.index)
    ensures r.Failure? ==> r.error == KeyError || r.error == AttributeError
  {
    if "obj" !in t.data || 0 !in t.index then Failure(KeyError)
    else if multiset(t.index)[0] > 1 then Failure(AttributeError)
    else match t.data["obj"][PositionOf(t.index, 0)]
      case AtomsCell(p) => Success(p)
      case _ => Failure(AttributeError)
  }

  /** A pandas DataFrame, changed in place by column assignment. */
  class DataFrame {
    var index: seq<int>
    var columns: seq<string>
    var data: map<string, seq<Cell>>

    function Value(): Table
      reads this
    {
      Table(index, columns, data)
    }

    predicate Valid()
      reads this
    {
      WellFormed(Value())
    }

    constructor (t: Table)
      requires WellFormed(t)
      ensures Valid() && Value() == t
    {
      index, columns, data := t.index, t.columns, t.data;
    }

    /** `df[name] = values`. */
    method SetItem(name: string, values: seq<Cell>)
      requires Valid() && |values| == |index|
      modifies this
      ensures Valid() && Value() == SetColumn(old(Value()), name, values)
    {
      if name !in data {
        columns := columns + [name];
      }
      data := data[name := values];
    }
  }

  /** The value a function receives as its `df` argument: a DataFrame's
      contents, or `None` when the argument is not a DataFrame. */
  function ArgValue(df: DataFrame?): Option<Table>
    reads df
  {
    if df == null then None else Some(df.Value())
  }
}
