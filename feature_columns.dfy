/** The body shared by `add_angle_feature`, `add_dihedral_feature` and
    `add_dst_feature` (the same in src/features/features_extractors.py and
    src/features_extractors.py), and the body of the two fixed-name benzene
    features: name the column, compute it row by row from the `obj`
    column, assign it. The floating-point geometry of ASE and NumPy is not
    modelled; it enters as the functions of a `Geometry` value, and the
    ASE measurements may raise. */
module FeatureColumns {
  import opened Wrappers
  import opened PyErrors
  import opened Atoms
  import opened FeatureId
  import opened Frame

  /** A measurement on one structure at the given (normalised) indices.
      It may raise: ASE's `get_angle` raises `ZeroDivisionError` ("Undefined
      angle") when two of the three atoms share a position. */
  type Measure = (Particle, seq<nat>) -> Result<real, PyError>

  /** A measurement on one structure between two groups of atoms. NumPy
      turns a division by zero into `nan` rather than an exception. */
  type GroupMeasure = (Particle, seq<nat>, seq<nat>) -> real

  /** The geometry the feature code calls: ASE's `get_distance`,
      `get_angle` and `get_dihedral`, and the module's own NumPy helpers
      `get_benzene_dst` (distance of the two groups' centroids) and
      `cos_between_planes` (cosine between the normals of two planes). */
  datatype Geometry = Geometry(
    distance: Measure,
    angle: Measure,
    dihedral: Measure,
    centroidDistance: GroupMeasure,
    planesCos: GroupMeasure)

  const AngleAlias: string := "ang"
  const DihedralAlias: string := "dih"
  const DistanceAlias: string := "dst"

  /** The alias of an index-named feature. */
  predicate IsAlias(alias: string) {
    alias == AngleAlias || alias == DihedralAlias || alias == DistanceAlias
  }

  /** `p.get_angle(idx1, idx2, idx3)` and its kin on one row: `IndexError`
      when an index is out of range for that structure, else whatever the
      measurement gives at the positions the indices address. */
  function MeasureAt(m: Measure, idxs: seq<int>): (f: Particle -> Result<real, PyError>)
    ensures forall p :: !AllValid(p, idxs) ==> f(p) == Failure(IndexError)
    ensures forall p :: AllValid(p, idxs) ==> f(p) == m(p, NormalizeAll(p, idxs))
  {
    (p: Particle) => if AllValid(p, idxs) then m(p, NormalizeAll(p, idxs)) else Failure(IndexError)
  }

  predicate AllAtoms(cells: seq<Cell>) {
    forall i :: 0 <= i < |cells| ==> cells[i].AtomsCell?
  }

  /** Every row holds a structure for which all the indices are in range
      and on which the measurement succeeds. */
  predicate MeasurableRows(cells: seq<Cell>, idxs: seq<int>, m: Measure) {
    forall i :: 0 <= i < |cells| ==>
      cells[i].AtomsCell? && AllValid(cells[i].particle, idxs)
      && m(cells[i].particle, NormalizeAll(cells[i].particle, idxs)).Success?
  }

  /** Some row's structure has all the indices in range and the
      measurement on it raises `e`. */
  predicate MeasureRaises(cells: seq<Cell>, idxs: seq<int>, m: Measure, e: PyError) {
    exists i :: 0 <= i < |cells| && cells[i].AtomsCell? && AllValid(cells[i].particle, idxs)
                && m(cells[i].particle, NormalizeAll(cells[i].particle, idxs)) == Failure(e)
  }

  /** On a column of structures, the first failing row fails either on an
      index or inside the measurement. */
  lemma FirstMeasureFailure(cells: seq<Cell>, idxs: seq<int>, m: Measure, e: PyError)
    requires FirstFailure(cells, MeasureAt(m, idxs), e)
    ensures AllAtoms(cells) ==> e == IndexError || MeasureRaises(cells, idxs, m, e)
  {
    var i :| 0 <= i < |cells| && ApplyCell(cells[i], MeasureAt(m, idxs)) == Failure(e)
             && forall j :: 0 <= j < i ==> ApplyCell(cells[j], MeasureAt(m, idxs)).Success?;
    if AllAtoms(cells) && AllValid(cells[i].particle, idxs) {
      assert m(cells[i].particle, NormalizeAll(cells[i].particle, idxs)) == Failure(e);
    }
  }

  lemma MeasurableRowsApply(cells: seq<Cell>, idxs: seq<int>, m: Measure)
    ensures MeasurableRows(cells, idxs, m) <==> forall i :: 0 <= i < |cells| ==> ApplyCell(cells[i], MeasureAt(m, idxs)).Success?
  {
  }

  /** What `add_{angle,dihedral,dst}_feature` does to the table after its
      input check: the column is named `alias` + the id of the indices in
      the structure at row label 0, and row `i` of it is the measurement on
      row `i`'s structure. The first row that cannot be measured decides
      the exception. */
  function IndexedFeature(t: Table, alias: string, idxs: seq<int>, m: Measure): (r: Result<Table, PyError>)
    requires WellFormed(t)
    ensures r.Success? <==> RowZeroParticle(t).Success? && MeasurableRows(t.data["obj"], idxs, m)
    ensures RowZeroParticle(t).Failure? ==> r == Failure(RowZeroParticle(t).error)
    ensures r.Failure? && RowZeroParticle(t).Success? && !AllValid(RowZeroParticle(t).value, idxs) ==>
      r.error == IndexError
    ensures r.Failure? && RowZeroParticle(t).Success? && AllValid(RowZeroParticle(t).value, idxs) ==>
      FirstFailure(t.data["obj"], MeasureAt(m, idxs), r.error)
    ensures r.Failure? && RowZeroParticle(t).Success? && AllAtoms(t.data["obj"]) ==>
      r.error == IndexError || MeasureRaises(t.data["obj"], idxs, m, r.error)
    ensures r.Success? ==> WellFormed(r.value)
    ensures r.Success? ==>
      var name := FeatureName(alias, RowZeroParticle(t).value, idxs).value;
      && name in r.value.data
      && SetsOneColumn(t, r.value, name, r.value.data[name])
      && forall i :: 0 <= i < |t.index| ==>
           r.value.data[name][i] == FloatCell(m(t.data["obj"][i].particle, NormalizeAll(t.data["obj"][i].particle, idxs)).value)
  {
    match RowZeroParticle(t)
    case Failure(e) => Failure(e)
    case Success(p) =>
      MeasurableRowsApply(t.data["obj"], idxs, m);
      match FeatureName(alias, p, idxs)
      case Failure(e) => Failure(e)
      case Success(name) =>
        match ApplyRows(t.data["obj"], MeasureAt(m, idxs))
        case Failure(e) =>
          FirstMeasureFailure(t.data["obj"], idxs, m, e);
          Failure(e)
        case Success(values) => Success(SetColumn(t, name, values))
  }

  /** What `add_benzene_dst_feature` and `add_benzene_cossq_feature` do
      after their input check: the column `name` gets `f` of every row's
      structure. */
  function FixedFeature(t: Table, name: string, f: Particle -> Result<real, PyError>): (r: Result<Table, PyError>)
    requires WellFormed(t) && "obj" in t.data
    ensures r.Success? <==> forall i :: 0 <= i < |t.index| ==> ApplyCell(t.data["obj"][i], f).Success?
    ensures r.Failure? ==> FirstFailure(t.data["obj"], f, r.error)
    ensures r.Success? ==> WellFormed(r.value)
    ensures r.Success? ==>
      && name in r.value.data
      && SetsOneColumn(t, r.value, name, r.value.data[name])
      && forall i :: 0 <= i < |t.index| ==> ApplyCell(t.data["obj"][i], f) == Success(r.value.data[name][i])
  {
    var values :- ApplyRows(t.data["obj"], f);
    Success(SetColumn(t, name, values))
  }

  /** How a table-changing call ends: on success the table holds the
      computed value, on an exception it is left exactly as it was. */
  predicate Committed(spec: Result<Table, PyError>, before: Option<Table>, after: Option<Table>, r: Outcome<PyError>) {
    match spec
    case Success(t) => r == Pass && after == Some(t)
    case Failure(e) => r == Fail(e) && after == before
  }

  /** The shared body of the index-named features, in place. */
  method InsertIndexedFeature(df: DataFrame, alias: string, idxs: seq<int>, m: Measure) returns (r: Outcome<PyError>)
    requires df.Valid()
    modifies df
    ensures df.Valid()
    ensures Committed(IndexedFeature(old(df.Value()), alias, idxs, m), old(ArgValue(df)), ArgValue(df), r)
  {
    var particle := RowZeroParticle(df.Value());
    if particle.Failure? {
      return Fail(particle.error);
    }
    var name := FeatureName(alias, particle.value, idxs);
    if name.Failure? {
      return Fail(name.error);
    }
    var values := ApplyRows(df.data["obj"], MeasureAt(m, idxs));
    if values.Failure? {
      return Fail(values.error);
    }
    df.SetItem(name.value, values.value);
    r := Pass;
  }

  /** The shared body of the fixed-name features, in place. */
  method InsertFixedFeature(df: DataFrame, name: string, f: Particle -> Result<real, PyError>) returns (r: Outcome<PyError>)
    requires df.Valid() && "obj" in df.data
    modifies df
    ensures df.Valid()
    ensures Committed(FixedFeature(old(df.Value()), name, f), old(ArgValue(df)), ArgValue(df), r)
  {
    var values := ApplyRows(df.data["obj"], f);
    if values.Failure? {
      return Fail(values.error);
    }
    df.SetItem(name, values.value);
    r := Pass;
  }

  /** A name built from one of the three aliases never names the `obj`
      column, so adding such a feature never replaces the structures. */
  lemma AliasedNameIsNotObj(alias: string, p: Particle, idxs: seq<int>)
    requires IsAlias(alias) && FeatureName(alias, p, idxs).Success?
    ensures FeatureName(alias, p, idxs).value != "obj"
  {
    var name := FeatureName(alias, p, idxs).value;
    assert |alias| == 3 && name[..3] == alias;
    assert "obj"[..3] == "obj" != alias;
  }

  /** Adding the same index-named feature again recomputes the same column
      under the same name and overwrites it: the table does not change. */
  lemma IndexedFeatureIdempotent(t: Table, alias: string, idxs: seq<int>, m: Measure)
    requires WellFormed(t) && IsAlias(alias)
    requires IndexedFeature(t, alias, idxs, m).Success?
    ensures IndexedFeature(IndexedFeature(t, alias, idxs, m).value, alias, idxs, m) == IndexedFeature(t, alias, idxs, m)
  {
    var t1 := IndexedFeature(t, alias, idxs, m).value;
    var p := RowZeroParticle(t).value;
    var name := FeatureName(alias, p, idxs).value;
    AliasedNameIsNotObj(alias, p, idxs);
    assert t1.data["obj"] == t.data["obj"];
    assert RowZeroParticle(t1) == RowZeroParticle(t);
    var values := ApplyRows(t.data["obj"], MeasureAt(m, idxs)).value;
    assert t1 == SetColumn(t, name, values);
    SetColumnTwice(t, name, values, values);
  }

  /** Likewise for a fixed-name feature computed from other columns than
      its own. */
  lemma FixedFeatureIdempotent(t: Table, name: string, f: Particle -> Result<real, PyError>)
    requires WellFormed(t) && "obj" in t.data && name != "obj"
    requires FixedFeature(t, name, f).Success?
    ensures FixedFeature(FixedFeature(t, name, f).value, name, f) == FixedFeature(t, name, f)
  {
    var t1 := FixedFeature(t, name, f).value;
    var values := ApplyRows(t.data["obj"], f).value;
    assert t1 == SetColumn(t, name, values);
    SetColumnTwice(t, name, values, values);
  }
}
