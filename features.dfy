/** src/features/features_extractors.py: the validated feature adders. Each
    `add_*_feature` is decorated with `assert_proper_input("df", __check_df)`,
    so the `df` argument is checked before the body runs and a failed check
    leaves the table untouched. */
module Features {
  import opened Wrappers
  import opened PyErrors
  import opened Decimal
  import opened Atoms
  import opened FeatureId
  import opened Frame
  import opened FeatureColumns

  const NotDataFrameMessage: string := "df should be pandas DataFrame object."
  const NoObjColumnMessage: string := "df not contain 'obj' column."
  const EmptyObjColumnMessage: string := "'obj' column need at least one element but it is empty"
  const NotAtomsMessage: string := "Elements of 'obj' column should be ase.atoms.Atoms type"

  const BenzeneDstName: string := "benzene_dst"
  const BenzeneCossqName: string := "benzene_cossq"

  /** A table the feature adders accept: an `obj` column with at least one
      row, every cell of it an `Atoms` object. */
  predicate IsFeatureTable(t: Table) {
    "obj" in t.data && |t.index| >= 1 && AllAtoms(t.data["obj"])
  }

  /** `__check_df`: four guards in order, each failing with its own
      `ValueError`. `None` stands for an argument that is not a DataFrame. */
  function CheckDf(arg: Option<Table>): (r: Outcome<PyError>)
    requires arg.Some? ==> WellFormed(arg.value)
    ensures r.Pass? <==> arg.Some? && IsFeatureTable(arg.value)
    ensures r.Fail? ==> r.error.IsValueError()
    ensures arg.None? ==> r == Fail(ValueError(NotDataFrameMessage))
    ensures arg.Some? && "obj" !in arg.value.data ==> r == Fail(ValueError(NoObjColumnMessage))
    ensures arg.Some? && "obj" in arg.value.data && |arg.value.index| == 0 ==> r == Fail(ValueError(EmptyObjColumnMessage))
    ensures arg.Some? && "obj" in arg.value.data && |arg.value.index| >= 1 && !AllAtoms(arg.value.data["obj"]) ==>
      r == Fail(ValueError(NotAtomsMessage))
  {
    if arg.None? then Fail(ValueError(NotDataFrameMessage))
    else if "obj" !in arg.value.data then Fail(ValueError(NoObjColumnMessage))
    else if |arg.value.data["obj"]| < 1 then Fail(ValueError(EmptyObjColumnMessage))
    else if !AllAtoms(arg.value.data["obj"]) then Fail(ValueError(NotAtomsMessage))
    else Pass
  }

  /** A decorated index-named adder: `__check_df`, then the shared body. */
  function CheckedIndexedFeature(arg: Option<Table>, alias: string, idxs: seq<int>, m: Measure): (r: Result<Table, PyError>)
    requires IsAlias(alias)
    requires arg.Some? ==> WellFormed(arg.value)
    ensures CheckDf(arg).Fail? ==> r == Failure(CheckDf(arg).error)
    ensures r.Success? ==> IsFeatureTable(arg.value) && IsFeatureTable(r.value)
    ensures r.Failure? && arg.Some? && IsFeatureTable(arg.value) ==>
      r.error == IndexError || r.error == KeyError || r.error == AttributeError
      || MeasureRaises(arg.value.data["obj"], idxs, m, r.error)
    ensures arg.Some? && IsFeatureTable(arg.value) ==> r == IndexedFeature(arg.value, alias, idxs, m)
  {
    match CheckDf(arg)
    case Fail(e) => Failure(e)
    case Pass =>
      var r := IndexedFeature(arg.value, alias, idxs, m);
      if r.Success? then
        AliasedNameIsNotObj(alias, RowZeroParticle(arg.value).value, idxs);
        r
      else r
  }

  /** A decorated fixed-name adder: `__check_df`, then the shared body. */
  function CheckedFixedFeature(arg: Option<Table>, name: string, f: Particle -> Result<real, PyError>): (r: Result<Table, PyError>)
    requires arg.Some? ==> WellFormed(arg.value)
    ensures CheckDf(arg).Fail? ==> r == Failure(CheckDf(arg).error)
    ensures r.Success? ==> IsFeatureTable(arg.value) && (name != "obj" ==> IsFeatureTable(r.value))
    ensures r.Failure? && CheckDf(arg).Pass? ==> FirstFailure(arg.value.data["obj"], f, r.error)
    ensures arg.Some? && IsFeatureTable(arg.value) ==> r == FixedFeature(arg.value, name, f)
  {
    match CheckDf(arg)
    case Fail(e) => Failure(e)
    case Pass => FixedFeature(arg.value, name, f)
  }

  /** `get_benzene_dst` on one row: NumPy's fancy indexing raises
      `IndexError` for an index out of range in either group; otherwise the
      distance between the centroids of the two groups. */
  function BenzeneDstAt(g: GroupMeasure, benzene1: seq<int>, benzene2: seq<int>): (f: Particle -> Result<real, PyError>)
    ensures forall p :: f(p).Success? <==> AllValid(p, benzene1) && AllValid(p, benzene2)
    ensures forall p :: f(p).Failure? ==> f(p).error == IndexError
    ensures forall p :: f(p).Success? ==> f(p).value == g(p, NormalizeAll(p, benzene1), NormalizeAll(p, benzene2))
  {
    (p: Particle) =>
      if AllValid(p, benzene1) && AllValid(p, benzene2)
      then Success(g(p, NormalizeAll(p, benzene1), NormalizeAll(p, benzene2)))
      else Failure(IndexError)
  }

  /** `cos_between_planes(p, plane1, plane2)**2` on one row. Each plane is
      unpacked into exactly three indices (`ValueError` otherwise) and then
      indexed (`IndexError`), the first plane before the second. The square
      is never negative. */
  function BenzeneCossqAt(g: GroupMeasure, plane1: seq<int>, plane2: seq<int>): (f: Particle -> Result<real, PyError>)
    ensures forall p :: f(p).Success? <==> |plane1| == 3 && |plane2| == 3 && AllValid(p, plane1) && AllValid(p, plane2)
    ensures |plane1| != 3 ==> forall p :: f(p) == Failure(ValueError(UnpackMessage(|plane1|)))
    ensures |plane1| == 3 ==> forall p :: !AllValid(p, plane1) ==> f(p) == Failure(IndexError)
    ensures |plane1| == 3 && |plane2| != 3 ==>
      forall p :: AllValid(p, plane1) ==> f(p) == Failure(ValueError(UnpackMessage(|plane2|)))
    ensures |plane1| == 3 && |plane2| == 3 ==>
      forall p :: AllValid(p, plane1) && !AllValid(p, plane2) ==> f(p) == Failure(IndexError)
    ensures forall p :: f(p).Success? ==>
      var c := g(p, NormalizeAll(p, plane1), NormalizeAll(p, plane2));
      f(p).value == c * c && f(p).value >= 0.0
  {
    (p: Particle) =>
      if |plane1| != 3 then Failure(ValueError(UnpackMessage(|plane1|)))
      else if !AllValid(p, plane1) then Failure(IndexError)
      else if |plane2| != 3 then Failure(ValueError(UnpackMessage(|plane2|)))
      else if !AllValid(p, plane2) then Failure(IndexError)
      else
        var c := g(p, NormalizeAll(p, plane1), NormalizeAll(p, plane2));
        Success(c * c)
  }

  const NotEnoughValuesMessage: string := "not enough values to unpack (expected 3, got "
  const TooManyValuesMessage: string := "too many values to unpack (expected 3)"

  /** Python 3.12's message for unpacking a list of `n` values into three
      names. A short list's message ends with the number of values it had,
      in decimal, before the closing parenthesis. */
  function UnpackMessage(n: nat): (msg: string)
    requires n != 3
    ensures n < 3 ==>
      && |NotEnoughValuesMessage| < |msg| && msg[..|NotEnoughValuesMessage|] == NotEnoughValuesMessage
      && msg[|msg| - 1] == ')' && AllDigits(msg[|NotEnoughValuesMessage|..|msg| - 1])
      && DecimalValue(msg[|NotEnoughValuesMessage|..|msg| - 1]) == n
    ensures n > 3 ==> msg == TooManyValuesMessage
  {
    if n < 3 then
      var msg := NotEnoughValuesMessage + NatToDecimal(n) + ")";
      assert msg[|NotEnoughValuesMessage|..|msg| - 1] == NatToDecimal(n);
      DecimalRoundTrip(n);
      msg
    else TooManyValuesMessage
  }

  method AddAngleFeature(df: DataFrame?, idx1: int, idx2: int, idx3: int, geom: Geometry) returns (r: Outcome<PyError>)
    requires df != null ==> df.Valid()
    modifies df
    ensures df != null ==> df.Valid()
    ensures Committed(CheckedIndexedFeature(old(ArgValue(df)), AngleAlias, [idx1, idx2, idx3], geom.angle),
                      old(ArgValue(df)), ArgValue(df), r)
  {
    r := CheckDf(ArgValue(df));
    if r.Pass? {
      r := InsertIndexedFeature(df, AngleAlias, [idx1, idx2, idx3], geom.angle);
    }
  }

  method AddDihedralFeature(df: DataFrame?, idx1: int, idx2: int, idx3: int, idx4: int, geom: Geometry) returns (r: Outcome<PyError>)
    requires df != null ==> df.Valid()
    modifies df
    ensures df != null ==> df.Valid()
    ensures Committed(CheckedIndexedFeature(old(ArgValue(df)), DihedralAlias, [idx1, idx2, idx3, idx4], geom.dihedral),
                      old(ArgValue(df)), ArgValue(df), r)
  {
    r := CheckDf(ArgValue(df));
    if r.Pass? {
      r := InsertIndexedFeature(df, DihedralAlias, [idx1, idx2, idx3, idx4], geom.dihedral);
    }
  }

  method AddDstFeature(df: DataFrame?, idx1: int, idx2: int, geom: Geometry) returns (r: Outcome<PyError>)
    requires df != null ==> df.Valid()
    modifies df
    ensures df != null ==> df.Valid()
    ensures Committed(CheckedIndexedFeature(old(ArgValue(df)), DistanceAlias, [idx1, idx2], geom.distance),
                      old(ArgValue(df)), ArgValue(df), r)
  {
    r := CheckDf(ArgValue(df));
    if r.Pass? {
      r := InsertIndexedFeature(df, DistanceAlias, [idx1, idx2], geom.distance);
    }
  }

  method AddBenzeneDstFeature(df: DataFrame?, benzene1: seq<int>, benzene2: seq<int>, geom: Geometry) returns (r: Outcome<PyError>)
    requires df != null ==> df.Valid()
    modifies df
    ensures df != null ==> df.Valid()
    ensures Committed(CheckedFixedFeature(old(ArgValue(df)), BenzeneDstName, BenzeneDstAt(geom.centroidDistance, benzene1, benzene2)),
                      old(ArgValue(df)), ArgValue(df), r)
  {
    r := CheckDf(ArgValue(df));
    if r.Pass? {
      r := InsertFixedFeature(df, BenzeneDstName, BenzeneDstAt(geom.centroidDistance, benzene1, benzene2));
    }
  }

  method AddBenzeneCossqFeature(df: DataFrame?, plane1: seq<int>, plane2: seq<int>, geom: Geometry) returns (r: Outcome<PyError>)
    requires df != null ==> df.Valid()
    modifies df
    ensures df != null ==> df.Valid()
    ensures Committed(CheckedFixedFeature(old(ArgValue(df)), BenzeneCossqName, BenzeneCossqAt(geom.planesCos, plane1, plane2)),
                      old(ArgValue(df)), ArgValue(df), r)
  {
    r := CheckDf(ArgValue(df));
    if r.Pass? {
      r := InsertFixedFeature(df, BenzeneCossqName, BenzeneCossqAt(geom.planesCos, plane1, plane2));
    }
  }

  /** A second identical `add_{angle,dihedral,dst}_feature` call passes the
      check again and overwrites the column with the same values: the
      table is as after the first call. */
  lemma CheckedIndexedFeatureTwice(t: Table, alias: string, idxs: seq<int>, m: Measure)
    requires WellFormed(t) && IsAlias(alias)
    requires CheckedIndexedFeature(Some(t), alias, idxs, m).Success?
    ensures var t1 := CheckedIndexedFeature(Some(t), alias, idxs, m).value;
            WellFormed(t1) && CheckedIndexedFeature(Some(t1), alias, idxs, m) == Success(t1)
  {
    IndexedFeatureIdempotent(t, alias, idxs, m);
  }

  /** Calling `add_benzene_dst_feature` or `add_benzene_cossq_feature` a
      second time writes the same fixed name again: no column is added and
      the table is as after the first call. */
  lemma CheckedFixedFeatureTwice(t: Table, name: string, f: Particle -> Result<real, PyError>)
    requires WellFormed(t) && name in {BenzeneDstName, BenzeneCossqName}
    requires CheckedFixedFeature(Some(t), name, f).Success?
    ensures var t1 := CheckedFixedFeature(Some(t), name, f).value;
            && WellFormed(t1)
            && t1.columns == (if name in t.data then t.columns else t.columns + [name])
            && CheckedFixedFeature(Some(t1), name, f) == Success(t1)
  {
    FixedFeatureIdempotent(t, name, f);
  }
}
