/** src/features_extractors.py: the older feature adders, with the same
    body as the validated ones but no input check. A bad table fails only
    where the body first touches it, still before any column is written. */
module LegacyFeatures {
  import opened Wrappers
  import opened PyErrors
  import opened Frame
  import opened FeatureColumns

  /** An unchecked adder: a table is handed straight to the body; any
      other argument fails at `df.loc[0, "obj"]`, collapsed here to
      `AttributeError`. */
  function UncheckedIndexedFeature(arg: Option<Table>, alias: string, idxs: seq<int>, m: Measure): (r: Result<Table, PyError>)
    requires arg.Some? ==> WellFormed(arg.value)
    ensures arg.None? ==> r == Failure(AttributeError)
    ensures arg.Some? && "obj" !in arg.value.data ==> r == Failure(KeyError)
    ensures arg.Some? && 0 !in arg.value.index ==> r == Failure(KeyError)
    ensures r.Success? ==> "obj" in arg.value.data && 0 in arg.value.index
    ensures arg.Some? ==> r == IndexedFeature(arg.value, alias, idxs, m)
  {
    if arg.None? then Failure(AttributeError) else IndexedFeature(arg.value, alias, idxs, m)
  }

  method AddAngleFeature(df: DataFrame?, idx1: int, idx2: int, idx3: int, geom: Geometry) returns (r: Outcome<PyError>)
    requires df != null ==> df.Valid()
    modifies df
    ensures df != null ==> df.Valid()
    ensures Committed(UncheckedIndexedFeature(old(ArgValue(df)), AngleAlias, [idx1, idx2, idx3], geom.angle),
                      old(ArgValue(df)), ArgValue(df), r)
  {
    if df == null {
      return Fail(AttributeError);
    }
    r := InsertIndexedFeature(df, AngleAlias, [idx1, idx2, idx3], geom.angle);
  }

  method AddDihedralFeature(df: DataFrame?, idx1: int, idx2: int, idx3: int, idx4: int, geom: Geometry) returns (r: Outcome<PyError>)
    requires df != null ==> df.Valid()
    modifies df
    ensures df != null ==> df.Valid()
    ensures Committed(UncheckedIndexedFeature(old(ArgValue(df)), DihedralAlias, [idx1, idx2, idx3, idx4], geom.dihedral),
                      old(ArgValue(df)), ArgValue(df), r)
  {
    if df == null {
      return Fail(AttributeError);
    }
    r := InsertIndexedFeature(df, DihedralAlias, [idx1, idx2, idx3, idx4], geom.dihedral);
  }

  method AddDstFeature(df: DataFrame?, idx1: int, idx2: int, geom: Geometry) returns (r: Outcome<PyError>)
    requires df != null ==> df.Valid()
    modifies df
    ensures df != null ==> df.Valid()
    ensures Committed(UncheckedIndexedFeature(old(ArgValue(df)), DistanceAlias, [idx1, idx2], geom.distance),
                      old(ArgValue(df)), ArgValue(df), r)
  {
    if df == null {
      return Fail(AttributeError);
    }
    r := InsertIndexedFeature(df, DistanceAlias, [idx1, idx2], geom.distance);
  }
}
