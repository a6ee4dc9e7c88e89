# Molecular feature extraction — a Dafny model

This project models the data-handling core of a small Python toolkit that
turns molecular structures (ASE `Atoms` objects held in the `obj` column of
a pandas DataFrame) into named feature columns, reads the comment lines of
`.xyz` structure files into a table, guards functions with an argument
checker, and builds classifier configuration records.

What is modelled, module by module:

- `Wrappers`, `PyErrors`: `Option`/`Result`/`Outcome` and the Python
  exceptions the code raises (`ValueError` with its message, `KeyError`,
  `IndexError`, `AttributeError`, `ZeroDivisionError`).
- `PyStr`, `PyWords`, `Decimal`: the parts of Python's `str` the code
  relies on: `isspace` (the full Unicode whitespace class), `strip`,
  `split()` and `str(int)`. `Decimal` also has a parser for decimal
  numerals, used only in proofs, with the round trip proved.
- `Atoms`: a structure as a sequence of atoms with chemical symbols, and
  Python list indexing with negative indices (`-n <= i < n`).
- `FeatureId`: `get_particle_symbols` and `generate_feature_id`. A
  decoder, used only in proofs, shows that feature ids and names are
  injective: distinct index tuples give distinct names.
- `Frame`: a DataFrame as a value (`Table`) and as a `class` changed in
  place by `df[name] = values`; `Series.apply` and `df.loc[0, "obj"]` only
  read it and are modelled on the value.
- `FeatureColumns`: the body shared by every `add_*_feature`. The result
  either commits the new table or raises, leaving the table unchanged.
- `Features`: the validated adders of `src/features/features_extractors.py`,
  with `__check_df` and its four ordered errors.
- `LegacyFeatures`: the unvalidated adders of `src/features_extractors.py`.
- `CommentsParser`: `_load_lines_after_specified_one` as a loop over the
  file's lines, and `get_comments_df` (word splitting, float conversion,
  column naming). The same code appears twice, in `src/comments_parser.py`
  and `src/features/input_parsers.py`, and is modelled once.
- `FunctionManipulators`: the `assert_proper_input` decorator and
  `__find_arg_index`.
- `ModelIo`: `create_clf_config` and `__filter_whitespace`.

`get_particle_symbols` and `generate_feature_id` are identical in both
extractor files (`src/features_extractors.py:64-70` repeats
`src/features/features_extractors.py:102-108`). The table below cites the
second copy.

How failures are modelled: a call that raises returns `Failure(e)` or
`Fail(e)`. A DataFrame argument that is not a DataFrame at all is a `null`
`DataFrame?`, or `None` once the argument is read as a value; the model
does not distinguish what kind of object it is.

## Model

| member | source | states |
|---|---|---|
| Atoms.Normalize | src/features/features_extractors.py:103 | a valid Python index `-n <= i < n` addresses position `i` or `i + n`, always inside the list |
| FeatureId.GetParticleSymbols | src/features/features_extractors.py:102-103 | succeeds exactly when every index is valid, else `IndexError`; one symbol per index, in argument order, each the symbol of the addressed atom |
| FeatureId.GenerateFeatureId | src/features/features_extractors.py:106-108 | the id exists exactly when every index is valid; otherwise `IndexError` |
| FeatureId.FeatureName | src/features/features_extractors.py:44 | a feature name is the alias followed by the id, and exists exactly when the indices are valid |
| FeatureId.JoinFieldsAppend | src/features/features_extractors.py:108 | joining symbol/index fields distributes over concatenation of the field lists |
| FeatureId.FeatureIdSingle | src/features/features_extractors.py:106-108 | a single index gives its atom's symbol followed by `str(idx)` |
| FeatureId.FeatureIdConcat | src/features/features_extractors.py:106-108 | the id of a concatenated index tuple is the concatenation of the ids |
| FeatureId.DecodeJoinFields | src/features/features_extractors.py:108 | with letter-only symbols, the joined fields decode back to the index tuple (negative indices included) |
| FeatureId.FeatureNameDecodes | src/features/features_extractors.py:44 | a feature name with a letter-only alias decodes back to its index tuple |
| FeatureId.FeatureNameInjective | src/features/features_extractors.py:44-58 | two names built on one structure are equal only if alias and index tuple are equal |
| FeatureId.FeatureIdInjective | src/features/features_extractors.py:106-108 | with letter-only symbols, equal ids mean equal index tuples |
| Decimal.NatToDecimal | src/features/features_extractors.py:108 | `str(n)` is a non-empty digit string with no leading zero |
| Decimal.IntToDecimal | src/features/features_extractors.py:108 | `str(i)` starts with `-` exactly for negative `i`, and the rest is digits |
| Decimal.DecimalRoundTrip | src/features/features_extractors.py:108 | reading back the digits of `str(n)` gives `n` |
| Decimal.IntToDecimalInjective | src/features/features_extractors.py:108 | distinct integers have distinct decimal strings |
| PyStr.Strip | src/comments_parser.py:45 | `strip()` is the slice of the input between the leading and trailing whitespace runs; empty exactly when the input is all whitespace; no whitespace at either end |
| PyStr.StripIdempotent | src/comments_parser.py:45 | stripping a stripped line changes nothing |
| PyStr.IsSpaceClass | src/model_io.py:53 | `isspace` on ASCII holds for exactly space, tab, newline, carriage return, vertical tab, form feed and the four information separators; no letter or digit is whitespace, and the others lie at or above U+0085. The same class drives `split` and `strip` (src/comments_parser.py:27, 45) |
| PyWords.Split | src/comments_parser.py:27 | `split()` yields non-empty words that contain no whitespace; with SplitWord and SplitAtSpace this fixes the result on every string |
| PyWords.SplitWord | src/comments_parser.py:27 | a non-empty whitespace-free string splits into itself |
| PyWords.SplitAtSpace | src/comments_parser.py:27 | any whitespace character separates: `split(a + c + b)` is `split(a)` followed by `split(b)`, so runs of whitespace, tabs and leading or trailing whitespace give no empty words |
| PyWords.SplitJoinWords | src/comments_parser.py:27 | splitting words joined by single spaces returns the words |
| Frame.SetColumn | src/features/features_extractors.py:45 | `df[name] = values` keeps the table well formed. It sets exactly that column: same rows, other columns untouched, an existing column keeps its place, a new one goes last |
| Frame.SetColumnTwice | src/features/features_extractors.py:45 | a second assignment to the same name overwrites and adds no column |
| Frame.ApplyCell | src/features/features_extractors.py:45 | the per-row call succeeds exactly when the cell is an `Atoms` object and the call on it succeeds; its result becomes a float cell; any other cell raises `AttributeError`, and the call's own exception propagates |
| Frame.ApplyRows | src/features/features_extractors.py:45 | `Series.apply` succeeds exactly when every row does, and row `i` of the result is `f` of row `i`. On failure the exception is that of the first failing row, all earlier rows having succeeded |
| Frame.RowZeroParticle | src/features/features_extractors.py:43 | `df.loc[0, "obj"]` gives the structure at label 0. A missing column or label raises `KeyError`; a duplicated label or a non-`Atoms` cell raises `AttributeError` |
| Frame.DataFrame.SetItem | src/features/features_extractors.py:45 | the in-place assignment leaves the object holding exactly `SetColumn` of its old contents |
| FeatureColumns.MeasureAt | src/features/features_extractors.py:45 | `p.get_angle(...)` and its kin on one row: `IndexError` when an index is out of range for that structure, otherwise the measurement at the addressed positions, which may itself raise |
| FeatureColumns.IndexedFeature | src/features/features_extractors.py:43-45 | succeeds exactly when label 0 holds a structure and every row has valid indices and a measurement that does not raise. Errors from label 0 propagate; indices invalid for label 0's structure raise `IndexError`; otherwise the first failing row decides, with `IndexError` or the measurement's own exception. On success the column name is the alias plus the id taken from label 0's structure alone, only that column changes, and row `i` is the measurement of row `i` |
| FeatureColumns.FixedFeature | src/features/features_extractors.py:68-70 | succeeds exactly when every row's measurement does; the fixed column then holds them row by row and nothing else changes. On failure the exception is that of the first failing row |
| FeatureColumns.InsertIndexedFeature | src/features/features_extractors.py:43-45 | in place: on success the DataFrame holds `IndexedFeature`'s table; on an exception it is unchanged |
| FeatureColumns.InsertFixedFeature | src/features/features_extractors.py:68-70 | in place: on success the DataFrame holds `FixedFeature`'s table; on an exception it is unchanged |
| FeatureColumns.AliasedNameIsNotObj | src/features/features_extractors.py:44 | a name with an `ang`/`dih`/`dst` prefix never overwrites the `obj` column |
| FeatureColumns.IndexedFeatureIdempotent | src/features/features_extractors.py:43-45 | adding the same indexed feature twice gives the table of adding it once |
| FeatureColumns.FixedFeatureIdempotent | src/features/features_extractors.py:68-70 | re-adding a fixed-name feature gives the same table |
| Features.CheckDf | src/features/features_extractors.py:26-38 | the check passes exactly for a DataFrame with a non-empty, all-`Atoms` `obj` column. Otherwise it raises the `ValueError` of the first failing guard, in source order, with its message |
| Features.CheckedIndexedFeature | src/features/features_extractors.py:41-45 | a failed check is the result; after a passed check the body's result; on success the table still passes the check; body errors are `IndexError`, `KeyError`, `AttributeError` or an exception the measurement raises on some row |
| Features.CheckedFixedFeature | src/features/features_extractors.py:66-70 | a failed check is the result, otherwise the body's result; after a passed check a failure is the first failing row's exception |
| Features.AddAngleFeature | src/features/features_extractors.py:41-45 | in place: the check runs before the body; a raised exception leaves the DataFrame unchanged; success writes the `ang<id>` column of angles |
| Features.AddDihedralFeature | src/features/features_extractors.py:48-52 | as above with `dih<id>` and dihedrals |
| Features.AddDstFeature | src/features/features_extractors.py:55-63 | as above with `dst<id>` and distances |
| Features.AddBenzeneDstFeature | src/features/features_extractors.py:66-70 | in place: checked, then column `benzene_dst` from the centroid distance; out-of-range indices raise `IndexError` |
| Features.BenzeneDstAt | src/features/features_extractors.py:83-86 | the lambda of line 69 on one row: succeeds exactly when both index groups are in range for the structure, else `IndexError`; the value is the centroid distance at the addressed positions |
| Features.BenzeneCossqAt | src/features/features_extractors.py:89-99 | the lambda of line 76 on one row: succeeds exactly when both planes have three indices in range. Plane 1 is unpacked (`ValueError`) and indexed (`IndexError`) before plane 2. The value is the square of the planes' cosine, never negative |
| Features.UnpackMessage | src/features/features_extractors.py:96 | a plane of fewer than three indices raises "not enough values to unpack (expected 3, got n)", whose number reads back as the plane's length; a longer one raises "too many values to unpack (expected 3)" |
| Features.AddBenzeneCossqFeature | src/features/features_extractors.py:73-77 | in place: checked, then column `benzene_cossq` holding the squared plane cosine. Each plane must unpack into three indices (`ValueError`) that are in range (`IndexError`), checked first plane first |
| Features.CheckedIndexedFeatureTwice | src/features/features_extractors.py:41-63 | repeating a successful `add_{angle,dihedral,dst}_feature` passes the check again and leaves the table as it was |
| Features.CheckedFixedFeatureTwice | src/features/features_extractors.py:66-77 | repeating a successful benzene feature adds no column and leaves the table as it was |
| LegacyFeatures.UncheckedIndexedFeature | src/features_extractors.py:24-39 | without a check, a table goes straight to the shared body and gets exactly `IndexedFeature`'s result: one column set, other columns and rows unchanged, the name taken from label 0. A missing `obj` column or label 0 raises `KeyError`; a non-DataFrame fails with `AttributeError` |
| LegacyFeatures.AddAngleFeature | src/features_extractors.py:24-27 | in place, unchecked: commits the angle column or raises with the table unchanged |
| LegacyFeatures.AddDihedralFeature | src/features_extractors.py:30-33 | in place, unchecked: commits the dihedral column or raises with the table unchanged |
| LegacyFeatures.AddDstFeature | src/features_extractors.py:36-39 | in place, unchecked: commits the distance column or raises with the table unchanged |
| CommentsParser.LoadLinesAfterSpecifiedOne | src/comments_parser.py:38-47 | the flag-and-append loop returns the stripped lines that follow a marker line, in order |
| CommentsParser.CollectedAtFollowingPositions | src/comments_parser.py:38-47 | the k-th comment is the stripped k-th line whose predecessor is the marker. So there are exactly as many comments as such lines, the first line is never one, and a marker line after a marker line is one |
| CommentsParser.FollowingPositions | src/comments_parser.py:43-46 | the positions whose predecessor is the marker, all of them, ascending |
| CommentsParser.CommentColumnNames | src/comments_parser.py:29-33 | four fixed headers, `energy_level_0..135`, then `electron_state_0..n-141`; at least 140 names |
| CommentsParser.CommentColumns | src/comments_parser.py:29-34 | assigning the names succeeds exactly when the frame has at least 140 columns, and the columns are then `CommentColumnNames(n)`; otherwise pandas' `ValueError` "Length mismatch: Expected axis has n elements, new values have 140 elements" |
| CommentsParser.CommentColumnNamesDistinct | src/comments_parser.py:29-33 | no two column names coincide |
| CommentsParser.MaxWords | src/comments_parser.py:27 | the column count of `split(expand=True)` is the largest word count of any comment |
| CommentsParser.ParseRow | src/comments_parser.py:27 | `astype(float)` on a row succeeds exactly when every word converts, value by value |
| CommentsParser.GetCommentsDf | src/comments_parser.py:9-35 | succeeds exactly when every word converts and the widest row has at least 140 fields, else `ValueError`. Names per `CommentColumnNames`, one row per comment, word `j` of comment `i` at `[i][j]`, shorter rows padded with missing values |
| FunctionManipulators.FindArgIndex | src/function_manipulators.py:23-34 | the least position of the name among the parameters, or `None` exactly when it is absent |
| FunctionManipulators.ResolveArg | src/function_manipulators.py:10-16 | a keyword argument wins. Otherwise the positional argument at the first matching parameter is used. Otherwise `ValueError("<name> argument is not provided")` |
| FunctionManipulators.Wrapper | src/function_manipulators.py:6-20 | a missing argument or a failing check is the result; only an accepted argument lets the wrapped function run, and its result is returned |
| FunctionManipulators.RejectionIgnoresFunc | src/function_manipulators.py:17-18 | a rejected call fails the same way whatever function is wrapped |
| FunctionManipulators.ResolvesFirstPosition | src/function_manipulators.py:13-16 | without a keyword, the argument at the first matching parameter position is checked, or the call is refused when too short |
| ModelIo.FilterWhitespace | src/model_io.py:51-55 | the result has no whitespace and is no longer than the input |
| ModelIo.FilterWhitespaceAppend | src/model_io.py:51-55 | filtering distributes over concatenation: characters keep their order |
| ModelIo.FilterWhitespaceChar | src/model_io.py:52-54 | one character is dropped exactly when it is whitespace |
| ModelIo.FilterWhitespaceFixpoint | src/model_io.py:51-55 | text without whitespace passes unchanged |
| ModelIo.FilterWhitespaceIdempotent | src/model_io.py:51-55 | filtering twice equals filtering once |
| ModelIo.ClfConfig | src/model_io.py:27-48 | keys are exactly description, name, id, imports and creation_str. The description is verbatim. Falsy name, id, imports or creation_str fall back to the class name, `name_uuid`, the module name, and `imports.` + the filtered repr. No imports and no module raises `AttributeError` |
| ModelIo.CreateClfConfig | src/model_io.py:27-48 | filling the dictionary key by key yields `ClfConfig` |
| ModelIo.ClfConfigRoundTrip | src/model_io.py:35-48 | feeding a configuration's own entries back in reproduces it, whatever uuid is drawn |

## Left out

- Floating-point geometry: ASE's `get_angle`, `get_dihedral` and `get_distance`, and NumPy's `get_benzene_dst`, `cos_between_planes`, `calculate_perpendicular_vector`, `unit_vector`, `cos_between`, `angle_between` and `cos_to_angle`. They are uninterpreted functions of a `Geometry` value, and floats are `real`. The three ASE measurements return either a value or the exception they raise.
- File I/O: a file is the sequence of lines Python's iteration yields, newline included. The file's encoding, universal-newline translation and `open` failures are not modelled.
- `read_raw_data`: ASE file reading behind a joblib disk cache.
- `save_clf_config`: a YAML dump to a file.
- `uuid.uuid4`, `inspect.getmodule` and `repr`: they are parameters (`uuid`, `Classifier.moduleName`, `Classifier.repr`).
- Python's `float(str)`: a parameter `parseFloat` of `GetCommentsDf`.
- src/visualization.py (plotting), src/features/__init__.py (dynamic module discovery) and config/paths.py (path constants) are not part of this model.
- The commented-out joblib parallel code and the unimplemented `parse_feature_name` stub have no behaviour to model.
- The `assert_proper_input` decoration of the `add_*_feature` functions: the adders take their `df` argument already bound, so the "argument is not provided" error cannot arise there. That error is proved generically in `FunctionManipulators`.
- Features.AddBenzeneDstFeature: index groups are lists of integers. A tuple, which NumPy reads as a multi-dimensional index, is not modelled.
- Features.AddBenzeneCossqFeature: same restriction on index groups. The unpacking messages are Python 3.12's; later versions also report the count for a list that is too long.
- LegacyFeatures.UncheckedIndexedFeature: every argument that is not a DataFrame is collapsed to `AttributeError`. A pandas Series, for one, raises `IndexingError` ("Too many indexers") at `df.loc[0, "obj"]` instead.
- FeatureColumns.IndexedFeature: which measurements raise is left to the `Geometry` value. ASE's `get_angle` raises `ZeroDivisionError` for coinciding atoms, and NumPy's helpers return `nan` rather than raise.
- Frame.RowZeroParticle: duplicated column names are not modelled (columns are unique in `Table`). A cell that is not an `Atoms` object ends in `AttributeError`, whatever Python would raise on it.
- CommentsParser.GetCommentsDf: an empty comment list is treated as a frame with no columns, which fails the naming with `ValueError`. Whatever pandas itself raises for an empty Series is not modelled, nor is the message of a failed float conversion.
- Chemical symbols are taken to be ASCII letters where the injectivity proofs need it (`LetterSymbols`); the id functions themselves accept any symbol.
