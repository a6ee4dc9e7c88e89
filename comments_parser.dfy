/** The comment-line reader and the column naming of `get_comments_df`,
    which src/comments_parser.py and src/features/input_parsers.py define
    twice with the same code. The file is the sequence of lines Python's
    file iteration yields, each with its line terminator. */
module CommentsParser {
  import opened Wrappers
  import opened PyErrors
  import opened PyStr
  import opened PyWords
  import opened Decimal

  /** The line before every comment: the atom count of the structure
      files read here. */
  const CommentMarker: string := "42\n"

  /** A line at position `i` is a comment when the line before it equals
      `marker`. */
  predicate FollowsMarker(lines: seq<string>, marker: string, i: int) {
    1 <= i < |lines| && lines[i - 1] == marker
  }

  /** What `_load_lines_after_specified_one` has collected after reading
      the first `n` lines: each line whose predecessor equals `marker`,
      stripped, in file order. */
  function CollectedUpTo(lines: seq<string>, marker: string, n: nat): seq<string>
    requires n <= |lines|
  {
    if n < 2 then []
    else
      CollectedUpTo(lines, marker, n - 1)
      + (if lines[n - 2] == marker then [Strip(lines[n - 1])] else [])
  }

  function Collected(lines: seq<string>, marker: string): seq<string> {
    CollectedUpTo(lines, marker, |lines|)
  }

  /** `_load_lines_after_specified_one(path, specified_line)`: one pass
      with a flag saying whether the previous line was the marker. */
  method LoadLinesAfterSpecifiedOne(lines: seq<string>, marker: string) returns (comments: seq<string>)
    ensures comments == Collected(lines, marker)
  {
    comments := [];
    var nextLineIsComment := false;
    for i := 0 to |lines|
      invariant comments == CollectedUpTo(lines, marker, i)
      invariant nextLineIsComment <==> i > 0 && lines[i - 1] == marker
    {
      var line := lines[i];
      if nextLineIsComment {
        comments := comments + [Strip(line)];
      }
      nextLineIsComment := line == marker;
    }
  }

  /** The positions among the first `n` lines that follow a marker line,
      ascending. */
  function FollowingPositions(lines: seq<string>, marker: string, n: nat): (ps: seq<nat>)
    requires n <= |lines|
    ensures forall k :: 0 <= k < |ps| ==> ps[k] < n && FollowsMarker(lines, marker, ps[k])
    ensures forall i :: 0 <= i < n && FollowsMarker(lines, marker, i) ==> i in ps
    ensures forall k, l :: 0 <= k < l < |ps| ==> ps[k] < ps[l]
  {
    if n < 2 then []
    else FollowingPositions(lines, marker, n - 1) + (if lines[n - 2] == marker then [n - 1] else [])
  }

  /** The collected comments are exactly the stripped lines at the
      positions that follow a marker line, in file order: as many comments
      as marker-followed lines, the first line never collected, and a
      marker line that follows a marker line collected too. */
  lemma {:induction false} CollectedAtFollowingPositions(lines: seq<string>, marker: string, n: nat)
    requires n <= |lines|
    ensures |CollectedUpTo(lines, marker, n)| == |FollowingPositions(lines, marker, n)|
    ensures forall k :: 0 <= k < |CollectedUpTo(lines, marker, n)| ==>
      CollectedUpTo(lines, marker, n)[k] == Strip(lines[FollowingPositions(lines, marker, n)[k]])
  {
    if n >= 2 {
      CollectedAtFollowingPositions(lines, marker, n - 1);
      var cs := CollectedUpTo(lines, marker, n - 1);
      var ps := FollowingPositions(lines, marker, n - 1);
      if lines[n - 2] == marker {
        assert CollectedUpTo(lines, marker, n) == cs + [Strip(lines[n - 1])];
        assert FollowingPositions(lines, marker, n) == ps + [n - 1];
      } else {
        assert CollectedUpTo(lines, marker, n) == cs;
        assert FollowingPositions(lines, marker, n) == ps;
      }
    }
  }

  const FixedHeaders: seq<string> := ["id", "total_energy", "fermi_energy", "1"]

  function EnergyLevelName(i: nat): string {
    "energy_level_" + NatToDecimal(i)
  }

  function ElectronStateName(j: nat): string {
    "electron_state_" + NatToDecimal(j)
  }

  /** The column names `get_comments_df` builds for `n` fields: four fixed
      headers, `140 - 4` energy levels, then `n - 140` electron states
      (none when `n < 140`, as `range` of a negative count is empty). */
  function CommentColumnNames(n: nat): (names: seq<string>)
    ensures |names| == if n >= 140 then n else 140
    ensures names[..4] == FixedHeaders
    ensures forall i :: 0 <= i < 136 ==> names[4 + i] == EnergyLevelName(i)
    ensures forall j :: 0 <= j < |names| - 140 ==> names[140 + j] == ElectronStateName(j)
  {
    FixedHeaders
    + seq(140 - 4, i requires 0 <= i => EnergyLevelName(i))
    + seq(if n >= 140 then n - 140 else 0, j requires 0 <= j => ElectronStateName(j))
  }

  /** pandas' message when a list of `got` names is assigned to an axis of
      `expected` columns. */
  function LengthMismatchMessage(expected: nat, got: nat): string {
    "Length mismatch: Expected axis has " + NatToDecimal(expected)
    + " elements, new values have " + NatToDecimal(got) + " elements"
  }

  /** `comments_df.columns = column_names` for a frame with `n` columns:
      the generated names when there are exactly as many; otherwise pandas
      refuses the 140 names, naming both lengths. */
  function CommentColumns(n: nat): (r: Result<seq<string>, PyError>)
    ensures r.Success? <==> n >= 140
    ensures r.Success? ==> |r.value| == n && r.value == CommentColumnNames(n)
    ensures r.Failure? ==> r.error == ValueError(LengthMismatchMessage(n, 140))
  {
    var names := CommentColumnNames(n);
    if |names| == n then Success(names)
    else Failure(ValueError(LengthMismatchMessage(n, |names|)))
  }

  lemma PrefixedInjective(prefix: string, x: string, y: string)
    requires prefix + x == prefix + y
    ensures x == y
  {
    assert x == (prefix + x)[|prefix|..];
    assert y == (prefix + y)[|prefix|..];
  }

  lemma EnergyLevelNameInjective(i: nat, j: nat)
    requires EnergyLevelName(i) == EnergyLevelName(j)
    ensures i == j
  {
    PrefixedInjective("energy_level_", NatToDecimal(i), NatToDecimal(j));
    NatToDecimalInjective(i, j);
  }

  lemma ElectronStateNameInjective(i: nat, j: nat)
    requires ElectronStateName(i) == ElectronStateName(j)
    ensures i == j
  {
    PrefixedInjective("electron_state_", NatToDecimal(i), NatToDecimal(j));
    NatToDecimalInjective(i, j);
  }

  /** The three kinds of names are told apart by their first two letters. */
  lemma NameKindsDiffer(i: nat, j: nat)
    ensures EnergyLevelName(i)[0] == 'e' && EnergyLevelName(i)[1] == 'n'
    ensures ElectronStateName(j)[0] == 'e' && ElectronStateName(j)[1] == 'l'
    ensures forall h :: 0 <= h < 4 ==> FixedHeaders[h][0] != 'e'
  {
  }

  /** No two comment columns share a name. */
  lemma CommentColumnNamesDistinct(n: nat)
    ensures forall a, b :: 0 <= a < b < |CommentColumnNames(n)| ==> CommentColumnNames(n)[a] != CommentColumnNames(n)[b]
  {
    var names := CommentColumnNames(n);
    forall a, b | 0 <= a < b < |names|
      ensures names[a] != names[b]
    {
      if a < 4 {
        NameKindsDiffer(if 4 <= b < 140 then b - 4 else 0, if 140 <= b then b - 140 else 0);
        assert names[a] == names[..4][a];
        if b < 4 {
          assert names[b] == names[..4][b];
        }
      } else if b < 140 {
        if names[a] == names[b] {
          EnergyLevelNameInjective(a - 4, b - 4);
        }
      } else if a < 140 {
        NameKindsDiffer(a - 4, b - 140);
      } else if names[a] == names[b] {
        ElectronStateNameInjective(a - 140, b - 140);
      }
    }
  }

  /** The number of columns `str.split(expand=True)` produces: the largest
      word count among the comments. */
  function MaxWords(comments: seq<string>): (n: nat)
    ensures forall i :: 0 <= i < |comments| ==> |Split(comments[i])| <= n
    ensures comments != [] ==> exists i :: 0 <= i < |comments| && n == |Split(comments[i])|
    ensures comments == [] ==> n == 0
  {
    if comments == [] then 0
    else
      var m := MaxWords(comments[1..]);
      var w := |Split(comments[0])|;
      assert forall i :: 1 <= i < |comments| ==> comments[i] == comments[1..][i - 1];
      if w >= m then w else m
  }

  /** `.astype(float)` on one row of words; `parseFloat` stands for
      Python's `float(str)`. */
  function ParseRow(words: seq<string>, parseFloat: string -> Option<real>): (r: Option<seq<real>>)
    ensures r.Some? <==> forall j :: 0 <= j < |words| ==> parseFloat(words[j]).Some?
    ensures r.Some? ==> |r.value| == |words|
    ensures r.Some? ==> forall j :: 0 <= j < |words| ==> Some(r.value[j]) == parseFloat(words[j])
  {
    if words == [] then Some([])
    else
      match parseFloat(words[0])
      case None => None
      case Some(x) =>
        match ParseRow(words[1..], parseFloat)
        case None => None
        case Some(xs) => Some([x] + xs)
  }

  predicate AllParse(comments: seq<string>, parseFloat: string -> Option<real>) {
    forall i :: 0 <= i < |comments| ==> ParseRow(Split(comments[i]), parseFloat).Some?
  }

  /** The parsed comments: column names and one row per comment, padded
      with missing values (`None`, shown as NaN) up to the widest row. */
  datatype CommentsFrame = CommentsFrame(columns: seq<string>, rows: seq<seq<Option<real>>>)

  function Pad(xs: seq<real>, n: nat): (row: seq<Option<real>>)
    requires |xs| <= n
    ensures |row| == n
    ensures forall j :: 0 <= j < n ==> row[j] == if j < |xs| then Some(xs[j]) else None
  {
    seq(n, j requires 0 <= j < n => if j < |xs| then Some(xs[j]) else None)
  }

  function ParsedRows(comments: seq<string>, n: nat, parseFloat: string -> Option<real>): (rows: seq<seq<Option<real>>>)
    requires AllParse(comments, parseFloat)
    requires forall i :: 0 <= i < |comments| ==> |Split(comments[i])| <= n
    ensures |rows| == |comments|
    ensures forall i :: 0 <= i < |comments| ==> rows[i] == Pad(ParseRow(Split(comments[i]), parseFloat).value, n)
  {
    seq(|comments|, i requires 0 <= i < |comments| => Pad(ParseRow(Split(comments[i]), parseFloat).value, n))
  }

  /** `get_comments_df` on a file whose lines are `lines`: the comments
      after each "42" line, split on whitespace and converted to floats
      (a word `float` refuses raises ValueError), then named; a frame of
      fewer than 140 columns cannot take the 140 names and raises
      ValueError. */
  function GetCommentsDf(lines: seq<string>, parseFloat: string -> Option<real>): (r: Result<CommentsFrame, PyError>)
    ensures var comments := Collected(lines, CommentMarker);
      r.Success? <==> AllParse(comments, parseFloat) && MaxWords(comments) >= 140
    ensures r.Failure? ==> r.error.IsValueError()
    ensures var comments := Collected(lines, CommentMarker);
      r.Success? ==>
        && r.value.columns == CommentColumnNames(MaxWords(comments))
        && |r.value.columns| == MaxWords(comments)
        && |r.value.rows| == |comments|
        && (forall i :: 0 <= i < |comments| ==> |r.value.rows[i]| == MaxWords(comments))
        && (forall i, j :: 0 <= i < |comments| && 0 <= j < |Split(comments[i])| ==>
              r.value.rows[i][j] == parseFloat(Split(comments[i])[j]))
        && (forall i, j :: 0 <= i < |comments| && |Split(comments[i])| <= j < MaxWords(comments) ==>
              r.value.rows[i][j] == None)
  {
    var comments := Collected(lines, CommentMarker);
    if !AllParse(comments, parseFloat) then Failure(ValueError("could not convert string to float"))
    else
      var n := MaxWords(comments);
      var names :- CommentColumns(n);
      Success(CommentsFrame(names, ParsedRows(comments, n, parseFloat)))
  }
}
