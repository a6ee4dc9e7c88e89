/** The feature identifier of `generate_feature_id`: for each atom index, in
    the order given, the atom's chemical symbol followed by the index in
    decimal, with no delimiter. Identical in src/features/features_extractors.py
    and src/features_extractors.py. */
module FeatureId {
  import opened Wrappers
  import opened PyErrors
  import opened PyStr
  import opened Decimal
  import opened Atoms

  /** `get_particle_symbols`: the chemical symbol at each index, in order;
      an `IndexError` when some index is out of range. */
  function GetParticleSymbols(p: Particle, idxs: seq<int>): (r: Result<seq<string>, PyError>)
    ensures r.Success? <==> AllValid(p, idxs)
    ensures r.Failure? ==> r.error == IndexError
    ensures r.Success? ==> |r.value| == |idxs|
    ensures r.Success? ==> forall j :: 0 <= j < |idxs| ==> r.value[j] == p.atoms[Normalize(p, idxs[j])].symbol
  {
    if idxs == [] then Success([])
    else if !ValidIndex(p, idxs[0]) then Failure(IndexError)
    else
      var rest :- GetParticleSymbols(p, idxs[1..]);
      Success([p.atoms[Normalize(p, idxs[0])].symbol] + rest)
  }

  /** The `"".join(f"{s}{idx}" ...)` of `generate_feature_id`. */
  function JoinFields(syms: seq<string>, idxs: seq<int>): string
    requires |syms| == |idxs|
  {
    if idxs == [] then "" else syms[0] + IntToDecimal(idxs[0]) + JoinFields(syms[1..], idxs[1..])
  }

  /** `generate_feature_id(particle, *idxs)`. */
  function GenerateFeatureId(p: Particle, idxs: seq<int>): (r: Result<string, PyError>)
    ensures r.Success? <==> AllValid(p, idxs)
    ensures r.Failure? ==> r.error == IndexError
  {
    var syms :- GetParticleSymbols(p, idxs);
    Success(JoinFields(syms, idxs))
  }

  /** The column name an `add_*_feature` builds: its alias, then the id. */
  function FeatureName(alias: string, p: Particle, idxs: seq<int>): (r: Result<string, PyError>)
    ensures r.Success? <==> AllValid(p, idxs)
    ensures r.Success? ==> |r.value| >= |alias| && r.value[..|alias|] == alias
    ensures r.Success? ==> r.value[|alias|..] == GenerateFeatureId(p, idxs).value
  {
    var id :- GenerateFeatureId(p, idxs);
    Success(alias + id)
  }

  lemma {:induction false} JoinFieldsAppend(syms1: seq<string>, idxs1: seq<int>, syms2: seq<string>, idxs2: seq<int>)
    requires |syms1| == |idxs1| && |syms2| == |idxs2|
    ensures JoinFields(syms1 + syms2, idxs1 + idxs2) == JoinFields(syms1, idxs1) + JoinFields(syms2, idxs2)
  {
    if idxs1 != [] {
      var field := syms1[0] + IntToDecimal(idxs1[0]);
      assert (syms1 + syms2)[0] == syms1[0] && (idxs1 + idxs2)[0] == idxs1[0];
      assert (syms1 + syms2)[1..] == syms1[1..] + syms2;
      assert (idxs1 + idxs2)[1..] == idxs1[1..] + idxs2;
      JoinFieldsAppend(syms1[1..], idxs1[1..], syms2, idxs2);
      calc {
        JoinFields(syms1 + syms2, idxs1 + idxs2);
        field + JoinFields(syms1[1..] + syms2, idxs1[1..] + idxs2);
        field + (JoinFields(syms1[1..], idxs1[1..]) + JoinFields(syms2, idxs2));
        (field + JoinFields(syms1[1..], idxs1[1..])) + JoinFields(syms2, idxs2);
      }
    } else {
      assert syms1 + syms2 == syms2 && idxs1 + idxs2 == idxs2;
    }
  }

  /** One index alone gives its atom's symbol followed by the index. */
  lemma {:induction false} FeatureIdSingle(p: Particle, i: int)
    requires ValidIndex(p, i)
    ensures GenerateFeatureId(p, [i]) == Success(p.atoms[Normalize(p, i)].symbol + IntToDecimal(i))
  {
    var syms := GetParticleSymbols(p, [i]).value;
    assert [i][1..] == [] && syms[1..] == [];
    var field := syms[0] + IntToDecimal(i);
    assert JoinFields(syms, [i]) == field + "" == field;
    assert GenerateFeatureId(p, [i]) == Success(JoinFields(syms, [i]));
  }

  /** The id of a concatenated index tuple is the concatenation of the ids,
      so the id lists the fields in argument order. */
  lemma {:induction false} FeatureIdConcat(p: Particle, idxs1: seq<int>, idxs2: seq<int>)
    requires AllValid(p, idxs1) && AllValid(p, idxs2)
    ensures AllValid(p, idxs1 + idxs2)
    ensures GenerateFeatureId(p, idxs1 + idxs2).value
         == GenerateFeatureId(p, idxs1).value + GenerateFeatureId(p, idxs2).value
  {
    var s1 := GetParticleSymbols(p, idxs1).value;
    var s2 := GetParticleSymbols(p, idxs2).value;
    var s := GetParticleSymbols(p, idxs1 + idxs2).value;
    assert s == s1 + s2;
    JoinFieldsAppend(s1, idxs1, s2, idxs2);
  }

  // Spec-side decoding, used only to prove that ids determine their index
  // tuple. The program itself has no parser for feature names.

  /** Length of the maximal run of letters at the front of `t`. */
  function LetterRun(t: string): (k: nat)
    ensures k <= |t|
    ensures forall i :: 0 <= i < k ==> IsAsciiLetter(t[i])
    ensures k < |t| ==> !IsAsciiLetter(t[k])
  {
    if t == [] || !IsAsciiLetter(t[0]) then 0 else 1 + LetterRun(t[1..])
  }

  /** Length of the maximal run of digits at the front of `t`. */
  function DigitRun(t: string): (k: nat)
    ensures k <= |t|
    ensures forall i :: 0 <= i < k ==> IsDigit(t[i])
    ensures k < |t| ==> !IsDigit(t[k])
  {
    if t == [] || !IsDigit(t[0]) then 0 else 1 + DigitRun(t[1..])
  }

  /** A run of digits at the front of `v`: its value and what follows. */
  ghost function ParseNat(v: string): (r: Option<(nat, string)>)
    ensures r.Some? ==> |r.value.1| < |v|
  {
    var d := DigitRun(v);
    if d == 0 then None
    else
      assert AllDigits(v[..d]);
      Some((DecimalValue(v[..d]), v[d..]))
  }

  /** An optional minus sign and a run of digits at the front of `u`. */
  ghost function ParseSignedInt(u: string): (r: Option<(int, string)>)
    ensures r.Some? ==> |r.value.1| < |u|
  {
    var negative := |u| > 0 && u[0] == '-';
    var r := ParseNat(if negative then u[1..] else u);
    if r.None? then None
    else if negative then Some((-(r.value.0 as int), r.value.1))
    else Some((r.value.0 as int, r.value.1))
  }

  /** One field "letters, optional minus sign, digits" at the front of `t`:
      its index and what follows it; `None` when `t` does not start so. */
  ghost function ParseField(t: string): (r: Option<(int, string)>)
    ensures r.Some? ==> |r.value.1| < |t|
  {
    var k := LetterRun(t);
    if k == 0 then None else ParseSignedInt(t[k..])
  }

  /** The index sequence of a token made of such fields; `None` when the
      token is not of that shape. */
  ghost function DecodeIndices(t: string): Option<seq<int>>
    decreases |t|
  {
    if t == [] then Some([])
    else
      match ParseField(t)
      case None => None
      case Some(field) =>
        match DecodeIndices(field.1)
        case None => None
        case Some(more) => Some([field.0] + more)
  }

  lemma {:induction false} LetterRunOfAppend(s: string, w: string)
    requires AllLetters(s)
    requires w == [] || !IsAsciiLetter(w[0])
    ensures LetterRun(s + w) == |s|
  {
    if s != [] {
      assert (s + w)[1..] == s[1..] + w;
      LetterRunOfAppend(s[1..], w);
    } else {
      assert s + w == w;
    }
  }

  lemma {:induction false} DigitRunOfAppend(s: string, w: string)
    requires AllDigits(s)
    requires w == [] || !IsDigit(w[0])
    ensures DigitRun(s + w) == |s|
  {
    if s != [] {
      assert (s + w)[1..] == s[1..] + w;
      DigitRunOfAppend(s[1..], w);
    } else {
      assert s + w == w;
    }
  }

  lemma {:induction false} ParseNatOfDecimal(v: string, n: nat, rest: string)
    requires v == NatToDecimal(n) + rest
    requires rest == [] || !IsDigit(rest[0])
    ensures ParseNat(v) == Some((n, rest))
  {
    var digits := NatToDecimal(n);
    DigitRunOfAppend(digits, rest);
    assert v[..|digits|] == digits;
    assert v[|digits|..] == rest;
    DecimalRoundTrip(n);
  }

  lemma {:induction false} ParseMinusSign(u: string, n: nat, rest: string)
    requires |u| > 0 && u[0] == '-'
    requires ParseNat(u[1..]) == Some((n, rest))
    ensures ParseSignedInt(u) == Some((-(n as int), rest))
  {
  }

  lemma {:induction false} NegativeDecimalShape(i: int, rest: string)
    requires i < 0
    ensures |IntToDecimal(i) + rest| > 0 && (IntToDecimal(i) + rest)[0] == '-'
    ensures (IntToDecimal(i) + rest)[1..] == NatToDecimal(-i) + rest
  {
    assert IntToDecimal(i) == ['-'] + NatToDecimal(-i);
    assert IntToDecimal(i) + rest == ['-'] + (NatToDecimal(-i) + rest);
  }

  lemma {:induction false} ParseNegativeDigits(i: int, rest: string)
    requires i < 0
    requires rest == [] || !IsDigit(rest[0])
    ensures |IntToDecimal(i) + rest| > 0 && (IntToDecimal(i) + rest)[0] == '-'
    ensures ParseNat((IntToDecimal(i) + rest)[1..]) == Some((-i, rest))
  {
    NegativeDecimalShape(i, rest);
    ParseNatOfDecimal((IntToDecimal(i) + rest)[1..], -i, rest);
  }

  lemma {:induction false} ParseNegativeOfDecimal(i: int, rest: string)
    requires i < 0
    requires rest == [] || !IsDigit(rest[0])
    ensures ParseSignedInt(IntToDecimal(i) + rest) == Some((i, rest))
  {
    ParseNegativeDigits(i, rest);
    ParseMinusSign(IntToDecimal(i) + rest, -i, rest);
  }

  lemma {:induction false} ParseSignedIntOfDecimal(i: int, rest: string)
    requires rest == [] || IsAsciiLetter(rest[0])
    ensures ParseSignedInt(IntToDecimal(i) + rest) == Some((i, rest))
  {
    if i < 0 {
      ParseNegativeOfDecimal(i, rest);
    } else {
      var u := IntToDecimal(i) + rest;
      assert u == NatToDecimal(i) + rest;
      assert u[0] != '-';
      ParseNatOfDecimal(u, i, rest);
    }
  }

  /** A field built as symbol + `str(i)` parses back to `i` and leaves the
      rest of the token, when the symbol is letters and the rest is empty or
      starts with a letter. */
  lemma {:induction false} ParseFieldOfJoin(s: string, i: int, rest: string)
    requires |s| >= 1 && AllLetters(s)
    requires rest == [] || IsAsciiLetter(rest[0])
    ensures ParseField(s + IntToDecimal(i) + rest) == Some((i, rest))
  {
    var t := s + IntToDecimal(i) + rest;
    assert t == s + (IntToDecimal(i) + rest);
    LetterRunOfAppend(s, IntToDecimal(i) + rest);
    assert t[|s|..] == IntToDecimal(i) + rest;
    ParseSignedIntOfDecimal(i, rest);
  }

  predicate LetterFields(syms: seq<string>) {
    forall j :: 0 <= j < |syms| ==> |syms[j]| >= 1 && AllLetters(syms[j])
  }

  /** A token of letter fields is empty or starts with a letter. */
  lemma {:induction false} JoinFieldsStartsWithLetter(syms: seq<string>, idxs: seq<int>)
    requires |syms| == |idxs|
    requires LetterFields(syms)
    ensures JoinFields(syms, idxs) == [] || IsAsciiLetter(JoinFields(syms, idxs)[0])
  {
    if idxs != [] {
      var head := syms[0] + IntToDecimal(idxs[0]);
      assert |syms[0]| >= 1 && IsAsciiLetter(syms[0][0]);
      assert head[0] == syms[0][0];
      assert JoinFields(syms, idxs) == head + JoinFields(syms[1..], idxs[1..]);
    }
  }

  /** One field in front of a decodable rest adds its index in front. */
  lemma {:induction false} DecodeFieldThenRest(sym: string, i: int, rest: string, more: seq<int>)
    requires |sym| >= 1 && AllLetters(sym)
    requires rest == [] || IsAsciiLetter(rest[0])
    requires DecodeIndices(rest) == Some(more)
    ensures DecodeIndices(sym + IntToDecimal(i) + rest) == Some([i] + more)
  {
    var t := sym + IntToDecimal(i) + rest;
    ParseFieldOfJoin(sym, i, rest);
    assert t != [] by {
      assert |t| >= |sym| >= 1;
    }
  }

  /** Decoding a joined token gives back the index tuple it was built from,
      provided every symbol is a non-empty run of letters. */
  lemma {:induction false} DecodeJoinFields(syms: seq<string>, idxs: seq<int>)
    requires |syms| == |idxs|
    requires LetterFields(syms)
    ensures DecodeIndices(JoinFields(syms, idxs)) == Some(idxs)
  {
    if idxs != [] {
      var rest := JoinFields(syms[1..], idxs[1..]);
      assert LetterFields(syms[1..]);
      JoinFieldsStartsWithLetter(syms[1..], idxs[1..]);
      DecodeJoinFields(syms[1..], idxs[1..]);
      DecodeFieldThenRest(syms[0], idxs[0], rest, idxs[1..]);
      assert [idxs[0]] + idxs[1..] == idxs;
    }
  }

  /** The symbols looked up in a particle with letter-only symbols are
      letter-only fields. */
  lemma {:induction false} SymbolsAreLetterFields(p: Particle, idxs: seq<int>)
    requires LetterSymbols(p) && AllValid(p, idxs)
    ensures LetterFields(GetParticleSymbols(p, idxs).value)
  {
    var syms := GetParticleSymbols(p, idxs).value;
    forall j | 0 <= j < |syms|
      ensures |syms[j]| >= 1 && AllLetters(syms[j])
    {
      assert p.atoms[Normalize(p, idxs[j])] in p.atoms;
    }
  }

  lemma ConcatAssoc(a: string, b: string, c: string, d: string)
    ensures (a + b) + c + d == a + (b + c + d)
  {
  }

  /** Gluing a prefix onto the first symbol glues it onto the token. */
  lemma {:induction false} JoinFieldsPrefix(prefix: string, syms: seq<string>, syms': seq<string>, idxs: seq<int>)
    requires |syms| == |syms'| == |idxs| >= 1
    requires syms'[0] == prefix + syms[0] && syms'[1..] == syms[1..]
    ensures JoinFields(syms', idxs) == prefix + JoinFields(syms, idxs)
  {
    var d, rest := IntToDecimal(idxs[0]), JoinFields(syms[1..], idxs[1..]);
    assert JoinFields(syms', idxs) == (prefix + syms[0]) + d + rest;
    assert JoinFields(syms, idxs) == syms[0] + d + rest;
    ConcatAssoc(prefix, syms[0], d, rest);
  }

  /** A feature name decodes to the index tuple it was built from when its
      alias and the particle's symbols are letters only. */
  lemma {:induction false} FeatureNameDecodes(alias: string, p: Particle, idxs: seq<int>)
    requires AllLetters(alias) && LetterSymbols(p)
    requires |idxs| >= 1 && AllValid(p, idxs)
    ensures DecodeIndices(FeatureName(alias, p, idxs).value) == Some(idxs)
  {
    var syms := GetParticleSymbols(p, idxs).value;
    SymbolsAreLetterFields(p, idxs);
    var syms' := [alias + syms[0]] + syms[1..];
    assert LetterFields(syms') by {
      assert AllLetters(alias + syms[0]);
    }
    JoinFieldsPrefix(alias, syms, syms', idxs);
    DecodeJoinFields(syms', idxs);
  }

  /** Two feature names built from the same particle coincide only when
      alias and index tuple both coincide. */
  lemma {:induction false} FeatureNameInjective(alias1: string, alias2: string, p: Particle, idxs1: seq<int>, idxs2: seq<int>)
    requires AllLetters(alias1) && AllLetters(alias2) && LetterSymbols(p)
    requires |idxs1| >= 1 && |idxs2| >= 1
    requires FeatureName(alias1, p, idxs1).Success? && FeatureName(alias2, p, idxs2).Success?
    requires FeatureName(alias1, p, idxs1).value == FeatureName(alias2, p, idxs2).value
    ensures alias1 == alias2 && idxs1 == idxs2
  {
    FeatureNameDecodes(alias1, p, idxs1);
    FeatureNameDecodes(alias2, p, idxs2);
    var id1 := GenerateFeatureId(p, idxs1).value;
    var id2 := GenerateFeatureId(p, idxs2).value;
    assert alias1 + id1 == alias2 + id2;
    assert id1 == id2;
    assert alias1 == (alias1 + id1)[..|alias1|];
  }

  /** With letter-only symbols the id alone determines the index tuple. */
  lemma {:induction false} FeatureIdInjective(p: Particle, idxs1: seq<int>, idxs2: seq<int>)
    requires LetterSymbols(p)
    requires GenerateFeatureId(p, idxs1).Success? && GenerateFeatureId(p, idxs2).Success?
    requires GenerateFeatureId(p, idxs1).value == GenerateFeatureId(p, idxs2).value
    ensures idxs1 == idxs2
  {
    var s1 := GetParticleSymbols(p, idxs1).value;
    var s2 := GetParticleSymbols(p, idxs2).value;
    SymbolsAreLetterFields(p, idxs1);
    SymbolsAreLetterFields(p, idxs2);
    DecodeJoinFields(s1, idxs1);
    DecodeJoinFields(s2, idxs2);
  }
}
