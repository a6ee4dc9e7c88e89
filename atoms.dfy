/** An ASE `Atoms` object as the feature code sees it: an ordered list of
    atoms, each a chemical symbol and a position, addressed by Python
    sequence indices. */
module Atoms {
  import opened PyStr

  datatype Vec3 = Vec3(x: real, y: real, z: real)

  datatype Atom = Atom(symbol: string, position: Vec3)

  datatype Particle = Particle(atoms: seq<Atom>)

  /** Python accepts `-n <= i < n` as an index into a list of length `n`. */
  predicate ValidIndex(p: Particle, i: int) {
    -|p.atoms| <= i < |p.atoms|
  }

  predicate AllValid(p: Particle, idxs: seq<int>) {
    forall j :: 0 <= j < |idxs| ==> ValidIndex(p, idxs[j])
  }

  /** The position a valid Python index addresses: negative indices count
      from the end. */
  function Normalize(p: Particle, i: int): (k: nat)
    requires ValidIndex(p, i)
    ensures k < |p.atoms|
    ensures k == i || k == i + |p.atoms|
  {
    if i < 0 then |p.atoms| + i else i
  }

  function NormalizeAll(p: Particle, idxs: seq<int>): (ks: seq<nat>)
    requires AllValid(p, idxs)
    ensures |ks| == |idxs|
    ensures forall j :: 0 <= j < |idxs| ==> ks[j] == Normalize(p, idxs[j])
  {
    seq(|idxs|, j requires 0 <= j < |idxs| => Normalize(p, idxs[j]))
  }

  predicate AllLetters(s: string) {
    forall i :: 0 <= i < |s| ==> IsAsciiLetter(s[i])
  }

  /** Every chemical symbol of `p` is a non-empty run of letters, as the
      element symbols ASE uses ("C", "Au", "X") are. */
  predicate LetterSymbols(p: Particle) {
    forall a :: a in p.atoms ==> |a.symbol| >= 1 && AllLetters(a.symbol)
  }
}
