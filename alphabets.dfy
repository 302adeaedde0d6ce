/**
  The collaborators the standard genetic code relies on: the codon alphabet
  (index -> three nucleotide positions, codon text -> index) and the proteic
  alphabet (amino-acid letter <-> index). Their implementations are not part
  of this model, so each conversion is a function-valued field: every property
  that depends on how they behave takes that behaviour as an explicit
  hypothesis (see `DecodesRadix4` and `RoundTrips`).
 */
module Alphabets {

  /** The exceptions of the translator, as values. */
  datatype Error =
    | BadChar(text: string)                    // BadCharException: not a codon spelling
    | BadInt(index: int, origin: string)       // BadIntException: index is not a codon
    | StopCodon(context: string, codon: string)  // StopCodonException: carries the triplet text

  datatype Result<T> = Ok(value: T) | Err(error: Error)

  /** The three nucleotide positions of a codon, coded A=0, C=1, G=2, T=3. */
  datatype Positions = Positions(first: int, second: int, third: int)

  /** True when every position is one of the four nucleotides. */
  predicate InRange(p: Positions) {
    0 <= p.first < 4 && 0 <= p.second < 4 && 0 <= p.third < 4
  }

  /** Letter of one nucleotide position. */
  function Base(k: int): (c: char)
    requires 0 <= k < 4
    ensures c in "ACGT"
    ensures k == 0 <==> c == 'A'
    ensures k == 3 <==> c == 'T'
  {
    "ACGT"[k]
  }

  /** The three-letter spelling of a codon. */
  function CodonText(p: Positions): (s: string)
    requires InRange(p)
    ensures |s| == 3
    ensures s[0] == Base(p.first) && s[1] == Base(p.second) && s[2] == Base(p.third)
  {
    [Base(p.first), Base(p.second), Base(p.third)]
  }

  /** Radix-4 index of a codon, first position most significant. */
  function CodonIndex(p: Positions): (i: int)
    requires InRange(p)
    ensures 0 <= i < 64
  {
    16 * p.first + 4 * p.second + p.third
  }

  /** Radix-4 decoding of an index into its three positions. */
  function Radix4(i: int): (p: Positions)
    requires 0 <= i < 64
    ensures InRange(p)
    ensures CodonIndex(p) == i
  {
    Positions(i / 16, (i / 4) % 4, i % 4)
  }

  /** Decoding after encoding gives back the codon. */
  lemma Radix4OfIndex(p: Positions)
    requires InRange(p)
    ensures Radix4(CodonIndex(p)) == p
  {
    var i, low := CodonIndex(p), 4 * p.second + p.third;
    assert 0 <= low < 16 && i == 16 * p.first + low;
    assert i / 16 == p.first;
    assert i / 4 == 4 * p.first + p.second;
    assert i % 4 == p.third;
  }

  /**
    The codon alphabet: `getPositions` decodes a codon index into its three
    positions or fails with whatever exception the alphabet raises,
    `charToInt` maps a codon spelling to its index or fails with BadChar.
   */
  datatype CodonAlphabet = CodonAlphabet(
    getPositions: int -> Result<Positions>,
    charToInt: string -> Result<int>)

  /**
    The proteic alphabet: `charToInt` gives the index of an amino-acid letter,
    `intToChar` the letter of an index (or an error for an unknown index).
   */
  datatype ProteicAlphabet = ProteicAlphabet(
    charToInt: string -> int,
    intToChar: int -> Result<string>)

  /** Hypothesis: the codon alphabet decodes the 64 codon indices radix-4. */
  ghost predicate DecodesRadix4(ca: CodonAlphabet) {
    forall i :: 0 <= i < 64 ==> ca.getPositions(i) == Ok(Radix4(i))
  }

  /** Hypothesis: the codon alphabet maps the spelling of each of the 64 codons to its radix-4 index. */
  ghost predicate SpellsRadix4(ca: CodonAlphabet) {
    forall i :: 0 <= i < 64 ==> ca.charToInt(CodonText(Radix4(i))) == Ok(i)
  }

  /** Hypothesis: the proteic alphabet gives back `letter` from its own index. */
  ghost predicate RoundTrips(pa: ProteicAlphabet, letter: string) {
    pa.intToChar(pa.charToInt(letter)) == Ok(letter)
  }
}
