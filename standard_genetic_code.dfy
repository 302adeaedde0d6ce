/**
  The standard genetic code (NCBI translation table 1) as the source writes
  it: three nested `switch` statements on the nucleotide positions of a codon,
  several of them without `break` or `default`, so that a case whose inner
  switch matches nothing falls into the next case.
 */
module StandardGeneticCode {
  import opened Alphabets

  /**
    How control leaves a block of the switch: by returning the proteic index
    of an amino-acid letter, by throwing a stop codon, or by running off the
    end of the block without doing either.
   */
  datatype Exit = Amino(letter: string) | Stop(codon: string) | FallOut

  /**
    Control enters case `k` of a C switch whose case labels are 0, 1, ...,
    |cases| - 1 in that order and which has no `default`: each case body runs
    in turn until one of them returns or throws.
   */
  function Fall(k: nat, cases: seq<Exit>): (r: Exit)
    requires k <= |cases|
    ensures k == |cases| ==> r == FallOut
    ensures k < |cases| && !cases[k].FallOut? ==> r == cases[k]
    decreases |cases| - k
  {
    if k == |cases| then FallOut
    else if !cases[k].FallOut? then cases[k]
    else Fall(k + 1, cases)
  }

  /**
    A C switch on `selector` with cases labelled 0 .. |cases| - 1 and no
    `default`: a selector without a label skips the whole switch.
   */
  function Switch(selector: int, cases: seq<Exit>): (r: Exit)
    ensures !(0 <= selector < |cases|) ==> r == FallOut
    ensures 0 <= selector < |cases| && !cases[selector].FallOut? ==> r == cases[selector]
  {
    if 0 <= selector < |cases| then Fall(selector, cases) else FallOut
  }

  /** Control runs off the end of a switch exactly when no case from `k` on returns or throws. */
  lemma {:induction false} FallOutExactly(k: nat, cases: seq<Exit>)
    requires k <= |cases|
    ensures Fall(k, cases).FallOut? <==> forall m :: k <= m < |cases| ==> cases[m].FallOut?
    ensures !Fall(k, cases).FallOut? ==> Fall(k, cases) in cases[k..]
    decreases |cases| - k
  {
    if k < |cases| {
      FallOutExactly(k + 1, cases);
    }
  }

  /** Fallthrough stops at the first case that returns or throws. */
  lemma {:induction false} FallStopsAtFirstExit(k: nat, j: nat, cases: seq<Exit>)
    requires k <= j < |cases|
    requires forall m :: k <= m < j ==> cases[m].FallOut?
    requires !cases[j].FallOut?
    ensures Fall(k, cases) == cases[j]
    decreases j - k
  {
    if k < j {
      FallStopsAtFirstExit(k + 1, j, cases);
    }
  }

  const K := Amino("K")  // Lysine
  const N := Amino("N")  // Asparagine
  const T := Amino("T")  // Threonine
  const R := Amino("R")  // Arginine
  const S := Amino("S")  // Serine
  const M := Amino("M")  // Methionine
  const I := Amino("I")  // Isoleucine
  const Q := Amino("Q")  // Glutamine
  const H := Amino("H")  // Histidine
  const P := Amino("P")  // Proline
  const L := Amino("L")  // Leucine
  const E := Amino("E")  // Glutamic acid
  const D := Amino("D")  // Aspartic acid
  const A := Amino("A")  // Alanine
  const G := Amino("G")  // Glycine
  const V := Amino("V")  // Valine
  const Y := Amino("Y")  // Tyrosine
  const W := Amino("W")  // Tryptophane
  const C := Amino("C")  // Cysteine
  const F := Amino("F")  // Phenylalanine

  /** The twenty amino-acid letters the table can return. */
  const AminoLetters := "ACDEFGHIKLMNPQRSTVWY"

  /** Cases 0..3 of the switch on the second position under `case 0 : //A`. */
  function CasesA(third: int): (cases: seq<Exit>)
    ensures |cases| == 4 && cases[1] == T
    ensures !cases[0].FallOut? <==> 0 <= third < 4
    ensures !cases[2].FallOut? <==> 0 <= third < 4
    ensures cases[3] == M <==> third == 2
    ensures cases[3] == I <==> 0 <= third < 4 && third != 2
    ensures cases[3].FallOut? <==> !(0 <= third < 4)
  {
    [ Switch(third, [K, N, K, N]),   // AA
      T,                             // AC
      Switch(third, [R, S, R, S]),   // AG
      Switch(third, [I, I, M, I]) ]  // AT
  }

  /** Cases 0..3 of the switch on the second position under `case 1 : //C`. */
  function CasesC(third: int): (cases: seq<Exit>)
    ensures |cases| == 4 && cases[1..] == [P, R, L]
    ensures !cases[0].FallOut? <==> 0 <= third < 4
  {
    [ Switch(third, [Q, H, Q, H]),   // CA
      P,                             // CC
      R,                             // CG
      L ]                            // CT
  }

  /** Cases 0..3 of the switch on the second position under `case 2 : //G`. */
  function CasesG(third: int): (cases: seq<Exit>)
    ensures |cases| == 4 && cases[1..] == [A, G, V]
    ensures !cases[0].FallOut? <==> 0 <= third < 4
  {
    [ Switch(third, [E, D, E, D]),   // GA
      A,                             // GC
      G,                             // GG
      V ]                            // GT
  }

  /** Cases 0..3 of the switch on the second position under `case 3 : //T(U)`. */
  function CasesT(third: int): (cases: seq<Exit>)
    ensures |cases| == 4 && cases[1] == S
    ensures cases[0].Stop? <==> third == 0 || third == 2
    ensures cases[2].Stop? <==> third == 0
    ensures !cases[0].FallOut? && !cases[2].FallOut? && !cases[3].FallOut? <==> 0 <= third < 4
    ensures cases[3].FallOut? <==> !(0 <= third < 4)
  {
    [ Switch(third, [Stop("TAA"), Y, Stop("TAG"), Y]),  // TA
      S,                                                // TC
      Switch(third, [Stop("TGA"), C, W, C]),            // TG
      Switch(third, [L, F, L, F]) ]                     // TT
  }

  /** Cases 0..3 of the switch on the first position. */
  function CasesFirst(second: int, third: int): (cases: seq<Exit>)
    ensures |cases| == 4
    ensures !(0 <= second < 4) ==> forall m :: 0 <= m < 4 ==> cases[m].FallOut?
  {
    [ Switch(second, CasesA(third)),
      Switch(second, CasesC(third)),
      Switch(second, CasesG(third)),
      Switch(second, CasesT(third)) ]
  }

  /**
    The decision table of `StandardGeneticCode::translate(int)`, with the
    fallthrough of its nested switches. Every inner switch on the third
    position lists one exit per label 0, 1, 2, 3; the cases of each group
    (`case 0 : case 2 :`) all return, so their order does not matter there.
   */
  function TranslatePositions(p: Positions): (r: Exit)
    ensures !(0 <= p.first < 4) ==> r == FallOut
    ensures 0 <= p.first < 4 && 0 <= p.second < 4 && 0 <= p.third < 4 ==> !r.FallOut?
  {
    Switch(p.first, CasesFirst(p.second, p.third))
  }

  /** The translator object: its two alphabets, set once at construction. */
  datatype GeneticCode = GeneticCode(codonAlphabet: CodonAlphabet, proteicAlphabet: ProteicAlphabet)

  /** Where the BadInt error of the integer overload says it comes from. */
  const TranslateOrigin := "StandardGeneticCode::translate"

  /**
    `translate(int)`: decode the index, run the table; an amino acid becomes
    its proteic index, a stop codon a StopCodon error with an empty context,
    and a run off the end of every switch a BadInt error on the index. An
    error from decoding the index passes through unchanged.
   */
  function Translate(code: GeneticCode, i: int): (r: Result<int>)
    ensures code.codonAlphabet.getPositions(i).Err? ==>
              r == Err(code.codonAlphabet.getPositions(i).error)
    ensures code.codonAlphabet.getPositions(i).Ok? && r.Err? ==>
              r.error.StopCodon? || r.error.BadInt?
    ensures code.codonAlphabet.getPositions(i).Ok? && r.Err? && r.error.BadInt? ==>
              r.error == BadInt(i, TranslateOrigin)
    ensures code.codonAlphabet.getPositions(i).Ok? && r.Err? && r.error.StopCodon? ==>
              r.error.context == ""
  {
    match code.codonAlphabet.getPositions(i)
    case Err(e) => Err(e)
    case Ok(p) =>
      match TranslatePositions(p)
      case Amino(letter) => Ok(code.proteicAlphabet.charToInt(letter))
      case Stop(codon) => Err(StopCodon("", codon))
      case FallOut => Err(BadInt(i, TranslateOrigin))
  }

  /**
    `translate(string)`: codon spelling to index, index to proteic index,
    proteic index to letter; the first error met is the result.
   */
  function TranslateText(code: GeneticCode, c: string): (r: Result<string>)
    ensures code.codonAlphabet.charToInt(c).Err? ==>
              r == Err(code.codonAlphabet.charToInt(c).error)
    ensures code.codonAlphabet.charToInt(c).Ok? ==>
              var n := Translate(code, code.codonAlphabet.charToInt(c).value);
              r == if n.Err? then Err(n.error) else code.proteicAlphabet.intToChar(n.value)
    ensures r.Ok? ==>
              && code.codonAlphabet.charToInt(c).Ok?
              && Translate(code, code.codonAlphabet.charToInt(c).value).Ok?
  {
    match code.codonAlphabet.charToInt(c)
    case Err(e) => Err(e)
    case Ok(i) =>
      match Translate(code, i)
      case Err(e) => Err(e)
      case Ok(n) => code.proteicAlphabet.intToChar(n)
  }
}
