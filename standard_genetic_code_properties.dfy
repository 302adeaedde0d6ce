/**
  What the decision table of the standard genetic code guarantees: agreement
  with NCBI translation table 1 on all 64 codons, the three stop codons, the
  single methionine codon, the two-fold and four-fold boxes, and where the
  fallthrough of the switches leads on positions outside 0..3. Then the same
  facts lifted to both `translate` overloads.
 */
module StandardGeneticCodeProperties {
  import opened Alphabets
  import opened StandardGeneticCode

  /**
    NCBI translation table 1, box by box: the box of a first and a second
    position lists the amino acids of its four codons by third position
    (A, C, G, T); '*' marks a stop codon.
   */
  function Box(first: int, second: int): (box: string)
    requires 0 <= first < 4 && 0 <= second < 4
    ensures |box| == 4
  {
    if first == 0 then
      if second == 0 then "KNKN" else if second == 1 then "TTTT"
      else if second == 2 then "RSRS" else "IIMI"
    else if first == 1 then
      if second == 0 then "QHQH" else if second == 1 then "PPPP"
      else if second == 2 then "RRRR" else "LLLL"
    else if first == 2 then
      if second == 0 then "EDED" else if second == 1 then "AAAA"
      else if second == 2 then "GGGG" else "VVVV"
    else
      if second == 0 then "*Y*Y" else if second == 1 then "SSSS"
      else if second == 2 then "*CWC" else "LFLF"
  }

  /** The table's entry for a codon: the amino acid, or a stop carrying the codon's own spelling. */
  function TableExit(p: Positions): (r: Exit)
    requires InRange(p)
    ensures !r.FallOut?
    ensures r.Stop? <==> Box(p.first, p.second)[p.third] == '*'
    ensures r.Stop? ==> r.codon == CodonText(p)
    ensures r.Amino? ==> r.letter == [Box(p.first, p.second)[p.third]]
  {
    var c := Box(p.first, p.second)[p.third];
    if c == '*' then Stop(CodonText(p)) else Amino([c])
  }

  /** Every codon whose first position is A gets its entry of translation table 1. */
  lemma TableRowA(p: Positions)
    requires InRange(p) && p.first == 0
    ensures TranslatePositions(p) == TableExit(p)
  {
    var b, c := p.second, p.third;
    var box := CasesA(c)[b];
    assert c == 0 || c == 1 || c == 2 || c == 3;
    assert !box.FallOut? && box == TableExit(p) by {
      if b == 0 {} else if b == 1 {} else if b == 2 {} else {}
    }
    assert CasesFirst(b, c)[0] == box;
  }

  /** Every codon whose first position is C gets its entry of translation table 1. */
  lemma TableRowC(p: Positions)
    requires InRange(p) && p.first == 1
    ensures TranslatePositions(p) == TableExit(p)
  {
    var b, c := p.second, p.third;
    var box := CasesC(c)[b];
    assert c == 0 || c == 1 || c == 2 || c == 3;
    assert !box.FallOut? && box == TableExit(p) by {
      if b == 0 {} else if b == 1 {} else if b == 2 {} else {}
    }
    assert CasesFirst(b, c)[1] == box;
  }

  /** Every codon whose first position is G gets its entry of translation table 1. */
  lemma TableRowG(p: Positions)
    requires InRange(p) && p.first == 2
    ensures TranslatePositions(p) == TableExit(p)
  {
    var b, c := p.second, p.third;
    var box := CasesG(c)[b];
    assert c == 0 || c == 1 || c == 2 || c == 3;
    assert !box.FallOut? && box == TableExit(p) by {
      if b == 0 {} else if b == 1 {} else if b == 2 {} else {}
    }
    assert CasesFirst(b, c)[2] == box;
  }

  /** Every codon whose first position is T gets its entry of translation table 1. */
  lemma TableRowT(p: Positions)
    requires InRange(p) && p.first == 3
    ensures TranslatePositions(p) == TableExit(p)
  {
    var b, c := p.second, p.third;
    var box := CasesT(c)[b];
    assert c == 0 || c == 1 || c == 2 || c == 3;
    assert !box.FallOut? && box == TableExit(p) by {
      if b == 0 {} else if b == 1 {} else if b == 2 {} else {}
    }
    assert CasesFirst(b, c)[3] == box;
  }

  /** On every codon, the switch returns exactly what translation table 1 says. */
  lemma TableAgreement(p: Positions)
    requires InRange(p)
    ensures TranslatePositions(p) == TableExit(p)
  {
    if p.first == 0 {
      TableRowA(p);
    } else if p.first == 1 {
      TableRowC(p);
    } else if p.first == 2 {
      TableRowG(p);
    } else {
      TableRowT(p);
    }
  }

  /** The table is total on codons: no codon runs off the end of the switches. */
  lemma CodonsAreDecided(p: Positions)
    requires InRange(p)
    ensures !TranslatePositions(p).FallOut?
  {
    TableAgreement(p);
  }

  /** Every amino acid the table returns is one of the twenty standard letters. */
  lemma AminoAcidsAreStandard(p: Positions)
    requires InRange(p)
    requires TranslatePositions(p).Amino?
    ensures |TranslatePositions(p).letter| == 1
    ensures TranslatePositions(p).letter[0] in AminoLetters
  {
    TableAgreement(p);
    var c := p.third;
    assert c == 0 || c == 1 || c == 2 || c == 3;
  }

  /** Exactly TAA, TAG and TGA are stop codons, and each stop carries its own spelling. */
  lemma StopCodonsExactly(p: Positions)
    requires InRange(p)
    ensures TranslatePositions(p).Stop? <==>
              p == Positions(3, 0, 0) || p == Positions(3, 0, 2) || p == Positions(3, 2, 0)
    ensures TranslatePositions(p).Stop? ==> TranslatePositions(p).codon == CodonText(p)
  {
    TableAgreement(p);
    var c := p.third;
    assert c == 0 || c == 1 || c == 2 || c == 3;
  }

  /** The three stop codons and their texts. */
  lemma StopCodonTexts()
    ensures TranslatePositions(Positions(3, 0, 0)) == Stop("TAA")
    ensures TranslatePositions(Positions(3, 0, 2)) == Stop("TAG")
    ensures TranslatePositions(Positions(3, 2, 0)) == Stop("TGA")
  {
    StopCodonsExactly(Positions(3, 0, 0));
    StopCodonsExactly(Positions(3, 0, 2));
    StopCodonsExactly(Positions(3, 2, 0));
  }

  /** ATG is the only methionine codon; the other AT codons give isoleucine. */
  lemma MethionineOnlyAtg(p: Positions)
    requires InRange(p)
    ensures TranslatePositions(p) == M <==> p == Positions(0, 3, 2)
    ensures p.first == 0 && p.second == 3 && p.third != 2 ==> TranslatePositions(p) == I
  {
    TableAgreement(p);
    var c := p.third;
    assert c == 0 || c == 1 || c == 2 || c == 3;
  }

  /** The boxes AA, AG, CA, GA and TT, where the purines (A, G) and the pyrimidines (C, T) at the third position each code for one amino acid. */
  predicate TwoFold(first: int, second: int) {
    (first, second) in {(0, 0), (0, 2), (1, 0), (2, 0), (3, 3)}
  }

  /** In a two-fold box, third positions 0 and 2 agree, 1 and 3 agree, and the two pairs differ. */
  lemma TwoFoldBoxes(first: int, second: int)
    requires TwoFold(first, second)
    ensures TranslatePositions(Positions(first, second, 0)) == TranslatePositions(Positions(first, second, 2))
    ensures TranslatePositions(Positions(first, second, 1)) == TranslatePositions(Positions(first, second, 3))
    ensures TranslatePositions(Positions(first, second, 0)) != TranslatePositions(Positions(first, second, 1))
    ensures TranslatePositions(Positions(first, second, 0)).Amino?
  {
    TableAgreement(Positions(first, second, 0));
    TableAgreement(Positions(first, second, 1));
    TableAgreement(Positions(first, second, 2));
    TableAgreement(Positions(first, second, 3));
  }

  /** The boxes AC, CC, CG, CT, GC, GG, GT and TC, whose case returns without looking at the third position. */
  predicate FourFold(first: int, second: int) {
    (first, second) in {(0, 1), (1, 1), (1, 2), (1, 3), (2, 1), (2, 2), (2, 3), (3, 1)}
  }

  /** In a four-fold box the amino acid does not depend on the third position, whatever its value. */
  lemma FourFoldBoxes(first: int, second: int, third: int)
    requires FourFold(first, second)
    ensures TranslatePositions(Positions(first, second, third)) == TranslatePositions(Positions(first, second, 0))
    ensures TranslatePositions(Positions(first, second, 0)).Amino?
  {
    TableAgreement(Positions(first, second, 0));
  }

  /** A first position outside 0..3, or a second one outside 0..3, runs off the end of every switch. */
  lemma BadFirstOrSecondFallsOut(p: Positions)
    requires !(0 <= p.first < 4) || !(0 <= p.second < 4)
    ensures TranslatePositions(p) == FallOut
  {
    if 0 <= p.first < 4 {
      FallOutExactly(p.first, CasesFirst(p.second, p.third));
    }
  }

  /**
    A third position outside 0..3 leaves a box's inner switch unmatched and
    control falls into the next case: within a row, into the next box, and past
    the row's last box into the next row's box of the same second position.
   */
  lemma BadThirdFallsThrough(p: Positions)
    requires 0 <= p.first < 4 && 0 <= p.second < 4 && !(0 <= p.third < 4)
    ensures p.first == 0 && p.second == 0 ==> TranslatePositions(p) == T  // AA into AC
    ensures p.first == 0 && p.second == 2 ==> TranslatePositions(p) == R  // AG, AT into CG
    ensures p.first == 0 && p.second == 3 ==> TranslatePositions(p) == L  // AT into CT
    ensures p.first == 1 && p.second == 0 ==> TranslatePositions(p) == P  // CA into CC
    ensures p.first == 2 && p.second == 0 ==> TranslatePositions(p) == A  // GA into GC
    ensures p.first == 3 && p.second == 0 ==> TranslatePositions(p) == S  // TA into TC
    ensures p.first == 3 && p.second >= 2 ==> TranslatePositions(p) == FallOut  // TG, TT off the end
  {
    var first, second, third := p.first, p.second, p.third;
    var rows := CasesFirst(second, third);
    if first == 0 && second >= 2 {
      FallOutExactly(second, CasesA(third));
      FallStopsAtFirstExit(0, 1, rows);
    } else if first == 3 && second >= 2 {
      FallOutExactly(second, CasesT(third));
      FallOutExactly(3, rows);
    } else if second == 0 {
      var cases := if first == 0 then CasesA(third) else if first == 1 then CasesC(third)
                   else if first == 2 then CasesG(third) else CasesT(third);
      assert rows[first] == Fall(0, cases);
      FallStopsAtFirstExit(0, 1, cases);
    }
  }

  /**
    `translate(int)` on an index that decodes to a codon gives what translation
    table 1 says: the proteic index of the amino acid, or a StopCodon error
    carrying the codon's spelling; never a BadInt error.
   */
  lemma TranslateCodon(code: GeneticCode, i: int, p: Positions)
    requires code.codonAlphabet.getPositions(i) == Ok(p)
    requires InRange(p)
    ensures var c := Box(p.first, p.second)[p.third];
            Translate(code, i) ==
              if c == '*' then Err(StopCodon("", CodonText(p)))
              else Ok(code.proteicAlphabet.charToInt([c]))
  {
    TableAgreement(p);
  }

  /** `translate(int)` throws BadInt on the index itself when its first or second position is not a nucleotide. */
  lemma TranslateBadIndex(code: GeneticCode, i: int, p: Positions)
    requires code.codonAlphabet.getPositions(i) == Ok(p)
    requires !(0 <= p.first < 4) || !(0 <= p.second < 4)
    ensures Translate(code, i) == Err(BadInt(i, TranslateOrigin))
  {
    BadFirstOrSecondFallsOut(p);
  }

  /**
    With radix-4 decoding, the 64 codon indices are never a BadInt, and
    exactly the indices of TAA (48), TAG (50) and TGA (56) are stop codons.
   */
  lemma TranslateIndices(code: GeneticCode, i: int)
    requires DecodesRadix4(code.codonAlphabet)
    requires 0 <= i < 64
    ensures Translate(code, i).Err? <==> i == 48 || i == 50 || i == 56
    ensures Translate(code, i).Err? ==> Translate(code, i).error.StopCodon?
  {
    var p := Radix4(i);
    assert code.codonAlphabet.getPositions(i) == Ok(p);
    CodonsAreDecided(p);
    StopCodonsExactly(p);
  }

  /**
    With radix-4 decoding, translating a codon's radix-4 index gives that
    codon's entry of translation table 1.
   */
  lemma TranslateCodonIndex(code: GeneticCode, p: Positions)
    requires DecodesRadix4(code.codonAlphabet)
    requires InRange(p)
    ensures var c := Box(p.first, p.second)[p.third];
            Translate(code, CodonIndex(p)) ==
              if c == '*' then Err(StopCodon("", CodonText(p)))
              else Ok(code.proteicAlphabet.charToInt([c]))
  {
    Radix4OfIndex(p);
    TranslateCodon(code, CodonIndex(p), p);
  }

  /**
    `translate(string)` on any text the codon alphabet maps to an index that
    decodes to a codon gives the amino-acid letter of translation table 1, or
    its StopCodon error, provided the proteic alphabet gives that letter back
    from its own index.
   */
  lemma TranslateTextOfCodon(code: GeneticCode, c: string, i: int, p: Positions)
    requires code.codonAlphabet.charToInt(c) == Ok(i)
    requires code.codonAlphabet.getPositions(i) == Ok(p)
    requires InRange(p)
    requires var letter := Box(p.first, p.second)[p.third];
             letter != '*' ==> RoundTrips(code.proteicAlphabet, [letter])
    ensures var letter := Box(p.first, p.second)[p.third];
            TranslateText(code, c) ==
              if letter == '*' then Err(StopCodon("", CodonText(p))) else Ok([letter])
  {
    TranslateCodon(code, i, p);
  }

  /**
    When the codon alphabet spells and decodes codons radix-4, `translate` on
    the three-letter spelling of any codon gives its letter of translation
    table 1, or StopCodon carrying that same spelling.
   */
  lemma TranslateSpelling(code: GeneticCode, p: Positions)
    requires DecodesRadix4(code.codonAlphabet) && SpellsRadix4(code.codonAlphabet)
    requires InRange(p)
    requires var letter := Box(p.first, p.second)[p.third];
             letter != '*' ==> RoundTrips(code.proteicAlphabet, [letter])
    ensures var letter := Box(p.first, p.second)[p.third];
            TranslateText(code, CodonText(p)) ==
              if letter == '*' then Err(StopCodon("", CodonText(p))) else Ok([letter])
  {
    var i := CodonIndex(p);
    Radix4OfIndex(p);
    assert code.codonAlphabet.charToInt(CodonText(Radix4(i))) == Ok(i);
    TranslateTextOfCodon(code, CodonText(p), i, p);
  }
}
