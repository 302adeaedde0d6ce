# Standard genetic code translator, modelled in Dafny

This project models `StandardGeneticCode::translate`, which maps a codon to an
amino acid using the standard genetic code (NCBI translation table 1). It is
part of a C++ sequence-analysis library.

- The integer overload asks the codon alphabet to decode an index into three
  nucleotide positions (A=0, C=1, G=2, T=3). It then runs three nested `switch`
  statements on those positions.
- The switches end in one of three ways:
  - return the proteic index of an amino-acid letter;
  - throw `StopCodonException` with the stop codon's text;
  - fall off the end and throw `BadIntException` on the index.
- The string overload converts the codon text to an index, translates that
  index, and converts the proteic index back to its letter.

Files:

- `alphabets.dfy` (module `Alphabets`): the exceptions as an `Error`
  datatype, a `Result`, codon positions, and radix-4 codon indices. The two
  alphabets are datatypes whose conversions are function-valued fields. Their
  implementations are not part of this model. Any property that depends on
  them takes the needed behaviour as an explicit hypothesis: `DecodesRadix4`
  and `SpellsRadix4` for the codon alphabet, `RoundTrips` for the proteic
  alphabet. Decoding an index may fail; `translate(int)` passes that error on
  unchanged.
- `standard_genetic_code.dfy` (module `StandardGeneticCode`): C `switch`
  semantics without `break` or `default` (`Switch` and `Fall`), and the table
  written as the source's own nested switches. It also holds `Translate` and
  `TranslateText`, the two overloads.
- `standard_genetic_code_properties.dfy` (module
  `StandardGeneticCodeProperties`): an independent reference table (`Box`,
  `TableExit`) and the lemmas that tie the switches to it. Further lemmas cover
  stop codons, methionine, the two-fold and four-fold boxes, and the paths
  taken when a position is out of range.

Several of the source's inner switches have no `break` and no `default`. When
such a switch matches nothing, control falls into the next `case` of the
enclosing switch. The model keeps this behaviour.

- Under first position A, an out-of-range third position behaves as follows:
  - AA falls into AC and returns T.
  - AG falls through AT and then past the end of the A block into the C block,
    where the second-position switch picks CG and returns R.
  - AT falls into the C block in the same way and returns L (from CT).
- TG and TT run off the end of every switch, so they raise BadInt.

Case 2 (G) of the AT switch returns M (Seq/StandardGeneticCode.cpp:48), so ATG
is the only methionine codon, as in translation table 1.

## Model

| member | source | states |
|---|---|---|
| StandardGeneticCode.Switch | Seq/StandardGeneticCode.cpp:26-110 | A `switch` whose selector matches no label skips the whole switch; a matched case that returns or throws is the switch's result |
| StandardGeneticCode.FallOutExactly | Seq/StandardGeneticCode.cpp:26-110 | Control runs off the end of a switch entered at case k exactly when no case from k on returns or throws; otherwise the result is one of those cases |
| StandardGeneticCode.FallStopsAtFirstExit | Seq/StandardGeneticCode.cpp:26-110 | Fallthrough from case k ends at the first later case that returns or throws |
| StandardGeneticCode.Fall | Seq/StandardGeneticCode.cpp:26-110 | Entering a `switch` at case k: past the last case control runs off the end, and a case that returns or throws is the result |
| StandardGeneticCode.CasesA | Seq/StandardGeneticCode.cpp:29-51 | Under first position A: AC returns T whatever the third position; AA and AG decide exactly when the third position is a nucleotide; AT gives M exactly on G and I on the other nucleotides, and falls out otherwise |
| StandardGeneticCode.CasesC | Seq/StandardGeneticCode.cpp:53-67 | Under first position C: CC, CG and CT return P, R and L unconditionally; CA decides exactly when the third position is a nucleotide |
| StandardGeneticCode.CasesG | Seq/StandardGeneticCode.cpp:69-83 | Under first position G: GC, GG and GT return A, G and V unconditionally; GA decides exactly when the third position is a nucleotide |
| StandardGeneticCode.CasesT | Seq/StandardGeneticCode.cpp:85-109 | Under first position T: TC returns S unconditionally; TA stops exactly on third positions A and G, TG exactly on A; TA, TG and TT all decide exactly when the third position is a nucleotide, and TT falls out otherwise |
| StandardGeneticCode.CasesFirst | Seq/StandardGeneticCode.cpp:26-109 | The four cases of the first-position switch; when the second position is not a nucleotide, every one of them runs to its end without returning |
| StandardGeneticCode.TranslatePositions | Seq/StandardGeneticCode.cpp:26-110 | A first position that is not a nucleotide skips the whole switch; three nucleotide positions always return or throw (values given by TableAgreement, BadFirstOrSecondFallsOut and BadThirdFallsThrough) |
| StandardGeneticCode.Translate | Seq/StandardGeneticCode.cpp:24-112 | An error from decoding the index passes through unchanged; otherwise the integer overload raises only StopCodon, with an empty context, or BadInt, and a BadInt names the very index that was passed in |
| StandardGeneticCode.TranslateText | Seq/StandardGeneticCode.cpp:114-116 | The string overload passes on unchanged an error from the codon alphabet's charToInt or from the integer overload; otherwise its result is intToChar of the translated index |
| StandardGeneticCodeProperties.TableExit | Seq/StandardGeneticCode.cpp:26-109 | Reference entry of translation table 1 for a codon: never runs off the end, a stop exactly where the table has '*', carrying the codon's own spelling, otherwise the table's letter |
| StandardGeneticCodeProperties.TableRowA | Seq/StandardGeneticCode.cpp:28-51 | Every codon starting with A gets the table's entry |
| StandardGeneticCodeProperties.TableRowC | Seq/StandardGeneticCode.cpp:52-67 | Every codon starting with C gets the table's entry |
| StandardGeneticCodeProperties.TableRowG | Seq/StandardGeneticCode.cpp:68-83 | Every codon starting with G gets the table's entry |
| StandardGeneticCodeProperties.TableRowT | Seq/StandardGeneticCode.cpp:84-109 | Every codon starting with T gets the table's entry |
| StandardGeneticCodeProperties.TableAgreement | Seq/StandardGeneticCode.cpp:26-109 | For all 64 codons the nested switches give exactly the entry of translation table 1 |
| StandardGeneticCodeProperties.CodonsAreDecided | Seq/StandardGeneticCode.cpp:26-109 | The table is total on codons: no triple of in-range positions runs off the end of the switches |
| StandardGeneticCodeProperties.AminoAcidsAreStandard | Seq/StandardGeneticCode.cpp:26-109 | Every amino acid a codon yields is a single letter among the twenty standard ones |
| StandardGeneticCodeProperties.StopCodonsExactly | Seq/StandardGeneticCode.cpp:90-99 | A codon is a stop exactly when it is TAA, TAG or TGA, and the stop carries that codon's spelling |
| StandardGeneticCodeProperties.StopCodonTexts | Seq/StandardGeneticCode.cpp:90-99 | (3,0,0), (3,0,2) and (3,2,0) stop with "TAA", "TAG" and "TGA" respectively |
| StandardGeneticCodeProperties.MethionineOnlyAtg | Seq/StandardGeneticCode.cpp:45-50 | M is produced by ATG and by no other codon; the other AT codons give I |
| StandardGeneticCodeProperties.TwoFoldBoxes | Seq/StandardGeneticCode.cpp:31-108 | In AA, AG, CA, GA and TT, third positions 0 and 2 give one amino acid, 1 and 3 another, and the two differ |
| StandardGeneticCodeProperties.FourFoldBoxes | Seq/StandardGeneticCode.cpp:37-95 | In AC, CC, CG, CT, GC, GG, GT and TC the amino acid does not depend on the third position, even one out of range |
| StandardGeneticCodeProperties.BadFirstOrSecondFallsOut | Seq/StandardGeneticCode.cpp:26-111 | A first position outside 0..3, or a second position outside 0..3, runs off the end of every switch |
| StandardGeneticCodeProperties.BadThirdFallsThrough | Seq/StandardGeneticCode.cpp:31-109 | With an out-of-range third position: AA gives T, AG gives R, AT gives L, CA gives P, GA gives A and TA gives S; TG and TT run off the end |
| StandardGeneticCodeProperties.TranslateCodon | Seq/StandardGeneticCode.cpp:24-112 | On an index that decodes to a codon, the integer overload returns the proteic index of the table's letter, or a StopCodon error with the codon's text, and never a BadInt |
| StandardGeneticCodeProperties.TranslateBadIndex | Seq/StandardGeneticCode.cpp:24-111 | An index whose first or second position is not a nucleotide raises BadInt carrying that index |
| StandardGeneticCodeProperties.TranslateIndices | Seq/StandardGeneticCode.cpp:24-112 | With radix-4 decoding, none of the indices 0..63 raises BadInt, and exactly 48, 50 and 56 (TAA, TAG, TGA) raise a stop |
| StandardGeneticCodeProperties.TranslateTextOfCodon | Seq/StandardGeneticCode.cpp:114-116 | The string overload agrees with the integer overload: on any text the codon alphabet maps to an index that decodes to a codon, it yields the table's letter, or the stop error, provided the proteic alphabet round-trips that letter |
| StandardGeneticCodeProperties.TranslateSpelling | Seq/StandardGeneticCode.cpp:114-116 | With a codon alphabet that spells and decodes codons radix-4, the string overload on the spelling of each of the 64 codons yields the table's letter, or StopCodon carrying that same spelling |
| StandardGeneticCodeProperties.TranslateCodonIndex | Seq/StandardGeneticCode.cpp:24-112 | With radix-4 decoding, the integer overload on a codon's radix-4 index yields the table's entry for that codon |
| Alphabets.Radix4OfIndex | Seq/StandardGeneticCode.cpp:25 | Radix-4 decoding inverts radix-4 encoding of three positions, which is the decoding `DecodesRadix4` assumes of `getPositions`; used by TranslateCodonIndex and TranslateSpelling |

## Left out

- Construction and destruction of the translator (Seq/StandardGeneticCode.cpp:12-22) are not modelled. They only allocate and free the two alphabets. The model's `GeneticCode` datatype just holds both alphabets.
- How `StandardCodonAlphabet::getPositions`, `StandardCodonAlphabet::charToInt`, `ProteicAlphabet::charToInt` and `ProteicAlphabet::intToChar` work is not part of this model. They are function-valued fields, and the lemmas state what they need of them as hypotheses.
- `ProteicAlphabet::charToInt` is modelled as total, because the table only passes it the twenty standard amino-acid letters.
- The C++ exception specifications (`throw (BadIntException)`, `throw (BadCharException)`) are left out. The model does not capture that a C++ runtime would call `std::unexpected` for an exception outside the specification. Exceptions are `Error` values.
- BadInt carries the index and the origin text "StandardGeneticCode::translate", but not the codon-alphabet pointer that the source also attaches.
- Repeated calls giving the same result hold by construction, because the model consists of pure functions.
- Seq/SequenceApplicationTools.h, which is option-file and sequence-file I/O glue, is not part of this model.
