/**
 * The chiral flag of the counts line. A V2000 counts line is
 * "aaabbblllfffcccsssxxxrrrpppiiimmmvvvvvv": the numbers of atoms and bonds,
 * the number of atom lists, an obsolete field, then the chiral flag. Both
 * readers take the chirality from the fourth field, the obsolete one; here
 * that reading is shown to turn a chiral molecule achiral, and the reading
 * from the fifth field is shown to give the flag back.
 */
module Chirality {
  import opened Wrappers
  import opened Text
  import opened MolLines
  import MolParser
  import Molecule
  import ParseFacts

  /**
   * The fields of a V2000 counts line: the numbers of atoms and bonds, no
   * atom lists, the obsolete field 0, the chiral flag, five more zero fields,
   * and 999 property lines.
   */
  function CountsFields(natoms: int, nbonds: int, chiral: bool): seq<int>
  {
    [natoms, nbonds, 0, 0, if chiral then 1 else 0, 0, 0, 0, 0, 999]
  }

  /** A V2000 counts line written with single spaces, its format stamp last. */
  function CountsLine(natoms: int, nbonds: int, chiral: bool): string
  {
    Join(Printed(CountsFields(natoms, nbonds, chiral)) + ["V2000"], " ")
  }

  /** Both readers read the fields of such a line back, every one of them an integer. */
  lemma CountsLineRead(natoms: int, nbonds: int, chiral: bool)
    ensures CountsValues(CountsLine(natoms, nbonds, chiral)) == Somes(CountsFields(natoms, nbonds, chiral))
    ensures Molecule.StrictCounts(CountsLine(natoms, nbonds, chiral)) == Some(CountsFields(natoms, nbonds, chiral))
  {
    CountsRoundTrip(CountsFields(natoms, nbonds, chiral), "V2000");
    AllReadSomes(CountsFields(natoms, nbonds, chiral));
  }

  /**
   * As written, both readers read the counts line of a chiral molecule as
   * achiral: the fourth field they take the flag from is the obsolete one.
   */
  lemma ChiralFlagMisread(file: seq<string>, natoms: int, nbonds: int)
    requires |file| >= 4 && file[3] == CountsLine(natoms, nbonds, true)
    ensures MolParser.CountsStage(file, MolParser.Fresh).chiral == Set(Some(false))
    ensures Molecule.CountsParsed(file, Molecule.Fresh).fields.chiral == Set(false)
  {
    CountsLineRead(natoms, nbonds, true);
  }

  /** The counts values with the obsolete fourth field taken out, so that the chiral flag comes fourth. */
  function WithoutObsolete(block: seq<Option<int>>): (r: seq<Option<int>>)
    ensures |r| == if |block| < 4 then |block| else |block| - 1
    ensures |r| >= 4 ==> r[3] == block[4]
    ensures forall i :: 0 <= i < 3 && i < |block| ==> r[i] == block[i]
  {
    if |block| < 4 then block else block[..3] + block[4..]
  }

  /**
   * The counts stage of `MolParser.py` as evidently intended: the same
   * values and warnings, but the chirality read from the fifth field.
   */
  function CorrectedCountsStage(file: seq<string>, s: MolParser.Fields): MolParser.Fields
    requires |file| >= 4
  {
    var block := CountsValues(file[3]);
    MolParser.Assigned(file, WithoutObsolete(block), s.(warnings := s.warnings + MolParser.CountsWarnings(block)))
  }

  /** Corrected, the chirality, once set, is the fifth counts field read as a flag. */
  lemma CorrectedChiralityFromCounts(file: seq<string>)
    requires |file| >= 4
    ensures CorrectedCountsStage(file, MolParser.Fresh).chiral.Set? ==>
              |CountsValues(file[3])| >= 5 &&
              CorrectedCountsStage(file, MolParser.Fresh).chiral == Set(MolParser.FlagValue(CountsValues(file[3])[4]))
  {
    var block := CountsValues(file[3]);
    ParseFacts.AssignedChirality(file, WithoutObsolete(block), MolParser.Fresh.(warnings := MolParser.CountsWarnings(block)));
  }

  /** Corrected, the counts line of a V2000 molfile reads back with its chiral flag. */
  lemma CorrectedChiralityRead(file: seq<string>, natoms: int, nbonds: int, chiral: bool)
    requires |file| >= 4 && file[3] == CountsLine(natoms, nbonds, chiral)
    ensures CorrectedCountsStage(file, MolParser.Fresh).natoms == Set(natoms)
    ensures CorrectedCountsStage(file, MolParser.Fresh).nbonds == Set(nbonds)
    ensures CorrectedCountsStage(file, MolParser.Fresh).chiral == Set(Some(chiral))
  {
    CountsLineRead(natoms, nbonds, chiral);
  }
}
