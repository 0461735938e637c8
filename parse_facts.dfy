/**
 * What a whole parse gives. `Parsed(file, Fresh)` is the state of a new
 * `MolParser(file)` (its constructor's postcondition); its counts block is
 * `CountsValues(file[3])`. Each stage is described by a lemma about the
 * function that specifies it, and the parse by lemmas that chain them.
 */
module ParseFacts {
  import opened Wrappers
  import opened Text
  import opened MolLines
  import opened MolParser


  /** The attributes of the counts stage, which the later stages keep, and its warnings, which they extend. */
  lemma CountsStageKept(file: seq<string>)
    requires |file| >= 4
    ensures Parsed(file, Fresh).natoms == CountsStage(file, Fresh).natoms
    ensures Parsed(file, Fresh).nbonds == CountsStage(file, Fresh).nbonds
    ensures Parsed(file, Fresh).chiral == CountsStage(file, Fresh).chiral
    ensures CountsStage(file, Fresh).warnings <= Parsed(file, Fresh).warnings
    ensures CountsStage(file, Fresh).raised.Some? ==> Parsed(file, Fresh) == CountsStage(file, Fresh)
  {
  }

  /** A readable first counts field is the number of atoms. */
  lemma NatomsFromCounts(file: seq<string>)
    requires |file| >= 4
    requires |CountsValues(file[3])| >= 1 && CountsValues(file[3])[0].Some?
    ensures Parsed(file, Fresh).natoms == Set(CountsValues(file[3])[0].value)
  {
  }

  /**
   * An unreadable first counts field is replaced by the number of lines,
   * after the counts line, before the first without a '.', with a warning
   * right after those about the counts line.
   */
  lemma NatomsFromGuess(file: seq<string>, n: nat)
    requires |file| >= 4
    requires |CountsValues(file[3])| >= 1 && CountsValues(file[3])[0].None?
    requires FirstWithout(Slice(file, 4, |file|), '.') == Some(n)
    ensures Parsed(file, Fresh).natoms == Set(n)
    ensures CountsWarnings(CountsValues(file[3])) + [NatomsEstimated] <= Parsed(file, Fresh).warnings
  {
    CountsStageKept(file);
    var block := CountsValues(file[3]);
    AssignedGuess(file, block, Fresh.(warnings := Fresh.warnings + CountsWarnings(block)), n);
    assert Fresh.warnings + CountsWarnings(block) == CountsWarnings(block);
  }

  lemma AssignedGuess(file: seq<string>, block: seq<Option<int>>, s: Fields, n: nat)
    requires |block| >= 1 && block[0].None?
    requires FirstWithout(Slice(file, 4, |file|), '.') == Some(n)
    ensures Assigned(file, block, s).natoms == Set(n)
    ensures s.warnings + [NatomsEstimated] <= Assigned(file, block, s).warnings
  {
    var s1 := NatomsStep(file, block[0], s);
    assert s1.warnings == s.warnings + [NatomsEstimated];
    if |block| >= 2 {
      assert s1.warnings <= NbondsStep(file, block[1], s1).warnings;
    }
  }

  /** When every line after the counts line holds a '.', the parse ends in a CorruptedFileWarning with nothing set. */
  lemma NatomsNotEstimated(file: seq<string>)
    requires |file| >= 4
    requires |CountsValues(file[3])| >= 1 && CountsValues(file[3])[0].None?
    requires forall i :: 4 <= i < |file| ==> '.' in file[i]
    ensures Parsed(file, Fresh) ==
            Fresh.(warnings := CountsWarnings(CountsValues(file[3])), raised := Some(CorruptedFileWarning))
  {
    var lines := Slice(file, 4, |file|);
    assert forall i :: 0 <= i < |lines| ==> lines[i] == file[4 + i];
  }

  /** The number of atoms the counts stage settles on, when it settles on one. */
  predicate NatomsFound(file: seq<string>, n: int)
    requires |file| >= 4 && |CountsValues(file[3])| >= 1
  {
    var first := CountsValues(file[3])[0];
    first == Some(n) || (first.None? && FirstWithout(Slice(file, 4, |file|), '.') == Some(n))
  }

  /** A readable second counts field is the number of bonds. */
  lemma NbondsFromCounts(file: seq<string>, n: int)
    requires |file| >= 4 && |CountsValues(file[3])| >= 2 && NatomsFound(file, n)
    requires CountsValues(file[3])[1].Some?
    ensures Parsed(file, Fresh).natoms == Set(n)
    ensures Parsed(file, Fresh).nbonds == Set(CountsValues(file[3])[1].value)
  {
    CountsStageKept(file);
    var block := CountsValues(file[3]);
    AssignedKeeps(file, block, Fresh.(warnings := Fresh.warnings + CountsWarnings(block)));
  }

  /**
   * An unreadable second counts field is replaced by the number of lines,
   * after the atoms block, before the first starting with 'M'.
   */
  lemma NbondsFromGuess(file: seq<string>, n: int, m: nat)
    requires |file| >= 4 && |CountsValues(file[3])| >= 2 && NatomsFound(file, n)
    requires CountsValues(file[3])[1].None?
    requires ScanForM(Slice(file, 4 + n, |file|)) == Found(m)
    ensures Parsed(file, Fresh).nbonds == Set(m)
    ensures NbondsEstimated in Parsed(file, Fresh).warnings
  {
    CountsStageKept(file);
    var block := CountsValues(file[3]);
    AssignedNbondsGuess(file, block, Fresh.(warnings := Fresh.warnings + CountsWarnings(block)), n);
    InPrefix(NbondsEstimated, CountsStage(file, Fresh).warnings, Parsed(file, Fresh).warnings);
  }

  /**
   * With no line starting with 'M' to count the bonds by, `nbonds` is
   * never set and reading it in `_parse_mol` raises: no bonds are set.
   */
  lemma NbondsLeftUnset(file: seq<string>, n: int)
    requires |file| >= 4 && |CountsValues(file[3])| >= 2 && NatomsFound(file, n)
    requires CountsValues(file[3])[1].None?
    requires ScanForM(Slice(file, 4 + n, |file|)) == NotFound
    ensures Parsed(file, Fresh).nbonds.Unset? && Parsed(file, Fresh).bonds.Unset?
    ensures Parsed(file, Fresh).raised.Some?
    ensures NbondsNotEstimated in Parsed(file, Fresh).warnings
  {
    CountsStageKept(file);
    var block := CountsValues(file[3]);
    AssignedNbondsGuess(file, block, Fresh.(warnings := Fresh.warnings + CountsWarnings(block)), n);
    InPrefix(NbondsNotEstimated, CountsStage(file, Fresh).warnings, Parsed(file, Fresh).warnings);
    UnsetNbondsRaise(file);
  }

  /** The counts stage with an unreadable number of bonds: the guess, or a warning and no number. */
  lemma AssignedNbondsGuess(file: seq<string>, block: seq<Option<int>>, s: Fields, n: int)
    requires s.raised.None? && |block| >= 2 && block[1].None?
    requires block[0] == Some(n) || (block[0].None? && FirstWithout(Slice(file, 4, |file|), '.') == Some(n))
    ensures ScanForM(Slice(file, 4 + n, |file|)).Found? ==>
              Assigned(file, block, s).nbonds == Set(ScanForM(Slice(file, 4 + n, |file|)).index) &&
              NbondsEstimated in Assigned(file, block, s).warnings
    ensures ScanForM(Slice(file, 4 + n, |file|)).NotFound? ==>
              Assigned(file, block, s).nbonds == s.nbonds && NbondsNotEstimated in Assigned(file, block, s).warnings
  {
    AssignedKeeps(file, block, s);
    var s2 := NbondsStep(file, block[1], NatomsStep(file, block[0], s));
    if !ScanForM(Slice(file, 4 + n, |file|)).EmptyLine? {
      assert s2.warnings[|s2.warnings| - 1] in s2.warnings;
      InPrefix(s2.warnings[|s2.warnings| - 1], s2.warnings, Assigned(file, block, s).warnings);
    }
  }

  /** Reading an unset `nbonds` in `_parse_mol` raises, so no bonds are ever set. */
  lemma UnsetNbondsRaise(file: seq<string>)
    requires |file| >= 4 && CountsStage(file, Fresh).nbonds.Unset?
    ensures Parsed(file, Fresh).raised.Some? && Parsed(file, Fresh).bonds.Unset?
  {
  }

  lemma InPrefix<T>(x: T, a: seq<T>, b: seq<T>)
    requires x in a && a <= b
    ensures x in b
  {
    var i :| 0 <= i < |a| && a[i] == x;
    assert b[i] == x;
  }

  /**
   * The chirality, once set, is the fourth counts field read as a flag
   * (None unless it is 0 or 1); a parse that raised nothing has set it.
   */
  lemma ChiralityFromCounts(file: seq<string>)
    ensures Parsed(file, Fresh).chiral.Set? ==>
              |file| >= 4 && |CountsValues(file[3])| >= 4 &&
              Parsed(file, Fresh).chiral == Set(FlagValue(CountsValues(file[3])[3]))
    ensures Parsed(file, Fresh).raised.None? ==> Parsed(file, Fresh).chiral.Set?
  {
    if |file| >= 4 {
      var block := CountsValues(file[3]);
      AssignedChirality(file, block, Fresh.(warnings := Fresh.warnings + CountsWarnings(block)));
    }
  }

  lemma AssignedChirality(file: seq<string>, block: seq<Option<int>>, s: Fields)
    requires s.chiral.Unset?
    ensures Assigned(file, block, s).chiral.Set? ==>
              |block| >= 4 && Assigned(file, block, s).chiral == Set(FlagValue(block[3]))
  {
  }

  /** The attributes right after a completed counts stage: a number of atoms, and nothing of the blocks yet. */
  predicate Counted(s: Fields)
  {
    s.natoms.Set? && s.structure.Unset? && s.bonds.Unset? && s.errorLine.Unset? && s.raised.None?
  }

  /** After a completed counts stage, the parse goes on with the two blocks. */
  lemma ParsedAfterCounts(file: seq<string>)
    requires |file| >= 4 && CountsStage(file, Fresh).raised.None?
    ensures Counted(CountsStage(file, Fresh))
    ensures Parsed(file, Fresh) == BlocksParsed(file, CountsStage(file, Fresh))
  {
  }

  /** The atoms stage is the atoms block cut out after the counts line, then its handler. */
  lemma AtomsParsedIs(file: seq<string>, s: Fields)
    requires s.natoms.Set?
    ensures AtomsParsed(file, s) == AtomsFinished(s, AtomsBlock(Slice(AtomKinds(file), 4, 4 + s.natoms.value), s.natoms.value))
  {
  }

  /** The bonds stage, once the number of bonds is set, is the bonds block cut out after the atoms block, then its handler. */
  lemma BondsParsedIs(file: seq<string>, s: Fields)
    requires s.natoms.Set? && s.nbonds.Set?
    ensures var e := 4 + s.natoms.value;
            BondsParsed(file, s) == BondsFinished(s, BondsBlock(Slice(BondKinds(file), e, e + s.nbonds.value), s.nbonds.value, s.structure.ToOption()))
  {
    match s.nbonds
    case Set(nbonds) =>
  }

  /** How each ending of the atoms block leaves the attributes. */
  lemma AtomsFinishedBy(s: Fields, outcome: AtomsOutcome)
    ensures s.structure.Unset? ==> forall symbols :: AtomsFinished(s, outcome).structure == Set(symbols) <==> outcome == AtomsOk(symbols)
    ensures outcome.AtomsOk? ==> AtomsFinished(s, outcome) == s.(structure := Set(outcome.symbols))
    ensures outcome.AtomsValueError? && outcome.line.Some? ==>
              var k := outcome.line.value;
              AtomsFinished(s, outcome) == s.(errorLine := Set(k), warnings := s.warnings + [StructureNotSet(k + 1)])
    ensures outcome == AtomsValueError(None) && s.errorLine.Unset? ==> AtomsFinished(s, outcome) == s.(raised := Some(AttributeError))
    ensures outcome.AtomsRaised? ==> AtomsFinished(s, outcome) == s.(raised := Some(outcome.error))
  {
  }

  /** How each ending of the bonds block leaves the attributes. */
  lemma BondsFinishedBy(s: Fields, outcome: BondsOutcome)
    ensures s.bonds.Unset? ==> forall bonds :: BondsFinished(s, outcome).bonds == Set(bonds) <==> outcome == BondsOk(bonds)
    ensures outcome.BondsOk? ==>
              BondsFinished(s, outcome) ==
              s.(bonds := Set(outcome.bonds), warnings := s.warnings + NamingWarnings(s.structure, |outcome.bonds|))
    ensures outcome.BondsValueError? && outcome.line.Some? ==>
              var k := outcome.line.value;
              BondsFinished(s, outcome) == s.(errorLine := Set(k), warnings := s.warnings + [BondsNotSet(k + 1)])
    ensures outcome == BondsValueError(None) && s.errorLine.Unset? ==> BondsFinished(s, outcome) == s.(raised := Some(AttributeError))
    ensures outcome.BondsRaised? ==> BondsFinished(s, outcome) == s.(raised := Some(outcome.error))
  {
  }

  /** The blocks give a structure exactly when the `natoms` lines after the counts line give its symbols. */
  lemma BlocksStructure(file: seq<string>, s: Fields, symbols: seq<string>)
    requires |file| >= 4 && Counted(s)
    ensures BlocksParsed(file, s).structure == Set(symbols) <==>
              s.natoms == Set(|symbols|) && SymbolsFrom(AtomKinds(file), 4, symbols)
  {
    var n := s.natoms.value;
    var outcome := AtomsBlock(Slice(AtomKinds(file), 4, 4 + n), n);
    assert BlocksParsed(file, s).structure == Set(symbols) <==> outcome == AtomsOk(symbols) by {
      AtomsParsedIs(file, s);
      AtomsFinishedBy(s, outcome);
    }
    AtomsBlockOkIn(AtomKinds(file), 4, n, symbols);
  }

  /**
   * The structure is set exactly when the counts stage completes with
   * `natoms` equal to the number of symbols, and the lines after the counts
   * line give those symbols, one per line.
   */
  lemma StructureFromAtomsBlock(file: seq<string>, symbols: seq<string>)
    ensures Parsed(file, Fresh).structure == Set(symbols) <==>
              |file| >= 4 && CountsStage(file, Fresh).raised.None? &&
              CountsStage(file, Fresh).natoms == Set(|symbols|) && SymbolsFrom(AtomKinds(file), 4, symbols)
  {
    if |file| >= 4 && CountsStage(file, Fresh).raised.None? {
      ParsedAfterCounts(file);
      BlocksStructure(file, CountsStage(file, Fresh), symbols);
    }
  }

  lemma BlocksAtomsRejected(file: seq<string>, s: Fields, k: nat)
    requires Counted(s) && k < s.natoms.value && 4 + k < |file|
    requires forall j :: 4 <= j < 4 + k ==> AtomKinds(file)[j].Symbol?
    requires AtomKinds(file)[4 + k] == BadCoordinates
    ensures BlocksParsed(file, s).structure.Unset?
    ensures s.warnings + [StructureNotSet(k + 1)] <= BlocksParsed(file, s).warnings
  {
    AtomsParsedIs(file, s);
    AtomsBlockBadLineIn(AtomKinds(file), 4, s.natoms.value, k);
    AtomsFinishedBy(s, AtomsValueError(Some(k)));
  }

  /**
   * A line of the atoms block without coordinates: the structure stays
   * unset and the warning names that line, counted from 1 within the block.
   */
  lemma AtomsBlockRejected(file: seq<string>, k: nat)
    requires |file| >= 4 && CountsStage(file, Fresh).raised.None?
    requires k < CountsStage(file, Fresh).natoms.value && 4 + k < |file|
    requires forall j :: 4 <= j < 4 + k ==> AtomKinds(file)[j].Symbol?
    requires AtomKinds(file)[4 + k] == BadCoordinates
    ensures Parsed(file, Fresh).structure.Unset?
    ensures CountsStage(file, Fresh).warnings + [StructureNotSet(k + 1)] <= Parsed(file, Fresh).warnings
  {
    ParsedAfterCounts(file);
    BlocksAtomsRejected(file, CountsStage(file, Fresh), k);
  }

  lemma BlocksMissingSymbol(file: seq<string>, s: Fields, k: nat)
    requires Counted(s) && k < s.natoms.value && 4 + k < |file|
    requires forall j :: 4 <= j < 4 + k ==> AtomKinds(file)[j].Symbol?
    requires AtomKinds(file)[4 + k] == NoSymbol
    ensures BlocksParsed(file, s) == s.(raised := Some(IndexError))
  {
    AtomsParsedIs(file, s);
    AtomsBlockNoSymbolIn(AtomKinds(file), 4, s.natoms.value, k);
    AtomsFinishedBy(s, AtomsRaised(IndexError));
  }

  /** A line of the atoms block with coordinates but no symbol: the parse ends in an IndexError. */
  lemma AtomsBlockMissingSymbol(file: seq<string>, k: nat)
    requires |file| >= 4 && CountsStage(file, Fresh).raised.None?
    requires k < CountsStage(file, Fresh).natoms.value && 4 + k < |file|
    requires forall j :: 4 <= j < 4 + k ==> AtomKinds(file)[j].Symbol?
    requires AtomKinds(file)[4 + k] == NoSymbol
    ensures Parsed(file, Fresh) == CountsStage(file, Fresh).(raised := Some(IndexError))
  {
    ParsedAfterCounts(file);
    BlocksMissingSymbol(file, CountsStage(file, Fresh), k);
  }

  lemma BlocksTruncated(file: seq<string>, s: Fields)
    requires Counted(s) && 4 <= |file| < 4 + s.natoms.value
    requires forall j :: 4 <= j < |file| ==> AtomKinds(file)[j].Symbol?
    ensures BlocksParsed(file, s) == s.(raised := Some(AttributeError))
  {
    AtomsParsedIs(file, s);
    AtomsBlockShortIn(AtomKinds(file), 4, s.natoms.value);
    AtomsFinishedBy(s, AtomsValueError(None));
  }

  /**
   * A file that ends inside the atoms block: the ValueError comes from no
   * line, so its handler reads an unset `_error_line` and raises.
   */
  lemma AtomsBlockTruncated(file: seq<string>)
    requires |file| >= 4 && CountsStage(file, Fresh).raised.None?
    requires |file| < 4 + CountsStage(file, Fresh).natoms.value
    requires forall j :: 4 <= j < |file| ==> AtomKinds(file)[j].Symbol?
    ensures Parsed(file, Fresh) == CountsStage(file, Fresh).(raised := Some(AttributeError))
  {
    ParsedAfterCounts(file);
    BlocksTruncated(file, CountsStage(file, Fresh));
  }

  /** The atoms stage cannot complete with a negative number of atoms: the handler finds no line and raises. */
  lemma NegativeNatomsRaise(file: seq<string>, s: Fields)
    requires Counted(s) && s.natoms.value < 0
    ensures AtomsParsed(file, s).raised.Some?
  {
    AtomsParsedIs(file, s);
    AtomsFinishedBy(s, AtomsValueError(None));
  }

  lemma BlocksBonds(file: seq<string>, s: Fields, bonds: seq<Bond>)
    requires Counted(s) && BlocksParsed(file, s).bonds == Set(bonds)
    ensures var n := s.natoms.value;
            n >= 0 && s.nbonds == Set(|bonds|) &&
            RowsFrom(BondKinds(file), 4 + n, bonds) &&
            NamesOn(bonds, BlocksParsed(file, s).structure.ToOption()) &&
            (|bonds| > 0 && BlocksParsed(file, s).structure.Unset? ==> BondNamesNotSet in BlocksParsed(file, s).warnings)
  {
    var n := s.natoms.value;
    var s2 := AtomsParsed(file, s);
    if n < 0 {
      NegativeNatomsRaise(file, s);
      assert false;
    }
    assert s2.natoms == s.natoms && s2.bonds.Unset?;
    assert s2.raised.None?;
    assert BlocksParsed(file, s) == BondsParsed(file, s2);
    BondsSet(file, s2, bonds);
    assert RowsFrom(BondKinds(file), 4 + n, bonds);
  }

  /**
   * The bonds, once set, have one row per bond the counts stage settled
   * on: each read from its line after the atoms block, or zero past the
   * file's end, and named after the structure's symbols, or numbered with
   * a warning when there is no structure.
   */
  lemma BondsFromBondsBlock(file: seq<string>, bonds: seq<Bond>)
    ensures Parsed(file, Fresh).bonds == Set(bonds) ==>
              |file| >= 4 && CountsStage(file, Fresh).raised.None? &&
              var n := CountsStage(file, Fresh).natoms.value;
              n >= 0 && CountsStage(file, Fresh).nbonds == Set(|bonds|) &&
              RowsFrom(BondKinds(file), 4 + n, bonds) &&
              NamesOn(bonds, Parsed(file, Fresh).structure.ToOption()) &&
              (|bonds| > 0 && Parsed(file, Fresh).structure.Unset? ==> BondNamesNotSet in Parsed(file, Fresh).warnings)
  {
    if |file| >= 4 && CountsStage(file, Fresh).raised.None? && Parsed(file, Fresh).bonds == Set(bonds) {
      ParsedAfterCounts(file);
      BlocksBonds(file, CountsStage(file, Fresh), bonds);
    }
  }

  /** What the bonds stage sets, in terms of the lines after the atoms block. */
  lemma BondsSet(file: seq<string>, s: Fields, bonds: seq<Bond>)
    requires s.natoms.Set? && s.natoms.value >= 0 && s.bonds.Unset?
    requires BondsParsed(file, s).bonds == Set(bonds)
    ensures s.nbonds == Set(|bonds|)
    ensures RowsFrom(BondKinds(file), 4 + s.natoms.value, bonds)
    ensures NamesOn(bonds, s.structure.ToOption())
    ensures BondsParsed(file, s).warnings == s.warnings + NamingWarnings(s.structure, |bonds|)
  {
    if s.nbonds.Set? {
      var e := 4 + s.natoms.value;
      var m := s.nbonds.value;
      var outcome := BondsBlock(Slice(BondKinds(file), e, e + m), m, s.structure.ToOption());
      assert BondsParsed(file, s) == BondsFinished(s, outcome) by {
        BondsParsedIs(file, s);
      }
      assert outcome == BondsOk(bonds) by {
        BondsFinishedBy(s, outcome);
      }
      BondsBlockOkIn(BondKinds(file), e, m, s.structure.ToOption(), bonds);
      BondsFinishedBy(s, outcome);
    }
  }

  /** The atoms stage sets the structure when the `natoms` lines after the counts line give its symbols. */
  lemma AtomsRead(file: seq<string>, s: Fields, symbols: seq<string>)
    requires s.natoms == Set(|symbols|) && SymbolsFrom(AtomKinds(file), 4, symbols)
    ensures AtomsParsed(file, s) == s.(structure := Set(symbols))
  {
    AtomsParsedIs(file, s);
    AtomsBlockOkIn(AtomKinds(file), 4, |symbols|, symbols);
    AtomsFinishedBy(s, AtomsOk(symbols));
  }

  /** The bonds stage sets the bonds when the `nbonds` lines after the atoms block give their rows, each named. */
  lemma BondsRead(file: seq<string>, s: Fields, bonds: seq<Bond>)
    requires s.natoms.Set? && s.natoms.value >= 0 && s.nbonds == Set(|bonds|)
    requires RowsFrom(BondKinds(file), 4 + s.natoms.value, bonds) && NamesOn(bonds, s.structure.ToOption())
    ensures BondsParsed(file, s) ==
              s.(bonds := Set(bonds), warnings := s.warnings + NamingWarnings(s.structure, |bonds|))
  {
    var e: nat := 4 + s.natoms.value;
    BondsBlockReadsIn(BondKinds(file), e, s.structure.ToOption(), bonds);
    BondsOkParsed(file, s, bonds);
  }

  /** The bonds stage once the bonds block has read `bonds`. */
  lemma BondsOkParsed(file: seq<string>, s: Fields, bonds: seq<Bond>)
    requires s.natoms.Set? && s.natoms.value >= 0 && s.nbonds == Set(|bonds|)
    requires var e := 4 + s.natoms.value;
             BondsBlock(Slice(BondKinds(file), e, e + |bonds|), |bonds|, s.structure.ToOption()) == BondsOk(bonds)
    ensures BondsParsed(file, s) ==
              s.(bonds := Set(bonds), warnings := s.warnings + NamingWarnings(s.structure, |bonds|))
  {
    var e := 4 + s.natoms.value;
    assert BondsParsed(file, s) == BondsFinished(s, BondsOk(bonds));
  }

  lemma BlocksRead(file: seq<string>, s: Fields, symbols: seq<string>, bonds: seq<Bond>)
    requires Counted(s) && |file| >= 4
    requires s.natoms == Set(|symbols|) && s.nbonds == Set(|bonds|) && SymbolsFrom(AtomKinds(file), 4, symbols)
    requires RowsFrom(BondKinds(file), 4 + |symbols|, bonds) && NamesOn(bonds, Some(symbols))
    ensures BlocksParsed(file, s) == s.(structure := Set(symbols), bonds := Set(bonds))
  {
    AtomsRead(file, s, symbols);
    BondsRead(file, s.(structure := Set(symbols)), bonds);
  }

  /**
   * A well-formed molfile: when the counts stage completes and the lines
   * after it give its `natoms` symbols and then its `nbonds` rows, named by
   * those symbols, the parse sets the structure and the bonds, and nothing
   * else beyond the counts stage.
   */
  lemma MolfileRead(file: seq<string>, symbols: seq<string>, bonds: seq<Bond>)
    requires |file| >= 4 && CountsStage(file, Fresh).raised.None?
    requires CountsStage(file, Fresh).natoms == Set(|symbols|) && CountsStage(file, Fresh).nbonds == Set(|bonds|)
    requires SymbolsFrom(AtomKinds(file), 4, symbols)
    requires RowsFrom(BondKinds(file), 4 + |symbols|, bonds) && NamesOn(bonds, Some(symbols))
    ensures Parsed(file, Fresh) == CountsStage(file, Fresh).(structure := Set(symbols), bonds := Set(bonds))
  {
    ParsedAfterCounts(file);
    BlocksRead(file, CountsStage(file, Fresh), symbols, bonds);
  }

  /** A line of the bonds block that gives no row: its handler records the warning and nothing else changes. */
  lemma BondsStageRejected(file: seq<string>, s: Fields, k: nat)
    requires s.natoms.Set? && s.nbonds.Set? && s.natoms.value >= 0
    requires k < s.nbonds.value && 4 + s.natoms.value + k < |file|
    requires forall j :: 4 + s.natoms.value <= j < 4 + s.natoms.value + k ==> BondKinds(file)[j].Some?
    requires BondKinds(file)[4 + s.natoms.value + k] == None
    ensures BondsParsed(file, s) == s.(errorLine := Set(k), warnings := s.warnings + [BondsNotSet(k + 1)])
  {
    BondsBlockBadLineIn(BondKinds(file), 4 + s.natoms.value, s.nbonds.value, s.structure.ToOption(), k);
    BondsParsedIs(file, s);
  }

  lemma BlocksBondsRejected(file: seq<string>, s: Fields, k: nat)
    requires Counted(s) && AtomsParsed(file, s).raised.None? && s.nbonds.Set?
    requires k < s.nbonds.value && 4 + s.natoms.value + k < |file|
    requires forall j :: 4 + s.natoms.value <= j < 4 + s.natoms.value + k ==> BondKinds(file)[j].Some?
    requires BondKinds(file)[4 + s.natoms.value + k] == None
    ensures var s2 := AtomsParsed(file, s);
            BlocksParsed(file, s) == s2.(errorLine := Set(k), warnings := s2.warnings + [BondsNotSet(k + 1)])
  {
    var s2 := AtomsParsed(file, s);
    if s.natoms.value < 0 {
      NegativeNatomsRaise(file, s);
      assert false;
    }
    BondsStageRejected(file, s2, k);
  }

  /**
   * A line of the bonds block that gives no row, after a completed atoms
   * stage: the bonds stay unset and the warning names that line, counted
   * from 1 within the block; nothing else changes.
   */
  lemma BondsBlockRejected(file: seq<string>, k: nat)
    requires |file| >= 4 && CountsStage(file, Fresh).raised.None?
    requires AtomsParsed(file, CountsStage(file, Fresh)).raised.None? && CountsStage(file, Fresh).nbonds.Set?
    requires var e := 4 + CountsStage(file, Fresh).natoms.value;
             k < CountsStage(file, Fresh).nbonds.value && e + k < |file| &&
             (forall j :: e <= j < e + k ==> BondKinds(file)[j].Some?) && BondKinds(file)[e + k] == None
    ensures var s2 := AtomsParsed(file, CountsStage(file, Fresh));
            Parsed(file, Fresh) == s2.(errorLine := Set(k), warnings := s2.warnings + [BondsNotSet(k + 1)])
  {
    ParsedAfterCounts(file);
    BlocksBondsRejected(file, CountsStage(file, Fresh), k);
  }
}
