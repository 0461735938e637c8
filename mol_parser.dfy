/**
 * The lenient molfile reader of `MolParser.py`: it reads the counts line,
 * estimates the number of atoms or bonds when the counts line is corrupted,
 * and keeps going past a corrupted atoms or bonds block, recording a
 * warning instead. The class `MolParser` changes its attributes step by
 * step, as the source does; each of its methods is specified by a function
 * of the old attributes, and the lemmas at the end state what the whole
 * parse gives.
 */
module MolParser {
  import opened Wrappers
  import opened Text
  import opened MolLines

  /** The warnings the reader emits, in the order it emits them. */
  datatype Warning =
    | CountsCorrupted          // one per counts field that `int` rejects
    | NatomsEstimated
    | NbondsEstimated
    | NbondsNotEstimated       // no line starts with 'M': `nbonds` stays unset
    | ChiralityCorrupted
    | StructureNotSet(line: int)  // the atoms block failed; the line reported (1-based)
    | BondsNotSet(line: int)      // the bonds block failed; the line reported (1-based)
    | BondNamesNotSet             // bonds numbered, since the structure is not set

  /** The attributes of a `MolParser` object, and the exception its construction raised, if any. */
  datatype Fields = Fields(
    natoms: Attr<int>,
    nbonds: Attr<int>,
    chiral: Attr<Option<bool>>,
    structure: Attr<seq<string>>,  // the row names (chemical symbols) of the structure table
    bonds: Attr<seq<Bond>>,
    errorLine: Attr<nat>,
    warnings: seq<Warning>,
    raised: Option<Exception>)

  const Fresh: Fields := Fields(Unset, Unset, Unset, Unset, Unset, Unset, [], None)

  function CountsWarnings(block: seq<Option<int>>): seq<Warning>
  {
    seq(Unreadable(block), _ => CountsCorrupted)
  }

  /** `_guess_natoms`: the number of lines after the counts line before the first without a '.'. */
  function NatomsGuessed(file: seq<string>, s: Fields): (r: Fields)
    ensures r.raised.None? ==> r.natoms.Set?
    ensures r.chiral == s.chiral
  {
    match FirstWithout(Slice(file, 4, |file|), '.')
    case None => s.(raised := Some(CorruptedFileWarning))
    case Some(i) => s.(natoms := Set(i), warnings := s.warnings + [NatomsEstimated])
  }

  /** `_guess_nbonds`: the number of lines after the atoms block before the first starting with 'M'. */
  function NbondsGuessed(file: seq<string>, s: Fields): (r: Fields)
    requires s.natoms.Set?
    ensures r.natoms == s.natoms && r.chiral == s.chiral && s.warnings <= r.warnings
  {
    match ScanForM(Slice(file, 4 + s.natoms.value, |file|))
    case Found(i) => s.(nbonds := Set(i), warnings := s.warnings + [NbondsEstimated])
    case NotFound => s.(warnings := s.warnings + [NbondsNotEstimated])
    case EmptyLine(_) => s.(raised := Some(IndexError))
  }

  /** `bool(flag)` for a flag of 0 or 1; anything else (None included) is a corrupted chirality. */
  function FlagValue(flag: Option<int>): (r: Option<bool>)
    ensures r.Some? <==> flag == Some(0) || flag == Some(1)
    ensures r == Some(true) <==> flag == Some(1)
  {
    if flag == Some(0) then Some(false) else if flag == Some(1) then Some(true) else None
  }

  /** The chirality as `_assign_counts_block_values` reads it: from the fourth counts field. */
  function ChiralityAssigned(flag: Option<int>, s: Fields): (r: Fields)
    ensures s.warnings <= r.warnings
  {
    s.(chiral := Set(FlagValue(flag)), warnings := s.warnings + if FlagValue(flag).None? then [ChiralityCorrupted] else [])
  }

  /** The first counts field, or the guess when it is unreadable. */
  function NatomsStep(file: seq<string>, first: Option<int>, s: Fields): (r: Fields)
    ensures r.raised.None? ==> r.natoms.Set?
    ensures r.chiral == s.chiral
  {
    if first.None? then NatomsGuessed(file, s) else s.(natoms := Set(first.value))
  }

  /** The second counts field, or the guess when it is unreadable. */
  function NbondsStep(file: seq<string>, second: Option<int>, s: Fields): (r: Fields)
    requires s.natoms.Set?
    ensures r.natoms == s.natoms && r.chiral == s.chiral && s.warnings <= r.warnings
  {
    if second.None? then NbondsGuessed(file, s) else s.(nbonds := Set(second.value))
  }

  /** `_assign_counts_block_values`: each missing counts field is an IndexError. */
  function Assigned(file: seq<string>, block: seq<Option<int>>, s: Fields): (r: Fields)
    ensures r.raised.None? ==> r.natoms.Set? && r.chiral.Set?
    ensures s.warnings <= r.warnings
    ensures r.structure == s.structure && r.bonds == s.bonds && r.errorLine == s.errorLine
  {
    if |block| < 1 then s.(raised := Some(IndexError))
    else
      var s1 := NatomsStep(file, block[0], s);
      if s1.raised.Some? then s1
      else if |block| < 2 then s1.(raised := Some(IndexError))
      else
        var s2 := NbondsStep(file, block[1], s1);
        if s2.raised.Some? then s2
        else if |block| < 4 then s2.(raised := Some(IndexError))
        else ChiralityAssigned(block[3], s2)
  }

  /** Once both counts are settled, the rest of the counts stage keeps them and extends the warnings. */
  lemma AssignedKeeps(file: seq<string>, block: seq<Option<int>>, s: Fields)
    requires |block| >= 2 && NatomsStep(file, block[0], s).raised.None?
    ensures var s2 := NbondsStep(file, block[1], NatomsStep(file, block[0], s));
            Assigned(file, block, s).natoms == s2.natoms && Assigned(file, block, s).nbonds == s2.nbonds &&
            s2.warnings <= Assigned(file, block, s).warnings
  {
  }

  /** What `_parse_atoms_block` leaves behind for each way it ends. */
  function AtomsStored(s: Fields, outcome: AtomsOutcome): Fields
  {
    match outcome
    case AtomsOk(symbols) => s.(structure := Set(symbols))
    case AtomsValueError(Some(i)) => s.(errorLine := Set(i))
    case AtomsValueError(None) => s
    case AtomsRaised(e) => s.(raised := Some(e))
  }

  /**
   * The warning of the bond naming: the names are built by a comprehension
   * over `range(nbonds)`, which reads the structure only for a row, so the
   * warning comes when there is no structure and at least one row.
   */
  function NamingWarnings(structure: Attr<seq<string>>, rows: nat): seq<Warning>
  {
    if structure.Unset? && rows > 0 then [BondNamesNotSet] else []
  }

  /** What `_parse_bonds_block` leaves behind for each way it ends. */
  function BondsStored(s: Fields, outcome: BondsOutcome): Fields
  {
    match outcome
    case BondsOk(bonds) =>
      s.(bonds := Set(bonds), warnings := s.warnings + NamingWarnings(s.structure, |bonds|))
    case BondsValueError(Some(i)) => s.(errorLine := Set(i))
    case BondsValueError(None) => s
    case BondsRaised(e) => s.(raised := Some(e))
  }

  /**
   * The `except ValueError` handlers of `_parse_mol`: a warning naming
   * `_error_line + 1`, or an AttributeError when no line was ever recorded.
   */
  function Handled(s: Fields, atoms: bool): Fields
  {
    match s.errorLine
    case Unset => s.(raised := Some(AttributeError))
    case Set(e) => s.(warnings := s.warnings + [if atoms then StructureNotSet(e + 1) else BondsNotSet(e + 1)])
  }

  /** The atoms stage of `_parse_mol`: the block is `file[4:4 + natoms]`, each of its lines read on its own. */
  function AtomsParsed(file: seq<string>, s: Fields): (r: Fields)
    requires s.natoms.Set?
    ensures r.natoms == s.natoms && r.nbonds == s.nbonds && r.chiral == s.chiral && r.bonds == s.bonds
    ensures s.warnings <= r.warnings
  {
    AtomsFinished(s, AtomsBlock(Slice(AtomKinds(file), 4, 4 + s.natoms.value), s.natoms.value))
  }

  /** The attributes once `_parse_atoms_block` has ended as `outcome` and its handler has run. */
  function AtomsFinished(s: Fields, outcome: AtomsOutcome): (r: Fields)
    ensures r.natoms == s.natoms && r.nbonds == s.nbonds && r.chiral == s.chiral && r.bonds == s.bonds
  {
    var s1 := AtomsStored(s, outcome);
    if outcome.AtomsValueError? then Handled(s1, true) else s1
  }

  /** The bonds stage of `_parse_mol`: the block is `file[4 + natoms:4 + natoms + nbonds]`, each of its lines read on its own. */
  function BondsParsed(file: seq<string>, s: Fields): (r: Fields)
    requires s.natoms.Set?
    ensures r.natoms == s.natoms && r.nbonds == s.nbonds && r.chiral == s.chiral && r.structure == s.structure
    ensures s.warnings <= r.warnings
  {
    match s.nbonds
    case Unset => s.(raised := Some(AttributeError))
    case Set(nbonds) =>
      var end := 4 + s.natoms.value;
      BondsFinished(s, BondsBlock(Slice(BondKinds(file), end, end + nbonds), nbonds, s.structure.ToOption()))
  }

  /** The attributes once `_parse_bonds_block` has ended as `outcome` and its handler has run. */
  function BondsFinished(s: Fields, outcome: BondsOutcome): (r: Fields)
    ensures r.natoms == s.natoms && r.nbonds == s.nbonds && r.chiral == s.chiral && r.structure == s.structure
    ensures s.warnings <= r.warnings
    ensures outcome.BondsOk? ==>
              r.bonds == Set(outcome.bonds) && r.raised == s.raised &&
              (r.warnings == s.warnings <==> s.structure.Set? || |outcome.bonds| == 0)
  {
    var s1 := BondsStored(s, outcome);
    if outcome.BondsValueError? then Handled(s1, false) else s1
  }

  /** The counts stage of `_parse_mol`: `_read_counts_block`, then `_assign_counts_block_values`. */
  function CountsStage(file: seq<string>, s: Fields): Fields
    requires |file| >= 4
  {
    var block := CountsValues(file[3]);
    Assigned(file, block, s.(warnings := s.warnings + CountsWarnings(block)))
  }

  /** `_parse_mol` on the lines of a file: each stage runs only when no exception escaped the one before. */
  function Parsed(file: seq<string>, s: Fields): Fields
  {
    if |file| < 4 then s.(raised := Some(IndexError))
    else
      var s1 := CountsStage(file, s);
      if s1.raised.Some? then s1 else BlocksParsed(file, s1)
  }

  /** The two blocks after the counts line: the bonds stage runs only when the atoms stage raised nothing. */
  function BlocksParsed(file: seq<string>, s: Fields): (r: Fields)
    requires s.natoms.Set?
    ensures r.natoms == s.natoms && r.nbonds == s.nbonds && r.chiral == s.chiral
    ensures s.warnings <= r.warnings
  {
    var s2 := AtomsParsed(file, s);
    if s2.raised.Some? then s2 else BondsParsed(file, s2)
  }

  class MolParser {
    var natoms: Attr<int>
    var nbonds: Attr<int>
    var chiral: Attr<Option<bool>>
    var structure: Attr<seq<string>>
    var bonds: Attr<seq<Bond>>
    var errorLine: Attr<nat>
    var warnings: seq<Warning>
    var raised: Option<Exception>

    function Snapshot(): Fields
      reads this
    {
      Fields(natoms, nbonds, chiral, structure, bonds, errorLine, warnings, raised)
    }

    /** A reader built from the lines of a molfile. */
    constructor(file: seq<string>)
      ensures Snapshot() == Parsed(file, Fresh)
    {
      natoms, nbonds, chiral, structure, bonds, errorLine := Unset, Unset, Unset, Unset, Unset, Unset;
      warnings, raised := [], None;
      new;
      ParseMol(file);
    }

    method ParseMol(file: seq<string>)
      requires raised.None?
      modifies this
      ensures Snapshot() == Parsed(file, old(Snapshot()))
    {
      var block := ReadCountsBlock(file);
      if raised.Some? {
        return;
      }
      AssignCountsBlockValues(file, block);
      if raised.Some? {
        return;
      }
      AtomsStage(file);
      if raised.Some? {
        return;
      }
      BondsStage(file);
    }

    /** The first `try` of `_parse_mol`: the atoms block, and the warning when it fails. */
    method AtomsStage(file: seq<string>)
      requires natoms.Set?
      modifies this
      ensures Snapshot() == AtomsParsed(file, old(Snapshot()))
    {
      AtomKindsOfSlice(file, 4, 4 + natoms.value);
      ghost var outcome := AtomsBlock(Slice(AtomKinds(file), 4, 4 + natoms.value), natoms.value);
      assert AtomsParsed(file, Snapshot()) == AtomsFinished(Snapshot(), outcome);
      var failed := ParseAtomsBlock(Slice(file, 4, 4 + natoms.value));
      if failed {
        HandleValueError(true);
      }
    }

    /** The second `try` of `_parse_mol`: the bonds block, and the warning when it fails. */
    method BondsStage(file: seq<string>)
      requires natoms.Set?
      modifies this
      ensures Snapshot() == BondsParsed(file, old(Snapshot()))
    {
      if nbonds.Unset? {
        raised := Some(AttributeError);
        return;
      }
      var atomsEnd := 4 + natoms.value;
      BondKindsOfSlice(file, atomsEnd, atomsEnd + nbonds.value);
      ghost var outcome := BondsBlock(Slice(BondKinds(file), atomsEnd, atomsEnd + nbonds.value), nbonds.value, structure.ToOption());
      assert BondsParsed(file, Snapshot()) == BondsFinished(Snapshot(), outcome);
      var failed := ParseBondsBlock(Slice(file, atomsEnd, atomsEnd + nbonds.value));
      assert Snapshot() == BondsStored(old(Snapshot()), outcome);
      if failed {
        HandleValueError(false);
      }
    }

    method HandleValueError(atoms: bool)
      modifies this
      ensures Snapshot() == Handled(old(Snapshot()), atoms)
    {
      match errorLine
      case Unset =>
        raised := Some(AttributeError);
      case Set(e) =>
        warnings := warnings + [if atoms then StructureNotSet(e + 1) else BondsNotSet(e + 1)];
    }

    /** `_read_counts_block`: the fields of line 4, read one by one; a missing line 4 is an IndexError. */
    method ReadCountsBlock(file: seq<string>) returns (block: seq<Option<int>>)
      modifies this
      ensures |file| < 4 ==> Snapshot() == old(Snapshot()).(raised := Some(IndexError))
      ensures |file| >= 4 ==> block == CountsValues(file[3])
      ensures |file| >= 4 ==> Snapshot() == old(Snapshot()).(warnings := old(warnings) + CountsWarnings(block))
    {
      if |file| < 4 {
        raised := Some(IndexError);
        return [];
      }
      var pieces := Split(file[3], ' ');
      var fields := pieces[..|pieces| - 1];
      block := [];
      for i := 0 to |fields|
        invariant block == ParseAll(NonEmpty(fields[..i]))
        invariant Snapshot() == old(Snapshot()).(warnings := old(warnings) + CountsWarnings(block))
      {
        CountsStep(fields, i);
        if fields[i] != "" {
          var value := ParseInt(fields[i]);
          CountsWarningsAppend(block, value);
          block := block + [value];
          if value.None? {
            warnings := warnings + [CountsCorrupted];
          }
        }
      }
      assert fields[..|fields|] == fields;
    }

    /** `_assign_counts_block_values`. */
    method AssignCountsBlockValues(file: seq<string>, block: seq<Option<int>>)
      modifies this
      ensures Snapshot() == Assigned(file, block, old(Snapshot()))
    {
      if |block| < 1 {
        raised := Some(IndexError);
        return;
      }
      if block[0].None? {
        GuessNatoms(file);
      } else {
        natoms := Set(block[0].value);
      }
      assert Snapshot() == NatomsStep(file, block[0], old(Snapshot()));
      if raised.Some? {
        return;
      }
      if |block| < 2 {
        raised := Some(IndexError);
        return;
      }
      if block[1].None? {
        GuessNbonds(file);
      } else {
        nbonds := Set(block[1].value);
      }
      if raised.Some? {
        return;
      }
      if |block| < 4 {
        raised := Some(IndexError);
        return;
      }
      chiral := Set(FlagValue(block[3]));
      if chiral.value.None? {
        warnings := warnings + [ChiralityCorrupted];
      }
    }

    /** `_guess_natoms`: scan the lines after the counts line for one without a '.'. */
    method GuessNatoms(file: seq<string>)
      modifies this
      ensures Snapshot() == NatomsGuessed(file, old(Snapshot()))
    {
      var lines := Slice(file, 4, |file|);
      for i := 0 to |lines|
        invariant forall j :: 0 <= j < i ==> '.' in lines[j]
        invariant Snapshot() == old(Snapshot())
      {
        if '.' !in lines[i] {
          natoms := Set(i);
          warnings := warnings + [NatomsEstimated];
          FirstWithoutAt(lines, '.', i);
          return;
        }
      }
      raised := Some(CorruptedFileWarning);
    }

    /** `_guess_nbonds`: scan the lines after the atoms block for one starting with 'M'. */
    method GuessNbonds(file: seq<string>)
      requires natoms.Set?
      modifies this
      ensures Snapshot() == NbondsGuessed(file, old(Snapshot()))
    {
      var lines := Slice(file, 4 + natoms.value, |file|);
      for i := 0 to |lines|
        invariant forall j :: 0 <= j < i ==> lines[j] != "" && lines[j][0] != 'M'
        invariant Snapshot() == old(Snapshot())
      {
        if lines[i] == "" {
          raised := Some(IndexError);
          ScanForMAt(lines, i);
          return;
        }
        if lines[i][0] == 'M' {
          nbonds := Set(i);
          warnings := warnings + [NbondsEstimated];
          ScanForMAt(lines, i);
          return;
        }
      }
      warnings := warnings + [NbondsNotEstimated];
    }

    /**
     * The symbol part of `_parse_atoms_block`: the symbols of the lines
     * in order, `_error_line` for a line whose coordinates are rejected.
     * Returns whether a ValueError left it.
     */
    method ParseAtomsBlock(data: seq<string>) returns (failed: bool)
      requires natoms.Set?
      modifies this
      ensures failed == AtomsBlock(AtomKinds(data), old(natoms).value).AtomsValueError?
      ensures Snapshot() == AtomsStored(old(Snapshot()), AtomsBlock(AtomKinds(data), old(natoms).value))
    {
      if natoms.value < 0 {
        return true;
      }
      var read := ReadAtomLines(data);
      match read
      case BadAtomLine(i) =>
        errorLine := Set(i);
        return true;
      case SymbolMissing(_) =>
        raised := Some(IndexError);
        return false;
      case Symbols(symbols) =>
        if |symbols| != natoms.value {
          return true;
        }
        structure := Set(symbols);
        return false;
    }

    /**
     * `_parse_bonds_block`: a table of `nbonds` zero rows filled line by
     * line, then named after the atoms' symbols, or numbered when the
     * structure is not set. Returns whether a ValueError left it.
     */
    method ParseBondsBlock(data: seq<string>) returns (failed: bool)
      requires nbonds.Set? && (nbonds.value < 0 || |data| <= nbonds.value)
      modifies this
      ensures failed == BondsBlock(BondKinds(data), old(nbonds).value, old(structure).ToOption()).BondsValueError?
      ensures Snapshot() == BondsStored(old(Snapshot()), BondsBlock(BondKinds(data), old(nbonds).value, old(structure).ToOption()))
    {
      var n := nbonds.value;
      if n < 0 {
        return true;
      }
      var table, bad := FillBondTable(data, n);
      if bad.Some? {
        errorLine := Set(bad.value);
        return true;
      }
      NameBonds(table[..]);
      return false;
    }

    /** The row names of the bond table, and the table stored with them. */
    method NameBonds(rows: seq<Row>)
      modifies this
      ensures Snapshot() == BondsStored(old(Snapshot()), NamedBonds(rows, old(structure).ToOption()))
    {
      if structure.Unset? {
        bonds := Set(NumberedRows(rows));
        if |rows| > 0 {
          warnings := warnings + [BondNamesNotSet];
        }
      } else {
        var names := NameRows(structure.value, rows);
        match names
        case None =>
          raised := Some(IndexError);
        case Some(named) =>
          bonds := Set(Labelled(rows, named));
      }
    }
  }

  lemma CountsWarningsAppend(block: seq<Option<int>>, value: Option<int>)
    ensures CountsWarnings(block + [value]) ==
            CountsWarnings(block) + if value.None? then [CountsCorrupted] else []
  {
    UnreadableAppend(block, value);
  }

  /** The scan of `_guess_natoms` stops at the first line without the character. */
  lemma {:induction false} FirstWithoutAt(lines: seq<string>, c: char, i: nat)
    requires i < |lines| && c !in lines[i]
    requires forall j :: 0 <= j < i ==> c in lines[j]
    ensures FirstWithout(lines, c) == Some(i)
  {
    if i > 0 {
      FirstWithoutAt(lines[1..], c, i - 1);
    }
  }

  /** The scan of `_guess_nbonds` stops at the first line that is empty or starts with 'M'. */
  lemma {:induction false} ScanForMAt(lines: seq<string>, i: nat)
    requires i < |lines| && (lines[i] == "" || lines[i][0] == 'M')
    requires forall j :: 0 <= j < i ==> lines[j] != "" && lines[j][0] != 'M'
    ensures lines[i] == "" ==> ScanForM(lines) == EmptyLine(i)
    ensures lines[i] != "" ==> ScanForM(lines) == Found(i)
  {
    if i > 0 {
      ScanForMAt(lines[1..], i - 1);
    }
  }
}
