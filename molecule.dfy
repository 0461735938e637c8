/**
 * The strict molfile reader of `molecule.py`, the older twin of
 * `MolParser.py`: it reads the same lines by the same rules, but the first
 * ValueError ends the whole parse (`_parse_mol` catches it and prints it),
 * and nothing is estimated or warned about. The class `Molecule` changes its
 * attributes step by step; each stage is specified by a function of the old
 * attributes, and the lemmas at the end state what the whole parse gives.
 */
module Molecule {
  import opened Wrappers
  import opened Text
  import opened MolLines

  /** The attributes of a `Molecule` object, and the exception its construction raised, if any. */
  datatype Fields = Fields(
    natoms: Attr<int>,
    nbonds: Attr<int>,
    chiral: Attr<bool>,
    structure: Attr<seq<string>>,  // the row names (chemical symbols) of the structure table
    bonds: Attr<seq<Bond>>,
    raised: Option<Exception>)

  const Fresh: Fields := Fields(Unset, Unset, Unset, Unset, Unset, None)

  /** The attributes after one stage of `_parse_mol`, and whether the parse stops there. */
  datatype Step = Step(fields: Fields, stopped: bool)

  /**
   * The counts line as `[int(i) for i in line_block[:-1] if i]` reads it:
   * every field, or nothing when one of them is not an integer (ValueError).
   */
  function StrictCounts(line: string): Option<seq<int>>
  {
    AllRead(CountsValues(line))
  }

  /**
   * `_parse_counts_block`: line 4 must exist and read as integers; then the
   * first, second and fourth values become `natoms`, `nbonds` and `chiral`,
   * in that order, each missing value an IndexError.
   */
  function CountsParsed(file: seq<string>, s: Fields): (r: Step)
    ensures !r.stopped ==> r.fields.natoms.Set? && r.fields.nbonds.Set?
    ensures r.fields.structure == s.structure && r.fields.bonds == s.bonds
  {
    if |file| < 4 then Step(s.(raised := Some(IndexError)), true)
    else match StrictCounts(file[3])
      case None => Step(s, true)
      case Some(v) =>
        if |v| < 1 then Step(s.(raised := Some(IndexError)), true)
        else if |v| < 2 then Step(s.(natoms := Set(v[0]), raised := Some(IndexError)), true)
        else if |v| < 4 then Step(s.(natoms := Set(v[0]), nbonds := Set(v[1]), raised := Some(IndexError)), true)
        else Step(s.(natoms := Set(v[0]), nbonds := Set(v[1]), chiral := Set(v[3] != 0)), false)
  }

  /**
   * `_parse_atoms_block`: the block is `data[4:4 + natoms]`; a ValueError
   * stops the parse, an IndexError escapes it.
   */
  function AtomsParsed(file: seq<string>, s: Fields): (r: Step)
    requires s.natoms.Set?
    ensures r.fields.natoms == s.natoms && r.fields.nbonds == s.nbonds && r.fields.chiral == s.chiral
    ensures r.fields.bonds == s.bonds
    ensures !r.stopped ==> r.fields.structure.Set?
  {
    AtomsStored(s, AtomsBlock(Slice(AtomKinds(file), 4, 4 + s.natoms.value), s.natoms.value))
  }

  /** What `_parse_atoms_block` leaves behind for each way it ends. */
  function AtomsStored(s: Fields, outcome: AtomsOutcome): (r: Step)
    ensures r.fields.natoms == s.natoms && r.fields.nbonds == s.nbonds && r.fields.chiral == s.chiral
    ensures r.fields.bonds == s.bonds
    ensures !r.stopped ==> r.fields.structure.Set?
  {
    match outcome
    case AtomsOk(symbols) => Step(s.(structure := Set(symbols)), false)
    case AtomsValueError(_) => Step(s, true)
    case AtomsRaised(e) => Step(s.(raised := Some(e)), true)
  }

  /**
   * `_parse_bonds_block`: the block is `data[4 + natoms:4 + natoms + nbonds]`,
   * its rows named after the symbols of the structure.
   */
  function BondsParsed(file: seq<string>, s: Fields): (r: Fields)
    requires s.natoms.Set? && s.nbonds.Set? && s.structure.Set?
    ensures r.natoms == s.natoms && r.nbonds == s.nbonds && r.chiral == s.chiral && r.structure == s.structure
  {
    var start := 4 + s.natoms.value;
    BondsStored(s, BondsBlock(Slice(BondKinds(file), start, start + s.nbonds.value), s.nbonds.value, Some(s.structure.value)))
  }

  /** What `_parse_bonds_block` leaves behind for each way it ends. */
  function BondsStored(s: Fields, outcome: BondsOutcome): (r: Fields)
    ensures r.natoms == s.natoms && r.nbonds == s.nbonds && r.chiral == s.chiral && r.structure == s.structure
    ensures r.bonds == if outcome.BondsOk? then Set(outcome.bonds) else s.bonds
  {
    match outcome
    case BondsOk(bonds) => s.(bonds := Set(bonds))
    case BondsValueError(_) => s
    case BondsRaised(e) => s.(raised := Some(e))
  }

  /** `_parse_mol`: the three stages in order, until one of them stops the parse. */
  function Parsed(file: seq<string>, s: Fields): Fields
  {
    var counts := CountsParsed(file, s);
    if counts.stopped then counts.fields else BlocksParsed(file, counts.fields)
  }

  /** The two blocks after the counts line: the bonds only when the atoms block was read. */
  function BlocksParsed(file: seq<string>, s: Fields): (r: Fields)
    requires s.natoms.Set? && s.nbonds.Set?
    ensures r.natoms == s.natoms && r.nbonds == s.nbonds && r.chiral == s.chiral
  {
    var atoms := AtomsParsed(file, s);
    if atoms.stopped then atoms.fields else BondsParsed(file, atoms.fields)
  }

  class Molecule {
    var natoms: Attr<int>
    var nbonds: Attr<int>
    var chiral: Attr<bool>
    var structure: Attr<seq<string>>
    var bonds: Attr<seq<Bond>>
    var raised: Option<Exception>

    function Snapshot(): Fields
      reads this
    {
      Fields(natoms, nbonds, chiral, structure, bonds, raised)
    }

    /** A molecule built from the lines of a molfile. */
    constructor(file: seq<string>)
      ensures Snapshot() == Parsed(file, Fresh)
    {
      natoms, nbonds, chiral, structure, bonds, raised := Unset, Unset, Unset, Unset, Unset, None;
      new;
      ParseMol(file);
    }

    method ParseMol(file: seq<string>)
      modifies this
      ensures Snapshot() == Parsed(file, old(Snapshot()))
    {
      var stopped := ParseCountsBlock(file);
      if stopped {
        return;
      }
      stopped := ParseAtomsBlock(file);
      if stopped {
        return;
      }
      ParseBondsBlock(file);
    }

    /** `_parse_counts_block`: the fields of line 4 read one by one, the first unreadable one ending it. */
    method ParseCountsBlock(file: seq<string>) returns (stopped: bool)
      modifies this
      ensures Step(Snapshot(), stopped) == CountsParsed(file, old(Snapshot()))
    {
      if |file| < 4 {
        raised := Some(IndexError);
        return true;
      }
      var read := ReadStrictCounts(file[3]);
      if read.None? {
        return true;
      }
      var values := read.value;
      if |values| < 1 {
        raised := Some(IndexError);
        return true;
      }
      natoms := Set(values[0]);
      if |values| < 2 {
        raised := Some(IndexError);
        return true;
      }
      nbonds := Set(values[1]);
      if |values| < 4 {
        raised := Some(IndexError);
        return true;
      }
      chiral := Set(values[3] != 0);
      return false;
    }

    /**
     * `_parse_atoms_block`: a coordinate table of `natoms` rows (a negative
     * size is a ValueError), the symbol of each line in turn, and a table
     * whose row names must match its rows in number.
     */
    method ParseAtomsBlock(file: seq<string>) returns (stopped: bool)
      requires natoms.Set?
      modifies this
      ensures Step(Snapshot(), stopped) == AtomsParsed(file, old(Snapshot()))
    {
      var n := natoms.value;
      if n < 0 {
        return true;
      }
      AtomKindsOfSlice(file, 4, 4 + n);
      ghost var outcome := AtomsBlock(Slice(AtomKinds(file), 4, 4 + n), n);
      assert AtomsParsed(file, Snapshot()) == AtomsStored(Snapshot(), outcome);
      var read := ReadAtomLines(Slice(file, 4, 4 + n));
      match read
      case BadAtomLine(_) =>
        return true;
      case SymbolMissing(_) =>
        raised := Some(IndexError);
        return true;
      case Symbols(symbols) =>
        if |symbols| != n {
          return true;
        }
        structure := Set(symbols);
        return false;
    }

    /**
     * `_parse_bonds_block`: a table of `nbonds` zero rows (a negative size is
     * a ValueError) filled line by line, then named after the atoms' symbols.
     */
    method ParseBondsBlock(file: seq<string>)
      requires natoms.Set? && nbonds.Set? && structure.Set?
      modifies this
      ensures Snapshot() == BondsParsed(file, old(Snapshot()))
    {
      var n := nbonds.value;
      if n < 0 {
        return;
      }
      var start := 4 + natoms.value;
      BondsParsedIs(file, Snapshot());
      BondKindsOfSlice(file, start, start + n);
      var table, bad := FillBondTable(Slice(file, start, start + n), n);
      if bad.Some? {
        return;
      }
      NameBonds(table[..]);
    }

    /** The row names of the bond table, after the atoms' symbols, and the table stored with them. */
    method NameBonds(rows: seq<Row>)
      requires structure.Set?
      modifies this
      ensures Snapshot() == BondsStored(old(Snapshot()), NamedBonds(rows, Some(old(structure).value)))
    {
      var names := NameRows(structure.value, rows);
      match names
      case None =>
        raised := Some(IndexError);
      case Some(named) =>
        bonds := Set(Labelled(rows, named));
    }
  }

  /**
   * `[int(i) for i in line_block[:-1] if i]` on the counts line: each
   * non-empty field in turn, the first that is not an integer ending it.
   */
  method ReadStrictCounts(line: string) returns (read: Option<seq<int>>)
    ensures read == StrictCounts(line)
  {
    var pieces := Split(line, ' ');
    var fields := pieces[..|pieces| - 1];
    ghost var all := ParseAll(NonEmpty(fields));
    assert all == CountsValues(line);
    var values: seq<int> := [];
    for i := 0 to |fields|
      invariant ParseAll(NonEmpty(fields[..i])) == Somes(values)
    {
      CountsStep(fields, i);
      if fields[i] != "" {
        var value := ParseInt(fields[i]);
        if value.None? {
          CountsPrefix(fields, i + 1);
          assert all[|values|] == None;
          AllReadSound(all);
          return None;
        }
        assert Somes(values + [value.value]) == Somes(values) + [value];
        values := values + [value.value];
      }
    }
    assert fields[..|fields|] == fields;
    AllReadSomes(values);
    return Some(values);
  }

  /** The attributes once the counts line is read as `values`, before the blocks. */
  function Counted(values: seq<int>): Fields
    requires |values| >= 4
  {
    Fresh.(natoms := Set(values[0]), nbonds := Set(values[1]), chiral := Set(values[3] != 0))
  }

  /** A counts line with four values or more completes the counts stage with them. */
  lemma CountsStageRead(file: seq<string>)
    requires |file| >= 4 && StrictCounts(file[3]).Some? && |StrictCounts(file[3]).value| >= 4
    ensures CountsParsed(file, Fresh) == Step(Counted(StrictCounts(file[3]).value), false)
  {
  }

  /**
   * A field of the counts line that is not an integer stops the parse before
   * anything is set: no counts, no structure, no bonds, no exception.
   */
  lemma CountsValueErrorStops(file: seq<string>, k: nat)
    requires |file| >= 4 && k < |CountsTokens(file[3])| && ParseInt(CountsTokens(file[3])[k]).None?
    ensures Parsed(file, Fresh) == Fresh
  {
    ParseAllAt(CountsTokens(file[3]), k);
    AllReadSound(CountsValues(file[3]));
  }

  /**
   * The counts, once set, are the first, second and fourth values of line 4,
   * every field of which is an integer; `chiral` is whether the fourth is not 0.
   */
  lemma CountsFromLine(file: seq<string>)
    ensures Parsed(file, Fresh).natoms.Set? ==>
              |file| >= 4 && StrictCounts(file[3]).Some? && |StrictCounts(file[3]).value| >= 1 &&
              Parsed(file, Fresh).natoms == Set(StrictCounts(file[3]).value[0])
    ensures Parsed(file, Fresh).nbonds.Set? ==>
              |file| >= 4 && StrictCounts(file[3]).Some? && |StrictCounts(file[3]).value| >= 2 &&
              Parsed(file, Fresh).nbonds == Set(StrictCounts(file[3]).value[1])
    ensures Parsed(file, Fresh).chiral.Set? ==>
              |file| >= 4 && StrictCounts(file[3]).Some? && |StrictCounts(file[3]).value| >= 4 &&
              Parsed(file, Fresh).chiral == Set(StrictCounts(file[3]).value[3] != 0)
  {
    var counts := CountsParsed(file, Fresh);
    if !counts.stopped {
      var atoms := AtomsParsed(file, counts.fields);
      if !atoms.stopped {
        assert Parsed(file, Fresh) == BondsParsed(file, atoms.fields);
      }
    }
  }

  /** The atoms stage sets the structure exactly when the lines after line 4 give its `natoms` symbols. */
  lemma AtomsStageRead(file: seq<string>, s: Fields, symbols: seq<string>)
    requires |file| >= 4 && s.natoms.Set?
    ensures AtomsParsed(file, s) == Step(s.(structure := Set(symbols)), false) <==>
              s.natoms == Set(|symbols|) && SymbolsFrom(AtomKinds(file), 4, symbols)
  {
    AtomsBlockOkIn(AtomKinds(file), 4, s.natoms.value, symbols);
  }

  /** The bonds stage sets the bonds when the lines after the atoms block give its `nbonds` named rows. */
  lemma BondsStageRead(file: seq<string>, s: Fields, bonds: seq<Bond>)
    requires s.natoms.Set? && s.natoms.value >= 0 && s.structure.Set?
    requires s.nbonds == Set(|bonds|) && RowsFrom(BondKinds(file), 4 + s.natoms.value, bonds)
    requires NamesOn(bonds, Some(s.structure.value))
    ensures BondsParsed(file, s) == s.(bonds := Set(bonds))
  {
    BondsBlockReadsIn(BondKinds(file), 4 + s.natoms.value, Some(s.structure.value), bonds);
    BondsOkStored(file, s, bonds);
  }

  /** The bonds stage once the bonds block has read `bonds`. */
  lemma BondsOkStored(file: seq<string>, s: Fields, bonds: seq<Bond>)
    requires s.natoms.Set? && s.structure.Set? && s.nbonds == Set(|bonds|)
    requires var e := 4 + s.natoms.value;
             BondsBlock(Slice(BondKinds(file), e, e + |bonds|), |bonds|, Some(s.structure.value)) == BondsOk(bonds)
    ensures BondsParsed(file, s) == s.(bonds := Set(bonds))
  {
    BondsParsedIs(file, s);
  }

  /**
   * A well-formed molfile: when line 4 reads as integers whose first two
   * are the number of symbols and of bonds, the lines after it give those
   * symbols and then those rows, and the rows are named by those symbols,
   * the parse sets every attribute and raises nothing.
   */
  lemma MoleculeRead(file: seq<string>, values: seq<int>, symbols: seq<string>, bonds: seq<Bond>)
    requires |file| >= 4 && StrictCounts(file[3]) == Some(values) && |values| >= 4
    requires values[0] == |symbols| && values[1] == |bonds|
    requires SymbolsFrom(AtomKinds(file), 4, symbols)
    requires RowsFrom(BondKinds(file), 4 + |symbols|, bonds) && NamesOn(bonds, Some(symbols))
    ensures Parsed(file, Fresh) == Counted(values).(structure := Set(symbols), bonds := Set(bonds))
  {
    var s := Counted(values);
    CountsStageRead(file);
    AtomsStageRead(file, s, symbols);
    BondsStageRead(file, s.(structure := Set(symbols)), bonds);
  }

  /**
   * Conversely, a parse that sets the bonds has read both blocks whole:
   * `natoms` symbols from the lines after line 4, then `nbonds` rows, each
   * named after the symbols of its two atoms.
   */
  lemma BondsSetMeansRead(file: seq<string>, bonds: seq<Bond>)
    requires Parsed(file, Fresh).bonds == Set(bonds)
    ensures var r := Parsed(file, Fresh);
            r.raised.None? && r.natoms.Set? && r.nbonds == Set(|bonds|) && r.structure.Set? &&
            r.natoms == Set(|r.structure.value|) && SymbolsFrom(AtomKinds(file), 4, r.structure.value) &&
            RowsFrom(BondKinds(file), 4 + r.natoms.value, bonds) && NamesOn(bonds, Some(r.structure.value))
  {
    var counts := CountsParsed(file, Fresh);
    BlocksSetMeansRead(file, counts.fields, bonds);
  }

  lemma BlocksSetMeansRead(file: seq<string>, s: Fields, bonds: seq<Bond>)
    requires |file| >= 4 && s.natoms.Set? && s.nbonds.Set? && s.structure.Unset? && s.bonds.Unset? && s.raised.None?
    requires BlocksParsed(file, s).bonds == Set(bonds)
    ensures var r := BlocksParsed(file, s);
            r.raised.None? && r.structure.Set? && s.nbonds == Set(|bonds|) &&
            s.natoms == Set(|r.structure.value|) && SymbolsFrom(AtomKinds(file), 4, r.structure.value) &&
            RowsFrom(BondKinds(file), 4 + s.natoms.value, bonds) && NamesOn(bonds, Some(r.structure.value))
  {
    var atoms := AtomsParsed(file, s);
    AtomsOkMeansRead(file, s);
    assert BlocksParsed(file, s) == BondsParsed(file, atoms.fields);
    BondsOkMeansRead(file, atoms.fields, bonds);
  }

  lemma BondsOkMeansRead(file: seq<string>, s: Fields, bonds: seq<Bond>)
    requires s.natoms.Set? && s.natoms.value >= 0 && s.nbonds.Set? && s.structure.Set? && s.bonds.Unset?
    requires BondsParsed(file, s).bonds == Set(bonds)
    ensures BondsParsed(file, s).raised == s.raised
    ensures s.nbonds == Set(|bonds|) && RowsFrom(BondKinds(file), 4 + s.natoms.value, bonds)
    ensures NamesOn(bonds, Some(s.structure.value))
  {
    var start := 4 + s.natoms.value;
    BondsParsedIs(file, s);
    BondsStoredOk(s, BondsBlock(Slice(BondKinds(file), start, start + s.nbonds.value), s.nbonds.value, Some(s.structure.value)), bonds);
    BondsBlockOkIn(BondKinds(file), start, s.nbonds.value, Some(s.structure.value), bonds);
  }

  /** Bonds that were not set before are set only by a block that read them, and nothing is raised. */
  lemma BondsStoredOk(s: Fields, outcome: BondsOutcome, bonds: seq<Bond>)
    requires s.bonds.Unset? && BondsStored(s, outcome).bonds == Set(bonds)
    ensures outcome == BondsOk(bonds) && BondsStored(s, outcome).raised == s.raised
  {
  }

  lemma AtomsOkMeansRead(file: seq<string>, s: Fields)
    requires |file| >= 4 && s.natoms.Set? && s.structure.Unset? && !AtomsParsed(file, s).stopped
    ensures var r := AtomsParsed(file, s).fields;
            r == s.(structure := r.structure) && r.structure.Set? &&
            s.natoms == Set(|r.structure.value|) && SymbolsFrom(AtomKinds(file), 4, r.structure.value)
  {
    var symbols := AtomsParsed(file, s).fields.structure.value;
    AtomsStageRead(file, s, symbols);
  }

  /**
   * A line of the atoms block without numeric coordinates raises the
   * ValueError that `_parse_mol` catches: the parse stops with the counts
   * set and nothing else.
   */
  lemma AtomsValueErrorStops(file: seq<string>, s: Fields, k: nat)
    requires s.natoms.Set? && s.nbonds.Set? && k < s.natoms.value && 4 + k < |file|
    requires forall j :: 4 <= j < 4 + k ==> AtomKinds(file)[j].Symbol?
    requires AtomKinds(file)[4 + k] == BadCoordinates
    ensures BlocksParsed(file, s) == s
  {
    AtomsBlockBadLineIn(AtomKinds(file), 4, s.natoms.value, k);
  }

  /**
   * A line of the atoms block with coordinates but no symbol raises an
   * IndexError, which `_parse_mol` does not catch.
   */
  lemma AtomsIndexErrorEscapes(file: seq<string>, s: Fields, k: nat)
    requires s.natoms.Set? && s.nbonds.Set? && k < s.natoms.value && 4 + k < |file|
    requires forall j :: 4 <= j < 4 + k ==> AtomKinds(file)[j].Symbol?
    requires AtomKinds(file)[4 + k] == NoSymbol
    ensures BlocksParsed(file, s) == s.(raised := Some(IndexError))
  {
    AtomsBlockNoSymbolIn(AtomKinds(file), 4, s.natoms.value, k);
  }

  /**
   * A line of the bonds block that is not all integers raises the
   * ValueError that `_parse_mol` catches: the bonds stay unset.
   */
  lemma BondsValueErrorStops(file: seq<string>, s: Fields, k: nat)
    requires s.natoms.Set? && s.natoms.value >= 0 && s.nbonds.Set? && s.structure.Set?
    requires k < s.nbonds.value && 4 + s.natoms.value + k < |file|
    requires forall j :: 4 + s.natoms.value <= j < 4 + s.natoms.value + k ==> BondKinds(file)[j].Some?
    requires BondKinds(file)[4 + s.natoms.value + k] == None
    ensures BondsParsed(file, s) == s
  {
    BondsBlockBadLineIn(BondKinds(file), 4 + s.natoms.value, s.nbonds.value, Some(s.structure.value), k);
  }

  lemma BondsParsedIs(file: seq<string>, s: Fields)
    requires s.natoms.Set? && s.nbonds.Set? && s.structure.Set?
    ensures var start := 4 + s.natoms.value;
            BondsParsed(file, s) ==
            BondsStored(s, BondsBlock(Slice(BondKinds(file), start, start + s.nbonds.value), s.nbonds.value, Some(s.structure.value)))
  {
  }
}
