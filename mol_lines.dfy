/**
 * How the two molfile readers (`MolParser.py` and `molecule.py`) read single
 * lines of a V2000 molfile: the counts line, the lines of the atoms block and
 * the lines of the bonds block. Both readers share these rules; the classes
 * in mol_parser.dfy and molecule.dfy differ in what they do when a rule fails.
 */
module MolLines {
  import opened Wrappers
  import opened Text

  /**
   * `line.split(' ')[:-1]` without its empty pieces: the fields of the
   * counts line, the last piece (the format stamp "V2000") left out.
   */
  function CountsTokens(line: string): seq<string>
  {
    var pieces := Split(line, ' ');
    NonEmpty(pieces[..|pieces| - 1])
  }

  /** Every counts field is non-empty and holds no space. */
  lemma CountsTokensAreWords(line: string)
    ensures forall i :: 0 <= i < |CountsTokens(line)| ==> CountsTokens(line)[i] != "" && ' ' !in CountsTokens(line)[i]
  {
    var pieces := Split(line, ' ');
    var fields := pieces[..|pieces| - 1];
    SplitFacts(line, ' ');
    NonEmptyFacts(fields);
    forall i | 0 <= i < |NonEmpty(fields)|
      ensures ' ' !in NonEmpty(fields)[i]
    {
      var j :| 0 <= j < |fields| && fields[j] == NonEmpty(fields)[i];
      assert fields[j] == pieces[j];
    }
  }

  /** The values of the counts line: `int` of each of its fields, None where that fails. */
  function CountsValues(line: string): seq<Option<int>>
  {
    ParseAll(CountsTokens(line))
  }

  /** An attribute of a reader object: never assigned, or assigned a value. */
  datatype Attr<T> = Unset | Set(value: T)
  {
    function ToOption(): Option<T>
    {
      if Set? then Some(value) else None
    }
  }

  /** `int(token)` for every token, in order; an unreadable token gives None in its place. */
  function ParseAll(tokens: seq<string>): (r: seq<Option<int>>)
    ensures |r| == |tokens|
  {
    if tokens == [] then [] else [ParseInt(tokens[0])] + ParseAll(tokens[1..])
  }

  lemma {:induction false} ParseAllAt(tokens: seq<string>, i: nat)
    requires i < |tokens|
    ensures ParseAll(tokens)[i] == ParseInt(tokens[i])
  {
    if i > 0 {
      ParseAllAt(tokens[1..], i - 1);
    }
  }

  /** The values, when every one of them was read. */
  function AllRead(values: seq<Option<int>>): (r: Option<seq<int>>)
    ensures r.Some? ==> |r.value| == |values|
  {
    if values == [] then Some([])
    else
      var rest := AllRead(values[1..]);
      if values[0].Some? && rest.Some? then Some([values[0].value] + rest.value) else None
  }

  /** The values are all read exactly when none is missing, and then in order. */
  lemma {:induction false} AllReadSound(values: seq<Option<int>>)
    ensures AllRead(values).None? <==> exists k :: 0 <= k < |values| && values[k].None?
    ensures AllRead(values).Some? ==> forall k :: 0 <= k < |values| ==> values[k] == Some(AllRead(values).value[k])
  {
    if values != [] {
      AllReadSound(values[1..]);
      assert forall k :: 1 <= k < |values| ==> values[k] == values[1..][k - 1];
      if AllRead(values[1..]).None? {
        var k :| 0 <= k < |values[1..]| && values[1..][k].None?;
        assert values[k + 1].None?;
      }
    }
  }

  /** Number of unreadable values. */
  function Unreadable(values: seq<Option<int>>): nat
  {
    if values == [] then 0 else (if values[0].None? then 1 else 0) + Unreadable(values[1..])
  }

  lemma {:induction false} UnreadableAppend(values: seq<Option<int>>, v: Option<int>)
    ensures Unreadable(values + [v]) == Unreadable(values) + if v.None? then 1 else 0
  {
    if values != [] {
      assert (values + [v])[1..] == values[1..] + [v];
      UnreadableAppend(values[1..], v);
    } else {
      assert (values + [v])[1..] == [];
    }
  }

  /** A count of zero unreadable values means every value was read. */
  lemma {:induction false} NoneUnreadable(values: seq<Option<int>>)
    ensures Unreadable(values) == 0 <==> forall i :: 0 <= i < |values| ==> values[i].Some?
  {
    if values != [] {
      NoneUnreadable(values[1..]);
      assert forall i :: 1 <= i < |values| ==> values[i] == values[1..][i - 1];
    }
  }

  lemma {:induction false} NonEmptyAppend(parts: seq<string>, p: string)
    ensures NonEmpty(parts + [p]) == NonEmpty(parts) + if p == "" then [] else [p]
  {
    if parts == [] {
      assert (parts + [p])[1..] == [];
    } else {
      assert (parts + [p])[1..] == parts[1..] + [p];
      NonEmptyAppend(parts[1..], p);
    }
  }

  lemma {:induction false} ParseAllAppend(tokens: seq<string>, t: string)
    ensures ParseAll(tokens + [t]) == ParseAll(tokens) + [ParseInt(t)]
  {
    if tokens == [] {
      assert tokens + [t] == [t];
    } else {
      assert (tokens + [t])[1..] == tokens[1..] + [t];
      ParseAllAppend(tokens[1..], t);
    }
  }

  /** The fields of a counts line written with single spaces are the words before the stamp. */
  lemma CountsOfJoin(words: seq<string>, stamp: string)
    requires forall i :: 0 <= i < |words| ==> words[i] != "" && ' ' !in words[i]
    requires stamp != "" && ' ' !in stamp
    ensures CountsTokens(Join(words + [stamp], " ")) == words
  {
    var all := words + [stamp];
    assert Split(Join(all, " "), ' ') == all by {
      assert forall i :: 0 <= i < |all| ==> ' ' !in all[i];
      SplitOfJoin(all);
    }
    assert all[..|all| - 1] == words;
    NonEmptyOfWords(words);
  }

  /** Splitting words joined by single spaces gives the words back. */
  lemma {:induction false} SplitOfJoin(words: seq<string>)
    requires |words| > 0
    requires forall i :: 0 <= i < |words| ==> ' ' !in words[i]
    ensures Split(Join(words, " "), ' ') == words
  {
    if |words| == 1 {
      SplitFree(words[0], ' ');
    } else {
      SplitOfJoin(words[1..]);
      SplitAppend(words[0], Join(words[1..], " "), ' ');
      assert words[0] + " " + Join(words[1..], " ") == words[0] + [' '] + Join(words[1..], " ");
      assert [words[0]] + words[1..] == words;
    }
  }

  lemma {:induction false} NonEmptyOfWords(words: seq<string>)
    requires forall i :: 0 <= i < |words| ==> words[i] != ""
    ensures NonEmpty(words) == words
  {
    if words != [] {
      NonEmptyOfWords(words[1..]);
      assert [words[0]] + words[1..] == words;
    }
  }

  /** `str(v)` of every value. */
  function Printed(values: seq<int>): (r: seq<string>)
    ensures |r| == |values|
    ensures forall i :: 0 <= i < |r| ==> r[i] == IntToString(values[i])
  {
    if values == [] then [] else [IntToString(values[0])] + Printed(values[1..])
  }

  function Somes(values: seq<int>): (r: seq<Option<int>>)
    ensures |r| == |values|
    ensures forall i :: 0 <= i < |r| ==> r[i] == Some(values[i])
  {
    if values == [] then [] else [Some(values[0])] + Somes(values[1..])
  }

  /** Printed integers read back as the same integers. */
  lemma PrintedReadBack(values: seq<int>)
    ensures ParseAll(Printed(values)) == Somes(values)
  {
    forall i | 0 <= i < |values|
      ensures ParseAll(Printed(values))[i] == Somes(values)[i]
    {
      ParseAllAt(Printed(values), i);
      ParseIntOfIntToString(values[i]);
    }
  }

  lemma PrintedAreWords(values: seq<int>)
    ensures forall i :: 0 <= i < |Printed(values)| ==> Printed(values)[i] != "" && ' ' !in Printed(values)[i]
  {
    forall i | 0 <= i < |values|
      ensures Printed(values)[i] != "" && ' ' !in Printed(values)[i]
    {
      PrintedIsWord(values[i]);
    }
  }

  /**
   * A counts line written as integers separated by single spaces and
   * followed by a stamp reads back as exactly those integers.
   */
  lemma CountsRoundTrip(values: seq<int>, stamp: string)
    requires stamp != "" && ' ' !in stamp
    ensures CountsValues(Join(Printed(values) + [stamp], " ")) == Somes(values)
  {
    PrintedAreWords(values);
    CountsOfJoin(Printed(values), stamp);
    PrintedReadBack(values);
  }

  /**
   * The index of the first line without the character `c`, as the
   * `for ... break ... else` scan of `_guess_natoms` finds it; None when
   * every line contains `c`.
   */
  function FirstWithout(lines: seq<string>, c: char): (r: Option<nat>)
    ensures r.None? <==> forall i :: 0 <= i < |lines| ==> c in lines[i]
    ensures r.Some? ==> r.value < |lines| && c !in lines[r.value]
    ensures r.Some? ==> forall j :: 0 <= j < r.value ==> c in lines[j]
  {
    if lines == [] then None
    else if c !in lines[0] then Some(0)
    else match FirstWithout(lines[1..], c)
      case None => None
      case Some(i) => Some(i + 1)
  }

  /** How the scan of `_guess_nbonds` for a line starting with 'M' ends. */
  datatype Scan =
    | Found(index: nat)      // the first line whose first character is 'M'
    | NotFound               // no line starts with 'M'
    | EmptyLine(index: nat)  // `value[0]` on an empty line raised IndexError first

  function ScanForM(lines: seq<string>): (r: Scan)
    ensures r.Found? ==> r.index < |lines| && lines[r.index] != "" && lines[r.index][0] == 'M'
    ensures r.EmptyLine? ==> r.index < |lines| && lines[r.index] == ""
    ensures r.Found? || r.EmptyLine? ==>
              forall j :: 0 <= j < r.index ==> lines[j] != "" && lines[j][0] != 'M'
    ensures r.NotFound? <==> forall j :: 0 <= j < |lines| ==> lines[j] != "" && lines[j][0] != 'M'
  {
    if lines == [] then NotFound
    else if lines[0] == "" then EmptyLine(0)
    else if lines[0][0] == 'M' then Found(0)
    else match ScanForM(lines[1..])
      case Found(i) => Found(i + 1)
      case NotFound => NotFound
      case EmptyLine(i) => EmptyLine(i + 1)
  }

  /**
   * `float(token)` accepts the token: optional surrounding whitespace, an
   * optional sign, and digits with at most one decimal point among them.
   */
  predicate IsFloat(token: string)
  {
    var t := Strip(token);
    var u := if |t| > 0 && (t[0] == '+' || t[0] == '-') then t[1..] else t;
    u != "" && u != "." && Occurrences(u, '.') <= 1 && forall i :: 0 <= i < |u| ==> IsDigit(u[i]) || u[i] == '.'
  }

  /** What one line of the atoms block gives. */
  datatype AtomLine =
    | Symbol(symbol: string)  // the fourth field, the chemical symbol
    | BadCoordinates          // assigning the first fields to a coordinate row raised ValueError
    | NoSymbol                // `line[3]` raised IndexError

  /**
   * One line of the atoms block: its fields (empty pieces dropped) are
   * assigned to a row of three coordinates, which numpy accepts for one
   * field (broadcast to all three) or for three or more, each convertible by
   * `float`; the fourth field is then the symbol.
   */
  function ReadAtomLine(line: string): AtomLine
  {
    var t := Tokens(line);
    if |t| == 0 || |t| == 2 || !IsFloat(t[0]) || (|t| >= 3 && (!IsFloat(t[1]) || !IsFloat(t[2]))) then BadCoordinates
    else if |t| < 4 then NoSymbol
    else Symbol(t[3])
  }

  /** Three coordinates, a symbol and further fields, written with single spaces, give the symbol back. */
  lemma AtomLineRoundTrip(x: string, y: string, z: string, symbol: string, rest: seq<string>)
    requires IsFloat(x) && IsFloat(y) && IsFloat(z)
    requires forall w :: w in [x, y, z, symbol] + rest ==> w != "" && ' ' !in w
    ensures ReadAtomLine(Join([x, y, z, symbol] + rest, " ")) == Symbol(symbol)
  {
    var words := [x, y, z, symbol] + rest;
    assert forall i :: 0 <= i < |words| ==> words[i] in words;
    TokensOfJoin(words);
  }

  /**
   * One line of the bonds block: every field must be an integer, and the
   * row of four takes one field (broadcast) or the first four of four or
   * more; anything else is a ValueError (None).
   */
  function ReadBondLine(line: string): Option<Row>
  {
    BondRow(ParseAll(Tokens(line)))
  }

  function BondRow(values: seq<Option<int>>): Option<Row>
  {
    match AllRead(values)
    case None => None
    case Some(ints) =>
      if |ints| == 1 then Some([ints[0], ints[0], ints[0], ints[0]])
      else if |ints| < 4 then None
      else Some(ints[..4])
  }

  /** Four or more integers written with single spaces give the first four back. */
  lemma BondLineRoundTrip(values: seq<int>)
    requires |values| >= 4
    ensures ReadBondLine(Join(Printed(values), " ")) == Some(values[..4])
  {
    var line := Join(Printed(values), " ");
    PrintedAreWords(values);
    TokensOfJoin(Printed(values));
    PrintedReadBack(values);
    assert ParseAll(Tokens(line)) == Somes(values);
    BondRowOfValues(values);
  }

  lemma BondRowOfValues(values: seq<int>)
    requires |values| >= 4
    ensures BondRow(Somes(values)) == Some(values[..4])
  {
    AllReadSomes(values);
  }

  lemma {:induction false} AllReadSomes(values: seq<int>)
    ensures AllRead(Somes(values)) == Some(values)
  {
    if values != [] {
      assert Somes(values)[1..] == Somes(values[1..]);
      AllReadSomes(values[1..]);
      assert [values[0]] + values[1..] == values;
    }
  }

  /** A bond line with a field that is not an integer is rejected. */
  lemma BondLineRejects(line: string, k: nat)
    requires k < |Tokens(line)| && ParseInt(Tokens(line)[k]).None?
    ensures ReadBondLine(line) == None
  {
    ParseAllAt(Tokens(line), k);
    AllReadSound(ParseAll(Tokens(line)));
  }


  /** What the lines of the atoms block give, read in order. */
  datatype AtomLines =
    | Symbols(symbols: seq<string>)  // every line had a symbol
    | BadAtomLine(index: nat)        // ValueError on this line (`_error_line`)
    | SymbolMissing(index: nat)      // IndexError on this line

  /** What each line gives on its own, read as a line of the atoms block. */
  function AtomKinds(lines: seq<string>): (r: seq<AtomLine>)
    ensures |r| == |lines|
  {
    Map(ReadAtomLine, lines)
  }

  /** Reading the lines of a slice gives the slice of what the lines give. */
  lemma AtomKindsOfSlice(lines: seq<string>, lo: int, hi: int)
    ensures AtomKinds(Slice(lines, lo, hi)) == Slice(AtomKinds(lines), lo, hi)
  {
    MapSlice(ReadAtomLine, lines, lo, hi);
  }

  /** The lines of the atoms block read in order, up to the first that fails. */
  function CollectAtoms(kinds: seq<AtomLine>): (r: AtomLines)
    ensures r.Symbols? ==> |r.symbols| == |kinds|
    ensures r.BadAtomLine? ==> r.index < |kinds| && kinds[r.index] == BadCoordinates
    ensures r.SymbolMissing? ==> r.index < |kinds| && kinds[r.index] == NoSymbol
  {
    if kinds == [] then Symbols([])
    else match kinds[0]
      case BadCoordinates => BadAtomLine(0)
      case NoSymbol => SymbolMissing(0)
      case Symbol(s) =>
        match CollectAtoms(kinds[1..])
        case Symbols(rest) => Symbols([s] + rest)
        case BadAtomLine(i) => BadAtomLine(i + 1)
        case SymbolMissing(i) => SymbolMissing(i + 1)
  }

  /** The symbols read are those of the lines, and reading stops at a line only when every line before it has a symbol. */
  lemma {:induction false} CollectAtomsSound(kinds: seq<AtomLine>)
    ensures CollectAtoms(kinds).Symbols? ==>
              forall i :: 0 <= i < |kinds| ==> kinds[i] == Symbol(CollectAtoms(kinds).symbols[i])
    ensures !CollectAtoms(kinds).Symbols? ==> forall j :: 0 <= j < CollectAtoms(kinds).index ==> kinds[j].Symbol?
  {
    if kinds != [] && kinds[0].Symbol? {
      CollectAtomsSound(kinds[1..]);
    }
  }

  /** Reading stops at the first line without a symbol, and reads every symbol otherwise. */
  lemma {:induction false} CollectAtomsAt(kinds: seq<AtomLine>, symbols: seq<string>)
    requires |symbols| <= |kinds|
    requires forall j :: 0 <= j < |symbols| ==> kinds[j] == Symbol(symbols[j])
    ensures |symbols| == |kinds| ==> CollectAtoms(kinds) == Symbols(symbols)
    ensures |symbols| < |kinds| && kinds[|symbols|].BadCoordinates? ==> CollectAtoms(kinds) == BadAtomLine(|symbols|)
    ensures |symbols| < |kinds| && kinds[|symbols|].NoSymbol? ==> CollectAtoms(kinds) == SymbolMissing(|symbols|)
  {
    if symbols != [] {
      CollectAtomsAt(kinds[1..], symbols[1..]);
      assert [symbols[0]] + symbols[1..] == symbols;
    }
  }

  /** A row of the bond table: four integers. */
  type Row = r: seq<int> | |r| == 4 witness [0, 0, 0, 0]

  /** What the lines of the bonds block give, read in order. */
  datatype BondLines =
    | Rows(rows: seq<Row>)       // every line gave a row
    | BadBondLine(index: nat)    // ValueError on this line (`_error_line`)

  /** What each line gives on its own, read as a line of the bonds block. */
  function BondKinds(lines: seq<string>): (r: seq<Option<Row>>)
    ensures |r| == |lines|
  {
    Map(ReadBondLine, lines)
  }

  /** Reading the lines of a slice gives the slice of what the lines give. */
  lemma BondKindsOfSlice(lines: seq<string>, lo: int, hi: int)
    ensures BondKinds(Slice(lines, lo, hi)) == Slice(BondKinds(lines), lo, hi)
  {
    MapSlice(ReadBondLine, lines, lo, hi);
  }

  /** The lines of the bonds block read in order, up to the first that fails. */
  function CollectBonds(kinds: seq<Option<Row>>): (r: BondLines)
    ensures r.Rows? ==> |r.rows| == |kinds|
    ensures r.BadBondLine? ==> r.index < |kinds| && kinds[r.index] == None
  {
    if kinds == [] then Rows([])
    else match kinds[0]
      case None => BadBondLine(0)
      case Some(row) =>
        match CollectBonds(kinds[1..])
        case Rows(rest) => Rows([row] + rest)
        case BadBondLine(i) => BadBondLine(i + 1)
  }

  /** The rows read are those of the lines, and reading stops at a line only when every line before it gives a row. */
  lemma {:induction false} CollectBondsSound(kinds: seq<Option<Row>>)
    ensures CollectBonds(kinds).Rows? ==> forall i :: 0 <= i < |kinds| ==> kinds[i] == Some(CollectBonds(kinds).rows[i])
    ensures CollectBonds(kinds).BadBondLine? ==> forall j :: 0 <= j < CollectBonds(kinds).index ==> kinds[j].Some?
  {
    if kinds != [] && kinds[0].Some? {
      CollectBondsSound(kinds[1..]);
    }
  }

  /** Reading stops at the first line without a row, and reads every row otherwise. */
  lemma {:induction false} CollectBondsAt(kinds: seq<Option<Row>>, rows: seq<Row>)
    requires |rows| <= |kinds|
    requires forall j :: 0 <= j < |rows| ==> kinds[j] == Some(rows[j])
    ensures |rows| == |kinds| ==> CollectBonds(kinds) == Rows(rows)
    ensures |rows| < |kinds| && kinds[|rows|].None? ==> CollectBonds(kinds) == BadBondLine(|rows|)
  {
    if rows != [] {
      CollectBondsAt(kinds[1..], rows[1..]);
      assert [rows[0]] + rows[1..] == rows;
    }
  }

  /** The bond table: the rows read, then rows of zeros up to `n` rows (`np.zeros((nbonds, 4))`). */
  function Padded(rows: seq<Row>, n: nat): (r: seq<Row>)
    requires |rows| <= n
    ensures |r| == n
  {
    rows + seq(n - |rows|, _ => [0, 0, 0, 0])
  }

  /**
   * The name of a bond row: the symbols of its two atoms, numbered from 1,
   * joined by "-"; numpy's indexing lets 0 and negative numbers count from
   * the end. None when an atom number is out of range (IndexError).
   */
  function BondName(symbols: seq<string>, row: Row): (r: Option<string>)
    ensures 1 <= row[0] <= |symbols| && 1 <= row[1] <= |symbols| ==>
              r == Some(symbols[row[0] - 1] + "-" + symbols[row[1] - 1])
    ensures r.Some? <==> -|symbols| < row[0] <= |symbols| && -|symbols| < row[1] <= |symbols|
  {
    var a := Index(symbols, row[0] - 1);
    var b := Index(symbols, row[1] - 1);
    if a.Some? && b.Some? then Some(a.value + "-" + b.value) else None
  }

  /** The names of all rows, or None as soon as one of them fails. */
  function BondNames(symbols: seq<string>, rows: seq<Row>): (r: Option<seq<string>>)
    ensures r.Some? ==> |r.value| == |rows|
  {
    if rows == [] then Some([])
    else
      var a := BondName(symbols, rows[0]);
      var rest := BondNames(symbols, rows[1..]);
      if a.Some? && rest.Some? then Some([a.value] + rest.value) else None
  }

  /** The names are there exactly when every row has one, and each is the name of its row. */
  lemma {:induction false} BondNamesSound(symbols: seq<string>, rows: seq<Row>)
    ensures BondNames(symbols, rows).Some? <==> forall i :: 0 <= i < |rows| ==> BondName(symbols, rows[i]).Some?
    ensures BondNames(symbols, rows).Some? ==>
              forall i :: 0 <= i < |rows| ==> Some(BondNames(symbols, rows).value[i]) == BondName(symbols, rows[i])
  {
    if rows != [] {
      BondNamesSound(symbols, rows[1..]);
      assert forall i :: 1 <= i < |rows| ==> rows[i] == rows[1..][i - 1];
    }
  }

  /** The exceptions that escape a reader's constructor. */
  datatype Exception =
    | IndexError            // a missing line, counts value, field or atom
    | CorruptedFileWarning  // raised (not warned) when the number of atoms cannot be estimated
    | AttributeError        // an attribute read before it was ever set

  /** How parsing the atoms block ends. */
  datatype AtomsOutcome =
    | AtomsOk(symbols: seq<string>)       // the structure's row names
    | AtomsValueError(line: Option<nat>)  // a ValueError; the line that caused it, when one did
    | AtomsRaised(error: Exception)

  /**
   * `_parse_atoms_block` for `natoms` atoms, on what the lines of the block
   * give: the coordinate table cannot have a negative size, each line must
   * give a symbol, and the table needs exactly `natoms` symbols for its rows.
   */
  function AtomsBlock(kinds: seq<AtomLine>, natoms: int): AtomsOutcome
  {
    if natoms < 0 then AtomsValueError(None)
    else match CollectAtoms(kinds)
      case BadAtomLine(i) => AtomsValueError(Some(i))
      case SymbolMissing(_) => AtomsRaised(IndexError)
      case Symbols(symbols) => if |symbols| != natoms then AtomsValueError(None) else AtomsOk(symbols)
  }

  /** A row name of the bond table: two atoms' symbols, or a bare number when no structure was set. */
  datatype RowName = Named(name: string) | Numbered(number: int)

  datatype Bond = Bond(name: RowName, row: Row)

  /** How parsing the bonds block ends. */
  datatype BondsOutcome =
    | BondsOk(bonds: seq<Bond>)
    | BondsValueError(line: Option<nat>)
    | BondsRaised(error: Exception)

  function Labelled(rows: seq<Row>, names: seq<string>): (r: seq<Bond>)
    requires |names| == |rows|
    ensures |r| == |rows|
  {
    seq(|rows|, i requires 0 <= i < |rows| => Bond(Named(names[i]), rows[i]))
  }

  function NumberedRows(rows: seq<Row>): (r: seq<Bond>)
    ensures |r| == |rows|
  {
    seq(|rows|, i requires 0 <= i < |rows| => Bond(Numbered(i + 1), rows[i]))
  }


  /**
   * `_parse_bonds_block` for `nbonds` bonds, on what the lines of the block
   * give: rows of four integers, zero rows for lines the block lacks, named
   * after the atoms' symbols when a structure is known and numbered from 1
   * when not.
   */
  function BondsBlock(kinds: seq<Option<Row>>, nbonds: int, symbols: Option<seq<string>>): BondsOutcome
    requires nbonds < 0 || |kinds| <= nbonds
  {
    if nbonds < 0 then BondsValueError(None)
    else match CollectBonds(kinds)
      case BadBondLine(i) => BondsValueError(Some(i))
      case Rows(rows) => NamedBonds(Padded(rows, nbonds), symbols)
  }

  /** Filling the first zero row of a padded table pads one more row. */
  lemma PaddedPush(rows: seq<Row>, n: nat, row: Row)
    requires |rows| < n
    ensures Padded(rows, n)[|rows| := row] == Padded(rows + [row], n)
  {
  }

  /** The bond table with its row names: numbered when no symbols are known, an IndexError for an atom out of range. */
  function NamedBonds(table: seq<Row>, symbols: Option<seq<string>>): BondsOutcome
  {
    match symbols
    case None => BondsOk(NumberedRows(table))
    case Some(s) =>
      match BondNames(s, table)
      case None => BondsRaised(IndexError)
      case Some(names) => BondsOk(Labelled(table, names))
  }

  /** Each line of an atoms block gives the symbol at its place. */
  predicate SymbolsOn(kinds: seq<AtomLine>, symbols: seq<string>)
  {
    |symbols| == |kinds| && forall i :: 0 <= i < |kinds| ==> kinds[i] == Symbol(symbols[i])
  }

  /** The atoms block gives a structure exactly when it has `natoms` lines, each with its symbol. */
  lemma AtomsBlockOk(kinds: seq<AtomLine>, natoms: int, symbols: seq<string>)
    ensures AtomsBlock(kinds, natoms) == AtomsOk(symbols) <==> natoms == |kinds| && SymbolsOn(kinds, symbols)
  {
    CollectAtomsSound(kinds);
    if natoms == |kinds| && SymbolsOn(kinds, symbols) {
      CollectAtomsAt(kinds, symbols);
    }
  }

  /** The symbols of the lines before line `k`, when each of them has one. */
  function SymbolsBefore(kinds: seq<AtomLine>, k: nat): (r: seq<string>)
    requires k <= |kinds| && forall j :: 0 <= j < k ==> kinds[j].Symbol?
    ensures |r| == k && forall j :: 0 <= j < k ==> kinds[j] == Symbol(r[j])
  {
    seq(k, j requires 0 <= j < k => kinds[j].symbol)
  }

  /** The first line of the atoms block without coordinates is the line of the ValueError. */
  lemma AtomsBlockBadLine(kinds: seq<AtomLine>, natoms: int, k: nat)
    requires natoms >= 0 && k < |kinds| && kinds[k] == BadCoordinates
    requires forall j :: 0 <= j < k ==> kinds[j].Symbol?
    ensures AtomsBlock(kinds, natoms) == AtomsValueError(Some(k))
  {
    CollectAtomsAt(kinds, SymbolsBefore(kinds, k));
  }

  /** The first line of the atoms block with coordinates but no symbol raises an IndexError. */
  lemma AtomsBlockNoSymbol(kinds: seq<AtomLine>, natoms: int, k: nat)
    requires natoms >= 0 && k < |kinds| && kinds[k] == NoSymbol
    requires forall j :: 0 <= j < k ==> kinds[j].Symbol?
    ensures AtomsBlock(kinds, natoms) == AtomsRaised(IndexError)
  {
    CollectAtomsAt(kinds, SymbolsBefore(kinds, k));
  }

  /** An atoms block with fewer lines than atoms, each with a symbol, is a ValueError from no line. */
  lemma AtomsBlockShort(kinds: seq<AtomLine>, natoms: int)
    requires |kinds| < natoms
    requires forall j :: 0 <= j < |kinds| ==> kinds[j].Symbol?
    ensures AtomsBlock(kinds, natoms) == AtomsValueError(None)
  {
    CollectAtomsAt(kinds, SymbolsBefore(kinds, |kinds|));
  }

  /** The rows of a bond table read from the lines of its block, and zero rows past the block's end. */
  predicate RowsOn(kinds: seq<Option<Row>>, bonds: seq<Bond>)
  {
    |kinds| <= |bonds| &&
    (forall i :: 0 <= i < |kinds| ==> kinds[i] == Some(bonds[i].row)) &&
    (forall i :: |kinds| <= i < |bonds| ==> bonds[i].row == [0, 0, 0, 0])
  }

  /** The name of row `i` of a bond table: its atoms' symbols when they are known, its number from 1 otherwise. */
  predicate NamedAt(bonds: seq<Bond>, i: nat, symbols: Option<seq<string>>)
    requires i < |bonds|
  {
    match symbols
    case None => bonds[i].name == Numbered(i + 1)
    case Some(s) => bonds[i].name.Named? && BondName(s, bonds[i].row) == Some(bonds[i].name.name)
  }

  predicate NamesOn(bonds: seq<Bond>, symbols: Option<seq<string>>)
  {
    forall i :: 0 <= i < |bonds| ==> NamedAt(bonds, i, symbols)
  }

  /**
   * The bonds block gives a table exactly when it has `nbonds` rows, read
   * from its lines or zero past its end, each named as the symbols allow.
   */
  lemma BondsBlockOk(kinds: seq<Option<Row>>, nbonds: int, symbols: Option<seq<string>>, bonds: seq<Bond>)
    requires nbonds < 0 || |kinds| <= nbonds
    ensures BondsBlock(kinds, nbonds, symbols) == BondsOk(bonds) <==>
              nbonds == |bonds| && RowsOn(kinds, bonds) && NamesOn(bonds, symbols)
  {
    if nbonds == |bonds| && RowsOn(kinds, bonds) && NamesOn(bonds, symbols) {
      BondsBlockOfRows(kinds, symbols, bonds);
    }
    if BondsBlock(kinds, nbonds, symbols) == BondsOk(bonds) {
      BondsBlockRows(kinds, nbonds, symbols, bonds);
    }
  }

  lemma BondsBlockOfRows(kinds: seq<Option<Row>>, symbols: Option<seq<string>>, bonds: seq<Bond>)
    requires RowsOn(kinds, bonds) && NamesOn(bonds, symbols)
    ensures BondsBlock(kinds, |bonds|, symbols) == BondsOk(bonds)
  {
    var rows := seq(|kinds|, i requires 0 <= i < |kinds| => bonds[i].row);
    CollectBondsAt(kinds, rows);
    var table := Padded(rows, |bonds|);
    assert forall i :: 0 <= i < |bonds| ==> table[i] == bonds[i].row;
    match symbols
    case None =>
      assert NumberedRows(table) == bonds by {
        forall i | 0 <= i < |bonds|
          ensures NumberedRows(table)[i] == bonds[i]
        {
          assert NamedAt(bonds, i, symbols);
        }
      }
    case Some(s) =>
      assert forall i :: 0 <= i < |bonds| ==> NamedAt(bonds, i, symbols) && BondName(s, table[i]).Some?;
      BondNamesSound(s, table);
      var names := BondNames(s, table).value;
      assert Labelled(table, names) == bonds by {
        forall i | 0 <= i < |bonds|
          ensures Labelled(table, names)[i] == bonds[i]
        {
          assert NamedAt(bonds, i, symbols);
        }
      }
  }

  lemma BondsBlockRows(kinds: seq<Option<Row>>, nbonds: int, symbols: Option<seq<string>>, bonds: seq<Bond>)
    requires nbonds < 0 || |kinds| <= nbonds
    requires BondsBlock(kinds, nbonds, symbols) == BondsOk(bonds)
    ensures nbonds == |bonds| && RowsOn(kinds, bonds) && NamesOn(bonds, symbols)
  {
    CollectBondsSound(kinds);
    var table := Padded(CollectBonds(kinds).rows, nbonds);
    if symbols.Some? {
      BondNamesSound(symbols.value, table);
    }
    forall i | 0 <= i < |bonds|
      ensures NamedAt(bonds, i, symbols)
    {
    }
  }

  /** The rows of the lines before line `k`, when each of them gives one. */
  function RowsBefore(kinds: seq<Option<Row>>, k: nat): (r: seq<Row>)
    requires k <= |kinds| && forall j :: 0 <= j < k ==> kinds[j].Some?
    ensures |r| == k && forall j :: 0 <= j < k ==> kinds[j] == Some(r[j])
  {
    seq(k, j requires 0 <= j < k => kinds[j].value)
  }

  /** The first line of the bonds block that gives no row is the line of the ValueError. */
  lemma BondsBlockBadLine(kinds: seq<Option<Row>>, nbonds: int, symbols: Option<seq<string>>, k: nat)
    requires 0 <= nbonds && |kinds| <= nbonds
    requires k < |kinds| && kinds[k] == None
    requires forall j :: 0 <= j < k ==> kinds[j].Some?
    ensures BondsBlock(kinds, nbonds, symbols) == BondsValueError(Some(k))
  {
    CollectBondsAt(kinds, RowsBefore(kinds, k));
  }

  /** The lines from line `start` on give the symbols, one per line. */
  predicate SymbolsFrom(kinds: seq<AtomLine>, start: nat, symbols: seq<string>)
  {
    start + |symbols| <= |kinds| &&
    forall i :: 0 <= i < |symbols| ==> kinds[start + i] == Symbol(symbols[i])
  }

  /** The atoms block cut out of a file from line `start` on gives a structure exactly when those lines give its symbols. */
  lemma AtomsBlockOkIn(kinds: seq<AtomLine>, start: nat, natoms: int, symbols: seq<string>)
    requires start <= |kinds|
    ensures AtomsBlock(Slice(kinds, start, start + natoms), natoms) == AtomsOk(symbols) <==>
              natoms == |symbols| && SymbolsFrom(kinds, start, symbols)
  {
    var block := Slice(kinds, start, start + natoms);
    AtomsBlockOk(block, natoms, symbols);
    if natoms == |symbols| {
      SliceFrom(kinds, start, natoms);
      if SymbolsOn(block, symbols) {
        assert start + natoms <= |kinds|;
        assert forall i :: 0 <= i < natoms ==> block[i] == kinds[start + i];
      }
    }
  }

  /** The same, for the first line without coordinates, counted within the block. */
  lemma AtomsBlockBadLineIn(kinds: seq<AtomLine>, start: nat, natoms: nat, k: nat)
    requires k < natoms && start + k < |kinds|
    requires forall j :: start <= j < start + k ==> kinds[j].Symbol?
    requires kinds[start + k] == BadCoordinates
    ensures AtomsBlock(Slice(kinds, start, start + natoms), natoms) == AtomsValueError(Some(k))
  {
    var block := Slice(kinds, start, start + natoms);
    SliceFrom(kinds, start, natoms);
    assert forall j :: 0 <= j <= k ==> block[j] == kinds[start + j];
    AtomsBlockBadLine(block, natoms, k);
  }

  /** The same, for the first line without a symbol. */
  lemma AtomsBlockNoSymbolIn(kinds: seq<AtomLine>, start: nat, natoms: nat, k: nat)
    requires k < natoms && start + k < |kinds|
    requires forall j :: start <= j < start + k ==> kinds[j].Symbol?
    requires kinds[start + k] == NoSymbol
    ensures AtomsBlock(Slice(kinds, start, start + natoms), natoms) == AtomsRaised(IndexError)
  {
    var block := Slice(kinds, start, start + natoms);
    SliceFrom(kinds, start, natoms);
    assert forall j :: 0 <= j <= k ==> block[j] == kinds[start + j];
    AtomsBlockNoSymbol(block, natoms, k);
  }

  /** An atoms block cut short by the end of the file is a ValueError from no line. */
  lemma AtomsBlockShortIn(kinds: seq<AtomLine>, start: nat, natoms: nat)
    requires start <= |kinds| < start + natoms
    requires forall j :: start <= j < |kinds| ==> kinds[j].Symbol?
    ensures AtomsBlock(Slice(kinds, start, start + natoms), natoms) == AtomsValueError(None)
  {
    var block := Slice(kinds, start, start + natoms);
    SliceFrom(kinds, start, natoms);
    assert forall j :: 0 <= j < |block| ==> block[j] == kinds[start + j];
    AtomsBlockShort(block, natoms);
  }

  /**
   * The rows of a bond table read from the lines of a file from line
   * `start` on, and zero rows for the lines past the file's end.
   */
  predicate RowsFrom(kinds: seq<Option<Row>>, start: nat, bonds: seq<Bond>)
  {
    (forall i :: 0 <= i < |bonds| && start + i < |kinds| ==> kinds[start + i] == Some(bonds[i].row)) &&
    (forall i :: 0 <= i < |bonds| && |kinds| <= start + i ==> bonds[i].row == [0, 0, 0, 0])
  }

  /**
   * The bonds block cut out of a file from line `start` on gives a table
   * exactly when it has `nbonds` rows, read from those lines, each named as
   * the symbols allow.
   */
  lemma BondsBlockOkIn(kinds: seq<Option<Row>>, start: nat, nbonds: int, symbols: Option<seq<string>>, bonds: seq<Bond>)
    ensures BondsBlock(Slice(kinds, start, start + nbonds), nbonds, symbols) == BondsOk(bonds) <==>
              nbonds == |bonds| && RowsFrom(kinds, start, bonds) && NamesOn(bonds, symbols)
  {
    var block := Slice(kinds, start, start + nbonds);
    BondsBlockOk(block, nbonds, symbols, bonds);
    if nbonds == |bonds| {
      SliceFrom(kinds, start, nbonds);
      assert forall i :: 0 <= i < |block| ==> block[i] == kinds[start + i];
    }
  }

  /** The "if" half of the above: rows read from the lines after `start`, each named as the symbols allow, make the table. */
  lemma BondsBlockReadsIn(kinds: seq<Option<Row>>, start: nat, symbols: Option<seq<string>>, bonds: seq<Bond>)
    requires RowsFrom(kinds, start, bonds) && NamesOn(bonds, symbols)
    ensures BondsBlock(Slice(kinds, start, start + |bonds|), |bonds|, symbols) == BondsOk(bonds)
  {
    BondsBlockOkIn(kinds, start, |bonds|, symbols, bonds);
  }

  /** The "only if" half: a table made from the block is its rows, read from the lines after `start` and named. */
  lemma BondsBlockReadIn(kinds: seq<Option<Row>>, start: nat, nbonds: int, symbols: Option<seq<string>>)
    requires BondsBlock(Slice(kinds, start, start + nbonds), nbonds, symbols).BondsOk?
    ensures var bonds := BondsBlock(Slice(kinds, start, start + nbonds), nbonds, symbols).bonds;
            nbonds == |bonds| && RowsFrom(kinds, start, bonds) && NamesOn(bonds, symbols)
  {
    BondsBlockOkIn(kinds, start, nbonds, symbols, BondsBlock(Slice(kinds, start, start + nbonds), nbonds, symbols).bonds);
  }

  /** The same, for the first line of the block that gives no row, counted within the block. */
  lemma BondsBlockBadLineIn(kinds: seq<Option<Row>>, start: nat, nbonds: nat, symbols: Option<seq<string>>, k: nat)
    requires k < nbonds && start + k < |kinds|
    requires forall j :: start <= j < start + k ==> kinds[j].Some?
    requires kinds[start + k] == None
    ensures BondsBlock(Slice(kinds, start, start + nbonds), nbonds, symbols) == BondsValueError(Some(k))
  {
    var block := Slice(kinds, start, start + nbonds);
    SliceFrom(kinds, start, nbonds);
    assert forall j :: 0 <= j <= k ==> block[j] == kinds[start + j];
    BondsBlockBadLine(block, nbonds, symbols, k);
  }

  /** The loop of `_parse_atoms_block`: the symbol of each line in turn, up to the first line that has none. */
  method ReadAtomLines(data: seq<string>) returns (read: AtomLines)
    ensures read == CollectAtoms(AtomKinds(data))
  {
    ghost var kinds := AtomKinds(data);
    var symbols: seq<string> := [];
    for i := 0 to |data|
      invariant |symbols| == i
      invariant forall j :: 0 <= j < i ==> kinds[j] == Symbol(symbols[j])
    {
      MapAt(ReadAtomLine, data, i);
      match ReadAtomLine(data[i])
      case BadCoordinates =>
        CollectAtomsAt(kinds, symbols);
        return BadAtomLine(i);
      case NoSymbol =>
        CollectAtomsAt(kinds, symbols);
        return SymbolMissing(i);
      case Symbol(symbol) =>
        symbols := symbols + [symbol];
    }
    CollectAtomsAt(kinds, symbols);
    return Symbols(symbols);
  }

  /**
   * The loop of `_parse_bonds_block`: a table of `n` zero rows, filled with
   * the row of each line in turn; the line whose row is rejected, if any.
   */
  method FillBondTable(data: seq<string>, n: nat) returns (table: array<Row>, bad: Option<nat>)
    requires |data| <= n
    ensures fresh(table) && table.Length == n
    ensures bad.Some? <==> CollectBonds(BondKinds(data)).BadBondLine?
    ensures bad.Some? ==> bad.value == CollectBonds(BondKinds(data)).index
    ensures bad.None? ==> table[..] == Padded(CollectBonds(BondKinds(data)).rows, n)
  {
    ghost var kinds := BondKinds(data);
    ghost var rows: seq<Row> := [];
    table := new Row[n](_ => [0, 0, 0, 0]);
    assert table[..] == Padded(rows, n);
    for i := 0 to |data|
      invariant |rows| == i
      invariant forall j :: 0 <= j < i ==> kinds[j] == Some(rows[j])
      invariant table[..] == Padded(rows, n)
    {
      MapAt(ReadBondLine, data, i);
      var row := ReadBondLine(data[i]);
      if row.None? {
        CollectBondsAt(kinds, rows);
        return table, Some(i);
      }
      PaddedPush(rows, n, row.value);
      table[i] := row.value;
      rows := rows + [row.value];
    }
    CollectBondsAt(kinds, rows);
    return table, None;
  }

  /** One more field of the counts line adds its value when it is not empty. */
  lemma CountsStep(fields: seq<string>, i: nat)
    requires i < |fields|
    ensures fields[i] == "" ==> ParseAll(NonEmpty(fields[..i + 1])) == ParseAll(NonEmpty(fields[..i]))
    ensures fields[i] != "" ==>
              ParseAll(NonEmpty(fields[..i + 1])) == ParseAll(NonEmpty(fields[..i])) + [ParseInt(fields[i])]
  {
    assert fields[..i + 1] == fields[..i] + [fields[i]];
    NonEmptyAppend(fields[..i], fields[i]);
    if fields[i] == "" {
      assert NonEmpty(fields[..i + 1]) == NonEmpty(fields[..i]);
    } else {
      ParseAllAppend(NonEmpty(fields[..i]), fields[i]);
    }
  }

  /**
   * The row-name comprehension of `_parse_bonds_block`: the name of each row
   * in turn; None at the first row whose atom is out of range (IndexError).
   */
  method NameRows(symbols: seq<string>, rows: seq<Row>) returns (names: Option<seq<string>>)
    ensures names == BondNames(symbols, rows)
  {
    var named: seq<string> := [];
    for i := 0 to |rows|
      invariant |named| == i
      invariant forall j :: 0 <= j < i ==> BondName(symbols, rows[j]) == Some(named[j])
    {
      var name := BondName(symbols, rows[i]);
      if name.None? {
        BondNamesSound(symbols, rows);
        return None;
      }
      named := named + [name.value];
    }
    BondNamesSound(symbols, rows);
    assert BondNames(symbols, rows).Some?;
    assert forall j :: 0 <= j < |rows| ==> BondNames(symbols, rows).value[j] == named[j];
    assert BondNames(symbols, rows).value == named;
    return Some(named);
  }

  /** The values of the first `i` fields are a prefix of the values of all of them. */
  lemma {:induction false} CountsPrefix(fields: seq<string>, i: nat)
    requires i <= |fields|
    ensures ParseAll(NonEmpty(fields[..i])) <= ParseAll(NonEmpty(fields))
    decreases |fields| - i
  {
    if i == |fields| {
      assert fields[..i] == fields;
    } else {
      CountsStep(fields, i);
      CountsPrefix(fields, i + 1);
    }
  }
}
