/**
 * The constant character tables of the point groups the program supports,
 * and the registry that maps a point-group name to its table.
 *
 * C8v, D4d and D6d have irrational characters (square roots of 2 and 3) and
 * are represented only by name.
 */
module CharacterTables {
  import opened Wrappers
  import opened Characters

  /** The Cs table (character_tables.py lines 15-18). */
  function CsTable(): Table
  {
    Table(["Cs", "A'", "A''"],
          [[ 1,  1],
           [ 1,  1],
           [ 1, -1]])
  }

  /** The C2v table (character_tables.py lines 20-26). */
  function C2vTable(): Table
  {
    Table(["C2v", "A1", "A2", "B1", "B2"],
          [[ 1,  1,  1,  1],
           [ 1,  1,  1,  1],
           [ 1,  1, -1, -1],
           [ 1, -1,  1, -1],
           [ 1, -1, -1,  1]])
  }

  /** The C3v table (character_tables.py lines 28-33). */
  function C3vTable(): Table
  {
    Table(["C3v", "A1", "A2", "E"],
          [[ 1,  2,  3],
           [ 1,  1,  1],
           [ 1,  1, -1],
           [ 2, -1,  0]])
  }

  /** The C4v table (character_tables.py lines 35-42). */
  function C4vTable(): Table
  {
    Table(["C4v", "A1", "A2", "B1", "B2", "E"],
          [[ 1,  2,  1,  2,  2],
           [ 1,  1,  1,  1,  1],
           [ 1,  1,  1, -1, -1],
           [ 1, -1,  1,  1, -1],
           [ 1, -1,  1, -1,  1],
           [ 2,  0, -2,  0,  0]])
  }

  /** The C6v table (character_tables.py lines 44-52). */
  function C6vTable(): Table
  {
    Table(["C6v", "A1", "A2", "B1", "B2", "E1", "E2"],
          [[ 1,  2,  2,  1,  3,  3],
           [ 1,  1,  1,  1,  1,  1],
           [ 1,  1,  1,  1, -1, -1],
           [ 1, -1,  1, -1,  1, -1],
           [ 1, -1,  1, -1, -1,  1],
           [ 2,  1, -1, -2,  0,  0],
           [ 2, -1, -1,  2,  0,  0]])
  }

  /** The C2h table (character_tables.py lines 65-71). */
  function C2hTable(): Table
  {
    Table(["C2h", "Ag", "Bg", "Au", "Bu"],
          [[ 1,  1,  1,  1],
           [ 1,  1,  1,  1],
           [ 1, -1,  1, -1],
           [ 1,  1, -1, -1],
           [ 1, -1, -1,  1]])
  }

  /** The D2h table (character_tables.py lines 73-83). */
  function D2hTable(): Table
  {
    Table(["D2h", "Ag", "B1g", "B2g", "B3g", "Au", "B1u", "B2u", "B3u"],
          [[ 1,  1,  1,  1,  1,  1,  1,  1],
           [ 1,  1,  1,  1,  1,  1,  1,  1],
           [ 1,  1, -1, -1,  1,  1, -1, -1],
           [ 1, -1,  1, -1,  1, -1,  1, -1],
           [ 1, -1, -1,  1,  1, -1, -1,  1],
           [ 1,  1,  1,  1, -1, -1, -1, -1],
           [ 1,  1, -1, -1, -1, -1,  1,  1],
           [ 1, -1,  1, -1, -1,  1, -1,  1],
           [ 1, -1, -1,  1, -1,  1,  1, -1]])
  }

  /** The D3h table (character_tables.py lines 85-93). */
  function D3hTable(): Table
  {
    Table(["D3h", "A'1", "A'2", "E'", "A''1", "A''2", "E''"],
          [[ 1,  2,  3,  1,  2,  3],
           [ 1,  1,  1,  1,  1,  1],
           [ 1,  1, -1,  1,  1, -1],
           [ 2, -1,  0,  2, -1,  0],
           [ 1,  1,  1, -1, -1, -1],
           [ 1,  1, -1, -1, -1,  1],
           [ 2, -1,  0, -2,  1,  0]])
  }

  /** The D4h table (character_tables.py lines 95-107). */
  function D4hTable(): Table
  {
    Table(["D4h", "A1g", "A2g", "B1g", "B2g", "Eg", "A1u", "A2u", "B1u", "B2u", "Eu"],
          [[ 1,  2,  1,  2,  2,  1,  2,  1,  2,  2],
           [ 1,  1,  1,  1,  1,  1,  1,  1,  1,  1],
           [ 1,  1,  1, -1, -1,  1,  1,  1, -1, -1],
           [ 1, -1,  1,  1, -1,  1, -1,  1,  1, -1],
           [ 1, -1,  1, -1,  1,  1, -1,  1, -1,  1],
           [ 2,  0, -2,  0,  0,  2,  0, -2,  0,  0],
           [ 1,  1,  1,  1,  1, -1, -1, -1, -1, -1],
           [ 1,  1,  1, -1, -1, -1, -1, -1,  1,  1],
           [ 1, -1,  1,  1, -1, -1,  1, -1, -1,  1],
           [ 1, -1,  1, -1,  1, -1,  1, -1,  1, -1],
           [ 2,  0, -2,  0,  0, -2,  0,  2,  0,  0]])
  }

  /** The D6h table (character_tables.py lines 109-123). */
  function D6hTable(): Table
  {
    Table(["D6h", "A1g", "A2g", "B1g", "B2g", "E1g", "E2g", "A1u", "A2u", "B1u", "B2u", "E1u", "E2u"],
          [[ 1,  2,  2,  1,  3,  3,  1,  2,  2,  1,  3,  3],
           [ 1,  1,  1,  1,  1,  1,  1,  1,  1,  1,  1,  1],
           [ 1,  1,  1,  1, -1, -1,  1,  1,  1,  1, -1, -1],
           [ 1, -1,  1, -1,  1, -1,  1, -1,  1, -1,  1, -1],
           [ 1, -1,  1, -1, -1,  1,  1, -1,  1, -1, -1,  1],
           [ 2,  1, -1, -2,  0,  0,  2,  1, -1, -2,  0,  0],
           [ 2, -1, -1,  2,  0,  0,  2, -1, -1,  2,  0,  0],
           [ 1,  1,  1,  1,  1,  1, -1, -1, -1, -1, -1, -1],
           [ 1,  1,  1,  1, -1, -1, -1, -1, -1, -1,  1,  1],
           [ 1, -1,  1, -1,  1, -1, -1,  1, -1,  1, -1,  1],
           [ 1, -1,  1, -1, -1,  1, -1,  1, -1,  1,  1, -1],
           [ 2,  1, -1, -2,  0,  0, -2, -1,  1,  2,  0,  0],
           [ 2, -1, -1,  2,  0,  0, -2,  1,  1, -2,  0,  0]])
  }

  /** The D2d table (character_tables.py lines 125-132). */
  function D2dTable(): Table
  {
    Table(["D2d", "A1", "A2", "B1", "B2", "E"],
          [[ 1,  2,  1,  2,  2],
           [ 1,  1,  1,  1,  1],
           [ 1,  1,  1, -1, -1],
           [ 1, -1,  1,  1, -1],
           [ 1, -1,  1, -1,  1],
           [ 2,  0, -2,  0,  0]])
  }

  /** The D3d table (character_tables.py lines 134-142). */
  function D3dTable(): Table
  {
    Table(["D3d", "A1g", "A2g", "Eg", "A1u", "A2u", "Eu"],
          [[ 1,  2,  3,  1,  2,  3],
           [ 1,  1,  1,  1,  1,  1],
           [ 1,  1, -1,  1,  1, -1],
           [ 2, -1,  0,  2, -1,  0],
           [ 1,  1,  1, -1, -1, -1],
           [ 1,  1, -1, -1, -1,  1],
           [ 2, -1,  0, -2,  1,  0]])
  }

  /** The Td table (character_tables.py lines 168-175). */
  function TdTable(): Table
  {
    Table(["Td", "A1", "A2", "E", "T1", "T2"],
          [[ 1,  8,  3,  6,  6],
           [ 1,  1,  1,  1,  1],
           [ 1,  1,  1, -1, -1],
           [ 2, -1,  2,  0,  0],
           [ 3,  0, -1,  1, -1],
           [ 3,  0, -1, -1,  1]])
  }

  /** The O table (character_tables.py lines 177-184). */
  function OTable(): Table
  {
    Table(["O", "A1", "A2", "E", "T1", "T2"],
          [[ 1,  8,  6,  6,  3],
           [ 1,  1,  1,  1,  1],
           [ 1,  1, -1, -1,  1],
           [ 2, -1,  0,  0,  2],
           [ 3,  0, -1,  1, -1],
           [ 3,  0,  1, -1, -1]])
  }

  /** The Oh table (character_tables.py lines 186-198). */
  function OhTable(): Table
  {
    Table(["Oh", "A1g", "A2g", "Eg", "T1g", "T2g", "A1u", "A2u", "Eu", "T1u", "T2u"],
          [[ 1,  8,  6,  6,  3,  1,  6,  8,  3,  6],
           [ 1,  1,  1,  1,  1,  1,  1,  1,  1,  1],
           [ 1,  1, -1, -1,  1,  1, -1,  1,  1, -1],
           [ 2, -1,  0,  0,  2,  2,  0, -1,  2,  0],
           [ 3,  0, -1,  1, -1,  3,  1,  0, -1, -1],
           [ 3,  0,  1, -1, -1,  3, -1,  0, -1,  1],
           [ 1,  1,  1,  1,  1, -1, -1, -1, -1, -1],
           [ 1,  1, -1, -1,  1, -1,  1, -1, -1,  1],
           [ 2, -1,  0,  0,  2, -2,  0,  1, -2,  0],
           [ 3,  0, -1,  1, -1, -3, -1,  0,  1,  1],
           [ 3,  0,  1, -1, -1, -3,  1,  0,  1, -1]])
  }

  /** The point groups whose tables character_tables.py defines. */
  datatype Group =
    | Cs | C2v | C3v | C4v | C6v | C8v | C2h | D2h | D3h | D4h | D6h
    | D2d | D3d | D4d | D6d | Td | O | Oh

  /** The name a group's table carries in its `index[0]`. */
  function Name(g: Group): string
  {
    match g
    case Cs => "Cs"
    case C2v => "C2v"
    case C3v => "C3v"
    case C4v => "C4v"
    case C6v => "C6v"
    case C8v => "C8v"
    case C2h => "C2h"
    case D2h => "D2h"
    case D3h => "D3h"
    case D4h => "D4h"
    case D6h => "D6h"
    case D2d => "D2d"
    case D3d => "D3d"
    case D4d => "D4d"
    case D6d => "D6d"
    case Td => "Td"
    case O => "O"
    case Oh => "Oh"
  }

  /** The integer-valued table of a group; `None` for the three tables with irrational characters. */
  function TableOf(g: Group): Option<Table>
  {
    match g
    case Cs => Some(CsTable())
    case C2v => Some(C2vTable())
    case C3v => Some(C3vTable())
    case C4v => Some(C4vTable())
    case C6v => Some(C6vTable())
    case C2h => Some(C2hTable())
    case D2h => Some(D2hTable())
    case D3h => Some(D3hTable())
    case D4h => Some(D4hTable())
    case D6h => Some(D6hTable())
    case D2d => Some(D2dTable())
    case D3d => Some(D3dTable())
    case Td => Some(TdTable())
    case O => Some(OTable())
    case Oh => Some(OhTable())
    case C8v => None
    case D4d => None
    case D6d => None
  }

  /** The `character_tables` dictionary, exactly as written: the key "C6v" is bound to the C8v table. */
  function Registry(): map<string, Group>
  {
    map["Cs" := Cs, "C2v" := C2v, "C3v" := C3v, "C4v" := C4v, "C6v" := C8v,
        "C2h" := C2h,
        "D2h" := D2h, "D3h" := D3h, "D4h" := D4h, "D6h" := D6h,
        "D2d" := D2d, "D3d" := D3d, "D4d" := D4d, "D6d" := D6d,
        "Td" := Td, "O" := O, "Oh" := Oh]
  }

  /** The dictionary as evidently intended: every key bound to the table of that name. */
  function CorrectedRegistry(): map<string, Group>
  {
    Registry()["C6v" := C6v]
  }

  lemma RegistryKeys()
    ensures Registry().Keys == {"Cs", "C2v", "C3v", "C4v", "C6v", "C2h", "D2h", "D3h", "D4h", "D6h",
                                "D2d", "D3d", "D4d", "D6d", "Td", "O", "Oh"}
  {
  }

  /** Every key except "C6v" names the table it is bound to. */
  lemma RegistryNamesItsTables(key: string)
    requires key in Registry() && key != "C6v"
    ensures Name(Registry()[key]) == key
  {
  }

  /** The key "C6v" yields the C8v table, and the C6v table is bound to no key at all. */
  lemma RegistryC6vIsC8v()
    ensures Registry()["C6v"] == C8v && Name(Registry()["C6v"]) == "C8v"
    ensures forall key :: key in Registry() ==> Registry()[key] != C6v
  {
  }

  /** In the corrected dictionary every key names its table, and only "C6v" changes. */
  lemma CorrectedRegistryNamesItsTables(key: string)
    requires key in CorrectedRegistry()
    ensures Name(CorrectedRegistry()[key]) == key
    ensures key != "C6v" ==> CorrectedRegistry()[key] == Registry()[key]
    ensures CorrectedRegistry().Keys == Registry().Keys
  {
  }


  // Each integer table is standard and satisfies the orthogonality relations.
  // The smaller tables are checked row by row on their literal characters;
  // the tables of groups with a centre of inversion (or a horizontal mirror)
  // are checked to be products of a smaller table with a group of order 2.
  // Each check is a lemma of its own, so that each stays small.

  lemma CsStandard()
    ensures Standard(CsTable(), "Cs")
  {
  }

  lemma C2vStandard()
    ensures Standard(C2vTable(), "C2v")
  {
  }

  lemma C3vStandard()
    ensures Standard(C3vTable(), "C3v")
  {
  }

  lemma C4vStandard()
    ensures Standard(C4vTable(), "C4v")
  {
  }

  lemma C6vStandard()
    ensures Standard(C6vTable(), "C6v")
  {
  }

  lemma C2hStandard()
    ensures Standard(C2hTable(), "C2h")
  {
  }

  lemma D2hStandard()
    ensures Standard(D2hTable(), "D2h")
  {
  }

  lemma D3hStandard()
    ensures Standard(D3hTable(), "D3h")
  {
  }

  lemma D4hStandard()
    ensures Standard(D4hTable(), "D4h")
  {
    D4hLabels();
  }

  lemma D4hLabels()
    ensures forall r, s :: 0 <= r < s < |D4hTable().index| ==> D4hTable().index[r] != D4hTable().index[s]
  {
  }

  lemma D6hStandard()
    ensures Standard(D6hTable(), "D6h")
  {
    D6hLabels();
  }

  lemma D6hLabels()
    ensures forall r, s :: 0 <= r < s < |D6hTable().index| ==> D6hTable().index[r] != D6hTable().index[s]
  {
  }

  lemma D2dStandard()
    ensures Standard(D2dTable(), "D2d")
  {
  }

  lemma D3dStandard()
    ensures Standard(D3dTable(), "D3d")
  {
  }

  lemma TdStandard()
    ensures Standard(TdTable(), "Td")
  {
  }

  lemma OStandard()
    ensures Standard(OTable(), "O")
  {
  }

  lemma OhStandard()
    ensures Standard(OhTable(), "Oh")
  {
    OhLabels();
  }

  lemma OhLabels()
    ensures forall r, s :: 0 <= r < s < |OhTable().index| ==> OhTable().index[r] != OhTable().index[s]
  {
  }

  lemma CsTriangle()
    ensures Triangle([1, 1], 2,
                     [[1, 1], [1, -1]])
  {
  }

  lemma CsRows()
    ensures CsTable().rows[0] == [1, 1] && Sum(CsTable().rows[0]) == 2
    ensures CsTable().rows[1..] == [[1, 1], [1, -1]]
  {
  }

  lemma CsOrthogonal()
    ensures Standard(CsTable(), "Cs") && Orthogonal(CsTable())
  {
    CsStandard();
    CsTriangle();
    CsRows();
    TriangleOrthogonal(CsTable());
  }

  lemma C2vTriangle()
    ensures Triangle([1, 1, 1, 1], 4,
                     [[1, 1, 1, 1], [1, 1, -1, -1], [1, -1, 1, -1], [1, -1, -1, 1]])
  {
  }

  lemma C2vRows()
    ensures C2vTable().rows[0] == [1, 1, 1, 1] && Sum(C2vTable().rows[0]) == 4
    ensures C2vTable().rows[1..] == [[1, 1, 1, 1], [1, 1, -1, -1], [1, -1, 1, -1], [1, -1, -1, 1]]
  {
  }

  lemma C2vOrthogonal()
    ensures Standard(C2vTable(), "C2v") && Orthogonal(C2vTable())
  {
    C2vStandard();
    C2vTriangle();
    C2vRows();
    TriangleOrthogonal(C2vTable());
  }

  lemma C3vTriangle()
    ensures Triangle([1, 2, 3], 6,
                     [[1, 1, 1], [1, 1, -1], [2, -1, 0]])
  {
  }

  lemma C3vRows()
    ensures C3vTable().rows[0] == [1, 2, 3] && Sum(C3vTable().rows[0]) == 6
    ensures C3vTable().rows[1..] == [[1, 1, 1], [1, 1, -1], [2, -1, 0]]
  {
  }

  lemma C3vOrthogonal()
    ensures Standard(C3vTable(), "C3v") && Orthogonal(C3vTable())
  {
    C3vStandard();
    C3vTriangle();
    C3vRows();
    TriangleOrthogonal(C3vTable());
  }

  lemma C4vTriangle()
    ensures Triangle([1, 2, 1, 2, 2], 8,
                     [[1, 1, 1, 1, 1], [1, 1, 1, -1, -1], [1, -1, 1, 1, -1], [1, -1, 1, -1, 1], [2, 0, -2, 0, 0]])
  {
  }

  lemma C4vRows()
    ensures C4vTable().rows[0] == [1, 2, 1, 2, 2] && Sum(C4vTable().rows[0]) == 8
    ensures C4vTable().rows[1..] == [[1, 1, 1, 1, 1], [1, 1, 1, -1, -1], [1, -1, 1, 1, -1], [1, -1, 1, -1, 1], [2, 0, -2, 0, 0]]
  {
  }

  lemma C4vOrthogonal()
    ensures Standard(C4vTable(), "C4v") && Orthogonal(C4vTable())
  {
    C4vStandard();
    C4vTriangle();
    C4vRows();
    TriangleOrthogonal(C4vTable());
  }

  lemma C6vLeading1()
    ensures Leading([1, 2, 2, 1, 3, 3], 12, [[1, 1, 1, 1, 1, 1]],
                    [[1, 1, 1, 1, -1, -1], [1, -1, 1, -1, 1, -1], [1, -1, 1, -1, -1, 1], [2, 1, -1, -2, 0, 0], [2, -1, -1, 2, 0, 0]])
  {
  }

  lemma C6vLeading2()
    ensures Leading([1, 2, 2, 1, 3, 3], 12, [[1, 1, 1, 1, -1, -1]],
                    [[1, -1, 1, -1, 1, -1], [1, -1, 1, -1, -1, 1], [2, 1, -1, -2, 0, 0], [2, -1, -1, 2, 0, 0]])
  {
  }

  lemma C6vLeading3()
    ensures Leading([1, 2, 2, 1, 3, 3], 12, [[1, -1, 1, -1, 1, -1]],
                    [[1, -1, 1, -1, -1, 1], [2, 1, -1, -2, 0, 0], [2, -1, -1, 2, 0, 0]])
  {
  }

  lemma C6vLeading4()
    ensures Leading([1, 2, 2, 1, 3, 3], 12, [[1, -1, 1, -1, -1, 1]],
                    [[2, 1, -1, -2, 0, 0], [2, -1, -1, 2, 0, 0]])
  {
  }

  lemma C6vLeading5()
    ensures Leading([1, 2, 2, 1, 3, 3], 12, [[2, 1, -1, -2, 0, 0]],
                    [[2, -1, -1, 2, 0, 0]])
  {
  }

  lemma C6vTriangle()
    ensures Triangle([1, 2, 2, 1, 3, 3], 12,
                     [[1, 1, 1, 1, 1, 1], [1, 1, 1, 1, -1, -1], [1, -1, 1, -1, 1, -1], [1, -1, 1, -1, -1, 1], [2, 1, -1, -2, 0, 0], [2, -1, -1, 2, 0, 0]])
  {
    C6vLeading5();
    TriangleAppend([1, 2, 2, 1, 3, 3], 12, [[2, 1, -1, -2, 0, 0]], [[2, -1, -1, 2, 0, 0]]);
    C6vLeading4();
    TriangleAppend([1, 2, 2, 1, 3, 3], 12, [[1, -1, 1, -1, -1, 1]], [[2, 1, -1, -2, 0, 0], [2, -1, -1, 2, 0, 0]]);
    C6vLeading3();
    TriangleAppend([1, 2, 2, 1, 3, 3], 12, [[1, -1, 1, -1, 1, -1]], [[1, -1, 1, -1, -1, 1], [2, 1, -1, -2, 0, 0], [2, -1, -1, 2, 0, 0]]);
    C6vLeading2();
    TriangleAppend([1, 2, 2, 1, 3, 3], 12, [[1, 1, 1, 1, -1, -1]], [[1, -1, 1, -1, 1, -1], [1, -1, 1, -1, -1, 1], [2, 1, -1, -2, 0, 0], [2, -1, -1, 2, 0, 0]]);
    C6vLeading1();
    TriangleAppend([1, 2, 2, 1, 3, 3], 12, [[1, 1, 1, 1, 1, 1]], [[1, 1, 1, 1, -1, -1], [1, -1, 1, -1, 1, -1], [1, -1, 1, -1, -1, 1], [2, 1, -1, -2, 0, 0], [2, -1, -1, 2, 0, 0]]);
  }

  lemma C6vRows()
    ensures C6vTable().rows[0] == [1, 2, 2, 1, 3, 3] && Sum(C6vTable().rows[0]) == 12
    ensures C6vTable().rows[1..] == [[1, 1, 1, 1, 1, 1], [1, 1, 1, 1, -1, -1], [1, -1, 1, -1, 1, -1], [1, -1, 1, -1, -1, 1], [2, 1, -1, -2, 0, 0], [2, -1, -1, 2, 0, 0]]
  {
  }

  lemma C6vOrthogonal()
    ensures Standard(C6vTable(), "C6v") && Orthogonal(C6vTable())
  {
    C6vStandard();
    C6vTriangle();
    C6vRows();
    TriangleOrthogonal(C6vTable());
  }

  lemma C2hTriangle()
    ensures Triangle([1, 1, 1, 1], 4,
                     [[1, 1, 1, 1], [1, -1, 1, -1], [1, 1, -1, -1], [1, -1, -1, 1]])
  {
  }

  lemma C2hRows()
    ensures C2hTable().rows[0] == [1, 1, 1, 1] && Sum(C2hTable().rows[0]) == 4
    ensures C2hTable().rows[1..] == [[1, 1, 1, 1], [1, -1, 1, -1], [1, 1, -1, -1], [1, -1, -1, 1]]
  {
  }

  lemma C2hOrthogonal()
    ensures Standard(C2hTable(), "C2h") && Orthogonal(C2hTable())
  {
    C2hStandard();
    C2hTriangle();
    C2hRows();
    TriangleOrthogonal(C2hTable());
  }

  lemma D2hRows(r: int)
    requires 1 <= r <= 4
    ensures D2hTable().rows[r] == C2vTable().rows[r] + Half(C2vTable().rows[r], [0, 1, 2, 3], false)
    ensures D2hTable().rows[4 + r] == C2vTable().rows[r] + Half(C2vTable().rows[r], [0, 1, 2, 3], true)
  {
    if r == 1 {
      D2hRow1();
    } else if r == 2 {
      D2hRow2();
    } else if r == 3 {
      D2hRow3();
    } else {
      D2hRow4();
    }
  }

  lemma D2hRow1()
    ensures D2hTable().rows[1] == C2vTable().rows[1] + Half(C2vTable().rows[1], [0, 1, 2, 3], false)
    ensures D2hTable().rows[5] == C2vTable().rows[1] + Half(C2vTable().rows[1], [0, 1, 2, 3], true)
  {
  }

  lemma D2hRow2()
    ensures D2hTable().rows[2] == C2vTable().rows[2] + Half(C2vTable().rows[2], [0, 1, 2, 3], false)
    ensures D2hTable().rows[6] == C2vTable().rows[2] + Half(C2vTable().rows[2], [0, 1, 2, 3], true)
  {
  }

  lemma D2hRow3()
    ensures D2hTable().rows[3] == C2vTable().rows[3] + Half(C2vTable().rows[3], [0, 1, 2, 3], false)
    ensures D2hTable().rows[7] == C2vTable().rows[3] + Half(C2vTable().rows[3], [0, 1, 2, 3], true)
  {
  }

  lemma D2hRow4()
    ensures D2hTable().rows[4] == C2vTable().rows[4] + Half(C2vTable().rows[4], [0, 1, 2, 3], false)
    ensures D2hTable().rows[8] == C2vTable().rows[4] + Half(C2vTable().rows[4], [0, 1, 2, 3], true)
  {
  }

  lemma D2hProduct()
    ensures WellFormed(C2vTable()) && InversionProduct(D2hTable(), C2vTable(), [0, 1, 2, 3])
  {
    C2vStandard();
    assert D2hTable().rows[0] == C2vTable().rows[0] + Permuted(C2vTable().rows[0], [0, 1, 2, 3]);
    forall r | 1 <= r <= 4 {
      D2hRows(r);
    }
  }

  lemma D2hOrthogonal()
    ensures Standard(D2hTable(), "D2h") && Orthogonal(D2hTable())
  {
    D2hStandard();
    C2vOrthogonal();
    D2hProduct();
    ProductOrthogonal(D2hTable(), C2vTable(), [0, 1, 2, 3]);
  }

  lemma D3hRows(r: int)
    requires 1 <= r <= 3
    ensures D3hTable().rows[r] == C3vTable().rows[r] + Half(C3vTable().rows[r], [0, 1, 2], false)
    ensures D3hTable().rows[3 + r] == C3vTable().rows[r] + Half(C3vTable().rows[r], [0, 1, 2], true)
  {
    if r == 1 {
      D3hRow1();
    } else if r == 2 {
      D3hRow2();
    } else {
      D3hRow3();
    }
  }

  lemma D3hRow1()
    ensures D3hTable().rows[1] == C3vTable().rows[1] + Half(C3vTable().rows[1], [0, 1, 2], false)
    ensures D3hTable().rows[4] == C3vTable().rows[1] + Half(C3vTable().rows[1], [0, 1, 2], true)
  {
  }

  lemma D3hRow2()
    ensures D3hTable().rows[2] == C3vTable().rows[2] + Half(C3vTable().rows[2], [0, 1, 2], false)
    ensures D3hTable().rows[5] == C3vTable().rows[2] + Half(C3vTable().rows[2], [0, 1, 2], true)
  {
  }

  lemma D3hRow3()
    ensures D3hTable().rows[3] == C3vTable().rows[3] + Half(C3vTable().rows[3], [0, 1, 2], false)
    ensures D3hTable().rows[6] == C3vTable().rows[3] + Half(C3vTable().rows[3], [0, 1, 2], true)
  {
  }

  lemma D3hProduct()
    ensures WellFormed(C3vTable()) && InversionProduct(D3hTable(), C3vTable(), [0, 1, 2])
  {
    C3vStandard();
    assert D3hTable().rows[0] == C3vTable().rows[0] + Permuted(C3vTable().rows[0], [0, 1, 2]);
    forall r | 1 <= r <= 3 {
      D3hRows(r);
    }
  }

  lemma D3hOrthogonal()
    ensures Standard(D3hTable(), "D3h") && Orthogonal(D3hTable())
  {
    D3hStandard();
    C3vOrthogonal();
    D3hProduct();
    ProductOrthogonal(D3hTable(), C3vTable(), [0, 1, 2]);
  }

  lemma D4hRows(r: int)
    requires 1 <= r <= 5
    ensures D4hTable().rows[r] == C4vTable().rows[r] + Half(C4vTable().rows[r], [0, 1, 2, 3, 4], false)
    ensures D4hTable().rows[5 + r] == C4vTable().rows[r] + Half(C4vTable().rows[r], [0, 1, 2, 3, 4], true)
  {
    if r == 1 {
      D4hRow1();
    } else if r == 2 {
      D4hRow2();
    } else if r == 3 {
      D4hRow3();
    } else if r == 4 {
      D4hRow4();
    } else {
      D4hRow5();
    }
  }

  lemma D4hRow1()
    ensures D4hTable().rows[1] == C4vTable().rows[1] + Half(C4vTable().rows[1], [0, 1, 2, 3, 4], false)
    ensures D4hTable().rows[6] == C4vTable().rows[1] + Half(C4vTable().rows[1], [0, 1, 2, 3, 4], true)
  {
  }

  lemma D4hRow2()
    ensures D4hTable().rows[2] == C4vTable().rows[2] + Half(C4vTable().rows[2], [0, 1, 2, 3, 4], false)
    ensures D4hTable().rows[7] == C4vTable().rows[2] + Half(C4vTable().rows[2], [0, 1, 2, 3, 4], true)
  {
  }

  lemma D4hRow3()
    ensures D4hTable().rows[3] == C4vTable().rows[3] + Half(C4vTable().rows[3], [0, 1, 2, 3, 4], false)
    ensures D4hTable().rows[8] == C4vTable().rows[3] + Half(C4vTable().rows[3], [0, 1, 2, 3, 4], true)
  {
  }

  lemma D4hRow4()
    ensures D4hTable().rows[4] == C4vTable().rows[4] + Half(C4vTable().rows[4], [0, 1, 2, 3, 4], false)
    ensures D4hTable().rows[9] == C4vTable().rows[4] + Half(C4vTable().rows[4], [0, 1, 2, 3, 4], true)
  {
  }

  lemma D4hRow5()
    ensures D4hTable().rows[5] == C4vTable().rows[5] + Half(C4vTable().rows[5], [0, 1, 2, 3, 4], false)
    ensures D4hTable().rows[10] == C4vTable().rows[5] + Half(C4vTable().rows[5], [0, 1, 2, 3, 4], true)
  {
  }

  lemma D4hProduct()
    ensures WellFormed(C4vTable()) && InversionProduct(D4hTable(), C4vTable(), [0, 1, 2, 3, 4])
  {
    C4vStandard();
    assert D4hTable().rows[0] == C4vTable().rows[0] + Permuted(C4vTable().rows[0], [0, 1, 2, 3, 4]);
    forall r | 1 <= r <= 5 {
      D4hRows(r);
    }
  }

  lemma D4hOrthogonal()
    ensures Standard(D4hTable(), "D4h") && Orthogonal(D4hTable())
  {
    D4hStandard();
    C4vOrthogonal();
    D4hProduct();
    ProductOrthogonal(D4hTable(), C4vTable(), [0, 1, 2, 3, 4]);
  }

  lemma D6hRows(r: int)
    requires 1 <= r <= 6
    ensures D6hTable().rows[r] == C6vTable().rows[r] + Half(C6vTable().rows[r], [0, 1, 2, 3, 4, 5], false)
    ensures D6hTable().rows[6 + r] == C6vTable().rows[r] + Half(C6vTable().rows[r], [0, 1, 2, 3, 4, 5], true)
  {
    if r == 1 {
      D6hRow1();
    } else if r == 2 {
      D6hRow2();
    } else if r == 3 {
      D6hRow3();
    } else if r == 4 {
      D6hRow4();
    } else if r == 5 {
      D6hRow5();
    } else {
      D6hRow6();
    }
  }

  lemma D6hRow1()
    ensures D6hTable().rows[1] == C6vTable().rows[1] + Half(C6vTable().rows[1], [0, 1, 2, 3, 4, 5], false)
    ensures D6hTable().rows[7] == C6vTable().rows[1] + Half(C6vTable().rows[1], [0, 1, 2, 3, 4, 5], true)
  {
  }

  lemma D6hRow2()
    ensures D6hTable().rows[2] == C6vTable().rows[2] + Half(C6vTable().rows[2], [0, 1, 2, 3, 4, 5], false)
    ensures D6hTable().rows[8] == C6vTable().rows[2] + Half(C6vTable().rows[2], [0, 1, 2, 3, 4, 5], true)
  {
  }

  lemma D6hRow3()
    ensures D6hTable().rows[3] == C6vTable().rows[3] + Half(C6vTable().rows[3], [0, 1, 2, 3, 4, 5], false)
    ensures D6hTable().rows[9] == C6vTable().rows[3] + Half(C6vTable().rows[3], [0, 1, 2, 3, 4, 5], true)
  {
  }

  lemma D6hRow4()
    ensures D6hTable().rows[4] == C6vTable().rows[4] + Half(C6vTable().rows[4], [0, 1, 2, 3, 4, 5], false)
    ensures D6hTable().rows[10] == C6vTable().rows[4] + Half(C6vTable().rows[4], [0, 1, 2, 3, 4, 5], true)
  {
  }

  lemma D6hRow5()
    ensures D6hTable().rows[5] == C6vTable().rows[5] + Half(C6vTable().rows[5], [0, 1, 2, 3, 4, 5], false)
    ensures D6hTable().rows[11] == C6vTable().rows[5] + Half(C6vTable().rows[5], [0, 1, 2, 3, 4, 5], true)
  {
  }

  lemma D6hRow6()
    ensures D6hTable().rows[6] == C6vTable().rows[6] + Half(C6vTable().rows[6], [0, 1, 2, 3, 4, 5], false)
    ensures D6hTable().rows[12] == C6vTable().rows[6] + Half(C6vTable().rows[6], [0, 1, 2, 3, 4, 5], true)
  {
  }

  lemma D6hProduct()
    ensures WellFormed(C6vTable()) && InversionProduct(D6hTable(), C6vTable(), [0, 1, 2, 3, 4, 5])
  {
    C6vStandard();
    assert D6hTable().rows[0] == C6vTable().rows[0] + Permuted(C6vTable().rows[0], [0, 1, 2, 3, 4, 5]);
    forall r | 1 <= r <= 6 {
      D6hRows(r);
    }
  }

  lemma D6hOrthogonal()
    ensures Standard(D6hTable(), "D6h") && Orthogonal(D6hTable())
  {
    D6hStandard();
    C6vOrthogonal();
    D6hProduct();
    ProductOrthogonal(D6hTable(), C6vTable(), [0, 1, 2, 3, 4, 5]);
  }

  lemma D2dTriangle()
    ensures Triangle([1, 2, 1, 2, 2], 8,
                     [[1, 1, 1, 1, 1], [1, 1, 1, -1, -1], [1, -1, 1, 1, -1], [1, -1, 1, -1, 1], [2, 0, -2, 0, 0]])
  {
  }

  lemma D2dRows()
    ensures D2dTable().rows[0] == [1, 2, 1, 2, 2] && Sum(D2dTable().rows[0]) == 8
    ensures D2dTable().rows[1..] == [[1, 1, 1, 1, 1], [1, 1, 1, -1, -1], [1, -1, 1, 1, -1], [1, -1, 1, -1, 1], [2, 0, -2, 0, 0]]
  {
  }

  lemma D2dOrthogonal()
    ensures Standard(D2dTable(), "D2d") && Orthogonal(D2dTable())
  {
    D2dStandard();
    D2dTriangle();
    D2dRows();
    TriangleOrthogonal(D2dTable());
  }

  lemma D3dRows(r: int)
    requires 1 <= r <= 3
    ensures D3dTable().rows[r] == C3vTable().rows[r] + Half(C3vTable().rows[r], [0, 1, 2], false)
    ensures D3dTable().rows[3 + r] == C3vTable().rows[r] + Half(C3vTable().rows[r], [0, 1, 2], true)
  {
    if r == 1 {
      D3dRow1();
    } else if r == 2 {
      D3dRow2();
    } else {
      D3dRow3();
    }
  }

  lemma D3dRow1()
    ensures D3dTable().rows[1] == C3vTable().rows[1] + Half(C3vTable().rows[1], [0, 1, 2], false)
    ensures D3dTable().rows[4] == C3vTable().rows[1] + Half(C3vTable().rows[1], [0, 1, 2], true)
  {
  }

  lemma D3dRow2()
    ensures D3dTable().rows[2] == C3vTable().rows[2] + Half(C3vTable().rows[2], [0, 1, 2], false)
    ensures D3dTable().rows[5] == C3vTable().rows[2] + Half(C3vTable().rows[2], [0, 1, 2], true)
  {
  }

  lemma D3dRow3()
    ensures D3dTable().rows[3] == C3vTable().rows[3] + Half(C3vTable().rows[3], [0, 1, 2], false)
    ensures D3dTable().rows[6] == C3vTable().rows[3] + Half(C3vTable().rows[3], [0, 1, 2], true)
  {
  }

  lemma D3dProduct()
    ensures WellFormed(C3vTable()) && InversionProduct(D3dTable(), C3vTable(), [0, 1, 2])
  {
    C3vStandard();
    assert D3dTable().rows[0] == C3vTable().rows[0] + Permuted(C3vTable().rows[0], [0, 1, 2]);
    forall r | 1 <= r <= 3 {
      D3dRows(r);
    }
  }

  lemma D3dOrthogonal()
    ensures Standard(D3dTable(), "D3d") && Orthogonal(D3dTable())
  {
    D3dStandard();
    C3vOrthogonal();
    D3dProduct();
    ProductOrthogonal(D3dTable(), C3vTable(), [0, 1, 2]);
  }

  lemma TdTriangle()
    ensures Triangle([1, 8, 3, 6, 6], 24,
                     [[1, 1, 1, 1, 1], [1, 1, 1, -1, -1], [2, -1, 2, 0, 0], [3, 0, -1, 1, -1], [3, 0, -1, -1, 1]])
  {
  }

  lemma TdRows()
    ensures TdTable().rows[0] == [1, 8, 3, 6, 6] && Sum(TdTable().rows[0]) == 24
    ensures TdTable().rows[1..] == [[1, 1, 1, 1, 1], [1, 1, 1, -1, -1], [2, -1, 2, 0, 0], [3, 0, -1, 1, -1], [3, 0, -1, -1, 1]]
  {
  }

  lemma TdOrthogonal()
    ensures Standard(TdTable(), "Td") && Orthogonal(TdTable())
  {
    TdStandard();
    TdTriangle();
    TdRows();
    TriangleOrthogonal(TdTable());
  }

  lemma OTriangle()
    ensures Triangle([1, 8, 6, 6, 3], 24,
                     [[1, 1, 1, 1, 1], [1, 1, -1, -1, 1], [2, -1, 0, 0, 2], [3, 0, -1, 1, -1], [3, 0, 1, -1, -1]])
  {
  }

  lemma ORows()
    ensures OTable().rows[0] == [1, 8, 6, 6, 3] && Sum(OTable().rows[0]) == 24
    ensures OTable().rows[1..] == [[1, 1, 1, 1, 1], [1, 1, -1, -1, 1], [2, -1, 0, 0, 2], [3, 0, -1, 1, -1], [3, 0, 1, -1, -1]]
  {
  }

  lemma OOrthogonal()
    ensures Standard(OTable(), "O") && Orthogonal(OTable())
  {
    OStandard();
    OTriangle();
    ORows();
    TriangleOrthogonal(OTable());
  }

  lemma OhRows(r: int)
    requires 1 <= r <= 5
    ensures OhTable().rows[r] == OTable().rows[r] + Half(OTable().rows[r], [0, 3, 1, 4, 2], false)
    ensures OhTable().rows[5 + r] == OTable().rows[r] + Half(OTable().rows[r], [0, 3, 1, 4, 2], true)
  {
    if r == 1 {
      OhRow1();
    } else if r == 2 {
      OhRow2();
    } else if r == 3 {
      OhRow3();
    } else if r == 4 {
      OhRow4();
    } else {
      OhRow5();
    }
  }

  lemma OhRow1()
    ensures OhTable().rows[1] == OTable().rows[1] + Half(OTable().rows[1], [0, 3, 1, 4, 2], false)
    ensures OhTable().rows[6] == OTable().rows[1] + Half(OTable().rows[1], [0, 3, 1, 4, 2], true)
  {
  }

  lemma OhRow2()
    ensures OhTable().rows[2] == OTable().rows[2] + Half(OTable().rows[2], [0, 3, 1, 4, 2], false)
    ensures OhTable().rows[7] == OTable().rows[2] + Half(OTable().rows[2], [0, 3, 1, 4, 2], true)
  {
  }

  lemma OhRow3()
    ensures OhTable().rows[3] == OTable().rows[3] + Half(OTable().rows[3], [0, 3, 1, 4, 2], false)
    ensures OhTable().rows[8] == OTable().rows[3] + Half(OTable().rows[3], [0, 3, 1, 4, 2], true)
  {
  }

  lemma OhRow4()
    ensures OhTable().rows[4] == OTable().rows[4] + Half(OTable().rows[4], [0, 3, 1, 4, 2], false)
    ensures OhTable().rows[9] == OTable().rows[4] + Half(OTable().rows[4], [0, 3, 1, 4, 2], true)
  {
  }

  lemma OhRow5()
    ensures OhTable().rows[5] == OTable().rows[5] + Half(OTable().rows[5], [0, 3, 1, 4, 2], false)
    ensures OhTable().rows[10] == OTable().rows[5] + Half(OTable().rows[5], [0, 3, 1, 4, 2], true)
  {
  }

  lemma OhProduct()
    ensures WellFormed(OTable()) && InversionProduct(OhTable(), OTable(), [0, 3, 1, 4, 2])
  {
    OStandard();
    assert OhTable().rows[0] == OTable().rows[0] + Permuted(OTable().rows[0], [0, 3, 1, 4, 2]);
    forall r | 1 <= r <= 5 {
      OhRows(r);
    }
  }

  lemma OhOrthogonal()
    ensures Standard(OhTable(), "Oh") && Orthogonal(OhTable())
  {
    OhStandard();
    OOrthogonal();
    OhProduct();
    ProductOrthogonal(OhTable(), OTable(), [0, 3, 1, 4, 2]);
  }

  /** The group orders quoted for C3v and Td: 1 + 2 + 3 and 1 + 8 + 3 + 6 + 6. */
  lemma OrderExamples()
    ensures WellFormed(C3vTable()) && Order(C3vTable()) == 6
    ensures WellFormed(TdTable()) && Order(TdTable()) == 24
  {
    C3vStandard();
    TdStandard();
  }

  /**
   * Every integer table of the program is well formed, carries its group's
   * name, has as many irreducible representations as classes, and satisfies
   * the orthogonality relations.
   */
  lemma TableFacts(g: Group)
    requires TableOf(g).Some?
    ensures Standard(TableOf(g).value, Name(g)) && Orthogonal(TableOf(g).value)
  {
    if g in {Cs, C2v, C3v} {
      FactsCsToC3v(g);
    } else if g in {C4v, C6v, C2h} {
      FactsC4vToC2h(g);
    } else if g in {D2h, D3h, D4h} {
      FactsD2hToD4h(g);
    } else if g in {D6h, D2d, D3d} {
      FactsD6hToD3d(g);
    } else {
      FactsCubic(g);
    }
  }

  lemma FactsCsToC3v(g: Group)
    requires g in {Cs, C2v, C3v}
    ensures Standard(TableOf(g).value, Name(g)) && Orthogonal(TableOf(g).value)
  {
    match g
    case Cs => CsFacts();
    case C2v => C2vFacts();
    case C3v => C3vFacts();
  }

  lemma FactsC4vToC2h(g: Group)
    requires g in {C4v, C6v, C2h}
    ensures Standard(TableOf(g).value, Name(g)) && Orthogonal(TableOf(g).value)
  {
    match g
    case C4v => C4vFacts();
    case C6v => C6vFacts();
    case C2h => C2hFacts();
  }

  lemma FactsD2hToD4h(g: Group)
    requires g in {D2h, D3h, D4h}
    ensures Standard(TableOf(g).value, Name(g)) && Orthogonal(TableOf(g).value)
  {
    match g
    case D2h => D2hFacts();
    case D3h => D3hFacts();
    case D4h => D4hFacts();
  }

  lemma FactsD6hToD3d(g: Group)
    requires g in {D6h, D2d, D3d}
    ensures Standard(TableOf(g).value, Name(g)) && Orthogonal(TableOf(g).value)
  {
    match g
    case D6h => D6hFacts();
    case D2d => D2dFacts();
    case D3d => D3dFacts();
  }

  lemma FactsCubic(g: Group)
    requires TableOf(g).Some? && g !in {Cs, C2v, C3v, C4v, C6v, C2h, D2h, D3h, D4h, D6h, D2d, D3d}
    ensures Standard(TableOf(g).value, Name(g)) && Orthogonal(TableOf(g).value)
  {
    match g
    case Td => TdFacts();
    case O => OFacts();
    case Oh => OhFacts();
  }

  lemma CsFacts()
    ensures TableOf(Cs) == Some(CsTable())
    ensures Standard(TableOf(Cs).value, Name(Cs)) && Orthogonal(TableOf(Cs).value)
  {
    CsOrthogonal();
  }

  lemma C2vFacts()
    ensures TableOf(C2v) == Some(C2vTable())
    ensures Standard(TableOf(C2v).value, Name(C2v)) && Orthogonal(TableOf(C2v).value)
  {
    C2vOrthogonal();
  }

  lemma C3vFacts()
    ensures TableOf(C3v) == Some(C3vTable())
    ensures Standard(TableOf(C3v).value, Name(C3v)) && Orthogonal(TableOf(C3v).value)
  {
    C3vOrthogonal();
  }

  lemma C4vFacts()
    ensures TableOf(C4v) == Some(C4vTable())
    ensures Standard(TableOf(C4v).value, Name(C4v)) && Orthogonal(TableOf(C4v).value)
  {
    C4vOrthogonal();
  }

  lemma C6vFacts()
    ensures TableOf(C6v) == Some(C6vTable())
    ensures Standard(TableOf(C6v).value, Name(C6v)) && Orthogonal(TableOf(C6v).value)
  {
    C6vOrthogonal();
  }

  lemma C2hFacts()
    ensures TableOf(C2h) == Some(C2hTable())
    ensures Standard(TableOf(C2h).value, Name(C2h)) && Orthogonal(TableOf(C2h).value)
  {
    C2hOrthogonal();
  }

  lemma D2hFacts()
    ensures TableOf(D2h) == Some(D2hTable())
    ensures Standard(TableOf(D2h).value, Name(D2h)) && Orthogonal(TableOf(D2h).value)
  {
    D2hOrthogonal();
  }

  lemma D3hFacts()
    ensures TableOf(D3h) == Some(D3hTable())
    ensures Standard(TableOf(D3h).value, Name(D3h)) && Orthogonal(TableOf(D3h).value)
  {
    D3hOrthogonal();
  }

  lemma D4hFacts()
    ensures TableOf(D4h) == Some(D4hTable())
    ensures Standard(TableOf(D4h).value, Name(D4h)) && Orthogonal(TableOf(D4h).value)
  {
    D4hOrthogonal();
  }

  lemma D6hFacts()
    ensures TableOf(D6h) == Some(D6hTable())
    ensures Standard(TableOf(D6h).value, Name(D6h)) && Orthogonal(TableOf(D6h).value)
  {
    D6hOrthogonal();
  }

  lemma D2dFacts()
    ensures TableOf(D2d) == Some(D2dTable())
    ensures Standard(TableOf(D2d).value, Name(D2d)) && Orthogonal(TableOf(D2d).value)
  {
    D2dOrthogonal();
  }

  lemma D3dFacts()
    ensures TableOf(D3d) == Some(D3dTable())
    ensures Standard(TableOf(D3d).value, Name(D3d)) && Orthogonal(TableOf(D3d).value)
  {
    D3dOrthogonal();
  }

  lemma TdFacts()
    ensures TableOf(Td) == Some(TdTable())
    ensures Standard(TableOf(Td).value, Name(Td)) && Orthogonal(TableOf(Td).value)
  {
    TdOrthogonal();
  }

  lemma OFacts()
    ensures TableOf(O) == Some(OTable())
    ensures Standard(TableOf(O).value, Name(O)) && Orthogonal(TableOf(O).value)
  {
    OOrthogonal();
  }

  lemma OhFacts()
    ensures TableOf(Oh) == Some(OhTable())
    ensures Standard(TableOf(Oh).value, Name(Oh)) && Orthogonal(TableOf(Oh).value)
  {
    OhOrthogonal();
  }
}
