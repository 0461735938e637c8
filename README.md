# symmetry — a Dafny model

This project models the core of the `symmetry` program, a small
chemistry toolkit. It has two halves.

- **Point groups** (`Program/Symmetry/symmetry.py` and
  `Program/Data/character_tables.py`):
  - A `PointGroup` wraps a character table. The table comes from the
    `character_tables` dictionary, or is given directly.
  - Its methods reduce a reducible representation with the reduction
    formula, multiply irreducible representations (convolution), match a
    representation against the table, and format the results.
  - Irreducible rows are looked up by name.
  - Every dictionary table with integer characters is written out, and
    the orthogonality relations of its characters are proved.
- **Molfile readers** (`Program/Symmetry/MolParser.py` and
  `Program/Symmetry/molecule.py`). Both read the lines of a V2000 molfile:
  the counts line, the atoms block (coordinates and chemical symbols) and
  the bonds block (atom pairs, bond type, stereochemistry).
  - `Molecule` is the strict reader: the first ValueError ends the parse.
  - `MolParser` is the lenient reader: it estimates counts it cannot read,
    records warnings, and goes on past a corrupted block.
  - Both are classes whose methods set attributes step by step. Each
    method is proved against a function of the old attributes. Lemmas then
    state what a whole parse gives: for a well-formed file, a round trip;
    for a file that sets the bonds, the converse; and for each corrupted
    block, the error path.

Files:

| file | module | contents |
|---|---|---|
| `wrappers.dfy` | `Wrappers` | `Option`, `Result` |
| `text.dfy` | `Text` | Python's `str.split`, `' '.join`, `int()`, `str(int)`, slicing and indexing |
| `characters.dfy` | `Characters` | character tables, weighted inner product, orthogonality, the inversion-product construction |
| `character_tables.dfy` | `CharacterTables` | the tables, the dictionary, orthogonality of every integer table |
| `symmetry.dfy` | `Symmetry` | the `PointGroup` methods and the unit-test scenarios |
| `mol_lines.dfy` | `MolLines` | how one line of each block is read, and the blocks read as a whole; shared by both readers |
| `mol_parser.dfy` | `MolParser` | the `MolParser` class and the functions that specify it |
| `parse_facts.dfy` | `ParseFacts` | what a whole `MolParser` parse gives |
| `molecule.dfy` | `Molecule` | the `Molecule` class, its specification and what its parse gives |
| `chirality.dfy` | `Chirality` | the chiral flag of the counts line, as read and as intended |

Modelling choices:

- A point group never changes after construction. `PointGroup` is
  therefore a datatype, and its methods are functions of the table.
- Text a method prints is returned beside its result (`Reported`). An
  error the method reports by printing and returning `None`, or an
  exception it lets escape, is a `Failure`.
- A reader's attribute that may never be assigned is an `Attr<T>`
  (`Unset` or `Set`). Reading an unset attribute raises `AttributeError`,
  as Python does.
- The exception that escapes a reader's constructor is kept in a `raised`
  field.
- `MolParser`'s warnings are kept in order, one constructor per warning
  kind.

## Model

| member | source | states |
|---|---|---|
| Symmetry.Lookup | Program/Symmetry/symmetry.py:29-36 | a name missing from the dictionary fails, listing the supported names, and only such a name fails that way; a found entry with an integer table gives a point group holding exactly that table, and a success comes only from such an entry; an entry whose table has irrational characters is reported as such |
| Symmetry.ReprOfFromName | Program/Symmetry/symmetry.py:42-44 | a point group built from any name that builds one shows as `PointGroup(<name>)`, and its table satisfies the orthogonality relations |
| Symmetry.FromNameUnknown | Program/Symmetry/symmetry.py:33-36 | an unsupported name fails with the set of supported names, with either dictionary |
| Symmetry.FromNameC6v | Program/Data/character_tables.py:200 | as written, "C6v" yields the C8v entry, and no name yields the C6v table |
| Symmetry.NotC6vTable | Program/Data/character_tables.py:200 | no name builds a point group on the C6v table |
| Symmetry.CorrectedReprOfFromName | Program/Symmetry/symmetry.py:29-30 | with the corrected dictionary, every constructible point group shows its own name and is orthogonal |
| Symmetry.CorrectedFromNameC6v | Program/Data/character_tables.py:44-52 | with the corrected dictionary, "C6v" builds the C6v table |
| Symmetry.TruncDiv | Program/Symmetry/symmetry.py:82-83 | division that truncates toward zero, as `astype(int)` does after `/` |
| Symmetry.TruncDivExact | Program/Symmetry/symmetry.py:82-83 | an exact multiple of the order divides back to its quotient |
| Symmetry.RowSums | Program/Symmetry/symmetry.py:80-82 | the row sum of the reduction table is the weighted inner product of the irrep and the representation |
| Symmetry.Reduction | Program/Symmetry/symmetry.py:70-88 | fails exactly when the length differs from the number of classes; otherwise one row per irrep holding the termwise products `class size × character × representation`, and appearances that are the row sums divided by the group order, truncated |
| Symmetry.ReductionRecoversMultiplicities | Program/Symmetry/symmetry.py:55-83 | for an orthogonal table, reducing any integer combination of irreps gives back exactly its multiplicities |
| Symmetry.ReductionOfIrrep | Program/Symmetry/symmetry.py:80-83 | reducing an irrep's own row counts it once and nothing else |
| Symmetry.NamedReductionExact | Program/Symmetry/symmetry.py:80-83 | for every point group built from a name, reduction recovers the multiplicities of any combination |
| Symmetry.Terms | Program/Symmetry/symmetry.py:194-195 | one printed term per non-zero count |
| Symmetry.TermsListed | Program/Symmetry/symmetry.py:194-195 | every printed term is a non-zero count (the 1 left out) followed by its irrep's label |
| Symmetry.TermsOfUnit | Program/Symmetry/symmetry.py:194-195 | a single appearance prints as the bare label |
| Symmetry.NoNonZero | Program/Symmetry/symmetry.py:194-195 | all-zero counts print no term |
| Symmetry.PrintResult | Program/Symmetry/symmetry.py:177-201 | the line starts with `lhs = `; a reduction returns its appearances, and when its labels are single words the rest of the line reads, field by field, as its terms with a `+` between each two; a matched row returns itself, and the rest of the line reads as its name |
| Symmetry.TermsInOrder | Program/Symmetry/symmetry.py:194-195 | the positions of the non-zero counts, in increasing order and all of them, are exactly the positions the terms are written for: the k-th term is the coefficient and label of the k-th non-zero pair |
| Symmetry.SumTokens | Program/Symmetry/symmetry.py:196 | terms that are words, joined by `  +  `, split back into those terms with a `+` field between each two |
| Symmetry.TermsAreWords | Program/Symmetry/symmetry.py:194-195 | over labels that are words, every term is a word: the coefficient printed as an integer adds no space |
| Symmetry.Constituents | Program/Symmetry/symmetry.py:90-104 | fails exactly on a wrong-length representation; otherwise returns the appearances of the reduction and prints them after `result` |
| Symmetry.ConstituentsOfCombination | Program/Symmetry/symmetry.py:102-104 | for an orthogonal table, the constituents of a combination of irreps are its multiplicities |
| Symmetry.Find | Program/Symmetry/symmetry.py:121 | the position of a label, not found before it (the first occurrence), or none exactly when the label is absent |
| Symmetry.RowOf | Program/Symmetry/symmetry.py:121 | `.loc[key]` finds a row exactly when the key is in the index; that row has one entry per class |
| Symmetry.SelectSound | Program/Symmetry/symmetry.py:121 | selecting rows succeeds exactly when every label is in the index, and gives the row of each label in order |
| Symmetry.SelectPair | Program/Symmetry/symmetry.py:121 | selecting `[a, b] + args` is the rows of `a` and `b` followed by the rows of `args` |
| Symmetry.Times | Program/Symmetry/symmetry.py:121 | the columnwise product of two rows |
| Symmetry.Convolution | Program/Symmetry/symmetry.py:106-124 | succeeds exactly when every label is in the index, otherwise fails listing the index; the product has one value per class and, as written, is named after `args` only |
| Symmetry.CorrectedConvolution | Program/Symmetry/symmetry.py:121 | the same product and the same failures, named after all the factors |
| Symmetry.ConvolutionOfTwo | Program/Symmetry/symmetry.py:121 | the convolution of two irreps is the columnwise product of their rows |
| Symmetry.ConvolutionCommutes | Program/Symmetry/symmetry.py:121 | swapping the first two factors changes nothing |
| Symmetry.ProductSwap | Program/Symmetry/symmetry.py:121 | the column product does not depend on the order of its first two rows |
| Symmetry.ConvolutionExtend | Program/Symmetry/symmetry.py:121 | one more factor multiplies the product by that factor's row |
| Symmetry.ProductAppend | Program/Symmetry/symmetry.py:121 | the column product of `rows + [x]` is the product of `rows` times `x` |
| Symmetry.ConvolutionIdentity | Program/Symmetry/symmetry.py:121 | convolving with the totally symmetric irrep gives the other row back |
| Symmetry.FirstMatch | Program/Symmetry/symmetry.py:142-146 | the first row equal to the representation, or none when no row is |
| Symmetry.MatchRepresentation | Program/Symmetry/symmetry.py:126-155 | fails exactly on a wrong length; an irreducible match is the first equal irrep row with its name; otherwise no irrep row is equal and the result is the reduction |
| Symmetry.OrthogonalRowsDistinct | Program/Symmetry/symmetry.py:142-146 | in an orthogonal table, no two irrep rows are equal, so a match is unambiguous |
| Symmetry.MatchIrrep | Program/Symmetry/symmetry.py:142-146 | in an orthogonal table, every irrep row matches itself under its own name |
| Symmetry.ShowMatchedRepresentation | Program/Symmetry/symmetry.py:157-175 | the match, printed after the representation's name or after `result` when it has none |
| Symmetry.ConvolutionResults | Program/Symmetry/symmetry.py:203-223 | fails exactly when the convolution does; otherwise the match of the product, printed after all the factors joined by ` × ` |
| Symmetry.ConvolutionResultsIrreducible | Program/Symmetry/symmetry.py:217-223 | when two irreps multiply to a third, the result is that irrep and the line reads `a × b = c` |
| Symmetry.C2vGroup | Program/Tests/test_symmetry.py:33-36 | the fixture point group carries the C2v table |
| Symmetry.C2vReductionExample | Program/Tests/test_symmetry.py:109-126 | [4, 0, 4, 0] reduces to [2, 0, 2, 0]; a five-element representation is a ReductionError |
| Symmetry.C2vTermsExample | Program/Tests/test_symmetry.py:140-143 | the counts [2, 0, 2, 0] print as `2A1` and `2B1` |
| Symmetry.C2vConstituentsExample | Program/Tests/test_symmetry.py:135-143 | the constituents of [4, 0, 4, 0] are [2, 0, 2, 0], printed `result = 2A1  +  2B1` |
| Symmetry.C2vConvolutionExample | Program/Tests/test_symmetry.py:146-154 | A1 × A2 is [1, 1, -1, -1]; an unknown label fails |
| Symmetry.C2vMatchIrreducibleExample | Program/Tests/test_symmetry.py:162-172 | [1, 1, 1, 1] matches A1; a five-element representation is a MatchRepresentationError |
| Symmetry.C2vCombinationExample | Program/Tests/test_symmetry.py:182-188 | 2A1 + 2B1 is [4, 0, 4, 0] and 2A1 is [2, 2, 2, 2] |
| Symmetry.C2vMatchReducibleExample | Program/Tests/test_symmetry.py:182-193 | [2, 2, 2, 2] is reducible, with appearances [2, 0, 0, 0] |
| Symmetry.C2vShowExample | Program/Tests/test_symmetry.py:196-211 | [1, 1, 1, 1] prints `result = A1` unnamed and `A1 = A1` when named A1 |
| Symmetry.C2vConvolutionResultsExample | Program/Tests/test_symmetry.py:228-232 | A1 × A2 is A2, printed `A1 × A2 = A2` |
| Symmetry.C2vFourFactorsExample | Program/Tests/test_symmetry.py:234-238 | A1 × A2 × B1 × B2 is A1, printed `A1 × A2 × B1 × B2 = A1` |
| Symmetry.C2vConvolutionNameExample | Program/Symmetry/symmetry.py:121 | shown on its own, the product A1 × A2 prints ` = A2` as written and `A1 × A2 = A2` corrected |
| CharacterTables.RegistryKeys | Program/Data/character_tables.py:200-204 | the dictionary's keys are exactly the seventeen supported names |
| CharacterTables.RegistryNamesItsTables | Program/Data/character_tables.py:200-204 | every key except "C6v" is bound to the table of that name |
| CharacterTables.RegistryC6vIsC8v | Program/Data/character_tables.py:200 | as written, "C6v" is bound to C8v, and no key to C6v |
| CharacterTables.CorrectedRegistryNamesItsTables | Program/Data/character_tables.py:200-204 | corrected, every key names its own table, and all other keys are unchanged |
| CharacterTables.TableFacts | Program/Data/character_tables.py:15-198 | every integer table is well formed, carries its name, is square (as many irreps as classes), has dimensions 1 to 3, and is orthogonal |
| CharacterTables.OrderExamples | Program/Data/character_tables.py:28-33 | the order of C3v is 6 and that of Td is 24 |
| CharacterTables.CsOrthogonal | Program/Data/character_tables.py:15-18 | the Cs table is well formed, carries its name, has as many irreps as classes with dimensions 1 to 3, and is orthogonal |
| CharacterTables.C2vOrthogonal | Program/Data/character_tables.py:20-26 | the C2v table is well formed, carries its name, has as many irreps as classes with dimensions 1 to 3, and is orthogonal |
| CharacterTables.C3vOrthogonal | Program/Data/character_tables.py:28-33 | the C3v table is well formed, carries its name, has as many irreps as classes with dimensions 1 to 3, and is orthogonal |
| CharacterTables.C4vOrthogonal | Program/Data/character_tables.py:35-42 | the C4v table is well formed, carries its name, has as many irreps as classes with dimensions 1 to 3, and is orthogonal |
| CharacterTables.C6vOrthogonal | Program/Data/character_tables.py:44-52 | the C6v table is well formed, carries its name, has as many irreps as classes with dimensions 1 to 3, and is orthogonal |
| CharacterTables.C2hOrthogonal | Program/Data/character_tables.py:65-71 | the C2h table is well formed, carries its name, has as many irreps as classes with dimensions 1 to 3, and is orthogonal |
| CharacterTables.D2hOrthogonal | Program/Data/character_tables.py:73-83 | the D2h table is well formed, carries its name, has as many irreps as classes with dimensions 1 to 3, and is orthogonal |
| CharacterTables.D3hOrthogonal | Program/Data/character_tables.py:85-93 | the D3h table is well formed, carries its name, has as many irreps as classes with dimensions 1 to 3, and is orthogonal |
| CharacterTables.D4hOrthogonal | Program/Data/character_tables.py:95-107 | the D4h table is well formed, carries its name, has as many irreps as classes with dimensions 1 to 3, and is orthogonal |
| CharacterTables.D6hOrthogonal | Program/Data/character_tables.py:109-123 | the D6h table is well formed, carries its name, has as many irreps as classes with dimensions 1 to 3, and is orthogonal |
| CharacterTables.D2dOrthogonal | Program/Data/character_tables.py:125-132 | the D2d table is well formed, carries its name, has as many irreps as classes with dimensions 1 to 3, and is orthogonal |
| CharacterTables.D3dOrthogonal | Program/Data/character_tables.py:134-142 | the D3d table is well formed, carries its name, has as many irreps as classes with dimensions 1 to 3, and is orthogonal |
| CharacterTables.TdOrthogonal | Program/Data/character_tables.py:168-175 | the Td table is well formed, carries its name, has as many irreps as classes with dimensions 1 to 3, and is orthogonal |
| CharacterTables.OOrthogonal | Program/Data/character_tables.py:177-184 | the O table is well formed, carries its name, has as many irreps as classes with dimensions 1 to 3, and is orthogonal |
| CharacterTables.OhOrthogonal | Program/Data/character_tables.py:186-198 | the Oh table is well formed, carries its name, has as many irreps as classes with dimensions 1 to 3, and is orthogonal |
| CharacterTables.D2hProduct | Program/Data/character_tables.py:73-83 | D2h is C2v doubled by inversion: gerade rows repeat, ungerade rows change sign |
| CharacterTables.D3hProduct | Program/Data/character_tables.py:85-93 | the D3h table is the C3v table doubled by the horizontal mirror: the first half of its irreps repeat their characters on the new classes, the second half negate them |
| CharacterTables.D4hProduct | Program/Data/character_tables.py:95-107 | the D4h table is the C4v table doubled by inversion: the first half of its irreps repeat their characters on the new classes, the second half negate them |
| CharacterTables.D6hProduct | Program/Data/character_tables.py:109-123 | the D6h table is the C6v table doubled by inversion: the first half of its irreps repeat their characters on the new classes, the second half negate them |
| CharacterTables.D3dProduct | Program/Data/character_tables.py:134-142 | the D3d table is the C3v table doubled by inversion: the first half of its irreps repeat their characters on the new classes, the second half negate them |
| CharacterTables.OhProduct | Program/Data/character_tables.py:186-198 | the Oh table is the O table doubled by inversion, its classes reordered: the first half of its irreps repeat their characters on the new classes, the second half negate them |
| Characters.Order | Program/Symmetry/symmetry.py:82 | the order (the sum of the class sizes) is at least the number of classes |
| Characters.TriangleOrthogonal | Program/Data/character_tables.py:15-18 | a table whose irreps each have norm equal to the group order and are pairwise orthogonal satisfies the orthogonality relations |
| Characters.ProductOrder | Program/Data/character_tables.py:73-83 | an inversion product has twice the order of its base |
| Characters.ProductOrthogonal | Program/Data/character_tables.py:186-198 | the inversion product of an orthogonal table is orthogonal |
| Text.SplitFacts | Program/Symmetry/MolParser.py:61 | `str.split(' ')` gives one more piece than separators, no piece contains one, and joining gives the line back |
| Text.NonEmptyFacts | Program/Symmetry/MolParser.py:62 | dropping empty pieces keeps every non-empty piece and only those |
| Text.TokensOfJoin | Program/Symmetry/MolParser.py:174 | splitting single-spaced words and dropping empty pieces gives the words back |
| Text.ParseIntOfIntToString | Program/Symmetry/MolParser.py:64 | `int(str(i)) == i` |
| Text.ParseIntRejects | Program/Symmetry/MolParser.py:63-66 | `int` rejects a token with a character other than a digit, a sign, `_` or whitespace |
| Text.Slice | Program/Symmetry/MolParser.py:32 | Python slicing: within range it is the plain slice, and it is never longer than the sequence or the range |
| Text.Index | Program/Symmetry/MolParser.py:182 | Python indexing: negative indices count from the end; anything further out is an IndexError |
| MolLines.CountsTokensAreWords | Program/Symmetry/MolParser.py:61-62 | every counts field is non-empty and holds no space |
| MolLines.ParseAllAt | Program/Symmetry/MolParser.py:63-66 | each counts field is read by `int` on its own, `None` where it fails |
| MolLines.AllReadSound | Program/Symmetry/molecule.py:39 | the strict reading fails exactly when some field is not an integer; otherwise it keeps every value in order |
| MolLines.CountsRoundTrip | Program/Symmetry/MolParser.py:60-70 | a counts line written from integers, with a format stamp last, reads back exactly those integers |
| MolLines.FirstWithout | Program/Symmetry/MolParser.py:107-115 | the first line without a `.`, or none exactly when every line has one |
| MolLines.ScanForM | Program/Symmetry/MolParser.py:125-134 | the first line that starts with `M` (an empty line raises IndexError first), or none exactly when no line does |
| MolLines.AtomLineRoundTrip | Program/Symmetry/MolParser.py:150-156 | three numeric coordinates, a symbol and further fields give back the symbol |
| MolLines.BondLineRoundTrip | Program/Symmetry/MolParser.py:174-175 | four or more integers give back the first four |
| MolLines.BondLineRejects | Program/Symmetry/MolParser.py:173-178 | a bond line with a non-integer field is a ValueError |
| MolLines.CollectAtoms | Program/Symmetry/MolParser.py:148-156 | reading the atoms lines gives one symbol per line, or names the first line whose coordinates fail or that lacks a symbol |
| MolLines.CollectBonds | Program/Symmetry/MolParser.py:172-178 | reading the bond lines gives one row per line, or names the first unreadable line |
| MolLines.CollectAtomsSound | Program/Symmetry/MolParser.py:148-156 | when the atoms lines are read, each gives its symbol in order; when one fails, every line before it gave a symbol |
| MolLines.CollectAtomsAt | Program/Symmetry/MolParser.py:148-156 | the first failing atoms line decides the error: coordinates give ValueError at that line, a missing symbol gives IndexError |
| MolLines.CollectBondsSound | Program/Symmetry/MolParser.py:172-178 | when the bond lines are read, each gives its row in order; when one fails, every line before it was read |
| MolLines.CollectBondsAt | Program/Symmetry/MolParser.py:172-178 | the first unreadable bond line is the one reported |
| MolLines.BondName | Program/Symmetry/MolParser.py:182 | a bond is named `symbol1-symbol2` from its 1-based atom numbers; Python's negative indexing extends the range, and beyond it IndexError |
| MolLines.BondNamesSound | Program/Symmetry/MolParser.py:181-183 | every row is named, in order, or the naming fails when some row cannot be |
| MolLines.AtomsBlockOk | Program/Symmetry/MolParser.py:136-158 | the atoms block gives a structure exactly when it has `natoms` lines, each giving its symbol |
| MolLines.AtomsBlockBadLine | Program/Symmetry/MolParser.py:151-155 | non-numeric coordinates raise ValueError and record that line |
| MolLines.AtomsBlockNoSymbol | Program/Symmetry/MolParser.py:156 | a line without a fourth field raises IndexError |
| MolLines.AtomsBlockShort | Program/Symmetry/MolParser.py:158 | fewer symbols than `natoms` make the table constructor raise ValueError with no line recorded |
| MolLines.BondsBlockOk | Program/Symmetry/MolParser.py:160-189 | the bonds block gives bonds exactly when it has `nbonds` readable lines, named after the structure or numbered when there is none |
| MolLines.BondsBlockBadLine | Program/Symmetry/MolParser.py:173-178 | the first unreadable bond line raises ValueError and records that line |
| MolLines.AtomsBlockOkIn | Program/Symmetry/MolParser.py:29-32 | the block cut out of the file after line 4 gives a structure exactly when those lines give the symbols |
| MolLines.AtomsBlockBadLineIn | Program/Symmetry/MolParser.py:29-32 | within the file, a bad coordinate line raises ValueError at its index in the block |
| MolLines.AtomsBlockNoSymbolIn | Program/Symmetry/MolParser.py:29-32 | within the file, a line without a symbol raises IndexError |
| MolLines.AtomsBlockShortIn | Program/Symmetry/MolParser.py:29-32 | a file that ends inside the atoms block raises ValueError with no line recorded |
| MolLines.BondsBlockOkIn | Program/Symmetry/MolParser.py:39-40 | the block after the atoms block gives bonds exactly when those lines give the named rows |
| MolLines.BondsBlockReadsIn | Program/Symmetry/MolParser.py:39-40 | the named rows on the lines after the atoms block are read as the bonds |
| MolLines.BondsBlockReadIn | Program/Symmetry/MolParser.py:39-40 | bonds that were read are the named rows on the lines after the atoms block |
| MolLines.BondsBlockBadLineIn | Program/Symmetry/MolParser.py:39-40 | within the file, the first unreadable bond line raises ValueError at its index in the block |
| MolLines.ReadAtomLines | Program/Symmetry/MolParser.py:148-156 | the loop over the atoms lines gives every symbol, or stops at the first line that fails, with the kind of failure |
| MolLines.FillBondTable | Program/Symmetry/MolParser.py:169-178 | the zero table of `nbonds` rows is filled with the rows read, or the loop stops at the first unreadable line |
| MolLines.NameRows | Program/Symmetry/MolParser.py:181-183 | the loop over the rows builds exactly the names of the rows |
| MolParser.NatomsGuessed | Program/Symmetry/MolParser.py:99-115 | after the estimate, `natoms` is set unless CorruptedFileWarning was raised; the chirality is untouched |
| MolParser.NbondsGuessed | Program/Symmetry/MolParser.py:117-134 | the estimate keeps `natoms` and the chirality and only adds warnings |
| MolParser.FlagValue | Program/Symmetry/MolParser.py:90-97 | the chirality is known exactly for 0 or 1, and true exactly for 1 |
| MolParser.ChiralityAssigned | Program/Symmetry/MolParser.py:90-97 | assigning the chirality only adds warnings |
| MolParser.NatomsStep | Program/Symmetry/MolParser.py:82-85 | after this step `natoms` is set, unless an exception escaped |
| MolParser.NbondsStep | Program/Symmetry/MolParser.py:86-89 | this step keeps `natoms` and the chirality and only adds warnings |
| MolParser.Assigned | Program/Symmetry/MolParser.py:72-97 | unless an exception escaped, `natoms` and the chirality are set; the blocks' attributes are untouched |
| MolParser.AtomsParsed | Program/Symmetry/MolParser.py:29-37 | the atoms stage keeps the counts and the bonds and only adds warnings |
| MolParser.AtomsFinished | Program/Symmetry/MolParser.py:31-37 | the handler of the atoms stage keeps the counts and the bonds |
| MolParser.BondsParsed | Program/Symmetry/MolParser.py:39-45 | the bonds stage keeps the counts and the structure and only adds warnings |
| MolParser.BondsFinished | Program/Symmetry/MolParser.py:39-45 | the handler of the bonds stage keeps the counts and the structure and only adds warnings; a block that read stores its bonds, and adds a warning exactly when there is no structure and at least one bond row to name (`MolParser.py:181-186`) |
| MolParser.BlocksParsed | Program/Symmetry/MolParser.py:29-45 | the two block stages keep the counts and only add warnings |
| MolParser.MolParser.constructor | Program/Symmetry/MolParser.py:13-24 | a new object holds the attributes of a whole parse of the file |
| MolParser.MolParser.ParseMol | Program/Symmetry/MolParser.py:26-45 | the new attributes are those of a whole parse |
| MolParser.MolParser.AtomsStage | Program/Symmetry/MolParser.py:29-37 | the new attributes are those of the atoms stage |
| MolParser.MolParser.BondsStage | Program/Symmetry/MolParser.py:39-45 | the new attributes are those of the bonds stage |
| MolParser.MolParser.HandleValueError | Program/Symmetry/MolParser.py:33-45 | a warning naming the recorded line plus one, or AttributeError when none was recorded |
| MolParser.MolParser.ReadCountsBlock | Program/Symmetry/MolParser.py:48-70 | a file shorter than 4 lines raises IndexError; otherwise the counts fields are read, with one warning per unreadable field |
| MolParser.MolParser.AssignCountsBlockValues | Program/Symmetry/MolParser.py:72-97 | the attributes become those of the counts assignment |
| MolParser.MolParser.GuessNatoms | Program/Symmetry/MolParser.py:99-115 | the attributes become those of the estimate of `natoms` |
| MolParser.MolParser.GuessNbonds | Program/Symmetry/MolParser.py:117-134 | the attributes become those of the estimate of `nbonds` |
| MolParser.MolParser.ParseAtomsBlock | Program/Symmetry/MolParser.py:136-158 | reports a ValueError exactly when the block's reading ends in one, and stores what the reading gives |
| MolParser.MolParser.ParseBondsBlock | Program/Symmetry/MolParser.py:160-189 | reports a ValueError exactly when the block's reading ends in one, and stores what the reading gives |
| MolParser.MolParser.NameBonds | Program/Symmetry/MolParser.py:180-189 | names the rows after the structure, or numbers them when there is no structure, with a warning only when there is a row to name (the comprehension over `range(nbonds)` reads the structure only for a row) |
| MolParser.CountsWarningsAppend | Program/Symmetry/MolParser.py:65-69 | one more counts field adds a warning exactly when it is unreadable |
| ParseFacts.CountsStageKept | Program/Symmetry/MolParser.py:28-45 | the counts survive the whole parse, its warnings only grow, and an exception in the counts stage ends it |
| ParseFacts.NatomsFromCounts | Program/Symmetry/MolParser.py:82-85 | a readable first counts field is `natoms` |
| ParseFacts.NatomsFromGuess | Program/Symmetry/MolParser.py:99-112 | otherwise `natoms` is the number of lines after line 4 before the first line without a `.`, with a warning |
| ParseFacts.NatomsNotEstimated | Program/Symmetry/MolParser.py:113-115 | when every later line has a `.`, CorruptedFileWarning is raised and nothing else is set |
| ParseFacts.NbondsFromCounts | Program/Symmetry/MolParser.py:86-89 | a readable second counts field is `nbonds` |
| ParseFacts.NbondsFromGuess | Program/Symmetry/MolParser.py:125-130 | otherwise `nbonds` is the number of lines after the atoms block before the first starting with `M`, with a warning |
| ParseFacts.NbondsLeftUnset | Program/Symmetry/MolParser.py:131-134 | when no such line exists, `nbonds` and the bonds stay unset, a warning is recorded, and an exception escapes |
| ParseFacts.UnsetNbondsRaise | Program/Symmetry/MolParser.py:40 | an unset `nbonds` makes the bonds stage raise, and no bonds are set |
| ParseFacts.ChiralityFromCounts | Program/Symmetry/MolParser.py:90-97 | the chirality, once set, is the fourth counts field read as a flag; a parse that raised nothing has set it |
| ParseFacts.ParsedAfterCounts | Program/Symmetry/MolParser.py:26-29 | after a completed counts stage, the parse goes on with the two blocks, nothing of them set yet |
| ParseFacts.AtomsFinishedBy | Program/Symmetry/MolParser.py:31-37 | how each ending of the atoms block leaves the attributes: structure, warning with the line, AttributeError, or the escaping exception |
| ParseFacts.BondsFinishedBy | Program/Symmetry/MolParser.py:39-45 | how each ending of the bonds block leaves the attributes: bonds, warning with the line, AttributeError, or the escaping exception |
| ParseFacts.StructureFromAtomsBlock | Program/Symmetry/MolParser.py:136-158 | the structure is set to some symbols exactly when the counts stage completes with `natoms` equal to their number and the lines after line 4 give them |
| ParseFacts.AtomsBlockRejected | Program/Symmetry/MolParser.py:31-37 | a bad coordinate line leaves the structure unset and warns naming that line |
| ParseFacts.AtomsBlockMissingSymbol | Program/Symmetry/MolParser.py:156 | a line without a symbol makes IndexError escape |
| ParseFacts.AtomsBlockTruncated | Program/Symmetry/MolParser.py:33-37 | a file that ends inside the atoms block makes AttributeError escape from the handler |
| ParseFacts.NegativeNatomsRaise | Program/Symmetry/MolParser.py:144 | a negative `natoms` makes the atoms stage raise |
| ParseFacts.BondsFromBondsBlock | Program/Symmetry/MolParser.py:160-189 | bonds that were set are the `nbonds` named rows on the lines after the atoms block; without a structure they are numbered, with a warning when there is at least one bond |
| ParseFacts.BondsSet | Program/Symmetry/MolParser.py:39-45 | the bonds stage sets bonds only from `nbonds` readable, named rows, and its only warning is the naming one, given when there is no structure and at least one row |
| ParseFacts.BondsRead | Program/Symmetry/MolParser.py:39-45 | readable named rows in place set exactly those bonds, with a warning when there is no structure and at least one row |
| ParseFacts.AtomsRead | Program/Symmetry/MolParser.py:29-37 | `natoms` lines giving their symbols set exactly that structure |
| ParseFacts.BlocksRead | Program/Symmetry/MolParser.py:29-45 | after the counts, readable blocks set exactly the structure and the bonds |
| ParseFacts.MolfileRead | Program/Symmetry/MolParser.py:26-45 | a well-formed file sets exactly the structure and the bonds beyond the counts stage |
| ParseFacts.BondsStageRejected | Program/Symmetry/MolParser.py:41-45 | an unreadable bond line records its index and warns naming it |
| ParseFacts.BondsBlockRejected | Program/Symmetry/MolParser.py:39-45 | in a whole parse, an unreadable bond line leaves the bonds unset with that warning |
| Molecule.CountsParsed | Program/Symmetry/molecule.py:28-43 | a completed counts stage has set `natoms` and `nbonds`; the blocks' attributes are untouched |
| Molecule.AtomsParsed | Program/Symmetry/molecule.py:45-62 | the atoms stage keeps the counts and the bonds; it goes on only with a structure set |
| Molecule.AtomsStored | Program/Symmetry/molecule.py:53-62 | each ending of the atoms block keeps the counts; only a read block continues, with a structure |
| Molecule.BondsParsed | Program/Symmetry/molecule.py:64-83 | the bonds stage keeps the counts and the structure |
| Molecule.BondsStored | Program/Symmetry/molecule.py:73-83 | the bonds change exactly when the block was read, to what it gave |
| Molecule.BlocksParsed | Program/Symmetry/molecule.py:21-26 | the block stages keep the counts |
| Molecule.Molecule.constructor | Program/Symmetry/molecule.py:6-17 | a new object holds the attributes of a whole parse of the file |
| Molecule.Molecule.ParseMol | Program/Symmetry/molecule.py:19-26 | the new attributes are those of a whole parse |
| Molecule.Molecule.ParseCountsBlock | Program/Symmetry/molecule.py:28-43 | the attributes and whether the parse stops are those of the counts stage |
| Molecule.Molecule.ParseAtomsBlock | Program/Symmetry/molecule.py:45-62 | the attributes and whether the parse stops are those of the atoms stage |
| Molecule.Molecule.ParseBondsBlock | Program/Symmetry/molecule.py:64-83 | the attributes are those of the bonds stage |
| Molecule.Molecule.NameBonds | Program/Symmetry/molecule.py:81-83 | the rows are named after the structure's symbols and stored, or IndexError escapes and the bonds stay unset |
| Molecule.ReadStrictCounts | Program/Symmetry/molecule.py:37-39 | the loop over the counts fields gives their values, or none at the first non-integer field |
| Molecule.CountsStageRead | Program/Symmetry/molecule.py:41-43 | a counts line of four or more integers sets `natoms`, `nbonds` and `chiral` from its first, second and fourth values |
| Molecule.CountsValueErrorStops | Program/Symmetry/molecule.py:21-26 | a non-integer counts field stops the parse with nothing set and no exception |
| Molecule.CountsFromLine | Program/Symmetry/molecule.py:41-43 | the counts, once set, are values 1, 2 and 4 of an all-integer line 4; `chiral` is whether the fourth is non-zero |
| Molecule.AtomsStageRead | Program/Symmetry/molecule.py:53-62 | the atoms stage sets the structure exactly when the lines after line 4 give `natoms` symbols |
| Molecule.BondsStageRead | Program/Symmetry/molecule.py:73-83 | named rows on the lines after the atoms block set exactly those bonds |
| Molecule.MoleculeRead | Program/Symmetry/molecule.py:19-26 | a well-formed file sets every attribute from its lines and raises nothing |
| Molecule.BondsSetMeansRead | Program/Symmetry/molecule.py:19-26 | conversely, a parse that set bonds raised nothing and read both blocks whole from the file's lines |
| Molecule.BlocksSetMeansRead | Program/Symmetry/molecule.py:23-24 | block stages that set bonds read the symbols and then the named rows |
| Molecule.BondsOkMeansRead | Program/Symmetry/molecule.py:76-83 | a bonds stage that set bonds raised nothing and read `nbonds` named rows |
| Molecule.AtomsOkMeansRead | Program/Symmetry/molecule.py:57-62 | an atoms stage that goes on set only the structure, read from the lines after line 4 |
| Molecule.AtomsValueErrorStops | Program/Symmetry/molecule.py:60 | non-numeric coordinates stop the parse quietly: the block stages change nothing |
| Molecule.AtomsIndexErrorEscapes | Program/Symmetry/molecule.py:61 | an atoms line without a symbol makes IndexError escape, and nothing else changes |
| Molecule.BondsValueErrorStops | Program/Symmetry/molecule.py:77 | an unreadable bond line stops the parse quietly: the bonds stage changes nothing |
| Chirality.CountsLineRead | Program/Symmetry/MolParser.py:60-70 | both readers read every field of a V2000 counts line back |
| Chirality.ChiralFlagMisread | Program/Symmetry/MolParser.py:90-97 | as written, both readers read the counts line of a chiral molecule as achiral |
| Chirality.WithoutObsolete | Program/Symmetry/MolParser.py:90 | dropping the obsolete fourth field puts the chiral flag fourth and keeps the counts |
| Chirality.CorrectedChiralityFromCounts | Program/Symmetry/MolParser.py:90-97 | corrected, the chirality, once set, is the fifth counts field read as a flag |
| Chirality.CorrectedChiralityRead | Program/Symmetry/MolParser.py:90-97 | corrected, a V2000 counts line gives back its atoms, its bonds and its chiral flag |

## Left out

- File input: both constructors can open a molfile by name from a fixed path (`MolParser.py:14-17`, `molecule.py:7-10`). The model takes the file's lines as its argument.
- The `TypeError` branches for arguments that are not iterable (`MolParser.py:22-24`, `molecule.py:15-17`, `symmetry.py:39-40`): the model's argument types exclude such arguments.
- Printing, and the wording of messages and warnings: each printed result is returned as a line, and each warning is a constructor of `MolParser.Warning`.
- Coordinates: the structure is modelled by its row names, the chemical symbols. Whether a line's coordinates are numeric is decided by `IsFloat`, which accepts optional whitespace, a sign and decimal digits with at most one point. Exponents, `inf`, `nan` and underscores, which `float` also accepts, are not modelled.
- A token that `isnumeric()` accepts is turned into a float before the symbol is taken (`MolParser.py:150`, `molecule.py:59`). A purely numeric symbol would therefore print as a float in a bond name; the model keeps its text.
- MolLines.ReadAtomLine: a token that `isnumeric()` accepts but `float()` rejects, such as `½`, `²` or `Ⅻ`, raises a `ValueError` at `MolParser.py:150`, outside the `try` of line 151. In `MolParser` no error line is set yet, so the handler of `_parse_mol` raises `AttributeError`; in `molecule.py:59` the parse stops. The model has no Unicode numeric classes: it reads such a token in the first three fields as bad coordinates (a warning naming the line, nothing raised), and in the fourth field as the atom's symbol.
- Floating-point values: representations and characters are integers. `reduction`'s `astype(int)` is modelled as truncating division, which is exact for orthogonal tables.
- C8v, D4d and D6d have irrational characters (`character_tables.py:54-63`, `144-166`). Building a point group from their names reports `IrrationalCharacters` and gives no table.
- The DataFrame branch of the `PointGroup` constructor (`symmetry.py:24-26`) accepts any well-formed integer table. The column-name metadata of a DataFrame is not modelled.
- `__str__` and the `character_table` property (`symmetry.py:46-53`) only return the table. `PointGroup.table` stands for both.
- Symmetry.Reduction: representations with non-numeric entries (`symmetry.py:85-88`) cannot arise from integer sequences, so that error path is not modelled.
- Molecule.BondsParsed: requires a structure. `molecule.py` reaches its bonds stage only after the atoms stage has set one.
- MolParser.MolParser.ParseMol: requires that no exception has been recorded. A Python object whose constructor raised is never used again.
- Text.ParseIntRejects: `int()` also strips Unicode whitespace and accepts Unicode decimal digits (Arabic-Indic digits, full-width digits and the like). The model knows only the ASCII digits and the ASCII whitespace, so a field written with other digits is rejected here where Python reads it.
- Integer width: the model's integers are unbounded. The bond table is an `np.zeros(..., dtype=int)` array (`MolParser.py:169`, `molecule.py:73`), so a bond field beyond 64 bits raises an `OverflowError` that no handler catches. The column product of `convolution` (`symmetry.py:121`) wraps around at 64 bits, and so do the products of class sizes, characters and the caller's representation in `reduction` (`symmetry.py:80-82`). None of these can happen with the small integers of a molfile, a character table or a representation of modest size.

## Findings

| source | as written | input that shows it | evidently intended | confidence | as-written member | corrected member |
|---|---|---|---|---|---|---|
| Program/Data/character_tables.py:200 | the key `'C6v'` is bound to the `C8v` table | `PointGroup('C6v')` | `'C6v'` bound to the C6v table of lines 44-52 | high; not executed | Symmetry.FromNameC6v | Symmetry.CorrectedFromNameC6v |
| Program/Symmetry/symmetry.py:121 | the product is named `' × '.join(args)`, leaving out the first two factors | `convolution('A1', 'A2')` on C2v is named `''`, so showing it prints ` = A2` | named after all the factors, as `convolution_results` does at line 221 | medium; not executed | Symmetry.C2vConvolutionNameExample | Symmetry.CorrectedConvolution |
| Program/Symmetry/MolParser.py:90-97 | the chirality is taken from the fourth counts field (`line_block[3]`); `molecule.py:43` does the same. The program's own warning (lines 91-92) also names "the 4th value in the counts block", and the corrupted-chirality test fixture (`Tests/test_molecule.py:54-55`) corrupts the fourth field, so the fourth field is applied consistently | a V2000 counts line `3 2 0 0 1 0 0 0 0 999 V2000` (chiral flag 1) is read as achiral | the same warning asks that the data "follow the .mol standard". In that standard's V2000 counts line (`aaabbblllfffccc…`) the fourth field is obsolete and the chiral flag is the fifth | medium: the code, the warning and the fixture agree with one another and differ only from the format; not executed | Chirality.ChiralFlagMisread | Chirality.CorrectedChiralityRead |

In each finding, the as-written definition is what the rest of the model
uses, since it describes the code. The corrected member is proved to give
the evidently intended result.
