/**
 * The PointGroup class of symmetry.py. A point group wraps a character table
 * that is never changed after construction, so the class is modelled as a
 * value and each of its methods as a function of the table and the
 * arguments. What a method prints is returned as a string beside its
 * result; an error it reports by printing a message and returning None, or
 * an exception it lets escape, is a `Failure`.
 */
module Symmetry {
  import opened Wrappers
  import opened Text
  import opened Characters
  import opened CharacterTables

  /** A table of the shape every method of PointGroup relies on. */
  type CharacterTable = t: Table | WellFormed(t) witness Table(["C1", "A"], [[1], [1]])

  /**
   * A point group object. Built from a table directly (the DataFrame branch
   * of the constructor) with `PointGroup(t)`, or from a name with `FromName`.
   */
  datatype PointGroup = PointGroup(table: CharacterTable)

  datatype Error =
    | Unsupported(supported: set<string>)   // unknown name: the message lists the known ones
    | IrrationalCharacters(group: string)   // known name whose table is not an integer table
    | ReductionError                        // representation of the wrong length
    | UnknownIrrep(known: seq<string>)      // convolution of a label the table lacks
    | MatchRepresentationError              // matching a representation of the wrong length
    | TypeError                             // an exception the methods let escape

  /** A row of a table, or a product of rows, with its name. */
  datatype Series = Series(name: string, values: seq<int>)

  /**
   * The table `reduction` returns: one row per irreducible representation,
   * holding the termwise products of the reduction formula and, in the last
   * column, the number of appearances.
   */
  datatype Reduced = Reduced(labels: seq<string>, cells: seq<seq<int>>, appearances: seq<int>)

  /** What `match_representation` returns: the matching row, or the reduction. */
  datatype Matched = Irreducible(row: Series) | Reducible(reduced: Reduced)

  /** What `print_result` returns: the appearances column of a reduction, or the row itself. */
  datatype Output = Appearances(counts: seq<int>) | Row(series: Series)

  /** A result together with the line a method prints for it. */
  datatype Reported<T> = Reported(line: string, value: T)

  // ----- Construction -----------------------------------------------------

  /** Looking a name up in a registry of tables. */
  function Lookup(registry: map<string, Group>, name: string): (r: Result<PointGroup, Error>)
    ensures name !in registry <==> r == Failure(Unsupported(registry.Keys))
    ensures r.Success? ==> name in registry && TableOf(registry[name]) == Some(r.value.table)
    ensures name in registry && TableOf(registry[name]).None? ==>
              r == Failure(IrrationalCharacters(Name(registry[name])))
    ensures name in registry && TableOf(registry[name]).Some? ==>
              r.Success? && r.value.table == TableOf(registry[name]).value
  {
    if name !in registry then Failure(Unsupported(registry.Keys))
    else
      var g := registry[name];
      var t := TableOf(g);
      if t.None? then Failure(IrrationalCharacters(Name(g)))
      else TableFacts(g); Success(PointGroup(t.value))
  }

  /** `PointGroup(name)`: the table the `character_tables` dictionary binds to `name`. */
  function FromName(name: string): Result<PointGroup, Error>
  {
    Lookup(Registry(), name)
  }

  /** The constructor as evidently intended, over the corrected dictionary. */
  function CorrectedFromName(name: string): Result<PointGroup, Error>
  {
    Lookup(CorrectedRegistry(), name)
  }

  /** `repr(pg)`: the class name and the name stored in the table. */
  function Repr(pg: PointGroup): string
  {
    "PointGroup(" + pg.table.index[0] + ")"
  }

  /**
   * A point group built from a name reports that name, and satisfies the
   * orthogonality relations. ("C6v" builds none: it is bound to C8v.)
   */
  lemma ReprOfFromName(name: string)
    requires FromName(name).Success?
    ensures Repr(FromName(name).value) == "PointGroup(" + name + ")"
    ensures Orthogonal(FromName(name).value.table)
  {
    assert name != "C6v" by {
      FromNameC6v();
    }
    RegistryNamesItsTables(name);
    TableFacts(Registry()[name]);
  }

  /** Unknown names are refused, listing the supported ones. */
  lemma FromNameUnknown(name: string)
    requires name !in Registry()
    ensures FromName(name) == Failure(Unsupported(Registry().Keys))
    ensures CorrectedFromName(name) == Failure(Unsupported(Registry().Keys))
  {
    assert CorrectedRegistry().Keys == Registry().Keys;
  }

  /** As written, the name "C6v" does not give the C6v table: it gives the C8v one. */
  lemma FromNameC6v()
    ensures FromName("C6v") == Failure(IrrationalCharacters("C8v"))
    ensures forall name :: FromName(name).Success? ==> FromName(name).value.table != C6vTable()
  {
    RegistryC6vIsC8v();
    forall name | FromName(name).Success?
      ensures FromName(name).value.table != C6vTable()
    {
      NotC6vTable(name);
    }
  }

  lemma NotC6vTable(name: string)
    requires FromName(name).Success?
    ensures FromName(name).value.table != C6vTable()
  {
    var g := Registry()[name];
    TableFacts(g);
    RegistryC6vIsC8v();
    assert g != C6v;
    assert FromName(name).value.table.index[0] != C6vTable().index[0];
  }

  /** Over the corrected dictionary every supported name gives a point group that reports that name. */
  lemma CorrectedReprOfFromName(name: string)
    requires CorrectedFromName(name).Success?
    ensures Repr(CorrectedFromName(name).value) == "PointGroup(" + name + ")"
    ensures Orthogonal(CorrectedFromName(name).value.table)
  {
    CorrectedRegistryNamesItsTables(name);
    TableFacts(CorrectedRegistry()[name]);
  }

  lemma CorrectedFromNameC6v()
    ensures CorrectedFromName("C6v").Success? && CorrectedFromName("C6v").value.table == C6vTable()
  {
  }

  // ----- Reduction --------------------------------------------------------

  /**
   * `int(a / b)` for a positive `b`: the quotient truncated toward zero, as
   * `astype(int)` truncates the float quotient.
   */
  function TruncDiv(a: int, b: int): (q: int)
    requires b > 0
    ensures 0 <= a ==> 0 <= a - q * b < b
    ensures a < 0 ==> 0 <= q * b - a < b
  {
    if a >= 0 then a / b else -((-a) / b)
  }

  lemma TruncDivExact(n: int, b: int)
    requires b > 0
    ensures TruncDiv(n * b, b) == n
  {
    var q := TruncDiv(n * b, b);
    assert n * b - q * b == (n - q) * b;
    MulBounds(n - q, b);
  }

  lemma MulBounds(d: int, b: int)
    requires b > 0
    ensures d >= 1 ==> d * b >= b
    ensures d <= -1 ==> d * b <= -b
  {
  }

  lemma RowSums(g: seq<int>, irreps: seq<seq<int>>, rep: seq<int>)
    requires |rep| == |g| && forall i :: 0 <= i < |irreps| ==> |irreps[i]| == |g|
    ensures forall i :: 0 <= i < |irreps| ==> Sum(Products(g, irreps[i], rep)) == Inner(g, irreps[i], rep)
  {
    forall i | 0 <= i < |irreps|
      ensures Sum(Products(g, irreps[i], rep)) == Inner(g, irreps[i], rep)
    {
      InnerIsSum(g, irreps[i], rep);
    }
  }

  /**
   * `pg.reduction(rep)`: the reduction formula. A representation of the
   * wrong length is refused; otherwise irreducible representation i
   * appears (1/h) * sum over classes c of chi_i(c) * g(c) * rep(c) times,
   * truncated toward zero, where g(c) counts the operations of class c and
   * h is the order of the group.
   */
  function Reduction(pg: PointGroup, rep: seq<int>): (r: Result<Reduced, Error>)
    ensures r.Failure? <==> |rep| != |pg.table.rows[0]|
    ensures r.Failure? ==> r.error == ReductionError
    ensures r.Success? ==>
              && r.value.labels == pg.table.index[1..]
              && |r.value.cells| == |r.value.appearances| == |pg.table.rows| - 1
              && (forall i :: 0 <= i < |r.value.cells| ==>
                    r.value.cells[i] == Products(pg.table.rows[0], pg.table.rows[i + 1], rep))
              && (forall i :: 0 <= i < |r.value.appearances| ==>
                    r.value.appearances[i] == TruncDiv(Inner(pg.table.rows[0], pg.table.rows[i + 1], rep), Order(pg.table)))
  {
    var t := pg.table;
    var g := t.rows[0];
    if |rep| != |g| then Failure(ReductionError)
    else
      var cells := seq(|t.rows| - 1, i requires 0 <= i < |t.rows| - 1 => Products(g, t.rows[i + 1], rep));
      RowSums(g, t.rows[1..], rep);
      Success(Reduced(t.index[1..], cells,
                      seq(|cells|, i requires 0 <= i < |cells| => TruncDiv(Sum(cells[i]), Order(t)))))
  }

  /** The termwise sum of two characters. */
  function Add(x: seq<int>, y: seq<int>): (r: seq<int>)
    requires |x| == |y|
    ensures |r| == |x| && forall c :: 0 <= c < |x| ==> r[c] == x[c] + y[c]
  {
    seq(|x|, c requires 0 <= c < |x| => x[c] + y[c])
  }

  /** A character multiplied by a number. */
  function Scale(k: int, x: seq<int>): (r: seq<int>)
    ensures |r| == |x| && forall c :: 0 <= c < |x| ==> r[c] == k * x[c]
  {
    seq(|x|, c requires 0 <= c < |x| => k * x[c])
  }

  /**
   * The character of the representation made of n[i] copies of each
   * irreducible representation `irreps[i]`: sum over i of n[i] * irreps[i].
   */
  function Combination(irreps: seq<seq<int>>, n: seq<int>, w: nat): (rep: seq<int>)
    requires |n| == |irreps| && forall i :: 0 <= i < |irreps| ==> |irreps[i]| == w
    ensures |rep| == w
  {
    if |n| == 0 then seq(w, c => 0)
    else Add(Scale(n[0], irreps[0]), Combination(irreps[1..], n[1..], w))
  }

  lemma {:induction false} InnerZero(g: seq<int>, x: seq<int>, w: nat)
    ensures Inner(g, x, seq(w, c => 0)) == 0
  {
    if |g| != 0 && |x| != 0 && w != 0 {
      assert seq(w, c => 0)[1..] == seq(w - 1, c => 0);
      InnerZero(g[1..], x[1..], w - 1);
    }
  }

  /** The inner product is linear in its last argument. */
  lemma {:induction false} InnerLinear(g: seq<int>, x: seq<int>, k: int, y: seq<int>, z: seq<int>)
    requires |y| == |z|
    ensures Inner(g, x, Add(Scale(k, y), z)) == k * Inner(g, x, y) + Inner(g, x, z)
  {
    if |g| != 0 && |x| != 0 && |y| != 0 {
      assert Add(Scale(k, y), z)[1..] == Add(Scale(k, y[1..]), z[1..]);
      InnerLinear(g[1..], x[1..], k, y[1..], z[1..]);
      assert x[0] * g[0] * (k * y[0] + z[0]) == k * (x[0] * g[0] * y[0]) + x[0] * g[0] * z[0];
    }
  }

  /**
   * Against a row `x` orthogonal to every irreducible representation but
   * the j-th, whose own product is h, a combination has inner product
   * n[j] * h.
   */
  lemma {:induction false} InnerOfCombination(g: seq<int>, h: int, x: seq<int>, irreps: seq<seq<int>>, n: seq<int>, w: nat, j: int)
    requires |n| == |irreps| && forall i :: 0 <= i < |irreps| ==> |irreps[i]| == w
    requires forall i :: 0 <= i < |irreps| ==> Inner(g, x, irreps[i]) == (if i == j then h else 0)
    ensures Inner(g, x, Combination(irreps, n, w)) == (if 0 <= j < |n| then n[j] * h else 0)
  {
    if |n| == 0 {
      InnerZero(g, x, w);
    } else {
      InnerOfCombination(g, h, x, irreps[1..], n[1..], w, j - 1);
      InnerLinear(g, x, n[0], irreps[0], Combination(irreps[1..], n[1..], w));
    }
  }

  /**
   * The reduction formula is exact on an orthogonal table: reducing the
   * representation made of n[i] copies of each irreducible representation
   * gives back n, whatever the numbers (negative ones included).
   */
  lemma ReductionRecoversMultiplicities(pg: PointGroup, n: seq<int>)
    requires Orthogonal(pg.table) && |n| == |pg.table.rows| - 1
    ensures Reduction(pg, Combination(pg.table.rows[1..], n, |pg.table.rows[0]|)).Success?
    ensures Reduction(pg, Combination(pg.table.rows[1..], n, |pg.table.rows[0]|)).value.appearances == n
  {
    var t := pg.table;
    var g := t.rows[0];
    var rep := Combination(t.rows[1..], n, |g|);
    var r := Reduction(pg, rep);
    forall i | 0 <= i < |n|
      ensures r.value.appearances[i] == n[i]
    {
      forall k | 0 <= k < |n|
        ensures Inner(g, t.rows[i + 1], t.rows[1..][k]) == (if k == i then Order(t) else 0)
      {
        assert t.rows[1..][k] == t.rows[k + 1];
      }
      InnerOfCombination(g, Order(t), t.rows[i + 1], t.rows[1..], n, |g|, i);
      TruncDivExact(n[i], Order(t));
    }
  }

  /** Reducing an irreducible representation finds it once and nothing else. */
  lemma ReductionOfIrrep(pg: PointGroup, i: int)
    requires Orthogonal(pg.table) && 1 <= i < |pg.table.rows|
    ensures Reduction(pg, pg.table.rows[i]).Success?
    ensures forall k :: 0 <= k < |pg.table.rows| - 1 ==>
              Reduction(pg, pg.table.rows[i]).value.appearances[k] == (if k + 1 == i then 1 else 0)
  {
    var t := pg.table;
    forall k | 0 <= k < |t.rows| - 1
      ensures Reduction(pg, t.rows[i]).value.appearances[k] == (if k + 1 == i then 1 else 0)
    {
      TruncDivExact(if k + 1 == i then 1 else 0, Order(t));
    }
  }

  /**
   * For every point group built from a name, reduction recovers the
   * multiplicities of any combination of its irreducible representations.
   */
  lemma NamedReductionExact(name: string, n: seq<int>)
    requires FromName(name).Success?
    requires |n| == |FromName(name).value.table.rows| - 1
    ensures var pg := FromName(name).value;
            Reduction(pg, Combination(pg.table.rows[1..], n, |pg.table.rows[0]|)).Success? &&
            Reduction(pg, Combination(pg.table.rows[1..], n, |pg.table.rows[0]|)).value.appearances == n
  {
    TableFacts(Registry()[name]);
    ReductionRecoversMultiplicities(FromName(name).value, n);
  }

  // ----- Printing ---------------------------------------------------------

  /** The coefficient printed before a label: nothing for 1, else the number. */
  function Coefficient(n: int): string
  {
    if n != 1 then IntToString(n) else ""
  }

  /** How many pairs of `zip(counts, labels)` have a nonzero count. */
  function NonZero(counts: seq<int>, labels: seq<string>): nat
  {
    if |counts| == 0 || |labels| == 0 then 0
    else (if counts[0] != 0 then 1 else 0) + NonZero(counts[1..], labels[1..])
  }

  /**
   * The terms `print_result` lists: for each pair of `zip(counts, labels)`
   * with a nonzero count, the coefficient followed by the label, in order.
   */
  function Terms(counts: seq<int>, labels: seq<string>): (terms: seq<string>)
    ensures |terms| == NonZero(counts, labels)
  {
    if |counts| == 0 || |labels| == 0 then []
    else (if counts[0] != 0 then [Coefficient(counts[0]) + labels[0]] else []) + Terms(counts[1..], labels[1..])
  }

  /** `term` is what `print_result` writes for some pair of `zip(counts, labels)` with a nonzero count. */
  predicate StandsFor(term: string, counts: seq<int>, labels: seq<string>)
  {
    exists i :: 0 <= i < |counts| && i < |labels| && counts[i] != 0 && term == Coefficient(counts[i]) + labels[i]
  }

  /** Every term printed stands for a pair of `zip(counts, labels)` with a nonzero count. */
  lemma {:induction false} TermsListed(counts: seq<int>, labels: seq<string>)
    ensures forall term :: term in Terms(counts, labels) ==> StandsFor(term, counts, labels)
  {
    if |counts| != 0 && |labels| != 0 {
      TermsListed(counts[1..], labels[1..]);
      forall term | term in Terms(counts, labels)
        ensures StandsFor(term, counts, labels)
      {
        if term in Terms(counts[1..], labels[1..]) {
          var i :| 0 <= i < |counts[1..]| && i < |labels[1..]| && counts[1..][i] != 0 &&
                   term == Coefficient(counts[1..][i]) + labels[1..][i];
          assert counts[i + 1] == counts[1..][i] && labels[i + 1] == labels[1..][i];
        } else {
          assert counts[0] != 0 && term == Coefficient(counts[0]) + labels[0];
        }
      }
    }
  }

  /** Counts that are all zero except a single 1 print as that label alone. */
  lemma {:induction false} TermsOfUnit(counts: seq<int>, labels: seq<string>, j: int)
    requires |counts| == |labels| && 0 <= j < |counts|
    requires forall i :: 0 <= i < |counts| ==> counts[i] == (if i == j then 1 else 0)
    ensures Terms(counts, labels) == [labels[j]]
  {
    if j == 0 {
      NoNonZero(counts[1..], labels[1..]);
      assert Terms(counts[1..], labels[1..]) == [];
      assert Coefficient(counts[0]) + labels[0] == labels[0];
    } else {
      TermsOfUnit(counts[1..], labels[1..], j - 1);
      assert labels[1..][j - 1] == labels[j];
    }
  }

  lemma {:induction false} NoNonZero(counts: seq<int>, labels: seq<string>)
    requires forall i :: 0 <= i < |counts| ==> counts[i] == 0
    ensures NonZero(counts, labels) == 0
  {
    if |counts| != 0 && |labels| != 0 {
      NoNonZero(counts[1..], labels[1..]);
    }
  }

  /** `idx` lists, in increasing order, exactly the positions of `zip(counts, labels)` with a nonzero count. */
  predicate NonZeroPositions(idx: seq<nat>, counts: seq<int>, labels: seq<string>)
  {
    && (forall k :: 0 <= k < |idx| ==> idx[k] < |counts| && idx[k] < |labels| && counts[idx[k]] != 0)
    && (forall k, l :: 0 <= k < l < |idx| ==> idx[k] < idx[l])
    && (forall i :: 0 <= i < |counts| && i < |labels| && counts[i] != 0 ==> i in idx)
  }

  /** The nonzero positions of the tail, renumbered as positions of the whole. */
  lemma ShiftedPositions(tail: seq<nat>, counts: seq<int>, labels: seq<string>) returns (shifted: seq<nat>)
    requires |counts| > 0 && |labels| > 0
    requires NonZeroPositions(tail, counts[1..], labels[1..])
    ensures |shifted| == |tail|
    ensures forall k :: 0 <= k < |shifted| ==> shifted[k] == tail[k] + 1
    ensures forall k :: 0 <= k < |shifted| ==>
              1 <= shifted[k] && shifted[k] < |counts| && shifted[k] < |labels| && counts[shifted[k]] != 0
    ensures forall k, l :: 0 <= k < l < |shifted| ==> shifted[k] < shifted[l]
    ensures forall i :: 1 <= i < |counts| && i < |labels| && counts[i] != 0 ==> i in shifted
  {
    shifted := seq(|tail|, k requires 0 <= k < |tail| => tail[k] + 1);
    forall k | 0 <= k < |shifted|
      ensures shifted[k] < |counts| && shifted[k] < |labels| && counts[shifted[k]] != 0
    {
      assert counts[shifted[k]] == counts[1..][tail[k]];
    }
    forall i | 1 <= i < |counts| && i < |labels| && counts[i] != 0
      ensures i in shifted
    {
      assert counts[1..][i - 1] == counts[i];
      var k :| 0 <= k < |tail| && tail[k] == i - 1;
      assert shifted[k] == i;
    }
  }

  /** `terms` holds, in order, the term written for each position of `idx`. */
  predicate WrittenAt(terms: seq<string>, idx: seq<nat>, counts: seq<int>, labels: seq<string>)
  {
    && |terms| == |idx|
    && (forall k :: 0 <= k < |idx| ==> idx[k] < |counts| && idx[k] < |labels|)
    && (forall k :: 0 <= k < |idx| ==> terms[k] == Coefficient(counts[idx[k]]) + labels[idx[k]])
  }

  /** The terms of the tail are written at the shifted positions of the whole. */
  lemma WrittenShifted(rest: seq<string>, tail: seq<nat>, shifted: seq<nat>, counts: seq<int>, labels: seq<string>)
    requires |counts| > 0 && |labels| > 0
    requires WrittenAt(rest, tail, counts[1..], labels[1..])
    requires |shifted| == |tail| && forall k :: 0 <= k < |shifted| ==> shifted[k] == tail[k] + 1
    ensures WrittenAt(rest, shifted, counts, labels)
  {
    forall k | 0 <= k < |shifted|
      ensures rest[k] == Coefficient(counts[shifted[k]]) + labels[shifted[k]]
    {
      assert counts[shifted[k]] == counts[1..][tail[k]];
      assert labels[shifted[k]] == labels[1..][tail[k]];
    }
  }

  /** A nonzero first count puts its term and position in front. */
  lemma WrittenFirst(rest: seq<string>, shifted: seq<nat>, counts: seq<int>, labels: seq<string>)
    requires |counts| > 0 && |labels| > 0
    requires WrittenAt(rest, shifted, counts, labels)
    ensures WrittenAt([Coefficient(counts[0]) + labels[0]] + rest, [0] + shifted, counts, labels)
  {
    var terms := [Coefficient(counts[0]) + labels[0]] + rest;
    var idx := [0] + shifted;
    forall k | 0 <= k < |idx|
      ensures terms[k] == Coefficient(counts[idx[k]]) + labels[idx[k]]
    {
      if k > 0 {
        assert terms[k] == rest[k - 1] && idx[k] == shifted[k - 1];
      }
    }
  }

  /** Position 0, when its count is nonzero, in front of the shifted positions. */
  lemma PositionsFirst(shifted: seq<nat>, counts: seq<int>, labels: seq<string>)
    requires |counts| > 0 && |labels| > 0 && counts[0] != 0
    requires forall k :: 0 <= k < |shifted| ==>
               1 <= shifted[k] && shifted[k] < |counts| && shifted[k] < |labels| && counts[shifted[k]] != 0
    requires forall k, l :: 0 <= k < l < |shifted| ==> shifted[k] < shifted[l]
    requires forall i :: 1 <= i < |counts| && i < |labels| && counts[i] != 0 ==> i in shifted
    ensures NonZeroPositions([0] + shifted, counts, labels)
  {
    var idx := [0] + shifted;
    forall k | 0 <= k < |idx|
      ensures idx[k] < |counts| && idx[k] < |labels| && counts[idx[k]] != 0
    {
      if k > 0 {
        assert idx[k] == shifted[k - 1];
      }
    }
    forall k, l | 0 <= k < l < |idx|
      ensures idx[k] < idx[l]
    {
      assert idx[l] == shifted[l - 1];
      if k > 0 {
        assert idx[k] == shifted[k - 1];
      }
    }
    forall i | 0 <= i < |counts| && i < |labels| && counts[i] != 0
      ensures i in idx
    {
      if i == 0 {
        assert idx[0] == 0;
      } else {
        assert i in shifted;
      }
    }
  }

  /**
   * Every pair of `zip(counts, labels)` with a nonzero count is printed, in
   * order: the k-th term is written for the k-th such pair.
   */
  lemma {:induction false} TermsInOrder(counts: seq<int>, labels: seq<string>) returns (idx: seq<nat>)
    ensures NonZeroPositions(idx, counts, labels)
    ensures WrittenAt(Terms(counts, labels), idx, counts, labels)
  {
    if |counts| == 0 || |labels| == 0 {
      idx := [];
    } else {
      var tail := TermsInOrder(counts[1..], labels[1..]);
      var shifted := ShiftedPositions(tail, counts, labels);
      var rest := Terms(counts[1..], labels[1..]);
      WrittenShifted(rest, tail, shifted, counts, labels);
      if counts[0] != 0 {
        idx := [0] + shifted;
        PositionsFirst(shifted, counts, labels);
        WrittenFirst(rest, shifted, counts, labels);
        assert Terms(counts, labels) == [Coefficient(counts[0]) + labels[0]] + rest;
      } else {
        idx := shifted;
        assert Terms(counts, labels) == rest;
      }
    }
  }

  /**
   * `pg.print_result(df, lhs)`: a reduction prints as `lhs = ` followed by
   * its terms joined by two-space-padded plus signs and returns its
   * appearances; a row prints as `lhs = ` and its name and returns itself.
   */
  function PrintResult(m: Matched, lhs: string): (r: Reported<Output>)
    ensures |r.line| >= |lhs| + 3 && r.line[..|lhs| + 3] == lhs + " = "
    ensures m.Reducible? ==> r.value == Appearances(m.reduced.appearances)
    ensures m.Reducible? && Words(m.reduced.labels) ==>
              Tokens(r.line[|lhs| + 3..]) == Plussed(Terms(m.reduced.appearances, m.reduced.labels))
    ensures m.Irreducible? ==> r.value == Row(m.row)
    ensures m.Irreducible? && Words([m.row.name]) ==> Tokens(r.line[|lhs| + 3..]) == [m.row.name]
  {
    match m
    case Reducible(red) =>
      var sum := Join(Terms(red.appearances, red.labels), "  +  ");
      assert (lhs + " = " + sum)[|lhs| + 3..] == sum;
      SumOfWords(red.appearances, red.labels);
      Reported(lhs + " = " + sum, Appearances(red.appearances))
    case Irreducible(row) =>
      assert (lhs + " = " + row.name)[|lhs| + 3..] == row.name;
      NameIsToken(row.name);
      Reported(lhs + " = " + row.name, Row(row))
  }

  /** Non-empty strings without a space: labels that print as one field each. */
  predicate Words(xs: seq<string>)
  {
    forall i :: 0 <= i < |xs| ==> xs[i] != "" && ' ' !in xs[i]
  }

  /** The fields of a printed sum: the terms with a "+" between each two. */
  function Plussed(terms: seq<string>): (r: seq<string>)
    ensures |r| == if |terms| == 0 then 0 else 2 * |terms| - 1
    ensures forall j :: 0 <= j < |r| ==> r[j] == if j % 2 == 0 then terms[j / 2] else "+"
  {
    if |terms| <= 1 then terms
    else
      var rest := Plussed(terms[1..]);
      assert forall j :: 2 <= j < 2 + |rest| ==> j / 2 - 1 == (j - 2) / 2 && j % 2 == (j - 2) % 2;
      [terms[0], "+"] + rest
  }

  /** Terms joined by `"  +  "` read back, field by field, as the terms and the plus signs. */
  lemma {:induction false} SumTokens(terms: seq<string>)
    requires Words(terms)
    ensures Tokens(Join(terms, "  +  ")) == Plussed(terms)
  {
    if |terms| == 0 {
      assert Split("", ' ') == [""];
    } else if |terms| == 1 {
      TokensOfJoin(terms);
    } else {
      var rest := Join(terms[1..], "  +  ");
      SumTokens(terms[1..]);
      var t := terms[0];
      assert Join(terms, "  +  ") == t + [' '] + ("" + [' '] + ("+" + [' '] + ("" + [' '] + rest)));
      SplitAppend(t, "" + [' '] + ("+" + [' '] + ("" + [' '] + rest)), ' ');
      SplitAppend("", "+" + [' '] + ("" + [' '] + rest), ' ');
      SplitAppend("+", "" + [' '] + rest, ' ');
      SplitAppend("", rest, ' ');
      var parts := Split(rest, ' ');
      assert Split(Join(terms, "  +  "), ' ') == [t] + ([""] + (["+"] + ([""] + parts)));
      assert NonEmpty([t] + ([""] + (["+"] + ([""] + parts)))) == [t] + NonEmpty([""] + (["+"] + ([""] + parts)));
      assert NonEmpty([""] + (["+"] + ([""] + parts))) == NonEmpty(["+"] + ([""] + parts));
      assert NonEmpty(["+"] + ([""] + parts)) == ["+"] + NonEmpty([""] + parts);
      assert NonEmpty([""] + parts) == NonEmpty(parts);
    }
  }

  /** A sum of terms over labels that are words reads back as those terms and plus signs. */
  lemma SumOfWords(counts: seq<int>, labels: seq<string>)
    ensures Words(labels) ==> Tokens(Join(Terms(counts, labels), "  +  ")) == Plussed(Terms(counts, labels))
  {
    if Words(labels) {
      TermsAreWords(counts, labels);
      SumTokens(Terms(counts, labels));
    }
  }

  /** A name that is a word is read back as a single field. */
  lemma NameIsToken(name: string)
    ensures Words([name]) ==> Tokens(name) == [name]
  {
    if Words([name]) {
      TokensOfJoin([name]);
      assert Join([name], " ") == name;
    }
  }

  /** With labels that are words, every printed term is a word. */
  lemma TermsAreWords(counts: seq<int>, labels: seq<string>)
    requires Words(labels)
    ensures Words(Terms(counts, labels))
  {
    TermsListed(counts, labels);
    forall k | 0 <= k < |Terms(counts, labels)|
      ensures Terms(counts, labels)[k] != "" && ' ' !in Terms(counts, labels)[k]
    {
      var term := Terms(counts, labels)[k];
      assert term in Terms(counts, labels);
      var i :| 0 <= i < |counts| && i < |labels| && counts[i] != 0 && term == Coefficient(counts[i]) + labels[i];
      PrintedIsWord(counts[i]);
      assert ' ' !in Coefficient(counts[i]);
      assert forall j :: 0 <= j < |term| ==> term[j] != ' ' by {
        forall j | 0 <= j < |term|
          ensures term[j] != ' '
        {
          var c := Coefficient(counts[i]);
          if j < |c| {
            assert term[j] == c[j];
          } else {
            assert term[j] == labels[i][j - |c|];
          }
        }
      }
    }
  }

  /**
   * `pg.constituents(rep)`: the appearances of each irreducible
   * representation, printed as `result = ...`. A representation of the
   * wrong length makes `reduction` return None, which `constituents` then
   * subscripts: a TypeError.
   */
  function Constituents(pg: PointGroup, rep: seq<int>): (r: Result<Reported<seq<int>>, Error>)
    ensures r.Failure? <==> |rep| != |pg.table.rows[0]|
    ensures r.Failure? ==> r.error == TypeError
    ensures r.Success? ==>
              && r.value.value == Reduction(pg, rep).value.appearances
              && r.value.line == PrintResult(Reducible(Reduction(pg, rep).value), "result").line
  {
    match Reduction(pg, rep)
    case Failure(_) => Failure(TypeError)
    case Success(red) => Success(Reported(PrintResult(Reducible(red), "result").line, red.appearances))
  }

  /** On an orthogonal table, the constituents of a representation made of n[i] copies of each irreducible one are n. */
  lemma ConstituentsOfCombination(pg: PointGroup, n: seq<int>)
    requires Orthogonal(pg.table) && |n| == |pg.table.rows| - 1
    ensures Constituents(pg, Combination(pg.table.rows[1..], n, |pg.table.rows[0]|)).Success?
    ensures Constituents(pg, Combination(pg.table.rows[1..], n, |pg.table.rows[0]|)).value.value == n
  {
    ReductionRecoversMultiplicities(pg, n);
  }

  // ----- Convolution ------------------------------------------------------

  /** Position of the first occurrence of `key`. */
  function Find(labels: seq<string>, key: string): (r: Option<nat>)
    ensures r.None? <==> key !in labels
    ensures r.Some? ==> r.value < |labels| && labels[r.value] == key
    ensures r.Some? ==> key !in labels[..r.value]
  {
    if |labels| == 0 then None
    else if labels[0] == key then Some(0)
    else match Find(labels[1..], key)
      case None => None
      case Some(i) => Some(i + 1)
  }

  /** `table.loc[label]`: the row with that label, if the table has one. */
  function RowOf(t: CharacterTable, key: string): (r: Option<seq<int>>)
    ensures r.Some? <==> key in t.index
    ensures forall i :: 0 <= i < |t.index| && t.index[i] == key ==> r == Some(t.rows[i])
    ensures r.Some? ==> |r.value| == |t.rows[0]|
  {
    match Find(t.index, key)
    case None => None
    case Some(i) => Some(t.rows[i])
  }

  /** `table.loc[labels]`: the rows with those labels, in order; None if any is missing. */
  function Select(t: CharacterTable, labels: seq<string>): (r: Option<seq<seq<int>>>)
    ensures r.Some? ==> |r.value| == |labels|
  {
    if |labels| == 0 then Some([])
    else
      var head := RowOf(t, labels[0]);
      var rest := Select(t, labels[1..]);
      if head.None? || rest.None? then None
      else Some([head.value] + rest.value)
  }

  /** The rows are there exactly when every label is in the table, and each is the row of its label. */
  lemma {:induction false} SelectSound(t: CharacterTable, labels: seq<string>)
    ensures Select(t, labels).Some? <==> forall l :: l in labels ==> l in t.index
    ensures Select(t, labels).Some? ==> forall k :: 0 <= k < |labels| ==> RowOf(t, labels[k]) == Some(Select(t, labels).value[k])
  {
    if |labels| > 0 {
      SelectSound(t, labels[1..]);
      assert forall k :: 1 <= k < |labels| ==> labels[k] == labels[1..][k - 1];
      assert forall l :: l in labels <==> l == labels[0] || l in labels[1..];
    }
  }

  /** The termwise product of two characters. */
  function Times(x: seq<int>, y: seq<int>): (r: seq<int>)
    requires |x| == |y|
    ensures |r| == |x| && forall c :: 0 <= c < |x| ==> r[c] == x[c] * y[c]
  {
    seq(|x|, c requires 0 <= c < |x| => x[c] * y[c])
  }

  /** `DataFrame.product()`: the column-wise product of rows of width `w`. */
  function ColumnProduct(rows: seq<seq<int>>, w: nat): (r: seq<int>)
    requires forall k :: 0 <= k < |rows| ==> |rows[k]| == w
    ensures |r| == w
  {
    if |rows| == 0 then seq(w, c => 1) else Times(rows[0], ColumnProduct(rows[1..], w))
  }

  /**
   * `pg.convolution(arg1, arg2, *args)`: the termwise product of the rows
   * with those labels (any label of the table, the group's own name
   * included), named after `args` alone, as written. A missing label is
   * reported with the labels the table has.
   */
  function Convolution(pg: PointGroup, arg1: string, arg2: string, args: seq<string>): (r: Result<Series, Error>)
    ensures r.Success? <==> forall l :: l in [arg1, arg2] + args ==> l in pg.table.index
    ensures r.Failure? ==> r.error == UnknownIrrep(pg.table.index)
    ensures r.Success? ==> r.value.name == Join(args, " × ") && |r.value.values| == |pg.table.rows[0]|
  {
    var t := pg.table;
    SelectSound(t, [arg1, arg2] + args);
    match Select(t, [arg1, arg2] + args)
    case None => Failure(UnknownIrrep(t.index))
    case Some(rows) => Success(Series(Join(args, " × "), ColumnProduct(rows, |t.rows[0]|)))
  }

  /** The convolution as evidently intended: named after every factor. */
  function CorrectedConvolution(pg: PointGroup, arg1: string, arg2: string, args: seq<string>): (r: Result<Series, Error>)
    ensures r.Success? ==> r.value.name == Join([arg1, arg2] + args, " × ")
    ensures r.Success? <==> Convolution(pg, arg1, arg2, args).Success?
    ensures r.Success? ==> r.value.values == Convolution(pg, arg1, arg2, args).value.values
    ensures r.Failure? ==> r == Convolution(pg, arg1, arg2, args)
  {
    match Convolution(pg, arg1, arg2, args)
    case Failure(e) => Failure(e)
    case Success(s) => Success(Series(Join([arg1, arg2] + args, " × "), s.values))
  }

  /** The convolution of two representations is the termwise product of their characters. */
  lemma ConvolutionOfTwo(pg: PointGroup, i: int, j: int)
    requires 0 <= i < |pg.table.rows| && 0 <= j < |pg.table.rows|
    ensures var t := pg.table;
            Convolution(pg, t.index[i], t.index[j], []) == Success(Series("", Times(t.rows[i], t.rows[j])))
  {
    var t := pg.table;
    var w := |t.rows[0]|;
    var labels := [t.index[i], t.index[j]];
    assert labels + [] == labels;
    SelectSound(t, labels);
    var rows := Select(t, labels).value;
    assert rows == [t.rows[i], t.rows[j]];
    assert ColumnProduct(rows[1..][1..], w) == seq(w, c => 1);
    TimesOne(t.rows[j]);
    assert ColumnProduct(rows[1..], w) == t.rows[j];
    assert ColumnProduct(rows, w) == Times(t.rows[i], t.rows[j]);
  }

  /** The order of the first two factors does not matter. */
  lemma ConvolutionCommutes(pg: PointGroup, a: string, b: string, args: seq<string>)
    ensures Convolution(pg, a, b, args) == Convolution(pg, b, a, args)
  {
    var t := pg.table;
    SelectPair(t, a, b, args);
    SelectPair(t, b, a, args);
    if Select(t, [a, b] + args).Some? {
      SelectSound(t, args);
      ProductSwap(RowOf(t, a).value, RowOf(t, b).value, Select(t, args).value, |t.rows[0]|);
    }
  }

  /** The rows of two labels and then more: the two rows, then the rest. */
  lemma SelectPair(t: CharacterTable, a: string, b: string, args: seq<string>)
    ensures Select(t, [a, b] + args) ==
            if RowOf(t, a).Some? && RowOf(t, b).Some? && Select(t, args).Some?
            then Some([RowOf(t, a).value, RowOf(t, b).value] + Select(t, args).value)
            else None
  {
    assert [a, b] + args == [a] + ([b] + args);
    SelectCons(t, a, [b] + args);
    SelectCons(t, b, args);
    if Select(t, [a, b] + args).Some? {
      var x, y, rest := RowOf(t, a).value, RowOf(t, b).value, Select(t, args).value;
      assert [x] + ([y] + rest) == [x, y] + rest;
    }
  }

  lemma SelectCons(t: CharacterTable, key: string, labels: seq<string>)
    ensures Select(t, [key] + labels) ==
            if RowOf(t, key).Some? && Select(t, labels).Some?
            then Some([RowOf(t, key).value] + Select(t, labels).value)
            else None
  {
    assert ([key] + labels)[1..] == labels;
  }

  lemma ProductSwap(x: seq<int>, y: seq<int>, rest: seq<seq<int>>, w: nat)
    requires |x| == w && |y| == w && forall k :: 0 <= k < |rest| ==> |rest[k]| == w
    ensures ColumnProduct([x, y] + rest, w) == ColumnProduct([y, x] + rest, w)
  {
    assert ([x, y] + rest)[1..] == [y] + rest && ([y] + rest)[1..] == rest;
    assert ([y, x] + rest)[1..] == [x] + rest && ([x] + rest)[1..] == rest;
    var r := ColumnProduct(rest, w);
    assert Times(x, Times(y, r)) == Times(y, Times(x, r)) by {
      forall c | 0 <= c < w
        ensures x[c] * (y[c] * r[c]) == y[c] * (x[c] * r[c])
      {
        MulSwap(x[c], y[c], r[c]);
      }
    }
  }

  lemma MulSwap(p: int, q: int, r: int)
    ensures p * (q * r) == q * (p * r)
  {
  }

  /** Convolving one more factor multiplies the result by that factor's row. */
  lemma ConvolutionExtend(pg: PointGroup, a: string, b: string, args: seq<string>, c: string)
    requires Convolution(pg, a, b, args + [c]).Success?
    ensures Convolution(pg, a, b, args).Success? && RowOf(pg.table, c).Some?
    ensures Convolution(pg, a, b, args + [c]).value.values ==
            Times(Convolution(pg, a, b, args).value.values, RowOf(pg.table, c).value)
  {
    var t := pg.table;
    var w := |t.rows[0]|;
    var labels := [a, b] + args;
    assert labels + [c] == [a, b] + (args + [c]);
    assert c in labels + [c];
    SelectSound(t, labels + [c]);
    SelectSound(t, labels);
    var all := Select(t, labels + [c]).value;
    var front := Select(t, labels).value;
    assert all == front + [RowOf(t, c).value] by {
      forall k | 0 <= k < |labels|
        ensures all[k] == front[k]
      {
        assert (labels + [c])[k] == labels[k];
      }
      assert (labels + [c])[|labels|] == c;
    }
    ProductAppend(front, RowOf(t, c).value, w);
  }

  lemma {:induction false} ProductAppend(rows: seq<seq<int>>, x: seq<int>, w: nat)
    requires |x| == w && forall k :: 0 <= k < |rows| ==> |rows[k]| == w
    ensures ColumnProduct(rows + [x], w) == Times(ColumnProduct(rows, w), x)
  {
    if |rows| == 0 {
      assert (rows + [x])[1..] == [];
    } else {
      assert (rows + [x])[1..] == rows[1..] + [x];
      ProductAppend(rows[1..], x, w);
    }
  }

  /** A representation whose characters are all 1 (the totally symmetric one) is a unit for convolution. */
  lemma ConvolutionIdentity(pg: PointGroup, a: string, e: string)
    requires RowOf(pg.table, e) == Some(seq(|pg.table.rows[0]|, c => 1))
    requires a in pg.table.index
    ensures Convolution(pg, a, e, []) == Success(Series("", RowOf(pg.table, a).value))
  {
    var t := pg.table;
    var i :| 0 <= i < |t.index| && t.index[i] == a;
    var j :| 0 <= j < |t.index| && t.index[j] == e;
    ConvolutionOfTwo(pg, i, j);
    TimesOne(t.rows[i]);
  }

  lemma TimesOne(x: seq<int>)
    ensures Times(x, seq(|x|, c => 1)) == x
  {
  }

  // ----- Matching ---------------------------------------------------------

  /** The first irreducible representation (row 1 onwards) whose characters equal `rep`. */
  function FirstMatch(rows: seq<seq<int>>, rep: seq<int>, from: nat): (r: Option<nat>)
    requires from <= |rows|
    ensures r.Some? ==> from <= r.value < |rows| && rows[r.value] == rep &&
                        forall j :: from <= j < r.value ==> rows[j] != rep
    ensures r.None? ==> forall j :: from <= j < |rows| ==> rows[j] != rep
    decreases |rows| - from
  {
    if from == |rows| then None
    else if rows[from] == rep then Some(from)
    else FirstMatch(rows, rep, from + 1)
  }

  /**
   * `pg.match_representation(rep)`: the first irreducible representation
   * whose characters are exactly `rep`, as a row named by its label, or
   * else the reduction of `rep`. A representation of the wrong length is
   * refused.
   */
  function MatchRepresentation(pg: PointGroup, rep: seq<int>): (r: Result<Matched, Error>)
    ensures r.Failure? <==> |rep| != |pg.table.rows[0]|
    ensures r.Failure? ==> r.error == MatchRepresentationError
    ensures r.Success? && r.value.Irreducible? ==>
              exists i :: 1 <= i < |pg.table.rows| && pg.table.rows[i] == rep &&
                r.value.row == Series(pg.table.index[i], rep) &&
                forall j :: 1 <= j < i ==> pg.table.rows[j] != rep
    ensures r.Success? && r.value.Reducible? ==>
              (forall i :: 1 <= i < |pg.table.rows| ==> pg.table.rows[i] != rep) &&
              Reduction(pg, rep) == Success(r.value.reduced)
  {
    var t := pg.table;
    if |rep| != |t.rows[0]| then Failure(MatchRepresentationError)
    else match FirstMatch(t.rows, rep, 1)
      case Some(i) => Success(Irreducible(Series(t.index[i], t.rows[i])))
      case None => Success(Reducible(Reduction(pg, rep).value))
  }

  /** Distinct rows of an orthogonal table have distinct characters. */
  lemma OrthogonalRowsDistinct(t: CharacterTable, i: int, j: int)
    requires Orthogonal(t) && 1 <= i < |t.rows| && 1 <= j < |t.rows| && i != j
    ensures t.rows[i] != t.rows[j]
  {
    assert Inner(t.rows[0], t.rows[j], t.rows[i]) == 0;
    assert Inner(t.rows[0], t.rows[j], t.rows[j]) == Order(t);
  }

  /** On an orthogonal table, matching the characters of an irreducible representation names it. */
  lemma MatchIrrep(pg: PointGroup, i: int)
    requires Orthogonal(pg.table) && 1 <= i < |pg.table.rows|
    ensures MatchRepresentation(pg, pg.table.rows[i]) ==
            Success(Irreducible(Series(pg.table.index[i], pg.table.rows[i])))
  {
    var t := pg.table;
    forall j | 1 <= j < i
      ensures t.rows[j] != t.rows[i]
    {
      OrthogonalRowsDistinct(t, j, i);
    }
    assert FirstMatch(t.rows, t.rows[i], 1) == Some(i);
  }

  /**
   * `pg.show_matched_representation(rep)`: matches `rep` and prints the
   * result with the representation's name on the left (a named Series),
   * or "result" when it has none (a plain list). Nothing is printed when
   * matching fails.
   */
  function ShowMatchedRepresentation(pg: PointGroup, rep: seq<int>, name: Option<string>): (r: Result<Reported<Matched>, Error>)
    ensures r.Failure? <==> MatchRepresentation(pg, rep).Failure?
    ensures r.Failure? ==> r.error == MatchRepresentationError
    ensures r.Success? ==>
              && r.value.value == MatchRepresentation(pg, rep).value
              && r.value.line == PrintResult(r.value.value, if name.Some? then name.value else "result").line
  {
    match MatchRepresentation(pg, rep)
    case Failure(e) => Failure(e)
    case Success(m) =>
      var lhs := match name case Some(n) => n case None => "result";
      Success(Reported(PrintResult(m, lhs).line, m))
  }

  /**
   * `pg.convolution_results(arg1, arg2, *args)`: convolves the
   * representations, matches the product and prints it as
   * `arg1 × arg2 × ... = ...`. A missing label makes `convolution` return
   * None, which matching then fails on with a TypeError.
   */
  function ConvolutionResults(pg: PointGroup, arg1: string, arg2: string, args: seq<string>): (r: Result<Reported<Matched>, Error>)
    ensures r.Failure? <==> Convolution(pg, arg1, arg2, args).Failure?
    ensures r.Failure? ==> r.error == TypeError
    ensures r.Success? ==>
              var product := Convolution(pg, arg1, arg2, args).value.values;
              && MatchRepresentation(pg, product).Success?
              && r.value.value == MatchRepresentation(pg, product).value
              && r.value.line == PrintResult(r.value.value, Join([arg1, arg2] + args, " × ")).line
  {
    match CorrectedConvolution(pg, arg1, arg2, args)
    case Failure(_) => Failure(TypeError)
    case Success(product) =>
      var m := MatchRepresentation(pg, product.values).value;
      Success(Reported(PrintResult(m, Join([arg1, arg2] + args, " × ")).line, m))
  }

  /**
   * On an orthogonal table, the convolution of two representations whose
   * product is again irreducible is reported as that representation.
   */
  lemma ConvolutionResultsIrreducible(pg: PointGroup, i: int, j: int, k: int)
    requires Orthogonal(pg.table)
    requires 0 <= i < |pg.table.rows| && 0 <= j < |pg.table.rows| && 1 <= k < |pg.table.rows|
    requires Times(pg.table.rows[i], pg.table.rows[j]) == pg.table.rows[k]
    ensures var t := pg.table;
            ConvolutionResults(pg, t.index[i], t.index[j], []) ==
            Success(Reported(t.index[i] + " × " + t.index[j] + " = " + t.index[k],
                             Irreducible(Series(t.index[k], t.rows[k]))))
  {
    var t := pg.table;
    assert [t.index[i], t.index[j]] + [] == [t.index[i], t.index[j]];
    assert Join([t.index[i], t.index[j]], " × ") == t.index[i] + " × " + t.index[j];
    ConvolutionOfTwo(pg, i, j);
    MatchIrrep(pg, k);
    assert CorrectedConvolution(pg, t.index[i], t.index[j], []).value.values == t.rows[k];
  }

  // ----- The C2v scenarios ------------------------------------------------

  /** The C2v point group, built from its table as the DataFrame branch of the constructor does. */
  function C2vGroup(): (pg: PointGroup)
    ensures pg.table == C2vTable()
  {
    C2vStandard();
    PointGroup(C2vTable())
  }

  /** Reducing (4, 0, 4, 0) gives 2 A1 + 2 B1; a representation of five characters is refused. */
  lemma C2vReductionExample()
    ensures Reduction(C2vGroup(), [4, 0, 4, 0]).Success?
    ensures Reduction(C2vGroup(), [4, 0, 4, 0]).value.appearances == [2, 0, 2, 0]
    ensures Reduction(C2vGroup(), [4, 0, 4, 0, 4]) == Failure(ReductionError)
  {
    C2vOrthogonal();
    C2vCombinationExample();
    ReductionRecoversMultiplicities(C2vGroup(), [2, 0, 2, 0]);
  }

  lemma C2vTermsExample()
    ensures Terms([2, 0, 2, 0], ["A1", "A2", "B1", "B2"]) == ["2A1", "2B1"]
  {
    assert Coefficient(2) == "2";
    assert Terms([0], ["B2"]) == [];
    assert Terms([2, 0], ["B1", "B2"]) == ["2" + "B1"];
    assert Terms([0, 2, 0], ["A2", "B1", "B2"]) == ["2" + "B1"];
    assert Terms([2, 0, 2, 0], ["A1", "A2", "B1", "B2"]) == ["2" + "A1", "2" + "B1"];
    assert "2" + "A1" == "2A1";
    assert "2" + "B1" == "2B1";
  }

  /** `constituents((4, 0, 4, 0))` prints "result = 2A1  +  2B1" and returns (2, 0, 2, 0). */
  lemma C2vConstituentsExample()
    ensures Constituents(C2vGroup(), [4, 0, 4, 0]) == Success(Reported("result = 2A1  +  2B1", [2, 0, 2, 0]))
  {
    C2vReductionExample();
    var red := Reduction(C2vGroup(), [4, 0, 4, 0]).value;
    assert red.labels == C2vTable().index[1..] == ["A1", "A2", "B1", "B2"];
    C2vTermsExample();
    C2vConstituentsLine();
    assert PrintResult(Reducible(red), "result").line == "result = 2A1  +  2B1";
  }

  lemma C2vConstituentsLine()
    ensures Join(["2A1", "2B1"], "  +  ") == "2A1  +  2B1"
    ensures "result" + " = " + "2A1  +  2B1" == "result = 2A1  +  2B1"
  {
    assert ["2A1", "2B1"][1..] == ["2B1"];
  }

  /** A1 convolved with A2 is (1, 1, -1, -1), named "" as written; an unknown label is reported. */
  lemma C2vConvolutionExample()
    ensures Convolution(C2vGroup(), "A1", "A2", []) == Success(Series("", [1, 1, -1, -1]))
    ensures Convolution(C2vGroup(), "A1", "X", []) == Failure(UnknownIrrep(["C2v", "A1", "A2", "B1", "B2"]))
  {
    ConvolutionOfTwo(C2vGroup(), 1, 2);
    assert Times([1, 1, 1, 1], [1, 1, -1, -1]) == [1, 1, -1, -1];
    assert "X" !in C2vTable().index;
  }

  /** (1, 1, 1, 1) matches A1; five characters are refused. */
  lemma C2vMatchIrreducibleExample()
    ensures MatchRepresentation(C2vGroup(), [1, 1, 1, 1]) == Success(Irreducible(Series("A1", [1, 1, 1, 1])))
    ensures MatchRepresentation(C2vGroup(), [1, 1, 1, 1, 1]) == Failure(MatchRepresentationError)
  {
    C2vOrthogonal();
    MatchIrrep(C2vGroup(), 1);
  }

  /** 2 A1 + 2 B1 has characters (4, 0, 4, 0), and 2 A1 has (2, 2, 2, 2). */
  lemma C2vCombinationExample()
    ensures Combination(C2vTable().rows[1..], [2, 0, 2, 0], 4) == [4, 0, 4, 0]
    ensures Combination(C2vTable().rows[1..], [2, 0, 0, 0], 4) == [2, 2, 2, 2]
  {
    C2vCombination2020();
    C2vCombination2000();
  }

  lemma C2vCombination2020()
    ensures Combination(C2vTable().rows[1..], [2, 0, 2, 0], 4) == [4, 0, 4, 0]
  {
    var rows := C2vTable().rows[1..];
    assert rows == [[1, 1, 1, 1], [1, 1, -1, -1], [1, -1, 1, -1], [1, -1, -1, 1]];
    assert Combination(rows[4..], [], 4) == [0, 0, 0, 0];
    assert Combination(rows[3..], [0], 4) == [0, 0, 0, 0];
    assert Combination(rows[2..], [2, 0], 4) == [2, -2, 2, -2];
    assert Combination(rows[1..], [0, 2, 0], 4) == [2, -2, 2, -2];
  }

  lemma C2vCombination2000()
    ensures Combination(C2vTable().rows[1..], [2, 0, 0, 0], 4) == [2, 2, 2, 2]
  {
    var rows := C2vTable().rows[1..];
    assert rows == [[1, 1, 1, 1], [1, 1, -1, -1], [1, -1, 1, -1], [1, -1, -1, 1]];
    assert Combination(rows[4..], [], 4) == [0, 0, 0, 0];
    assert Combination(rows[3..], [0], 4) == [0, 0, 0, 0];
    assert Combination(rows[2..], [0, 0], 4) == [0, 0, 0, 0];
    assert Combination(rows[1..], [0, 0, 0], 4) == [0, 0, 0, 0];
  }

  /** (2, 2, 2, 2) matches no irreducible representation and reduces to 2 A1. */
  lemma C2vMatchReducibleExample()
    ensures MatchRepresentation(C2vGroup(), [2, 2, 2, 2]).Success?
    ensures MatchRepresentation(C2vGroup(), [2, 2, 2, 2]).value.Reducible?
    ensures MatchRepresentation(C2vGroup(), [2, 2, 2, 2]).value.reduced.appearances == [2, 0, 0, 0]
  {
    C2vOrthogonal();
    C2vCombinationExample();
    ReductionRecoversMultiplicities(C2vGroup(), [2, 0, 0, 0]);
    C2vNoRowIsDoubled();
  }

  lemma C2vNoRowIsDoubled()
    ensures FirstMatch(C2vTable().rows, [2, 2, 2, 2], 1) == None
  {
  }

  /** `show_matched_representation` prints "result = A1" for a list and "A1 = A1" for a Series named A1. */
  lemma C2vShowExample()
    ensures ShowMatchedRepresentation(C2vGroup(), [1, 1, 1, 1], None) ==
            Success(Reported("result = A1", Irreducible(Series("A1", [1, 1, 1, 1]))))
    ensures ShowMatchedRepresentation(C2vGroup(), [1, 1, 1, 1], Some("A1")) ==
            Success(Reported("A1 = A1", Irreducible(Series("A1", [1, 1, 1, 1]))))
  {
    C2vMatchIrreducibleExample();
    assert "result" + " = " + "A1" == "result = A1";
    assert "A1" + " = " + "A1" == "A1 = A1";
  }

  lemma C2vTwoFactorsMatched()
    ensures ConvolutionResults(C2vGroup(), "A1", "A2", []) ==
            Success(Reported("A1" + " × " + "A2" + " = " + "A2", Irreducible(Series("A2", [1, 1, -1, -1]))))
  {
    var t := C2vTable();
    assert t.index[1] == "A1" && t.index[2] == "A2";
    assert t.rows[1] == [1, 1, 1, 1] && t.rows[2] == [1, 1, -1, -1];
    assert Times([1, 1, 1, 1], [1, 1, -1, -1]) == [1, 1, -1, -1];
    C2vOrthogonal();
    ConvolutionResultsIrreducible(C2vGroup(), 1, 2, 2);
  }

  /** `convolution_results("A1", "A2")` prints "A1 × A2 = A2" and returns the A2 row. */
  lemma C2vConvolutionResultsExample()
    ensures ConvolutionResults(C2vGroup(), "A1", "A2", []) ==
            Success(Reported("A1 × A2 = A2", Irreducible(Series("A2", [1, 1, -1, -1]))))
  {
    C2vTwoFactorsMatched();
    C2vTwoFactorsLine();
  }

  lemma C2vTwoFactorsLine()
    ensures "A1" + " × " + "A2" + " = " + "A2" == "A1 × A2 = A2"
  {
  }

  lemma C2vThreeFactorsStep()
    ensures Convolution(C2vGroup(), "A1", "A2", ["B1"]).Success?
    ensures Convolution(C2vGroup(), "A1", "A2", ["B1"]).value.values ==
            Times(Convolution(C2vGroup(), "A1", "A2", []).value.values, RowOf(C2vGroup().table, "B1").value)
  {
    assert "A1" == C2vTable().index[1] && "A2" == C2vTable().index[2] && "B1" == C2vTable().index[3];
    assert [] + ["B1"] == ["B1"];
    ConvolutionExtend(C2vGroup(), "A1", "A2", [], "B1");
  }

  lemma C2vThreeFactorsProduct()
    ensures Convolution(C2vGroup(), "A1", "A2", ["B1"]).Success?
    ensures Convolution(C2vGroup(), "A1", "A2", ["B1"]).value.values == [1, -1, -1, 1]
  {
    C2vThreeFactorsStep();
    C2vRowB1();
    C2vConvolutionExample();
    C2vProductA2B1();
  }

  lemma C2vProductA2B1()
    ensures Times([1, 1, -1, -1], [1, -1, 1, -1]) == [1, -1, -1, 1]
  {
  }

  lemma C2vProductB2B2()
    ensures Times([1, -1, -1, 1], [1, -1, -1, 1]) == [1, 1, 1, 1]
  {
  }

  lemma C2vRowB1()
    ensures RowOf(C2vGroup().table, "B1") == Some([1, -1, 1, -1])
  {
    assert C2vTable().index[3] == "B1";
  }

  lemma C2vRowB2()
    ensures RowOf(C2vGroup().table, "B2") == Some([1, -1, -1, 1])
  {
    assert C2vTable().index[4] == "B2";
  }

  lemma C2vFourFactorsStep()
    ensures Convolution(C2vGroup(), "A1", "A2", ["B1", "B2"]).Success?
    ensures Convolution(C2vGroup(), "A1", "A2", ["B1", "B2"]).value.values ==
            Times(Convolution(C2vGroup(), "A1", "A2", ["B1"]).value.values, RowOf(C2vGroup().table, "B2").value)
  {
    assert "A1" == C2vTable().index[1] && "A2" == C2vTable().index[2];
    assert "B1" == C2vTable().index[3] && "B2" == C2vTable().index[4];
    assert ["B1"] + ["B2"] == ["B1", "B2"];
    ConvolutionExtend(C2vGroup(), "A1", "A2", ["B1"], "B2");
  }

  /** A1 × A2 × B1 × B2 has all characters 1. */
  lemma C2vFourFactorsProduct()
    ensures Convolution(C2vGroup(), "A1", "A2", ["B1", "B2"]).Success?
    ensures Convolution(C2vGroup(), "A1", "A2", ["B1", "B2"]).value.values == [1, 1, 1, 1]
  {
    C2vFourFactorsStep();
    C2vThreeFactorsProduct();
    C2vRowB2();
    C2vProductB2B2();
  }

  lemma C2vFourFactorsJoin()
    ensures Join(["A1", "A2"] + ["B1", "B2"], " × ") == "A1 × A2 × B1 × B2"
  {
    var parts := ["A1", "A2", "B1", "B2"];
    assert ["A1", "A2"] + ["B1", "B2"] == parts;
    assert parts[1..][1..][1..] == ["B2"];
    assert Join(parts[1..][1..], " × ") == "B1" + " × " + "B2";
    assert Join(parts[1..], " × ") == "A2" + " × " + ("B1" + " × " + "B2");
    assert Join(parts, " × ") == "A1" + " × " + ("A2" + " × " + ("B1" + " × " + "B2"));
  }

  lemma C2vFourFactorsMatched()
    ensures ConvolutionResults(C2vGroup(), "A1", "A2", ["B1", "B2"]) ==
            Success(Reported("A1 × A2 × B1 × B2" + " = " + "A1", Irreducible(Series("A1", [1, 1, 1, 1]))))
  {
    C2vFourFactorsProduct();
    C2vFourFactorsJoin();
    assert CorrectedConvolution(C2vGroup(), "A1", "A2", ["B1", "B2"]) ==
           Success(Series("A1 × A2 × B1 × B2", [1, 1, 1, 1]));
    C2vMatchIrreducibleExample();
  }

  /** `convolution_results("A1", "A2", "B1", "B2")` prints "A1 × A2 × B1 × B2 = A1" and returns the A1 row. */
  lemma C2vFourFactorsExample()
    ensures ConvolutionResults(C2vGroup(), "A1", "A2", ["B1", "B2"]) ==
            Success(Reported("A1 × A2 × B1 × B2 = A1", Irreducible(Series("A1", [1, 1, 1, 1]))))
  {
    C2vFourFactorsMatched();
    assert "A1 × A2 × B1 × B2" + " = " + "A1" == "A1 × A2 × B1 × B2 = A1";
  }

  /**
   * As written, the convolution of A1 and A2 is named "", so showing it
   * prints " = A2" without its factors; named after every factor, it
   * prints "A1 × A2 = A2".
   */
  lemma C2vConvolutionNameExample()
    ensures var product := Convolution(C2vGroup(), "A1", "A2", []).value;
            ShowMatchedRepresentation(C2vGroup(), product.values, Some(product.name)).value.line == " = A2"
    ensures var product := CorrectedConvolution(C2vGroup(), "A1", "A2", []).value;
            ShowMatchedRepresentation(C2vGroup(), product.values, Some(product.name)).value.line == "A1 × A2 = A2"
  {
    C2vUnnamedShown();
    C2vNamedShown();
  }

  lemma C2vA2Matched()
    ensures MatchRepresentation(C2vGroup(), [1, 1, -1, -1]) == Success(Irreducible(Series("A2", [1, 1, -1, -1])))
  {
    C2vOrthogonal();
    MatchIrrep(C2vGroup(), 2);
  }

  lemma C2vUnnamedShown()
    ensures ShowMatchedRepresentation(C2vGroup(), [1, 1, -1, -1], Some("")).value.line == " = A2"
    ensures Convolution(C2vGroup(), "A1", "A2", []).value == Series("", [1, 1, -1, -1])
  {
    C2vConvolutionExample();
    C2vA2Matched();
    C2vUnnamedLine();
  }

  lemma C2vUnnamedLine()
    ensures "" + " = " + "A2" == " = A2"
  {
  }

  lemma C2vNamedShown()
    ensures ShowMatchedRepresentation(C2vGroup(), [1, 1, -1, -1], Some("A1 × A2")).value.line == "A1 × A2 = A2"
    ensures CorrectedConvolution(C2vGroup(), "A1", "A2", []).value == Series("A1 × A2", [1, 1, -1, -1])
  {
    C2vNamedLine();
    C2vConvolutionExample();
    C2vJoinOfTwo();
  }

  lemma C2vNamedLine()
    ensures ShowMatchedRepresentation(C2vGroup(), [1, 1, -1, -1], Some("A1 × A2")).value.line == "A1 × A2 = A2"
  {
    C2vA2Matched();
    assert "A1 × A2" + " = " + "A2" == "A1 × A2 = A2";
  }

  lemma C2vJoinOfTwo()
    ensures Join(["A1", "A2"] + [], " × ") == "A1 × A2"
  {
    assert ["A1", "A2"] + [] == ["A1", "A2"];
    assert Join(["A1", "A2"], " × ") == "A1 × A2";
  }
}
