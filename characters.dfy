/**
 * Character tables as values, and the algebra the reduction formula rests on.
 *
 * A table stores its point group's name in `index[0]` and, in `rows[0]`, the
 * number of symmetry operations in each class; for r >= 1, row r holds the
 * characters of the irreducible representation labelled `index[r]`.
 */
module Characters {

  datatype Table = Table(index: seq<string>, rows: seq<seq<int>>)

  function Sum(s: seq<int>): int
  {
    if |s| == 0 then 0 else s[0] + Sum(s[1..])
  }

  /** The class-weighted inner product: the sum over classes c of x[c] * g[c] * y[c]. */
  function Inner(g: seq<int>, x: seq<int>, y: seq<int>): int
  {
    if |g| == 0 || |x| == 0 || |y| == 0 then 0
    else x[0] * g[0] * y[0] + Inner(g[1..], x[1..], y[1..])
  }

  /**
   * The shape every table of the program has: a name and a multiplicity row
   * plus at least one irreducible representation, rows as long as the
   * multiplicity row, positive multiplicities, and no label used twice.
   */
  predicate WellFormed(t: Table)
  {
    && |t.rows| >= 2
    && |t.index| == |t.rows|
    && |t.rows[0]| >= 1
    && (forall r :: 0 <= r < |t.rows| ==> |t.rows[r]| == |t.rows[0]|)
    && (forall c :: 0 <= c < |t.rows[0]| ==> t.rows[0][c] >= 1)
    && (forall r, s :: 0 <= r < s < |t.index| ==> t.index[r] != t.index[s])
  }

  /** The order of the group: the total number of symmetry operations. */
  function Order(t: Table): (h: int)
    requires WellFormed(t)
    ensures h >= |t.rows[0]|
  {
    PositiveSum(t.rows[0]);
    Sum(t.rows[0])
  }

  lemma {:induction false} PositiveSum(s: seq<int>)
    requires forall c :: 0 <= c < |s| ==> s[c] >= 1
    ensures Sum(s) >= |s|
  {
    if s != [] {
      PositiveSum(s[1..]);
    }
  }

  /**
   * The orthogonality relations of the irreducible characters: the weighted
   * inner product of rows r and s (both irreducible) is the group order when
   * r == s and zero otherwise.
   */
  predicate Orthogonal(t: Table)
    requires WellFormed(t)
  {
    forall r, s :: 1 <= r < |t.rows| && 1 <= s < |t.rows| ==>
      Inner(t.rows[0], t.rows[r], t.rows[s]) == (if r == s then Order(t) else 0)
  }

  /**
   * Well formed, named `name`, with exactly as many irreducible
   * representations as classes, as a character table of a finite group has,
   * and with the character of the identity class (the dimension of the
   * representation) 1, 2 or 3 in every irreducible row.
   */
  predicate Standard(t: Table, name: string)
  {
    && WellFormed(t)
    && t.index[0] == name
    && |t.rows| - 1 == |t.rows[0]|
    && (forall r :: 1 <= r < |t.rows| ==> 1 <= t.rows[r][0] <= 3)
  }

  lemma {:induction false} InnerSymmetric(g: seq<int>, x: seq<int>, y: seq<int>)
    ensures Inner(g, x, y) == Inner(g, y, x)
  {
    if |g| != 0 && |x| != 0 && |y| != 0 {
      InnerSymmetric(g[1..], x[1..], y[1..]);
    }
  }

  // A table is checked row by row: each irreducible row has norm `h` and is
  // orthogonal to every later row. The check is a recursive predicate on the
  // literal rows, which the verifier can evaluate.

  /** Every row of `rows` is orthogonal to `x`. */
  predicate Zeros(g: seq<int>, x: seq<int>, rows: seq<seq<int>>)
  {
    |rows| == 0 || (Inner(g, x, rows[0]) == 0 && Zeros(g, x, rows[1..]))
  }

  /** Every row has norm `h` and is orthogonal to the rows after it. */
  predicate Triangle(g: seq<int>, h: int, rows: seq<seq<int>>)
  {
    |rows| == 0 || (Inner(g, rows[0], rows[0]) == h && Zeros(g, rows[0], rows[1..]) && Triangle(g, h, rows[1..]))
  }

  /**
   * The rows of `front` have norm `h`, and each is orthogonal to the rows
   * after it in `front` and to every row of `back`: with `Triangle(g, h,
   * back)` this checks `front + back` in two parts.
   */
  predicate Leading(g: seq<int>, h: int, front: seq<seq<int>>, back: seq<seq<int>>)
  {
    |front| == 0 ||
    (Inner(g, front[0], front[0]) == h && Zeros(g, front[0], front[1..]) && Zeros(g, front[0], back)
     && Leading(g, h, front[1..], back))
  }

  lemma {:induction false} ZerosAppend(g: seq<int>, x: seq<int>, a: seq<seq<int>>, b: seq<seq<int>>)
    requires Zeros(g, x, a) && Zeros(g, x, b)
    ensures Zeros(g, x, a + b)
  {
    if |a| == 0 {
      assert a + b == b;
    } else {
      assert (a + b)[1..] == a[1..] + b;
      ZerosAppend(g, x, a[1..], b);
    }
  }

  lemma {:induction false} TriangleAppend(g: seq<int>, h: int, front: seq<seq<int>>, back: seq<seq<int>>)
    requires Leading(g, h, front, back) && Triangle(g, h, back)
    ensures Triangle(g, h, front + back)
  {
    if |front| == 0 {
      assert front + back == back;
    } else {
      assert (front + back)[1..] == front[1..] + back;
      ZerosAppend(g, front[0], front[1..], back);
      TriangleAppend(g, h, front[1..], back);
    }
  }

  lemma {:induction false} ZerosSound(g: seq<int>, x: seq<int>, rows: seq<seq<int>>)
    requires Zeros(g, x, rows)
    ensures forall j :: 0 <= j < |rows| ==> Inner(g, x, rows[j]) == 0
  {
    if |rows| != 0 {
      ZerosSound(g, x, rows[1..]);
      assert forall j :: 1 <= j < |rows| ==> rows[j] == rows[1..][j - 1];
    }
  }

  lemma {:induction false} TriangleSound(g: seq<int>, h: int, rows: seq<seq<int>>)
    requires Triangle(g, h, rows)
    ensures forall i, j :: 0 <= i < |rows| && 0 <= j < |rows| ==>
      Inner(g, rows[i], rows[j]) == (if i == j then h else 0)
  {
    if |rows| != 0 {
      TriangleSound(g, h, rows[1..]);
      ZerosSound(g, rows[0], rows[1..]);
      forall i, j | 0 <= i < |rows| && 0 <= j < |rows|
        ensures Inner(g, rows[i], rows[j]) == (if i == j then h else 0)
      {
        if i == 0 && j > 0 {
          assert rows[j] == rows[1..][j - 1];
        } else if j == 0 && i > 0 {
          assert rows[i] == rows[1..][i - 1];
          InnerSymmetric(g, rows[i], rows[0]);
        } else if i > 0 {
          assert rows[i] == rows[1..][i - 1] && rows[j] == rows[1..][j - 1];
        }
      }
    }
  }

  /** A table whose irreducible rows pass the row-by-row check is orthogonal. */
  lemma TriangleOrthogonal(t: Table)
    requires WellFormed(t) && Triangle(t.rows[0], Order(t), t.rows[1..])
    ensures Orthogonal(t)
  {
    TriangleSound(t.rows[0], Order(t), t.rows[1..]);
    forall r, s | 1 <= r < |t.rows| && 1 <= s < |t.rows|
      ensures Inner(t.rows[0], t.rows[r], t.rows[s]) == (if r == s then Order(t) else 0)
    {
      assert t.rows[r] == t.rows[1..][r - 1] && t.rows[s] == t.rows[1..][s - 1];
    }
  }

  // Direct products with inversion (or a reflection): the table of G x Ci
  // repeats each character of G on the new classes (the g representations)
  // and repeats it negated (the u representations). The new classes may be
  // listed in another order than the old ones; `p` gives, for each new class,
  // the old class it copies.

  /** `p` lists each of 0 .. |p|-1 exactly once. */
  predicate IsPermutation(p: seq<int>)
  {
    && (forall c :: 0 <= c < |p| ==> 0 <= p[c] < |p|)
    && (forall c, d :: 0 <= c < d < |p| ==> p[c] != p[d])
  }

  /**
   * `t` is the table of the direct product of the group of `base` with a
   * group of order 2: its class row is the base class row followed by the
   * same classes in the order `p`, its first irreducible rows are the base
   * rows each followed by its permuted copy, and its last ones are the base
   * rows each followed by its permuted copy negated.
   */
  predicate InversionProduct(t: Table, base: Table, p: seq<int>)
    requires WellFormed(base)
  {
    && |p| == |base.rows[0]|
    && IsPermutation(p)
    && |t.rows| == 2 * |base.rows| - 1
    && t.rows[0] == base.rows[0] + Permuted(base.rows[0], p)
    && (forall r :: 1 <= r < |base.rows| ==>
          && t.rows[r] == base.rows[r] + Half(base.rows[r], p, false)
          && t.rows[|base.rows| - 1 + r] == base.rows[r] + Half(base.rows[r], p, true))
  }

  function Permuted(x: seq<int>, p: seq<int>): (r: seq<int>)
    requires forall c :: 0 <= c < |p| ==> 0 <= p[c] < |x|
    ensures |r| == |p| && forall c :: 0 <= c < |p| ==> r[c] == x[p[c]]
  {
    seq(|p|, c requires 0 <= c < |p| => x[p[c]])
  }

  function Negated(x: seq<int>): (r: seq<int>)
    ensures |r| == |x| && forall c :: 0 <= c < |x| ==> r[c] == -x[c]
  {
    seq(|x|, c requires 0 <= c < |x| => -x[c])
  }

  /** The termwise products that `Inner` adds up. */
  function Products(g: seq<int>, x: seq<int>, y: seq<int>): (r: seq<int>)
    requires |x| == |g| && |y| == |g|
    ensures |r| == |g| && forall c :: 0 <= c < |g| ==> r[c] == x[c] * g[c] * y[c]
  {
    seq(|g|, c requires 0 <= c < |g| => x[c] * g[c] * y[c])
  }

  lemma {:induction false} SumAppend(a: seq<int>, b: seq<int>)
    ensures Sum(a + b) == Sum(a) + Sum(b)
  {
    if |a| == 0 {
      assert a + b == b;
    } else {
      assert (a + b)[1..] == a[1..] + b;
      SumAppend(a[1..], b);
    }
  }

  /**
   * Adding up the same numbers in another order: `a` lists the entries of
   * `b` through the one-to-one index map `p`.
   */
  lemma {:induction false} SumReindexed(a: seq<int>, b: seq<int>, p: seq<int>)
    requires |a| == |b| == |p|
    requires forall c :: 0 <= c < |p| ==> 0 <= p[c] < |b| && a[c] == b[p[c]]
    requires forall c, d :: 0 <= c < d < |p| ==> p[c] != p[d]
    ensures Sum(a) == Sum(b)
    decreases |a|
  {
    if |a| != 0 {
      var n := |a| - 1;
      var j := p[n];
      var rest := b[..j] + b[j + 1..];
      var q := seq(n, c requires 0 <= c < n => if p[c] < j then p[c] else p[c] - 1);
      forall c | 0 <= c < n
        ensures 0 <= q[c] < |rest| && a[c] == rest[q[c]]
      {
        assert p[c] != p[n];
      }
      forall c, d | 0 <= c < d < n
        ensures q[c] != q[d]
      {
        assert p[c] != p[n] && p[d] != p[n];
      }
      SumReindexed(a[..n], rest, q);
      assert a == a[..n] + [a[n]];
      SumAppend(a[..n], [a[n]]);
      assert b == b[..j] + ([b[j]] + b[j + 1..]);
      SumAppend(b[..j], [b[j]] + b[j + 1..]);
      SumAppend(b[..j], b[j + 1..]);
    }
  }

  lemma {:induction false} InnerIsSum(g: seq<int>, x: seq<int>, y: seq<int>)
    requires |x| == |g| && |y| == |g|
    ensures Inner(g, x, y) == Sum(Products(g, x, y))
  {
    if |g| != 0 {
      InnerIsSum(g[1..], x[1..], y[1..]);
      assert Products(g, x, y)[1..] == Products(g[1..], x[1..], y[1..]);
    }
  }

  /** Listing the classes in another order does not change an inner product. */
  lemma InnerPermuted(g: seq<int>, x: seq<int>, y: seq<int>, p: seq<int>)
    requires |x| == |g| && |y| == |g| && |p| == |g| && IsPermutation(p)
    ensures Inner(Permuted(g, p), Permuted(x, p), Permuted(y, p)) == Inner(g, x, y)
  {
    InnerIsSum(g, x, y);
    InnerIsSum(Permuted(g, p), Permuted(x, p), Permuted(y, p));
    SumReindexed(Products(Permuted(g, p), Permuted(x, p), Permuted(y, p)), Products(g, x, y), p);
  }

  lemma {:induction false} InnerAppend(g: seq<int>, x: seq<int>, y: seq<int>, g': seq<int>, x': seq<int>, y': seq<int>)
    requires |x| == |g| && |y| == |g|
    ensures Inner(g + g', x + x', y + y') == Inner(g, x, y) + Inner(g', x', y')
  {
    if |g| == 0 {
      assert g + g' == g' && x + x' == x' && y + y' == y';
    } else {
      assert (g + g')[1..] == g[1..] + g';
      assert (x + x')[1..] == x[1..] + x';
      assert (y + y')[1..] == y[1..] + y';
      InnerAppend(g[1..], x[1..], y[1..], g', x', y');
    }
  }

  lemma {:induction false} InnerNegated(g: seq<int>, x: seq<int>, y: seq<int>)
    ensures Inner(g, Negated(x), y) == -Inner(g, x, y)
    ensures Inner(g, x, Negated(y)) == -Inner(g, x, y)
  {
    if |g| != 0 && |x| != 0 && |y| != 0 {
      assert Negated(x)[1..] == Negated(x[1..]);
      assert Negated(y)[1..] == Negated(y[1..]);
      InnerNegated(g[1..], x[1..], y[1..]);
    }
  }

  /** The second half of a row of an inversion product: the row permuted, and negated for a u representation. */
  function Half(x: seq<int>, p: seq<int>, negate: bool): (r: seq<int>)
    requires forall c :: 0 <= c < |p| ==> 0 <= p[c] < |x|
    ensures |r| == |p|
    ensures forall c :: 0 <= c < |p| ==> r[c] == if negate then -x[p[c]] else x[p[c]]
  {
    if negate then Negated(Permuted(x, p)) else Permuted(x, p)
  }

  /**
   * Row `r` of an inversion product is a row of the base table followed by
   * its second half.
   */
  lemma ProductOrder(t: Table, base: Table, p: seq<int>)
    requires WellFormed(t) && WellFormed(base) && InversionProduct(t, base, p)
    ensures Order(t) == 2 * Order(base)
  {
    var g := base.rows[0];
    assert t.rows[0] == g + Permuted(g, p);
    SumAppend(g, Permuted(g, p));
    SumReindexed(Permuted(g, p), g, p);
  }

  /**
   * The inner product of two rows of an inversion product: twice that of the
   * base rows they repeat when both are g or both are u representations, and
   * zero otherwise.
   */
  lemma HalvesInner(g: seq<int>, x: seq<int>, y: seq<int>, p: seq<int>, negateX: bool, negateY: bool)
    requires |x| == |g| && |y| == |g| && |p| == |g| && IsPermutation(p)
    ensures Inner(g + Permuted(g, p), x + Half(x, p, negateX), y + Half(y, p, negateY))
      == (if negateX == negateY then 2 * Inner(g, x, y) else 0)
  {
    var gp, xp, yp := Permuted(g, p), Permuted(x, p), Permuted(y, p);
    InnerPermuted(g, x, y, p);
    InnerAppend(g, x, y, gp, Half(x, p, negateX), Half(y, p, negateY));
    InnerNegated(gp, xp, yp);
    InnerNegated(gp, Negated(xp), yp);
  }

  /** The orthogonality relations carry over from a table to its product with inversion. */
  lemma ProductOrthogonal(t: Table, base: Table, p: seq<int>)
    requires WellFormed(t) && WellFormed(base) && Orthogonal(base)
    requires InversionProduct(t, base, p)
    ensures Orthogonal(t)
  {
    var k := |base.rows| - 1;
    var g := base.rows[0];
    ProductOrder(t, base, p);
    assert t.rows[0] == g + Permuted(g, p);
    forall r, s | 1 <= r < |t.rows| && 1 <= s < |t.rows|
      ensures Inner(t.rows[0], t.rows[r], t.rows[s]) == (if r == s then Order(t) else 0)
    {
      var r' := if r <= k then r else r - k;
      var s' := if s <= k then s else s - k;
      assert t.rows[r] == base.rows[r'] + Half(base.rows[r'], p, r > k);
      assert t.rows[s] == base.rows[s'] + Half(base.rows[s'], p, s > k);
      HalvesInner(g, base.rows[r'], base.rows[s'], p, r > k, s > k);
    }
  }
}
