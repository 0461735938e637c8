/**
 * The pieces of Python's string handling that the molfile parsers rely on:
 * `str.split(' ')`, `sep.join(...)`, the `if i` filter that drops empty
 * pieces, `int(...)` on a token, `str(...)` of an integer, and slicing and
 * indexing of lists with Python's clamping and negative-index rules.
 */
module Text {
  import opened Wrappers

  /** Joining pieces with a separator string, as Python's `sep.join(parts)`. */
  function Join(parts: seq<string>, sep: string): string
  {
    if |parts| == 0 then ""
    else if |parts| == 1 then parts[0]
    else parts[0] + sep + Join(parts[1..], sep)
  }

  /**
   * Python's `s.split(sep)` for a one-character separator: cuts at every
   * occurrence, so consecutive separators give empty pieces and there is
   * always one piece more than there are separators.
   */
  function Split(s: string, sep: char): (pieces: seq<string>)
    ensures |pieces| >= 1
  {
    if s == [] then [""]
    else
      var rest := Split(s[1..], sep);
      if s[0] == sep then [""] + rest else [[s[0]] + rest[0]] + rest[1..]
  }

  /** The pieces hold no separator, there is one more of them than separators, and joined back they give `s`. */
  lemma {:induction false} SplitFacts(s: string, sep: char)
    ensures |Split(s, sep)| == Occurrences(s, sep) + 1
    ensures forall i :: 0 <= i < |Split(s, sep)| ==> sep !in Split(s, sep)[i]
    ensures Join(Split(s, sep), [sep]) == s
  {
    if s != [] {
      SplitFacts(s[1..], sep);
      var rest := Split(s[1..], sep);
      if s[0] == sep {
        assert ([""] + rest)[1..] == rest;
        assert s == [sep] + s[1..];
      } else {
        var pieces := [[s[0]] + rest[0]] + rest[1..];
        assert pieces[1..] == rest[1..];
        forall i | 1 <= i < |pieces|
          ensures sep !in pieces[i]
        {
          assert pieces[i] == rest[i];
        }
        if |rest| == 1 {
          assert s == [s[0]] + s[1..];
        } else {
          assert Join(rest, [sep]) == rest[0] + [sep] + Join(rest[1..], [sep]);
          assert s == [s[0]] + s[1..];
        }
      }
    }
  }

  /** Number of occurrences of `c` in `s`. */
  function Occurrences(s: string, c: char): nat
  {
    if s == [] then 0 else (if s[0] == c then 1 else 0) + Occurrences(s[1..], c)
  }

  /** The comprehension `[p for p in parts if p]`: the non-empty pieces, in order. */
  function NonEmpty(parts: seq<string>): (r: seq<string>)
  {
    if parts == [] then []
    else if parts[0] == "" then NonEmpty(parts[1..])
    else [parts[0]] + NonEmpty(parts[1..])
  }

  /** The comprehension keeps exactly the non-empty pieces. */
  lemma {:induction false} NonEmptyFacts(parts: seq<string>)
    ensures |NonEmpty(parts)| <= |parts|
    ensures forall i :: 0 <= i < |NonEmpty(parts)| ==> NonEmpty(parts)[i] != "" && NonEmpty(parts)[i] in parts
    ensures forall p :: p in parts && p != "" ==> p in NonEmpty(parts)
  {
    if parts != [] {
      NonEmptyFacts(parts[1..]);
      assert parts == [parts[0]] + parts[1..];
    }
  }

  /** The whitespace-separated fields of a line, as `[t for t in line.split(' ') if t]`. */
  function Tokens(line: string): (r: seq<string>)
  {
    NonEmpty(Split(line, ' '))
  }

  /** Every field is non-empty and holds no space. */
  lemma TokensAreWords(line: string)
    ensures forall i :: 0 <= i < |Tokens(line)| ==> Tokens(line)[i] != "" && ' ' !in Tokens(line)[i]
  {
    SplitFacts(line, ' ');
    NonEmptyFacts(Split(line, ' '));
    forall i | 0 <= i < |Tokens(line)|
      ensures ' ' !in Tokens(line)[i]
    {
      var j :| 0 <= j < |Split(line, ' ')| && Split(line, ' ')[j] == Tokens(line)[i];
    }
  }

  /** Words without spaces, joined by single spaces, are the fields of the line they make. */
  lemma {:induction false} TokensOfJoin(words: seq<string>)
    requires forall i :: 0 <= i < |words| ==> words[i] != "" && ' ' !in words[i]
    ensures Tokens(Join(words, " ")) == words
  {
    if |words| <= 1 {
      if |words| == 1 {
        var w := words[0];
        assert Join(words, " ") == w;
        SplitFree(w, ' ');
        assert [w][1..] == [];
        assert NonEmpty([w]) == [w] + NonEmpty([]);
      }
    } else {
      TokensOfJoin(words[1..]);
      SplitFree(words[0], ' ');
      SplitAppend(words[0], Join(words[1..], " "), ' ');
      calc {
        Tokens(Join(words, " "));
        NonEmpty(Split(words[0] + " " + Join(words[1..], " "), ' '));
        NonEmpty([words[0]] + Split(Join(words[1..], " "), ' '));
        { assert ([words[0]] + Split(Join(words[1..], " "), ' '))[1..] == Split(Join(words[1..], " "), ' '); }
        [words[0]] + Tokens(Join(words[1..], " "));
        [words[0]] + words[1..];
        words;
      }
    }
  }

  /** A string without the separator splits into itself alone. */
  lemma {:induction false} SplitFree(w: string, sep: char)
    requires sep !in w
    ensures Split(w, sep) == [w]
  {
    if w != [] {
      SplitFree(w[1..], sep);
      assert [w[0]] + w[1..] == w;
    }
  }

  /** Splitting a separator-free word followed by the separator and a tail. */
  lemma {:induction false} SplitAppend(w: string, tail: string, sep: char)
    requires sep !in w
    ensures Split(w + [sep] + tail, sep) == [w] + Split(tail, sep)
  {
    if w == [] {
      assert w + [sep] + tail == [sep] + tail;
      assert ([sep] + tail)[1..] == tail;
    } else {
      var s := w + [sep] + tail;
      assert s[1..] == w[1..] + [sep] + tail;
      SplitAppend(w[1..], tail, sep);
      assert [w[0]] + w[1..] == w;
    }
  }

  /** The characters Python's `int()` strips around a number (the ASCII ones). */
  predicate IsSpace(c: char)
  {
    c == ' ' || 9 <= c as int <= 13 || 28 <= c as int <= 31
  }

  predicate IsDigit(c: char)
  {
    '0' <= c <= '9'
  }

  function StripLeft(s: string): (r: string)
  {
    if |s| > 0 && IsSpace(s[0]) then StripLeft(s[1..]) else s
  }

  function StripRight(s: string): (r: string)
  {
    if |s| > 0 && IsSpace(s[|s| - 1]) then StripRight(s[..|s| - 1]) else s
  }

  /** Python's `s.strip()`, restricted to ASCII whitespace. */
  function Strip(s: string): string
  {
    StripRight(StripLeft(s))
  }

  /**
   * The digit part of a base-10 literal as Python's `int()` accepts it:
   * digits, with single underscores allowed between two digits.
   */
  predicate Grouped(s: string)
  {
    |s| > 0 && IsDigit(s[0]) &&
    (|s| == 1 || (if s[1] == '_' then Grouped(s[2..]) else Grouped(s[1..])))
  }

  function DigitValue(c: char): int
  {
    c as int - '0' as int
  }

  /** Value of the digits of `s` (underscores skipped) appended to `acc`. */
  function DigitsValue(s: string, acc: int): int
  {
    if s == [] then acc
    else if s[0] == '_' then DigitsValue(s[1..], acc)
    else DigitsValue(s[1..], acc * 10 + DigitValue(s[0]))
  }

  /**
   * Python's `int(token)` in base 10: surrounding whitespace is ignored, an
   * optional sign may precede the digits, and anything else is a ValueError,
   * here `None`.
   */
  function ParseInt(token: string): Option<int>
  {
    ParseStripped(Strip(token))
  }

  /** `int()` once the surrounding whitespace is gone: an optional sign, then grouped digits. */
  function ParseStripped(t: string): Option<int>
  {
    if |t| > 0 && (t[0] == '-' || t[0] == '+') then
      if Grouped(t[1..]) then
        Some(if t[0] == '-' then -DigitsValue(t[1..], 0) else DigitsValue(t[1..], 0))
      else None
    else if Grouped(t) then Some(DigitsValue(t, 0))
    else None
  }

  lemma {:induction false} GroupedOnlyDigits(s: string, c: char)
    requires Grouped(s) && c in s
    ensures IsDigit(c) || c == '_'
  {
    if s[0] != c {
      if s[1] == '_' {
        if c != '_' {
          assert c in s[2..] by { assert s == s[..2] + s[2..]; }
          GroupedOnlyDigits(s[2..], c);
        }
      } else {
        assert c in s[1..] by { assert s == [s[0]] + s[1..]; }
        GroupedOnlyDigits(s[1..], c);
      }
    }
  }

  /** A token holding a character that is neither whitespace, a sign, a digit nor `_` is not an integer. */
  lemma ParseIntRejects(token: string, c: char)
    requires c in token && !IsSpace(c) && !IsDigit(c) && c !in "+-_"
    ensures ParseInt(token) == None
  {
    StripLeftKeeps(token, c);
    StripRightKeeps(StripLeft(token), c);
    StrippedRejects(Strip(token), c);
  }

  lemma StrippedRejects(t: string, c: char)
    requires c in t && !IsDigit(c) && c !in "+-_"
    ensures ParseStripped(t) == None
  {
    if t[0] == '-' || t[0] == '+' {
      assert c in t[1..] by { assert t == [t[0]] + t[1..]; }
      if Grouped(t[1..]) {
        GroupedOnlyDigits(t[1..], c);
      }
    } else if Grouped(t) {
      GroupedOnlyDigits(t, c);
    }
  }

  lemma {:induction false} StripLeftKeeps(s: string, c: char)
    requires c in s && !IsSpace(c)
    ensures c in StripLeft(s)
  {
    if IsSpace(s[0]) {
      assert c in s[1..] by { assert s == [s[0]] + s[1..]; }
      StripLeftKeeps(s[1..], c);
    }
  }

  lemma {:induction false} StripRightKeeps(s: string, c: char)
    requires c in s && !IsSpace(c)
    ensures c in StripRight(s)
  {
    if IsSpace(s[|s| - 1]) {
      assert c in s[..|s| - 1] by { assert s == s[..|s| - 1] + [s[|s| - 1]]; }
      StripRightKeeps(s[..|s| - 1], c);
    }
  }

  function DigitChar(d: int): char
    requires 0 <= d < 10
  {
    ('0' as int + d) as char
  }

  /** `str(n)` for a natural number: its decimal digits, most significant first. */
  function NatToString(n: nat): (s: string)
    ensures |s| >= 1
  {
    if n < 10 then [DigitChar(n)] else NatToString(n / 10) + [DigitChar(n % 10)]
  }

  lemma {:induction false} NatToStringDigits(n: nat)
    ensures forall i :: 0 <= i < |NatToString(n)| ==> IsDigit(NatToString(n)[i])
  {
    if n >= 10 {
      NatToStringDigits(n / 10);
    }
  }

  /** `str(i)` for any integer: a minus sign in front of the digits of a negative one. */
  function IntToString(i: int): string
  {
    if i < 0 then "-" + NatToString(-i) else NatToString(i)
  }

  /** A printed integer is a single non-empty field. */
  lemma PrintedIsWord(v: int)
    ensures IntToString(v) != "" && ' ' !in IntToString(v)
  {
    var s := NatToString(if v < 0 then -v else v);
    NatToStringDigits(if v < 0 then -v else v);
    assert forall i :: 0 <= i < |s| ==> s[i] != ' ';
    if v < 0 {
      assert IntToString(v) == "-" + s;
      assert forall i :: 0 <= i < |"-" + s| ==> ("-" + s)[i] != ' ';
    }
  }

  lemma {:induction false} DigitsValueAppend(a: string, b: string, acc: int)
    ensures DigitsValue(a + b, acc) == DigitsValue(b, DigitsValue(a, acc))
  {
    if a != [] {
      assert (a + b)[1..] == a[1..] + b;
      DigitsValueAppend(a[1..], b, if a[0] == '_' then acc else acc * 10 + DigitValue(a[0]));
    } else {
      assert a + b == b;
    }
  }

  lemma {:induction false} DigitsValueOfNat(n: nat)
    ensures DigitsValue(NatToString(n), 0) == n
  {
    if n >= 10 {
      DigitsValueOfNat(n / 10);
      DigitsValueAppend(NatToString(n / 10), [DigitChar(n % 10)], 0);
    }
  }

  lemma {:induction false} AllDigitsGrouped(s: string)
    requires |s| > 0 && forall i :: 0 <= i < |s| ==> IsDigit(s[i])
    ensures Grouped(s)
  {
    if |s| > 1 {
      AllDigitsGrouped(s[1..]);
    }
  }

  /** `int(str(i)) == i`: reading back a printed integer gives the integer. */
  lemma ParseIntOfIntToString(i: int)
    ensures ParseInt(IntToString(i)) == Some(i)
  {
    var s := IntToString(i);
    if i < 0 {
      assert s == "-" + NatToString(-i);
      ParseIntOfNegative(-i);
    } else {
      assert s == NatToString(i);
      ParseIntOfNat(i);
    }
  }

  lemma ParseIntOfNat(n: nat)
    ensures ParseInt(NatToString(n)) == Some(n)
  {
    var s := NatToString(n);
    NatToStringDigits(n);
    DigitsValueOfNat(n);
    AllDigitsGrouped(s);
    ParseIntOfDigits(s, n);
  }

  lemma ParseIntOfNegative(n: int)
    requires n > 0
    ensures ParseInt("-" + NatToString(n)) == Some(-n)
  {
    var s := NatToString(n);
    NatToStringDigits(n);
    DigitsValueOfNat(n);
    AllDigitsGrouped(s);
    NegativeDigits(s, n);
  }

  /** `int()` of a string of grouped digits is their value. */
  lemma ParseIntOfDigits(s: string, value: int)
    requires Grouped(s) && !IsSpace(s[|s| - 1]) && DigitsValue(s, 0) == value
    ensures ParseInt(s) == Some(value)
  {
    StripUnchanged(s);
  }

  /** `int()` of a minus sign followed by grouped digits is minus their value. */
  lemma NegativeDigits(digits: string, value: int)
    requires Grouped(digits) && !IsSpace(digits[|digits| - 1]) && DigitsValue(digits, 0) == value
    ensures ParseInt("-" + digits) == Some(-value)
  {
    var s := "-" + digits;
    assert s[|s| - 1] == digits[|digits| - 1];
    StripUnchanged(s);
    NegativeStripped(digits);
  }

  lemma NegativeStripped(digits: string)
    requires Grouped(digits)
    ensures ParseStripped("-" + digits) == Some(-DigitsValue(digits, 0))
  {
    assert ("-" + digits)[1..] == digits;
  }

  /** A string that neither starts nor ends with whitespace is its own `strip()`. */
  lemma StripUnchanged(s: string)
    requires |s| > 0 && !IsSpace(s[0]) && !IsSpace(s[|s| - 1])
    ensures Strip(s) == s
  {
    assert StripLeft(s) == s;
  }

  /** Python's clamping of a slice bound `k` against a list of length `n`. */
  function Clamp(k: int, n: nat): (r: nat)
    ensures r <= n
    ensures 0 <= k <= n ==> r == k
  {
    if k < 0 then (if k + n < 0 then 0 else k + n) else if k > n then n else k
  }

  /** Python's `xs[lo:hi]`, including negative and out-of-range bounds. */
  function Slice<T>(xs: seq<T>, lo: int, hi: int): (r: seq<T>)
    ensures 0 <= lo <= hi <= |xs| ==> r == xs[lo..hi]
    ensures |r| <= |xs|
    ensures lo <= hi ==> |r| <= hi - lo
  {
    var a := Clamp(lo, |xs|);
    var b := Clamp(hi, |xs|);
    if a <= b then xs[a..b] else []
  }

  /** A slice from a non-negative start holds the elements from there on, and is as long as asked only when they exist. */
  lemma SliceFrom<T>(xs: seq<T>, lo: nat, n: nat)
    ensures Slice(xs, lo, lo + n) == if lo + n <= |xs| then xs[lo..lo + n] else if lo <= |xs| then xs[lo..] else []
  {
  }

  /** The comprehension `[f(x) for x in xs]`. */
  function Map<A, B>(f: A -> B, xs: seq<A>): (r: seq<B>)
    ensures |r| == |xs|
  {
    if xs == [] then [] else [f(xs[0])] + Map(f, xs[1..])
  }

  /** Each element of the comprehension is `f` of the element at its place. */
  lemma {:induction false} MapAt<A, B>(f: A -> B, xs: seq<A>, i: nat)
    requires i < |xs|
    ensures Map(f, xs)[i] == f(xs[i])
  {
    if i > 0 {
      MapAt(f, xs[1..], i - 1);
    }
  }

  /** Mapping a slice gives the slice of the mapped list. */
  lemma MapSlice<A, B>(f: A -> B, xs: seq<A>, lo: int, hi: int)
    ensures Map(f, Slice(xs, lo, hi)) == Slice(Map(f, xs), lo, hi)
  {
    var a := Clamp(lo, |xs|);
    var b := Clamp(hi, |xs|);
    if a <= b {
      forall i | 0 <= i < b - a
        ensures Map(f, xs[a..b])[i] == Map(f, xs)[a + i]
      {
        MapAt(f, xs[a..b], i);
        MapAt(f, xs, a + i);
      }
    }
  }

  /** Python's `xs[k]`: negative `k` counts from the end; out of range is an IndexError, here `None`. */
  function Index<T>(xs: seq<T>, k: int): (r: Option<T>)
    ensures r.Some? <==> -|xs| <= k < |xs|
    ensures 0 <= k < |xs| ==> r == Some(xs[k])
    ensures -|xs| <= k < 0 ==> r == Some(xs[|xs| + k])
  {
    if 0 <= k < |xs| then Some(xs[k])
    else if -|xs| <= k < 0 then Some(xs[|xs| + k])
    else None
  }
}
