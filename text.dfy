/** String helpers used by `Camera.list_devices`: Python's ordering of `str` (what
    `sorted` uses on the globbed paths), `int()` on the decimal suffix of a device
    path, and the `f"{w}x{h}"` resolution string. */
module Text {
  import opened Wrappers

  // ---------------------------------------------------------------------------
  // Python's order on str: code point by code point, a proper prefix first
  // ---------------------------------------------------------------------------

  predicate LexLe(a: string, b: string)
  {
    a == [] || (b != [] && (a[0] < b[0] || (a[0] == b[0] && LexLe(a[1..], b[1..]))))
  }

  lemma {:induction false} LexLeReflexive(a: string)
    ensures LexLe(a, a)
  {
    if a != [] { LexLeReflexive(a[1..]); }
  }

  lemma {:induction false} LexLeTotal(a: string, b: string)
    ensures LexLe(a, b) || LexLe(b, a)
  {
    if a != [] && b != [] && a[0] == b[0] { LexLeTotal(a[1..], b[1..]); }
  }

  lemma {:induction false} LexLeAntisymmetric(a: string, b: string)
    requires LexLe(a, b) && LexLe(b, a)
    ensures a == b
  {
    if a != [] && b != [] {
      LexLeAntisymmetric(a[1..], b[1..]);
      assert a == [a[0]] + a[1..] && b == [b[0]] + b[1..];
    }
  }

  lemma {:induction false} LexLeTransitive(a: string, b: string, c: string)
    requires LexLe(a, b) && LexLe(b, c)
    ensures LexLe(a, c)
  {
    if a != [] && a[0] == b[0] && b[0] == c[0] {
      LexLeTransitive(a[1..], b[1..], c[1..]);
    }
  }

  /** Every earlier path is at most every later one. */
  ghost predicate Sorted(s: seq<string>)
  {
    forall i, j :: 0 <= i < j < |s| ==> LexLe(s[i], s[j])
  }

  /** Insertion of one path into a sorted list, the step of `SortPaths`. */
  function Insert(x: string, s: seq<string>): (r: seq<string>)
    requires Sorted(s)
    ensures Sorted(r)
    ensures multiset(r) == multiset(s) + multiset{x}
  {
    if s == [] then [x]
    else if LexLe(x, s[0]) then
      assert forall j :: 0 <= j < |s| ==> LexLe(x, s[j]) by {
        forall j | 0 <= j < |s| ensures LexLe(x, s[j]) {
          if j > 0 { LexLeTransitive(x, s[0], s[j]); }
        }
      }
      [x] + s
    else
      var t := Insert(x, s[1..]);
      InsertAfterHead(x, s, t);
      [s[0]] + t
  }

  /** When `x` goes after the head, the head is at most everything the tail becomes. */
  lemma InsertAfterHead(x: string, s: seq<string>, t: seq<string>)
    requires Sorted(s) && s != [] && !LexLe(x, s[0])
    requires Sorted(t) && multiset(t) == multiset(s[1..]) + multiset{x}
    ensures Sorted([s[0]] + t)
    ensures multiset([s[0]] + t) == multiset(s) + multiset{x}
  {
    assert s == [s[0]] + s[1..];
    forall j | 0 <= j < |t| ensures LexLe(s[0], t[j]) {
      assert t[j] in multiset(t);
      if t[j] == x {
        LexLeTotal(x, s[0]);
      } else {
        assert t[j] in multiset(s[1..]);
        var k :| 0 <= k < |s[1..]| && s[1..][k] == t[j];
        assert s[k + 1] == t[j];
      }
    }
  }

  /** `sorted(paths)`: the same paths, in Python's string order. */
  function SortPaths(s: seq<string>): (r: seq<string>)
    ensures Sorted(r)
    ensures multiset(r) == multiset(s)
  {
    if s == [] then []
    else
      assert s == [s[0]] + s[1..];
      Insert(s[0], SortPaths(s[1..]))
  }

  /** No path occurs twice, as in what `glob` returns. */
  predicate Distinct(s: seq<string>)
  {
    forall i, j :: 0 <= i < j < |s| ==> s[i] != s[j]
  }

  /** A list has no repeats exactly when every path occurs in it at most once. */
  lemma {:induction false} DistinctCounts(s: seq<string>)
    ensures Distinct(s) <==> forall x :: multiset(s)[x] <= 1
  {
    if s != [] {
      var init, last := s[..|s| - 1], s[|s| - 1];
      DistinctCounts(init);
      assert s == init + [last];
      assert forall x :: multiset(s)[x] == multiset(init)[x] + if x == last then 1 else 0;
      assert last in init <==> multiset(init)[last] > 0;
      if forall x :: multiset(s)[x] <= 1 {
        assert multiset(s)[last] <= 1;
        assert forall x :: multiset(init)[x] <= 1 by {
          forall x ensures multiset(init)[x] <= 1 { assert multiset(s)[x] <= 1; }
        }
      }
      assert Distinct(s) <==> Distinct(init) && last !in init by {
        if Distinct(s) {
          assert forall i, j :: 0 <= i < j < |init| ==> init[i] == s[i] && init[j] == s[j];
          forall k | 0 <= k < |init| ensures init[k] != last { assert init[k] == s[k]; }
        }
        if Distinct(init) && last !in init {
          forall i, j | 0 <= i < j < |s| ensures s[i] != s[j] {
            if j < |init| { assert init[i] == s[i] && init[j] == s[j]; }
            else { assert s[i] == init[i]; }
          }
        }
      }
    }
  }

  /** `sorted` keeps a list free of repeats. */
  lemma SortKeepsDistinct(s: seq<string>)
    requires Distinct(s)
    ensures Distinct(SortPaths(s))
  {
    DistinctCounts(s);
    DistinctCounts(SortPaths(s));
  }

  lemma MultisetTail(a: seq<string>)
    requires a != []
    ensures multiset(a[1..]) == multiset(a) - multiset{a[0]}
  {
    assert a == [a[0]] + a[1..];
  }

  /** The least element of a sorted list is its head. */
  lemma SortedHeadsAgree(a: seq<string>, b: seq<string>)
    requires a != [] && Sorted(a) && Sorted(b) && multiset(a) == multiset(b)
    ensures b != [] && a[0] == b[0]
  {
    assert a[0] in multiset(b);
    var i :| 0 <= i < |b| && b[i] == a[0];
    assert b[0] in multiset(a);
    var j :| 0 <= j < |a| && a[j] == b[0];
    if i == 0 { LexLeReflexive(b[0]); }
    if j == 0 { LexLeReflexive(a[0]); }
    LexLeAntisymmetric(a[0], b[0]);
  }

  /** Sorting is unique: two sorted arrangements of the same paths are equal. */
  lemma {:induction false} SortedUnique(a: seq<string>, b: seq<string>)
    requires Sorted(a) && Sorted(b) && multiset(a) == multiset(b)
    ensures a == b
  {
    if a == [] {
      assert |b| == |multiset(b)| == 0;
    } else {
      SortedHeadsAgree(a, b);
      MultisetTail(a);
      MultisetTail(b);
      SortedUnique(a[1..], b[1..]);
      assert a == [a[0]] + a[1..] && b == [b[0]] + b[1..];
    }
  }

  // ---------------------------------------------------------------------------
  // Decimal numerals: int() on a digit string, and str() of a non-negative int
  // ---------------------------------------------------------------------------

  predicate IsDigit(c: char)
  {
    '0' <= c <= '9'
  }

  predicate AllDigits(s: string)
  {
    forall i :: 0 <= i < |s| ==> IsDigit(s[i])
  }

  function DigitChar(d: nat): char
    requires d < 10
  {
    ('0' as int + d) as char
  }

  /** The value of a digit string, most significant digit first. */
  function ValueOf(s: string): nat
    requires AllDigits(s)
  {
    if s == [] then 0
    else ValueOf(s[..|s| - 1]) * 10 + (s[|s| - 1] as int - '0' as int)
  }

  /** `int(s)` restricted to ASCII decimal numerals; anything else is Python's `ValueError`.
      A numeral without leading zeros is exactly `str()` of the number it denotes. */
  function ParseInt(s: string): (r: Option<nat>)
    ensures r.Some? <==> s != [] && AllDigits(s)
    ensures r.Some? && (|s| == 1 || s[0] != '0') ==> Decimal(r.value) == s
  {
    if s != [] && AllDigits(s) then
      if |s| == 1 || s[0] != '0' then DecimalOfValue(s); Some(ValueOf(s))
      else Some(ValueOf(s))
    else None
  }

  lemma {:induction false} ValueOfPositive(s: string)
    requires s != [] && AllDigits(s) && s[0] != '0'
    ensures ValueOf(s) >= 1
  {
    if |s| > 1 { ValueOfPositive(s[..|s| - 1]); }
  }

  /** A numeral without leading zeros is the decimal form of its value. */
  lemma {:induction false} DecimalOfValue(s: string)
    requires s != [] && AllDigits(s) && (|s| == 1 || s[0] != '0')
    ensures Decimal(ValueOf(s)) == s
  {
    var init, d := s[..|s| - 1], s[|s| - 1] as int - '0' as int;
    if |s| == 1 {
      assert ValueOf(init) == 0;
      assert [DigitChar(d)] == s;
    } else {
      ValueOfPositive(init);
      DecimalOfValue(init);
      var n := ValueOf(s);
      assert n / 10 == ValueOf(init) && n % 10 == d;
      assert s == init + [s[|s| - 1]];
    }
  }

  /** `str(n)` for a non-negative `n`: shortest decimal numeral. */
  function Decimal(n: nat): (s: string)
    ensures s != [] && AllDigits(s)
    ensures |s| > 1 ==> s[0] != '0'
  {
    if n < 10 then [DigitChar(n)] else Decimal(n / 10) + [DigitChar(n % 10)]
  }

  lemma {:induction false} ValueOfDecimal(n: nat)
    ensures ValueOf(Decimal(n)) == n
  {
    if n >= 10 {
      var s := Decimal(n);
      assert s[..|s| - 1] == Decimal(n / 10);
      ValueOfDecimal(n / 10);
    }
  }

  /** `int(str(n)) == n`. */
  lemma ParseDecimal(n: nat)
    ensures ParseInt(Decimal(n)) == Some(n)
  {
  }

  // ---------------------------------------------------------------------------
  // The "WxH" resolution string and its reading back
  // ---------------------------------------------------------------------------

  /** `f"{w}x{h}"`: the string determines width and height, read back by splitting at
      its first `x`. */
  function Resolution(w: nat, h: nat): (r: string)
    ensures ParseResolution(r) == Some((w, h))
  {
    ResolutionSplits(w, h);
    Decimal(w) + "x" + Decimal(h)
  }

  /** Position of the first occurrence of `c` in `s`. */
  function IndexOf(s: string, c: char): (r: Option<nat>)
    ensures r.Some? ==> r.value < |s| && s[r.value] == c && c !in s[..r.value]
    ensures r.None? ==> c !in s
  {
    if s == [] then None
    else if s[0] == c then Some(0)
    else match IndexOf(s[1..], c)
      case None => None
      case Some(k) => assert s[..k + 1] == [s[0]] + s[1..][..k]; Some(k + 1)
  }

  /** Splits `"WxH"` at its first `x` and reads both numbers. */
  function ParseResolution(s: string): Option<(nat, nat)>
  {
    match IndexOf(s, 'x')
    case None => None
    case Some(k) =>
      match (ParseInt(s[..k]), ParseInt(s[k + 1..]))
      case (Some(w), Some(h)) => Some((w, h))
      case _ => None
  }

  lemma ResolutionSplits(w: nat, h: nat)
    ensures ParseResolution(Decimal(w) + "x" + Decimal(h)) == Some((w, h))
  {
    var s, dw := Decimal(w) + "x" + Decimal(h), Decimal(w);
    assert 'x' !in dw by {
      forall i | 0 <= i < |dw| ensures dw[i] != 'x' { assert IsDigit(dw[i]); }
    }
    assert s[..|dw|] == dw && s[|dw|] == 'x' && s[|dw| + 1..] == Decimal(h);
    assert IndexOf(s, 'x') == Some(|dw|);
    ParseDecimal(w);
    ParseDecimal(h);
  }
}
