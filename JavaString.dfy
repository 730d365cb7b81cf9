/**
  The few pieces of `java.lang.String` and `java.lang.Integer` that the inventory
  and label code relies on, written out so that their edge cases are explicit:
  `split` with a one-character pattern, `trim`, `replaceAll` with a literal pattern,
  ASCII `toLowerCase`, `Integer.toString`, `Integer.parseInt`, `compareTo` and `int`
  division.
*/
module JavaString {
  import opened Wrappers

  /** Java's `int`. */
  newtype int32 = x: int | -0x8000_0000 <= x < 0x8000_0000

  // ---------------------------------------------------------------------------
  // split
  // ---------------------------------------------------------------------------

  /** Cuts `s` at every occurrence of `c`, keeping every piece, empty ones included. */
  function SplitAll(s: string, c: char): (r: seq<string>)
    ensures |r| >= 1
    ensures forall i :: 0 <= i < |r| ==> c !in r[i]
  {
    if s == [] then [[]]
    else
      var rest := SplitAll(s[1..], c);
      if s[0] == c then [[]] + rest
      else [[s[0]] + rest[0]] + rest[1..]
  }

  /** Drops the empty pieces at the end of `ps`. */
  function DropTrailingEmpty(ps: seq<string>): (r: seq<string>)
    ensures |r| <= |ps| && r == ps[..|r|]
    ensures r == [] || r[|r| - 1] != []
    ensures forall i :: |r| <= i < |ps| ==> ps[i] == []
  {
    if ps == [] then []
    else if ps[|ps| - 1] == [] then DropTrailingEmpty(ps[..|ps| - 1])
    else ps
  }

  /**
    `s.split(c)` for a pattern that matches exactly the one character `c`: a string
    without `c` comes back whole (so "" gives [""]); otherwise the pieces between the
    occurrences, with the trailing empty ones removed and the leading ones kept.
  */
  function Split(s: string, c: char): (r: seq<string>)
    ensures forall i :: 0 <= i < |r| ==> c !in r[i]
    ensures c !in s ==> r == [s]
  {
    if c !in s then [s] else DropTrailingEmpty(SplitAll(s, c))
  }

  /** The pieces of `ps` with `sep` between each two neighbours (a `StringJoiner`). */
  function Join(ps: seq<string>, sep: string): string
  {
    if |ps| == 0 then ""
    else if |ps| == 1 then ps[0]
    else ps[0] + sep + Join(ps[1..], sep)
  }

  lemma {:induction false} SplitAllPrefix(a: string, t: string, c: char)
    requires c !in a
    ensures SplitAll(a + t, c) == [a + SplitAll(t, c)[0]] + SplitAll(t, c)[1..]
  {
    if a != [] {
      var s := a + t;
      assert s[0] == a[0] && s[1..] == a[1..] + t;
      SplitAllPrefix(a[1..], t, c);
      var rest := SplitAll(s[1..], c);
      assert rest == [a[1..] + SplitAll(t, c)[0]] + SplitAll(t, c)[1..];
      assert SplitAll(s, c) == [[a[0]] + rest[0]] + rest[1..];
      assert [a[0]] + (a[1..] + SplitAll(t, c)[0]) == a + SplitAll(t, c)[0];
    } else {
      assert a + t == t;
      var r := SplitAll(t, c);
      assert a + r[0] == r[0];
      assert [r[0]] + r[1..] == r;
    }
  }

  lemma JoinHasNo(ps: seq<string>, sep: string, c: char)
    requires forall i :: 0 <= i < |ps| ==> c !in ps[i]
    requires c !in sep
    ensures c !in Join(ps, sep)
  {
    if |ps| > 1 {
      JoinHasNo(ps[1..], sep, c);
    }
  }

  /** Cutting the join of pieces without `c` at every `c` gives the pieces back. */
  lemma {:induction false} SplitAllJoin(ps: seq<string>, c: char)
    requires |ps| >= 1
    requires forall i :: 0 <= i < |ps| ==> c !in ps[i]
    ensures SplitAll(Join(ps, [c]), c) == ps
  {
    if |ps| == 1 {
      SplitAllPrefix(ps[0], [], c);
      assert ps[0] + [] == ps[0];
      assert SplitAll([], c) == [[]];
    } else {
      var rest := Join(ps[1..], [c]);
      SplitAllJoin(ps[1..], c);
      assert Join(ps, [c]) == ps[0] + ([c] + rest);
      SplitAllPrefix(ps[0], [c] + rest, c);
      assert ([c] + rest)[0] == c && ([c] + rest)[1..] == rest;
      var s := SplitAll([c] + rest, c);
      assert s == [[]] + SplitAll(rest, c);
      assert s[0] == [] && s[1..] == ps[1..];
      assert ps[0] + [] == ps[0];
      assert [ps[0]] + ps[1..] == ps;
    }
  }

  /** `split` undoes a join as long as the last piece is not empty. */
  lemma SplitJoin(ps: seq<string>, c: char)
    requires |ps| >= 1
    requires forall i :: 0 <= i < |ps| ==> c !in ps[i]
    requires |ps| == 1 || ps[|ps| - 1] != []
    ensures Split(Join(ps, [c]), c) == ps
  {
    SplitAllJoin(ps, c);
    if |ps| > 1 {
      assert Join(ps, [c]) == ps[0] + [c] + Join(ps[1..], [c]);
      assert Join(ps, [c])[|ps[0]|] == c;
    }
  }

  /** The three comma fields of a CSV row come back from `split`. */
  lemma SplitThree(a: string, b: string, d: string, c: char)
    requires c !in a && c !in b && c !in d && d != []
    ensures Split(a + [c] + b + [c] + d, c) == [a, b, d]
  {
    var ps := [a, b, d];
    assert Join(ps, [c]) == a + [c] + b + [c] + d by {
      assert Join(ps[1..], [c]) == b + [c] + Join(ps[2..], [c]);
    }
    SplitJoin(ps, c);
  }

  /** Cutting at every `c` gives one piece more than there are `c`s. */
  lemma {:induction false} SplitAllCount(s: string, c: char)
    ensures |SplitAll(s, c)| == multiset(s)[c] + 1
  {
    if s != [] {
      SplitAllCount(s[1..], c);
      assert s == [s[0]] + s[1..];
      assert multiset(s) == multiset([s[0]]) + multiset(s[1..]);
    }
  }

  /** `split` never gives more pieces than one more than the occurrences of `c`. */
  lemma SplitCount(s: string, c: char)
    ensures |Split(s, c)| <= multiset(s)[c] + 1
  {
    if c in s {
      SplitAllCount(s, c);
    }
  }

  // ---------------------------------------------------------------------------
  // trim, toLowerCase, replaceAll
  // ---------------------------------------------------------------------------

  /** Every character is at most U+0020, the ones `trim` removes. */
  predicate Blank(s: string)
  {
    forall i :: 0 <= i < |s| ==> s[i] <= ' '
  }

  function TrimStart(s: string): (r: string)
    ensures r == [] || r[0] > ' '
    ensures |r| <= |s|
  {
    if s != [] && s[0] <= ' ' then TrimStart(s[1..]) else s
  }

  function TrimEnd(s: string): (r: string)
    ensures r == [] || r[|r| - 1] > ' '
    ensures |r| <= |s| && (r == [] || r[0] == s[0])
  {
    if s != [] && s[|s| - 1] <= ' ' then TrimEnd(s[..|s| - 1]) else s
  }

  /**
    `s.trim()`: removes every character at most U+0020 from both ends, so neither end
    of the result is blank.
  */
  function Trim(s: string): (r: string)
    ensures r == [] || (r[0] > ' ' && r[|r| - 1] > ' ')
  {
    TrimEnd(TrimStart(s))
  }

  lemma {:induction false} TrimStartBlank(p: string, t: string)
    requires Blank(p) && (t == [] || t[0] > ' ')
    ensures TrimStart(p + t) == t
  {
    if p != [] {
      assert (p + t)[1..] == p[1..] + t;
      TrimStartBlank(p[1..], t);
    } else {
      assert p + t == t;
    }
  }

  lemma {:induction false} TrimEndBlank(t: string, q: string)
    requires Blank(q) && (t == [] || t[|t| - 1] > ' ')
    ensures TrimEnd(t + q) == t
  {
    if q != [] {
      assert (t + q)[..|t + q| - 1] == t + q[..|q| - 1];
      TrimEndBlank(t, q[..|q| - 1]);
    } else {
      assert t + q == t;
    }
  }

  lemma {:induction false} TrimStartEmpty(s: string)
    ensures TrimStart(s) == [] <==> Blank(s)
  {
    if s != [] && s[0] <= ' ' {
      TrimStartEmpty(s[1..]);
      assert Blank(s) <==> Blank(s[1..]) by {
        assert forall i :: 1 <= i < |s| ==> s[i] == s[1..][i - 1];
      }
    }
  }

  lemma {:induction false} TrimEndEmpty(s: string)
    ensures TrimEnd(s) == [] <==> Blank(s)
  {
    if s != [] && s[|s| - 1] <= ' ' {
      TrimEndEmpty(s[..|s| - 1]);
      assert Blank(s) <==> Blank(s[..|s| - 1]) by {
        assert forall i :: 0 <= i < |s| - 1 ==> s[i] == s[..|s| - 1][i];
      }
    }
  }

  /** Trimming never lengthens a text, and leaves nothing exactly when the text is all blanks. */
  lemma TrimBlank(s: string)
    ensures |Trim(s)| <= |s|
    ensures Trim(s) == [] <==> Blank(s)
  {
    TrimStartEmpty(s);
    TrimEndEmpty(TrimStart(s));
  }

  /** Trimming only removes characters, so no character occurs more often in the result. */
  lemma TrimCount(s: string, c: char)
    ensures multiset(Trim(s))[c] <= multiset(s)[c]
  {
    TrimStartCount(s, c);
    TrimEndCount(TrimStart(s), c);
  }

  lemma {:induction false} TrimStartCount(s: string, c: char)
    ensures multiset(TrimStart(s))[c] <= multiset(s)[c]
  {
    if s != [] && s[0] <= ' ' {
      TrimStartCount(s[1..], c);
      CountPieces([s[0]], s[1..], c);
      assert [s[0]] + s[1..] == s;
    }
  }

  lemma {:induction false} TrimEndCount(s: string, c: char)
    ensures multiset(TrimEnd(s))[c] <= multiset(s)[c]
  {
    if s != [] && s[|s| - 1] <= ' ' {
      var front := s[..|s| - 1];
      TrimEndCount(front, c);
      CountPieces(front, [s[|s| - 1]], c);
      assert front + [s[|s| - 1]] == s;
    }
  }

  lemma CountPieces(a: string, b: string, c: char)
    ensures multiset(a + b)[c] == multiset(a)[c] + multiset(b)[c]
  {
    assert multiset(a + b) == multiset(a) + multiset(b);
  }

  /** Trimming gives back a text whose ends are not blank, whatever blanks surround it. */
  lemma TrimPadded(p: string, t: string, q: string)
    requires Blank(p) && Blank(q)
    requires t != [] && t[0] > ' ' && t[|t| - 1] > ' '
    ensures Trim(p + t + q) == t
  {
    assert p + t + q == p + (t + q);
    TrimStartBlank(p, t + q);
    TrimEndBlank(t, q);
  }

  function LowerChar(c: char): char
  {
    if 'A' <= c <= 'Z' then (c as int + 32) as char else c
  }

  /** `a.equalsIgnoreCase(b)`, restricted to the ASCII letters. */
  predicate EqualsIgnoreCase(a: string, b: string)
  {
    |a| == |b| && forall i :: 0 <= i < |a| ==> LowerChar(a[i]) == LowerChar(b[i])
  }

  /**
    Lower-casing a text and comparing it with `b` is `equalsIgnoreCase`, in both
    directions when `b` is itself lower-case.
  */
  lemma LowerEqualsIgnoreCase(a: string, b: string)
    ensures LowerAscii(a) == b ==> EqualsIgnoreCase(a, b)
    ensures LowerAscii(b) == b && EqualsIgnoreCase(a, b) ==> LowerAscii(a) == b
  {
    if LowerAscii(b) == b && EqualsIgnoreCase(a, b) {
      assert forall i :: 0 <= i < |a| ==> LowerAscii(a)[i] == b[i];
    }
  }

  /** `s.toLowerCase()`, restricted to the ASCII letters. */
  function LowerAscii(s: string): (r: string)
    ensures |r| == |s|
    ensures forall i :: 0 <= i < |s| ==> r[i] == LowerChar(s[i])
  {
    seq(|s|, i requires 0 <= i < |s| => LowerChar(s[i]))
  }

  /**
    `s.replaceAll(pattern, replacement)` for a pattern without regular-expression
    operators: the leftmost occurrence is replaced first and the scan resumes after it.
  */
  function ReplaceAll(s: string, pattern: string, replacement: string): (r: string)
    requires pattern != []
    ensures pattern[0] !in s ==> r == s
    ensures |replacement| == |pattern| ==> |r| == |s|
    decreases |s|
  {
    if |pattern| <= |s| && s[..|pattern|] == pattern then
      replacement + ReplaceAll(s[|pattern|..], pattern, replacement)
    else if s == [] then []
    else [s[0]] + ReplaceAll(s[1..], pattern, replacement)
  }

  /**
    A text with no `Y` whose last character is not a space holds no part of an
    occurrence of " Y ", so `replaceAll` copies it and carries on after it.
  */
  lemma {:induction false} ReplaceAllSkips(a: string, t: string, replacement: string)
    requires 'Y' !in a && (a == [] || a[|a| - 1] != ' ')
    ensures ReplaceAll(a + t, " Y ", replacement) == a + ReplaceAll(t, " Y ", replacement)
  {
    if a != [] {
      var s := a + t;
      if |a| >= 2 {
        assert s[1] == a[1];
      } else {
        assert s[0] == a[0];
      }
      assert !(3 <= |s| && s[..3] == " Y ");
      assert s[1..] == a[1..] + t;
      ReplaceAllSkips(a[1..], t, replacement);
    } else {
      assert a + t == t;
    }
  }

  // ---------------------------------------------------------------------------
  // Integer.toString and Integer.parseInt
  // ---------------------------------------------------------------------------

  predicate IsDigit(c: char)
  {
    '0' <= c <= '9'
  }

  predicate AllDigits(s: string)
  {
    forall i :: 0 <= i < |s| ==> IsDigit(s[i])
  }

  function DigitChar(d: nat): (c: char)
    requires d < 10
    ensures IsDigit(c)
  {
    ('0' as int + d) as char
  }

  /** The decimal digits of `n`, most significant first, with no leading zero. */
  function NatToString(n: nat): (r: string)
    ensures r != [] && AllDigits(r)
    decreases n
  {
    if n < 10 then [DigitChar(n)] else NatToString(n / 10) + [DigitChar(n % 10)]
  }

  /** `Integer.toString(n)`: a minus sign for negative numbers, then the digits. */
  function IntToString(n: int): (r: string)
    ensures r != [] && r != "-"
    ensures r[0] == '-' <==> n < 0
    ensures IsDigit(r[|r| - 1])
  {
    if n < 0 then "-" + NatToString(-n) else NatToString(n)
  }

  /** After the optional minus sign, `Integer.toString(n)` writes only digits. */
  lemma IntToStringDigits(n: int)
    ensures AllDigits(Unsigned(IntToString(n)))
  {
    var r := IntToString(n);
    if n < 0 {
      assert r[1..] == NatToString(-n);
    }
  }

  /**
    Java's `a / b` for a positive divisor: the quotient rounded toward zero, so the
    remainder takes the sign of `a` (Dafny's own `/` rounds toward minus infinity).
  */
  function JavaDiv(a: int, b: int): (r: int)
    requires b > 0
    ensures var rem := a - r * b;
      -b < rem < b && (a >= 0 ==> rem >= 0) && (a < 0 ==> rem <= 0)
  {
    if a >= 0 then a / b else -((-a) / b)
  }

  /** The value of a string of decimal digits. */
  function DigitsValue(s: string): nat
    requires AllDigits(s)
  {
    if s == [] then 0
    else DigitsValue(s[..|s| - 1]) * 10 + (s[|s| - 1] as int - '0' as int)
  }

  lemma {:induction false} DigitsValueOfNatToString(n: nat)
    ensures DigitsValue(NatToString(n)) == n
    decreases n
  {
    if n >= 10 {
      DigitsValueOfNatToString(n / 10);
      var s := NatToString(n);
      assert s[..|s| - 1] == NatToString(n / 10);
    }
  }

  function Pow10(k: nat): (r: nat)
    ensures r >= 1
  {
    if k == 0 then 1 else 10 * Pow10(k - 1)
  }

  /** A string of `k` digits has a value below 10^k. */
  lemma {:induction false} DigitsValueBelow(s: string)
    requires AllDigits(s)
    ensures DigitsValue(s) < Pow10(|s|)
  {
    if s != [] {
      DigitsValueBelow(s[..|s| - 1]);
    }
  }

  /** The text after an optional leading sign. */
  function Unsigned(s: string): string
    requires s != []
  {
    if s[0] == '-' || s[0] == '+' then s[1..] else s
  }

  /**
    `Integer.parseInt(s)`: an optional sign followed by at least one ASCII digit,
    whose value fits in 32 bits. `None` stands for the `NumberFormatException`.
    Nine digits or fewer always fit.
  */
  function ParseInt(s: string): (r: Option<int32>)
    ensures r.Some? ==> s != [] && Unsigned(s) != [] && AllDigits(Unsigned(s))
    ensures r.Some? && r.value < 0 ==> s[0] == '-'
    ensures s != [] && Unsigned(s) != [] && AllDigits(Unsigned(s)) && |Unsigned(s)| <= 9 ==> r.Some?
  {
    if s == [] then None
    else
      var negative := s[0] == '-';
      var digits := Unsigned(s);
      if digits == [] || !AllDigits(digits) then None
      else
        DigitsValueBelow(digits);
        assert |digits| <= 9 ==> Pow10(|digits|) <= Pow10(9) by {
          if |digits| <= 9 {
            Pow10Monotone(|digits|, 9);
          }
        }
        var v: int := if negative then -(DigitsValue(digits) as int) else DigitsValue(digits);
        if -0x8000_0000 <= v < 0x8000_0000 then Some(v as int32) else None
  }

  lemma {:induction false} Pow10Monotone(j: nat, k: nat)
    requires j <= k
    ensures Pow10(j) <= Pow10(k)
    decreases k
  {
    if j < k {
      Pow10Monotone(j, k - 1);
    }
  }

  /** `Integer.parseInt` reads back what `Integer.toString` writes. */
  lemma ParseIntToString(q: int32)
    ensures ParseInt(IntToString(q as int)) == Some(q)
  {
    var s := IntToString(q as int);
    if q < 0 {
      var digits := NatToString(-(q as int));
      DigitsValueOfNatToString(-(q as int));
      assert s == "-" + digits;
      assert Unsigned(s) == digits by {
        assert s[1..] == digits;
      }
      assert s[0] == '-' && DigitsValue(digits) == -(q as int);
    } else {
      var digits := NatToString(q as int);
      DigitsValueOfNatToString(q as int);
      assert s == digits && IsDigit(s[0]);
      assert Unsigned(s) == digits;
      assert s[0] != '-' && DigitsValue(digits) == q as int;
    }
  }

  // ---------------------------------------------------------------------------
  // compareTo
  // ---------------------------------------------------------------------------

  /**
    `a.compareTo(b) <= 0`, comparing characters as code points: `a` is a prefix of `b`
    or has the smaller character at the first difference.
  */
  predicate StrLe(a: string, b: string)
    ensures |a| <= |b| && a == b[..|a|] ==> StrLe(a, b)
    ensures StrLe(a, b) && a != [] ==> b != [] && a[0] <= b[0]
  {
    a == [] || (b != [] && (a[0] < b[0] || (a[0] == b[0] && StrLe(a[1..], b[1..]))))
  }

  predicate StrLt(a: string, b: string)
  {
    StrLe(a, b) && a != b
  }

  lemma {:induction false} StrLeReflexive(a: string)
    ensures StrLe(a, a)
  {
    if a != [] {
      StrLeReflexive(a[1..]);
    }
  }

  lemma {:induction false} StrLeTotal(a: string, b: string)
    ensures StrLe(a, b) || StrLe(b, a)
  {
    if a != [] && b != [] && a[0] == b[0] {
      StrLeTotal(a[1..], b[1..]);
    }
  }

  lemma {:induction false} StrLeAntisymmetric(a: string, b: string)
    requires StrLe(a, b) && StrLe(b, a)
    ensures a == b
  {
    if a != [] && b != [] {
      StrLeAntisymmetric(a[1..], b[1..]);
      assert a == [a[0]] + a[1..];
      assert b == [b[0]] + b[1..];
    }
  }

  lemma {:induction false} StrLeTransitive(a: string, b: string, c: string)
    requires StrLe(a, b) && StrLe(b, c)
    ensures StrLe(a, c)
  {
    if a != [] && b != [] && c != [] && a[0] == b[0] == c[0] {
      StrLeTransitive(a[1..], b[1..], c[1..]);
    }
  }

  predicate IsLeast(k: string, keys: set<string>)
  {
    k in keys && forall j :: j in keys ==> StrLe(k, j)
  }

  lemma {:induction false} LeastExists(keys: set<string>)
    requires keys != {}
    ensures exists k :: IsLeast(k, keys)
    decreases |keys|
  {
    var x :| x in keys;
    StrLeReflexive(x);
    if keys == {x} {
      assert IsLeast(x, keys);
    } else {
      LeastExists(keys - {x});
      var m :| IsLeast(m, keys - {x});
      StrLeTotal(m, x);
      if StrLe(m, x) {
        assert IsLeast(m, keys);
      } else {
        forall j | j in keys ensures StrLe(x, j) {
          if j != x {
            StrLeTransitive(x, m, j);
          }
        }
        assert IsLeast(x, keys);
      }
    }
  }

  lemma LeastUnique()
    ensures forall k1, k2, keys :: IsLeast(k1, keys) && IsLeast(k2, keys) ==> k1 == k2
  {
    forall k1, k2, keys | IsLeast(k1, keys) && IsLeast(k2, keys) ensures k1 == k2 {
      StrLeAntisymmetric(k1, k2);
    }
  }

  /** The least key in front of the others, sorted, sorts all the keys. */
  lemma SortedCons(k: string, keys: set<string>, rest: seq<string>)
    requires IsLeast(k, keys)
    requires |rest| == |keys - {k}|
    requires forall i :: 0 <= i < |rest| ==> rest[i] in keys - {k}
    requires forall x :: x in keys - {k} ==> x in rest
    requires forall i, j :: 0 <= i < j < |rest| ==> StrLt(rest[i], rest[j])
    ensures var r := [k] + rest;
      && |r| == |keys|
      && (forall i :: 0 <= i < |r| ==> r[i] in keys)
      && (forall x :: x in keys ==> x in r)
      && (forall i, j :: 0 <= i < j < |r| ==> StrLt(r[i], r[j]))
  {
    var r := [k] + rest;
    forall i, j | 0 <= i < j < |r| ensures StrLt(r[i], r[j]) {
      assert r[j] == rest[j - 1];
      if i > 0 {
        assert r[i] == rest[i - 1];
      }
    }
  }

  /** The keys in ascending order by code point, as `keySet().stream().sorted()` yields them for ids without characters above U+FFFF. */
  function SortedKeys(keys: set<string>): (r: seq<string>)
    ensures |r| == |keys|
    ensures forall i :: 0 <= i < |r| ==> r[i] in keys
    ensures forall k :: k in keys ==> k in r
    ensures forall i, j :: 0 <= i < j < |r| ==> StrLt(r[i], r[j])
    decreases |keys|
  {
    if keys == {} then []
    else
      LeastExists(keys);
      LeastUnique();
      var k :| IsLeast(k, keys);
      var rest := SortedKeys(keys - {k});
      SortedCons(k, keys, rest);
      [k] + rest
  }
}
