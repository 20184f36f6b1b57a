/** String functions the pages use: JavaScript's `split` with a one-character
    separator, splitting at the last occurrence of a character, and the
    decimal rendering of a non-negative integer (`${n}`). */
module Strings {
  import opened Wrappers

  // ---------------------------------------------------------------------------
  // Split and Join

  /** The pieces of `s` between occurrences of `sep`, as `s.split(sep)` returns
      them in JavaScript: never empty, and `""` gives `[""]`. */
  function Split(s: string, sep: char): (parts: seq<string>)
    ensures |parts| >= 1
    ensures forall i :: 0 <= i < |parts| ==> sep !in parts[i]
    ensures sep !in s ==> parts == [s]
    ensures sep in s ==> |parts| >= 2
    decreases |s|
  {
    if s == [] then [""]
    else
      var rest := Split(s[1..], sep);
      assert [s[0]] + s[1..] == s;
      if s[0] == sep then [""] + rest
      else [[s[0]] + rest[0]] + rest[1..]
  }

  /** `parts.join(sep)`. */
  function Join(parts: seq<string>, sep: char): string
    requires |parts| >= 1
    decreases |parts|
  {
    if |parts| == 1 then parts[0] else parts[0] + [sep] + Join(parts[1..], sep)
  }

  function Last<T>(xs: seq<T>): T
    requires |xs| >= 1
  {
    xs[|xs| - 1]
  }

  /** Prefixing a character to the first piece prefixes it to the join. */
  lemma JoinExtendFirst(c: char, parts: seq<string>, sep: char)
    requires |parts| >= 1
    ensures Join([[c] + parts[0]] + parts[1..], sep) == [c] + Join(parts, sep)
  {
    var ps := [[c] + parts[0]] + parts[1..];
    if |parts| > 1 {
      assert ps[1..] == parts[1..];
    }
  }

  /** Joining the pieces of a split restores the string. */
  lemma {:induction false} JoinSplit(s: string, sep: char)
    ensures Join(Split(s, sep), sep) == s
    decreases |s|
  {
    if s != [] {
      var rest := Split(s[1..], sep);
      JoinSplit(s[1..], sep);
      assert [s[0]] + s[1..] == s;
      if s[0] == sep {
        assert ([""] + rest)[1..] == rest;
      } else {
        JoinExtendFirst(s[0], rest, sep);
      }
    }
  }

  /** A piece without `sep` splits to itself. */
  lemma {:induction false} SplitWithoutSeparator(a: string, sep: char)
    requires sep !in a
    ensures Split(a, sep) == [a]
  {
  }

  /** Splitting `a + [sep] + b` with `sep` not in `a` yields `a` followed by the pieces of `b`. */
  lemma {:induction false} SplitAfterPiece(a: string, b: string, sep: char)
    requires sep !in a
    ensures Split(a + [sep] + b, sep) == [a] + Split(b, sep)
    decreases |a|
  {
    var s := a + [sep] + b;
    if a == [] {
      assert s[0] == sep && s[1..] == b;
    } else {
      assert s[0] == a[0] && s[1..] == a[1..] + [sep] + b;
      SplitAfterPiece(a[1..], b, sep);
      assert [a[0]] + a[1..] == a;
    }
  }

  /** Splitting a join of separator-free pieces gives the pieces back. */
  lemma {:induction false} SplitJoin(parts: seq<string>, sep: char)
    requires |parts| >= 1
    requires forall i :: 0 <= i < |parts| ==> sep !in parts[i]
    ensures Split(Join(parts, sep), sep) == parts
    decreases |parts|
  {
    if |parts| == 1 {
      SplitWithoutSeparator(parts[0], sep);
    } else {
      SplitJoin(parts[1..], sep);
      SplitAfterPiece(parts[0], Join(parts[1..], sep), sep);
      assert [parts[0]] + parts[1..] == parts;
    }
  }

  /** The first piece of a split is the longest separator-free prefix. */
  lemma {:induction false} FirstPiece(s: string, sep: char)
    ensures var f := Split(s, sep)[0];
      && |f| <= |s|
      && f == s[..|f|]
      && sep !in f
      && (|f| == |s| || s[|f|] == sep)
    decreases |s|
  {
    if s != [] {
      var rest := Split(s[1..], sep);
      if s[0] == sep {
        assert Split(s, sep)[0] == "";
      } else {
        FirstPiece(s[1..], sep);
        var f := rest[0];
        assert Split(s, sep)[0] == [s[0]] + f;
        assert f == s[1..][..|f|];
        assert s[..|f| + 1] == [s[0]] + s[1..][..|f|];
        assert |f| < |s[1..]| ==> s[|f| + 1] == s[1..][|f|];
      }
    }
  }

  /** The last piece of a split is the longest separator-free suffix. */
  lemma {:induction false} LastPiece(s: string, sep: char)
    ensures var l := Last(Split(s, sep));
      && |l| <= |s|
      && l == s[|s| - |l|..]
      && sep !in l
      && (|l| == |s| || s[|s| - |l| - 1] == sep)
    decreases |s|
  {
    if s != [] {
      var tail := s[1..];
      var rest := Split(tail, sep);
      LastPiece(tail, sep);
      var l := Last(rest);
      assert l == tail[|tail| - |l|..];
      assert tail[|tail| - |l|..] == s[|s| - |l|..];
      if s[0] == sep {
        assert Last(Split(s, sep)) == l;
        assert |l| < |s|;
        assert |l| == |tail| ==> s[|s| - |l| - 1] == s[0];
        assert |l| < |tail| ==> s[|s| - |l| - 1] == tail[|tail| - |l| - 1];
      } else if |rest| == 1 {
        assert sep !in tail;
        assert rest == [tail];
        assert Split(s, sep) == [[s[0]] + tail];
        assert [s[0]] + tail == s;
        assert s[0..] == s;
      } else {
        var parts := [[s[0]] + rest[0]] + rest[1..];
        assert Split(s, sep) == parts;
        assert Last(parts) == l;
        assert |l| < |s|;
        assert |l| < |tail| ==> s[|s| - |l| - 1] == tail[|tail| - |l| - 1];
        assert |l| == |tail| ==> l == tail;
      }
    }
  }

  // ---------------------------------------------------------------------------
  // Splitting at the last occurrence

  /** The text before and after the last `c` in `s`, or None when `c` does not occur. */
  function SplitLast(s: string, c: char): (r: Option<(string, string)>)
    ensures r.None? <==> c !in s
    ensures r.Some? ==> s == r.value.0 + [c] + r.value.1 && c !in r.value.1
    decreases |s|
  {
    if s == [] then None
    else if s[|s| - 1] == c then Some((s[..|s| - 1], ""))
    else
      match SplitLast(s[..|s| - 1], c)
      case None => None
      case Some((before, after)) => Some((before, after + [s[|s| - 1]]))
  }

  /** Whatever precedes a `c`, the text after the last `c` is recovered exactly. */
  lemma {:induction false} SplitLastOfJoin(a: string, b: string, c: char)
    requires c !in b
    ensures SplitLast(a + [c] + b, c) == Some((a, b))
    decreases |b|
  {
    var s := a + [c] + b;
    if b == [] {
      assert s[..|s| - 1] == a;
    } else {
      var b' := b[..|b| - 1];
      assert s[..|s| - 1] == a + [c] + b';
      assert s[|s| - 1] == b[|b| - 1];
      SplitLastOfJoin(a, b', c);
      assert b' + [b[|b| - 1]] == b;
    }
  }

  /** The last piece of `Split` is the text `SplitLast` finds after the last
      separator, or the whole string when there is no separator. */
  lemma LastPieceIsAfterLastSeparator(s: string, sep: char)
    ensures SplitLast(s, sep).None? ==> Last(Split(s, sep)) == s
    ensures SplitLast(s, sep).Some? ==> Last(Split(s, sep)) == SplitLast(s, sep).value.1
  {
    var l := Last(Split(s, sep));
    LastPiece(s, sep);
    var k := |s| - |l|;
    assert l == s[k..];
    assert k > 0 ==> s[k - 1] == sep && s[k - 1] in s;
    if sep !in s {
      assert k == 0;
      assert s[0..] == s;
    } else {
      assert k > 0 by {
        assert k == 0 ==> l == s;
      }
      var a := s[..k - 1];
      assert s == a + [sep] + l;
      SplitLastOfJoin(a, l, sep);
    }
  }

  // ---------------------------------------------------------------------------
  // Decimal numerals

  predicate IsDigit(c: char)
  {
    '0' <= c <= '9'
  }

  predicate IsDigits(s: string)
  {
    forall i :: 0 <= i < |s| ==> IsDigit(s[i])
  }

  function DigitChar(d: nat): (c: char)
    requires d < 10
    ensures IsDigit(c)
  {
    ('0' as int + d) as char
  }

  function DigitValue(c: char): (d: nat)
    requires IsDigit(c)
    ensures d < 10
  {
    c as int - '0' as int
  }

  /** The decimal numeral of `n`, as JavaScript renders an integer-valued number
      below 10^21 in a template literal. */
  function Decimal(n: nat): (s: string)
    ensures |s| >= 1 && IsDigits(s)
    ensures s[0] == '0' ==> n == 0
    decreases n
  {
    if n < 10 then [DigitChar(n)] else Decimal(n / 10) + [DigitChar(n % 10)]
  }

  /** The value of a string of decimal digits (the empty string reads as 0). */
  function ParseDecimal(s: string): nat
    requires IsDigits(s)
    decreases |s|
  {
    if s == [] then 0 else 10 * ParseDecimal(s[..|s| - 1]) + DigitValue(s[|s| - 1])
  }

  /** Reading back a rendered numeral gives the number. */
  lemma {:induction false} ParseDecimalOfDecimal(n: nat)
    ensures ParseDecimal(Decimal(n)) == n
    decreases n
  {
    var s := Decimal(n);
    if n >= 10 {
      assert s[..|s| - 1] == Decimal(n / 10);
      ParseDecimalOfDecimal(n / 10);
    }
  }

  /** A numeral with a non-zero leading digit denotes a positive number. */
  lemma {:induction false} LeadingDigitPositive(s: string)
    requires |s| >= 1 && IsDigits(s) && s[0] != '0'
    ensures ParseDecimal(s) >= 1
    decreases |s|
  {
    if |s| > 1 {
      LeadingDigitPositive(s[..|s| - 1]);
    }
  }

  /** Conversely, every canonical numeral (no leading zero, or just "0") is the
      rendering of the number it denotes. */
  lemma {:induction false} DecimalOfParseDecimal(s: string)
    requires |s| >= 1 && IsDigits(s)
    requires s[0] == '0' ==> |s| == 1
    ensures Decimal(ParseDecimal(s)) == s
    decreases |s|
  {
    var n := ParseDecimal(s);
    var init := s[..|s| - 1];
    var d := DigitValue(s[|s| - 1]);
    if |s| == 1 {
      assert init == [];
      assert ParseDecimal(init) == 0;
      assert n == 10 * ParseDecimal(init) + d;
      assert DigitChar(d) == s[0];
    } else {
      LeadingDigitPositive(init);
      assert n >= 10;
      assert n / 10 == ParseDecimal(init) && n % 10 == d;
      DecimalOfParseDecimal(init);
      assert DigitChar(d) == s[|s| - 1];
      assert init + [s[|s| - 1]] == s;
    }
  }
}
