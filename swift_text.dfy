/**
 * The two Swift standard-library text operations the client relies on:
 * `split(separator:)` with its default of omitting empty pieces, and the
 * failable `Int(_:)` initializer that parses a decimal string into a
 * 64-bit `Int`.
 */
module SwiftText {
  import opened Wrappers

  // ---------------------------------------------------------------------------
  // Splitting on a separator character
  // ---------------------------------------------------------------------------

  predicate AllSeparators(s: string, sep: char) {
    forall i :: 0 <= i < |s| ==> s[i] == sep
  }

  /** Length of the longest prefix of `s` that holds no separator. */
  function RunLength(s: string, sep: char): (k: nat)
    ensures k <= |s|
    ensures forall i :: 0 <= i < k ==> s[i] != sep
    ensures k < |s| ==> s[k] == sep
    decreases |s|
  {
    if s == [] || s[0] == sep then 0 else 1 + RunLength(s[1..], sep)
  }

  /**
   * `s.split(separator: sep)`: the maximal separator-free runs of `s`, in
   * order, with empty runs dropped.
   */
  function Split(s: string, sep: char): (pieces: seq<string>)
    ensures forall p :: p in pieces ==> |p| > 0 && sep !in p
    decreases |s|
  {
    if s == [] then []
    else if s[0] == sep then Split(s[1..], sep)
    else
      var k := RunLength(s, sep);
      [s[..k]] + Split(s[k..], sep)
  }

  /** The inverse direction: pieces glued with one separator between neighbours. */
  function Join(pieces: seq<string>, sep: char): string
    decreases |pieces|
  {
    if pieces == [] then []
    else if |pieces| == 1 then pieces[0]
    else pieces[0] + [sep] + Join(pieces[1..], sep)
  }

  /** `pieces.last ?? ""`. */
  function LastOrEmpty(pieces: seq<string>): string {
    if pieces == [] then "" else pieces[|pieces| - 1]
  }

  /** `s` with every trailing separator removed. */
  function TrimTrailing(s: string, sep: char): (t: string)
    ensures |t| <= |s| && t == s[..|t|]
    ensures AllSeparators(s[|t|..], sep)
    ensures t == [] || t[|t| - 1] != sep
    decreases |s|
  {
    if s != [] && s[|s| - 1] == sep then
      var t := TrimTrailing(s[..|s| - 1], sep);
      assert s[|t|..] == s[..|s| - 1][|t|..] + [sep];
      t
    else s
  }

  lemma RunLengthUnique(s: string, sep: char, k: nat)
    requires k <= |s|
    requires forall i :: 0 <= i < k ==> s[i] != sep
    requires k < |s| ==> s[k] == sep
    ensures RunLength(s, sep) == k
  {
  }

  /** Splitting yields nothing exactly when the string is all separators. */
  lemma {:induction false} SplitEmptyIffAllSeparators(s: string, sep: char)
    ensures Split(s, sep) == [] <==> AllSeparators(s, sep)
    decreases |s|
  {
    if s == [] {
    } else if s[0] == sep {
      SplitEmptyIffAllSeparators(s[1..], sep);
      if AllSeparators(s[1..], sep) {
        assert AllSeparators(s, sep) by {
          forall i | 0 <= i < |s| ensures s[i] == sep {
            if i > 0 { assert s[i] == s[1..][i - 1]; }
          }
        }
      } else {
        var i :| 0 <= i < |s[1..]| && s[1..][i] != sep;
        assert s[i + 1] != sep;
      }
    } else {
      assert Split(s, sep) != [];
    }
  }

  /** A non-empty string without separators is a single piece. */
  lemma {:induction false} SplitNoSeparator(s: string, sep: char)
    requires s != [] && sep !in s
    ensures Split(s, sep) == [s]
  {
    RunLengthUnique(s, sep, |s|);
    assert s[..|s|] == s;
    assert s[|s|..] == [];
  }

  /** Splitting distributes over a separator: the homomorphism law of `split`. */
  lemma {:induction false} SplitAroundSeparator(a: string, b: string, sep: char)
    ensures Split(a + [sep] + b, sep) == Split(a, sep) + Split(b, sep)
    decreases |a|, 1
  {
    if a == [] {
      assert (a + [sep] + b)[1..] == b;
    } else if a[0] == sep {
      SplitAroundLeadingSeparator(a, b, sep);
    } else {
      var k := RunLength(a, sep);
      RunLengthUnique(a + [sep] + b, sep, k);
      if k < |a| {
        SplitAroundSeparatorAfterRun(a, b, sep, k);
      } else {
        SplitAroundSeparatorWholeRun(a, b, sep);
      }
    }
  }

  lemma {:induction false} SplitAroundLeadingSeparator(a: string, b: string, sep: char)
    requires a != [] && a[0] == sep
    ensures Split(a + [sep] + b, sep) == Split(a, sep) + Split(b, sep)
    decreases |a|, 0
  {
    assert (a + [sep] + b)[1..] == a[1..] + [sep] + b;
    SplitAroundSeparator(a[1..], b, sep);
  }

  lemma {:induction false} SplitAroundSeparatorWholeRun(a: string, b: string, sep: char)
    requires a != [] && RunLength(a, sep) == |a| && RunLength(a + [sep] + b, sep) == |a|
    ensures Split(a + [sep] + b, sep) == Split(a, sep) + Split(b, sep)
  {
    var s := a + [sep] + b;
    var k := |a|;
    assert a[0] != sep && s[0] == a[0];
    assert a[..k] == a && a[k..] == [];
    assert Split(a, sep) == [a];
    assert s[..k] == a && s[k..] == [sep] + b;
    assert ([sep] + b)[1..] == b;
    assert Split(s[k..], sep) == Split(b, sep);
  }

  /** The inductive step of SplitAroundSeparator when the first run of `a` ends inside `a`. */
  lemma {:induction false} SplitAroundSeparatorAfterRun(a: string, b: string, sep: char, k: nat)
    requires 0 < k < |a| && k == RunLength(a, sep) && k == RunLength(a + [sep] + b, sep)
    ensures Split(a + [sep] + b, sep) == Split(a, sep) + Split(b, sep)
    decreases |a|, 0
  {
    var s := a + [sep] + b;
    assert s[..k] == a[..k];
    assert s[k..] == a[k..] + [sep] + b;
    SplitAroundSeparator(a[k..], b, sep);
  }

  /** Round trip: splitting a join of non-empty, separator-free pieces gives them back. */
  lemma {:induction false} SplitJoin(pieces: seq<string>, sep: char)
    requires forall p :: p in pieces ==> |p| > 0 && sep !in p
    ensures Split(Join(pieces, sep), sep) == pieces
    decreases |pieces|
  {
    if pieces == [] {
    } else if |pieces| == 1 {
      SplitNoSeparator(pieces[0], sep);
    } else {
      assert pieces[0] in pieces;
      SplitNoSeparator(pieces[0], sep);
      SplitJoin(pieces[1..], sep);
      SplitAroundSeparator(pieces[0], Join(pieces[1..], sep), sep);
    }
  }

  lemma {:induction false} TrimTrailingKeepsPrefix(x: string, y: string, sep: char)
    requires !AllSeparators(y, sep)
    ensures TrimTrailing(x + y, sep) == x + TrimTrailing(y, sep)
    decreases |y|
  {
    if y[|y| - 1] == sep {
      var y' := y[..|y| - 1];
      assert !AllSeparators(y', sep) by {
        var i :| 0 <= i < |y| && y[i] != sep;
        assert i < |y'| && y'[i] != sep;
      }
      assert (x + y)[..|x + y| - 1] == x + y';
      TrimTrailingKeepsPrefix(x, y', sep);
    }
  }

  lemma {:induction false} TrimTrailingDropsSeparators(x: string, y: string, sep: char)
    requires AllSeparators(y, sep)
    ensures TrimTrailing(x + y, sep) == TrimTrailing(x, sep)
    decreases |y|
  {
    if y == [] {
      assert x + y == x;
    } else {
      assert (x + y)[..|x + y| - 1] == x + y[..|y| - 1];
      TrimTrailingDropsSeparators(x, y[..|y| - 1], sep);
    }
  }

  /** `last` ends `t` and is preceded in `t` by a separator or by nothing. */
  predicate EndsComponent(last: string, t: string, sep: char) {
    && |last| <= |t|
    && t[|t| - |last|..] == last
    && (|last| == |t| || t[|t| - |last| - 1] == sep)
  }

  /** The final-component shape of `last` within `s` (see LastPieceIsFinalComponent). */
  predicate IsFinalComponent(last: string, s: string, sep: char) {
    EndsComponent(last, TrimTrailing(s, sep), sep)
  }

  lemma {:induction false} EndsComponentAfterPrefix(last: string, x: string, t: string, sep: char)
    requires EndsComponent(last, t, sep)
    requires |last| < |t| || x == [] || x[|x| - 1] == sep
    ensures EndsComponent(last, x + t, sep)
  {
    var big := x + t;
    assert big[|big| - |last|..] == t[|t| - |last|..];
    if |last| < |t| {
      assert big[|big| - |last| - 1] == t[|t| - |last| - 1];
    }
  }

  /** Leading text before a string that keeps a non-separator keeps its final component. */
  lemma {:induction false} FinalComponentAfterPrefix(last: string, x: string, u: string, sep: char)
    requires !AllSeparators(u, sep)
    requires IsFinalComponent(last, u, sep)
    requires |last| < |TrimTrailing(u, sep)| || x == [] || x[|x| - 1] == sep
    ensures IsFinalComponent(last, x + u, sep)
  {
    TrimTrailingKeepsPrefix(x, u, sep);
    EndsComponentAfterPrefix(last, x, TrimTrailing(u, sep), sep);
  }

  lemma {:induction false} FinalComponentAfterSeparator(last: string, u: string, sep: char)
    requires !AllSeparators(u, sep)
    requires IsFinalComponent(last, u, sep)
    ensures IsFinalComponent(last, [sep] + u, sep)
  {
    FinalComponentAfterPrefix(last, [sep], u, sep);
  }

  lemma {:induction false} FinalComponentAfterRun(last: string, x: string, u: string, sep: char)
    requires !AllSeparators(u, sep) && u[0] == sep
    requires |last| > 0 && sep !in last
    requires IsFinalComponent(last, u, sep)
    ensures IsFinalComponent(last, x + u, sep)
  {
    var t := TrimTrailing(u, sep);
    assert t[0] == sep;
    assert |last| < |t|;
    FinalComponentAfterPrefix(last, x, u, sep);
  }

  /**
   * The last piece of a split is the maximal separator-free suffix of the
   * string once its trailing separators are removed.
   */
  lemma {:induction false} LastPieceIsFinalComponent(s: string, sep: char)
    requires Split(s, sep) != []
    ensures IsFinalComponent(LastOrEmpty(Split(s, sep)), s, sep)
    decreases |s|
  {
    var last := LastOrEmpty(Split(s, sep));
    if s[0] == sep {
      var u := s[1..];
      assert s == [sep] + u;
      SplitEmptyIffAllSeparators(u, sep);
      LastPieceIsFinalComponent(u, sep);
      FinalComponentAfterSeparator(last, u, sep);
    } else {
      var k := RunLength(s, sep);
      var u := s[k..];
      assert s == s[..k] + u;
      SplitEmptyIffAllSeparators(u, sep);
      if Split(u, sep) == [] {
        TrimTrailingDropsSeparators(s[..k], u, sep);
        assert last == s[..k];
      } else {
        LastPieceIsFinalComponent(u, sep);
        assert last == LastOrEmpty(Split(u, sep));
        assert last in Split(u, sep);
        FinalComponentAfterRun(last, s[..k], u, sep);
      }
    }
  }

  // ---------------------------------------------------------------------------
  // Swift `Int` and `Int(_: String)`
  // ---------------------------------------------------------------------------

  const MinInt64: int := -0x8000_0000_0000_0000
  const MaxInt64: int := 0x7FFF_FFFF_FFFF_FFFF

  predicate InInt64(n: int) {
    MinInt64 <= n <= MaxInt64
  }

  /** Swift's `Int` on a 64-bit platform. */
  type Int64 = n: int | InInt64(n)

  predicate IsDigit(c: char) {
    '0' <= c <= '9'
  }

  predicate AllDigits(s: string) {
    forall i :: 0 <= i < |s| ==> IsDigit(s[i])
  }

  /** The accepted shape: an optional sign followed by at least one ASCII digit. */
  predicate IsDecimalText(s: string) {
    if |s| > 0 && (s[0] == '+' || s[0] == '-') then |s| > 1 && AllDigits(s[1..])
    else |s| > 0 && AllDigits(s)
  }

  function DigitsValue(s: string): nat
    requires AllDigits(s)
    decreases |s|
  {
    if s == [] then 0
    else 10 * DigitsValue(s[..|s| - 1]) + ((s[|s| - 1] as int) - ('0' as int))
  }

  function DigitChar(d: nat): (c: char)
    requires d < 10
    ensures IsDigit(c) && (c as int) - ('0' as int) == d
  {
    (('0' as int) + d) as char
  }

  /** The decimal digits of `n`, most significant first, without leading zeros. */
  function DecimalDigits(n: nat): (s: string)
    ensures |s| > 0 && AllDigits(s)
    decreases n
  {
    if n < 10 then [DigitChar(n)] else DecimalDigits(n / 10) + [DigitChar(n % 10)]
  }

  /** `String(n)`: the decimal text of an integer, with a leading '-' when negative. */
  function Description(n: int): string {
    if n < 0 then "-" + DecimalDigits(-n) else DecimalDigits(n)
  }

  /**
   * `Int(s)`: an optional '+' or '-', then one or more ASCII digits and
   * nothing else; no result when the text has any other shape or the value
   * does not fit in 64 bits.
   */
  function ParseInt(s: string): (r: Option<int>)
    ensures !IsDecimalText(s) ==> r.None?
    ensures r.Some? ==> InInt64(r.value)
    ensures r.Some? && s[0] != '-' ==> r.value >= 0
  {
    if |s| == 0 then None
    else
      var digits := if s[0] == '+' || s[0] == '-' then s[1..] else s;
      if |digits| == 0 || !AllDigits(digits) then None
      else
        var magnitude: int := DigitsValue(digits);
        var v: int := if s[0] == '-' then -magnitude else magnitude;
        if InInt64(v) then Some(v) else None
  }

  lemma {:induction false} DigitsRoundTrip(n: nat)
    ensures DigitsValue(DecimalDigits(n)) == n
    decreases n
  {
    var s := DecimalDigits(n);
    if n >= 10 {
      assert s[..|s| - 1] == DecimalDigits(n / 10);
      DigitsRoundTrip(n / 10);
    }
  }

  /** Parsing the decimal text of any 64-bit integer gives that integer back. */
  lemma {:induction false} ParseDescription(n: int)
    requires InInt64(n)
    ensures ParseInt(Description(n)) == Some(n)
  {
    var s := Description(n);
    if n < 0 {
      assert s[1..] == DecimalDigits(-n);
      DigitsRoundTrip(-n);
    } else {
      assert IsDigit(s[0]);
      DigitsRoundTrip(n);
    }
  }

  predicate AllZeros(s: string) {
    forall i :: 0 <= i < |s| ==> s[i] == '0'
  }

  lemma {:induction false} ZerosValue(z: string)
    requires AllZeros(z)
    ensures AllDigits(z) && DigitsValue(z) == 0
    decreases |z|
  {
    if z != [] {
      ZerosValue(z[..|z| - 1]);
    }
  }

  /** Leading zeros do not change the value of a digit string. */
  lemma {:induction false} LeadingZerosValue(z: string, d: string)
    requires AllZeros(z) && AllDigits(d)
    ensures AllDigits(z + d) && DigitsValue(z + d) == DigitsValue(d)
    decreases |d|
  {
    if d == [] {
      assert z + d == z;
      ZerosValue(z);
    } else {
      assert (z + d)[..|z + d| - 1] == z + d[..|d| - 1];
      LeadingZerosValue(z, d[..|d| - 1]);
    }
  }

  /**
   * `Int(_:)` on any decimal text: an optional sign, any number of leading
   * zeros, then the digits of a magnitude. The result is the signed
   * magnitude when it fits in 64 bits and nil when it does not.
   */
  lemma {:induction false} ParseSignedText(sign: string, d: string)
    requires sign == "" || sign == "+" || sign == "-"
    requires |d| > 0 && AllDigits(d)
    ensures var v: int := if sign == "-" then -(DigitsValue(d) as int) else DigitsValue(d);
            ParseInt(sign + d) == if InInt64(v) then Some(v) else None
  {
    var s := sign + d;
    if sign == "" {
      assert s == d && IsDigit(s[0]);
    } else {
      assert s[0] == sign[0] && s[1..] == d;
    }
  }

  lemma {:induction false} ParseSignedDigits(sign: string, zeros: string, m: nat)
    requires sign == "" || sign == "+" || sign == "-"
    requires AllZeros(zeros)
    ensures var v: int := if sign == "-" then -(m as int) else m;
            ParseInt(sign + zeros + DecimalDigits(m)) == if InInt64(v) then Some(v) else None
  {
    var d := zeros + DecimalDigits(m);
    LeadingZerosValue(zeros, DecimalDigits(m));
    DigitsRoundTrip(m);
    ParseSignedText(sign, d);
    assert sign + zeros + DecimalDigits(m) == sign + d;
  }

  /** A digit string that does not start with '0' has a positive value. */
  lemma {:induction false} LeadingDigitPositive(d: string)
    requires |d| > 0 && AllDigits(d) && d[0] != '0'
    ensures DigitsValue(d) >= 1
    decreases |d|
  {
    if |d| > 1 {
      LeadingDigitPositive(d[..|d| - 1]);
    }
  }

  /** Digits without a leading zero are the decimal digits of their own value. */
  lemma {:induction false} CanonicalDigitsRoundTrip(d: string)
    requires |d| > 0 && AllDigits(d) && (d[0] != '0' || |d| == 1)
    ensures DecimalDigits(DigitsValue(d)) == d
    decreases |d|
  {
    if |d| > 1 {
      var p := d[..|d| - 1];
      CanonicalDigitsRoundTrip(p);
      LeadingDigitPositive(p);
      var v := DigitsValue(d);
      assert v / 10 == DigitsValue(p) && v % 10 == (d[|d| - 1] as int) - ('0' as int);
      assert d == p + [d[|d| - 1]];
    }
  }

  /** The number of leading zeros before the first significant digit (a lone '0' is significant). */
  function ZeroRun(d: string): (k: nat)
    requires |d| > 0
    ensures k < |d|
    decreases |d|
  {
    if |d| > 1 && d[0] == '0' then 1 + ZeroRun(d[1..]) else 0
  }

  /**
   * Every digit string is a run of zeros followed by the decimal digits of
   * its value, so `ParseSignedDigits` covers every decimal text.
   */
  lemma {:induction false} DigitsAreZerosThenCanonical(d: string)
    requires |d| > 0 && AllDigits(d)
    ensures var k := ZeroRun(d);
            AllZeros(d[..k]) && d[k..] == DecimalDigits(DigitsValue(d))
    decreases |d|
  {
    if d[0] != '0' || |d| == 1 {
      CanonicalDigitsRoundTrip(d);
      assert d[0..] == d;
    } else {
      var rest := d[1..];
      var k := ZeroRun(rest);
      DigitsAreZerosThenCanonical(rest);
      assert d == "0" + rest;
      LeadingZerosValue("0", rest);
      assert d[..k + 1] == "0" + rest[..k];
      assert d[k + 1..] == rest[k..];
    }
  }
}
