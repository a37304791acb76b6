/** String handling shared by every reader of the corpus: reading a text
    line by line, trimming line terminators, splitting on a separator and
    joining with one, unsigned decimal integers, and the removal of control
    characters from word forms. */
module Text {
  import opened Wrappers

  /* ---------------------------------------------------------------------- */
  /* Line terminators                                                        */
  /* ---------------------------------------------------------------------- */

  predicate IsLineEnd(c: char) { c == '\n' || c == '\r' }

  /** `str::trim_end_matches(&['\n', '\r'])`: drops every trailing CR and LF,
      and nothing else. */
  function TrimLineEnd(s: string): (r: string)
    ensures r <= s
    ensures r == [] || !IsLineEnd(r[|r| - 1])
    ensures forall i :: |r| <= i < |s| ==> IsLineEnd(s[i])
  {
    if s != [] && IsLineEnd(s[|s| - 1]) then TrimLineEnd(s[..|s| - 1]) else s
  }

  /* ---------------------------------------------------------------------- */
  /* Reading a text line by line (`BufRead::read_line` until it returns 0)   */
  /* ---------------------------------------------------------------------- */

  /** Length of the first line of `s`, its '\n' included when there is one. */
  function LineLength(s: string): (k: nat)
    requires s != []
    ensures 0 < k <= |s|
    ensures forall i :: 0 <= i < k - 1 ==> s[i] != '\n'
    ensures k < |s| ==> s[k - 1] == '\n'
  {
    if s[0] == '\n' || |s| == 1 then 1 else 1 + LineLength(s[1..])
  }

  /** The successive results of `read_line` on a reader over `s`: every line
      keeps its terminating '\n'; the last one may lack it. */
  function Lines(s: string): (ls: seq<string>)
    ensures forall k :: 0 <= k < |ls| ==> ls[k] != []
    decreases |s|
  {
    if s == [] then [] else
    var k := LineLength(s);
    [s[..k]] + Lines(s[k..])
  }

  function Concat(ls: seq<string>): string
  {
    if ls == [] then [] else ls[0] + Concat(ls[1..])
  }

  /** Reading line by line loses nothing and splits only after a '\n'. */
  lemma LinesPartition(s: string)
    ensures Concat(Lines(s)) == s
    ensures forall k, i :: 0 <= k < |Lines(s)| && 0 <= i < |Lines(s)[k]| - 1 ==> Lines(s)[k][i] != '\n'
    ensures forall k :: 0 <= k < |Lines(s)| - 1 ==> Lines(s)[k][|Lines(s)[k]| - 1] == '\n'
  {
    LinesConcat(s);
    LinesInterior(s);
    LinesEnd(s);
  }

  lemma {:induction false} LinesConcat(s: string)
    ensures Concat(Lines(s)) == s
    decreases |s|
  {
    if s != [] {
      var k := LineLength(s);
      LinesConcat(s[k..]);
      assert Lines(s) == [s[..k]] + Lines(s[k..]);
      assert s[..k] + s[k..] == s;
    }
  }

  lemma {:induction false} LinesInterior(s: string)
    ensures forall k, i :: 0 <= k < |Lines(s)| && 0 <= i < |Lines(s)[k]| - 1 ==> Lines(s)[k][i] != '\n'
    decreases |s|
  {
    if s != [] {
      var n := LineLength(s);
      LinesInterior(s[n..]);
      var ls := Lines(s);
      assert ls == [s[..n]] + Lines(s[n..]);
      forall k, i | 0 <= k < |ls| && 0 <= i < |ls[k]| - 1 ensures ls[k][i] != '\n' {
        if k > 0 {
          assert ls[k] == Lines(s[n..])[k - 1];
        }
      }
    }
  }

  lemma {:induction false} LinesEnd(s: string)
    ensures forall k :: 0 <= k < |Lines(s)| - 1 ==> Lines(s)[k][|Lines(s)[k]| - 1] == '\n'
    decreases |s|
  {
    if s != [] {
      var n := LineLength(s);
      LinesEnd(s[n..]);
      var ls := Lines(s);
      assert ls == [s[..n]] + Lines(s[n..]);
      forall k | 0 <= k < |ls| - 1 ensures ls[k][|ls[k]| - 1] == '\n' {
        if k > 0 {
          assert ls[k] == Lines(s[n..])[k - 1];
        }
      }
    }
  }

  /* ---------------------------------------------------------------------- */
  /* Splitting and joining                                                   */
  /* ---------------------------------------------------------------------- */

  /** `str::split(sep)`: the pieces between separators; always at least one. */
  function Split(s: string, sep: char): (r: seq<string>)
    ensures |r| >= 1
    ensures forall k :: 0 <= k < |r| ==> sep !in r[k]
  {
    if s == [] then [""] else
    var rest := Split(s[1..], sep);
    if s[0] == sep then [""] + rest
    else [[s[0]] + rest[0]] + rest[1..]
  }

  /** Itertools' `join(sep)`: the pieces with one separator between each two. */
  function Join(xs: seq<string>, sep: string): string
  {
    if xs == [] then ""
    else if |xs| == 1 then xs[0]
    else xs[0] + sep + Join(xs[1..], sep)
  }

  /** Splitting loses nothing: joining the pieces back gives the input. */
  lemma {:induction false} JoinSplit(s: string, sep: char)
    ensures Join(Split(s, sep), [sep]) == s
  {
    if s != [] {
      JoinSplit(s[1..], sep);
      var rest := Split(s[1..], sep);
      if s[0] == sep {
        assert s == [sep] + s[1..];
      } else if |rest| == 1 {
        assert s == [s[0]] + s[1..];
      } else {
        var r := Split(s, sep);
        assert r[1..] == rest[1..];
        assert Join(r, [sep]) == [s[0]] + rest[0] + [sep] + Join(rest[1..], [sep]);
        assert s == [s[0]] + s[1..];
      }
    }
  }

  /** Joining pieces that do not contain the separator can be undone by
      splitting. */
  lemma {:induction false} SplitJoin(xs: seq<string>, sep: char)
    requires |xs| >= 1
    requires forall k :: 0 <= k < |xs| ==> sep !in xs[k]
    ensures Split(Join(xs, [sep]), sep) == xs
  {
    if |xs| == 1 {
      SplitNoSeparator(xs[0], sep);
    } else {
      SplitJoin(xs[1..], sep);
      SplitPrefix(xs[0], Join(xs[1..], [sep]), sep);
      assert xs == [xs[0]] + xs[1..];
    }
  }

  lemma {:induction false} SplitNoSeparator(s: string, sep: char)
    requires sep !in s
    ensures Split(s, sep) == [s]
  {
    if s != [] {
      SplitNoSeparator(s[1..], sep);
      assert s == [s[0]] + s[1..];
    }
  }

  /** A separator-free prefix followed by a separator becomes the first piece. */
  lemma {:induction false} SplitPrefix(a: string, b: string, sep: char)
    requires sep !in a
    ensures Split(a + [sep] + b, sep) == [a] + Split(b, sep)
  {
    if a == [] {
      assert [sep] + b == a + [sep] + b;
      assert ([sep] + b)[1..] == b;
    } else {
      SplitPrefix(a[1..], b, sep);
      assert (a + [sep] + b)[1..] == a[1..] + [sep] + b;
      assert [a[0]] + a[1..] == a;
    }
  }

  /* ---------------------------------------------------------------------- */
  /* Unsigned decimal integers (`usize::from_str`, `u16::from_str`, and      */
  /* `to_string`)                                                            */
  /* ---------------------------------------------------------------------- */

  const USIZE_MAX: nat := 0xFFFF_FFFF_FFFF_FFFF
  const U16_MAX: nat := 0xFFFF

  predicate IsAsciiDigit(c: char) { '0' <= c <= '9' }

  predicate AllDigits(s: string) { forall i :: 0 <= i < |s| ==> IsAsciiDigit(s[i]) }

  function DigitChar(d: nat): (c: char)
    requires d < 10
    ensures IsAsciiDigit(c) && (c as int) - ('0' as int) == d
  {
    ('0' as int + d) as char
  }

  /** The value of a string of decimal digits, most significant first. */
  function DigitsValue(s: string): nat
    requires AllDigits(s)
  {
    if s == [] then 0
    else 10 * DigitsValue(s[..|s| - 1]) + ((s[|s| - 1] as int) - ('0' as int))
  }

  /** `to_string` of an unsigned integer: its decimal digits, without a sign
      or leading zeros. */
  function NatToString(n: nat): (s: string)
    ensures s != [] && AllDigits(s)
    ensures |s| > 1 ==> s[0] != '0'
  {
    if n < 10 then [DigitChar(n)] else NatToString(n / 10) + [DigitChar(n % 10)]
  }

  /** `from_str` for an unsigned type whose largest value is `max`: an
      optional leading '+', then one or more ASCII digits whose value does not
      exceed `max`. */
  function ParseUnsigned(s: string, max: nat): (r: Option<nat>)
    ensures r.Some? ==> r.value <= max
    ensures r.Some? ==> s != [] && (s[0] == '+' || IsAsciiDigit(s[0]))
  {
    var digits := if |s| > 0 && s[0] == '+' then s[1..] else s;
    if digits != [] && AllDigits(digits) && DigitsValue(digits) <= max
    then Some(DigitsValue(digits))
    else None
  }

  lemma {:induction false} DigitsOfNatToString(n: nat)
    ensures DigitsValue(NatToString(n)) == n
  {
    if n >= 10 {
      DigitsOfNatToString(n / 10);
      var s := NatToString(n);
      assert s[..|s| - 1] == NatToString(n / 10);
    }
  }

  /** Printing a number and parsing it back gives the number, exactly when it
      fits the target type. */
  lemma ParseNatToString(n: nat, max: nat)
    ensures ParseUnsigned(NatToString(n), max) == if n <= max then Some(n) else None
  {
    DigitsOfNatToString(n);
  }

  /** `z` ASCII zeros. */
  function Zeros(z: nat): string
  {
    seq(z, i => '0')
  }

  /** Leading zeros do not change the value of a digit string. */
  lemma {:induction false} LeadingZerosValue(z: nat, t: string)
    requires AllDigits(t)
    ensures AllDigits(Zeros(z) + t) && DigitsValue(Zeros(z) + t) == DigitsValue(t)
    decreases |t|, z
  {
    var s := Zeros(z) + t;
    if t == [] {
      assert s == Zeros(z);
      if z > 0 {
        assert s[..|s| - 1] == Zeros(z - 1) + [];
        LeadingZerosValue(z - 1, []);
      }
    } else {
      assert s[..|s| - 1] == Zeros(z) + t[..|t| - 1];
      LeadingZerosValue(z, t[..|t| - 1]);
    }
  }

  /** A digit string that starts with a non-zero digit has a positive value. */
  lemma {:induction false} LeadingDigitValue(c: string)
    requires c != [] && AllDigits(c) && c[0] != '0'
    ensures DigitsValue(c) >= 1
    decreases |c|
  {
    if |c| > 1 {
      var init := c[..|c| - 1];
      assert init[0] == c[0];
      LeadingDigitValue(init);
    } else {
      assert c[..0] == [];
    }
  }

  /** A digit string without leading zeros is the decimal form of its value. */
  lemma {:induction false} CanonicalDigits(c: string)
    requires c != [] && AllDigits(c) && (|c| > 1 ==> c[0] != '0')
    ensures NatToString(DigitsValue(c)) == c
    decreases |c|
  {
    var n := DigitsValue(c);
    var d := (c[|c| - 1] as int) - ('0' as int);
    if |c| == 1 {
      assert c[..0] == [];
      assert n == d;
      assert DigitChar(d) == c[0];
    } else {
      var init := c[..|c| - 1];
      assert init[0] == c[0];
      LeadingDigitValue(init);
      CanonicalDigits(init);
      assert n == 10 * DigitsValue(init) + d;
      assert n / 10 == DigitsValue(init) && n % 10 == d;
      assert DigitChar(d) == c[|c| - 1];
      assert c == init + [c[|c| - 1]];
    }
  }

  /** Every digit string is some leading zeros followed by a digit string
      without leading zeros. */
  lemma {:induction false} StripZeros(s: string) returns (z: nat)
    requires s != [] && AllDigits(s)
    ensures z < |s| && s == Zeros(z) + s[z..]
    ensures |s| - z > 1 ==> s[z] != '0'
    decreases |s|
  {
    if |s| > 1 && s[0] == '0' {
      var z' := StripZeros(s[1..]);
      z := z' + 1;
      assert s[1..][z'..] == s[z..];
      assert Zeros(z) == ['0'] + Zeros(z');
      assert s == [s[0]] + s[1..];
    } else {
      z := 0;
      assert s == Zeros(0) + s[0..];
    }
  }

  /** Every digit string is leading zeros followed by the decimal form of its
      value. */
  lemma DigitsForm(digits: string) returns (z: nat)
    requires digits != [] && AllDigits(digits)
    ensures digits == Zeros(z) + NatToString(DigitsValue(digits))
  {
    z := StripZeros(digits);
    var c := digits[z..];
    assert |c| > 1 ==> c[0] == digits[z];
    CanonicalDigits(c);
    LeadingZerosValue(z, c);
  }

  /** A string `from_str` accepts is an optional '+', leading zeros and the
      decimal form of the value. */
  lemma ParsedForm(s: string, max: nat, n: nat) returns (z: nat)
    requires ParseUnsigned(s, max) == Some(n)
    ensures s == Zeros(z) + NatToString(n) || s == "+" + Zeros(z) + NatToString(n)
  {
    var digits := if |s| > 0 && s[0] == '+' then s[1..] else s;
    z := DigitsForm(digits);
    if |s| > 0 && s[0] == '+' {
      assert s == "+" + digits;
    }
  }

  /** `from_str` accepts the decimal form of a number that fits, with any
      leading zeros, with or without a '+'. */
  lemma ParsesForm(s: string, max: nat, n: nat, z: nat)
    requires n <= max
    requires s == Zeros(z) + NatToString(n) || s == "+" + Zeros(z) + NatToString(n)
    ensures ParseUnsigned(s, max) == Some(n)
  {
    var t := Zeros(z) + NatToString(n);
    LeadingZerosValue(z, NatToString(n));
    DigitsOfNatToString(n);
    if s == t {
      assert IsAsciiDigit(s[0]);
    } else {
      assert s[1..] == t;
    }
  }

  /** `from_str` accepts exactly the decimal form of a number that fits the
      type, after an optional '+' and any number of leading zeros. */
  lemma ParseUnsignedAccepts(s: string, max: nat, n: nat)
    ensures ParseUnsigned(s, max) == Some(n) <==>
      n <= max && exists z: nat :: s == Zeros(z) + NatToString(n) || s == "+" + Zeros(z) + NatToString(n)
  {
    if ParseUnsigned(s, max) == Some(n) {
      var z := ParsedForm(s, max, n);
    }
    if n <= max && exists z: nat :: s == Zeros(z) + NatToString(n) || s == "+" + Zeros(z) + NatToString(n) {
      var z: nat :| s == Zeros(z) + NatToString(n) || s == "+" + Zeros(z) + NatToString(n);
      ParsesForm(s, max, n, z);
    }
  }

  /* ---------------------------------------------------------------------- */
  /* Control characters (`char::is_control`, `word_cleanup`)                 */
  /* ---------------------------------------------------------------------- */

  /** Unicode general category Cc: U+0000 to U+001F and U+007F to U+009F. */
  predicate IsControl(c: char)
  {
    c <= '\U{1F}' || ('\U{7F}' <= c <= '\U{9F}')
  }

  /** `word_cleanup`: every control character removed, the rest kept in order. */
  function WordCleanup(x: string): (r: string)
    ensures forall i :: 0 <= i < |r| ==> !IsControl(r[i])
    ensures forall c :: c in r <==> c in x && !IsControl(c)
    ensures (forall i :: 0 <= i < |x| ==> !IsControl(x[i])) ==> r == x
  {
    if x == [] then []
    else (if IsControl(x[0]) then [] else [x[0]]) + WordCleanup(x[1..])
  }

  /** Cleaning twice is cleaning once. */
  lemma CleanupIdempotent(x: string)
    ensures WordCleanup(WordCleanup(x)) == WordCleanup(x)
  {
  }

  /** Cleaning works piece by piece: the result of a concatenation is the
      concatenation of the results. */
  lemma {:induction false} CleanupConcat(a: string, b: string)
    ensures WordCleanup(a + b) == WordCleanup(a) + WordCleanup(b)
  {
    if a != [] {
      var head := if IsControl(a[0]) then [] else [a[0]];
      assert (a + b)[0] == a[0] && (a + b)[1..] == a[1..] + b;
      assert WordCleanup(a + b) == head + WordCleanup(a[1..] + b);
      CleanupConcat(a[1..], b);
      assert WordCleanup(a) == head + WordCleanup(a[1..]);
    } else {
      assert a + b == b;
    }
  }
}
