/**
 * The pieces of Go's standard library that ver/ver.go leans on, stated over
 * strings of characters: `strings.Split(s, ".")`, `strconv.Atoi` and the
 * `%d` verb of `fmt.Sprintf`.
 */
module Text {
  import opened Wrappers

  /** Go's `int` and `int64` on a 64-bit platform. */
  type Int64 = x: int | -0x8000_0000_0000_0000 <= x < 0x8000_0000_0000_0000

  const MaxInt64: int := 0x7fff_ffff_ffff_ffff

  // ---------------------------------------------------------------- Split / Join

  /**
   * `strings.Split(s, ".")`: the maximal dot-free pieces of `s`, in order.
   * There is always one more piece than there are dots, so the empty string
   * gives one empty piece.
   */
  function Split(s: string): (parts: seq<string>)
    ensures |parts| >= 1
    ensures forall i :: 0 <= i < |parts| ==> '.' !in parts[i]
  {
    if s == [] then [[]]
    else
      var rest := Split(s[1..]);
      if s[0] == '.' then [[]] + rest
      else [[s[0]] + rest[0]] + rest[1..]
  }

  /** There is one more piece than there are dots. */
  lemma {:induction false} SplitCountsDots(s: string)
    ensures |Split(s)| == multiset(s)['.'] + 1
  {
    if s != [] {
      assert s == [s[0]] + s[1..];
      SplitCountsDots(s[1..]);
    }
  }

  /** An input has a dot exactly when it splits into at least two pieces. */
  lemma DotIffSeveralParts(s: string)
    ensures '.' in s <==> |Split(s)| >= 2
  {
    SplitCountsDots(s);
    assert '.' in s <==> multiset(s)['.'] > 0;
  }

  /** `strings.Join(parts, ".")`, the inverse of Split. */
  function Join(parts: seq<string>): string
    requires |parts| >= 1
  {
    if |parts| == 1 then parts[0] else parts[0] + "." + Join(parts[1..])
  }

  /** Splitting loses nothing: joining the pieces again gives back the input. */
  lemma {:induction false} JoinSplit(s: string)
    ensures Join(Split(s)) == s
  {
    if s != [] {
      JoinSplit(s[1..]);
      var rest := Split(s[1..]);
      if s[0] != '.' && |rest| > 1 {
        assert Join(rest) == rest[0] + "." + Join(rest[1..]);
        assert Join(Split(s)) == [s[0]] + rest[0] + "." + Join(rest[1..]);
      }
    }
  }

  /** Prepending a dot-free text extends the first piece only. */
  lemma {:induction false} SplitPrefix(a: string, s: string)
    requires '.' !in a
    ensures Split(a + s) == [a + Split(s)[0]] + Split(s)[1..]
  {
    if a != [] {
      assert a + s == [a[0]] + (a[1..] + s);
      SplitPrefix(a[1..], s);
      assert [a[0]] + (a[1..] + Split(s)[0]) == a + Split(s)[0];
    } else {
      assert a + s == s;
      assert a + Split(s)[0] == Split(s)[0];
      assert Split(s) == [Split(s)[0]] + Split(s)[1..];
    }
  }

  /** Pieces without dots are recovered by splitting their join. */
  lemma {:induction false} SplitJoin(parts: seq<string>)
    requires |parts| >= 1
    requires forall i :: 0 <= i < |parts| ==> '.' !in parts[i]
    ensures Split(Join(parts)) == parts
  {
    if |parts| == 1 {
      SplitPrefix(parts[0], []);
      assert parts[0] + [] == parts[0];
    } else {
      var tail := Join(parts[1..]);
      SplitJoin(parts[1..]);
      assert parts[0] + "." + tail == parts[0] + ("." + tail);
      SplitPrefix(parts[0], "." + tail);
      assert "." + tail == ['.'] + tail;
      assert Split("." + tail) == [[]] + parts[1..];
      assert parts[0] + [] == parts[0];
    }
  }

  // ---------------------------------------------------------------- decimal digits

  predicate IsDigit(c: char) {
    '0' <= c <= '9'
  }

  predicate AllDigits(s: string) {
    forall i :: 0 <= i < |s| ==> IsDigit(s[i])
  }

  function DigitValue(c: char): (d: nat)
    requires IsDigit(c)
    ensures d < 10
  {
    (c as int) - ('0' as int)
  }

  function DigitChar(d: nat): (c: char)
    requires d < 10
    ensures IsDigit(c) && DigitValue(c) == d
  {
    ('0' as int + d) as char
  }

  /** The number a string of decimal digits denotes, most significant first. */
  function DecimalValue(s: string): nat
    requires AllDigits(s)
  {
    if s == [] then 0 else DecimalValue(s[..|s| - 1]) * 10 + DigitValue(s[|s| - 1])
  }

  /**
   * The shortest decimal spelling of `n`: a non-empty run of digits that
   * denotes `n` and has no leading zero.
   */
  function NatToDecimal(n: nat): (s: string)
    ensures |s| > 0 && AllDigits(s)
    ensures DecimalValue(s) == n
    ensures |s| > 1 ==> s[0] != '0'
  {
    if n < 10 then [DigitChar(n)]
    else
      var prefix := NatToDecimal(n / 10);
      var s := prefix + [DigitChar(n % 10)];
      assert s[..|s| - 1] == prefix;
      s
  }

  // ---------------------------------------------------------------- Atoi / Itoa

  /**
   * `strconv.Atoi`: one optional sign followed by one or more decimal digits
   * (leading zeros allowed, nothing else, no spaces), whose value must fit
   * in a 64-bit signed integer; anything else is an error (None).
   */
  function Atoi(s: string): (r: Option<Int64>)
    ensures r.Some? ==> |s| > 0
    ensures r.Some? ==> forall i :: 0 <= i < |s| ==> IsDigit(s[i]) || (i == 0 && (s[i] == '+' || s[i] == '-'))
    ensures r.Some? ==> IsDigit(s[|s| - 1])
  {
    var signed := |s| > 0 && (s[0] == '+' || s[0] == '-');
    var digits := if signed then s[1..] else s;
    if |digits| == 0 || !AllDigits(digits) then None
    else
      var n: int := if signed && s[0] == '-' then -(DecimalValue(digits) as int) else DecimalValue(digits);
      if -0x8000_0000_0000_0000 <= n < 0x8000_0000_0000_0000 then Some(n) else None
  }

  /** The `%d` rendering of an integer: a minus sign for negatives, then its digits. */
  function Itoa(n: int): (s: string)
    ensures |s| > 0
    ensures forall i :: 0 <= i < |s| ==> IsDigit(s[i]) || (i == 0 && s[i] == '-')
  {
    if n < 0 then "-" + NatToDecimal(-n) else NatToDecimal(n)
  }

  /**
   * Which text `%d` prints: a minus sign exactly for a negative number, then
   * the digits of its magnitude, with no leading zero.
   */
  lemma ItoaSpelling(n: int)
    ensures Itoa(n)[0] == '-' <==> n < 0
    ensures var s := Itoa(n); var d := if n < 0 then s[1..] else s;
      |d| > 0 && AllDigits(d) && DecimalValue(d) == (if n < 0 then -n else n) && (|d| > 1 ==> d[0] != '0')
  {
    if n < 0 {
      assert Itoa(n)[1..] == NatToDecimal(-n);
    }
  }

  /** Atoi reads back every 64-bit integer that Itoa prints. */
  lemma AtoiItoa(n: Int64)
    ensures Atoi(Itoa(n)) == Some(n)
  {
    var s := Itoa(n);
    if n < 0 {
      var d := NatToDecimal(-(n as int));
      assert s == "-" + d && s[0] == '-' && s[1..] == d;
      assert Atoi(s) == Some(-(DecimalValue(d) as int));
    } else {
      assert IsDigit(s[0]);
      assert Atoi(s) == Some(DecimalValue(s));
    }
  }

  /** A leading zero does not change the number a run of digits denotes. */
  lemma {:induction false} DecimalLeadingZero(d: string)
    requires AllDigits(d)
    ensures AllDigits("0" + d) && DecimalValue("0" + d) == DecimalValue(d)
  {
    var z := "0" + d;
    assert forall i :: 0 < i < |z| ==> z[i] == d[i - 1];
    if d != [] {
      assert z[..|z| - 1] == "0" + d[..|d| - 1];
      DecimalLeadingZero(d[..|d| - 1]);
    }
  }

  /**
   * A run of digits is read as the number it denotes, leading zeros
   * included, exactly when that number fits in an int64.
   */
  lemma AtoiDigits(d: string)
    requires |d| > 0 && AllDigits(d)
    ensures Atoi(d).Some? <==> DecimalValue(d) <= MaxInt64
    ensures Atoi(d).Some? ==> Atoi(d).value == DecimalValue(d)
  {
    assert IsDigit(d[0]);
  }

  /** A sign in front of the digits reads as the number or its negation. */
  lemma AtoiSigned(d: string)
    requires |d| > 0 && AllDigits(d)
    ensures Atoi("+" + d) == Atoi(d)
    ensures Atoi("-" + d).Some? <==> DecimalValue(d) <= MaxInt64 + 1
    ensures Atoi("-" + d).Some? ==> Atoi("-" + d).value == -(DecimalValue(d) as int)
  {
    AtoiDigits(d);
    assert ("+" + d)[1..] == d;
    assert ("-" + d)[1..] == d;
  }

  /** Leading zeros are accepted and change nothing. */
  lemma AtoiLeadingZeros(d: string)
    requires |d| > 0 && AllDigits(d)
    ensures Atoi("0" + d) == Atoi(d)
  {
    DecimalLeadingZero(d);
    AtoiDigits(d);
    AtoiDigits("0" + d);
  }

  /** What Itoa prints has no dot and does not start with a `v`. */
  lemma ItoaHasNoDot(n: int)
    ensures '.' !in Itoa(n)
    ensures Itoa(n)[0] != 'v'
  {
  }
}
