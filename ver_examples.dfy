/** The concrete cases the package's table tests pin down, checked against the model. */
module VerExamples {
  import opened Wrappers
  import opened Text
  import opened Ver

  /**
   * An input written as its dot-free parts parses as those parts. The
   * parsing examples below name their input through a parameter equal to
   * the literal, which keeps the verifier from unfolding Split on the literal.
   */
  lemma ParseOfJoin(input: string, parts: seq<string>)
    requires |parts| >= 1 && forall i :: 0 <= i < |parts| ==> '.' !in parts[i]
    requires input == Join(parts)
    ensures Parse(input) == ParseParts(parts)
  {
    SplitJoin(parts);
  }

  lemma SmallNumerals()
    ensures Itoa(0) == "0" && Itoa(1) == "1" && Itoa(2) == "2" && Itoa(3) == "3" && Itoa(7) == "7"
    ensures Atoi("0") == Some(0) && Atoi("1") == Some(1) && Atoi("2") == Some(2) && Atoi("3") == Some(3)
  {
    AtoiItoa(0);
    AtoiItoa(1);
    AtoiItoa(2);
    AtoiItoa(3);
  }

  lemma Numeral203()
    ensures Itoa(203) == "203" && Atoi("203") == Some(203)
  {
    assert NatToDecimal(20) == "20";
    AtoiItoa(203);
  }

  /** Leading zeros are accepted: "01" reads as 1. */
  lemma AtoiLeadingZero()
    ensures Atoi("01") == Some(1)
  {
    assert "01"[..1] == "0";
    assert DecimalValue("0") == 0;
  }

  lemma ParseLeadingZero(input: string)
    requires input == "0.01.0"
    ensures Parse(input) == Success(Version(0, 1, 0, 0))
  {
    ParseOfJoin(input, ["0", "01", "0"]);
    SmallNumerals();
    AtoiLeadingZero();
  }

  lemma ParseStripsV(input: string)
    requires input == "v2.0"
    ensures Parse(input) == Success(Version(2, 0, 0, 0))
  {
    ParseOfJoin(input, ["v2", "0"]);
    SmallNumerals();
    assert StripV("v2") == "2";
  }

  lemma ParseTwoParts(input: string)
    requires input == "1.203"
    ensures Parse(input) == Success(Version(1, 203, 0, 0))
  {
    ParseOfJoin(input, ["1", "203"]);
    SmallNumerals();
    Numeral203();
    assert ToString(Version(1, 203, 0, 0)) == Join(["1", "203", "0"]);
  }

  /** Parse accepts a negative build. */
  lemma ParseNegativeBuild(input: string)
    requires input == "1.2.3.-4"
    ensures Parse(input) == Success(Version(1, 2, 3, -4))
  {
    ParseOfJoin(input, ["1", "2", "3", "-4"]);
    SmallNumerals();
    assert Itoa(-4) == "-4";
    AtoiItoa(-4);
  }

  lemma ToStringThreeParts()
    ensures ToString(Version(0, 0, 0, 0)) == "0.0.0"
    ensures ToString(Version(0, 1, 0, 0)) == "0.1.0"
  {
    SmallNumerals();
    assert ToString(Version(0, 0, 0, 0)) == Join(["0", "0", "0"]);
    assert ToString(Version(0, 1, 0, 0)) == Join(["0", "1", "0"]);
  }

  lemma ToStringPatchParts()
    ensures ToString(Version(3, 3, 3, 0)) == "3.3.3"
    ensures ToString(Version(0, 0, 1, 0)) == "0.0.1"
  {
    SmallNumerals();
    assert ToString(Version(3, 3, 3, 0)) == Join(["3", "3", "3"]);
    assert ToString(Version(0, 0, 1, 0)) == Join(["0", "0", "1"]);
  }

  lemma ToStringFourParts()
    ensures ToString(Version(2, 0, 0, 1)) == "2.0.0.1"
    ensures ToString(Version(0, 0, 0, 1)) == "0.0.0.1"
  {
    SmallNumerals();
    assert ToString(Version(2, 0, 0, 1)) == Join(["2", "0", "0", "1"]);
    assert ToString(Version(0, 0, 0, 1)) == Join(["0", "0", "0", "1"]);
  }

  lemma ToStringAllFields()
    ensures ToString(Version(1, 3, 3, 7)) == "1.3.3.7"
  {
    SmallNumerals();
    assert ToString(Version(1, 3, 3, 7)) == Join(["1", "3", "3", "7"]);
  }

  lemma ToStringDropsZeroBuild()
    ensures ToString(Version(1, 203, 0, 0)) == "1.203.0"
  {
    SmallNumerals();
    Numeral203();
    assert ToString(Version(1, 203, 0, 0)) == Join(["1", "203", "0"]);
  }

  /** A negative build is not printed. */
  lemma ToStringDropsNegativeBuild()
    ensures ToString(Version(1, 2, 3, -4)) == "1.2.3"
  {
    SmallNumerals();
    assert ToString(Version(1, 2, 3, -4)) == Join(["1", "2", "3"]);
  }

  /** The canonical inputs of the table parse back to their versions. */
  lemma ParseCanonical()
    ensures Parse("0.0.0") == Success(Version(0, 0, 0, 0))
    ensures Parse("2.0.0.1") == Success(Version(2, 0, 0, 1))
    ensures Parse("0.0.0.1") == Success(Version(0, 0, 0, 1))
  {
    ToStringThreeParts();
    ToStringFourParts();
    ParseToString(Version(0, 0, 0, 0));
    ParseToString(Version(2, 0, 0, 1));
    ParseToString(Version(0, 0, 0, 1));
  }

  lemma ParseCanonicalPatch()
    ensures Parse("3.3.3") == Success(Version(3, 3, 3, 0))
    ensures Parse("0.0.1") == Success(Version(0, 0, 1, 0))
    ensures Parse("1.3.3.7") == Success(Version(1, 3, 3, 7))
  {
    ToStringPatchParts();
    ToStringAllFields();
    ParseToString(Version(3, 3, 3, 0));
    ParseToString(Version(0, 0, 1, 0));
    ParseToString(Version(1, 3, 3, 7));
  }

  lemma ParseNoDot()
    ensures Parse("0") == Failure(NoMajorMinor)
  {
    ParseNoMajorMinor("0");
  }

  lemma ParseBadBuild(input: string)
    requires input == "0.0.0.a"
    ensures Parse(input) == Failure(InvalidNumber(Build, "a"))
  {
    ParseOfJoin(input, ["0", "0", "0", "a"]);
  }

  lemma ParseBadPatch(input: string)
    requires input == "0.0.a.0"
    ensures Parse(input) == Failure(InvalidNumber(Patch, "a"))
  {
    ParseOfJoin(input, ["0", "0", "a", "0"]);
    SmallNumerals();
  }

  lemma ParseBadMinor(input: string)
    requires input == "0.a.0.0"
    ensures Parse(input) == Failure(InvalidNumber(Minor, "a"))
  {
    ParseOfJoin(input, ["0", "a", "0", "0"]);
    SmallNumerals();
  }

  lemma ParseBadMajor(input: string)
    requires input == "a.0.0.0"
    ensures Parse(input) == Failure(InvalidNumber(Major, "a"))
  {
    ParseOfJoin(input, ["a", "0", "0", "0"]);
    SmallNumerals();
  }

  /** With every part bad, the build is the one reported. */
  lemma ParseAllBad(input: string)
    requires input == "a.b.c.d"
    ensures Parse(input) == Failure(InvalidNumber(Build, "d"))
  {
    ParseOfJoin(input, ["a", "b", "c", "d"]);
  }

  /** The major error quotes the part as written, `v` included. */
  lemma ParseBadMajorQuotesV(input: string)
    requires input == "va.0"
    ensures Parse(input) == Failure(InvalidNumber(Major, "va"))
  {
    ParseOfJoin(input, ["va", "0"]);
    SmallNumerals();
    assert StripV("va") == "a";
  }

  lemma MessageNoMajorMinor()
    ensures Message(NoMajorMinor) == "no major.minor elements found"
  {
  }

  lemma MessageBuildError()
    ensures Message(InvalidNumber(Build, "a")) == "invalid build number: \"a\""
  {
    assert QuoteBody("a") == "a";
  }

  lemma MessagePatchError()
    ensures Message(InvalidNumber(Patch, "a")) == "invalid patch number: \"a\""
  {
    assert QuoteBody("a") == "a";
  }

  lemma MessageMinorError()
    ensures Message(InvalidNumber(Minor, "a")) == "invalid minor number: \"a\""
  {
    assert QuoteBody("a") == "a";
  }

  lemma MessageMajorError()
    ensures Message(InvalidNumber(Major, "a")) == "invalid major number: \"a\""
  {
    assert QuoteBody("a") == "a";
  }

  lemma CompareExamples()
    ensures Compare(Version(1, 2, 0, 0), Version(1, 2, 1, 0)) == -1
    ensures Compare(Version(1, 2, 1, 0), Version(1, 2, 0, 0)) == 1
    ensures Compare(Version(1, 2, 1, 0), Version(2, 0, 1, 0)) == -1
    ensures Compare(Version(1, 2, 1, 0), Version(1, 2, 1, 0)) == 0
  {
  }

  lemma ValueExample()
    ensures Value(Version(8, 5, 1, 0)) == 8005001000
  {
  }

  /** Scanning 8005001000 and printing the result gives "8.5.1"; scanning -1 is refused. */
  method ScanExamples() returns (s: string, bad: Option<ScanError>)
    ensures s == "8.5.1"
    ensures bad == Some(NotPositive) && ScanMessage(bad.value) == "value must be positive"
  {
    var target := new VersionVar(Version(0, 0, 0, 0));
    var err := target.Scan(Int64Value(8005001000));
    CompareIsLexicographic(target.Get(), Version(8, 5, 1, 0));
    assert Itoa(8) == "8" && Itoa(5) == "5" && Itoa(1) == "1" && Itoa(0) == "0";
    s := ToString(target.Get());
    assert s == Join(["8", "5", "1"]);
    bad := target.Scan(Int64Value(-1));
  }
}
