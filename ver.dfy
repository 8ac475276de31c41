/**
 * A four-part version number Major.Minor.Patch.Build: parsing from a dotted
 * string, ordering through a single ordinal, rendering back to text, and the
 * integer codec a database column uses (Value / Scan).
 *
 * The ordinal and Value are computed on unbounded integers; Go's 64-bit
 * `int` wraps around whenever the ordinal leaves the int64 range.
 */
module Ver {
  import opened Wrappers
  import opened Text

  /** A version: four signed 64-bit numbers, nothing else. */
  datatype Version = Version(major: Int64, minor: Int64, patch: Int64, build: Int64)

  /** The four fields, named as the parse errors name them. */
  datatype Field = Major | Minor | Patch | Build

  datatype ParseError =
    | NoMajorMinor
    | InvalidNumber(field: Field, raw: string)

  // ---------------------------------------------------------------- Parse

  /** Which dotted part holds the field: major is the first part, build the fourth. */
  function Position(f: Field): nat {
    match f
    case Major => 0
    case Minor => 1
    case Patch => 2
    case Build => 3
  }

  /** One leading `v` is dropped from the major part before it is read. */
  function StripV(raw: string): (txt: string)
    ensures |raw| > 0 && raw[0] == 'v' ==> raw == ['v'] + txt
    ensures (|raw| == 0 || raw[0] != 'v') ==> txt == raw
  {
    if |raw| > 0 && raw[0] == 'v' then raw[1..] else raw
  }

  /** The text Atoi is given for a field, from that field's raw part. */
  function NumberText(f: Field, raw: string): string {
    if f == Major then StripV(raw) else raw
  }

  /** Reads one field; a failure quotes the raw part, `v` included. */
  function ParseField(f: Field, raw: string): (r: Result<Int64, ParseError>)
    ensures r.Success? <==> Atoi(NumberText(f, raw)).Some?
    ensures r.Success? ==> Atoi(NumberText(f, raw)) == Some(r.value)
    ensures r.Failure? ==> r.error == InvalidNumber(f, raw)
  {
    match Atoi(NumberText(f, raw))
    case Some(n) => Success(n)
    case None => Failure(InvalidNumber(f, raw))
  }

  /**
   * Parse splits on dots and needs at least two parts. It reads the fourth
   * part (build) first and the first part (major) last, and stops at the
   * first part that is not a number, so that is the one reported. Absent
   * patch and build are 0; parts after the fourth are ignored.
   */
  function Parse(input: string): (r: Result<Version, ParseError>)
    ensures r.Failure? && r.error.InvalidNumber? ==>
      Position(r.error.field) < |Split(input)| && r.error.raw == Split(input)[Position(r.error.field)]
  {
    ParseParts(Split(input))
  }

  /** The body of Parse once the input is split: the `switch` that falls through from build to major. */
  function ParseParts(parts: seq<string>): (r: Result<Version, ParseError>)
    ensures r.Failure? && r.error.InvalidNumber? ==>
      Position(r.error.field) < |parts| && r.error.raw == parts[Position(r.error.field)]
  {
    if |parts| < 2 then Failure(NoMajorMinor)
    else
      var build :- if |parts| > 3 then ParseField(Build, parts[3]) else Success(0);
      var patch :- if |parts| > 2 then ParseField(Patch, parts[2]) else Success(0);
      var minor :- ParseField(Minor, parts[1]);
      var major :- ParseField(Major, parts[0]);
      Success(Version(major, minor, patch, build))
  }

  /** The field's part is present but is not a number Atoi accepts. */
  predicate Malformed(parts: seq<string>, f: Field) {
    Position(f) < |parts| && Atoi(NumberText(f, parts[Position(f)])).None?
  }

  /** The value a well-formed input gives a field: its number, or 0 when the part is absent. */
  function Expected(parts: seq<string>, f: Field): int
    requires !Malformed(parts, f)
  {
    if Position(f) < |parts| then Atoi(NumberText(f, parts[Position(f)])).value else 0
  }

  /** Parse on an input with a dot, laid out as the first malformed field in checking order. */
  lemma ParseCascade(parts: seq<string>)
    requires |parts| >= 2
    ensures ParseParts(parts) ==
        if Malformed(parts, Build) then Failure(InvalidNumber(Build, parts[3]))
        else if Malformed(parts, Patch) then Failure(InvalidNumber(Patch, parts[2]))
        else if Malformed(parts, Minor) then Failure(InvalidNumber(Minor, parts[1]))
        else if Malformed(parts, Major) then Failure(InvalidNumber(Major, parts[0]))
        else Success(Version(Expected(parts, Major), Expected(parts, Minor), Expected(parts, Patch), Expected(parts, Build)))
  {
  }

  /** An input without a dot is the one and only cause of NoMajorMinor. */
  lemma ParseNoMajorMinor(input: string)
    ensures Parse(input) == Failure(NoMajorMinor) <==> '.' !in input
  {
    DotIffSeveralParts(input);
    if '.' in input {
      ParseCascade(Split(input));
    }
  }

  /**
   * When several parts are bad, the error names the one checked first:
   * build, then patch, then minor, then major.
   */
  lemma ParseReportsFirstMalformed(input: string, f: Field)
    requires '.' in input
    ensures var parts := Split(input);
      (Parse(input).Failure? && Parse(input).error.InvalidNumber? && Parse(input).error.field == f)
      <==> (Malformed(parts, f) && forall g :: Position(f) < Position(g) ==> !Malformed(parts, g))
  {
    DotIffSeveralParts(input);
    ParseCascade(Split(input));
    var parts := Split(input);
    forall g | Position(f) < Position(g) && Malformed(parts, g)
      ensures !(Parse(input).Failure? && Parse(input).error.InvalidNumber? && Parse(input).error.field == f)
    {
    }
  }

  /** Parse succeeds exactly when no present part is malformed, and then each field is that part's number. */
  lemma ParseSucceeds(input: string)
    ensures var parts := Split(input);
      Parse(input).Success? <==> '.' in input && forall f :: !Malformed(parts, f)
    ensures var parts := Split(input);
      Parse(input).Success? ==>
        && !Malformed(parts, Major) && !Malformed(parts, Minor)
        && !Malformed(parts, Patch) && !Malformed(parts, Build)
        && Parse(input).value ==
             Version(Expected(parts, Major), Expected(parts, Minor), Expected(parts, Patch), Expected(parts, Build))
  {
    var parts := Split(input);
    assert Parse(input) == ParseParts(parts);
    DotIffSeveralParts(input);
    if '.' in input {
      ParseCascade(parts);
    }
  }

  /** Parts after the fourth are never looked at. */
  lemma ParseIgnoresExtraParts(input: string)
    requires |Split(input)| > 4
    ensures Parse(input) == Parse(Join(Split(input)[..4]))
  {
    var parts := Split(input);
    var kept := parts[..4];
    assert forall i :: 0 <= i < |kept| ==> '.' !in kept[i];
    SplitJoin(kept);
    ParseCascade(Split(input));
    ParseCascade(Split(Join(kept)));
    forall f ensures Malformed(parts, f) == Malformed(kept, f) {
    }
  }

  // ---------------------------------------------------------------- messages

  function FieldName(f: Field): string {
    match f
    case Major => "major"
    case Minor => "minor"
    case Patch => "patch"
    case Build => "build"
  }

  /** `%q` for the characters it escapes with a backslash alone: the quote and the backslash. */
  function Quote(s: string): (q: string)
    ensures |q| >= |s| + 2 && q[0] == '"' && q[|q| - 1] == '"'
  {
    "\"" + QuoteBody(s) + "\""
  }

  /** The inside of the quotes: each `"` and `\` gets a backslash in front, every other character is kept. */
  function QuoteBody(s: string): (b: string)
    ensures |b| >= |s|
    ensures ('"' !in s && '\\' !in s) ==> b == s
    ensures ('"' in s || '\\' in s) ==> |b| > |s|
  {
    if s == [] then []
    else
      var c := s[0];
      assert s == [c] + s[1..];
      (if c == '"' || c == '\\' then ['\\', c] else [c]) + QuoteBody(s[1..])
  }

  /**
   * The text the error carries: an invalid number is reported as
   * "invalid <field> number: " followed by the quoted raw part.
   */
  function Message(e: ParseError): (m: string)
    ensures e.InvalidNumber? <==> |m| >= 8 && m[..8] == "invalid "
    ensures e.InvalidNumber? ==>
      |m| == 22 + |Quote(e.raw)| && m[..22] == "invalid " + FieldName(e.field) + " number: " && m[22..] == Quote(e.raw)
  {
    match e
    case NoMajorMinor =>
      var m := "no major.minor elements found";
      assert m[..8][0] == 'n';
      m
    case InvalidNumber(f, raw) => "invalid " + FieldName(f) + " number: " + Quote(raw)
  }

  /** Different fields have different names, all five letters long. */
  lemma FieldNameInjective(f: Field, g: Field)
    ensures |FieldName(f)| == 5
    ensures FieldName(f) == FieldName(g) ==> f == g
  {
  }

  /** Quoting loses nothing: different texts quote differently. */
  lemma {:induction false} QuoteBodyInjective(s: string, t: string)
    requires QuoteBody(s) == QuoteBody(t)
    ensures s == t
  {
    if s == [] || t == [] {
      assert |QuoteBody(s)| >= |s| && |QuoteBody(t)| >= |t|;
    } else {
      var bs, bt := QuoteBody(s), QuoteBody(t);
      var c, d := s[0], t[0];
      var hs := if c == '"' || c == '\\' then ['\\', c] else [c];
      var ht := if d == '"' || d == '\\' then ['\\', d] else [d];
      assert bs == hs + QuoteBody(s[1..]);
      assert bt == ht + QuoteBody(t[1..]);
      assert hs == ht by {
        assert bs[0] == hs[0] && bt[0] == ht[0];
        if |hs| == 2 {
          assert bs[1] == hs[1] && bt[1] == ht[1];
        }
      }
      assert QuoteBody(s[1..]) == bs[|hs|..] == bt[|ht|..] == QuoteBody(t[1..]);
      QuoteBodyInjective(s[1..], t[1..]);
      assert s == [c] + s[1..] && t == [d] + t[1..];
    }
  }

  /** The message identifies the error: different errors never read the same. */
  lemma MessageIdentifiesError(e: ParseError, e': ParseError)
    requires Message(e) == Message(e')
    ensures e == e'
  {
    var m := Message(e);
    if e.InvalidNumber? && e'.InvalidNumber? {
      FieldNameInjective(e.field, e'.field);
      assert m[8..13] == FieldName(e.field) && m[8..13] == FieldName(e'.field) by {
        assert m[..22][8..13] == FieldName(e.field);
        assert Message(e')[..22][8..13] == FieldName(e'.field);
      }
      var q, q' := Quote(e.raw), Quote(e'.raw);
      assert q == q';
      assert QuoteBody(e.raw) == q[1..|q| - 1] == q'[1..|q'| - 1] == QuoteBody(e'.raw);
      QuoteBodyInjective(e.raw, e'.raw);
    }
  }

  // ---------------------------------------------------------------- String

  /**
   * `%d.%d.%d.%d` when Build is positive, `%d.%d.%d` otherwise: a zero or
   * negative build is not printed.
   */
  function ToString(v: Version): (s: string)
    ensures Split(s) ==
      if v.build > 0 then [Itoa(v.major), Itoa(v.minor), Itoa(v.patch), Itoa(v.build)]
      else [Itoa(v.major), Itoa(v.minor), Itoa(v.patch)]
  {
    var parts :=
      if v.build > 0 then [Itoa(v.major), Itoa(v.minor), Itoa(v.patch), Itoa(v.build)]
      else [Itoa(v.major), Itoa(v.minor), Itoa(v.patch)];
    ItoaHasNoDot(v.major);
    ItoaHasNoDot(v.minor);
    ItoaHasNoDot(v.patch);
    ItoaHasNoDot(v.build);
    SplitJoin(parts);
    Join(parts)
  }

  /**
   * Parsing the rendering always succeeds and gives the version back, except
   * that a negative build comes back as 0; so the round trip is exact
   * precisely when Build is not negative.
   */
  lemma ParseToString(v: Version)
    ensures Parse(ToString(v)) == Success(if v.build > 0 then v else v.(build := 0))
    ensures Parse(ToString(v)) == Success(v) <==> v.build >= 0
  {
    if v.build > 0 {
      ParseRendered(v, [Itoa(v.major), Itoa(v.minor), Itoa(v.patch), Itoa(v.build)]);
    } else {
      ParseRendered(v, [Itoa(v.major), Itoa(v.minor), Itoa(v.patch)]);
    }
  }

  /** ParseParts reads back the printed fields; a fourth part is read as the build. */
  lemma ParseRendered(v: Version, parts: seq<string>)
    requires parts == [Itoa(v.major), Itoa(v.minor), Itoa(v.patch)] ||
             parts == [Itoa(v.major), Itoa(v.minor), Itoa(v.patch), Itoa(v.build)]
    ensures ParseParts(parts) == Success(if |parts| == 4 then v else v.(build := 0))
  {
    ReadsBack(Major, v.major);
    ReadsBack(Minor, v.minor);
    ReadsBack(Patch, v.patch);
    ReadsBack(Build, v.build);
  }

  /** Every field reads back the number Itoa prints for it. */
  lemma ReadsBack(f: Field, n: Int64)
    ensures ParseField(f, Itoa(n)) == Success(n)
  {
    ItoaHasNoDot(n);
    assert NumberText(f, Itoa(n)) == Itoa(n);
    AtoiItoa(n);
  }

  // ---------------------------------------------------------------- ordering

  /**
   * The ordinal behind every comparison: weights 10^9, 10^6, 10^3 and 1.
   * Within the bounds, the fields are the ordinal's groups of digits, which
   * is how Scan cuts them out again.
   */
  function Ord(v: Version): (r: int)
    ensures Bounded(v) ==>
      && r / 1_000_000_000 == v.major
      && (r % 1_000_000_000) / 1_000_000 == v.minor
      && ((r % 1_000_000_000) % 1_000_000) / 1_000 == v.patch
      && ((r % 1_000_000_000) % 1_000_000) % 1_000 == v.build
  {
    var r := v.major * 1_000_000_000 + v.minor * 1_000_000 + v.patch * 1_000 + v.build;
    if Bounded(v) then OrdGroups(v); r else r
  }

  /** The three cuts of Scan each recover one field from a bounded version's weighted sum. */
  lemma OrdGroups(v: Version)
    requires Bounded(v)
    ensures var r := v.major * 1_000_000_000 + v.minor * 1_000_000 + v.patch * 1_000 + v.build;
      && r / 1_000_000_000 == v.major
      && (r % 1_000_000_000) / 1_000_000 == v.minor
      && ((r % 1_000_000_000) % 1_000_000) / 1_000 == v.patch
      && ((r % 1_000_000_000) % 1_000_000) % 1_000 == v.build
  {
    var low := v.patch * 1_000 + v.build;
    var mid := v.minor * 1_000_000 + low;
    assert low / 1_000 == v.patch && low % 1_000 == v.build;
    assert mid / 1_000_000 == v.minor && mid % 1_000_000 == low;
  }

  /** -1, 0 or 1 as v's ordinal is below, equal to or above o's. */
  function Compare(v: Version, o: Version): (r: int)
    ensures r == -1 || r == 0 || r == 1
    ensures r < 0 <==> Ord(v) < Ord(o)
    ensures r > 0 <==> Ord(v) > Ord(o)
  {
    var a, b := Ord(v), Ord(o);
    if a < b then -1
    else if a > b then 1
    else 0
  }

  /** v sorts before o exactly when its ordinal is smaller. */
  predicate Less(v: Version, o: Version)
    ensures Less(v, o) <==> Ord(v) < Ord(o)
  {
    Compare(v, o) == -1
  }

  /** v and o are equal exactly when their ordinals are, whatever their fields. */
  predicate Equals(v: Version, o: Version)
    ensures Equals(v, o) <==> Ord(v) == Ord(o)
  {
    Compare(v, o) == 0
  }

  /** v sorts after o exactly when its ordinal is larger. */
  predicate Greater(v: Version, o: Version)
    ensures Greater(v, o) <==> Ord(v) > Ord(o)
  {
    Compare(v, o) == 1
  }

  /** Swapping the operands negates the answer; a version is equal to itself. */
  lemma CompareAntisymmetric(a: Version, b: Version)
    ensures Compare(a, b) == -Compare(b, a)
    ensures Compare(a, a) == 0
  {
  }

  /** Compare orders versions transitively, so it is a total preorder. */
  lemma CompareTransitive(a: Version, b: Version, c: Version)
    ensures Compare(a, b) <= 0 && Compare(b, c) <= 0 ==> Compare(a, c) <= 0
    ensures Compare(a, b) < 0 && Compare(b, c) <= 0 ==> Compare(a, c) < 0
    ensures Compare(a, b) == 0 && Compare(b, c) == 0 ==> Compare(a, c) == 0
  {
  }

  /** Exactly one of Less, Equals and Greater holds of any two versions. */
  lemma Trichotomy(a: Version, b: Version)
    ensures Less(a, b) || Equals(a, b) || Greater(a, b)
    ensures !(Less(a, b) && Equals(a, b)) && !(Less(a, b) && Greater(a, b)) && !(Equals(a, b) && Greater(a, b))
    ensures Less(a, b) <==> Greater(b, a)
  {
  }

  /** The range in which the ordinal keeps the fields apart. */
  predicate Bounded(v: Version) {
    0 <= v.minor < 1000 && 0 <= v.patch < 1000 && 0 <= v.build < 1000
  }

  function CompareInts(x: int, y: int): int {
    if x < y then -1 else if x > y then 1 else 0
  }

  /** Field-by-field comparison, major first: the order a reader expects. */
  function Lexicographic(v: Version, o: Version): int {
    if v.major != o.major then CompareInts(v.major, o.major)
    else if v.minor != o.minor then CompareInts(v.minor, o.minor)
    else if v.patch != o.patch then CompareInts(v.patch, o.patch)
    else CompareInts(v.build, o.build)
  }

  /** Within the bounds, comparing ordinals is comparing fields lexicographically. */
  lemma CompareIsLexicographic(a: Version, b: Version)
    requires Bounded(a) && Bounded(b)
    ensures Compare(a, b) == Lexicographic(a, b)
    ensures Equals(a, b) <==> a == b
  {
  }

  /** Outside the bounds, different versions can share an ordinal: 0.1000.0 equals 1.0.0. */
  lemma OrdinalCollision()
    ensures Equals(Version(0, 1000, 0, 0), Version(1, 0, 0, 0))
    ensures Lexicographic(Version(0, 1000, 0, 0), Version(1, 0, 0, 0)) == -1
  {
  }

  // ---------------------------------------------------------------- Value / Scan

  /** The integer stored in a database column: the ordinal (the error Value returns is always nil). */
  function Value(v: Version): (r: int)
    ensures Bounded(v) ==> (r >= 0 <==> v.major >= 0)
  {
    Ord(v)
  }

  /** What Scan may be handed: a 64-bit integer or anything else (nil included). */
  datatype Source = Int64Value(n: Int64) | OtherValue

  datatype ScanError = InvalidType | NotPositive

  /** Each refusal has a text of its own. */
  function ScanMessage(e: ScanError): (m: string)
    ensures m == "invalid type" <==> e == InvalidType
    ensures m == "value must be positive" <==> e == NotPositive
  {
    match e
    case InvalidType => "invalid type"
    case NotPositive => "value must be positive"
  }

  /** A Version reached through a pointer, as the receiver of Scan. */
  class VersionVar {
    var major: Int64
    var minor: Int64
    var patch: Int64
    var build: Int64

    constructor (v: Version)
      ensures Get() == v
    {
      major, minor, patch, build := v.major, v.minor, v.patch, v.build;
    }

    /** The version the fields currently hold. */
    function Get(): Version
      reads this
    {
      Version(major, minor, patch, build)
    }

    /**
     * Decodes an integer written by Value. Anything that is not an int64 and
     * any negative int64 are refused before a field is touched; otherwise
     * the four fields are cut out of the integer by division and remainder,
     * giving in-range fields whose ordinal is the integer.
     */
    method Scan(src: Source) returns (err: Option<ScanError>)
      modifies this
      ensures src.OtherValue? ==> err == Some(InvalidType)
      ensures src.Int64Value? && src.n < 0 ==> err == Some(NotPositive)
      ensures err.Some? ==> Get() == old(Get())
      ensures src.Int64Value? && src.n >= 0 ==>
        err == None && Bounded(Get()) && 0 <= Get().major && Ord(Get()) == src.n
    {
      match src
      case OtherValue =>
        return Some(InvalidType);
      case Int64Value(integer) =>
        if integer < 0 {
          return Some(NotPositive);
        }
        // converted is not negative, so Dafny's `/` and `%` agree with Go's truncating ones.
        var converted: int := integer;
        major := converted / 1_000_000_000;
        minor := (converted % 1_000_000_000) / 1_000_000;
        patch := ((converted % 1_000_000_000) % 1_000_000) / 1_000;
        build := ((converted % 1_000_000_000) % 1_000_000) % 1_000;
        return None;
    }
  }

  /**
   * Scan(Value(v)) gives v back when Major is not negative, the other
   * fields are below 1000 and the value fits in an int64.
   */
  method ScanValueRoundTrip(v: Version) returns (w: Version, err: Option<ScanError>)
    requires Bounded(v) && 0 <= v.major && Value(v) <= MaxInt64
    ensures err == None && w == v
  {
    var target := new VersionVar(Version(0, 0, 0, 0));
    err := target.Scan(Int64Value(Value(v)));
    w := target.Get();
    CompareIsLexicographic(v, w);
  }
}
