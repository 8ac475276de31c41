# ver: a four-part version number, modelled in Dafny

The Go package `ver` defines `Version`, a value with four integer fields
`Major.Minor.Patch.Build`, and a handful of operations on it:

- `Parse` reads a dotted string. It needs at least a major and a minor part,
  strips one leading `v` from the major part, and defaults an absent patch or
  build to 0. It checks the fields from build back to major and reports the
  first part that is not a number, quoting that part as written.
- `ord` folds a version into one integer with weights 10^9, 10^6, 10^3 and 1.
  `Compare`, `Less`, `Equals` and `Greater` compare versions by that integer.
- `String` prints `M.m.p.b` when the build is positive and `M.m.p` otherwise.
- `Value` and `Scan` store a version in an integer database column. `Value`
  writes the ordinal. `Scan` refuses a source that is not an `int64` or that is
  negative, leaving the receiver alone. Otherwise it cuts the integer back into
  the four fields with `/` and `%`, writing them through the pointer receiver.
- `Versions` is a slice of versions with `Len`, `Less` and `Swap`, so the
  standard library's sort can order it in place.

The project has four modules:

- `Text` (text.dfy) states the library calls the package makes.
  `Split` is `strings.Split(s, ".")`. `Atoi` is `strconv.Atoi`: an optional
  sign and one or more digits, within the 64-bit range. `Itoa` is the `%d`
  verb.
- `Ver` (ver.dfy) holds the `Version` datatype and the pure operations as
  functions. `Scan`, which updates its receiver in place, is a method of the
  class `VersionVar`.
- `Versions` (versions.dfy) gives `Len` and `Less` as functions reading an
  array. `Swap` is a method that modifies the array.
- `VerExamples` (ver_examples.dfy) checks the package's table tests against the
  model.

Field values are 64-bit signed integers (`Text.Int64`). This is an
assumption of the model: it takes Go's `int` to be 64 bits wide. The package
itself names no target platform.

Where a natural reading and the code differ, the model follows the code.
`String` prints the build only when it is positive (`Build > 0`), not whenever
it is non-zero. `Parse` accepts a negative build such as `1.2.3.-4`, and that
version then prints as `1.2.3`. So `Parse(String(v))` gives back `v` exactly
when the build is not negative. `Ver.ParseToString` proves this in both
directions.

## Model

| member | source | states |
|---|---|---|
| Text.Split | ver/ver.go:22 | splitting on dots yields at least one piece, and no piece contains a dot |
| Text.SplitCountsDots | ver/ver.go:22-25 | there is exactly one more piece than there are dots in the input |
| Text.DotIffSeveralParts | ver/ver.go:22-25 | an input has at least two pieces exactly when it contains a dot |
| Text.JoinSplit | ver/ver.go:22 | joining the pieces with dots gives back the input |
| Text.SplitJoin | ver/ver.go:22 | splitting a dot-joined list of dot-free pieces gives back the list |
| Text.NatToDecimal | ver/ver.go:108-113 | the printed digits are non-empty, denote the number and have no leading zero |
| Text.Atoi | ver/ver.go:31 | a number is only read from one optional sign followed by at least one digit, never from an empty text or a bare sign |
| Text.Itoa | ver/ver.go:108-113 | `%d` prints digits with at most a leading minus sign |
| Text.ItoaSpelling | ver/ver.go:108-113 | `%d` prints a minus sign exactly for a negative number, then the digits of its magnitude with no leading zero |
| Text.AtoiDigits | ver/ver.go:31 | a run of digits is read exactly when its number fits an int64, and then as that number |
| Text.AtoiSigned | ver/ver.go:31 | a `+` in front changes nothing; a `-` in front reads the negation, down to -2^63 |
| Text.AtoiLeadingZeros | ver/ver_test.go:8 | leading zeros are accepted: a `0` in front of digits does not change what Atoi reads |
| Text.AtoiItoa | ver/ver.go:31-62 | Atoi reads back every 64-bit integer `%d` prints |
| Text.ItoaHasNoDot | ver/ver.go:108-113 | a printed number contains no dot and does not start with `v` |
| Ver.StripV | ver/ver.go:58-61 | a part starting with `v` loses exactly that one `v`; any other part is left as it is |
| Ver.ParseField | ver/ver.go:31-66 | a field succeeds exactly when Atoi reads its part (the major's after StripV), with that number; a failure names the field and quotes the part as written, `v` included |
| Ver.Parse | ver/ver.go:21-72 | an invalid-number error quotes the raw dotted part of the field it names, `v` included for major |
| Ver.ParseParts | ver/ver.go:29-71 | the fall-through switch reports the raw part of the field it rejects |
| Ver.ParseCascade | ver/ver.go:29-71 | with two or more parts the result is the first malformed field in the order build, patch, minor, major, or else the version made of the parts' numbers with absent fields 0 |
| Ver.ParseNoMajorMinor | ver/ver.go:22-25 | "no major.minor elements found" is returned exactly when the input has no dot |
| Ver.ParseReportsFirstMalformed | ver/ver.go:29-66 | the error names field f exactly when f's part is malformed and no field checked before it (a later position) is |
| Ver.ParseSucceeds | ver/ver.go:27-71 | Parse succeeds exactly when there is a dot and no present part is malformed; then each field is its part's number, or 0 when absent |
| Ver.ParseIgnoresExtraParts | ver/ver.go:29-31 | parts after the fourth do not affect the result |
| Ver.Quote | ver/ver.go:33 | the quoted raw text is wrapped in double quotes |
| Ver.QuoteBody | ver/ver.go:33 | text without quotes and backslashes is unchanged, and text with one of them grows |
| Ver.QuoteBodyInjective | ver/ver.go:33 | different texts quote differently |
| Ver.Message | ver/ver.go:24-65 | the text starts with "invalid " exactly for an invalid number, and then reads "invalid <field> number: " followed by the quoted raw part |
| Ver.MessageIdentifiesError | ver/ver.go:24-65 | two errors with the same text are the same error: the text names the field and the raw part |
| Ver.ToString | ver/ver.go:108-114 | the rendering has four dotted parts when Build > 0 and three otherwise, each the `%d` of its field |
| Ver.ParseToString | ver/ver.go:108-114 | Parse of the rendering succeeds with the version, the build reset to 0 unless positive; it is the identity exactly when Build >= 0 |
| Ver.ParseRendered | ver/ver.go:29-71 | the printed fields, as parts, parse back to the fields |
| Ver.ReadsBack | ver/ver.go:31-68 | each field reads back the number `%d` prints for it |
| Ver.Ord | ver/ver.go:74-79 | when Major >= 0 and Minor, Patch and Build are in [0, 1000), cutting the ordinal as Scan does gives back each field |
| Ver.OrdGroups | ver/ver.go:140-144 | the three cuts of Scan recover Major, Minor, Patch and Build from the weighted sum of a bounded version |
| Ver.Compare | ver/ver.go:83-94 | the result is -1, 0 or 1, negative exactly when v's ordinal is smaller and positive exactly when it is larger |
| Ver.Less | ver/ver.go:96-98 | v is less than o exactly when its ordinal is smaller |
| Ver.Equals | ver/ver.go:100-102 | v equals o exactly when the ordinals are equal, whatever the fields |
| Ver.Greater | ver/ver.go:104-106 | v is greater than o exactly when its ordinal is larger |
| Ver.CompareAntisymmetric | ver/ver.go:81-94 | swapping the operands negates the result; a version compares equal to itself |
| Ver.CompareTransitive | ver/ver.go:83-94 | at-most, strictly-less and equal are each transitive |
| Ver.Trichotomy | ver/ver.go:96-106 | exactly one of Less, Equals and Greater holds, and Less(a, b) is Greater(b, a) |
| Ver.CompareIsLexicographic | ver/ver.go:74-94 | when Minor, Patch and Build are in [0, 1000), Compare is field-by-field order and Equals is equality |
| Ver.OrdinalCollision | ver/ver.go:74-79 | outside that range distinct versions collide: 0.1000.0 equals 1.0.0 although it sorts lower field by field |
| Ver.Value | ver/ver.go:130-132 | for a version with Minor, Patch and Build in [0, 1000), the stored integer is negative exactly when Major is, which is when Scan refuses it |
| Ver.ScanMessage | ver/ver.go:137-148 | "invalid type" is the text of InvalidType only, and "value must be positive" that of NotPositive only |
| Ver.VersionVar.Scan | ver/ver.go:134-149 | a non-int64 source gives "invalid type" and a negative one "value must be positive", both leaving the fields unchanged; otherwise it succeeds with Major >= 0, the others in [0, 1000), and ordinal equal to the source |
| Ver.ScanValueRoundTrip | ver/ver.go:130-145 | Scan of Value(v) restores v when Major >= 0, the other fields are in [0, 1000) and the value fits an int64 |
| Versions.Len | ver/ver.go:118-120 | Len is the number of elements |
| Versions.Less | ver/ver.go:122-124 | element i sorts before element j exactly when Ver.Less holds of them |
| Versions.Exchanged | ver/ver.go:126-128 | exchanging i and j keeps the length, swaps the two elements and leaves every other index alone |
| Versions.ExchangedIsPermutation | ver/ver.go:126-128 | an exchange keeps the same multiset of versions |
| Versions.ExchangedTwice | ver/ver.go:126-128 | exchanging the same pair twice restores the sequence |
| Versions.Swap | ver/ver.go:126-128 | the array afterwards is the exchange of its old contents |
| VerExamples.AtoiLeadingZero | ver/ver_test.go:8 | "01" reads as 1 |
| VerExamples.ParseLeadingZero | ver/ver_test.go:8 | "0.01.0" parses to 0.1.0.0 |
| VerExamples.ParseStripsV | ver/ver.go:58-61 | "v2.0" parses to 2.0.0.0 |
| VerExamples.ParseTwoParts | ver/ver_test.go:14 | "1.203" parses to 1.203.0.0 |
| VerExamples.ParseNegativeBuild | ver/ver.go:31-36 | "1.2.3.-4" parses, with build -4 |
| VerExamples.ParseCanonical | ver/ver_test.go:7-12 | "0.0.0", "2.0.0.1" and "0.0.0.1" parse to their versions |
| VerExamples.ParseCanonicalPatch | ver/ver_test.go:10-13 | "3.3.3", "0.0.1" and "1.3.3.7" parse to their versions |
| VerExamples.ToStringThreeParts | ver/ver_test.go:31-32 | 0.0.0.0 and 0.1.0.0 print as "0.0.0" and "0.1.0" |
| VerExamples.ToStringPatchParts | ver/ver_test.go:34-35 | 3.3.3.0 and 0.0.1.0 print as "3.3.3" and "0.0.1" |
| VerExamples.ToStringFourParts | ver/ver_test.go:33-36 | 2.0.0.1 and 0.0.0.1 print as "2.0.0.1" and "0.0.0.1" |
| VerExamples.ToStringAllFields | ver/ver_test.go:37 | 1.3.3.7 prints as "1.3.3.7" |
| VerExamples.ToStringDropsZeroBuild | ver/ver_test.go:38 | 1.203.0.0 prints as "1.203.0" |
| VerExamples.ToStringDropsNegativeBuild | ver/ver.go:108-114 | 1.2.3.-4 prints as "1.2.3" |
| VerExamples.ParseNoDot | ver/ver_test.go:52 | "0" fails with NoMajorMinor |
| VerExamples.ParseBadBuild | ver/ver_test.go:53 | "0.0.0.a" fails on the build, quoting "a" |
| VerExamples.ParseBadPatch | ver/ver_test.go:54 | "0.0.a.0" fails on the patch |
| VerExamples.ParseBadMinor | ver/ver_test.go:55 | "0.a.0.0" fails on the minor |
| VerExamples.ParseBadMajor | ver/ver_test.go:56 | "a.0.0.0" fails on the major |
| VerExamples.ParseAllBad | ver/ver.go:29-33 | with every part bad, "a.b.c.d" fails on the build, quoting "d" |
| VerExamples.ParseBadMajorQuotesV | ver/ver.go:58-65 | "va.0" fails on the major, quoting "va" with its `v` |
| VerExamples.MessageNoMajorMinor | ver/ver_test.go:52 | the message is "no major.minor elements found" |
| VerExamples.MessageBuildError | ver/ver_test.go:53 | the message is `invalid build number: "a"` |
| VerExamples.MessagePatchError | ver/ver_test.go:54 | the message is `invalid patch number: "a"` |
| VerExamples.MessageMinorError | ver/ver_test.go:55 | the message is `invalid minor number: "a"` |
| VerExamples.MessageMajorError | ver/ver_test.go:56 | the message is `invalid major number: "a"` |
| VerExamples.CompareExamples | ver/ver_test.go:71-90 | 1.2.0 < 1.2.1 < 2.0.1, and 1.2.1 equals itself |
| VerExamples.ValueExample | ver/ver.go:130-132 | Value of 8.5.1.0 is 8005001000 |
| VerExamples.ScanExamples | ver/ver.go:134-145 | scanning 8005001000 prints "8.5.1"; scanning -1 fails with "value must be positive" |

## Left out

- Ver.Value: the model returns the ordinal as an unbounded integer. Go computes `ord` in a 64-bit `int`, which wraps whenever the ordinal leaves the int64 range (for example 9223372036.855.0.0, or 0.9300000000000.0.0, which Parse accepts). `Value` then converts it to `int64`. Its error result, always nil, is not modelled.
- Ver.Ord, Ver.Compare, Ver.Less, Ver.Equals, Ver.Greater: compare unbounded ordinals, so the 64-bit wrap-around of `ord` whenever the ordinal leaves the int64 range is not modelled. For such versions Go's comparison can give the opposite answer.
- Ver.ScanValueRoundTrip: requires the value to fit an int64. That is the range in which Go's `ord` does not wrap.
- `database/sql/driver` and `interface{}`: `Scan`'s argument is the datatype `Source`, either an int64 or "any other value" (nil included). `Value`'s `driver.Value` result is a plain integer.
- Error values: `errors.New` and `fmt.Errorf` become the datatypes `ParseError` and `ScanError`. `Message` and `ScanMessage` give their texts.
- Ver.Parse: on every error Go also returns the zero `Version{}` beside the error value. The model's `Failure` carries only the error, so that zero version is not modelled.
- Text.Int64, Text.Atoi: the model takes `int` to be 64 bits wide. On a 32-bit platform Go's `strconv.Atoi` rejects any number outside the 32-bit range (so `Parse("1.3000000000")` fails there), and `ord` wraps far earlier. 32-bit platforms are not modelled.
- Ver.Quote, Ver.QuoteBody: `%q` escaping covers only the double quote and the backslash. Go also escapes non-printable characters and invalid UTF-8, and that is not modelled. QuoteBody's contract says that text without those two characters passes unchanged and that text with them grows, not where each backslash goes; QuoteBodyInjective states that nothing is lost.
- Text.Atoi: Go's syntax error and range error both become `None`. The error values themselves are not modelled.
- Strings are sequences of characters, not bytes. Go's `strings.Split` and `strconv.Atoi` work on bytes. For the ASCII characters that matter here (`.`, `v`, signs and digits) the two agree.
- `sort.Sort` is not part of the package. `Versions` only supplies `Len`, `Less` and `Swap`, and no sorting routine is modelled.
- Versions.Less and Versions.Swap: Go panics on an index out of range. The model requires both indices to be in range.
- `VersionVar`'s constructor and `Get` only exist to reach a `Version` through a pointer, as Go's `*Version` does. They model nothing of their own.
