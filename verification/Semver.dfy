/** Version text and version ranges (control-plane/app/cve_service.py, "Version helpers"). */
module Semver {
  import opened Sequences
  import opened Text

  // ---------------------------------------------------------------------
  // Text
  // ---------------------------------------------------------------------

  predicate IsDigit(c: char) {
    '0' <= c <= '9'
  }

  /** The ASCII characters that str.strip and int() skip. */
  predicate IsSpace(c: char) {
    c == ' ' || 9 as char <= c <= 13 as char || 28 as char <= c <= 31 as char
  }

  predicate IsSeparator(c: char) {
    c == '.' || c == '-' || c == '+'
  }

  function DropLeading(s: string, p: char -> bool): string {
    if s != "" && p(s[0]) then DropLeading(s[1..], p) else s
  }

  function DropTrailing(s: string, p: char -> bool): string {
    if s != "" && p(Last(s)) then DropTrailing(Init(s), p) else s
  }

  function Strip(s: string): string {
    DropTrailing(DropLeading(s, IsSpace), IsSpace)
  }

  predicate IsV(c: char) {
    c == 'v'
  }

  /** re.split(r"[.\-+]", s): never empty. */
  function Split(s: string): (parts: seq<string>)
    ensures |parts| >= 1
  {
    if s == "" then [""]
    else
      var rest := Split(s[1..]);
      if IsSeparator(s[0]) then [""] + rest else [[s[0]] + rest[0]] + rest[1..]
  }

  /** Digits, with single underscores allowed between them. */
  predicate IsNumeral(s: string) {
    && s != "" && IsDigit(s[0]) && IsDigit(Last(s))
    && (forall i :: 0 <= i < |s| ==> IsDigit(s[i]) || s[i] == '_')
    && (forall i :: 0 <= i < |s| - 1 ==> !(s[i] == '_' && s[i + 1] == '_'))
  }

  function DigitValue(c: char): nat
    requires IsDigit(c)
  {
    c as int - '0' as int
  }

  function NumeralValue(s: string): nat {
    if s == "" then 0
    else if IsDigit(Last(s)) then 10 * NumeralValue(Init(s)) + DigitValue(Last(s))
    else NumeralValue(Init(s))
  }

  /** int(s) for text without a sign; None is the ValueError. */
  function ParseInt(s: string): Option<nat> {
    if IsNumeral(Strip(s)) then Some(NumeralValue(Strip(s))) else None
  }

  // ---------------------------------------------------------------------
  // Versions
  // ---------------------------------------------------------------------

  datatype Version = Version(major: nat, minor: nat, patch: nat)

  const ZERO := Version(0, 0, 0)

  /** Comparison of (major, minor, patch) tuples. */
  predicate Less(a: Version, b: Version) {
    if a.major != b.major then a.major < b.major
    else if a.minor != b.minor then a.minor < b.minor
    else a.patch < b.patch
  }

  predicate AtMost(a: Version, b: Version) {
    !Less(b, a)
  }

  function PartAt(parts: seq<string>, i: nat): Option<nat> {
    if i < |parts| then ParseInt(parts[i]) else Some(0)
  }

  function ParseSemver(text: string): Version {
    var parts := Split(Strip(DropLeading(text, IsV)));
    match (PartAt(parts, 0), PartAt(parts, 1), PartAt(parts, 2))
    case (Some(major), Some(minor), Some(patch)) => Version(major, minor, patch)
    case _ => ZERO
  }

  /** Python truthiness of an optional string: an empty "fixed" is no bound at all. */
  predicate IsBound(fixed: Option<string>) {
    fixed.Some? && fixed.value != ""
  }

  predicate VersionInRange(version: string, introduced: string, fixed: Option<string>) {
    var v := ParseSemver(version);
    var intro := if introduced != "" && introduced != "0" then ParseSemver(introduced) else ZERO;
    if Less(v, intro) then false
    else if IsBound(fixed) && AtMost(ParseSemver(fixed.value), v) then false
    else true
  }

  /** The half-open interval that a range denotes. */
  predicate Within(v: Version, low: Version, high: Option<Version>) {
    AtMost(low, v) && (high.Some? ==> Less(v, high.value))
  }

  function Bound(fixed: Option<string>): Option<Version> {
    if IsBound(fixed) then Some(ParseSemver(fixed.value)) else None
  }

  // ---------------------------------------------------------------------
  // Parsing what was printed
  // ---------------------------------------------------------------------

  function Digits(n: nat): string {
    (if n < 10 then "" else Digits(n / 10)) + [(n % 10) as char + '0']
  }

  function Print(v: Version): string {
    Digits(v.major) + "." + Digits(v.minor) + "." + Digits(v.patch)
  }

  predicate AllDigits(s: string) {
    s != "" && forall i :: 0 <= i < |s| ==> IsDigit(s[i])
  }

  lemma {:induction false} DigitsAreDigits(n: nat)
    ensures AllDigits(Digits(n)) && NumeralValue(Digits(n)) == n
  {
    var c := (n % 10) as char + '0';
    assert IsDigit(c) && DigitValue(c) == n % 10;
    var front := if n < 10 then "" else Digits(n / 10);
    if n >= 10 {
      DigitsAreDigits(n / 10);
    }
    assert Digits(n) == front + [c];
    assert Init(Digits(n)) == front;
  }

  lemma ParseDigits(n: nat)
    ensures ParseInt(Digits(n)) == Some(n)
  {
    DigitsAreDigits(n);
  }

  /** A numeral followed by a separator is one part. */
  lemma {:induction false} SplitAfterDigits(s: string, rest: string)
    requires forall i :: 0 <= i < |s| ==> IsDigit(s[i])
    ensures rest == "" ==> Split(s + rest) == [s]
    ensures rest != "" && IsSeparator(rest[0]) ==> Split(s + rest) == [s] + Split(rest[1..])
  {
    if s == "" {
      assert s + rest == rest;
    } else {
      assert (s + rest)[1..] == s[1..] + rest;
      assert IsDigit(s[0]);
      SplitAfterDigits(s[1..], rest);
      assert [s[0]] + s[1..] == s;
    }
  }

  lemma SplitPrinted(v: Version, suffix: string)
    requires suffix == "" || IsSeparator(suffix[0])
    ensures var parts := Split(Print(v) + suffix);
            |parts| >= 3 && parts[0] == Digits(v.major) && parts[1] == Digits(v.minor) && parts[2] == Digits(v.patch)
  {
    hide Split, Digits;
    var a, b, c := Digits(v.major), Digits(v.minor), Digits(v.patch);
    DigitsAreDigits(v.major);
    DigitsAreDigits(v.minor);
    DigitsAreDigits(v.patch);
    var afterMinor, afterMajor := "." + (c + suffix), "." + (b + ("." + (c + suffix)));
    assert Print(v) + suffix == a + afterMajor;
    SplitAfterDigits(a, afterMajor);
    assert afterMajor[1..] == b + afterMinor;
    SplitAfterDigits(b, afterMinor);
    assert afterMinor[1..] == c + suffix;
    SplitAfterDigits(c, suffix);
  }

  lemma {:induction false} DropLeadingOf(prefix: string, s: string, p: char -> bool)
    requires forall i :: 0 <= i < |prefix| ==> p(prefix[i])
    requires s != "" ==> !p(s[0])
    ensures DropLeading(prefix + s, p) == s
  {
    if prefix == "" {
      assert prefix + s == s;
    } else {
      assert (prefix + s)[1..] == prefix[1..] + s;
      DropLeadingOf(prefix[1..], s, p);
    }
  }

  /** Trailing space can only be taken from the suffix. */
  lemma {:induction false} DropTrailingOf(s: string, suffix: string) returns (rest: string)
    requires s != "" && !IsSpace(Last(s))
    ensures rest <= suffix && DropTrailing(s + suffix, IsSpace) == s + rest
  {
    if suffix == "" {
      assert s + suffix == s;
      rest := "";
    } else {
      InitOfConcat(s, suffix);
      if IsSpace(Last(suffix)) {
        rest := DropTrailingOf(s, Init(suffix));
      } else {
        rest := suffix;
      }
    }
  }

  /** Printing a version, with any number of leading "v" and any "-" or "+" suffix, and parsing it back. */
  lemma PrintThenParse(v: Version, prefix: string, suffix: string)
    requires forall i :: 0 <= i < |prefix| ==> prefix[i] == 'v'
    requires suffix == "" || suffix[0] == '-' || suffix[0] == '+'
    ensures ParseSemver(prefix + Print(v) + suffix) == v
  {
    hide Digits, Split, DropLeading, DropTrailing, ParseInt;
    var printed := Print(v);
    DigitsAreDigits(v.major);
    DigitsAreDigits(v.patch);
    assert printed[0] == Digits(v.major)[0] && Last(printed) == Last(Digits(v.patch));
    assert IsDigit(printed[0]) && IsDigit(Last(printed));
    assert prefix + printed + suffix == prefix + (printed + suffix);
    assert (printed + suffix)[0] == printed[0];
    DropLeadingOf(prefix, printed + suffix, IsV);
    assert "" + (printed + suffix) == printed + suffix;
    DropLeadingOf("", printed + suffix, IsSpace);
    var rest := DropTrailingOf(printed, suffix);
    SplitPrinted(v, rest);
    ParseDigits(v.major);
    ParseDigits(v.minor);
    ParseDigits(v.patch);
  }

  /** Missing parts are zero. */
  lemma ShortVersions(major: nat, minor: nat)
    ensures ParseSemver(Digits(major)) == Version(major, 0, 0)
    ensures ParseSemver(Digits(major) + "." + Digits(minor)) == Version(major, minor, 0)
  {
    hide Digits, Split, DropLeading, DropTrailing, ParseInt;
    ParseDigits(major);
    ParseDigits(minor);
    DigitsAreDigits(major);
    DigitsAreDigits(minor);
    var a, b := Digits(major), Digits(minor);
    assert a + "" == a && b + "" == b;
    SplitAfterDigits(a, "");
    SplitAfterDigits(b, "");
    assert ("." + b)[1..] == b && a + "." + b == a + ("." + b);
    SplitAfterDigits(a, "." + b);
    NothingToStrip(a);
    NothingToStrip(a + "." + b);
  }

  lemma NothingToStrip(s: string)
    requires s != "" && IsDigit(s[0]) && IsDigit(Last(s))
    ensures Strip(DropLeading(s, IsV)) == s
  {
  }

  /** A part with a character that no number has makes the whole version 0.0.0. */
  lemma {:induction false} UnreadableIsZero(s: string, i: nat)
    requires i < |s| && s[0] != 'v' && !IsSpace(s[0]) && !IsSpace(Last(s))
    requires !IsDigit(s[i]) && s[i] != '_' && forall j :: 0 <= j < |s| ==> !IsSeparator(s[j]) && !IsSpace(s[j])
    ensures ParseSemver(s) == ZERO
  {
    hide Split;
    SplitWithoutSeparator(s);
    assert DropLeading(s, IsV) == s && DropTrailing(s, IsSpace) == s;
    assert Strip(s) == s && !IsNumeral(s);
  }

  lemma {:induction false} SplitWithoutSeparator(s: string)
    requires forall j :: 0 <= j < |s| ==> !IsSeparator(s[j])
    ensures Split(s) == [s]
  {
    if s != "" {
      SplitWithoutSeparator(s[1..]);
      assert [s[0]] + s[1..] == s;
    }
  }

  // ---------------------------------------------------------------------
  // Order and ranges
  // ---------------------------------------------------------------------

  /** Identifiers in order of significance. */
  function Identifiers(v: Version): seq<nat> {
    [v.major, v.minor, v.patch]
  }

  /** Section 11.2 of Semantic Versioning 2.0.0: the first difference, from left to right, decides. */
  ghost predicate Precedes(a: Version, b: Version) {
    exists k :: 0 <= k < 3 && Identifiers(a)[k] < Identifiers(b)[k]
             && forall j :: 0 <= j < k ==> Identifiers(a)[j] == Identifiers(b)[j]
  }

  lemma TupleOrderIsPrecedence(a: Version, b: Version)
    ensures Less(a, b) <==> Precedes(a, b)
    ensures Less(a, b) || Less(b, a) || a == b
  {
    if Less(a, b) {
      var k := if a.major != b.major then 0 else if a.minor != b.minor then 1 else 2;
      assert Identifiers(a)[k] < Identifiers(b)[k];
    }
    if Precedes(a, b) {
      var k :| 0 <= k < 3 && Identifiers(a)[k] < Identifiers(b)[k]
            && forall j :: 0 <= j < k ==> Identifiers(a)[j] == Identifiers(b)[j];
      assert k > 0 ==> Identifiers(a)[0] == Identifiers(b)[0];
      assert k > 1 ==> Identifiers(a)[1] == Identifiers(b)[1];
    }
  }

  lemma EmptyAndZeroAreLeast()
    ensures ParseSemver("") == ZERO && ParseSemver("0") == ZERO
  {
    assert Split("") == [""];
    assert Digits(0) == "0";
    ParseDigits(0);
    SplitAfterDigits("0", "");
    assert "0" + "" == "0";
  }

  /** The text-level check is membership in one half-open interval, "" and "0" being its least bound. */
  lemma RangeIsAnInterval(version: string, introduced: string, fixed: Option<string>)
    ensures VersionInRange(version, introduced, fixed) <==>
            Within(ParseSemver(version), ParseSemver(introduced), Bound(fixed))
  {
    hide ParseSemver;
    EmptyAndZeroAreLeast();
  }

  /** Said of the texts: from introduced on, and before fixed, unless that is missing or empty. */
  lemma RangeByText(version: string, introduced: string, fixed: Option<string>)
    ensures fixed == None || fixed == Some("") ==>
            (VersionInRange(version, introduced, fixed) <==> !Less(ParseSemver(version), ParseSemver(introduced)))
    ensures fixed.Some? && fixed.value != "" ==>
            (VersionInRange(version, introduced, fixed) <==>
             !Less(ParseSemver(version), ParseSemver(introduced)) && Less(ParseSemver(version), ParseSemver(fixed.value)))
  {
    hide ParseSemver;
    EmptyAndZeroAreLeast();
  }

  /** What lies between two versions in a range is in the range. */
  lemma RangesAreConvex(a: string, b: string, c: string, introduced: string, fixed: Option<string>)
    requires VersionInRange(a, introduced, fixed) && VersionInRange(c, introduced, fixed)
    requires AtMost(ParseSemver(a), ParseSemver(b)) && AtMost(ParseSemver(b), ParseSemver(c))
    ensures VersionInRange(b, introduced, fixed)
  {
    hide ParseSemver;
  }

  /** A range that ends where the next one begins joins it without gap or overlap. */
  lemma AdjacentRangesJoin(version: string, introduced: string, middle: string, fixed: Option<string>)
    requires middle != "" && AtMost(ParseSemver(introduced), ParseSemver(middle))
    requires IsBound(fixed) ==> AtMost(ParseSemver(middle), ParseSemver(fixed.value))
    ensures VersionInRange(version, introduced, fixed) <==>
            VersionInRange(version, introduced, Some(middle)) || VersionInRange(version, middle, fixed)
    ensures !(VersionInRange(version, introduced, Some(middle)) && VersionInRange(version, middle, fixed))
  {
    hide ParseSemver;
    RangeIsAnInterval(version, introduced, fixed);
    RangeIsAnInterval(version, introduced, Some(middle));
    RangeIsAnInterval(version, middle, fixed);
  }

  // ---------------------------------------------------------------------
  // Pre-releases, which the code reads as their release
  // ---------------------------------------------------------------------

  datatype Identifier = Numeric(n: nat) | Alphanumeric(text: string)

  /** A version as Semantic Versioning 2.0.0 orders it; pre is empty for a release. */
  datatype FullVersion = FullVersion(core: Version, pre: seq<Identifier>)

  /** Section 11.4: numbers by value and before text, text by character. */
  predicate IdentifierBefore(a: Identifier, b: Identifier) {
    match (a, b)
    case (Numeric(m), Numeric(n)) => m < n
    case (Numeric(_), Alphanumeric(_)) => true
    case (Alphanumeric(_), Numeric(_)) => false
    case (Alphanumeric(x), Alphanumeric(y)) => Before(x, y)
  }

  predicate IdentifiersBefore(a: seq<Identifier>, b: seq<Identifier>) {
    if b == [] then false
    else if a == [] then true
    else if a[0] != b[0] then IdentifierBefore(a[0], b[0])
    else IdentifiersBefore(a[1..], b[1..])
  }

  /** Section 11: by the triple first; a pre-release comes before its release. */
  ghost predicate FullyPrecedes(a: FullVersion, b: FullVersion) {
    if a.core != b.core then Precedes(a.core, b.core)
    else if a.pre == [] then false
    else b.pre == [] || IdentifiersBefore(a.pre, b.pre)
  }

  lemma {:induction false} IdentifiersAreOrdered(a: seq<Identifier>, b: seq<Identifier>)
    ensures a == b ==> !IdentifiersBefore(a, b)
    ensures a != b ==> (IdentifiersBefore(a, b) <==> !IdentifiersBefore(b, a))
  {
    if a != [] && b != [] {
      if a[0] == b[0] {
        IdentifiersAreOrdered(a[1..], b[1..]);
        assert a == [a[0]] + a[1..] && b == [b[0]] + b[1..];
      } else if a[0].Alphanumeric? && b[0].Alphanumeric? {
        BeforeIsTotal(a[0].text, b[0].text);
      }
    }
  }

  /** The order of the code is that of Semantic Versioning exactly between versions of different triples. */
  lemma OrdersAgreeExactly(a: FullVersion, b: FullVersion)
    ensures (Less(a.core, b.core) <==> FullyPrecedes(a, b)) && (Less(b.core, a.core) <==> FullyPrecedes(b, a))
       <==> a.core != b.core || a == b
  {
    hide Precedes, IdentifiersBefore;
    TupleOrderIsPrecedence(a.core, b.core);
    TupleOrderIsPrecedence(b.core, a.core);
    IdentifiersAreOrdered(a.pre, b.pre);
    IdentifiersAreOrdered(b.pre, a.pre);
  }

  /** At or after the release low, if there is one, and before the release high, if there is one. */
  ghost predicate FullyWithin(v: FullVersion, low: Option<Version>, high: Option<Version>) {
    && (low.Some? ==> !FullyPrecedes(v, FullVersion(low.value, [])))
    && (high.Some? ==> FullyPrecedes(v, FullVersion(high.value, [])))
  }

  function TextOfLow(low: Option<Version>): string {
    if low.Some? then Print(low.value) else "0"
  }

  function TextOfHigh(high: Option<Version>): Option<string> {
    if high.Some? then Some(Print(high.value)) else None
  }

  lemma ParsePrinted(v: Version, suffix: string)
    requires suffix == "" || suffix[0] == '-'
    ensures ParseSemver(Print(v) + suffix) == v && Print(v) != ""
  {
    hide ParseSemver, Digits;
    PrintThenParse(v, "", suffix);
    assert "" + Print(v) + suffix == Print(v) + suffix;
  }

  /**
   * Whether a pre-release is in a range of releases is read right exactly when
   * its own release is neither end of the range.
   */
  lemma PrereleaseRangesExactly(
    v: FullVersion, tag: string, low: Option<Version>, high: Option<Version>)
    requires v.pre != [] && tag != "" && tag[0] == '-'
    requires low.Some? && high.Some? ==> Less(low.value, high.value)
    ensures (VersionInRange(Print(v.core) + tag, TextOfLow(low), TextOfHigh(high)) <==> FullyWithin(v, low, high))
       <==> low != Some(v.core) && high != Some(v.core)
  {
    hide ParseSemver, Print, Precedes;
    EmptyAndZeroAreLeast();
    RangeIsAnInterval(Print(v.core) + tag, TextOfLow(low), TextOfHigh(high));
    ParsePrinted(v.core, tag);
    if low.Some? {
      ParsePrinted(low.value, "");
      assert Print(low.value) + "" == Print(low.value);
      TupleOrderIsPrecedence(v.core, low.value);
    }
    if high.Some? {
      ParsePrinted(high.value, "");
      assert Print(high.value) + "" == Print(high.value);
      TupleOrderIsPrecedence(v.core, high.value);
    }
  }
}
