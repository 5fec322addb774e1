/** Version names: printing in two styles, parsing back, and comparison. */
module Version {

  const MAX_INT: int := 0x7fff_ffff_ffff_ffff

  /** A Go int on a 64-bit platform. */
  type int64 = x: int | -MAX_INT - 1 <= x <= MAX_INT

  datatype Version = Version(
    major: int64, minor: int64, patch: int64, commit: string, identifier: string, preRelease: int64)

  const ZERO := Version(0, 0, 0, "", "", 0)

  // ---------- Go's string helpers ----------

  function Digit(n: nat): char
    requires n < 10
  {
    "0123456789"[n]
  }

  function DigitValue(c: char): (v: int)
    ensures -1 <= v < 10
    ensures v >= 0 ==> Digit(v) == c
  {
    if '0' <= c <= '9' then c as int - '0' as int else -1
  }

  function NatToString(n: nat): (s: string)
    ensures s != "" && forall c :: c in s ==> DigitValue(c) >= 0
  {
    if n < 10 then [Digit(n)] else NatToString(n / 10) + [Digit(n % 10)]
  }

  function IntToString(n: int): string {
    if n < 0 then "-" + NatToString(-n) else NatToString(n)
  }

  /** The value of a string of digits, or -1 if it is not one. */
  function DigitsValue(s: string): (v: int)
    ensures -1 <= v
  {
    if s == "" then 0
    else
      var init, last := DigitsValue(s[..|s| - 1]), DigitValue(s[|s| - 1]);
      if init < 0 || last < 0 then -1 else 10 * init + last
  }

  /** `strconv.Atoi` with its error ignored: 0 on a syntax error, the nearest int when out of range. */
  function Atoi(s: string): int64 {
    var negative := s != "" && s[0] == '-';
    var digits := if s != "" && (s[0] == '-' || s[0] == '+') then s[1..] else s;
    var v := DigitsValue(digits);
    if digits == "" || v < 0 then 0
    else if negative then (if v > MAX_INT + 1 then -MAX_INT - 1 else -v)
    else if v > MAX_INT then MAX_INT else v
  }

  /** The part of `s` before the first `c`, and what follows it. */
  function Before(s: string, c: char): string {
    if s == "" || s[0] == c then "" else [s[0]] + Before(s[1..], c)
  }

  function Behind(s: string, c: char): string {
    if s == "" then "" else if s[0] == c then s[1..] else Behind(s[1..], c)
  }

  /** `strings.Split(s, c)[n]`, if there are that many parts. */
  function Part(s: string, c: char, n: nat): string
    requires HasPart(s, c, n)
    decreases n
  {
    if n == 0 then Before(s, c) else Part(Behind(s, c), c, n - 1)
  }

  predicate HasPart(s: string, c: char, n: nat)
    decreases n
  {
    n == 0 || (c in s && HasPart(Behind(s, c), c, n - 1))
  }

  predicate HasPrefix(s: string, p: string) {
    |p| <= |s| && s[..|p|] == p
  }

  // ---------- Printing ----------

  function VersionString(v: Version): string {
    IntToString(v.major) + "." + IntToString(v.minor) + "." + IntToString(v.patch)
  }

  function String(v: Version): string {
    if v.identifier == "" then VersionString(v)
    else VersionString(v) + "-" + v.identifier + "." + IntToString(v.preRelease)
  }

  function BadString(v: Version): string {
    var numbers := IntToString(v.major) + "." + IntToString(v.minor) +
                   if v.patch > 0 then "." + IntToString(v.patch) else "";
    if v.identifier == "" then numbers
    else numbers + "-" + v.identifier + if v.preRelease > 0 then IntToString(v.preRelease) else ""
  }

  // ---------- Parsing ----------

  function ParseIdentifier(identifier: string): (v: Version)
    ensures v.major == 0 && v.minor == 0 && v.patch == 0
  {
    if '.' in identifier then
      ZERO.(identifier := Part(identifier, '.', 0), preRelease := Atoi(Part(identifier, '.', 1)))
    else if HasPrefix(identifier, "alpha") then
      ZERO.(identifier := "alpha", preRelease := Atoi(identifier[5..]))
    else if HasPrefix(identifier, "beta") then
      ZERO.(identifier := "beta", preRelease := Atoi(identifier[4..]))
    else ZERO.(commit := identifier)
  }

  function ParseNumbers(v: Version, numbers: string): Version {
    v.(major := Atoi(Part(numbers, '.', 0)),
       minor := if HasPart(numbers, '.', 1) then Atoi(Part(numbers, '.', 1)) else v.minor,
       patch := if HasPart(numbers, '.', 2) then Atoi(Part(numbers, '.', 2)) else v.patch)
  }

  function Parsed(name: string): Version {
    var n := if HasPrefix(name, "v") then name[1..] else name;
    if '-' in n then ParseNumbers(ParseIdentifier(Part(n, '-', 1)), Part(n, '-', 0))
    else ParseNumbers(ZERO, n)
  }

  /** `Parse` */
  method Parse(versionName: string) returns (version: Version)
    ensures version == Parsed(versionName)
  {
    var name := versionName;
    version := ZERO;
    if HasPrefix(name, "v") { name := name[1..]; }
    if '-' in name {
      var identifier := Part(name, '-', 1);
      name := Part(name, '-', 0);
      if '.' in identifier {
        version := version.(identifier := Part(identifier, '.', 0));
        version := version.(preRelease := Atoi(Part(identifier, '.', 1)));
      } else if HasPrefix(identifier, "alpha") {
        version := version.(identifier := "alpha");
        version := version.(preRelease := Atoi(identifier[5..]));
      } else if HasPrefix(identifier, "beta") {
        version := version.(identifier := "beta");
        version := version.(preRelease := Atoi(identifier[4..]));
      } else {
        version := version.(commit := identifier);
      }
    }
    version := version.(major := Atoi(Part(name, '.', 0)));
    if HasPart(name, '.', 1) { version := version.(minor := Atoi(Part(name, '.', 1))); }
    if HasPart(name, '.', 2) { version := version.(patch := Atoi(Part(name, '.', 2))); }
  }

  // ---------- Splitting what was joined ----------

  lemma {:induction false} SplitJoined(a: string, c: char, b: string)
    requires c !in a
    ensures Before(a + [c] + b, c) == a && Behind(a + [c] + b, c) == b && c in a + [c] + b
  {
    var s := a + [c] + b;
    assert s[|a|] == c;
    if a == "" {
      assert s[1..] == b;
    } else {
      SplitJoined(a[1..], c, b);
      assert s[1..] == a[1..] + [c] + b;
      assert a == [a[0]] + a[1..];
    }
  }

  lemma {:induction false} NothingToSplit(a: string, c: char)
    requires c !in a
    ensures Before(a, c) == a
  {
    if a != "" {
      NothingToSplit(a[1..], c);
      assert a == [a[0]] + a[1..];
    }
  }

  lemma {:induction false} PartsAreFree(s: string, c: char, d: char)
    ensures c !in Before(s, c)
    ensures d !in s ==> d !in Before(s, c) && d !in Behind(s, c)
  {
    if s != "" { PartsAreFree(s[1..], c, d); }
  }

  lemma {:induction false} PartIsFree(s: string, c: char, n: nat, d: char)
    requires HasPart(s, c, n)
    ensures c !in Part(s, c, n) && (d !in s ==> d !in Part(s, c, n))
    decreases n
  {
    PartsAreFree(s, c, d);
    if n > 0 { PartIsFree(Behind(s, c), c, n - 1, d); }
  }

  lemma {:induction false} DigitsRoundTrip(n: nat)
    ensures DigitsValue(NatToString(n)) == n
  {
    if n < 10 {
      assert DigitValue(Digit(n)) == n;
      assert [Digit(n)][..0] == "";
    } else {
      DigitsRoundTrip(n / 10);
      var s := NatToString(n);
      assert s[..|s| - 1] == NatToString(n / 10) && s[|s| - 1] == Digit(n % 10);
    }
  }

  lemma AtoiRoundTrip(n: int64)
    requires n >= 0
    ensures Atoi(IntToString(n)) == n
    ensures forall c :: c in IntToString(n) ==> c != '.' && c != '-' && c != 'v'
  {
    DigitsRoundTrip(n);
    var s := NatToString(n);
    assert s[0] in s;
  }

  lemma ThreeNumbers(v: Version, a: int64, b: int64, c: int64)
    requires a >= 0 && b >= 0 && c >= 0
    ensures ParseNumbers(v, IntToString(a) + "." + IntToString(b) + "." + IntToString(c)) ==
            v.(major := a, minor := b, patch := c)
  {
    AtoiRoundTrip(a); AtoiRoundTrip(b); AtoiRoundTrip(c);
    var sa, sb, sc := IntToString(a), IntToString(b), IntToString(c);
    var numbers := sa + "." + sb + "." + sc;
    assert numbers == sa + ['.'] + (sb + "." + sc);
    SplitJoined(sa, '.', sb + "." + sc);
    SplitJoined(sb, '.', sc);
    NothingToSplit(sc, '.');
    assert HasPart(sc, '.', 0) && HasPart(sb + "." + sc, '.', 1);
    assert HasPart(numbers, '.', 2) && HasPart(numbers, '.', 1);
    assert Part(sb + "." + sc, '.', 1) == sc && Part(sb + "." + sc, '.', 0) == sb;
  }

  lemma TwoNumbers(v: Version, a: int64, b: int64)
    requires a >= 0 && b >= 0
    ensures ParseNumbers(v, IntToString(a) + "." + IntToString(b)) == v.(major := a, minor := b)
  {
    AtoiRoundTrip(a); AtoiRoundTrip(b);
    var sa, sb := IntToString(a), IntToString(b);
    var numbers := sa + "." + sb;
    assert numbers == sa + ['.'] + sb;
    SplitJoined(sa, '.', sb);
    NothingToSplit(sb, '.');
    assert HasPart(sb, '.', 0) && HasPart(numbers, '.', 1) && !HasPart(sb, '.', 1);
    assert !HasPart(numbers, '.', 2);
  }

  /** A name that starts with a digit, without and with a pre-release part. */
  lemma ParsedShape(numbers: string, tail: string)
    requires numbers != "" && numbers[0] != 'v' && '-' !in numbers
    ensures Parsed(numbers) == ParseNumbers(ZERO, numbers)
    ensures Parsed(numbers + "-" + tail) == ParseNumbers(ParseIdentifier(Before(tail, '-')), numbers)
  {
    var name := numbers + "-" + tail;
    assert name == numbers + ['-'] + tail;
    assert name[0] == numbers[0];
    assert !HasPrefix(name, "v") && !HasPrefix(numbers, "v");
    SplitJoined(numbers, '-', tail);
    assert HasPart(tail, '-', 0) && HasPart(name, '-', 1) && Part(name, '-', 1) == Before(tail, '-');
  }

  lemma NumbersShape(a: int64, b: int64, rest: string)
    requires a >= 0 && b >= 0
    ensures var numbers := IntToString(a) + "." + IntToString(b) + rest;
            numbers != "" && numbers[0] != 'v' && ('-' !in rest ==> '-' !in numbers)
  {
    AtoiRoundTrip(a); AtoiRoundTrip(b);
    assert IntToString(a)[0] in IntToString(a);
  }

  // ---------- Round trips ----------

  predicate NonNegative(v: Version) {
    v.major >= 0 && v.minor >= 0 && v.patch >= 0 && v.preRelease >= 0
  }

  /** Versions that their full name determines. */
  predicate Printable(v: Version) {
    && NonNegative(v) && v.commit == ""
    && '-' !in v.identifier && '.' !in v.identifier
    && (v.identifier == "" ==> v.preRelease == 0)
  }

  lemma VersionStringShape(v: Version)
    requires v.major >= 0 && v.minor >= 0 && v.patch >= 0
    ensures VersionString(v) != "" && VersionString(v)[0] != 'v' && '-' !in VersionString(v)
  {
    var rest := "." + IntToString(v.patch);
    AtoiRoundTrip(v.patch);
    NumbersShape(v.major, v.minor, rest);
    assert IntToString(v.major) + "." + IntToString(v.minor) + rest == VersionString(v);
  }

  lemma VersionStringParses(v: Version, tail: string)
    requires v.major >= 0 && v.minor >= 0 && v.patch >= 0
    ensures Parsed(VersionString(v)) == ZERO.(major := v.major, minor := v.minor, patch := v.patch)
    ensures Parsed(VersionString(v) + "-" + tail) ==
            ParseIdentifier(Before(tail, '-')).(major := v.major, minor := v.minor, patch := v.patch)
  {
    VersionStringShape(v);
    ParsedShape(VersionString(v), tail);
    ThreeNumbers(ZERO, v.major, v.minor, v.patch);
    ThreeNumbers(ParseIdentifier(Before(tail, '-')), v.major, v.minor, v.patch);
  }

  lemma DottedIdentifier(identifier: string, n: int64)
    requires n >= 0 && '.' !in identifier
    ensures ParseIdentifier(identifier + "." + IntToString(n)) == ZERO.(identifier := identifier, preRelease := n)
    ensures '-' !in identifier ==> '-' !in identifier + "." + IntToString(n)
  {
    AtoiRoundTrip(n);
    var tail, s := identifier + "." + IntToString(n), IntToString(n);
    assert tail == identifier + ['.'] + s;
    SplitJoined(identifier, '.', s);
    NothingToSplit(s, '.');
    assert HasPart(s, '.', 0) && HasPart(tail, '.', 1) && Part(tail, '.', 1) == s;
  }

  lemma PrintableRoundTrip(v: Version)
    requires Printable(v)
    ensures Parsed(String(v)) == v
  {
    if v.identifier == "" {
      VersionStringParses(v, "");
    } else {
      var tail := v.identifier + "." + IntToString(v.preRelease);
      assert String(v) == VersionString(v) + "-" + tail;
      DottedIdentifier(v.identifier, v.preRelease);
      assert '-' !in tail;
      NothingToSplit(tail, '-');
      VersionStringParses(v, tail);
    }
  }

  /** Whatever is parsed, the numbers are not negative and the identifier holds no separator. */
  lemma ParsedIsClean(name: string)
    ensures NonNegative(Parsed(name)) && '-' !in Parsed(name).identifier && '.' !in Parsed(name).identifier
  {
    var n := if HasPrefix(name, "v") then name[1..] else name;
    if '-' in n {
      assert HasPart(n, '-', 1) && HasPart(n, '-', 0);
      PartIsFree(n, '-', 0, '-');
      PartIsFree(n, '-', 1, '-');
      IdentifierIsClean(Part(n, '-', 1));
      NumbersAreClean(ParseIdentifier(Part(n, '-', 1)), Part(n, '-', 0));
    } else {
      NumbersAreClean(ZERO, n);
    }
  }

  lemma IdentifierIsClean(tail: string)
    requires '-' !in tail
    ensures var v := ParseIdentifier(tail);
            v.preRelease >= 0 && '-' !in v.identifier && '.' !in v.identifier
  {
    if '.' in tail {
      assert HasPart(tail, '.', 1) && HasPart(tail, '.', 0);
      PartIsFree(tail, '.', 0, '-');
      PartIsFree(tail, '.', 1, '-');
    }
  }

  lemma NumbersAreClean(v: Version, numbers: string)
    requires '-' !in numbers && NonNegative(v)
    ensures var r := ParseNumbers(v, numbers);
            NonNegative(r) && r.identifier == v.identifier && r.preRelease == v.preRelease
  {
    PartIsFree(numbers, '.', 0, '-');
    if HasPart(numbers, '.', 1) { PartIsFree(numbers, '.', 1, '-'); }
    if HasPart(numbers, '.', 2) { PartIsFree(numbers, '.', 2, '-'); }
  }

  /** Parsing inverts full printing on exactly the printable versions. */
  lemma StringRoundTripIff(v: Version)
    ensures Parsed(String(v)) == v <==> Printable(v)
  {
    if Printable(v) { PrintableRoundTrip(v); }
    if Parsed(String(v)) == v {
      ParsedIsClean(String(v));
      var w := v.(commit := "", preRelease := if v.identifier == "" then 0 else v.preRelease);
      assert String(w) == String(v);
      PrintableRoundTrip(w);
    }
  }

  /** Versions that their short name determines. */
  predicate ShortPrintable(v: Version) {
    && NonNegative(v) && v.commit == ""
    && ((v.identifier == "" && v.preRelease == 0) || v.identifier == "alpha" || v.identifier == "beta")
  }

  function ShortNumbers(v: Version): string {
    IntToString(v.major) + "." + IntToString(v.minor) + if v.patch > 0 then "." + IntToString(v.patch) else ""
  }

  function ShortTail(v: Version): string {
    v.identifier + if v.preRelease > 0 then IntToString(v.preRelease) else ""
  }

  lemma ShortNumbersGiven(base: Version, v: Version)
    requires v.major >= 0 && v.minor >= 0 && v.patch >= 0 && base.patch == 0
    ensures ParseNumbers(base, ShortNumbers(v)) == base.(major := v.major, minor := v.minor, patch := v.patch)
  {
    if v.patch > 0 {
      assert ShortNumbers(v) == IntToString(v.major) + "." + IntToString(v.minor) + "." + IntToString(v.patch);
      ThreeNumbers(base, v.major, v.minor, v.patch);
    } else {
      assert ShortNumbers(v) == IntToString(v.major) + "." + IntToString(v.minor);
      TwoNumbers(base, v.major, v.minor);
    }
  }

  lemma ShortNumbersParse(v: Version, tail: string)
    requires v.major >= 0 && v.minor >= 0 && v.patch >= 0 && '-' !in tail
    ensures Parsed(ShortNumbers(v)) == ZERO.(major := v.major, minor := v.minor, patch := v.patch)
    ensures Parsed(ShortNumbers(v) + "-" + tail) ==
            ParseIdentifier(tail).(major := v.major, minor := v.minor, patch := v.patch)
  {
    AtoiRoundTrip(v.patch);
    NumbersShape(v.major, v.minor, if v.patch > 0 then "." + IntToString(v.patch) else "");
    ParsedShape(ShortNumbers(v), tail);
    NothingToSplit(tail, '-');
    ShortNumbersGiven(ZERO, v);
    ShortNumbersGiven(ParseIdentifier(tail), v);
  }

  lemma ShortTailShape(v: Version)
    requires v.preRelease >= 0 && '-' !in v.identifier && '.' !in v.identifier
    ensures '-' !in ShortTail(v) && '.' !in ShortTail(v)
    ensures v.identifier != "" ==> BadString(v) == ShortNumbers(v) + "-" + ShortTail(v)
    ensures v.identifier == "alpha" || v.identifier == "beta" ==>
              ParseIdentifier(ShortTail(v)) == ZERO.(identifier := v.identifier, preRelease := v.preRelease)
  {
    var digits := if v.preRelease > 0 then IntToString(v.preRelease) else "";
    ShortDigits(v.preRelease);
    if v.identifier == "alpha" { AlphaTail(digits); }
    if v.identifier == "beta" { BetaTail(digits); }
  }

  lemma ShortDigits(n: int64)
    requires n >= 0
    ensures var digits := if n > 0 then IntToString(n) else ""; Atoi(digits) == n && '.' !in digits && '-' !in digits
  {
    AtoiRoundTrip(n);
  }

  lemma AlphaTail(digits: string)
    requires '.' !in digits
    ensures ParseIdentifier("alpha" + digits) == ZERO.(identifier := "alpha", preRelease := Atoi(digits))
  {
    var tail := "alpha" + digits;
    assert tail[..5] == "alpha" && tail[5..] == digits;
  }

  lemma BetaTail(digits: string)
    requires '.' !in digits
    ensures ParseIdentifier("beta" + digits) == ZERO.(identifier := "beta", preRelease := Atoi(digits))
  {
    var tail := "beta" + digits;
    assert tail[..4] == "beta" && tail[4..] == digits && tail[0] == 'b';
    assert |tail| >= 5 ==> tail[..5][0] != "alpha"[0];
  }

  /** Parsing inverts short printing on exactly the short-printable versions. */
  lemma BadStringRoundTripIff(v: Version)
    ensures Parsed(BadString(v)) == v <==> ShortPrintable(v)
  {
    if ShortPrintable(v) { ShortRoundTrip(v); }
    if Parsed(BadString(v)) == v { OnlyShortPrintable(v); }
  }

  lemma OnlyShortPrintable(v: Version)
    requires Parsed(BadString(v)) == v
    ensures ShortPrintable(v)
  {
    ParsedIsClean(BadString(v));
    if v.identifier == "" {
      ShortNumbersParse(v, "");
    } else {
      ShortTailShape(v);
      ShortNumbersParse(v, ShortTail(v));
    }
  }

  lemma ShortRoundTrip(v: Version)
    requires ShortPrintable(v)
    ensures Parsed(BadString(v)) == v
  {
    if v.identifier == "" {
      ShortNumbersParse(v, "");
    } else {
      ShortTailShape(v);
      ShortNumbersParse(v, ShortTail(v));
    }
  }

  /** A leading v is no part of the version. */
  lemma LeadingV(name: string)
    requires name == "" || name[0] != 'v'
    ensures Parsed("v" + name) == Parsed(name)
  {
    assert ("v" + name)[..1] == "v" && ("v" + name)[1..] == name;
    if name != "" { assert name[..1][0] != 'v'; }
  }

  /** So either style, with or without the v, is converted into the other by parsing and printing. */
  lemma StylesConvert(v: Version)
    ensures Printable(v) ==> Parsed("v" + String(v)) == v && BadString(Parsed("v" + String(v))) == BadString(v)
    ensures ShortPrintable(v) ==> Parsed("v" + BadString(v)) == v && String(Parsed("v" + BadString(v))) == String(v)
  {
    StringRoundTripIff(v);
    BadStringRoundTripIff(v);
    if v.major >= 0 {
      AtoiRoundTrip(v.major);
      var major := IntToString(v.major);
      assert major[0] in major && major[0] == VersionString(v)[0] == String(v)[0] == BadString(v)[0];
      LeadingV(String(v));
      LeadingV(BadString(v));
    }
  }

  // ---------- Order ----------

  function Rank(identifier: string): nat {
    if HasPrefix(identifier, "rc") then 1
    else if HasPrefix(identifier, "beta") then 2
    else if HasPrefix(identifier, "alpha") then 3
    else 0
  }

  predicate GreaterThan(v: Version, w: Version) {
    if v.major != w.major then v.major > w.major
    else if v.minor != w.minor then v.minor > w.minor
    else if v.patch != w.patch then v.patch > w.patch
    else if v.identifier == "" && w.identifier != "" then true
    else if v.identifier != "" && w.identifier == "" then false
    else if v.identifier != "" && v.identifier == w.identifier && v.preRelease != w.preRelease then
      v.preRelease > w.preRelease
    else v.identifier != "" && Rank(v.identifier) < Rank(w.identifier)
  }

  predicate GreaterThanOrEqual(v: Version, w: Version) {
    v == w || GreaterThan(v, w)
  }

  predicate LessThan(v: Version, w: Version) {
    !GreaterThanOrEqual(v, w)
  }

  predicate LessThanOrEqual(v: Version, w: Version) {
    v == w || GreaterThan(w, v)
  }

  /** A strict partial order on all versions. */
  lemma GreaterThanIsStrictOrder(u: Version, v: Version, w: Version)
    ensures !GreaterThan(u, u)
    ensures GreaterThan(u, v) ==> !GreaterThan(v, u)
    ensures GreaterThan(u, v) && GreaterThan(v, w) ==> GreaterThan(u, w)
  {
  }

  /** Different versions that the comparison cannot tell apart. */
  predicate Tied(v: Version, w: Version) {
    && v != w && v.major == w.major && v.minor == w.minor && v.patch == w.patch
    && (v.identifier == "" <==> w.identifier == "")
    && (v.identifier == w.identifier ==> v.identifier == "" || v.preRelease == w.preRelease)
    && (v.identifier != "" ==> Rank(v.identifier) == Rank(w.identifier))
  }

  /** Any two versions are equal, ordered, or tied; the derived comparisons are right exactly for pairs not tied. */
  lemma ComparisonRightIff(v: Version, w: Version)
    ensures (v == w || GreaterThan(v, w) || GreaterThan(w, v)) <==> !Tied(v, w)
    ensures (LessThan(v, w) <==> GreaterThan(w, v)) <==> !Tied(v, w)
    ensures Tied(v, w) ==> LessThan(v, w) && LessThan(w, v)
    ensures (LessThanOrEqual(v, w) <==> GreaterThanOrEqual(w, v))
  {
  }

  /** A suffix that is no pre-release ties with the bare numbers, so that each comes before the other. */
  lemma SuffixedReleaseTies(v: Version, tail: string)
    requires v.major >= 0 && v.minor >= 0 && v.patch >= 0
    requires var suffix := Before(tail, '-');
             suffix != "" && '.' !in suffix && !HasPrefix(suffix, "alpha") && !HasPrefix(suffix, "beta")
    ensures var plain, suffixed := Parsed(VersionString(v)), Parsed(VersionString(v) + "-" + tail);
            Tied(suffixed, plain) && LessThan(suffixed, plain) && LessThan(plain, suffixed)
  {
    VersionStringParses(v, tail);
  }

  const KERNEL := ZERO.(major := 6, minor := 14)

  lemma KernelNumbers()
    ensures VersionString(KERNEL) == "6.14.0"
  {
    assert NatToString(6) == "6" && NatToString(0) == "0";
    assert NatToString(14) == NatToString(1) + "4" && NatToString(1) == "1";
  }

  lemma KernelTail()
    ensures Before("27-generic", '-') == "27"
  {
    SplitJoined("27", '-', "generic");
    assert "27" + ['-'] + "generic" == "27-generic";
  }

  /** A kernel release such as this one is taken to be older than its own version. */
  lemma KernelReleaseTies(name: string)
    requires name == "6.14.0" + "-" + "27-generic"
    ensures !GreaterThanOrEqual(Parsed(name), KERNEL)
  {
    KernelNumbers();
    KernelTail();
    VersionStringParses(KERNEL, "27-generic");
    SuffixedReleaseTies(KERNEL, "27-generic");
  }

  /**
   Newer numbers decide; at equal numbers the release comes after rc, rc after beta, beta after alpha, and
   then the count.
   */
  lemma NewerIsGreater(v: Version, w: Version)
    ensures v.major > w.major ==> GreaterThan(v, w)
    ensures v.major == w.major && v.minor > w.minor ==> GreaterThan(v, w)
    ensures v.major == w.major && v.minor == w.minor && v.patch > w.patch ==> GreaterThan(v, w)
    ensures GreaterThan(v.(identifier := ""), v.(identifier := "rc"))
    ensures GreaterThan(v.(identifier := "rc"), v.(identifier := "beta"))
    ensures GreaterThan(v.(identifier := "beta"), v.(identifier := "alpha"))
    ensures v.identifier != "" && v.preRelease > w.preRelease ==> GreaterThan(v, v.(preRelease := w.preRelease))
  {
    KnownRanks();
  }

  lemma KnownRanks()
    ensures Rank("rc") == 1 && Rank("beta") == 2 && Rank("alpha") == 3
  {
    assert !HasPrefix("beta", "rc") by { assert "beta"[..2][0] != "rc"[0]; }
    assert !HasPrefix("alpha", "rc") by { assert "alpha"[..2][0] != "rc"[0]; }
    assert !HasPrefix("alpha", "beta") by { assert "alpha"[..4][0] != "beta"[0]; }
  }

  /** What counts is how an identifier begins; all other identifiers come after the rc ones. */
  lemma RankMeaning(identifier: string)
    ensures Rank("rc" + identifier) == 1 && Rank("beta" + identifier) == 2 && Rank("alpha" + identifier) == 3
    ensures Rank(identifier) == 0 <==>
            !HasPrefix(identifier, "rc") && !HasPrefix(identifier, "beta") && !HasPrefix(identifier, "alpha")
  {
    assert ("rc" + identifier)[..2] == "rc";
    assert ("beta" + identifier)[..4] == "beta" && ("beta" + identifier)[..2][0] == 'b';
    assert ("alpha" + identifier)[..5] == "alpha" && ("alpha" + identifier)[..2][0] == 'a' ==
           ("alpha" + identifier)[..4][0];
  }

  predicate KnownIdentifier(identifier: string) {
    identifier == "" || identifier == "rc" || identifier == "beta" || identifier == "alpha"
  }

  /** On printable versions with the known identifiers nothing ties: the order is total. */
  lemma KnownVersionsNeverTie(v: Version, w: Version)
    requires Printable(v) && Printable(w) && KnownIdentifier(v.identifier) && KnownIdentifier(w.identifier)
    ensures !Tied(v, w)
  {
    KnownRanks();
  }
}
