/** Version strings: extracting the numeric triple and comparing it. */
module Version {
  import opened Text
  import opened NameOrder

  const TWO63 := 0x8000_0000_0000_0000
  const TWO64 := 0x1_0000_0000_0000_0000

  /** Arithmetic of the 64-bit machine integer. */
  function Wrap64(x: int): int {
    (x + TWO63) % TWO64 - TWO63
  }

  predicate Digit(c: char) {
    '0' <= c <= '9'
  }

  function DigitValue(c: char): nat
    requires Digit(c)
  {
    c as int - '0' as int
  }

  predicate AllDigits(s: string) {
    forall i :: 0 <= i < |s| ==> Digit(s[i])
  }

  function DigitPrefix(s: string): (r: string)
    ensures AllDigits(r) && |r| <= |s|
  {
    if s != [] && Digit(s[0]) then [s[0]] + DigitPrefix(s[1..]) else []
  }

  /** The number the digits add up to when every step wraps around. */
  function Accumulated(digits: string): int
    requires AllDigits(digits)
  {
    if digits == [] then 0
    else Wrap64(Accumulated(digits[..|digits| - 1]) * 10 + DigitValue(digits[|digits| - 1]))
  }

  function Component(part: string): int {
    Accumulated(DigitPrefix(part))
  }

  datatype Triple = Triple(major: int, minor: int, patch: int)

  function PartOrZero(parts: seq<string>, i: nat): int {
    if i < |parts| then Component(parts[i]) else 0
  }

  function WithoutV(v: string): string {
    if "v" <= v then v[1..] else v
  }

  function ParseVersion(v: string): Triple {
    var parts := Split(WithoutV(v), '.');
    Triple(PartOrZero(parts, 0), PartOrZero(parts, 1), PartOrZero(parts, 2))
  }

  // ---- Decimal notation ----

  function DigitChar(d: nat): (c: char)
    requires d < 10
    ensures Digit(c) && DigitValue(c) == d
  {
    '0' + d as char
  }

  function Decimal(n: nat): (s: string)
    ensures s != [] && AllDigits(s)
  {
    if n < 10 then [DigitChar(n)] else Decimal(n / 10) + [DigitChar(n % 10)]
  }

  lemma WrapCongruent(x: int, d: int)
    ensures Wrap64(Wrap64(x) * 10 + d) == Wrap64(x * 10 + d)
  {
    var q := (x + TWO63) / TWO64;
    assert Wrap64(x) == x - q * TWO64;
    ShiftByPeriod(x * 10 + d, -10 * q);
  }

  lemma ShiftByPeriod(x: int, k: int)
    ensures Wrap64(x + k * TWO64) == Wrap64(x)
  {
    var y := x + TWO63;
    var q := y / TWO64;
    assert y + k * TWO64 == (q + k) * TWO64 + y % TWO64;
  }

  lemma WrapIff(n: nat)
    ensures Wrap64(n) == n <==> n < TWO63
  {
  }

  /** Reading a number written in decimal yields the number as far as 64 bits hold it. */
  lemma {:induction false} AccumulatedDecimal(n: nat)
    ensures Accumulated(Decimal(n)) == Wrap64(n)
  {
    var s := Decimal(n);
    if n < 10 {
      assert s[..0] == [];
    } else {
      AccumulatedDecimal(n / 10);
      assert s[..|s| - 1] == Decimal(n / 10);
      WrapCongruent(n / 10, n % 10);
    }
  }

  lemma {:induction false} DigitPrefixOf(digits: string, rest: string)
    requires AllDigits(digits) && (rest == [] || !Digit(rest[0]))
    ensures DigitPrefix(digits + rest) == digits
  {
    if digits == [] {
      assert digits + rest == rest;
    } else {
      assert (digits + rest)[1..] == digits[1..] + rest;
      DigitPrefixOf(digits[1..], rest);
    }
  }

  lemma NoDotInDigits(s: string)
    requires AllDigits(s)
    ensures '.' !in s
  {
  }

  /** The first piece of digits followed by anything starts with those digits. */
  lemma FirstPiece(digits: string, rest: string)
    requires AllDigits(digits) && (rest == [] || !Digit(rest[0]))
    ensures DigitPrefix(Split(digits + rest, '.')[0]) == digits
  {
    var s := digits + rest;
    NoDotInDigits(digits);
    if '.' !in s {
      DigitPrefixOf(digits, rest);
    } else {
      var k := IndexOf(s, '.');
      assert k >= |digits|;
      var between := rest[..k - |digits|];
      assert s[..k] == digits + between;
      DigitPrefixOf(digits, between);
    }
  }

  /** A version as it is usually written. */
  function Render(lead: bool, major: nat, minor: nat, patch: nat, suffix: string): string {
    (if lead then "v" else "") + (Decimal(major) + ['.'] + (Decimal(minor) + ['.'] + (Decimal(patch) + suffix)))
  }

  lemma WithoutVRender(lead: bool, major: nat, minor: nat, patch: nat, suffix: string)
    ensures WithoutV(Render(lead, major, minor, patch, suffix))
         == Decimal(major) + ['.'] + (Decimal(minor) + ['.'] + (Decimal(patch) + suffix))
  {
    var body := Decimal(major) + ['.'] + (Decimal(minor) + ['.'] + (Decimal(patch) + suffix));
    assert body[0] == Decimal(major)[0] && Digit(body[0]);
    if lead {
      assert ("v" + body)[1..] == body;
    } else {
      assert "" + body == body;
      assert "v"[0] == 'v';
    }
  }

  /** Two numbers and a tail, separated by dots. */
  lemma SplitTriple(a: string, b: string, tail: string)
    requires AllDigits(a) && AllDigits(b)
    ensures
      var parts := Split(a + ['.'] + (b + ['.'] + tail), '.');
      |parts| >= 3 && parts[0] == a && parts[1] == b && parts[2] == Split(tail, '.')[0]
  {
    NoDotInDigits(a);
    NoDotInDigits(b);
    SplitStep(a, b + ['.'] + tail, '.');
    SplitStep(b, tail, '.');
  }

  lemma RenderedComponents(lead: bool, major: nat, minor: nat, patch: nat, suffix: string)
    ensures ParseVersion(Render(lead, major, minor, patch, suffix))
         == Triple(Component(Decimal(major)), Component(Decimal(minor)), Component(Split(Decimal(patch) + suffix, '.')[0]))
  {
    WithoutVRender(lead, major, minor, patch, suffix);
    SplitTriple(Decimal(major), Decimal(minor), Decimal(patch) + suffix);
  }

  /** Parsing a rendered version, with or without the leading letter and with any suffix that does not
      start with a digit, yields each number wrapped to 64 bits. */
  lemma ParseRendered(lead: bool, major: nat, minor: nat, patch: nat, suffix: string)
    requires suffix == [] || !Digit(suffix[0])
    ensures ParseVersion(Render(lead, major, minor, patch, suffix)) == Triple(Wrap64(major), Wrap64(minor), Wrap64(patch))
  {
    RenderedComponents(lead, major, minor, patch, suffix);
    WholePart(major);
    WholePart(minor);
    LeadingPart(patch, suffix);
  }

  lemma LeadingPart(n: nat, suffix: string)
    requires suffix == [] || !Digit(suffix[0])
    ensures Component(Split(Decimal(n) + suffix, '.')[0]) == Wrap64(n)
  {
    FirstPiece(Decimal(n), suffix);
    AccumulatedDecimal(n);
  }

  lemma WholePart(n: nat)
    ensures Component(Decimal(n)) == Wrap64(n)
  {
    assert Decimal(n) + [] == Decimal(n);
    DigitPrefixOf(Decimal(n), []);
    AccumulatedDecimal(n);
  }

  /** The triple comes back exactly when each number is below two to the 63. */
  lemma ParseRenderedIff(lead: bool, major: nat, minor: nat, patch: nat, suffix: string)
    requires suffix == [] || !Digit(suffix[0])
    ensures ParseVersion(Render(lead, major, minor, patch, suffix)) == Triple(major, minor, patch)
       <==> major < TWO63 && minor < TWO63 && patch < TWO63
  {
    ParseRendered(lead, major, minor, patch, suffix);
    WrapIff(major);
    WrapIff(minor);
    WrapIff(patch);
  }

  /** Missing numbers count as zero, and so does a piece that does not start with a digit. */
  lemma ParseMissing(major: nat, minor: nat)
    ensures ParseVersion(Decimal(major)) == Triple(Wrap64(major), 0, 0)
    ensures ParseVersion(Decimal(major) + ['.'] + Decimal(minor)) == Triple(Wrap64(major), Wrap64(minor), 0)
  {
    var a, b := Decimal(major), Decimal(minor);
    assert Digit(a[0]) && (a + ['.'] + b)[0] == a[0] && "v"[0] == 'v';
    NoDotInDigits(a);
    NoDotInDigits(b);
    SplitStep(a, b, '.');
    WholePart(major);
    WholePart(minor);
  }

  lemma NotANumber(part: string)
    requires part == [] || !Digit(part[0])
    ensures Component(part) == 0
  {
  }

  // ---- Comparison ----

  predicate Before(a: Triple, b: Triple) {
    a.major < b.major || (a.major == b.major && (a.minor < b.minor || (a.minor == b.minor && a.patch < b.patch)))
  }

  /** The sign the comparison of two triples must have. */
  function Order(a: Triple, b: Triple): int {
    if Before(a, b) then -1 else if Before(b, a) then 1 else 0
  }

  function CompareVersions(v1: string, v2: string): int {
    Order(ParseVersion(v1), ParseVersion(v2))
  }

  /** A total preorder on version strings: reflexive, antisymmetric up to equal triples, transitive. */
  lemma ComparePreorder(a: string, b: string, c: string)
    ensures CompareVersions(a, a) == 0
    ensures CompareVersions(a, b) == -CompareVersions(b, a)
    ensures CompareVersions(a, b) == 0 <==> ParseVersion(a) == ParseVersion(b)
    ensures CompareVersions(a, b) <= 0 && CompareVersions(b, c) <= 0 ==> CompareVersions(a, c) <= 0
    ensures CompareVersions(a, b) < 0 && CompareVersions(b, c) <= 0 ==> CompareVersions(a, c) < 0
  {
  }

  /** In plain numbers: of two rendered versions whose numbers fit, the one with the smaller major number is
      smaller, then the one with the smaller minor number, then the one with the smaller patch number. */
  lemma {:induction false} CompareRendered(lead1: bool, major1: nat, minor1: nat, patch1: nat, suffix1: string,
                                           lead2: bool, major2: nat, minor2: nat, patch2: nat, suffix2: string)
    requires (suffix1 == [] || !Digit(suffix1[0])) && (suffix2 == [] || !Digit(suffix2[0]))
    requires major1 < TWO63 && minor1 < TWO63 && patch1 < TWO63 && major2 < TWO63 && minor2 < TWO63 && patch2 < TWO63
    ensures
      var order := CompareVersions(Render(lead1, major1, minor1, patch1, suffix1), Render(lead2, major2, minor2, patch2, suffix2));
      && (order == -1 <==> major1 < major2 || (major1 == major2 && (minor1 < minor2 || (minor1 == minor2 && patch1 < patch2))))
      && (order == 1 <==> major1 > major2 || (major1 == major2 && (minor1 > minor2 || (minor1 == minor2 && patch1 > patch2))))
      && (order == 0 <==> major1 == major2 && minor1 == minor2 && patch1 == patch2)
  {
    ParseRenderedIff(lead1, major1, minor1, patch1, suffix1);
    ParseRenderedIff(lead2, major2, minor2, patch2, suffix2);
  }

  /** Beyond 64 bits the order is lost: two to the 63 compares below zero. */
  lemma {:induction false} CompareOverflows()
    ensures CompareVersions(Render(false, TWO63, 0, 0, ""), Render(false, 0, 0, 0, "")) == -1
  {
    ParseRendered(false, TWO63, 0, 0, "");
    ParseRendered(false, 0, 0, 0, "");
    assert Wrap64(TWO63) == -TWO63 && Wrap64(0) == 0;
  }

  // ---- Semantic Versioning ----

  /** Pre-release identifiers, section 9 of Semantic Versioning 2.0.0. */
  datatype Ident = Number(n: nat) | Word(text: string)

  datatype SemVer = SemVer(major: nat, minor: nat, patch: nat, pre: seq<Ident>, build: string)

  function IdentText(i: Ident): string {
    match i
    case Number(n) => Decimal(n)
    case Word(text) => text
  }

  function Suffix(v: SemVer): string {
    (if v.pre == [] then "" else "-" + Join(seq(|v.pre|, i requires 0 <= i < |v.pre| => IdentText(v.pre[i])), '.'))
    + (if v.build == "" then "" else "+" + v.build)
  }

  function Written(v: SemVer): string {
    Render(false, v.major, v.minor, v.patch, Suffix(v))
  }

  function ByNumber(m: nat, n: nat): int {
    if m < n then -1 else if m > n then 1 else 0
  }

  /** Order of identifiers: numbers below words, numbers by value, words in dictionary order. */
  function IdentOrder(a: Ident, b: Ident): int {
    match (a, b)
    case (Number(m), Number(n)) => ByNumber(m, n)
    case (Number(_), Word(_)) => -1
    case (Word(_), Number(_)) => 1
    case (Word(s), Word(t)) => if Less(s, t) then -1 else if Less(t, s) then 1 else 0
  }

  function PreOrder(a: seq<Ident>, b: seq<Ident>): int {
    if a == [] && b == [] then 0
    else if a == [] then -1
    else if b == [] then 1
    else
      var first := IdentOrder(a[0], b[0]);
      if first != 0 then first else PreOrder(a[1..], b[1..])
  }

  /** Precedence, section 11 of Semantic Versioning 2.0.0: major, minor and patch compared numerically in that
      order, then a release above its pre-releases, then the pre-release identifiers. */
  function Precedence(a: SemVer, b: SemVer): int {
    if a.major != b.major then ByNumber(a.major, b.major)
    else if a.minor != b.minor then ByNumber(a.minor, b.minor)
    else if a.patch != b.patch then ByNumber(a.patch, b.patch)
    else if a.pre == [] && b.pre != [] then 1
    else if a.pre != [] && b.pre == [] then -1
    else PreOrder(a.pre, b.pre)
  }

  lemma {:induction false} PreOrderZero(a: seq<Ident>, b: seq<Ident>)
    ensures PreOrder(a, b) == 0 <==> a == b
  {
    if a != [] && b != [] {
      PreOrderZero(a[1..], b[1..]);
      IdentOrderZero(a[0], b[0]);
      assert a == [a[0]] + a[1..] && b == [b[0]] + b[1..];
    }
  }

  lemma IdentOrderZero(a: Ident, b: Ident)
    ensures IdentOrder(a, b) == 0 <==> a == b
  {
    if a.Word? && b.Word? {
      LessTotal(a.text, b.text);
      LessIrreflexive(a.text);
    }
  }

  /** The comparison agrees with Semantic Versioning precedence exactly when the triples differ or the
      pre-release parts are the same; two pre-releases of one version are not told apart. */
  lemma {:induction false} AgreesWithPrecedenceIff(a: SemVer, b: SemVer)
    requires a.major < TWO63 && a.minor < TWO63 && a.patch < TWO63
    requires b.major < TWO63 && b.minor < TWO63 && b.patch < TWO63
    ensures CompareVersions(Written(a), Written(b)) == Precedence(a, b)
       <==> (a.major, a.minor, a.patch) != (b.major, b.minor, b.patch) || a.pre == b.pre
  {
    SuffixStart(a);
    SuffixStart(b);
    CompareRendered(false, a.major, a.minor, a.patch, Suffix(a), false, b.major, b.minor, b.patch, Suffix(b));
    PreOrderZero(a.pre, b.pre);
  }

  const ALPHA := SemVer(1, 0, 0, [Word("alpha")], "")
  const RELEASE := SemVer(1, 0, 0, [], "")

  lemma AlphaWritten()
    ensures Written(ALPHA) == "1.0.0-alpha" && Written(RELEASE) == "1.0.0"
  {
    assert Decimal(1) == "1" && Decimal(0) == "0";
    var texts := seq(1, i requires 0 <= i < 1 => IdentText(ALPHA.pre[i]));
    assert texts == ["alpha"];
    assert Suffix(ALPHA) == "-alpha" && Suffix(RELEASE) == "";
  }

  /** A pre-release and its release: ranked apart by precedence, equal to the comparison. */
  lemma PreReleaseNotToldApart()
    ensures Written(ALPHA) == "1.0.0-alpha" && Written(RELEASE) == "1.0.0"
    ensures Precedence(ALPHA, RELEASE) == -1
    ensures CompareVersions(Written(ALPHA), Written(RELEASE)) == 0
  {
    SameTriple(ALPHA, RELEASE);
    AlphaWritten();
  }

  /** Versions with the same triple compare equal. */
  lemma SameTriple(a: SemVer, b: SemVer)
    requires a.major == b.major < TWO63 && a.minor == b.minor < TWO63 && a.patch == b.patch < TWO63
    ensures CompareVersions(Written(a), Written(b)) == 0
  {
    SuffixStart(a);
    SuffixStart(b);
    CompareRendered(false, a.major, a.minor, a.patch, Suffix(a), false, b.major, b.minor, b.patch, Suffix(b));
  }

  lemma SuffixStart(v: SemVer)
    ensures Suffix(v) == [] || !Digit(Suffix(v)[0])
  {
  }

  // ---- The loops ----

  /** Fill the three numbers digit by digit. */
  method Parse(v: string) returns (result: array<int>)
    ensures fresh(result) && result.Length == 3
    ensures Triple(result[0], result[1], result[2]) == ParseVersion(v)
  {
    var parts := Split(if "v" <= v then v[1..] else v, '.');
    result := new int[3](_ => 0);
    var i := 0;
    while i < |parts| && i < 3
      invariant 0 <= i <= 3 && i <= |parts|
      invariant forall k :: 0 <= k < 3 ==> result[k] == if k < i then Component(parts[k]) else 0
    {
      var numStr := TakeDigits(parts[i]);
      var value := AccumulateDigits(numStr);
      result[i] := value;
      i := i + 1;
    }
  }

  method AccumulateDigits(numStr: string) returns (value: int)
    requires AllDigits(numStr)
    ensures value == Accumulated(numStr)
  {
    value := 0;
    for j := 0 to |numStr|
      invariant value == Accumulated(numStr[..j])
    {
      assert numStr[..j + 1][..j] == numStr[..j];
      value := Wrap64(value * 10 + DigitValue(numStr[j]));
    }
    assert numStr[..|numStr|] == numStr;
  }

  method TakeDigits(part: string) returns (numStr: string)
    ensures numStr == DigitPrefix(part)
  {
    numStr := [];
    var k := 0;
    while k < |part| && Digit(part[k])
      invariant 0 <= k <= |part| && numStr == part[..k] && AllDigits(numStr)
    {
      numStr := numStr + [part[k]];
      k := k + 1;
    }
    assert part == part[..k] + part[k..];
    DigitPrefixOf(part[..k], part[k..]);
  }

  method Compare(v1: string, v2: string) returns (order: int)
    ensures order == CompareVersions(v1, v2)
  {
    var parts1 := Parse(v1);
    var parts2 := Parse(v2);
    var i := 0;
    while i < parts1.Length && i < parts2.Length
      invariant 0 <= i <= 3
      invariant forall k :: 0 <= k < i ==> parts1[k] == parts2[k]
    {
      if parts1[i] < parts2[i] {
        return -1;
      }
      if parts1[i] > parts2[i] {
        return 1;
      }
      i := i + 1;
    }
    return 0;
  }
}
