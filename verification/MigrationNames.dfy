/** tools/verify_migrations.py: migration file names, their versions, and when the order of the names is the order
    of the versions. */
module MigrationNames {
  import opened Options

  /// Digits as `\d` and `int` read them

  /** The first code point of every block of ten Unicode decimal digits, ASCII and Arabic-Indic first. */
  const DIGIT_ZEROS: seq<int> := [0x30, 0x660] + FURTHER_ZEROS

  const FURTHER_ZEROS: seq<int> := [
    0x6F0, 0x7C0, 0x966, 0x9E6, 0xA66, 0xAE6, 0xB66, 0xBE6, 0xC66, 0xCE6, 0xD66, 0xDE6, 0xE50, 0xED0,
    0xF20, 0x1040, 0x1090, 0x17E0, 0x1810, 0x1946, 0x19D0, 0x1A80, 0x1A90, 0x1B50, 0x1BB0, 0x1C40, 0x1C50, 0xA620,
    0xA8D0, 0xA900, 0xA9D0, 0xA9F0, 0xAA50, 0xABF0, 0xFF10, 0x104A0, 0x10D30, 0x11066, 0x110F0, 0x11136, 0x111D0,
    0x112F0, 0x11450, 0x114D0, 0x11650, 0x116C0, 0x11730, 0x118E0, 0x11950, 0x11C50, 0x11D50, 0x11DA0, 0x11F50,
    0x16A60, 0x16AC0, 0x16B50, 0x1D7CE, 0x1D7D8, 0x1D7E2, 0x1D7EC, 0x1D7F6, 0x1E140, 0x1E2F0, 0x1E4F0, 0x1E950, 0x1FBF0]

  function DigitFrom(c: char, zeros: seq<int>): (d: Option<nat>)
    ensures d.Some? ==> d.value < 10
  {
    if zeros == [] then None
    else if zeros[0] <= c as int < zeros[0] + 10 then Some(c as int - zeros[0])
    else DigitFrom(c, zeros[1..])
  }

  function Digit(c: char): (d: Option<nat>)
    ensures d.Some? ==> d.value < 10
  {
    DigitFrom(c, DIGIT_ZEROS)
  }

  function DigitValue(c: char): (d: nat)
    ensures d < 10
  {
    if Digit(c).Some? then Digit(c).value else 0
  }

  /** Five digits, an underscore, a description without line feeds, and the suffix. */
  predicate WellNamed(name: string) {
    && |name| >= 11
    && Digit(name[0]).Some? && Digit(name[1]).Some? && Digit(name[2]).Some? && Digit(name[3]).Some?
    && Digit(name[4]).Some?
    && name[5] == '_' && name[|name| - 4..] == ".sql" && '\n' !in name[6..|name| - 4]
  }

  function Version(name: string): nat
    requires WellNamed(name)
  {
    10000 * DigitValue(name[0]) + 1000 * DigitValue(name[1]) + 100 * DigitValue(name[2])
    + 10 * DigitValue(name[3]) + DigitValue(name[4])
  }

  /** A well-formed name is five digits, an underscore, a description and the suffix, put together. */
  lemma WellNamedIff(name: string)
    ensures WellNamed(name) <==>
            exists digits: string, description: string ::
              && name == digits + "_" + description + ".sql"
              && |digits| == 5 && (forall c <- digits :: Digit(c).Some?)
              && description != "" && '\n' !in description
  {
    hide Digit;
    if WellNamed(name) {
      var digits, description := name[..5], name[6..|name| - 4];
      assert name == digits + "_" + description + ".sql";
    }
    forall digits: string, description: string |
      name == digits + "_" + description + ".sql" && |digits| == 5 && (forall c <- digits :: Digit(c).Some?)
      && description != "" && '\n' !in description
      ensures WellNamed(name)
    {
      assert name[..5] == digits && name[6..|name| - 4] == description && name[|name| - 4..] == ".sql";
      assert forall i :: 0 <= i < 5 ==> name[i] == digits[i] && digits[i] in digits;
    }
  }

  /** The number that a text of digits is read as, digit by digit. */
  function ReadDecimal(digits: string): nat {
    if digits == "" then 0
    else 10 * ReadDecimal(digits[..|digits| - 1]) + DigitValue(digits[|digits| - 1])
  }

  lemma VersionIsRead(name: string)
    requires WellNamed(name)
    ensures Version(name) == ReadDecimal(name[..5])
  {
    hide DigitValue, Digit;
    var d := name[..5];
    assert d[..4][..3] == name[..3] && d[..4][..3][..2] == name[..2] && name[..2][..1] == name[..1];
    assert ReadDecimal(name[..1]) == DigitValue(name[0]);
    assert ReadDecimal(name[..2]) == 10 * ReadDecimal(name[..1]) + DigitValue(name[1]);
    assert ReadDecimal(name[..3]) == 10 * ReadDecimal(name[..2]) + DigitValue(name[2]);
    assert ReadDecimal(d[..4]) == 10 * ReadDecimal(name[..3]) + DigitValue(name[3]);
  }

  /// The order of names

  predicate Before(a: string, b: string) {
    b != "" && (a == "" || a[0] < b[0] || (a[0] == b[0] && Before(a[1..], b[1..])))
  }

  predicate AtMost(a: string, b: string) {
    a == b || Before(a, b)
  }

  lemma {:induction false} BeforeIsTotal(a: string, b: string)
    ensures a == b || Before(a, b) || Before(b, a)
  {
    if a != "" && b != "" && a[0] == b[0] {
      BeforeIsTotal(a[1..], b[1..]);
      assert a[1..] == b[1..] ==> a == [a[0]] + a[1..] == b;
    }
  }

  lemma {:induction false} BeforeIsTransitive(a: string, b: string, c: string)
    requires Before(a, b) && Before(b, c)
    ensures Before(a, c)
  {
    if a != "" && a[0] == b[0] == c[0] {
      BeforeIsTransitive(a[1..], b[1..], c[1..]);
    }
  }

  lemma {:induction false} FirstDifference(a: string, b: string, n: nat)
    requires AtMost(a, b) && n <= |a| && n <= |b|
    ensures a[..n] == b[..n] || exists k :: 0 <= k < n && a[..k] == b[..k] && a[k] < b[k]
  {
    if n > 0 && a != b {
      if a[0] == b[0] {
        FirstDifference(a[1..], b[1..], n - 1);
        if a[1..][..n - 1] == b[1..][..n - 1] {
          assert a[..n] == [a[0]] + a[1..][..n - 1] == b[..n];
        } else {
          var k :| 0 <= k < n - 1 && a[1..][..k] == b[1..][..k] && a[1..][k] < b[1..][k];
          assert a[..k + 1] == [a[0]] + a[1..][..k] == b[..k + 1] && a[k + 1] < b[k + 1];
        }
      } else {
        assert a[..0] == b[..0] && a[0] < b[0];
      }
    }
  }

  /// Digits whose order is the order of their values

  predicate Increasing(digits: set<char>) {
    forall c, d :: c in digits && d in digits && c < d ==> DigitValue(c) < DigitValue(d)
  }

  predicate AllAlike(digits: set<char>) {
    forall c, d :: c in digits && d in digits ==> DigitValue(c) == DigitValue(d)
  }

  predicate WrittenWith(name: string, digits: set<char>) {
    WellNamed(name) ==>
      name[0] in digits && name[1] in digits && name[2] in digits && name[3] in digits && name[4] in digits
  }

  lemma SamePrefixSameVersion(a: string, b: string)
    requires WellNamed(a) && WellNamed(b) && a[..5] == b[..5]
    ensures Version(a) == Version(b)
  {
    hide Digit, DigitValue;
    assert forall k :: 0 <= k < 5 ==> a[k] == a[..5][k] == b[..5][k] == b[k];
  }

  /** Equal digits up to position `k` and a smaller one there make a smaller number. */
  lemma SmallerAtDifference(a: string, b: string, k: nat)
    requires WellNamed(a) && WellNamed(b) && k < 5 && a[..k] == b[..k]
    requires DigitValue(a[k]) < DigitValue(b[k])
    ensures Version(a) < Version(b)
  {
    hide Digit, DigitValue;
    assert forall j :: 0 <= j < k ==> a[j] == a[..k][j] == b[..k][j] == b[j];
  }

  /** With increasing digits the order of names is the order of versions. */
  lemma NameOrderIsVersionOrder(a: string, b: string, digits: set<char>)
    requires AtMost(a, b) && WellNamed(a) && WellNamed(b) && WrittenWith(a, digits) && WrittenWith(b, digits)
    requires Increasing(digits) || AllAlike(digits)
    ensures Version(a) <= Version(b)
  {
    hide Digit, DigitValue, Before;
    if Increasing(digits) {
      FirstDifference(a, b, 5);
      if a[..5] == b[..5] {
        SamePrefixSameVersion(a, b);
      } else {
        var k :| 0 <= k < 5 && a[..k] == b[..k] && a[k] < b[k];
        SmallerAtDifference(a, b, k);
      }
    }
  }

  const ASCII_DIGITS := {'0', '1', '2', '3', '4', '5', '6', '7', '8', '9'}

  lemma AsciiDigit(c: char)
    requires '0' <= c <= '9'
    ensures Digit(c) == Some(c as int - 0x30)
  {
    assert DIGIT_ZEROS[0] == 0x30;
  }

  lemma AsciiIncreases()
    ensures Increasing(ASCII_DIGITS)
  {
    hide DigitValue;
    forall c, d | c in ASCII_DIGITS && d in ASCII_DIGITS && c < d ensures DigitValue(c) < DigitValue(d) {
      AsciiValue(c);
      AsciiValue(d);
    }
  }

  lemma AsciiValue(c: char)
    requires '0' <= c <= '9'
    ensures DigitValue(c) == c as int - 0x30
  {
    AsciiDigit(c);
    hide Digit;
  }

  /// A listing, name by name

  /** The version before position `i`, or -1. */
  function PreviousVersion(names: seq<string>, i: nat): int
    requires i <= |names|
  {
    if i == 0 then -1
    else if WellNamed(names[i - 1]) then Version(names[i - 1])
    else PreviousVersion(names, i - 1)
  }

  function VersionsBefore(names: seq<string>, i: nat): set<nat>
    requires i <= |names|
  {
    if i == 0 then {}
    else VersionsBefore(names, i - 1) + if WellNamed(names[i - 1]) then {Version(names[i - 1])} else {}
  }

  predicate OutOfOrder(names: seq<string>, i: nat)
    requires i < |names|
  {
    WellNamed(names[i]) && PreviousVersion(names, i) >= 0 && Version(names[i]) <= PreviousVersion(names, i)
  }

  predicate Duplicate(names: seq<string>, i: nat)
    requires i < |names|
  {
    WellNamed(names[i]) && Version(names[i]) in VersionsBefore(names, i)
  }

  ghost predicate Listed(names: seq<string>) {
    forall i, j :: 0 <= i < j < |names| ==> AtMost(names[i], names[j])
  }

  ghost predicate OrderFailuresAreDuplicates(names: seq<string>) {
    forall i :: 0 <= i < |names| ==> (OutOfOrder(names, i) <==> Duplicate(names, i))
  }

  lemma {:induction false} VersionsBeforeAre(names: seq<string>, i: nat)
    requires i <= |names|
    ensures forall v ::
              v in VersionsBefore(names, i) <==> exists j :: 0 <= j < i && WellNamed(names[j]) && Version(names[j]) == v
  {
    hide WellNamed;
    if i > 0 {
      VersionsBeforeAre(names, i - 1);
    }
  }

  /** Position `j` holds the last well-formed name before `i`. */
  predicate LastWellNamed(names: seq<string>, j: int, i: nat)
    requires i <= |names|
  {
    0 <= j < i && WellNamed(names[j]) && forall k :: j < k < i ==> !WellNamed(names[k])
  }

  lemma {:induction false} PreviousVersionIs(names: seq<string>, i: nat)
    requires i <= |names|
    ensures PreviousVersion(names, i) < 0 ==> forall j :: 0 <= j < i ==> !WellNamed(names[j])
    ensures PreviousVersion(names, i) >= 0
            ==> exists j :: LastWellNamed(names, j, i) && Version(names[j]) == PreviousVersion(names, i)
  {
    hide WellNamed, Version;
    if i > 0 {
      if WellNamed(names[i - 1]) {
        assert LastWellNamed(names, i - 1, i);
      } else {
        PreviousVersionIs(names, i - 1);
        if PreviousVersion(names, i) >= 0 {
          var j :| LastWellNamed(names, j, i - 1) && Version(names[j]) == PreviousVersion(names, i - 1);
          assert LastWellNamed(names, j, i);
        }
      }
    }
  }

  lemma OrderedListing(names: seq<string>, digits: set<char>)
    requires Listed(names) && (Increasing(digits) || AllAlike(digits)) && forall n <- names :: WrittenWith(n, digits)
    ensures OrderFailuresAreDuplicates(names)
  {
    hide WellNamed, Version, Before, Increasing, AllAlike, PreviousVersion, VersionsBefore, WrittenWith, AtMost;
    forall i | 0 <= i < |names| && WellNamed(names[i]) ensures OutOfOrder(names, i) <==> Duplicate(names, i) {
      VersionsBeforeAre(names, i);
      PreviousVersionIs(names, i);
      forall j | 0 <= j < i && WellNamed(names[j]) ensures Version(names[j]) <= Version(names[i]) {
        NameOrderIsVersionOrder(names[j], names[i], digits);
      }
      if PreviousVersion(names, i) >= 0 {
        var p :| LastWellNamed(names, p, i) && Version(names[p]) == PreviousVersion(names, i);
        forall j | 0 <= j < i && WellNamed(names[j]) ensures Version(names[j]) <= Version(names[p]) {
          if j < p {
            NameOrderIsVersionOrder(names[j], names[p], digits);
          }
        }
      }
    }
  }

  /// Only such digits will do

  function Named(a: char, b: char): string {
    [a, b, a, a, a] + "_x.sql"
  }

  lemma NamedVersion(a: char, b: char)
    requires Digit(a).Some? && Digit(b).Some?
    ensures WellNamed(Named(a, b)) && Version(Named(a, b)) == 10111 * DigitValue(a) + 1000 * DigitValue(b)
    ensures forall digits: set<char> :: a in digits && b in digits ==> WrittenWith(Named(a, b), digits)
  {
    hide Digit;
    var name := Named(a, b);
    assert |name| == 11 && name[7..] == ".sql" && name[6..7] == "x";
  }

  /** Two names in order whose versions fall: the second is out of order but no duplicate. */
  lemma FallingPair(a: string, b: string)
    requires AtMost(a, b) && WellNamed(a) && WellNamed(b) && Version(a) > Version(b)
    ensures Listed([a, b]) && !OrderFailuresAreDuplicates([a, b])
  {
    hide WellNamed, Version, Before;
    var names := [a, b];
    assert VersionsBefore(names, 0) == {} && VersionsBefore(names, 1) == {Version(a)};
    assert PreviousVersion(names, 1) == Version(a);
    assert OutOfOrder(names, 1) && !Duplicate(names, 1);
  }

  ghost predicate Reliable(digits: set<char>) {
    forall names: seq<string> ::
      Listed(names) && (forall n <- names :: WrittenWith(n, digits)) ==> OrderFailuresAreDuplicates(names)
  }

  lemma UnreliableDigits(digits: set<char>)
    requires (forall c <- digits :: Digit(c).Some?) && !Increasing(digits) && !AllAlike(digits)
    ensures !Reliable(digits)
  {
    hide Digit, DigitValue, WellNamed, Version, Listed, OrderFailuresAreDuplicates;
    var c, d :| c in digits && d in digits && c < d && DigitValue(c) >= DigitValue(d);
    var high, low := c, d;
    if DigitValue(c) == DigitValue(d) {
      high, low := DifferentValues(digits);
    }
    NamedVersion(c, high);
    NamedVersion(d, low);
    var names := [Named(c, high), Named(d, low)];
    FallingPair(names[0], names[1]);
    assert forall n <- names :: WrittenWith(n, digits);
  }

  lemma DifferentValues(digits: set<char>) returns (high: char, low: char)
    requires !AllAlike(digits)
    ensures high in digits && low in digits && DigitValue(high) > DigitValue(low)
  {
    hide DigitValue;
    var c, d :| c in digits && d in digits && DigitValue(c) != DigitValue(d);
    high, low := if DigitValue(c) > DigitValue(d) then c else d, if DigitValue(c) > DigitValue(d) then d else c;
  }

  /** In every sorted listing written with `digits` the names out of order are exactly the duplicates, if and only if
      the digits ascend with their values (or all have one value). */
  lemma ReliableIff(digits: set<char>)
    requires forall c <- digits :: Digit(c).Some?
    ensures Reliable(digits) <==> Increasing(digits) || AllAlike(digits)
  {
    hide Digit, DigitValue, WellNamed, Version, Increasing, AllAlike, Listed, OrderFailuresAreDuplicates, WrittenWith;
    if Increasing(digits) || AllAlike(digits) {
      forall names: seq<string> | Listed(names) && (forall n <- names :: WrittenWith(n, digits))
        ensures OrderFailuresAreDuplicates(names)
      {
        OrderedListing(names, digits);
      }
    } else {
      UnreliableDigits(digits);
    }
  }

  /** ASCII digits are reliable. */
  lemma AsciiIsReliable()
    ensures Reliable(ASCII_DIGITS)
  {
    hide Digit, Reliable;
    AsciiIncreases();
    forall c | c in ASCII_DIGITS ensures Digit(c).Some? {
      AsciiDigit(c);
    }
    ReliableIff(ASCII_DIGITS);
  }

  /** `\d` also matches U+0660: version 0 in such digits is listed after version 1 and flagged, though unique. */
  lemma ForeignDigitsAreNotReliable()
    ensures !Reliable({'1', '\U{0660}'})
  {
    AsciiDigit('1');
    var zero, rest := '\U{0660}', DIGIT_ZEROS[1..];
    assert DIGIT_ZEROS[0] == 0x30 && rest[0] == 0x660;
    assert Digit(zero) == DigitFrom(zero, rest) == Some(0);
    hide Digit, Reliable;
    UnreliableDigits({'1', '\U{0660}'});
  }
}
