/** tools/verify_migrations.py: the layout check, the deploy policy and the verdict. */
module MigrationGate {
  import opened Options
  import opened Text
  import opened MigrationNames
  import opened MigrationSections

  datatype File = File(name: string, text: string)

  datatype Rule =
    | MissingDir | NoSql | BadFilename | DuplicateVersion | VersionOrder
    | EmptyFile | MissingGooseUp | MissingGooseDown | EmptyGooseUp | Destructive(pattern: string)

  datatype Finding = Finding(file: string, rule: Rule)

  /// The listing by name

  function Insert(f: File, files: seq<File>): seq<File> {
    if files == [] || AtMost(f.name, files[0].name) then [f] + files else [files[0]] + Insert(f, files[1..])
  }

  function SortByName(files: seq<File>): seq<File> {
    if files == [] then [] else Insert(files[0], SortByName(files[1..]))
  }

  function Names(files: seq<File>): seq<string> {
    seq(|files|, i requires 0 <= i < |files| => files[i].name)
  }

  lemma {:induction false} InsertKeepsFiles(f: File, files: seq<File>)
    ensures multiset(Insert(f, files)) == multiset(files) + multiset{f}
  {
    hide AtMost;
    if files != [] && !AtMost(f.name, files[0].name) {
      InsertKeepsFiles(f, files[1..]);
      assert files == [files[0]] + files[1..];
    }
  }

  ghost predicate SortedByName(files: seq<File>) {
    forall i, j :: 0 <= i < j < |files| ==> AtMost(files[i].name, files[j].name)
  }

  lemma AtMostIsTransitive(a: string, b: string, c: string)
    requires AtMost(a, b) && AtMost(b, c)
    ensures AtMost(a, c)
  {
    hide Before;
    if a != b && b != c {
      BeforeIsTransitive(a, b, c);
    }
  }

  lemma {:induction false} InsertSorts(f: File, files: seq<File>)
    requires SortedByName(files)
    ensures SortedByName(Insert(f, files))
  {
    hide Before;
    if files != [] {
      if AtMost(f.name, files[0].name) {
        forall j | 0 <= j < |files| ensures AtMost(f.name, files[j].name) {
          AtMostIsTransitive(f.name, files[0].name, files[j].name);
        }
      } else {
        BeforeIsTotal(f.name, files[0].name);
        InsertSorts(f, files[1..]);
        InsertKeepsFiles(f, files[1..]);
        var rest := Insert(f, files[1..]);
        forall j | 0 <= j < |rest| ensures AtMost(files[0].name, rest[j].name) {
          assert rest[j] in multiset(rest);
        }
      }
    }
  }

  /** The sorted listing holds the same files, in the order of their names. */
  lemma {:induction false} SortingSorts(files: seq<File>)
    ensures SortedByName(SortByName(files)) && multiset(SortByName(files)) == multiset(files)
  {
    hide AtMost;
    if files != [] {
      SortingSorts(files[1..]);
      InsertSorts(files[0], SortByName(files[1..]));
      InsertKeepsFiles(files[0], SortByName(files[1..]));
      assert files == [files[0]] + files[1..];
    }
  }

  /// The layout

  function TextFindings(f: File): seq<Finding> {
    if Trim(f.text) == "" then [Finding(f.name, EmptyFile)]
    else
      (if HasDirective(f.text, "Up") then [] else [Finding(f.name, MissingGooseUp)])
      + (if HasDirective(f.text, "Down") then [] else [Finding(f.name, MissingGooseDown)])
      + (if Body(f.text, Up) == "" then [Finding(f.name, EmptyGooseUp)] else [])
  }

  function FileFindings(f: File, previous: int, seen: set<nat>): seq<Finding> {
    if !WellNamed(f.name) then [Finding(f.name, BadFilename)]
    else
      (if Version(f.name) in seen then [Finding(f.name, DuplicateVersion)] else [])
      + (if previous >= 0 && Version(f.name) <= previous then [Finding(f.name, VersionOrder)] else [])
      + TextFindings(f)
  }

  function FindingsUpTo(files: seq<File>, i: nat): seq<Finding>
    requires i <= |files|
  {
    if i == 0 then []
    else
      FindingsUpTo(files, i - 1)
      + FileFindings(files[i - 1], PreviousVersion(Names(files), i - 1), VersionsBefore(Names(files), i - 1))
  }

  /** `dir` is absent when the directory is; its files come in any order. */
  function LayoutFindings(dir: Option<seq<File>>): seq<Finding> {
    if dir.None? then [Finding("", MissingDir)]
    else if dir.value == [] then [Finding("", NoSql)]
    else FindingsUpTo(SortByName(dir.value), |SortByName(dir.value)|)
  }

  class Report {
    const target: string
    const allowDestructive: bool
    var findings: seq<Finding>
    var destructive: seq<Finding>
    var exitCode: int
    var blocked: bool

    constructor (target: string, allowDestructive: bool)
      ensures this.target == target && this.allowDestructive == allowDestructive
      ensures findings == [] && destructive == [] && exitCode == 0 && !blocked
    {
      this.target, this.allowDestructive := target, allowDestructive;
      findings, destructive, exitCode, blocked := [], [], 0, false;
    }

    method Add(f: Finding, isDestructive: bool)
      modifies `findings, `destructive
      ensures findings == old(findings) + [f]
      ensures destructive == old(destructive) + if isDestructive then [f] else []
    {
      findings := findings + [f];
      if isDestructive {
        destructive := destructive + [f];
      }
    }

    /** Adds a layout finding, which fails the check. */
    method Fail(f: Finding)
      modifies `findings, `destructive, `exitCode
      ensures findings == old(findings) + [f] && destructive == old(destructive) && exitCode == 1
    {
      Add(f, false);
      exitCode := 1;
    }

    method ValidateText(f: File)
      modifies `findings, `destructive, `exitCode
      ensures findings == old(findings) + TextFindings(f) && destructive == old(destructive)
      ensures exitCode == if TextFindings(f) == [] then old(exitCode) else 1
    {
      hide HasDirective, Trim, Body;
      if Trim(f.text) == "" {
        Fail(Finding(f.name, EmptyFile));
        return;
      }
      if !HasDirective(f.text, "Up") {
        Fail(Finding(f.name, MissingGooseUp));
      }
      if !HasDirective(f.text, "Down") {
        Fail(Finding(f.name, MissingGooseDown));
      }
      if Body(f.text, Up) == "" {
        Fail(Finding(f.name, EmptyGooseUp));
      }
    }

    method ValidateFile(f: File, previous: int, seen: set<nat>)
      modifies `findings, `destructive, `exitCode
      ensures findings == old(findings) + FileFindings(f, previous, seen) && destructive == old(destructive)
      ensures exitCode == if FileFindings(f, previous, seen) == [] then old(exitCode) else 1
    {
      hide WellNamed, Version, TextFindings;
      if !WellNamed(f.name) {
        Fail(Finding(f.name, BadFilename));
        return;
      }
      var version := Version(f.name);
      if version in seen {
        Fail(Finding(f.name, DuplicateVersion));
      }
      if previous >= 0 && version <= previous {
        Fail(Finding(f.name, VersionOrder));
      }
      ValidateText(f);
    }

    method ValidateLayout(dir: Option<seq<File>>)
      modifies `findings, `destructive, `exitCode
      ensures findings == old(findings) + LayoutFindings(dir) && destructive == old(destructive)
      ensures exitCode == if LayoutFindings(dir) == [] then old(exitCode) else 1
    {
      hide WellNamed, Version, SortByName, FileFindings;
      if dir.None? {
        Fail(Finding("", MissingDir));
        return;
      }
      if dir.value == [] {
        Fail(Finding("", NoSql));
        return;
      }
      var files := SortByName(dir.value);
      var previous: int, seen: set<nat> := -1, {};
      for i := 0 to |files|
        invariant previous == PreviousVersion(Names(files), i) && seen == VersionsBefore(Names(files), i)
        invariant findings == old(findings) + FindingsUpTo(files, i) && destructive == old(destructive)
        invariant exitCode == if FindingsUpTo(files, i) == [] then old(exitCode) else 1
      {
        var f := files[i];
        assert Names(files)[i] == f.name;
        ValidateFile(f, previous, seen);
        if WellNamed(f.name) {
          seen := seen + {Version(f.name)};
          previous := Version(f.name);
        }
      }
    }

    /** Destructive statements are always refused in `ci`, allowed in staging and production on request, and
        refused for any other target. */
    method ApplyPolicy()
      modifies `exitCode, `blocked
      ensures (exitCode, blocked) ==
              if destructive == [] then (old(exitCode), false)
              else if allowDestructive && target in {"staging", "production"} then (old(exitCode), old(blocked))
              else (1, true)
    {
      if destructive == [] {
        blocked := false;
        return;
      }
      if target == "ci" {
        blocked, exitCode := true, 1;
        return;
      }
      if target == "staging" {
        if !allowDestructive {
          blocked, exitCode := true, 1;
        }
        return;
      }
      if target == "production" {
        if !allowDestructive {
          blocked, exitCode := true, 1;
        }
        return;
      }
      blocked, exitCode := true, 1;
    }
  }

  /// What passes

  ghost predicate FileSound(f: File) {
    && WellNamed(f.name) && Trim(f.text) != ""
    && HasDirective(f.text, "Up") && HasDirective(f.text, "Down") && Body(f.text, Up) != ""
  }

  ghost predicate StrictlyIncreasing(files: seq<File>) {
    forall i, j :: 0 <= i < j < |files| && WellNamed(files[i].name) && WellNamed(files[j].name) ==>
      Version(files[i].name) < Version(files[j].name)
  }

  ghost predicate LayoutSound(files: seq<File>) {
    (forall f <- files :: FileSound(f)) && StrictlyIncreasing(files)
  }

  lemma NoFileFindings(f: File, previous: int, seen: set<nat>)
    ensures FileFindings(f, previous, seen) == [] <==>
            FileSound(f) && Version(f.name) !in seen && (previous >= 0 ==> previous < Version(f.name))
  {
    hide WellNamed, Version, HasDirective, Body, Trim;
  }

  lemma SoundNames(files: seq<File>, k: nat)
    requires k <= |files| && LayoutSound(files[..k])
    ensures forall j :: 0 <= j < k ==> WellNamed(Names(files)[j]) && Names(files)[j] == files[j].name
  {
    hide WellNamed, Version, HasDirective, Body, Trim;
    assert forall j :: 0 <= j < k ==> files[..k][j] in files[..k];
  }

  lemma OneMoreFile(files: seq<File>, k: nat)
    requires k < |files|
    ensures LayoutSound(files[..k + 1]) <==>
            && LayoutSound(files[..k]) && FileSound(files[k])
            && (WellNamed(files[k].name) ==>
                  forall j ::
                    0 <= j < k && WellNamed(files[j].name) ==> Version(files[j].name) < Version(files[k].name))
  {
    hide WellNamed, Version, FileSound;
    var more, some := files[..k + 1], files[..k];
    assert more == some + [files[k]];
    assert forall j :: 0 <= j < k ==> more[j] == some[j] == files[j];
  }

  /** After sound files the previous version is the one just above, and higher than all before. */
  lemma PreviousIsHighest(files: seq<File>, k: nat)
    requires 0 < k < |files| && LayoutSound(files[..k])
    ensures WellNamed(files[k - 1].name) && PreviousVersion(Names(files), k) == Version(files[k - 1].name)
    ensures forall j :: 0 <= j < k && WellNamed(files[j].name) ==> Version(files[j].name) <= Version(files[k - 1].name)
  {
    hide WellNamed, Version, HasDirective, Body, Trim;
    SoundNames(files, k);
    assert forall j :: 0 <= j < k ==> files[..k][j] == files[j];
  }

  /** After sound files, a version that is unused and above the previous one is above them all. */
  lemma AboveAll(files: seq<File>, k: nat)
    requires k < |files| && LayoutSound(files[..k]) && WellNamed(files[k].name)
    ensures var v, previous := Version(files[k].name), PreviousVersion(Names(files), k);
            v !in VersionsBefore(Names(files), k) && (previous >= 0 ==> previous < v) <==>
            forall j :: 0 <= j < k && WellNamed(files[j].name) ==> Version(files[j].name) < v
  {
    hide WellNamed, Version, LayoutSound, VersionsBefore;
    var names := Names(files);
    VersionsBeforeAre(names, k);
    assert forall j :: 0 <= j < |files| ==> names[j] == files[j].name;
    if k > 0 {
      PreviousIsHighest(files, k);
    }
  }

  /** No finding among the first `i` files means that they are sound and their versions increase. */
  lemma {:induction false} NoFindingsUpTo(files: seq<File>, i: nat)
    requires i <= |files|
    ensures FindingsUpTo(files, i) == [] <==> LayoutSound(files[..i])
  {
    hide WellNamed, Version, FileSound, FileFindings, PreviousVersion, VersionsBefore, LayoutSound;
    if i == 0 {
      EmptyIsSound(files[..0]);
    } else {
      var names, k := Names(files), i - 1;
      NoFindingsUpTo(files, k);
      NoFileFindings(files[k], PreviousVersion(names, k), VersionsBefore(names, k));
      SoundIsWellNamed(files[k]);
      OneMoreFile(files, k);
      if LayoutSound(files[..k]) && WellNamed(files[k].name) {
        AboveAll(files, k);
      }
    }
  }

  lemma EmptyIsSound(files: seq<File>)
    requires files == []
    ensures LayoutSound(files)
  {
  }

  lemma SoundIsWellNamed(f: File)
    ensures FileSound(f) ==> WellNamed(f.name)
  {
  }

  /** The layout check finds nothing exactly when there are files, all sound, and their versions strictly increase. */
  lemma LayoutCheckIsExact(dir: Option<seq<File>>)
    ensures LayoutFindings(dir) == [] <==> dir.Some? && dir.value != [] && LayoutSound(SortByName(dir.value))
  {
    hide LayoutSound, SortByName, FindingsUpTo;
    if dir.Some? {
      var files := SortByName(dir.value);
      NoFindingsUpTo(files, |files|);
      assert files[..|files|] == files;
    }
  }

  /// Each finding

  /** The ith file has a version and the nearest file above that has one has `v`. */
  ghost predicate FollowsVersion(files: seq<File>, i: nat, v: nat)
    requires i < |files|
  {
    exists j :: 0 <= j < i && WellNamed(files[j].name) && Version(files[j].name) == v
                && forall k :: j < k < i ==> !WellNamed(files[k].name)
  }

  ghost predicate UsesVersion(files: seq<File>, i: nat, v: nat)
    requires i <= |files|
  {
    exists j :: 0 <= j < i && WellNamed(files[j].name) && Version(files[j].name) == v
  }

  /** What is wrong with the ith file of the sorted listing; a badly named one is looked at no further. */
  ghost predicate FindingDue(files: seq<File>, i: nat, rule: Rule)
    requires i < |files|
  {
    var f := files[i];
    if rule == BadFilename then !WellNamed(f.name)
    else
      WellNamed(f.name) &&
      match rule
      case DuplicateVersion => UsesVersion(files, i, Version(f.name))
      case VersionOrder => exists v: nat :: FollowsVersion(files, i, v) && Version(f.name) <= v
      case EmptyFile => AllSpace(f.text)
      case MissingGooseUp => !AllSpace(f.text) && !HasDirective(f.text, "Up")
      case MissingGooseDown => !AllSpace(f.text) && !HasDirective(f.text, "Down")
      case EmptyGooseUp => !AllSpace(f.text) && !HasVisibleLine(f.text, Up)
      case _ => false
  }

  lemma TextFindingsAre(f: File, finding: Finding)
    ensures finding in TextFindings(f) <==>
            finding.file == f.name &&
            match finding.rule
            case EmptyFile => AllSpace(f.text)
            case MissingGooseUp => !AllSpace(f.text) && !HasDirective(f.text, "Up")
            case MissingGooseDown => !AllSpace(f.text) && !HasDirective(f.text, "Down")
            case EmptyGooseUp => !AllSpace(f.text) && !HasVisibleLine(f.text, Up)
            case _ => false
  {
    hide Trim, AllSpace, HasDirective, Body, HasVisibleLine;
    TrimmedToNothing(f.text);
    BodyIffVisibleLine(f.text, Up);
  }

  lemma UsedVersions(files: seq<File>, i: nat, v: nat)
    requires i < |files|
    ensures v in VersionsBefore(Names(files), i) <==> UsesVersion(files, i, v)
  {
    hide WellNamed, Version, VersionsBefore;
    var names := Names(files);
    assert forall j :: 0 <= j < |files| ==> names[j] == files[j].name;
    VersionsBeforeAre(names, i);
  }

  lemma FollowedVersion(files: seq<File>, i: nat, v: nat)
    requires i < |files|
    ensures PreviousVersion(Names(files), i) == v <==> FollowsVersion(files, i, v)
  {
    hide WellNamed, Version, PreviousVersion;
    var names := Names(files);
    assert forall j :: 0 <= j < |files| ==> names[j] == files[j].name;
    PreviousVersionIs(names, i);
    if PreviousVersion(names, i) >= 0 {
      var j :| LastWellNamed(names, j, i) && Version(names[j]) == PreviousVersion(names, i);
      assert WellNamed(files[j].name) && Version(files[j].name) == PreviousVersion(names, i);
      if FollowsVersion(files, i, v) {
        var l :| 0 <= l < i && WellNamed(files[l].name) && Version(files[l].name) == v
          && forall k :: l < k < i ==> !WellNamed(files[k].name);
        assert l == j;
      }
    }
  }

  lemma FileFindingsAre(files: seq<File>, i: nat, finding: Finding)
    requires i < |files|
    ensures finding in FileFindings(files[i], PreviousVersion(Names(files), i), VersionsBefore(Names(files), i)) <==>
            finding.file == files[i].name && FindingDue(files, i, finding.rule)
  {
    hide WellNamed, Version, VersionsBefore, PreviousVersion, TextFindings, UsesVersion, FollowsVersion, AllSpace,
         HasDirective, HasVisibleLine;
    if WellNamed(files[i].name) {
      UsedVersions(files, i, Version(files[i].name));
      var previous := PreviousVersion(Names(files), i);
      if previous >= 0 {
        FollowedVersion(files, i, previous);
      }
      forall v: nat | FollowsVersion(files, i, v) ensures v == previous {
        FollowedVersion(files, i, v);
      }
    }
    TextFindingsAre(files[i], finding);
  }

  lemma {:induction false} FindingsUpToAre(files: seq<File>, i: nat, finding: Finding)
    requires i <= |files|
    ensures finding in FindingsUpTo(files, i) <==>
            exists k: nat :: k < i && finding.file == files[k].name && FindingDue(files, k, finding.rule)
  {
    hide FileFindings, FindingDue, PreviousVersion, VersionsBefore;
    if i > 0 {
      FindingsUpToAre(files, i - 1, finding);
      FileFindingsAre(files, i - 1, finding);
    }
  }

  /** Why a finding about the listing is reported. */
  ghost predicate LayoutFindingDue(dir: Option<seq<File>>, finding: Finding) {
    if dir.None? then finding == Finding("", MissingDir)
    else if dir.value == [] then finding == Finding("", NoSql)
    else
      var files := SortByName(dir.value);
      exists k: nat :: k < |files| && finding.file == files[k].name && FindingDue(files, k, finding.rule)
  }

  /** Reported is exactly what is wrong with some file, or that there is no directory or no file. */
  lemma FindingsAre(dir: Option<seq<File>>, finding: Finding)
    ensures finding in LayoutFindings(dir) <==> LayoutFindingDue(dir, finding)
  {
    hide FindingsUpTo, FindingDue, SortByName;
    if dir.Some? {
      var files := SortByName(dir.value);
      FindingsUpToAre(files, |files|, finding);
    }
  }

  ghost predicate DistinctVersions(files: seq<File>) {
    forall i, j :: 0 <= i < j < |files| && WellNamed(files[i].name) && WellNamed(files[j].name) ==>
      Version(files[i].name) != Version(files[j].name)
  }

  /** For names in increasing digits, ASCII ones for instance, the order check adds nothing: a sorted listing of
      sound files passes exactly when no version repeats. */
  lemma OrderCheckIsRedundant(files: seq<File>, digits: set<char>)
    requires SortedByName(files) && Increasing(digits) && forall f <- files :: WrittenWith(f.name, digits)
    ensures StrictlyIncreasing(files) <==> DistinctVersions(files)
  {
    hide WellNamed, Version, Increasing, WrittenWith, AtMost;
    forall i, j | 0 <= i < j < |files| && WellNamed(files[i].name) && WellNamed(files[j].name)
      ensures Version(files[i].name) <= Version(files[j].name)
    {
      NameOrderIsVersionOrder(files[i].name, files[j].name, digits);
    }
  }

  /// The verdict

  ghost predicate Passes(dir: Option<seq<File>>, found: seq<Finding>, target: string, allow: bool) {
    && dir.Some? && dir.value != [] && LayoutSound(SortByName(dir.value))
    && (found == [] || (allow && target in {"staging", "production"}))
  }

  /** The whole check; `found` are the destructive statements that scanning the Up sections yields. */
  method Verify(dir: Option<seq<File>>, found: seq<Finding>, target: string, allow: bool)
    returns (exitCode: int, blocked: bool)
    ensures exitCode == 0 <==> Passes(dir, if dir.Some? then found else [], target, allow)
    ensures exitCode in {0, 1} && (blocked <==> exitCode == 1)
  {
    hide LayoutSound, SortByName, LayoutFindings;
    LayoutCheckIsExact(dir);
    var report := new Report(target, allow);
    report.ValidateLayout(dir);
    if dir.Some? {
      for i := 0 to |found|
        invariant report.destructive == found[..i]
        invariant report.exitCode == if LayoutFindings(dir) == [] then 0 else 1
        invariant !report.blocked
      {
        report.Add(found[i], true);
      }
      assert found[..|found|] == found;
    }
    if report.exitCode == 0 {
      report.ApplyPolicy();
    } else {
      report.blocked := true;
    }
    exitCode, blocked := report.exitCode, report.blocked;
  }
}
