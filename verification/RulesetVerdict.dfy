/** tools/verify_github_governance.py: which rulesets cover a branch, and the verdict on their merged rules. */
module RulesetVerdict {
  import opened Options
  import opened Sequences
  import opened Text
  import Window = GovernanceModel

  /// Rules as the API reports them

  /** A number that `int` reads, one that it rejects, or none (absent or falsy). */
  datatype Count = Zero | Number(n: int) | Rejected

  datatype Flag = Missing | Off | On

  datatype Parameters = Parameters(
    approvals: Count, dismissStale: Flag, lastPush: Flag, strict: Flag, contexts: seq<string>)

  /** `kind` is trimmed and lower-case; parameters that are not an object are `None`. `contexts` are the non-empty ones:
      the tool skips checks without a context. */
  datatype Rule = Rule(kind: string, parameters: Option<Parameters>)

  datatype RefName = RefName(includes: seq<string>, excludes: seq<string>)

  datatype Ruleset = Ruleset(target: string, enforcement: string, refName: Option<RefName>, rules: seq<Rule>)

  /// Coverage

  /** The host's file-name matching of a text against a pattern; nothing is assumed of it. */
  type Glob = (string, string) -> bool

  predicate PatternMatches(glob: Glob, raw: string, branch: string, defaultBranch: string) {
    var pattern := Trim(raw);
    var ref := "refs/heads/" + branch;
    if pattern == "" then false
    else if pattern == "~ALL" then true
    else if pattern == "~DEFAULT_BRANCH" then branch == defaultBranch
    else if pattern == branch || pattern == ref then true
    else if glob(ref, pattern) || glob(branch, pattern) then true
    else if !("refs/" <= pattern) && !("~" <= pattern) then glob(ref, "refs/heads/" + pattern)
    else glob(ref, pattern)
  }

  /** A pattern matches if it is `~ALL`, or `~DEFAULT_BRANCH` on the default branch, or any other text that is not blank
      and names or globs the branch by its full or its short name; a pattern without prefix also globs as a branch. */
  lemma PatternMatchesIff(glob: Glob, raw: string, branch: string, defaultBranch: string)
    ensures var p, full := Trim(raw), "refs/heads/" + branch;
            PatternMatches(glob, raw, branch, defaultBranch) <==>
            || p == "~ALL"
            || (p == "~DEFAULT_BRANCH" && branch == defaultBranch)
            || (p !in {"", "~DEFAULT_BRANCH"}
                && (p in {branch, full} || glob(full, p) || glob(branch, p)
                    || (!("refs/" <= p) && !("~" <= p) && glob(full, "refs/heads/" + p))))
  {
    hide Trim;
  }

  predicate Covers(glob: Glob, r: Ruleset, branch: string, defaultBranch: string) {
    && r.target == "branch" && Lower(r.enforcement) == "active" && r.refName.Some?
    && (forall p <- r.refName.value.excludes :: !PatternMatches(glob, p, branch, defaultBranch))
    && (exists p <- r.refName.value.includes :: PatternMatches(glob, p, branch, defaultBranch))
  }

  method CoversRef(glob: Glob, r: Ruleset, branch: string, defaultBranch: string) returns (covers: bool)
    ensures covers <==> Covers(glob, r, branch, defaultBranch)
  {
    hide PatternMatches, Lower;
    if r.target != "branch" || Lower(r.enforcement) != "active" || r.refName.None? {
      return false;
    }
    var includes, excludes := r.refName.value.includes, r.refName.value.excludes;
    for i := 0 to |excludes|
      invariant forall p <- excludes[..i] :: !PatternMatches(glob, p, branch, defaultBranch)
    {
      assert excludes[i] in excludes && excludes[..i + 1] == excludes[..i] + [excludes[i]];
      if PatternMatches(glob, excludes[i], branch, defaultBranch) {
        return false;
      }
    }
    assert excludes[..|excludes|] == excludes;
    for i := 0 to |includes|
      invariant forall p <- includes[..i] :: !PatternMatches(glob, p, branch, defaultBranch)
    {
      assert includes[i] in includes && includes[..i + 1] == includes[..i] + [includes[i]];
      if PatternMatches(glob, includes[i], branch, defaultBranch) {
        return true;
      }
    }
    assert includes[..|includes|] == includes;
    covers := false;
  }

  /** Only an active branch ruleset covers anything, one matching exclude is enough to leave the branch out, and without
      one some include has to match. */
  lemma CoversIff(glob: Glob, r: Ruleset, branch: string, defaultBranch: string)
    ensures r.target != "branch" || Lower(r.enforcement) != "active" || r.refName.None?
            ==> !Covers(glob, r, branch, defaultBranch)
    ensures r.refName.Some? ==>
              var includes, excludes := r.refName.value.includes, r.refName.value.excludes;
              && (forall j | 0 <= j < |excludes| && PatternMatches(glob, excludes[j], branch, defaultBranch) ::
                    !Covers(glob, r, branch, defaultBranch))
              && (includes == [] ==> !Covers(glob, r, branch, defaultBranch))
              && (forall j | 0 <= j < |includes| && PatternMatches(glob, includes[j], branch, defaultBranch) ::
                    r.target == "branch" && Lower(r.enforcement) == "active"
                    && (forall p <- excludes :: !PatternMatches(glob, p, branch, defaultBranch))
                    ==> Covers(glob, r, branch, defaultBranch))
  {
    hide PatternMatches, Lower;
  }

  lemma SameRef(a: string, b: string)
    requires "refs/heads/" + a == "refs/heads/" + b
    ensures a == b
  {
    assert a == ("refs/heads/" + a)[11..] && b == ("refs/heads/" + b)[11..];
  }

  /** Whatever the window tool takes for a match of a protected branch, this tool does too, if `main` is the default. */
  lemma WindowMatchesAreMatches(glob: Glob, pattern: string, branch: string)
    requires branch in Window.PROTECTED_BRANCHES && Window.PatternMatches(pattern, branch)
    ensures PatternMatches(glob, pattern, branch, "main")
  {
    hide Trim;
    if "refs/heads/" + branch == "refs/heads/" + Trim(pattern) {
      SameRef(branch, Trim(pattern));
    }
  }

  /// The policy

  /** A recommended check by its display name and the short name that rulesets report. */
  datatype Check = Check(name: string, short: string)

  const DEVELOP_CHECKS := [
    Check("CI / Workflow and Script Quality", "Workflow and Script Quality"),
    Check("CI / GitHub repository governance", "GitHub repository governance"),
    Check("CI / Go CI Gates", "Go CI Gates"),
    Check("CI / Docker Compose Config Validation", "Docker Compose Config Validation"),
    Check("Security / Secret Scan", "Secret Scan"),
    Check("Security / Go Vulnerability Scan", "Go Vulnerability Scan"),
    Check("Security / Deployment and Config Scan", "Deployment and Config Scan")]

  const MAIN_CHECKS := DEVELOP_CHECKS
    + [Check("Enterprise release verification / verify-enterprise-release", "verify-enterprise-release")]

  function Expected(isMain: bool): seq<Check> {
    if isMain then MAIN_CHECKS else DEVELOP_CHECKS
  }

  predicate Satisfied(c: Check, contexts: set<string>) {
    c.name in contexts || c.short in contexts
  }

  ghost predicate OfKind(r: Rule, kind: string) {
    r.kind == kind
  }

  ghost predicate HasKind(rules: seq<Rule>, kind: string) {
    exists r <- rules :: OfKind(r, kind)
  }

  ghost predicate PullRequestRule(r: Rule) {
    r.kind == "pull_request" && r.parameters.Some?
  }

  ghost predicate StatusCheckRule(r: Rule) {
    r.kind == "required_status_checks" && r.parameters.Some?
  }

  ghost predicate Observed(rules: seq<Rule>, context: string) {
    exists r <- rules :: StatusCheckRule(r) && context in r.parameters.value.contexts
  }

  ghost predicate PullRequestPolicy(rules: seq<Rule>) {
    && HasKind(rules, "pull_request")
    && (exists r <- rules ::
          PullRequestRule(r) && r.parameters.value.approvals.Number? && r.parameters.value.approvals.n >= 1)
    && (forall r <- rules ::
          PullRequestRule(r) ==> r.parameters.value.dismissStale != Off && r.parameters.value.lastPush != Off)
  }

  ghost predicate StatusCheckPolicy(rules: seq<Rule>, isMain: bool, enforce: bool) {
    && HasKind(rules, "required_status_checks")
    && (enforce ==> (exists r <- rules :: StatusCheckRule(r) && r.parameters.value.strict == On)
                    || (forall r <- rules :: !StatusCheckRule(r)))
    && (exists c :: Observed(rules, c))
    && (forall c <- Expected(isMain) :: Observed(rules, c.name) || Observed(rules, c.short))
  }

  /** The declarative policy over the rules of the covering rulesets. */
  ghost predicate Policy(rules: seq<Rule>, isMain: bool, enforce: bool) {
    && PullRequestPolicy(rules) && StatusCheckPolicy(rules, isMain, enforce)
    && HasKind(rules, "non_fast_forward") && HasKind(rules, "deletion")
  }

  /// The accumulating verdict

  datatype Error =
    | AddPullRequest | SetApprovals | DismissStale | LastPush | AddStatusChecks | Strict | NoContexts
    | MissingChecks(names: seq<string>) | BlockForcePush | BlockDeletion

  datatype Warning = DismissStaleUnreported | LastPushUnreported | NotStrict

  ghost predicate Approved(rules: seq<Rule>) {
    exists r <- rules ::
      PullRequestRule(r) && r.parameters.value.approvals.Number? && r.parameters.value.approvals.n >= 1
  }

  ghost predicate StrictSet(rules: seq<Rule>) {
    exists r <- rules :: StatusCheckRule(r) && r.parameters.value.strict == On
  }

  ghost predicate AnyContext(rules: seq<Rule>) {
    exists r <- rules :: StatusCheckRule(r) && r.parameters.value.contexts != []
  }

  /** Exactly when each error is due. */
  ghost predicate Due(e: Error, rules: seq<Rule>, isMain: bool, enforce: bool) {
    var pulls, checks := HasKind(rules, "pull_request"), HasKind(rules, "required_status_checks");
    match e
    case AddPullRequest => !pulls
    case SetApprovals => pulls && !Approved(rules)
    case DismissStale => exists r <- rules :: PullRequestRule(r) && r.parameters.value.dismissStale == Off
    case LastPush => exists r <- rules :: PullRequestRule(r) && r.parameters.value.lastPush == Off
    case AddStatusChecks => !checks
    case Strict => enforce && !StrictSet(rules) && exists r <- rules :: StatusCheckRule(r)
    case NoContexts => checks && !AnyContext(rules)
    case MissingChecks(names) => AnyContext(rules) && names != [] && names == MissingNames(rules, Expected(isMain))
    case BlockForcePush => !HasKind(rules, "non_fast_forward")
    case BlockDeletion => !HasKind(rules, "deletion")
  }

  /** Exactly when each warning is due. */
  ghost predicate WarningDue(w: Warning, rules: seq<Rule>, enforce: bool) {
    match w
    case DismissStaleUnreported =>
      HasKind(rules, "pull_request")
      && forall r <- rules :: PullRequestRule(r) ==> r.parameters.value.dismissStale == Missing
    case LastPushUnreported =>
      HasKind(rules, "pull_request")
      && forall r <- rules :: PullRequestRule(r) ==> r.parameters.value.lastPush == Missing
    case NotStrict => !enforce && !StrictSet(rules) && exists r <- rules :: StatusCheckRule(r)
  }

  ghost function MissingNames(rules: seq<Rule>, expected: seq<Check>): seq<string> {
    if expected == [] then []
    else
      (if Observed(rules, expected[0].name) || Observed(rules, expected[0].short) then [] else [expected[0].name])
      + MissingNames(rules, expected[1..])
  }

  lemma {:induction false} NothingMissing(rules: seq<Rule>, expected: seq<Check>)
    ensures MissingNames(rules, expected) == []
            <==> forall c <- expected :: Observed(rules, c.name) || Observed(rules, c.short)
  {
    hide Observed;
    if expected != [] {
      NothingMissing(rules, expected[1..]);
      assert expected == [expected[0]] + expected[1..];
    }
  }

  lemma ContextsObserved(rules: seq<Rule>)
    ensures AnyContext(rules) <==> exists c :: Observed(rules, c)
  {
    if AnyContext(rules) {
      var r :| r in rules && StatusCheckRule(r) && r.parameters.value.contexts != [];
      assert Observed(rules, r.parameters.value.contexts[0]);
    }
  }

  lemma PullRequestPolicyMeans(rules: seq<Rule>, isMain: bool, enforce: bool)
    ensures PullRequestPolicy(rules) <==>
            && !Due(AddPullRequest, rules, isMain, enforce) && !Due(SetApprovals, rules, isMain, enforce)
            && !Due(DismissStale, rules, isMain, enforce) && !Due(LastPush, rules, isMain, enforce)
  {
    hide MissingNames, Expected;
  }

  lemma StatusCheckPolicyMeans(rules: seq<Rule>, isMain: bool, enforce: bool)
    ensures StatusCheckPolicy(rules, isMain, enforce) <==>
            && !Due(AddStatusChecks, rules, isMain, enforce) && !Due(Strict, rules, isMain, enforce)
            && !Due(NoContexts, rules, isMain, enforce)
            && !Due(MissingChecks(MissingNames(rules, Expected(isMain))), rules, isMain, enforce)
  {
    hide MissingNames, Expected, Observed;
    NothingMissing(rules, Expected(isMain));
    ContextsObserved(rules);
  }

  /** The policy holds exactly when no error is due. */
  lemma PolicyMeansNoError(rules: seq<Rule>, isMain: bool, enforce: bool)
    ensures Policy(rules, isMain, enforce) <==> forall e: Error :: !Due(e, rules, isMain, enforce)
  {
    PullRequestPolicyMeans(rules, isMain, enforce);
    StatusCheckPolicyMeans(rules, isMain, enforce);
    assert !HasKind(rules, "non_fast_forward") <==> Due(BlockForcePush, rules, isMain, enforce);
    assert !HasKind(rules, "deletion") <==> Due(BlockDeletion, rules, isMain, enforce);
    OnlyNamedMissing(rules, isMain, enforce);
    hide PullRequestPolicy, StatusCheckPolicy, Due, HasKind;
    if Policy(rules, isMain, enforce) {
      forall e: Error ensures !Due(e, rules, isMain, enforce) {
        match e
        case AddPullRequest =>
        case SetApprovals =>
        case DismissStale =>
        case LastPush =>
        case AddStatusChecks =>
        case Strict =>
        case NoContexts =>
        case MissingChecks(names) =>
        case BlockForcePush =>
        case BlockDeletion =>
      }
    }
  }

  lemma OnlyNamedMissing(rules: seq<Rule>, isMain: bool, enforce: bool)
    ensures forall names ::
              Due(MissingChecks(names), rules, isMain, enforce) ==> names == MissingNames(rules, Expected(isMain))
  {
  }

  method CollectRules(merged: seq<Rule>) returns (types: set<string>, pulls: seq<Parameters>, checks: seq<Parameters>)
    ensures types == set r <- merged | r.kind != "" :: r.kind
    ensures forall p :: p in pulls <==> exists r <- merged :: PullRequestRule(r) && r.parameters.value == p
    ensures forall p :: p in checks <==> exists r <- merged :: StatusCheckRule(r) && r.parameters.value == p
  {
    types, pulls, checks := {}, [], [];
    for i := 0 to |merged|
      invariant types == set r <- merged[..i] | r.kind != "" :: r.kind
      invariant forall p :: p in pulls <==> exists r <- merged[..i] :: PullRequestRule(r) && r.parameters.value == p
      invariant forall p :: p in checks <==> exists r <- merged[..i] :: StatusCheckRule(r) && r.parameters.value == p
    {
      var r := merged[i];
      assert merged[..i + 1] == merged[..i] + [r];
      if r.kind == "" {
        continue;
      }
      types := types + {r.kind};
      if r.kind == "pull_request" && r.parameters.Some? {
        pulls := pulls + [r.parameters.value];
      }
      if r.kind == "required_status_checks" && r.parameters.Some? {
        checks := checks + [r.parameters.value];
      }
    }
    assert merged[..|merged|] == merged;
  }

  method CheckApprovals(pulls: seq<Parameters>) returns (enough: bool)
    ensures enough <==> exists p <- pulls :: p.approvals.Number? && p.approvals.n >= 1
  {
    var most := 0;
    for i := 0 to |pulls|
      invariant most >= 1 <==> exists p <- pulls[..i] :: p.approvals.Number? && p.approvals.n >= 1
    {
      assert pulls[..i + 1] == pulls[..i] + [pulls[i]];
      if pulls[i].approvals.Number? && pulls[i].approvals.n > most {
        most := pulls[i].approvals.n;
      }
    }
    assert pulls[..|pulls|] == pulls;
    enough := most >= 1;
  }

  /** Whether any of the flags is off, and whether any is reported at all. */
  method CheckFlags(pulls: seq<Parameters>, flag: Parameters -> Flag) returns (anyOff: bool, seen: bool)
    ensures anyOff <==> exists p <- pulls :: flag(p) == Off
    ensures seen <==> exists p <- pulls :: flag(p) != Missing
  {
    anyOff, seen := false, false;
    for i := 0 to |pulls|
      invariant anyOff <==> exists p <- pulls[..i] :: flag(p) == Off
      invariant seen <==> exists p <- pulls[..i] :: flag(p) != Missing
    {
      assert pulls[..i + 1] == pulls[..i] + [pulls[i]];
      if flag(pulls[i]) != Missing {
        seen := true;
        if flag(pulls[i]) == Off {
          anyOff := true;
        }
      }
    }
    assert pulls[..|pulls|] == pulls;
  }

  method CollectContexts(checks: seq<Parameters>) returns (contexts: set<string>)
    ensures forall c :: c in contexts <==> exists p <- checks :: c in p.contexts
  {
    contexts := {};
    for i := 0 to |checks|
      invariant forall c :: c in contexts <==> exists p <- checks[..i] :: c in p.contexts
    {
      assert checks[..i + 1] == checks[..i] + [checks[i]];
      contexts := contexts + set c <- checks[i].contexts;
    }
    assert checks[..|checks|] == checks;
  }

  lemma MissingNext(rules: seq<Rule>, expected: seq<Check>, i: nat)
    requires i < |expected|
    ensures MissingNames(rules, expected[i..]) ==
            (if Observed(rules, expected[i].name) || Observed(rules, expected[i].short) then [] else [expected[i].name])
            + MissingNames(rules, expected[i + 1..])
  {
    hide Observed;
    assert expected[i..][1..] == expected[i + 1..];
  }

  lemma MissingOfNone(rules: seq<Rule>)
    ensures MissingNames(rules, []) == []
  {
  }

  method MissingChecksOf(expected: seq<Check>, contexts: set<string>, ghost rules: seq<Rule>)
    returns (names: seq<string>)
    requires forall c :: c in contexts <==> Observed(rules, c)
    ensures names == MissingNames(rules, expected)
  {
    hide Observed, MissingNames;
    names := [];
    assert expected[0..] == expected;
    for i := 0 to |expected|
      invariant names + MissingNames(rules, expected[i..]) == MissingNames(rules, expected)
    {
      MissingNext(rules, expected, i);
      if !Satisfied(expected[i], contexts) {
        Regroup(names, [expected[i].name], MissingNames(rules, expected[i + 1..]));
        names := names + [expected[i].name];
      }
    }
    assert expected[|expected|..] == [];
    MissingOfNone(rules);
  }

  ghost predicate AboutPullRequests(e: Error) {
    e in {AddPullRequest, SetApprovals, DismissStale, LastPush}
  }

  ghost predicate AboutStatusChecks(e: Error) {
    e in {AddStatusChecks, Strict, NoContexts} || e.MissingChecks?
  }

  lemma FlagsOff(merged: seq<Rule>, pulls: seq<Parameters>, isMain: bool, enforce: bool)
    requires forall p :: p in pulls <==> exists r <- merged :: PullRequestRule(r) && r.parameters.value == p
    ensures (exists p <- pulls :: p.dismissStale == Off) <==> Due(DismissStale, merged, isMain, enforce)
    ensures (exists p <- pulls :: p.lastPush == Off) <==> Due(LastPush, merged, isMain, enforce)
    ensures (exists p <- pulls :: p.dismissStale != Missing) <==>
            exists r <- merged :: PullRequestRule(r) && r.parameters.value.dismissStale != Missing
    ensures (exists p <- pulls :: p.lastPush != Missing) <==>
            exists r <- merged :: PullRequestRule(r) && r.parameters.value.lastPush != Missing
    ensures (exists p <- pulls :: p.approvals.Number? && p.approvals.n >= 1) <==> Approved(merged)
  {
    forall r | r in merged && PullRequestRule(r) ensures r.parameters.value in pulls {}
  }

  method VerifyFlags(merged: seq<Rule>, pulls: seq<Parameters>, isMain: bool, enforce: bool)
    returns (staleOff: bool, staleSeen: bool, pushOff: bool, pushSeen: bool)
    requires HasKind(merged, "pull_request")
    requires forall p :: p in pulls <==> exists r <- merged :: PullRequestRule(r) && r.parameters.value == p
    ensures staleOff <==> Due(DismissStale, merged, isMain, enforce)
    ensures pushOff <==> Due(LastPush, merged, isMain, enforce)
    ensures staleSeen <==> !WarningDue(DismissStaleUnreported, merged, enforce)
    ensures pushSeen <==> !WarningDue(LastPushUnreported, merged, enforce)
  {
    hide PullRequestRule, HasKind;
    FlagsOff(merged, pulls, isMain, enforce);
    staleOff, staleSeen := CheckFlags(pulls, (p: Parameters) => p.dismissStale);
    pushOff, pushSeen := CheckFlags(pulls, (p: Parameters) => p.lastPush);
  }

  lemma OnlyAddPullRequest(rules: seq<Rule>, isMain: bool, enforce: bool)
    requires !HasKind(rules, "pull_request")
    ensures Due(AddPullRequest, rules, isMain, enforce) && !Due(SetApprovals, rules, isMain, enforce)
    ensures !Due(DismissStale, rules, isMain, enforce) && !Due(LastPush, rules, isMain, enforce)
    ensures !WarningDue(DismissStaleUnreported, rules, enforce) && !WarningDue(LastPushUnreported, rules, enforce)
  {
    NoRuleNoFlag(rules);
  }

  lemma ApprovalsDue(rules: seq<Rule>, isMain: bool, enforce: bool)
    requires HasKind(rules, "pull_request")
    ensures !Due(AddPullRequest, rules, isMain, enforce)
    ensures Due(SetApprovals, rules, isMain, enforce) <==> !Approved(rules)
  {
  }

  method VerifyPullRequests(merged: seq<Rule>, types: set<string>, pulls: seq<Parameters>, isMain: bool, enforce: bool)
    returns (errors: seq<Error>, warnings: seq<Warning>)
    requires types == set r <- merged | r.kind != "" :: r.kind
    requires forall p :: p in pulls <==> exists r <- merged :: PullRequestRule(r) && r.parameters.value == p
    ensures forall e :: e in errors <==> AboutPullRequests(e) && Due(e, merged, isMain, enforce)
    ensures forall w :: w in warnings <==> w != NotStrict && WarningDue(w, merged, enforce)
  {
    hide PullRequestRule, Approved, Due, WarningDue;
    errors, warnings := [], [];
    assert "pull_request" in types <==> HasKind(merged, "pull_request");
    if "pull_request" !in types {
      OnlyAddPullRequest(merged, isMain, enforce);
      errors := [AddPullRequest];
      return;
    }
    hide HasKind;
    FlagsOff(merged, pulls, isMain, enforce);
    var enough := CheckApprovals(pulls);
    ApprovalsDue(merged, isMain, enforce);
    var staleOff, staleSeen, pushOff, pushSeen := VerifyFlags(merged, pulls, isMain, enforce);
    if !enough {
      errors := errors + [SetApprovals];
    }
    if staleOff {
      errors := errors + [DismissStale];
    }
    if !staleSeen {
      warnings := warnings + [DismissStaleUnreported];
    }
    if pushOff {
      errors := errors + [LastPush];
    }
    if !pushSeen {
      warnings := warnings + [LastPushUnreported];
    }
  }

  lemma ChecksReported(merged: seq<Rule>, checks: seq<Parameters>)
    requires forall p :: p in checks <==> exists r <- merged :: StatusCheckRule(r) && r.parameters.value == p
    ensures checks != [] <==> exists r <- merged :: StatusCheckRule(r)
    ensures (exists p <- checks :: p.strict == On) <==> StrictSet(merged)
    ensures forall c :: (exists p <- checks :: c in p.contexts) <==> Observed(merged, c)
  {
    forall r | r in merged && StatusCheckRule(r) ensures r.parameters.value in checks {}
    if checks != [] {
      assert checks[0] in checks;
    }
  }

  method VerifyContexts(merged: seq<Rule>, checks: seq<Parameters>, isMain: bool) returns (errors: seq<Error>)
    requires forall p :: p in checks <==> exists r <- merged :: StatusCheckRule(r) && r.parameters.value == p
    ensures var missing := MissingNames(merged, Expected(isMain));
            errors ==
              if !AnyContext(merged) then [NoContexts] else if missing != [] then [MissingChecks(missing)] else []
  {
    hide MissingNames, Expected, Observed, AnyContext;
    ChecksReported(merged, checks);
    ContextsObserved(merged);
    var contexts := CollectContexts(checks);
    assert forall c :: c in contexts <==> Observed(merged, c);
    if contexts == {} {
      return [NoContexts];
    }
    var some :| some in contexts;
    assert Observed(merged, some);
    var names := MissingChecksOf(Expected(isMain), contexts, merged);
    errors := if names != [] then [MissingChecks(names)] else [];
  }

  method VerifyStatusChecks(merged: seq<Rule>, types: set<string>, checks: seq<Parameters>, isMain: bool, enforce: bool)
    returns (errors: seq<Error>, warnings: seq<Warning>)
    requires types == set r <- merged | r.kind != "" :: r.kind
    requires forall p :: p in checks <==> exists r <- merged :: StatusCheckRule(r) && r.parameters.value == p
    ensures forall e :: e in errors <==> AboutStatusChecks(e) && Due(e, merged, isMain, enforce)
    ensures forall w :: w in warnings <==> w == NotStrict && WarningDue(w, merged, enforce)
  {
    hide MissingNames, Expected, Observed, AnyContext, StrictSet, StatusCheckRule;
    errors, warnings := [], [];
    ChecksReported(merged, checks);
    assert "required_status_checks" in types <==> HasKind(merged, "required_status_checks");
    if "required_status_checks" !in types {
      NoRuleNoContext(merged);
      errors := [AddStatusChecks];
      return;
    }
    var strict := exists p <- checks :: p.strict == On;
    if checks != [] && !strict {
      if enforce {
        errors := errors + [Strict];
      } else {
        warnings := warnings + [NotStrict];
      }
    }
    var contextErrors := VerifyContexts(merged, checks, isMain);
    errors := errors + contextErrors;
  }

  lemma NoRuleNoFlag(rules: seq<Rule>)
    requires !HasKind(rules, "pull_request")
    ensures forall r <- rules :: !PullRequestRule(r)
  {
    forall r | r in rules ensures !PullRequestRule(r) {
      assert !OfKind(r, "pull_request");
    }
  }

  lemma NoRuleNoContext(rules: seq<Rule>)
    requires !HasKind(rules, "required_status_checks")
    ensures !AnyContext(rules) && !exists r <- rules :: StatusCheckRule(r)
  {
    forall r | r in rules ensures !StatusCheckRule(r) {
      assert !OfKind(r, "required_status_checks");
    }
  }

  /** Appends exactly the errors that are due, and reports whether the policy holds. */
  method VerifyMergedRules(merged: seq<Rule>, isMain: bool, before: seq<Error>, warned: seq<Warning>, enforce: bool)
    returns (errors: seq<Error>, warnings: seq<Warning>, ok: bool)
    ensures before <= errors && warned <= warnings
    ensures forall e :: e in errors[|before|..] <==> Due(e, merged, isMain, enforce)
    ensures forall w :: w in warnings[|warned|..] <==> WarningDue(w, merged, enforce)
    ensures ok <==> Policy(merged, isMain, enforce)
  {
    hide Policy, MissingNames, Expected;
    PolicyMeansNoError(merged, isMain, enforce);
    var types, pulls, checks := CollectRules(merged);
    var pullErrors, pullWarnings := VerifyPullRequests(merged, types, pulls, isMain, enforce);
    var checkErrors, checkWarnings := VerifyStatusChecks(merged, types, checks, isMain, enforce);
    var found := pullErrors + checkErrors;
    assert "non_fast_forward" in types <==> HasKind(merged, "non_fast_forward");
    assert "deletion" in types <==> HasKind(merged, "deletion");
    if "non_fast_forward" !in types {
      found := found + [BlockForcePush];
    }
    if "deletion" !in types {
      found := found + [BlockDeletion];
    }
    var heeded := pullWarnings + checkWarnings;
    errors, warnings := before + found, warned + heeded;
    assert errors[|before|..] == found && warnings[|warned|..] == heeded;
    AllDueReported(found, merged, isMain, enforce);
    ok := |errors| == |before|;
  }

  lemma AllDueReported(found: seq<Error>, merged: seq<Rule>, isMain: bool, enforce: bool)
    requires forall e :: e in found <==> Due(e, merged, isMain, enforce)
    ensures found == [] <==> forall e: Error :: !Due(e, merged, isMain, enforce)
  {
    hide Due;
    if found != [] {
      assert found[0] in found;
    }
  }

  /// Merging, and the branch verdict

  function MergedRules(glob: Glob, rulesets: seq<Ruleset>, branch: string, defaultBranch: string): seq<Rule> {
    if rulesets == [] then []
    else
      (if Covers(glob, rulesets[0], branch, defaultBranch) then rulesets[0].rules else [])
      + MergedRules(glob, rulesets[1..], branch, defaultBranch)
  }

  method MergeRules(glob: Glob, rulesets: seq<Ruleset>, branch: string, defaultBranch: string)
    returns (merged: seq<Rule>, anyCovers: bool)
    ensures merged == MergedRules(glob, rulesets, branch, defaultBranch)
    ensures anyCovers <==> exists s <- rulesets :: Covers(glob, s, branch, defaultBranch)
  {
    hide Covers;
    merged, anyCovers := [], false;
    for i := 0 to |rulesets|
      invariant merged + MergedRules(glob, rulesets[i..], branch, defaultBranch)
                == MergedRules(glob, rulesets, branch, defaultBranch)
      invariant anyCovers <==> exists k :: 0 <= k < i && Covers(glob, rulesets[k], branch, defaultBranch)
    {
      assert rulesets[i..][1..] == rulesets[i + 1..];
      var covers := CoversRef(glob, rulesets[i], branch, defaultBranch);
      if covers {
        Regroup(merged, rulesets[i].rules, MergedRules(glob, rulesets[i + 1..], branch, defaultBranch));
        merged := merged + rulesets[i].rules;
        anyCovers := true;
      }
    }
  }

  lemma {:induction false} MergedRulesAre(glob: Glob, rulesets: seq<Ruleset>, branch: string, defaultBranch: string)
    ensures forall r :: r in MergedRules(glob, rulesets, branch, defaultBranch) <==>
                        exists s <- rulesets :: Covers(glob, s, branch, defaultBranch) && r in s.rules
  {
    hide Covers;
    if rulesets != [] {
      MergedRulesAre(glob, rulesets[1..], branch, defaultBranch);
      assert rulesets == [rulesets[0]] + rulesets[1..];
    }
  }

  ghost predicate BranchPasses(
    glob: Glob, rulesets: seq<Ruleset>, branch: string, defaultBranch: string, isMain: bool, enforce: bool,
    classic: bool)
  {
    if exists s <- rulesets :: Covers(glob, s, branch, defaultBranch)
    then Policy(MergedRules(glob, rulesets, branch, defaultBranch), isMain, enforce)
    else classic
  }

  /** Rulesets first; only when none covers the branch does classic protection, of verdict `classic`, decide. */
  method CheckBranch(
    glob: Glob, rulesets: seq<Ruleset>, branch: string, defaultBranch: string, isMain: bool, enforce: bool,
    classic: bool)
    returns (passes: bool)
    ensures passes <==> BranchPasses(glob, rulesets, branch, defaultBranch, isMain, enforce, classic)
    ensures (forall s <- rulesets :: !Covers(glob, s, branch, defaultBranch)) ==> passes == classic
    ensures (exists s <- rulesets :: Covers(glob, s, branch, defaultBranch)) ==>
              passes == Policy(MergedRules(glob, rulesets, branch, defaultBranch), isMain, enforce)
  {
    hide Covers, Policy, MergedRules;
    var merged, applicable := MergeRules(glob, rulesets, branch, defaultBranch);
    if !applicable {
      return classic;
    }
    if merged == [] {
      NoRulesNoPolicy(isMain, enforce);
      return false;
    }
    var errors, warnings, ok := VerifyMergedRules(merged, isMain, [], [], enforce);
    passes := ok;
  }

  lemma NoRulesNoPolicy(isMain: bool, enforce: bool)
    ensures !Policy([], isMain, enforce)
  {
  }

  /// What the verdict does not depend on

  ghost predicate SameRules(a: seq<Rule>, b: seq<Rule>) {
    forall r :: r in a <==> r in b
  }

  /** The policy looks only at which rules there are. */
  lemma PolicyIgnoresOrder(a: seq<Rule>, b: seq<Rule>, isMain: bool, enforce: bool)
    requires SameRules(a, b)
    ensures Policy(a, isMain, enforce) <==> Policy(b, isMain, enforce)
  {
    PolicyOfSameRules(a, b, isMain, enforce);
    PolicyOfSameRules(b, a, isMain, enforce);
  }

  lemma PolicyOfSameRules(a: seq<Rule>, b: seq<Rule>, isMain: bool, enforce: bool)
    requires SameRules(a, b)
    ensures Policy(a, isMain, enforce) ==> Policy(b, isMain, enforce)
  {
    hide Expected;
    assert forall kind :: HasKind(a, kind) <==> HasKind(b, kind);
    assert forall c :: Observed(a, c) <==> Observed(b, c);
    assert PullRequestPolicy(a) ==> PullRequestPolicy(b);
    assert StatusCheckPolicy(a, isMain, enforce) ==> StatusCheckPolicy(b, isMain, enforce);
  }

  /** A ruleset with its rules in no order. */
  ghost function Unordered(s: Ruleset): (Ruleset, multiset<Rule>) {
    (s.(rules := []), multiset(s.rules))
  }

  ghost function AllUnordered(rulesets: seq<Ruleset>): multiset<(Ruleset, multiset<Rule>)> {
    multiset(seq(|rulesets|, i requires 0 <= i < |rulesets| => Unordered(rulesets[i])))
  }

  /** Each list is the other with its rulesets, and the rules within them, in another order. */
  ghost predicate Rearranged(a: seq<Ruleset>, b: seq<Ruleset>) {
    AllUnordered(a) == AllUnordered(b)
  }

  lemma Counterpart(a: seq<Ruleset>, b: seq<Ruleset>, s: Ruleset)
    requires Rearranged(a, b) && s in a
    ensures exists t <- b :: Unordered(t) == Unordered(s)
  {
    var i :| 0 <= i < |a| && a[i] == s;
    var us, ut := seq(|a|, i requires 0 <= i < |a| => Unordered(a[i])),
      seq(|b|, i requires 0 <= i < |b| => Unordered(b[i]));
    assert us[i] == Unordered(s) && us[i] in multiset(us);
    assert Unordered(s) in ut;
    var j :| 0 <= j < |ut| && ut[j] == Unordered(s);
    assert Unordered(b[j]) == Unordered(s);
  }

  lemma SameCoverage(glob: Glob, s: Ruleset, t: Ruleset, branch: string, defaultBranch: string)
    requires Unordered(t) == Unordered(s)
    ensures Covers(glob, s, branch, defaultBranch) <==> Covers(glob, t, branch, defaultBranch)
    ensures forall r :: r in s.rules <==> r in t.rules
  {
    hide PatternMatches, Lower;
    assert forall r :: r in s.rules <==> r in multiset(s.rules);
    assert forall r :: r in t.rules <==> r in multiset(t.rules);
    assert s.(rules := []) == t.(rules := []);
  }

  lemma CoveredAlike(glob: Glob, a: seq<Ruleset>, b: seq<Ruleset>, branch: string, defaultBranch: string)
    requires Rearranged(a, b)
    ensures (exists s <- a :: Covers(glob, s, branch, defaultBranch))
            ==> exists s <- b :: Covers(glob, s, branch, defaultBranch)
    ensures forall r <- MergedRules(glob, a, branch, defaultBranch) :: r in MergedRules(glob, b, branch, defaultBranch)
  {
    hide Covers, Rearranged, Unordered, MergedRules;
    MergedRulesAre(glob, a, branch, defaultBranch);
    MergedRulesAre(glob, b, branch, defaultBranch);
    forall s | s in a && Covers(glob, s, branch, defaultBranch)
      ensures exists t <- b :: Covers(glob, t, branch, defaultBranch) && forall r <- s.rules :: r in t.rules
    {
      Counterpart(a, b, s);
      var t :| t in b && Unordered(t) == Unordered(s);
      SameCoverage(glob, s, t, branch, defaultBranch);
    }
  }

  /** The verdict on a branch is the same for any order of the rulesets and of the rules within them. */
  lemma VerdictIgnoresOrder(
    glob: Glob, a: seq<Ruleset>, b: seq<Ruleset>, branch: string, defaultBranch: string, isMain: bool, enforce: bool,
    classic: bool)
    requires Rearranged(a, b)
    ensures BranchPasses(glob, a, branch, defaultBranch, isMain, enforce, classic)
            <==> BranchPasses(glob, b, branch, defaultBranch, isMain, enforce, classic)
  {
    hide Covers, Rearranged, Policy, MergedRules;
    RearrangedIsSymmetric(a, b);
    CoveredAlike(glob, a, b, branch, defaultBranch);
    CoveredAlike(glob, b, a, branch, defaultBranch);
    PolicyIgnoresOrder(MergedRules(glob, a, branch, defaultBranch), MergedRules(glob, b, branch, defaultBranch), isMain,
                       enforce);
  }

  lemma RearrangedIsSymmetric(a: seq<Ruleset>, b: seq<Ruleset>)
    requires Rearranged(a, b)
    ensures Rearranged(b, a)
  {
  }

  /** Rules that pass for main pass for develop. */
  lemma MainImpliesDevelop(rules: seq<Rule>, enforce: bool)
    ensures Policy(rules, true, enforce) ==> Policy(rules, false, enforce)
  {
    hide Observed, PullRequestPolicy, HasKind;
    assert forall c <- DEVELOP_CHECKS :: c in MAIN_CHECKS;
    assert StatusCheckPolicy(rules, true, enforce) ==> StatusCheckPolicy(rules, false, enforce);
  }

  /** The last expected check of main is the only difference: with it observed, the two verdicts agree. */
  lemma MainNeedsOneMoreCheck(rules: seq<Rule>, enforce: bool)
    ensures var extra := MAIN_CHECKS[|MAIN_CHECKS| - 1];
            Policy(rules, true, enforce) <==>
            Policy(rules, false, enforce) && (Observed(rules, extra.name) || Observed(rules, extra.short))
  {
    hide Observed, PullRequestPolicy, HasKind;
    var extra := MAIN_CHECKS[|MAIN_CHECKS| - 1];
    assert forall c :: c in MAIN_CHECKS <==> c in DEVELOP_CHECKS || c == extra;
    assert StatusCheckPolicy(rules, true, enforce) <==>
           StatusCheckPolicy(rules, false, enforce) && (Observed(rules, extra.name) || Observed(rules, extra.short));
  }
}
