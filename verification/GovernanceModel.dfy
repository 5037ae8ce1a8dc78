/** The three stores of tools/production_e2e_governance_window.py (GitHub's rulesets and production
    deployment rules, the snapshot files, the active-window marker) and its side-effect-free tests. */
module GovernanceModel {
  import opened Options
  import opened Sequences
  import opened Text

  /// Rulesets

  datatype Actor = Actor(id: int, kind: string)

  /** `Absent` reads as -1; converting an `Unreadable` id to an integer raises. */
  datatype EntryId = Known(n: int) | Absent | Unreadable

  datatype BypassEntry = Opaque(text: string) | Entry(id: EntryId, kind: string, mode: string)

  datatype RefName = RefName(includes: seq<string>, excludes: seq<string>)

  /** `refName` is `None` when the conditions are missing or not objects; `rest` is everything else. */
  datatype Ruleset = Ruleset(
    target: string, enforcement: string, refName: Option<RefName>, bypass: seq<BypassEntry>, rest: string)

  datatype Numbered = Numbered(id: int, body: Ruleset)

  const PROTECTED_BRANCHES: seq<string> := ["main", "develop"]

  predicate PatternMatches(raw: string, branch: string) {
    var pattern := Trim(raw);
    var ref := "refs/heads/" + branch;
    if pattern == "" then false
    else if pattern == branch || pattern == ref then true
    else if pattern == "~ALL" then true
    else if pattern == "~DEFAULT_BRANCH" && branch == "main" then true
    else if !("refs/" <= pattern) && !("~" <= pattern) then pattern == branch || ref == "refs/heads/" + pattern
    else pattern == ref
  }

  predicate CoversBranch(r: Ruleset, branch: string) {
    && r.target == "branch"
    && Lower(r.enforcement) == "active"
    && r.refName.Some?
    && (forall p <- r.refName.value.excludes :: !PatternMatches(p, branch))
    && (exists p <- r.refName.value.includes :: PatternMatches(p, branch))
  }

  predicate Protected(r: Ruleset) {
    exists b <- PROTECTED_BRANCHES :: CoversBranch(r, b)
  }

  /** The texts by which a protected branch can be named. */
  function NamesOf(branch: string): set<string> {
    {branch, "refs/heads/" + branch, "~ALL"} + if branch == "main" then {"~DEFAULT_BRANCH"} else {}
  }

  /** Of a protected branch the pattern tests come down to this: the trimmed pattern is one of its names. */
  lemma PatternMatchesIff(raw: string, branch: string)
    requires branch in PROTECTED_BRANCHES
    ensures PatternMatches(raw, branch) <==> Trim(raw) in NamesOf(branch)
  {
    hide Trim;
    if "refs/heads/" + branch == "refs/heads/" + Trim(raw) {
      assert branch == ("refs/heads/" + branch)[11..] && Trim(raw) == ("refs/heads/" + Trim(raw))[11..];
    }
  }

  predicate NamesBranch(patterns: seq<string>, branch: string) {
    exists p <- patterns :: Trim(p) in NamesOf(branch)
  }

  /** A ruleset guards a protected branch exactly when it is an active branch ruleset that names the branch among its
      includes and not among its excludes. */
  lemma CoversBranchIff(r: Ruleset, branch: string)
    requires branch in PROTECTED_BRANCHES
    ensures CoversBranch(r, branch) <==>
            && r.target == "branch" && Lower(r.enforcement) == "active" && r.refName.Some?
            && NamesBranch(r.refName.value.includes, branch) && !NamesBranch(r.refName.value.excludes, branch)
  {
    hide PatternMatches, Trim, Lower, NamesOf;
    forall p ensures PatternMatches(p, branch) <==> Trim(p) in NamesOf(branch) {
      PatternMatchesIff(p, branch);
    }
  }

  predicate Readable(entries: seq<BypassEntry>) {
    forall e <- entries :: e.Entry? ==> !e.id.Unreadable?
  }

  predicate IsFor(e: BypassEntry, actor: Actor) {
    e.Entry? && !e.id.Unreadable? && e.kind == actor.kind && (if e.id.Known? then e.id.n else -1) == actor.id
  }

  /** Whether the actor is listed; `None` when an unreadable id is met first. */
  function Present(entries: seq<BypassEntry>, actor: Actor): Option<bool> {
    if entries == [] then Some(false)
    else if entries[0].Entry? && entries[0].id.Unreadable? then None
    else if IsFor(entries[0], actor) then Some(true)
    else Present(entries[1..], actor)
  }

  function Without(entries: seq<BypassEntry>, actor: Actor): seq<BypassEntry> {
    if entries == [] then []
    else (if IsFor(entries[0], actor) then [] else [entries[0]]) + Without(entries[1..], actor)
  }

  function AutomationEntry(actor: Actor): BypassEntry {
    Entry(Known(actor.id), actor.kind, "always")
  }

  /** The body that opening the window leaves behind. */
  function WithActor(r: Ruleset, actor: Actor): Ruleset {
    if Present(r.bypass, actor) == Some(false) then r.(bypass := r.bypass + [AutomationEntry(actor)]) else r
  }

  function WithoutActor(r: Ruleset, actor: Actor): Ruleset {
    r.(bypass := Without(r.bypass, actor))
  }

  lemma {:induction false} PresentMeansListed(entries: seq<BypassEntry>, actor: Actor)
    ensures Present(entries, actor) == Some(false) ==> Readable(entries) && forall e <- entries :: !IsFor(e, actor)
    ensures Present(entries, actor) == Some(true) ==> exists e <- entries :: IsFor(e, actor)
    ensures Readable(entries) ==> Present(entries, actor) == Some(exists e <- entries :: IsFor(e, actor))
  {
    if entries != [] {
      PresentMeansListed(entries[1..], actor);
      assert entries == [entries[0]] + entries[1..];
      assert entries[0] in entries;
    }
  }

  lemma {:induction false} WithoutAbsent(entries: seq<BypassEntry>, actor: Actor)
    requires forall e <- entries :: !IsFor(e, actor)
    ensures Without(entries, actor) == entries
  {
    if entries != [] {
      assert entries[0] in entries;
      WithoutAbsent(entries[1..], actor);
    }
  }

  lemma {:induction false} WithoutConcat(a: seq<BypassEntry>, b: seq<BypassEntry>, actor: Actor)
    ensures Without(a + b, actor) == Without(a, actor) + Without(b, actor)
  {
    if a == [] {
      assert a + b == b;
    } else {
      WithoutConcat(a[1..], b, actor);
      assert (a + b)[1..] == a[1..] + b && (a + b)[0] == a[0];
      var first: seq<BypassEntry> := if IsFor(a[0], actor) then [] else [a[0]];
      Regroup(first, Without(a[1..], actor), Without(b, actor));
    }
  }

  lemma {:induction false} WithoutRemovesAll(entries: seq<BypassEntry>, actor: Actor)
    ensures forall e :: e in Without(entries, actor) <==> e in entries && !IsFor(e, actor)
  {
    if entries != [] {
      WithoutRemovesAll(entries[1..], actor);
      assert entries == [entries[0]] + entries[1..];
    }
  }

  /** Adding the actor and then filtering it out gives the original list minus the actor. */
  lemma AddThenRemove(r: Ruleset, actor: Actor)
    ensures WithoutActor(WithActor(r, actor), actor) == WithoutActor(r, actor)
    ensures Present(r.bypass, actor) == Some(false) ==> WithoutActor(r, actor) == r
  {
    WithoutConcat(r.bypass, [AutomationEntry(actor)], actor);
    if Present(r.bypass, actor) == Some(false) {
      PresentMeansListed(r.bypass, actor);
      WithoutAbsent(r.bypass, actor);
    }
  }

  /** Opening appends one entry, the actor in mode "always", unless one of its kind and id is listed, and changes
      nothing else. An entry without an id counts as number -1. */
  lemma EntryAdded(r: Ruleset, actor: Actor)
    requires Readable(r.bypass)
    ensures WithActor(r, actor).bypass ==
            if exists e <- r.bypass ::
                 e.Entry? && e.kind == actor.kind && (e.id == Known(actor.id) || (actor.id == -1 && !e.id.Known?))
            then r.bypass
            else r.bypass + [Entry(Known(actor.id), actor.kind, "always")]
    ensures WithActor(r, actor).(bypass := r.bypass) == r
  {
    PresentMeansListed(r.bypass, actor);
  }

  /// Deployment rules of the production environment

  /** `reviewers` is `None` when the field is not a list. */
  datatype DeployRule = DeployRule(id: int, kind: string, reviewers: Option<seq<string>>)

  predicate IsReviewerRule(r: DeployRule) {
    ReplaceAll(Lower(r.kind), " ", "_") == "required_reviewers"
  }

  const REVIEWER_KIND := "required_reviewers"

  /** Spelled as the reviewer kind, in any letter case and with blanks for underscores. */
  predicate SpelledAsReviewers(kind: string) {
    |kind| == |REVIEWER_KIND| &&
    forall i :: 0 <= i < |kind| ==>
      LowerChar(kind[i]) == REVIEWER_KIND[i] || (kind[i] == ' ' && REVIEWER_KIND[i] == '_')
  }

  lemma {:induction false} BlankReplaced(s: string, i: nat)
    requires i < |s|
    ensures |ReplaceAll(s, " ", "_")| == |s| && ReplaceAll(s, " ", "_")[i] == if s[i] == ' ' then '_' else s[i]
    decreases |s|
  {
    var rest := s[1..];
    assert " " <= s <==> s[0] == ' ';
    assert s[|" "|..] == rest;
    assert ReplaceAll(s, " ", "_") == [if s[0] == ' ' then '_' else s[0]] + ReplaceAll(rest, " ", "_");
    if i > 0 {
      BlankReplaced(rest, i - 1);
    } else if rest != "" {
      BlankReplaced(rest, 0);
    }
  }

  /** The test for reviewer rules ignores letter case and takes blanks for underscores. */
  lemma IsReviewerRuleIff(r: DeployRule)
    ensures IsReviewerRule(r) <==> SpelledAsReviewers(r.kind)
  {
    hide ReplaceAll, Lower;
    var s := Lower(r.kind);
    var t := ReplaceAll(s, " ", "_");
    if s == "" {
      NothingReplaced();
    } else {
      BlankReplaced(s, 0);
    }
    forall i | 0 <= i < |s|
      ensures |t| == |s| && t[i] == if r.kind[i] == ' ' then '_' else LowerChar(r.kind[i])
    {
      BlankReplaced(s, i);
      LowerAt(r.kind, i);
    }
    assert |t| == |r.kind|;
    NoBlankInKind();
    if SpelledAsReviewers(r.kind) {
      assert forall i :: 0 <= i < |t| ==> t[i] == REVIEWER_KIND[i];
      assert t == REVIEWER_KIND;
    }
  }

  lemma NoBlankInKind()
    ensures forall i :: 0 <= i < |REVIEWER_KIND| ==> REVIEWER_KIND[i] != ' '
  {
  }

  lemma NothingReplaced()
    ensures ReplaceAll("", " ", "_") == ""
  {
  }

  /** The rules that are not reviewer rules, in order. */
  function OtherRules(rules: seq<DeployRule>): seq<DeployRule> {
    if rules == [] then []
    else (if IsReviewerRule(rules[0]) then [] else [rules[0]]) + OtherRules(rules[1..])
  }

  /** What the reviewer rules demand, in order; ids and spelling of the kind are immaterial. */
  function Reviewers(rules: seq<DeployRule>): seq<Option<seq<string>>> {
    if rules == [] then []
    else (if IsReviewerRule(rules[0]) then [rules[0].reviewers] else []) + Reviewers(rules[1..])
  }

  function WithoutRule(rules: seq<DeployRule>, id: int): seq<DeployRule> {
    if rules == [] then []
    else (if rules[0].id == id then [] else [rules[0]]) + WithoutRule(rules[1..], id)
  }

  predicate DistinctRuleIds(rules: seq<DeployRule>) {
    forall i, j :: 0 <= i < j < |rules| ==> rules[i].id != rules[j].id
  }

  predicate HasRule(rules: seq<DeployRule>, id: int) {
    exists r <- rules :: r.id == id
  }

  lemma {:induction false} OtherRulesConcat(a: seq<DeployRule>, b: seq<DeployRule>)
    ensures OtherRules(a + b) == OtherRules(a) + OtherRules(b)
    ensures Reviewers(a + b) == Reviewers(a) + Reviewers(b)
  {
    if a == [] {
      assert a + b == b;
    } else {
      OtherRulesConcat(a[1..], b);
      assert (a + b)[1..] == a[1..] + b && (a + b)[0] == a[0];
      var kept: seq<DeployRule> := if IsReviewerRule(a[0]) then [] else [a[0]];
      var asked: seq<Option<seq<string>>> := if IsReviewerRule(a[0]) then [a[0].reviewers] else [];
      Regroup(kept, OtherRules(a[1..]), OtherRules(b));
      Regroup(asked, Reviewers(a[1..]), Reviewers(b));
    }
  }

  lemma {:induction false} OtherRulesMembers(rules: seq<DeployRule>)
    ensures forall r :: r in OtherRules(rules) <==> r in rules && !IsReviewerRule(r)
  {
    if rules != [] {
      OtherRulesMembers(rules[1..]);
      assert rules == [rules[0]] + rules[1..];
    }
  }

  lemma {:induction false} NoReviewerRules(rules: seq<DeployRule>)
    ensures Reviewers(rules) == [] <==> forall r <- rules :: !IsReviewerRule(r)
    ensures Reviewers(rules) == [] ==> OtherRules(rules) == rules
  {
    if rules != [] {
      NoReviewerRules(rules[1..]);
      assert rules == [rules[0]] + rules[1..];
    }
  }

  lemma OtherRulesHaveNoReviewers(rules: seq<DeployRule>)
    ensures OtherRules(OtherRules(rules)) == OtherRules(rules)
    ensures Reviewers(OtherRules(rules)) == []
  {
    OtherRulesMembers(rules);
    NoReviewerRules(OtherRules(rules));
  }

  lemma {:induction false} WithoutMissingRule(rules: seq<DeployRule>, id: int)
    requires forall r <- rules :: r.id != id
    ensures WithoutRule(rules, id) == rules
  {
    if rules != [] {
      assert rules[0] in rules;
      WithoutMissingRule(rules[1..], id);
    }
  }

  /// The stores

  /** `listing` is the order in which the rulesets endpoint names them. */
  datatype Remote = Remote(
    listing: seq<int>, rulesets: map<int, Ruleset>, rules: seq<DeployRule>, nextRule: int, automationEnv: bool)

  datatype WindowState = WindowState(actor: Actor, touched: seq<int>, deleted: seq<int>)

  /** `window` is `None` while the snapshot still says that the window is not enabled. */
  datatype Snapshot = Snapshot(rulesets: seq<Numbered>, rules: seq<DeployRule>, window: Option<WindowState>)

  /** `clock` stamps snapshot files; `calls` counts the remote calls made so far. */
  datatype World = World(remote: Remote, snapshots: map<nat, Snapshot>, marker: Option<nat>, clock: nat, calls: nat)

  /** What a remote call reports: success, a refusal without effect, or an error after the effect took place. */
  datatype Reply = Done | Refused | Lost

  type Replies = nat -> Reply

  /** Rule ids are unique and the next one is fresh. */
  predicate FreshRules(rules: seq<DeployRule>, nextRule: int) {
    DistinctRuleIds(rules) && forall x <- rules :: x.id < nextRule
  }

  predicate ValidRemote(r: Remote) {
    (forall id <- r.listing :: id in r.rulesets) && FreshRules(r.rules, r.nextRule)
  }

  /** Snapshot files carry stamps of the past. */
  predicate ValidWorld(w: World) {
    ValidRemote(w.remote) && forall p <- w.snapshots :: p < w.clock
  }
}
