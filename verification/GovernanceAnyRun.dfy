/** What no run can lose: whatever commands are given for whatever actors and wherever they stop, with --force and
    --snapshot too, every ruleset is its baseline plus some of the actors, and one place holds every reviewer demand. */
module GovernanceAnyRun {
  import opened Options
  import opened GovernanceModel
  import opened GovernanceCommands
  import opened GovernanceWriteAhead
  import opened GovernanceRoundTrip
  import opened GovernanceRuns

  /** Any command; it may complete or stop at any call. */
  datatype Attempt =
    | TryEnable(actor: Actor, minutes: int, confirmed: bool, force: bool)
    | TryRestore(path: Option<nat>)
    | TryStatus

  function Attempted(reply: Replies, w: World, c: Attempt): World {
    match c
    case TryEnable(actor, minutes, confirmed, force) => Enable(reply, w, actor, minutes, confirmed, force).0
    case TryRestore(path) => Restore(reply, w, path).0
    case TryStatus => Status(reply, w).0
  }

  function AttemptAll(reply: Replies, w: World, cmds: seq<Attempt>): World
    decreases cmds
  {
    if cmds == [] then w else AttemptAll(reply, Attempted(reply, w, cmds[0]), cmds[1..])
  }

  predicate OnlyFor(cmds: seq<Attempt>, actors: set<Actor>) {
    forall c <- cmds :: c.TryEnable? ==> c.actor in actors
  }

  /// Bodies that are the baseline plus some actors

  /** Entries for some of the actors, each at most once. */
  predicate Additions(added: seq<BypassEntry>, actors: set<Actor>) {
    && (forall e <- added :: exists a <- actors :: e == AutomationEntry(a))
    && (forall i, j :: 0 <= i < j < |added| ==> added[i] != added[j])
  }

  /** The baseline's own entries come first and are all there; nothing but the list differs. */
  predicate Near(body: Ruleset, base: Ruleset, actors: set<Actor>) {
    && |base.bypass| <= |body.bypass|
    && body == base.(bypass := base.bypass + body.bypass[|base.bypass|..])
    && Additions(body.bypass[|base.bypass|..], actors)
  }

  predicate AllNear(live: map<int, Ruleset>, base: map<int, Ruleset>, actors: set<Actor>) {
    live.Keys == base.Keys && forall id <- live :: Near(live[id], base[id], actors)
  }

  predicate ListNear(list: seq<Numbered>, base: map<int, Ruleset>, actors: set<Actor>) {
    forall r <- list :: r.id in base && Near(r.body, base[r.id], actors)
  }

  lemma NearIsAppended(base: Ruleset, added: seq<BypassEntry>, actors: set<Actor>)
    requires Additions(added, actors)
    ensures Near(base.(bypass := base.bypass + added), base, actors)
  {
    hide Additions;
    assert (base.bypass + added)[|base.bypass|..] == added;
  }

  lemma AddingStaysNear(body: Ruleset, base: Ruleset, actors: set<Actor>, actor: Actor)
    requires Near(body, base, actors) && actor in actors
    ensures Near(WithActor(body, actor), base, actors)
  {
    hide Present;
    if Present(body.bypass, actor) == Some(false) {
      PresentMeansListed(body.bypass, actor);
      var added, e := body.bypass[|base.bypass|..], AutomationEntry(actor);
      assert IsFor(e, actor) && forall x <- added :: x in body.bypass;
      NearIsAppended(base, added + [e], actors);
      assert base.bypass + (added + [e]) == body.bypass + [e];
    }
  }

  lemma SameProtectedBranches(body: Ruleset, base: Ruleset, actors: set<Actor>)
    requires Near(body, base, actors)
    ensures Protected(body) <==> Protected(base)
  {
    hide PatternMatches, Additions;
    var bypass := base.bypass + body.bypass[|base.bypass|..];
    assert forall b :: CoversBranch(base.(bypass := bypass), b) <==> CoversBranch(base, b);
  }

  lemma {:induction false} UnreadablePrefix(a: seq<BypassEntry>, b: seq<BypassEntry>, actor: Actor)
    ensures Present(a, actor) == None ==> Present(a + b, actor) == None
  {
    if a != [] {
      UnreadablePrefix(a[1..], b, actor);
      assert (a + b)[1..] == a[1..] + b && (a + b)[0] == a[0];
    }
  }

  lemma {:induction false} FilteredAdditions(added: seq<BypassEntry>, actors: set<Actor>, actor: Actor)
    requires Additions(added, actors)
    ensures Additions(Without(added, actor), actors)
  {
    hide IsFor, AutomationEntry;
    if added != [] {
      var first, rest := added[0], added[1..];
      assert forall e <- rest :: e in added;
      FilteredAdditions(rest, actors, actor);
      WithoutRemovesAll(rest, actor);
      assert first !in rest;
      assert first in added;
    }
  }

  /** Taking an actor off that the baseline does not list leaves the baseline and the others. */
  lemma RemovalStaysNear(body: Ruleset, base: Ruleset, actors: set<Actor>, actor: Actor)
    requires Near(body, base, actors) && Present(base.bypass, actor) != Some(true)
             && Present(body.bypass, actor) == Some(true)
    ensures Near(WithoutActor(body, actor), base, actors)
  {
    hide Present, Without, Additions;
    var added := body.bypass[|base.bypass|..];
    assert base.bypass + added == body.bypass;
    UnreadablePrefix(base.bypass, added, actor);
    NotTrueIsFalse(Present(base.bypass, actor));
    PresentMeansListed(base.bypass, actor);
    WithoutAbsent(base.bypass, actor);
    WithoutConcat(base.bypass, added, actor);
    FilteredAdditions(added, actors, actor);
    NearIsAppended(base, Without(added, actor), actors);
  }

  /** No protected ruleset of the baseline lists any of the actors. */
  ghost predicate NoneListed(base: map<int, Ruleset>, actors: set<Actor>) {
    forall id <- base, a <- actors :: Protected(base[id]) ==> Present(base[id].bypass, a) != Some(true)
  }

  lemma OpenedIsNear(
    live: map<int, Ruleset>, base: map<int, Ruleset>, list: seq<Numbered>, k: nat, actors: set<Actor>, actor: Actor)
    requires k <= |list| && AllNear(live, base, actors) && actor in actors
    ensures AllNear(Opened(live, list, k, actor), base, actors)
  {
    hide Protected, Near, WithActor, TouchedIds;
    forall id | id in live ensures Near(Opened(live, list, k, actor)[id], base[id], actors) {
      AddingStaysNear(live[id], base[id], actors, actor);
    }
  }

  lemma RemovedIsNear(
    answer: Reply, live: map<int, Ruleset>, base: map<int, Ruleset>, id: int, target: Ruleset, actors: set<Actor>,
    actor: Actor)
    requires AllNear(live, base, actors) && id in base && Near(target, base[id], actors)
    requires Present(base[id].bypass, actor) != Some(true)
    ensures AllNear(RemoveBypass(answer, live, id, target, actor).0, base, actors)
  {
    hide Near, WithoutActor, Present, Readable;
    if Present(target.bypass, actor) == Some(true) {
      RemovalStaysNear(target, base[id], actors, actor);
    }
  }

  lemma {:induction false} ClosingStaysNear(
    reply: Replies, calls: nat, live: map<int, Ruleset>, base: map<int, Ruleset>, list: seq<Numbered>, i: nat,
    seen: set<int>, stale: set<int>, actors: set<Actor>, actor: Actor)
    requires i <= |list| && AllNear(live, base, actors) && ListNear(list, base, actors)
    requires NoneListed(base, actors) && actor in actors
    ensures AllNear(CloseRulesets(reply, calls, live, list, i, seen, stale, actor).live, base, actors)
    decreases |list| - i
  {
    hide Protected, Present, Near, RemoveBypass;
    if i < |list| {
      var r := list[i];
      assert r in list;
      if r.id in seen || !Protected(r.body) {
        ClosingStaysNear(reply, calls, live, base, list, i + 1, seen, stale, actors, actor);
      } else {
        SameProtectedBranches(r.body, base[r.id], actors);
        var readable := reply(calls).Done? && r.id in live;
        var target := if readable then live[r.id] else r.body;
        RemovedIsNear(reply(calls + 1), live, base, r.id, target, actors, actor);
        var (next, ok, n) := RemoveBypass(reply(calls + 1), live, r.id, target, actor);
        if ok {
          var stale' := if readable then stale else stale + {r.id};
          ClosingStaysNear(reply, calls + 1 + n, next, base, list, i + 1, seen + {r.id}, stale', actors, actor);
        }
      }
    }
  }

  /// Rules

  lemma {:induction false} RecreatingOnlyAdds(
    reply: Replies, calls: nat, rules: seq<DeployRule>, nextRule: int, list: seq<DeployRule>, i: nat)
    requires i <= |list|
    ensures var p := RecreateReviewerRules(reply, calls, rules, nextRule, list, i);
            OtherRules(p.rules) == OtherRules(rules) && Reviewers(rules) <= Reviewers(p.rules)
    decreases |list| - i
  {
    hide IsReviewerRule, OtherRules, Reviewers;
    if i < |list| && IsReviewerRule(list[i]) {
      RulePosted(rules, nextRule, list[i].reviewers);
      RecreatingOnlyAdds(reply, calls + 1, rules + [DeployRule(nextRule, "required_reviewers", list[i].reviewers)],
                         nextRule + 1, list, i + 1);
    } else if i < |list| {
      RecreatingOnlyAdds(reply, calls, rules, nextRule, list, i + 1);
    }
  }

  lemma RemainingOthers(rules: seq<DeployRule>, m: nat)
    requires m <= |rules|
    ensures OtherRules(Remaining(rules, m)) == OtherRules(rules)
  {
    hide IsReviewerRule, OtherRules, Reviewers;
    OtherRulesConcat(OtherRules(rules[..m]), rules[m..]);
    OtherRulesHaveNoReviewers(rules[..m]);
    OtherRulesConcat(rules[..m], rules[m..]);
    assert rules[..m] + rules[m..] == rules;
  }

  lemma RemainingFresh(rules: seq<DeployRule>, m: nat, nextRule: int)
    requires m <= |rules| && FreshRules(rules, nextRule)
    ensures FreshRules(Remaining(rules, m), nextRule)
  {
    hide IsReviewerRule;
    var first, rest := OtherRules(rules[..m]), rules[m..];
    OtherRulesFresh(rules[..m], nextRule);
    OtherRulesMembers(rules[..m]);
    forall i, j | 0 <= i < |first| && 0 <= j < |rest| ensures first[i].id != rest[j].id {
      assert first[i] in rules[..m];
      var k :| 0 <= k < m && rules[..m][k] == first[i];
      assert rules[k] == first[i] && rules[m + j] == rest[j];
    }
  }

  /// The invariant of any run

  /** These rules demand everything that `base` demands, as often as it does. */
  predicate Demands(rules: seq<DeployRule>, base: seq<DeployRule>) {
    multiset(Reviewers(base)) <= multiset(Reviewers(rules))
  }

  predicate FileNear(snap: Snapshot, base: Remote, actors: set<Actor>) {
    ListNear(snap.rulesets, base.rulesets, actors) && (snap.window.Some? ==> snap.window.value.actor in actors)
  }

  /** All demands are in one place: the live rules or one of the files. */
  predicate DemandsKept(w: World, base: Remote) {
    Demands(w.remote.rules, base.rules) || exists p <- w.snapshots :: Demands(w.snapshots[p].rules, base.rules)
  }

  /** Nothing of the baseline is lost: every ruleset is its own or that plus some actors, live and in every file; the
      other rules stand; one place holds all demands. */
  ghost predicate Recoverable(w: World, base: Remote, actors: set<Actor>) {
    && ValidWorld(w) && w.remote.listing == base.listing
    && AllNear(w.remote.rulesets, base.rulesets, actors)
    && (forall p <- w.snapshots :: FileNear(w.snapshots[p], base, actors))
    && OtherRules(w.remote.rules) == OtherRules(base.rules)
    && DemandsKept(w, base)
  }

  lemma SnapshotIsNear(snap: Snapshot, remote: Remote, base: Remote, actors: set<Actor>)
    requires SnapshotOf(snap, remote) && AllNear(remote.rulesets, base.rulesets, actors)
    ensures ListNear(snap.rulesets, base.rulesets, actors)
  {
    hide Near;
  }

  /** The rules on file are the live ones whenever a rule has been deleted. */
  lemma DeletionIsOnFile(w: World, w': World, snap: Snapshot, k: nat, m: nat, actor: Actor, base: Remote)
    requires PartlyOpened(w, w', snap, k, m, actor) && ValidWorld(w) && DemandsKept(w, base)
    ensures DemandsKept(w', base)
  {
    hide Demands, Opened, OtherRules, FreshRules;
    assert forall p <- w.snapshots :: p in w'.snapshots && w'.snapshots[p] == w.snapshots[p];
    assert w'.snapshots[w.clock].rules == snap.rules;
    if Demands(w.remote.rules, base.rules) {
      if m == 0 {
        RemainingAll(w.remote.rules);
      }
    } else {
      var p :| p in w.snapshots && Demands(w.snapshots[p].rules, base.rules);
      assert Demands(w'.snapshots[p].rules, base.rules);
    }
  }

  lemma EnableLosesNothing(
    reply: Replies, w: World, base: Remote, actors: set<Actor>, actor: Actor, minutes: int, confirmed: bool,
    force: bool)
    requires Recoverable(w, base, actors) && actor in actors
    ensures Recoverable(Enable(reply, w, actor, minutes, confirmed, force).0, base, actors)
  {
    hide Enable, Protected, Near, Demands, OtherRules, Opened, Remaining, FreshRules, ListNear;
    var snap, k, m := EnableWritesAhead(reply, w, actor, minutes, confirmed, force);
    var w' := Enable(reply, w, actor, minutes, confirmed, force).0;
    if w'.snapshots != w.snapshots {
      SnapshotIsNear(snap, w.remote, base, actors);
      OpenedIsNear(w.remote.rulesets, base.rulesets, snap.rulesets, k, actors, actor);
      RemainingOthers(w.remote.rules, m);
      RemainingFresh(w.remote.rules, m, w.remote.nextRule);
      DeletionIsOnFile(w, w', snap, k, m, actor, base);
    }
  }

  lemma LoadedIsOnDisk(w: World, path: Option<nat>)
    ensures LoadSnapshot(w, path).Some? ==> exists p <- w.snapshots :: w.snapshots[p] == LoadSnapshot(w, path).value
  {
  }

  lemma LongerDemandsMore(shorter: seq<DeployRule>, longer: seq<DeployRule>, base: seq<DeployRule>)
    requires Reviewers(shorter) <= Reviewers(longer)
    ensures Demands(shorter, base) ==> Demands(longer, base)
  {
    hide Reviewers;
    var a, b := Reviewers(shorter), Reviewers(longer);
    assert b == a + b[|a|..];
    assert multiset(b) == multiset(a) + multiset(b[|a|..]);
  }

  lemma WindowStaysNear(reply: Replies, w: World, snap: Snapshot, base: Remote, actors: set<Actor>)
    requires AllNear(w.remote.rulesets, base.rulesets, actors) && FileNear(snap, base, actors)
             && NoneListed(base.rulesets, actors)
    ensures AllNear(CloseWindow(reply, w, snap).live, base.rulesets, actors)
  {
    hide AllNear, ListNear, NoneListed, CloseRulesets;
    if snap.window.Some? {
      ClosingStaysNear(
        reply, w.calls, w.remote.rulesets, base.rulesets, snap.rulesets, 0, {}, {}, actors, snap.window.value.actor);
    }
  }

  lemma RestoredRules(
    reply: Replies, calls: nat, rules: seq<DeployRule>, nextRule: int, list: seq<DeployRule>, base: seq<DeployRule>)
    requires FreshRules(rules, nextRule)
    ensures var p := RestoreReviewerRules(reply, calls, rules, nextRule, list);
            && OtherRules(p.rules) == OtherRules(rules) && FreshRules(p.rules, p.nextRule)
            && (Demands(rules, base) ==> Demands(p.rules, base))
  {
    hide IsReviewerRule, OtherRules, Reviewers, Demands, RecreateReviewerRules, FreshRules;
    RecreatingOnlyAdds(reply, calls + 1, rules, nextRule, list, 0);
    RecreatedRulesFresh(reply, calls + 1, rules, nextRule, list, 0);
    LongerDemandsMore(rules, RestoreReviewerRules(reply, calls, rules, nextRule, list).rules, base);
  }

  lemma RestoreLosesNothing(reply: Replies, w: World, base: Remote, actors: set<Actor>, path: Option<nat>)
    requires Recoverable(w, base, actors) && NoneListed(base.rulesets, actors)
    ensures Recoverable(Restore(reply, w, path).0, base, actors)
  {
    hide OtherRules, Demands, CloseWindow, RestoreReviewerRules, VerifyProtection, LoadSnapshot, FreshRules, NoneListed,
         FileNear;
    LoadedIsOnDisk(w, path);
    var loaded := LoadSnapshot(w, path);
    if loaded.Some? {
      WindowStaysNear(reply, w, loaded.value, base, actors);
      var first := CloseWindow(reply, w, loaded.value);
      RestoredRules(reply, first.calls, w.remote.rules, w.remote.nextRule, loaded.value.rules, base.rules);
    }
  }

  lemma {:induction false} RunsLoseNothing(
    reply: Replies, w: World, base: Remote, actors: set<Actor>, cmds: seq<Attempt>)
    requires Recoverable(w, base, actors) && NoneListed(base.rulesets, actors) && OnlyFor(cmds, actors)
    ensures Recoverable(AttemptAll(reply, w, cmds), base, actors)
    decreases cmds
  {
    hide Enable, Restore, AllNear, FileNear, OtherRules, Demands, NoneListed, ValidRemote;
    if cmds != [] {
      assert cmds[0] in cmds && forall c <- cmds[1..] :: c in cmds;
      match cmds[0] {
        case TryEnable(actor, minutes, confirmed, force) =>
          EnableLosesNothing(reply, w, base, actors, actor, minutes, confirmed, force);
        case TryRestore(path) => RestoreLosesNothing(reply, w, base, actors, path);
        case TryStatus =>
      }
      RunsLoseNothing(reply, Attempted(reply, w, cmds[0]), base, actors, cmds[1..]);
    }
  }

  lemma BaselineIsNear(base: map<int, Ruleset>, actors: set<Actor>)
    ensures AllNear(base, base, actors)
  {
    forall id | id in base ensures Near(base[id], base[id], actors) {
      NearIsAppended(base[id], [], actors);
      assert base[id].bypass + [] == base[id].bypass;
    }
  }

  /** From a baseline that lists none of the actors on its protected rulesets, no run loses anything: not by failing
      calls at any point, nor by --force, nor by changing the actor, nor by restoring any file. */
  lemma NothingIsLost(reply: Replies, w: World, actors: set<Actor>, cmds: seq<Attempt>)
    requires ValidWorld(w) && w.snapshots == map[] && NoneListed(w.remote.rulesets, actors) && OnlyFor(cmds, actors)
    ensures Recoverable(AttemptAll(reply, w, cmds), w.remote, actors)
  {
    hide AttemptAll, AllNear, OtherRules, Reviewers, NoneListed;
    BaselineIsNear(w.remote.rulesets, actors);
    RunsLoseNothing(reply, w, w.remote, actors, cmds);
  }
}
