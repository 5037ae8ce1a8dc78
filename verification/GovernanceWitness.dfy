/** Concrete runs in which `restore` does not give back what `enable` took: small worlds with one protected ruleset
    and one reviewer rule, in which at most one call is refused. */
module GovernanceWitness {
  import opened Options
  import opened Text
  import opened GovernanceModel
  import opened GovernanceCommands
  import opened GovernanceRoundTrip
  import opened GovernanceRuns

  const ROBOT := Actor(7, "Integration")
  const NOBODY := Actor(0, "Integration")

  const GUARD := Ruleset("branch", "active", Some(RefName(["main"], [])), [], "")
  const DEMAND := DeployRule(1, "required_reviewers", Some(["alice"]))
  const BASE := Remote([1], map[1 := GUARD], [DEMAND], 2, true)
  const BEFORE := World(BASE, map[], None, 0, 0)

  function WithRobot(actor: Actor): Ruleset {
    GUARD.(bypass := [AutomationEntry(actor)])
  }

  /** What `enable` writes, and the world after it. */
  function Saved(actor: Actor): Snapshot {
    Snapshot([Numbered(1, GUARD)], [DEMAND], Some(WindowState(actor, [1], [1])))
  }

  function During(actor: Actor): World {
    World(BASE.(rulesets := map[1 := WithRobot(actor)], rules := []), map[0 := Saved(actor)], Some(0), 1, 10)
  }

  /** Every call is answered but the nth. */
  function AllBut(n: nat): Replies {
    k => if k == n then Refused else Done
  }

  lemma MainMatches()
    ensures PatternMatches("main", "main")
  {
    TrimmedIff("main");
    hide Trim;
  }

  lemma ActiveIsActive()
    ensures Lower("active") == "active"
  {
    LowerLeavesLower("active");
  }

  lemma GuardIsProtected(actor: Actor)
    ensures Protected(GUARD) && Protected(WithRobot(actor))
  {
    MainMatches();
    ActiveIsActive();
    hide PatternMatches, Lower;
    assert "main" in GUARD.refName.value.includes && PROTECTED_BRANCHES[0] == "main";
    assert CoversBranch(GUARD, "main") && CoversBranch(WithRobot(actor), "main");
  }

  lemma DemandIsReviewerRule()
    ensures IsReviewerRule(DEMAND) && forall id :: IsReviewerRule(DeployRule(id, "required_reviewers", Some(["alice"])))
  {
    forall id ensures IsReviewerRule(DeployRule(id, "required_reviewers", Some(["alice"]))) {
      RecreatedRuleIsReviewerRule(id, Some(["alice"]));
    }
  }

  lemma RobotIsPresent(actor: Actor)
    ensures Present([], actor) == Some(false) && Present(WithRobot(actor).bypass, actor) == Some(true)
    ensures Lists(WithRobot(actor), actor) && !Lists(GUARD, actor)
  {
    var e := AutomationEntry(actor);
    assert e in WithRobot(actor).bypass && IsFor(e, actor);
  }

  predicate AnsweredUpTo(reply: Replies, n: nat) {
    forall k: nat :: k < n ==> reply(k) == Done
  }

  lemma SnapshotTaken(reply: Replies)
    requires AnsweredUpTo(reply, 7)
    ensures BuildSnapshot(reply, BASE, 0) == (Some(Snapshot([Numbered(1, GUARD)], [DEMAND], None)), 7)
  {
    assert BASE.listing[1..] == [];
    assert ReadEach(reply, BASE.rulesets, BASE.listing, 1) == [Numbered(1, GUARD)];
  }

  lemma GuardOpened(reply: Replies, actor: Actor)
    requires AnsweredUpTo(reply, 8)
    ensures OpenRulesets(reply, 7, BASE.rulesets, [Numbered(1, GUARD)], 0, {}, [], actor)
            == Opening(map[1 := WithRobot(actor)], 8, true, [1])
  {
    GuardIsProtected(actor);
    RobotIsPresent(actor);
    hide Protected, Present;
    var next := BASE.rulesets[1 := WithRobot(actor)];
    assert next == map[1 := WithRobot(actor)];
    assert WithRobot(actor) == GUARD.(bypass := GUARD.bypass + [AutomationEntry(actor)]);
    assert OpenRulesets(reply, 8, next, [Numbered(1, GUARD)], 1, {1}, [1], actor) == Opening(next, 8, true, [1]);
  }

  lemma DemandDeleted(reply: Replies)
    requires AnsweredUpTo(reply, 9)
    ensures DeleteReviewerRules(reply, 8, [DEMAND], [DEMAND], 0, []) == Deleting([], 9, true, [1])
  {
    DemandIsReviewerRule();
    hide IsReviewerRule;
    assert DEMAND in [DEMAND] && [DEMAND][1..] == [] && WithoutRule([DEMAND], 1) == [];
    assert DeleteReviewerRules(reply, 9, [], [DEMAND], 1, [1]) == Deleting([], 9, true, [1]);
  }

  lemma GuardSuffices(snap: Snapshot)
    requires snap.rulesets == [Numbered(1, GUARD)]
    ensures SupportsBypass(snap.rulesets)
  {
    GuardIsProtected(ROBOT);
    hide Protected;
    assert Numbered(1, GUARD) in snap.rulesets;
  }

  /** Opening the window, phase by phase. */
  lemma WindowGoesThrough(
    reply: Replies, w: World, path: nat, snap: Snapshot, actor: Actor, first: Opening, second: Deleting)
    requires OpenRulesets(reply, w.calls, w.remote.rulesets, snap.rulesets, 0, {}, [], actor) == first && first.ok
    requires DeleteReviewerRules(reply, first.calls, w.remote.rules, snap.rules, 0, []) == second && second.ok
    requires reply(second.calls).Done? && w.remote.automationEnv
    ensures OpenWindow(reply, w, path, snap, actor) ==
            (w.(remote := w.remote.(rulesets := first.live, rules := second.rules), calls := second.calls + 1,
                snapshots := w.snapshots[path := snap.(window := Some(WindowState(actor, first.ids, second.ids)))],
                marker := Some(path)),
             true)
  {
    hide OpenRulesets, DeleteReviewerRules;
  }

  lemma EnableGoesThrough(reply: Replies, w: World, actor: Actor, snap: Snapshot, n: nat)
    requires w.marker.None? && BuildSnapshot(reply, w.remote, w.calls) == (Some(snap), n)
             && SupportsBypass(snap.rulesets)
    ensures Enable(reply, w, actor, 0, true, false) ==
            OpenWindow(reply, WriteSnapshot(w.(calls := w.calls + n), snap), w.clock, snap, actor)
  {
    hide BuildSnapshot, SupportsBypass, OpenWindow;
  }

  const TAKEN := Snapshot([Numbered(1, GUARD)], [DEMAND], None)

  const WRITTEN := World(BASE, map[0 := TAKEN], None, 1, 7)

  lemma SnapshotWritten()
    ensures WriteSnapshot(BEFORE.(calls := BEFORE.calls + 7), TAKEN) == WRITTEN
  {
    assert map[][0 := TAKEN] == map[0 := TAKEN];
  }

  lemma GuardedWindow(reply: Replies, actor: Actor)
    requires AnsweredUpTo(reply, 10)
    ensures OpenWindow(reply, WRITTEN, 0, TAKEN, actor) == (During(actor), true)
  {
    hide OpenRulesets, DeleteReviewerRules, OpenWindow;
    GuardOpened(reply, actor);
    DemandDeleted(reply);
    WindowGoesThrough(reply, WRITTEN, 0, TAKEN, actor, Opening(map[1 := WithRobot(actor)], 8, true, [1]),
                      Deleting([], 9, true, [1]));
    assert WRITTEN.snapshots[0 := Saved(actor)] == map[0 := Saved(actor)];
  }

  /** `enable` completes, for any actor, whatever the later calls reply. */
  lemma WindowOpened(reply: Replies, actor: Actor)
    requires AnsweredUpTo(reply, 10)
    ensures Enable(reply, BEFORE, actor, 0, true, false) == (During(actor), true)
  {
    hide SupportsBypass, BuildSnapshot, Enable, OpenWindow, During, WriteSnapshot;
    SnapshotTaken(reply);
    GuardSuffices(TAKEN);
    EnableGoesThrough(reply, BEFORE, actor, TAKEN, 7);
    SnapshotWritten();
    GuardedWindow(reply, actor);
  }

  /// Restoring, phase by phase

  lemma RestoreGoesThrough(reply: Replies, w: World, snap: Snapshot, first: Closing, second: Recreating)
    requires LoadSnapshot(w, None) == Some(snap) && CloseWindow(reply, w, snap) == first && first.ok
    requires RestoreReviewerRules(reply, first.calls, w.remote.rules, w.remote.nextRule, snap.rules) == second
             && second.ok
    ensures var (w', outcome) := Restore(reply, w, None);
            && outcome != Aborted && w'.marker == None && w'.snapshots == w.snapshots && w'.clock == w.clock
            && w'.remote == w.remote.(rulesets := first.live, rules := second.rules, nextRule := second.nextRule)
            && w'.calls == second.calls + VerifyProtection(reply, w'.remote, second.calls).1
  {
    hide LoadSnapshot, CloseWindow, RestoreReviewerRules, VerifyProtection;
  }

  /** The demand comes back in a fresh rule, after whatever is there. */
  lemma DemandRecreated(reply: Replies, calls: nat, rules: seq<DeployRule>, nextRule: int)
    requires reply(calls + 1) == Done && (rules == [] || reply(calls) == Refused)
    ensures RestoreReviewerRules(reply, calls, rules, nextRule, [DEMAND]) ==
            Recreating(rules + [DeployRule(nextRule, "required_reviewers", Some(["alice"]))], nextRule + 1, calls + 2,
                       true)
  {
    hide IsReviewerRule;
    DemandIsReviewerRule();
    var posted := rules + [DeployRule(nextRule, "required_reviewers", Some(["alice"]))];
    assert RecreateReviewerRules(reply, calls + 2, posted, nextRule + 1, [DEMAND], 1)
           == Recreating(posted, nextRule + 1, calls + 2, true);
  }

  lemma GuardClosed(reply: Replies, calls: nat, live: Ruleset, actor: Actor)
    requires live == GUARD || (live == WithRobot(actor) && (reply(calls) != Done || reply(calls + 1) == Done))
    ensures CloseRulesets(reply, calls, map[1 := live], [Numbered(1, GUARD)], 0, {}, {}, actor) ==
            if reply(calls) != Done then Closing(map[1 := live], calls + 1, true, {1})
            else Closing(map[1 := GUARD], calls + if live == GUARD then 1 else 2, true, {})
  {
    hide Protected, Present;
    GuardIsProtected(actor);
    RobotIsPresent(actor);
    var list := [Numbered(1, GUARD)];
    RobotRemoved(reply(calls + 1), actor);
    assert {} + {1} == {1} && map[1 := WithRobot(actor)][1 := GUARD] == map[1 := GUARD];
    assert CloseRulesets(reply, calls + 1, map[1 := live], list, 1, {1}, {1}, actor)
           == Closing(map[1 := live], calls + 1, true, {1});
    assert CloseRulesets(reply, calls + 1, map[1 := GUARD], list, 1, {1}, {}, actor)
           == Closing(map[1 := GUARD], calls + 1, true, {});
    assert CloseRulesets(reply, calls + 2, map[1 := GUARD], list, 1, {1}, {}, actor)
           == Closing(map[1 := GUARD], calls + 2, true, {});
  }

  lemma RobotRemoved(answer: Reply, actor: Actor)
    ensures answer == Done ==>
              RemoveBypass(answer, map[1 := WithRobot(actor)], 1, WithRobot(actor), actor) == (map[1 := GUARD], true, 1)
  {
    RobotIsPresent(actor);
    var e := AutomationEntry(actor);
    assert [e][1..] == [] && IsFor(e, actor) && Without([e], actor) == [];
    assert Readable(WithRobot(actor).bypass);
    assert map[1 := WithRobot(actor)][1 := GUARD] == map[1 := GUARD];
  }

  lemma MarkedSnapshot(actor: Actor)
    ensures LoadSnapshot(During(actor), None) == Some(Saved(actor))
  {
  }

  /// The runs

  /** One ruleset cannot be read while restoring: the restore runs to its end and drops the marker, but the actor, never
      listed before, is still listed. */
  lemma UnreadRulesetKeepsActor()
    ensures Enable(AllBut(10), BEFORE, ROBOT, 0, true, false) == (During(ROBOT), true)
    ensures var (w', outcome) := Restore(AllBut(10), During(ROBOT), None);
            && outcome != Aborted && w'.marker == None
            && 1 in w'.remote.rulesets && Lists(w'.remote.rulesets[1], ROBOT) && !Lists(BASE.rulesets[1], ROBOT)
  {
    hide Enable, Restore, RestoreReviewerRules, CloseRulesets, LoadSnapshot, Lists;
    var reply := AllBut(10);
    WindowOpened(reply, ROBOT);
    MarkedSnapshot(ROBOT);
    RobotIsPresent(ROBOT);
    GuardClosed(reply, 10, WithRobot(ROBOT), ROBOT);
    DemandRecreated(reply, 11, [], 2);
    var first := Closing(map[1 := WithRobot(ROBOT)], 11, true, {1});
    RestoreGoesThrough(reply, During(ROBOT), Saved(ROBOT), first, RestoreReviewerRules(reply, 11, [], 2, [DEMAND]));
  }

  const STOPPED := World(BASE.(rulesets := map[1 := WithRobot(ROBOT)]), map[0 := TAKEN], None, 1, 9)

  lemma DeletionRefused()
    ensures OpenWindow(AllBut(8), WRITTEN, 0, TAKEN, ROBOT) == (STOPPED, false)
  {
    hide OpenRulesets, IsReviewerRule, EnsureAutomationEnv;
    GuardOpened(AllBut(8), ROBOT);
    DemandIsReviewerRule();
    assert DEMAND in [DEMAND];
    assert DeleteReviewerRules(AllBut(8), 8, [DEMAND], [DEMAND], 0, []) == Deleting([DEMAND], 9, false, []);
  }

  lemma EnableStops()
    ensures Enable(AllBut(8), BEFORE, ROBOT, 0, true, false) == (STOPPED, false)
  {
    hide SupportsBypass, BuildSnapshot, Enable, OpenWindow, WriteSnapshot;
    SnapshotTaken(AllBut(8));
    GuardSuffices(TAKEN);
    EnableGoesThrough(AllBut(8), BEFORE, ROBOT, TAKEN, 7);
    SnapshotWritten();
    DeletionRefused();
  }

  /** The deletion of the reviewer rule is refused: `enable` stops, and a later `restore` in which every call is
      answered runs to its end and leaves the actor listed. */
  lemma AbortedEnableLeavesActor(later: Replies)
    requires forall n: nat :: later(n) == Done
    ensures Enable(AllBut(8), BEFORE, ROBOT, 0, true, false) == (STOPPED, false)
    ensures var (w', outcome) := Restore(later, STOPPED, None);
            && outcome != Aborted && w'.marker == None
            && 1 in w'.remote.rulesets && Lists(w'.remote.rulesets[1], ROBOT) && !Lists(BASE.rulesets[1], ROBOT)
  {
    hide Enable, Restore, RestoreReviewerRules, LoadSnapshot, Lists;
    EnableStops();
    RobotIsPresent(ROBOT);
    OnlySnapshot();
    DemandStands(later);
    RestoreGoesThrough(later, STOPPED, TAKEN, Closing(STOPPED.remote.rulesets, 9, true, {}),
                       Recreating([DEMAND], 2, 10, true));
  }

  lemma OnlySnapshot()
    ensures LoadSnapshot(STOPPED, None) == Some(TAKEN)
  {
    hide Latest;
    assert 0 in STOPPED.snapshots;
  }

  lemma DemandStands(reply: Replies)
    requires reply(9) == Done
    ensures RestoreReviewerRules(reply, 9, [DEMAND], 2, [DEMAND]) == Recreating([DEMAND], 2, 10, true)
  {
    hide IsReviewerRule;
    DemandIsReviewerRule();
    assert DEMAND in [DEMAND];
  }

  /** With the actor id zero every call is answered, both commands end well, and the actor stays listed. */
  lemma ZeroActorStays(reply: Replies)
    requires forall n: nat :: reply(n) == Done
    ensures Enable(reply, BEFORE, NOBODY, 0, true, false) == (During(NOBODY), true)
    ensures var (w', outcome) := Restore(reply, During(NOBODY), None);
            && outcome != Aborted && w'.marker == None
            && 1 in w'.remote.rulesets && Lists(w'.remote.rulesets[1], NOBODY) && !Lists(BASE.rulesets[1], NOBODY)
  {
    hide Enable, Restore, RestoreReviewerRules, CloseRulesets, LoadSnapshot, Lists;
    WindowOpened(reply, NOBODY);
    MarkedSnapshot(NOBODY);
    RobotIsPresent(NOBODY);
    DemandRecreated(reply, 10, [], 2);
    var first := Closing(map[1 := WithRobot(NOBODY)], 10, true, {});
    RestoreGoesThrough(reply, During(NOBODY), Saved(NOBODY), first, RestoreReviewerRules(reply, 10, [], 2, [DEMAND]));
  }

  /// Two demands, of which the second cannot be posted at once

  const SECOND := DeployRule(2, "required_reviewers", Some(["bob"]))
  const BASE_OF_TWO := Remote([1], map[1 := GUARD], [DEMAND, SECOND], 3, true)
  const SAVED_TWO := Snapshot([Numbered(1, GUARD)], [DEMAND, SECOND], Some(WindowState(ROBOT, [1], [1, 2])))
  const OPEN_TWO := World(
    Remote([1], map[1 := WithRobot(ROBOT)], [], 3, true), map[0 := SAVED_TWO], Some(0), 1, 11)
  const TORN := World(
    Remote([1], map[1 := GUARD], [DeployRule(3, "required_reviewers", Some(["alice"]))], 4, true),
    map[0 := SAVED_TWO], Some(0), 1, 16)

  lemma SecondDemandRefused(reply: Replies)
    requires reply(14) == Done && reply(15) == Refused
    ensures RestoreReviewerRules(reply, 13, [], 3, [DEMAND, SECOND])
            == Recreating([DeployRule(3, "required_reviewers", Some(["alice"]))], 4, 16, false)
  {
    hide IsReviewerRule;
    DemandIsReviewerRule();
    RecreatedRuleIsReviewerRule(2, Some(["bob"]));
    var posted := [DeployRule(3, "required_reviewers", Some(["alice"]))];
    assert [] + posted == posted;
    assert RecreateReviewerRules(reply, 15, posted, 4, [DEMAND, SECOND], 1) == Recreating(posted, 4, 16, false);
  }

  lemma TwoDemands()
    ensures Reviewers([DEMAND, SECOND]) == [Some(["alice"]), Some(["bob"])]
    ensures Reviewers(TORN.remote.rules) == [Some(["alice"])]
  {
    hide IsReviewerRule;
    DemandIsReviewerRule();
    RecreatedRuleIsReviewerRule(2, Some(["bob"]));
    assert [DEMAND, SECOND][1..] == [SECOND] && [SECOND][1..] == [] && TORN.remote.rules[1..] == [];
    assert IsReviewerRule(SECOND) && Reviewers([SECOND]) == [Some(["bob"])];
  }

  lemma RestoreTears()
    ensures Restore(AllBut(15), OPEN_TWO, None) == (TORN, Aborted)
  {
    hide Restore, RestoreReviewerRules, CloseRulesets, LoadSnapshot;
    var reply := AllBut(15);
    assert LoadSnapshot(OPEN_TWO, None) == Some(SAVED_TWO) by { TwoOnDisk(); }
    GuardClosed(reply, 11, WithRobot(ROBOT), ROBOT);
    SecondDemandRefused(reply);
    RestoreFails(reply, OPEN_TWO, SAVED_TWO, Closing(map[1 := GUARD], 13, true, {}),
                 Recreating(TORN.remote.rules, 4, 16, false));
  }

  lemma TwoOnDisk()
    ensures LoadSnapshot(OPEN_TWO, None) == Some(SAVED_TWO) && LoadSnapshot(TORN, None) == Some(SAVED_TWO)
  {
  }

  lemma RestoreFails(reply: Replies, w: World, snap: Snapshot, first: Closing, second: Recreating)
    requires LoadSnapshot(w, None) == Some(snap) && CloseWindow(reply, w, snap) == first && first.ok
    requires RestoreReviewerRules(reply, first.calls, w.remote.rules, w.remote.nextRule, snap.rules) == second
             && !second.ok
    ensures Restore(reply, w, None) ==
            (w.(remote := w.remote.(rulesets := first.live, rules := second.rules, nextRule := second.nextRule),
                calls := second.calls),
             Aborted)
  {
    hide LoadSnapshot, CloseWindow, RestoreReviewerRules, VerifyProtection;
  }

  /** A window over two reviewer rules: the restore stops because the second cannot be posted; the next one, in which
      every call is answered, runs to its end, and the second reviewer is demanded no more. */
  lemma RetryLosesSecondDemand(later: Replies)
    requires forall n: nat :: later(n) == Done
    ensures Reviewers(BASE_OF_TWO.rules) == [Some(["alice"]), Some(["bob"])]
    ensures Restore(AllBut(15), OPEN_TWO, None) == (TORN, Aborted)
    ensures var (w', outcome) := Restore(later, TORN, None);
            outcome != Aborted && w'.marker == None && Reviewers(w'.remote.rules) == [Some(["alice"])]
  {
    hide Restore, RestoreReviewerRules, CloseRulesets, LoadSnapshot, Reviewers;
    RestoreTears();
    TwoDemands();
    TwoOnDisk();
    GuardClosed(later, 16, GUARD, ROBOT);
    var rules := TORN.remote.rules;
    RestoresReviewers(later, 17, rules, 4, [DEMAND, SECOND]);
    RestoreGoesThrough(later, TORN, SAVED_TWO, Closing(map[1 := GUARD], 17, true, {}),
                       RestoreReviewerRules(later, 17, rules, 4, [DEMAND, SECOND]));
  }

  const RESTORED := World(
    BASE.(rules := [DeployRule(2, "required_reviewers", Some(["alice"]))], nextRule := 3),
    map[0 := Saved(ROBOT)], None, 1, 17)

  lemma FirstRestore()
    ensures Restore(AllBut(18), During(ROBOT), None).0 == RESTORED
            && Restore(AllBut(18), During(ROBOT), None).1 != Aborted
  {
    hide Restore, RestoreReviewerRules, CloseRulesets, LoadSnapshot, VerifyProtection;
    var reply := AllBut(18);
    MarkedSnapshot(ROBOT);
    GuardClosed(reply, 10, WithRobot(ROBOT), ROBOT);
    DemandRecreated(reply, 12, [], 2);
    var rules := [] + [DeployRule(2, "required_reviewers", Some(["alice"]))];
    assert rules == RESTORED.remote.rules;
    RestoreGoesThrough(reply, During(ROBOT), Saved(ROBOT), Closing(map[1 := GUARD], 12, true, {}),
                       Recreating(rules, 3, 14, true));
    var w' := Restore(reply, During(ROBOT), None).0;
    assert w'.remote == RESTORED.remote;
    VerifyCounts(reply);
  }

  lemma VerifyCounts(reply: Replies)
    requires reply(14) == Done && reply(15) == Done
    ensures VerifyProtection(reply, RESTORED.remote, 14).1 == 3
  {
    hide BranchGap, ReviewerGap;
    var remote := RESTORED.remote;
    assert remote.listing[1..] == [];
    assert ReadEach(reply, remote.rulesets, remote.listing, 15) == [Numbered(1, GUARD)];
  }

  lemma PastSnapshot()
    ensures LoadSnapshot(RESTORED, None) == Some(Saved(ROBOT))
  {
    hide Latest;
    assert 0 in RESTORED.snapshots;
  }

  /** `enable`, `restore`, `restore`, with one refused read of the deployment rules in the last: all three run to their
      end, and every reviewer is demanded twice. */
  lemma SecondRestoreDoublesReviewers()
    ensures Enable(AllBut(18), BEFORE, ROBOT, 0, true, false) == (During(ROBOT), true)
    ensures Restore(AllBut(18), During(ROBOT), None).0 == RESTORED
            && Restore(AllBut(18), During(ROBOT), None).1 != Aborted
    ensures Reviewers(BASE.rules) == [Some(["alice"])]
    ensures var (w', outcome) := Restore(AllBut(18), RESTORED, None);
            outcome != Aborted && Reviewers(w'.remote.rules) == [Some(["alice"]), Some(["alice"])]
  {
    hide Enable, Restore, RestoreReviewerRules, CloseRulesets, LoadSnapshot, IsReviewerRule;
    var reply := AllBut(18);
    WindowOpened(reply, ROBOT);
    FirstRestore();
    PastSnapshot();
    GuardClosed(reply, 17, GUARD, ROBOT);
    var rules := RESTORED.remote.rules;
    DemandRecreated(reply, 18, rules, 3);
    DemandIsReviewerRule();
    RestoreGoesThrough(reply, RESTORED, Saved(ROBOT), Closing(map[1 := GUARD], 18, true, {}),
                       RestoreReviewerRules(reply, 18, rules, 3, [DEMAND]));
    assert [DEMAND][1..] == [] && rules[1..] == [];
    RulePosted(rules, 3, Some(["alice"]));
  }
}
