/** Safety of whole runs: any sequence of completed `enable` (without --force), `restore` (without
    --snapshot) and `status` commands keeps the protection either intact or recorded. */
module GovernanceRuns {
  import opened Options
  import opened GovernanceModel
  import opened GovernanceCommands
  import opened GovernanceWriteAhead
  import opened GovernanceRoundTrip

  datatype Command = EnableCommand(actor: Actor, minutes: int, confirmed: bool) | RestoreCommand | StatusCommand

  function Execute(reply: Replies, w: World, c: Command): World {
    match c
    case EnableCommand(actor, minutes, confirmed) => Enable(reply, w, actor, minutes, confirmed, false).0
    case RestoreCommand => Restore(reply, w, None).0
    case StatusCommand => Status(reply, w).0
  }

  /** Without a window a restore must see the live demands before it recreates recorded ones, unless there are none
      of either; with a window it must read every live ruleset that it closes. */
  predicate Undisturbed(reply: Replies, w: World) {
    var snap := LoadSnapshot(w, None);
    snap.Some? &&
    var first := CloseWindow(reply, w, snap.value);
    if w.marker.Some? then first.stale == {}
    else reply(first.calls).Done? || Reviewers(w.remote.rules) == [] || Reviewers(snap.value.rules) == []
  }

  /** `enable` completed; `restore` ran to its end (its verification may object) and was not disturbed. */
  predicate Completes(reply: Replies, w: World, c: Command) {
    match c
    case EnableCommand(actor, minutes, confirmed) => Enable(reply, w, actor, minutes, confirmed, false).1
    case RestoreCommand => Restore(reply, w, None).1 != Aborted && Undisturbed(reply, w)
    case StatusCommand => true
  }

  function Run(reply: Replies, w: World, cmds: seq<Command>): World
    decreases cmds
  {
    if cmds == [] then w else Run(reply, Execute(reply, w, cmds[0]), cmds[1..])
  }

  predicate AllComplete(reply: Replies, w: World, cmds: seq<Command>)
    decreases cmds
  {
    cmds == [] || (Completes(reply, w, cmds[0]) && AllComplete(reply, Execute(reply, w, cmds[0]), cmds[1..]))
  }

  /** The automation actor is usable and no protected ruleset of the baseline lists it. */
  predicate ActorAbsent(c: Command, base: Remote) {
    c.EnableCommand? ==>
      && c.actor.id != 0 && c.actor.kind != ""
      && forall id <- base.rulesets ::
           Protected(base.rulesets[id]) ==> Present(base.rulesets[id].bypass, c.actor) != Some(true)
  }

  predicate SameDemands(a: seq<DeployRule>, b: seq<DeployRule>) {
    OtherRules(a) == OtherRules(b) && Reviewers(a) == Reviewers(b)
  }

  /** Equal up to the ids and the position of reviewer rules. */
  predicate SameProtection(a: Remote, b: Remote) {
    a.listing == b.listing && a.rulesets == b.rulesets && SameDemands(a.rules, b.rules)
  }

  /** A completed window's snapshot that holds the baseline. */
  predicate Holds(snap: Snapshot, base: Remote) {
    && snap.window.Some? && snap.window.value.actor.id != 0 && snap.window.value.actor.kind != ""
    && Agree(snap.rulesets, base.rulesets)
    && (forall r <- snap.rulesets ::
          Protected(r.body) ==> Present(r.body.bypass, snap.window.value.actor) == Some(false))
    && (snap.rules == [] || SameDemands(snap.rules, base.rules))
  }

  /** The marker points to a snapshot that holds the baseline; live, the actor is on the protected rulesets
      of the snapshot and the recorded reviewer rules are gone. */
  predicate WindowStands(w: World, base: Remote) {
    && w.marker.Some? && w.marker.value in w.snapshots && w.marker.value == Latest(w.snapshots)
    && var snap := w.snapshots[w.marker.value];
    && Holds(snap, base)
    && w.remote.listing == base.listing
    && w.remote.rulesets == Opened(base.rulesets, snap.rulesets, |snap.rulesets|, snap.window.value.actor)
    && (if snap.rules == [] then SameDemands(w.remote.rules, base.rules) else w.remote.rules == OtherRules(snap.rules))
  }

  predicate Safe(w: World, base: Remote) {
    && ValidWorld(w)
    && (w.marker.None?
        ==> SameProtection(w.remote, base) && (w.snapshots != map[] ==> Holds(w.snapshots[Latest(w.snapshots)], base)))
    && (w.marker.Some? ==> WindowStands(w, base))
  }

  /// Rule ids stay unique

  lemma {:induction false} OtherRulesFresh(rules: seq<DeployRule>, nextRule: int)
    requires FreshRules(rules, nextRule)
    ensures FreshRules(OtherRules(rules), nextRule)
  {
    hide IsReviewerRule;
    if rules != [] {
      OtherRulesFresh(rules[1..], nextRule);
      OtherRulesMembers(rules[1..]);
      var rest := OtherRules(rules[1..]);
      forall j | 0 <= j < |rest|
        ensures rest[j].id != rules[0].id
      {
        assert rest[j] in rules[1..];
        var k :| 0 <= k < |rules[1..]| && rules[1..][k] == rest[j];
        assert rules[k + 1] == rest[j];
      }
      assert rules[0] in rules;
    }
  }

  lemma {:induction false} RecreatedRulesFresh(
    reply: Replies, calls: nat, rules: seq<DeployRule>, nextRule: int, list: seq<DeployRule>, i: nat)
    requires i <= |list| && FreshRules(rules, nextRule)
    ensures var p := RecreateReviewerRules(reply, calls, rules, nextRule, list, i); FreshRules(p.rules, p.nextRule)
    decreases |list| - i
  {
    hide IsReviewerRule;
    if i < |list| {
      var posted := rules + [DeployRule(nextRule, "required_reviewers", list[i].reviewers)];
      assert FreshRules(posted, nextRule + 1) by {
        assert forall j :: 0 <= j < |rules| ==> rules[j] in rules && posted[j] == rules[j];
      }
      if !IsReviewerRule(list[i]) {
        RecreatedRulesFresh(reply, calls, rules, nextRule, list, i + 1);
      } else {
        RecreatedRulesFresh(reply, calls + 1, posted, nextRule + 1, list, i + 1);
      }
    }
  }

  /// One command at a time

  lemma EnableKeepsSafe(reply: Replies, w: World, base: Remote, c: Command)
    requires Safe(w, base) && c.EnableCommand? && ActorAbsent(c, base) && Completes(reply, w, c)
    ensures Safe(Execute(reply, w, c), base)
  {
    hide Protected, Present, OtherRules, Reviewers, OpenWindow, BuildSnapshot, SupportsBypass, Opened, Remaining,
         Latest;
    var snap, k, m := EnableWritesAhead(reply, w, c.actor, c.minutes, c.confirmed, false);
    EnableOpensWindow(reply, w, c.actor, c.minutes, c.confirmed, false);
    var w' := Execute(reply, w, c);
    OtherRulesFresh(w.remote.rules, w.remote.nextRule);
    assert w'.marker == Some(w.clock);
    var saved := w'.snapshots[w.clock];
    forall r | r in saved.rulesets && Protected(r.body)
      ensures Present(r.body.bypass, c.actor) == Some(false)
    {
      assert r.id in base.rulesets && base.rulesets[r.id] == r.body;
      NotTrueIsFalse(Present(r.body.bypass, c.actor));
    }
    OpenedKeepsKeys(w.remote.rulesets, saved.rulesets, |saved.rulesets|, c.actor);
  }

  lemma NotTrueIsFalse(o: Option<bool>)
    requires o.Some? && o != Some(true)
    ensures o == Some(false)
  {
    var v := o.value;
    assert o == Some(v) && (v == true || v == false);
  }

  lemma OpenedKeepsKeys(base: map<int, Ruleset>, list: seq<Numbered>, k: nat, actor: Actor)
    requires k <= |list|
    ensures Opened(base, list, k, actor).Keys == base.Keys
  {
  }

  /** The live world seen as an opened copy of a state with the baseline's protection. */
  lemma StandingWindowIsOpen(w: World, base: Remote) returns (before: Remote)
    requires WindowStands(w, base)
    ensures SameProtection(before, base) && WindowOpen(w, before, w.snapshots[w.marker.value].window.value.actor)
  {
    hide Protected, Present, OtherRules, Reviewers, Opened;
    var snap := w.snapshots[w.marker.value];
    before := base.(rules := if snap.rules == [] then w.remote.rules else snap.rules);
  }

  /** Restoring an open window gives back the baseline exactly when every ruleset it closed could be read. */
  lemma RestoreClosesWindowIff(reply: Replies, w: World, base: Remote)
    requires Safe(w, base) && w.marker.Some? && Restore(reply, w, None).1 != Aborted
    ensures SameProtection(Restore(reply, w, None).0.remote, base) <==> StaleIds(reply, w) == {}
  {
    hide Protected, Present, OtherRules, Reviewers, Opened, Restore, CloseWindow, RestoredBody, Lists;
    var snap := w.snapshots[w.marker.value];
    var actor := snap.window.value.actor;
    var before := StandingWindowIsOpen(w, base);
    RestoreUndoesWindow(reply, w, before, actor);
    RestoreIsExactIff(reply, w, before, actor);
    TouchedBodiesAgree(snap.rulesets, base.rulesets);
    forall id | id in TouchedBy(w) ensures id in base.rulesets && !Lists(base.rulesets[id], actor) {
      AbsentIsNotListed(base.rulesets[id], actor);
    }
  }

  lemma AbsentIsNotListed(r: Ruleset, actor: Actor)
    ensures Present(r.bypass, actor) == Some(false) ==> !Lists(r, actor)
  {
    if Present(r.bypass, actor) == Some(false) {
      ListedWhenPresent(r, actor);
    }
  }

  /** Restoring with no window open leaves the baseline alone exactly when it sees the live demands or there is
      nothing to repeat; rulesets that it cannot read do no harm. */
  lemma RestoreFindsNothingIff(reply: Replies, w: World, base: Remote)
    requires Safe(w, base) && w.marker.None? && Restore(reply, w, None).1 != Aborted
    ensures SameProtection(Restore(reply, w, None).0.remote, base) <==> Undisturbed(reply, w)
  {
    hide Protected, Present, OtherRules, Reviewers, CloseRulesets, RestoreReviewerRules, VerifyProtection, Closed,
         WithoutActor, TouchedIds, Latest;
    var snap := w.snapshots[Latest(w.snapshots)];
    var actor := snap.window.value.actor;
    var start, list := base.rulesets, snap.rulesets;
    ClosedAtStart(start, start, list, actor);
    ClosesAll(reply, w.calls, start, start, start, list, 0, {}, {}, actor);
    TouchedBodiesAgree(list, start);
    var first := CloseWindow(reply, w, snap);
    ClosingAbsentActor(start, list, first.stale, actor);
    RestoresReviewers(reply, first.calls, w.remote.rules, w.remote.nextRule, snap.rules);
    EmptyDemandsNothing();
  }

  lemma ClosedAtStart(start: map<int, Ruleset>, base: map<int, Ruleset>, list: seq<Numbered>, actor: Actor)
    ensures TouchedIds(list, 0) == {} && Closed(start, base, list, 0, {}, actor) == start
  {
    assert TouchedIds(list, 0) == {};
  }

  lemma ClosingAbsentActor(base: map<int, Ruleset>, list: seq<Numbered>, stale: set<int>, actor: Actor)
    requires forall id <- TouchedIds(list, |list|) :: id in base && Present(base[id].bypass, actor) == Some(false)
    ensures Closed(base, base, list, |list|, stale, actor) == base
  {
    hide Protected, Present, WithoutActor;
    forall id | id in base && id in TouchedIds(list, |list|)
      ensures ClosedBody(base[id], base[id], id in stale, actor) == base[id]
    {
      AddThenRemove(base[id], actor);
    }
  }

  /** A restore that runs to its end keeps the invariant exactly when it is undisturbed. */
  lemma RestoreKeepsSafeIff(reply: Replies, w: World, base: Remote)
    requires Safe(w, base) && Restore(reply, w, None).1 != Aborted
    ensures Safe(Restore(reply, w, None).0, base) <==> Undisturbed(reply, w)
    ensures SameProtection(Restore(reply, w, None).0.remote, base) <==> Undisturbed(reply, w)
  {
    hide Restore, Holds, SameProtection, WindowStands;
    if w.marker.Some? {
      StandingSnapshot(w, base);
      RestoreClosesWindowIff(reply, w, base);
    } else {
      RestoreFindsNothingIff(reply, w, base);
    }
    RestoreKeepsFiles(reply, w, base);
  }

  lemma StandingSnapshot(w: World, base: Remote)
    requires WindowStands(w, base)
    ensures w.marker.Some? && w.marker.value in w.snapshots
            && LoadSnapshot(w, None) == Some(w.snapshots[w.marker.value])
  {
    hide Holds, Opened;
  }

  lemma RestoreKeepsFiles(reply: Replies, w: World, base: Remote)
    requires Safe(w, base) && Restore(reply, w, None).1 != Aborted
    ensures var w' := Restore(reply, w, None).0;
            && ValidWorld(w') && w'.snapshots == w.snapshots && w'.marker.None?
            && (w'.snapshots != map[] ==> Holds(w'.snapshots[Latest(w'.snapshots)], base))
  {
    hide Protected, Present, OtherRules, Reviewers, CloseRulesets, VerifyProtection, Opened, RecreateReviewerRules;
    var snap := LoadSnapshot(w, None).value;
    var first := CloseWindow(reply, w, snap);
    RecreatedRulesFresh(reply, first.calls + 1, w.remote.rules, w.remote.nextRule, snap.rules, 0);
    var actor := snap.window.value.actor;
    ClosingKeepsIds(reply, w.calls, w.remote.rulesets, snap.rulesets, 0, {}, {}, actor);
    if w.marker.Some? {
      OpenedKeepsKeys(base.rulesets, snap.rulesets, |snap.rulesets|, actor);
    }
  }

  /// Whole runs

  lemma StatusKeepsSafe(reply: Replies, w: World, base: Remote)
    requires Safe(w, base)
    ensures Safe(Status(reply, w).0, base)
  {
    hide Protected, Present, OtherRules, Reviewers, VerifyProtection, Opened, Latest;
  }

  lemma {:induction false} RunsKeepSafe(reply: Replies, w: World, base: Remote, cmds: seq<Command>)
    requires Safe(w, base) && AllComplete(reply, w, cmds) && forall c <- cmds :: ActorAbsent(c, base)
    ensures Safe(Run(reply, w, cmds), base)
    decreases cmds
  {
    hide Safe, Enable, Restore, Status, ActorAbsent, Undisturbed;
    if cmds != [] {
      var c := cmds[0];
      assert c in cmds;
      match c {
        case EnableCommand(_, _, _) => EnableKeepsSafe(reply, w, base, c);
        case RestoreCommand => RestoreKeepsSafeIff(reply, w, base);
        case StatusCommand => StatusKeepsSafe(reply, w, base);
      }
      RunsKeepSafe(reply, Execute(reply, w, c), base, cmds[1..]);
    }
  }

  /** Starting with no marker and no snapshot file, after any sequence of completed commands: without a
      marker the remote protection is the baseline's; with one, the marker points to a snapshot holding the
      baseline, and live the actor is added to its protected rulesets and its reviewer rules are gone. */
  lemma RunSafety(reply: Replies, w: World, cmds: seq<Command>)
    requires ValidWorld(w) && w.marker.None? && w.snapshots == map[]
    requires AllComplete(reply, w, cmds) && forall c <- cmds :: ActorAbsent(c, w.remote)
    ensures var w' := Run(reply, w, cmds);
            if w'.marker.None? then SameProtection(w'.remote, w.remote) else WindowStands(w', w.remote)
  {
    hide Protected, Present, OtherRules, Reviewers, Opened, Enable, Restore, Status, ActorAbsent, Completes,
         AllComplete, WindowStands;
    RunsKeepSafe(reply, w, w.remote, cmds);
  }
}
