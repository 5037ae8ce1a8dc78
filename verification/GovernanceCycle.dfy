/** With every remote call answered: when exactly `enable` completes, and that `restore` then gives everything back. */
module GovernanceCycle {
  import opened Options
  import opened GovernanceModel
  import opened GovernanceCommands
  import opened GovernanceWriteAhead
  import opened GovernanceRoundTrip
  import opened GovernanceRuns

  ghost predicate Answered(reply: Replies, from: nat) {
    forall n: nat :: n >= from ==> reply(n).Done?
  }

  lemma {:induction false} OpensWithoutFailure(
    reply: Replies, calls: nat, live: map<int, Ruleset>, list: seq<Numbered>, i: nat, seen: set<int>, touched: seq<int>,
    actor: Actor)
    requires i <= |list| && Answered(reply, calls) && forall r <- list :: r.id in live
    requires forall r <- list :: Protected(r.body) ==> Present(r.body.bypass, actor).Some?
    ensures OpenRulesets(reply, calls, live, list, i, seen, touched, actor).ok
    ensures calls <= OpenRulesets(reply, calls, live, list, i, seen, touched, actor).calls
    decreases |list| - i
  {
    hide Protected, Present;
    if i < |list| {
      var r := list[i];
      assert r in list;
      if r.id in seen || !Protected(r.body) {
        OpensWithoutFailure(reply, calls, live, list, i + 1, seen, touched, actor);
      } else {
        var present := Present(r.body.bypass, actor).value;
        assert Present(r.body.bypass, actor) == Some(present) && (present == true || present == false);
        if present {
          OpensWithoutFailure(reply, calls, live, list, i + 1, seen + {r.id}, touched + [r.id], actor);
        } else {
          var body := r.body.(bypass := r.body.bypass + [AutomationEntry(actor)]);
          OpensWithoutFailure(reply, calls + 1, live[r.id := body], list, i + 1, seen + {r.id}, touched + [r.id],
                              actor);
        }
      }
    }
  }

  lemma {:induction false} DeletesWithoutFailure(
    reply: Replies, calls: nat, rules: seq<DeployRule>, i: nat, deleted: seq<int>)
    requires i <= |rules| && DistinctRuleIds(rules) && Answered(reply, calls)
    ensures DeleteReviewerRules(reply, calls, Remaining(rules, i), rules, i, deleted).ok
    decreases |rules| - i
  {
    hide IsReviewerRule, Remaining, WithoutRule;
    if i < |rules| {
      if !IsReviewerRule(rules[i]) {
        OtherRuleKept(rules, i);
        DeletesWithoutFailure(reply, calls, rules, i + 1, deleted);
      } else {
        ReviewerRuleDeleted(rules, i);
        DeletesWithoutFailure(reply, calls + 1, rules, i + 1, deleted + [rules[i].id]);
      }
    }
  }

  /** The listed rulesets guard some protected branch, and none of those has an unreadable entry in the way. */
  predicate Openable(remote: Remote, actor: Actor) {
    && (exists id <- remote.listing :: id in remote.rulesets && Protected(remote.rulesets[id]))
    && (forall id <- remote.listing ::
          id in remote.rulesets && Protected(remote.rulesets[id]) ==> Present(remote.rulesets[id].bypass, actor).Some?)
  }

  lemma OpenableMeans(snap: Snapshot, remote: Remote, actor: Actor)
    requires FullSnapshotOf(snap, remote)
    ensures Openable(remote, actor) <==>
            SupportsBypass(snap.rulesets)
            && forall r <- snap.rulesets :: Protected(r.body) ==> Present(r.body.bypass, actor).Some?
  {
    hide Protected, Present;
    if SupportsBypass(snap.rulesets) {
      var r :| r in snap.rulesets && Protected(r.body);
      assert r.id in remote.listing;
    }
    forall id | id in remote.listing ensures Numbered(id, remote.rulesets[id]) in snap.rulesets {
      var i :| 0 <= i < |remote.listing| && remote.listing[i] == id;
      assert snap.rulesets[i] == Numbered(id, remote.rulesets[id]);
    }
  }

  lemma WindowOpens(reply: Replies, w: World, path: nat, snap: Snapshot, actor: Actor)
    requires ValidRemote(w.remote) && Answered(reply, w.calls) && FullSnapshotOf(snap, w.remote)
    ensures OpenWindow(reply, w, path, snap, actor).1 <==>
            forall r <- snap.rulesets :: Protected(r.body) ==> Present(r.body.bypass, actor).Some?
  {
    hide Protected, Present, DeleteReviewerRules, OpenRulesets, EnsureAutomationEnv, IsReviewerRule;
    assert Agree(snap.rulesets, w.remote.rulesets);
    var first := OpenRulesets(reply, w.calls, w.remote.rulesets, snap.rulesets, 0, {}, [], actor);
    if first.ok {
      OpeningDecidesAll(reply, w.calls, w.remote.rulesets, w.remote.rulesets, snap.rulesets, 0, {}, [], actor);
    }
    if forall r <- snap.rulesets :: Protected(r.body) ==> Present(r.body.bypass, actor).Some? {
      OpensWithoutFailure(reply, w.calls, w.remote.rulesets, snap.rulesets, 0, {}, [], actor);
      RemainingAll(w.remote.rules);
      DeletesWithoutFailure(reply, first.calls, w.remote.rules, 0, []);
    }
  }

  /** Within the bounds of the window's length, where zero stands for the default. */
  predicate TimeFine(minutes: int) {
    minutes == 0 || 15 <= minutes <= 480
  }

  /** Without confirmation, outside the time bounds, or beside an active window unless forced, `enable` makes no call
      and changes nothing, whatever the replies. */
  lemma EnableRefuses(reply: Replies, w: World, actor: Actor, minutes: int, confirmed: bool, force: bool)
    requires !confirmed || !TimeFine(minutes) || (w.marker.Some? && !force)
    ensures Enable(reply, w, actor, minutes, confirmed, force) == (w, false)
  {
    hide BuildSnapshot, OpenWindow, SupportsBypass;
  }

  /** With every call answered, `enable` completes if and only if it is confirmed, the time is within bounds, no window
      is active or --force is given, and the rulesets can be opened. */
  lemma EnableCompletesIff(reply: Replies, w: World, actor: Actor, minutes: int, confirmed: bool, force: bool)
    requires ValidWorld(w) && Answered(reply, w.calls)
    ensures Enable(reply, w, actor, minutes, confirmed, force).1 <==>
            && confirmed && TimeFine(minutes) && (w.marker.None? || force)
            && Openable(w.remote, actor)
  {
    hide BuildSnapshot, OpenWindow, Openable, SupportsBypass, FullSnapshotOf;
    SnapshotIsFaithful(reply, w.remote, w.calls);
    var (snapshot, n) := BuildSnapshot(reply, w.remote, w.calls);
    var snap := snapshot.value;
    OpenableMeans(snap, w.remote, actor);
    WindowOpens(reply, WriteSnapshot(w.(calls := w.calls + n), snap), w.clock, snap, actor);
  }

  lemma ActorEntryIsReadable(r: Ruleset, actor: Actor)
    requires Readable(r.bypass)
    ensures Readable(WithActor(r, actor).bypass)
  {
    hide Present;
  }

  lemma OpenedStaysReadable(base: map<int, Ruleset>, list: seq<Numbered>, actor: Actor)
    requires forall id <- base :: Readable(base[id].bypass)
    ensures forall id <- Opened(base, list, |list|, actor) :: Readable(Opened(base, list, |list|, actor)[id].bypass)
  {
    hide Readable, WithActor, Protected;
    forall id | id in base ensures Readable(WithActor(base[id], actor).bypass) {
      ActorEntryIsReadable(base[id], actor);
    }
  }

  lemma EnableOnlyCounts(reply: Replies, w: World, actor: Actor, minutes: int)
    requires ValidWorld(w) && Enable(reply, w, actor, minutes, true, false).1
    ensures w.calls <= Enable(reply, w, actor, minutes, true, false).0.calls
  {
    hide Protected, Present, IsReviewerRule, SupportsBypass, OpenRulesets, DeleteReviewerRules, BuildSnapshot;
    var (snapshot, n) := BuildSnapshot(reply, w.remote, w.calls);
    var snap := snapshot.value;
    OpeningCounts(reply, w.calls + n, w.remote.rulesets, snap.rulesets, 0, {}, [], actor);
    var first := OpenRulesets(reply, w.calls + n, w.remote.rulesets, snap.rulesets, 0, {}, [], actor);
    DeletingCounts(reply, first.calls, w.remote.rules, snap.rules, 0, []);
    var start := WriteSnapshot(w.(calls := w.calls + n), snap);
    assert Enable(reply, w, actor, minutes, true, false) == OpenWindow(reply, start, w.clock, snap, actor);
  }

  lemma {:induction false} OpeningCounts(
    reply: Replies, calls: nat, live: map<int, Ruleset>, list: seq<Numbered>, i: nat, seen: set<int>, touched: seq<int>,
    actor: Actor)
    requires i <= |list|
    ensures calls <= OpenRulesets(reply, calls, live, list, i, seen, touched, actor).calls
    decreases |list| - i
  {
    hide Protected, Present;
    if i < |list| {
      var r := list[i];
      OpeningCounts(reply, calls, live, list, i + 1, seen, touched, actor);
      OpeningCounts(reply, calls, live, list, i + 1, seen + {r.id}, touched + [r.id], actor);
      var (next, _) := PutRuleset(reply(calls), live, r.id,
                                  r.body.(bypass := r.body.bypass + [AutomationEntry(actor)]));
      OpeningCounts(reply, calls + 1, next, list, i + 1, seen + {r.id}, touched + [r.id], actor);
    }
  }

  lemma {:induction false} DeletingCounts(
    reply: Replies, calls: nat, rules: seq<DeployRule>, list: seq<DeployRule>, i: nat, deleted: seq<int>)
    requires i <= |list|
    ensures calls <= DeleteReviewerRules(reply, calls, rules, list, i, deleted).calls
    decreases |list| - i
  {
    hide IsReviewerRule;
    if i < |list| {
      DeletingCounts(reply, calls, rules, list, i + 1, deleted);
      var (next, _) := DeleteRule(reply(calls), rules, list[i].id);
      DeletingCounts(reply, calls + 1, next, list, i + 1, deleted + [list[i].id]);
    }
  }

  /** The whole cycle without faults: from a baseline that does not list the actor, with readable entries and
      non-empty reviewer rules, `enable` completes, `restore` runs to its end, and the protection is what it was. */
  lemma FaultFreeCycle(reply: Replies, w: World, actor: Actor, minutes: int)
    requires ValidWorld(w) && w.marker.None? && Answered(reply, w.calls) && TimeFine(minutes)
    requires actor.id != 0 && actor.kind != "" && Openable(w.remote, actor)
    requires forall id <- w.remote.rulesets ::
               Readable(w.remote.rulesets[id].bypass) && !Lists(w.remote.rulesets[id], actor)
    requires forall r <- w.remote.rules :: IsReviewerRule(r) ==> r.reviewers.Some? && r.reviewers.value != []
    ensures var (opening, ok) := Enable(reply, w, actor, minutes, true, false);
            var (closed, outcome) := Restore(reply, opening, None);
            ok && outcome != Aborted && closed.marker == None && SameProtection(closed.remote, w.remote)
  {
    hide Enable, Restore, Protected, Present, Readable, Openable, IsReviewerRule, OtherRules, Reviewers, Opened, Lists,
         WindowOpen;
    EnableCompletesIff(reply, w, actor, minutes, true, false);
    EnableOpensWindow(reply, w, actor, minutes, true, false);
    EnableOnlyCounts(reply, w, actor, minutes);
    var mid := Enable(reply, w, actor, minutes, true, false).0;
    WindowBodies(mid, w.remote, actor);
    RestoreRunsToItsEnd(reply, mid, w.remote, actor);
    RestoreUndoesWindow(reply, mid, w.remote, actor);
    RestoreIsExactIff(reply, mid, w.remote, actor);
  }

  lemma WindowBodies(w: World, base: Remote, actor: Actor)
    requires WindowOpen(w, base, actor) && forall id <- base.rulesets :: Readable(base.rulesets[id].bypass)
    ensures forall id <- w.remote.rulesets :: Readable(w.remote.rulesets[id].bypass)
    ensures forall id <- TouchedBy(w) :: id in base.rulesets
  {
    hide Protected, Present, Readable, OtherRules, Opened;
    OpenedStaysReadable(base.rulesets, w.snapshots[w.marker.value].rulesets, actor);
  }
}
