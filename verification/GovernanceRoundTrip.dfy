/** What `restore` undoes of a completed `enable`, and exactly when it undoes all of it. */
module GovernanceRoundTrip {
  import opened Options
  import opened Sequences
  import opened Text
  import opened GovernanceModel
  import opened GovernanceCommands
  import opened GovernanceWriteAhead

  predicate Lists(r: Ruleset, actor: Actor) {
    exists e <- r.bypass :: IsFor(e, actor)
  }

  /// The ruleset phase

  /** What closing makes of a live ruleset whose snapshot body is `saved`. */
  function ClosedBody(live: Ruleset, saved: Ruleset, isStale: bool, actor: Actor): Ruleset {
    if !isStale then WithoutActor(live, actor)
    else if Present(saved.bypass, actor) == Some(true) then WithoutActor(saved, actor)
    else live
  }

  function Closed(
    start: map<int, Ruleset>, base: map<int, Ruleset>, list: seq<Numbered>, k: nat, stale: set<int>,
    actor: Actor): map<int, Ruleset>
    requires k <= |list|
  {
    map id | id in start ::
      if id in TouchedIds(list, k) && id in base then ClosedBody(start[id], base[id], id in stale, actor) else start[id]
  }

  lemma ClosedNext(
    start: map<int, Ruleset>, base: map<int, Ruleset>, list: seq<Numbered>, i: nat, stale: set<int>, newStale: set<int>,
    actor: Actor)
    requires i < |list| && Agree(list, base) && start.Keys == base.Keys
    requires stale <= TouchedIds(list, i) && (newStale == stale || newStale == stale + {list[i].id})
    ensures var (r, here) := (list[i], Closed(start, base, list, i, stale, actor));
            && r.id in here
            && (Protected(r.body) && r.id !in TouchedIds(list, i) ==>
                  && here[r.id] == start[r.id]
                  && Closed(start, base, list, i + 1, newStale, actor)
                     == here[r.id := ClosedBody(start[r.id], r.body, r.id in newStale, actor)])
            && (!Protected(r.body) || r.id in TouchedIds(list, i)
                ==> Closed(start, base, list, i + 1, stale, actor) == here)
  {
    hide Protected, Present, WithoutActor;
    TouchedNext(list, i);
    assert list[i] in list;
  }

  /** A successful removal leaves the filtered body, whether or not the actor was there. */
  lemma RemovalFilters(answer: Reply, live: map<int, Ruleset>, id: int, target: Ruleset, actor: Actor)
    requires id in live
    ensures var (next, ok, n) := RemoveBypass(answer, live, id, target, actor);
            && (ok && live[id] == target ==> next == live[id := WithoutActor(target, actor)])
            && (ok && Present(target.bypass, actor) == Some(true) ==> next == live[id := WithoutActor(target, actor)])
            && (ok && Present(target.bypass, actor) != Some(true) ==> next == live)
            && (answer.Done? && Readable(target.bypass) ==> ok)
  {
    AddThenRemove(target, actor);
    PresentMeansListed(target.bypass, actor);
  }

  lemma {:induction false} ClosesAll(
    reply: Replies, calls: nat, live: map<int, Ruleset>, start: map<int, Ruleset>, base: map<int, Ruleset>,
    list: seq<Numbered>, i: nat, seen: set<int>, stale: set<int>, actor: Actor)
    requires i <= |list| && Agree(list, base) && start.Keys == base.Keys
    requires seen == TouchedIds(list, i) && stale <= seen && live == Closed(start, base, list, i, stale, actor)
    ensures var p := CloseRulesets(reply, calls, live, list, i, seen, stale, actor);
            && calls <= p.calls
            && (p.ok ==> stale <= p.stale <= TouchedIds(list, |list|)
                         && p.live == Closed(start, base, list, |list|, p.stale, actor))
            && (AllDone(reply, calls, p.calls) ==> p.stale == stale)
            && ((forall n :: n >= calls ==> reply(n).Done?) && (forall id <- start :: Readable(start[id].bypass))
                ==> p.ok)
    decreases |list| - i
  {
    hide Protected, Present, WithoutActor, ClosedBody, Readable, RemoveBypass, Closed, TouchedIds;
    if i < |list| {
      var r := list[i];
      assert r in list;
      TouchedNext(list, i);
      var readable := reply(calls).Done? && r.id in live;
      var newStale := if readable then stale else stale + {r.id};
      ClosedNext(start, base, list, i, stale, newStale, actor);
      if r.id in seen || !Protected(r.body) {
        ClosesAll(reply, calls, live, start, base, list, i + 1, seen, stale, actor);
      } else {
        var target := if readable then live[r.id] else r.body;
        RemovalFilters(reply(calls + 1), live, r.id, target, actor);
        ClosedBodyByCase(live[r.id], r.body, !readable, actor);
        var (next, ok, n) := RemoveBypass(reply(calls + 1), live, r.id, target, actor);
        if ok {
          assert r.id in newStale <==> !readable;
          assert live[r.id := live[r.id]] == live;
          ClosesAll(reply, calls + 1 + n, next, start, base, list, i + 1, seen + {r.id}, newStale, actor);
        }
      }
    }
  }

  lemma ClosedBodyByCase(live: Ruleset, saved: Ruleset, isStale: bool, actor: Actor)
    ensures !isStale ==> ClosedBody(live, saved, isStale, actor) == WithoutActor(live, actor)
    ensures isStale && Present(saved.bypass, actor) == Some(true)
            ==> ClosedBody(live, saved, isStale, actor) == WithoutActor(saved, actor)
    ensures isStale && Present(saved.bypass, actor) != Some(true) ==> ClosedBody(live, saved, isStale, actor) == live
  {
  }

  lemma {:induction false} ClosingKeepsIds(
    reply: Replies, calls: nat, live: map<int, Ruleset>, list: seq<Numbered>, i: nat, seen: set<int>, stale: set<int>,
    actor: Actor)
    requires i <= |list|
    ensures CloseRulesets(reply, calls, live, list, i, seen, stale, actor).live.Keys == live.Keys
    decreases |list| - i
  {
    hide Protected, Present, WithoutActor, Readable, RemoveBypass;
    if i < |list| {
      var r := list[i];
      if r.id in seen || !Protected(r.body) {
        ClosingKeepsIds(reply, calls, live, list, i + 1, seen, stale, actor);
      } else {
        var readable := reply(calls).Done? && r.id in live;
        var target := if readable then live[r.id] else r.body;
        var (next, ok, n) := RemoveBypass(reply(calls + 1), live, r.id, target, actor);
        RemovalKeepsIds(reply(calls + 1), live, r.id, target, actor);
        if ok {
          var stale' := if readable then stale else stale + {r.id};
          ClosingKeepsIds(reply, calls + 1 + n, next, list, i + 1, seen + {r.id}, stale', actor);
        }
      }
    }
  }

  lemma RemovalKeepsIds(answer: Reply, live: map<int, Ruleset>, id: int, target: Ruleset, actor: Actor)
    ensures RemoveBypass(answer, live, id, target, actor).0.Keys == live.Keys
  {
  }

  /// The reviewer phase

  lemma NormalKindIsItself(kind: string)
    requires forall c <- kind :: LowerChar(c) == c && c != ' '
    ensures ReplaceAll(Lower(kind), " ", "_") == kind
  {
    LowerLeavesLower(kind);
    AbsentCharacter(kind, ' ');
    ReplacingNothing(kind, " ", "_");
  }

  lemma RecreatedRuleIsReviewerRule(id: int, reviewers: Option<seq<string>>)
    ensures IsReviewerRule(DeployRule(id, "required_reviewers", reviewers))
  {
    hide Lower, ReplaceAll;
    NormalKindIsItself("required_reviewers");
  }

  lemma {:induction false} RecreatesAll(
    reply: Replies, calls: nat, rules: seq<DeployRule>, nextRule: int, list: seq<DeployRule>, i: nat)
    requires i <= |list|
    ensures var p := RecreateReviewerRules(reply, calls, rules, nextRule, list, i);
            p.ok ==>
              OtherRules(p.rules) == OtherRules(rules) && Reviewers(p.rules) == Reviewers(rules) + Reviewers(list[i..])
    decreases |list| - i
  {
    hide IsReviewerRule, OtherRules;
    if i < |list| {
      var r := list[i];
      assert list[i..][1..] == list[i + 1..];
      if !IsReviewerRule(r) {
        RecreatesAll(reply, calls, rules, nextRule, list, i + 1);
      } else if r.reviewers.Some? && r.reviewers.value != [] && reply(calls).Done? {
        var rule := DeployRule(nextRule, "required_reviewers", r.reviewers);
        RulePosted(rules, nextRule, r.reviewers);
        RecreatesAll(reply, calls + 1, rules + [rule], nextRule + 1, list, i + 1);
        Regroup(Reviewers(rules), [r.reviewers], Reviewers(list[i + 1..]));
      }
    }
  }

  lemma RulePosted(rules: seq<DeployRule>, id: int, reviewers: Option<seq<string>>)
    ensures var posted := rules + [DeployRule(id, "required_reviewers", reviewers)];
            OtherRules(posted) == OtherRules(rules) && Reviewers(posted) == Reviewers(rules) + [reviewers]
  {
    hide IsReviewerRule;
    var rule := DeployRule(id, "required_reviewers", reviewers);
    RecreatedRuleIsReviewerRule(id, reviewers);
    OtherRulesConcat(rules, [rule]);
    assert [rule][1..] == [];
    assert OtherRules([rule]) == [] && Reviewers([rule]) == [reviewers];
  }

  /** The phase gives back exactly the snapshot's demands when the live rules make none. Live demands that it can
      read it leaves alone; live demands that it cannot read it repeats. */
  lemma RestoresReviewers(reply: Replies, calls: nat, rules: seq<DeployRule>, nextRule: int, list: seq<DeployRule>)
    ensures var p := RestoreReviewerRules(reply, calls, rules, nextRule, list);
            && (p.ok ==> OtherRules(p.rules) == OtherRules(rules))
            && (Reviewers(rules) == [] && p.ok ==> Reviewers(p.rules) == Reviewers(list))
            && (Reviewers(rules) != [] && reply(calls).Done? ==> p.ok && p.rules == rules)
            && (!reply(calls).Done? && p.ok ==> Reviewers(p.rules) == Reviewers(rules) + Reviewers(list))
            && (Reviewers(list) == [] ==> p.ok && p.rules == rules)
  {
    hide IsReviewerRule, OtherRules;
    NoReviewerRules(rules);
    assert list[0..] == list;
    RecreatesAll(reply, calls + 1, rules, nextRule, list, 0);
    if Reviewers(list) == [] {
      NoReviewerRules(list);
      RecreatesNothing(reply, calls + 1, rules, nextRule, list, 0);
    }
  }

  lemma {:induction false} RecreatesNothing(
    reply: Replies, calls: nat, rules: seq<DeployRule>, nextRule: int, list: seq<DeployRule>, i: nat)
    requires i <= |list| && forall r <- list :: !IsReviewerRule(r)
    ensures var p := RecreateReviewerRules(reply, calls, rules, nextRule, list, i);
            p.ok && p.rules == rules && p.nextRule == nextRule
    decreases |list| - i
  {
    hide IsReviewerRule;
    if i < |list| {
      assert list[i] in list;
      RecreatesNothing(reply, calls, rules, nextRule, list, i + 1);
    }
  }

  /// The round trip

  /** The world a completed window leaves: opened rulesets, no reviewer rules (unless they could not be
      read), and a marker that points to a snapshot of `base` with the actor recorded. */
  predicate WindowOpen(w: World, base: Remote, actor: Actor) {
    && w.marker.Some? && w.marker.value in w.snapshots
    && var snap := w.snapshots[w.marker.value];
    && SnapshotOf(snap, base)
    && snap.window.Some? && snap.window.value.actor == actor
    && w.remote.listing == base.listing
    && w.remote.rulesets == Opened(base.rulesets, snap.rulesets, |snap.rulesets|, actor)
    && w.remote.rules == (if snap.rules == [] then base.rules else OtherRules(base.rules))
    && (forall r <- snap.rulesets :: Protected(r.body) ==> Present(r.body.bypass, actor).Some?)
  }

  lemma EnableOpensWindow(reply: Replies, w: World, actor: Actor, minutes: int, confirmed: bool, force: bool)
    requires ValidWorld(w) && Enable(reply, w, actor, minutes, confirmed, force).1
    ensures WindowOpen(Enable(reply, w, actor, minutes, confirmed, force).0, w.remote, actor)
  {
    hide Enable, Protected, Present, OtherRules, Opened;
    var snap, k, m := EnableWritesAhead(reply, w, actor, minutes, confirmed, force);
    RemainingAll(w.remote.rules);
    assert w.remote.rules[..|w.remote.rules|] == w.remote.rules;
    assert w.remote.rules[|w.remote.rules|..] == [];
  }

  function StaleIds(reply: Replies, w: World): set<int>
    requires w.marker.Some? && w.marker.value in w.snapshots
  {
    CloseWindow(reply, w, w.snapshots[w.marker.value]).stale
  }

  function TouchedBy(w: World): set<int>
    requires w.marker.Some? && w.marker.value in w.snapshots
  {
    var list := w.snapshots[w.marker.value].rulesets; TouchedIds(list, |list|)
  }

  /** What each ruleset is after a restore that ran to its end. */
  function RestoredBody(base: Ruleset, touched: bool, isStale: bool, actor: Actor): Ruleset {
    if !touched then base
    else if !isStale || Present(base.bypass, actor) == Some(true) then WithoutActor(base, actor)
    else WithActor(base, actor)
  }

  lemma ClosingAnOpenedBody(base: Ruleset, isStale: bool, actor: Actor)
    ensures ClosedBody(WithActor(base, actor), base, isStale, actor) == RestoredBody(base, true, isStale, actor)
  {
    AddThenRemove(base, actor);
  }

  lemma TouchedBodiesAgree(list: seq<Numbered>, base: map<int, Ruleset>)
    requires Agree(list, base)
    ensures TouchedIds(list, |list|) <= base.Keys
    ensures forall id <- TouchedIds(list, |list|) ::
              exists r <- list :: r.id == id && Protected(r.body) && r.body == base[id]
  {
    hide Protected;
    forall id | id in TouchedIds(list, |list|)
      ensures id in base && exists r <- list :: r.id == id && Protected(r.body) && r.body == base[id]
    {
      var i :| 0 <= i < |list| && Protected(list[i].body) && list[i].id == id;
      assert list[i] in list;
    }
  }

  /** Restoring a completed window, wherever its calls fail: if it runs to its end, the marker is gone, every
      ruleset has the body predicted above, and the reviewer demands and the other rules are back. */
  lemma RestoreUndoesWindow(reply: Replies, w: World, base: Remote, actor: Actor)
    requires WindowOpen(w, base, actor) && actor.id != 0 && actor.kind != ""
    requires Restore(reply, w, None).1 != Aborted
    ensures var w' := Restore(reply, w, None).0;
            && w'.marker == None && w'.snapshots == w.snapshots && w'.remote.listing == base.listing
            && StaleIds(reply, w) <= TouchedBy(w)
            && w'.remote.rulesets.Keys == base.rulesets.Keys
            && (forall id <- base.rulesets ::
                  w'.remote.rulesets[id]
                  == RestoredBody(base.rulesets[id], id in TouchedBy(w), id in StaleIds(reply, w), actor))
            && OtherRules(w'.remote.rules) == OtherRules(base.rules)
            && Reviewers(w'.remote.rules) == Reviewers(base.rules)
  {
    hide Protected, Present, OtherRules, Reviewers, CloseRulesets, RestoreReviewerRules, VerifyProtection, RestoredBody,
         ClosedBody, WithActor;
    var snap := w.snapshots[w.marker.value];
    var list := snap.rulesets;
    var start := w.remote.rulesets;
    assert TouchedIds(list, 0) == {};
    assert Closed(start, base.rulesets, list, 0, {}, actor) == start;
    ClosesAll(reply, w.calls, start, start, base.rulesets, list, 0, {}, {}, actor);
    var first := CloseWindow(reply, w, snap);
    forall id | id in base.rulesets
      ensures first.live[id]
              == RestoredBody(base.rulesets[id], id in TouchedIds(list, |list|), id in first.stale, actor)
    {
      ClosingAnOpenedBody(base.rulesets[id], id in first.stale, actor);
      UntouchedBodyStays(base.rulesets[id], id in first.stale, actor);
    }
    OtherRulesHaveNoReviewers(base.rules);
    RestoresReviewers(reply, first.calls, w.remote.rules, w.remote.nextRule, snap.rules);
    NoReviewerRules([]);
    EmptyDemandsNothing();
  }

  lemma UntouchedBodyStays(base: Ruleset, isStale: bool, actor: Actor)
    ensures RestoredBody(base, false, isStale, actor) == base
  {
  }

  lemma EmptyDemandsNothing()
    ensures Reviewers([]) == []
  {
  }

  /** The restore is exact if and only if it could read every ruleset it closed and none of them had
      listed the actor before the window. */
  lemma RestoreIsExactIff(reply: Replies, w: World, base: Remote, actor: Actor)
    requires WindowOpen(w, base, actor) && actor.id != 0 && actor.kind != ""
    requires Restore(reply, w, None).1 != Aborted
    ensures Restore(reply, w, None).0.remote.rulesets == base.rulesets <==>
            StaleIds(reply, w) == {}
            && forall id <- TouchedBy(w) :: id in base.rulesets && !Lists(base.rulesets[id], actor)
  {
    hide Protected, Restore, StaleIds, RestoredBody, Lists, Opened, OtherRules;
    RestoreUndoesWindow(reply, w, base, actor);
    var w' := Restore(reply, w, None).0;
    var list := w.snapshots[w.marker.value].rulesets;
    TouchedBodiesAgree(list, base.rulesets);
    forall id | id in base.rulesets
      ensures w'.remote.rulesets[id] == base.rulesets[id] <==>
              id !in TouchedBy(w) || (id !in StaleIds(reply, w) && !Lists(base.rulesets[id], actor))
    {
      if id in TouchedBy(w) {
        RestoredBodyIsBaseIff(base.rulesets[id], id in StaleIds(reply, w), actor);
      } else {
        UntouchedBodyStays(base.rulesets[id], id in StaleIds(reply, w), actor);
      }
    }
    if w'.remote.rulesets == base.rulesets {
      assert forall id <- TouchedBy(w) :: id in base.rulesets && w'.remote.rulesets[id] == base.rulesets[id];
    }
  }

  lemma ListedWhenPresent(base: Ruleset, actor: Actor)
    requires Present(base.bypass, actor).Some?
    ensures Present(base.bypass, actor) == Some(Lists(base, actor))
  {
    PresentMeansListed(base.bypass, actor);
    if Present(base.bypass, actor).value {
      assert Present(base.bypass, actor) == Some(true);
    } else {
      assert Present(base.bypass, actor) == Some(false);
    }
  }

  lemma RestoredBodyIsBaseIff(base: Ruleset, isStale: bool, actor: Actor)
    requires Present(base.bypass, actor).Some?
    ensures RestoredBody(base, true, isStale, actor) == base <==> !isStale && !Lists(base, actor)
  {
    ListedWhenPresent(base, actor);
    AddThenRemove(base, actor);
    if Lists(base, actor) {
      WithoutRemovesAll(base.bypass, actor);
      var e :| e in base.bypass && IsFor(e, actor);
      assert e !in Without(base.bypass, actor);
    } else {
      assert |WithActor(base, actor).bypass| == |base.bypass| + 1;
    }
  }

  /** The actor is still listed on a ruleset after the restore exactly when it had been listed there and the
      window never touched it, or the live read failed and it had not been listed. */
  lemma ActorRemainsIff(reply: Replies, w: World, base: Remote, actor: Actor, id: int)
    requires WindowOpen(w, base, actor) && actor.id != 0 && actor.kind != ""
    requires Restore(reply, w, None).1 != Aborted && id in base.rulesets
    ensures id in Restore(reply, w, None).0.remote.rulesets
    ensures Lists(Restore(reply, w, None).0.remote.rulesets[id], actor) <==>
            if Lists(base.rulesets[id], actor) then id !in TouchedBy(w) else id in StaleIds(reply, w)
  {
    hide Protected, Restore, StaleIds, RestoredBody, Lists, Opened, OtherRules;
    RestoreUndoesWindow(reply, w, base, actor);
    TouchedBodiesAgree(w.snapshots[w.marker.value].rulesets, base.rulesets);
    if id in TouchedBy(w) {
      RestoredBodyListsIff(base.rulesets[id], id in StaleIds(reply, w), actor);
    } else {
      UntouchedBodyStays(base.rulesets[id], id in StaleIds(reply, w), actor);
    }
  }

  lemma RestoredBodyListsIff(base: Ruleset, isStale: bool, actor: Actor)
    requires Present(base.bypass, actor).Some?
    ensures Lists(RestoredBody(base, true, isStale, actor), actor) <==> isStale && !Lists(base, actor)
  {
    ListedWhenPresent(base, actor);
    WithoutRemovesAll(base.bypass, actor);
    if isStale && !Lists(base, actor) {
      var opening := WithActor(base, actor).bypass;
      assert opening[|base.bypass|] == AutomationEntry(actor) && IsFor(AutomationEntry(actor), actor);
    } else {
      assert RestoredBody(base, true, isStale, actor) == WithoutActor(base, actor);
    }
  }

  /** A recorded id of zero or an empty type switches the removal off: the opened rulesets stay as they are. */
  lemma ZeroActorIsNeverRemoved(reply: Replies, w: World, base: Remote, actor: Actor)
    requires WindowOpen(w, base, actor) && (actor.id == 0 || actor.kind == "")
    ensures Restore(reply, w, None).0.remote.rulesets == w.remote.rulesets
  {
    hide Protected, RestoreReviewerRules, VerifyProtection, Opened, OtherRules;
  }

  /** An `enable` that stopped halfway recorded no actor, so a later `restore` takes it off no ruleset. */
  lemma AbortedEnableKeepsActor(
    reply: Replies, w: World, actor: Actor, minutes: int, confirmed: bool, later: Replies)
    requires ValidWorld(w) && w.marker.None?
    requires !Enable(reply, w, actor, minutes, confirmed, false).1
    requires Enable(reply, w, actor, minutes, confirmed, false).0.snapshots != w.snapshots
    ensures var w' := Enable(reply, w, actor, minutes, confirmed, false).0;
            Restore(later, w', None).0.remote.rulesets == w'.remote.rulesets
  {
    hide Enable, Protected, RestoreReviewerRules, VerifyProtection, Opened, Remaining;
    var snap, k, m := EnableWritesAhead(reply, w, actor, minutes, confirmed, false);
    var w' := Enable(reply, w, actor, minutes, confirmed, false).0;
    assert w.clock in w'.snapshots;
    var latest := Latest(w'.snapshots);
    assert latest == w.clock;
  }

  /** The first guarded ruleset that does not list the actor yet, with nothing unreadable before it or on it. */
  predicate FirstToOpen(list: seq<Numbered>, j: nat, actor: Actor) {
    && j < |list| && Protected(list[j].body) && Present(list[j].body.bypass, actor) == Some(false)
    && forall l :: 0 <= l < j && Protected(list[l].body) ==> Present(list[l].body.bypass, actor) == Some(true)
  }

  /** Its PUT is the first call after the snapshot, and it takes effect unless it is refused. */
  ghost predicate FirstPutTakesEffect(reply: Replies, calls: nat, list: seq<Numbered>, actor: Actor) {
    (exists j: nat :: FirstToOpen(list, j, actor)) && !reply(calls).Refused?
  }

  lemma OpenedAlready(base: map<int, Ruleset>, list: seq<Numbered>, i: nat, actor: Actor)
    requires i <= |list| && Agree(list, base)
    requires forall l :: 0 <= l < i && Protected(list[l].body) ==> Present(list[l].body.bypass, actor) == Some(true)
    ensures Opened(base, list, i, actor) == base
    ensures forall id <- TouchedIds(list, i) :: id in base && Present(base[id].bypass, actor) == Some(true)
  {
    hide Protected, Present;
    forall id | id in TouchedIds(list, i) ensures id in base && Present(base[id].bypass, actor) == Some(true) {
      var l :| 0 <= l < i && Protected(list[l].body) && list[l].id == id;
      assert list[l] in list;
    }
  }

  lemma {:induction false} FirstPutDecides(
    reply: Replies, calls: nat, base: map<int, Ruleset>, list: seq<Numbered>, i: nat, seen: set<int>, touched: seq<int>,
    actor: Actor)
    requires i <= |list| && Agree(list, base) && seen == TouchedIds(list, i)
    requires forall l :: 0 <= l < i && Protected(list[l].body) ==> Present(list[l].body.bypass, actor) == Some(true)
    ensures OpenRulesets(reply, calls, base, list, i, seen, touched, actor).live != base
            <==> FirstPutTakesEffect(reply, calls, list, actor)
    decreases |list| - i
  {
    hide Protected, Present;
    if i < |list| {
      var r := list[i];
      assert r in list;
      OpenedAlready(base, list, i, actor);
      TouchedNext(list, i);
      if r.id in seen || !Protected(r.body) {
        FirstPutDecides(reply, calls, base, list, i + 1, seen, touched, actor);
      } else if Present(r.body.bypass, actor) == Some(true) {
        FirstPutDecides(reply, calls, base, list, i + 1, seen + {r.id}, touched + [r.id], actor);
      } else if Present(r.body.bypass, actor) == Some(false) {
        assert FirstToOpen(list, i, actor);
        AddedActorShows(base, reply, calls, list, i, touched, actor);
      }
    }
  }

  /** Once the first PUT has taken effect the rulesets differ, whatever follows. */
  lemma AddedActorShows(
    base: map<int, Ruleset>, reply: Replies, calls: nat, list: seq<Numbered>, i: nat, touched: seq<int>, actor: Actor)
    requires FirstToOpen(list, i, actor) && Agree(list, base) && list[i].id !in TouchedIds(list, i)
    ensures OpenRulesets(reply, calls, base, list, i, TouchedIds(list, i), touched, actor).live != base
            <==> !reply(calls).Refused?
  {
    hide Protected, Present;
    var r := list[i];
    assert r in list;
    OpenedAlready(base, list, i, actor);
    TouchedNext(list, i);
    OpenedNext(base, list, i, actor);
    var added := r.body.(bypass := r.body.bypass + [AutomationEntry(actor)]);
    assert |added.bypass| == |r.body.bypass| + 1;
    if reply(calls).Done? {
      var k := OpensPrefix(reply, calls + 1, base[r.id := added], base, list, i + 1, TouchedIds(list, i + 1),
                           touched + [r.id], actor);
      assert r.id in TouchedIds(list, k);
    }
  }

  /** After an `enable` that stopped halfway, `restore` gives the rulesets back if and only if nothing was to be opened
      or the very first PUT was refused. */
  lemma AbortedEnableIsUndoneIff(
    reply: Replies, w: World, actor: Actor, minutes: int, confirmed: bool, later: Replies)
    requires ValidWorld(w) && w.marker.None?
    requires !Enable(reply, w, actor, minutes, confirmed, false).1
    requires Enable(reply, w, actor, minutes, confirmed, false).0.snapshots != w.snapshots
    ensures var w' := Enable(reply, w, actor, minutes, confirmed, false).0;
            var (snap, n) := BuildSnapshot(reply, w.remote, w.calls);
            && snap.Some?
            && (Restore(later, w', None).0.remote.rulesets == w.remote.rulesets
                <==> !FirstPutTakesEffect(reply, w.calls + n, snap.value.rulesets, actor))
  {
    hide Protected, Present, BuildSnapshot, SupportsBypass, OpenRulesets, DeleteReviewerRules, EnsureAutomationEnv,
         Restore, FirstPutTakesEffect;
    AbortedEnableKeepsActor(reply, w, actor, minutes, confirmed, later);
    SnapshotIsFaithful(reply, w.remote, w.calls);
    var (snap, n) := BuildSnapshot(reply, w.remote, w.calls);
    var list := snap.value.rulesets;
    OpenedNothing(w.remote.rulesets, list, actor);
    FirstPutDecides(reply, w.calls + n, w.remote.rulesets, list, 0, {}, [], actor);
  }

  /** With every call answered and no unreadable entry or empty reviewer rule in the way, a restore runs to
      its end, so the lemmas above speak about something. */
  lemma RestoreRunsToItsEnd(reply: Replies, w: World, base: Remote, actor: Actor)
    requires WindowOpen(w, base, actor)
    requires forall n :: n >= w.calls ==> reply(n).Done?
    requires forall id <- w.remote.rulesets :: Readable(w.remote.rulesets[id].bypass)
    requires forall r <- base.rules :: IsReviewerRule(r) ==> r.reviewers.Some? && r.reviewers.value != []
    ensures Restore(reply, w, None).1 != Aborted
    ensures actor.id != 0 && actor.kind != "" ==> StaleIds(reply, w) == {}
  {
    hide Protected, Present, OtherRules, CloseRulesets, RecreateReviewerRules, VerifyProtection, IsReviewerRule,
         Readable, Reviewers;
    var snap := w.snapshots[w.marker.value];
    var start := w.remote.rulesets;
    assert TouchedIds(snap.rulesets, 0) == {};
    assert Closed(start, base.rulesets, snap.rulesets, 0, {}, actor) == start;
    ClosesAll(reply, w.calls, start, start, base.rulesets, snap.rulesets, 0, {}, {}, actor);
    var first := CloseWindow(reply, w, snap);
    RecreatesWithoutFailure(reply, first.calls + 1, w.remote.rules, w.remote.nextRule, snap.rules, 0);
  }

  lemma {:induction false} RecreatesWithoutFailure(
    reply: Replies, calls: nat, rules: seq<DeployRule>, nextRule: int, list: seq<DeployRule>, i: nat)
    requires i <= |list|
    requires forall n :: n >= calls ==> reply(n).Done?
    requires forall r <- list :: IsReviewerRule(r) ==> r.reviewers.Some? && r.reviewers.value != []
    ensures RecreateReviewerRules(reply, calls, rules, nextRule, list, i).ok
    decreases |list| - i
  {
    hide IsReviewerRule;
    if i < |list| {
      var r := list[i];
      assert r in list;
      if !IsReviewerRule(r) {
        RecreatesWithoutFailure(reply, calls, rules, nextRule, list, i + 1);
      } else {
        RecreatesWithoutFailure(reply, calls + 1, rules + [DeployRule(nextRule, "required_reviewers", r.reviewers)],
                                nextRule + 1, list, i + 1);
      }
    }
  }
}
