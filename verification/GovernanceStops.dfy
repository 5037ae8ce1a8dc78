/** Where a restore can stop, what it leaves then, and what a second one makes of it; and what a completed enable
    records. */
module GovernanceStops {
  import opened Options
  import opened Sequences
  import opened GovernanceModel
  import opened GovernanceCommands
  import opened GovernanceWriteAhead
  import opened GovernanceRoundTrip

  /// The two loops of restore

  /** Wherever closing stops, a prefix of the listed rulesets is closed and the others are as they were. */
  lemma {:induction false} ClosesPrefix(
    reply: Replies, calls: nat, live: map<int, Ruleset>, start: map<int, Ruleset>, base: map<int, Ruleset>,
    list: seq<Numbered>, i: nat, seen: set<int>, stale: set<int>, actor: Actor) returns (k: nat)
    requires i <= |list| && Agree(list, base) && start.Keys == base.Keys
    requires seen == TouchedIds(list, i) && stale <= seen && live == Closed(start, base, list, i, stale, actor)
    ensures i <= k <= |list|
    ensures var p := CloseRulesets(reply, calls, live, list, i, seen, stale, actor);
            p.live == Closed(start, base, list, k, p.stale, actor) && (p.ok ==> k == |list|)
    decreases |list| - i
  {
    hide Protected, Present, WithoutActor, ClosedBody, Readable, RemoveBypass, Closed, TouchedIds;
    k := i;
    if i < |list| {
      var r := list[i];
      assert r in list;
      TouchedNext(list, i);
      var readable := reply(calls).Done? && r.id in live;
      var newStale := if readable then stale else stale + {r.id};
      ClosedNext(start, base, list, i, stale, newStale, actor);
      if r.id in seen || !Protected(r.body) {
        k := ClosesPrefix(reply, calls, live, start, base, list, i + 1, seen, stale, actor);
      } else {
        var target := if readable then live[r.id] else r.body;
        var (next, ok, n) := RemoveBypass(reply(calls + 1), live, r.id, target, actor);
        RemovalFilters(reply(calls + 1), live, r.id, target, actor);
        ClosedBodyByCase(live[r.id], r.body, !readable, actor);
        assert live[r.id := live[r.id]] == live;
        if ok {
          k := ClosesPrefix(reply, calls + 1 + n, next, start, base, list, i + 1, seen + {r.id}, newStale, actor);
        } else {
          RemovalStops(reply(calls + 1), live, r.id, target, actor);
          UnseenStale(start, base, list, i, stale, newStale, actor);
          k := if next == live then i else i + 1;
        }
      }
    }
  }

  lemma RemovalStops(answer: Reply, live: map<int, Ruleset>, id: int, target: Ruleset, actor: Actor)
    requires id in live && !RemoveBypass(answer, live, id, target, actor).1
    ensures var next := RemoveBypass(answer, live, id, target, actor).0;
            next == live
            || (next == live[id := WithoutActor(target, actor)] && Present(target.bypass, actor) == Some(true))
  {
    hide Present, Without, Readable;
  }

  lemma UnseenStale(
    start: map<int, Ruleset>, base: map<int, Ruleset>, list: seq<Numbered>, i: nat, stale: set<int>, newStale: set<int>,
    actor: Actor)
    requires i < |list| && list[i].id !in TouchedIds(list, i) && (newStale == stale || newStale == stale + {list[i].id})
    ensures Closed(start, base, list, i, newStale, actor) == Closed(start, base, list, i, stale, actor)
  {
    hide ClosedBody, TouchedIds;
  }

  /** Wherever recreating stops, the demands of a prefix of the recorded rules have been added after what was there, and
      the other rules stand. */
  lemma {:induction false} RecreatesPrefix(
    reply: Replies, calls: nat, rules: seq<DeployRule>, nextRule: int, list: seq<DeployRule>, i: nat) returns (k: nat)
    requires i <= |list|
    ensures i <= k <= |list|
    ensures var p := RecreateReviewerRules(reply, calls, rules, nextRule, list, i);
            && OtherRules(p.rules) == OtherRules(rules)
            && Reviewers(p.rules) == Reviewers(rules) + Reviewers(list[i..k])
            && (p.ok ==> k == |list|)
    decreases |list| - i
  {
    hide IsReviewerRule, OtherRules, Reviewers;
    k := i;
    NoDemands();
    assert list[i..i] == [];
    assert Reviewers(rules) + [] == Reviewers(rules);
    if i < |list| {
      if !IsReviewerRule(list[i]) {
        k := RecreatesPrefix(reply, calls, rules, nextRule, list, i + 1);
        OneMoreDemand(list, i, k);
        assert [] + Reviewers(list[i + 1..k]) == Reviewers(list[i + 1..k]);
      } else if list[i].reviewers.Some? && list[i].reviewers.value != [] {
        var posted := rules + [DeployRule(nextRule, "required_reviewers", list[i].reviewers)];
        RulePosted(rules, nextRule, list[i].reviewers);
        if reply(calls).Done? {
          k := RecreatesPrefix(reply, calls + 1, posted, nextRule + 1, list, i + 1);
          OneMoreDemand(list, i, k);
          Regroup(Reviewers(rules), [list[i].reviewers], Reviewers(list[i + 1..k]));
        } else if reply(calls).Lost? {
          k := i + 1;
          OneMoreDemand(list, i, k);
          assert list[i + 1..k] == [];
          assert [list[i].reviewers] + [] == [list[i].reviewers];
        }
      }
    }
  }

  lemma NoDemands()
    ensures Reviewers([]) == []
  {
  }

  lemma OneMoreDemand(list: seq<DeployRule>, i: nat, k: nat)
    requires i < k <= |list|
    ensures Reviewers(list[i..k]) ==
            (if IsReviewerRule(list[i]) then [list[i].reviewers] else []) + Reviewers(list[i + 1..k])
  {
    hide IsReviewerRule;
    assert list[i..k][1..] == list[i + 1..k];
  }

  /// A restore that stops

  /** A restore that aborts keeps the marker and the files; one that runs to its end removes the marker and keeps the
      files. */
  lemma RestoreMarks(reply: Replies, w: World, path: Option<nat>)
    ensures var (w', outcome) := Restore(reply, w, path);
            && w'.snapshots == w.snapshots && w'.clock == w.clock
            && w'.marker == if outcome == Aborted then w.marker else None
  {
    hide LoadSnapshot, CloseWindow, RestoreReviewerRules, VerifyProtection;
  }

  /** What a restore of an open window leaves where it aborts: a prefix of the rulesets closed and, once all are, the
      demands of a prefix of the recorded rules recreated after the live ones; the marker still points to the file. */
  lemma AbortedRestoreIsPartial(reply: Replies, w: World, base: Remote, actor: Actor) returns (k: nat, m: nat)
    requires WindowOpen(w, base, actor) && actor.id != 0 && actor.kind != ""
    requires Restore(reply, w, None).1 == Aborted
    ensures var w' := Restore(reply, w, None).0;
            var snap := w.snapshots[w.marker.value];
            && w'.marker == w.marker && w'.snapshots == w.snapshots
            && k <= |snap.rulesets| && m <= |snap.rules| && (m > 0 ==> k == |snap.rulesets|)
            && w'.remote.rulesets
               == Closed(w.remote.rulesets, base.rulesets, snap.rulesets, k, StaleIds(reply, w), actor)
            && OtherRules(w'.remote.rules) == OtherRules(w.remote.rules)
            && Reviewers(w'.remote.rules) == Reviewers(w.remote.rules) + Reviewers(snap.rules[..m])
  {
    hide Protected, Present, OtherRules, Reviewers, CloseRulesets, RecreateReviewerRules, VerifyProtection, Closed,
         IsReviewerRule, TouchedIds;
    var snap := w.snapshots[w.marker.value];
    var start := w.remote.rulesets;
    NothingTouched(start, base.rulesets, snap.rulesets, actor);
    k := ClosesPrefix(reply, w.calls, start, start, base.rulesets, snap.rulesets, 0, {}, {}, actor);
    var first := CloseWindow(reply, w, snap);
    m := 0;
    NoDemands();
    assert snap.rules[..0] == [] && Reviewers(w.remote.rules) + [] == Reviewers(w.remote.rules);
    if first.ok {
      m := RecreatesPrefix(reply, first.calls + 1, w.remote.rules, w.remote.nextRule, snap.rules, 0);
      assert snap.rules[0..m] == snap.rules[..m];
    }
  }

  lemma NothingTouched(start: map<int, Ruleset>, base: map<int, Ruleset>, list: seq<Numbered>, actor: Actor)
    ensures TouchedIds(list, 0) == {} && Closed(start, base, list, 0, {}, actor) == start
  {
    assert TouchedIds(list, 0) == {};
  }

  /** The next restore that can read the rules recreates nothing beside live demands: after a restore that stopped
      between two of several reviewer rules, the later ones never come back. */
  lemma SecondRestoreLeavesPartial(reply: Replies, w: World, path: Option<nat>)
    requires Reviewers(w.remote.rules) != [] && Restore(reply, w, path).1 != Aborted
    requires LoadSnapshot(w, path).Some? && reply(CloseWindow(reply, w, LoadSnapshot(w, path).value).calls).Done?
    ensures Restore(reply, w, path).0.remote.rules == w.remote.rules
  {
    hide LoadSnapshot, CloseWindow, VerifyProtection, IsReviewerRule;
    var snap := LoadSnapshot(w, path).value;
    RestoresReviewers(reply, CloseWindow(reply, w, snap).calls, w.remote.rules, w.remote.nextRule, snap.rules);
  }

  /** So after an aborted restore of a window without live demands, the next one that reads the rules brings all
      recorded demands back if the first had recreated none, and otherwise leaves it at those. */
  lemma RetryLeavesPartial(reply: Replies, w: World, base: Remote, actor: Actor, later: Replies)
    requires WindowOpen(w, base, actor) && Restore(reply, w, None).1 == Aborted
    requires var w' := Restore(reply, w, None).0;
             && Restore(later, w', None).1 != Aborted
             && later(CloseWindow(later, w', w.snapshots[w.marker.value]).calls).Done?
    ensures var recreated := Reviewers(Restore(reply, w, None).0.remote.rules);
            Reviewers(Restore(later, Restore(reply, w, None).0, None).0.remote.rules) ==
            if recreated == [] then Reviewers(w.snapshots[w.marker.value].rules) else recreated
  {
    hide Restore, CloseWindow, VerifyProtection, IsReviewerRule, Reviewers, OtherRules, Opened;
    var w' := Restore(reply, w, None).0;
    RestoreMarks(reply, w, None);
    MarkedFile(w');
    if Reviewers(w'.remote.rules) != [] {
      SecondRestoreLeavesPartial(later, w', None);
    } else {
      RestoreRecreates(later, w', w.snapshots[w.marker.value]);
    }
  }

  lemma MarkedFile(w: World)
    requires w.marker.Some? && w.marker.value in w.snapshots
    ensures LoadSnapshot(w, None) == Some(w.snapshots[w.marker.value])
  {
  }

  lemma RestoreRecreates(reply: Replies, w: World, snap: Snapshot)
    requires LoadSnapshot(w, None) == Some(snap) && Reviewers(w.remote.rules) == []
             && Restore(reply, w, None).1 != Aborted
    ensures Reviewers(Restore(reply, w, None).0.remote.rules) == Reviewers(snap.rules)
  {
    hide LoadSnapshot, CloseWindow, VerifyProtection, RestoreReviewerRules, IsReviewerRule, Reviewers;
    RestoresReviewers(reply, CloseWindow(reply, w, snap).calls, w.remote.rules, w.remote.nextRule, snap.rules);
  }

  /// Which file is restored

  /** Without any file, or with a named file that is not there, restore changes nothing. */
  lemma NothingToRestore(reply: Replies, w: World, path: Option<nat>)
    requires if path.Some? then path.value !in w.snapshots else w.snapshots == map[]
    ensures Restore(reply, w, path) == (w, Aborted)
  {
    hide CloseWindow, RestoreReviewerRules, VerifyProtection;
  }

  /** Unless one is named, it restores the file that the marker points to, and the newest if there is none such. */
  lemma UnnamedRestore(reply: Replies, w: World) returns (p: nat)
    requires w.snapshots != map[]
    ensures p in w.snapshots && Restore(reply, w, None) == Restore(reply, w, Some(p))
    ensures if w.marker.Some? && w.marker.value in w.snapshots then p == w.marker.value
            else forall q <- w.snapshots :: q <= p
  {
    hide CloseWindow, RestoreReviewerRules, VerifyProtection, Latest;
    p := if w.marker.Some? && w.marker.value in w.snapshots then w.marker.value else Latest(w.snapshots);
  }

  /** A restore looks at no other file than the named one, and not at the marker. */
  lemma NamedRestore(reply: Replies, w: World, p: nat, marker: Option<nat>)
    requires p in w.snapshots
    ensures var (w', outcome) := Restore(reply, w, Some(p));
            var (alone, outcome') := Restore(reply, w.(snapshots := map[p := w.snapshots[p]], marker := marker),
                                             Some(p));
            alone.remote == w'.remote && alone.calls == w'.calls && outcome' == outcome
  {
    hide CloseRulesets, RestoreReviewerRules, VerifyProtection;
  }

  /// What a completed enable records

  /** Every guarded ruleset of the list is touched, each once. */
  lemma {:induction false} OpeningListsTouched(
    reply: Replies, calls: nat, live: map<int, Ruleset>, list: seq<Numbered>, i: nat, seen: set<int>, touched: seq<int>,
    actor: Actor)
    requires i <= |list| && (forall id :: id in seen <==> id in touched)
    requires forall a, b :: 0 <= a < b < |touched| ==> touched[a] != touched[b]
    ensures var p := OpenRulesets(reply, calls, live, list, i, seen, touched, actor);
            p.ok ==>
              && (forall id ::
                    id in p.ids
                    <==> id in touched || exists j :: i <= j < |list| && Protected(list[j].body) && list[j].id == id)
              && (forall a, b :: 0 <= a < b < |p.ids| ==> p.ids[a] != p.ids[b])
    decreases |list| - i
  {
    hide Protected, Present, PutRuleset;
    if i < |list| {
      var r := list[i];
      if r.id in seen || !Protected(r.body) {
        OpeningListsTouched(reply, calls, live, list, i + 1, seen, touched, actor);
      } else if Present(r.body.bypass, actor) == Some(true) {
        OpeningListsTouched(reply, calls, live, list, i + 1, seen + {r.id}, touched + [r.id], actor);
      } else if Present(r.body.bypass, actor) == Some(false) {
        var (next, ok) := PutRuleset(reply(calls), live, r.id,
                                     r.body.(bypass := r.body.bypass + [AutomationEntry(actor)]));
        OpeningListsTouched(reply, calls + 1, next, list, i + 1, seen + {r.id}, touched + [r.id], actor);
      }
    }
  }

  function ReviewerIds(rules: seq<DeployRule>): seq<int> {
    if rules == [] then []
    else ReviewerIds(rules[..|rules| - 1])
         + if IsReviewerRule(rules[|rules| - 1]) then [rules[|rules| - 1].id] else []
  }

  lemma {:induction false} DeletingListsIds(
    reply: Replies, calls: nat, rules: seq<DeployRule>, list: seq<DeployRule>, i: nat, deleted: seq<int>)
    requires i <= |list| && deleted == ReviewerIds(list[..i])
    ensures var p := DeleteReviewerRules(reply, calls, rules, list, i, deleted); p.ok ==> p.ids == ReviewerIds(list)
    decreases |list| - i
  {
    hide IsReviewerRule;
    if i < |list| {
      assert list[..i + 1][..i] == list[..i];
      assert ReviewerIds(list[..i]) + [] == ReviewerIds(list[..i]);
      if !IsReviewerRule(list[i]) {
        DeletingListsIds(reply, calls, rules, list, i + 1, deleted);
      } else {
        var (next, ok) := DeleteRule(reply(calls), rules, list[i].id);
        DeletingListsIds(reply, calls + 1, next, list, i + 1, deleted + [list[i].id]);
      }
    } else {
      assert list[..i] == list;
    }
  }

  /** The file names the actor, the guarded rulesets it holds, each once, and its reviewer rules in order. */
  ghost predicate RecordsWindow(file: Snapshot, actor: Actor) {
    file.window.Some? &&
    var state := file.window.value;
    && state.actor == actor
    && (forall id :: id in state.touched <==> exists r <- file.rulesets :: Protected(r.body) && r.id == id)
    && (forall a, b :: 0 <= a < b < |state.touched| ==> state.touched[a] != state.touched[b])
    && state.deleted == ReviewerIds(file.rules)
  }

  lemma WindowRecords(reply: Replies, w: World, path: nat, snap: Snapshot, actor: Actor)
    requires OpenWindow(reply, w, path, snap, actor).1
    ensures var w' := OpenWindow(reply, w, path, snap, actor).0;
            && path in w'.snapshots && RecordsWindow(w'.snapshots[path], actor)
            && (w.remote.automationEnv ==> w'.remote.automationEnv)
  {
    hide Protected, OpenRulesets, DeleteReviewerRules, ReviewerIds;
    OpeningListsTouched(reply, w.calls, w.remote.rulesets, snap.rulesets, 0, {}, [], actor);
    var first := OpenRulesets(reply, w.calls, w.remote.rulesets, snap.rulesets, 0, {}, [], actor);
    NoReviewerIds(snap.rules);
    DeletingListsIds(reply, first.calls, w.remote.rules, snap.rules, 0, []);
  }

  lemma NoReviewerIds(list: seq<DeployRule>)
    ensures ReviewerIds(list[..0]) == []
  {
  }

  /** A completed enable records the actor, the guarded rulesets of the snapshot, each once, and the ids of its reviewer
      rules in order; it never loses the automation environment. */
  lemma EnableRecords(reply: Replies, w: World, actor: Actor, minutes: int, confirmed: bool, force: bool)
    requires Enable(reply, w, actor, minutes, confirmed, force).1
    ensures var w' := Enable(reply, w, actor, minutes, confirmed, force).0;
            && w'.marker == Some(w.clock) && w.clock in w'.snapshots && RecordsWindow(w'.snapshots[w.clock], actor)
            && (w.remote.automationEnv ==> w'.remote.automationEnv)
  {
    hide BuildSnapshot, SupportsBypass, OpenRulesets, DeleteReviewerRules, EnsureAutomationEnv, RecordsWindow;
    var (snapshot, n) := BuildSnapshot(reply, w.remote, w.calls);
    WindowRecords(reply, WriteSnapshot(w.(calls := w.calls + n), snapshot.value), w.clock, snapshot.value, actor);
  }

  /** With every call answered, a completed enable leaves the automation environment in place. */
  lemma EnvironmentIsMade(reply: Replies, w: World, actor: Actor, minutes: int, confirmed: bool, force: bool)
    requires Enable(reply, w, actor, minutes, confirmed, force).1 && forall n :: reply(n).Done?
    ensures Enable(reply, w, actor, minutes, confirmed, force).0.remote.automationEnv
  {
    hide BuildSnapshot, SupportsBypass, OpenRulesets, DeleteReviewerRules;
  }
}
