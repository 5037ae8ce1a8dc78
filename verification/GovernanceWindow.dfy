/** The tool itself: an object over the three stores whose commands make their remote calls one by one. */
module GovernanceWindow {
  import opened Options
  import opened Sequences
  import opened GovernanceModel
  import opened GovernanceCommands

  lemma ReadEachNext(reply: Replies, rulesets: map<int, Ruleset>, ids: seq<int>, i: nat, calls: nat)
    requires i < |ids|
    ensures ReadEach(reply, rulesets, ids[i..], calls) ==
            (if reply(calls).Done? && ids[i] in rulesets then [Numbered(ids[i], rulesets[ids[i]])] else [])
            + ReadEach(reply, rulesets, ids[i + 1..], calls + 1)
  {
    assert ids[i..][1..] == ids[i + 1..];
  }

  lemma ReadEachOfNothing(reply: Replies, rulesets: map<int, Ruleset>, ids: seq<int>, calls: nat)
    requires ids == []
    ensures ReadEach(reply, rulesets, ids, calls) == []
  {
  }

  class Tool {
    const reply: Replies
    const listing: seq<int>
    var rulesets: map<int, Ruleset>
    var rules: seq<DeployRule>
    var nextRule: int
    var automationEnv: bool
    var snapshots: map<nat, Snapshot>
    var marker: Option<nat>
    var clock: nat
    var calls: nat

    constructor (reply: Replies, w: World)
      ensures this.reply == reply && View() == w
    {
      this.reply := reply;
      listing := w.remote.listing;
      rulesets, rules := w.remote.rulesets, w.remote.rules;
      nextRule, automationEnv := w.remote.nextRule, w.remote.automationEnv;
      snapshots, marker, clock, calls := w.snapshots, w.marker, w.clock, w.calls;
    }

    function View(): World
      reads this
    {
      World(Remote(listing, rulesets, rules, nextRule, automationEnv), snapshots, marker, clock, calls)
    }

    method Call() returns (answer: Reply)
      modifies `calls
      ensures answer == reply(old(calls)) && calls == old(calls) + 1
    {
      answer := reply(calls);
      calls := calls + 1;
    }

    method FetchRulesets() returns (list: Option<seq<Numbered>>)
      modifies `calls
      ensures list == ReadRulesets(reply, View().remote, old(calls))
      ensures calls == old(calls) + CallsToReadRulesets(reply, View().remote, old(calls))
    {
      hide ReadEach;
      var answer := Call();
      if !answer.Done? {
        return None;
      }
      var bodies: seq<Numbered> := [];
      assert listing[0..] == listing;
      for i := 0 to |listing|
        invariant calls == old(calls) + 1 + i
        invariant bodies + ReadEach(reply, rulesets, listing[i..], calls)
                  == ReadEach(reply, rulesets, listing, old(calls) + 1)
      {
        ghost var rest := ReadEach(reply, rulesets, listing[i + 1..], calls + 1);
        ReadEachNext(reply, rulesets, listing, i, calls);
        answer := Call();
        if answer.Done? && listing[i] in rulesets {
          Regroup(bodies, [Numbered(listing[i], rulesets[listing[i]])], rest);
          bodies := bodies + [Numbered(listing[i], rulesets[listing[i]])];
        }
      }
      ReadEachOfNothing(reply, rulesets, listing[|listing|..], calls);
      assert bodies == ReadEach(reply, rulesets, listing, old(calls) + 1);
      return Some(bodies);
    }

    method FetchDeploymentRules() returns (list: seq<DeployRule>)
      modifies `calls
      ensures list == ReadRules(reply(old(calls)), rules) && calls == old(calls) + 1
    {
      var answer := Call();
      list := if answer.Done? then rules else [];
    }

    method TakeSnapshot() returns (snap: Option<Snapshot>)
      modifies `calls
      ensures snap == BuildSnapshot(reply, View().remote, old(calls)).0
      ensures calls == old(calls) + BuildSnapshot(reply, View().remote, old(calls)).1
    {
      var list := FetchRulesets();
      calls := calls + 3;
      var current := FetchDeploymentRules();
      calls := calls + 1;
      if list.None? {
        return None;
      }
      return Some(Snapshot(list.value, current, None));
    }

    method UpdateRuleset(id: int, body: Ruleset) returns (ok: bool)
      modifies `calls, `rulesets
      ensures (rulesets, ok) == PutRuleset(reply(old(calls)), old(rulesets), id, body) && calls == old(calls) + 1
    {
      var answer := Call();
      ok := id in rulesets && answer.Done?;
      if id in rulesets && !answer.Refused? {
        rulesets := rulesets[id := body];
      }
    }

    method EnableRulesetBypasses(list: seq<Numbered>, actor: Actor) returns (ok: bool, touched: seq<int>)
      modifies `calls, `rulesets
      ensures Opening(rulesets, calls, ok, touched)
              == OpenRulesets(reply, old(calls), old(rulesets), list, 0, {}, [], actor)
    {
      hide Protected, Present;
      touched := [];
      var seen: set<int> := {};
      for i := 0 to |list|
        invariant OpenRulesets(reply, old(calls), old(rulesets), list, 0, {}, [], actor)
                  == OpenRulesets(reply, calls, rulesets, list, i, seen, touched, actor)
      {
        var r := list[i];
        if r.id in seen || !Protected(r.body) {
          continue;
        }
        var present := Present(r.body.bypass, actor);
        if present.None? {
          return false, touched;
        }
        if present == Some(false) {
          var updated := UpdateRuleset(r.id, r.body.(bypass := r.body.bypass + [AutomationEntry(actor)]));
          if !updated {
            return false, touched;
          }
        }
        seen, touched := seen + {r.id}, touched + [r.id];
      }
      ok := true;
    }

    method DeleteProductionRequiredReviewers(list: seq<DeployRule>) returns (ok: bool, deleted: seq<int>)
      modifies `calls, `rules
      ensures Deleting(rules, calls, ok, deleted) == DeleteReviewerRules(reply, old(calls), old(rules), list, 0, [])
    {
      hide IsReviewerRule;
      deleted := [];
      for i := 0 to |list|
        invariant DeleteReviewerRules(reply, old(calls), old(rules), list, 0, [])
                  == DeleteReviewerRules(reply, calls, rules, list, i, deleted)
      {
        if !IsReviewerRule(list[i]) {
          continue;
        }
        var answer := Call();
        var known := HasRule(rules, list[i].id);
        if known && !answer.Refused? {
          rules := WithoutRule(rules, list[i].id);
        }
        if !known || !answer.Done? {
          return false, deleted;
        }
        deleted := deleted + [list[i].id];
      }
      ok := true;
    }

    method EnsureE2eAutomationEnvironment()
      modifies `calls, `automationEnv
      ensures (automationEnv, calls - old(calls)) == EnsureAutomationEnv(reply, old(calls), old(automationEnv))
    {
      var answer := Call();
      if answer.Done? && automationEnv {
        return;
      }
      answer := Call();
      automationEnv := automationEnv || !answer.Refused?;
      if answer.Done? {
        calls := calls + 1;
      }
    }

    /** What `enable` changes once the snapshot is on disk under `path`. */
    method ApplyWindow(path: nat, snap: Snapshot, actor: Actor) returns (ok: bool)
      modifies this
      ensures (View(), ok) == OpenWindow(reply, old(View()), path, snap, actor)
    {
      hide OpenRulesets, DeleteReviewerRules, EnsureAutomationEnv;
      var added, touched := EnableRulesetBypasses(snap.rulesets, actor);
      if !added {
        return false;
      }
      var removed, deleted := DeleteProductionRequiredReviewers(snap.rules);
      if !removed {
        return false;
      }
      EnsureE2eAutomationEnvironment();
      snapshots := snapshots[path := snap.(window := Some(WindowState(actor, touched, deleted)))];
      marker := Some(path);
      return true;
    }

    method CmdEnable(actor: Actor, minutes: int, confirmed: bool, force: bool) returns (ok: bool)
      modifies this
      ensures (View(), ok) == Enable(reply, old(View()), actor, minutes, confirmed, force)
    {
      hide OpenWindow, BuildSnapshot, SupportsBypass;
      if !confirmed || !(15 <= Ttl(minutes) <= 480) || (marker.Some? && !force) {
        return false;
      }
      var snapshot := TakeSnapshot();
      if snapshot.None? || !SupportsBypass(snapshot.value.rulesets) {
        return false;
      }
      var snap, path := snapshot.value, clock;
      snapshots, clock := snapshots[path := snap], clock + 1;
      ok := ApplyWindow(path, snap, actor);
    }

    method RemoveRulesetBypass(id: int, target: Ruleset, actor: Actor) returns (ok: bool)
      modifies `calls, `rulesets
      ensures (rulesets, ok, calls - old(calls)) == RemoveBypass(reply(old(calls)), old(rulesets), id, target, actor)
    {
      var present := Present(target.bypass, actor);
      if present.None? {
        return false;
      }
      if present == Some(false) {
        return true;
      }
      if !Readable(target.bypass) {
        return false;
      }
      ok := UpdateRuleset(id, WithoutActor(target, actor));
    }

    method RemoveRulesetBypasses(list: seq<Numbered>, actor: Actor) returns (ok: bool, stale: set<int>)
      modifies `calls, `rulesets
      ensures Closing(rulesets, calls, ok, stale)
              == CloseRulesets(reply, old(calls), old(rulesets), list, 0, {}, {}, actor)
    {
      hide Protected, RemoveBypass;
      stale := {};
      var seen: set<int> := {};
      for i := 0 to |list|
        invariant CloseRulesets(reply, old(calls), old(rulesets), list, 0, {}, {}, actor)
                  == CloseRulesets(reply, calls, rulesets, list, i, seen, stale, actor)
      {
        var r := list[i];
        if r.id in seen || !Protected(r.body) {
          continue;
        }
        var answer := Call();
        var target := r.body;
        if answer.Done? && r.id in rulesets {
          target := rulesets[r.id];
        } else {
          stale := stale + {r.id};
        }
        var removed := RemoveRulesetBypass(r.id, target, actor);
        if !removed {
          return false, stale;
        }
        seen := seen + {r.id};
      }
      ok := true;
    }

    method RestoreProductionRequiredReviewers(list: seq<DeployRule>) returns (ok: bool)
      modifies `calls, `rules, `nextRule
      ensures Recreating(rules, nextRule, calls, ok)
              == RestoreReviewerRules(reply, old(calls), old(rules), old(nextRule), list)
    {
      hide IsReviewerRule;
      var current := FetchDeploymentRules();
      if exists r <- current :: IsReviewerRule(r) {
        return true;
      }
      for i := 0 to |list|
        invariant RecreateReviewerRules(reply, old(calls) + 1, old(rules), old(nextRule), list, 0)
                  == RecreateReviewerRules(reply, calls, rules, nextRule, list, i)
      {
        if !IsReviewerRule(list[i]) {
          continue;
        }
        if list[i].reviewers.None? || list[i].reviewers.value == [] {
          return false;
        }
        var answer := Call();
        if !answer.Refused? {
          rules, nextRule := rules + [DeployRule(nextRule, "required_reviewers", list[i].reviewers)], nextRule + 1;
        }
        if !answer.Done? {
          return false;
        }
      }
      return true;
    }

    method Verify() returns (fine: bool)
      modifies `calls
      ensures (fine, calls - old(calls)) == VerifyProtection(reply, View().remote, old(calls))
    {
      hide BranchCovered, IsReviewerRule, ReadRulesets;
      var list := FetchRulesets();
      fine := true;
      if list.Some? && list.value != [] {
        for i := 0 to |PROTECTED_BRANCHES|
          invariant fine == forall j :: 0 <= j < i ==> BranchCovered(list.value, PROTECTED_BRANCHES[j])
        {
          if !BranchCovered(list.value, PROTECTED_BRANCHES[i]) {
            fine := false;
          }
        }
      } else {
        calls := calls + 2;
      }
      var current := FetchDeploymentRules();
      if ReviewerGap(Done, current) {
        fine := false;
      }
    }

    method CmdRestore(path: Option<nat>) returns (outcome: Outcome)
      modifies this
      ensures (View(), outcome) == Restore(reply, old(View()), path)
    {
      hide Protected, CloseRulesets, RestoreReviewerRules, VerifyProtection;
      var loaded := LoadSnapshot(View(), path);
      if loaded.None? {
        return Aborted;
      }
      var snap := loaded.value;
      if snap.window.Some? && snap.window.value.actor.id != 0 && snap.window.value.actor.kind != "" {
        var removed, stale := RemoveRulesetBypasses(snap.rulesets, snap.window.value.actor);
        if !removed {
          return Aborted;
        }
      }
      var recreated := RestoreProductionRequiredReviewers(snap.rules);
      if !recreated {
        return Aborted;
      }
      var fine := Verify();
      marker := None;
      return if fine then Completed else Incomplete;
    }

    method CmdStatus() returns (clean: bool)
      modifies `calls
      ensures (View(), clean) == Status(reply, old(View()))
    {
      clean := Verify();
    }
  }
}
