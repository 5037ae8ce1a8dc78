/** With every remote call answered: exactly when a restore runs to its end, from any recorded file and any live
    state. */
module GovernanceEnds {
  import opened Options
  import opened GovernanceModel
  import opened GovernanceCommands
  import opened GovernanceWriteAhead
  import opened GovernanceCycle
  import opened GovernanceVerdict

  /// Taking the actor off one ruleset

  /** It succeeds if and only if every id of the list can be read and, where the actor is listed, the ruleset is there
      and its update is answered. */
  lemma RemovalSucceedsIff(answer: Reply, live: map<int, Ruleset>, id: int, target: Ruleset, actor: Actor)
    ensures RemoveBypass(answer, live, id, target, actor).1 <==>
            && Readable(target.bypass)
            && ((exists e <- target.bypass :: IsFor(e, actor)) ==> id in live && answer.Done?)
  {
    hide IsFor, WithoutActor;
    PresentMeansListed(target.bypass, actor);
  }

  /// All rulesets

  /** The body that restore works on: the live one, or the recorded one where there is no live one. */
  function BodyOf(live: map<int, Ruleset>, r: Numbered): Ruleset {
    if r.id in live then live[r.id] else r.body
  }

  /** The list of the ruleset can be read, and a listed actor can be taken off it. */
  ghost predicate Closable(live: map<int, Ruleset>, r: Numbered, actor: Actor) {
    var entries := BodyOf(live, r).bypass;
    Readable(entries) && ((exists e <- entries :: IsFor(e, actor)) ==> r.id in live)
  }

  /** Position `j` is the first to record a guarded ruleset of its id. */
  ghost predicate FirstOf(list: seq<Numbered>, j: nat) {
    j < |list| && Protected(list[j].body)
    && forall k :: 0 <= k < j && list[k].id == list[j].id ==> !Protected(list[k].body)
  }

  ghost predicate AllClosable(live: map<int, Ruleset>, list: seq<Numbered>, from: nat, actor: Actor) {
    forall j :: from <= j < |list| && FirstOf(list, j) ==> Closable(live, list[j], actor)
  }

  lemma FirstMeansUnseen(list: seq<Numbered>, j: nat)
    requires j < |list|
    ensures FirstOf(list, j) <==> Protected(list[j].body) && list[j].id !in TouchedIds(list, j)
  {
    hide Protected;
  }

  lemma {:induction false} ClosesIff(
    reply: Replies, calls: nat, live: map<int, Ruleset>, start: map<int, Ruleset>, list: seq<Numbered>, i: nat,
    seen: set<int>, stale: set<int>, actor: Actor)
    requires i <= |list| && Answered(reply, calls) && seen == TouchedIds(list, i)
    requires live.Keys == start.Keys && forall id <- live :: id !in seen ==> live[id] == start[id]
    ensures CloseRulesets(reply, calls, live, list, i, seen, stale, actor).ok <==> AllClosable(start, list, i, actor)
    decreases |list| - i
  {
    hide Protected, Present, WithoutActor, Readable, IsFor, RemoveBypass, Closable, FirstOf, TouchedIds;
    if i < |list| {
      var r := list[i];
      TouchedNext(list, i);
      FirstMeansUnseen(list, i);
      assert AllClosable(start, list, i, actor) <==>
             (FirstOf(list, i) ==> Closable(start, r, actor)) && AllClosable(start, list, i + 1, actor);
      if r.id in seen || !Protected(r.body) {
        ClosesIff(reply, calls, live, start, list, i + 1, seen, stale, actor);
      } else {
        var readable := reply(calls).Done? && r.id in live;
        var target := if readable then live[r.id] else r.body;
        var (next, ok, n) := RemoveBypass(reply(calls + 1), live, r.id, target, actor);
        RemovalSucceedsIff(reply(calls + 1), live, r.id, target, actor);
        ClosableMeans(live, start, r, actor);
        RemovalTouchesOne(reply(calls + 1), live, r.id, target, actor);
        if ok {
          ClosesIff(reply, calls + 1 + n, next, start, list, i + 1, seen + {r.id},
                    if readable then stale else stale + {r.id}, actor);
        }
      }
    }
  }

  lemma ClosableMeans(live: map<int, Ruleset>, start: map<int, Ruleset>, r: Numbered, actor: Actor)
    requires live.Keys == start.Keys && (r.id in live ==> live[r.id] == start[r.id])
    ensures var target := BodyOf(live, r);
            Closable(start, r, actor)
            <==> Readable(target.bypass) && ((exists e <- target.bypass :: IsFor(e, actor)) ==> r.id in live)
  {
  }

  lemma RemovalTouchesOne(answer: Reply, live: map<int, Ruleset>, id: int, target: Ruleset, actor: Actor)
    ensures var next := RemoveBypass(answer, live, id, target, actor).0;
            next.Keys == live.Keys && forall k <- live :: k != id ==> next[k] == live[k]
  {
    hide Present, WithoutActor, Readable;
  }

  /// The reviewer rules

  /** Every reviewer rule of the list demands somebody. */
  predicate AllDemand(list: seq<DeployRule>, from: nat) {
    forall j ::
      from <= j < |list| && IsReviewerRule(list[j]) ==> list[j].reviewers.Some? && list[j].reviewers.value != []
  }

  lemma {:induction false} RecreatesIff(
    reply: Replies, calls: nat, rules: seq<DeployRule>, nextRule: int, list: seq<DeployRule>, i: nat)
    requires i <= |list| && Answered(reply, calls)
    ensures RecreateReviewerRules(reply, calls, rules, nextRule, list, i).ok <==> AllDemand(list, i)
    decreases |list| - i
  {
    hide IsReviewerRule;
    if i < |list| {
      if !IsReviewerRule(list[i]) {
        RecreatesIff(reply, calls, rules, nextRule, list, i + 1);
      } else if list[i].reviewers.Some? && list[i].reviewers.value != [] {
        var posted := rules + [DeployRule(nextRule, "required_reviewers", list[i].reviewers)];
        RecreatesIff(reply, calls + 1, posted, nextRule + 1, list, i + 1);
      }
    }
  }

  /// The command

  /** The file's window names an actor whose entries restore takes off. */
  predicate ClosesRulesets(snap: Snapshot) {
    snap.window.Some? && snap.window.value.actor.id != 0 && snap.window.value.actor.kind != ""
  }

  /** With every call answered, a restore runs to its end if and only if there is a file to restore, each guarded
      ruleset it records can be closed, and either a reviewer rule is live or every recorded one demands somebody. */
  lemma RestoreEndsIff(reply: Replies, w: World, path: Option<nat>)
    requires Answered(reply, w.calls)
    ensures Restore(reply, w, path).1 != Aborted <==>
            && LoadSnapshot(w, path).Some?
            && var snap := LoadSnapshot(w, path).value;
               && (ClosesRulesets(snap)
                   ==> AllClosable(w.remote.rulesets, snap.rulesets, 0, snap.window.value.actor))
               && ((exists r <- w.remote.rules :: IsReviewerRule(r)) || AllDemand(snap.rules, 0))
  {
    hide LoadSnapshot, VerifyProtection, IsReviewerRule, CloseRulesets, AllClosable, AllDemand, RecreateReviewerRules;
    if LoadSnapshot(w, path).Some? {
      var snap := LoadSnapshot(w, path).value;
      assert TouchedIds(snap.rulesets, 0) == {};
      if ClosesRulesets(snap) {
        var live, actor := w.remote.rulesets, snap.window.value.actor;
        ClosesIff(reply, w.calls, live, live, snap.rulesets, 0, {}, {}, actor);
        ClosingCounts(reply, w.calls, live, snap.rulesets, 0, {}, {}, actor);
      }
      var first := CloseWindow(reply, w, snap);
      RecreatesIff(reply, first.calls + 1, w.remote.rules, w.remote.nextRule, snap.rules, 0);
    }
  }
}
