/** What the commands report, stated on the live protection: when `restore` says that all is back, and when `status`
    finds no gap. */
module GovernanceVerdict {
  import opened Options
  import opened GovernanceModel
  import opened GovernanceCommands
  import opened GovernanceRuns
  import opened GovernanceCycle

  /// What the verification reads

  /** The ith listed ruleset is read by a listing that begins with call `from`. */
  predicate WasRead(reply: Replies, from: nat, remote: Remote, i: nat) {
    i < |remote.listing| && reply(from).Done? && reply(from + 1 + i).Done? && remote.listing[i] in remote.rulesets
  }

  predicate GuardedBy(reply: Replies, from: nat, remote: Remote, i: nat, branch: string) {
    WasRead(reply, from, remote, i) && CoversBranch(remote.rulesets[remote.listing[i]], branch)
  }

  /** No ruleset was read, or the ones that were guard both branches. */
  ghost predicate NoBranchObjection(reply: Replies, from: nat, remote: Remote) {
    || (forall i: nat :: !WasRead(reply, from, remote, i))
    || ((exists i: nat :: GuardedBy(reply, from, remote, i, "main"))
        && (exists i: nat :: GuardedBy(reply, from, remote, i, "develop")))
  }

  /** A reviewer rule with somebody on it. */
  predicate Demanding(rules: seq<DeployRule>) {
    exists r <- rules :: IsReviewerRule(r) && r.reviewers.Some? && r.reviewers.value != []
  }

  lemma {:induction false} ReadIsListed(reply: Replies, rulesets: map<int, Ruleset>, ids: seq<int>, calls: nat, i: nat)
    requires i < |ids| && reply(calls + i).Done? && ids[i] in rulesets
    ensures Numbered(ids[i], rulesets[ids[i]]) in ReadEach(reply, rulesets, ids, calls)
  {
    if i > 0 {
      assert ids[1..][i - 1] == ids[i] && calls + 1 + (i - 1) == calls + i;
      ReadIsListed(reply, rulesets, ids[1..], calls + 1, i - 1);
    }
  }

  lemma {:induction false} ListedWasRead(
    reply: Replies, rulesets: map<int, Ruleset>, ids: seq<int>, calls: nat, r: Numbered)
    returns (i: nat)
    requires r in ReadEach(reply, rulesets, ids, calls)
    ensures i < |ids| && reply(calls + i).Done? && ids[i] in rulesets && r == Numbered(ids[i], rulesets[ids[i]])
  {
    if r in ReadEach(reply, rulesets, ids[1..], calls + 1) {
      var j := ListedWasRead(reply, rulesets, ids[1..], calls + 1, r);
      assert ids[1..][j] == ids[j + 1] && calls + 1 + j == calls + (j + 1);
      i := j + 1;
    } else {
      i := 0;
    }
  }

  lemma CoveredByRead(reply: Replies, remote: Remote, from: nat, branch: string)
    requires reply(from).Done?
    ensures BranchCovered(ReadRulesets(reply, remote, from).value, branch)
            <==> exists i: nat :: GuardedBy(reply, from, remote, i, branch)
  {
    hide CoversBranch, ReadEach;
    var list := ReadRulesets(reply, remote, from).value;
    if BranchCovered(list, branch) {
      var r :| r in list && CoversBranch(r.body, branch);
      var i := ListedWasRead(reply, remote.rulesets, remote.listing, from + 1, r);
      assert GuardedBy(reply, from, remote, i, branch);
    }
    if i: nat :| GuardedBy(reply, from, remote, i, branch) {
      ReadIsListed(reply, remote.rulesets, remote.listing, from + 1, i);
    }
  }

  lemma NothingRead(reply: Replies, remote: Remote, from: nat)
    requires reply(from).Done?
    ensures ReadRulesets(reply, remote, from).value == [] <==> forall i: nat :: !WasRead(reply, from, remote, i)
  {
    hide ReadEach;
    var list := ReadRulesets(reply, remote, from).value;
    if list != [] {
      var i := ListedWasRead(reply, remote.rulesets, remote.listing, from + 1, list[0]);
      assert WasRead(reply, from, remote, i);
    }
    if i: nat :| WasRead(reply, from, remote, i) {
      ReadIsListed(reply, remote.rulesets, remote.listing, from + 1, i);
    }
  }

  lemma BranchesObjectIff(reply: Replies, remote: Remote, from: nat)
    ensures BranchGap(reply, remote, from) <==> !NoBranchObjection(reply, from, remote)
  {
    hide ReadRulesets, BranchCovered, GuardedBy;
    assert PROTECTED_BRANCHES[0] == "main" && PROTECTED_BRANCHES[1] == "develop";
    assert forall b <- PROTECTED_BRANCHES :: b == "main" || b == "develop";
    if reply(from).Done? {
      NothingRead(reply, remote, from);
      CoveredByRead(reply, remote, from, "main");
      CoveredByRead(reply, remote, from, "develop");
    }
    ListUnread(reply, remote, from);
  }

  lemma ListUnread(reply: Replies, remote: Remote, from: nat)
    ensures ReadRulesets(reply, remote, from).Some? <==> reply(from).Done?
    ensures !reply(from).Done? ==> forall i: nat :: !WasRead(reply, from, remote, i)
  {
  }

  /** The verification objects to nothing exactly when the branches are guarded, as far as the rulesets were read, and
      its last call finds a demanding rule. */
  lemma VerificationIsExact(reply: Replies, remote: Remote, from: nat)
    ensures var (fine, n) := VerifyProtection(reply, remote, from);
            && 2 <= n
            && (fine <==> NoBranchObjection(reply, from, remote)
                          && reply(from + n - 1).Done? && Demanding(remote.rules))
  {
    hide BranchGap, NoBranchObjection, IsReviewerRule;
    BranchesObjectIff(reply, remote, from);
  }

  /// restore

  /** The first call after the two phases of a restore. */
  function VerifiedFrom(reply: Replies, w: World, path: Option<nat>): nat {
    match LoadSnapshot(w, path)
    case None => w.calls
    case Some(snap) =>
      RestoreReviewerRules(reply, CloseWindow(reply, w, snap).calls, w.remote.rules, w.remote.nextRule,
                           snap.rules).calls
  }

  /** A restore that runs to its end reports success exactly when the protection that it leaves guards both branches, as
      far as the rulesets can be read, and its last call finds a rule that demands a reviewer: an unread list raises no
      objection, unread rules do. */
  lemma RestoreReportsIff(reply: Replies, w: World, path: Option<nat>)
    requires Restore(reply, w, path).1 != Aborted
    ensures var (w', outcome) := Restore(reply, w, path);
            && 0 < w'.calls
            && (outcome == Completed <==>
                  NoBranchObjection(reply, VerifiedFrom(reply, w, path), w'.remote)
                  && reply(w'.calls - 1).Done? && Demanding(w'.remote.rules))
  {
    hide LoadSnapshot, CloseWindow, RestoreReviewerRules, VerifyProtection, NoBranchObjection, Demanding;
    VerificationIsExact(reply, Restore(reply, w, path).0.remote, VerifiedFrom(reply, w, path));
  }

  /** Some listed ruleset guards the branch. */
  predicate Guarded(remote: Remote, branch: string) {
    exists id <- remote.listing :: id in remote.rulesets && CoversBranch(remote.rulesets[id], branch)
  }

  predicate FullyGuarded(remote: Remote) {
    || (forall id <- remote.listing :: id !in remote.rulesets)
    || (Guarded(remote, "main") && Guarded(remote, "develop"))
  }

  lemma AnsweredGuards(reply: Replies, from: nat, remote: Remote, branch: string)
    requires Answered(reply, from)
    ensures (exists i: nat :: GuardedBy(reply, from, remote, i, branch)) <==> Guarded(remote, branch)
    ensures (forall i: nat :: !WasRead(reply, from, remote, i))
            <==> forall id <- remote.listing :: id !in remote.rulesets
  {
    hide CoversBranch;
    forall id | id in remote.listing && id in remote.rulesets
      ensures exists i: nat :: WasRead(reply, from, remote, i) && remote.listing[i] == id
    {
      var i: nat :| i < |remote.listing| && remote.listing[i] == id;
      assert WasRead(reply, from, remote, i);
    }
    if Guarded(remote, branch) {
      var id :| id in remote.listing && id in remote.rulesets && CoversBranch(remote.rulesets[id], branch);
      var i: nat :| WasRead(reply, from, remote, i) && remote.listing[i] == id;
      assert GuardedBy(reply, from, remote, i, branch);
    }
  }

  lemma {:induction false} ClosingCounts(
    reply: Replies, calls: nat, live: map<int, Ruleset>, list: seq<Numbered>, i: nat, seen: set<int>, stale: set<int>,
    actor: Actor)
    requires i <= |list|
    ensures calls <= CloseRulesets(reply, calls, live, list, i, seen, stale, actor).calls
    decreases |list| - i
  {
    hide Protected, RemoveBypass;
    if i < |list| {
      var r := list[i];
      if r.id in seen || !Protected(r.body) {
        ClosingCounts(reply, calls, live, list, i + 1, seen, stale, actor);
      } else {
        var readable := reply(calls).Done? && r.id in live;
        var stale' := if readable then stale else stale + {r.id};
        var (next, _, n) := RemoveBypass(reply(calls + 1), live, r.id, if readable then live[r.id] else r.body, actor);
        ClosingCounts(reply, calls + 1 + n, next, list, i + 1, seen + {r.id}, stale', actor);
      }
    }
  }

  lemma {:induction false} RecreatingCounts(
    reply: Replies, calls: nat, rules: seq<DeployRule>, nextRule: int, list: seq<DeployRule>, i: nat)
    requires i <= |list|
    ensures calls <= RecreateReviewerRules(reply, calls, rules, nextRule, list, i).calls
    decreases |list| - i
  {
    hide IsReviewerRule;
    if i < |list| {
      RecreatingCounts(reply, calls, rules, nextRule, list, i + 1);
      var posted := rules + [DeployRule(nextRule, "required_reviewers", list[i].reviewers)];
      RecreatingCounts(reply, calls + 1, posted, nextRule + 1, list, i + 1);
    }
  }

  lemma VerifiedLater(reply: Replies, w: World, path: Option<nat>)
    ensures w.calls <= VerifiedFrom(reply, w, path)
  {
    hide CloseRulesets, RecreateReviewerRules, IsReviewerRule, LoadSnapshot;
    var loaded := LoadSnapshot(w, path);
    if loaded.Some? {
      var snap := loaded.value;
      if snap.window.Some? {
        ClosingCounts(reply, w.calls, w.remote.rulesets, snap.rulesets, 0, {}, {}, snap.window.value.actor);
      }
      var first := CloseWindow(reply, w, snap);
      RecreatingCounts(reply, first.calls + 1, w.remote.rules, w.remote.nextRule, snap.rules, 0);
    }
  }

  /** With every call answered a restore that runs to its end reports success if and only if no ruleset is listed or the
      listed ones guard both branches, and some live rule demands a reviewer. */
  lemma AnsweredRestoreReportsIff(reply: Replies, w: World, path: Option<nat>)
    requires Answered(reply, w.calls) && Restore(reply, w, path).1 != Aborted
    ensures var (w', outcome) := Restore(reply, w, path);
            outcome == Completed <==> FullyGuarded(w'.remote) && Demanding(w'.remote.rules)
  {
    hide Restore, Demanding, Guarded, GuardedBy, WasRead;
    var (w', outcome) := Restore(reply, w, path);
    RestoreReportsIff(reply, w, path);
    VerifiedLater(reply, w, path);
    var from := VerifiedFrom(reply, w, path);
    AnsweredGuards(reply, from, w'.remote, "main");
    AnsweredGuards(reply, from, w'.remote, "develop");
    RestoreEndsLater(reply, w, path);
  }

  lemma RestoreEndsLater(reply: Replies, w: World, path: Option<nat>)
    requires Restore(reply, w, path).1 != Aborted
    ensures w.calls < Restore(reply, w, path).0.calls
  {
    hide LoadSnapshot, CloseWindow, RestoreReviewerRules, VerifyProtection;
    VerifiedLater(reply, w, path);
    VerificationIsExact(reply, Restore(reply, w, path).0.remote, VerifiedFrom(reply, w, path));
  }

  /// status

  /** `status` finds no gap exactly when there is none, as far as it could read. */
  lemma StatusReportsIff(reply: Replies, w: World)
    ensures var (w', clean) := Status(reply, w);
            && w.calls < w'.calls
            && (clean <==> NoBranchObjection(reply, w.calls, w.remote)
                           && reply(w'.calls - 1).Done? && Demanding(w.remote.rules))
  {
    hide VerifyProtection, NoBranchObjection, Demanding;
    VerificationIsExact(reply, w.remote, w.calls);
  }
}
