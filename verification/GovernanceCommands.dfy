/** The commands of tools/production_e2e_governance_window.py as functions of the stores and of what
    every remote call replies: the nth call of a run gets the nth reply. */
module GovernanceCommands {
  import opened Options
  import opened GovernanceModel

  const DEFAULT_TTL_MINUTES := 120

  /// Remote calls

  /** Reads one ruleset after the other; those that cannot be read are left out without a word. */
  function ReadEach(reply: Replies, rulesets: map<int, Ruleset>, ids: seq<int>, calls: nat): seq<Numbered> {
    if ids == [] then []
    else
      (if reply(calls).Done? && ids[0] in rulesets then [Numbered(ids[0], rulesets[ids[0]])] else [])
      + ReadEach(reply, rulesets, ids[1..], calls + 1)
  }

  /** `None` when the list itself cannot be read. */
  function ReadRulesets(reply: Replies, remote: Remote, calls: nat): Option<seq<Numbered>> {
    if reply(calls).Done? then Some(ReadEach(reply, remote.rulesets, remote.listing, calls + 1)) else None
  }

  function CallsToReadRulesets(reply: Replies, remote: Remote, calls: nat): nat {
    if reply(calls).Done? then 1 + |remote.listing| else 1
  }

  /** An unreadable rule list counts as an empty one. */
  function ReadRules(answer: Reply, rules: seq<DeployRule>): seq<DeployRule> {
    if answer.Done? then rules else []
  }

  function PutRuleset(answer: Reply, live: map<int, Ruleset>, id: int, body: Ruleset): (map<int, Ruleset>, bool) {
    if id in live then (if answer.Refused? then live else live[id := body], answer.Done?) else (live, false)
  }

  function DeleteRule(answer: Reply, rules: seq<DeployRule>, id: int): (seq<DeployRule>, bool) {
    if HasRule(rules, id) then (if answer.Refused? then rules else WithoutRule(rules, id), answer.Done?)
    else (rules, false)
  }

  /// enable

  datatype Opening = Opening(live: map<int, Ruleset>, calls: nat, ok: bool, ids: seq<int>)

  /** Adds the actor to the rulesets of the snapshot from position `i` on. */
  function OpenRulesets(
    reply: Replies, calls: nat, live: map<int, Ruleset>, list: seq<Numbered>, i: nat, seen: set<int>, touched: seq<int>,
    actor: Actor): Opening
    requires i <= |list|
    decreases |list| - i
  {
    if i == |list| then Opening(live, calls, true, touched)
    else
      var r := list[i];
      if r.id in seen || !Protected(r.body) then OpenRulesets(reply, calls, live, list, i + 1, seen, touched, actor)
      else
        match Present(r.body.bypass, actor)
        case None => Opening(live, calls, false, touched)
        case Some(true) => OpenRulesets(reply, calls, live, list, i + 1, seen + {r.id}, touched + [r.id], actor)
        case Some(false) =>
          var (next, ok) := PutRuleset(reply(calls), live, r.id,
                                       r.body.(bypass := r.body.bypass + [AutomationEntry(actor)]));
          if ok then OpenRulesets(reply, calls + 1, next, list, i + 1, seen + {r.id}, touched + [r.id], actor)
          else Opening(next, calls + 1, false, touched)
  }

  datatype Deleting = Deleting(rules: seq<DeployRule>, calls: nat, ok: bool, ids: seq<int>)

  function DeleteReviewerRules(
    reply: Replies, calls: nat, rules: seq<DeployRule>, list: seq<DeployRule>, i: nat, deleted: seq<int>): Deleting
    requires i <= |list|
    decreases |list| - i
  {
    if i == |list| then Deleting(rules, calls, true, deleted)
    else if !IsReviewerRule(list[i]) then DeleteReviewerRules(reply, calls, rules, list, i + 1, deleted)
    else
      var (next, ok) := DeleteRule(reply(calls), rules, list[i].id);
      if ok then DeleteReviewerRules(reply, calls + 1, next, list, i + 1, deleted + [list[i].id])
      else Deleting(next, calls + 1, false, deleted)
  }

  /** Creates the automation environment if it is missing; its failures are only warnings.
      Gives the state of the environment and the number of calls made. */
  function EnsureAutomationEnv(reply: Replies, calls: nat, present: bool): (bool, nat) {
    if reply(calls).Done? && present then (true, 1)
    else (present || !reply(calls + 1).Refused?, if reply(calls + 1).Done? then 3 else 2)
  }

  /** Reads everything into a snapshot, with the number of calls made; `None` when the rulesets cannot be listed. */
  function BuildSnapshot(reply: Replies, remote: Remote, calls: nat): (Option<Snapshot>, nat) {
    var readingRulesets := CallsToReadRulesets(reply, remote, calls);
    var rules := ReadRules(reply(calls + readingRulesets + 3), remote.rules);
    (match ReadRulesets(reply, remote, calls) case Some(list) => Some(Snapshot(list, rules, None)) case None => None,
     readingRulesets + 5)
  }

  predicate SupportsBypass(list: seq<Numbered>) {
    exists r <- list :: Protected(r.body)
  }

  /** The part of `enable` that changes anything, once the snapshot is on disk under `path`. */
  function OpenWindow(reply: Replies, w: World, path: nat, snap: Snapshot, actor: Actor): (World, bool) {
    var first := OpenRulesets(reply, w.calls, w.remote.rulesets, snap.rulesets, 0, {}, [], actor);
    var remote := w.remote.(rulesets := first.live);
    if !first.ok then (w.(remote := remote, calls := first.calls), false)
    else
      var second := DeleteReviewerRules(reply, first.calls, w.remote.rules, snap.rules, 0, []);
      var remote := remote.(rules := second.rules);
      if !second.ok then (w.(remote := remote, calls := second.calls), false)
      else
        var (env, n) := EnsureAutomationEnv(reply, second.calls, w.remote.automationEnv);
        var enabled := snap.(window := Some(WindowState(actor, first.ids, second.ids)));
        (w.(remote := remote.(automationEnv := env), calls := second.calls + n,
            snapshots := w.snapshots[path := enabled], marker := Some(path)), true)
  }

  function Ttl(minutes: int): int {
    if minutes == 0 then DEFAULT_TTL_MINUTES else minutes
  }

  /** The whole command; the flag tells whether it completed. */
  function Enable(reply: Replies, w: World, actor: Actor, minutes: int, confirmed: bool, force: bool): (World, bool) {
    if !confirmed || !(15 <= Ttl(minutes) <= 480) || (w.marker.Some? && !force) then (w, false)
    else
      var (snapshot, n) := BuildSnapshot(reply, w.remote, w.calls);
      var read := w.(calls := w.calls + n);
      if snapshot.None? || !SupportsBypass(snapshot.value.rulesets) then (read, false)
      else OpenWindow(reply, WriteSnapshot(read, snapshot.value), w.clock, snapshot.value, actor)
  }

  function WriteSnapshot(w: World, snap: Snapshot): World {
    w.(snapshots := w.snapshots[w.clock := snap], clock := w.clock + 1)
  }

  /// restore

  /** Takes the actor off `target` and puts the result; the last component counts the calls made. */
  function RemoveBypass(
    answer: Reply, live: map<int, Ruleset>, id: int, target: Ruleset, actor: Actor): (map<int, Ruleset>, bool, nat) {
    match Present(target.bypass, actor)
    case None => (live, false, 0)
    case Some(false) => (live, true, 0)
    case Some(true) =>
      if !Readable(target.bypass) then (live, false, 0)
      else var (next, ok) := PutRuleset(answer, live, id, WithoutActor(target, actor)); (next, ok, 1)
  }

  /** `stale` collects the rulesets whose live body could not be read. */
  datatype Closing = Closing(live: map<int, Ruleset>, calls: nat, ok: bool, stale: set<int>)

  function CloseRulesets(
    reply: Replies, calls: nat, live: map<int, Ruleset>, list: seq<Numbered>, i: nat, seen: set<int>, stale: set<int>,
    actor: Actor): Closing
    requires i <= |list|
    decreases |list| - i
  {
    if i == |list| then Closing(live, calls, true, stale)
    else
      var r := list[i];
      if r.id in seen || !Protected(r.body) then CloseRulesets(reply, calls, live, list, i + 1, seen, stale, actor)
      else
        var readable := reply(calls).Done? && r.id in live;
        var target := if readable then live[r.id] else r.body;
        var stale' := if readable then stale else stale + {r.id};
        var (next, ok, n) := RemoveBypass(reply(calls + 1), live, r.id, target, actor);
        if ok then CloseRulesets(reply, calls + 1 + n, next, list, i + 1, seen + {r.id}, stale', actor)
        else Closing(next, calls + 1 + n, false, stale')
  }

  datatype Recreating = Recreating(rules: seq<DeployRule>, nextRule: int, calls: nat, ok: bool)

  /** Each recreated rule gets a fresh id. */
  function RecreateReviewerRules(
    reply: Replies, calls: nat, rules: seq<DeployRule>, nextRule: int, list: seq<DeployRule>, i: nat): Recreating
    requires i <= |list|
    decreases |list| - i
  {
    if i == |list| then Recreating(rules, nextRule, calls, true)
    else if !IsReviewerRule(list[i]) then RecreateReviewerRules(reply, calls, rules, nextRule, list, i + 1)
    else if list[i].reviewers.None? || list[i].reviewers.value == [] then Recreating(rules, nextRule, calls, false)
    else
      var posted := rules + [DeployRule(nextRule, "required_reviewers", list[i].reviewers)];
      match reply(calls)
      case Done => RecreateReviewerRules(reply, calls + 1, posted, nextRule + 1, list, i + 1)
      case Refused => Recreating(rules, nextRule, calls + 1, false)
      case Lost => Recreating(posted, nextRule + 1, calls + 1, false)
  }

  function RestoreReviewerRules(
    reply: Replies, calls: nat, rules: seq<DeployRule>, nextRule: int, list: seq<DeployRule>): Recreating {
    if exists r <- ReadRules(reply(calls), rules) :: IsReviewerRule(r) then Recreating(rules, nextRule, calls + 1, true)
    else RecreateReviewerRules(reply, calls + 1, rules, nextRule, list, 0)
  }

  /** Exit codes of the command-line client are never 404, so unreadable rulesets raise no objection. */
  predicate BranchGap(reply: Replies, remote: Remote, calls: nat) {
    var list := ReadRulesets(reply, remote, calls);
    list.Some? && list.value != [] &&
    exists b <- PROTECTED_BRANCHES :: !BranchCovered(list.value, b)
  }

  predicate BranchCovered(list: seq<Numbered>, branch: string) {
    exists r <- list :: CoversBranch(r.body, branch)
  }

  function CallsToVerifyBranches(reply: Replies, remote: Remote, calls: nat): nat {
    var list := ReadRulesets(reply, remote, calls);
    CallsToReadRulesets(reply, remote, calls) + if list.Some? && list.value != [] then 0 else 2
  }

  predicate ReviewerGap(answer: Reply, rules: seq<DeployRule>) {
    !exists r <- ReadRules(answer, rules) :: IsReviewerRule(r) && r.reviewers.Some? && r.reviewers.value != []
  }

  /** Whether the protection is found complete, with the number of calls made. */
  function VerifyProtection(reply: Replies, remote: Remote, calls: nat): (bool, nat) {
    var n := CallsToVerifyBranches(reply, remote, calls);
    (!BranchGap(reply, remote, calls) && !ReviewerGap(reply(calls + n), remote.rules), n + 1)
  }

  lemma {:induction false} LatestExists(stamps: set<nat>) returns (top: nat)
    requires stamps != {}
    ensures top in stamps && forall k <- stamps :: k <= top
  {
    top :| top in stamps;
    var rest := stamps - {top};
    assert forall k <- stamps :: k == top || k in rest;
    if rest != {} {
      var other := LatestExists(rest);
      top := if top < other then other else top;
    }
  }

  lemma HasLatest(stamps: set<nat>)
    requires stamps != {}
    ensures exists m <- stamps :: forall k <- stamps :: k <= m
  {
    var top := LatestExists(stamps);
  }

  function Latest(snapshots: map<nat, Snapshot>): (m: nat)
    requires snapshots != map[]
    ensures m in snapshots && forall k <- snapshots :: k <= m
  {
    HasLatest(snapshots.Keys);
    var m :| m in snapshots.Keys && forall k <- snapshots.Keys :: k <= m;
    m
  }

  /** The snapshot to restore: the named one, else the marker's, else the latest on disk. */
  function LoadSnapshot(w: World, path: Option<nat>): Option<Snapshot> {
    match path
    case Some(p) => if p in w.snapshots then Some(w.snapshots[p]) else None
    case None =>
      if w.marker.Some? && w.marker.value in w.snapshots then Some(w.snapshots[w.marker.value])
      else if w.snapshots == map[] then None
      else Some(w.snapshots[Latest(w.snapshots)])
  }

  /** A zero id or an empty type in the recorded window switches the ruleset phase off. */
  function CloseWindow(reply: Replies, w: World, snap: Snapshot): Closing {
    if snap.window.Some? && snap.window.value.actor.id != 0 && snap.window.value.actor.kind != ""
    then CloseRulesets(reply, w.calls, w.remote.rulesets, snap.rulesets, 0, {}, {}, snap.window.value.actor)
    else Closing(w.remote.rulesets, w.calls, true, {})
  }

  datatype Outcome = Completed | Incomplete | Aborted

  /** The whole command; `Incomplete` is a restore whose final verification objects, after the marker is gone. */
  function Restore(reply: Replies, w: World, path: Option<nat>): (World, Outcome) {
    match LoadSnapshot(w, path)
    case None => (w, Aborted)
    case Some(snap) =>
      var first := CloseWindow(reply, w, snap);
      var remote := w.remote.(rulesets := first.live);
      if !first.ok then (w.(remote := remote, calls := first.calls), Aborted)
      else
        var second := RestoreReviewerRules(reply, first.calls, w.remote.rules, w.remote.nextRule, snap.rules);
        var remote := remote.(rules := second.rules, nextRule := second.nextRule);
        if !second.ok then (w.(remote := remote, calls := second.calls), Aborted)
        else
          var (fine, n) := VerifyProtection(reply, remote, second.calls);
          (w.(remote := remote, calls := second.calls + n, marker := None), if fine then Completed else Incomplete)
  }

  /// status

  /** The flag tells whether the report finds no gap. */
  function Status(reply: Replies, w: World): (World, bool) {
    var (fine, n) := VerifyProtection(reply, w.remote, w.calls);
    (w.(calls := w.calls + n), fine)
  }
}
