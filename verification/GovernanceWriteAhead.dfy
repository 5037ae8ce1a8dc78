/** What an `enable` run leaves behind, wherever it stops: a snapshot of the exact earlier state is on
    disk before the first change, and the live state is that snapshot with a prefix of the changes. */
module GovernanceWriteAhead {
  import opened Options
  import opened Sequences
  import opened GovernanceModel
  import opened GovernanceCommands

  /** Every body in the snapshot is the one `remote` holds, and its rules are `remote`'s unless unreadable. */
  predicate SnapshotOf(snap: Snapshot, remote: Remote) {
    && (forall r <- snap.rulesets :: r.id in remote.rulesets && remote.rulesets[r.id] == r.body)
    && (snap.rules == [] || snap.rules == remote.rules)
  }

  /** Nothing of `remote` is missing from the snapshot. */
  predicate FullSnapshotOf(snap: Snapshot, remote: Remote) {
    && |snap.rulesets| == |remote.listing|
    && (forall i :: 0 <= i < |snap.rulesets| ==>
          remote.listing[i] in remote.rulesets
          && snap.rulesets[i] == Numbered(remote.listing[i], remote.rulesets[remote.listing[i]]))
    && snap.rules == remote.rules
  }

  function TouchedIds(list: seq<Numbered>, k: nat): set<int>
    requires k <= |list|
  {
    set i | 0 <= i < k && Protected(list[i].body) :: list[i].id
  }

  /** The rulesets after the first `k` of the snapshot have been opened. */
  function Opened(base: map<int, Ruleset>, list: seq<Numbered>, k: nat, actor: Actor): map<int, Ruleset>
    requires k <= |list|
  {
    map id | id in base :: if id in TouchedIds(list, k) then WithActor(base[id], actor) else base[id]
  }

  /** The rules after the reviewer rules among the first `m` have been deleted. */
  function Remaining(rules: seq<DeployRule>, m: nat): seq<DeployRule>
    requires m <= |rules|
  {
    OtherRules(rules[..m]) + rules[m..]
  }

  predicate Agree(list: seq<Numbered>, base: map<int, Ruleset>) {
    forall r <- list :: r.id in base && base[r.id] == r.body
  }

  predicate AllDone(reply: Replies, from: nat, to: nat) {
    forall n :: from <= n < to ==> reply(n).Done?
  }

  /// Reading

  lemma {:induction false} ReadEachIsExact(reply: Replies, rulesets: map<int, Ruleset>, ids: seq<int>, calls: nat)
    ensures Agree(ReadEach(reply, rulesets, ids, calls), rulesets)
    ensures AllDone(reply, calls, calls + |ids|) && (forall id <- ids :: id in rulesets) ==>
              var list := ReadEach(reply, rulesets, ids, calls);
              |list| == |ids|
              && forall i :: 0 <= i < |ids| ==> ids[i] in rulesets && list[i] == Numbered(ids[i], rulesets[ids[i]])
  {
    hide Protected, IsReviewerRule;
    if ids != [] {
      assert ids[0] in ids && forall id <- ids[1..] :: id in ids;
      ReadEachIsExact(reply, rulesets, ids[1..], calls + 1);
      var rest := ReadEach(reply, rulesets, ids[1..], calls + 1);
      assert Agree(rest, rulesets);
      if AllDone(reply, calls, calls + |ids|) && forall id <- ids :: id in rulesets {
        var list := ReadEach(reply, rulesets, ids, calls);
        assert list == [Numbered(ids[0], rulesets[ids[0]])] + rest;
        assert forall i :: 1 <= i < |ids| ==> ids[i] == ids[1..][i - 1] && list[i] == rest[i - 1];
      }
    }
  }

  /** A snapshot never misstates a body, and misses nothing when every read succeeds. */
  lemma SnapshotIsFaithful(reply: Replies, remote: Remote, calls: nat)
    ensures var (snap, n) := BuildSnapshot(reply, remote, calls);
            && (snap.Some? ==> SnapshotOf(snap.value, remote) && snap.value.window.None?)
            && (ValidRemote(remote) && AllDone(reply, calls, calls + n)
                ==> snap.Some? && FullSnapshotOf(snap.value, remote))
  {
    ReadEachIsExact(reply, remote.rulesets, remote.listing, calls + 1);
  }

  /// The two loops of enable

  lemma TouchedNext(list: seq<Numbered>, i: nat)
    requires i < |list|
    ensures TouchedIds(list, i + 1) == TouchedIds(list, i) + if Protected(list[i].body) then {list[i].id} else {}
  {
  }

  lemma OpenedNext(base: map<int, Ruleset>, list: seq<Numbered>, i: nat, actor: Actor)
    requires i < |list| && Agree(list, base)
    ensures var (r, here, there) := (list[i], Opened(base, list, i, actor), Opened(base, list, i + 1, actor));
            && r.id in here
            && (Protected(r.body) ==> there == here[r.id := WithActor(r.body, actor)])
            && (!Protected(r.body) || r.id in TouchedIds(list, i) || Present(r.body.bypass, actor) != Some(false)
                ==> there == here)
  {
    TouchedNext(list, i);
    assert list[i] in list;
  }

  lemma OpenedNothing(base: map<int, Ruleset>, list: seq<Numbered>, actor: Actor)
    ensures TouchedIds(list, 0) == {} && Opened(base, list, 0, actor) == base
  {
    assert TouchedIds(list, 0) == {};
  }

  lemma {:induction false} OpensPrefix(
    reply: Replies, calls: nat, live: map<int, Ruleset>, base: map<int, Ruleset>, list: seq<Numbered>, i: nat,
    seen: set<int>, touched: seq<int>, actor: Actor) returns (k: nat)
    requires i <= |list| && Agree(list, base)
    requires seen == TouchedIds(list, i) && live == Opened(base, list, i, actor)
    ensures i <= k <= |list|
    ensures var p := OpenRulesets(reply, calls, live, list, i, seen, touched, actor);
            p.live == Opened(base, list, k, actor) && (p.ok ==> k == |list|)
    decreases |list| - i
  {
    hide Protected, IsReviewerRule;
    k := i;
    if i < |list| {
      var r := list[i];
      TouchedNext(list, i);
      OpenedNext(base, list, i, actor);
      if r.id in seen || !Protected(r.body) {
        k := OpensPrefix(reply, calls, live, base, list, i + 1, seen, touched, actor);
      } else if Present(r.body.bypass, actor) == Some(true) {
        k := OpensPrefix(reply, calls, live, base, list, i + 1, seen + {r.id}, touched + [r.id], actor);
      } else if Present(r.body.bypass, actor) == Some(false) {
        var (next, ok) := PutRuleset(reply(calls), live, r.id,
                                     r.body.(bypass := r.body.bypass + [AutomationEntry(actor)]));
        if ok {
          k := OpensPrefix(reply, calls + 1, next, base, list, i + 1, seen + {r.id}, touched + [r.id], actor);
        } else if !reply(calls).Refused? {
          k := i + 1;
        }
      }
    }
  }

  /** Opening every ruleset meets no unreadable entry on the way. */
  lemma {:induction false} OpeningDecidesAll(
    reply: Replies, calls: nat, live: map<int, Ruleset>, base: map<int, Ruleset>, list: seq<Numbered>, i: nat,
    seen: set<int>, touched: seq<int>, actor: Actor)
    requires i <= |list| && Agree(list, base)
    requires OpenRulesets(reply, calls, live, list, i, seen, touched, actor).ok
    ensures forall j :: i <= j < |list| && Protected(list[j].body) && list[j].id !in seen ==>
              Present(list[j].body.bypass, actor).Some?
    decreases |list| - i
  {
    hide Protected, IsReviewerRule;
    if i < |list| {
      var r := list[i];
      assert r in list;
      if r.id in seen || !Protected(r.body) {
        OpeningDecidesAll(reply, calls, live, base, list, i + 1, seen, touched, actor);
      } else {
        if Present(r.body.bypass, actor) == Some(true) {
          OpeningDecidesAll(reply, calls, live, base, list, i + 1, seen + {r.id}, touched + [r.id], actor);
        } else {
          var (next, _) := PutRuleset(reply(calls), live, r.id,
                                      r.body.(bypass := r.body.bypass + [AutomationEntry(actor)]));
          OpeningDecidesAll(reply, calls + 1, next, base, list, i + 1, seen + {r.id}, touched + [r.id], actor);
        }
        forall j | i < j < |list| && list[j].id == r.id
          ensures list[j].body == r.body
        {
          assert list[j] in list;
        }
      }
    }
  }

  /** Deleting by id takes out just the rule between `before` and `after`. */
  lemma {:induction false} RuleTakenOut(before: seq<DeployRule>, r: DeployRule, after: seq<DeployRule>)
    requires (forall x <- before :: x.id != r.id) && (forall x <- after :: x.id != r.id)
    ensures WithoutRule(before + ([r] + after), r.id) == before + after
  {
    var rules := before + ([r] + after);
    if before == [] {
      assert rules == [r] + after && rules[1..] == after;
      WithoutMissingRule(after, r.id);
    } else {
      assert before[0] in before;
      RuleTakenOut(before[1..], r, after);
      assert rules[0] == before[0] && rules[1..] == before[1..] + ([r] + after);
      assert before + after == [before[0]] + (before[1..] + after);
    }
  }

  lemma OtherRulesExtended(rules: seq<DeployRule>, i: nat)
    requires i < |rules|
    ensures OtherRules(rules[..i + 1]) == OtherRules(rules[..i]) + if IsReviewerRule(rules[i]) then [] else [rules[i]]
  {
    hide IsReviewerRule;
    var r := rules[i];
    assert rules[..i + 1] == rules[..i] + [r];
    OtherRulesConcat(rules[..i], [r]);
    assert [r][1..] == [];
    assert OtherRules([r]) == if IsReviewerRule(r) then [] else [r];
  }

  lemma ReviewerRuleDeleted(rules: seq<DeployRule>, i: nat)
    requires i < |rules| && DistinctRuleIds(rules) && IsReviewerRule(rules[i])
    ensures HasRule(Remaining(rules, i), rules[i].id)
    ensures WithoutRule(Remaining(rules, i), rules[i].id) == Remaining(rules, i + 1)
  {
    hide IsReviewerRule, WithoutRule, OtherRules;
    var r, before, after := rules[i], OtherRules(rules[..i]), rules[i + 1..];
    OtherRulesExtended(rules, i);
    OtherRulesMembers(rules[..i]);
    assert rules[i..] == [r] + after;
    forall x: DeployRule | x in before
      ensures x.id != r.id
    {
      var j :| 0 <= j < i && rules[..i][j] == x;
    }
    RuleTakenOut(before, r, after);
    assert Remaining(rules, i)[|before|] == r;
  }

  lemma OtherRuleKept(rules: seq<DeployRule>, i: nat)
    requires i < |rules| && !IsReviewerRule(rules[i])
    ensures Remaining(rules, i + 1) == Remaining(rules, i)
  {
    hide IsReviewerRule, OtherRules;
    OtherRulesExtended(rules, i);
    assert rules[i..] == [rules[i]] + rules[i + 1..];
    Regroup(OtherRules(rules[..i]), [rules[i]], rules[i + 1..]);
  }

  lemma {:induction false} DeletesPrefix(
    reply: Replies, calls: nat, live: seq<DeployRule>, rules: seq<DeployRule>, i: nat, deleted: seq<int>)
    returns (m: nat)
    requires i <= |rules| && DistinctRuleIds(rules) && live == Remaining(rules, i)
    ensures i <= m <= |rules|
    ensures var p := DeleteReviewerRules(reply, calls, live, rules, i, deleted);
            p.rules == Remaining(rules, m) && (p.ok ==> m == |rules|)
    decreases |rules| - i
  {
    hide Protected, IsReviewerRule;
    m := i;
    if i < |rules| {
      if !IsReviewerRule(rules[i]) {
        OtherRuleKept(rules, i);
        m := DeletesPrefix(reply, calls, live, rules, i + 1, deleted);
      } else {
        ReviewerRuleDeleted(rules, i);
        var (next, ok) := DeleteRule(reply(calls), live, rules[i].id);
        if ok {
          m := DeletesPrefix(reply, calls + 1, next, rules, i + 1, deleted + [rules[i].id]);
        } else if !reply(calls).Refused? {
          m := i + 1;
        }
      }
    }
  }

  lemma RemainingAll(rules: seq<DeployRule>)
    ensures Remaining(rules, 0) == rules
  {
  }

  lemma DeletesFromSnapshot(reply: Replies, calls: nat, rules: seq<DeployRule>, list: seq<DeployRule>) returns (m: nat)
    requires DistinctRuleIds(rules) && (list == [] || list == rules)
    ensures m <= |list|
    ensures var p := DeleteReviewerRules(reply, calls, rules, list, 0, []);
            p.rules == Remaining(rules, m) && (p.ok ==> m == |list|)
  {
    RemainingAll(rules);
    if list == [] {
      m := 0;
    } else {
      m := DeletesPrefix(reply, calls, rules, rules, 0, []);
    }
  }

  /// The whole command

  /** `w'` is `w` with a faithful snapshot on disk under the old clock, the first `k` of its rulesets opened
      and the reviewer rules among the first `m` rules deleted. */
  predicate PartlyOpened(w: World, w': World, snap: Snapshot, k: nat, m: nat, actor: Actor) {
    && SnapshotOf(snap, w.remote)
    && k <= |snap.rulesets| && m <= |snap.rules| && (m > 0 ==> k == |snap.rulesets|)
    && m <= |w.remote.rules|
    && w'.remote == w.remote.(rulesets := Opened(w.remote.rulesets, snap.rulesets, k, actor),
                              rules := Remaining(w.remote.rules, m),
                              automationEnv := w'.remote.automationEnv)
    && w'.clock == w.clock + 1
    && w.clock in w'.snapshots
    && w'.snapshots == w.snapshots[w.clock := w'.snapshots[w.clock]]
    && w'.snapshots[w.clock] == snap.(window := w'.snapshots[w.clock].window)
  }

  /** All of it done, the actor recorded in the file and the marker set. */
  predicate FullyOpened(w: World, w': World, snap: Snapshot, actor: Actor) {
    && PartlyOpened(w, w', snap, |snap.rulesets|, |snap.rules|, actor)
    && w'.marker == Some(w.clock)
    && w'.snapshots[w.clock].window.Some? && w'.snapshots[w.clock].window.value.actor == actor
    && (forall r <- snap.rulesets :: Protected(r.body) ==> Present(r.body.bypass, actor).Some?)
  }

  lemma OpensPartly(reply: Replies, w: World, calls: nat, snap: Snapshot, actor: Actor) returns (k: nat, m: nat)
    requires ValidRemote(w.remote) && SnapshotOf(snap, w.remote) && w.clock !in w.snapshots
    ensures var (w', ok) := OpenWindow(reply, WriteSnapshot(w.(calls := calls), snap), w.clock, snap, actor);
            && PartlyOpened(w, w', snap, k, m, actor)
            && (if ok then FullyOpened(w, w', snap, actor) else w'.snapshots[w.clock] == snap && w'.marker == w.marker)
  {
    hide Protected, IsReviewerRule, Present, Opened, Remaining, OpenRulesets, DeleteReviewerRules, EnsureAutomationEnv;
    var base, list := w.remote.rulesets, snap.rulesets;
    OpenedNothing(base, list, actor);
    k := OpensPrefix(reply, calls, base, base, list, 0, {}, [], actor);
    m := 0;
    RemainingAll(w.remote.rules);
    var first := OpenRulesets(reply, calls, base, list, 0, {}, [], actor);
    if first.ok {
      OpeningDecidesAll(reply, calls, base, base, list, 0, {}, [], actor);
      assert forall r <- list :: Protected(r.body) ==> Present(r.body.bypass, actor).Some?;
      m := DeletesFromSnapshot(reply, first.calls, w.remote.rules, snap.rules);
    }
  }

  /** Write-ahead: wherever an `enable` run stops, either nothing remote changed and no file was written, or
      a snapshot of the exact earlier state is on disk and the live state is that snapshot with the actor
      added to a prefix of its rulesets and a prefix of its reviewer rules deleted. A completed run did
      all of both, recorded the actor, kept the earlier lists in the file and set the marker. */
  lemma EnableWritesAhead(reply: Replies, w: World, actor: Actor, minutes: int, confirmed: bool, force: bool)
    returns (snap: Snapshot, k: nat, m: nat)
    requires ValidWorld(w)
    ensures var (w', ok) := Enable(reply, w, actor, minutes, confirmed, force);
            if w'.snapshots == w.snapshots then !ok && w' == w.(calls := w'.calls)
            else PartlyOpened(w, w', snap, k, m, actor) && snap.window.None? &&
                 if ok then FullyOpened(w, w', snap, actor) else w'.snapshots[w.clock] == snap && w'.marker == w.marker
  {
    hide Protected, IsReviewerRule, Present, Opened, Remaining, SupportsBypass, OpenWindow, BuildSnapshot;
    snap, k, m := Snapshot([], [], None), 0, 0;
    if confirmed && 15 <= Ttl(minutes) <= 480 && (w.marker.None? || force) {
      SnapshotIsFaithful(reply, w.remote, w.calls);
      var (snapshot, n) := BuildSnapshot(reply, w.remote, w.calls);
      if snapshot.Some? && SupportsBypass(snapshot.value.rulesets) {
        snap := snapshot.value;
        k, m := OpensPartly(reply, w, w.calls + n, snap, actor);
      }
    }
  }

  /** Whatever an `enable` run changed remotely can be read back, unaltered, from the snapshot it wrote. */
  lemma EveryChangeIsRecorded(reply: Replies, w: World, actor: Actor, minutes: int, confirmed: bool, force: bool)
    requires ValidWorld(w)
    ensures var (w', _) := Enable(reply, w, actor, minutes, confirmed, force);
            && (forall id <- w.remote.rulesets :: id in w'.remote.rulesets)
            && (forall id <- w.remote.rulesets :: w'.remote.rulesets[id] != w.remote.rulesets[id] ==>
                  w.clock in w'.snapshots && Numbered(id, w.remote.rulesets[id]) in w'.snapshots[w.clock].rulesets)
            && (forall r <- w.remote.rules :: r !in w'.remote.rules ==>
                  w.clock in w'.snapshots && r in w'.snapshots[w.clock].rules)
  {
    var snap, k, m := EnableWritesAhead(reply, w, actor, minutes, confirmed, force);
    var (w', _) := Enable(reply, w, actor, minutes, confirmed, force);
    if w'.snapshots != w.snapshots {
      forall id | id in w.remote.rulesets && w'.remote.rulesets[id] != w.remote.rulesets[id]
        ensures Numbered(id, w.remote.rulesets[id]) in w'.snapshots[w.clock].rulesets
      {
        var i :| 0 <= i < k && Protected(snap.rulesets[i].body) && snap.rulesets[i].id == id;
        assert snap.rulesets[i] in snap.rulesets;
      }
    }
  }

  /** Everything the run read successfully, it recorded: with no failing read the snapshot is the full state. */
  lemma FullSnapshotWhenReadsSucceed(reply: Replies, w: World, actor: Actor, minutes: int, confirmed: bool, force: bool)
    requires ValidWorld(w)
    requires AllDone(reply, w.calls, w.calls + BuildSnapshot(reply, w.remote, w.calls).1)
    ensures var (w', _) := Enable(reply, w, actor, minutes, confirmed, force);
            w'.snapshots == w.snapshots || (w.clock in w'.snapshots && FullSnapshotOf(w'.snapshots[w.clock], w.remote))
  {
    hide Protected, IsReviewerRule, Present, Opened, Remaining, SupportsBypass, OpenWindow, BuildSnapshot;
    SnapshotIsFaithful(reply, w.remote, w.calls);
    var (snapshot, n) := BuildSnapshot(reply, w.remote, w.calls);
    if confirmed && 15 <= Ttl(minutes) <= 480 && (w.marker.None? || force) && SupportsBypass(snapshot.value.rulesets) {
      var k, m := OpensPartly(reply, w, w.calls + n, snapshot.value, actor);
    }
  }
}
