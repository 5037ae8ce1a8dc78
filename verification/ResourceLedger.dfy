/** internal/bootstrap: the builders acquire clients one by one and chain cleanup closures. A ledger records every
    acquisition and every release; a cleanup is the sequence of releases that running it performs. */
module ResourceLedger {
  import opened Sequences

  datatype Resource = Postgres | Redis | Temporal | Nats | Mqtt

  /** A closure: nothing, one release, or one closure after another. */
  datatype Cleanup = Noop | Release(handle: nat) | Then(first: Cleanup, second: Cleanup)

  /** The releases a closure performs, in order. */
  function Owes(c: Cleanup): seq<nat> {
    match c
    case Noop => []
    case Release(h) => [h]
    case Then(a, b) => Owes(a) + Owes(b)
  }

  /// Stretches of the ledger

  /** The handles acquired from `from` on and before `until`, newest first. */
  function NewestFirst(from: nat, until: nat): (s: seq<nat>)
    requires from <= until
    ensures |s| == until - from && forall i :: 0 <= i < |s| ==> s[i] == until - 1 - i
  {
    seq(until - from, i requires 0 <= i < until - from => until - 1 - i)
  }

  function OldestFirst(from: nat, until: nat): (s: seq<nat>)
    requires from <= until
    ensures |s| == until - from && forall i :: 0 <= i < |s| ==> s[i] == from + i
  {
    seq(until - from, i => from + i)
  }

  lemma StretchGrows(from: nat, until: nat)
    requires from <= until
    ensures NewestFirst(from, until + 1) == [until] + NewestFirst(from, until)
    ensures OldestFirst(from, until + 1) == OldestFirst(from, until) + [until]
  {
  }

  lemma StretchesJoin(from: nat, mid: nat, until: nat)
    requires from <= mid <= until
    ensures NewestFirst(mid, until) + NewestFirst(from, mid) == NewestFirst(from, until)
  {
  }

  /** Either order releases every handle of the stretch exactly once and no other. */
  lemma {:induction false} EachOnce(from: nat, until: nat, h: nat)
    requires from <= until
    ensures multiset(NewestFirst(from, until))[h] == if from <= h < until then 1 else 0
    ensures multiset(OldestFirst(from, until)) == multiset(NewestFirst(from, until))
    decreases until
  {
    hide NewestFirst, OldestFirst;
    if from < until {
      EachOnce(from, until - 1, h);
      StretchGrows(from, until - 1);
    } else {
      assert NewestFirst(from, until) == [] && OldestFirst(from, until) == [];
    }
  }

  class Ledger {
    var acquired: seq<Resource>
    var released: seq<nat>

    constructor ()
      ensures acquired == [] && released == []
    {
      acquired, released := [], [];
    }

    method Acquire(r: Resource) returns (handle: nat)
      modifies `acquired
      ensures handle == |old(acquired)| && acquired == old(acquired) + [r]
    {
      handle := |acquired|;
      acquired := acquired + [r];
    }

    method Run(c: Cleanup)
      modifies `released
      ensures released == old(released) + Owes(c)
      decreases c
    {
      match c
      case Noop =>
      case Release(h) =>
        released := released + [h];
      case Then(a, b) =>
        Run(a);
        Run(b);
    }
  }

  /// internal/bootstrap/temporal.go

  /** A constructor gives a client, gives none because it is not configured, or fails. */
  datatype Outcome = Client | Unconfigured | Failure

  datatype TemporalOutcome = TemporalOutcome(dialed: bool, bounded: bool)

  /** On an error nothing stays open and no cleanup is returned; otherwise the cleanup owes what was opened. */
  method BuildWorkflowOrchestration(ledger: Ledger, enabled: bool, o: TemporalOutcome)
    returns (cleanup: Cleanup, ok: bool)
    modifies ledger
    ensures ok <==> (enabled ==> o.dialed && o.bounded)
    ensures ledger.acquired == old(ledger.acquired) + if enabled && o.dialed then [Temporal] else []
    ensures var taken := NewestFirst(|old(ledger.acquired)|, |ledger.acquired|);
            if ok then ledger.released == old(ledger.released) && Owes(cleanup) == taken
            else ledger.released == old(ledger.released) + taken
  {
    if !enabled {
      return Noop, true;
    }
    if !o.dialed {
      return Noop, false;
    }
    StretchGrows(|ledger.acquired|, |ledger.acquired|);
    var client := ledger.Acquire(Temporal);
    if !o.bounded {
      ledger.Run(Release(client));
      return Noop, false;
    }
    return Release(client), true;
  }

  /// internal/bootstrap/runtime.go

  datatype RuntimeConfig = RuntimeConfig(
    temporalEnabled: bool, natsRequired: bool, requireNatsRuntime: bool, requireOutboxPublisher: bool)

  datatype RuntimeOutcome = RuntimeOutcome(
    pool: Outcome, redis: Outcome, temporal: TemporalOutcome, nats: bool, streams: bool)

  /** JetStream serves the required broker, the required runtime and the outbox publisher. */
  predicate NeedsNats(cfg: RuntimeConfig) {
    cfg.natsRequired || cfg.requireNatsRuntime || cfg.requireOutboxPublisher
  }

  predicate RuntimeBuilds(cfg: RuntimeConfig, o: RuntimeOutcome) {
    && o.pool != Failure && o.redis != Failure
    && (cfg.temporalEnabled ==> o.temporal.dialed && o.temporal.bounded)
    && (cfg.natsRequired || cfg.requireNatsRuntime || cfg.requireOutboxPublisher ==> o.nats && o.streams)
  }

  class Runtime {
    const close: Cleanup
    var mqttClose: Cleanup

    constructor (close: Cleanup)
      ensures this.close == close && mqttClose == Noop
    {
      this.close := close;
      mqttClose := Noop;
    }

    method SetMqttDisconnect(hook: Cleanup)
      modifies this
      ensures mqttClose == hook
    {
      mqttClose := hook;
    }

    /** The MQTT hook first, then the chain of the builder. */
    method Close(ledger: Ledger)
      modifies ledger
      ensures ledger.released == old(ledger.released) + (Owes(mqttClose) + Owes(close))
      ensures ledger.acquired == old(ledger.acquired)
    {
      ledger.Run(mqttClose);
      ledger.Run(close);
    }
  }

  function StoresAcquired(pool: Outcome, redis: Outcome): seq<Resource> {
    if pool == Failure then []
    else (if pool == Client then [Postgres] else []) + (if redis == Client then [Redis] else [])
  }

  /** What building opens, in order: it stops at the first failure. */
  function RuntimeAcquires(cfg: RuntimeConfig, o: RuntimeOutcome): seq<Resource> {
    var stores := StoresAcquired(o.pool, o.redis);
    if o.pool == Failure || o.redis == Failure then stores
    else
      var temporal := stores + if cfg.temporalEnabled && o.temporal.dialed then [Temporal] else [];
      if (cfg.temporalEnabled ==> o.temporal.dialed && o.temporal.bounded) && NeedsNats(cfg) && o.nats
      then temporal + [Nats]
      else temporal
  }

  function Rank(r: Resource): nat {
    match r
    case Postgres => 0
    case Redis => 1
    case Temporal => 2
    case Nats => 3
    case Mqtt => 4
  }

  lemma StoresOpen(pool: Outcome, redis: Outcome)
    ensures var stores := StoresAcquired(pool, redis);
            && (Postgres in stores <==> pool == Client)
            && (Redis in stores <==> pool != Failure && redis == Client)
            && (forall r <- stores :: r in {Postgres, Redis})
            && (forall i :: 0 <= i < |stores| ==> Rank(stores[i]) < 2)
            && (forall i, j :: 0 <= i < j < |stores| ==> Rank(stores[i]) < Rank(stores[j]))
  {
  }

  /** Which resources building opens, each at most once and in this order. */
  lemma RuntimeOpens(cfg: RuntimeConfig, o: RuntimeOutcome)
    ensures var taken := RuntimeAcquires(cfg, o);
            && (Postgres in taken <==> o.pool == Client)
            && (Redis in taken <==> o.pool != Failure && o.redis == Client)
            && (Temporal in taken <==>
                  o.pool != Failure && o.redis != Failure && cfg.temporalEnabled && o.temporal.dialed)
            && (Nats in taken <==>
                  && o.pool != Failure && o.redis != Failure
                  && (cfg.temporalEnabled ==> o.temporal.dialed && o.temporal.bounded)
                  && (cfg.natsRequired || cfg.requireNatsRuntime || cfg.requireOutboxPublisher) && o.nats)
            && Mqtt !in taken
  {
    hide StoresAcquired;
    StoresOpen(o.pool, o.redis);
  }

  lemma RuntimeOpensInOrder(cfg: RuntimeConfig, o: RuntimeOutcome)
    ensures var taken := RuntimeAcquires(cfg, o);
            forall i, j :: 0 <= i < j < |taken| ==> Rank(taken[i]) < Rank(taken[j])
  {
    hide StoresAcquired, NeedsNats;
    StoresOpen(o.pool, o.redis);
    var stores := StoresAcquired(o.pool, o.redis);
  }

  /** The database pool and the Redis client, both optional. */
  method OpenStores(ledger: Ledger, pool: Outcome, redis: Outcome) returns (closeFn: Cleanup, ok: bool)
    modifies ledger
    ensures ok <==> pool != Failure && redis != Failure
    ensures ledger.acquired == old(ledger.acquired) + StoresAcquired(pool, redis)
    ensures var taken := NewestFirst(|old(ledger.acquired)|, |ledger.acquired|);
            if ok then ledger.released == old(ledger.released) && Owes(closeFn) == taken
            else ledger.released == old(ledger.released) + taken
  {
    hide NewestFirst;
    ghost var start := |ledger.acquired|;
    closeFn := Noop;
    if pool == Failure {
      return closeFn, false;
    }
    StretchGrows(start, start);
    if pool == Client {
      var handle := ledger.Acquire(Postgres);
      closeFn := Release(handle);
    }
    if redis == Failure {
      ledger.Run(closeFn);
      return closeFn, false;
    }
    if redis == Client {
      StretchGrows(start, |ledger.acquired|);
      var handle := ledger.Acquire(Redis);
      closeFn := Then(Release(handle), closeFn);
    }
    ok := true;
  }

  /** The workflow client, if enabled; `closeFn` owes everything from `start` on. */
  method OpenTemporal(ledger: Ledger, enabled: bool, o: TemporalOutcome, closeFn: Cleanup, ghost start: nat)
    returns (after: Cleanup, ok: bool)
    requires start <= |ledger.acquired| && Owes(closeFn) == NewestFirst(start, |ledger.acquired|)
    modifies ledger
    ensures ok <==> (enabled ==> o.dialed && o.bounded)
    ensures ledger.acquired == old(ledger.acquired) + if enabled && o.dialed then [Temporal] else []
    ensures var taken := NewestFirst(start, |ledger.acquired|);
            if ok then ledger.released == old(ledger.released) && Owes(after) == taken
            else ledger.released == old(ledger.released) + taken
  {
    hide NewestFirst;
    ghost var mid := |ledger.acquired|;
    var temporalCleanup;
    temporalCleanup, ok := BuildWorkflowOrchestration(ledger, enabled, o);
    ghost var newer := NewestFirst(mid, |ledger.acquired|);
    StretchesJoin(start, mid, |ledger.acquired|);
    if !ok {
      Regroup(old(ledger.released), newer, NewestFirst(start, mid));
      ledger.Run(closeFn);
      return closeFn, false;
    }
    return Then(temporalCleanup, closeFn), true;
  }

  /** The JetStream client and its streams; `closeFn` owes everything from `start` on. */
  method OpenNats(ledger: Ledger, connected: bool, streams: bool, closeFn: Cleanup, ghost start: nat)
    returns (after: Cleanup, ok: bool)
    requires start <= |ledger.acquired| && Owes(closeFn) == NewestFirst(start, |ledger.acquired|)
    modifies ledger
    ensures ok <==> connected && streams
    ensures ledger.acquired == old(ledger.acquired) + if connected then [Nats] else []
    ensures var taken := NewestFirst(start, |ledger.acquired|);
            if ok then ledger.released == old(ledger.released) && Owes(after) == taken
            else ledger.released == old(ledger.released) + taken
  {
    hide NewestFirst;
    if !connected {
      ledger.Run(closeFn);
      return closeFn, false;
    }
    StretchGrows(start, |ledger.acquired|);
    var client := ledger.Acquire(Nats);
    if !streams {
      ledger.Run(Release(client));
      ledger.Run(closeFn);
      return closeFn, false;
    }
    return Then(Release(client), closeFn), true;
  }

  /** On an error everything opened has been released, newest first; on success the returned runtime owes exactly
      that, and nothing has been released. */
  method BuildRuntime(ledger: Ledger, cfg: RuntimeConfig, o: RuntimeOutcome) returns (runtime: Runtime?)
    modifies ledger
    ensures (runtime != null <==> RuntimeBuilds(cfg, o)) && (runtime != null ==> fresh(runtime))
    ensures ledger.acquired == old(ledger.acquired) + RuntimeAcquires(cfg, o)
    ensures var taken := NewestFirst(|old(ledger.acquired)|, |ledger.acquired|);
            if runtime == null then ledger.released == old(ledger.released) + taken
            else ledger.released == old(ledger.released) && Owes(runtime.close) == taken && runtime.mqttClose == Noop
  {
    hide NewestFirst, StoresAcquired;
    ghost var start := |ledger.acquired|;
    var closeFn, ok := OpenStores(ledger, o.pool, o.redis);
    if !ok {
      return null;
    }
    closeFn, ok := OpenTemporal(ledger, cfg.temporalEnabled, o.temporal, closeFn, start);
    if !ok {
      return null;
    }
    if NeedsNats(cfg) {
      closeFn, ok := OpenNats(ledger, o.nats, o.streams, closeFn, start);
      if !ok {
        return null;
      }
    }
    runtime := new Runtime(closeFn);
  }

  /** A runtime's life: whatever the MQTT hook owes is opened after building, and one `Close` releases everything
      in exactly the reverse of the order it was opened. */
  method RunOnce(ledger: Ledger, cfg: RuntimeConfig, o: RuntimeOutcome, mqtt: bool)
    modifies ledger
    ensures old(ledger.acquired) <= ledger.acquired
    ensures ledger.released == old(ledger.released) + NewestFirst(|old(ledger.acquired)|, |ledger.acquired|)
  {
    hide NewestFirst;
    ghost var start := |ledger.acquired|;
    var runtime := BuildRuntime(ledger, cfg, o);
    if runtime == null {
      return;
    }
    ghost var mid := |ledger.acquired|;
    StretchGrows(mid, mid);
    if mqtt {
      var publisher := ledger.Acquire(Mqtt);
      runtime.SetMqttDisconnect(Release(publisher));
    }
    StretchesJoin(start, mid, |ledger.acquired|);
    runtime.Close(ledger);
  }

  /** Closing is not idempotent: a second `Close` releases everything again. */
  method CloseTwice(ledger: Ledger, runtime: Runtime)
    modifies ledger
    ensures forall h :: multiset(ledger.released)[h] == multiset(old(ledger.released))[h]
                        + 2 * multiset(Owes(runtime.mqttClose) + Owes(runtime.close))[h]
  {
    runtime.Close(ledger);
    runtime.Close(ledger);
  }

  /// internal/bootstrap/reconciler.go

  datatype ReconcilerConfig = ReconcilerConfig(actionsEnabled: bool, probeConfigured: bool)

  datatype ReconcilerOutcome = ReconcilerOutcome(redis: Outcome, gateway: bool, nats: bool, sink: bool)

  predicate GatewayFails(cfg: ReconcilerConfig, o: ReconcilerOutcome) {
    cfg.probeConfigured && !o.gateway
  }

  predicate ReconcilerBuilds(cfg: ReconcilerConfig, o: ReconcilerOutcome) {
    o.redis != Failure && (cfg.actionsEnabled ==> (cfg.probeConfigured ==> o.gateway) && o.nats && o.sink)
  }

  /** The refund review sink is the one step whose failure runs the cleanup instead of returning it. */
  predicate SinkFails(cfg: ReconcilerConfig, o: ReconcilerOutcome) {
    o.redis != Failure && cfg.actionsEnabled && (cfg.probeConfigured ==> o.gateway) && o.nats && !o.sink
  }

  function ReconcilerAcquires(cfg: ReconcilerConfig, o: ReconcilerOutcome): seq<Resource> {
    var redis: seq<Resource> := if o.redis == Client then [Redis] else [];
    if o.redis != Failure && cfg.actionsEnabled && !GatewayFails(cfg, o) && o.nats then redis + [Nats] else redis
  }

  lemma ReconcilerOpens(cfg: ReconcilerConfig, o: ReconcilerOutcome)
    ensures var taken := ReconcilerAcquires(cfg, o);
            && (Redis in taken <==> o.redis == Client)
            && (Nats in taken <==>
                  o.redis != Failure && cfg.actionsEnabled && (cfg.probeConfigured ==> o.gateway) && o.nats)
            && (forall i, j :: 0 <= i < j < |taken| ==> Rank(taken[i]) < Rank(taken[j]))
            && forall r <- taken :: r in {Redis, Nats}
  {
  }

  /** In every outcome the resources left open are exactly those the returned cleanup releases, once each and
      oldest first; only a failing sink has them released already. */
  method BuildReconcilerDeps(ledger: Ledger, cfg: ReconcilerConfig, o: ReconcilerOutcome)
    returns (cleanup: Cleanup, ok: bool)
    modifies ledger
    ensures ok <==> ReconcilerBuilds(cfg, o)
    ensures ledger.acquired == old(ledger.acquired) + ReconcilerAcquires(cfg, o)
    ensures var taken := OldestFirst(|old(ledger.acquired)|, |ledger.acquired|);
            if SinkFails(cfg, o) then ledger.released == old(ledger.released) + taken && Owes(cleanup) == []
            else ledger.released == old(ledger.released) && Owes(cleanup) == taken
  {
    hide OldestFirst;
    ghost var start := |ledger.acquired|;
    cleanup := Noop;
    assert OldestFirst(start, start) == [];
    if o.redis == Failure {
      return cleanup, false;
    }
    StretchGrows(start, start);
    if o.redis == Client {
      var rdb := ledger.Acquire(Redis);
      cleanup := Then(cleanup, Release(rdb));
    }
    assert Owes(cleanup) == OldestFirst(start, |ledger.acquired|);
    if !cfg.actionsEnabled {
      return cleanup, true;
    }
    if cfg.probeConfigured && !o.gateway {
      return cleanup, false;
    }
    if !o.nats {
      return cleanup, false;
    }
    StretchGrows(start, |ledger.acquired|);
    var client := ledger.Acquire(Nats);
    cleanup := Then(cleanup, Release(client));
    assert Owes(cleanup) == OldestFirst(start, |ledger.acquired|);
    if !o.sink {
      ledger.Run(cleanup);
      return Noop, false;
    }
    ok := true;
  }

  /** When an error comes back together with an open resource: the caller must run the cleanup even then. */
  lemma OpenOnErrorIff(cfg: ReconcilerConfig, o: ReconcilerOutcome)
    ensures !ReconcilerBuilds(cfg, o) && ReconcilerAcquires(cfg, o) != [] && !SinkFails(cfg, o) <==>
            o.redis == Client && cfg.actionsEnabled && ((cfg.probeConfigured && !o.gateway) || !o.nats)
  {
  }

  /// internal/bootstrap/temporal_worker.go

  /** On an error nothing stays open; otherwise the cleanup owes the one client opened. */
  method BuildTemporalWorkerActivityDeps(ledger: Ledger, natsConfigured: bool, nats: bool, sink: bool)
    returns (cleanup: Cleanup, ok: bool)
    modifies ledger
    ensures ok <==> natsConfigured && nats && sink
    ensures ledger.acquired == old(ledger.acquired) + if natsConfigured && nats then [Nats] else []
    ensures var taken := NewestFirst(|old(ledger.acquired)|, |ledger.acquired|);
            if ok then ledger.released == old(ledger.released) && Owes(cleanup) == taken
            else ledger.released == old(ledger.released) + taken && Owes(cleanup) == []
  {
    if !natsConfigured || !nats {
      return Noop, false;
    }
    StretchGrows(|ledger.acquired|, |ledger.acquired|);
    var client := ledger.Acquire(Nats);
    if !sink {
      ledger.Run(Release(client));
      return Noop, false;
    }
    return Release(client), true;
  }
}
