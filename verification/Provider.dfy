/**
 Many executions of many tenants sharing one provider that deduplicates on the idempotency header:
 the effects it applies, over every interleaving of every actor of every execution.
 */
module Provider {
  import opened Wrappers
  import opened WorkflowStore
  import opened RetryScheduler
  import opened Protocol
  import opened Invariants
  import opened RunSafety
  import opened Completion
  import opened Trust
  import opened IdempotencyKey

  /** One execution: what it runs, what has happened to it, and the state it is in. */
  datatype Instance = Instance(tenant: string, wf: Workflow, start: int, history: seq<Event>, s: State)

  /** A keyed request that reached the provider. */
  datatype Delivery = Delivery(execution: string, at: nat, key: string)

  datatype Effect = Effect(execution: string, at: nat)

  datatype World = World(instances: map<string, Instance>, log: seq<Delivery>)

  datatype WorldEvent =
    | Trigger(execution: string, tenant: string, wf: Workflow, now: int)
    | Local(execution: string, ev: Event)

  /** Ids the database generates. */
  predicate IsId(id: string) {
    id != "" && ColonFree(id)
  }

  /** Step ids are generated primary keys. */
  predicate HasStepIds(wf: Workflow) {
    && (forall i :: 0 <= i < |wf| ==> IsId(wf[i].id))
    && (forall i, j :: 0 <= i < j < |wf| ==> wf[i].id != wf[j].id)
  }

  predicate WorldEnabled(world: World, e: WorldEvent) {
    match e
    case Trigger(execution, tenant, wf, _) =>
      execution !in world.instances && IsId(execution) && HasStepIds(wf)
    case Local(execution, ev) =>
      execution in world.instances && Enabled(world.instances[execution].wf, world.instances[execution].s, ev)
  }

  /** The event delivers a request that carries the idempotency header. */
  predicate Delivers(inst: Instance, ev: Event) {
    && ev.Work? && ev.act == DoSend(true)
    && ev.w in inst.s.workers && inst.s.workers[ev.w].at < |inst.wf| && inst.wf[inst.s.workers[ev.w].at].idempotent
  }

  function WorldApply(cfg: RetryPolicyConfig, world: World, e: WorldEvent): World
    requires WorldEnabled(world, e)
  {
    match e
    case Trigger(execution, tenant, wf, now) =>
      world.(instances := world.instances[execution := Instance(tenant, wf, now, [], Triggered(now))])
    case Local(execution, ev) =>
      var inst := world.instances[execution];
      var inst' := inst.(history := inst.history + [ev], s := Apply(inst.wf, cfg, inst.s, ev));
      var log' :=
        if Delivers(inst, ev) then
          var at := inst.s.workers[ev.w].at;
          world.log + [Delivery(execution, at, StepKey(inst.tenant, execution, inst.wf[at].id))]
        else world.log;
      World(world.instances[execution := inst'], log')
  }

  predicate IsWorldRun(cfg: RetryPolicyConfig, world: World, es: seq<WorldEvent>)
    decreases |es|
  {
    es == [] || (WorldEnabled(world, es[0]) && IsWorldRun(cfg, WorldApply(cfg, world, es[0]), es[1..]))
  }

  function WorldAfter(cfg: RetryPolicyConfig, world: World, es: seq<WorldEvent>): World
    requires IsWorldRun(cfg, world, es)
    decreases |es|
  {
    if es == [] then world else WorldAfter(cfg, WorldApply(cfg, world, es[0]), es[1..])
  }

  const EMPTY_WORLD := World(map[], [])

  // ----- the deduplicating provider

  predicate Seen(log: seq<Delivery>, key: string) {
    exists i :: 0 <= i < |log| && log[i].key == key
  }

  /** The effects of a log: a request is applied when its key is new, and answered from memory otherwise. */
  function Applied(log: seq<Delivery>): seq<Effect> {
    if log == [] then []
    else
      var init, last := log[..|log| - 1], log[|log| - 1];
      if Seen(init, last.key) then Applied(init) else Applied(init) + [Effect(last.execution, last.at)]
  }

  predicate Requests(d: Delivery, effect: Effect) {
    d.execution == effect.execution && d.at == effect.at
  }

  predicate WasDelivered(log: seq<Delivery>, effect: Effect) {
    exists i :: 0 <= i < |log| && Requests(log[i], effect)
  }

  /** In the log, key and step determine each other. */
  predicate KeysIdentifySteps(log: seq<Delivery>) {
    forall i, j :: 0 <= i < |log| && 0 <= j < |log| ==>
      (log[i].key == log[j].key <==> log[i].execution == log[j].execution && log[i].at == log[j].at)
  }

  lemma {:induction false} DeduplicationIsExact(log: seq<Delivery>, effect: Effect)
    requires KeysIdentifySteps(log)
    ensures multiset(Applied(log))[effect] == if WasDelivered(log, effect) then 1 else 0
  {
    if log == [] {
    } else {
      var init, last := log[..|log| - 1], log[|log| - 1];
      DeduplicationIsExact(init, effect);
      assert log == init + [last];
      if Requests(last, effect) {
        assert Seen(init, last.key) <==> WasDelivered(init, effect);
        assert WasDelivered(log, effect);
      } else {
        assert WasDelivered(log, effect) <==> WasDelivered(init, effect);
      }
    }
  }

  // ----- worlds

  ghost predicate InstanceInv(cfg: RetryPolicyConfig, inst: Instance) {
    && HasStepIds(inst.wf)
    && IsRun(inst.wf, cfg, Triggered(inst.start), inst.history)
    && inst.s == After(inst.wf, cfg, Triggered(inst.start), inst.history)
  }

  ghost predicate DeliveryInv(world: World, d: Delivery) {
    && d.execution in world.instances
    && var inst := world.instances[d.execution];
    && d.at < |inst.wf| && inst.wf[d.at].http && inst.wf[d.at].idempotent
    && d.key == StepKey(inst.tenant, d.execution, inst.wf[d.at].id)
  }

  ghost predicate WorldInv(cfg: RetryPolicyConfig, world: World) {
    && (forall x :: x in world.instances ==> IsId(x) && InstanceInv(cfg, world.instances[x]))
    && (forall i :: 0 <= i < |world.log| ==> DeliveryInv(world, world.log[i]))
    && (forall x :: x in world.instances ==> RequestsLogged(world, x))
  }

  /** Every delivered request of a keyed step is in the provider's log. */
  ghost predicate RequestsLogged(world: World, x: string)
    requires x in world.instances
  {
    var inst := world.instances[x];
    forall r :: r in inst.s.requests && r.delivered && r.key.at < |inst.wf| && inst.wf[r.key.at].idempotent ==>
      WasDelivered(world.log, Effect(x, r.key.at))
  }

  lemma LocalEventKeepsInstance(cfg: RetryPolicyConfig, inst: Instance, ev: Event)
    requires InstanceInv(cfg, inst) && Enabled(inst.wf, inst.s, ev)
    ensures InstanceInv(cfg, inst.(history := inst.history + [ev], s := Apply(inst.wf, cfg, inst.s, ev)))
  {
    RunThen(inst.wf, cfg, Triggered(inst.start), inst.history, ev);
  }

  lemma LocalEventIsLogged(cfg: RetryPolicyConfig, world: World, execution: string, ev: Event)
    requires WorldInv(cfg, world) && WorldEnabled(world, Local(execution, ev))
    ensures RequestsLogged(WorldApply(cfg, world, Local(execution, ev)), execution)
  {
    var inst := world.instances[execution];
    var world' := WorldApply(cfg, world, Local(execution, ev));
    var inst' := world'.instances[execution];
    if ev.Work? {
      ActSteps(inst.wf, inst.s.now, ViewOf(inst.s, ev.w), ev.act);
    } else {
      OtherSteps(inst.wf, cfg, inst.s, ev);
    }
    assert world.log <= world'.log;
    forall r | r in inst'.s.requests && r.delivered && r.key.at < |inst.wf| && inst.wf[r.key.at].idempotent
      ensures WasDelivered(world'.log, Effect(execution, r.key.at))
    {
      var effect := Effect(execution, r.key.at);
      if r in inst.s.requests {
        assert RequestsLogged(world, execution);
        var i :| 0 <= i < |world.log| && Requests(world.log[i], effect);
        assert Requests(world'.log[i], effect);
      } else {
        assert Delivers(inst, ev);
        assert Requests(world'.log[|world.log|], effect);
      }
    }
  }

  lemma WorldEventKeepsInv(cfg: RetryPolicyConfig, world: World, e: WorldEvent)
    requires WorldInv(cfg, world) && WorldEnabled(world, e)
    ensures WorldInv(cfg, WorldApply(cfg, world, e))
  {
    var world' := WorldApply(cfg, world, e);
    assert world.log <= world'.log;
    if e.Local? {
      LocalEventKeepsInstance(cfg, world.instances[e.execution], e.ev);
      LocalEventIsLogged(cfg, world, e.execution, e.ev);
    }
    forall i | 0 <= i < |world'.log|
      ensures DeliveryInv(world', world'.log[i])
    {
      if i < |world.log| {
        assert DeliveryInv(world, world.log[i]);
      }
    }
    forall x | x in world'.instances
      ensures RequestsLogged(world', x)
    {
      if x != e.execution {
        LoggedStays(world, world', x);
      }
    }
  }

  lemma LoggedStays(world: World, world': World, x: string)
    requires x in world.instances && x in world'.instances && world'.instances[x] == world.instances[x]
    requires RequestsLogged(world, x) && world.log <= world'.log
    ensures RequestsLogged(world', x)
  {
  }

  lemma {:induction false} WorldRunKeepsInv(cfg: RetryPolicyConfig, world: World, es: seq<WorldEvent>)
    requires WorldInv(cfg, world) && IsWorldRun(cfg, world, es)
    ensures WorldInv(cfg, WorldAfter(cfg, world, es))
    decreases |es|
  {
    if es == [] {
    } else {
      WorldEventKeepsInv(cfg, world, es[0]);
      WorldRunKeepsInv(cfg, WorldApply(cfg, world, es[0]), es[1..]);
    }
  }

  lemma WorldKeysIdentifySteps(cfg: RetryPolicyConfig, world: World)
    requires WorldInv(cfg, world)
    ensures KeysIdentifySteps(world.log)
  {
    forall i, j | 0 <= i < |world.log| && 0 <= j < |world.log|
      ensures world.log[i].key == world.log[j].key <==>
              world.log[i].execution == world.log[j].execution && world.log[i].at == world.log[j].at
    {
      var d, d' := world.log[i], world.log[j];
      assert DeliveryInv(world, d) && DeliveryInv(world, d');
      var inst, inst' := world.instances[d.execution], world.instances[d'.execution];
      KeysAreInjective({ExecutionPart, StepPart}, inst.tenant, d.execution, inst.wf[d.at].id,
                       inst'.tenant, d'.execution, inst'.wf[d'.at].id);
    }
  }

  /**
   Over every interleaving of workers, crashes, stalls, retries, scans and replays, the provider applies
   the effect of a keyed step once if any of its requests was delivered, and not at all otherwise. Only
   HTTP steps that are configured as idempotent are keyed.
   */
  lemma EffectAppliedAtMostOnce(cfg: RetryPolicyConfig, es: seq<WorldEvent>, effect: Effect)
    requires IsWorldRun(cfg, EMPTY_WORLD, es)
    ensures var World(instances, log) := WorldAfter(cfg, EMPTY_WORLD, es);
            && multiset(Applied(log))[effect] == (if WasDelivered(log, effect) then 1 else 0)
            && (WasDelivered(log, effect) ==>
                  && effect.execution in instances && effect.at < |instances[effect.execution].wf|
                  && var step := instances[effect.execution].wf[effect.at]; step.http && step.idempotent)
  {
    WorldRunKeepsInv(cfg, EMPTY_WORLD, es);
    var world := WorldAfter(cfg, EMPTY_WORLD, es);
    if WasDelivered(world.log, effect) {
      var i :| 0 <= i < |world.log| && Requests(world.log[i], effect);
      assert DeliveryInv(world, world.log[i]);
    }
    WorldKeysIdentifySteps(cfg, world);
    DeduplicationIsExact(world.log, effect);
  }

  /** And exactly once when the execution is completed, under the assumptions that make `completed` trustworthy. */
  lemma EffectAppliedExactlyOnceOnCompletion(cfg: RetryPolicyConfig, es: seq<WorldEvent>, d: Discipline, H: int,
                                             x: string, at: nat)
    requires IsWorldRun(cfg, EMPTY_WORLD, es)
    requires x in WorldAfter(cfg, EMPTY_WORLD, es).instances
    requires var inst := WorldAfter(cfg, EMPTY_WORLD, es).instances[x];
             && SortedByOrder(inst.wf) && OrdersFromOne(inst.wf)
             && Trusted(d) && IsRunUnder(d, H, inst.wf, cfg, Triggered(inst.start), inst.history)
             && inst.s.db.status.Completed?
             && at < |inst.wf| && inst.wf[at].http && inst.wf[at].idempotent
    ensures multiset(Applied(WorldAfter(cfg, EMPTY_WORLD, es).log))[Effect(x, at)] == 1
  {
    WorldRunKeepsInv(cfg, EMPTY_WORLD, es);
    var world := WorldAfter(cfg, EMPTY_WORLD, es);
    var inst := world.instances[x];
    TrustedRunCompletes(d, H, inst.wf, cfg, inst.start, inst.history);
    SuccessWasDelivered(cfg, inst, at);
    assert RequestsLogged(world, x);
    EffectAppliedAtMostOnce(cfg, es, Effect(x, at));
  }

  lemma SuccessWasDelivered(cfg: RetryPolicyConfig, inst: Instance, at: nat)
    requires InstanceInv(cfg, inst) && at < |inst.wf| && inst.wf[at].http && inst.s.db.Succeeded(at)
    ensures exists r :: r in inst.s.requests && r.delivered && r.key.at == at
  {
    ReachableInv(inst.wf, cfg, inst.start, inst.history);
    var key :| key in inst.s.db.rows && key.at == at && inst.s.db.rows[key].status.StepSucceeded?;
    assert Request(key, true) in inst.s.requests;
  }
}
