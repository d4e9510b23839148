/** The Redis commands the limiters use, each one atomic. */
module RedisCounters {
  import opened Wrappers
  import opened CounterProtocol

  class Redis {
    var counts: map<string, int>
    var ttls: map<string, int>

    method Incr(key: string) returns (count: int)
      modifies this`counts
      ensures counts == Add(old(counts), key, 1) && count == Count(counts, key)
    {
      counts := Add(counts, key, 1);
      count := counts[key];
    }

    method Decr(key: string) returns (count: int)
      modifies this`counts
      ensures counts == Add(old(counts), key, -1) && count == Count(counts, key)
    {
      counts := Add(counts, key, -1);
      count := counts[key];
    }

    /** SET, which also takes away the key's time to live. */
    method SetZero(key: string)
      modifies this`counts, this`ttls
      ensures counts == old(counts)[key := 0] && ttls == old(ttls) - {key}
    {
      counts, ttls := counts[key := 0], ttls - {key};
    }

    method Expire(key: string, seconds: int)
      modifies this`ttls
      ensures ttls == old(ttls)[key := seconds]
    {
      ttls := ttls[key := seconds];
    }
  }

  /** Seconds left, or -1 for a key without an expiry. */
  function Ttl(ttls: map<string, int>, key: string): int {
    if key in ttls then ttls[key] else -1
  }
}

/** Which counters a call has to pass, narrowest scope first. */
module OutboundScopes {
  import opened IdempotencyKey
  import opened Wrappers

  datatype ScopeName = StepScope | TenantProviderScope | TenantScope | ProviderScope | GlobalScope

  /** A limit per window; the concurrency limiter's limits have no window. */
  datatype Quota = Quota(limit: int, windowSeconds: int)

  datatype Scope = Scope(name: ScopeName, key: string, quota: Quota)

  datatype Limiter = ConcurrencyLimiter | RateLimiter

  /** Configured quotas; an entry that is missing or not positive means "no limit here". */
  datatype Quotas = Quotas(
    global: Option<Quota>,
    tenants: map<string, Quota>,
    providers: map<string, Quota>,
    tenantProviders: map<string, map<string, Quota>>,
    steps: map<string, Quota>)

  /** Who calls; an empty id counts as missing. The provider has been extracted from the step's configuration. */
  datatype Caller = Caller(tenant: string, provider: string, workflow: string, step: string, stepQuota: Option<Quota>)

  function OrElse(id: string, fallback: string): string {
    if id == "" then fallback else id
  }

  function Lookup(m: map<string, Quota>, key: string): Option<Quota> {
    if key in m then Some(m[key]) else None
  }

  function Tenant(c: Caller): string {
    OrElse(c.tenant, "default")
  }

  function WorkflowName(c: Caller): string {
    OrElse(c.workflow, "wf")
  }

  function StepName(c: Caller): string {
    OrElse(c.step, "step")
  }

  /** The step's own quota wins; a concurrency quota of 0 counts as absent, a rate quota never does. */
  function StepQuota(l: Limiter, q: Quotas, c: Caller): Option<Quota> {
    if c.stepQuota.Some? && !(l.ConcurrencyLimiter? && c.stepQuota.value.limit == 0) then c.stepQuota
    else if c.step != "" then Lookup(q.steps, c.step)
    else None
  }

  function QuotaOf(l: Limiter, name: ScopeName, q: Quotas, c: Caller): Option<Quota> {
    match name
    case StepScope => StepQuota(l, q, c)
    case TenantProviderScope =>
      if Tenant(c) in q.tenantProviders then Lookup(q.tenantProviders[Tenant(c)], c.provider) else None
    case TenantScope => if l.RateLimiter? then None else Lookup(q.tenants, Tenant(c))
    case ProviderScope => Lookup(q.providers, c.provider)
    case GlobalScope => q.global
  }

  /** The quota limits anything at all. */
  predicate Limits(l: Limiter, quota: Option<Quota>) {
    quota.Some? && quota.value.limit > 0 && (l.RateLimiter? ==> quota.value.windowSeconds > 0)
  }

  function Prefix(l: Limiter): string {
    if l.ConcurrencyLimiter? then "outbound:conc:" else "outbound:rate:"
  }

  function KeyOf(l: Limiter, name: ScopeName, c: Caller): string {
    match name
    case StepScope => Prefix(l) + "step:" + (Tenant(c) + ":" + (WorkflowName(c) + ":" + StepName(c)))
    case TenantProviderScope => Prefix(l) + "tenant_provider:" + (Tenant(c) + ":" + c.provider)
    case TenantScope => Prefix(l) + "tenant:" + Tenant(c)
    case ProviderScope => Prefix(l) + "provider:" + c.provider
    case GlobalScope => Prefix(l) + "global"
  }

  function ScopeFor(l: Limiter, name: ScopeName, q: Quotas, c: Caller): seq<Scope> {
    if Limits(l, QuotaOf(l, name, q, c)) then [Scope(name, KeyOf(l, name, c), QuotaOf(l, name, q, c).value)] else []
  }

  /** Narrowest first. */
  const SCOPE_NAMES := [StepScope, TenantProviderScope, TenantScope, ProviderScope, GlobalScope]

  function Rank(name: ScopeName): (rank: nat)
    ensures rank < |SCOPE_NAMES| && SCOPE_NAMES[rank] == name
  {
    match name
    case StepScope => 0
    case TenantProviderScope => 1
    case TenantScope => 2
    case ProviderScope => 3
    case GlobalScope => 4
  }

  function FirstScopes(l: Limiter, q: Quotas, c: Caller, n: nat): seq<Scope>
    requires n <= |SCOPE_NAMES|
  {
    if n == 0 then [] else FirstScopes(l, q, c, n - 1) + ScopeFor(l, SCOPE_NAMES[n - 1], q, c)
  }

  function ScopesToCheck(l: Limiter, q: Quotas, c: Caller): seq<Scope> {
    FirstScopes(l, q, c, |SCOPE_NAMES|)
  }

  function Keys(scopes: seq<Scope>): (keys: seq<string>)
    ensures |keys| == |scopes| && forall i :: 0 <= i < |scopes| ==> keys[i] == scopes[i].key
  {
    seq(|scopes|, i requires 0 <= i < |scopes| => scopes[i].key)
  }

  predicate Distinct(keys: seq<string>) {
    forall i, j :: 0 <= i < j < |keys| ==> keys[i] != keys[j]
  }

  /** No two scopes share a counter, whatever the ids contain. */
  lemma ScopeKeysDiffer(l: Limiter, m: ScopeName, n: ScopeName, c: Caller)
    requires m != n
    ensures KeyOf(l, m, c) != KeyOf(l, n, c)
  {
    var a, b := KeyOf(l, m, c), KeyOf(l, n, c);
    assert |Prefix(l)| == 14;
    assert a[14] == "sttpg"[Rank(m)] && b[14] == "sttpg"[Rank(n)];
    if {m, n} == {TenantProviderScope, TenantScope} {
      assert a[20] == (if m == TenantScope then ':' else '_');
      assert b[20] == (if n == TenantScope then ':' else '_');
    }
  }

  /** Scopes in rank order, each a limited scope with its own key and quota. */
  predicate InRank(l: Limiter, q: Quotas, c: Caller, scopes: seq<Scope>) {
    && (forall i, j :: 0 <= i < j < |scopes| ==> Rank(scopes[i].name) < Rank(scopes[j].name))
    && (forall i :: 0 <= i < |scopes| ==>
          && Limits(l, QuotaOf(l, scopes[i].name, q, c))
          && scopes[i] == Scope(scopes[i].name, KeyOf(l, scopes[i].name, c), QuotaOf(l, scopes[i].name, q, c).value))
  }

  /** Exactly the limited scopes among the first n, in rank order. */
  ghost predicate LimitedAmongFirst(l: Limiter, q: Quotas, c: Caller, scopes: seq<Scope>, n: nat) {
    && InRank(l, q, c, scopes)
    && (forall i :: 0 <= i < |scopes| ==> Rank(scopes[i].name) < n)
    && (forall m :: Rank(m) < n && Limits(l, QuotaOf(l, m, q, c)) ==>
          Scope(m, KeyOf(l, m, c), QuotaOf(l, m, q, c).value) in scopes)
  }

  lemma OneMoreScope(l: Limiter, q: Quotas, c: Caller, scopes: seq<Scope>, name: ScopeName)
    requires LimitedAmongFirst(l, q, c, scopes, Rank(name))
    ensures LimitedAmongFirst(l, q, c, scopes + ScopeFor(l, name, q, c), Rank(name) + 1)
  {
    assert forall m :: Rank(m) == Rank(name) ==> m == name;
    if Limits(l, QuotaOf(l, name, q, c)) {
      var last := Scope(name, KeyOf(l, name, c), QuotaOf(l, name, q, c).value);
      assert last in scopes + [last];
      assert forall scope :: scope in scopes ==> scope in scopes + [last];
    } else {
      assert scopes + [] == scopes;
    }
  }

  lemma {:induction false} FirstScopesInRank(l: Limiter, q: Quotas, c: Caller, n: nat)
    requires n <= |SCOPE_NAMES|
    ensures LimitedAmongFirst(l, q, c, FirstScopes(l, q, c, n), n)
  {
    if n == 0 {
    } else {
      FirstScopesInRank(l, q, c, n - 1);
      assert Rank(SCOPE_NAMES[n - 1]) == n - 1;
      OneMoreScope(l, q, c, FirstScopes(l, q, c, n - 1), SCOPE_NAMES[n - 1]);
    }
  }

  /** A scope is checked exactly when it is limited, narrowest first, and each on a counter of its own. */
  lemma ScopesAreTheLimitedOnes(l: Limiter, q: Quotas, c: Caller)
    ensures var scopes := ScopesToCheck(l, q, c);
            && InRank(l, q, c, scopes)
            && (forall n :: Limits(l, QuotaOf(l, n, q, c)) ==>
                  Scope(n, KeyOf(l, n, c), QuotaOf(l, n, q, c).value) in scopes)
            && Distinct(Keys(scopes))
  {
    FirstScopesInRank(l, q, c, |SCOPE_NAMES|);
    var scopes := ScopesToCheck(l, q, c);
    forall i, j | 0 <= i < j < |scopes|
      ensures scopes[i].key != scopes[j].key
    {
      ScopeKeysDiffer(l, scopes[i].name, scopes[j].name, c);
    }
  }

  // ----- whose counter, and whose quota

  datatype IdKind = TenantId | ProviderId | WorkflowId | StepId

  /** The two calls are from the same user of the scope. */
  predicate SameUser(name: ScopeName, c: Caller, d: Caller) {
    match name
    case StepScope => Tenant(c) == Tenant(d) && WorkflowName(c) == WorkflowName(d) && StepName(c) == StepName(d)
    case TenantProviderScope => Tenant(c) == Tenant(d) && c.provider == d.provider
    case TenantScope => Tenant(c) == Tenant(d)
    case ProviderScope => c.provider == d.provider
    case GlobalScope => true
  }

  /** The ids that are promised to be free of colons are. */
  predicate IdsAreFree(free: set<IdKind>, c: Caller) {
    && (TenantId in free ==> ColonFree(c.tenant))
    && (ProviderId in free ==> ColonFree(c.provider))
    && (WorkflowId in free ==> ColonFree(c.workflow))
    && (StepId in free ==> ColonFree(c.step))
  }

  /** Enough of a scope's ids are free of colons to tell its users apart: all but one of those its key is made of. */
  predicate EnoughFree(name: ScopeName, free: set<IdKind>) {
    match name
    case StepScope =>
      {TenantId, WorkflowId} <= free || {TenantId, StepId} <= free || {WorkflowId, StepId} <= free
    case TenantProviderScope => TenantId in free || ProviderId in free
    case _ => true
  }

  ghost predicate KeysTellUsersApart(l: Limiter, name: ScopeName, free: set<IdKind>) {
    forall c, d :: IdsAreFree(free, c) && IdsAreFree(free, d) ==>
      (KeyOf(l, name, c) == KeyOf(l, name, d) <==> SameUser(name, c, d))
  }

  lemma SameKeySameUser(l: Limiter, name: ScopeName, free: set<IdKind>, c: Caller, d: Caller)
    requires EnoughFree(name, free) && IdsAreFree(free, c) && IdsAreFree(free, d)
    requires KeyOf(l, name, c) == KeyOf(l, name, d)
    ensures SameUser(name, c, d)
  {
    match name
    case StepScope =>
      var parts := (if TenantId in free then {TenantPart} else {})
        + (if WorkflowId in free then {ExecutionPart} else {})
        + (if StepId in free then {StepPart} else {});
      PrefixIsInjective(Prefix(l) + "step:", Tenant(c) + ":" + (WorkflowName(c) + ":" + StepName(c)),
                        Tenant(d) + ":" + (WorkflowName(d) + ":" + StepName(d)));
      BodiesAreInjective(parts, Tenant(c), WorkflowName(c), StepName(c), Tenant(d), WorkflowName(d), StepName(d));
    case TenantProviderScope =>
      PrefixIsInjective(Prefix(l) + "tenant_provider:", Tenant(c) + ":" + c.provider, Tenant(d) + ":" + d.provider);
      ColonSplits(Tenant(c), c.provider, Tenant(d), d.provider);
    case TenantScope => PrefixIsInjective(Prefix(l) + "tenant:", Tenant(c), Tenant(d));
    case ProviderScope => PrefixIsInjective(Prefix(l) + "provider:", c.provider, d.provider);
    case GlobalScope =>
  }

  lemma FreeOfAllButTwo(l: Limiter, name: ScopeName, free: set<IdKind>) returns (c: Caller, d: Caller)
    requires !EnoughFree(name, free)
    ensures IdsAreFree(free, c) && IdsAreFree(free, d)
    ensures KeyOf(l, name, c) == KeyOf(l, name, d) && !SameUser(name, c, d)
  {
    if name == TenantProviderScope {
      c, d := Caller("a:b", "c", "", "", None), Caller("a", "b:c", "", "", None);
      assert Tenant(c) + ":" + c.provider == Tenant(d) + ":" + d.provider;
    } else {
      if TenantId in free {
        c, d := Caller("a", "", "b:c", "d", None), Caller("a", "", "b", "c:d", None);
      } else if WorkflowId in free {
        c, d := Caller("a:b", "", "b", "c", None), Caller("a", "", "b", "b:c", None);
      } else {
        c, d := Caller("a:b", "", "c", "d", None), Caller("a", "", "b:c", "d", None);
      }
      assert Tenant(c) + ":" + (WorkflowName(c) + ":" + StepName(c))
          == Tenant(d) + ":" + (WorkflowName(d) + ":" + StepName(d));
    }
  }

  /**
   Two calls share a scope's counter exactly when they are from the same user of the scope, whatever the other
   ids: for every tenant, provider and global counter; for the others exactly if all but one kind of the ids in
   their keys are free of colons.
   */
  lemma CountersIdentifyUsersIff(l: Limiter, name: ScopeName, free: set<IdKind>)
    ensures KeysTellUsersApart(l, name, free) <==> EnoughFree(name, free)
  {
    if EnoughFree(name, free) {
      forall c, d | IdsAreFree(free, c) && IdsAreFree(free, d)
        ensures KeyOf(l, name, c) == KeyOf(l, name, d) <==> SameUser(name, c, d)
      {
        if KeyOf(l, name, c) == KeyOf(l, name, d) {
          SameKeySameUser(l, name, free, c, d);
        }
      }
    } else {
      var c, d := FreeOfAllButTwo(l, name, free);
    }
  }

  /** The two limiters never share a counter, whoever calls. */
  lemma LimitersShareNoCounter(m: ScopeName, c: Caller, n: ScopeName, d: Caller)
    ensures KeyOf(ConcurrencyLimiter, m, c) != KeyOf(RateLimiter, n, d)
  {
    assert KeyOf(ConcurrencyLimiter, m, c)[9] == 'c' && KeyOf(RateLimiter, n, d)[9] == 'r';
  }

  /** Calls without an id share the counters of those named like its fallback. */
  lemma MissingIdsShareCounters(l: Limiter, name: ScopeName, c: Caller)
    ensures KeyOf(l, name, c.(tenant := "")) == KeyOf(l, name, c.(tenant := "default"))
    ensures KeyOf(l, name, c.(workflow := "")) == KeyOf(l, name, c.(workflow := "wf"))
    ensures KeyOf(l, name, c.(step := "")) == KeyOf(l, name, c.(step := "step"))
  {
  }

  lemma {:induction false} SameQuotasSameScopes(l: Limiter, q: Quotas, q': Quotas, c: Caller, n: nat)
    requires n <= |SCOPE_NAMES| && forall name :: QuotaOf(l, name, q', c) == QuotaOf(l, name, q, c)
    ensures FirstScopes(l, q', c, n) == FirstScopes(l, q, c, n)
  {
    if n == 0 {
    } else {
      SameQuotasSameScopes(l, q, q', c, n - 1);
    }
  }

  /** The quotas with one entry set: the one of the scope that the caller's ids name. */
  function WithQuota(name: ScopeName, q: Quotas, c: Caller, quota: Quota): Quotas {
    match name
    case StepScope => q.(steps := q.steps[c.step := quota])
    case TenantProviderScope =>
      var own := if Tenant(c) in q.tenantProviders then q.tenantProviders[Tenant(c)] else map[];
      q.(tenantProviders := q.tenantProviders[Tenant(c) := own[c.provider := quota]])
    case TenantScope => q.(tenants := q.tenants[Tenant(c) := quota])
    case ProviderScope => q.(providers := q.providers[c.provider := quota])
    case GlobalScope => q.(global := Some(quota))
  }

  /** Whom a configured entry is for: a step's id alone selects its entry. */
  predicate IsFor(name: ScopeName, c: Caller, d: Caller) {
    if name == StepScope then c.step == d.step else SameUser(name, c, d)
  }

  /** The call's step has a quota of its own; a concurrency of 0 is none. */
  predicate HasOwnQuota(l: Limiter, d: Caller) {
    d.stepQuota.Some? && !(l.ConcurrencyLimiter? && d.stepQuota.value.limit == 0)
  }

  /** What keeps an entry from counting: the step has a quota of its own, or no id; it is a rate per tenant. */
  predicate IsOverruled(l: Limiter, name: ScopeName, d: Caller) {
    || (name == StepScope && (d.step == "" || HasOwnQuota(l, d)))
    || (name == TenantScope && l.RateLimiter?)
  }

  predicate IsPositive(l: Limiter, quota: Quota) {
    0 < quota.limit && (l.RateLimiter? ==> 0 < quota.windowSeconds)
  }

  /**
   A configured quota binds exactly those it is for: their calls have to pass its scope, at that quota, if and
   only if it is positive and not overruled; the calls of everybody else pass the same scopes as without it.
   */
  lemma QuotaBindsItsOwn(l: Limiter, name: ScopeName, q: Quotas, c: Caller, quota: Quota, d: Caller)
    requires !IsOverruled(l, name, d)
    ensures var q' := WithQuota(name, q, c, quota);
            if IsFor(name, c, d) then
              Scope(name, KeyOf(l, name, d), quota) in ScopesToCheck(l, q', d) <==> IsPositive(l, quota)
            else
              ScopesToCheck(l, q', d) == ScopesToCheck(l, q, d)
  {
    var q' := WithQuota(name, q, c, quota);
    if IsFor(name, c, d) {
      ScopesAreTheLimitedOnes(l, q', d);
      assert QuotaOf(l, name, q', d) == Some(quota);
    } else {
      SameQuotasSameScopes(l, q, q', d, |SCOPE_NAMES|);
    }
  }

  /** An overruled entry changes nothing; a step's own quota binds that step's calls whatever is configured. */
  lemma OverruledQuotaIsIgnored(l: Limiter, name: ScopeName, q: Quotas, c: Caller, quota: Quota, d: Caller)
    requires IsOverruled(l, name, d)
    ensures ScopesToCheck(l, WithQuota(name, q, c, quota), d) == ScopesToCheck(l, q, d)
    ensures d.stepQuota.Some? && IsPositive(l, d.stepQuota.value) ==>
              Scope(StepScope, KeyOf(l, StepScope, d), d.stepQuota.value) in ScopesToCheck(l, q, d)
  {
    SameQuotasSameScopes(l, q, WithQuota(name, q, c, quota), d, |SCOPE_NAMES|);
    ScopesAreTheLimitedOnes(l, q, d);
    assert d.stepQuota.Some? && IsPositive(l, d.stepQuota.value) ==> QuotaOf(l, StepScope, q, d) == d.stepQuota;
  }
}

/** What one limiter call does to the counters when nothing interleaves. */
module LimiterContract {
  import opened Wrappers
  import opened CounterProtocol
  import opened OutboundScopes

  predicate Below(counts: map<string, int>, scope: Scope) {
    Count(counts, scope.key) < scope.quota.limit
  }

  /** Every counter up by one for each of these (distinct) keys it is among, and no other changed. */
  ghost predicate Raised(before: map<string, int>, after: map<string, int>, keys: seq<string>) {
    forall key :: Count(after, key) == Count(before, key) + One(key in keys)
  }

  ghost predicate Unchanged(before: map<string, int>, after: map<string, int>) {
    forall key :: Count(after, key) == Count(before, key)
  }

  /** The position of the first full scope, or |scopes| if there is none. */
  function FirstFull(counts: map<string, int>, scopes: seq<Scope>): (i: nat)
    ensures i <= |scopes|
    ensures forall j :: 0 <= j < i ==> Below(counts, scopes[j])
    ensures i < |scopes| ==> !Below(counts, scopes[i])
  {
    if scopes == [] || !Below(counts, scopes[0]) then 0 else 1 + FirstFull(counts, scopes[1..])
  }

  /** The keys a call increments: those up to and including the first full one. */
  function AskedKeys(counts: map<string, int>, scopes: seq<Scope>): seq<string> {
    Keys(scopes)[..Min(FirstFull(counts, scopes) + 1, |scopes|)]
  }

  /** All or nothing: with no full scope every key is raised, otherwise nothing has changed. */
  ghost predicate AllOrNothing(before: map<string, int>, after: map<string, int>, scopes: seq<Scope>) {
    if FirstFull(before, scopes) == |scopes| then Raised(before, after, Keys(scopes)) else Unchanged(before, after)
  }

  lemma FirstFullIs(counts: map<string, int>, scopes: seq<Scope>, i: nat)
    requires i <= |scopes| && forall j :: 0 <= j < i ==> Below(counts, scopes[j])
    requires i < |scopes| ==> !Below(counts, scopes[i])
    ensures FirstFull(counts, scopes) == i
  {
  }

  /** A call that finds its first full scope at i has asked the keys up to there. */
  lemma AskedUpTo(counts: map<string, int>, scopes: seq<Scope>, i: nat)
    requires i <= |scopes| && forall j :: 0 <= j < i ==> Below(counts, scopes[j])
    requires i < |scopes| ==> !Below(counts, scopes[i])
    ensures FirstFull(counts, scopes) == i && AskedKeys(counts, scopes) == Keys(scopes)[..Min(i + 1, |scopes|)]
  {
    FirstFullIs(counts, scopes, i);
  }

  /**
   The next key is still as it was; incrementing it extends the raised prefix, and decrementing it again
   restores that.
   */
  lemma RaiseNext(before: map<string, int>, now: map<string, int>, keys: seq<string>, i: nat)
    requires Distinct(keys) && i < |keys| && Raised(before, now, keys[..i])
    ensures Count(now, keys[i]) == Count(before, keys[i])
    ensures Raised(before, Add(now, keys[i], 1), keys[..i + 1])
    ensures Raised(before, Add(Add(now, keys[i], 1), keys[i], -1), keys[..i])
  {
  }

  lemma LowerNext(before: map<string, int>, now: map<string, int>, keys: seq<string>, j: nat)
    requires Distinct(keys) && j < |keys| && Raised(before, now, keys[j..])
    ensures Raised(before, Add(now, keys[j], -1), keys[j + 1..])
  {
  }

  /** Every counter released once, and never below zero by it. */
  ghost predicate Lowered(before: map<string, int>, after: map<string, int>, keys: seq<string>) {
    forall key :: Count(after, key) == if key in keys then Max(0, Count(before, key) - 1) else Count(before, key)
  }

  lemma ReleaseNext(before: map<string, int>, now: map<string, int>, keys: seq<string>, j: nat)
    requires Distinct(keys) && j < |keys| && Lowered(before, now, keys[..j])
    ensures Lowered(before, ClampedDecr(now, keys[j]), keys[..j + 1])
  {
  }

  /** A release undoes the acquisition it follows. */
  lemma ReleaseUndoesAcquire(before: map<string, int>, held: map<string, int>, after: map<string, int>,
                             keys: seq<string>)
    requires Raised(before, held, keys) && Lowered(held, after, keys)
    requires forall key :: key in keys ==> 0 <= Count(before, key)
    ensures Unchanged(before, after)
  {
  }
}

module ConcurrencyLimiterClass {
  import opened Wrappers
  import opened CounterProtocol
  import opened RedisCounters
  import opened OutboundScopes
  import opened LimiterContract

  datatype ConcurrencyResult =
    | Acquired(lease: seq<string>)
    | Full(scope: ScopeName, retryAfterSeconds: nat, currentCount: int, limit: int)

  const LEASE_TTL_SECONDS := 60

  /** These keys have a whole minute to live, and any other what it had. */
  ghost predicate LeasesRenewed(before: map<string, int>, after: map<string, int>, keys: seq<string>) {
    forall key :: Ttl(after, key) == if key in keys then 60 else Ttl(before, key)
  }

  lemma RenewNext(before: map<string, int>, now: map<string, int>, keys: seq<string>, i: nat)
    requires i < |keys| && LeasesRenewed(before, now, keys[..i])
    ensures LeasesRenewed(before, now[keys[i] := 60], keys[..i + 1])
  {
  }

  /** What a call does to the counters and to their times to live. */
  ghost predicate MeetsContract(before: map<string, int>, after: map<string, int>, was: map<string, int>,
                                ttls: map<string, int>, scopes: seq<Scope>)
  {
    && Distinct(Keys(scopes)) && AllOrNothing(before, after, scopes)
    && LeasesRenewed(was, ttls, AskedKeys(before, scopes))
  }

  /** A call has passed its first i scopes. */
  ghost predicate HasPassed(before: map<string, int>, now: map<string, int>, was: map<string, int>,
                            ttls: map<string, int>, scopes: seq<Scope>, i: nat)
    requires i <= |scopes|
  {
    && Raised(before, now, Keys(scopes)[..i]) && LeasesRenewed(was, ttls, Keys(scopes)[..i])
    && forall j :: 0 <= j < i ==> Below(before, scopes[j])
  }

  /** Having passed them, it has found the next one full, and left it as it was. */
  ghost predicate IsTurnedAway(before: map<string, int>, now: map<string, int>, was: map<string, int>,
                               ttls: map<string, int>, scopes: seq<Scope>, i: nat)
    requires i < |scopes|
  {
    && Raised(before, now, Keys(scopes)[..i]) && FirstFull(before, scopes) == i
    && LeasesRenewed(was, ttls, AskedKeys(before, scopes))
  }

  lemma PassedMeetsContract(before: map<string, int>, now: map<string, int>, was: map<string, int>,
                            ttls: map<string, int>, scopes: seq<Scope>)
    requires Distinct(Keys(scopes)) && HasPassed(before, now, was, ttls, scopes, |scopes|)
    ensures MeetsContract(before, now, was, ttls, scopes) && FirstFull(before, scopes) == |scopes|
  {
    AskedUpTo(before, scopes, |scopes|);
    assert Keys(scopes)[..|scopes|] == Keys(scopes);
  }

  /** Turned away, and having given back what it had taken. */
  lemma RefusalMeetsContract(before: map<string, int>, now: map<string, int>, after: map<string, int>,
                             was: map<string, int>, ttls: map<string, int>, scopes: seq<Scope>, i: nat)
    requires Distinct(Keys(scopes)) && i < |scopes| && IsTurnedAway(before, now, was, ttls, scopes, i)
    requires Unchanged(before, after)
    ensures MeetsContract(before, after, was, ttls, scopes)
  {
  }

  /** A counter that a release has had to set to zero has lost its time to live; no other key's has changed. */
  ghost predicate ExpiryKept(counts: map<string, int>, before: map<string, int>, after: map<string, int>,
                             keys: seq<string>)
  {
    forall key :: Ttl(after, key) == if key in keys && Count(counts, key) <= 0 then -1 else Ttl(before, key)
  }

  function ResultFor(before: map<string, int>, scopes: seq<Scope>): ConcurrencyResult {
    var i := FirstFull(before, scopes);
    if i == |scopes| then Acquired(Keys(scopes))
    else Full(scopes[i].name, 2, Count(before, scopes[i].key), scopes[i].quota.limit)
  }

  class OutboundConcurrencyLimiter {
    const redis: Redis
    const quotas: Quotas
    var acquiredTotal: nat
    var rejectedTotal: nat
    var releasedTotal: nat
    var deferredTotal: nat

    constructor (redis: Redis, quotas: Quotas)
      ensures this.redis == redis && this.quotas == quotas
      ensures acquiredTotal == rejectedTotal == releasedTotal == deferredTotal == 0
    {
      this.redis, this.quotas := redis, quotas;
      acquiredTotal, rejectedTotal, releasedTotal, deferredTotal := 0, 0, 0, 0;
    }

    /**
     Succeeds exactly when every limited scope is below its limit, and then raises exactly those
     counters by one; otherwise leaves every counter as it was and names the first full scope. Either way
     every counter it has asked, the full one included, lives another minute.
     */
    method Acquire(c: Caller) returns (result: ConcurrencyResult)
      modifies this, redis
      ensures var scopes, before := ScopesToCheck(ConcurrencyLimiter, quotas, c), old(redis.counts);
              && MeetsContract(before, redis.counts, old(redis.ttls), redis.ttls, scopes)
              && result == ResultFor(before, scopes)
      ensures acquiredTotal == old(acquiredTotal) + One(result.Acquired?) && releasedTotal == old(releasedTotal)
      ensures rejectedTotal == old(rejectedTotal) + One(result.Full?) &&
              deferredTotal == old(deferredTotal) + One(result.Full?)
    {
      ScopesAreTheLimitedOnes(ConcurrencyLimiter, quotas, c);
      result := AcquireScopes(ScopesToCheck(ConcurrencyLimiter, quotas, c));
      if result.Acquired? {
        acquiredTotal := acquiredTotal + 1;
      } else {
        rejectedTotal, deferredTotal := rejectedTotal + 1, deferredTotal + 1;
      }
    }

    method AcquireScopes(scopes: seq<Scope>) returns (result: ConcurrencyResult)
      requires Distinct(Keys(scopes))
      modifies redis
      ensures MeetsContract(old(redis.counts), redis.counts, old(redis.ttls), redis.ttls, scopes)
      ensures result == ResultFor(old(redis.counts), scopes)
    {
      var acquiredKeys: seq<string> := [];
      ghost var before, was := redis.counts, redis.ttls;
      for i := 0 to |scopes|
        invariant acquiredKeys == Keys(scopes)[..i] && HasPassed(before, redis.counts, was, redis.ttls, scopes, i)
      {
        var count := IncrementNext(scopes, i, before, was);
        if count > scopes[i].quota.limit {
          ghost var counts := redis.counts;
          RollBack(acquiredKeys, before);
          RefusalMeetsContract(before, counts, redis.counts, was, redis.ttls, scopes, i);
          return Full(scopes[i].name, 2, count - 1, scopes[i].quota.limit);
        }
        acquiredKeys := acquiredKeys + [scopes[i].key];
      }
      PassedMeetsContract(before, redis.counts, was, redis.ttls, scopes);
      return Acquired(acquiredKeys);
    }

    /** INCR and EXPIRE of one scope's counter, and DECR again if that went above the limit. */
    method IncrementNext(scopes: seq<Scope>, i: nat, ghost before: map<string, int>, ghost was: map<string, int>)
      returns (count: int)
      requires Distinct(Keys(scopes)) && i < |scopes|
      requires HasPassed(before, redis.counts, was, redis.ttls, scopes, i)
      modifies redis
      ensures count == Count(before, scopes[i].key) + 1
      ensures if count > scopes[i].quota.limit then IsTurnedAway(before, redis.counts, was, redis.ttls, scopes, i)
              else HasPassed(before, redis.counts, was, redis.ttls, scopes, i + 1)
    {
      RaiseNext(before, redis.counts, Keys(scopes), i);
      RenewNext(was, redis.ttls, Keys(scopes), i);
      count := redis.Incr(scopes[i].key);
      redis.Expire(scopes[i].key, LEASE_TTL_SECONDS);
      if count > scopes[i].quota.limit {
        AskedUpTo(before, scopes, i);
        var _ := redis.Decr(scopes[i].key);
      }
    }

    method RollBack(acquiredKeys: seq<string>, ghost before: map<string, int>)
      requires Distinct(acquiredKeys) && Raised(before, redis.counts, acquiredKeys)
      modifies redis`counts
      ensures Unchanged(before, redis.counts)
    {
      assert acquiredKeys[0..] == acquiredKeys;
      for j := 0 to |acquiredKeys|
        invariant Raised(before, redis.counts, acquiredKeys[j..])
      {
        LowerNext(before, redis.counts, acquiredKeys, j);
        var _ := redis.Decr(acquiredKeys[j]);
      }
    }

    /**
     Gives back what the Acquire that granted the lease has taken, whatever others have done to the counters
     since.
     */
    method Release(lease: seq<string>)
      requires Distinct(lease)
      modifies this, redis
      ensures Lowered(old(redis.counts), redis.counts, lease)
      ensures ExpiryKept(old(redis.counts), old(redis.ttls), redis.ttls, lease)
      ensures releasedTotal == old(releasedTotal) + One(lease != [])
      ensures acquiredTotal == old(acquiredTotal) && rejectedTotal == old(rejectedTotal) &&
              deferredTotal == old(deferredTotal)
    {
      if lease != [] {
        ReleaseKeys(lease);
        releasedTotal := releasedTotal + 1;
      }
    }

    method ReleaseKeys(lease: seq<string>)
      requires Distinct(lease)
      modifies redis`counts, redis`ttls
      ensures Lowered(old(redis.counts), redis.counts, lease)
      ensures ExpiryKept(old(redis.counts), old(redis.ttls), redis.ttls, lease)
    {
      ghost var before := redis.counts;
      for j := 0 to |lease|
        invariant Lowered(before, redis.counts, lease[..j])
        invariant ExpiryKept(before, old(redis.ttls), redis.ttls, lease[..j])
      {
        ReleaseNext(before, redis.counts, lease, j);
        ghost var clamped := ClampedDecr(redis.counts, lease[j]);
        var count := redis.Decr(lease[j]);
        if count < 0 {
          redis.SetZero(lease[j]);
        }
        assert redis.counts == clamped;
      }
      assert lease[..|lease|] == lease;
    }
  }
}

module RateLimiterClass {
  import opened Wrappers
  import opened CounterProtocol
  import opened RedisCounters
  import opened OutboundScopes
  import opened LimiterContract

  datatype RateResult =
    | Allowed
    | Limited(scope: ScopeName, retryAfterSeconds: int, currentCount: int, limit: int)

  /** The time left to a counter's window; a fresh window when it has no expiry. */
  function TtlOrWindow(ttls: map<string, int>, scope: Scope): int {
    if Ttl(ttls, scope.key) > 0 then Ttl(ttls, scope.key) else scope.quota.windowSeconds
  }

  function ResultFor(before: map<string, int>, scopes: seq<Scope>, ttls: map<string, int>): RateResult {
    var i := FirstFull(before, scopes);
    if i == |scopes| then Allowed
    else Limited(scopes[i].name, TtlOrWindow(ttls, scopes[i]), Count(before, scopes[i].key), scopes[i].quota.limit)
  }

  /**
   Of the first n scopes' counters exactly those that stood at zero have been given their window as their
   time to live; a window that was running goes on as it was, and so does every other key's.
   */
  ghost predicate WindowsStarted(before: map<string, int>, was: map<string, int>, ttls: map<string, int>,
                                 scopes: seq<Scope>, n: nat)
    requires n <= |scopes|
  {
    && (forall i :: 0 <= i < n ==>
          Ttl(ttls, scopes[i].key) ==
          if Count(before, scopes[i].key) == 0 then scopes[i].quota.windowSeconds else Ttl(was, scopes[i].key))
    && (forall key :: key !in Keys(scopes)[..n] ==> Ttl(ttls, key) == Ttl(was, key))
  }

  lemma StartNext(before: map<string, int>, was: map<string, int>, ttls: map<string, int>, scopes: seq<Scope>, n: nat)
    requires n < |scopes| && Distinct(Keys(scopes)) && WindowsStarted(before, was, ttls, scopes, n)
    ensures Count(before, scopes[n].key) != 0 ==> WindowsStarted(before, was, ttls, scopes, n + 1)
    ensures Count(before, scopes[n].key) == 0 ==>
              WindowsStarted(before, was, ttls[scopes[n].key := scopes[n].quota.windowSeconds], scopes, n + 1)
  {
  }

  /** A call has passed its first i scopes. */
  ghost predicate HasPassed(before: map<string, int>, now: map<string, int>, was: map<string, int>,
                            ttls: map<string, int>, scopes: seq<Scope>, i: nat)
    requires i <= |scopes|
  {
    && Raised(before, now, Keys(scopes)[..i]) && WindowsStarted(before, was, ttls, scopes, i)
    && forall j :: 0 <= j < i ==> Below(before, scopes[j])
  }

  /** Having passed them, it has found the next one full, and left it as it was. */
  ghost predicate IsTurnedAway(before: map<string, int>, now: map<string, int>, was: map<string, int>,
                               ttls: map<string, int>, scopes: seq<Scope>, i: nat)
    requires i < |scopes|
  {
    && Raised(before, now, Keys(scopes)[..i]) && FirstFull(before, scopes) == i
    && WindowsStarted(before, was, ttls, scopes, |AskedKeys(before, scopes)|)
  }

  lemma PassedMeetsContract(before: map<string, int>, now: map<string, int>, was: map<string, int>,
                            ttls: map<string, int>, scopes: seq<Scope>)
    requires HasPassed(before, now, was, ttls, scopes, |scopes|)
    ensures AllOrNothing(before, now, scopes) && FirstFull(before, scopes) == |scopes|
    ensures WindowsStarted(before, was, ttls, scopes, |AskedKeys(before, scopes)|)
  {
    AskedUpTo(before, scopes, |scopes|);
    assert Keys(scopes)[..|scopes|] == Keys(scopes);
  }

  class OutboundRateLimiter {
    const redis: Redis
    const quotas: Quotas

    constructor (redis: Redis, quotas: Quotas)
      ensures this.redis == redis && this.quotas == quotas
    {
      this.redis, this.quotas := redis, quotas;
    }

    /**
     Admits exactly when every limited scope is below its limit, consuming one of each; otherwise
     consumes nothing and names the first full scope with a positive waiting time. Of the counters it
     has asked those that stood at zero get their window as their time to live, and no window starts anew.
     */
    method CheckAndConsume(c: Caller) returns (result: RateResult)
      modifies redis
      ensures var scopes, before := ScopesToCheck(RateLimiter, quotas, c), old(redis.counts);
              && AllOrNothing(before, redis.counts, scopes)
              && result == ResultFor(before, scopes, redis.ttls)
              && (result.Limited? ==> 0 < result.retryAfterSeconds)
              && WindowsStarted(before, old(redis.ttls), redis.ttls, scopes, |AskedKeys(before, scopes)|)
    {
      ScopesAreTheLimitedOnes(RateLimiter, quotas, c);
      var scopes := ScopesToCheck(RateLimiter, quotas, c);
      forall i | 0 <= i < |scopes|
        ensures 0 < scopes[i].quota.windowSeconds
      {
        assert Limits(RateLimiter, QuotaOf(RateLimiter, scopes[i].name, quotas, c));
      }
      result := ConsumeScopes(scopes);
    }

    method ConsumeScopes(scopes: seq<Scope>) returns (result: RateResult)
      requires Distinct(Keys(scopes)) && forall i :: 0 <= i < |scopes| ==> 0 < scopes[i].quota.windowSeconds
      modifies redis
      ensures AllOrNothing(old(redis.counts), redis.counts, scopes)
      ensures result == ResultFor(old(redis.counts), scopes, redis.ttls)
      ensures WindowsStarted(old(redis.counts), old(redis.ttls), redis.ttls, scopes,
                             |AskedKeys(old(redis.counts), scopes)|)
    {
      var consumed: seq<string> := [];
      ghost var before, was := redis.counts, redis.ttls;
      for i := 0 to |scopes|
        invariant consumed == Keys(scopes)[..i] && HasPassed(before, redis.counts, was, redis.ttls, scopes, i)
      {
        var count := IncrementNext(scopes, i, before, was);
        if count > scopes[i].quota.limit {
          RollBack(consumed, before);
          return Limited(scopes[i].name, TtlOrWindow(redis.ttls, scopes[i]), count - 1, scopes[i].quota.limit);
        }
        consumed := consumed + [scopes[i].key];
      }
      PassedMeetsContract(before, redis.counts, was, redis.ttls, scopes);
      return Allowed;
    }

    /** INCR of scope i's counter, EXPIRE if it was at zero, and DECR again if it went above the limit. */
    method IncrementNext(scopes: seq<Scope>, i: nat, ghost before: map<string, int>, ghost was: map<string, int>)
      returns (count: int)
      requires Distinct(Keys(scopes)) && i < |scopes|
      requires HasPassed(before, redis.counts, was, redis.ttls, scopes, i)
      modifies redis
      ensures count == Count(before, scopes[i].key) + 1
      ensures if count > scopes[i].quota.limit then IsTurnedAway(before, redis.counts, was, redis.ttls, scopes, i)
              else HasPassed(before, redis.counts, was, redis.ttls, scopes, i + 1)
    {
      RaiseNext(before, redis.counts, Keys(scopes), i);
      StartNext(before, was, redis.ttls, scopes, i);
      count := redis.Incr(scopes[i].key);
      if count == 1 {
        redis.Expire(scopes[i].key, scopes[i].quota.windowSeconds);
      }
      if count > scopes[i].quota.limit {
        AskedUpTo(before, scopes, i);
        var _ := redis.Decr(scopes[i].key);
      }
    }

    method RollBack(consumed: seq<string>, ghost before: map<string, int>)
      requires Distinct(consumed) && Raised(before, redis.counts, consumed)
      modifies redis`counts
      ensures Unchanged(before, redis.counts)
    {
      assert consumed[0..] == consumed;
      for j := 0 to |consumed|
        invariant Raised(before, redis.counts, consumed[j..])
      {
        LowerNext(before, redis.counts, consumed, j);
        var _ := redis.Decr(consumed[j]);
      }
    }
  }
}
