/**
 The gateway's limiter: one counter per tenant and address, incremented on every request and set to
 expire one window after it starts. INCR and EXPIRE are one step; times are in any fixed unit.
 */
module GatewayLimiter {
  import opened IdempotencyKey
  import opened Wrappers

  /** A live counter; it is gone from the instant of its expiry on. */
  datatype Window = Window(count: nat, expiresAt: int)

  datatype Policy = Policy(window: int, max: int)

  const GATEWAY_POLICY := Policy(60, 100)

  function TenantName(tenant: string): string {
    if tenant == "" then "global" else tenant
  }

  function Address(ip: string): string {
    if ip == "" then "127.0.0.1" else ip
  }

  function RateKey(tenant: string, ip: string): string {
    "rate_" + (TenantName(tenant) + "_" + Address(ip))
  }

  /** Callers whose tenants, or whose addresses, are promised to be free of underscores. */
  predicate AreFree(tenants: bool, ips: bool, tenant: string, ip: string) {
    (tenants ==> '_' !in tenant) && (ips ==> '_' !in ip)
  }

  ghost predicate KeysTellCallersApart(tenants: bool, ips: bool) {
    forall t, i, t', i' :: AreFree(tenants, ips, t, i) && AreFree(tenants, ips, t', i') ==>
      (RateKey(t, i) == RateKey(t', i') <==> TenantName(t) == TenantName(t') && Address(i) == Address(i'))
  }

  lemma KeysAreInjective(t: string, i: string, t': string, i': string)
    requires ('_' !in t && '_' !in t') || ('_' !in i && '_' !in i')
    requires RateKey(t, i) == RateKey(t', i')
    ensures TenantName(t) == TenantName(t') && Address(i) == Address(i')
  {
    PrefixIsInjective("rate_", TenantName(t) + "_" + Address(i), TenantName(t') + "_" + Address(i'));
    SeparatorSplits('_', TenantName(t), Address(i), TenantName(t'), Address(i'));
  }

  /** Requests without a tenant share the counters of a tenant called global, those without an address localhost's. */
  lemma MissingIdsShareCounters(tenant: string, ip: string)
    ensures RateKey("", ip) == RateKey("global", ip) && RateKey(tenant, "") == RateKey(tenant, "127.0.0.1")
  {
  }

  /**
   Two callers share a counter exactly when their tenants and addresses agree (up to the fallback names), provided
   tenants or addresses have no underscores, as addresses have not; if both may, they need not.
   */
  lemma KeysIdentifyCallersIff(tenants: bool, ips: bool)
    ensures KeysTellCallersApart(tenants, ips) <==> tenants || ips
  {
    if tenants || ips {
      forall t, i, t', i' | AreFree(tenants, ips, t, i) && AreFree(tenants, ips, t', i')
        ensures RateKey(t, i) == RateKey(t', i') <==> TenantName(t) == TenantName(t') && Address(i) == Address(i')
      {
        if RateKey(t, i) == RateKey(t', i') {
          KeysAreInjective(t, i, t', i');
        }
      }
    } else {
      assert AreFree(false, false, "a_b", "c") && AreFree(false, false, "a", "b_c");
      assert TenantName("a_b") + "_" + Address("c") == TenantName("a") + "_" + Address("b_c");
      assert RateKey("a_b", "c") == RateKey("a", "b_c");
    }
  }

  /** INCR at time t, with EXPIRE for a counter that starts. */
  function Hit(w: Option<Window>, t: int, p: Policy): Window {
    if w.Some? && t < w.value.expiresAt then w.value.(count := w.value.count + 1) else Window(1, t + p.window)
  }

  // ----- whole traces of one key

  /** Request times are in the order Redis sees them. */
  predicate Ordered(times: seq<int>) {
    forall i, j :: 0 <= i < j < |times| ==> times[i] <= times[j]
  }

  /** How many of the requests are at times in [from, from + window) and admitted. */
  function AdmittedWithin(w: Option<Window>, times: seq<int>, p: Policy, from: int): nat
    decreases |times|
  {
    if times == [] then 0
    else
      var hit := Hit(w, times[0], p);
      One(from <= times[0] < from + p.window && hit.count <= p.max) + AdmittedWithin(Some(hit), times[1..], p, from)
  }

  function Left(w: Window, p: Policy): nat {
    Max(0, p.max - w.count)
  }

  lemma {:induction false} NoneAfterInterval(w: Option<Window>, times: seq<int>, p: Policy, from: int)
    requires Ordered(times) && (times != [] ==> from + p.window <= times[0])
    ensures AdmittedWithin(w, times, p, from) == 0
    decreases |times|
  {
    if times == [] {
    } else {
      NoneAfterInterval(Some(Hit(w, times[0], p)), times[1..], p, from);
    }
  }

  /** A counter that outlives the interval admits at most what it has left. */
  lemma {:induction false} WithinLastWindow(w: Window, times: seq<int>, p: Policy, from: int)
    requires Ordered(times) && from + p.window <= w.expiresAt
    ensures AdmittedWithin(Some(w), times, p, from) <= Left(w, p)
    decreases |times|
  {
    if times == [] {
    } else {
      if times[0] < w.expiresAt {
        WithinLastWindow(w.(count := w.count + 1), times[1..], p, from);
      } else {
        NoneAfterInterval(Some(w), times, p, from);
      }
    }
  }

  /** From the start of the interval on: what the running counter has left, and then one full window. */
  lemma {:induction false} AcrossOneBoundary(w: Window, times: seq<int>, p: Policy, from: int)
    requires Ordered(times) && 1 <= p.max && (times != [] ==> from <= times[0])
    ensures AdmittedWithin(Some(w), times, p, from) <= Left(w, p) + p.max
    decreases |times|
  {
    if times == [] {
    } else {
      if times[0] < w.expiresAt {
        AcrossOneBoundary(w.(count := w.count + 1), times[1..], p, from);
      } else {
        WithinLastWindow(Window(1, times[0] + p.window), times[1..], p, from);
      }
    }
  }

  /**
   The true bound of the fixed-window counter: in any interval of window length, wherever it lies,
   at most 2 * max - 1 requests of one key are admitted.
   */
  lemma {:induction false} AnyIntervalBound(w: Option<Window>, times: seq<int>, p: Policy, from: int)
    requires Ordered(times) && 1 <= p.max && (w.Some? ==> 1 <= w.value.count)
    ensures AdmittedWithin(w, times, p, from) <= 2 * p.max - 1
    decreases |times|
  {
    if times == [] {
    } else {
      if times[0] < from {
        AnyIntervalBound(Some(Hit(w, times[0], p)), times[1..], p, from);
      } else if w.Some? {
        AcrossOneBoundary(w.value, times, p, from);
      } else {
        WithinLastWindow(Window(1, times[0] + p.window), times[1..], p, from);
      }
    }
  }

  function CountBefore(times: seq<int>, end: int): nat {
    if times == [] then 0 else One(times[0] < end) + CountBefore(times[1..], end)
  }

  lemma {:induction false} NoneBefore(times: seq<int>, end: int)
    requires Ordered(times) && (times != [] ==> end <= times[0])
    ensures CountBefore(times, end) == 0
  {
    if times == [] {
    } else {
      NoneBefore(times[1..], end);
    }
  }

  /** Within a counter's own window exactly its first max requests are admitted, no matter how many come. */
  lemma {:induction false} WindowAdmitsItsFirst(w: Window, times: seq<int>, p: Policy)
    requires Ordered(times) && (times != [] ==> w.expiresAt - p.window <= times[0])
    ensures AdmittedWithin(Some(w), times, p, w.expiresAt - p.window) ==
              Min(Left(w, p), CountBefore(times, w.expiresAt))
    decreases |times|
  {
    if times == [] {
    } else {
      if times[0] < w.expiresAt {
        WindowAdmitsItsFirst(w.(count := w.count + 1), times[1..], p);
      } else {
        NoneAfterInterval(Some(w), times, p, w.expiresAt - p.window);
        NoneBefore(times, w.expiresAt);
      }
    }
  }

  function Burst(t: int, n: nat): (times: seq<int>)
    ensures |times| == n && forall i :: 0 <= i < n ==> times[i] == t
  {
    seq(n, _ => t)
  }

  lemma {:induction false} BurstIsAdmitted(w: Window, t: int, n: nat, rest: seq<int>, p: Policy, from: int)
    requires t < w.expiresAt && from <= t < from + p.window && w.count + n <= p.max
    ensures AdmittedWithin(Some(w), Burst(t, n) + rest, p, from)
            == n + AdmittedWithin(Some(w.(count := w.count + n)), rest, p, from)
    decreases n
  {
    var times := Burst(t, n) + rest;
    if n == 0 {
      assert times == rest;
    } else {
      assert times[1..] == Burst(t, n - 1) + rest;
      BurstIsAdmitted(w.(count := w.count + 1), t, n - 1, rest, p, from);
    }
  }

  /**
   The bound is attained: one request opens a window, the rest of it comes at its end, and the next window
   at once.
   */
  lemma BoundIsTight(p: Policy)
    requires 2 <= p.window && 1 <= p.max
    ensures var times := [0] + (Burst(p.window - 1, p.max - 1) + Burst(p.window, p.max));
            Ordered(times) && AdmittedWithin(None, times, p, p.window - 1) == 2 * p.max - 1
  {
    var from, first, second := p.window - 1, Burst(p.window - 1, p.max - 1), Burst(p.window, p.max);
    var times := [0] + (first + second);
    assert times[1..] == first + second;
    BurstIsAdmitted(Window(1, p.window), p.window - 1, p.max - 1, second, p, from);
    var w := Window(p.max, p.window);
    assert second[1..] == Burst(p.window, p.max - 1);
    assert second[1..] + [] == second[1..];
    BurstIsAdmitted(Window(1, 2 * p.window), p.window, p.max - 1, [], p, from);
    assert AdmittedWithin(Some(w), second, p, from) == p.max;
  }

  // ----- the guard

  /** One request as Redis has seen it: its key, when it was counted, and what the guard answered. */
  datatype Visit = Visit(key: string, time: int, admitted: bool)

  function TimesOf(history: seq<Visit>, key: string): seq<int> {
    if history == [] then []
    else
      var init, last := history[..|history| - 1], history[|history| - 1];
      TimesOf(init, key) + if last.key == key then [last.time] else []
  }

  /** How many requests of the key were admitted in [from, from + window). */
  function AdmittedVisits(history: seq<Visit>, key: string, p: Policy, from: int): nat {
    if history == [] then 0
    else
      var init, last := history[..|history| - 1], history[|history| - 1];
      AdmittedVisits(init, key, p, from)
      + One(last.key == key && last.admitted && from <= last.time < from + p.window)
  }

  /** The counter after a trace. */
  function Final(w: Option<Window>, times: seq<int>, p: Policy): Option<Window>
    decreases |times|
  {
    if times == [] then w else Final(Some(Hit(w, times[0], p)), times[1..], p)
  }

  lemma {:induction false} OneMoreHit(w: Option<Window>, times: seq<int>, t: int, p: Policy, from: int)
    ensures Final(w, times + [t], p) == Some(Hit(Final(w, times, p), t, p))
    ensures AdmittedWithin(w, times + [t], p, from)
            == AdmittedWithin(w, times, p, from)
               + One(from <= t < from + p.window && Hit(Final(w, times, p), t, p).count <= p.max)
    decreases |times|
  {
    if times == [] {
      assert times + [t] == [t] && [t][1..] == [];
    } else {
      OneMoreHit(Some(Hit(w, times[0], p)), times[1..], t, p, from);
      assert (times + [t])[1..] == times[1..] + [t];
    }
  }

  ghost predicate InOrder(history: seq<Visit>) {
    forall i, j :: 0 <= i < j < |history| ==> history[i].time <= history[j].time
  }

  lemma {:induction false} TimesAreOrdered(history: seq<Visit>, key: string)
    requires InOrder(history)
    ensures Ordered(TimesOf(history, key))
    ensures forall i :: 0 <= i < |TimesOf(history, key)| ==>
              history != [] && TimesOf(history, key)[i] <= history[|history| - 1].time
  {
    if history == [] {
    } else {
      TimesAreOrdered(history[..|history| - 1], key);
    }
  }

  function Lookup(windows: map<string, Window>, key: string): Option<Window> {
    if key in windows then Some(windows[key]) else None
  }

  /** The key's stored counter is that of its own trace, and the answers it got are its trace's admissions. */
  ghost predicate Agrees(windows: map<string, Window>, history: seq<Visit>, p: Policy, key: string) {
    && Lookup(windows, key) == Final(None, TimesOf(history, key), p)
    && forall from :: AdmittedVisits(history, key, p, from) == AdmittedWithin(None, TimesOf(history, key), p, from)
  }

  /** A counter that is stored has been incremented. */
  lemma {:induction false} FinalCounts(w: Option<Window>, times: seq<int>, p: Policy)
    requires w.Some? ==> 1 <= w.value.count
    ensures Final(w, times, p).Some? ==> 1 <= Final(w, times, p).value.count
    decreases |times|
  {
    if times == [] {
    } else {
      FinalCounts(Some(Hit(w, times[0], p)), times[1..], p);
    }
  }

  lemma VisitsGrow(history: seq<Visit>, v: Visit, p: Policy, key: string)
    ensures TimesOf(history + [v], key) == TimesOf(history, key) + if v.key == key then [v.time] else []
    ensures forall from :: AdmittedVisits(history + [v], key, p, from)
                           == AdmittedVisits(history, key, p, from)
                              + One(v.key == key && v.admitted && from <= v.time < from + p.window)
  {
    assert (history + [v])[..|history|] == history;
  }

  /** One more request extends the trace of its key and leaves the others alone. */
  lemma OneMoreVisit(windows: map<string, Window>, history: seq<Visit>, p: Policy, key: string, now: int, k: string)
    requires Agrees(windows, history, p, k)
    ensures var hit := Hit(Lookup(windows, key), now, p);
            Agrees(windows[key := hit], history + [Visit(key, now, hit.count <= p.max)], p, k)
  {
    var hit := Hit(Lookup(windows, key), now, p);
    var visit := Visit(key, now, hit.count <= p.max);
    var times := TimesOf(history, k);
    VisitsGrow(history, visit, p, k);
    if k == key {
      OneMoreHit(None, times, now, p, 0);
      forall from
        ensures AdmittedVisits(history + [visit], k, p, from) == AdmittedWithin(None, times + [now], p, from)
      {
        OneMoreHit(None, times, now, p, from);
      }
    } else {
      assert times + [] == times;
    }
  }

  lemma KeyIsBounded(windows: map<string, Window>, history: seq<Visit>, p: Policy, key: string, from: int)
    requires InOrder(history) && Agrees(windows, history, p, key) && 1 <= p.max
    ensures AdmittedVisits(history, key, p, from) <= 2 * p.max - 1
  {
    TimesAreOrdered(history, key);
    AnyIntervalBound(None, TimesOf(history, key), p, from);
  }

  ghost predicate AllAgree(windows: map<string, Window>, history: seq<Visit>, p: Policy) {
    InOrder(history) && forall key :: Agrees(windows, history, p, key)
  }

  /** No key has had more admissions than that in any interval of window length. */
  ghost predicate AllBounded(history: seq<Visit>, p: Policy) {
    forall key, from :: AdmittedVisits(history, key, p, from) <= 2 * p.max - 1
  }

  lemma AgreementBounds(windows: map<string, Window>, history: seq<Visit>, p: Policy)
    requires AllAgree(windows, history, p) && 1 <= p.max
    ensures AllBounded(history, p)
  {
    forall key: string, from: int
      ensures AdmittedVisits(history, key, p, from) <= 2 * p.max - 1
    {
      KeyIsBounded(windows, history, p, key, from);
    }
  }

  lemma NextVisit(windows: map<string, Window>, history: seq<Visit>, p: Policy, key: string, now: int)
    requires AllAgree(windows, history, p) && 1 <= p.max && (history != [] ==> history[|history| - 1].time <= now)
    ensures var hit := Hit(Lookup(windows, key), now, p);
            var history' := history + [Visit(key, now, hit.count <= p.max)];
            AllAgree(windows[key := hit], history', p) && AllBounded(history', p)
  {
    var hit := Hit(Lookup(windows, key), now, p);
    var history' := history + [Visit(key, now, hit.count <= p.max)];
    var windows' := windows[key := hit];
    forall k
      ensures Agrees(windows', history', p, k)
    {
      OneMoreVisit(windows, history, p, key, now, k);
    }
    AgreementBounds(windows', history', p);
  }

  class RedisRateLimiterGuard {
    const policy: Policy := GATEWAY_POLICY
    var windows: map<string, Window>
    ghost var history: seq<Visit>

    ghost predicate Valid()
      reads this
    {
      AllAgree(windows, history, policy)
    }

    constructor ()
      ensures Valid() && windows == map[] && history == []
    {
      windows, history := map[], [];
    }

    /**
     Admits while the key's live counter is within the maximum, whatever other keys' counters are. Over
     all requests so far, of all keys, no key has had more than 199 admissions in any 60 s.
     */
    method CanActivate(tenant: string, ip: string, now: int) returns (admitted: bool)
      requires Valid() && (history != [] ==> history[|history| - 1].time <= now)
      modifies this
      ensures Valid() && history == old(history) + [Visit(RateKey(tenant, ip), now, admitted)]
      ensures var key, hit := RateKey(tenant, ip), Hit(Lookup(old(windows), RateKey(tenant, ip)), now, policy);
              windows == old(windows)[key := hit] && admitted == (hit.count <= policy.max)
      ensures policy == Policy(60, 100) && AllBounded(history, policy)
    {
      var key := RateKey(tenant, ip);
      var live := key in windows && now < windows[key].expiresAt;
      var current := if live then windows[key].count + 1 else 1;
      NextVisit(windows, history, policy, key, now);
      assert Agrees(windows, history, policy, key);
      FinalCounts(None, TimesOf(history, key), policy);
      ghost var hit := Hit(Lookup(windows, key), now, policy);
      windows := windows[key := Window(current, if current == 1 then now + policy.window else windows[key].expiresAt)];
      admitted := current <= policy.max;
      assert windows[key] == hit;
      history := history + [Visit(key, now, admitted)];
    }
  }
}
