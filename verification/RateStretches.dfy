/**
 The rate limiter over stretches of a run that are not its own windows. A key's window lasts at least a
 fixed time from its first count (longer if a count rolled back to zero starts it anew), so in any
 half-open interval of that length it ends at most once.
 */
module RateStretches {
  import opened Wrappers
  import opened CounterProtocol

  /** The calls admitted on a key along a run. */
  function GrantsOn(limits: Key -> nat, s: State, evs: seq<Event>, key: Key): nat
    requires IsRun(Rate, limits, s, evs)
    decreases |evs|
  {
    if evs == [] then 0
    else
      One(evs[0].Grant? && key in s.calls[evs[0].p].keys)
      + GrantsOn(limits, Apply(Rate, limits, s, evs[0]), evs[1..], key)
  }

  /** How often the key's window ends. */
  function Expiries(evs: seq<Event>, key: Key): nat {
    if evs == [] then 0 else One(evs[0] == Expire(key)) + Expiries(evs[1..], key)
  }

  lemma EventChangesAdmissions(limits: Key -> nat, s: State, ev: Event, key: Key)
    requires Enabled(Rate, s, ev)
    ensures Admissions(Apply(Rate, limits, s, ev), key)
            == if ev == Expire(key) then 0
               else Admissions(s, key) + One(ev.Grant? && key in s.calls[ev.p].keys)
  {
  }

  lemma OnceMore(k: nat, n: nat)
    ensures (k + 1) * n == k * n + n
  {
  }

  lemma {:induction false} RunBoundsAdmissions(limits: Key -> nat, s: State, evs: seq<Event>, key: Key)
    requires Inv(Rate, limits, s) && IsRun(Rate, limits, s, evs)
    ensures Admissions(s, key) + GrantsOn(limits, s, evs, key) <= (Expiries(evs, key) + 1) * limits(key)
    decreases |evs|
  {
    assert KeyInv(Rate, limits, s, key);
    if evs == [] {
    } else {
      EventKeepsInv(Rate, limits, s, evs[0]);
      EventChangesAdmissions(limits, s, evs[0], key);
      RunBoundsAdmissions(limits, Apply(Rate, limits, s, evs[0]), evs[1..], key);
      OnceMore(Expiries(evs[1..], key) + 1, limits(key));
    }
  }

  /**
   Over any stretch of any run, wherever it begins and ends, a key admits at most its limit once more than
   its window ends there. An interval of the window's length sees it end at most once: at most 2 * limit.
   */
  lemma StretchBound(limits: Key -> nat, before: seq<Event>, evs: seq<Event>, key: Key)
    requires IsRun(Rate, limits, IDLE, before) && IsRun(Rate, limits, After(Rate, limits, IDLE, before), evs)
    ensures var grants := GrantsOn(limits, After(Rate, limits, IDLE, before), evs, key);
            && grants <= (Expiries(evs, key) + 1) * limits(key)
            && (Expiries(evs, key) <= 1 ==> grants <= 2 * limits(key))
  {
    ReachableInv(Rate, limits, before);
    RunBoundsAdmissions(limits, After(Rate, limits, IDLE, before), evs, key);
  }

  /** One more event at the end of a run. */
  lemma {:induction false} RunThen(limits: Key -> nat, s: State, evs: seq<Event>, ev: Event, key: Key)
    requires IsRun(Rate, limits, s, evs) && Enabled(Rate, After(Rate, limits, s, evs), ev)
    ensures IsRun(Rate, limits, s, evs + [ev])
    ensures After(Rate, limits, s, evs + [ev]) == Apply(Rate, limits, After(Rate, limits, s, evs), ev)
    ensures GrantsOn(limits, s, evs + [ev], key)
            == GrantsOn(limits, s, evs, key) + One(ev.Grant? && key in After(Rate, limits, s, evs).calls[ev.p].keys)
    ensures Expiries(evs + [ev], key) == Expiries(evs, key) + One(ev == Expire(key))
    decreases |evs|
  {
    if evs == [] {
      assert [ev][1..] == [] && evs + [ev] == [ev];
    } else {
      RunThen(limits, Apply(Rate, limits, s, evs[0]), evs[1..], ev, key);
      assert (evs + [ev])[1..] == evs[1..] + [ev];
    }
  }

  /** A run without a call in progress, with these many admissions of the key, and the key's counter. */
  ghost predicate Paused(limits: Key -> nat, evs: seq<Event>, key: Key, grants: nat, expiries: nat, count: nat) {
    && IsRun(Rate, limits, IDLE, evs)
    && After(Rate, limits, IDLE, evs).calls == map[] && Count(After(Rate, limits, IDLE, evs).counts, key) == count
    && GrantsOn(limits, IDLE, evs, key) == grants && Expiries(evs, key) == expiries
  }

  /** One call on the key alone, admitted. */
  lemma OneMoreGrant(limits: Key -> nat, evs: seq<Event>, key: Key, grants: nat, expiries: nat, count: nat)
    requires Paused(limits, evs, key, grants, expiries, count) && count < limits(key)
    ensures Paused(limits, evs + [Begin(0, [key])] + [Incr(0)] + [Grant(0)], key, grants + 1, expiries, count + 1)
  {
    var s := After(Rate, limits, IDLE, evs);
    RunThen(limits, IDLE, evs, Begin(0, [key]), key);
    RunThen(limits, IDLE, evs + [Begin(0, [key])], Incr(0), key);
    RunThen(limits, IDLE, evs + [Begin(0, [key])] + [Incr(0)], Grant(0), key);
    var s' := After(Rate, limits, IDLE, evs + [Begin(0, [key])] + [Incr(0)] + [Grant(0)]);
    assert s'.calls == map[];
  }

  lemma Burst(limits: Key -> nat, evs: seq<Event>, key: Key, grants: nat, expiries: nat, count: nat, n: nat)
    returns (evs': seq<Event>)
    requires Paused(limits, evs, key, grants, expiries, count) && count + n <= limits(key)
    ensures Paused(limits, evs', key, grants + n, expiries, count + n)
    decreases n
  {
    evs' := evs;
    if n > 0 {
      OneMoreGrant(limits, evs, key, grants, expiries, count);
      evs' := evs + [Begin(0, [key])] + [Incr(0)] + [Grant(0)];
      evs' := Burst(limits, evs', key, grants + 1, expiries, count + 1, n - 1);
    }
  }

  /** The bound is attained: a window's limit at its end, and the next window's at its beginning. */
  lemma StretchBoundIsTight(limits: Key -> nat, key: Key) returns (evs: seq<Event>)
    ensures IsRun(Rate, limits, IDLE, evs) && Expiries(evs, key) == 1
    ensures GrantsOn(limits, IDLE, evs, key) == 2 * limits(key)
  {
    evs := Burst(limits, [], key, 0, 0, 0, limits(key));
    RunThen(limits, IDLE, evs, Expire(key), key);
    evs := Burst(limits, evs + [Expire(key)], key, limits(key), 1, 0, limits(key));
  }
}
