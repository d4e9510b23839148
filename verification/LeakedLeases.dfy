/**
 A concurrency counter whose lease holders have crashed. Every INCR, that of a call which is then
 rejected too, sets the counter's time to live again, so leaked counts go only when nobody asks.
 */
module LeakedLeases {
  import opened ConcurrencyLimiterClass
  import opened CounterProtocol
  import opened LimiterContract
  import opened OutboundScopes
  import opened RedisCounters
  import opened Wrappers

  datatype Counter = Counter(count: int, expiresAt: int)

  /** What an INCR at time t counts from: the counter, or nothing once it has expired. */
  function Live(c: Counter, t: int): int {
    if t < c.expiresAt then c.count else 0
  }

  /** INCR, EXPIRE and, above the limit, DECR, which leaves the time to live alone. */
  function Ask(c: Counter, t: int, limit: int): Counter {
    var count := Live(c, t) + 1;
    Counter(if count > limit then count - 1 else count, t + LEASE_TTL_SECONDS)
  }

  predicate IsAdmitted(c: Counter, t: int, limit: int) {
    Live(c, t) + 1 <= limit
  }

  /**
   Ask is what the contract of Acquire leaves of the counter that decides the call: the first full one, or any
   of them when none is full.
   */
  lemma AskIsACall(before: map<string, int>, after: map<string, int>, was: map<string, int>, ttls: map<string, int>,
                   scopes: seq<Scope>, i: nat, c: Counter, t: int)
    requires MeetsContract(before, after, was, ttls, scopes)
    requires i < |scopes| && (FirstFull(before, scopes) == i || FirstFull(before, scopes) == |scopes|)
    requires Count(before, scopes[i].key) == Live(c, t)
    ensures var key, limit := scopes[i].key, scopes[i].quota.limit;
            && Ask(c, t, limit) == Counter(Count(after, key), t + Ttl(ttls, key))
            && (IsAdmitted(c, t, limit) <==> ResultFor(before, scopes).Acquired?)
  {
    assert AskedKeys(before, scopes)[i] == Keys(scopes)[i];
    assert Keys(scopes)[i] in AskedKeys(before, scopes) && Keys(scopes)[i] in Keys(scopes);
  }

  /** Somebody who asks at these times is let in. */
  predicate SomeAdmitted(c: Counter, times: seq<int>, limit: int)
    decreases |times|
  {
    times != [] && (IsAdmitted(c, times[0], limit) || SomeAdmitted(Ask(c, times[0], limit), times[1..], limit))
  }

  /** Nobody asks for as long as the counter lives, the first time or between two. */
  predicate HasPause(c: Counter, times: seq<int>)
    decreases |times|
  {
    times != [] && (c.expiresAt <= times[0] || HasPause(Counter(c.count, times[0] + LEASE_TTL_SECONDS), times[1..]))
  }

  /**
   Once the holders of all of a key's leases have crashed, a call is admitted on the key exactly if
   nobody has asked for it for a full minute before: under steadier traffic the key stays full for ever.
   */
  lemma {:induction false} LeakedKeyIsFreedOnlyByAPause(c: Counter, times: seq<int>, limit: int)
    requires 1 <= limit <= c.count
    ensures SomeAdmitted(c, times, limit) <==> HasPause(c, times)
    decreases |times|
  {
    if times == [] {
    } else if times[0] < c.expiresAt {
      assert Ask(c, times[0], limit) == Counter(c.count, times[0] + LEASE_TTL_SECONDS);
      LeakedKeyIsFreedOnlyByAPause(Ask(c, times[0], limit), times[1..], limit);
    }
  }

  /** In terms of the gaps: asked for at least once a minute, the key rejects every call. */
  lemma {:induction false} SteadyTrafficStarves(c: Counter, times: seq<int>, limit: int)
    requires 1 <= limit <= c.count && (times != [] ==> times[0] < c.expiresAt)
    requires forall i :: 0 < i < |times| ==> times[i] - times[i - 1] < 60
    ensures !SomeAdmitted(c, times, limit)
    decreases |times|
  {
    if times == [] {
    } else {
      forall i | 0 < i < |times[1..]|
        ensures times[1..][i] - times[1..][i - 1] < 60
      {
        assert times[i + 1] - times[i] < 60;
      }
      assert |times| > 1 ==> times[1] - times[0] < 60;
      SteadyTrafficStarves(Ask(c, times[0], limit), times[1..], limit);
    }
  }
}
