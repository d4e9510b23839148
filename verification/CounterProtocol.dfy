/**
 Calls of the outbound limiters over shared Redis counters, interleaved at every INCR and DECR. A call
 increments its keys in order; a count above the key's limit makes it give that key and the earlier
 ones back. The concurrency limiter's granted calls hold their keys until released; the rate limiter's
 stay counted until the key's window expires. (One limit per key; no Redis errors; a lease ends before
 its key's TTL, and a window does not end while a call is between its first INCR and its return.)
 */
module CounterProtocol {
  import opened Wrappers

  type Key = string

  datatype Kind = Concurrency | Rate

  datatype Phase =
    | Acquiring   // keys[..hi] incremented and passed
    | Rejected    // the last INCR came back above its limit
    | RollingBack // that key is given back; the earlier ones follow in order
    | Holding(inFlight: bool)
    | Releasing

  /** A call in progress; it has incremented, and not yet decremented, keys[lo..hi]. */
  datatype Call = Call(keys: seq<Key>, lo: nat, hi: nat, phase: Phase) {
    predicate Holds(key: Key) {
      exists i :: lo <= i < hi && i < |keys| && keys[i] == key
    }

    /** Holds the key having passed its check, not merely probing it. */
    predicate Passed(key: Key) {
      exists i :: lo <= i < (if phase.Rejected? then hi - 1 else hi) && i < |keys| && keys[i] == key
    }

    predicate Valid() {
      && (forall i, j :: 0 <= i < j < |keys| ==> keys[i] != keys[j])
      && lo <= hi <= |keys|
      && (phase.Acquiring? || phase.Rejected? || phase.Holding? ==> lo == 0)
      && (phase.Rejected? ==> 0 < hi)
      && (phase.Holding? ==> hi == |keys|)
    }
  }

  /** Counters (absent means 0), calls in progress, and per key the rate limiter's admissions in its window. */
  datatype State = State(counts: map<Key, int>, calls: map<nat, Call>, admitted: map<Key, nat>)

  const IDLE := State(map[], map[], map[])

  datatype Event =
    | Begin(p: nat, keys: seq<Key>)
    | Incr(p: nat)
    | GiveBack(p: nat)
    | RollBack(p: nat)
    | Refuse(p: nat)      // the call returns, not acquired
    | Grant(p: nat)       // the call returns, acquired
    | SendRequest(p: nat)
    | RequestDone(p: nat)
    | StartRelease(p: nat)
    | ReleaseOne(p: nat)
    | Released(p: nat)
    | Expire(key: Key)    // the key's window ends

  function Count(counts: map<Key, int>, key: Key): int {
    if key in counts then counts[key] else 0
  }

  function Admissions(s: State, key: Key): nat {
    if key in s.admitted then s.admitted[key] else 0
  }

  predicate InPhase(s: State, p: nat, phase: Phase) {
    p in s.calls && s.calls[p].phase == phase
  }

  predicate Enabled(kind: Kind, s: State, ev: Event) {
    match ev
    case Begin(p, keys) => p !in s.calls && forall i, j :: 0 <= i < j < |keys| ==> keys[i] != keys[j]
    case Incr(p) => InPhase(s, p, Acquiring) && s.calls[p].hi < |s.calls[p].keys|
    case GiveBack(p) => InPhase(s, p, Rejected) && 0 < s.calls[p].hi <= |s.calls[p].keys|
    case RollBack(p) => InPhase(s, p, RollingBack) && s.calls[p].lo < s.calls[p].hi <= |s.calls[p].keys|
    case Refuse(p) => InPhase(s, p, RollingBack) && s.calls[p].lo == s.calls[p].hi
    case Grant(p) => InPhase(s, p, Acquiring) && s.calls[p].hi == |s.calls[p].keys|
    case SendRequest(p) => kind.Concurrency? && InPhase(s, p, Holding(false))
    case RequestDone(p) => kind.Concurrency? && InPhase(s, p, Holding(true))
    case StartRelease(p) => kind.Concurrency? && InPhase(s, p, Holding(false))
    case ReleaseOne(p) => InPhase(s, p, Releasing) && s.calls[p].lo < s.calls[p].hi <= |s.calls[p].keys|
    case Released(p) => InPhase(s, p, Releasing) && s.calls[p].lo == s.calls[p].hi
    case Expire(key) => kind.Rate? && forall p :: p in s.calls ==> !s.calls[p].Holds(key)
  }

  function Add(counts: map<Key, int>, key: Key, delta: int): map<Key, int> {
    counts[key := Count(counts, key) + delta]
  }

  /** DECR, and SET to 0 should that have gone below. */
  function ClampedDecr(counts: map<Key, int>, key: Key): map<Key, int> {
    counts[key := Max(0, Count(counts, key) - 1)]
  }

  function Apply(kind: Kind, limits: Key -> nat, s: State, ev: Event): State
    requires Enabled(kind, s, ev)
  {
    match ev
    case Begin(p, keys) => s.(calls := s.calls[p := Call(keys, 0, 0, Acquiring)])
    case Incr(p) =>
      var c := s.calls[p];
      var key := c.keys[c.hi];
      var counts' := Add(s.counts, key, 1);
      var phase' := if counts'[key] > limits(key) then Rejected else Acquiring;
      s.(counts := counts', calls := s.calls[p := c.(hi := c.hi + 1, phase := phase')])
    case GiveBack(p) =>
      var c := s.calls[p];
      s.(counts := Add(s.counts, c.keys[c.hi - 1], -1), calls := s.calls[p := c.(hi := c.hi - 1, phase := RollingBack)])
    case RollBack(p) =>
      var c := s.calls[p];
      s.(counts := Add(s.counts, c.keys[c.lo], -1), calls := s.calls[p := c.(lo := c.lo + 1)])
    case Refuse(p) => s.(calls := s.calls - {p})
    case Grant(p) =>
      var c := s.calls[p];
      if kind.Concurrency? then s.(calls := s.calls[p := c.(phase := Holding(false))])
      else
        var admitted' := map key | key in s.admitted.Keys + (set i | 0 <= i < |c.keys| :: c.keys[i]) ::
                           Admissions(s, key) + (if key in c.keys then 1 else 0);
        s.(calls := s.calls - {p}, admitted := admitted')
    case SendRequest(p) => s.(calls := s.calls[p := s.calls[p].(phase := Holding(true))])
    case RequestDone(p) => s.(calls := s.calls[p := s.calls[p].(phase := Holding(false))])
    case StartRelease(p) => s.(calls := s.calls[p := s.calls[p].(phase := Releasing)])
    case ReleaseOne(p) =>
      var c := s.calls[p];
      s.(counts := ClampedDecr(s.counts, c.keys[c.lo]), calls := s.calls[p := c.(lo := c.lo + 1)])
    case Released(p) => s.(calls := s.calls - {p})
    case Expire(key) => s.(counts := s.counts - {key}, admitted := s.admitted - {key})
  }

  predicate IsRun(kind: Kind, limits: Key -> nat, s: State, evs: seq<Event>)
    decreases |evs|
  {
    evs == [] || (Enabled(kind, s, evs[0]) && IsRun(kind, limits, Apply(kind, limits, s, evs[0]), evs[1..]))
  }

  function After(kind: Kind, limits: Key -> nat, s: State, evs: seq<Event>): State
    requires IsRun(kind, limits, s, evs)
    decreases |evs|
  {
    if evs == [] then s else After(kind, limits, Apply(kind, limits, s, evs[0]), evs[1..])
  }

  // ----- the invariant

  function Holders(calls: map<nat, Call>, key: Key): set<nat> {
    set p | p in calls && calls[p].Holds(key)
  }

  function Passers(calls: map<nat, Call>, key: Key): set<nat> {
    set p | p in calls && calls[p].Passed(key)
  }

  /**
   A counter is the number of calls that have incremented it and not yet decremented it, plus its window's
   admissions.
   */
  ghost predicate Exact(s: State, key: Key) {
    Count(s.counts, key) == |Holders(s.calls, key)| + Admissions(s, key)
  }

  ghost predicate WithinLimit(limits: Key -> nat, s: State, key: Key) {
    |Passers(s.calls, key)| + Admissions(s, key) <= limits(key)
  }

  ghost predicate CallsValid(kind: Kind, s: State) {
    && (forall p :: p in s.calls ==> s.calls[p].Valid())
    && (kind.Concurrency? ==> s.admitted == map[])
  }

  ghost predicate KeyInv(kind: Kind, limits: Key -> nat, s: State, key: Key) {
    CallsValid(kind, s) && Exact(s, key) && WithinLimit(limits, s, key)
  }

  ghost predicate Inv(kind: Kind, limits: Key -> nat, s: State) {
    forall key :: KeyInv(kind, limits, s, key)
  }

  /** Membership of one element decides how a set's size changes. */
  lemma SizeWith(a: set<nat>, b: set<nat>, p: nat)
    requires a - {p} == b - {p}
    ensures |b| == |a| - One(p in a) + One(p in b)
  {
    assert |a| == |a - {p}| + One(p in a);
    assert |b| == |b - {p}| + One(p in b);
  }

  lemma UpdateCounts(calls: map<nat, Call>, p: nat, c: Call, key: Key)
    ensures |Holders(calls[p := c], key)| == |Holders(calls, key)| - One(p in calls && calls[p].Holds(key)) +
            One(c.Holds(key))
    ensures |Passers(calls[p := c], key)| == |Passers(calls, key)| - One(p in calls && calls[p].Passed(key)) +
            One(c.Passed(key))
  {
    SizeWith(Holders(calls, key), Holders(calls[p := c], key), p);
    SizeWith(Passers(calls, key), Passers(calls[p := c], key), p);
  }

  lemma RemovalCounts(calls: map<nat, Call>, p: nat, key: Key)
    requires p in calls
    ensures |Holders(calls - {p}, key)| == |Holders(calls, key)| - One(calls[p].Holds(key))
    ensures |Passers(calls - {p}, key)| == |Passers(calls, key)| - One(calls[p].Passed(key))
  {
    SizeWith(Holders(calls, key), Holders(calls - {p}, key), p);
    SizeWith(Passers(calls, key), Passers(calls - {p}, key), p);
  }

  lemma PassersHold(calls: map<nat, Call>, key: Key)
    ensures |Passers(calls, key)| <= |Holders(calls, key)|
  {
    SubsetIsSmaller(Passers(calls, key), Holders(calls, key));
  }

  /** One more key incremented. */
  lemma Grown(c: Call, phase: Phase, key: Key)
    requires c.Valid() && c.phase.Acquiring? && c.hi < |c.keys| && (phase.Acquiring? || phase.Rejected?)
    ensures var c' := c.(hi := c.hi + 1, phase := phase);
            && c'.Valid()
            && !c.Holds(c.keys[c.hi])
            && (c'.Holds(key) <==> c.Holds(key) || key == c.keys[c.hi])
            && (c'.Passed(key) <==> c.Holds(key) || (phase.Acquiring? && key == c.keys[c.hi]))
            && (c.Passed(key) <==> c.Holds(key))
  {
  }

  /** The refused key given back. */
  lemma GaveBack(c: Call, key: Key)
    requires c.Valid() && c.phase.Rejected?
    ensures var c', k := c.(hi := c.hi - 1, phase := RollingBack), c.keys[c.hi - 1];
            && c'.Valid()
            && c.Holds(k) && !c'.Holds(k)
            && (c.Holds(key) <==> c'.Holds(key) || key == k)
            && (c'.Passed(key) <==> c'.Holds(key)) && (c.Passed(key) <==> c'.Holds(key))
  {
  }

  /** The first key still held given back. */
  lemma Shrunk(c: Call, key: Key)
    requires c.Valid() && (c.phase.RollingBack? || c.phase.Releasing?) && c.lo < c.hi
    ensures var c', k := c.(lo := c.lo + 1), c.keys[c.lo];
            && c'.Valid()
            && c.Holds(k) && !c'.Holds(k)
            && (c.Holds(key) <==> c'.Holds(key) || key == k)
            && (c'.Passed(key) <==> c'.Holds(key)) && (c.Passed(key) <==> c.Holds(key))
  {
  }

  lemma IncrKeepsInv(kind: Kind, limits: Key -> nat, s: State, p: nat, key: Key)
    requires KeyInv(kind, limits, s, key) && Enabled(kind, s, Incr(p))
    ensures KeyInv(kind, limits, Apply(kind, limits, s, Incr(p)), key)
  {
    var s' := Apply(kind, limits, s, Incr(p));
    var c, c' := s.calls[p], s'.calls[p];
    Grown(c, c'.phase, key);
    UpdateCounts(s.calls, p, c', key);
    PassersHold(s'.calls, key);
  }

  lemma GiveBackKeepsInv(kind: Kind, limits: Key -> nat, s: State, p: nat, key: Key)
    requires KeyInv(kind, limits, s, key) && Enabled(kind, s, GiveBack(p))
    ensures KeyInv(kind, limits, Apply(kind, limits, s, GiveBack(p)), key)
  {
    var s' := Apply(kind, limits, s, GiveBack(p));
    GaveBack(s.calls[p], key);
    UpdateCounts(s.calls, p, s'.calls[p], key);
  }

  lemma ShrinkKeepsInv(kind: Kind, limits: Key -> nat, s: State, ev: Event, key: Key)
    requires KeyInv(kind, limits, s, key) && Enabled(kind, s, ev) && (ev.RollBack? || ev.ReleaseOne?)
    ensures KeyInv(kind, limits, Apply(kind, limits, s, ev), key)
  {
    var s' := Apply(kind, limits, s, ev);
    var c := s.calls[ev.p];
    Shrunk(c, key);
    UpdateCounts(s.calls, ev.p, c.(lo := c.lo + 1), key);
    assert Count(s'.counts, key) == Count(s.counts, key) - One(key == c.keys[c.lo]) by {
      if key == c.keys[c.lo] {
        assert ev.p in Holders(s.calls, key);
      }
    }
  }

  lemma GrantKeepsInv(kind: Kind, limits: Key -> nat, s: State, p: nat, key: Key)
    requires KeyInv(kind, limits, s, key) && Enabled(kind, s, Grant(p))
    ensures KeyInv(kind, limits, Apply(kind, limits, s, Grant(p)), key)
  {
    var s' := Apply(kind, limits, s, Grant(p));
    var c := s.calls[p];
    assert c.Valid() && (c.Holds(key) <==> key in c.keys) && (c.Passed(key) <==> key in c.keys);
    if kind.Concurrency? {
      var c' := s'.calls[p];
      assert c'.Valid() && (c'.Holds(key) <==> key in c.keys) && (c'.Passed(key) <==> key in c.keys);
      UpdateCounts(s.calls, p, c', key);
    } else {
      RemovalCounts(s.calls, p, key);
      assert Admissions(s', key) == Admissions(s, key) + One(key in c.keys);
    }
  }

  /** A call starts with nothing, ends with nothing, or moves on with what it has. */
  lemma MoveKeepsInv(kind: Kind, limits: Key -> nat, s: State, ev: Event, key: Key)
    requires KeyInv(kind, limits, s, key) && Enabled(kind, s, ev)
    requires ev.Begin? || ev.Refuse? || ev.Released? || ev.SendRequest? || ev.RequestDone? || ev.StartRelease?
    ensures KeyInv(kind, limits, Apply(kind, limits, s, ev), key)
  {
    var s' := Apply(kind, limits, s, ev);
    if ev.Refuse? || ev.Released? {
      RemovalCounts(s.calls, ev.p, key);
      assert !s.calls[ev.p].Holds(key) && !s.calls[ev.p].Passed(key);
    } else {
      var c' := s'.calls[ev.p];
      UpdateCounts(s.calls, ev.p, c', key);
      if ev.Begin? {
        assert c'.Valid() && !c'.Holds(key) && !c'.Passed(key);
      } else {
        var c := s.calls[ev.p];
        assert c.Valid() && c' == c.(phase := c'.phase);
        assert (c'.Holds(key) <==> c.Holds(key)) && (c'.Passed(key) <==> c.Passed(key));
      }
    }
  }

  lemma ExpireKeepsInv(kind: Kind, limits: Key -> nat, s: State, expired: Key, key: Key)
    requires KeyInv(kind, limits, s, key) && Enabled(kind, s, Expire(expired))
    ensures KeyInv(kind, limits, Apply(kind, limits, s, Expire(expired)), key)
  {
  }

  lemma EventKeepsInv(kind: Kind, limits: Key -> nat, s: State, ev: Event)
    requires Inv(kind, limits, s) && Enabled(kind, s, ev)
    ensures Inv(kind, limits, Apply(kind, limits, s, ev))
  {
    forall key
      ensures KeyInv(kind, limits, Apply(kind, limits, s, ev), key)
    {
      assert KeyInv(kind, limits, s, key);
      match ev
      case Incr(p) => IncrKeepsInv(kind, limits, s, p, key);
      case Grant(p) => GrantKeepsInv(kind, limits, s, p, key);
      case GiveBack(p) => GiveBackKeepsInv(kind, limits, s, p, key);
      case RollBack(_) => ShrinkKeepsInv(kind, limits, s, ev, key);
      case ReleaseOne(_) => ShrinkKeepsInv(kind, limits, s, ev, key);
      case Expire(expired) => ExpireKeepsInv(kind, limits, s, expired, key);
      case _ => MoveKeepsInv(kind, limits, s, ev, key);
    }
  }

  lemma {:induction false} RunKeepsInv(kind: Kind, limits: Key -> nat, s: State, evs: seq<Event>)
    requires Inv(kind, limits, s) && IsRun(kind, limits, s, evs)
    ensures Inv(kind, limits, After(kind, limits, s, evs))
    decreases |evs|
  {
    if evs == [] {
    } else {
      EventKeepsInv(kind, limits, s, evs[0]);
      RunKeepsInv(kind, limits, Apply(kind, limits, s, evs[0]), evs[1..]);
    }
  }

  lemma ReachableInv(kind: Kind, limits: Key -> nat, evs: seq<Event>)
    requires IsRun(kind, limits, IDLE, evs)
    ensures Inv(kind, limits, After(kind, limits, IDLE, evs))
  {
    assert forall key: Key :: Holders(map[], key) == {} && Passers(map[], key) == {};
    RunKeepsInv(kind, limits, IDLE, evs);
  }

  // ----- what the limiters promise

  /** Counters are exact under any interleaving; once every call is over, only the windows' admissions remain. */
  lemma CountersAreExact(kind: Kind, limits: Key -> nat, evs: seq<Event>, key: Key)
    requires IsRun(kind, limits, IDLE, evs)
    ensures var s := After(kind, limits, IDLE, evs);
            && Count(s.counts, key) == |Holders(s.calls, key)| + Admissions(s, key)
            && (kind.Concurrency? && s.calls == map[] ==> Count(s.counts, key) == 0)
  {
    ReachableInv(kind, limits, evs);
    var s := After(kind, limits, IDLE, evs);
    assert KeyInv(kind, limits, s, key);
    if s.calls == map[] {
      assert Holders(s.calls, key) == {};
    }
  }

  function LeasesOn(s: State, key: Key): set<nat> {
    set p | p in s.calls && s.calls[p].phase.Holding? && key in s.calls[p].keys
  }

  function InFlightOn(s: State, key: Key): set<nat> {
    set p | p in s.calls && s.calls[p].phase == Holding(true) && key in s.calls[p].keys
  }

  /**
   However calls and their rollbacks interleave, the leases on a key, hence the requests in flight in
   that scope, never exceed its limit; nor do the calls the rate limiter admits in one window.
   */
  lemma LimitsAreKept(kind: Kind, limits: Key -> nat, evs: seq<Event>, key: Key)
    requires IsRun(kind, limits, IDLE, evs)
    ensures var s := After(kind, limits, IDLE, evs);
            |InFlightOn(s, key)| <= |LeasesOn(s, key)| <= limits(key) && Admissions(s, key) <= limits(key)
  {
    ReachableInv(kind, limits, evs);
    var s := After(kind, limits, IDLE, evs);
    assert KeyInv(kind, limits, s, key);
    forall p | p in LeasesOn(s, key)
      ensures p in Passers(s.calls, key)
    {
      assert s.calls[p].Valid();
      var i :| 0 <= i < |s.calls[p].keys| && s.calls[p].keys[i] == key;
      assert s.calls[p].Passed(key);
    }
    SubsetIsSmaller(LeasesOn(s, key), Passers(s.calls, key));
    SubsetIsSmaller(InFlightOn(s, key), LeasesOn(s, key));
  }

  /** The negative clamp of release never fires. */
  lemma ClampNeverFires(kind: Kind, limits: Key -> nat, evs: seq<Event>, p: nat)
    requires IsRun(kind, limits, IDLE, evs)
    requires Enabled(kind, After(kind, limits, IDLE, evs), ReleaseOne(p))
    ensures var s := After(kind, limits, IDLE, evs); Count(s.counts, s.calls[p].keys[s.calls[p].lo]) - 1 >= 0
  {
    ReachableInv(kind, limits, evs);
    var s := After(kind, limits, IDLE, evs);
    var key := s.calls[p].keys[s.calls[p].lo];
    assert KeyInv(kind, limits, s, key);
    assert s.calls[p].Holds(key);
    assert p in Holders(s.calls, key);
  }

  /** A call is rejected at a key only while at least `limit` other calls hold it, probe it or were admitted on it. */
  lemma RejectionIsJustified(kind: Kind, limits: Key -> nat, evs: seq<Event>, p: nat)
    requires IsRun(kind, limits, IDLE, evs)
    requires var s := After(kind, limits, IDLE, evs);
             Enabled(kind, s, Incr(p)) && Apply(kind, limits, s, Incr(p)).calls[p].phase.Rejected?
    ensures var s := After(kind, limits, IDLE, evs);
            var key := s.calls[p].keys[s.calls[p].hi];
            limits(key) <= |Holders(s.calls, key) - {p}| + Admissions(s, key)
  {
    ReachableInv(kind, limits, evs);
    var s := After(kind, limits, IDLE, evs);
    var key := s.calls[p].keys[s.calls[p].hi];
    assert KeyInv(kind, limits, s, key) && s.calls[p].Valid();
    assert Holders(s.calls, key) - {p} == Holders(s.calls, key);
  }

  /** A refused call leaves no trace: when it returns, every counter is accounted for by the others. */
  lemma RefusedCallOwesNothing(kind: Kind, limits: Key -> nat, evs: seq<Event>, p: nat, key: Key)
    requires IsRun(kind, limits, IDLE, evs)
    requires Enabled(kind, After(kind, limits, IDLE, evs), Refuse(p))
    ensures var s := After(kind, limits, IDLE, evs);
            Count(s.counts, key) == |Holders(s.calls - {p}, key)| + Admissions(s, key)
  {
    ReachableInv(kind, limits, evs);
    var s := After(kind, limits, IDLE, evs);
    assert KeyInv(kind, limits, s, key) && s.calls[p].Valid();
    RemovalCounts(s.calls, p, key);
    assert !s.calls[p].Holds(key);
  }
}
