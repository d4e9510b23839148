/** The contract of a limiter call is what the interleaved protocol does with a call that nobody interrupts. */
module LimiterRefinement {
  import opened Wrappers
  import opened CounterProtocol
  import opened OutboundScopes
  import opened LimiterContract

  lemma ConsRun(kind: Kind, limits: Key -> nat, s: State, ev: Event, rest: seq<Event>)
    requires Enabled(kind, s, ev) && IsRun(kind, limits, Apply(kind, limits, s, ev), rest)
    ensures IsRun(kind, limits, s, [ev] + rest)
    ensures After(kind, limits, s, [ev] + rest) == After(kind, limits, Apply(kind, limits, s, ev), rest)
  {
  }

  /** Undisturbed, a rejected call gives back everything and leaves. */
  lemma {:induction false} Descend(kind: Kind, limits: Key -> nat, before: map<string, int>, s: State, p: nat,
                                   keys: seq<Key>, j: nat, n: nat)
    returns (evs: seq<Event>)
    requires Distinct(keys) && j <= n <= |keys|
    requires p in s.calls && s.calls[p] == Call(keys, j, n, RollingBack) && Raised(before, s.counts, keys[j..n])
    ensures IsRun(kind, limits, s, evs)
    ensures var t := After(kind, limits, s, evs);
            t.calls == s.calls - {p} && t.admitted == s.admitted && Unchanged(before, t.counts)
    decreases n - j
  {
    if j == n {
      evs := [Refuse(p)];
      assert evs == [Refuse(p)] + [];
      ConsRun(kind, limits, s, Refuse(p), []);
    } else {
      LowerNext(before, s.counts, keys[..n], j);
      assert keys[..n][j..] == keys[j..n] && keys[..n][j + 1..] == keys[j + 1..n];
      var s' := Apply(kind, limits, s, RollBack(p));
      var rest := Descend(kind, limits, before, s', p, keys, j + 1, n);
      assert s'.calls - {p} == s.calls - {p};
      ConsRun(kind, limits, s, RollBack(p), rest);
      evs := [RollBack(p)] + rest;
    }
  }

  /** The call has passed its first i scopes and nothing else has happened since `before`. */
  ghost predicate HasPassed(before: map<string, int>, s: State, p: nat, scopes: seq<Scope>, i: nat)
    requires i <= |scopes|
  {
    && p in s.calls && s.calls[p] == Call(Keys(scopes), 0, i, Acquiring)
    && Raised(before, s.counts, Keys(scopes)[..i])
    && (forall k :: 0 <= k < i ==> Below(before, scopes[k]))
  }

  lemma PassesNext(kind: Kind, limits: Key -> nat, before: map<string, int>, s: State, p: nat, scopes: seq<Scope>,
                   i: nat)
    requires Distinct(Keys(scopes)) && i < |scopes| && limits(scopes[i].key) == scopes[i].quota.limit
    requires HasPassed(before, s, p, scopes, i) && Below(before, scopes[i])
    ensures Enabled(kind, s, Incr(p))
    ensures var s' := Apply(kind, limits, s, Incr(p));
            && HasPassed(before, s', p, scopes, i + 1)
            && s'.calls == s.calls[p := s'.calls[p]] && s'.admitted == s.admitted
  {
  }

  /** The call's last increment went one above the scope's count, and that is above its limit. */
  ghost predicate RejectedAt(before: map<string, int>, s: State, p: nat, scopes: seq<Scope>, i: nat)
    requires i < |scopes|
  {
    && p in s.calls && s.calls[p] == Call(Keys(scopes), 0, i + 1, Rejected)
    && Count(s.counts, scopes[i].key) == Count(before, scopes[i].key) + 1 > scopes[i].quota.limit
  }

  lemma FailsNext(kind: Kind, limits: Key -> nat, before: map<string, int>, s: State, p: nat, scopes: seq<Scope>,
                  i: nat)
    requires Distinct(Keys(scopes)) && i < |scopes| && limits(scopes[i].key) == scopes[i].quota.limit
    requires HasPassed(before, s, p, scopes, i) && !Below(before, scopes[i])
    ensures Enabled(kind, s, Incr(p))
    ensures var s1 := Apply(kind, limits, s, Incr(p));
            && RejectedAt(before, s1, p, scopes, i)
            && Enabled(kind, s1, GiveBack(p))
            && var s2 := Apply(kind, limits, s1, GiveBack(p));
            && s2.calls == s.calls[p := Call(Keys(scopes), 0, i, RollingBack)] && s2.admitted == s.admitted
            && Raised(before, s2.counts, Keys(scopes)[..i])
  {
  }

  /** What a call leaves behind when it returns: a lease, or an admission on each of its keys, or nothing. */
  ghost predicate Concluded(kind: Kind, s: State, t: State, p: nat, scopes: seq<Scope>, granted: bool) {
    && t.calls == (if granted && kind.Concurrency? then s.calls[p := Call(Keys(scopes), 0, |scopes|, Holding(false))]
                   else s.calls - {p})
    && forall key :: Admissions(t, key) == Admissions(s, key) + One(granted && kind.Rate? && key in Keys(scopes))
  }

  /**
   The call's run in two parts: up to its rejection at the first full scope, if there is one, and the
   rest. At the end the counters are as the contract says.
   */
  ghost predicate RunMeetsContract(kind: Kind, limits: Key -> nat, before: map<string, int>, s: State, p: nat,
                                   scopes: seq<Scope>, up: seq<Event>, down: seq<Event>)
  {
    var i := FirstFull(before, scopes);
    && IsRun(kind, limits, s, up) && IsRun(kind, limits, s, up + down)
    && (i < |scopes| ==> RejectedAt(before, After(kind, limits, s, up), p, scopes, i))
    && AllOrNothing(before, After(kind, limits, s, up + down).counts, scopes)
    && Concluded(kind, s, After(kind, limits, s, up + down), p, scopes, i == |scopes|)
  }

  lemma Granted(kind: Kind, limits: Key -> nat, before: map<string, int>, s: State, p: nat, scopes: seq<Scope>)
    requires Distinct(Keys(scopes)) && HasPassed(before, s, p, scopes, |scopes|)
    ensures RunMeetsContract(kind, limits, before, s, p, scopes, [Grant(p)], [])
  {
    FirstFullIs(before, scopes, |scopes|);
    assert Keys(scopes)[..|scopes|] == Keys(scopes);
    ConsRun(kind, limits, s, Grant(p), []);
    assert [Grant(p)] + [] == [Grant(p)];
  }

  lemma Fall(kind: Kind, limits: Key -> nat, before: map<string, int>, s: State, p: nat, scopes: seq<Scope>, i: nat)
    returns (down: seq<Event>)
    requires Distinct(Keys(scopes)) && i < |scopes| && limits(scopes[i].key) == scopes[i].quota.limit
    requires HasPassed(before, s, p, scopes, i) && !Below(before, scopes[i])
    ensures RunMeetsContract(kind, limits, before, s, p, scopes, [Incr(p)], down)
  {
    FirstFullIs(before, scopes, i);
    FailsNext(kind, limits, before, s, p, scopes, i);
    var s1 := Apply(kind, limits, s, Incr(p));
    var s2 := Apply(kind, limits, s1, GiveBack(p));
    assert Keys(scopes)[0..i] == Keys(scopes)[..i];
    var rest := Descend(kind, limits, before, s2, p, Keys(scopes), 0, i);
    assert s2.calls - {p} == s.calls - {p};
    ConsRun(kind, limits, s1, GiveBack(p), rest);
    down := [GiveBack(p)] + rest;
    ConsRun(kind, limits, s, Incr(p), []);
    assert [Incr(p)] + [] == [Incr(p)];
    ConsRun(kind, limits, s, Incr(p), down);
  }

  lemma ConcludedBefore(kind: Kind, s: State, s': State, t: State, p: nat, scopes: seq<Scope>, granted: bool)
    requires Concluded(kind, s', t, p, scopes, granted)
    requires p in s'.calls && s'.calls == s.calls[p := s'.calls[p]] && s'.calls - {p} == s.calls - {p} &&
             s'.admitted == s.admitted
    ensures Concluded(kind, s, t, p, scopes, granted)
  {
    var c := Call(Keys(scopes), 0, |scopes|, Holding(false));
    assert s'.calls[p := c] == s.calls[p := c];
  }

  /** An event before the rest of a run that meets the contract. */
  lemma ConsContract(kind: Kind, limits: Key -> nat, before: map<string, int>, s: State, ev: Event, p: nat,
                     scopes: seq<Scope>,
                     up: seq<Event>, down: seq<Event>)
    requires (ev.Begin? || ev.Incr?) && Enabled(kind, s, ev)
    requires var s' := Apply(kind, limits, s, ev);
             && RunMeetsContract(kind, limits, before, s', p, scopes, up, down)
             && p in s'.calls && s'.calls - {p} == s.calls - {p} && s'.calls == s.calls[p := s'.calls[p]]
             && s'.admitted == s.admitted
    ensures RunMeetsContract(kind, limits, before, s, p, scopes, [ev] + up, down)
  {
    var s' := Apply(kind, limits, s, ev);
    ConcludedBefore(kind, s, s', After(kind, limits, s', up + down), p, scopes, FirstFull(before, scopes) == |scopes|);
    ConsRun(kind, limits, s, ev, up);
    ConsRun(kind, limits, s, ev, up + down);
    assert [ev] + up + down == [ev] + (up + down);
  }

  /** Undisturbed, a call that has passed i scopes ends as the contract says. */
  lemma {:induction false} Climb(kind: Kind, limits: Key -> nat, before: map<string, int>, s: State, p: nat,
                                 scopes: seq<Scope>, i: nat)
    returns (up: seq<Event>, down: seq<Event>)
    requires Distinct(Keys(scopes)) && i <= |scopes|
    requires forall k :: 0 <= k < |scopes| ==> limits(scopes[k].key) == scopes[k].quota.limit
    requires HasPassed(before, s, p, scopes, i)
    ensures RunMeetsContract(kind, limits, before, s, p, scopes, up, down)
    decreases |scopes| - i
  {
    if i == |scopes| {
      Granted(kind, limits, before, s, p, scopes);
      up, down := [Grant(p)], [];
    } else if Below(before, scopes[i]) {
      PassesNext(kind, limits, before, s, p, scopes, i);
      up, down := Climb(kind, limits, before, Apply(kind, limits, s, Incr(p)), p, scopes, i + 1);
      ConsContract(kind, limits, before, s, Incr(p), p, scopes, up, down);
      up := [Incr(p)] + up;
    } else {
      up := [Incr(p)];
      down := Fall(kind, limits, before, s, p, scopes, i);
    }
  }

  /**
   Sequential refinement, for both limiters: from any state of the shared counters, a call run alone
   through the protocol's own INCRs and DECRs meets the contract of Acquire and CheckAndConsume. It is
   rejected exactly at the first full scope, which is the one its result names.
   */
  lemma UninterruptedCallMeetsContract(kind: Kind, limits: Key -> nat, s: State, p: nat, scopes: seq<Scope>)
    returns (up: seq<Event>, down: seq<Event>)
    requires p !in s.calls && Distinct(Keys(scopes))
    requires forall k :: 0 <= k < |scopes| ==> limits(scopes[k].key) == scopes[k].quota.limit
    ensures RunMeetsContract(kind, limits, s.counts, s, p, scopes, up, down)
  {
    var begin := Begin(p, Keys(scopes));
    var s1 := Apply(kind, limits, s, begin);
    assert Keys(scopes)[..0] == [];
    up, down := Climb(kind, limits, s.counts, s1, p, scopes, 0);
    ConsContract(kind, limits, s.counts, s, begin, p, scopes, up, down);
    up := [begin] + up;
  }
}
