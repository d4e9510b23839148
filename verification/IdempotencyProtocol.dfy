/**
 Concurrent callers of the trigger endpoint over the in-memory idempotency store. An event is what
 one caller does between two awaits; the operation creates an execution row and then enqueues its
 job. (No record expires, and the store is the only copy.)
 */
module IdempotencyProtocol {
  import opened Wrappers

  type Key = string

  /** A result of None is the undefined a generic operation may return. */
  datatype Record = InProgress | Completed(result: Option<nat>)

  type Store = map<Key, Record>

  /** What processInMemory decides on entry. */
  datatype Entry = Start | Reuse(id: nat) | Wait

  function Enter(store: Store, key: Key): Entry {
    if key !in store then Start
    else match store[key]
         case InProgress => Wait
         case Completed(Some(id)) => Reuse(id)
         case Completed(None) => Start
  }

  function StoreAfterEnter(store: Store, key: Key): Store {
    if Enter(store, key).Start? then store[key := InProgress] else store
  }

  /** What one look of pollInMemory finds. */
  datatype Look = Found(id: nat) | Gone | Pending

  function LookAt(store: Store, key: Key): Look {
    if key !in store then Gone
    else match store[key]
         case Completed(Some(id)) => Found(id)
         case _ => Pending
  }

  datatype Pc =
    | Creating            // runs the operation; no row yet
    | Enqueuing(id: nat)  // its row exists
    | Enqueued(id: nat)   // and its job
    | Polling
    | Returned(id: nat)
    | ReturnedUndefined
    | Threw

  datatype Caller = Caller(key: Key, pc: Pc) {
    predicate Busy() { pc.Creating? || pc.Enqueuing? || pc.Enqueued? }
  }

  /** An execution row: the key it was created under, and the caller that created it. */
  datatype Row = Row(key: Key, creator: nat)

  /**
   owners: who last put a key in progress; jobs: executions enqueued; abandoned: rows whose enqueueing
   failed; forgotten: executions enqueued by operations that then returned undefined.
   */
  datatype State = State(
    store: Store,
    owners: map<Key, nat>,
    callers: map<nat, Caller>,
    rows: map<nat, Row>,
    jobs: seq<nat>,
    abandoned: set<nat>,
    forgotten: set<nat>)

  const EMPTY := State(map[], map[], map[], map[], [], {}, {})

  datatype Event =
    | Arrive(c: nat, key: Key)
    | CreateRow(c: nat, id: nat)
    | CreateFails(c: nat)
    | AddJob(c: nat)
    | AddFails(c: nat)
    | Finish(c: nat)
    | FinishUndefined(c: nat) // a generic operation may; the trigger's always returns its execution
    | Poll(c: nat)
    | GiveUp(c: nat)

  predicate Enabled(s: State, ev: Event) {
    match ev
    case Arrive(c, _) => c !in s.callers
    case CreateRow(c, id) => c in s.callers && s.callers[c].pc.Creating? && id !in s.rows
    case CreateFails(c) => c in s.callers && s.callers[c].pc.Creating?
    case AddJob(c) => c in s.callers && s.callers[c].pc.Enqueuing?
    case AddFails(c) => c in s.callers && s.callers[c].pc.Enqueuing?
    case Finish(c) => c in s.callers && s.callers[c].pc.Enqueued?
    case FinishUndefined(c) => c in s.callers && s.callers[c].pc.Enqueued?
    case Poll(c) => c in s.callers && s.callers[c].pc.Polling?
    case GiveUp(c) => c in s.callers && s.callers[c].pc.Polling?
  }

  function Goto(s: State, c: nat, pc: Pc): State
    requires c in s.callers
  {
    s.(callers := s.callers[c := s.callers[c].(pc := pc)])
  }

  function Apply(s: State, ev: Event): State
    requires Enabled(s, ev)
  {
    match ev
    case Arrive(c, key) =>
      var pc := match Enter(s.store, key) case Start => Creating case Reuse(id) => Returned(id) case Wait => Polling;
      s.(store := StoreAfterEnter(s.store, key),
         owners := if pc.Creating? then s.owners[key := c] else s.owners,
         callers := s.callers[c := Caller(key, pc)])
    case CreateRow(c, id) => Goto(s.(rows := s.rows[id := Row(s.callers[c].key, c)]), c, Enqueuing(id))
    case CreateFails(c) => Goto(s.(store := s.store - {s.callers[c].key}), c, Threw)
    case AddJob(c) => Goto(s.(jobs := s.jobs + [s.callers[c].pc.id]), c, Enqueued(s.callers[c].pc.id))
    case AddFails(c) =>
      Goto(s.(store := s.store - {s.callers[c].key}, abandoned := s.abandoned + {s.callers[c].pc.id}), c, Threw)
    case Finish(c) =>
      var id := s.callers[c].pc.id;
      Goto(s.(store := s.store[s.callers[c].key := Completed(Some(id))]), c, Returned(id))
    case FinishUndefined(c) =>
      Goto(s.(store := s.store[s.callers[c].key := Completed(None)], forgotten := s.forgotten + {s.callers[c].pc.id}),
           c, ReturnedUndefined)
    case Poll(c) =>
      match LookAt(s.store, s.callers[c].key) {
        case Found(id) => Goto(s, c, Returned(id))
        case Gone => Goto(s, c, Threw)
        case Pending => s
      }
    case GiveUp(c) => Goto(s, c, Threw)
  }

  predicate IsRun(s: State, evs: seq<Event>)
    decreases |evs|
  {
    evs == [] || (Enabled(s, evs[0]) && IsRun(Apply(s, evs[0]), evs[1..]))
  }

  function After(s: State, evs: seq<Event>): State
    requires IsRun(s, evs)
    decreases |evs|
  {
    if evs == [] then s else After(Apply(s, evs[0]), evs[1..])
  }

  lemma {:induction false} RunThen(s: State, evs: seq<Event>, ev: Event)
    requires IsRun(s, evs) && Enabled(After(s, evs), ev)
    ensures IsRun(s, evs + [ev])
    ensures After(s, evs + [ev]) == Apply(After(s, evs), ev)
    decreases |evs|
  {
    if evs == [] {
      assert [ev][1..] == [];
      assert evs + [ev] == [ev];
    } else {
      RunThen(Apply(s, evs[0]), evs[1..], ev);
      assert (evs + [ev])[1..] == evs[1..] + [ev];
    }
  }

  // ----- the invariant

  /** Caller c has put the key in progress, and nobody else has since. */
  predicate Owns(s: State, c: nat, key: Key) {
    key in s.store && s.store[key].InProgress? && key in s.owners && s.owners[key] == c
  }

  predicate BusyOn(s: State, c: nat, key: Key) {
    c in s.callers && s.callers[c].Busy() && s.callers[c].key == key
  }

  predicate IsRowOf(s: State, id: nat, key: Key, c: nat) {
    id in s.rows && s.rows[id] == Row(key, c)
  }

  /** A job's key is completed with that execution, or about to be. */
  predicate Settled(s: State, id: nat, row: Row) {
    || (row.key in s.store && s.store[row.key] == Completed(Some(id)))
    || (row.creator in s.callers && s.callers[row.creator].pc == Enqueued(id))
  }

  predicate CallerOk(s: State, c: nat)
    requires c in s.callers
  {
    var key := s.callers[c].key;
    match s.callers[c].pc
    case Creating => Owns(s, c, key)
    case Enqueuing(id) => Owns(s, c, key) && IsRowOf(s, id, key, c) && id !in s.jobs && id !in s.abandoned
    case Enqueued(id) => Owns(s, c, key) && IsRowOf(s, id, key, c) && id in s.jobs
    case Returned(id) => key in s.store && s.store[key] == Completed(Some(id))
    case _ => true
  }

  predicate KeyOk(s: State, key: Key)
    requires key in s.store
  {
    match s.store[key]
    case InProgress => key in s.owners && BusyOn(s, s.owners[key], key)
    case Completed(None) => true
    case Completed(Some(id)) => id in s.jobs && id in s.rows && s.rows[id].key == key
  }

  /** Every row is on its way to a job, or has its job and settles its key unless forgotten, or is abandoned. */
  predicate RowOk(s: State, id: nat)
    requires id in s.rows
  {
    if id in s.jobs then id !in s.abandoned && (id in s.forgotten || Settled(s, id, s.rows[id]))
    else id in s.abandoned || (s.rows[id].creator in s.callers && s.callers[s.rows[id].creator].pc == Enqueuing(id))
  }

  ghost predicate CallersOk(s: State) { forall c :: c in s.callers ==> CallerOk(s, c) }

  ghost predicate KeysOk(s: State) { forall key :: key in s.store ==> KeyOk(s, key) }

  ghost predicate RowsOk(s: State) { forall id :: id in s.rows ==> RowOk(s, id) }

  ghost predicate JobsOk(s: State) {
    && (forall id :: id in s.jobs ==> id in s.rows)
    && (forall i, j :: 0 <= i < j < |s.jobs| ==> s.jobs[i] != s.jobs[j])
    && s.abandoned <= s.rows.Keys
    && (forall id :: id in s.forgotten ==> id in s.jobs)
  }

  /** What the store says about a key is what its callers are doing: at most one of them is busy on it. */
  ghost predicate Inv(s: State) {
    CallersOk(s) && KeysOk(s) && RowsOk(s) && JobsOk(s)
  }

  /** A caller that neither starts nor ends an operation touches nothing but itself. */
  lemma WaiterKeepsInv(s: State, c: nat, caller: Caller)
    requires Inv(s) && (c in s.callers ==> s.callers[c].pc.Polling?)
    requires caller.pc.Polling? || caller.pc.Threw?
          || (caller.pc.Returned? && caller.key in s.store && s.store[caller.key] == Completed(Some(caller.pc.id)))
    ensures Inv(s.(callers := s.callers[c := caller]))
  {
  }

  lemma StarterKeepsCallers(s: State, c: nat, key: Key)
    requires Inv(s) && c !in s.callers && Enter(s.store, key).Start?
    ensures CallersOk(Apply(s, Arrive(c, key)))
  {
  }

  lemma StarterKeepsInv(s: State, c: nat, key: Key)
    requires Inv(s) && c !in s.callers && Enter(s.store, key).Start?
    ensures Inv(Apply(s, Arrive(c, key)))
  {
    StarterKeepsCallers(s, c, key);
  }

  lemma CreateRowKeepsInv(s: State, c: nat, id: nat)
    requires Inv(s) && Enabled(s, CreateRow(c, id))
    ensures Inv(Apply(s, CreateRow(c, id)))
  {
  }

  lemma CreateFailsKeepsInv(s: State, c: nat)
    requires Inv(s) && Enabled(s, CreateFails(c))
    ensures Inv(Apply(s, CreateFails(c)))
  {
  }

  lemma AddJobKeepsCallers(s: State, c: nat)
    requires Inv(s) && Enabled(s, AddJob(c))
    ensures CallersOk(Apply(s, AddJob(c)))
  {
  }

  lemma AddJobKeepsKeys(s: State, c: nat)
    requires Inv(s) && Enabled(s, AddJob(c))
    ensures KeysOk(Apply(s, AddJob(c)))
  {
  }

  lemma AddJobKeepsInv(s: State, c: nat)
    requires Inv(s) && Enabled(s, AddJob(c))
    ensures Inv(Apply(s, AddJob(c)))
  {
    AddJobKeepsCallers(s, c);
    AddJobKeepsKeys(s, c);
  }

  lemma AddFailsKeepsCallers(s: State, c: nat)
    requires Inv(s) && Enabled(s, AddFails(c))
    ensures CallersOk(Apply(s, AddFails(c)))
  {
  }

  lemma AddFailsKeepsKeys(s: State, c: nat)
    requires Inv(s) && Enabled(s, AddFails(c))
    ensures KeysOk(Apply(s, AddFails(c)))
  {
  }

  lemma AddFailsKeepsInv(s: State, c: nat)
    requires Inv(s) && Enabled(s, AddFails(c))
    ensures Inv(Apply(s, AddFails(c)))
  {
    AddFailsKeepsCallers(s, c);
    AddFailsKeepsKeys(s, c);
  }

  lemma FinishKeepsCallers(s: State, c: nat)
    requires Inv(s) && Enabled(s, Finish(c))
    ensures CallersOk(Apply(s, Finish(c)))
  {
  }

  lemma FinishKeepsKeys(s: State, c: nat)
    requires Inv(s) && Enabled(s, Finish(c))
    ensures KeysOk(Apply(s, Finish(c)))
  {
  }

  lemma FinishKeepsInv(s: State, c: nat)
    requires Inv(s) && Enabled(s, Finish(c))
    ensures Inv(Apply(s, Finish(c)))
  {
    FinishKeepsCallers(s, c);
    FinishKeepsKeys(s, c);
  }

  lemma FinishUndefinedKeepsCallers(s: State, c: nat)
    requires Inv(s) && Enabled(s, FinishUndefined(c))
    ensures CallersOk(Apply(s, FinishUndefined(c)))
  {
  }

  lemma FinishUndefinedKeepsKeys(s: State, c: nat)
    requires Inv(s) && Enabled(s, FinishUndefined(c))
    ensures KeysOk(Apply(s, FinishUndefined(c)))
  {
  }

  lemma FinishUndefinedKeepsInv(s: State, c: nat)
    requires Inv(s) && Enabled(s, FinishUndefined(c))
    ensures Inv(Apply(s, FinishUndefined(c)))
  {
    FinishUndefinedKeepsCallers(s, c);
    FinishUndefinedKeepsKeys(s, c);
  }

  lemma EventKeepsInv(s: State, ev: Event)
    requires Inv(s) && Enabled(s, ev)
    ensures Inv(Apply(s, ev))
  {
    match ev
    case Arrive(c, key) =>
      if Enter(s.store, key).Start? {
        StarterKeepsInv(s, c, key);
      } else {
        WaiterKeepsInv(s, c, Apply(s, ev).callers[c]);
      }
    case CreateRow(c, id) => CreateRowKeepsInv(s, c, id);
    case CreateFails(c) => CreateFailsKeepsInv(s, c);
    case AddJob(c) => AddJobKeepsInv(s, c);
    case AddFails(c) => AddFailsKeepsInv(s, c);
    case Finish(c) => FinishKeepsInv(s, c);
    case FinishUndefined(c) => FinishUndefinedKeepsInv(s, c);
    case Poll(c) => WaiterKeepsInv(s, c, Apply(s, ev).callers[c]);
    case GiveUp(c) => WaiterKeepsInv(s, c, Apply(s, ev).callers[c]);
  }

  lemma {:induction false} RunKeepsInv(s: State, evs: seq<Event>)
    requires Inv(s) && IsRun(s, evs)
    ensures Inv(After(s, evs))
    decreases |evs|
  {
    if evs == [] {
    } else {
      EventKeepsInv(s, evs[0]);
      RunKeepsInv(Apply(s, evs[0]), evs[1..]);
    }
  }

  // ----- what one key can lead to

  /** At most one operation runs per key, at any moment of any interleaving, and a key in progress has one. */
  lemma OneOperationAtATime(evs: seq<Event>, key: Key)
    requires IsRun(EMPTY, evs)
    ensures var s := After(EMPTY, evs);
            && (forall c, d :: BusyOn(s, c, key) && BusyOn(s, d, key) ==> c == d)
            && (Enter(s.store, key).Wait? <==> exists c :: BusyOn(s, c, key))
  {
    RunKeepsInv(EMPTY, evs);
    var s := After(EMPTY, evs);
    if key in s.store && s.store[key].InProgress? {
      assert BusyOn(s, s.owners[key], key);
    }
  }

  /** All callers of a key that return at all return the same execution, and it has a job. */
  lemma CallersAgree(evs: seq<Event>, c: nat, d: nat)
    requires IsRun(EMPTY, evs)
    requires var s := After(EMPTY, evs);
             c in s.callers && d in s.callers && s.callers[c].pc.Returned? && s.callers[d].pc.Returned? &&
             s.callers[c].key == s.callers[d].key
    ensures var s := After(EMPTY, evs); s.callers[c].pc == s.callers[d].pc && s.callers[c].pc.id in s.jobs
  {
    RunKeepsInv(EMPTY, evs);
    assert After(EMPTY, evs).callers[c].key == After(EMPTY, evs).callers[d].key;
  }

  /** The row is neither abandoned by a failed enqueueing nor forgotten by an undefined result. */
  predicate IsKept(s: State, id: nat) {
    id in s.rows && id !in s.abandoned && id !in s.forgotten
  }

  /**
   One key leaves at most one row that is kept, and enqueues at most one job that is not forgotten; no
   abandoned row has a job, and nothing is forgotten unless an operation returned undefined.
   */
  lemma OneKeyOneJob(evs: seq<Event>)
    requires IsRun(EMPTY, evs)
    ensures var s := After(EMPTY, evs);
            && (forall i :: 0 <= i < |s.jobs| ==> s.jobs[i] in s.rows && s.jobs[i] !in s.abandoned)
            && (forall i, j :: 0 <= i < |s.jobs| && 0 <= j < |s.jobs| ==>
                  s.rows[s.jobs[i]].key == s.rows[s.jobs[j]].key ==>
                  i == j || s.jobs[i] in s.forgotten || s.jobs[j] in s.forgotten)
            && (forall a, b :: IsKept(s, a) && IsKept(s, b) && s.rows[a].key == s.rows[b].key ==> a == b)
            && (s.forgotten != {} ==> exists i :: 0 <= i < |evs| && evs[i].FinishUndefined?)
  {
    RunKeepsInv(EMPTY, evs);
    var s := After(EMPTY, evs);
    forall a, b | IsKept(s, a) && IsKept(s, b) && s.rows[a].key == s.rows[b].key
      ensures a == b
    {
      assert RowOk(s, a) && RowOk(s, b);
    }
    forall i, j | 0 <= i < |s.jobs| && 0 <= j < |s.jobs| && s.rows[s.jobs[i]].key == s.rows[s.jobs[j]].key
                  && s.jobs[i] !in s.forgotten && s.jobs[j] !in s.forgotten
      ensures i == j
    {
      assert IsKept(s, s.jobs[i]) && IsKept(s, s.jobs[j]);
    }
    if forall i :: 0 <= i < |evs| ==> !evs[i].FinishUndefined? {
      DefinedRunForgetsNothing(EMPTY, evs);
    }
  }

  lemma {:induction false} DefinedRunForgetsNothing(s: State, evs: seq<Event>)
    requires IsRun(s, evs) && forall i :: 0 <= i < |evs| ==> !evs[i].FinishUndefined?
    ensures After(s, evs).forgotten == s.forgotten
    decreases |evs|
  {
    if evs == [] {
    } else {
      DefinedRunForgetsNothing(Apply(s, evs[0]), evs[1..]);
    }
  }

  /** A failed operation frees its key: the next caller runs the operation again. */
  lemma FailureFreesKey(evs: seq<Event>, c: nat, fails: Event, next: nat)
    requires IsRun(EMPTY, evs) && (fails == CreateFails(c) || fails == AddFails(c))
    requires Enabled(After(EMPTY, evs), fails) && next !in After(EMPTY, evs).callers
    ensures var s, key := After(EMPTY, evs), After(EMPTY, evs).callers[c].key;
            var s' := Apply(s, fails);
            Enabled(s', Arrive(next, key)) && Apply(s', Arrive(next, key)).callers[next].pc == Creating
  {
  }

  /**
   "One key, one execution" fails when enqueueing fails after the row has been created: the next caller
   of the key creates a second row, and the first stays behind without a job. (That two rows of a key
   need such a failure, or an undefined result, is OneKeyOneJob.)
   */
  lemma FailedEnqueueOpensSecondRow(evs: seq<Event>, c: nat, next: nat, second: nat)
    requires IsRun(EMPTY, evs) && Enabled(After(EMPTY, evs), AddFails(c))
    requires next !in After(EMPTY, evs).callers && second !in After(EMPTY, evs).rows
    ensures var key, first := After(EMPTY, evs).callers[c].key, After(EMPTY, evs).callers[c].pc.id;
            var more := evs + [AddFails(c)] + [Arrive(next, key)] + [CreateRow(next, second)];
            && IsRun(EMPTY, more)
            && var s := After(EMPTY, more);
            first != second && IsRowOf(s, first, key, c) && IsRowOf(s, second, key, next) && first in s.abandoned &&
            first !in s.jobs
  {
    RunKeepsInv(EMPTY, evs);
    var key := After(EMPTY, evs).callers[c].key;
    RunThen(EMPTY, evs, AddFails(c));
    RunThen(EMPTY, evs + [AddFails(c)], Arrive(next, key));
    RunThen(EMPTY, evs + [AddFails(c)] + [Arrive(next, key)], CreateRow(next, second));
  }

  // ----- operations that return undefined

  /** It fails too when the operation returns undefined: the next caller enqueues a second job. */
  lemma UndefinedResultOpensSecondJob(evs: seq<Event>, c: nat, next: nat, second: nat)
    requires IsRun(EMPTY, evs) && Enabled(After(EMPTY, evs), FinishUndefined(c))
    requires next !in After(EMPTY, evs).callers && second !in After(EMPTY, evs).rows
    ensures var key, first := After(EMPTY, evs).callers[c].key, After(EMPTY, evs).callers[c].pc.id;
            var more := evs + [FinishUndefined(c)] + [Arrive(next, key)] + [CreateRow(next, second)] + [AddJob(next)];
            && IsRun(EMPTY, more)
            && var s := After(EMPTY, more);
            && first != second && IsRowOf(s, first, key, c) && IsRowOf(s, second, key, next)
            && first in s.jobs && second in s.jobs
  {
    RunKeepsInv(EMPTY, evs);
    var key := After(EMPTY, evs).callers[c].key;
    RunThen(EMPTY, evs, FinishUndefined(c));
    RunThen(EMPTY, evs + [FinishUndefined(c)], Arrive(next, key));
    RunThen(EMPTY, evs + [FinishUndefined(c)] + [Arrive(next, key)], CreateRow(next, second));
    RunThen(EMPTY, evs + [FinishUndefined(c)] + [Arrive(next, key)] + [CreateRow(next, second)], AddJob(next));
  }

  /** The key holds an undefined result, and nobody is at work on it. */
  ghost predicate HoldsUndefined(s: State, key: Key) {
    key in s.store && s.store[key] == Completed(None) && forall c :: !BusyOn(s, c, key)
  }

  /** Those who wait go on waiting or give up; everybody else of the key stays as they are. */
  ghost predicate OnlyGivesUp(s: State, s': State, key: Key) {
    forall c :: c in s'.callers && s'.callers[c].key == key ==>
      c in s.callers && (s'.callers[c] == s.callers[c] ||
                         (s.callers[c].pc.Polling? && s'.callers[c] == s.callers[c].(pc := Threw)))
  }

  lemma EventKeepsUndefined(s: State, ev: Event, key: Key)
    requires HoldsUndefined(s, key) && Enabled(s, ev) && (ev.Arrive? ==> ev.key != key)
    ensures HoldsUndefined(Apply(s, ev), key) && OnlyGivesUp(s, Apply(s, ev), key)
  {
    var s' := Apply(s, ev);
    assert !BusyOn(s, ev.c, key);
    forall c
      ensures !BusyOn(s', c, key)
    {
      assert !BusyOn(s, c, key);
    }
  }

  lemma {:induction false} RunKeepsUndefined(s: State, evs: seq<Event>, key: Key)
    requires HoldsUndefined(s, key) && IsRun(s, evs)
    requires forall i :: 0 <= i < |evs| && evs[i].Arrive? ==> evs[i].key != key
    ensures HoldsUndefined(After(s, evs), key) && OnlyGivesUp(s, After(s, evs), key)
    decreases |evs|
  {
    if evs == [] {
    } else {
      EventKeepsUndefined(s, evs[0], key);
      RunKeepsUndefined(Apply(s, evs[0]), evs[1..], key);
    }
  }

  /**
   An undefined result serves nobody: from any reachable state in which a key holds one, until a
   newcomer runs the operation again, no run gives those who wait for it any other end than an error.
   */
  lemma UndefinedResultServesNobody(before: seq<Event>, evs: seq<Event>, key: Key)
    requires IsRun(EMPTY, before) && IsRun(After(EMPTY, before), evs)
    requires key in After(EMPTY, before).store && After(EMPTY, before).store[key] == Completed(None)
    requires forall i :: 0 <= i < |evs| && evs[i].Arrive? ==> evs[i].key != key
    ensures var s, s' := After(EMPTY, before), After(After(EMPTY, before), evs);
            && OnlyGivesUp(s, s', key)
            && forall c :: c !in s'.callers ==> Apply(s', Arrive(c, key)).callers[c].pc == Creating
  {
    RunKeepsInv(EMPTY, before);
    var s := After(EMPTY, before);
    assert forall c :: c in s.callers ==> CallerOk(s, c);
    RunKeepsUndefined(s, evs, key);
  }
}
