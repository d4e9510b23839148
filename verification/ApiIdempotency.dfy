/**
 ApiIdempotencyService's in-memory branch and the trigger operation it guards, in the code's own
 form. As in the engine, the ghost trace records what every caller has done, and each method keeps it
 a run of the idempotency protocol, under any interference at its awaits.
 */
module ApiIdempotency {
  import opened Wrappers
  import opened IdempotencyProtocol

  const POLL_INTERVAL_MS := 30
  const MAX_WAIT_MS := 5000

  /** How the guarded operation is going to end. */
  datatype Plan = CreateThrows | EnqueueThrows | Works

  datatype Response = Execution(id: nat) | Error {
    function Pc(): Pc {
      match this
      case Execution(id) => Returned(id)
      case Error => Threw
    }
  }

  class ApiIdempotencyService {
    var memoryStore: map<Key, Record>
    var workflowQueue: seq<nat>
    var nextId: nat
    var now: int
    ghost var s: State
    ghost var trace: seq<Event>

    ghost predicate Valid()
      reads this
    {
      && IsRun(EMPTY, trace) && s == After(EMPTY, trace)
      && s.store == memoryStore && s.jobs == workflowQueue
      && forall id :: id in s.rows ==> id < nextId
    }

    constructor (now: int)
      ensures Valid() && trace == [] && memoryStore == map[] && workflowQueue == []
    {
      memoryStore, workflowQueue, nextId, this.now := map[], [], 0, now;
      s, trace := EMPTY, [];
    }

    /** Anything other callers may do while caller c awaits. */
    method Await(ghost c: nat)
      requires Valid() && c in s.callers
      modifies this
      ensures Valid() && old(trace) <= trace
      ensures c in s.callers && s.callers[c] == old(s.callers[c])
    {
    }

    /** The same, for at least the given time. */
    method Sleep(ghost c: nat, ms: nat)
      requires Valid() && c in s.callers
      modifies this
      ensures Valid() && old(trace) <= trace && now >= old(now) + ms
      ensures c in s.callers && s.callers[c] == old(s.callers[c])
    {
      now := now + ms;
    }

    /** Records what caller c does; the caller performs it. */
    ghost method Note(ev: Event)
      requires IsRun(EMPTY, trace) && s == After(EMPTY, trace) && Enabled(s, ev)
      modifies this`s, this`trace
      ensures IsRun(EMPTY, trace) && s == After(EMPTY, trace)
      ensures s == Apply(old(s), ev) && trace == old(trace) + [ev]
    {
      RunThen(EMPTY, trace, ev);
      s, trace := Apply(s, ev), trace + [ev];
    }

    /**
     One keyed call of the trigger endpoint. Whatever other callers do meanwhile, the call ends, and
     an execution it answers with has its job and is what every later caller of the key will get.
     */
    method ProcessInMemory(ghost c: nat, key: Key, plan: Plan) returns (response: Response)
      requires Valid() && c !in s.callers
      modifies this
      ensures Valid() && old(trace) <= trace
      ensures c in s.callers && s.callers[c] == Caller(key, response.Pc())
      ensures response.Execution? ==> response.id in workflowQueue && Enter(memoryStore, key) == Reuse(response.id)
    {
      var existing := if key in memoryStore then Some(memoryStore[key]) else None;
      Note(Arrive(c, key));
      if existing.Some? && existing.value.Completed? && existing.value.result.Some? {
        response := Execution(existing.value.result.value);
      } else if existing.Some? && existing.value.InProgress? {
        ghost var looks;
        response, looks := PollInMemory(c, key);
      } else {
        memoryStore := memoryStore[key := InProgress];
        response := Operate(c, key, plan);
      }
      RunKeepsInv(EMPTY, trace);
      assert CallerOk(s, c);
    }

    /** The guarded operation, and the record or the removal that follows it. */
    method Operate(ghost c: nat, key: Key, plan: Plan) returns (response: Response)
      requires Valid() && c in s.callers && s.callers[c] == Caller(key, Creating)
      modifies this
      ensures Valid() && old(trace) <= trace
      ensures c in s.callers && s.callers[c] == Caller(key, response.Pc())
      ensures response.Error? <==> !plan.Works?
      ensures if response.Error? then key !in memoryStore
              else key in memoryStore && memoryStore[key] == Completed(Some(response.id))
    {
      var result := ExecuteOperation(c, key, plan);
      if result.Some? {
        Note(Finish(c));
        memoryStore := memoryStore[key := Completed(result)];
        return Execution(result.value);
      }
      Note(if plan.CreateThrows? then CreateFails(c) else AddFails(c));
      memoryStore := memoryStore - {key};
      return Error;
    }

    /** triggerWorkflow's operation: the execution's row first, then its job. */
    method ExecuteOperation(ghost c: nat, ghost key: Key, plan: Plan) returns (result: Option<nat>)
      requires Valid() && c in s.callers && s.callers[c] == Caller(key, Creating)
      modifies this
      ensures Valid() && old(trace) <= trace && c in s.callers && s.callers[c].key == key
      ensures match plan
              case CreateThrows => result == None && s.callers[c].pc == Creating
              case EnqueueThrows => result == None && s.callers[c].pc.Enqueuing?
              case Works => result.Some? && s.callers[c].pc == Enqueued(result.value)
    {
      Await(c);
      if plan.CreateThrows? {
        return None;
      }
      var id := nextId;
      Note(CreateRow(c, id));
      nextId := nextId + 1;
      Await(c);
      if plan.EnqueueThrows? {
        return None;
      }
      Note(AddJob(c));
      workflowQueue := workflowQueue + [id];
      Await(c);
      return Some(id);
    }

    /**
     Looks every 30 ms, so 167 times at most, until the result is there, the key is free again, or five
     seconds are over.
     */
    method PollInMemory(ghost c: nat, key: Key) returns (response: Response, ghost looks: nat)
      requires Valid() && c in s.callers && s.callers[c] == Caller(key, Polling)
      modifies this
      ensures Valid() && old(trace) <= trace
      ensures c in s.callers && s.callers[c] == Caller(key, response.Pc())
      ensures trace != []
      ensures var last := trace[|trace| - 1]; last == Poll(c) || (last == GiveUp(c) && now - old(now) >= 5000)
      ensures looks <= 167 && looks * 30 <= now - old(now)
    {
      var startTime := now;
      looks := 0;
      while now - startTime < MAX_WAIT_MS
        invariant Valid() && old(trace) <= trace
        invariant c in s.callers && s.callers[c] == Caller(key, Polling)
        invariant looks * 30 <= now - startTime && (looks > 0 ==> (looks - 1) * 30 < MAX_WAIT_MS)
        decreases startTime + MAX_WAIT_MS - now
      {
        Sleep(c, POLL_INTERVAL_MS);
        looks := looks + 1;
        var existing := if key in memoryStore then Some(memoryStore[key]) else None;
        Note(Poll(c));
        if existing.Some? && existing.value.Completed? && existing.value.result.Some? {
          response := Execution(existing.value.result.value);
          return;
        }
        if existing.None? {
          response := Error;
          return;
        }
      }
      Note(GiveUp(c));
      response := Error;
    }
  }
}
