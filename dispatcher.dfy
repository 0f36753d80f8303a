/**
 * The dispatcher: operations that wrap one unit of work and track its status, eight FIFO buckets
 * ranked by priority, and the batch runner that invokes a bucket's operations in order and then
 * raises one aggregate failure.
 *
 * A `Runnable` is a `Work`: an id, whether it calls `abort()` on its own operation while it runs,
 * and whether it throws. Running it records `WorkRan` in the trace. Work does not call back into
 * the dispatcher. The thread a call comes from is a thread id supplied by the caller.
 */
module Dispatch {
  import opened Wrappers
  import opened Events

  // ---------------------------------------------------------------- DispatcherPriority

  /** The rank of a `DispatcherPriority`, which is also the argument of its constructor. */
  type Priority = p: nat | p < 8

  const APP_PRE_TICK: Priority := 0
  const INPUT_PRE: Priority := 1
  const INPUT_POST: Priority := 2
  const RENDER_PRE: Priority := 3
  const RENDER_POST: Priority := 4
  const APPLICATION_IDLE: Priority := 5
  const CONTEXT_IDLE: Priority := 6
  const APP_POST_TICK: Priority := 7

  // ---------------------------------------------------------------- DispatcherOperationStatus

  const PENDING: bv32 := 0x01
  const ABORTED: bv32 := 0x02
  const COMPLETED: bv32 := 0x04
  const COMPLETED_SUCCESS: bv32 := 0x0C
  const COMPLETED_FAILED: bv32 := 0x14
  const EXECUTING: bv32 := 0x20

  /** A status has the `COMPLETED` bit. */
  predicate IsCompleted(status: bv32) {
    status & COMPLETED != 0
  }

  /** The two completed statuses are distinct and both carry the `COMPLETED` bit; no other status does. */
  lemma CompletedBit()
    ensures IsCompleted(COMPLETED_SUCCESS) && IsCompleted(COMPLETED_FAILED) && COMPLETED_SUCCESS != COMPLETED_FAILED
    ensures !IsCompleted(PENDING) && !IsCompleted(ABORTED) && !IsCompleted(EXECUTING)
  {
  }

  // ---------------------------------------------------------------- DispatcherOperation

  /** A `Runnable`: `callsAbort` when it calls `abort()` on its operation, `fails` when it throws. */
  datatype Work = Work(id: nat, callsAbort: bool, fails: bool)

  /** The mutable part of an operation. */
  datatype OpState = OpState(status: bv32, aborted: bool)

  /** The state `reset` leaves: pending and not aborted. */
  const PENDING_STATE := OpState(PENDING, false)

  /** The state `invoke()` leaves an operation in state `s` with work `w`. */
  function AfterInvoke(w: Work, s: OpState): OpState {
    var aborted := s.aborted || w.callsAbort;
    OpState(if w.fails then COMPLETED_FAILED else if aborted then ABORTED else COMPLETED_SUCCESS, aborted)
  }

  /**
   * After `invoke()`: work that throws ends `COMPLETED_FAILED` even when aborted; work that returns
   * ends `ABORTED` exactly when `abort()` was called before or during it, and `COMPLETED_SUCCESS`
   * otherwise. The abort flag is never cleared, and the status before the call plays no part.
   */
  lemma InvokeOutcome(w: Work, s: OpState)
    ensures var t := AfterInvoke(w, s);
      t.aborted == (s.aborted || w.callsAbort) &&
      (t.status == COMPLETED_FAILED <==> w.fails) &&
      (t.status == ABORTED <==> !w.fails && t.aborted) &&
      (t.status == COMPLETED_SUCCESS <==> !w.fails && !t.aborted) &&
      (IsCompleted(t.status) <==> w.fails || !t.aborted) &&
      t.status != PENDING && t.status != EXECUTING
    ensures forall st :: AfterInvoke(w, s.(status := st)) == AfterInvoke(w, s)
  {
  }

  /** Invoking an operation a second time leaves it as the first time did. */
  lemma InvokeIdempotent(w: Work, s: OpState)
    ensures AfterInvoke(w, AfterInvoke(w, s)) == AfterInvoke(w, s)
  {
  }

  class DispatcherOperation {
    const priority: Priority
    const work: Work
    var status: bv32
    var aborted: bool

    /** A new operation is reset: pending and not aborted. */
    constructor(priority: Priority, work: Work)
      ensures this.priority == priority && this.work == work
      ensures State() == PENDING_STATE
    {
      this.priority := priority;
      this.work := work;
      new;
      Reset();
    }

    function State(): OpState
      reads this
    {
      OpState(status, aborted)
    }

    method Abort()
      modifies this
      ensures State() == old(State()).(aborted := true)
    {
      aborted := true;
    }

    method Reset()
      modifies this
      ensures State() == PENDING_STATE
    {
      aborted := false;
      status := PENDING;
    }

    /**
     * `invoke()`: the status is `EXECUTING` while the work runs; `threw` is whether the work threw,
     * which the caller receives as the rethrown exception.
     */
    method Invoke(trace: Trace) returns (threw: bool)
      modifies this, trace
      ensures threw == work.fails
      ensures State() == AfterInvoke(work, old(State()))
      ensures trace.events == old(trace.events) + [WorkRan(work.id, EXECUTING)]
    {
      status := EXECUTING;
      threw := RunWork(trace);
      if threw {
        status := COMPLETED_FAILED;
        return;
      }
      if aborted {
        status := ABORTED;
      } else {
        status := COMPLETED_SUCCESS;
      }
    }

    /** `runnable.run()`. */
    method RunWork(trace: Trace) returns (threw: bool)
      modifies this, trace
      ensures threw == work.fails
      ensures State() == OpState(old(status), old(aborted) || work.callsAbort)
      ensures trace.events == old(trace.events) + [WorkRan(work.id, old(status))]
    {
      trace.Emit(WorkRan(work.id, status));
      if work.callsAbort {
        Abort();
      }
      threw := work.fails;
    }

    /** `compareTo(operation)`: `Integer.compare` of the two priority ranks. */
    function CompareTo(operation: DispatcherOperation): (r: int)
      ensures r == -1 || r == 0 || r == 1
      ensures r < 0 <==> priority < operation.priority
      ensures r == 0 <==> priority == operation.priority
    {
      if priority < operation.priority then -1 else if priority == operation.priority then 0 else 1
    }
  }

  /** `compareTo` is antisymmetric and transitive, so it orders operations by rank. */
  lemma CompareToOrders(a: DispatcherOperation, b: DispatcherOperation, c: DispatcherOperation)
    ensures a.CompareTo(b) == -b.CompareTo(a)
    ensures a.CompareTo(b) <= 0 && b.CompareTo(c) <= 0 ==> a.CompareTo(c) <= 0
    ensures a.CompareTo(b) < 0 <==> a.priority < b.priority
  {
  }

  // ---------------------------------------------------------------- Dispatcher.processOperationList

  /** What the dispatcher throws. */
  datatype DispatchError =
      /** The work of an operation invoked directly threw. */
    | WorkFailed(work: nat)
      /** `invoke(null)`: an `IllegalArgumentException`. */
    | NullOperation
      /** The aggregate `RuntimeException`, one suppressed entry per failed operation. */
    | InvokeFailed(failed: seq<DispatcherOperation>)

  /** The trace of invoking each operation of `list` in order. */
  function Runs(list: seq<DispatcherOperation>): (r: seq<Event>)
    ensures |r| == |list|
  {
    if list == [] then [] else Runs(list[..|list| - 1]) + [WorkRan(list[|list| - 1].work.id, EXECUTING)]
  }

  lemma {:induction false} RunsAt(list: seq<DispatcherOperation>, i: nat)
    requires i < |list|
    ensures Runs(list)[i] == WorkRan(list[i].work.id, EXECUTING)
    decreases |list|
  {
    if i < |list| - 1 {
      RunsAt(list[..|list| - 1], i);
    }
  }

  /**
   * The keys of the `errors` map after the loop over `list`: an operation is put when its work
   * throws, and putting a key again keeps its first position.
   */
  function Failures(list: seq<DispatcherOperation>): seq<DispatcherOperation> {
    if list == [] then []
    else
      var r := Failures(list[..|list| - 1]);
      var op := list[|list| - 1];
      if op.work.fails && op !in r then r + [op] else r
  }

  /** The first index at which `op` occurs in `list`. */
  function FirstIndex(list: seq<DispatcherOperation>, op: DispatcherOperation): (i: nat)
    requires op in list
    ensures i < |list| && list[i] == op && op !in list[..i]
  {
    if list[0] == op then 0 else 1 + FirstIndex(list[1..], op)
  }

  lemma FirstIndexOfPrefix(list: seq<DispatcherOperation>, n: nat, op: DispatcherOperation)
    requires n <= |list| && op in list[..n]
    ensures FirstIndex(list, op) == FirstIndex(list[..n], op)
  {
    var j := FirstIndex(list[..n], op);
    assert list[j] == op;
  }

  /**
   * The failed operations are each listed once, in the order of their first failure: exactly the
   * operations of `list` whose work throws.
   */
  lemma {:induction false} FailuresFacts(list: seq<DispatcherOperation>)
    ensures forall op :: op in Failures(list) <==> op in list && op.work.fails
    ensures forall a, b :: 0 <= a < b < |Failures(list)| ==>
      Failures(list)[a] != Failures(list)[b] &&
      FirstIndex(list, Failures(list)[a]) < FirstIndex(list, Failures(list)[b])
    decreases |list|
  {
    if list != [] {
      var init := list[..|list| - 1];
      var op := list[|list| - 1];
      FailuresFacts(init);
      assert list == init + [op];
      forall x | x in init
        ensures FirstIndex(list, x) == FirstIndex(init, x)
      {
        FirstIndexOfPrefix(list, |list| - 1, x);
      }
      var r := Failures(init);
      if op.work.fails && op !in r {
        assert op !in init;
        assert FirstIndex(list, op) == |list| - 1;
        forall a | 0 <= a < |r|
          ensures FirstIndex(list, r[a]) < |list| - 1
        {
          assert r[a] in r;
        }
      }
    }
  }

  /** What `processOperationList` throws after the loop over `list`: nothing if no work threw. */
  function Aggregated(list: seq<DispatcherOperation>): Option<DispatchError> {
    if Failures(list) == [] then None else Some(InvokeFailed(Failures(list)))
  }

  /** The aggregate is thrown exactly when some operation's work throws. */
  lemma AggregatedIffSomeFails(list: seq<DispatcherOperation>)
    ensures Aggregated(list).Some? <==> exists i :: 0 <= i < |list| && list[i].work.fails
  {
    FailuresFacts(list);
    if Failures(list) != [] {
      var op := Failures(list)[0];
      assert list[FirstIndex(list, op)].work.fails;
    } else {
      assert forall i :: 0 <= i < |list| ==> list[i] in list;
    }
  }

  /**
   * `processOperationList(list)`: every operation is invoked, in order, whether or not earlier ones
   * threw; each ends in the state one `invoke()` gives it; then the aggregate is thrown if any threw.
   * The list is not changed.
   */
  method ProcessOperationList(list: seq<DispatcherOperation>, trace: Trace) returns (err: Option<DispatchError>)
    modifies list, trace
    ensures err == Aggregated(list)
    ensures trace.events == old(trace.events) + Runs(list)
    ensures forall op :: op in list ==> op.State() == AfterInvoke(op.work, old(op.State()))
  {
    var errors: seq<DispatcherOperation> := [];
    var i := 0;
    while i < |list|
      invariant 0 <= i <= |list|
      invariant errors == Failures(list[..i])
      invariant trace.events == old(trace.events) + Runs(list[..i])
      invariant forall op :: op in list[..i] ==> op.State() == AfterInvoke(op.work, old(op.State()))
      invariant forall op :: op in list && op !in list[..i] ==> op.State() == old(op.State())
    {
      var operation := list[i];
      ghost var before := operation.State();
      var threw := operation.Invoke(trace);
      if operation in list[..i] {
        InvokeIdempotent(operation.work, old(operation.State()));
      }
      if threw && operation !in errors {
        errors := errors + [operation];
      }
      assert list[..i + 1] == list[..i] + [operation];
      i := i + 1;
    }
    assert list[..i] == list;
    if errors != [] {
      err := Some(InvokeFailed(errors));
    } else {
      err := None;
    }
  }

  // ---------------------------------------------------------------- DispatchQueue

  /** The buckets of a new queue. */
  const NO_OPERATIONS: seq<seq<DispatcherOperation>> := [[], [], [], [], [], [], [], []]

  class DispatchQueue {
    var appPreTick: seq<DispatcherOperation>
    var inputPre: seq<DispatcherOperation>
    var inputPost: seq<DispatcherOperation>
    var renderPre: seq<DispatcherOperation>
    var renderPost: seq<DispatcherOperation>
    var applicationIdle: seq<DispatcherOperation>
    var contextIdle: seq<DispatcherOperation>
    var appPostTick: seq<DispatcherOperation>

    constructor()
      ensures Buckets() == NO_OPERATIONS
    {
      appPreTick, inputPre, inputPost, renderPre := [], [], [], [];
      renderPost, applicationIdle, contextIdle, appPostTick := [], [], [], [];
    }

    /** `getList(priority)`. */
    function GetList(p: Priority): seq<DispatcherOperation>
      reads this
    {
      match p
      case 0 => appPreTick
      case 1 => inputPre
      case 2 => inputPost
      case 3 => renderPre
      case 4 => renderPost
      case 5 => applicationIdle
      case 6 => contextIdle
      case _ => appPostTick
    }

    /** The buckets by rank: each priority has its own bucket. */
    function Buckets(): (b: seq<seq<DispatcherOperation>>)
      reads this
      ensures |b| == 8 && forall p: Priority :: b[p] == GetList(p)
    {
      [appPreTick, inputPre, inputPost, renderPre, renderPost, applicationIdle, contextIdle, appPostTick]
    }

    /** Every operation in some bucket. */
    function Operations(): set<DispatcherOperation>
      reads this
    {
      set p: Priority, op | op in GetList(p) :: op
    }

    /** `enqueue(operation)`: appended to the end of its priority's bucket; no other bucket changes. */
    method Enqueue(operation: DispatcherOperation)
      modifies this
      ensures Buckets() == old(Buckets())[operation.priority := old(GetList(operation.priority)) + [operation]]
    {
      match operation.priority
      case 0 => appPreTick := appPreTick + [operation];
      case 1 => inputPre := inputPre + [operation];
      case 2 => inputPost := inputPost + [operation];
      case 3 => renderPre := renderPre + [operation];
      case 4 => renderPost := renderPost + [operation];
      case 5 => applicationIdle := applicationIdle + [operation];
      case 6 => contextIdle := contextIdle + [operation];
      case _ => appPostTick := appPostTick + [operation];
    }

    /**
     * `process(priority)`: the operations of that bucket only, in order, through
     * `processOperationList`; an empty bucket does nothing. Nothing is removed from any bucket.
     */
    method Process(p: Priority, trace: Trace) returns (err: Option<DispatchError>)
      modifies GetList(p), trace
      ensures Buckets() == old(Buckets())
      ensures err == Aggregated(GetList(p))
      ensures trace.events == old(trace.events) + Runs(GetList(p))
      ensures forall op :: op in GetList(p) ==> op.State() == AfterInvoke(op.work, old(op.State()))
    {
      var list := GetList(p);
      if |list| != 0 {
        err := ProcessOperationList(list, trace);
      } else {
        err := None;
      }
    }
  }

  // ---------------------------------------------------------------- Dispatcher

  class Dispatcher {
    /** The id of the thread that created the dispatcher. */
    const thread: nat
    const queue: DispatchQueue

    constructor(currentThread: nat)
      ensures thread == currentThread && fresh(queue) && queue.Buckets() == NO_OPERATIONS
    {
      thread := currentThread;
      queue := new DispatchQueue();
    }

    /** `isOnOwningThread()`, called from the thread `current`. */
    predicate IsOnOwningThread(current: nat) {
      current == thread
    }

    /**
     * `invoke(runnable, priority)` from thread `current`: a new operation that, at `APP_PRE_TICK` on
     * the owning thread, is invoked at once and enqueued nowhere (a throw propagates and the operation
     * is lost to the caller), and otherwise is enqueued pending, without running.
     */
    method InvokeAt(work: Work, priority: Priority, current: nat, trace: Trace)
      returns (r: Result<DispatcherOperation, DispatchError>)
      modifies queue, trace
      ensures r.Ok? ==> fresh(r.value) && r.value.priority == priority && r.value.work == work
      ensures priority == APP_PRE_TICK && IsOnOwningThread(current) ==>
        queue.Buckets() == old(queue.Buckets()) &&
        trace.events == old(trace.events) + [WorkRan(work.id, EXECUTING)] &&
        (r.Err? <==> work.fails) && (r.Err? ==> r.error == WorkFailed(work.id)) &&
        (r.Ok? ==> r.value.State() == AfterInvoke(work, PENDING_STATE))
      ensures !(priority == APP_PRE_TICK && IsOnOwningThread(current)) ==>
        r.Ok? && r.value.State() == PENDING_STATE && trace.events == old(trace.events) &&
        queue.Buckets() == old(queue.Buckets())[priority := old(queue.GetList(priority)) + [r.value]]
    {
      var operation := new DispatcherOperation(priority, work);
      if priority == APP_PRE_TICK && IsOnOwningThread(current) {
        var threw := operation.Invoke(trace);
        if threw {
          return Err(WorkFailed(work.id));
        }
      } else {
        queue.Enqueue(operation);
      }
      r := Ok(operation);
    }

    /** `invoke(runnable)`: `invoke(runnable, APP_PRE_TICK)`. */
    method Invoke(work: Work, current: nat, trace: Trace) returns (r: Result<DispatcherOperation, DispatchError>)
      modifies queue, trace
      ensures r.Ok? ==> fresh(r.value) && r.value.priority == APP_PRE_TICK && r.value.work == work
      ensures IsOnOwningThread(current) ==>
        queue.Buckets() == old(queue.Buckets()) &&
        trace.events == old(trace.events) + [WorkRan(work.id, EXECUTING)] &&
        (r.Err? <==> work.fails) && (r.Err? ==> r.error == WorkFailed(work.id)) &&
        (r.Ok? ==> r.value.State() == AfterInvoke(work, PENDING_STATE))
      ensures !IsOnOwningThread(current) ==>
        r.Ok? && r.value.State() == PENDING_STATE && trace.events == old(trace.events) &&
        queue.Buckets() == old(queue.Buckets())[APP_PRE_TICK := old(queue.GetList(APP_PRE_TICK)) + [r.value]]
    {
      r := InvokeAt(work, APP_PRE_TICK, current, trace);
    }

    /**
     * `invoke(operation)`: a null operation is an `IllegalArgumentException`; otherwise an operation
     * that is not pending is reset (one that is pending keeps its abort flag), and it is enqueued.
     */
    method InvokeOperation(operation: Option<DispatcherOperation>) returns (r: Result<DispatcherOperation, DispatchError>)
      modifies queue, if operation.Some? then {operation.value} else {}
      ensures operation.None? ==> r == Err(NullOperation) && queue.Buckets() == old(queue.Buckets())
      ensures operation.Some? ==>
        var op := operation.value;
        r == Ok(op) &&
        op.State() == (if old(op.status) != PENDING then PENDING_STATE else old(op.State())) &&
        queue.Buckets() == old(queue.Buckets())[op.priority := old(queue.GetList(op.priority)) + [op]]
    {
      if operation.None? {
        return Err(NullOperation);
      }
      var op := operation.value;
      if op.status != PENDING {
        op.Reset();
      }
      queue.Enqueue(op);
      r := Ok(op);
    }
  }
}
