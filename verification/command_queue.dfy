/**
 * `CommandQueue` (source/core/render/dx12/CommandQueue.cpp): a fence
 * counter, a FIFO of (fence value, allocator) entries waiting for the GPU,
 * and a FIFO of closed command lists.
 *
 * The GPU is abstracted to one number, the fence's completed value. It
 * never decreases and never passes the last signalled value; it advances
 * only through `GpuProgress` and through the value a wait observes on
 * return. Allocators and command lists are identified by the order in
 * which they were created.
 */
module CommandQueues {
  type Allocator = nat
  type CommandList = nat

  /** `CommandAllocatorEntry`: an allocator and the fence value of its last submission. */
  datatype AllocatorEntry = AllocatorEntry(fenceValue: nat, allocator: Allocator)

  /** A command list handed out for recording, with the allocator stored as its private data. */
  datatype Recording = Recording(list: CommandList, allocator: Allocator)

  datatype Queue = Queue(
    fenceValue: nat,                  // m_fenceValue: the last signalled value
    completed: nat,                   // the fence's completed value on the GPU
    allocators: seq<AllocatorEntry>,  // front is index 0
    lists: seq<CommandList>,          // front is index 0
    allocatorCount: nat,              // allocators created so far
    listCount: nat)                   // command lists created so far

  /** Fence values in the allocator FIFO are positive, strictly increasing and already signalled. */
  ghost predicate FencesOrdered(entries: seq<AllocatorEntry>, fenceValue: nat) {
    && (forall i :: 0 <= i < |entries| ==> 0 < entries[i].fenceValue <= fenceValue)
    && (forall i, j :: 0 <= i < j < |entries| ==> entries[i].fenceValue < entries[j].fenceValue)
  }

  ghost predicate Valid(q: Queue) {
    && q.completed <= q.fenceValue
    && FencesOrdered(q.allocators, q.fenceValue)
    && (forall i :: 0 <= i < |q.allocators| ==> q.allocators[i].allocator < q.allocatorCount)
    && (forall i :: 0 <= i < |q.lists| ==> q.lists[i] < q.listCount)
  }

  /** The constructor: the fence is created with the counter's initial value 0. */
  function NewQueue(): (r: Queue)
    ensures Valid(r)
    ensures IsFenceComplete(r, 0) && !IsFenceComplete(r, 1)
  {
    Queue(0, 0, [], [], 0, 0)
  }

  /** `IsFenceComplete`. */
  predicate IsFenceComplete(q: Queue, fenceValue: nat) {
    q.completed >= fenceValue
  }

  /** The GPU finishes work up to `value`. */
  function GpuProgress(q: Queue, value: nat): (r: Queue)
    requires q.completed <= value <= q.fenceValue
    ensures r.completed >= q.completed && r.fenceValue == q.fenceValue
    ensures forall v :: IsFenceComplete(q, v) ==> IsFenceComplete(r, v)
    ensures Valid(q) ==> Valid(r)
  {
    q.(completed := value)
  }

  /** `Signal`: increment the counter and return the new value. */
  function Signal(q: Queue): (r: (Queue, nat))
    ensures r.1 == q.fenceValue + 1 && r.0.fenceValue == r.1
    ensures r.0.completed == q.completed && r.0.allocators == q.allocators && r.0.lists == q.lists
    ensures !IsFenceComplete(r.0, r.1) <== q.completed <= q.fenceValue
    ensures Valid(q) ==> Valid(r.0)
  {
    var v := q.fenceValue + 1;
    (q.(fenceValue := v), v)
  }

  /** Whether a wait returns, and the queue it leaves. */
  datatype WaitOutcome = Returned(queue: Queue) | Blocked

  /**
   * `WaitForFenceValue(v)`: nothing happens if `v` is complete; otherwise
   * the caller blocks until the GPU reaches `v`. The GPU can reach only
   * signalled values, so a wait for a value never signalled blocks forever.
   * `observed` is the completed value the GPU has reached when the caller
   * wakes, at least `v`.
   */
  function WaitForFenceValue(q: Queue, v: nat, observed: nat): (r: WaitOutcome)
    requires q.completed <= observed <= q.fenceValue
    ensures r.Returned? <==> IsFenceComplete(q, v) || v <= q.fenceValue
    ensures r.Returned? ==> IsFenceComplete(r.queue, v)
    ensures IsFenceComplete(q, v) ==> r == Returned(q)
    ensures r.Returned? ==> r.queue.fenceValue == q.fenceValue && r.queue.completed >= q.completed
    ensures r.Returned? ==> r.queue.allocators == q.allocators && r.queue.lists == q.lists
    ensures r.Returned? && Valid(q) ==> Valid(r.queue)
  {
    if IsFenceComplete(q, v) then Returned(q)
    else if v <= q.fenceValue then Returned(q.(completed := if observed < v then v else observed))
    else Blocked
  }

  /** `Flush`: signal a new value and wait for it. */
  function Flush(q: Queue, observed: nat): (r: Queue)
    requires Valid(q)
    requires q.completed <= observed <= q.fenceValue + 1
    ensures Valid(r)
    ensures r.fenceValue == q.fenceValue + 1 && r.completed == r.fenceValue
    ensures forall v: nat :: v <= r.fenceValue ==> IsFenceComplete(r, v)
    ensures forall i :: 0 <= i < |r.allocators| ==> IsFenceComplete(r, r.allocators[i].fenceValue)
    ensures r.allocators == q.allocators && r.lists == q.lists
  {
    var (s, v) := Signal(q);
    WaitForFenceValue(s, v, observed).queue
  }

  /**
   * `GetCommandList`: reuse the front allocator if its fence is complete,
   * otherwise create one; reuse the front command list whenever there is
   * one, otherwise create one.
   */
  function GetCommandList(q: Queue): (r: (Queue, Recording))
    ensures var reuse := |q.allocators| > 0 && IsFenceComplete(q, q.allocators[0].fenceValue);
      && (reuse ==> r.1.allocator == q.allocators[0].allocator && r.0.allocators == q.allocators[1..]
                    && r.0.allocatorCount == q.allocatorCount)
      && (!reuse ==> r.1.allocator == q.allocatorCount && r.0.allocators == q.allocators
                     && r.0.allocatorCount == q.allocatorCount + 1)
    ensures |q.lists| > 0 ==> r.1.list == q.lists[0] && r.0.lists == q.lists[1..] && r.0.listCount == q.listCount
    ensures |q.lists| == 0 ==> r.1.list == q.listCount && r.0.lists == [] && r.0.listCount == q.listCount + 1
    ensures r.0.fenceValue == q.fenceValue && r.0.completed == q.completed
    ensures Valid(q) ==> Valid(r.0) && r.1.allocator < r.0.allocatorCount && r.1.list < r.0.listCount
  {
    var (q1, alloc) :=
      if |q.allocators| > 0 && IsFenceComplete(q, q.allocators[0].fenceValue) then
        (q.(allocators := q.allocators[1..]), q.allocators[0].allocator)
      else
        (q.(allocatorCount := q.allocatorCount + 1), q.allocatorCount);
    var (q2, list) :=
      if |q1.lists| > 0 then (q1.(lists := q1.lists[1..]), q1.lists[0])
      else (q1.(listCount := q1.listCount + 1), q1.listCount);
    (q2, Recording(list, alloc))
  }

  /**
   * `ExecuteCommandList`: submit, signal, queue the allocator behind the new
   * fence value and the command list for reuse, and return the fence value.
   */
  function ExecuteCommandList(q: Queue, rec: Recording): (r: (Queue, nat))
    ensures r.1 == q.fenceValue + 1 && r.0.fenceValue == r.1
    ensures r.0.allocators == q.allocators + [AllocatorEntry(r.1, rec.allocator)]
    ensures r.0.lists == q.lists + [rec.list]
    ensures r.0.completed == q.completed
    ensures Valid(q) && rec.allocator < q.allocatorCount && rec.list < q.listCount ==> Valid(r.0)
  {
    var (s, v) := Signal(q);
    (s.(allocators := s.allocators + [AllocatorEntry(v, rec.allocator)], lists := s.lists + [rec.list]), v)
  }

  /**
   * An allocator handed out is either newly created or one whose last
   * submission the GPU has completed: it is never reset while in use.
   */
  lemma HandedOutAllocatorIsIdle(q: Queue)
    requires Valid(q)
    ensures var rec := GetCommandList(q).1;
      || rec.allocator == q.allocatorCount
      || (|q.allocators| > 0 && rec.allocator == q.allocators[0].allocator
          && IsFenceComplete(q, q.allocators[0].fenceValue))
  {
  }

  /**
   * The FIFO order makes the front entry the oldest: when the front is still
   * pending, so is every entry behind it, and a new allocator is created.
   */
  lemma {:induction false} PendingFrontBlocksAll(q: Queue)
    requires Valid(q)
    requires |q.allocators| > 0 && !IsFenceComplete(q, q.allocators[0].fenceValue)
    ensures forall i :: 0 <= i < |q.allocators| ==> !IsFenceComplete(q, q.allocators[i].fenceValue)
    ensures GetCommandList(q).1.allocator == q.allocatorCount
  {
    forall i | 0 < i < |q.allocators|
      ensures !IsFenceComplete(q, q.allocators[i].fenceValue)
    {
      assert q.allocators[0].fenceValue < q.allocators[i].fenceValue;
    }
  }

  /** Two consecutive submissions return strictly increasing fence values. */
  lemma SubmissionsIncrease(q: Queue, a: Recording, b: Recording)
    ensures var (q1, v1) := ExecuteCommandList(q, a);
      ExecuteCommandList(q1, b).1 == v1 + 1
  {
  }

  /** After a flush every queued allocator is idle, so the next request reuses the front one. */
  lemma FlushThenReuse(q: Queue, observed: nat)
    requires Valid(q) && |q.allocators| > 0
    requires q.completed <= observed <= q.fenceValue + 1
    ensures GetCommandList(Flush(q, observed)).1.allocator == q.allocators[0].allocator
  {
  }
}
