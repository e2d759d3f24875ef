/**
 * The ring of per-frame resources: `Dx12GraphicsManager::OnUpdate`,
 * `OnRender`, `OnResize` and `GetFrameResource`
 * (source/core/render/dx12/GraphicsManager.cpp, GraphicsManager.hpp) and
 * the older `RenderResource` ring (source/core/render/dx12/RenderResource.hpp,
 * RenderResource.cpp).
 *
 * Each slot records the fence of its last submission. Advancing to a slot
 * waits for that fence, so a slot's resources are reused only after the
 * GPU has finished the frame that last used them. In the manager each slot
 * also carries a dirty flag for its top-level acceleration structure; the
 * flag is raised by callers outside this component (`MarkDirty`).
 */
module FrameRing {
  import opened Results
  import CQ = CommandQueues

  /** `FrameResource`: last submission fence, dirty flag, and the address of the slot's top-level structure. */
  datatype FrameResource = FrameResource(fence: nat, tlasDirty: bool, tlas: nat)

  /** An update-mode acceleration-structure build recorded for `slot`, reading `source`. */
  datatype Refit = Refit(slot: nat, source: nat)

  datatype Ring = Ring(
    frameIndex: nat,
    frames: seq<FrameResource>,
    queue: CQ.Queue,
    cmdList: CQ.Recording,
    refits: seq<Refit>)

  /** A new slot: fence 0, which every queue regards as complete, so the first wait on it returns at once. */
  function NewFrameResource(tlas: nat): (r: FrameResource)
    ensures forall q: CQ.Queue :: CQ.IsFenceComplete(q, r.fence)
    ensures !r.tlasDirty && r.tlas == tlas
  {
    FrameResource(0, false, tlas)
  }

  /**
   * The ring invariant: a `uint8_t` frame count of at least one, an index
   * inside the ring, only signalled fences in the slots, and a command list
   * that the queue handed out.
   */
  ghost predicate Valid(r: Ring) {
    && 0 < |r.frames| < 256
    && r.frameIndex < |r.frames|
    && CQ.Valid(r.queue)
    && (forall i :: 0 <= i < |r.frames| ==> r.frames[i].fence <= r.queue.fenceValue)
    && r.cmdList.allocator < r.queue.allocatorCount
    && r.cmdList.list < r.queue.listCount
  }

  /** The slot after `i` in a ring of `n`. */
  function Next(i: nat, n: nat): (r: nat)
    requires n > 0
    ensures r < n
    ensures i < n - 1 ==> r == i + 1
    ensures i == n - 1 ==> r == 0
  {
    (i + 1) % n
  }

  /** The index seeded from the swap chain's back buffer: the slot just before it. */
  function Reseed(backBuffer: nat, n: nat): (r: nat)
    requires backBuffer < n
    ensures r < n
    ensures Next(r, n) == backBuffer
  {
    (backBuffer + n - 1) % n
  }

  /** One fresh slot per top-level structure. */
  function FreshFrames(tlas: seq<nat>): (r: seq<FrameResource>)
    ensures |r| == |tlas|
    ensures forall i :: 0 <= i < |r| ==> r[i] == NewFrameResource(tlas[i])
  {
    seq(|tlas|, i requires 0 <= i < |tlas| => NewFrameResource(tlas[i]))
  }

  /**
   * `Dx12GraphicsManager`'s constructor followed by `OnInit`: the index is
   * the constructor's 0, each frame gets a fresh slot, and the first
   * command list comes from a new queue. `OnInit` does not seed the index
   * from the swap chain; only `OnResize` does.
   */
  function NewManagerRing(tlas: seq<nat>): (r: Ring)
    requires 0 < |tlas| < 256
    ensures Valid(r)
    ensures r.frameIndex == 0 && r.frames == FreshFrames(tlas) && r.refits == []
  {
    var (q, rec) := CQ.GetCommandList(CQ.NewQueue());
    Ring(0, FreshFrames(tlas), q, rec, [])
  }

  /**
   * `RenderResource`'s constructor: the same fresh ring, with the index
   * seeded from the swap chain's back buffer so that the first advance
   * lands on it.
   */
  function NewRenderResourceRing(tlas: seq<nat>, backBuffer: nat): (r: Ring)
    requires 0 < |tlas| < 256 && backBuffer < |tlas|
    ensures Valid(r)
    ensures r.frames == FreshFrames(tlas) && r.refits == []
    ensures Next(r.frameIndex, |tlas|) == backBuffer
  {
    NewManagerRing(tlas).(frameIndex := Reseed(backBuffer, |tlas|))
  }

  /**
   * The manager's first frame lands on slot `1 % n` whatever the back
   * buffer is, unless an `OnResize` (the window's first `WM_SIZE`) comes
   * first, after which it lands on the back buffer.
   */
  lemma ManagerFirstUpdate(tlas: seq<nat>, backBuffer: nat, observed: nat)
    requires 0 < |tlas| < 256 && backBuffer < |tlas|
    requires NewManagerRing(tlas).queue.completed <= observed <= NewManagerRing(tlas).queue.fenceValue
    ensures OnUpdate(NewManagerRing(tlas), observed).frameIndex == Next(0, |tlas|)
    ensures OnUpdate(OnResize(NewManagerRing(tlas), backBuffer), observed).frameIndex == backBuffer
  {
  }

  /** `GetFrameResource`: the slot at the current index. */
  function GetFrameResource(r: Ring): (f: FrameResource)
    requires Valid(r)
    ensures f in r.frames && f.fence <= r.queue.fenceValue
  {
    r.frames[r.frameIndex]
  }

  /**
   * The advance shared by both rings: step the index, wait for the slot's
   * fence (`observed` is the GPU's completed value when the wait returns),
   * and take a command list.
   */
  function Advance(r: Ring, observed: nat): (s: Ring)
    requires Valid(r)
    requires r.queue.completed <= observed <= r.queue.fenceValue
    ensures Valid(s)
    ensures s.frameIndex == Next(r.frameIndex, |r.frames|)
    ensures CQ.IsFenceComplete(s.queue, s.frames[s.frameIndex].fence)
    ensures s.frames == r.frames && s.refits == r.refits
    ensures s.queue.fenceValue == r.queue.fenceValue
  {
    var i := Next(r.frameIndex, |r.frames|);
    var q := CQ.WaitForFenceValue(r.queue, r.frames[i].fence, observed).queue;
    var (q2, rec) := CQ.GetCommandList(q);
    r.(frameIndex := i, queue := q2, cmdList := rec)
  }

  /**
   * `Dx12GraphicsManager::OnUpdate`: advance, then, if the new slot is
   * dirty, record one update-mode build sourced from that slot's own
   * top-level structure and clear the flag.
   */
  function OnUpdate(r: Ring, observed: nat): (s: Ring)
    requires Valid(r)
    requires r.queue.completed <= observed <= r.queue.fenceValue
    ensures Valid(s)
    ensures s.frameIndex == Next(r.frameIndex, |r.frames|)
    ensures CQ.IsFenceComplete(s.queue, s.frames[s.frameIndex].fence)
    ensures var i := s.frameIndex;
      && !s.frames[i].tlasDirty
      && (r.frames[i].tlasDirty ==> s.refits == r.refits + [Refit(i, r.frames[i].tlas)])
      && (!r.frames[i].tlasDirty ==> s.refits == r.refits)
      && s.frames == r.frames[i := r.frames[i].(tlasDirty := false)]
  {
    var a := Advance(r, observed);
    var i := a.frameIndex;
    if a.frames[i].tlasDirty then
      a.(frames := a.frames[i := a.frames[i].(tlasDirty := false)], refits := a.refits + [Refit(i, a.frames[i].tlas)])
    else
      a
  }

  /** `OnRender`: submit the command list and store the returned fence in the current slot. */
  function OnRender(r: Ring): (s: Ring)
    requires Valid(r)
    ensures Valid(s)
    ensures s.frameIndex == r.frameIndex && |s.frames| == |r.frames|
    ensures s.frames[s.frameIndex].fence == s.queue.fenceValue == r.queue.fenceValue + 1
    ensures forall i :: 0 <= i < |r.frames| && i != r.frameIndex ==> s.frames[i] == r.frames[i] && s.frames[i].fence < s.frames[s.frameIndex].fence
    ensures s.frames[s.frameIndex].tlasDirty == r.frames[r.frameIndex].tlasDirty
  {
    var (q, v) := CQ.ExecuteCommandList(r.queue, r.cmdList);
    r.(frames := r.frames[r.frameIndex := r.frames[r.frameIndex].(fence := v)], queue := q)
  }

  /** `Dx12GraphicsManager::OnResize`: re-seed the index so that the next advance lands on the back buffer. */
  function OnResize(r: Ring, backBuffer: nat): (s: Ring)
    requires Valid(r) && backBuffer < |r.frames|
    ensures Valid(s)
    ensures Next(s.frameIndex, |s.frames|) == backBuffer
    ensures s.frames == r.frames && s.queue == r.queue
  {
    r.(frameIndex := Reseed(backBuffer, |r.frames|))
  }

  /** An outside caller marks a slot's top-level structure as needing a refit. */
  function MarkDirty(r: Ring, slot: nat): (s: Ring)
    requires Valid(r) && slot < |r.frames|
    ensures Valid(s) && |s.frames| == |r.frames| && s.frames[slot].tlasDirty
    ensures forall i :: 0 <= i < |r.frames| && i != slot ==> s.frames[i] == r.frames[i]
  {
    r.(frames := r.frames[slot := r.frames[slot].(tlasDirty := true)])
  }

  /** The first advance after a resize lands on the back buffer. */
  lemma FirstUpdateLandsOnBackBuffer(r: Ring, backBuffer: nat, observed: nat)
    requires Valid(r) && backBuffer < |r.frames|
    requires r.queue.completed <= observed <= r.queue.fenceValue
    ensures OnUpdate(OnResize(r, backBuffer), observed).frameIndex == backBuffer
  {
  }

  /** Number of slots whose top-level structure awaits a refit. */
  function DirtyCount(frames: seq<FrameResource>): (c: nat)
    ensures c <= |frames|
    ensures c == 0 <==> forall i :: 0 <= i < |frames| ==> !frames[i].tlasDirty
  {
    if |frames| == 0 then 0
    else DirtyCount(frames[..|frames| - 1]) + (if frames[|frames| - 1].tlasDirty then 1 else 0)
  }

  /** Clearing one dirty slot lowers the count by one. */
  lemma {:induction false} DirtyCountClear(frames: seq<FrameResource>, i: nat)
    requires i < |frames| && frames[i].tlasDirty
    ensures DirtyCount(frames[i := frames[i].(tlasDirty := false)]) == DirtyCount(frames) - 1
  {
    var cleared := frames[i := frames[i].(tlasDirty := false)];
    var n := |frames| - 1;
    if i < n {
      assert cleared[..n] == frames[..n][i := frames[i].(tlasDirty := false)];
      DirtyCountClear(frames[..n], i);
    } else {
      assert cleared[..n] == frames[..n];
    }
  }

  /** One frame of the manager: `OnUpdate`, then `OnRender`, the GPU reporting no more progress than the wait needs. */
  function Tick(r: Ring): (s: Ring)
    requires Valid(r)
    ensures Valid(s) && |s.frames| == |r.frames|
  {
    OnRender(OnUpdate(r, r.queue.completed))
  }

  /** `rs` is a run of consecutive frames. */
  ghost predicate IsRun(rs: seq<Ring>) {
    && |rs| > 0
    && (forall i :: 0 <= i < |rs| ==> Valid(rs[i]))
    && (forall i, j :: 0 <= i && j == i + 1 && j < |rs| ==> rs[j] == Tick(rs[i]))
  }

  /**
   * Each refit consumes one dirty flag: over any run of frames, refits
   * recorded plus slots still dirty stays what it was at the start. With no
   * slot marked, no refit is ever recorded.
   */
  lemma {:induction false} RefitsConsumeMarks(rs: seq<Ring>)
    requires IsRun(rs)
    ensures Account(rs[|rs| - 1]) == Account(rs[0])
    ensures DirtyCount(rs[0].frames) == 0 ==> rs[|rs| - 1].refits == rs[0].refits
  {
    if |rs| > 1 {
      var n := |rs| - 1;
      var r := rs[n - 1];
      assert IsRun(rs[..n]);
      RefitsConsumeMarks(rs[..n]);
      TickKeepsAccount(r);
      assert rs[n] == Tick(r);
      var u := OnUpdate(r, r.queue.completed);
      assert Tick(r).refits == u.refits;
      assert u.refits == r.refits || |u.refits| == |r.refits| + 1;
    }
  }

  /** Refits recorded plus slots still awaiting one. */
  function Account(r: Ring): nat {
    |r.refits| + DirtyCount(r.frames)
  }

  lemma TickKeepsAccount(r: Ring)
    requires Valid(r)
    ensures Account(Tick(r)) == Account(r)
  {
    OnUpdateKeepsAccount(r, r.queue.completed);
    OnRenderKeepsAccount(OnUpdate(r, r.queue.completed));
  }

  /** `OnUpdate` either records one refit and clears one dirty slot, or does neither. */
  lemma OnUpdateKeepsAccount(r: Ring, observed: nat)
    requires Valid(r)
    requires r.queue.completed <= observed <= r.queue.fenceValue
    ensures Account(OnUpdate(r, observed)) == Account(r)
  {
    var i := Next(r.frameIndex, |r.frames|);
    if r.frames[i].tlasDirty {
      DirtyCountClear(r.frames, i);
    } else {
      assert OnUpdate(r, observed).frames == r.frames;
    }
  }

  /** `OnRender` changes a fence only. */
  lemma OnRenderKeepsAccount(r: Ring)
    requires Valid(r)
    ensures Account(OnRender(r)) == Account(r)
  {
    DirtyCountFenceOnly(r.frames, r.frameIndex, r.queue.fenceValue + 1);
    assert OnRender(r).frames == r.frames[r.frameIndex := r.frames[r.frameIndex].(fence := r.queue.fenceValue + 1)];
  }

  /** Changing a slot's fence does not change the count. */
  lemma {:induction false} DirtyCountFenceOnly(frames: seq<FrameResource>, i: nat, fence: nat)
    requires i < |frames|
    ensures DirtyCount(frames[i := frames[i].(fence := fence)]) == DirtyCount(frames)
  {
    var n := |frames| - 1;
    var updated := frames[i := frames[i].(fence := fence)];
    if i < n {
      assert updated[..n] == frames[..n][i := frames[i].(fence := fence)];
      DirtyCountFenceOnly(frames[..n], i, fence);
    } else {
      assert updated[..n] == frames[..n];
    }
  }

  /**
   * A frame (`OnUpdate` then `OnRender`) overwrites only the fence of the
   * slot it lands on, so the fence a slot waits on is the one stored when
   * the ring last visited it.
   */
  lemma TickTouchesOneSlot(r: Ring, observed: nat)
    requires Valid(r)
    requires r.queue.completed <= observed <= r.queue.fenceValue
    ensures var s := OnRender(OnUpdate(r, observed));
      var i := Next(r.frameIndex, |r.frames|);
      && s.frameIndex == i
      && (forall j :: 0 <= j < |r.frames| && j != i ==> s.frames[j].fence == r.frames[j].fence)
      && s.frames[i].fence == r.queue.fenceValue + 1
  {
  }

  // ---------------------------------------------------------------------
  // The older RenderResource ring: no refits; resize only flushes.
  // ---------------------------------------------------------------------

  /** `RenderResource::OnUpdate`. */
  function RenderResourceOnUpdate(r: Ring, observed: nat): (s: Ring)
    requires Valid(r)
    requires r.queue.completed <= observed <= r.queue.fenceValue
    ensures Valid(s)
    ensures s.frameIndex == Next(r.frameIndex, |r.frames|) && s.refits == r.refits
    ensures CQ.IsFenceComplete(s.queue, s.frames[s.frameIndex].fence)
  {
    Advance(r, observed)
  }

  /** `RenderResource::Flush`, which `OnResize` also is: every slot's fence is complete afterwards. */
  function RenderResourceFlush(r: Ring, observed: nat): (s: Ring)
    requires Valid(r)
    requires r.queue.completed <= observed <= r.queue.fenceValue + 1
    ensures Valid(s)
    ensures s.frameIndex == r.frameIndex && s.frames == r.frames
    ensures forall i :: 0 <= i < |s.frames| ==> CQ.IsFenceComplete(s.queue, s.frames[i].fence)
  {
    r.(queue := CQ.Flush(r.queue, observed))
  }
}
