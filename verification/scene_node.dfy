/**
 * The scene tree of source/asset/SceneNode.cpp with the Direct3D 12 node
 * of source/asset/dx12/Dx12SceneNode.cpp: dirty propagation (`Pollute`),
 * the transform setters, and the update / render traversals, which record
 * component executions and the node's object-constant write and bind.
 *
 * Matrices are symbolic: only which matrices a transform is composed of
 * is kept, not the floating-point arithmetic.
 */
module SceneGraph {
  import Utility
  import opened Results

  /** `SceneNode::FrameCount`: how many updates write a node's constants after it becomes dirty. */
  const FrameCount: nat := 1

  const Word: nat := 0x1_0000_0000_0000_0000

  /** A matrix, known only by how it was composed. */
  datatype Matrix =
    | Given(id: nat)
    | Product(left: Matrix, right: Matrix)
    | RowShift(m: Matrix, along: Matrix, row: nat, add: bool)  // m with row 3 plus or minus row `row` of `along`
    | Rotation(pitch: int, yaw: int)                       // from mouse deltas, scaled by 0.001

  datatype Component = Component(id: nat, isStaticMesh: bool)

  datatype Node = Node(
    index: nat,
    visible: bool,
    dirty: bool,
    singleMatrix: bool,
    dirtyCount: nat,
    s: Matrix, r: Matrix, t: Matrix,
    toWorld: Matrix,
    components: seq<Component>,
    children: seq<Node>)

  /** A recorded effect of a traversal. */
  datatype Event =
    | Execute(component: nat)
    | WriteObject(node: nat, offset: nat)     // object constants copied at `offset` in the frame's buffer
    | BindObject(node: nat, address: nat)     // root constant-buffer view 0 set to `address`
    | WriteMain                               // camera constants copied at offset 0 of the main buffer

  /** The constructor: visible, dirty, composite transform, `dirtyCount = FrameCount`, no children. */
  function NewNode(index: nat, initial: Matrix): (n: Node)
    ensures n.visible && n.dirty && !n.singleMatrix && n.dirtyCount == FrameCount
    ensures n.children == [] && n.components == [] && n.index == index
  {
    Node(index, true, true, false, FrameCount, initial, initial, initial, initial, [], [])
  }

  /** The local transform: `r` alone in single-matrix mode, otherwise `s * r * t`. */
  function Local(n: Node): Matrix {
    if n.singleMatrix then n.r else Product(Product(n.s, n.r), n.t)
  }

  /** Byte offset of a node's object constants: its index times the 256-aligned structure size. */
  function ObjectOffset(index: nat, objectSize: nat): (off: nat)
    requires objectSize < Word
    ensures off < Word
  {
    (index * Utility.CalcAlignment(objectSize, 256)) % Word
  }

  // ---------------------------------------------------------------------
  // Dirty flags

  /** Every node of the tree is dirty. */
  predicate AllDirty(n: Node) decreases n {
    n.dirty && forall i :: 0 <= i < |n.children| ==> AllDirty(n.children[i])
  }

  /** No node of the tree is dirty. */
  predicate AllClean(n: Node) decreases n {
    !n.dirty && forall i :: 0 <= i < |n.children| ==> AllClean(n.children[i])
  }

  /** The tree invariant: below a dirty node everything is dirty. */
  predicate DirtyClosed(n: Node) decreases n {
    (n.dirty ==> AllDirty(n)) && forall i :: 0 <= i < |n.children| ==> DirtyClosed(n.children[i])
  }

  /** `Pollute`: a clean node pollutes every child subtree, then itself; a dirty node is left alone. */
  function Pollute(n: Node): (r: Node)
    ensures r.dirty
    ensures n.dirty ==> r == n
    ensures |r.children| == |n.children|
    ensures r.index == n.index && r.components == n.components && r.toWorld == n.toWorld
    decreases n
  {
    if n.dirty then n else n.(children := PolluteAll(n.children), dirty := true)
  }

  function PolluteAll(cs: seq<Node>): (r: seq<Node>)
    ensures |r| == |cs|
    ensures forall i :: 0 <= i < |cs| ==> r[i] == Pollute(cs[i])
    decreases cs
  {
    if |cs| == 0 then [] else [Pollute(cs[0])] + PolluteAll(cs[1..])
  }

  /** On a tree that keeps the invariant, `Pollute` leaves the whole subtree dirty. */
  lemma {:induction false} PolluteDirtiesSubtree(n: Node)
    requires DirtyClosed(n)
    ensures AllDirty(Pollute(n)) && DirtyClosed(Pollute(n))
    decreases n
  {
    if !n.dirty {
      forall i | 0 <= i < |n.children|
        ensures AllDirty(Pollute(n.children[i])) && DirtyClosed(Pollute(n.children[i]))
      {
        PolluteDirtiesSubtree(n.children[i]);
      }
    } else {
      AllDirtyClosed(n);
    }
  }

  lemma {:induction false} AllDirtyClosed(n: Node)
    requires AllDirty(n)
    ensures DirtyClosed(n)
    decreases n
  {
    forall i | 0 <= i < |n.children| ensures DirtyClosed(n.children[i]) {
      AllDirtyClosed(n.children[i]);
    }
  }

  /** Polluting the node at `path` (a sequence of child positions) of the tree. */
  function PolluteAt(n: Node, path: seq<nat>): (r: Node)
    ensures r.dirty == (n.dirty || |path| == 0 || (path[0] < |n.children| && PolluteAt(n.children[path[0]], path[1..]).dirty && n.dirty))
    decreases |path|
  {
    if |path| == 0 then Pollute(n)
    else if path[0] < |n.children| then
      n.(children := n.children[path[0] := PolluteAt(n.children[path[0]], path[1..])])
    else n
  }

  /** Polluting any node of the tree keeps the invariant. */
  lemma {:induction false} PolluteAtKeepsInvariant(n: Node, path: seq<nat>)
    requires DirtyClosed(n)
    ensures DirtyClosed(PolluteAt(n, path))
    decreases |path|
  {
    if |path| == 0 {
      PolluteDirtiesSubtree(n);
    } else if path[0] < |n.children| {
      var k := path[0];
      var c := PolluteAt(n.children[k], path[1..]);
      PolluteAtKeepsInvariant(n.children[k], path[1..]);
      var r := PolluteAt(n, path);
      if n.dirty {
        AllDirtyImpliesSubtree(n, k);
        PolluteAtAllDirty(n.children[k], path[1..]);
      }
      forall i | 0 <= i < |r.children| ensures DirtyClosed(r.children[i]) {
        if i != k {
          assert r.children[i] == n.children[i];
        }
      }
    }
  }

  lemma AllDirtyImpliesSubtree(n: Node, k: nat)
    requires AllDirty(n) && k < |n.children|
    ensures AllDirty(n.children[k])
  {
  }

  /** Polluting inside an all-dirty tree changes nothing. */
  lemma {:induction false} PolluteAtAllDirty(n: Node, path: seq<nat>)
    requires AllDirty(n)
    ensures PolluteAt(n, path) == n
    decreases |path|
  {
    if |path| > 0 && path[0] < |n.children| {
      PolluteAtAllDirty(n.children[path[0]], path[1..]);
      assert n.children[path[0] := n.children[path[0]]] == n.children;
    }
  }

  /**
   * `SetMatrix(S, R, T)`: composite mode; each given matrix replaces its
   * factor, a missing one keeps the old; then `Pollute`.
   */
  function SetMatrix(n: Node, s: Option<Matrix>, r: Option<Matrix>, t: Option<Matrix>): (m: Node)
    ensures m.dirty && !m.singleMatrix
    ensures m.s == (if s.Some? then s.value else n.s)
    ensures m.r == (if r.Some? then r.value else n.r)
    ensures m.t == (if t.Some? then t.value else n.t)
    ensures DirtyClosed(n) ==> AllDirty(m)
  {
    var n1 := n.(singleMatrix := false,
                 s := if s.Some? then s.value else n.s,
                 r := if r.Some? then r.value else n.r,
                 t := if t.Some? then t.value else n.t);
    assert DirtyClosed(n) ==> DirtyClosed(n1) by {
      if DirtyClosed(n) && n.dirty {
        assert AllDirty(n1);
      }
    }
    assert DirtyClosed(n1) ==> AllDirty(Pollute(n1)) by {
      if DirtyClosed(n1) { PolluteDirtiesSubtree(n1); }
    }
    Pollute(n1)
  }

  /** `SetMatrix(toWorld)`: single-matrix mode with `r` replaced; then `Pollute`. */
  function SetSingleMatrix(n: Node, m: Matrix): (r: Node)
    ensures r.dirty && r.singleMatrix && r.r == m && Local(r) == m
    ensures DirtyClosed(n) ==> AllDirty(r)
  {
    var n1 := n.(singleMatrix := true, r := m);
    assert DirtyClosed(n) ==> DirtyClosed(n1) by {
      if DirtyClosed(n) && n.dirty {
        assert AllDirty(n1);
      }
    }
    assert DirtyClosed(n1) ==> AllDirty(Pollute(n1)) by {
      if DirtyClosed(n1) { PolluteDirtiesSubtree(n1); }
    }
    Pollute(n1)
  }

  // ---------------------------------------------------------------------
  // Update

  /** Components that the update pass executes: everything but static meshes. */
  function UpdateExecs(cs: seq<Component>): (ids: seq<nat>)
    ensures |ids| <= |cs|
  {
    if |cs| == 0 then []
    else (if cs[0].isStaticMesh then [] else [cs[0].id]) + UpdateExecs(cs[1..])
  }

  /** Components that the render pass executes: the static meshes. */
  function RenderExecs(cs: seq<Component>): (ids: seq<nat>)
    ensures |ids| <= |cs|
  {
    if |cs| == 0 then []
    else (if cs[0].isStaticMesh then [cs[0].id] else []) + RenderExecs(cs[1..])
  }

  function Ids(cs: seq<Component>): seq<nat> {
    if |cs| == 0 then [] else [cs[0].id] + Ids(cs[1..])
  }

  /** Every component runs in exactly one of the two passes. */
  lemma {:induction false} PassesPartitionComponents(cs: seq<Component>)
    ensures multiset(UpdateExecs(cs)) + multiset(RenderExecs(cs)) == multiset(Ids(cs))
  {
    if |cs| > 0 {
      PassesPartitionComponents(cs[1..]);
    }
  }

  function Executions(ids: seq<nat>): (es: seq<Event>)
    ensures |es| == |ids|
    ensures forall i :: 0 <= i < |ids| ==> es[i] == Execute(ids[i])
  {
    if |ids| == 0 then [] else [Execute(ids[0])] + Executions(ids[1..])
  }

  /**
   * `Dx12SceneNode::OnUpdate`: the base update (a dirty node recomputes its
   * world transform from its parent's, clears the flag and resets
   * `dirtyCount`; a visible node executes its non-mesh components; every
   * child updates), then, while `dirtyCount > 0`, the object constants are
   * written at the node's offset and `dirtyCount` drops by one.
   */
  function OnUpdate(n: Node, parentWorld: Matrix, objectSize: nat): (r: (Node, seq<Event>))
    requires objectSize < Word
    ensures !r.0.dirty
    ensures r.0.index == n.index && r.0.components == n.components && r.0.visible == n.visible
    ensures |r.0.children| == |n.children|
    ensures n.dirty ==> r.0.toWorld == Product(Local(n), parentWorld)
    ensures !n.dirty ==> r.0.toWorld == n.toWorld
    ensures var count := if n.dirty then FrameCount else n.dirtyCount;
      r.0.dirtyCount == (if count > 0 then count - 1 else 0)
    decreases n
  {
    var world := if n.dirty then Product(Local(n), parentWorld) else n.toWorld;
    var count := if n.dirty then FrameCount else n.dirtyCount;
    var own := if n.visible then Executions(UpdateExecs(n.components)) else [];
    var (kids, kidEvents) := UpdateAll(n.children, world, objectSize);
    var n1 := n.(toWorld := world, dirty := false, children := kids);
    (n1.(dirtyCount := if count > 0 then count - 1 else 0), own + kidEvents + OwnWrite(n.index, count, objectSize))
  }

  /** The object-constant write an update ends with, while writes are owed. */
  function OwnWrite(index: nat, count: nat, objectSize: nat): (es: seq<Event>)
    requires objectSize < Word
    ensures Written(es) == if count > 0 then multiset{index} else multiset{}
  {
    if count > 0 then [WriteObject(index, ObjectOffset(index, objectSize))] else []
  }

  function UpdateAll(cs: seq<Node>, parentWorld: Matrix, objectSize: nat): (r: (seq<Node>, seq<Event>))
    requires objectSize < Word
    ensures |r.0| == |cs|
    ensures forall i :: 0 <= i < |cs| ==> r.0[i] == OnUpdate(cs[i], parentWorld, objectSize).0
    decreases cs
  {
    if |cs| == 0 then ([], [])
    else
      var (c, e) := OnUpdate(cs[0], parentWorld, objectSize);
      var (rest, es) := UpdateAll(cs[1..], parentWorld, objectSize);
      ([c] + rest, e + es)
  }

  /** After an update no node of the tree is dirty. */
  lemma {:induction false} UpdateCleansTree(n: Node, parentWorld: Matrix, objectSize: nat)
    requires objectSize < Word
    ensures AllClean(OnUpdate(n, parentWorld, objectSize).0)
    decreases n
  {
    var world := OnUpdate(n, parentWorld, objectSize).0.toWorld;
    var r := OnUpdate(n, parentWorld, objectSize).0;
    assert r.children == UpdateAll(n.children, world, objectSize).0;
    forall i | 0 <= i < |n.children| ensures AllClean(r.children[i]) {
      UpdateCleansTree(n.children[i], world, objectSize);
    }
  }

  /** `dirtyCount` never exceeds `FrameCount`, anywhere in the tree. */
  predicate CountsBounded(n: Node) decreases n {
    n.dirtyCount <= FrameCount && forall i :: 0 <= i < |n.children| ==> CountsBounded(n.children[i])
  }

  /** The nodes whose constants an update writes: those dirty or with writes still owed, by index. */
  function Writers(n: Node): (s: multiset<nat>) decreases n {
    (if n.dirty || n.dirtyCount > 0 then multiset{n.index} else multiset{}) + WritersAll(n.children)
  }

  function WritersAll(cs: seq<Node>): multiset<nat> decreases cs {
    if |cs| == 0 then multiset{} else Writers(cs[0]) + WritersAll(cs[1..])
  }

  /** The node indices the object writes of an event log are for. */
  function Written(es: seq<Event>): (s: multiset<nat>) {
    if |es| == 0 then multiset{}
    else (if es[0].WriteObject? then multiset{es[0].node} else multiset{}) + Written(es[1..])
  }

  lemma {:induction false} WrittenAppend(a: seq<Event>, b: seq<Event>)
    ensures Written(a + b) == Written(a) + Written(b)
    decreases |a|
  {
    if |a| > 0 {
      WrittenAppend(a[1..], b);
      assert (a + b)[1..] == a[1..] + b;
    } else {
      assert a + b == b;
    }
  }

  lemma {:induction false} ExecutionsWriteNothing(ids: seq<nat>)
    ensures Written(Executions(ids)) == multiset{}
    decreases |ids|
  {
    if |ids| > 0 {
      ExecutionsWriteNothing(ids[1..]);
      assert Executions(ids)[1..] == Executions(ids[1..]);
    }
  }

  /**
   * An update writes the object constants of exactly the nodes that were
   * dirty or still owed a write, each once.
   */
  lemma {:induction false} UpdateWritesWriters(n: Node, parentWorld: Matrix, objectSize: nat)
    requires objectSize < Word
    ensures Written(OnUpdate(n, parentWorld, objectSize).1) == Writers(n)
    decreases n
  {
    var world := if n.dirty then Product(Local(n), parentWorld) else n.toWorld;
    var own := if n.visible then Executions(UpdateExecs(n.components)) else [];
    var kidEvents := UpdateAll(n.children, world, objectSize).1;
    var count := if n.dirty then FrameCount else n.dirtyCount;
    var mine := OwnWrite(n.index, count, objectSize);
    UpdateEvents(n, parentWorld, objectSize);
    UpdateAllWritesWriters(n.children, world, objectSize);
    ExecutionsWriteNothing(if n.visible then UpdateExecs(n.components) else []);
    assert own == Executions(if n.visible then UpdateExecs(n.components) else []);
    WrittenAppend(own, kidEvents);
    WrittenAppend(own + kidEvents, mine);
  }

  /** The log of one node's update: its components, its subtrees, then its own write. */
  lemma UpdateEvents(n: Node, parentWorld: Matrix, objectSize: nat)
    requires objectSize < Word
    ensures var world := if n.dirty then Product(Local(n), parentWorld) else n.toWorld;
      var count := if n.dirty then FrameCount else n.dirtyCount;
      OnUpdate(n, parentWorld, objectSize).1
      == (if n.visible then Executions(UpdateExecs(n.components)) else [])
         + UpdateAll(n.children, world, objectSize).1 + OwnWrite(n.index, count, objectSize)
  {
  }

  lemma {:induction false} UpdateAllWritesWriters(cs: seq<Node>, parentWorld: Matrix, objectSize: nat)
    requires objectSize < Word
    ensures Written(UpdateAll(cs, parentWorld, objectSize).1) == WritersAll(cs)
    decreases cs
  {
    if |cs| > 0 {
      UpdateWritesWriters(cs[0], parentWorld, objectSize);
      UpdateAllWritesWriters(cs[1..], parentWorld, objectSize);
      WrittenAppend(OnUpdate(cs[0], parentWorld, objectSize).1, UpdateAll(cs[1..], parentWorld, objectSize).1);
    }
  }

  /** After an update of a tree whose counts are bounded, no node owes a write. */
  lemma {:induction false} UpdateSettlesCounts(n: Node, parentWorld: Matrix, objectSize: nat)
    requires objectSize < Word && CountsBounded(n)
    ensures Writers(OnUpdate(n, parentWorld, objectSize).0) == multiset{}
    ensures CountsBounded(OnUpdate(n, parentWorld, objectSize).0)
    decreases n
  {
    var r := OnUpdate(n, parentWorld, objectSize).0;
    forall i | 0 <= i < |n.children|
      ensures Writers(r.children[i]) == multiset{} && CountsBounded(r.children[i])
    {
      UpdateSettlesCounts(n.children[i], r.toWorld, objectSize);
    }
    NoWritersAll(r.children);
  }

  lemma {:induction false} NoWritersAll(cs: seq<Node>)
    requires forall i :: 0 <= i < |cs| ==> Writers(cs[i]) == multiset{}
    ensures WritersAll(cs) == multiset{}
    decreases |cs|
  {
    if |cs| > 0 {
      NoWritersAll(cs[1..]);
    }
  }

  /** Without a new `Pollute`, a second update writes no constants: each dirtying buys exactly one write. */
  lemma SecondUpdateWritesNothing(n: Node, parentWorld: Matrix, objectSize: nat)
    requires objectSize < Word && CountsBounded(n)
    ensures var r := OnUpdate(n, parentWorld, objectSize).0;
      Written(OnUpdate(r, parentWorld, objectSize).1) == multiset{}
  {
    var r := OnUpdate(n, parentWorld, objectSize).0;
    UpdateSettlesCounts(n, parentWorld, objectSize);
    UpdateWritesWriters(r, parentWorld, objectSize);
  }

  /**
   * `Scene::OnUpdate`, the root: no parent, so the world transform is the
   * local one; every component runs, mesh or not; the children update.
   */
  function SceneOnUpdate(root: Node, objectSize: nat): (r: (Node, seq<Event>))
    requires objectSize < Word
    ensures !r.0.dirty
    ensures root.dirty ==> r.0.toWorld == Local(root)
    ensures |r.0.children| == |root.children|
    ensures forall i :: 0 <= i < |root.children| ==> r.0.children[i] == OnUpdate(root.children[i], r.0.toWorld, objectSize).0
  {
    var world := if root.dirty then Local(root) else root.toWorld;
    var count := if root.dirty then FrameCount else root.dirtyCount;
    var own := if root.visible then Executions(Ids(root.components)) else [];
    var (kids, kidEvents) := UpdateAll(root.children, world, objectSize);
    (root.(toWorld := world, dirty := false, dirtyCount := count, children := kids), own + kidEvents)
  }

  /** After the root updates, no node of the scene is dirty. */
  lemma SceneUpdateCleansScene(root: Node, objectSize: nat)
    requires objectSize < Word
    ensures AllClean(SceneOnUpdate(root, objectSize).0)
  {
    var r := SceneOnUpdate(root, objectSize).0;
    forall i | 0 <= i < |root.children| ensures AllClean(r.children[i]) {
      UpdateCleansTree(root.children[i], r.toWorld, objectSize);
    }
  }

  // ---------------------------------------------------------------------
  // Render

  /**
   * `Dx12SceneNode::OnRender`: a node with components binds its object
   * constants at the buffer's address plus its offset, executes its static
   * meshes, then renders its children.
   */
  function OnRender(n: Node, objectAddress: nat, objectSize: nat): (es: seq<Event>)
    requires objectSize < Word
    ensures |n.components| > 0 ==> |es| > 0 && es[0] == BindObject(n.index, (objectAddress + ObjectOffset(n.index, objectSize)) % Word)
    decreases n
  {
    var bind := if |n.components| > 0
      then [BindObject(n.index, (objectAddress + ObjectOffset(n.index, objectSize)) % Word)] else [];
    bind + Executions(RenderExecs(n.components)) + RenderAll(n.children, objectAddress, objectSize)
  }

  function RenderAll(cs: seq<Node>, objectAddress: nat, objectSize: nat): seq<Event>
    requires objectSize < Word
    decreases cs
  {
    if |cs| == 0 then [] else OnRender(cs[0], objectAddress, objectSize) + RenderAll(cs[1..], objectAddress, objectSize)
  }

  /** `Scene::OnRender`: the root only renders its children. */
  function SceneOnRender(root: Node, objectAddress: nat, objectSize: nat): (es: seq<Event>)
    requires objectSize < Word
    ensures |root.children| == 0 ==> es == []
  {
    RenderAll(root.children, objectAddress, objectSize)
  }

  /**
   * The render pass binds the constants the update pass wrote: a node's
   * bound address is the buffer's address plus exactly the offset its
   * update writes at.
   */
  lemma RenderBindsWhatUpdateWrote(n: Node, parentWorld: Matrix, objectAddress: nat, objectSize: nat)
    requires objectSize < Word && |n.components| > 0 && (n.dirty || n.dirtyCount > 0)
    ensures var up := OnUpdate(n, parentWorld, objectSize).1;
      var w := up[|up| - 1];
      w.WriteObject? && w.node == n.index &&
      OnRender(n, objectAddress, objectSize)[0] == BindObject(n.index, (objectAddress + w.offset) % Word)
  {
  }
}
