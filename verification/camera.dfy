/**
 * The camera nodes of source/asset/SceneNode.cpp and the Direct3D 12 camera
 * of source/asset/dx12/Dx12SceneNode.cpp: input handling, which always
 * dirties the camera, the third-person zoom clamp, and the camera update
 * that writes the main constants.
 *
 * Floating-point positions are modelled as reals and matrices
 * symbolically.
 */
module Cameras {
  import opened Results
  import opened SceneGraph

  datatype CameraKind = BaseCamera | FirstPerson | ThirdPerson

  /** Window-message codes `Input` dispatches on besides the movement keys. */
  const MouseMove: nat := 0x0200   // WM_MOUSEMOVE
  const MouseWheel: nat := 0x020A  // WM_MOUSEWHEEL

  /** The third-person zoom distance with its bounds; the constructor sets 20, 20 and 1000. */
  datatype Zoom = Zoom(distance: real, minDistance: real, maxDistance: real)

  const InitialZoom := Zoom(20.0, 20.0, 1000.0)

  /** Which matrix row a movement key shifts, and in which direction. */
  function MoveOf(input: nat): (m: Option<(nat, bool)>)
    ensures m.Some? <==> input in {'W' as nat, 'w' as nat, 'S' as nat, 's' as nat, 'D' as nat, 'd' as nat, 'A' as nat, 'a' as nat}
  {
    if input == 'W' as nat || input == 'w' as nat then Some((2, true))
    else if input == 'S' as nat || input == 's' as nat then Some((2, false))
    else if input == 'D' as nat || input == 'd' as nat then Some((0, true))
    else if input == 'A' as nat || input == 'a' as nat then Some((0, false))
    else None
  }

  /**
   * `CameraNode::Input`: the movement keys shift the translation row along
   * the camera's forward (row 2) or right (row 0) axis, in `r` in
   * single-matrix mode and in `t` otherwise; mouse movement prepends a
   * rotation. Every input then pollutes.
   */
  function CameraInput(n: Node, input: nat, x: int, y: int): (r: Node)
    ensures r.dirty
    ensures DirtyClosed(n) ==> AllDirty(r)
    ensures input != MouseMove && MoveOf(input).None? ==> r == Pollute(n)
  {
    var moved :=
      if input == MouseMove then n.(r := Product(Rotation(y, x), n.r))
      else match MoveOf(input)
        case Some((row, add)) =>
          if n.singleMatrix then n.(r := RowShift(n.r, n.r, row, add)) else n.(t := RowShift(n.t, n.r, row, add))
        case None => n;
    assert DirtyClosed(moved) == DirtyClosed(n) && (n.dirty ==> AllDirty(moved) == AllDirty(n)) by {
      assert moved.children == n.children && moved.dirty == n.dirty;
    }
    assert DirtyClosed(n) ==> AllDirty(Pollute(moved)) by {
      if DirtyClosed(n) { PolluteDirtiesSubtree(moved); }
    }
    Pollute(moved)
  }

  /**
   * The wheel's zoom: the distance moves by `x * 0.05`, then is raised to
   * the minimum and lowered to the maximum.
   */
  function Wheel(z: Zoom, x: int): (r: Zoom)
    ensures z.minDistance <= z.maxDistance ==> z.minDistance <= r.distance <= z.maxDistance
    ensures r.minDistance == z.minDistance && r.maxDistance == z.maxDistance
    ensures z.minDistance < z.distance - x as real * 0.05 < z.maxDistance ==> r.distance == z.distance - x as real * 0.05
  {
    var d := z.distance - x as real * 0.05;
    var d1 := if z.minDistance < d then d else z.minDistance;
    var d2 := if d1 < z.maxDistance then d1 else z.maxDistance;
    z.(distance := d2)
  }

  /**
   * `FirstPersonCamera::Input` and `ThirdPersonCamera::Input`: mouse
   * movement rotates, the wheel zooms a third-person camera, nothing else
   * moves; every input pollutes.
   */
  function PersonInput(kind: CameraKind, n: Node, z: Zoom, input: nat, x: int, y: int): (r: (Node, Zoom))
    requires kind != BaseCamera
    ensures r.0.dirty
    ensures DirtyClosed(n) ==> AllDirty(r.0)
    ensures kind == ThirdPerson && input == MouseWheel ==> r.1 == Wheel(z, x)
    ensures !(kind == ThirdPerson && input == MouseWheel) ==> r.1 == z
    ensures z.minDistance <= z.maxDistance && z.minDistance <= z.distance <= z.maxDistance ==>
              r.1.minDistance <= r.1.distance <= r.1.maxDistance
  {
    var n1 := if input == MouseMove then n.(r := Product(Rotation(y, x), n.r)) else n;
    var z1 := if kind == ThirdPerson && input == MouseWheel then Wheel(z, x) else z;
    assert DirtyClosed(n1) == DirtyClosed(n) && (n.dirty ==> AllDirty(n1) == AllDirty(n)) by {
      assert n1.children == n.children && n1.dirty == n.dirty;
    }
    assert DirtyClosed(n) ==> AllDirty(Pollute(n1)) by {
      if DirtyClosed(n) { PolluteDirtiesSubtree(n1); }
    }
    (Pollute(n1), z1)
  }

  /** The bounds hold from construction on, whatever the inputs. */
  lemma ZoomStaysInBounds(z: Zoom, inputs: seq<(nat, int)>)
    requires z == InitialZoom
    ensures var r := Zooms(z, inputs); 20.0 <= r.distance <= 1000.0
  {
    ZoomsKeepBounds(z, inputs);
  }

  /** The zoom after a sequence of third-person inputs `(message, x)`. */
  function Zooms(z: Zoom, inputs: seq<(nat, int)>): (r: Zoom)
    ensures r.minDistance == z.minDistance && r.maxDistance == z.maxDistance
    decreases |inputs|
  {
    if |inputs| == 0 then z
    else Zooms(if inputs[0].0 == MouseWheel then Wheel(z, inputs[0].1) else z, inputs[1..])
  }

  lemma {:induction false} ZoomsKeepBounds(z: Zoom, inputs: seq<(nat, int)>)
    requires z.minDistance <= z.distance <= z.maxDistance
    ensures var r := Zooms(z, inputs); r.minDistance <= r.distance <= r.maxDistance
    decreases |inputs|
  {
    if |inputs| > 0 {
      ZoomsKeepBounds(if inputs[0].0 == MouseWheel then Wheel(z, inputs[0].1) else z, inputs[1..]);
    }
  }

  /**
   * `Dx12Camera::OnUpdate`: the camera's own update (a dirty camera takes
   * `r` as its world transform; a visible camera runs every component; the
   * children update), then, while `dirtyCount > 0`, the main constants are
   * written at offset 0 and `dirtyCount` drops by one.
   */
  function CameraOnUpdate(n: Node, objectSize: nat): (r: (Node, seq<Event>))
    requires objectSize < Word
    ensures !r.0.dirty
    ensures n.dirty ==> r.0.toWorld == n.r
    ensures var count := if n.dirty then FrameCount else n.dirtyCount;
      r.0.dirtyCount == (if count > 0 then count - 1 else 0) &&
      (count > 0 <==> |r.1| > 0 && r.1[|r.1| - 1] == WriteMain)
  {
    var world := if n.dirty then n.r else n.toWorld;
    var count := if n.dirty then FrameCount else n.dirtyCount;
    var own := if n.visible then Executions(Ids(n.components)) else [];
    var (kids, kidEvents) := UpdateAll(n.children, world, objectSize);
    var n1 := n.(toWorld := world, dirty := false, children := kids);
    var tail := if count > 0 then [WriteMain] else [];
    assert count == 0 ==> |own + kidEvents| == 0 || (own + kidEvents)[|own + kidEvents| - 1] != WriteMain by {
      if count == 0 && |own + kidEvents| > 0 {
        NoMainWrite(own, kidEvents, n.children, world, objectSize, n.visible, n.components);
      }
    }
    (n1.(dirtyCount := if count > 0 then count - 1 else 0), own + kidEvents + tail)
  }

  /** Only a camera writes the main constants; scene nodes below it do not. */
  lemma NoMainWrite(own: seq<Event>, kidEvents: seq<Event>, cs: seq<Node>, world: Matrix, objectSize: nat,
                    visible: bool, components: seq<Component>)
    requires objectSize < Word
    requires own == (if visible then Executions(Ids(components)) else [])
    requires kidEvents == UpdateAll(cs, world, objectSize).1
    ensures WriteMain !in own + kidEvents
  {
    UpdateAllNoMain(cs, world, objectSize);
  }

  lemma {:induction false} UpdateAllNoMain(cs: seq<Node>, world: Matrix, objectSize: nat)
    requires objectSize < Word
    ensures WriteMain !in UpdateAll(cs, world, objectSize).1
    decreases cs
  {
    if |cs| > 0 {
      UpdateNoMain(cs[0], world, objectSize);
      UpdateAllNoMain(cs[1..], world, objectSize);
    }
  }

  lemma {:induction false} UpdateNoMain(n: Node, world: Matrix, objectSize: nat)
    requires objectSize < Word
    ensures WriteMain !in OnUpdate(n, world, objectSize).1
    decreases n
  {
    var w := if n.dirty then Product(Local(n), world) else n.toWorld;
    UpdateAllNoMain(n.children, w, objectSize);
  }

  /** A clean camera that owes no write leaves the main constants alone. */
  lemma SettledCameraWritesNothing(n: Node, objectSize: nat)
    requires objectSize < Word && !n.dirty && n.dirtyCount == 0
    ensures WriteMain !in CameraOnUpdate(n, objectSize).1
  {
    var own := if n.visible then Executions(Ids(n.components)) else [];
    var kidEvents := UpdateAll(n.children, n.toWorld, objectSize).1;
    NoMainWrite(own, kidEvents, n.children, n.toWorld, objectSize, n.visible, n.components);
    assert CameraOnUpdate(n, objectSize).1 == own + kidEvents + [];
  }

  /** Each input dirties the camera, so its next update writes the main constants once, and the one after does not. */
  lemma InputThenUpdatesWriteOnce(n: Node, input: nat, x: int, y: int, objectSize: nat)
    requires objectSize < Word
    ensures var u1 := CameraOnUpdate(CameraInput(n, input, x, y), objectSize);
      WriteMain in u1.1 && u1.0.dirtyCount == 0 && WriteMain !in CameraOnUpdate(u1.0, objectSize).1
  {
    var u1 := CameraOnUpdate(CameraInput(n, input, x, y), objectSize);
    assert u1.1[|u1.1| - 1] == WriteMain;
    SettledCameraWritesNothing(u1.0, objectSize);
  }
}
