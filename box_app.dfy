/** The bookkeeping of the application class `BoxApp`: the key-to-camera dispatch and
    the reset of the movement accumulators, the back-buffer rotation after Present,
    the CBV heap size and pass-CBV slot, the order of the per-item draw commands, and
    the start-up sequence that builds the scene. */
module BoxApplication {
  import opened Geometry
  import opened Collision
  import opened RenderItems
  import opened GameObjects
  import InputManager

  /** Windows virtual-key codes the camera reacts to (letter keys are their upper-case
      character codes). */
  const KeyShift: int := 0x10
  const KeyLeft: int := 0x25
  const KeyUp: int := 0x26
  const KeyRight: int := 0x27
  const KeyDown: int := 0x28
  const KeyD: int := 68
  const KeyQ: int := 81
  const KeyS: int := 83
  const KeyZ: int := 90

  /** Rotation step per call (`speed`). */
  const Speed: real := 0.04
  /** Movement step per call (`swift`), before the Shift doubling. */
  const Swift: real := 0.02

  /** The four camera accumulators. */
  datatype Controls = Controls(moveLeftRight: real, moveBackForward: real, camPitch: real, camYaw: real)

  /** The `if` chain of `CameraInputs` for one key code. */
  function ApplyKey(c: Controls, key: int): (r: Controls)
    ensures key == -1 ==> r == c
    ensures (r.moveLeftRight == c.moveLeftRight && r.moveBackForward == c.moveBackForward)
            || (r.camPitch == c.camPitch && r.camYaw == c.camYaw)
  {
    var swift := if key == KeyShift then Swift * 2.0 else Swift;
    var c := if key == KeyZ then c.(moveBackForward := c.moveBackForward + swift) else c;
    var c := if key == KeyQ then c.(moveLeftRight := c.moveLeftRight - swift) else c;
    var c := if key == KeyD then c.(moveLeftRight := c.moveLeftRight + swift) else c;
    var c := if key == KeyS then c.(moveBackForward := c.moveBackForward - swift) else c;
    var c := if key == KeyUp then c.(camPitch := c.camPitch - Speed) else c;
    var c := if key == KeyDown then c.(camPitch := c.camPitch + Speed) else c;
    var c := if key == KeyLeft then c.(camYaw := c.camYaw - Speed) else c;
    var c := if key == KeyRight then c.(camYaw := c.camYaw + Speed) else c;
    c
  }

  /** Each recognised key moves exactly one accumulator by its fixed step: 'Z'/'S'
      back-forward by +0.02/-0.02, 'D'/'Q' left-right by +0.02/-0.02, Down/Up the pitch
      by +0.04/-0.04, Right/Left the yaw by +0.04/-0.04. Every other code, Shift and
      the "no key" value -1 included, changes nothing: the Shift doubling never reaches
      a movement, since only one key code is read per call. */
  lemma KeyEffects(c: Controls, key: int)
    ensures key == KeyZ ==> ApplyKey(c, key) == c.(moveBackForward := c.moveBackForward + 0.02)
    ensures key == KeyS ==> ApplyKey(c, key) == c.(moveBackForward := c.moveBackForward - 0.02)
    ensures key == KeyD ==> ApplyKey(c, key) == c.(moveLeftRight := c.moveLeftRight + 0.02)
    ensures key == KeyQ ==> ApplyKey(c, key) == c.(moveLeftRight := c.moveLeftRight - 0.02)
    ensures key == KeyDown ==> ApplyKey(c, key) == c.(camPitch := c.camPitch + 0.04)
    ensures key == KeyUp ==> ApplyKey(c, key) == c.(camPitch := c.camPitch - 0.04)
    ensures key == KeyRight ==> ApplyKey(c, key) == c.(camYaw := c.camYaw + 0.04)
    ensures key == KeyLeft ==> ApplyKey(c, key) == c.(camYaw := c.camYaw - 0.04)
    ensures key !in {KeyZ, KeyS, KeyD, KeyQ, KeyDown, KeyUp, KeyRight, KeyLeft} ==> ApplyKey(c, key) == c
  {
  }

  /** `mCurrBackBuffer + 1` reduced by C's `%`, which truncates toward zero. */
  function NextBackBuffer(curr: int, count: int): (r: int)
    requires count > 0
    ensures 0 <= curr + 1 ==> r == (curr + 1) % count
  {
    var a := curr + 1;
    if a >= 0 then a % count else -((-a) % count)
  }

  /** Starting in range, the index stays in range: it moves up by one and wraps to 0
      after the last buffer. */
  lemma BackBufferInRange(curr: int, count: int)
    requires count > 0 && 0 <= curr < count
    ensures 0 <= NextBackBuffer(curr, count) < count
    ensures NextBackBuffer(curr, count) == if curr == count - 1 then 0 else curr + 1
  {
  }

  /** The index after n presents. */
  function Advance(curr: int, n: nat, count: int): int
    requires count > 0
  {
    if n == 0 then curr else NextBackBuffer(Advance(curr, n - 1, count), count)
  }

  /** Helper: a remainder is determined by any quotient/remainder split. */
  lemma ModUnique(x: int, n: int, q: int, r: int)
    requires n > 0 && 0 <= r < n && x == q * n + r
    ensures x % n == r
  {
    var q', r' := x / n, x % n;
    assert x == q' * n + r';
    assert (q - q') * n == r' - r;
    MulBound(q - q', n);
  }

  /** Helper: a non-zero multiple of n is at least n away from 0. */
  lemma MulBound(d: int, n: int)
    requires n > 0
    ensures d >= 1 ==> d * n >= n
    ensures d <= -1 ==> d * n <= -n
  {
    if d >= 1 {
      assert d * n == (d - 1) * n + n;
      assert (d - 1) * n >= 0;
    } else if d <= -1 {
      assert d * n == (d + 1) * n - n;
      assert (d + 1) * n <= 0;
    }
  }

  /** Helper: (a + 1) % n from a % n. */
  lemma ModNext(a: int, n: int)
    requires n > 0 && a >= 0
    ensures (a + 1) % n == if a % n == n - 1 then 0 else a % n + 1
  {
    var q, r := a / n, a % n;
    assert a == q * n + r;
    if r == n - 1 {
      ModUnique(a + 1, n, q + 1, 0);
    } else {
      ModUnique(a + 1, n, q, r + 1);
    }
  }

  /** From an index in range, n presents advance it by n modulo the buffer count: the
      buffers are used in turn. */
  lemma {:induction false} BackBufferCycle(curr: int, n: nat, count: int)
    requires count > 0 && 0 <= curr < count
    ensures Advance(curr, n, count) == (curr + n) % count
  {
    if n > 0 {
      BackBufferCycle(curr, n - 1, count);
      var prev := Advance(curr, n - 1, count);
      assert prev == (curr + n - 1) % count;
      assert Advance(curr, n, count) == NextBackBuffer(prev, count) == (prev + 1) % count;
      ModNext(curr + n - 1, count);
      if prev == count - 1 {
        ModUnique(prev + 1, count, 1, 0);
      } else {
        ModUnique(prev + 1, count, 0, prev + 1);
      }
    }
  }

  /** Every `count` presents the rotation is back where it started. */
  lemma BackBufferPeriod(curr: int, count: int)
    requires count > 0 && 0 <= curr < count
    ensures Advance(curr, count, count) == curr
  {
    BackBufferCycle(curr, count, count);
    ModUnique(curr + count, count, 1, curr);
  }

  /** The commands `DrawRenderItems` records into the command list for one item. */
  datatype Command =
    | SetVertexBuffers(vertexSource: RenderItem)
    | SetIndexBuffer(indexSource: RenderItem)
    | SetPrimitiveTopology(topologySource: RenderItem)
    | SetObjectCbv(cbvOwner: RenderItem)
    | DrawIndexed(indexCount: nat, instanceCount: nat, startIndexLocation: nat, baseVertexLocation: int, startInstance: nat)

  /** The draw call for one item: its own range, one instance. */
  function DrawOf(ri: RenderItem): Command
    reads ri
  {
    DrawIndexed(ri.indexCount, 1, ri.startIndexLocation, ri.baseVertexLocation, 0)
  }

  /** The five commands of one loop iteration: the item's geometry views and topology,
      its own object constant buffer at root parameter 0, and its draw. */
  function ItemCommands(ri: RenderItem): (cs: seq<Command>)
    reads ri
    ensures |cs| == 5
  {
    [SetVertexBuffers(ri), SetIndexBuffer(ri), SetPrimitiveTopology(ri), SetObjectCbv(ri), DrawOf(ri)]
  }

  /** The commands for a whole list, item after item. */
  function DrawCommands(items: seq<RenderItem>): (cs: seq<Command>)
    reads set ri | ri in items
    ensures |cs| == 5 * |items|
  {
    if items == [] then [] else DrawCommands(items[..|items| - 1]) + ItemCommands(items[|items| - 1])
  }

  /** The draw calls of a command log, in order. */
  function Draws(log: seq<Command>): (ds: seq<Command>)
    ensures |ds| <= |log|
    ensures forall d :: d in ds ==> d.DrawIndexed?
  {
    if log == [] then []
    else Draws(log[..|log| - 1]) + (if log[|log| - 1].DrawIndexed? then [log[|log| - 1]] else [])
  }

  /** Filtering distributes over concatenation. */
  lemma {:induction false} DrawsAppend(a: seq<Command>, b: seq<Command>)
    ensures Draws(a + b) == Draws(a) + Draws(b)
    decreases |b|
  {
    if b == [] {
      assert a + b == a;
    } else {
      var last := b[|b| - 1];
      assert (a + b)[..|a + b| - 1] == a + b[..|b| - 1];
      DrawsAppend(a, b[..|b| - 1]);
    }
  }

  /** The block of five commands recorded for the k-th item. */
  function Block(log: seq<Command>, k: nat): seq<Command>
    requires 5 * k + 5 <= |log|
  {
    log[5 * k .. 5 * k + 5]
  }

  /** Exactly one draw per item, in list order, each with that item's own index
      count, start index and base vertex. */
  lemma {:induction false} DrawsInOrder(items: seq<RenderItem>)
    ensures |Draws(DrawCommands(items))| == |items|
    ensures forall k :: 0 <= k < |items| ==> Draws(DrawCommands(items))[k] == DrawOf(items[k])
  {
    if items != [] {
      var init := items[..|items| - 1];
      var last := items[|items| - 1];
      var before := Draws(DrawCommands(init));
      assert Draws(DrawCommands(items)) == before + [DrawOf(last)] by {
        DrawsAppend(DrawCommands(init), ItemCommands(last));
        ItemDraws(last);
      }
      DrawsInOrder(init);
    }
  }

  /** Helper: the only draw among one item's commands is its own. */
  lemma ItemDraws(ri: RenderItem)
    ensures Draws(ItemCommands(ri)) == [DrawOf(ri)]
  {
    var cs := ItemCommands(ri);
    assert cs == cs[..4] + [cs[4]];
    DrawsAppend(cs[..4], [cs[4]]);
    assert cs[..4] == cs[..3] + [cs[3]];
    DrawsAppend(cs[..3], [cs[3]]);
    assert cs[..3] == cs[..2] + [cs[2]];
    DrawsAppend(cs[..2], [cs[2]]);
    assert cs[..2] == cs[..1] + [cs[1]];
    DrawsAppend(cs[..1], [cs[1]]);
    assert cs[..1] == [] + [cs[0]];
    DrawsAppend([], [cs[0]]);
  }

  /** The k-th block of five commands is the k-th item's: its geometry, its own object
      constant buffer, then its draw. */
  lemma {:induction false} BlocksInOrder(items: seq<RenderItem>)
    ensures forall k :: 0 <= k < |items| ==> Block(DrawCommands(items), k) == ItemCommands(items[k])
  {
    if items != [] {
      var init := items[..|items| - 1];
      BlocksInOrder(init);
      forall k | 0 <= k < |items|
        ensures Block(DrawCommands(items), k) == ItemCommands(items[k])
      {
        if k < |init| {
          assert Block(DrawCommands(items), k) == Block(DrawCommands(init), k);
        }
      }
    }
  }

  /** The application object, reduced to the state these operations read and write. */
  class BoxApp {
    /** The entity store. */
    const gameObject: GameObject
    /** `SwapChainBufferCount` of the base application class. */
    const swapChainBufferCount: int
    /** `mCbvSrvUavDescriptorSize`: the device's descriptor increment. */
    const descriptorSize: nat

    var moveLeftRight: real
    var moveBackForward: real
    var camPitch: real
    var camYaw: real

    /** `mCurrBackBuffer`. */
    var currBackBuffer: int
    /** `mPassCbvOffset`. */
    var passCbvOffset: nat
    /** NumDescriptors of the CBV heap. */
    var cbvHeapSize: nat
    /** The heap index the pass CBV is created at, and that index's byte offset from
        the start of the heap. */
    var passCbvSlot: int
    var passCbvHandleOffset: int

    /** The accumulators start at zero, the back buffer at 0, the store empty. */
    constructor (swapChainBufferCount: int, descriptorSize: nat)
      requires swapChainBufferCount > 0
      ensures this.swapChainBufferCount == swapChainBufferCount && this.descriptorSize == descriptorSize
      ensures fresh(gameObject)
      ensures gameObject.objIndex == 0 && gameObject.allItems == [] && gameObject.opaqueItems == []
      ensures gameObject.geometries == map[]
      ensures CameraState() == Controls(0.0, 0.0, 0.0, 0.0) && currBackBuffer == 0
      ensures passCbvOffset == 0
    {
      gameObject := new GameObject();
      this.swapChainBufferCount := swapChainBufferCount;
      this.descriptorSize := descriptorSize;
      moveLeftRight, moveBackForward, camPitch, camYaw := 0.0, 0.0, 0.0, 0.0;
      currBackBuffer := 0;
      passCbvOffset := 0;
      cbvHeapSize := 0;
      passCbvSlot, passCbvHandleOffset := 0, 0;
    }

    /** The accumulators as one value. */
    function CameraState(): Controls
      reads this
    {
      Controls(moveLeftRight, moveBackForward, camPitch, camYaw)
    }

    /** `CameraInputs`: reads one key code (the first key down, or -1) and applies it. */
    method CameraInputs(keyStates: array<bv16>)
      requires keyStates.Length == InputManager.KeyCount
      modifies this`moveLeftRight, this`moveBackForward, this`camPitch, this`camYaw
      ensures CameraState() == ApplyKey(old(CameraState()), InputManager.FirstDown(keyStates[..], 0))
    {
      var speed := Speed;
      var swift := Swift;
      var key := InputManager.GetKeyPressed(keyStates);
      if key == KeyShift {
        swift := swift * 2.0;
      }
      if key == KeyZ {
        moveBackForward := moveBackForward + swift;
      }
      if key == KeyQ {
        moveLeftRight := moveLeftRight - swift;
      }
      if key == KeyD {
        moveLeftRight := moveLeftRight + swift;
      }
      if key == KeyS {
        moveBackForward := moveBackForward - swift;
      }
      if key == KeyUp {
        camPitch := camPitch - speed;
      }
      if key == KeyDown {
        camPitch := camPitch + speed;
      }
      if key == KeyLeft {
        camYaw := camYaw - speed;
      }
      if key == KeyRight {
        camYaw := camYaw + speed;
      }
    }

    /** The part of `Camera` kept here: once the accumulated moves have been applied to
        the camera position, both are reset to zero; pitch and yaw are kept. */
    method Camera()
      modifies this`moveLeftRight, this`moveBackForward
      ensures moveLeftRight == 0.0 && moveBackForward == 0.0
    {
      moveLeftRight := 0.0;
      moveBackForward := 0.0;
    }

    /** `Update`: `CameraInputs` then `Camera`. Pitch and yaw keep the key's effect;
        the move accumulators end at zero whatever the key. */
    method Update(keyStates: array<bv16>)
      requires keyStates.Length == InputManager.KeyCount
      modifies this`moveLeftRight, this`moveBackForward, this`camPitch, this`camYaw
      ensures var c := ApplyKey(old(CameraState()), InputManager.FirstDown(keyStates[..], 0));
              CameraState() == Controls(0.0, 0.0, c.camPitch, c.camYaw)
    {
      CameraInputs(keyStates);
      Camera();
    }

    /** `DrawRenderItems`: for each opaque item in list order, its five commands. */
    method DrawRenderItems() returns (log: seq<Command>)
      ensures log == DrawCommands(gameObject.opaqueItems)
    {
      log := [];
      var i := 0;
      while i < |gameObject.GetOpaqueItems()|
        invariant i <= |gameObject.opaqueItems|
        invariant log == DrawCommands(gameObject.opaqueItems[..i])
      {
        var ri := gameObject.GetOpaqueItems()[i];
        log := log + [SetVertexBuffers(ri), SetIndexBuffer(ri), SetPrimitiveTopology(ri)];
        log := log + [SetObjectCbv(ri)];
        log := log + [DrawIndexed(ri.indexCount, 1, ri.startIndexLocation, ri.baseVertexLocation, 0)];
        assert gameObject.opaqueItems[..i + 1][..i] == gameObject.opaqueItems[..i];
        i := i + 1;
      }
      assert gameObject.opaqueItems[..i] == gameObject.opaqueItems;
    }

    /** The frame's command recording, reduced to the per-item commands, followed by
        the back-buffer rotation after Present. */
    method Draw() returns (log: seq<Command>)
      requires swapChainBufferCount > 0
      modifies this`currBackBuffer
      ensures log == DrawCommands(gameObject.opaqueItems)
      ensures currBackBuffer == NextBackBuffer(old(currBackBuffer), swapChainBufferCount)
    {
      log := DrawRenderItems();
      currBackBuffer := (currBackBuffer + 1);
      currBackBuffer := if currBackBuffer >= 0 then currBackBuffer % swapChainBufferCount
                        else -((-currBackBuffer) % swapChainBufferCount);
    }

    /** `BuildDescriptorHeaps`: one descriptor per opaque item plus one for the pass
        constants, whose slot is the item count. */
    method BuildDescriptorHeaps()
      modifies this`passCbvOffset, this`cbvHeapSize
      ensures cbvHeapSize == |gameObject.opaqueItems| + 1
      ensures passCbvOffset == |gameObject.opaqueItems|
      ensures passCbvOffset == cbvHeapSize - 1
    {
      var objCount := |gameObject.GetOpaqueItems()|;
      var numDescriptor := objCount + 1;
      passCbvOffset := objCount;
      cbvHeapSize := numDescriptor;
    }

    /** `BuildConstantBuffers`: the pass CBV is created at heap index `mPassCbvOffset`,
        that many descriptor increments from the heap start. */
    method BuildConstantBuffers()
      modifies this`passCbvSlot, this`passCbvHandleOffset
      ensures passCbvSlot == passCbvOffset
      ensures passCbvHandleOffset == passCbvOffset * descriptorSize
      ensures cbvHeapSize == passCbvOffset + 1 ==> 0 <= passCbvSlot < cbvHeapSize && passCbvSlot == cbvHeapSize - 1
    {
      var heapIndex := passCbvOffset;
      passCbvSlot := heapIndex;
      passCbvHandleOffset := heapIndex * descriptorSize;
    }

    /** The scene part of `Initialize`: lay out the meshes, build a test box and an
        asteroid, size the CBV heap and place the pass CBV. The opaque list is then the
        box and the asteroid with buffer indices 0 and 1, the heap has three
        descriptors and the pass CBV takes the last one. */
    method InitializeScene(box: MeshData, sphere: MeshData, pyramide: MeshData, projectile: MeshData)
      requires gameObject.objIndex == 0 && gameObject.allItems == [] && gameObject.opaqueItems == []
      modifies gameObject, this`passCbvOffset, this`cbvHeapSize, this`passCbvSlot, this`passCbvHandleOffset
      ensures |gameObject.opaqueItems| == 2 && gameObject.opaqueItems == gameObject.allItems
      ensures gameObject.opaqueItems[0].kind == TestBox && gameObject.opaqueItems[0].objCBIndex == 0
      ensures gameObject.opaqueItems[1].kind == Asteroid && gameObject.opaqueItems[1].objCBIndex == 1
      ensures cbvHeapSize == 3 && passCbvSlot == 2
    {
      gameObject.Init(box, sphere, pyramide, projectile);
      gameObject.BuildRenderOpBox();
      gameObject.BuildRenderOpCircle();
      BuildDescriptorHeaps();
      BuildConstantBuffers();
    }
  }
}
