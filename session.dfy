/**
 * The host side of one rendering session: the frame counter, the host sphere
 * array and its device mirror, kernel argument 5 (the seed), and the shared
 * vertex buffer's ownership. `render` is the per-frame callback and `runKernel`
 * the acquire, dispatch and release it calls.
 */
module Session {

  import opened Wrappers
  import opened WorkSize
  import opened Seed
  import opened Scene
  import opened Interop

  class RenderSession {
    /** The frame counter, an `unsigned int` that wraps after 2^32 frames. */
    var framenumber: bv32
    /** The value last bound to kernel argument 5, the frame seed. */
    var seedArg: bv32
    /** The host sphere array, updated in place. */
    const spheres: array<Sphere>
    /** The contents of the read-only device buffer the kernel reads the spheres from. */
    var mirror: seq<Sphere>
    /** Ownership of the shared vertex buffer. */
    var buffer: BufferState
    /** The kernel's work-group size on the chosen device. */
    const groupSize: nat
    /** Every host-visible event since the session was set up. */
    ghost var events: seq<Event>

    /** The sizes are fixed and every event so far obeyed the ownership protocol, ending in `buffer`. */
    ghost predicate Valid()
      reads this, spheres
    {
      && spheres.Length == SphereCount
      && |mirror| == SphereCount
      && groupSize > 0
      && Replay(Initial, events) == Some(buffer)
    }

    /** Between frames OpenGL owns the buffer. */
    ghost predicate BetweenFrames()
      reads this
    {
      buffer.owner == GraphicsOwned
    }

    /**
     * Start-up after OpenGL has been drained: the scene is set, the device
     * buffer is created and filled from it, the shared buffer is wrapped, and
     * kernel argument 5 is bound to the counter itself, which is still 0.
     */
    constructor (scene: seq<Sphere>, workGroupSize: nat)
      requires |scene| == SphereCount && workGroupSize > 0
      ensures Valid() && BetweenFrames() && fresh(spheres)
      ensures framenumber == 0 && seedArg == 0
      ensures spheres[..] == scene && mirror == scene
      ensures groupSize == workGroupSize && buffer == Initial && events == []
    {
      spheres := new Sphere[SphereCount](i requires 0 <= i < SphereCount => scene[i]);
      mirror := scene;
      groupSize := workGroupSize;
      buffer := Initial;
      framenumber := 0;
      seedArg := 0;
      events := [];
    }

    /** The blocking write of the whole host array, offset 0, into the device buffer. */
    method WriteScene()
      requires Valid()
      modifies this`mirror, this`events
      ensures Valid()
      ensures mirror == WriteBuffer(old(mirror), 0, spheres[..]) && mirror == spheres[..]
      ensures events == old(events) + [SceneWritten]
    {
      FullWriteMirrorsHost(mirror, spheres[..]);
      mirror := WriteBuffer(mirror, 0, spheres[..]);
      ReplaySnoc(Initial, events, SceneWritten);
      events := events + [SceneWritten];
    }

    /** glFinish: every pending OpenGL command completes. */
    method FinishGraphics()
      requires Valid()
      modifies this`buffer, this`events
      ensures Valid()
      ensures buffer == old(buffer).(graphicsIdle := true)
      ensures events == old(events) + [GraphicsFinished]
    {
      ReplaySnoc(Initial, events, GraphicsFinished);
      buffer := buffer.(graphicsIdle := true);
      events := events + [GraphicsFinished];
    }

    /** Hands the shared buffer to OpenCL; only allowed once OpenGL is idle and owns it. */
    method Acquire()
      requires Valid() && buffer == BufferState(GraphicsOwned, true)
      modifies this`buffer, this`events
      ensures Valid()
      ensures buffer == BufferState(ComputeOwned, true)
      ensures events == old(events) + [Acquired]
    {
      ReplaySnoc(Initial, events, Acquired);
      buffer := buffer.(owner := ComputeOwned);
      events := events + [Acquired];
    }

    /**
     * Runs the kernel over `global` work items, on the seed bound to argument 5
     * and the spheres in the device buffer; only allowed while OpenCL owns the
     * shared buffer.
     */
    method Dispatch(global: nat)
      requires Valid() && buffer.owner == ComputeOwned
      requires global % groupSize == 0 && PixelCount <= global
      modifies this`events
      ensures Valid()
      ensures events == old(events) + [Dispatched(global, groupSize, seedArg, mirror)]
    {
      ReplaySnoc(Initial, events, Dispatched(global, groupSize, seedArg, mirror));
      events := events + [Dispatched(global, groupSize, seedArg, mirror)];
    }

    /** Hands the shared buffer back to OpenGL. */
    method Release()
      requires Valid() && buffer.owner == ComputeOwned
      modifies this`buffer, this`events
      ensures Valid()
      ensures buffer == old(buffer).(owner := GraphicsOwned)
      ensures events == old(events) + [Released]
    {
      ReplaySnoc(Initial, events, Released);
      buffer := buffer.(owner := GraphicsOwned);
      events := events + [Released];
    }

    /** Draws the shared buffer as points; only allowed while OpenGL owns it. */
    method Draw()
      requires Valid() && buffer.owner == GraphicsOwned
      modifies this`buffer, this`events
      ensures Valid()
      ensures buffer == old(buffer).(graphicsIdle := false)
      ensures events == old(events) + [Drawn]
    {
      ReplaySnoc(Initial, events, Drawn);
      buffer := buffer.(graphicsIdle := false);
      events := events + [Drawn];
    }

    /**
     * One kernel launch: the global size is the pixel count rounded up to the
     * work-group size; OpenGL is drained, the buffer acquired, the kernel run
     * and the buffer released, each waited for before the next.
     */
    method RunKernel()
      requires Valid() && BetweenFrames()
      modifies this`buffer, this`events
      ensures Valid() && BetweenFrames()
      ensures buffer == BufferState(GraphicsOwned, true)
      ensures events == old(events) +
        [GraphicsFinished, Acquired, Dispatched(GlobalWorkSize(PixelCount, groupSize), groupSize, seedArg, mirror), Released]
    {
      var global := GlobalWorkSize(PixelCount, groupSize);
      FinishGraphics();
      Acquire();
      Dispatch(global);
      Release();
    }

    /**
     * The frame callback: the counter advances by one (wrapping), the drifting
     * sphere rises one step, the whole sphere array is written to the device,
     * the seed argument becomes the hash of the new counter, the kernel runs and
     * the frame is drawn.
     */
    method Render()
      requires Valid() && BetweenFrames()
      modifies this, spheres
      ensures Valid() && BetweenFrames()
      ensures framenumber == old(framenumber) + 1
      ensures seedArg == WangHash(framenumber)
      ensures spheres[..] == old(spheres[..])[DriftingSphere := Raise(old(spheres[DriftingSphere]))]
      ensures mirror == spheres[..]
      ensures buffer == BufferState(GraphicsOwned, false)
      ensures events == old(events) + FrameEvents(GlobalWorkSize(PixelCount, groupSize), groupSize, WangHash(framenumber), spheres[..])
    {
      framenumber := framenumber + 1;
      spheres[DriftingSphere] := Raise(spheres[DriftingSphere]);
      WriteScene();
      seedArg := WangHash(framenumber);
      RunKernel();
      Draw();
    }
  }

  /** Two frames starting from a fresh session: the counter reads 1 then 2 and the seeds differ. */
  method TwoFrames(scene: seq<Sphere>, workGroupSize: nat) returns (first: bv32, second: bv32)
    requires |scene| == SphereCount && workGroupSize > 0
    ensures first == WangHash(1) && second == WangHash(2) && first != second
  {
    var session := new RenderSession(scene, workGroupSize);
    session.Render();
    first := session.seedArg;
    session.Render();
    second := session.seedArg;
    WangHashInjective(1, 2);
  }
}
