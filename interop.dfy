/**
 * The hand-over protocol of the vertex buffer shared between OpenGL, which
 * draws it, and OpenCL, which fills it. A frame is a sequence of events; the
 * protocol says which event may happen in which state.
 */
module Interop {

  import opened Wrappers
  import opened Scene

  /** Which API may touch the shared buffer. */
  datatype Owner = GraphicsOwned | ComputeOwned

  /** The owner, and whether every OpenGL command issued so far has completed. */
  datatype BufferState = BufferState(owner: Owner, graphicsIdle: bool)

  /** After the buffer is created and OpenGL has been drained (main.cpp:337). */
  const Initial := BufferState(GraphicsOwned, true)

  /** The host-visible steps of a frame. */
  datatype Event =
    | SceneWritten                            // blocking write of the sphere array
    | GraphicsFinished                        // glFinish
    | Acquired                                // enqueueAcquireGLObjects, then finish
    // enqueueNDRangeKernel, then finish; the kernel sees the seed bound to
    // argument 5 and the sphere records in the device buffer at that moment
    | Dispatched(global: nat, local: nat, seed: bv32, scene: seq<Sphere>)
    | Released                                // enqueueReleaseGLObjects, then finish
    | Drawn                                   // drawGL

  /**
   * The state after one event, or None when the event is a protocol error:
   * acquiring a buffer that is not graphics-owned or while OpenGL may still be
   * using it, running the kernel or releasing while the buffer is not
   * compute-owned, or drawing while it is.
   */
  function Step(s: BufferState, e: Event): (r: Option<BufferState>)
    ensures r.Some? && e.Acquired? ==> s == BufferState(GraphicsOwned, true) && r.value.owner == ComputeOwned
    ensures r.Some? && (e.Dispatched? || e.Released?) ==> s.owner == ComputeOwned
    ensures r.Some? && e.Drawn? ==> s.owner == GraphicsOwned
    ensures r.Some? && e.Released? ==> r.value.owner == GraphicsOwned
    ensures e.SceneWritten? || e.GraphicsFinished? ==> r.Some?
    ensures e.Acquired? && s == BufferState(GraphicsOwned, true) ==> r == Some(BufferState(ComputeOwned, true))
    ensures e.Dispatched? && s.owner == ComputeOwned ==> r == Some(s)
    ensures e.Released? && s.owner == ComputeOwned ==> r == Some(s.(owner := GraphicsOwned))
    ensures e.Drawn? && s.owner == GraphicsOwned ==> r == Some(s.(graphicsIdle := false))
  {
    match e
    case SceneWritten => Some(s)
    case GraphicsFinished => Some(s.(graphicsIdle := true))
    case Acquired =>
      if s.owner == GraphicsOwned && s.graphicsIdle then Some(s.(owner := ComputeOwned)) else None
    case Dispatched(_, _, _, _) => if s.owner == ComputeOwned then Some(s) else None
    case Released => if s.owner == ComputeOwned then Some(s.(owner := GraphicsOwned)) else None
    case Drawn => if s.owner == GraphicsOwned then Some(s.(graphicsIdle := false)) else None
  }

  /** The state after a whole trace, or None when some event in it is a protocol error. */
  function Replay(s: BufferState, trace: seq<Event>): Option<BufferState>
  {
    if trace == [] then Some(s)
    else match Replay(s, trace[..|trace| - 1])
      case None => None
      case Some(s') => Step(s', trace[|trace| - 1])
  }

  /** Replaying one more event is one more step. */
  lemma ReplaySnoc(s: BufferState, trace: seq<Event>, e: Event)
    ensures Replay(s, trace + [e]) ==
      match Replay(s, trace)
      case None => None
      case Some(s') => Step(s', e)
  {
    assert (trace + [e])[..|trace|] == trace;
  }

  /** Replaying a concatenation replays the second part from where the first ended. */
  lemma {:induction false} ReplayAppend(s: BufferState, a: seq<Event>, b: seq<Event>)
    ensures Replay(s, a + b) ==
      match Replay(s, a)
      case None => None
      case Some(s') => Replay(s', b)
  {
    if b == [] {
      assert a + b == a;
    } else {
      var b' := b[..|b| - 1];
      var e := b[|b| - 1];
      assert a + b == (a + b') + [e];
      assert b == b' + [e];
      ReplaySnoc(s, a + b', e);
      ReplayAppend(s, a, b');
      match Replay(s, a)
      case None =>
      case Some(s') => ReplaySnoc(s', b', e);
    }
  }

  /** Every event of a legal trace is legal in the state its prefix leads to. */
  lemma {:induction false} LegalPrefix(s: BufferState, trace: seq<Event>, i: nat)
    requires Replay(s, trace).Some? && i < |trace|
    ensures Replay(s, trace[..i]).Some?
    ensures Step(Replay(s, trace[..i]).value, trace[i]).Some?
  {
    assert trace == trace[..i] + [trace[i]] + trace[i + 1..];
    ReplayAppend(s, trace[..i] + [trace[i]], trace[i + 1..]);
    ReplaySnoc(s, trace[..i], trace[i]);
  }

  /** In a legal trace the kernel only runs while OpenCL owns the buffer. */
  lemma DispatchOnlyWhenComputeOwned(s: BufferState, trace: seq<Event>, i: nat)
    requires Replay(s, trace).Some? && i < |trace| && trace[i].Dispatched?
    ensures Replay(s, trace[..i]).Some? && Replay(s, trace[..i]).value.owner == ComputeOwned
  {
    LegalPrefix(s, trace, i);
  }

  /** In a legal trace OpenGL only draws while it owns the buffer. */
  lemma DrawOnlyWhenGraphicsOwned(s: BufferState, trace: seq<Event>, i: nat)
    requires Replay(s, trace).Some? && i < |trace| && trace[i].Drawn?
    ensures Replay(s, trace[..i]).Some? && Replay(s, trace[..i]).value.owner == GraphicsOwned
  {
    LegalPrefix(s, trace, i);
  }

  /** Events other than a release never hand a compute-owned buffer back to OpenGL. */
  lemma {:induction false} ComputeOwnedUntilRelease(s: BufferState, mid: seq<Event>)
    requires s.owner == ComputeOwned
    requires forall j :: 0 <= j < |mid| ==> !mid[j].Released?
    ensures Replay(s, mid).Some? ==> Replay(s, mid).value.owner == ComputeOwned
  {
    if mid != [] {
      ComputeOwnedUntilRelease(s, mid[..|mid| - 1]);
    }
  }

  /** Acquiring twice without a release in between is a protocol error. */
  lemma DoubleAcquireRejected(s: BufferState, mid: seq<Event>)
    requires forall j :: 0 <= j < |mid| ==> !mid[j].Released?
    ensures Replay(s, [Acquired] + mid + [Acquired]) == None
  {
    ReplayAppend(s, [Acquired], mid);
    ReplaySnoc(s, [Acquired] + mid, Acquired);
    assert [Acquired][..0] == [];
    match Step(s, Acquired)
    case None =>
    case Some(s') =>
      ComputeOwnedUntilRelease(s', mid);
  }

  /**
   * The events of one call of the frame callback, in the source's order; the
   * launch carries the seed and the scene the kernel reads. From any
   * graphics-owned state they are a legal trace that leaves the buffer
   * graphics-owned, with a draw pending.
   */
  function FrameEvents(global: nat, local: nat, seed: bv32, scene: seq<Sphere>): (r: seq<Event>)
    ensures forall s: BufferState :: s.owner == GraphicsOwned ==> Replay(s, r) == Some(BufferState(GraphicsOwned, false))
  {
    FrameLegal(global, local, seed, scene);
    [SceneWritten, GraphicsFinished, Acquired, Dispatched(global, local, seed, scene), Released, Drawn]
  }

  /** A write, glFinish, acquire, dispatch, release and draw, replayed from a graphics-owned state. */
  lemma FrameLegal(global: nat, local: nat, seed: bv32, scene: seq<Sphere>)
    ensures forall s: BufferState :: s.owner == GraphicsOwned ==>
      Replay(s, [SceneWritten, GraphicsFinished, Acquired, Dispatched(global, local, seed, scene), Released, Drawn])
        == Some(BufferState(GraphicsOwned, false))
  {
    var t := [SceneWritten, GraphicsFinished, Acquired, Dispatched(global, local, seed, scene), Released, Drawn];
    forall k | 0 <= k < |t|
      ensures t[..k + 1] == t[..k] + [t[k]]
    {
    }
    assert t[..0] == [];
    assert t[..6] == t;
    forall s: BufferState | s.owner == GraphicsOwned
      ensures Replay(s, t) == Some(BufferState(GraphicsOwned, false))
    {
      ReplaySnoc(s, t[..0], t[0]);
      ReplaySnoc(s, t[..1], t[1]);
      ReplaySnoc(s, t[..2], t[2]);
      ReplaySnoc(s, t[..3], t[3]);
      ReplaySnoc(s, t[..4], t[4]);
      ReplaySnoc(s, t[..5], t[5]);
    }
  }
}
