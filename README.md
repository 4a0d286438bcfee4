# OpenCL/OpenGL interop ray tracer host: a Dafny model

This project models the host-side driver of a real-time OpenCL path tracer whose
image lives in an OpenGL vertex buffer shared with OpenCL. The model covers four parts:

- **Work size.** The number of work items per kernel launch is the pixel count
  rounded up to the kernel's work-group size (`WorkSize`).
- **Frame seed.** The seed is Thomas Wang's 32-bit integer hash of the frame
  counter, on wrap-around `unsigned int` arithmetic (`Seed`).
- **Menu selection.** The platform and device prompts take the only candidate
  when there is one. Otherwise they re-read a 1-based index until it is in range (`Selection`, whose outcome is a `MenuResult`).
- **Frame callback.** Each frame the counter advances, one sphere rises, and the
  sphere array is written to its device buffer. Then the shared buffer is acquired
  for OpenCL, the kernel runs, the buffer goes back to OpenGL, and the frame is drawn
  (`Scene`, `Interop`, `Session`).

The shared buffer's ownership (`GraphicsOwned | ComputeOwned`) and whether OpenGL
has been drained form a small state machine, `Interop.Step`. The session class
`Session.RenderSession` keeps a ghost log of every host-visible event after start-up. Its
invariant says that replaying the log from the initial state obeys the protocol
and ends in the current state. Each operation's preconditions rule out a double
acquire, a dispatch or release while OpenGL owns the buffer, and a draw while
OpenCL owns it. `Interop.DoubleAcquireRejected`, `Interop.DispatchOnlyWhenComputeOwned`
and `Interop.DrawOnlyWhenGraphicsOwned` prove the same rules about arbitrary event traces.

Files: `wrappers.dfy` (Option), `work_size.dfy`, `seed.dfy`, `selection.dfy`,
`scene.dfy`, `interop.dfy`, `session.dfy`.

Three behaviours of the code that the model keeps as written:

- **Empty device list.** No `NoDeviceFound` error exists. With an empty list,
  `pickDevice` keeps prompting forever (main.cpp:83). The model finds no input
  acceptable for zero candidates (`Selection.EmptyListNeverAccepts`), so `Pick`
  stays at `AwaitingInput`.
- **Initial kernel argument 5.** It is the raw counter 0 (main.cpp:259), not its hash.
  The first frame rebinds it to `WangHash(1)` (main.cpp:303, main.cpp:310).
- **The sphere that moves.** It is record index 6, the seventh record (main.cpp:305).

## Model

| member | source | states |
|---|---|---|
| WorkSize.GlobalWorkSize | main.cpp:265-270 | the global work size is a multiple of the group size, is at least the pixel count, and exceeds it by less than one group |
| WorkSize.GlobalWorkSizeIsLeast | main.cpp:268-270 | no multiple of the group size that covers every pixel is smaller than the global work size |
| WorkSize.AlignedPixelCountUnchanged | main.cpp:269 | a pixel count that is already a multiple of the group size is used unchanged |
| WorkSize.ViewportWithGroup256 | gl_interop.h:7-8 | the 1280 x 720 viewport has 921600 pixels, and with groups of 256 the global size stays 921600 |
| WorkSize.ViewportWithGroup1000 | main.cpp:269-270 | with groups of 1000 the 921600 pixels are padded to 922000 work items |
| Seed.MixFold | main.cpp:292 | the step `(a ^ 61) ^ (a >> 16)` is undone by UnmixFold |
| Seed.MixShiftAdd | main.cpp:293 | the wrapping step `a + (a << 3)` is undone by multiplying by 0x38e38e39 |
| Seed.MixXorShift4 | main.cpp:294 | the step `a ^ (a >> 4)` is undone by xoring in the right shifts by 4, 8, ..., 28 |
| Seed.MixMultiply | main.cpp:295 | the wrapping multiplication by 0x27d4eb2d is undone by multiplying by 0xfb699ca5 |
| Seed.MixXorShift15 | main.cpp:296 | the step `a ^ (a >> 15)` is undone by xoring in the right shifts by 15 and 30 |
| Seed.WangHash | main.cpp:291-298 | the five steps composed in the source's order on wrap-around 32-bit values; applying WangUnhash to the hash gives back the counter value |
| Seed.FoldInverse | main.cpp:292 | the step `(a ^ 61) ^ (a >> 16)` is a bijection on 32-bit values with an explicit inverse |
| Seed.ShiftAddInverse | main.cpp:293 | the wrapping step `a + (a << 3)` is undone by multiplying by 0x38e38e39, and the other way round |
| Seed.ShiftAddIsTimesNine | main.cpp:293 | `a + (a << 3)` is multiplication by 9 modulo 2^32 |
| Seed.XorShift4Inverse | main.cpp:294 | the step `a ^ (a >> 4)` is a bijection with an explicit inverse |
| Seed.MultiplyInverse | main.cpp:295 | the wrapping multiplication by 0x27d4eb2d is undone by multiplying by 0xfb699ca5, and the other way round |
| Seed.XorShift15Inverse | main.cpp:296 | the step `a ^ (a >> 15)` is a bijection with an explicit inverse |
| Seed.HashUnhash | main.cpp:291-298 | every 32-bit value is the hash of some counter value (WangUnhash is also a right inverse) |
| Seed.WangHashInjective | main.cpp:291-298 | two counter values have the same seed exactly when they are equal |
| Seed.FirstSeeds | main.cpp:291-298 | the seeds of counters 0 and 1 are 0xc0a9496a and 0x27922c9d; in particular the seed of 0 is not 0 |
| Seed.NoSmallFixedPoint | main.cpp:291-298 | no counter value below 65536 is its own seed |
| Selection.FirstAccepted | main.cpp:64-69 | the position of the first read that passes the loop guard's negation (`Accepts`: an index from 1 to the list size, main.cpp:64 and main.cpp:83); every earlier read is rejected; None exactly when every read is rejected |
| Selection.Pick | main.cpp:55-91 | a single candidate is chosen with no reads. Otherwise the result is the candidate at the first accepted read minus one, after that many reads, or AwaitingInput when no read is accepted. A chosen index is always in bounds |
| Selection.LaterInputIgnored | main.cpp:64-70 | reads typed after the accepted one do not change the choice |
| Selection.RejectedInputSkipped | main.cpp:64-69 | after a run of rejected reads, the choice is made by the reads that follow, shifted by the length of the run |
| Selection.EmptyListNeverAccepts | main.cpp:83-88 | with no candidates no read is ever accepted, so the prompt repeats |
| Selection.PickExample | main.cpp:74-91 | reads 0, 999 and 2 over two candidates select the second candidate after three reads |
| Scene.Raise | main.cpp:305 | the drifting sphere's height grows by the step and nothing else in the record changes |
| Scene.WriteBuffer | main.cpp:307 | a blocking write replaces the records at the offset with the host records and keeps every other record and the buffer size |
| Scene.FullWriteMirrorsHost | main.cpp:307 | writing all records at offset 0 leaves the device buffer equal to the host array, whatever it held |
| Scene.WriteIdempotent | main.cpp:307 | writing the same host data twice gives the same buffer as writing it once |
| Interop.Step | main.cpp:272-285 | acquire needs a graphics-owned, drained buffer and makes it compute-owned; dispatch and release need it compute-owned; release makes it graphics-owned; draw needs it graphics-owned. Conversely each of these events is accepted, with the stated new state, whenever its condition holds, and writes and glFinish are always accepted |
| Interop.DispatchOnlyWhenComputeOwned | main.cpp:276-280 | in any legal trace, every kernel launch happens while OpenCL owns the buffer |
| Interop.DrawOnlyWhenGraphicsOwned | main.cpp:312-314 | in any legal trace, every draw happens while OpenGL owns the buffer |
| Interop.ComputeOwnedUntilRelease | main.cpp:276-284 | no event other than a release gives a compute-owned buffer back to OpenGL |
| Interop.DoubleAcquireRejected | main.cpp:276-285 | a second acquire with no release since the first is a protocol error |
| Interop.FrameEvents | main.cpp:301-315 | one frame's events in the source's order, the launch carrying the seed and the scene it reads; from any graphics-owned state they form a legal trace that ends graphics-owned with a draw pending |
| Interop.FrameLegal | main.cpp:272-285 | a write, glFinish, acquire, dispatch, release and draw are legal from any graphics-owned state and end graphics-owned |
| Session.RenderSession.constructor | main.cpp:337-350 | after start-up the counter and seed argument are 0, the device buffer equals the scene, and the shared buffer is graphics-owned and drained |
| Session.RenderSession.WriteScene | main.cpp:307 | the device buffer becomes equal to the whole host sphere array |
| Session.RenderSession.FinishGraphics | main.cpp:273 | marks OpenGL as drained, keeps the owner, and logs the event |
| Session.RenderSession.Acquire | main.cpp:276-277 | only from graphics-owned and drained; the buffer becomes compute-owned |
| Session.RenderSession.Dispatch | main.cpp:280-281 | only while compute-owned and with a global size that is a multiple of the group size covering every pixel; logs one launch of `global` items in groups of the kernel's work-group size, on the currently bound seed and the current device buffer |
| Session.RenderSession.Release | main.cpp:284-285 | only while compute-owned; the buffer becomes graphics-owned |
| Session.RenderSession.Draw | gl_interop.h:51-67 | only while graphics-owned; leaves OpenGL with pending work |
| Session.RenderSession.RunKernel | main.cpp:262-286 | drain, acquire, dispatch over the rounded global size, release, in that order, the launch seeing the bound seed and the device buffer; ends graphics-owned and drained |
| Session.RenderSession.Render | main.cpp:301-315 | the counter grows by one (mod 2^32). The seed argument is the hash of the new counter. Only sphere 6 changes, by one upward step. The device buffer equals the host array. The frame's events are exactly write, drain, acquire, dispatch, release, draw; the launch runs on the new seed and on the device buffer holding the raised scene, and the frame ends graphics-owned |
| Session.TwoFrames | main.cpp:303-310 | two frames from a fresh session bind seeds WangHash(1) and WangHash(2), which differ |

## Left out

- OpenCL and OpenGL calls appear only as logged events and ownership changes: context, queue and program creation, buffer creation, `BufferGL`, the `enqueue*` calls, `glFinish`, `drawGL`, `createVBO` and `initGL`. A failing driver call is not modelled.
- Platform and device enumeration and all console output (main.cpp:110-135): `Pick` receives the candidate list as a parameter.
- `pickPlatform` and `pickDevice` are one generic `Selection.Pick`, because their bodies differ only in the element type and the prompt text.
- The console details of the menu: each element of the input sequence is the value one `cin >> input` leaves behind. A non-numeric read counts as 0. `cin.ignore` discarding the rest of a line is not modelled.
- Reading the kernel source file (main.cpp:160-171) and `printErrorLog` (main.cpp:93-105): both are file I/O followed by process exit.
- The scene constants of `initScene` (main.cpp:186-242): the constructor takes the initial scene as a parameter.
- Scene.Raise: uses exact real addition of 0.01. It does not model single-precision rounding of `+= 0.01`, which adds a double constant to a float.
- The memory layout of `Sphere` (padding, 16-byte alignment) and of the vertex buffer records: buffer offsets and sizes are counted in records, not bytes.
- Kernel arguments 0 to 4 (scene buffer, width, height, sphere count, shared buffer): they are bound at start-up, and the frame callback rebinds argument 0 to the same buffer. Only argument 5, the seed, is modelled.
- Each `queue.finish()` after acquire, dispatch and release (main.cpp:277, 281, 285) is folded into the event it follows: OpenCL work still pending on the queue is not tracked, because the source drains the queue after every command.
- The work-group size query `getWorkGroupInfo` runs every frame; the model fixes its result once for the session, as the constant `groupSize`.
- `size_t` overflow in the global work size: the pixel count is 921600, so it cannot happen; the model uses unbounded naturals.
- Seed.WangHash: no lemma equates the `bv32` computation with the same steps on naturals taken modulo 2^32. `bv32` arithmetic is that wrap-around by definition.
- The statistical avalanche quality of the hash is not modelled.
- The `glutMainLoop` event loop, the 15 ms `Timer` cadence, the empty `cleanUp`, and the compute kernel itself, which is a separate program.
