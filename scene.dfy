/**
 * The scene: a fixed array of spheres on the host, mirrored into a read-only
 * device buffer that the kernel reads.
 */
module Scene {

  /**
   * Single-precision values of the source are modelled as reals; rounding is
   * not modelled.
   */
  datatype Vec3 = Vec3(x: real, y: real, z: real)

  /** One sphere record: radius, centre, reflected colour and emitted light. */
  datatype Sphere = Sphere(radius: real, position: Vec3, color: Vec3, emission: Vec3)

  /** The scene always holds nine spheres. */
  const SphereCount: nat := 9

  /** The sphere that moves: the left one of the two small spheres. */
  const DriftingSphere: nat := 6

  /** How far that sphere rises each frame. */
  const DriftStep: real := 0.01

  /** The sphere raised by one step; nothing but its height changes. */
  function Raise(s: Sphere): (r: Sphere)
    ensures r.position.y == s.position.y + DriftStep
    ensures r.(position := s.position) == s
    ensures r.position.(y := s.position.y) == s.position
  {
    s.(position := s.position.(y := s.position.y + DriftStep))
  }

  /**
   * A blocking write of `host` into a device buffer at record `offset`: the
   * records written are replaced and every other record keeps its value.
   */
  function WriteBuffer(device: seq<Sphere>, offset: nat, host: seq<Sphere>): (r: seq<Sphere>)
    requires offset + |host| <= |device|
    ensures |r| == |device|
    ensures forall i :: 0 <= i < |host| ==> r[offset + i] == host[i]
    ensures forall i :: 0 <= i < |device| && !(offset <= i < offset + |host|) ==> r[i] == device[i]
  {
    device[..offset] + host + device[offset + |host|..]
  }

  /** A write of the whole host array at offset 0 leaves the buffer equal to the host array, whatever it held. */
  lemma FullWriteMirrorsHost(device: seq<Sphere>, host: seq<Sphere>)
    requires |host| == |device|
    ensures WriteBuffer(device, 0, host) == host
  {
    var r := WriteBuffer(device, 0, host);
    assert forall i :: 0 <= i < |host| ==> r[0 + i] == host[i];
  }

  /** Writing the same host data twice gives the same buffer as writing it once. */
  lemma WriteIdempotent(device: seq<Sphere>, offset: nat, host: seq<Sphere>)
    requires offset + |host| <= |device|
    ensures WriteBuffer(WriteBuffer(device, offset, host), offset, host) == WriteBuffer(device, offset, host)
  {
    var once := WriteBuffer(device, offset, host);
    var twice := WriteBuffer(once, offset, host);
    forall i | 0 <= i < |device|
      ensures twice[i] == once[i]
    {
      if offset <= i < offset + |host| {
        assert twice[offset + (i - offset)] == host[i - offset];
        assert once[offset + (i - offset)] == host[i - offset];
      }
    }
  }
}
