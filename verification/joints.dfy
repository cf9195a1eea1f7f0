/** Joint positions and poses: a pose is the ordered list of 3D positions
    of a skeleton's joints, in millimetres. Coordinates are exact reals. */
module Joints {

  datatype Vec3 = Vec3(x: real, y: real, z: real)

  type Pose = seq<Vec3>

  function Add(p: Vec3, q: Vec3): Vec3 { Vec3(p.x + q.x, p.y + q.y, p.z + q.z) }

  function Sub(p: Vec3, q: Vec3): Vec3 { Vec3(p.x - q.x, p.y - q.y, p.z - q.z) }

  function Scale(k: real, p: Vec3): Vec3 { Vec3(k * p.x, k * p.y, k * p.z) }

  /** The type of a joint-distance function: `dist(p, q)` is the Euclidean
      norm of p - q. Dafny has no square root, so the norm is a parameter of
      the metrics, and each property states what it needs of it. */
  type Distance = (Vec3, Vec3) -> real

  /** Every joint of `pose` moved by `offset`: numpy's elementwise `+` of a
      row vector. The contract gives the result joint by joint; what the
      translation preserves is stated where it is used (the universal-scale
      lemmas). */
  function Translate(pose: Pose, offset: Vec3): (r: Pose)
    ensures |r| == |pose|
    ensures forall j :: 0 <= j < |pose| ==> r[j] == Add(pose[j], offset)
  {
    seq(|pose|, j requires 0 <= j < |pose| => Add(pose[j], offset))
  }

  /** Every joint position multiplied by `k` (scaling about the origin):
      numpy's elementwise `*` by a scalar, given joint by joint. */
  function ScalePose(k: real, pose: Pose): (r: Pose)
    ensures |r| == |pose|
    ensures forall j :: 0 <= j < |pose| ==> r[j] == Scale(k, pose[j])
  {
    seq(|pose|, j requires 0 <= j < |pose| => Scale(k, pose[j]))
  }

  /** Joint positions relative to the root joint: the root's position is
      subtracted from every joint, so the root itself lands on the origin. */
  function RootRelative(pose: Pose, root: nat): (r: Pose)
    requires root < |pose|
    ensures |r| == |pose|
    ensures r[root] == Vec3(0.0, 0.0, 0.0)
    ensures forall j :: 0 <= j < |pose| ==> r[j] == Sub(pose[j], pose[root])
  {
    seq(|pose|, j requires 0 <= j < |pose| => Sub(pose[j], pose[root]))
  }
}
