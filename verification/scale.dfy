/** Universal scale (src/aspset510/scale.py): a pose is rescaled so that its
    knee-to-neck height, measured along the limbs, becomes 910 mm. The height
    measurement belongs to an external skeleton library and is a parameter
    here: `height` stands for calculate_knee_neck_height with the skeleton's
    joint names. */
module Scale {
  import opened Joints

  /** The universal knee-to-neck height, in millimetres. */
  const UnivKneeNeckHeight: real := 910.0

  type Height = Pose -> real

  /** Scales the pose about the origin by the one factor that maps its
      knee-to-neck height to 910. The source divides by the height, so it
      must not be zero. */
  function ToUnivScale(pose: Pose, height: Height): (r: Pose)
    requires height(pose) != 0.0
    ensures |r| == |pose|
    ensures forall j :: 0 <= j < |pose| ==> r[j] == Scale(UnivKneeNeckHeight / height(pose), pose[j])
  {
    ScalePose(UnivKneeNeckHeight / height(pose), pose)
  }

  /** Scales the pose about its root joint: the root is moved to the origin,
      the pose is scaled to universal scale there, and the root's position is
      added back. The root joint does not move. */
  function ToRootRelativeUnivScale(pose: Pose, root: nat, height: Height): (r: Pose)
    requires root < |pose|
    requires height(RootRelative(pose, root)) != 0.0
    ensures |r| == |pose|
    ensures r[root] == pose[root]
    ensures var k := UnivKneeNeckHeight / height(RootRelative(pose, root));
      forall j :: 0 <= j < |pose| ==> r[j] == Add(pose[root], Scale(k, Sub(pose[j], pose[root])))
  {
    var rel := RootRelative(pose, root);
    Translate(ToUnivScale(rel, height), pose[root])
  }

  /** The height is measured along limbs, so scaling a pose by a positive
      factor scales its height by the same factor. */
  ghost predicate ScalesLinearly(height: Height)
  {
    forall k: real, p: Pose :: k > 0.0 ==> height(ScalePose(k, p)) == k * height(p)
  }

  /** The height is measured between joints, so moving every joint by the
      same offset does not change it. */
  ghost predicate TranslationInvariant(height: Height)
  {
    forall p: Pose, v: Vec3 :: height(Translate(p, v)) == height(p)
  }

  /** For a height that scales linearly, the rescaled pose has height 910. */
  lemma UnivScaleHeight(pose: Pose, height: Height)
    requires ScalesLinearly(height)
    requires height(pose) > 0.0
    ensures height(ToUnivScale(pose, height)) == UnivKneeNeckHeight
  {
    var k := UnivKneeNeckHeight / height(pose);
    assert k > 0.0;
    assert ToUnivScale(pose, height) == ScalePose(k, pose);
  }

  /** For a height that scales linearly and ignores translation, the pose
      rescaled about its root has height 910. */
  lemma RootRelativeUnivScaleHeight(pose: Pose, root: nat, height: Height)
    requires ScalesLinearly(height) && TranslationInvariant(height)
    requires root < |pose|
    requires height(RootRelative(pose, root)) > 0.0
    ensures height(ToRootRelativeUnivScale(pose, root, height)) == UnivKneeNeckHeight
  {
    var rel := RootRelative(pose, root);
    var scaled := ToUnivScale(rel, height);
    UnivScaleHeight(rel, height);
    assert ToRootRelativeUnivScale(pose, root, height) == Translate(scaled, pose[root]);
  }

  /** Scaling about the origin gives every coordinate of every joint the
      same ratio of output to input: 910 over the pose's height. */
  lemma UnivScaleConstantRatio(pose: Pose, height: Height)
    requires height(pose) != 0.0
    ensures var r := ToUnivScale(pose, height);
      var k := UnivKneeNeckHeight / height(pose);
      forall j :: 0 <= j < |pose| ==>
        && (pose[j].x != 0.0 ==> r[j].x / pose[j].x == k)
        && (pose[j].y != 0.0 ==> r[j].y / pose[j].y == k)
        && (pose[j].z != 0.0 ==> r[j].z / pose[j].z == k)
  {
    var r := ToUnivScale(pose, height);
    var k := UnivKneeNeckHeight / height(pose);
    forall j | 0 <= j < |pose|
      ensures pose[j].x != 0.0 ==> r[j].x / pose[j].x == k
      ensures pose[j].y != 0.0 ==> r[j].y / pose[j].y == k
      ensures pose[j].z != 0.0 ==> r[j].z / pose[j].z == k
    {
      assert r[j] == Scale(k, pose[j]);
      if pose[j].x != 0.0 { MulDivCancel(k, pose[j].x); }
      if pose[j].y != 0.0 { MulDivCancel(k, pose[j].y); }
      if pose[j].z != 0.0 { MulDivCancel(k, pose[j].z); }
    }
  }

  /** Multiplying by a non-zero value and dividing by it again is the identity. */
  lemma MulDivCancel(k: real, a: real)
    requires a != 0.0
    ensures (k * a) / a == k
  {
  }
}
