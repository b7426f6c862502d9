/**
 * The bundle-adjustment model: the control network it is built from, its
 * four parameter arrays (current and initial corrections per camera,
 * current and initial position per control point), the setters the
 * optimiser commits through, the error queries and the report rows it
 * appends to the iteration files.
 */
module BundleAdjust {
  import opened Geometry

  datatype PointKind = TiePoint | GroundControlPoint

  /** One pixel observation of a control point in image `imageId`. */
  datatype Measure = Measure(imageId: int, position: Vec2)

  /** A control point: its kind, its loaded 3D position and its observations. */
  datatype ControlPoint = ControlPoint(kind: PointKind, position: Vec3, measures: seq<Measure>)

  /** Total number of observations of the first |net| points, summed point by point. */
  function TotalObservations(net: seq<ControlPoint>): nat
  {
    if |net| == 0 then 0
    else TotalObservations(net[..|net| - 1]) + |net[|net| - 1].measures|
  }

  /** The loaded positions of the points, in network order. */
  function Positions(net: seq<ControlPoint>): seq<Vec3>
  {
    seq(|net|, i requires 0 <= i < |net| => net[i].position)
  }

  /** Every observation names one of the `numCameras` cameras. */
  ghost predicate WellIndexed(net: seq<ControlPoint>, numCameras: nat)
  {
    forall i, m :: 0 <= i < |net| && 0 <= m < |net[i].measures| ==>
      0 <= net[i].measures[m].imageId < numCameras
  }

  /**
   * The indices of the ground-control points, in increasing order, and
   * exactly those.
   */
  function GcpIndices(net: seq<ControlPoint>): (r: seq<nat>)
    ensures forall k :: 0 <= k < |r| ==> r[k] < |net| && net[r[k]].kind == GroundControlPoint
    ensures forall k, l :: 0 <= k < l < |r| ==> r[k] < r[l]
    ensures forall i :: 0 <= i < |net| && net[i].kind == GroundControlPoint ==> i in r
  {
    if |net| == 0 then []
    else
      var prefix := net[..|net| - 1];
      var rest := GcpIndices(prefix);
      assert forall k :: 0 <= k < |rest| ==> net[rest[k]] == prefix[rest[k]];
      if net[|net| - 1].kind == GroundControlPoint then rest + [|net| - 1] else rest
  }

  /** One line of an iteration report file: an index and three numbers. */
  datatype Row = Row(index: nat, v: Vec3)

  /**
   * The six lines written for camera j: the C, A, H, V, O and R vectors of a
   * CAHVOR model whose C is the position correction and whose A, H, V are
   * the unit axes (O and R keep their default, zero).
   */
  function CameraBlock(j: nat, p: CameraParams): seq<Row>
  {
    [Row(j, p.position), Row(j, Vec3(1.0, 0.0, 0.0)), Row(j, Vec3(0.0, 1.0, 0.0)),
     Row(j, Vec3(0.0, 0.0, 1.0)), Row(j, Zero3), Row(j, Zero3)]
  }

  /** The lines one camera-report append writes for the corrections `a`. */
  function CameraRows(a: seq<CameraParams>): seq<Row>
  {
    if |a| == 0 then []
    else CameraRows(a[..|a| - 1]) + CameraBlock(|a| - 1, a[|a| - 1])
  }

  /** The lines one point-report append writes for the positions `b`. */
  function PointRows(b: seq<Vec3>): seq<Row>
  {
    seq(|b|, i requires 0 <= i < |b| => Row(i, b[i]))
  }

  /** A camera append writes exactly six lines per camera. */
  lemma {:induction false} CameraRowsLength(a: seq<CameraParams>)
    ensures |CameraRows(a)| == 6 * |a|
  {
    if |a| > 0 {
      CameraRowsLength(a[..|a| - 1]);
    }
  }

  /** Line 6j+k of a camera append is line k of camera j's block. */
  lemma {:induction false} CameraRowAt(a: seq<CameraParams>, j: nat, k: nat)
    requires j < |a| && k < 6
    ensures |CameraRows(a)| == 6 * |a|
    ensures CameraRows(a)[6 * j + k] == CameraBlock(j, a[j])[k]
  {
    CameraRowsLength(a);
    var init := a[..|a| - 1];
    CameraRowsLength(init);
    if j < |a| - 1 {
      CameraRowAt(init, j, k);
      assert init[j] == a[j];
    }
  }

  /** A report file that lines are appended to. */
  class ReportFile {
    var rows: seq<Row>

    constructor (existing: seq<Row>)
      ensures rows == existing
    {
      rows := existing;
    }

    /** Truncate the file. */
    method Clear()
      modifies this
      ensures rows == []
    {
      rows := [];
    }

    method Append(more: seq<Row>)
      modifies this
      ensures rows == old(rows) + more
    {
      rows := rows + more;
    }
  }

  /** A base camera composed with a correction, as AdjustedCameraModel builds it. */
  datatype AdjustedCamera<Camera> = AdjustedCamera(base: Camera, correction: CameraParams)

  /** point_to_pixel of an adjusted camera, through the projection oracle. */
  function PixelOf<Camera>(oracles: Oracles<Camera>, cam: AdjustedCamera<Camera>, p: Vec3): Vec2
  {
    oracles.project(cam.base, cam.correction, p)
  }

  class BundleAdjustmentModel<!Camera> {
    const cameras: seq<Camera>
    const network: seq<ControlPoint>
    const oracles: Oracles<Camera>
    const cameraPositionSigma: real
    const cameraPoseSigma: real
    const gcpSigma: real

    var a: seq<CameraParams>          // camera parameter adjustments
    var b: seq<Vec3>                  // point coordinates
    var aInitial: seq<CameraParams>
    var bInitial: seq<Vec3>
    var numPixelObservations: int

    /**
     * The arrays stay aligned with the camera set and the network, the
     * initial copies keep their construction-time values, and the stored
     * observation count is the network's.
     */
    ghost predicate Valid()
      reads this
    {
      && |a| == |aInitial| == |cameras|
      && |b| == |bInitial| == |network|
      && (forall j :: 0 <= j < |aInitial| ==> aInitial[j] == ZeroParams)
      && bInitial == Positions(network)
      && numPixelObservations == TotalObservations(network)
    }

    constructor (cameras: seq<Camera>, network: seq<ControlPoint>, oracles: Oracles<Camera>,
                 cameraPositionSigma: real, cameraPoseSigma: real, gcpSigma: real)
      ensures Valid()
      ensures this.cameras == cameras && this.network == network && this.oracles == oracles
      ensures this.cameraPositionSigma == cameraPositionSigma && this.cameraPoseSigma == cameraPoseSigma
      ensures this.gcpSigma == gcpSigma
      ensures a == aInitial && b == bInitial
    {
      this.cameras := cameras;
      this.network := network;
      this.oracles := oracles;
      this.cameraPositionSigma := cameraPositionSigma;
      this.cameraPoseSigma := cameraPoseSigma;
      this.gcpSigma := gcpSigma;

      // Compute the number of observations from the network.
      var count := 0;
      for i := 0 to |network|
        invariant count == TotalObservations(network[..i])
      {
        assert network[..i + 1][..i] == network[..i];
        count := count + |network[i].measures|;
      }
      assert network[..|network|] == network;
      numPixelObservations := count;

      // a and a_initial start off with every element all zeros.
      var zeros: seq<CameraParams> := [];
      for j := 0 to |cameras|
        invariant |zeros| == j && forall k :: 0 <= k < j ==> zeros[k] == ZeroParams
      {
        zeros := zeros + [ZeroParams];
      }
      aInitial := zeros;
      a := zeros;

      // b and b_initial start off with the initial positions of the points.
      var positions: seq<Vec3> := [];
      for i := 0 to |network|
        invariant positions == Positions(network[..i])
      {
        positions := positions + [network[i].position];
      }
      assert network[..|network|] == network;
      bInitial := positions;
      b := positions;
    }

    function NumCameras(): (n: nat)
      reads this
      requires Valid()
      ensures n == |cameras|
    {
      |a|
    }

    function NumPoints(): (n: nat)
      reads this
      requires Valid()
      ensures n == |network|
    {
      |b|
    }

    function NumPixelObservations(): (n: int)
      reads this
      requires Valid()
      ensures n == TotalObservations(network)
    {
      numPixelObservations
    }

    /** A_parameters(j): the current correction of camera j. */
    function AParameters(j: nat): (v: CameraParams)
      reads this
      requires Valid() && j < NumCameras()
      ensures v == a[j]
    {
      a[j]
    }

    /** B_parameters(i): the current position of point i. */
    function BParameters(i: nat): (v: Vec3)
      reads this
      requires Valid() && i < NumPoints()
      ensures v == b[i]
    {
      b[i]
    }

    method SetAParameters(j: nat, v: CameraParams)
      requires Valid() && j < |a|
      modifies this`a
      ensures Valid()
      ensures a == old(a)[j := v]
      ensures AParameters(j) == v
      ensures forall k :: 0 <= k < NumCameras() && k != j ==> AParameters(k) == old(AParameters(k))
      ensures b == old(b) && aInitial == old(aInitial) && bInitial == old(bInitial)
      ensures NumCameras() == old(NumCameras()) && NumPoints() == old(NumPoints())
    {
      a := a[j := v];
    }

    method SetBParameters(i: nat, v: Vec3)
      requires Valid() && i < |b|
      modifies this`b
      ensures Valid()
      ensures b == old(b)[i := v]
      ensures BParameters(i) == v
      ensures forall k :: 0 <= k < NumPoints() && k != i ==> BParameters(k) == old(BParameters(k))
      ensures a == old(a) && aInitial == old(aInitial) && bInitial == old(bInitial)
      ensures NumCameras() == old(NumCameras()) && NumPoints() == old(NumPoints())
    {
      b := b[i := v];
    }

    /**
     * The inverse covariance of camera j's parameters: diagonal, the
     * reciprocal of the position sigma on the three translation entries and
     * of the pose sigma on the three rotation entries.
     */
    function AInverseCovariance(j: nat): (m: seq<seq<real>>)
      requires cameraPositionSigma != 0.0 && cameraPoseSigma != 0.0
      ensures |m| == 6 && forall r :: 0 <= r < 6 ==> |m[r]| == 6
      ensures forall r, c :: 0 <= r < 6 && 0 <= c < 6 && r != c ==> m[r][c] == 0.0
      ensures forall r :: 0 <= r < 3 ==> m[r][r] * cameraPositionSigma == 1.0
      ensures forall r :: 3 <= r < 6 ==> m[r][r] * cameraPoseSigma == 1.0
    {
      seq(6, r => seq(6, c => if r != c then 0.0
                               else if r < 3 then 1.0 / cameraPositionSigma
                               else 1.0 / cameraPoseSigma))
    }

    /**
     * The inverse covariance of point i's position: diagonal, the reciprocal
     * of the ground-control sigma on all three entries.
     */
    function BInverseCovariance(i: nat): (m: seq<seq<real>>)
      requires gcpSigma != 0.0
      ensures |m| == 3 && forall r :: 0 <= r < 3 ==> |m[r]| == 3
      ensures forall r, c :: 0 <= r < 3 && 0 <= c < 3 && r != c ==> m[r][c] == 0.0
      ensures forall r :: 0 <= r < 3 ==> m[r][r] * gcpSigma == 1.0
    {
      seq(3, r => seq(3, c => if r != c then 0.0 else 1.0 / gcpSigma))
    }

    /**
     * The pixel of point `bi` in image j under correction `aj`. It reads no
     * mutable field: the optimiser may evaluate it at candidate parameters.
     */
    function Project(i: nat, j: nat, aj: CameraParams, bi: Vec3): (pixel: Vec2)
      requires j < |cameras|
      ensures pixel == PixelOf(oracles, AdjustedCamera(cameras[j], aj), bi)
    {
      oracles.project(cameras[j], aj, bi)
    }

    /** The error of observation m of point i at the current parameters. */
    function PixelError(i: nat, m: nat): real
      reads this
      requires Valid() && WellIndexed(network, |cameras|)
      requires i < |network| && m < |network[i].measures|
    {
      var obs := network[i].measures[m];
      oracles.norm2(Sub2(obs.position, Project(i, obs.imageId, a[obs.imageId], b[i])))
    }

    /** The errors of the first k observations of point i, in observation order. */
    function PointErrors(i: nat, k: nat): (r: seq<real>)
      reads this
      requires Valid() && WellIndexed(network, |cameras|) && i < |network|
      requires k <= |network[i].measures|
      ensures |r| == k && forall l :: 0 <= l < k ==> r[l] == PixelError(i, l)
    {
      if k == 0 then [] else PointErrors(i, k - 1) + [PixelError(i, k - 1)]
    }

    /** The image errors of the first n points, point-major. */
    function ImageErrorsUpTo(n: nat): seq<real>
      reads this
      requires Valid() && WellIndexed(network, |cameras|) && n <= |network|
    {
      if n == 0 then [] else ImageErrorsUpTo(n - 1) + PointErrors(n - 1, |network[n - 1].measures|)
    }

    /** There is one image error per observation of the first n points. */
    lemma {:induction false} ImageErrorsLength(n: nat)
      requires Valid() && WellIndexed(network, |cameras|) && n <= |network|
      ensures |ImageErrorsUpTo(n)| == TotalObservations(network[..n])
    {
      if n > 0 {
        ImageErrorsLength(n - 1);
        assert network[..n][..n - 1] == network[..n - 1];
      }
    }

    /**
     * Point-major, observation-minor order: observation m of point i sits
     * after all observations of the points before i.
     */
    lemma {:induction false} ImageErrorAt(n: nat, i: nat, m: nat)
      requires Valid() && WellIndexed(network, |cameras|) && i < n <= |network|
      requires m < |network[i].measures|
      ensures TotalObservations(network[..i]) + m < |ImageErrorsUpTo(n)|
      ensures ImageErrorsUpTo(n)[TotalObservations(network[..i]) + m] == PixelError(i, m)
    {
      ImageErrorsLength(n - 1);
      if i < n - 1 {
        ImageErrorAt(n - 1, i, m);
      } else {
        assert network[..n - 1] == network[..i];
      }
    }

    /** image_errors: one entry per observation, point-major. */
    method ImageErrors() returns (errs: seq<real>)
      requires Valid() && WellIndexed(network, |cameras|)
      ensures errs == ImageErrorsUpTo(|network|)
      ensures |errs| == NumPixelObservations()
    {
      errs := [];
      for i := 0 to |network|
        invariant errs == ImageErrorsUpTo(i)
      {
        var point := network[i];
        for m := 0 to |point.measures|
          invariant errs == ImageErrorsUpTo(i) + PointErrors(i, m)
        {
          var cameraIdx := point.measures[m].imageId;
          var pixelError := Sub2(point.measures[m].position, Project(i, cameraIdx, a[cameraIdx], b[i]));
          errs := errs + [oracles.norm2(pixelError)];
        }
      }
      ImageErrorsLength(|network|);
      assert network[..|network|] == network;
    }

    /** How far camera j's position correction has moved from its initial value. */
    function CameraPositionError(j: nat): real
      reads this
      requires Valid() && j < |cameras|
    {
      oracles.norm3(Sub3(aInitial[j].position, a[j].position))
    }

    /** How far camera j's rotation angle has moved from its initial value, in degrees. */
    function CameraPoseError(j: nat): real
      reads this
      requires Valid() && j < |cameras|
    {
      Degrees(Abs(oracles.rotationAngle(aInitial[j].euler) - oracles.rotationAngle(a[j].euler)))
    }

    /** How far ground-control point i has moved from its loaded position. */
    function GcpError(i: nat): real
      reads this
      requires Valid() && i < |network|
    {
      oracles.norm3(Sub3(bInitial[i], b[i]))
    }

    /** camera_position_errors: one entry per camera, in camera order. */
    method CameraPositionErrors() returns (errs: seq<real>)
      requires Valid()
      ensures |errs| == NumCameras()
      ensures forall j :: 0 <= j < |errs| ==> errs[j] == CameraPositionError(j)
    {
      errs := [];
      for j := 0 to |a|
        invariant |errs| == j
        invariant forall k :: 0 <= k < j ==> errs[k] == CameraPositionError(k)
      {
        var positionInitial := aInitial[j].position;
        var positionNow := a[j].position;
        errs := errs + [oracles.norm3(Sub3(positionInitial, positionNow))];
      }
    }

    /** camera_pose_errors: one entry per camera, in camera order. */
    method CameraPoseErrors() returns (errs: seq<real>)
      requires Valid()
      ensures |errs| == NumCameras()
      ensures forall j :: 0 <= j < |errs| ==> errs[j] == CameraPoseError(j)
    {
      errs := [];
      for j := 0 to |a|
        invariant |errs| == j
        invariant forall k :: 0 <= k < j ==> errs[k] == CameraPoseError(k)
      {
        var angleInitial := oracles.rotationAngle(aInitial[j].euler);
        var angleNow := oracles.rotationAngle(a[j].euler);
        errs := errs + [Degrees(Abs(angleInitial - angleNow))];
      }
    }

    /** gcp_errors: one entry per ground-control point, in index order. */
    method GcpErrors() returns (errs: seq<real>)
      requires Valid()
      ensures |errs| == |GcpIndices(network)|
      ensures forall k :: 0 <= k < |errs| ==> errs[k] == GcpError(GcpIndices(network)[k])
    {
      errs := [];
      for i := 0 to |b|
        invariant |errs| == |GcpIndices(network[..i])|
        invariant forall k :: 0 <= k < |errs| ==> errs[k] == GcpError(GcpIndices(network[..i])[k])
      {
        assert network[..i + 1][..i] == network[..i];
        if network[i].kind == GroundControlPoint {
          errs := errs + [oracles.norm3(Sub3(bInitial[i], b[i]))];
        }
      }
      assert network[..|network|] == network;
    }

    /** While no camera has been adjusted, every camera position error is zero. */
    lemma UnadjustedPositionErrors(j: nat)
      requires Valid() && a == aInitial && j < |cameras|
      requires NormVanishesAtZero(oracles)
      ensures CameraPositionError(j) == 0.0
    {
      assert Sub3(aInitial[j].position, a[j].position) == Zero3;
    }

    /** While no camera has been adjusted, every camera pose error is zero. */
    lemma UnadjustedPoseErrors(j: nat)
      requires Valid() && a == aInitial && j < |cameras|
      ensures CameraPoseError(j) == 0.0
    {
    }

    /** adjusted_cameras: every base camera composed with its current correction. */
    method AdjustedCameras() returns (r: seq<AdjustedCamera<Camera>>)
      requires Valid()
      ensures |r| == NumCameras()
      ensures forall j :: 0 <= j < |r| ==> r[j] == AdjustedCamera(cameras[j], a[j])
    {
      r := [];
      for j := 0 to |cameras|
        invariant |r| == j
        invariant forall k :: 0 <= k < j ==> r[k] == AdjustedCamera(cameras[k], a[k])
      {
        r := r + [AdjustedCamera(cameras[j], a[j])];
      }
    }

    /** write_adjusted_cameras_append: six lines per camera, in camera order. */
    method WriteAdjustedCamerasAppend(file: ReportFile)
      requires Valid()
      modifies file
      ensures file.rows == old(file.rows) + CameraRows(a)
    {
      for j := 0 to |a|
        invariant file.rows == old(file.rows) + CameraRows(a[..j])
      {
        assert a[..j + 1][..j] == a[..j];
        file.Append(CameraBlock(j, a[j]));
      }
      assert a[..|a|] == a;
    }

    /** write_points_append: one line per point, in point order. */
    method WritePointsAppend(file: ReportFile)
      requires Valid()
      modifies file
      ensures file.rows == old(file.rows) + PointRows(b)
    {
      for i := 0 to |b|
        invariant file.rows == old(file.rows) + PointRows(b[..i])
      {
        assert PointRows(b[..i + 1]) == PointRows(b[..i]) + [Row(i, b[i])];
        file.Append([Row(i, b[i])]);
      }
      assert b[..|b|] == b;
    }
  }
}
