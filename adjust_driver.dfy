/**
 * The bundle-adjustment tool around the model: choosing the adjustment
 * variant from its name, choosing the control-network reader from the file
 * extension, the iterate-until-stopped loop of `adjust_bundles` driven by an
 * abstract optimiser, and the names of the per-camera adjustment files.
 */
module AdjustDriver {
  import opened Wrappers
  import opened Geometry
  import opened FileNames
  import opened BundleAdjust

  // ---------------------------------------------------------------------
  // string_to_ba_type

  datatype BundleAdjustmentType = Ref | Sparse | RobustRef | RobustSparse

  /** ::tolower in the "C" locale: only 'A'..'Z' change. */
  function ToLowerChar(c: char): char
  {
    if 'A' <= c <= 'Z' then (c as int - 'A' as int + 'a' as int) as char else c
  }

  function ToLower(s: string): string
  {
    seq(|s|, i requires 0 <= i < |s| => ToLowerChar(s[i]))
  }

  /**
   * The variant named by an already lowered string: three names are
   * recognised and every other string, "ref" included, means Ref.
   */
  function TypeOfLowered(s: string): (t: BundleAdjustmentType)
    ensures t == Sparse <==> s == "sparse"
    ensures t == RobustRef <==> s == "robust_ref"
    ensures t == RobustSparse <==> s == "robust_sparse"
    ensures t == Ref <==> s != "sparse" && s != "robust_ref" && s != "robust_sparse"
  {
    if s == "sparse" then Sparse
    else if s == "robust_ref" then RobustRef
    else if s == "robust_sparse" then RobustSparse
    else Ref
  }

  /** string_to_ba_type: lowers its argument in place, then maps it. */
  method StringToBaType(s: array<char>) returns (t: BundleAdjustmentType)
    modifies s
    ensures s[..] == ToLower(old(s[..]))
    ensures t == TypeOfLowered(s[..])
  {
    for i := 0 to s.Length
      invariant forall k :: 0 <= k < i ==> s[k] == ToLowerChar(old(s[k]))
      invariant forall k :: i <= k < s.Length ==> s[k] == old(s[k])
    {
      s[i] := ToLowerChar(s[i]);
    }
    var lowered := s[..];
    t := Ref;
    if lowered == "sparse" {
      t := Sparse;
    } else if lowered == "robust_ref" {
      t := RobustRef;
    } else if lowered == "robust_sparse" {
      t := RobustSparse;
    }
  }

  // ---------------------------------------------------------------------
  // load_control_network

  datatype NetworkReader = IsisPvlReader | BinaryReader
  datatype IOErr = UnknownExtension(extension: string)

  /** The reader load_control_network picks, from the file's extension alone. */
  function ControlNetworkReader(file: string): (r: Result<NetworkReader, IOErr>)
    ensures r == Ok(IsisPvlReader) <==> Extension(file) == ".net"
    ensures r == Ok(BinaryReader) <==> Extension(file) == ".cnet"
    ensures r.Err? <==> Extension(file) != ".net" && Extension(file) != ".cnet"
    ensures r.Err? ==> r.error == UnknownExtension(Extension(file))
  {
    var ext := Extension(file);
    if ext == ".net" then Ok(IsisPvlReader)
    else if ext == ".cnet" then Ok(BinaryReader)
    else Err(UnknownExtension(ext))
  }

  /**
   * The tool looks the network up under its data directory; that never
   * changes which reader is chosen.
   */
  lemma ReaderUnderDataDir(dataDir: string, cnetFile: string)
    requires cnetFile != ""
    ensures ControlNetworkReader(JoinPath(dataDir, cnetFile)) == ControlNetworkReader(cnetFile)
  {
    ExtensionOfJoin(dataDir, cnetFile);
  }

  // ---------------------------------------------------------------------
  // adjust_bundles

  /** The thresholds on the improvements reported by update(): 1e-3. */
  const Tolerance: real := 0.001

  /** A parameter write the optimiser commits through the model's setters. */
  datatype Update = SetA(j: nat, v: CameraParams) | SetB(i: nat, p: Vec3)

  /**
   * One call of the optimiser's update(): the writes it commits, whether it
   * returns true, the absolute and relative tolerances it reports and its
   * iteration count afterwards.
   */
  datatype Step = Step(updates: seq<Update>, proceed: bool, absTol: real, relTol: real, iterations: int)

  /** The options adjust_bundles reads. */
  datatype Config = Config(useUserLambda: bool, lambda: real, saveIterationData: bool, maxIterations: int)

  datatype Params = Params(a: seq<CameraParams>, b: seq<Vec3>)

  predicate Fits(u: Update, numCameras: nat, numPoints: nat)
  {
    match u
    case SetA(j, _) => j < numCameras
    case SetB(i, _) => i < numPoints
  }

  predicate AllFit(us: seq<Update>, numCameras: nat, numPoints: nat)
  {
    forall k :: 0 <= k < |us| ==> Fits(us[k], numCameras, numPoints)
  }

  predicate StepsFit(steps: seq<Step>, numCameras: nat, numPoints: nat)
  {
    forall t :: 0 <= t < |steps| ==> AllFit(steps[t].updates, numCameras, numPoints)
  }

  function Apply(p: Params, u: Update): (r: Params)
    requires Fits(u, |p.a|, |p.b|)
    ensures |r.a| == |p.a| && |r.b| == |p.b|
  {
    match u
    case SetA(j, v) => p.(a := p.a[j := v])
    case SetB(i, v) => p.(b := p.b[i := v])
  }

  /** The parameters after committing the writes `us` in order. */
  function ApplyAll(p: Params, us: seq<Update>): (r: Params)
    requires AllFit(us, |p.a|, |p.b|)
    ensures |r.a| == |p.a| && |r.b| == |p.b|
  {
    if |us| == 0 then p
    else
      var q := ApplyAll(p, us[..|us| - 1]);
      Apply(q, us[|us| - 1])
  }

  /** The parameters after the first n calls of update(). */
  function ParamsAfter(p0: Params, steps: seq<Step>, n: nat): (r: Params)
    requires n <= |steps| && StepsFit(steps, |p0.a|, |p0.b|)
    ensures |r.a| == |p0.a| && |r.b| == |p0.b|
  {
    if n == 0 then p0 else ApplyAll(ParamsAfter(p0, steps, n - 1), steps[n - 1].updates)
  }

  /** The break test after a report: any one of the three conditions suffices. */
  predicate StopsAfter(s: Step, maxIterations: int)
  {
    s.iterations > maxIterations || s.absTol < Tolerance || s.relTol < Tolerance
  }

  /** The camera report after r reporting rounds, each written after call r of update(). */
  function CameraHistory(p0: Params, steps: seq<Step>, r: nat): seq<Row>
    requires r <= |steps| && StepsFit(steps, |p0.a|, |p0.b|)
  {
    if r == 0 then [] else CameraHistory(p0, steps, r - 1) + CameraRows(ParamsAfter(p0, steps, r).a)
  }

  /** The point report after r reporting rounds. */
  function PointHistory(p0: Params, steps: seq<Step>, r: nat): seq<Row>
    requires r <= |steps| && StepsFit(steps, |p0.a|, |p0.b|)
  {
    if r == 0 then [] else PointHistory(p0, steps, r - 1) + PointRows(ParamsAfter(p0, steps, r).b)
  }

  /** Every round adds six camera lines per camera and one point line per point. */
  lemma {:induction false} HistoryLength(p0: Params, steps: seq<Step>, r: nat)
    requires r <= |steps| && StepsFit(steps, |p0.a|, |p0.b|)
    ensures |CameraHistory(p0, steps, r)| == 6 * |p0.a| * r
    ensures |PointHistory(p0, steps, r)| == |p0.b| * r
  {
    if r > 0 {
      HistoryLength(p0, steps, r - 1);
      CameraRowsLength(ParamsAfter(p0, steps, r).a);
      var block := 6 * |p0.a|;
      assert block * r == block * (r - 1) + block;
      assert |p0.b| * r == |p0.b| * (r - 1) + |p0.b|;
    }
  }

  /** Commit the writes of one update() call through the model's setters. */
  method Commit<C>(model: BundleAdjustmentModel<C>, us: seq<Update>)
    requires model.Valid() && AllFit(us, |model.a|, |model.b|)
    modifies model`a, model`b
    ensures model.Valid()
    ensures Params(model.a, model.b) == ApplyAll(old(Params(model.a, model.b)), us)
  {
    ghost var p0 := Params(model.a, model.b);
    for k := 0 to |us|
      invariant model.Valid()
      invariant |model.a| == |p0.a| && |model.b| == |p0.b|
      invariant Params(model.a, model.b) == ApplyAll(p0, us[..k])
    {
      assert us[..k + 1][..k] == us[..k];
      match us[k]
      case SetA(j, v) => model.SetAParameters(j, v);
      case SetB(i, v) => model.SetBParameters(i, v);
    }
    assert us[..|us|] == us;
  }

  /**
   * adjust_bundles: hand the user's lambda to the optimiser if one was
   * given, clear the report files if iteration data is saved, then call
   * update() until it returns false; after each true return, append the
   * reports (if saving) and break once the iteration count exceeds the
   * maximum or either tolerance falls below 1e-3. Calls past the end of
   * `steps` return false. `rounds` counts loop bodies, `calls` the
   * update() calls taken from `steps`.
   */
  method AdjustBundles<C>(model: BundleAdjustmentModel<C>, config: Config, steps: seq<Step>,
                          camFile: ReportFile, pointFile: ReportFile)
    returns (lambda: Option<real>, rounds: nat, calls: nat)
    requires model.Valid() && camFile != pointFile
    requires StepsFit(steps, |model.a|, |model.b|)
    modifies model`a, model`b, camFile, pointFile
    ensures model.Valid()
    ensures lambda == if config.useUserLambda then Some(config.lambda) else None
    ensures rounds <= calls <= |steps| && calls <= rounds + 1
    ensures forall t :: 0 <= t < rounds ==> steps[t].proceed
    ensures forall t :: 0 <= t < calls - 1 ==> !StopsAfter(steps[t], config.maxIterations)
    ensures calls == rounds + 1 ==> !steps[rounds].proceed
    ensures calls == rounds ==>
      rounds == |steps| || (rounds > 0 && StopsAfter(steps[rounds - 1], config.maxIterations))
    ensures Params(model.a, model.b) == ParamsAfter(old(Params(model.a, model.b)), steps, calls)
    ensures config.saveIterationData ==>
      && camFile.rows == CameraHistory(old(Params(model.a, model.b)), steps, rounds)
      && pointFile.rows == PointHistory(old(Params(model.a, model.b)), steps, rounds)
    ensures !config.saveIterationData ==>
      camFile.rows == old(camFile.rows) && pointFile.rows == old(pointFile.rows)
  {
    ghost var p0 := Params(model.a, model.b);
    lambda := if config.useUserLambda then Some(config.lambda) else None;
    if config.saveIterationData {
      camFile.Clear();
      pointFile.Clear();
    }
    var absTol, relTol := 1e10, 1e10;
    rounds, calls := 0, 0;
    while calls < |steps|
      invariant model.Valid()
      invariant |model.a| == |p0.a| && |model.b| == |p0.b|
      invariant rounds == calls <= |steps|
      invariant forall t :: 0 <= t < calls ==> steps[t].proceed && !StopsAfter(steps[t], config.maxIterations)
      invariant Params(model.a, model.b) == ParamsAfter(p0, steps, calls)
      invariant config.saveIterationData ==>
        camFile.rows == CameraHistory(p0, steps, rounds) && pointFile.rows == PointHistory(p0, steps, rounds)
      invariant !config.saveIterationData ==>
        camFile.rows == old(camFile.rows) && pointFile.rows == old(pointFile.rows)
      decreases |steps| - calls
    {
      var step := steps[calls];
      Commit(model, step.updates);
      assert Params(model.a, model.b) == ParamsAfter(p0, steps, calls + 1);
      calls := calls + 1;
      absTol, relTol := step.absTol, step.relTol;
      if !step.proceed {
        break;
      }
      if config.saveIterationData {
        model.WriteAdjustedCamerasAppend(camFile);
        model.WritePointsAppend(pointFile);
        assert camFile.rows == CameraHistory(p0, steps, rounds + 1);
        assert pointFile.rows == PointHistory(p0, steps, rounds + 1);
      }
      rounds := rounds + 1;
      if step.iterations > config.maxIterations || absTol < Tolerance || relTol < Tolerance {
        break;
      }
    }
  }

  // ---------------------------------------------------------------------
  // write_adjusted_camera_models

  /** The extension given to every adjustment file. */
  const AdjustExtension: string := "adjust"

  /** data_dir / camera_file.replace_extension("adjust") */
  function AdjustFileName(dataDir: string, cameraFile: string): string
  {
    JoinPath(dataDir, ReplaceExtension(cameraFile, AdjustExtension))
  }

  /** Every adjustment file carries the extension ".adjust". */
  lemma AdjustFileNameExtension(dataDir: string, cameraFile: string)
    ensures Extension(AdjustFileName(dataDir, cameraFile)) == "." + AdjustExtension
  {
    assert AdjustExtension[0] != '.';
    ExtensionOfJoinReplaced(dataDir, cameraFile, AdjustExtension);
  }

  /** One adjustment file: its name and the correction it records. */
  datatype AdjustmentFile = AdjustmentFile(name: string, correction: CameraParams)

  /** The adjustment file name of every camera file. */
  function AdjustFileNames(dataDir: string, cameraFiles: seq<string>): (r: seq<string>)
    ensures |r| == |cameraFiles|
    ensures forall i :: 0 <= i < |cameraFiles| ==> r[i] == AdjustFileName(dataDir, cameraFiles[i])
  {
    seq(|cameraFiles|, i requires 0 <= i < |cameraFiles| => AdjustFileName(dataDir, cameraFiles[i]))
  }

  /** The first n files written, file i under names[i] holding correction i. */
  function AdjustmentFiles(names: seq<string>, a: seq<CameraParams>, n: nat): (r: seq<AdjustmentFile>)
    requires n <= |a| <= |names|
    ensures |r| == n
  {
    if n == 0 then [] else AdjustmentFiles(names, a, n - 1) + [AdjustmentFile(names[n - 1], a[n - 1])]
  }

  lemma {:induction false} AdjustmentFileAt(names: seq<string>, a: seq<CameraParams>, n: nat, i: nat)
    requires n <= |a| <= |names| && i < n
    ensures AdjustmentFiles(names, a, n)[i] == AdjustmentFile(names[i], a[i])
  {
    if i < n - 1 {
      AdjustmentFileAt(names, a, n - 1, i);
    }
  }

  /** write_adjusted_camera_models: one file per camera, for camera i named after camera file i. */
  method WriteAdjustedCameraModels<C>(model: BundleAdjustmentModel<C>, cameraFiles: seq<string>, dataDir: string)
    returns (written: seq<AdjustmentFile>)
    requires model.Valid() && model.NumCameras() <= |cameraFiles|
    ensures written == AdjustmentFiles(AdjustFileNames(dataDir, cameraFiles), model.a, model.NumCameras())
  {
    ghost var names := AdjustFileNames(dataDir, cameraFiles);
    written := [];
    for i := 0 to |model.a|
      invariant written == AdjustmentFiles(names, model.a, i)
    {
      var file := AdjustFileName(dataDir, cameraFiles[i]);
      assert file == names[i];
      written := written + [AdjustmentFile(file, model.a[i])];
    }
  }

  /** File i is named data_dir / camera_files[i] with extension "adjust" and holds correction i. */
  lemma WrittenFileAt(dataDir: string, cameraFiles: seq<string>, a: seq<CameraParams>, i: nat)
    requires i < |a| <= |cameraFiles|
    ensures var f := AdjustmentFiles(AdjustFileNames(dataDir, cameraFiles), a, |a|)[i];
      f.name == AdjustFileName(dataDir, cameraFiles[i]) && f.correction == a[i]
      && Extension(f.name) == "." + AdjustExtension
  {
    AdjustmentFileAt(AdjustFileNames(dataDir, cameraFiles), a, |a|, i);
    AdjustFileNameExtension(dataDir, cameraFiles[i]);
  }
}
