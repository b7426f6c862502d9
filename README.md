# Bundle adjustment test tool and stereo helpers, modelled in Dafny

This project models three pieces of the Ames Stereo Pipeline.

- **The bundle-adjustment test tool**:
  - the `BundleAdjustmentModel` class, with its current and initial parameter arrays, setters, error queries and iteration-report rows;
  - the `adjust_bundles` loop, driven by an abstract optimiser;
  - the choice of adjustment variant from its name;
  - the choice of control-network reader from the file extension;
  - `prefix_from_filename`;
  - the names of the per-camera `.adjust` files.
- **The search-range helpers of the stereo front end**:
  - culling ambiguous interest-point matches (`remove_duplicates`);
  - the cache-file names;
  - keeping the RANSAC inliers;
  - growing the inlier translations into an integer box expanded by 50%;
  - the fixed fallback box used when the fit throws.
- **The Python driver's utilities**:
  - escaping negative integers for the option parser and unescaping them;
  - the `BBox` class (`name_str`, `crop_str`, `expand`) and `intersect_boxes`;
  - the `key,val,...` parser of the settings printed by `stereo_parse`.

Modules:

- `Wrappers`: `Option` and `Result`.
- `Geometry`: vectors, camera parameters, and the geometric oracles.
- `FileNames`: `prefix_from_filename`, plus the boost::filesystem path operations the tools use.
- `BundleAdjust`: the model class and the report rows.
- `AdjustDriver`: `string_to_ba_type`, `load_control_network` dispatch, `adjust_bundles` and `write_adjusted_camera_models`.
- `SearchRange`: the helpers from `stereo.h`.
- `StereoUtils`: the helpers from `stereo_utils.py`.

Modelling choices:

- Camera projection, the Euclidean norms and the rotation angle of an Euler-angle quaternion are function-valued fields of `Geometry.Oracles`.
- The optimiser behind `adjust_bundles` is a sequence of `Step` values. Each step holds:
  - the parameter writes one `update()` call commits through the setters;
  - its return value;
  - the tolerances it reports;
  - the iteration count afterwards.

  A call beyond the end of the sequence returns false.
- The report files are `ReportFile` objects holding their rows.
- Written adjustment files are returned as `(name, correction)` values.
- `remove_duplicates` and the inlier filter replace the caller's vectors wholesale. They are modelled as methods that return the new sequences.
- The adjustment loop stops when any one of its three conditions holds (src/ba_test.cc:589-591), as the code is written.
- The sigmas are not checked for being positive, as in the code.
- `escape_vals` and `unescape_vals` rewrite the caller's list in place and return it. They are modelled on an `array<string>`, and the result is the same array.

## Model

| member | source | states |
|---|---|---|
| AdjustDriver.TypeOfLowered | src/ba_test.cc:118-122 | "sparse", "robust_ref" and "robust_sparse" select their variants, each if and only if; every other string, "ref" included, selects Ref |
| AdjustDriver.StringToBaType | src/ba_test.cc:117-124 | the argument is lowered in place, character by character, and the result is the variant of the lowered string |
| AdjustDriver.ControlNetworkReader | src/ba_test.cc:262-274 | ".net" selects the ISIS reader and ".cnet" the binary reader, each if and only if; any other extension is an IOErr carrying that extension |
| AdjustDriver.ReaderUnderDataDir | src/ba_test.cc:649-651 | looking the network up under the data directory selects the same reader as the bare file name |
| FileNames.RFindSpec | src/ba_test.cc:304-305 | rfind gives -1 exactly when the character is absent, and otherwise its last position |
| FileNames.PrefixFromFilename | src/ba_test.cc:302-308 | the result is a prefix of the name; it is the whole name when there is no '.', and otherwise ends just before the last '.' (the identical copy in src/asp/Tools/stereo.h:113-119 is the same member) |
| FileNames.FilenameSpec | src/ba_test.cc:262-266 | the filename is the separator-free tail of the path after its last '/' |
| FileNames.ExtensionSpec | src/ba_test.cc:265-270 | the extension is empty exactly when the filename has no '.' or is "." or ".."; otherwise it is a '.' followed by a word with no '.' and no '/' |
| FileNames.LastDotTail | src/ba_test.cc:262-266 | the tail of a '/'-free name from its last '.' is a '.' followed by a dot-free word |
| FileNames.ExtensionOfReplaced | src/ba_test.cc:636-637 | after replace_extension("adjust") the path is non-empty and its extension is ".adjust" |
| FileNames.FilenameOfJoin | src/ba_test.cc:637 | joining a non-empty name under a directory keeps its filename |
| FileNames.ExtensionOfJoin | src/ba_test.cc:649 | joining a non-empty name under a directory keeps its extension |
| FileNames.ExtensionOfJoinReplaced | src/ba_test.cc:636-637 | a path whose extension was replaced by a plain extension e keeps the extension "." + e after being joined under any directory |
| FileNames.RFindConcat | src/ba_test.cc:304 | rfind over a concatenation finds the right part's last occurrence first |
| FileNames.FilenameOfConcat | src/ba_test.cc:637 | prepending a directory leaves the filename alone when the last separator does not move |
| FileNames.FilenameOfLastPart | src/ba_test.cc:636 | appending a separator-free tail extends the filename by that tail |
| FileNames.PlainTailExtension | src/ba_test.cc:636 | a separator-free tail whose only '.' comes first is the extension of the whole path |
| FileNames.DotTail | src/asp/Tools/stereo.h:115 | the last '.' of a name ending in such a tail is the tail's first character |
| AdjustDriver.AdjustFileNameExtension | src/ba_test.cc:633-640 | every adjustment file name has the extension ".adjust" |
| AdjustDriver.AdjustFileNames | src/ba_test.cc:636-637 | one adjustment file name per camera file, the i-th being data_dir / camera_files[i] with its extension replaced by "adjust" |
| AdjustDriver.AdjustmentFiles | src/ba_test.cc:634-638 | the first n cameras give exactly n written files |
| AdjustDriver.AdjustmentFileAt | src/ba_test.cc:634-638 | file i of the written sequence pairs name i with camera i's correction |
| AdjustDriver.WriteAdjustedCameraModels | src/ba_test.cc:633-640 | the loop writes one file per camera, in camera order: exactly the sequence pairing each camera's adjustment file name with its current correction |
| AdjustDriver.WrittenFileAt | src/ba_test.cc:633-640 | file i is named data_dir / camera_files[i] with extension ".adjust" and records camera i's correction |
| BundleAdjust.BundleAdjustmentModel.constructor | src/ba_test.cc:346-378 | a and a_initial hold one zero correction per camera, while b and b_initial hold each point's loaded position; the stored count is the sum of the points' observation counts |
| BundleAdjust.BundleAdjustmentModel.NumPixelObservations | src/ba_test.cc:363-365 | the number of observations is summed point by point over the network |
| BundleAdjust.BundleAdjustmentModel.NumCameras | src/ba_test.cc:392 | one camera per camera model |
| BundleAdjust.BundleAdjustmentModel.NumPoints | src/ba_test.cc:393 | one point per control point |
| BundleAdjust.BundleAdjustmentModel.AParameters | src/ba_test.cc:383 | the current correction of camera j |
| BundleAdjust.BundleAdjustmentModel.BParameters | src/ba_test.cc:387 | the current position of point i |
| BundleAdjust.BundleAdjustmentModel.SetAParameters | src/ba_test.cc:385 | only slot j of a changes, to the new value; b, the initial arrays and the counts stay the same |
| BundleAdjust.BundleAdjustmentModel.SetBParameters | src/ba_test.cc:389 | only slot i of b changes, to the new value; a, the initial arrays and the counts stay the same |
| BundleAdjust.BundleAdjustmentModel.AInverseCovariance | src/ba_test.cc:406-418 | a 6x6 diagonal matrix: the inverse position sigma on the first three entries, the inverse pose sigma on the last three |
| BundleAdjust.BundleAdjustmentModel.BInverseCovariance | src/ba_test.cc:422-429 | a 3x3 diagonal matrix with the inverse ground-control sigma on the diagonal |
| BundleAdjust.BundleAdjustmentModel.PointErrors | src/ba_test.cc:477-482 | the errors of one point's first k observations, in observation order |
| BundleAdjust.BundleAdjustmentModel.ImageErrorsLength | src/ba_test.cc:474-483 | one image error per observation |
| BundleAdjust.BundleAdjustmentModel.ImageErrorAt | src/ba_test.cc:474-483 | observation m of point i sits after every observation of the points before i (point-major, observation-minor order) |
| BundleAdjust.BundleAdjustmentModel.ImageErrors | src/ba_test.cc:474-483 | the output is reset and gets exactly num_pixel_observations entries, in point-major order |
| BundleAdjust.BundleAdjustmentModel.CameraPositionErrors | src/ba_test.cc:485-492 | the output is reset and gets one entry per camera: the norm of initial minus current position correction |
| BundleAdjust.BundleAdjustmentModel.CameraPoseErrors | src/ba_test.cc:496-511 | the output is reset and gets one entry per camera: the rotation-angle change, in degrees |
| BundleAdjust.GcpIndices | src/ba_test.cc:516-517 | the indices of the ground-control points, increasing, and exactly those |
| BundleAdjust.BundleAdjustmentModel.GcpErrors | src/ba_test.cc:514-520 | the output is reset and gets one entry per ground-control point, in index order: the drift of that point from its loaded position |
| BundleAdjust.BundleAdjustmentModel.UnadjustedPositionErrors | src/ba_test.cc:485-492 | before any camera is adjusted, every camera position error is 0 |
| BundleAdjust.BundleAdjustmentModel.UnadjustedPoseErrors | src/ba_test.cc:496-511 | before any camera is adjusted, every camera pose error is 0 |
| BundleAdjust.BundleAdjustmentModel.Project | src/ba_test.cc:438-446 | the pixel of point b_i seen by base camera j composed with correction a_j, through the projection oracle; the point index i plays no part |
| BundleAdjust.BundleAdjustmentModel.AdjustedCameras | src/ba_test.cc:459-470 | one adjusted camera per camera: base model j composed with correction j |
| BundleAdjust.CameraRowsLength | src/ba_test.cc:527-543 | a camera append writes six lines per camera |
| BundleAdjust.CameraRowAt | src/ba_test.cc:535-543 | line 6j+k of a camera append is line k of camera j's C, A, H, V, O, R block |
| BundleAdjust.BundleAdjustmentModel.WriteAdjustedCamerasAppend | src/ba_test.cc:524-544 | the camera file gets the six-line blocks of every camera appended, in camera order |
| BundleAdjust.BundleAdjustmentModel.WritePointsAppend | src/ba_test.cc:548-552 | the point file gets one line per point appended, in point order |
| BundleAdjust.ReportFile.Clear | src/ba_test.cc:312-317 | clear_report_files truncates each report file to nothing (called at src/ba_test.cc:570-571 when iteration data is saved) |
| BundleAdjust.ReportFile.Append | src/ba_test.cc:525 | appending adds the lines at the end and keeps the rest |
| AdjustDriver.Commit | src/ba_test.cc:385-389 | the writes of one update() call, committed in order through the setters, give the parameters the writes define |
| AdjustDriver.ApplyAll | src/ba_test.cc:385-393 | committing the writes of one update() call (src/ba_test.cc:577) through set_A_parameters and set_B_parameters keeps num_cameras and num_points |
| AdjustDriver.HistoryLength | src/ba_test.cc:583-588 | each reporting round adds 6 lines per camera and 1 line per point |
| AdjustDriver.AdjustBundles | src/ba_test.cc:559-596 | the user's lambda is passed on only when requested; the loop ends when update() returns false, or after a report when the iteration count exceeds the maximum or either tolerance is below 1e-3 (any one suffices), and no update() call follows a round that meets that test; report files are cleared and then appended once per round only when iteration data is saved, and otherwise stay untouched; the parameters are those committed by the calls made |
| SearchRange.KeptBelowSpec | src/asp/Tools/stereo.h:94-107 | pair i survives exactly when no other pair j has the same (x, y) in the left list or the same (x, y) in the right list; survivors keep their order |
| SearchRange.RemoveDuplicates | src/asp/Tools/stereo.h:90-111 | both new lists are the input lists restricted to the surviving indices, in order, so the pairing is kept |
| SearchRange.Deduplicated | src/asp/Tools/stereo.h:103-110 | the two results have equal length, no longer than the input |
| SearchRange.KeptLength | src/asp/Tools/stereo.h:103-106 | no more pairs survive than there were |
| SearchRange.SurvivorsDistinct | src/asp/Tools/stereo.h:88-107 | the surviving left points are pairwise at distinct coordinates, and so are the surviving right points |
| SearchRange.DeduplicatedIdempotent | src/asp/Tools/stereo.h:88-111 | a second remove_duplicates changes nothing |
| SearchRange.Select | src/asp/Tools/stereo.h:103-106 | element k of the selection is the element at the k-th selected index; it serves both the surviving indices and RANSAC's inlier indices (src/asp/Tools/stereo.h:242-245) |
| SearchRange.CacheNames | src/asp/Tools/stereo.h:155-161 | each interest-point file is the image's prefix plus ".vwip"; the match file ends in ".match" |
| SearchRange.CacheNamesRoundTrip | src/asp/Tools/stereo.h:155-161 | the cache names have extensions ".vwip" and ".match"; cutting each at its last '.' gives back the prefix it was built from, and for the match file that is prefix(left) + "__" + prefix(right) |
| SearchRange.PrefixOfTagged | src/asp/Tools/stereo.h:113-119 | cutting p + ".ext" at its last '.' gives p |
| SearchRange.KeepInliers | src/asp/Tools/stereo.h:240-248 | both lists end with one entry per inlier index, in index order: entry k is the matched pair at indices[k] |
| SearchRange.BoxFromXYWH | src/asp/Tools/stereo.h:237 | the box with corner (x, y), width and height |
| SearchRange.FallbackBoxCorners | src/asp/Tools/stereo.h:237 | the fallback box has min (-10,-10) and max (10,10): width and height 20 |
| SearchRange.Grow | src/asp/Tools/stereo.h:264 | growing gives the smallest box containing the box and the point |
| SearchRange.Accumulated | src/asp/Tools/stereo.h:255-265 | there is a box exactly when there is a translation, and it is non-empty |
| SearchRange.AccumulatedSpec | src/asp/Tools/stereo.h:256-265 | the accumulated box contains every translation and the first one's [t, t+(1,1)] box, and is the smallest box that does |
| SearchRange.AccumulateTranslations | src/asp/Tools/stereo.h:255-265 | the loop builds the accumulated box of the matches' translations |
| SearchRange.ExpandSpec | src/asp/Tools/stereo.h:266-268 | expansion with offset = size/4 keeps the centre, contains the original, and yields size w' with 3w-3 <= 2w' <= 3w |
| SearchRange.Translations | src/asp/Tools/stereo.h:257-258 | one translation per match, computed from the i-th left and right points |
| SearchRange.FinalMatches | src/asp/Tools/stereo.h:164-252 | the cached matches, or the fresh matches deduplicated and then restricted to the inliers; none when RANSAC throws |
| SearchRange.ApproximateSearchRange | src/asp/Tools/stereo.h:145-272 | exactly the fallback box when the RANSAC fit throws; otherwise the 50%-expanded accumulated box of the final matches' translations |
| SearchRange.SearchWindowContains | src/asp/Tools/stereo.h:255-271 | the returned search window contains every translation it was computed from |
| StereoUtils.Split | src/asp/Tools/stereo_utils.py:70-72 | str.split gives at least one piece, and no piece contains the separator |
| StereoUtils.JoinSplit | src/asp/Tools/stereo_utils.py:72 | joining the pieces of a split gives back the string |
| StereoUtils.SplitJoin | src/asp/Tools/stereo_utils.py:89 | splitting a join of separator-free pieces gives back the pieces |
| StereoUtils.NegIntGroup | src/asp/Tools/stereo_utils.py:34-36 | the group (-\d+) is negative-integer text and a prefix of the match |
| StereoUtils.EscapeAll | src/asp/Tools/stereo_utils.py:26-31 | the length is kept; each element matching ^-\d+$ gets "esc_rand_str" prepended, every other element is unchanged |
| StereoUtils.UnescapeAll | src/asp/Tools/stereo_utils.py:32-37 | the length is kept; each element of the form "esc_rand_str" + -\d+ becomes its -\d+ group, every other element is unchanged |
| StereoUtils.EscapeVals | src/asp/Tools/stereo_utils.py:26-31 | the list is rewritten in place to its escaped form and the same list is returned |
| StereoUtils.UnescapeVals | src/asp/Tools/stereo_utils.py:32-37 | the list is rewritten in place to its unescaped form and the same list is returned |
| StereoUtils.RoundTrip | src/asp/Tools/stereo_utils.py:25-37 | unescaping an escaped element gives it back if and only if it is not already in escaped form and, when it matches ^-\d+$, it has no final newline |
| StereoUtils.RoundTripAll | src/asp/Tools/stereo_utils.py:25-37 | unescape_vals(escape_vals(vals)) == vals when every element is safe in that sense |
| StereoUtils.EscapeIdempotent | src/asp/Tools/stereo_utils.py:26-31 | escaping twice is escaping once |
| StereoUtils.ParseNatToString | src/asp/Tools/stereo_utils.py:89 | the decimal text of a natural number parses back to it |
| StereoUtils.ParseIntToString | src/asp/Tools/stereo_utils.py:92-93 | str() of an integer is integer text without a leading zero or "-0", parses back to it, and matches ^-\d+$ exactly when it is negative |
| StereoUtils.NatToStringParse | src/asp/Tools/stereo_utils.py:92-93 | digits without a leading zero are exactly the decimal text of the number they denote |
| StereoUtils.IntTextParse | src/asp/Tools/stereo_utils.py:92-93 | every integer text is what str() writes for the integer it denotes, so str() and int() are inverse on it |
| StereoUtils.BBox.constructor | src/asp/Tools/stereo_utils.py:82-86 | the box holds the four given numbers |
| StereoUtils.BBox.NameStr | src/asp/Tools/stereo_utils.py:88-89 | "%i_%i_%i_%i" decodes back to the box; its four '_'-separated parts are integer text with no leading zero, and are the numbers crop_str lists |
| StereoUtils.NameDecodes | src/asp/Tools/stereo_utils.py:88-89 | the name splits into four decimal numbers that parse back to x, y, width and height |
| StereoUtils.NameParts | src/asp/Tools/stereo_utils.py:89 | each part of the name is integer text (no leading zero, no "-0") without '_' |
| StereoUtils.BBox.CropStr | src/asp/Tools/stereo_utils.py:91-93 | the --trans-crop-win option followed by the decimal text of x, y, width and height, each as str() writes it (no leading zero, no "-0") and parsing back to the field |
| StereoUtils.BBox.Expand | src/asp/Tools/stereo_utils.py:95-104 | is a KeyError with no change when the settings lack "trans_left_image"; otherwise the box becomes its expanded value |
| StereoUtils.Expanded | src/asp/Tools/stereo_utils.py:97-104 | x and y are lowered by px and then clamped at 0; width and height grow by 2*px |
| StereoUtils.ExpandContains | src/asp/Tools/stereo_utils.py:95-104 | when px >= 0 and the corner is non-negative, the expanded box contains every point of the original |
| StereoUtils.IntersectBoxes | src/asp/Tools/stereo_utils.py:110-120 | the width and height of the intersection are never negative |
| StereoUtils.IntersectPoints | src/asp/Tools/stereo_utils.py:110-120 | a point lies in the intersection exactly when it lies in both boxes |
| StereoUtils.IntersectCommutes | src/asp/Tools/stereo_utils.py:110-120 | intersect_boxes is commutative |
| StereoUtils.IntersectSelf | src/asp/Tools/stereo_utils.py:110-120 | a box of non-negative size intersected with itself is the same box |
| StereoUtils.SettingsSpec | src/asp/Tools/stereo_utils.py:69-73 | a key is defined exactly when some line with a ',' has it as first field, and its value is the remaining fields of the last such line |
| StereoUtils.ParseSettings | src/asp/Tools/stereo_utils.py:69-75 | the parsed settings are those defined by the lines of stdout |

## Left out

- Camera projection (`operator()` with the Euler-to-quaternion conversion and `AdjustedCameraModel::point_to_pixel`), `norm_2` and the quaternion's axis-angle are not modelled: they are the opaque functions in `Geometry.Oracles`.
- Floating point is modelled as exact `real`. `abs_tol`, `rel_tol` and the sigmas have no NaN or rounding.
- The optimisers (`BundleAdjustmentRef`, `Sparse`, `RobustRef`, `RobustSparse`) and `set_lambda` are not modelled. The variant picked by `string_to_ba_type` does not change the modelled loop: the optimiser is the `Step` sequence given to `AdjustBundles`, and the lambda is returned and not interpreted.
- The reporter (`BundleAdjustReport`, `loop_tie_in`, `end_tie_in`) only logs. It is not modelled.
- Nothing is read or written on disk. Not modelled:
  - reading the control network (the ISIS and binary readers);
  - `load_camera_models`, `write_camera_params` and `write_world_points`;
  - `write_adjustments` and the pose quaternion it writes;
  - the text formatting of report lines, whose rows are `(index, three numbers)` values;
  - the match and interest-point files, and interest-point detection, description and matching.
- `ApproximateSearchRange`: the existence tests on the cache files pick `CachedMatches` or `FreshMatches`, and the caching writes do not matter to the result.
- The RANSAC fit is a parameter of `ApproximateSearchRange` that either throws or names in-range inlier indices.
- The translation of a match (the float `i_scale` scaling and the conversion to `Vector2i`) is the `Translate` parameter.
- `ApproximateSearchRange` returns no box when there are no matches at all. The source then expands a default-constructed `BBox2i`, whose value comes from a header that is not part of this model.
- Containment for `BBox2i` is taken with both corners included, matching how `grow` extends the corners.
- `BundleAdjust.BundleAdjustmentModel.AInverseCovariance`: the sigmas must be non-zero, because the source divides by them without a check. Their sign is not checked, as in the source.
- `BundleAdjust.BundleAdjustmentModel.BInverseCovariance`: same as above, for the ground-control sigma.
- `NumPixelObservations`: the 32-bit `int` counter and the `unsigned` return are not modelled for overflow. The count is unbounded, which matters only beyond 2^31 observations.
- Integer boxes, `TruncDiv` and the Python integers are unbounded.
- `FileNames.JoinPath` and `FileNames.Extension` follow boost::filesystem version 3 on POSIX paths. Root names and the other special filenames are not modelled.
- The CAHVOR O and R vectors in the camera report are the default-constructed zero vectors.
- `StereoUtils.BBox.Expand`: the right and bottom clamp against `image_size` is not modelled. As written, it compares an integer with an entry of a list of strings, and under Python 2 an int always compares below a str. So the tests at src/asp/Tools/stereo_utils.py:105 and 107 are always false, and lines 106 and 108 never run. The model therefore loses nothing on a `trans_left_image` line with at least two values. It does not model the IndexError on a line with only one value.
- `StereoUtils.BBox.Expand`: the `settings` lookup is modelled only for the presence of the key.
- Regular expressions: `\d` is taken as the ASCII digits of a Python 2 byte string.
- `PassThroughOptionParser`, the `stereo_parse` subprocess call of `get_settings` and its error exits, `which`, `run`, `die` and `run_sparse_disp` are process and option handling. They are not modelled.
- `rpc_mapproject.cc`, the stereo stage enum and `current_posix_time_string` are not part of this model.
