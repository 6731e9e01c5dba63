# Hand-sign data collection pipeline, modelled in Dafny

The repository collects a hand-sign video dataset in three stages that hand over through the file system:

- **Capture tool** (`hand_sign_data_collection.py`). A button grid has one button per label in a 62-label alphabet. Pressing a button schedules a recording of its label three seconds later, and is meant to disable that button until the recording ends; as written, every command disables and later re-enables the last button created, '9', instead (see Findings). The recording opens the two cameras if they are not open yet. It refuses when either label directory already holds 50 `.mov` clips. Otherwise it writes one clip per camera, `<label>_<timestamp>.mov`, from a loop that reads both cameras in step. Every exit re-enables the button the command disabled.
- **Indexer** (`create_dataframe.py`). It walks one camera's clip tree and emits one manifest row per `.mov` file: `Class` is the name of the file's directory and `Video_Path` is the joined path. It writes `data_camera-<choice>.csv`.
- **Keypoint extractor** (`hand-sign-data-collection/generate_npy.py`). It reads `data_<front|back>.csv`. For each clip it computes the stride `max(frame_count // 30, 1)` and reads the frames at `n * stride` until 30 are saved or a read fails. For each frame it saves the detected hands' 21 landmarks × 3 coordinates, flattened to one 63-entry row per hand, as `keypoints_NN.npy`.

The decoder, the cameras, the hand detector, the clock and the file system are inputs to the model:

- A clip is a `Video`: whether it opened, the frame count it reports, and the frames a seek-and-read can return.
- The detector is a function from a sample number and a frame to the detected hands.
- A recording session is a sequence of `Iteration`s. Each holds the elapsed time, the two read results and the key code of one loop pass.
- A label directory is the set of `.mov` names it holds.
- An `os.walk` listing is the sequence of `(dirpath, dirnames, filenames)` entries it yields.

Modules: `Paths` (the `os.path`/`str` calls on '/'-separated paths), `Decimal` (`str(n)`, `:02d`), `Indexer`, `KeypointExtractor`, `Capture`, `Pipeline` (how the stages meet), `Wrappers` (`Option`).

The extractor is meant to read the indexer's manifest, but create_dataframe.py:48 writes `data_camera-<n>.csv` and hand-sign-data-collection/generate_npy.py:90 reads `data_<front|back>.csv`. The model follows the code, and `Pipeline.ManifestNamesNeverMeet` proves the names never coincide.

## Model

| member | source | states |
|---|---|---|
| `Paths.LastIndexOf` | create_dataframe.py:22 | `rfind`: the result is -1 or an index holding the character, and no later index holds it |
| `Paths.Basename` | create_dataframe.py:22 | `basename` holds no '/' and is a suffix of the path |
| `Paths.EndsWithMeaning` | create_dataframe.py:20 | `s.endswith(suffix)` holds exactly when `s` is some string followed by `suffix` |
| `Paths.JoinParts` | create_dataframe.py:23 | `join(a, b)` ends with `b`; an absolute `b` is the whole result; otherwise the result starts with `a`, a non-empty `a` is followed by a '/' before `b`, and at most that one '/' is added |
| `Paths.SplitExtRoot` | hand-sign-data-collection/generate_npy.py:48 | `splitext(p)[0]` is a prefix of `p` |
| `Paths.BasenameOfJoin` | create_dataframe.py:22-23 | for a file name without '/', `basename(join(d, f)) == f` for every `d` |
| `Paths.JoinEndsWith` | create_dataframe.py:23 | `join(d, f)` keeps every suffix of `f`, so a `.mov` name gives a `.mov` path |
| `Paths.SplitExtRootOfStem` | hand-sign-data-collection/generate_npy.py:48 | `splitext` of `stem + "." + e` gives back `stem` for every stem without '/' that holds a character other than '.', inner dots included, when `e` holds no '.' or '/' |
| `Paths.DottedStemExample` | hand-sign-data-collection/generate_npy.py:48 | `a.b.mov` gives `a.b`: only the last extension is removed |
| `KeypointExtractor.SavePathOfClip` | hand-sign-data-collection/generate_npy.py:48-49 | a clip `<dir>/<stem>.mov` has its keypoints saved in `<save_dir>/<stem>` when the stem holds no '.' or '/' |
| `KeypointExtractor.SavePathUnderSaveDir` | hand-sign-data-collection/generate_npy.py:48-49 | every clip's output directory starts with `save_dir` and ends with the clip's file name without its extension |
| `Decimal.DecimalDigits` | hand-sign-data-collection/generate_npy.py:70 | `str(n)` is all digits, one of them exactly when n < 10, at most two below 100, and it starts with '0' only for n = 0 (no leading zeros) |
| `Decimal.ZeroPad2` | hand-sign-data-collection/generate_npy.py:70 | `:02d` text is all digits, at least two of them, exactly two below 100 |
| `Decimal.ParseDecimalDigits` | hand-sign-data-collection/generate_npy.py:70 | reading `str(n)` back gives `n` |
| `Decimal.ParseLeadingZero` | hand-sign-data-collection/generate_npy.py:70 | a leading '0' does not change the value read |
| `Decimal.ParseZeroPad2` | hand-sign-data-collection/generate_npy.py:70 | reading the `:02d` text back gives `n`, so the padding is injective |
| `Indexer.CollectVideoPaths` | create_dataframe.py:5-28 | the nested loops return exactly `WalkRows(walk)`; the result depends on the walk alone, so an unchanged tree gives the same manifest on every run |
| `Indexer.WalkRowsCount` | create_dataframe.py:18-26 | the manifest has exactly as many rows as the walk lists `.mov` names (case-sensitive suffix test) |
| `Indexer.DirRowsCount` | create_dataframe.py:19-26 | one directory contributes exactly one row per `.mov` name |
| `Indexer.WalkRowsMembership` | create_dataframe.py:18-26 | a row is in the manifest iff some walked directory holds a `.mov` name the row describes (Class = basename of the dirpath, Video_Path = join of both) |
| `Indexer.DirRowsMembership` | create_dataframe.py:19-26 | the same, both directions, for one directory |
| `Indexer.WalkRowsAppend` | create_dataframe.py:18-26 | rows follow walk order: the rows of `a + b` are those of `a` followed by those of `b` |
| `Indexer.DirRowsAppend` | create_dataframe.py:19-26 | within a directory, rows follow file-name order |
| `Indexer.NoVideosNoRows` | create_dataframe.py:15-28 | a walk without `.mov` names gives the empty list |
| `Indexer.RowMeaning` | create_dataframe.py:22-23 | a row's Class is its directory's basename, and its Video_Path's last component is the file name and ends in `.mov` |
| `Indexer.CameraRoot` | create_dataframe.py:35-41 | '1' maps to `hand_sign_data/front`, '2' to `hand_sign_data/back`, and nothing else is accepted |
| `Indexer.ManifestName` | create_dataframe.py:48 | `data_camera-<choice>.csv` ends in `.csv` and gives the choice back between its fixed prefix and suffix |
| `Indexer.RunIndexer` | create_dataframe.py:30-49 | an invalid choice returns before walking or writing; otherwise `data_camera-<choice>.csv` gets the rows of that camera root's walk |
| `KeypointExtractor.Flatten` | hand-sign-data-collection/generate_npy.py:26 | a hand's row has 3 entries per landmark, and entry `3*j + c` is coordinate c (x, y, z) of landmark j |
| `KeypointExtractor.Keypoints` | hand-sign-data-collection/generate_npy.py:23-28 | shape `(hands, 63)`: one 63-entry row per hand in detection order, entries as above; no hand gives the 0 × 63 array |
| `KeypointExtractor.ExtractHandKeypoints` | hand-sign-data-collection/generate_npy.py:12-28 | the append loop builds exactly that array |
| `KeypointExtractor.FrameSkipCount` | hand-sign-data-collection/generate_npy.py:44-45 | the stride is at least 1 for every count (negative included); it is 1 below 60 frames; from 30 frames on it is the floor of count / 30 |
| `KeypointExtractor.SamplesFrom` | hand-sign-data-collection/generate_npy.py:53-60 | the loop's stopping rule: every sample before the stop was readable, and a stop before 30 is at a sample that cannot be read |
| `KeypointExtractor.SamplesTaken` | hand-sign-data-collection/generate_npy.py:53-60 | at most 30 files per clip |
| `KeypointExtractor.ProcessVideo` | hand-sign-data-collection/generate_npy.py:30-77 | output dir = `join(save_dir, basename without extension)`; at most 30 files, numbered 1, 2, … with no gaps; file n+1 holds the keypoints of the frame read at `n * stride`; it stops at the first failed read |
| `KeypointExtractor.SamplesInsideLongClip` | hand-sign-data-collection/generate_npy.py:44-56 | from 30 frames on, every seek target `i * stride` for i < 30 is below the frame count |
| `KeypointExtractor.SamplesTakenExact` | hand-sign-data-collection/generate_npy.py:43-60 | when the decoder reads exactly the reported frames, `min(30, frame_count)` files are saved, with no error for short clips |
| `KeypointExtractor.NinetyFrameClip` | hand-sign-data-collection/generate_npy.py:44-60 | 90 frames: stride 3, samples at 0, 3, …, 87, thirty files |
| `KeypointExtractor.TenFrameClip` | hand-sign-data-collection/generate_npy.py:44-60 | 10 frames: stride 1, ten files |
| `KeypointExtractor.NothingFromUnreadableClip` | hand-sign-data-collection/generate_npy.py:54-60 | an unopened clip or one with no decodable frame gives no file |
| `KeypointExtractor.KeypointsFileNames` | hand-sign-data-collection/generate_npy.py:70 | a name is `keypoints_`, then digits, then `.npy`; names for 1..30 are 16 characters long; distinct numbers give distinct names |
| `KeypointExtractor.RunExtraction` | hand-sign-data-collection/generate_npy.py:79-95 | a choice other than "front"/"back" returns before reading; otherwise `data_<choice>.csv` is read (missing: the run ends) and every listed clip is processed in order into `data/<clip name>` |
| `KeypointExtractor.ProcessListed` | hand-sign-data-collection/generate_npy.py:94-95 | one pass of main's loop: the listed clip's output is its path, its directory under `data`, and exactly the files process_video saves for it |
| `KeypointExtractor.ManifestName` | hand-sign-data-collection/generate_npy.py:90 | `data_<choice>.csv` ends in `.csv` and gives the choice back between its fixed prefix and suffix |
| `Capture.Chars` | hand_sign_data_collection.py:10 | `list(s)` cuts `s` into one-character strings, as many as `s` has characters, and joining them gives `s` back |
| `Capture.Alphabet` | hand_sign_data_collection.py:10 | 62 one-character labels: 26 lowercase, then 26 uppercase, then 10 digits, pairwise distinct, none holding '/', '.' or '_' |
| `Capture.GridCell` | hand_sign_data_collection.py:38-40 | `(idx // 10, idx % 10)` has column < 10 and gives back `idx` as `10*row + col` |
| `Capture.GridFits` | hand_sign_data_collection.py:38-40 | the 62 buttons lie in rows 0..6 and columns 0..9, each in its own cell |
| `Capture.ClipFileName` | hand_sign_data_collection.py:95-98 | a clip name ends in `.mov` and starts with the label and '_' |
| `Capture.ClipFileNameInjective` | hand_sign_data_collection.py:95-98 | for one label, two clip names coincide iff the two timestamps do |
| `Capture.PlanClips` | hand_sign_data_collection.py:76-99 | no clip iff either directory holds 50 or more `.mov` files; otherwise names `label_ts1.mov` and `label_ts2.mov` from two separate timestamps, at `hand_sign_data/front/<label>/<name1>` and `hand_sign_data/back/<label>/<name2>` |
| `Capture.CapNeverExceeded` | hand_sign_data_collection.py:88-104 | a recording adds at most one name per directory and only below 50, so no directory goes above 50 (or above its earlier size); at the cap nothing changes |
| `Capture.NothingRecordedAfterDuration` | hand_sign_data_collection.py:108 | no frame pair comes from a pass that starts more than `record_duration + 1` = 31 seconds in |
| `Capture.QuitKeyCodes` | hand_sign_data_collection.py:122 | `waitKey(1) & 0xFF == ord('q')`: only the low byte counts; 'q' quits, no key (-1) does not |
| `Capture.FramesRecorded` | hand_sign_data_collection.py:108-123 | the loop stops at the first pass where time is up or either read fails, or right after a 'q'; all passes before the stop delivered both frames |
| `Capture.RecordBoth` | hand_sign_data_collection.py:106-123 | both writers receive the same number of frames, each camera's frames in read order |
| `Capture.CommandButtonAsWritten` | hand_sign_data_collection.py:44 | as written, every command hands on the last button created, the one labelled '9' |
| `Capture.LateBindingDisablesWrongButton` | hand_sign_data_collection.py:44 | pressing 'a' disables and re-enables '9', not 'a'; for every button but '9', the button handed on is another button with another label |
| `Capture.CommandButton` | hand_sign_data_collection.py:44 | corrected binding: a command hands on the button of the pressed label, the only button carrying it |
| `Capture.Camera.constructor` | hand_sign_data_collection.py:58-59 | a camera handle remembers its device index |
| `Capture.VideoRecorderApp.constructor` | hand_sign_data_collection.py:15-44 | no camera is open; every button is enabled, placed at its grid cell and bound to itself; nothing is scheduled |
| `Capture.VideoRecorderApp.StartRecordingWithDelay` | hand_sign_data_collection.py:61-67 | the button is disabled and the recording is queued; nothing else changes |
| `Capture.VideoRecorderApp.Press` | hand_sign_data_collection.py:61-67 | a click on an enabled button disables that button and queues its label; a disabled button ignores clicks; the invariant "disabled iff a recording for it is pending" holds |
| `Capture.VideoRecorderApp.SelectCameras` | hand_sign_data_collection.py:56-59 | both handles are opened afresh, on devices 0 and 2 |
| `Capture.VideoRecorderApp.StartRecording` | hand_sign_data_collection.py:69-131 | open handles are reused, otherwise both are reopened; the cap refuses with no clip; otherwise the two planned clips receive the same frames; the button is re-enabled on every exit |
| `Capture.VideoRecorderApp.FireTimer` | hand_sign_data_collection.py:67 | the oldest scheduled recording runs and leaves the queue; its button is enabled again and the invariant holds; open handles are reused, otherwise fresh handles are opened on devices 0 and 2; the cap refuses with no clip, otherwise the planned clips both receive the loop's frames, in the same number and in read order |
| `Pipeline.RootsAgree` | create_dataframe.py:35-38 | the indexer's roots are the capture tool's camera parent directories |
| `Pipeline.ManifestNamesNeverMeet` | create_dataframe.py:48 | no accepted choices make `data_camera-<c>.csv` equal `data_<front/back>.csv` (read at hand-sign-data-collection/generate_npy.py:90) |
| `Pipeline.ClipIndexedUnderItsLabel` | create_dataframe.py:18-26 | a front clip recorded for a label becomes a row whose Class is the label and whose Video_Path is the clip's path |
| `Pipeline.ClipOutputDirectory` | hand-sign-data-collection/generate_npy.py:48-49 | that clip's keypoints go to `data/<label>_<timestamp>` |

## Findings

| source | as written | input that shows it | evidently intended | confidence | as-written member | corrected member |
|---|---|---|---|---|---|---|
| hand_sign_data_collection.py:44 | the command lambda binds `n=name` but reads `button` only when it runs, so every command hands on the last button created | pressing 'a' (index 0) disables and later re-enables '9' (index 61); 'a' stays clickable, and a second click queues a second recording | bind the button too (`lambda n=name, b=button: ...`), so each press disables its own button until its recording ends | not executed | `Capture.CommandButtonAsWritten`, `Capture.LateBindingDisablesWrongButton` | `Capture.CommandButton`, `Capture.VideoRecorderApp.Press` |

## Left out

- OpenCV I/O is not modelled: `VideoCapture`, codec selection, `VideoWriter` (avc1, 30 fps, 640×480), `cvtColor`, `release`, `destroyAllWindows` and `imshow`. Reads come from the `Video` frames and the `Iteration` script. A recorded clip is its name, its path and the frames written to it.
- MediaPipe inference is a parameter. In tracking mode its answer may depend on the frames seen before, so the detector takes the sample number (and, in `RunExtraction`, the clip's position in the manifest). The 21-landmark shape and the two-hand cap come from the library and are preconditions (`ValidDetection`).
- Landmark coordinates are an opaque type; no arithmetic is done on them. Elapsed time is a `real`, not a float.
- The clock: the loop's passes are given as a finite script, and running out of passes stops the loop as a failed clock test would.
- `time.strftime` is not modelled: the two timestamps are strings supplied by the caller.
- Tk is not modelled: widget creation, colours, padding and window centering (hand_sign_data_collection.py:42-54) depend on widget and screen measurements. The 3-second `root.after` delay is a queue of pending recordings that fire in order, with no timing.
- `Capture.VideoRecorderApp`: the class uses the corrected per-button binding (see Findings); the as-written binding is modelled only by `Capture.CommandButtonAsWritten`.
- pandas is not modelled. A manifest file is a map entry from its name to its rows. A missing file raises in the source and ends the run in the model (`MissingManifest`).
- `np.save`, `os.makedirs` and `glob` are not modelled. Saved files are a sequence of (path, array) pairs. A label directory is the set of `.mov` names in it. Directories are not created.
- `os.walk` is not modelled: its traversal is given as input, and `dirnames` is carried but unused, as in the source.
- `input()` and `print` are left out; the prompt's answer is a parameter.
- `cap.isOpened()` is fixed for a clip; a capture that closes part-way through is not modelled.
- Camera handles are never released in the source; the model opens them and never closes them either.
