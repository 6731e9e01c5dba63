/**
 * The keypoint extractor (hand-sign-data-collection/generate_npy.py): for every clip
 * listed in a manifest, read up to 30 evenly spaced frames and save the hand
 * landmarks detected in each as one keypoint array file.
 *
 * The decoder is an oracle: a clip reports a frame count, and a seek-and-read at
 * position `pos` returns a frame exactly when the clip is open and `pos` is below the
 * number of frames it can actually decode. The hand detector is a function given by
 * the caller; coordinates are an opaque type `F`.
 */
module KeypointExtractor {
  import opened Paths
  import opened Decimal
  import opened Wrappers
  import Indexer

  const TargetFrameCount: nat := 30
  const LandmarksPerHand: nat := 21
  const KeypointsPerHand: nat := 63
  /** `max_num_hands=2` in the detector's configuration. */
  const MaxNumHands: nat := 2
  /** process_video's default `save_dir`. */
  const DefaultSaveDir: string := "data"

  /** One landmark's normalized coordinates. */
  datatype Landmark<F> = Landmark(x: F, y: F, z: F)

  /** One detected hand: its landmarks in the detector's order. */
  type Hand<F> = seq<Landmark<F>>

  /** What the detector promises for one frame: at most two hands, 21 landmarks each. */
  predicate ValidDetection<F>(hands: seq<Hand<F>>) {
    |hands| <= MaxNumHands && forall i | 0 <= i < |hands| :: |hands[i]| == LandmarksPerHand
  }

  /** The detector in tracking mode: its answer may depend on how many frames it has seen, so it takes the sample number as well as the frame. */
  ghost predicate ValidDetector<Frame(!new), F>(detect: (nat, Frame) -> seq<Hand<F>>) {
    forall n, frame :: ValidDetection(detect(n, frame))
  }

  /** Coordinate `c` of a landmark: x for 0, y for 1, z for 2. */
  function Coord<F>(l: Landmark<F>, c: nat): (value: F)
    requires c < 3
  {
    if c == 0 then l.x else if c == 1 then l.y else l.z
  }

  /** `np.array([[l.x, l.y, l.z] for l in hand]).flatten()`: the coordinates of each landmark in turn. */
  function Flatten<F>(hand: Hand<F>): (row: seq<F>)
    ensures |row| == 3 * |hand|
    ensures forall j, c | 0 <= j < |hand| && 0 <= c < 3 :: row[3 * j + c] == Coord(hand[j], c)
  {
    if hand == [] then []
    else
      [hand[0].x, hand[0].y, hand[0].z] + Flatten(hand[1..])
  }

  /** A saved `.npy` payload: its shape and its rows. */
  datatype KeypointArray<F> = KeypointArray(shape: (nat, nat), rows: seq<seq<F>>)

  /**
   * extract_hand_keypoints as a value: one 63-entry row per detected hand, in detection
   * order; with no hand, the empty 0 x 63 array.
   */
  function Keypoints<F>(hands: seq<Hand<F>>): (a: KeypointArray<F>)
    requires ValidDetection(hands)
    ensures a.shape == (|hands|, KeypointsPerHand)
    ensures |a.rows| == |hands|
    ensures forall i | 0 <= i < |hands| :: |a.rows[i]| == KeypointsPerHand
    ensures forall i, j, c | 0 <= i < |hands| && 0 <= j < LandmarksPerHand && 0 <= c < 3 ::
              a.rows[i][3 * j + c] == Coord(hands[i][j], c)
  {
    var rows := seq(|hands|, i requires 0 <= i < |hands| => Flatten(hands[i]));
    if rows != [] then KeypointArray((|rows|, |rows[0]|), rows)
    else KeypointArray((0, KeypointsPerHand), [])
  }

  /** extract_hand_keypoints: the loop that appends one flattened row per hand. */
  method ExtractHandKeypoints<F>(hands: seq<Hand<F>>) returns (a: KeypointArray<F>)
    requires ValidDetection(hands)
    ensures a == Keypoints(hands)
  {
    var keypoints: seq<seq<F>> := [];
    for i := 0 to |hands|
      invariant keypoints == seq(i, k requires 0 <= k < i => Flatten(hands[k]))
    {
      keypoints := keypoints + [Flatten(hands[i])];
    }
    if keypoints != [] {
      a := KeypointArray((|keypoints|, |keypoints[0]|), keypoints);
    } else {
      a := KeypointArray((0, KeypointsPerHand), []);
    }
  }

  /** `max(frame_count // 30, 1)`: Dafny's `/` with a positive divisor rounds down like Python's `//`, negative counts included. */
  function FrameSkipCount(frameCount: int): (stride: nat)
    ensures stride >= 1
    ensures frameCount >= TargetFrameCount ==> TargetFrameCount * stride <= frameCount < TargetFrameCount * (stride + 1)
    ensures frameCount < 2 * TargetFrameCount ==> stride == 1
  {
    if frameCount / TargetFrameCount > 1 then frameCount / TargetFrameCount else 1
  }

  /** What the decoder offers for one clip: whether it opened, the frame count it reports, the frames it can decode. */
  datatype Video<Frame> = Video(isOpened: bool, frameCount: int, frames: seq<Frame>)

  /** `cap.set(CAP_PROP_POS_FRAMES, pos)` then `cap.read()`. */
  function Read<Frame>(v: Video<Frame>, pos: nat): (frame: Option<Frame>) {
    if v.isOpened && pos < |v.frames| then Some(v.frames[pos]) else None
  }

  /** The position the loop seeks to for sample `n`: `n * frame_skip_count`. */
  function SamplePosition<Frame>(v: Video<Frame>, n: nat): (pos: nat) {
    n * FrameSkipCount(v.frameCount)
  }

  /** Sample `n` can be read. */
  predicate Readable<Frame>(v: Video<Frame>, n: nat) {
    Read(v, SamplePosition(v, n)).Some?
  }

  /**
   * How many samples the loop saves when it has saved `n` so far: it goes on while the
   * clip is open, fewer than 30 are saved and the next read succeeds.
   */
  function SamplesFrom<Frame>(v: Video<Frame>, n: nat): (k: nat)
    requires n <= TargetFrameCount
    ensures n <= k <= TargetFrameCount
    ensures forall i | n <= i < k :: Readable(v, i)
    ensures k < TargetFrameCount ==> !Readable(v, k)
    decreases TargetFrameCount - n
  {
    if n < TargetFrameCount && v.isOpened && Readable(v, n) then SamplesFrom(v, n + 1) else n
  }

  /** How many keypoint files process_video saves for a clip. */
  function SamplesTaken<Frame>(v: Video<Frame>): (k: nat)
    ensures k <= TargetFrameCount
  {
    SamplesFrom(v, 0)
  }

  /** One saved file: its path and the keypoint array it holds. */
  datatype SavedFile<F> = SavedFile(path: string, keypoints: KeypointArray<F>)

  /** `f'keypoints_{n:02d}.npy'` */
  function KeypointsFileName(n: nat): (name: string) {
    "keypoints_" + ZeroPad2(n) + ".npy"
  }

  /** The directory a clip's files go to: `save_dir` joined with the clip's file name without its extension. */
  function SavePathFor(saveDir: string, videoPath: string): (savePath: string) {
    Join(saveDir, SplitExtRoot(Basename(videoPath)))
  }

  /**
   * Every clip's directory lies under `save_dir` and is named by the clip's file name
   * without its extension, whatever directory the clip came from.
   */
  lemma SavePathUnderSaveDir(saveDir: string, videoPath: string)
    ensures var savePath := SavePathFor(saveDir, videoPath);
            && |saveDir| <= |savePath| && savePath[..|saveDir|] == saveDir
            && EndsWith(savePath, SplitExtRoot(Basename(videoPath)))
  {
    var name := SplitExtRoot(Basename(videoPath));
    if name != [] {
      assert name[0] == Basename(videoPath)[0];
    }
    JoinParts(saveDir, name);
  }

  /** A clip `<dir>/<stem>.mov` is saved under `<saveDir>/<stem>` when the stem holds no '.' or '/'. */
  lemma SavePathOfClip(saveDir: string, dir: string, stem: string)
    requires stem != [] && '/' !in stem && '.' !in stem
    ensures SavePathFor(saveDir, Join(dir, stem + ".mov")) == Join(saveDir, stem)
  {
    assert stem + ".mov" == stem + "." + "mov";
    BasenameOfJoin(dir, stem + ".mov");
    SplitExtRootOfStem(stem, "mov");
  }

  /** The file saved for sample `n` (numbered `n + 1`): the keypoints of the frame read at `n * stride`. */
  function SampleFile<Frame(!new), F>(savePath: string, v: Video<Frame>, detect: (nat, Frame) -> seq<Hand<F>>, n: nat): (file: SavedFile<F>)
    requires ValidDetector(detect)
    requires Readable(v, n)
  {
    SavedFile(Join(savePath, KeypointsFileName(n + 1)), Keypoints(detect(n, v.frames[SamplePosition(v, n)])))
  }

  /** Every file process_video saves for a clip, in the order it saves them. */
  function SampledFiles<Frame(!new), F>(savePath: string, v: Video<Frame>, detect: (nat, Frame) -> seq<Hand<F>>): (files: seq<SavedFile<F>>)
    requires ValidDetector(detect)
    ensures |files| == SamplesTaken(v)
  {
    seq(SamplesTaken(v), n requires 0 <= n < SamplesTaken(v) => SampleFile(savePath, v, detect, n))
  }

  /**
   * process_video: seek to `frame_number * stride`, read, detect, save as
   * `keypoints_NN.npy`, until 30 files are saved or a read fails.
   */
  method ProcessVideo<Frame(!new), F>(videoPath: string, saveDir: string, video: Video<Frame>, detect: (nat, Frame) -> seq<Hand<F>>)
    returns (savePath: string, saved: seq<SavedFile<F>>)
    requires ValidDetector(detect)
    ensures savePath == SavePathFor(saveDir, videoPath)
    ensures |saved| == SamplesTaken(video) <= TargetFrameCount
    ensures forall n | 0 <= n < |saved| ::
              Readable(video, n)
              && saved[n].path == Join(savePath, KeypointsFileName(n + 1))
              && saved[n].keypoints == Keypoints(detect(n, video.frames[n * FrameSkipCount(video.frameCount)]))
    ensures saved == SampledFiles(savePath, video, detect)
  {
    var frameCount := video.frameCount;
    var frameSkipCount := FrameSkipCount(frameCount);
    var videoName := SplitExtRoot(Basename(videoPath));
    savePath := Join(saveDir, videoName);
    saved := [];
    var frameNumber := 0;
    while video.isOpened && frameNumber < TargetFrameCount
      invariant frameNumber <= SamplesTaken(video)
      invariant SamplesFrom(video, frameNumber) == SamplesTaken(video)
      invariant saved == SampledFiles(savePath, video, detect)[..frameNumber]
    {
      var frame := Read(video, frameNumber * frameSkipCount);
      if frame.None? {
        break;
      }
      var handKeypoints := ExtractHandKeypoints(detect(frameNumber, frame.value));
      var npyFilePath := Join(savePath, KeypointsFileName(frameNumber + 1));
      ReadableIsTaken(video, frameNumber);
      PrefixStep(SampledFiles(savePath, video, detect), frameNumber);
      saved := saved + [SavedFile(npyFilePath, handKeypoints)];
      frameNumber := frameNumber + 1;
    }
    assert saved == SampledFiles(savePath, video, detect);
    SampledFilesAt(savePath, video, detect);
  }

  /** A readable sample below 30, reached by the loop, is one of the samples taken. */
  lemma ReadableIsTaken<Frame>(v: Video<Frame>, n: nat)
    requires n < TargetFrameCount && v.isOpened && Readable(v, n)
    requires SamplesFrom(v, n) == SamplesTaken(v)
    ensures n < SamplesTaken(v)
  {
    assert SamplesFrom(v, n) == SamplesFrom(v, n + 1);
  }

  /** The prefix of one more element is the prefix followed by that element. */
  lemma PrefixStep<T>(s: seq<T>, n: nat)
    requires n < |s|
    ensures s[..n + 1] == s[..n] + [s[n]]
  {
  }

  /** What each element of SampledFiles is. */
  lemma SampledFilesAt<Frame(!new), F>(savePath: string, v: Video<Frame>, detect: (nat, Frame) -> seq<Hand<F>>)
    requires ValidDetector(detect)
    ensures forall n | 0 <= n < |SampledFiles(savePath, v, detect)| ::
              Readable(v, n)
              && SampledFiles(savePath, v, detect)[n].path == Join(savePath, KeypointsFileName(n + 1))
              && SampledFiles(savePath, v, detect)[n].keypoints == Keypoints(detect(n, v.frames[n * FrameSkipCount(v.frameCount)]))
  {
  }

  /** Every sample below 30 lies inside a clip whose count is at least 30: `i * stride <= 29 * stride < 30 * stride <= frame_count`. */
  lemma {:induction false} SamplesInsideLongClip(frameCount: int, i: nat)
    requires frameCount >= TargetFrameCount
    requires i < TargetFrameCount
    ensures i * FrameSkipCount(frameCount) < frameCount
  {
    var s := FrameSkipCount(frameCount);
    assert i * s <= (TargetFrameCount - 1) * s by {
      MulMonotone(i, TargetFrameCount - 1, s);
    }
  }

  lemma MulMonotone(a: nat, b: nat, s: nat)
    requires a <= b
    ensures a * s <= b * s
  {
  }

  /**
   * When the decoder can read exactly the frames it reports, the loop saves
   * `min(30, frame_count)` files: 30 for a long clip, and for a short one (stride 1)
   * one per frame, with no error.
   */
  lemma {:induction false} SamplesTakenExact<Frame>(v: Video<Frame>)
    requires v.isOpened && |v.frames| == v.frameCount
    ensures SamplesTaken(v) == if v.frameCount < TargetFrameCount then v.frameCount else TargetFrameCount
  {
    var k := SamplesTaken(v);
    if v.frameCount >= TargetFrameCount {
      if k < TargetFrameCount {
        SamplesInsideLongClip(v.frameCount, k);
        assert Readable(v, k);
      }
    } else {
      assert FrameSkipCount(v.frameCount) == 1;
      assert !Readable(v, |v.frames|);
      if k < v.frameCount {
        assert SamplePosition(v, k) == k;
        assert Readable(v, k);
      }
    }
  }

  /** A 90-frame clip: stride 3, samples at 0, 3, ..., 87, thirty files. */
  lemma NinetyFrameClip<Frame>(v: Video<Frame>)
    requires v.isOpened && v.frameCount == 90 && |v.frames| == 90
    ensures FrameSkipCount(v.frameCount) == 3
    ensures forall n | 0 <= n < TargetFrameCount :: SamplePosition(v, n) == 3 * n
    ensures SamplePosition(v, TargetFrameCount - 1) == 87
    ensures SamplesTaken(v) == 30
  {
    SamplesTakenExact(v);
  }

  /** A 10-frame clip: stride 1, ten files, the last one holding frame 9. */
  lemma TenFrameClip<Frame>(v: Video<Frame>)
    requires v.isOpened && v.frameCount == 10 && |v.frames| == 10
    ensures FrameSkipCount(v.frameCount) == 1
    ensures SamplesTaken(v) == 10
    ensures SamplePosition(v, 9) == 9
  {
    SamplesTakenExact(v);
  }

  /** A clip the decoder cannot open, or one with no decodable frame, yields no file. */
  lemma NothingFromUnreadableClip<Frame>(v: Video<Frame>)
    requires !v.isOpened || |v.frames| == 0
    ensures SamplesTaken(v) == 0
  {
    assert !Readable(v, 0);
  }

  /**
   * The file names are `keypoints_` then digits then `.npy`; for samples 1..30 they are 16
   * characters long, and distinct numbers always give distinct names.
   */
  lemma KeypointsFileNames(m: nat, n: nat)
    ensures var name := KeypointsFileName(n);
            |name| >= 16 && name[..10] == "keypoints_" && AllDigits(name[10..|name| - 4]) && EndsWith(name, ".npy")
    ensures 1 <= n <= TargetFrameCount ==> |KeypointsFileName(n)| == 16
    ensures m != n ==> KeypointsFileName(m) != KeypointsFileName(n)
  {
    var name := KeypointsFileName(n);
    assert name[10..|name| - 4] == ZeroPad2(n);
    if KeypointsFileName(m) == KeypointsFileName(n) {
      var a, b := KeypointsFileName(m), KeypointsFileName(n);
      assert ZeroPad2(m) == a[10..|a| - 4];
      assert ZeroPad2(n) == b[10..|b| - 4];
      ParseZeroPad2(m);
      ParseZeroPad2(n);
    }
  }

  /** The extractor's main accepts only these two camera names. */
  predicate IsCameraChoice(choice: string) {
    choice == "front" || choice == "back"
  }

  /** The manifest main reads for a choice: `data_{choice}.csv`. */
  function ManifestName(choice: string): (name: string)
    ensures |name| == |choice| + 9 && name[5..|name| - 4] == choice
    ensures EndsWith(name, ".csv")
  {
    "data_" + choice + ".csv"
  }

  /** What process_video produced for one listed clip. */
  datatype VideoOutput<F> = VideoOutput(videoPath: string, savePath: string, saved: seq<SavedFile<F>>)

  /** What one run of the extractor's main does. */
  datatype ExtractionRun<F> =
    | InvalidChoice
    | MissingManifest(csvPath: string)
    | Completed(csvPath: string, outputs: seq<VideoOutput<F>>)

  /** `o` is what process_video gives for the `k`-th listed clip, at `path`, saved under the default directory. */
  ghost predicate OutputOf<Frame(!new), F>(
    o: VideoOutput<F>, k: nat, path: string,
    videos: string -> Video<Frame>, detect: (nat, nat, Frame) -> seq<Hand<F>>)
    requires forall k, n, frame :: ValidDetection(detect(k, n, frame))
  {
    && o.videoPath == path
    && o.savePath == SavePathFor(DefaultSaveDir, path)
    && o.saved == SampledFiles(o.savePath, videos(path), (n, frame) => detect(k, n, frame))
  }

  /** One pass of main's loop: process the `k`-th listed clip into the default save directory. */
  method ProcessListed<Frame(!new), F>(
    k: nat, path: string,
    videos: string -> Video<Frame>, detect: (nat, nat, Frame) -> seq<Hand<F>>)
    returns (o: VideoOutput<F>)
    requires forall k, n, frame :: ValidDetection(detect(k, n, frame))
    ensures OutputOf(o, k, path, videos, detect)
  {
    var savePath, saved := ProcessVideo(path, DefaultSaveDir, videos(path), (n, frame) => detect(k, n, frame));
    o := VideoOutput(path, savePath, saved);
  }

  /**
   * main: validate the choice, read `data_{choice}.csv` (`manifests` maps a CSV name to
   * its rows; a missing file ends the run), and process each listed clip with the
   * default save directory. `videos(path)` is what the decoder offers for a clip and
   * `detect(k, n, frame)` the detector's answer for sample `n` of the `k`-th clip.
   */
  method RunExtraction<Frame(!new), F>(
    choice: string,
    manifests: map<string, seq<Indexer.ManifestRow>>,
    videos: string -> Video<Frame>,
    detect: (nat, nat, Frame) -> seq<Hand<F>>)
    returns (run: ExtractionRun<F>)
    requires forall k, n, frame :: ValidDetection(detect(k, n, frame))
    ensures run.InvalidChoice? <==> !IsCameraChoice(choice)
    ensures run.MissingManifest? <==> IsCameraChoice(choice) && "data_" + choice + ".csv" !in manifests
    ensures run.MissingManifest? ==> run.csvPath == "data_" + choice + ".csv"
    ensures run.Completed? ==>
              var rows := manifests["data_" + choice + ".csv"];
              && run.csvPath == "data_" + choice + ".csv"
              && |run.outputs| == |rows|
              && forall k | 0 <= k < |rows| ::
                   var path := rows[k].videoPath;
                   && run.outputs[k].videoPath == path
                   && run.outputs[k].savePath == SavePathFor(DefaultSaveDir, path)
                   && run.outputs[k].saved == SampledFiles(run.outputs[k].savePath, videos(path), (n, frame) => detect(k, n, frame))
  {
    if !IsCameraChoice(choice) {
      return InvalidChoice;
    }
    var csvFilePath := ManifestName(choice);
    if csvFilePath !in manifests {
      return MissingManifest(csvFilePath);
    }
    var rows := manifests[csvFilePath];
    var outputs: seq<VideoOutput<F>> := [];
    for k := 0 to |rows|
      invariant |outputs| == k
      invariant forall m | 0 <= m < k :: OutputOf(outputs[m], m, rows[m].videoPath, videos, detect)
    {
      var o := ProcessListed(k, rows[k].videoPath, videos, detect);
      outputs := outputs + [o];
    }
    run := Completed(csvFilePath, outputs);
  }
}
