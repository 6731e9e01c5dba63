/**
 * How the three stages meet on the file system: where the capture tool puts a clip,
 * the row the indexer makes of it, the directory the extractor saves its keypoints
 * in, and the manifest names the indexer writes and the extractor reads.
 */
module Pipeline {
  import opened Paths
  import opened Wrappers
  import Capture
  import Indexer
  import KeypointExtractor

  /** The indexer's camera roots are the capture tool's camera parent directories. */
  lemma RootsAgree()
    ensures Indexer.CameraRoot("1") == Some(Capture.FrontParent)
    ensures Indexer.CameraRoot("2") == Some(Capture.BackParent)
  {
    Indexer.DataRoots();
  }

  /**
   * The handoff as written: the indexer writes `data_camera-1.csv` or `data_camera-2.csv`,
   * the extractor reads `data_front.csv` or `data_back.csv`; no accepted choices make the
   * two names meet, so the extractor never finds a manifest under the name the indexer gave it.
   */
  lemma ManifestNamesNeverMeet(indexerChoice: string, extractorChoice: string)
    requires Indexer.CameraRoot(indexerChoice).Some?
    requires KeypointExtractor.IsCameraChoice(extractorChoice)
    ensures Indexer.ManifestName(indexerChoice) != KeypointExtractor.ManifestName(extractorChoice)
  {
    var a, b := Indexer.ManifestName(indexerChoice), KeypointExtractor.ManifestName(extractorChoice);
    assert a[5] == 'c';
    assert b[5] == 'f' || b[5] == 'b';
  }

  /**
   * A front-camera clip the capture tool records for label `idx`, once the indexer's walk
   * reaches the label directory, becomes a row whose class is the label and whose path
   * is the clip's path.
   */
  lemma ClipIndexedUnderItsLabel(idx: nat, existing1: set<string>, existing2: set<string>, ts1: string, ts2: string)
    requires idx < |Capture.FullAlphanumericList|
    requires '/' !in ts1
    requires |existing1| < Capture.MaxClips && |existing2| < Capture.MaxClips
    ensures var buttonName := Capture.FullAlphanumericList[idx];
            var clips := Capture.PlanClips(buttonName, existing1, existing2, ts1, ts2).value;
            var dirpath := Join(Capture.FrontParent, buttonName);
            && Indexer.IsVideoFile(clips.filename1)
            && Indexer.RowFor(dirpath, clips.filename1) == Indexer.ManifestRow(buttonName, clips.filepath1)
  {
    Capture.LabelAt(idx);
    var buttonName := Capture.FullAlphanumericList[idx];
    var clips := Capture.PlanClips(buttonName, existing1, existing2, ts1, ts2).value;
    var dirpath := Join(Capture.FrontParent, buttonName);
    assert '/' !in clips.filename1 by {
      assert clips.filename1 == buttonName + "_" + ts1 + ".mov";
    }
    BasenameOfJoin(Capture.FrontParent, buttonName);
    assert EndsWith(clips.filename1, ".mov");
  }

  /**
   * The extractor saves the keypoints of such a clip under `data/<label>_<timestamp>`:
   * the clip's file name without `.mov`, as long as the timestamp holds no '.' or '/'.
   */
  lemma ClipOutputDirectory(idx: nat, existing1: set<string>, existing2: set<string>, ts1: string, ts2: string)
    requires idx < |Capture.FullAlphanumericList|
    requires '/' !in ts1 && '.' !in ts1
    requires |existing1| < Capture.MaxClips && |existing2| < Capture.MaxClips
    ensures var buttonName := Capture.FullAlphanumericList[idx];
            var clips := Capture.PlanClips(buttonName, existing1, existing2, ts1, ts2).value;
            KeypointExtractor.SavePathFor(KeypointExtractor.DefaultSaveDir, clips.filepath1) == Join("data", buttonName + "_" + ts1)
  {
    Capture.LabelAt(idx);
    var buttonName := Capture.FullAlphanumericList[idx];
    var clips := Capture.PlanClips(buttonName, existing1, existing2, ts1, ts2).value;
    var stem := buttonName + "_" + ts1;
    assert clips.filename1 == stem + ".mov";
    KeypointExtractor.SavePathOfClip(KeypointExtractor.DefaultSaveDir, Join(Capture.FrontParent, buttonName), stem);
  }
}
