/**
 * The indexer (create_dataframe.py): walks one camera's clip tree and lists every
 * `.mov` file with its label (the name of the directory holding it) and its path.
 * The directory walk is given as the sequence of entries `os.walk` yields, in order.
 */
module Indexer {
  import opened Paths
  import opened Wrappers

  /** One `(dirpath, dirnames, filenames)` triple yielded by `os.walk`. */
  datatype WalkEntry = WalkEntry(dirpath: string, dirnames: seq<string>, filenames: seq<string>)

  /** One manifest row: the `Class` and `Video_Path` columns. */
  datatype ManifestRow = ManifestRow(classLabel: string, videoPath: string)

  /** `filename.endswith('.mov')` */
  predicate IsVideoFile(name: string) {
    EndsWith(name, ".mov")
  }

  /** The row built for `filename` found in `dirpath`. */
  function RowFor(dirpath: string, filename: string): (row: ManifestRow) {
    ManifestRow(Basename(dirpath), Join(dirpath, filename))
  }

  /** The rows the inner loop appends for one directory's file names, in name order. */
  function DirRows(dirpath: string, names: seq<string>): (rows: seq<ManifestRow>) {
    if names == [] then []
    else DirRows(dirpath, names[..|names| - 1])
         + (if IsVideoFile(names[|names| - 1]) then [RowFor(dirpath, names[|names| - 1])] else [])
  }

  /** The rows the outer loop collects for the whole walk, in walk order. */
  function WalkRows(walk: seq<WalkEntry>): (rows: seq<ManifestRow>) {
    if walk == [] then [] else DirRows(walk[0].dirpath, walk[0].filenames) + WalkRows(walk[1..])
  }

  /** How many of the names are `.mov` files. */
  function VideoCount(names: seq<string>): (count: nat) {
    if names == [] then 0 else (if IsVideoFile(names[0]) then 1 else 0) + VideoCount(names[1..])
  }

  /** How many `.mov` files the walk lists in all. */
  function WalkVideoCount(walk: seq<WalkEntry>): (count: nat) {
    if walk == [] then 0 else VideoCount(walk[0].filenames) + WalkVideoCount(walk[1..])
  }

  /** collect_video_paths: the nested loops over the walk and each directory's file names. */
  method CollectVideoPaths(walk: seq<WalkEntry>) returns (videoData: seq<ManifestRow>)
    ensures videoData == WalkRows(walk)
  {
    videoData := [];
    var d := 0;
    while d < |walk|
      invariant 0 <= d <= |walk|
      invariant videoData == WalkRows(walk[..d])
    {
      var entry := walk[d];
      ghost var before := videoData;
      var f := 0;
      while f < |entry.filenames|
        invariant 0 <= f <= |entry.filenames|
        invariant videoData == before + DirRows(entry.dirpath, entry.filenames[..f])
      {
        var filename := entry.filenames[f];
        DirRowsStep(entry.dirpath, entry.filenames, f);
        if IsVideoFile(filename) {
          videoData := videoData + [RowFor(entry.dirpath, filename)];
        }
        f := f + 1;
      }
      assert entry.filenames[..f] == entry.filenames;
      WalkRowsStep(walk, d);
      d := d + 1;
    }
    assert walk[..d] == walk;
  }

  /** One more name: the inner loop's step. */
  lemma DirRowsStep(dirpath: string, names: seq<string>, f: nat)
    requires f < |names|
    ensures DirRows(dirpath, names[..f + 1])
         == DirRows(dirpath, names[..f]) + (if IsVideoFile(names[f]) then [RowFor(dirpath, names[f])] else [])
  {
    assert names[..f + 1][..f] == names[..f];
  }

  /** One more directory: the outer loop's step. */
  lemma WalkRowsStep(walk: seq<WalkEntry>, d: nat)
    requires d < |walk|
    ensures WalkRows(walk[..d + 1]) == WalkRows(walk[..d]) + DirRows(walk[d].dirpath, walk[d].filenames)
  {
    assert walk[..d + 1] == walk[..d] + [walk[d]];
    WalkRowsAppend(walk[..d], [walk[d]]);
    assert [walk[d]][1..] == [];
  }

  /** Rows within one directory follow file-name order: listing two runs of names gives the two row lists one after the other. */
  lemma {:induction false} DirRowsAppend(dirpath: string, a: seq<string>, b: seq<string>)
    ensures DirRows(dirpath, a + b) == DirRows(dirpath, a) + DirRows(dirpath, b)
    decreases |b|
  {
    if b == [] {
      assert a + b == a;
    } else {
      var c, init := a + b, b[..|b| - 1];
      assert c[..|c| - 1] == a + init;
      assert c[|c| - 1] == b[|b| - 1];
      DirRowsAppend(dirpath, a, init);
    }
  }

  /** Rows follow walk order: two consecutive parts of a walk give their rows one after the other. */
  lemma {:induction false} WalkRowsAppend(a: seq<WalkEntry>, b: seq<WalkEntry>)
    ensures WalkRows(a + b) == WalkRows(a) + WalkRows(b)
    decreases |a|
  {
    if a == [] {
      assert a + b == b;
    } else {
      assert (a + b)[0] == a[0];
      assert (a + b)[1..] == a[1..] + b;
      WalkRowsAppend(a[1..], b);
    }
  }

  /** One directory gives exactly one row per `.mov` name. */
  lemma {:induction false} DirRowsCount(dirpath: string, names: seq<string>)
    ensures |DirRows(dirpath, names)| == VideoCount(names)
    decreases |names|
  {
    if names != [] {
      assert names == [names[0]] + names[1..];
      DirRowsAppend(dirpath, [names[0]], names[1..]);
      assert [names[0]][..0] == [];
      DirRowsCount(dirpath, names[1..]);
    }
  }

  /** The manifest has exactly one row per `.mov` file in the walk, and none for other files. */
  lemma {:induction false} WalkRowsCount(walk: seq<WalkEntry>)
    ensures |WalkRows(walk)| == WalkVideoCount(walk)
    decreases |walk|
  {
    if walk != [] {
      DirRowsCount(walk[0].dirpath, walk[0].filenames);
      WalkRowsCount(walk[1..]);
    }
  }

  /** The rows of one directory are exactly the rows of its `.mov` names. */
  lemma {:induction false} DirRowsMembership(dirpath: string, names: seq<string>, row: ManifestRow)
    ensures row in DirRows(dirpath, names)
        <==> exists j | 0 <= j < |names| :: IsVideoFile(names[j]) && row == RowFor(dirpath, names[j])
    decreases |names|
  {
    if names != [] {
      var init := names[..|names| - 1];
      DirRowsMembership(dirpath, init, row);
      if row in DirRows(dirpath, names) && row !in DirRows(dirpath, init) {
        assert IsVideoFile(names[|names| - 1]) && row == RowFor(dirpath, names[|names| - 1]);
      }
      if j :| 0 <= j < |names| && IsVideoFile(names[j]) && row == RowFor(dirpath, names[j]) {
        if j < |names| - 1 {
          assert init[j] == names[j];
        }
      }
    }
  }

  /** A row is in the manifest exactly when some walked directory holds a `.mov` file that the row describes. */
  lemma {:induction false} WalkRowsMembership(walk: seq<WalkEntry>, row: ManifestRow)
    ensures row in WalkRows(walk)
        <==> exists i, j | 0 <= i < |walk| && 0 <= j < |walk[i].filenames| ::
               IsVideoFile(walk[i].filenames[j]) && row == RowFor(walk[i].dirpath, walk[i].filenames[j])
    decreases |walk|
  {
    if walk != [] {
      var rest := walk[1..];
      WalkRowsMembership(rest, row);
      DirRowsMembership(walk[0].dirpath, walk[0].filenames, row);
      if row in WalkRows(rest) {
        var i, j :| 0 <= i < |rest| && 0 <= j < |rest[i].filenames| &&
                    IsVideoFile(rest[i].filenames[j]) && row == RowFor(rest[i].dirpath, rest[i].filenames[j]);
        assert walk[i + 1] == rest[i];
      }
      if i, j :| 0 <= i < |walk| && 0 <= j < |walk[i].filenames| &&
                 IsVideoFile(walk[i].filenames[j]) && row == RowFor(walk[i].dirpath, walk[i].filenames[j]) {
        if i > 0 {
          assert rest[i - 1] == walk[i];
        }
      }
    }
  }

  /** A walk that lists no `.mov` file gives the empty manifest. */
  lemma NoVideosNoRows(walk: seq<WalkEntry>)
    requires forall i, j | 0 <= i < |walk| && 0 <= j < |walk[i].filenames| :: !IsVideoFile(walk[i].filenames[j])
    ensures WalkRows(walk) == []
  {
    if WalkRows(walk) != [] {
      WalkRowsMembership(walk, WalkRows(walk)[0]);
    }
  }

  /**
   * What one row says: its class is the basename of the directory it was found in, and
   * (file names never contain '/') its path's last component is the file name, ending in `.mov`.
   */
  lemma RowMeaning(dirpath: string, filename: string)
    requires '/' !in filename
    requires IsVideoFile(filename)
    ensures RowFor(dirpath, filename).classLabel == Basename(dirpath)
    ensures Basename(RowFor(dirpath, filename).videoPath) == filename
    ensures EndsWith(RowFor(dirpath, filename).videoPath, ".mov")
  {
    BasenameOfJoin(dirpath, filename);
    JoinEndsWith(dirpath, filename, ".mov");
  }

  /** main: camera choice '1' walks `hand_sign_data/front`, '2' walks `hand_sign_data/back`; any other answer is refused. */
  function CameraRoot(choice: string): (root: Option<string>)
    ensures root.Some? <==> choice == "1" || choice == "2"
    ensures choice == "1" ==> root == Some("hand_sign_data/front")
    ensures choice == "2" ==> root == Some("hand_sign_data/back")
  {
    DataRoots();
    if choice == "1" then Some(Join("hand_sign_data", "front"))
    else if choice == "2" then Some(Join("hand_sign_data", "back"))
    else None
  }

  /** The two camera roots, spelled out. */
  lemma DataRoots()
    ensures Join("hand_sign_data", "front") == "hand_sign_data/front"
    ensures Join("hand_sign_data", "back") == "hand_sign_data/back"
  {
    assert "hand_sign_data"[|"hand_sign_data"| - 1] == 'a';
  }

  /** The CSV file main writes for a camera choice: `data_camera-{choice}.csv`. */
  function ManifestName(choice: string): (name: string)
    ensures |name| == |choice| + 16 && name[12..|name| - 4] == choice
    ensures EndsWith(name, ".csv")
  {
    "data_camera-" + choice + ".csv"
  }

  /** What one run of the indexer's main does. */
  datatype IndexerRun = InvalidChoice | Written(csvPath: string, rows: seq<ManifestRow>)

  /**
   * main: validate the choice, walk that camera's root and write the manifest.
   * `walkOf(root)` stands for what `os.walk(root)` yields.
   */
  method RunIndexer(choice: string, walkOf: string -> seq<WalkEntry>) returns (run: IndexerRun)
    ensures run.InvalidChoice? <==> choice != "1" && choice != "2"
    ensures run.Written? ==> run.csvPath == "data_camera-" + choice + ".csv"
    ensures choice == "1" ==> run == Written("data_camera-1.csv", WalkRows(walkOf("hand_sign_data/front")))
    ensures choice == "2" ==> run == Written("data_camera-2.csv", WalkRows(walkOf("hand_sign_data/back")))
  {
    var root := CameraRoot(choice);
    if root.None? {
      return InvalidChoice;
    }
    var videoData := CollectVideoPaths(walkOf(root.value));
    run := Written(ManifestName(choice), videoData);
  }
}
