/**
 * The capture tool (hand_sign_data_collection.py): one button per label; a press
 * disables the button and schedules a recording three seconds later; the recording
 * opens the two cameras if needed, refuses when either label directory already holds
 * 50 clips, and otherwise writes one clip per camera from a loop that reads both
 * cameras in step. The GUI toolkit, the cameras, the clock and the file system are
 * inputs: the existing clip names of each directory, the two timestamps, and one
 * `Iteration` per pass the clock allows through the loop.
 */
module Capture {
  import opened Paths
  import opened Wrappers

  /** `string.ascii_lowercase`, `string.ascii_uppercase`, `string.digits` */
  const AsciiLowercase: string := "abcdefghijklmnopqrstuvwxyz"
  const AsciiUppercase: string := "ABCDEFGHIJKLMNOPQRSTUVWXYZ"
  const Digits: string := "0123456789"

  /** `"".join(ss)`: the strings of `ss` one after the other. */
  function Concat(ss: seq<string>): (joined: string) {
    if ss == [] then [] else Concat(ss[..|ss| - 1]) + ss[|ss| - 1]
  }

  /** One-character strings, one per character of `s`, join back into `s`. */
  lemma {:induction false} ConcatSingletons(r: seq<string>, s: string)
    requires |r| == |s| && forall i | 0 <= i < |s| :: r[i] == [s[i]]
    ensures Concat(r) == s
    decreases |s|
  {
    if s != [] {
      ConcatSingletons(r[..|r| - 1], s[..|s| - 1]);
      assert s == s[..|s| - 1] + [s[|s| - 1]];
    }
  }

  /** `list(s)`: `s` cut into one-character strings, which join back into `s`. */
  function Chars(s: string): (r: seq<string>)
    ensures |r| == |s|
    ensures forall i | 0 <= i < |r| :: |r[i]| == 1
    ensures Concat(r) == s
  {
    var r := seq(|s|, i requires 0 <= i < |s| => [s[i]]);
    ConcatSingletons(r, s);
    r
  }

  /** Element `i` of `list(s)` is the one-character string of `s[i]`. */
  lemma CharsAt(s: string, i: nat)
    requires i < |s|
    ensures Chars(s)[i] == [s[i]]
  {
  }

  /** FULL_ALPHANUMERIC_LIST: every label, one button each. */
  const FullAlphanumericList: seq<string> := Chars(AsciiLowercase) + Chars(AsciiUppercase) + Chars(Digits)

  const ButtonCount: nat := 62
  const GridColumns: nat := 10
  /** The per-label, per-camera clip cap. */
  const MaxClips: nat := 50
  /** `record_duration` (seconds); the loop runs while at most this plus one second has passed. */
  const RecordDuration: nat := 30
  /** Device indices passed to `cv2.VideoCapture` for the front and back camera. */
  const FrontDevice: nat := 0
  const BackDevice: nat := 2

  /** The character code of label `i`: the lowercase letters, then the uppercase letters, then the digits. */
  function LabelCode(i: nat): (code: int) {
    if i < 26 then 'a' as int + i else if i < 52 then 'A' as int + (i - 26) else '0' as int + (i - 52)
  }

  /** The labels cut from a run of consecutive character codes starting at `first`. */
  lemma RunLabels(s: string, first: int)
    requires forall k | 0 <= k < |s| :: s[k] as int == first + k
    ensures forall k | 0 <= k < |s| :: Chars(s)[k] == [Chars(s)[k][0]] && Chars(s)[k][0] as int == first + k
  {
    forall k | 0 <= k < |s| ensures Chars(s)[k] == [s[k]] { CharsAt(s, k); }
  }

  /** Label `i` is the one-character string of code LabelCode(i). */
  lemma LabelCodes()
    ensures |FullAlphanumericList| == ButtonCount
    ensures forall i | 0 <= i < ButtonCount ::
              FullAlphanumericList[i] == [FullAlphanumericList[i][0]] && FullAlphanumericList[i][0] as int == LabelCode(i)
  {
    var lower, upper, digits := AsciiLowercase, AsciiUppercase, Digits;
    assert forall k | 0 <= k < 26 :: lower[k] as int == 'a' as int + k;
    RunLabels(lower, 'a' as int);
    assert forall k | 0 <= k < 26 :: upper[k] as int == 'A' as int + k;
    RunLabels(upper, 'A' as int);
    assert forall k | 0 <= k < 10 :: digits[k] as int == '0' as int + k;
    RunLabels(digits, '0' as int);
    var a, b, c := Chars(lower), Chars(upper), Chars(digits);
    var L := FullAlphanumericList;
    assert L == a + b + c;
    assert forall i | 0 <= i < 26 :: L[i] == a[i];
    assert forall i | 26 <= i < 52 :: L[i] == b[i - 26];
    assert forall i | 52 <= i < 62 :: L[i] == c[i - 52];
  }

  /**
   * The alphabet: 26 lowercase letters, then 26 uppercase, then the 10 digits, each a
   * one-character label; 62 labels, no two alike, none holding a '/', '.' or '_'.
   */
  lemma Alphabet()
    ensures |FullAlphanumericList| == ButtonCount
    ensures forall i | 0 <= i < ButtonCount :: |FullAlphanumericList[i]| == 1
    ensures forall i | 0 <= i < 26 :: FullAlphanumericList[i][0] as int == 'a' as int + i
    ensures forall i | 26 <= i < 52 :: FullAlphanumericList[i][0] as int == 'A' as int + (i - 26)
    ensures forall i | 52 <= i < 62 :: FullAlphanumericList[i][0] as int == '0' as int + (i - 52)
    ensures forall i, j | 0 <= i < j < ButtonCount :: FullAlphanumericList[i] != FullAlphanumericList[j]
    ensures forall i | 0 <= i < ButtonCount ::
              '/' !in FullAlphanumericList[i] && '.' !in FullAlphanumericList[i] && '_' !in FullAlphanumericList[i]
    ensures FullAlphanumericList[0] == "a" && FullAlphanumericList[ButtonCount - 1] == "9"
  {
    LabelCodes();
    var L := FullAlphanumericList;
    forall i, j | 0 <= i < j < ButtonCount
      ensures L[i] != L[j]
    {
      assert LabelCode(i) != LabelCode(j);
    }
    assert L[0] == [L[0][0]] && L[0][0] == 'a';
    assert L[ButtonCount - 1] == [L[ButtonCount - 1][0]] && L[ButtonCount - 1][0] == '9';
  }

  /** One label of the alphabet: a single character other than '/', '.' and '_'. */
  lemma LabelAt(idx: nat)
    requires idx < |FullAlphanumericList|
    ensures |FullAlphanumericList[idx]| == 1
    ensures '/' !in FullAlphanumericList[idx] && '.' !in FullAlphanumericList[idx] && '_' !in FullAlphanumericList[idx]
  {
    Alphabet();
  }

  /** `(idx // 10, idx % 10)`: the grid row and column of button `idx`. */
  function GridCell(idx: nat): (cell: (nat, nat))
    ensures cell.1 < GridColumns
    ensures GridColumns * cell.0 + cell.1 == idx
  {
    (idx / GridColumns, idx % GridColumns)
  }

  /** The 62 buttons fill rows 0..6 and columns 0..9, each in a cell of its own. */
  lemma GridFits(i: nat, j: nat)
    requires i < ButtonCount && j < ButtonCount
    ensures GridCell(i).0 <= 6 && GridCell(i).1 <= 9
    ensures i != j ==> GridCell(i) != GridCell(j)
  {
  }

  /** `f"{button_name}_{timestamp}.mov"`: a `.mov` name that starts with the label and an underscore. */
  function ClipFileName(buttonName: string, timestamp: string): (name: string)
    ensures EndsWith(name, ".mov")
    ensures |buttonName| < |name| && name[..|buttonName| + 1] == buttonName + "_"
  {
    buttonName + "_" + timestamp + ".mov"
  }

  /** For one label, clip names coincide exactly when the timestamps do (two recordings in the same second collide). */
  lemma ClipFileNameInjective(buttonName: string, t1: string, t2: string)
    ensures ClipFileName(buttonName, t1) == ClipFileName(buttonName, t2) <==> t1 == t2
  {
    var a, b := ClipFileName(buttonName, t1), ClipFileName(buttonName, t2);
    if a == b {
      assert t1 == a[|buttonName| + 1..|a| - 4];
      assert t2 == b[|buttonName| + 1..|b| - 4];
    }
  }

  /** `os.path.join("hand_sign_data", "front")` and `... "back"`: the two camera parent directories. */
  const FrontParent: string := Join("hand_sign_data", "front")
  const BackParent: string := Join("hand_sign_data", "back")

  /** The two clips one recording writes: names and full paths. */
  datatype ClipPair = ClipPair(filename1: string, filepath1: string, filename2: string, filepath2: string)

  /**
   * The cap guard and the names: no clip when either directory already holds 50 or more
   * `.mov` files; otherwise one clip per camera directory, named from the label and a
   * timestamp taken separately for each.
   */
  function PlanClips(buttonName: string, existing1: set<string>, existing2: set<string>, ts1: string, ts2: string): (r: Option<ClipPair>)
    ensures r.None? <==> |existing1| >= MaxClips || |existing2| >= MaxClips
    ensures r.Some? ==>
              && r.value.filename1 == buttonName + "_" + ts1 + ".mov"
              && r.value.filename2 == buttonName + "_" + ts2 + ".mov"
              && r.value.filepath1 == Join(Join(FrontParent, buttonName), r.value.filename1)
              && r.value.filepath2 == Join(Join(BackParent, buttonName), r.value.filename2)
              && EndsWith(r.value.filepath1, ".mov") && EndsWith(r.value.filepath2, ".mov")
  {
    if |existing1| >= MaxClips || |existing2| >= MaxClips then None
    else
      var filename1 := ClipFileName(buttonName, ts1);
      var filename2 := ClipFileName(buttonName, ts2);
      var r := ClipPair(filename1, Join(Join(FrontParent, buttonName), filename1),
                        filename2, Join(Join(BackParent, buttonName), filename2));
      JoinEndsWith(Join(FrontParent, buttonName), filename1, ".mov");
      JoinEndsWith(Join(BackParent, buttonName), filename2, ".mov");
      Some(r)
  }

  /** The `.mov` names a directory holds after a recording: the new clip joins them (or replaces a same-named one). */
  function ClipsAfter(existing: set<string>, clip: Option<string>): (names: set<string>) {
    if clip.Some? then existing + {clip.value} else existing
  }

  function Max(a: nat, b: nat): (m: nat) {
    if a > b then a else b
  }

  lemma CardAddOne(s: set<string>, x: string)
    ensures |s + {x}| <= |s| + 1
  {
    if x !in s {
      assert |s + {x}| == |s| + 1;
    } else {
      assert s + {x} == s;
    }
  }

  /**
   * The tool never takes a directory above the cap: a recording adds at most one clip
   * to each directory and happens only below 50, and at the cap nothing is written.
   */
  lemma CapNeverExceeded(buttonName: string, existing1: set<string>, existing2: set<string>, ts1: string, ts2: string)
    ensures var r := PlanClips(buttonName, existing1, existing2, ts1, ts2);
            var after1 := ClipsAfter(existing1, if r.Some? then Some(r.value.filename1) else None);
            var after2 := ClipsAfter(existing2, if r.Some? then Some(r.value.filename2) else None);
            && |after1| <= Max(|existing1|, MaxClips)
            && |after2| <= Max(|existing2|, MaxClips)
            && (|existing1| >= MaxClips || |existing2| >= MaxClips ==> after1 == existing1 && after2 == existing2)
  {
    var r := PlanClips(buttonName, existing1, existing2, ts1, ts2);
    if r.Some? {
      CardAddOne(existing1, r.value.filename1);
      CardAddOne(existing2, r.value.filename2);
    }
  }

  /**
   * What one pass of the recording loop sees: the seconds elapsed since `start_time`
   * when the loop condition is tested, the two `read()` results and the `waitKey(1)` code.
   */
  datatype Iteration<Frame> = Iteration(elapsed: real, read1: Option<Frame>, read2: Option<Frame>, key: int)

  /** `(time.time() - start_time) <= self.record_duration + 1` */
  predicate InTime<Frame>(it: Iteration<Frame>) {
    it.elapsed <= (RecordDuration + 1) as real
  }

  /** The pass runs and both reads return a frame. */
  predicate BothDelivered<Frame>(it: Iteration<Frame>) {
    InTime(it) && it.read1.Some? && it.read2.Some?
  }

  /** `cv2.waitKey(1) & 0xFF == ord('q')`: Dafny's `%` by a positive number is never negative, like Python's `& 0xFF`, so -1 (no key) gives 255. */
  predicate QuitPressed(key: int) {
    key % 256 == 'q' as int
  }

  /** Only the low byte of the key code counts: 'q' quits, no key (-1) does not, and codes 256 apart agree. */
  lemma QuitKeyCodes()
    ensures QuitPressed('q' as int) && !QuitPressed(-1)
    ensures forall key | 0 <= key < 256 :: QuitPressed(key) <==> key == 'q' as int
    ensures forall key :: QuitPressed(key) <==> QuitPressed(key + 256)
  {
  }

  /**
   * How many frame pairs the loop writes, given the passes it could make in order: it
   * stops at the first pass where the time is up or either read fails, or right after
   * the pass where 'q' was pressed, or when the passes run out.
   */
  function FramesRecorded<Frame>(script: seq<Iteration<Frame>>): (k: nat)
    ensures k <= |script|
    ensures forall i | 0 <= i < k :: BothDelivered(script[i])
    ensures forall i | 0 <= i < k - 1 :: !QuitPressed(script[i].key)
    ensures k < |script| ==> !BothDelivered(script[k]) || (k > 0 && QuitPressed(script[k - 1].key))
  {
    if script == [] || !BothDelivered(script[0]) then 0
    else if QuitPressed(script[0].key) then 1
    else 1 + FramesRecorded(script[1..])
  }

  /** No frame pair is written from a pass that starts more than 31 seconds in, and a late first pass writes none. */
  lemma NothingRecordedAfterDuration<Frame>(script: seq<Iteration<Frame>>)
    ensures forall i | 0 <= i < FramesRecorded(script) :: script[i].elapsed <= 31.0
    ensures script != [] && script[0].elapsed > 31.0 ==> FramesRecorded(script) == 0
  {
  }

  /** The dual read/write loop: both writers get the same frames count, each camera's frames in read order. */
  method RecordBoth<Frame>(script: seq<Iteration<Frame>>) returns (out1: seq<Frame>, out2: seq<Frame>)
    ensures |out1| == |out2| == FramesRecorded(script)
    ensures forall i | 0 <= i < |out1| :: out1[i] == script[i].read1.value && out2[i] == script[i].read2.value
  {
    out1, out2 := [], [];
    var i := 0;
    while i < |script|
      invariant i <= |script|
      invariant FramesRecorded(script) == i + FramesRecorded(script[i..])
      invariant |out1| == |out2| == i
      invariant forall k | 0 <= k < i :: BothDelivered(script[k])
      invariant forall k | 0 <= k < i :: out1[k] == script[k].read1.value && out2[k] == script[k].read2.value
    {
      var it := script[i];
      if !InTime(it) {
        break;
      }
      if it.read1.None? || it.read2.None? {
        break;
      }
      out1 := out1 + [it.read1.value];
      out2 := out2 + [it.read2.value];
      assert script[i..][1..] == script[i + 1..];
      i := i + 1;
      if QuitPressed(it.key) {
        break;
      }
    }
  }

  /** An open camera handle (`cv2.VideoCapture(device)`). */
  class Camera {
    const device: nat

    constructor (device: nat)
      ensures this.device == device
    {
      this.device := device;
    }
  }

  /** A recording scheduled by `root.after`: the label and the button to re-enable. */
  datatype Pending = Pending(buttonName: string, button: nat)

  /** What one start_recording call did. */
  datatype Recording<Frame> =
    | CapReached
    | Recorded(clips: ClipPair, frames1: seq<Frame>, frames2: seq<Frame>)

  /**
   * As written, the button a press of button `idx` hands on: each command's lambda
   * binds the label as a default argument but reads the loop variable `button` only
   * when it runs, and by then the loop has left it at the last button created.
   */
  function CommandButtonAsWritten(idx: nat): (b: nat)
    requires idx < ButtonCount
    ensures b < ButtonCount
    ensures FullAlphanumericList[b] == "9"
  {
    Alphabet();
    ButtonCount - 1
  }

  /**
   * The counterexample: pressing 'a' disables (and later re-enables) '9', and 'a' stays
   * enabled; the same holds for every button but '9' itself.
   */
  lemma LateBindingDisablesWrongButton()
    ensures FullAlphanumericList[0] == "a"
    ensures CommandButtonAsWritten(0) != 0
    ensures FullAlphanumericList[CommandButtonAsWritten(0)] == "9"
    ensures forall idx | 0 <= idx < ButtonCount - 1 ::
              CommandButtonAsWritten(idx) != idx && FullAlphanumericList[CommandButtonAsWritten(idx)] != FullAlphanumericList[idx]
  {
    Alphabet();
  }

  /**
   * The evidently intended binding (`b=button` as a second default argument): each command
   * hands on the button of the pressed label, and no other button carries that label.
   */
  function CommandButton(idx: nat): (b: nat)
    requires idx < ButtonCount
    ensures b < ButtonCount
    ensures FullAlphanumericList[b] == FullAlphanumericList[idx]
    ensures forall j | 0 <= j < ButtonCount && FullAlphanumericList[j] == FullAlphanumericList[idx] :: j == b
  {
    Alphabet();
    idx
  }

  /** VideoRecorderApp: the camera handles and the state of the button grid. */
  class VideoRecorderApp {
    var camera1: Camera?
    var camera2: Camera?
    /** Whether each button is in the NORMAL (true) or DISABLED (false) state. */
    var enabled: seq<bool>
    /** The button each button's command hands on. */
    var command: seq<nat>
    /** The grid cell of each button. */
    var cells: seq<(nat, nat)>
    /** Callbacks scheduled by `root.after`, in the order they fire. */
    var pending: seq<Pending>

    /**
     * The object invariant: one entry per label; a button is disabled exactly while a
     * recording it scheduled is pending, and no button has two pending.
     */
    ghost predicate Valid()
      reads this
    {
      && |enabled| == |command| == |cells| == ButtonCount
      && (forall i | 0 <= i < ButtonCount :: command[i] == CommandButton(i) && cells[i] == GridCell(i))
      && (forall k | 0 <= k < |pending| :: pending[k].button < ButtonCount && !enabled[pending[k].button])
      && (forall k, l | 0 <= k < l < |pending| :: pending[k].button != pending[l].button)
      && (forall i | 0 <= i < ButtonCount && !enabled[i] :: exists k | 0 <= k < |pending| :: pending[k].button == i)
    }

    /** `__init__` and create_gui: no camera yet; one enabled button per label, placed at `(idx // 10, idx % 10)`. */
    constructor ()
      ensures Valid()
      ensures camera1 == null && camera2 == null && pending == []
      ensures forall i | 0 <= i < ButtonCount :: enabled[i]
    {
      camera1, camera2 := null, null;
      pending := [];
      var en: seq<bool> := [];
      var cmd: seq<nat> := [];
      var cl: seq<(nat, nat)> := [];
      Alphabet();
      for idx := 0 to |FullAlphanumericList|
        invariant |en| == |cmd| == |cl| == idx
        invariant forall i | 0 <= i < idx :: en[i] && cmd[i] == CommandButton(i) && cl[i] == GridCell(i)
      {
        en := en + [true];
        cmd := cmd + [CommandButton(idx)];
        cl := cl + [GridCell(idx)];
      }
      enabled, command, cells := en, cmd, cl;
    }

    /**
     * A click on button `idx`. A disabled button ignores clicks; an enabled one runs
     * start_recording_with_delay: disable the button, schedule the recording.
     */
    method Press(idx: nat)
      requires Valid() && idx < ButtonCount
      modifies this
      ensures Valid()
      ensures old(enabled[idx]) ==>
                enabled == old(enabled)[idx := false] && pending == old(pending) + [Pending(FullAlphanumericList[idx], idx)]
      ensures !old(enabled[idx]) ==> enabled == old(enabled) && pending == old(pending)
      ensures camera1 == old(camera1) && camera2 == old(camera2)
      ensures command == old(command) && cells == old(cells)
    {
      if enabled[idx] {
        ghost var before := pending;
        StartRecordingWithDelay(FullAlphanumericList[idx], command[idx]);
        assert pending[|before|].button == idx;
        forall i | 0 <= i < ButtonCount && !enabled[i]
          ensures exists k | 0 <= k < |pending| :: pending[k].button == i
        {
          if i != idx {
            var k :| 0 <= k < |before| && before[k].button == i;
            assert pending[k] == before[k];
          }
        }
      }
    }

    /** start_recording_with_delay: disable the button, queue the recording. */
    method StartRecordingWithDelay(buttonName: string, button: nat)
      requires button < |enabled|
      modifies this
      ensures enabled == old(enabled)[button := false]
      ensures pending == old(pending) + [Pending(buttonName, button)]
      ensures camera1 == old(camera1) && camera2 == old(camera2)
      ensures command == old(command) && cells == old(cells)
    {
      enabled := enabled[button := false];
      pending := pending + [Pending(buttonName, button)];
    }

    /** select_cameras: open both cameras afresh. */
    method SelectCameras()
      modifies this
      ensures fresh(camera1) && fresh(camera2)
      ensures camera1.device == FrontDevice && camera2.device == BackDevice
      ensures enabled == old(enabled) && command == old(command) && cells == old(cells) && pending == old(pending)
    {
      camera1 := new Camera(FrontDevice);
      camera2 := new Camera(BackDevice);
    }

    /**
     * start_recording: reuse the cameras when both are open, otherwise open both; refuse
     * at the cap; otherwise record both clips; re-enable the button on every exit.
     * `existing1`/`existing2` are the `.mov` names the two label directories hold,
     * `ts1`/`ts2` the two `strftime` results, `script` the passes the loop could make.
     */
    method StartRecording<Frame>(
      buttonName: string, button: nat,
      existing1: set<string>, existing2: set<string>, ts1: string, ts2: string,
      script: seq<Iteration<Frame>>)
      returns (r: Recording<Frame>)
      requires button < |enabled|
      modifies this
      ensures old(camera1) != null && old(camera2) != null ==> camera1 == old(camera1) && camera2 == old(camera2)
      ensures old(camera1) == null || old(camera2) == null ==>
                fresh(camera1) && fresh(camera2) && camera1.device == FrontDevice && camera2.device == BackDevice
      ensures camera1 != null && camera2 != null
      ensures enabled == old(enabled)[button := true]
      ensures command == old(command) && cells == old(cells) && pending == old(pending)
      ensures r.CapReached? <==> |existing1| >= MaxClips || |existing2| >= MaxClips
      ensures r.Recorded? ==>
                && Some(r.clips) == PlanClips(buttonName, existing1, existing2, ts1, ts2)
                && |r.frames1| == |r.frames2| == FramesRecorded(script)
                && forall i | 0 <= i < |r.frames1| :: r.frames1[i] == script[i].read1.value && r.frames2[i] == script[i].read2.value
    {
      if camera1 == null || camera2 == null {
        SelectCameras();
      }
      var plan := PlanClips(buttonName, existing1, existing2, ts1, ts2);
      if plan.None? {
        enabled := enabled[button := true];
        return CapReached;
      }
      var frames1, frames2 := RecordBoth(script);
      r := Recorded(plan.value, frames1, frames2);
      enabled := enabled[button := true];
    }

    /** The oldest `root.after` callback fires: it leaves the queue and runs start_recording for its label and button. */
    method FireTimer<Frame>(
      existing1: set<string>, existing2: set<string>, ts1: string, ts2: string,
      script: seq<Iteration<Frame>>)
      returns (r: Recording<Frame>)
      requires Valid() && pending != []
      modifies this
      ensures Valid()
      ensures pending == old(pending)[1..]
      ensures enabled == old(enabled)[old(pending)[0].button := true]
      ensures camera1 != null && camera2 != null
      ensures old(camera1) != null && old(camera2) != null ==> camera1 == old(camera1) && camera2 == old(camera2)
      ensures old(camera1) == null || old(camera2) == null ==>
                fresh(camera1) && fresh(camera2) && camera1.device == FrontDevice && camera2.device == BackDevice
      ensures r.CapReached? <==> |existing1| >= MaxClips || |existing2| >= MaxClips
      ensures r.Recorded? ==>
                && Some(r.clips) == PlanClips(old(pending)[0].buttonName, existing1, existing2, ts1, ts2)
                && |r.frames1| == |r.frames2| == FramesRecorded(script)
                && forall i | 0 <= i < |r.frames1| :: r.frames1[i] == script[i].read1.value && r.frames2[i] == script[i].read2.value
    {
      var job := pending[0];
      pending := pending[1..];
      r := StartRecording(job.buttonName, job.button, existing1, existing2, ts1, ts2, script);
    }
  }
}
