/** The recording commands of the application state: the two control slots
    (`stop_tx`, the stop sender of the running recording thread, and
    `done_rx`, the receiver of a manual recording's result), the choice of
    file extension and MP3 quality, and the conversion of unsigned 16-bit
    input samples. Threads, the audio device and the clock are outside the
    model: a channel is named by the number of the session that created it,
    and the clock reading and the documents folder are inputs. */
module Recorder {
  import opened Common

  // ---- format and quality tables ----

  /** The file extension chosen for a requested format: only "mp3" selects
      MP3, anything else falls back to WAV. */
  function FileExtension(format: string): (ext: string)
    ensures ext == "mp3" <==> format == "mp3"
    ensures ext != "mp3" ==> ext == "wav"
  {
    match format
    case "mp3" => "mp3"
    case _ => "wav"
  }

  /** The writer variant the recording thread builds for a format (a match
      written separately from the extension table). */
  function WriterIsMp3(format: string): bool {
    match format
    case "mp3" => true
    case _ => false
  }

  /** The two tables agree: the file gets the extension "mp3" exactly when the
      thread writes MP3 into it. */
  lemma ExtensionMatchesWriter(format: string)
    ensures FileExtension(format) == "mp3" <==> WriterIsMp3(format)
  {
  }

  /** An MP3 quality choice: bitrate in kbit/s and LAME's algorithm level
      (0 best, 9 fastest). */
  datatype QualitySetting = QualitySetting(bitrate: int, level: int)

  /** The quality-name table; an unknown name gets the "medium" setting. */
  function QualityFor(quality: string): (q: QualitySetting)
    ensures 0 <= q.level <= 9
    ensures quality == "verylow" ==> q == QualitySetting(64, 9)
    ensures quality == "low" ==> q == QualitySetting(128, 7)
    ensures quality == "high" ==> q == QualitySetting(320, 2)
    ensures quality != "verylow" && quality != "low" && quality != "high" ==> q == QualitySetting(192, 5)
  {
    match quality
    case "verylow" => QualitySetting(64, 9)
    case "low" => QualitySetting(128, 7)
    case "medium" => QualitySetting(192, 5)
    case "high" => QualitySetting(320, 2)
    case _ => QualitySetting(192, 5)
  }

  /** Across the table, a higher bitrate always comes with a better (lower)
      algorithm level, so the names order the settings consistently. */
  lemma QualityMonotone(a: string, b: string)
    ensures QualityFor(a).bitrate < QualityFor(b).bitrate <==> QualityFor(a).level > QualityFor(b).level
    ensures QualityFor(a).bitrate == QualityFor(b).bitrate <==> QualityFor(a) == QualityFor(b)
  {
  }

  // ---- unsigned input samples ----

  /** `(x as i32 - 32768) as i16`: re-centres an unsigned sample. The
      difference always fits an `i16`, so the cast never wraps. */
  function U16ToI16(x: int): (s: int)
    requires 0 <= x <= U16Max
    ensures I16Min <= s <= I16Max
    ensures x < 32768 <==> s < 0
  {
    x - 32768
  }

  /** The conversion is a bijection between the two ranges. */
  lemma U16ToI16Inverse(x: int, s: int)
    requires 0 <= x <= U16Max && I16Min <= s <= I16Max
    ensures U16ToI16(x) == s <==> x == s + 32768
  {
  }

  /** The conversion loop of the unsigned-sample stream callbacks. */
  method ConvertU16Buffer(data: seq<int>) returns (buf: seq<int>)
    requires forall i :: 0 <= i < |data| ==> 0 <= data[i] <= U16Max
    ensures |buf| == |data| && AllI16(buf)
    ensures forall i :: 0 <= i < |data| ==> buf[i] == U16ToI16(data[i])
  {
    buf := [];
    var i := 0;
    while i < |data|
      invariant 0 <= i <= |data| && |buf| == i
      invariant forall k :: 0 <= k < i ==> buf[k] == U16ToI16(data[k])
    {
      buf := buf + [U16ToI16(data[i])];
      i := i + 1;
    }
  }

  // ---- the default recording path ----

  /** `PathBuf::push` of a relative file name onto a folder: a separator is
      inserted only when the folder is non-empty and does not already end
      in one, so an empty folder gives the bare name. */
  function JoinPath(dir: string, name: string): (p: string)
    ensures |p| >= |dir| + |name| && p[|p| - |name|..] == name && p[..|dir|] == dir
    ensures dir == [] ==> p == name
    ensures dir != [] ==> |p| > |name|
  {
    if dir == [] then name
    else if dir[|dir| - 1] == '/' then dir + name
    else dir + "/" + name
  }

  /** Folder and name are separated by exactly one '/': the folder's own
      trailing one or a single inserted one. */
  lemma JoinPathOneSeparator(dir: string, name: string)
    requires dir != []
    ensures var p := JoinPath(dir, name);
      var between := p[|dir|..|p| - |name|];
      (dir[|dir| - 1] == '/' ==> between == []) && (dir[|dir| - 1] != '/' ==> between == "/")
  {
    var p := JoinPath(dir, name);
    if dir[|dir| - 1] != '/' {
      assert p == dir + "/" + name;
      assert p[|dir|..|p| - |name|] == "/";
    } else {
      assert p[|dir|..|p| - |name|] == [];
    }
  }

  /** `recording-%Y%m%d-%H%M%S.{ext}`; `stamp` is the clock reading already
      formatted as `%Y%m%d-%H%M%S`. */
  function RecordingFileName(stamp: string, ext: string): string {
    "recording-" + stamp + "." + ext
  }

  /** The output path of a manual recording: the path given, or a
      timestamped file in the documents folder (or the temporary folder,
      whichever `dir` is) with the format's extension. */
  function OutputPath(path: Option<string>, format: Option<string>, dir: string, stamp: string): (p: string)
    ensures path.Some? ==> p == path.value
    ensures path.None? ==>
              var name := RecordingFileName(stamp, FileExtension(UnwrapOr(format, "wav")));
              && |p| >= |name| && p[|p| - |name|..] == name
              && (dir == [] ==> p == name)
              && |p| >= |dir| && p[..|dir|] == dir
  {
    if path.Some? then path.value
    else JoinPath(dir, RecordingFileName(stamp, FileExtension(UnwrapOr(format, "wav"))))
  }

  // ---- the auto-recording settings ----

  const DefaultMinSpeechMs: nat := 300
  const DefaultSilenceMs: nat := 800
  const DefaultPreRollMs: nat := 250

  /** Integer settings of an armed voice-activated session (the threshold is a
      float and is left out). */
  datatype AutoSettings = AutoSettings(minSpeechMs: nat, silenceMs: nat, preRollMs: nat, format: string, quality: string)

  /** Each missing setting takes its default. */
  function ResolveAutoSettings(minSpeechMs: Option<nat>, silenceMs: Option<nat>, preRollMs: Option<nat>,
                               format: Option<string>, quality: Option<string>): (s: AutoSettings)
    ensures minSpeechMs.Some? ==> s.minSpeechMs == minSpeechMs.value
    ensures minSpeechMs.None? ==> s.minSpeechMs == 300
    ensures silenceMs.Some? ==> s.silenceMs == silenceMs.value
    ensures silenceMs.None? ==> s.silenceMs == 800
    ensures preRollMs.Some? ==> s.preRollMs == preRollMs.value
    ensures preRollMs.None? ==> s.preRollMs == 250
    ensures format.Some? ==> s.format == format.value
    ensures format.None? ==> s.format == "wav"
    ensures quality.Some? ==> s.quality == quality.value
    ensures quality.None? ==> s.quality == "high"
  {
    AutoSettings(
      if minSpeechMs.Some? then minSpeechMs.value else DefaultMinSpeechMs,
      if silenceMs.Some? then silenceMs.value else DefaultSilenceMs,
      if preRollMs.Some? then preRollMs.value else DefaultPreRollMs,
      UnwrapOr(format, "wav"), UnwrapOr(quality, "high"))
  }

  // ---- the control slots ----

  const AlreadyRecording := "Recording already in progress"
  const AlreadyActive := "Another recording is already active"
  const NotArmed := "Auto recording not active"
  const NoActiveRecording := "No active recording"
  const NoCompletionChannel := "Internal error: no completion channel"
  /** `format!("Recording thread error: {e}")` of a `RecvError`. */
  const ThreadGone := "Recording thread error: receiving on a closed channel"

  /** `AppState`. A slot holds the number of the session whose channel it is. */
  class AppState {
    /** The stop sender of the running recording thread. */
    var stopTx: Option<nat>
    /** The result receiver of a manual recording. */
    var doneRx: Option<nat>
    /** Sessions started so far; the next one gets this number. */
    var sessions: nat
    /** Sessions whose stop sender left the state, by a send or by being
        dropped; either way the thread's wait for a stop signal ends. */
    ghost var released: seq<nat>

    /** A slot only ever names a session that was started and not released,
        and when both slots are full they belong to the same session. */
    ghost predicate Valid()
      reads this
    {
      && (stopTx.Some? ==> stopTx.value < sessions && stopTx.value !in released)
      && (doneRx.Some? ==> doneRx.value < sessions)
      && (stopTx.Some? && doneRx.Some? ==> stopTx == doneRx)
      && (forall i :: 0 <= i < |released| ==> released[i] < sessions)
    }

    /** `AppState::default()`: both slots empty. */
    constructor ()
      ensures Valid() && stopTx.None? && doneRx.None? && released == []
    {
      stopTx, doneRx, sessions := None, None, 0;
      released := [];
    }

    /** `start_recording`: refuses while a recording thread runs; otherwise
        starts a session holding both its stop sender and its result receiver
        and returns the output path. */
    method StartRecording(path: Option<string>, format: Option<string>, dir: string, stamp: string)
      returns (r: Result<string, string>)
      requires Valid()
      modifies this
      ensures Valid() && released == old(released)
      ensures old(stopTx).Some? ==>
                r == Err(AlreadyRecording) && stopTx == old(stopTx) && doneRx == old(doneRx)
                && sessions == old(sessions)
      ensures old(stopTx).None? ==>
                && r == Ok(OutputPath(path, format, dir, stamp))
                && stopTx == Some(old(sessions)) && doneRx == Some(old(sessions))
                && sessions == old(sessions) + 1
    {
      if stopTx.Some? {
        return Err(AlreadyRecording);
      }
      var outPath := OutputPath(path, format, dir, stamp);
      var session := sessions;
      sessions := sessions + 1;
      stopTx := Some(session);
      doneRx := Some(session);
      r := Ok(outPath);
    }

    /** `arm_auto_recording`: refuses while a recording thread runs; otherwise
        starts a session holding only its stop sender (a voice-activated
        session reports no result) and clears the result slot. */
    method ArmAutoRecording() returns (r: Result<(), string>)
      requires Valid()
      modifies this
      ensures Valid() && released == old(released)
      ensures old(stopTx).Some? ==>
                r == Err(AlreadyActive) && stopTx == old(stopTx) && doneRx == old(doneRx)
                && sessions == old(sessions)
      ensures old(stopTx).None? ==>
                r == Ok(()) && stopTx == Some(old(sessions)) && doneRx.None?
                && sessions == old(sessions) + 1
    {
      if stopTx.Some? {
        return Err(AlreadyActive);
      }
      var session := sessions;
      sessions := sessions + 1;
      stopTx := Some(session);
      doneRx := None;
      r := Ok(());
    }

    /** `disarm_auto_recording`: takes the stop sender and signals it; the
        result slot is left alone. */
    method DisarmAutoRecording() returns (r: Result<(), string>)
      requires Valid()
      modifies this
      ensures Valid() && stopTx.None? && doneRx == old(doneRx) && sessions == old(sessions)
      ensures old(stopTx).None? ==> r == Err(NotArmed) && released == old(released)
      ensures old(stopTx).Some? ==> r == Ok(()) && released == old(released) + [old(stopTx).value]
    {
      if stopTx.Some? {
        released := released + [stopTx.value];
        stopTx := None;
        return Ok(());
      }
      r := Err(NotArmed);
    }

    /** `stop_recording`: takes both slots first, then needs both; it signals
        the thread and returns the result the thread reports. `reply` is what
        the blocking receive yields: the thread's result, or None when the
        thread ended without sending one. */
    method StopRecording(reply: Option<Result<string, string>>) returns (r: Result<string, string>)
      requires Valid()
      modifies this
      ensures Valid() && stopTx.None? && doneRx.None? && sessions == old(sessions)
      ensures old(stopTx).Some? ==> released == old(released) + [old(stopTx).value]
      ensures old(stopTx).None? ==> released == old(released)
      ensures old(stopTx).None? ==> r == Err(NoActiveRecording)
      ensures old(stopTx).Some? && old(doneRx).None? ==> r == Err(NoCompletionChannel)
      ensures old(stopTx).Some? && old(doneRx).Some? ==>
                r == (if reply.Some? then reply.value else Err(ThreadGone))
    {
      var tx := stopTx;
      stopTx := None;
      var rx := doneRx;
      doneRx := None;
      if tx.None? {
        return Err(NoActiveRecording);
      }
      // The sender is signalled below or dropped on the early return; both
      // end the thread's wait.
      released := released + [tx.value];
      if rx.None? {
        return Err(NoCompletionChannel);
      }
      match reply {
        case Some(res) => r := res;
        case None => r := Err(ThreadGone);
      }
    }
  }

  /** After a voice-activated session, `stop_recording` cannot return a
      recording result: the session never had a result receiver. */
  method ArmThenStop(state: AppState, reply: Option<Result<string, string>>) returns (r: Result<string, string>)
    requires state.Valid() && state.stopTx.None?
    modifies state
    ensures r == Err(NoCompletionChannel)
    ensures state.stopTx.None? && state.doneRx.None?
  {
    var armed := state.ArmAutoRecording();
    r := state.StopRecording(reply);
  }
}
