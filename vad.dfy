/** The voice-activated recorder's per-chunk logic (`process_chunk`): a
    pre-roll ring buffer of the most recent samples, and hysteresis counters
    that start writing after enough speech and stop after enough silence,
    followed by a cooldown. The floating-point energy test is an input
    (`loud`: the smoothed level or the peak is above the threshold), and so is
    the chunk's duration in whole milliseconds. The samples the chunk hands to
    the session writer are the output. */
module VoiceActivity {
  import opened Common

  /** Cooldown set after a segment ends, to avoid retriggering at once. */
  const CooldownMs: nat := 500

  /** `((pre_roll_ms * sample_rate / 1000) * channels)`: the pre-roll length in
      interleaved samples, whole frames only. */
  function PreRollCapacity(preRollMs: nat, sampleRate: nat, channels: nat): (cap: nat)
    ensures var total := preRollMs * sampleRate;
            exists frames: nat {:trigger frames * channels} ::
              cap == frames * channels && frames * 1000 <= total < frames * 1000 + 1000
  {
    var total := preRollMs * sampleRate;
    var frames := total / 1000;
    assert frames * 1000 <= total < frames * 1000 + 1000;
    frames * channels
  }

  /** The number of samples the ring buffer actually keeps: a capacity of 0
      still keeps the newest sample, since the push follows the eviction. */
  function Kept(capacity: nat): nat {
    if capacity == 0 then 1 else capacity
  }

  /** The last `n` elements of `s` (all of them when there are fewer). */
  function Last<T>(s: seq<T>, n: nat): (r: seq<T>)
    ensures |r| <= n && |r| <= |s|
  {
    if |s| <= n then s else s[|s| - n..]
  }

  /** One push into the ring buffer: evict the oldest sample when full, then
      append. */
  function RingPush(prebuf: seq<int>, x: int, capacity: nat): seq<int> {
    (if |prebuf| >= capacity && prebuf != [] then prebuf[1..] else prebuf) + [x]
  }

  /** The ring buffer after a chunk, sample by sample. */
  function RingPushAll(prebuf: seq<int>, chunk: seq<int>, capacity: nat): seq<int> {
    if chunk == [] then prebuf
    else RingPush(RingPushAll(prebuf, chunk[..|chunk| - 1], capacity), chunk[|chunk| - 1], capacity)
  }

  lemma LastPush<T>(s: seq<T>, x: T, n: nat)
    requires n >= 1
    ensures Last(s + [x], n) == (if |Last(s, n)| >= n then Last(s, n)[1..] else Last(s, n)) + [x]
  {
  }

  /** The ring buffer always holds exactly the most recent `Kept(capacity)`
      samples seen. */
  lemma {:induction false} RingPushAllLast(seen: seq<int>, chunk: seq<int>, capacity: nat)
    ensures RingPushAll(Last(seen, Kept(capacity)), chunk, capacity) == Last(seen + chunk, Kept(capacity))
  {
    if chunk != [] {
      var init, x := chunk[..|chunk| - 1], chunk[|chunk| - 1];
      RingPushAllLast(seen, init, capacity);
      assert seen + chunk == (seen + init) + [x];
      LastPush(seen + init, x, Kept(capacity));
    }
  }

  /** The detector's counters and ring buffer. */
  datatype VadState = VadState(aboveMs: nat, belowMs: nat, cooldownMs: nat, recording: bool, prebuf: seq<int>)

  /** Thresholds of an armed session. */
  datatype VadConfig = VadConfig(minSpeechMs: nat, silenceMs: nat, capacity: nat)

  /** The state of a freshly armed session. */
  function Initial(): VadState {
    VadState(0, 0, 0, false, [])
  }

  /** One chunk: update the ring buffer, then advance the counters. Returns
      the new state and the samples handed to the writer. */
  function Step(cfg: VadConfig, st: VadState, chunk: seq<int>, chunkMs: nat, loud: bool): (VadState, seq<int>) {
    Advance(cfg, st, RingPushAll(st.prebuf, chunk, cfg.capacity), chunk, chunkMs, loud)
  }

  /** The counters' part of a chunk, given the updated ring buffer: the
      cooldown runs down, voice counts only once it is over, and the
      hysteresis starts or ends a segment. */
  function Advance(cfg: VadConfig, st: VadState, prebuf: seq<int>, chunk: seq<int>, chunkMs: nat, loud: bool): (VadState, seq<int>) {
    var cooldown := if st.cooldownMs > 0 then SaturatingSub(st.cooldownMs, chunkMs) else st.cooldownMs;
    if cooldown == 0 && loud then
      var above := st.aboveMs + chunkMs;
      var start := above >= cfg.minSpeechMs && !st.recording;
      var recording := st.recording || start;
      var out := (if start then prebuf else []) + (if recording then chunk else []);
      (VadState(above, 0, cooldown, recording, prebuf), out)
    else if st.recording then
      var below := st.belowMs + chunkMs;
      if below >= cfg.silenceMs then (VadState(0, 0, CooldownMs, false, prebuf), chunk)
      else (VadState(0, below, cooldown, true, prebuf), chunk)
    else
      (VadState(0, st.belowMs, cooldown, false, prebuf), [])
  }

  /** Voice is never detected during a cooldown that outlasts the chunk: speech
      counting restarts from 0 and nothing new starts. */
  lemma CooldownBlocksDetection(cfg: VadConfig, st: VadState, chunk: seq<int>, chunkMs: nat, loud: bool)
    requires st.cooldownMs > chunkMs
    ensures Step(cfg, st, chunk, chunkMs, loud).0.aboveMs == 0
    ensures !st.recording ==> Step(cfg, st, chunk, chunkMs, loud).0.cooldownMs == st.cooldownMs - chunkMs
    ensures !st.recording ==> Step(cfg, st, chunk, chunkMs, loud).1 == [] && !Step(cfg, st, chunk, chunkMs, loud).0.recording
  {
  }

  /** Crossing the speech threshold while idle starts a segment: the writer
      gets the whole pre-roll (which already ends with this chunk) and then the
      chunk. */
  lemma StartWritesPreRoll(cfg: VadConfig, st: VadState, chunk: seq<int>, chunkMs: nat)
    requires !st.recording && st.cooldownMs <= chunkMs && st.aboveMs + chunkMs >= cfg.minSpeechMs
    ensures var (st', out) := Step(cfg, st, chunk, chunkMs, true);
            st'.recording && st'.belowMs == 0
            && out == RingPushAll(st.prebuf, chunk, cfg.capacity) + chunk
  {
  }

  /** While idle, speech shorter than the minimum writes nothing. */
  lemma ShortSpeechWritesNothing(cfg: VadConfig, st: VadState, chunk: seq<int>, chunkMs: nat, loud: bool)
    requires !st.recording && st.aboveMs + chunkMs < cfg.minSpeechMs
    ensures Step(cfg, st, chunk, chunkMs, loud).1 == [] && !Step(cfg, st, chunk, chunkMs, loud).0.recording
  {
  }

  /** A quiet chunk resets the speech counter; while recording it is still
      written, and once the silence reaches the limit the segment ends and the
      cooldown starts. */
  lemma QuietChunk(cfg: VadConfig, st: VadState, chunk: seq<int>, chunkMs: nat)
    ensures var (st', out) := Step(cfg, st, chunk, chunkMs, false);
            && st'.aboveMs == 0
            && (st.recording ==> out == chunk)
            && (!st.recording ==> out == [] && !st'.recording)
            && (st.recording && st.belowMs + chunkMs >= cfg.silenceMs ==>
                  !st'.recording && st'.belowMs == 0 && st'.cooldownMs == CooldownMs)
            && (st.recording && st.belowMs + chunkMs < cfg.silenceMs ==>
                  st'.recording && st'.belowMs == st.belowMs + chunkMs)
  {
  }

  /** Every chunk processed while a segment is open is written, whether it is
      loud or not. */
  lemma RecordingWritesChunk(cfg: VadConfig, st: VadState, chunk: seq<int>, chunkMs: nat, loud: bool)
    requires st.recording
    ensures Step(cfg, st, chunk, chunkMs, loud).1 == chunk
  {
  }

  /** Processing a run of chunks; the result is the final state and everything
      written. */
  function Run(cfg: VadConfig, st: VadState, chunks: seq<seq<int>>, ms: seq<nat>, loud: seq<bool>): (VadState, seq<int>)
    requires |chunks| == |ms| == |loud|
  {
    if chunks == [] then (st, [])
    else
      var n := |chunks| - 1;
      var (mid, out) := Run(cfg, st, chunks[..n], ms[..n], loud[..n]);
      var (last, out') := Step(cfg, mid, chunks[n], ms[n], loud[n]);
      (last, out + out')
  }

  /** After a segment ends, chunks that together last less than the cooldown
      write nothing, however loud they are. */
  lemma {:induction false} CooldownSilencesRun(cfg: VadConfig, st: VadState, chunks: seq<seq<int>>, ms: seq<nat>, loud: seq<bool>)
    requires |chunks| == |ms| == |loud|
    requires !st.recording && Sum(ms) < st.cooldownMs
    ensures Run(cfg, st, chunks, ms, loud).1 == []
    ensures !Run(cfg, st, chunks, ms, loud).0.recording
    ensures Run(cfg, st, chunks, ms, loud).0.cooldownMs == st.cooldownMs - Sum(ms)
  {
    if chunks != [] {
      var n := |chunks| - 1;
      assert ms == ms[..n] + [ms[n]];
      CooldownSilencesRun(cfg, st, chunks[..n], ms[..n], loud[..n]);
      var mid := Run(cfg, st, chunks[..n], ms[..n], loud[..n]).0;
      CooldownBlocksDetection(cfg, mid, chunks[n], ms[n], loud[n]);
    }
  }

  /** The detector of one armed session. */
  class VoiceDetector {
    const config: VadConfig
    var aboveMs: nat
    var belowMs: nat
    var cooldownMs: nat
    var recording: bool
    /** The pre-roll `VecDeque`. */
    var prebuf: seq<int>
    /** Every sample processed so far. */
    ghost var seen: seq<int>

    function State(): VadState
      reads this
    {
      VadState(aboveMs, belowMs, cooldownMs, recording, prebuf)
    }

    ghost predicate Valid()
      reads this
    {
      prebuf == Last(seen, Kept(config.capacity))
    }

    constructor (minSpeechMs: nat, silenceMs: nat, capacity: nat)
      ensures Valid() && State() == Initial() && seen == []
      ensures config == VadConfig(minSpeechMs, silenceMs, capacity)
    {
      config := VadConfig(minSpeechMs, silenceMs, capacity);
      aboveMs, belowMs, cooldownMs, recording, prebuf := 0, 0, 0, false, [];
      seen := [];
    }

    /** `process_chunk`. The returned samples are the ones handed to
        `write_sample`, in order. */
    method ProcessChunk(chunk: seq<int>, chunkMs: nat, loud: bool) returns (out: seq<int>)
      requires Valid()
      modifies this
      ensures Valid() && seen == old(seen) + chunk
      ensures (State(), out) == Step(config, old(State()), chunk, chunkMs, loud)
      ensures prebuf == Last(seen, Kept(config.capacity))
    {
      // Maintain the pre-roll buffer.
      prebuf := PushChunk(prebuf, chunk, config.capacity);
      RingPushAllLast(seen, chunk, config.capacity);
      seen := seen + chunk;
      out := Detect(chunk, chunkMs, loud);
    }

    /** The part of `process_chunk` after the pre-roll update: cooldown, voice
        decision and hysteresis. */
    method Detect(chunk: seq<int>, chunkMs: nat, loud: bool) returns (out: seq<int>)
      modifies this
      ensures prebuf == old(prebuf) && seen == old(seen)
      ensures (State(), out) == Advance(config, old(State()), prebuf, chunk, chunkMs, loud)
    {
      ghost var st0 := State();
      if cooldownMs > 0 {
        cooldownMs := SaturatingSub(cooldownMs, chunkMs);
      }
      var voiceDetected := cooldownMs == 0 && loud;

      out := [];
      if voiceDetected {
        aboveMs := aboveMs + chunkMs;
        if aboveMs >= config.minSpeechMs && !recording {
          recording := true;
          out := WriteAll(out, prebuf);
          assert out == prebuf;
        }
        if recording {
          out := WriteAll(out, chunk);
        }
        belowMs := 0;
      } else {
        aboveMs := 0;
        if recording {
          belowMs := belowMs + chunkMs;
          out := WriteAll(out, chunk);
          assert out == chunk;
          if belowMs >= config.silenceMs {
            recording := false;
            belowMs := 0;
            cooldownMs := CooldownMs;
          }
        }
      }
      ghost var r := Advance(config, st0, prebuf, chunk, chunkMs, loud);
      assert State().recording == r.0.recording;
      assert State().aboveMs == r.0.aboveMs;
      assert State().belowMs == r.0.belowMs;
      assert State().cooldownMs == r.0.cooldownMs;
      assert State().prebuf == r.0.prebuf;
      assert out == r.1;
    }
  }

  /** The pre-roll loop: evict the oldest sample when the buffer is full, then
      push the new one. */
  method PushChunk(prebuf: seq<int>, chunk: seq<int>, capacity: nat) returns (r: seq<int>)
    ensures r == RingPushAll(prebuf, chunk, capacity)
  {
    r := prebuf;
    var i := 0;
    while i < |chunk|
      invariant 0 <= i <= |chunk|
      invariant r == RingPushAll(prebuf, chunk[..i], capacity)
    {
      if |r| >= capacity && r != [] {
        r := r[1..];
      }
      r := r + [chunk[i]];
      assert chunk[..i + 1][..i] == chunk[..i];
      i := i + 1;
    }
    assert chunk[..|chunk|] == chunk;
  }

  /** `for &s in samples { w.write_sample(s) }`: the samples reach the writer
      in order. */
  method WriteAll(out: seq<int>, samples: seq<int>) returns (out': seq<int>)
    ensures out' == out + samples
  {
    out' := out;
    var k := 0;
    while k < |samples|
      invariant 0 <= k <= |samples| && out' == out + samples[..k]
    {
      out' := out' + [samples[k]];
      k := k + 1;
    }
    assert samples[..|samples|] == samples;
  }

  // ---- the duplicated chunk at a segment start ----

  /** As written, a segment start writes the current chunk twice whenever the
      ring buffer can hold it: once as the tail of the pre-roll and once as
      the current audio. */
  lemma StartDuplicatesChunk()
    ensures var cfg := VadConfig(0, 800, 4);
            Step(cfg, Initial(), [1, 2], 10, true).1 == [1, 2, 1, 2]
  {
    var chunk: seq<int> := [1, 2];
    assert chunk[..1] == [1];
    assert RingPushAll([], chunk[..1], 4) == [1];
    assert RingPushAll([], chunk, 4) == [1, 2];
  }

  /** The evidently intended start: the pre-roll as it was before this
      chunk, then the whole live chunk, so the onset is kept, the chunk is
      not clipped and no sample is written twice. */
  function StepIntended(cfg: VadConfig, st: VadState, chunk: seq<int>, chunkMs: nat, loud: bool): (VadState, seq<int>) {
    var (st', out) := Step(cfg, st, chunk, chunkMs, loud);
    var start := st'.recording && !st.recording;
    (st', if start then st.prebuf + chunk else out)
  }

  /** With the intended start, a segment start writes the most recent
      `Kept(capacity)` samples heard before the chunk and then the whole
      chunk: one contiguous stretch at the end of the input stream, so every
      sample it writes is written once. */
  lemma StepIntendedStartIsSuffix(cfg: VadConfig, seen: seq<int>, st: VadState, chunk: seq<int>, chunkMs: nat, loud: bool)
    requires st.prebuf == Last(seen, Kept(cfg.capacity)) && !st.recording
    requires StepIntended(cfg, st, chunk, chunkMs, loud).0.recording
    ensures var out := StepIntended(cfg, st, chunk, chunkMs, loud).1;
            && out == Last(seen, Kept(cfg.capacity)) + chunk
            && |out| <= |seen + chunk| && out == (seen + chunk)[|seen + chunk| - |out|..]
            && out[|out| - |chunk|..] == chunk
  {
    var kept := Last(seen, Kept(cfg.capacity));
    assert kept == seen[|seen| - |kept|..];
    assert (seen + chunk)[|seen| - |kept|..] == seen[|seen| - |kept|..] + chunk;
  }
}
