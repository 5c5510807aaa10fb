/** The recording sink `AudioWriter` (one copy in `lib.rs`, an identical one in
    `audio.rs`). A WAV writer takes samples straight through; an MP3 writer
    buffers interleaved samples, hands one frame of 1152 samples per channel
    to the LAME encoder at a time, and appends the encoded bytes to its file.
    The encoder's answers and the outcome of each file write are inputs. */
module AudioWriting {
  import opened Common
  import opened LameEncoder

  /** Samples per channel in one MP3 frame. */
  const FrameSamplesPerChannel: nat := 1152

  /** Size of the output buffer handed to the encoder's final flush. */
  const FinalBufferLen: nat := 7200

  /** Size of the output buffer handed to `encode` for `n` samples per
      channel: `(n * 5 / 4 + 7200).max(16384)`. */
  function Mp3BufferLen(n: nat): (len: nat)
    ensures len >= 16384 && len >= n * 5 / 4 + 7200
  {
    if n * 5 / 4 + 7200 > 16384 then n * 5 / 4 + 7200 else 16384
  }

  /** `int_size` does not panic on a call to `encode` with `n` samples per
      channel. */
  predicate EncodeFits(n: nat) {
    n <= I32Max && Mp3BufferLen(n) <= I32Max
  }

  lemma EncodeFitsDownward(m: nat, n: nat)
    requires m <= n && EncodeFits(n)
    ensures EncodeFits(m)
  {
    assert m * 5 <= n * 5;
  }

  datatype Format = Wav | Mp3

  /** What the native encoder answers to one call: some bytes (possibly none)
      or a negative error code. */
  datatype NativeReply = Produced(bytes: seq<Byte>) | Failed(code: int)

  /** A reply the native encoder can give for an output buffer of `capacity`
      bytes: an error code is negative, and it never writes more bytes than
      the buffer holds, so the slice `[..bytes_written]` is in bounds. */
  predicate WellFormed(reply: NativeReply, capacity: nat) {
    && (reply.Failed? ==> reply.code < 0)
    && (reply.Produced? ==> |reply.bytes| <= capacity)
  }

  /** What `write_all` did with a non-empty byte slice: wrote all of it, or
      failed after its first `count` bytes had reached the file. A failure
      always leaves at least the last byte unwritten, so a larger count is
      read as all but the last byte. */
  datatype WriteOutcome = WroteAll | FailedAfter(count: nat)

  /** The part of `bytes` that reaches the file: a prefix, the whole slice
      exactly when the write succeeded. */
  function WrittenPart(w: WriteOutcome, bytes: seq<Byte>): (p: seq<Byte>)
    ensures |p| <= |bytes| && p == bytes[..|p|]
    ensures w.WroteAll? ==> p == bytes
    ensures w.FailedAfter? && bytes != [] ==> |p| < |bytes|
  {
    match w
    case WroteAll => bytes
    case FailedAfter(n) =>
      if n < |bytes| then bytes[..n] else if bytes == [] then [] else bytes[..|bytes| - 1]
  }

  /** Samples per channel the encoder receives for a buffer of `len`
      interleaved samples. */
  function PerChannel(len: nat, channels: nat): nat {
    if channels == 1 then len else (len + 1) / 2
  }

  /** The native return code: the byte count or the error code. */
  function ReturnCode(reply: NativeReply): int {
    match reply
    case Produced(bytes) => |bytes|
    case Failed(code) => code
  }

  /** The bytes a reply puts at the start of the output buffer. */
  function Output(reply: NativeReply): seq<Byte> {
    if reply.Produced? then reply.bytes else []
  }

  // ---- de-interleaving ----

  /** The left/right pair the encoder receives for a buffer: mono is duplicated
      to both channels; any other layout is split in pairs (even indices left,
      odd indices right) and an odd trailing sample is paired with 0. */
  function Split(buffer: seq<int>, channels: nat): (seq<int>, seq<int>) {
    if channels == 1 then (buffer, buffer)
    else
      var n := (|buffer| + 1) / 2;
      (seq(n, k requires 0 <= k < n => buffer[2 * k]),
       seq(n, k requires 0 <= k < n => if 2 * k + 1 < |buffer| then buffer[2 * k + 1] else 0))
  }

  /** Re-interleaves a left/right pair. */
  function Interleave(left: seq<int>, right: seq<int>): (r: seq<int>)
    requires |left| == |right|
    ensures |r| == 2 * |left|
  {
    if left == [] then [] else [left[0], right[0]] + Interleave(left[1..], right[1..])
  }

  /** Both channels always have the same length, which is what `encode`
      demands; mono keeps every sample, pairs halve the count rounding up. */
  lemma SplitLengths(buffer: seq<int>, channels: nat)
    ensures |Split(buffer, channels).0| == |Split(buffer, channels).1|
    ensures |Split(buffer, channels).0| == PerChannel(|buffer|, channels)
  {
  }

  /** Interleaving the split of a multi-channel buffer gives the buffer back,
      followed by the padding 0 when its length is odd. */
  lemma {:induction false} SplitInterleave(buffer: seq<int>, channels: nat)
    requires channels != 1
    ensures Interleave(Split(buffer, channels).0, Split(buffer, channels).1)
            == buffer + (if |buffer| % 2 == 1 then [0] else [])
    decreases |buffer|
  {
    var (l, r) := Split(buffer, channels);
    if |buffer| == 0 {
    } else if |buffer| == 1 {
      assert Interleave(l[1..], r[1..]) == [];
    } else {
      var rest := buffer[2..];
      SplitInterleave(rest, channels);
      var (l', r') := Split(rest, channels);
      assert l[1..] == l';
      assert r[1..] == r';
      assert buffer == [buffer[0], buffer[1]] + rest;
    }
  }

  /** `flush_mp3_buffer`'s left/right construction, as a loop over chunks of
      two. */
  method Deinterleave(buffer: seq<int>, channels: nat) returns (left: seq<int>, right: seq<int>)
    ensures (left, right) == Split(buffer, channels)
    ensures |left| == |right|
  {
    if channels == 1 {
      left, right := buffer, buffer;
      return;
    }
    left, right := [], [];
    var i := 0;
    while i < |buffer|
      invariant 0 <= i <= |buffer| + 1 && i % 2 == 0
      invariant |left| == |right| == i / 2
      invariant forall k :: 0 <= k < |left| ==> left[k] == buffer[2 * k]
      invariant forall k :: 0 <= k < |right| ==>
                  right[k] == if 2 * k + 1 < |buffer| then buffer[2 * k + 1] else 0
    {
      if i + 1 < |buffer| {
        left := left + [buffer[i]];
        right := right + [buffer[i + 1]];
      } else {
        left := left + [buffer[i]];
        right := right + [0];
      }
      i := i + 2;
    }
    var (l, r) := Split(buffer, channels);
    assert left == l;
    assert right == r;
  }

  // ---- the writer ----

  class AudioWriter {
    const format: Format
    /** Interleaved channels of the MP3 input. */
    const channels: nat
    /** The encoder (MP3 only). */
    const encoder: Lame?
    /** Samples waiting for a full frame (MP3 only). */
    var buffer: seq<int>
    /** Bytes of the MP3 file. */
    var file: seq<Byte>
    /** Samples the WAV writer accepted. */
    var wavSamples: seq<int>
    /** The WAV header was completed. */
    var wavFinalized: bool
    /** `finalize` consumed the writer. */
    var finalized: bool
    /** Every sample the writer accepted, in order. */
    ghost var written: seq<int>
    /** The buffers that were encoded and then cleared, in order. */
    ghost var flushed: seq<seq<int>>
    /** The left/right pairs handed to the encoder, in order. */
    ghost var encoderInputs: seq<(seq<int>, seq<int>)>

    /** The number of buffered samples that makes a frame. */
    function Frame(): nat
      reads this
    {
      FrameSamplesPerChannel * channels
    }

    ghost predicate Valid()
      reads this, encoder
    {
      && (format.Mp3? <==> encoder != null)
      && (format.Mp3? ==>
            && 1 <= channels <= U16Max
            && Flatten(flushed) + buffer == written
            && (encoder.closed <==> finalized))
      && (format.Wav? ==>
            && buffer == [] && flushed == [] && encoderInputs == [] && file == []
            && wavSamples == written)
    }

    /** `AudioWriter::Wav`: a fresh WAV writer. */
    constructor Wav()
      ensures Valid() && format.Wav? && !finalized && !wavFinalized
      ensures written == [] && wavSamples == []
    {
      format := Format.Wav;
      channels := 0;
      encoder := null;
      buffer, file, wavSamples := [], [], [];
      wavFinalized, finalized := false, false;
      written, flushed, encoderInputs := [], [], [];
    }

    /** `AudioWriter::Mp3 { encoder, file, buffer: Vec::new(), channels }`
        over a newly created file. A writer with 0 channels panics (division
        by zero) on its first sample, so channels must be at least 1. */
    constructor Mp3(lame: Lame, channels: nat)
      requires !lame.closed && 1 <= channels <= U16Max
      ensures Valid() && format.Mp3? && !finalized
      ensures this.encoder == lame && this.channels == channels
      ensures buffer == [] && file == [] && written == [] && encoderInputs == []
    {
      format := Format.Mp3;
      this.channels := channels;
      encoder := lame;
      buffer, file, wavSamples := [], [], [];
      wavFinalized, finalized := false, false;
      written, flushed, encoderInputs := [], [], [];
    }

    /** `flush_mp3_buffer`: an empty buffer is left alone; otherwise the buffer
        is split and encoded, the bytes produced are appended to the file, and
        the buffer is cleared whether or not the encoder failed. Only a failed
        file write is reported: the file keeps whatever prefix of the bytes
        reached it, and the buffer stays in place. */
    method FlushBuffer(reply: NativeReply, write: WriteOutcome) returns (ok: bool)
      requires Valid() && !finalized && format.Mp3?
      requires WellFormed(reply, Mp3BufferLen(PerChannel(|buffer|, channels)))
      requires EncodeFits(|buffer|)
      modifies this
      ensures Valid() && !finalized
      ensures written == old(written) && wavSamples == old(wavSamples) && wavFinalized == old(wavFinalized)
      ensures old(buffer) == [] ==>
                ok && buffer == [] && file == old(file) && flushed == old(flushed)
                && encoderInputs == old(encoderInputs)
      ensures old(buffer) != [] ==>
                && encoderInputs == old(encoderInputs) + [Split(old(buffer), channels)]
                && ok == (write.WroteAll? || Output(reply) == [])
                && (ok ==> buffer == [] && file == old(file) + Output(reply)
                           && flushed == old(flushed) + [old(buffer)])
                && (!ok ==> buffer == old(buffer) && flushed == old(flushed)
                            && file == old(file) + WrittenPart(write, Output(reply)))
    {
      if buffer == [] {
        return true;
      }
      var left, right := Deinterleave(buffer, channels);
      SplitLengths(buffer, channels);
      EncodeFitsDownward(|left|, |buffer|);
      var outcome := Encode(left, right, Mp3BufferLen(|left|), ReturnCode(reply));
      assert outcome.Returned?;
      // the bytes written fit the buffer handed to the encoder
      assert |Output(reply)| <= Mp3BufferLen(|left|);
      encoderInputs := encoderInputs + [(left, right)];
      match outcome.value {
        case Ok(bytesWritten) =>
          if bytesWritten > 0 {
            if !write.WroteAll? {
              file := file + WrittenPart(write, Output(reply));
              return false;
            }
            file := file + Output(reply);
          }
        case Err(_) =>
      }
      flushed := flushed + [buffer];
      buffer := [];
      ok := true;
    }

    /** `write_sample`. WAV: the sample goes straight to the WAV writer, and
        `write` only says whether that writer succeeded. MP3: the sample is
        buffered, and a buffer of at least a frame is flushed. */
    method WriteSample(sample: int, reply: NativeReply, write: WriteOutcome) returns (ok: bool)
      requires Valid() && !finalized && I16Min <= sample <= I16Max
      requires format.Mp3? ==> WellFormed(reply, Mp3BufferLen(PerChannel(|buffer| + 1, channels)))
      requires format.Mp3? ==> EncodeFits(|buffer| + 1)
      modifies this
      ensures Valid() && !finalized
      ensures format.Wav? ==>
                && ok == write.WroteAll?
                && written == old(written) + (if write.WroteAll? then [sample] else [])
                && buffer == old(buffer) && file == old(file)
      ensures format.Mp3? ==>
                var pending := old(buffer) + [sample];
                && written == old(written) + [sample]
                && (|pending| < Frame() ==>
                      ok && buffer == pending && file == old(file)
                      && encoderInputs == old(encoderInputs))
                && (|pending| >= Frame() ==>
                      && encoderInputs == old(encoderInputs) + [Split(pending, channels)]
                      && ok == (write.WroteAll? || Output(reply) == [])
                      && (ok ==> buffer == [] && file == old(file) + Output(reply))
                      && (!ok ==> buffer == pending
                                  && file == old(file) + WrittenPart(write, Output(reply))))
      // The property the frame test keeps: a writer whose buffer is below a
      // frame stays below it, and the frame it flushes is exactly one frame.
      ensures format.Mp3? && |old(buffer)| < Frame() ==>
                (ok ==> |buffer| < Frame())
                && (|encoderInputs| > |old(encoderInputs)| ==> |old(buffer)| + 1 == Frame())
    {
      if format.Wav? {
        if write.WroteAll? {
          wavSamples := wavSamples + [sample];
          written := written + [sample];
        }
        return write.WroteAll?;
      }
      buffer := buffer + [sample];
      written := written + [sample];
      if |buffer| >= Frame() {
        ok := FlushBuffer(reply, write);
      } else {
        ok := true;
      }
    }

    /** `finalize`: the partial frame is flushed first; then a WAV writer
        completes its header, while an MP3 writer appends the encoder's final
        bytes (a flush error is swallowed) and flushes the file. The writer is
        consumed and the encoder closed on every path. */
    method Finalize(frameReply: NativeReply, frameWrite: WriteOutcome, finalReply: NativeReply,
                    finalWrite: WriteOutcome, syncOk: bool, wavOk: bool) returns (ok: bool)
      requires Valid() && !finalized
      requires format.Mp3? ==> WellFormed(frameReply, Mp3BufferLen(PerChannel(|buffer|, channels)))
      requires format.Mp3? ==> WellFormed(finalReply, FinalBufferLen) && EncodeFits(|buffer|)
      modifies this, encoder
      ensures finalized && written == old(written)
      ensures format.Wav? ==> ok == wavOk && wavFinalized == wavOk && file == old(file)
      ensures format.Mp3? ==>
                && encoder.closed
                && var frameOk := old(buffer) == [] || frameWrite.WroteAll? || Output(frameReply) == [];
                   var frameBytes := if old(buffer) == [] then [] else Output(frameReply);
                   var finalOk := finalWrite.WroteAll? || Output(finalReply) == [];
                && encoderInputs == old(encoderInputs)
                     + (if old(buffer) == [] then [] else [Split(old(buffer), channels)])
                && (!frameOk ==> !ok && file == old(file) + WrittenPart(frameWrite, frameBytes))
                && (frameOk ==> buffer == [] && Flatten(flushed) == written)
                && (frameOk && !finalOk ==>
                      !ok && file == old(file) + frameBytes + WrittenPart(finalWrite, Output(finalReply)))
                && (frameOk && finalOk ==>
                      ok == syncOk && file == old(file) + frameBytes + Output(finalReply))
    {
      if format.Wav? {
        finalized := true;
        wavFinalized := wavOk;
        return wavOk;
      }
      var flushedOk := FlushBuffer(frameReply, frameWrite);
      if !flushedOk {
        encoder.Drop();
        finalized := true;
        return false;
      }
      var outcome := Flush(FinalBufferLen, ReturnCode(finalReply));
      assert outcome.Returned?;
      assert |Output(finalReply)| <= FinalBufferLen;
      ok := true;
      match outcome.value {
        case Ok(bytesWritten) =>
          if bytesWritten > 0 {
            if !finalWrite.WroteAll? {
              file := file + WrittenPart(finalWrite, Output(finalReply));
              ok := false;
            } else {
              file := file + Output(finalReply);
            }
          }
        case Err(_) =>
      }
      if ok && !syncOk {
        ok := false;
      }
      encoder.Drop();
      finalized := true;
    }
  }
}
