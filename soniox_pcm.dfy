/** The audio frames sent to the speech service (`to_pcm16_mono_16k`): a
    downmix of interleaved 16-bit samples to mono by truncating integer
    average, serialised as little-endian 16-bit PCM. */
module SonioxPcm {
  import opened Common

  /** The mono signal: the input itself for one channel (or none), otherwise
      one sample per group of `channels` interleaved samples
      (`chunks(channels)`), the group's sum divided by `channels` rounding
      toward zero. A short trailing group is still divided by `channels`. */
  function Downmix(samples: seq<int>, channels: nat): (mono: seq<int>)
  {
    if channels <= 1 then samples else Groups(samples, channels)
  }

  function Groups(samples: seq<int>, channels: nat): (mono: seq<int>)
    requires channels >= 1
    decreases |samples|
  {
    if samples == [] then []
    else
      var n := if channels <= |samples| then channels else |samples|;
      [TruncDiv(Sum(samples[..n]), channels)] + Groups(samples[n..], channels)
  }

  /** One output sample per group: `ceil(len / channels)` of them. */
  lemma {:induction false} GroupsLength(samples: seq<int>, channels: nat)
    requires channels >= 1
    ensures |samples| <= |Groups(samples, channels)| * channels < |samples| + channels
    decreases |samples|
  {
    if samples != [] {
      if channels <= |samples| {
        GroupsLength(samples[channels..], channels);
        var g := |Groups(samples[channels..], channels)|;
        assert |Groups(samples, channels)| == g + 1;
        MulAddOne(g, channels);
      } else {
        assert samples[|samples|..] == [];
        assert |Groups(samples, channels)| == 1;
      }
    }
  }

  lemma {:induction false} SumBounds(s: seq<int>)
    requires AllI16(s)
    ensures |s| * I16Min <= Sum(s) <= |s| * I16Max
  {
    if s != [] {
      SumBounds(s[..|s| - 1]);
    }
  }

  lemma MulAddOne(g: int, c: int)
    ensures (g + 1) * c == g * c + c
  {
  }

  lemma MulMono(x: int, y: int, c: int)
    requires x <= y && c >= 0
    ensures x * c <= y * c
  {
    assert y * c - x * c == (y - x) * c;
  }

  /** The truncated average of at most `channels` samples is an `i16`. */
  lemma AverageInRange(g: seq<int>, channels: nat)
    requires AllI16(g) && 1 <= |g| <= channels
    ensures I16Min <= TruncDiv(Sum(g), channels) <= I16Max
  {
    SumBounds(g);
    var q := TruncDiv(Sum(g), channels);
    if q > I16Max {
      MulMono(I16Max + 1, q, channels);
    } else if q < I16Min {
      MulMono(q, I16Min - 1, channels);
    }
  }

  /** The `i32` sum of a group never wraps and the cast `as i16` of the
      average never truncates: every run of at most `channels` consecutive
      samples (a group, or the running sum part-way through one) sums within
      `i32`, since 65535 * 32768 < 2^31, and the mono signal is again
      16-bit. */
  lemma {:induction false} DownmixInRange(samples: seq<int>, channels: nat)
    requires AllI16(samples) && channels <= U16Max
    ensures forall j, k :: 0 <= j <= k <= |samples| && k - j <= channels ==>
              I32Min <= Sum(samples[j..k]) <= I32Max
    ensures AllI16(Downmix(samples, channels))
  {
    forall j, k | 0 <= j <= k <= |samples| && k - j <= channels
      ensures I32Min <= Sum(samples[j..k]) <= I32Max
    {
      RunSumInRange(samples, j, k);
    }
    if channels >= 2 {
      GroupsInRange(samples, channels);
    }
  }

  lemma RunSumInRange(samples: seq<int>, j: nat, k: nat)
    requires AllI16(samples) && j <= k <= |samples| && k - j <= U16Max
    ensures I32Min <= Sum(samples[j..k]) <= I32Max
  {
    var g := samples[j..k];
    assert AllI16(g) by {
      forall i | 0 <= i < |g| ensures I16Min <= g[i] <= I16Max {
        assert g[i] == samples[j + i];
      }
    }
    SumBounds(g);
  }

  lemma {:induction false} GroupsInRange(samples: seq<int>, channels: nat)
    requires AllI16(samples) && channels >= 1
    ensures AllI16(Groups(samples, channels))
    decreases |samples|
  {
    if samples != [] {
      var n := if channels <= |samples| then channels else |samples|;
      AverageInRange(samples[..n], channels);
      GroupsInRange(samples[n..], channels);
    }
  }

  /** `i16::to_le_bytes`: the two's complement low byte, then the high byte. */
  function LeBytes(s: int): (b: seq<Byte>)
    requires I16Min <= s <= I16Max
    ensures |b| == 2
  {
    var u := if s < 0 then s + 0x1_0000 else s;
    [u % 256, u / 256]
  }

  /** `i16::from_le_bytes`. */
  function FromLeBytes(lo: Byte, hi: Byte): (s: int)
    ensures I16Min <= s <= I16Max
  {
    var u := hi * 256 + lo;
    if u >= 0x8000 then u - 0x1_0000 else u
  }

  /** Reading back the bytes of a sample gives the sample. */
  lemma LeBytesRoundTrip(s: int)
    requires I16Min <= s <= I16Max
    ensures FromLeBytes(LeBytes(s)[0], LeBytes(s)[1]) == s
  {
  }

  /** The bytes of a sequence of samples, two per sample. */
  function Serialize(mono: seq<int>): (bytes: seq<Byte>)
    requires AllI16(mono)
    ensures |bytes| == 2 * |mono|
  {
    if mono == [] then [] else Serialize(mono[..|mono| - 1]) + LeBytes(mono[|mono| - 1])
  }

  /** Sample `k` occupies bytes `2k` and `2k + 1`. */
  lemma {:induction false} SerializeAt(mono: seq<int>, k: nat)
    requires AllI16(mono) && k < |mono|
    ensures Serialize(mono)[2 * k..2 * k + 2] == LeBytes(mono[k])
    ensures FromLeBytes(Serialize(mono)[2 * k], Serialize(mono)[2 * k + 1]) == mono[k]
  {
    var init := mono[..|mono| - 1];
    if k < |mono| - 1 {
      SerializeAt(init, k);
      assert Serialize(mono)[..2 * |init|] == Serialize(init);
    }
    LeBytesRoundTrip(mono[k]);
  }

  /** `to_pcm16_mono_16k` for input already at 16000 Hz. */
  method ToPcm16Mono16k(samples: seq<int>, channels: nat, sampleRate: nat) returns (bytes: seq<Byte>)
    requires AllI16(samples) && channels <= U16Max
    requires sampleRate == 16000
    ensures AllI16(Downmix(samples, channels)) && bytes == Serialize(Downmix(samples, channels))
  {
    DownmixInRange(samples, channels);
    var mono: seq<int>;
    if channels <= 1 {
      mono := samples;
    } else {
      mono := DownmixLoop(samples, channels);
    }
    bytes := SerializeLoop(mono);
  }

  /** The averaging loop over `chunks(channels)`. */
  method DownmixLoop(samples: seq<int>, channels: nat) returns (mono: seq<int>)
    requires channels >= 1
    ensures mono == Groups(samples, channels)
  {
    mono := [];
    var start := 0;
    while start < |samples|
      invariant 0 <= start <= |samples|
      invariant mono + Groups(samples[start..], channels) == Groups(samples, channels)
    {
      var end := if start + channels <= |samples| then start + channels else |samples|;
      var sum := SumLoop(samples, start, end);
      assert samples[start..][..end - start] == samples[start..end];
      assert samples[start..][end - start..] == samples[end..];
      mono := mono + [TruncDiv(sum, channels)];
      start := end;
    }
    assert samples[start..] == [];
  }

  /** The sum of one group, accumulated sample by sample. */
  method SumLoop(samples: seq<int>, start: nat, end: nat) returns (sum: int)
    requires start <= end <= |samples|
    ensures sum == Sum(samples[start..end])
  {
    sum := 0;
    var i := start;
    while i < end
      invariant start <= i <= end && sum == Sum(samples[start..i])
    {
      assert samples[start..i + 1][..i - start] == samples[start..i];
      sum := sum + samples[i];
      i := i + 1;
    }
  }

  /** The serialising loop: each sample's little-endian bytes in order. */
  method SerializeLoop(mono: seq<int>) returns (bytes: seq<Byte>)
    requires AllI16(mono)
    ensures bytes == Serialize(mono)
  {
    bytes := [];
    var j := 0;
    while j < |mono|
      invariant 0 <= j <= |mono| && bytes == Serialize(mono[..j])
    {
      assert mono[..j + 1][..j] == mono[..j];
      bytes := bytes + LeBytes(mono[j]);
      j := j + 1;
    }
    assert mono[..|mono|] == mono;
  }

  /** Mono input at 16000 Hz is sent unchanged, two bytes per sample. */
  lemma MonoIdentity(samples: seq<int>)
    requires AllI16(samples)
    ensures |Serialize(Downmix(samples, 1))| == 2 * |samples|
    ensures forall k :: 0 <= k < |samples| ==>
              FromLeBytes(Serialize(Downmix(samples, 1))[2 * k], Serialize(Downmix(samples, 1))[2 * k + 1]) == samples[k]
  {
    forall k | 0 <= k < |samples|
      ensures FromLeBytes(Serialize(samples)[2 * k], Serialize(samples)[2 * k + 1]) == samples[k]
    {
      SerializeAt(samples, k);
    }
  }

  /** The stereo example: L = 1000, R = 3000 three times gives three samples
      of 2000. */
  lemma StereoExample()
    ensures Downmix([1000, 3000, 1000, 3000, 1000, 3000], 2) == [2000, 2000, 2000]
  {
    var s: seq<int> := [1000, 3000, 1000, 3000, 1000, 3000];
    assert s[..2] == [1000, 3000] && s[2..][..2] == [1000, 3000] && s[2..][2..][..2] == [1000, 3000];
    assert s[2..][2..][2..] == [];
    assert Sum([1000, 3000]) == 4000;
    assert Groups(s[2..][2..], 2) == [2000];
    assert Groups(s[2..], 2) == [2000, 2000];
  }

  /** A short trailing group is divided by the full channel count, rounding
      toward zero (also for negative sums). */
  lemma ShortGroupExample()
    ensures Downmix([-3, -4, -5], 2) == [-3, -2]
  {
    var s: seq<int> := [-3, -4, -5];
    assert s[..2] == [-3, -4] && s[2..] == [-5] && s[2..][1..] == [];
    assert Sum([-3, -4]) == -7;
    assert Sum([-5]) == -5;
    assert Groups(s[2..], 2) == [-2];
  }
}
