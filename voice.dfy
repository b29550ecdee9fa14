/**
 * The computational part of voice message sending: the 256-sample waveform
 * preview that is sent along with a voice message, Base64-encoded, and the
 * choice of the file to upload (an `.ogg` file is sent as it is, anything else
 * is converted to `voice-message.ogg` first).
 */
module Voice {
  import opened Wrappers
  import opened Base64
  import opened Strings

  /** Number of samples in the waveform preview. */
  const TargetLength: nat := 256

  /** Name of the converted file. */
  const ConvertedName: string := "voice-message.ogg"

  /** Index of the sample taken at position `i` out of `n` raw bytes: `int(i * (n / 256))`,
      which is `(i * n) div 256` exactly as long as `i * n` is below 2^53. */
  function SampleIndex(i: nat, n: nat): nat {
    (i * n) / TargetLength
  }

  lemma SampleIndexInRange(i: nat, n: nat)
    requires i < TargetLength && n > 0
    ensures SampleIndex(i, n) < n
  {
    MulMonotone(i, TargetLength - 1, n);
    assert i * n < TargetLength * n;
    QuotientBelow(i * n, n);
  }

  lemma MulMonotone(a: nat, b: nat, n: nat)
    requires a <= b
    ensures a * n <= b * n
  {
    assert b * n == a * n + (b - a) * n;
  }

  /** Dividing something below `256 * n` by 256 gives less than `n`. */
  lemma QuotientBelow(p: nat, n: nat)
    requires p < TargetLength * n
    ensures p / TargetLength < n
  {
    var q: nat := p / TargetLength;
    assert q * TargetLength <= p;
    if n <= q {
      MulMonotone(n, q, TargetLength);
    }
  }

  /** Sample positions never move backwards. */
  lemma SampleIndexMonotone(i: nat, j: nat, n: nat)
    requires i <= j
    ensures SampleIndex(i, n) <= SampleIndex(j, n)
  {
    assert i * n <= j * n;
  }

  /** Downsamples the PCM bytes to exactly 256 samples. */
  method SampleWaveform(raw: seq<byte>) returns (sampled: seq<byte>)
    requires |raw| > 0
    ensures |sampled| == TargetLength
    ensures forall i | 0 <= i < TargetLength ::
              SampleIndex(i, |raw|) < |raw| && sampled[i] == raw[SampleIndex(i, |raw|)]
  {
    sampled := [];
    for i := 0 to TargetLength
      invariant |sampled| == i
      invariant forall k | 0 <= k < i ::
                  SampleIndex(k, |raw|) < |raw| && sampled[k] == raw[SampleIndex(k, |raw|)]
    {
      var index := (i * |raw|) / TargetLength;
      SampleIndexInRange(i, |raw|);
      sampled := sampled + [if index < |raw| then raw[index] else 0];
    }
  }

  /** The `waveform` field of a voice message: the Base64 text of the 256 samples,
      or of 256 random bytes (`noise`, what `os.urandom(256)` returns) when the
      decoder produced no PCM data at all. */
  method Waveform(raw: seq<byte>, noise: seq<byte>) returns (waveform: string)
    requires |noise| == TargetLength
    ensures |waveform| == 344 && waveform[342..] == "=="
    ensures Decode(waveform).Some? && |Decode(waveform).value| == TargetLength
    ensures |raw| > 0 ==> forall i | 0 <= i < TargetLength ::
              SampleIndex(i, |raw|) < |raw| && Decode(waveform).value[i] == raw[SampleIndex(i, |raw|)]
    ensures |raw| == 0 ==> Decode(waveform) == Some(noise)
    ensures waveform == Encode(Decode(waveform).value)
  {
    var data: seq<byte>;
    if |raw| > 0 {
      data := SampleWaveform(raw);
    } else {
      data := noise;
    }
    waveform := Encode(data);
    PreviewText(data);
  }

  /** The Base64 text of 256 bytes: 344 characters, two of them padding, decoding back
      to the bytes. */
  lemma PreviewText(data: seq<byte>)
    requires |data| == TargetLength
    ensures var e := Encode(data);
      |e| == 344 && e[342..] == "==" && Decode(e) == Some(data)
  {
    var e := Encode(data);
    assert |e| == 4 * ((256 + 2) / 3) == 344;
    EncodeEndsWithDoublePad(data);
    assert e[342..] == e[|e| - 2..];
    DecodeEncode(data);
  }

  /** The file a voice message is uploaded from, and the file it was converted
      from if a conversion was needed. */
  datatype VoiceFile = VoiceFile(path: string, convertedFrom: Option<string>)

  /** Only a file whose name ends in `.ogg` is sent without conversion; whatever
      happens, the uploaded file is an `.ogg` file. */
  function ChooseVoiceFile(filePath: string): (f: VoiceFile)
    ensures EndsWith(f.path, ".ogg")
    ensures f.convertedFrom.None? <==> EndsWith(filePath, ".ogg")
    ensures f.convertedFrom.None? ==> f.path == filePath
    ensures f.convertedFrom.Some? ==> f.path == ConvertedName && f.convertedFrom.value == filePath
  {
    if !EndsWith(filePath, ".ogg") then VoiceFile(ConvertedName, Some(filePath))
    else VoiceFile(filePath, None)
  }
}
