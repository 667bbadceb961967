/**
 * The browser-side WAV encoder of the speech-recognition test page (pages/asr_test.js,
 * audioBufferToWav): the channels of an AudioBuffer are interleaved frame by frame into one
 * sample array, and written after the canonical 44-byte header of a 16-bit PCM RIFF WAVE file.
 * Samples enter the model already scaled to 16-bit integers.
 */
module WavEncoder {

  type Byte = b: int | 0 <= b < 256

  /** A 16-bit signed PCM sample. */
  type Sample = s: int | -0x8000 <= s < 0x8000

  const Pow16: int := 0x1_0000
  const Pow32: int := 0x1_0000_0000

  /** bitDepth / 8 */
  const BytesPerSample: nat := 2
  const HeaderSize: nat := 44

  // ---------------------------------------------------------------------------------------
  // Little-endian fields, as DataView writes them (values reduced modulo 2^16 or 2^32)
  // ---------------------------------------------------------------------------------------

  function U16LE(v: int): (r: seq<Byte>)
    ensures |r| == 2
  {
    var w := v % Pow16;
    [w % 256, w / 256]
  }

  function U32LE(v: int): (r: seq<Byte>)
    ensures |r| == 4
  {
    var w := v % Pow32;
    [w % 256, (w / 256) % 256, (w / 0x1_0000) % 256, w / 0x100_0000]
  }

  /** setInt16 stores the two's-complement pattern of the sample. */
  function I16LE(s: Sample): (r: seq<Byte>)
    ensures |r| == 2
  {
    U16LE(s)
  }

  /** The bytes of a string, one per character code, as setUint8 truncates them. */
  function Ascii(s: string): (r: seq<Byte>)
    ensures |r| == |s|
    ensures forall i :: 0 <= i < |s| ==> r[i] == (s[i] as int) % 256
  {
    if s == [] then [] else Ascii(s[..|s| - 1]) + [(s[|s| - 1] as int) % 256]
  }

  /** Reading back: an unsigned 16-bit little-endian field at off. */
  function ReadU16(b: seq<Byte>, off: nat): int
    requires off + 2 <= |b|
  {
    b[off] as int + 256 * (b[off + 1] as int)
  }

  function ReadU32(b: seq<Byte>, off: nat): int
    requires off + 4 <= |b|
  {
    b[off] as int + 256 * (b[off + 1] as int) + 0x1_0000 * (b[off + 2] as int) + 0x100_0000 * (b[off + 3] as int)
  }

  function ReadI16(b: seq<Byte>, off: nat): int
    requires off + 2 <= |b|
  {
    var u := ReadU16(b, off);
    if u >= 0x8000 then u - Pow16 else u
  }

  lemma U16RoundTrip(v: int)
    ensures ReadU16(U16LE(v), 0) == v % Pow16
  {
  }

  lemma U32RoundTrip(v: int)
    ensures ReadU32(U32LE(v), 0) == v % Pow32
  {
    var w := v % Pow32;
    var q1 := w / 256;
    var q2 := q1 / 256;
    assert w == w % 256 + 256 * q1;
    assert q1 == q1 % 256 + 256 * q2;
    assert q2 == q2 % 256 + 256 * (q2 / 256);
    assert w / 0x1_0000 == q2;
    assert w / 0x100_0000 == q2 / 256;
  }

  lemma I16RoundTrip(s: Sample)
    ensures ReadI16(I16LE(s), 0) == s
  {
    U16RoundTrip(s);
  }

  /** A field read at off + k of a + b, with a of length off, reads b at k. */
  lemma ReadShift(a: seq<Byte>, b: seq<Byte>, k: nat)
    ensures k + 2 <= |b| ==> ReadU16(a + b, |a| + k) == ReadU16(b, k) && ReadI16(a + b, |a| + k) == ReadI16(b, k)
    ensures k + 4 <= |b| ==> ReadU32(a + b, |a| + k) == ReadU32(b, k)
  {
  }

  // ---------------------------------------------------------------------------------------
  // The file as a value
  // ---------------------------------------------------------------------------------------

  /** All samples of frame src, channel by channel. */
  function Frame(data: seq<seq<Sample>>, src: nat): (r: seq<Sample>)
    requires forall ch :: 0 <= ch < |data| ==> src < |data[ch]|
    ensures |r| == |data|
    ensures forall ch :: 0 <= ch < |data| ==> r[ch] == data[ch][src]
  {
    seq(|data|, (ch: int) requires 0 <= ch < |data| => data[ch][src])
  }

  /** The first n frames, one after the other. */
  function Interleaved(data: seq<seq<Sample>>, n: nat): seq<Sample>
    requires forall ch :: 0 <= ch < |data| ==> n <= |data[ch]|
  {
    if n == 0 then [] else Interleaved(data, n - 1) + Frame(data, n - 1)
  }

  /** interleaved.length == length * numberOfChannels. */
  lemma {:induction false} InterleavedLength(data: seq<seq<Sample>>, n: nat)
    requires forall ch :: 0 <= ch < |data| ==> n <= |data[ch]|
    ensures |Interleaved(data, n)| == n * |data|
  {
    if n > 0 {
      InterleavedLength(data, n - 1);
      assert n * |data| == (n - 1) * |data| + |data|;
    }
  }

  /** Later frames only extend the array. */
  lemma {:induction false} InterleavedPrefix(data: seq<seq<Sample>>, m: nat, n: nat)
    requires m <= n
    requires forall ch :: 0 <= ch < |data| ==> n <= |data[ch]|
    ensures Interleaved(data, m) <= Interleaved(data, n)
  {
    if m < n {
      InterleavedPrefix(data, m, n - 1);
    }
  }

  /** interleaved[src * C + ch] is channel ch's sample src. */
  lemma InterleavedAt(data: seq<seq<Sample>>, n: nat, src: nat, ch: nat)
    requires forall c :: 0 <= c < |data| ==> n <= |data[c]|
    requires src < n && ch < |data|
    ensures src * |data| + ch < |Interleaved(data, n)|
    ensures Interleaved(data, n)[src * |data| + ch] == data[ch][src]
  {
    var c := |data|;
    InterleavedLength(data, src);
    InterleavedLength(data, n);
    InterleavedPrefix(data, src + 1, n);
    SlotBound(src, ch, c, n);
    var a := Interleaved(data, src + 1);
    assert a == Interleaved(data, src) + Frame(data, src);
    assert a[src * c + ch] == Frame(data, src)[ch];
  }

  lemma SlotBound(src: nat, ch: nat, c: nat, n: nat)
    requires src < n && ch < c
    ensures src * c + ch < n * c
  {
    assert (src + 1) * c <= n * c;
  }

  /** The PCM data chunk: each sample as two little-endian bytes. */
  function Pcm(samples: seq<Sample>): (r: seq<Byte>)
    ensures |r| == 2 * |samples|
  {
    if samples == [] then [] else Pcm(samples[..|samples| - 1]) + I16LE(samples[|samples| - 1])
  }

  /** Sample i is the 16-bit field at 2 * i of the data chunk. */
  lemma {:induction false} PcmAt(samples: seq<Sample>, i: nat)
    requires i < |samples|
    ensures ReadI16(Pcm(samples), 2 * i) == samples[i]
  {
    var init := samples[..|samples| - 1];
    if i == |samples| - 1 {
      ReadShift(Pcm(init), I16LE(samples[i]), 0);
      I16RoundTrip(samples[i]);
    } else {
      PcmAt(init, i);
      assert Pcm(samples)[..|Pcm(init)|] == Pcm(init);
      assert ReadI16(Pcm(samples), 2 * i) == ReadI16(Pcm(init), 2 * i);
    }
  }

  /** Reading a 32-bit field back from the place it was written. */
  lemma U32At(a: seq<Byte>, v: int, b: seq<Byte>)
    ensures ReadU32(a + U32LE(v) + b, |a|) == v % Pow32
  {
    var h := a + U32LE(v) + b;
    assert h[|a|..|a| + 4] == U32LE(v);
    assert ReadU32(h, |a|) == ReadU32(U32LE(v), 0);
    U32RoundTrip(v);
  }

  lemma U16At(a: seq<Byte>, v: int, b: seq<Byte>)
    ensures ReadU16(a + U16LE(v) + b, |a|) == v % Pow16
  {
    var h := a + U16LE(v) + b;
    assert h[|a|..|a| + 2] == U16LE(v);
    assert ReadU16(h, |a|) == ReadU16(U16LE(v), 0);
    U16RoundTrip(v);
  }

  /** The RIFF chunk descriptor: "RIFF", the size of the rest of the file, "WAVE". */
  function RiffDescriptor(dataLength: int): (r: seq<Byte>)
    ensures |r| == 12
  {
    Ascii("RIFF") + U32LE(36 + dataLength) + Ascii("WAVE")
  }

  /** The "fmt " sub-chunk: 16 bytes of PCM format, 16 bits per sample. */
  function FmtChunk(channels: int, sampleRate: int): (r: seq<Byte>)
    ensures |r| == 24
  {
    var blockAlign := channels * BytesPerSample;
    Ascii("fmt ") + U32LE(16) + U16LE(1) + U16LE(channels)
    + U32LE(sampleRate) + U32LE(sampleRate * blockAlign) + U16LE(blockAlign) + U16LE(16)
  }

  /** The "data" sub-chunk header: the tag and the byte count of the samples. */
  function DataChunkHeader(dataLength: int): (r: seq<Byte>)
    ensures |r| == 8
  {
    Ascii("data") + U32LE(dataLength)
  }

  /** The 44-byte header. */
  function Header(channels: int, sampleRate: int, dataLength: int): (h: seq<Byte>)
    ensures |h| == HeaderSize
  {
    RiffDescriptor(dataLength) + FmtChunk(channels, sampleRate) + DataChunkHeader(dataLength)
  }

  /** Bytes 0-11: "RIFF" at 0, 36 + dataLength as a little-endian u32 at 4, "WAVE" at 8. */
  lemma RiffLayout(channels: int, sampleRate: int, dataLength: int)
    ensures var h := Header(channels, sampleRate, dataLength);
      h[0..4] == Ascii("RIFF") && ReadU32(h, 4) == (36 + dataLength) % Pow32 && h[8..12] == Ascii("WAVE")
  {
    var h := Header(channels, sampleRate, dataLength);
    var rest := FmtChunk(channels, sampleRate) + DataChunkHeader(dataLength);
    assert h == Ascii("RIFF") + U32LE(36 + dataLength) + (Ascii("WAVE") + rest);
    U32At(Ascii("RIFF"), 36 + dataLength, Ascii("WAVE") + rest);
    assert h[..12] == RiffDescriptor(dataLength);
  }

  /** Bytes 36-43: "data" at 36 and dataLength as a little-endian u32 at 40. */
  lemma DataLayout(channels: int, sampleRate: int, dataLength: int)
    ensures var h := Header(channels, sampleRate, dataLength);
      h[36..40] == Ascii("data") && ReadU32(h, 40) == dataLength % Pow32
  {
    var h := Header(channels, sampleRate, dataLength);
    var front := RiffDescriptor(dataLength) + FmtChunk(channels, sampleRate);
    assert h == front + Ascii("data") + U32LE(dataLength) + [];
    U32At(front + Ascii("data"), dataLength, []);
  }

  /**
   * Bytes 12-35: "fmt " at 12; u32 16 at 16; u16 1 (PCM) at 20; u16 channels at 22; u32 sampleRate
   * at 24; u32 sampleRate * blockAlign at 28; u16 blockAlign = channels * 2 at 32; u16 16 at 34.
   */
  lemma FmtLayout(channels: int, sampleRate: int, dataLength: int)
    ensures var h := Header(channels, sampleRate, dataLength);
      h[12..16] == Ascii("fmt ") && ReadU32(h, 16) == 16 && ReadU16(h, 20) == 1 && ReadU16(h, 22) == channels % Pow16
    ensures var h := Header(channels, sampleRate, dataLength);
      ReadU32(h, 24) == sampleRate % Pow32 && ReadU32(h, 28) == (sampleRate * (channels * 2)) % Pow32
    ensures var h := Header(channels, sampleRate, dataLength);
      ReadU16(h, 32) == (channels * 2) % Pow16 && ReadU16(h, 34) == 16
  {
    var h := Header(channels, sampleRate, dataLength);
    var r := RiffDescriptor(dataLength);
    var d := DataChunkHeader(dataLength);
    var f := FmtChunk(channels, sampleRate);
    var ba := channels * BytesPerSample;
    FmtFront(r, channels, sampleRate, d);
    FmtBack(r, channels, sampleRate, d);
    assert h == r + f + d;
  }

  lemma FmtFront(r: seq<Byte>, channels: int, sampleRate: int, d: seq<Byte>)
    requires |r| == 12
    ensures var h := r + FmtChunk(channels, sampleRate) + d;
      h[12..16] == Ascii("fmt ") && ReadU32(h, 16) == 16 && ReadU16(h, 20) == 1 && ReadU16(h, 22) == channels % Pow16
  {
    var ba := channels * BytesPerSample;
    var tail := U32LE(sampleRate) + U32LE(sampleRate * ba) + U16LE(ba) + U16LE(16) + d;
    var h := r + FmtChunk(channels, sampleRate) + d;
    assert h == r + Ascii("fmt ") + U32LE(16) + (U16LE(1) + U16LE(channels) + tail);
    U32At(r + Ascii("fmt "), 16, U16LE(1) + U16LE(channels) + tail);
    assert h == r + Ascii("fmt ") + U32LE(16) + U16LE(1) + (U16LE(channels) + tail);
    U16At(r + Ascii("fmt ") + U32LE(16), 1, U16LE(channels) + tail);
    assert h == r + Ascii("fmt ") + U32LE(16) + U16LE(1) + U16LE(channels) + tail;
    U16At(r + Ascii("fmt ") + U32LE(16) + U16LE(1), channels, tail);
  }

  lemma FmtBack(r: seq<Byte>, channels: int, sampleRate: int, d: seq<Byte>)
    requires |r| == 12
    ensures var h := r + FmtChunk(channels, sampleRate) + d;
      ReadU32(h, 24) == sampleRate % Pow32 && ReadU32(h, 28) == (sampleRate * (channels * 2)) % Pow32
    ensures var h := r + FmtChunk(channels, sampleRate) + d;
      ReadU16(h, 32) == (channels * 2) % Pow16 && ReadU16(h, 34) == 16
  {
    var ba := channels * BytesPerSample;
    var front := r + Ascii("fmt ") + U32LE(16) + U16LE(1) + U16LE(channels);
    var h := r + FmtChunk(channels, sampleRate) + d;
    assert h == front + U32LE(sampleRate) + (U32LE(sampleRate * ba) + U16LE(ba) + U16LE(16) + d);
    U32At(front, sampleRate, U32LE(sampleRate * ba) + U16LE(ba) + U16LE(16) + d);
    assert h == front + U32LE(sampleRate) + U32LE(sampleRate * ba) + (U16LE(ba) + U16LE(16) + d);
    U32At(front + U32LE(sampleRate), sampleRate * ba, U16LE(ba) + U16LE(16) + d);
    assert h == front + U32LE(sampleRate) + U32LE(sampleRate * ba) + U16LE(ba) + (U16LE(16) + d);
    U16At(front + U32LE(sampleRate) + U32LE(sampleRate * ba), ba, U16LE(16) + d);
    assert h == front + U32LE(sampleRate) + U32LE(sampleRate * ba) + U16LE(ba) + U16LE(16) + d;
    U16At(front + U32LE(sampleRate) + U32LE(sampleRate * ba) + U16LE(ba), 16, d);
  }

  /** The whole file audioBufferToWav returns, for C channels of length frames. */
  function WavFile(data: seq<seq<Sample>>, length: nat, sampleRate: int): seq<Byte>
    requires forall ch :: 0 <= ch < |data| ==> |data[ch]| == length
  {
    Header(|data|, sampleRate, length * |data| * BytesPerSample) + Pcm(Interleaved(data, length))
  }

  /**
   * The file is 44 + length * C * 2 bytes, and channel ch's sample src is the 16-bit field at
   * 44 + 2 * (src * C + ch).
   */
  lemma WavLayout(data: seq<seq<Sample>>, length: nat, sampleRate: int, src: nat, ch: nat)
    requires forall c :: 0 <= c < |data| ==> |data[c]| == length
    requires src < length && ch < |data|
    ensures |WavFile(data, length, sampleRate)| == HeaderSize + length * |data| * BytesPerSample
    ensures HeaderSize + 2 * (src * |data| + ch) + 2 <= |WavFile(data, length, sampleRate)|
    ensures ReadI16(WavFile(data, length, sampleRate), HeaderSize + 2 * (src * |data| + ch)) == data[ch][src]
  {
    var samples := Interleaved(data, length);
    var h := Header(|data|, sampleRate, length * |data| * BytesPerSample);
    var i := src * |data| + ch;
    InterleavedLength(data, length);
    InterleavedAt(data, length, src, ch);
    PcmAt(samples, i);
    ReadShift(h, Pcm(samples), 2 * i);
  }

  // ---------------------------------------------------------------------------------------
  // audioBufferToWav
  // ---------------------------------------------------------------------------------------

  /** The nested loops filling `interleaved`: frame by frame, channel by channel. */
  method Interleave(data: seq<seq<Sample>>, length: nat) returns (interleaved: array<Sample>)
    requires forall ch :: 0 <= ch < |data| ==> |data[ch]| == length
    ensures fresh(interleaved)
    ensures interleaved[..] == Interleaved(data, length)
  {
    var c := |data|;
    InterleavedLength(data, length);
    interleaved := new Sample[length * c];
    for src := 0 to length
      invariant interleaved.Length == |Interleaved(data, length)|
      invariant |Interleaved(data, src)| == src * c
      invariant interleaved[..src * c] == Interleaved(data, src)
    {
      InterleavedLength(data, src + 1);
      InterleavedPrefix(data, src + 1, length);
      ghost var next := Interleaved(data, src + 1);
      assert next == Interleaved(data, src) + Frame(data, src);
      for ch := 0 to c
        invariant interleaved[..src * c + ch] == Interleaved(data, src) + Frame(data, src)[..ch]
      {
        interleaved[src * c + ch] := data[ch][src];
        assert Frame(data, src)[..ch + 1] == Frame(data, src)[..ch] + [data[ch][src]];
      }
      assert Frame(data, src)[..c] == Frame(data, src);
    }
    assert interleaved[..] == interleaved[..length * c];
  }

  /** writeString: one setUint8 per character. */
  method WriteString(buf: array<Byte>, offset: nat, s: string)
    requires offset + |s| <= buf.Length
    modifies buf
    ensures buf[..offset + |s|] == old(buf[..offset]) + Ascii(s)
    ensures forall j :: offset + |s| <= j < buf.Length ==> buf[j] == old(buf[j])
  {
    for i := 0 to |s|
      invariant buf[..offset + i] == old(buf[..offset]) + Ascii(s)[..i]
      invariant forall j :: offset + i <= j < buf.Length ==> buf[j] == old(buf[j])
    {
      buf[offset + i] := (s[i] as int) % 256;
      assert Ascii(s)[..i + 1] == Ascii(s)[..i] + [Ascii(s)[i]];
    }
  }

  /** A DataView setter: the field's little-endian bytes, lowest first. */
  method SetBytes(buf: array<Byte>, offset: nat, bytes: seq<Byte>)
    requires offset + |bytes| <= buf.Length
    modifies buf
    ensures buf[..offset + |bytes|] == old(buf[..offset]) + bytes
    ensures forall j :: offset + |bytes| <= j < buf.Length ==> buf[j] == old(buf[j])
  {
    for i := 0 to |bytes|
      invariant buf[..offset + i] == old(buf[..offset]) + bytes[..i]
      invariant forall j :: offset + i <= j < buf.Length ==> buf[j] == old(buf[j])
    {
      buf[offset + i] := bytes[i];
      assert bytes[..i + 1] == bytes[..i] + [bytes[i]];
    }
  }

  /** The "WAV 文件头" block: the header fields written at increasing offsets. */
  method WriteHeader(buf: array<Byte>, numberOfChannels: int, sampleRate: int, dataLength: int)
    requires HeaderSize <= buf.Length
    modifies buf
    ensures buf[..HeaderSize] == Header(numberOfChannels, sampleRate, dataLength)
    ensures forall j :: HeaderSize <= j < buf.Length ==> buf[j] == old(buf[j])
  {
    WriteRiffDescriptor(buf, dataLength);
    WriteFmtChunk(buf, numberOfChannels, sampleRate);
    WriteDataChunkHeader(buf, dataLength);
  }

  /** Offsets 0 to 11 of the header block. */
  method WriteRiffDescriptor(buf: array<Byte>, dataLength: int)
    requires HeaderSize <= buf.Length
    modifies buf
    ensures buf[..12] == RiffDescriptor(dataLength)
    ensures forall j :: 12 <= j < buf.Length ==> buf[j] == old(buf[j])
  {
    WriteString(buf, 0, "RIFF");
    SetBytes(buf, 4, U32LE(36 + dataLength));
    WriteString(buf, 8, "WAVE");
  }

  /** Offsets 36 to 43 of the header block. */
  method WriteDataChunkHeader(buf: array<Byte>, dataLength: int)
    requires HeaderSize <= buf.Length
    modifies buf
    ensures buf[..HeaderSize] == old(buf[..36]) + DataChunkHeader(dataLength)
    ensures forall j :: HeaderSize <= j < buf.Length ==> buf[j] == old(buf[j])
  {
    WriteString(buf, 36, "data");
    SetBytes(buf, 40, U32LE(dataLength));
  }

  /** Offsets 12 to 35 of the header block. */
  method WriteFmtChunk(buf: array<Byte>, numberOfChannels: int, sampleRate: int)
    requires HeaderSize <= buf.Length
    modifies buf
    ensures buf[..36] == old(buf[..12]) + FmtChunk(numberOfChannels, sampleRate)
    ensures forall j :: 36 <= j < buf.Length ==> buf[j] == old(buf[j])
  {
    var blockAlign := numberOfChannels * BytesPerSample;
    WriteString(buf, 12, "fmt ");
    SetBytes(buf, 16, U32LE(16));
    SetBytes(buf, 20, U16LE(1));
    SetBytes(buf, 22, U16LE(numberOfChannels));
    SetBytes(buf, 24, U32LE(sampleRate));
    SetBytes(buf, 28, U32LE(sampleRate * blockAlign));
    SetBytes(buf, 32, U16LE(blockAlign));
    SetBytes(buf, 34, U16LE(16));
  }

  /** The "写入 PCM 数据" loop: sample i as a 16-bit field at index = 44 + 2 * i. */
  method WriteSamples(buf: array<Byte>, interleaved: array<Sample>)
    requires buf.Length == HeaderSize + BytesPerSample * interleaved.Length
    modifies buf
    ensures buf[..] == old(buf[..HeaderSize]) + Pcm(interleaved[..])
  {
    ghost var header := buf[..HeaderSize];
    var index := HeaderSize;
    for i := 0 to interleaved.Length
      invariant index == HeaderSize + 2 * i
      invariant buf[..index] == header + Pcm(interleaved[..i])
    {
      ghost var before := buf[..index];
      SetBytes(buf, index, I16LE(interleaved[i]));
      assert buf[..index + 2] == before + I16LE(interleaved[i]);
      assert interleaved[..i + 1][..i] == interleaved[..i];
      index := index + 2;
    }
    assert interleaved[..interleaved.Length] == interleaved[..];
    assert buf[..] == buf[..index];
  }

  /**
   * audioBufferToWav: the header, then the samples; the resulting buffer is exactly WavFile.
   */
  method AudioBufferToWav(data: seq<seq<Sample>>, length: nat, sampleRate: int) returns (buf: array<Byte>)
    requires forall ch :: 0 <= ch < |data| ==> |data[ch]| == length
    ensures fresh(buf)
    ensures buf[..] == WavFile(data, length, sampleRate)
  {
    var numberOfChannels := |data|;
    var interleaved := Interleave(data, length);
    InterleavedLength(data, length);
    var dataLength := interleaved.Length * BytesPerSample;
    buf := new Byte[HeaderSize + dataLength];
    WriteHeader(buf, numberOfChannels, sampleRate, dataLength);
    WriteSamples(buf, interleaved);
    assert dataLength == length * numberOfChannels * BytesPerSample;
  }
}
