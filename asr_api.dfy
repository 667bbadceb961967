/**
 * The SenseVoice service's only endpoint, POST /api/v1/asr (SenseVoice/api.py,
 * turn_audio_to_text): decode every upload, choose the key list, run inference once, and turn
 * each transcript of the first batch into a result record.
 *
 * Audio decoding, resampling, the mono mix-down, inference and rich_transcription_postprocess
 * are foreign code; they are parameters of the model.
 */
module AsrApi {
  import opened Wrappers
  import Text
  import Tags

  /** TARGET_FS: the sample rate inference is given. */
  const TargetFs: nat := 16000

  datatype Language = Auto | Zh | En | Yue | Ja | Ko | NoSpeech

  datatype Upload = Upload(filename: string, content: seq<bv8>)

  /** What torchaudio.load returns on success: the channel tensor and its sample rate. */
  datatype Decoded<W> = Decoded(waveform: W, sampleRate: nat)

  /** The arguments of the single m.inference call. */
  datatype InferenceCall<A> = InferenceCall(
    audios: seq<A>, language: Language, useItn: bool, banEmoUnk: bool, keys: seq<string>, fs: nat)

  /** One element of res[0]: the tagged transcript and, optionally, its key. */
  datatype EngineItem = EngineItem(text: string, key: Option<string>)

  datatype Record = Record(
    key: string, text: string, cleanText: string, emotions: seq<string>, events: seq<string>, raw: string)

  datatype Response =
    | Rejected(status: nat, detail: string)
    | Results(records: seq<Record>)

  /** The detail of the 400 error for an upload that does not decode. */
  function DecodeErrorDetail(filename: string, error: string): string {
    "无法读取音频文件 " + filename + ": " + error
  }

  /** Resample to TargetFs when the rate differs, then keep the (mixed-down) first channel. */
  function Prepare<W, A>(d: Decoded<W>, resample: (W, nat) -> W, mono: W -> A): A {
    mono(if d.sampleRate != TargetFs then resample(d.waveform, d.sampleRate) else d.waveform)
  }

  /**
   * The decode loop over the uploads: either the prepared audio of every upload, in upload
   * order, or the index of the first upload that does not decode.
   */
  function PrepareAll<W, A>(files: seq<Upload>, decode: seq<bv8> -> Result<Decoded<W>, string>,
                            resample: (W, nat) -> W, mono: W -> A): (r: Result<seq<A>, nat>)
    ensures r.Ok? ==> |r.value| == |files|
    ensures r.Ok? ==> forall i :: 0 <= i < |files| ==>
      decode(files[i].content).Ok? && r.value[i] == Prepare(decode(files[i].content).value, resample, mono)
    ensures r.Err? ==> r.error < |files| && decode(files[r.error].content).Err?
    ensures r.Err? ==> forall i :: 0 <= i < r.error ==> decode(files[i].content).Ok?
  {
    if files == [] then Ok([])
    else
      var init := files[..|files| - 1];
      match PrepareAll(init, decode, resample, mono)
      case Err(i) => Err(i)
      case Ok(audios) =>
        match decode(files[|files| - 1].content)
        case Err(_) => Err(|files| - 1)
        case Ok(d) => Ok(audios + [Prepare(d, resample, mono)])
  }

  function Filenames(files: seq<Upload>): (r: seq<string>)
    ensures |r| == |files| && forall i :: 0 <= i < |files| ==> r[i] == files[i].filename
  {
    if files == [] then [] else [files[0].filename] + Filenames(files[1..])
  }

  /**
   * The key list handed to inference: the upload filenames in upload order when keys is None or
   * empty, else keys split at every comma. Its length is then the number of commas plus one,
   * whatever the number of uploads.
   */
  function SelectKeys(keys: Option<string>, files: seq<Upload>): (r: seq<string>)
    ensures (keys.None? || keys.value == "") ==> r == Filenames(files)
    ensures keys.Some? && keys.value != "" ==> r == Text.Split(keys.value, ',')
    ensures keys.Some? && keys.value != "" ==> |r| == Text.Count(keys.value, ',') + 1
  {
    if keys.None? || keys.value == "" then Filenames(files)
    else
      Text.SplitLength(keys.value, ',');
      Text.Split(keys.value, ',')
  }

  /** Given keys, the key list does not depend on the uploads at all. */
  lemma KeysIgnoreUploads(keys: string, files1: seq<Upload>, files2: seq<Upload>)
    requires keys != ""
    ensures SelectKeys(Some(keys), files1) == SelectKeys(Some(keys), files2)
  {
  }

  /** Two keys for a single upload are passed on as they are: no check against the file count. */
  lemma KeyCountMismatchExample()
    ensures |SelectKeys(Some("a,b"), [Upload("x.wav", [])])| == 2
  {
    assert Text.Count("a,b", ',') == 1;
  }

  /** One result record for one transcript. */
  function FormatRecord(it: EngineItem, rich: string -> string): (r: Record)
    ensures r.raw == it.text && r.key == it.key.GetOr("unknown")
  {
    Record(
      key := it.key.GetOr("unknown"),
      text := rich(it.text),
      cleanText := Tags.CleanText(it.text),
      emotions := Tags.Emotions(it.text),
      events := Tags.Events(it.text),
      raw := it.text)
  }

  /** The records of an inference result: none when it is empty, else one per item of res[0]. */
  function Records(res: seq<seq<EngineItem>>, rich: string -> string): (r: seq<Record>)
    ensures |res| == 0 ==> r == []
    ensures |res| > 0 ==> |r| == |res[0]| && forall i :: 0 <= i < |r| ==> r[i] == FormatRecord(res[0][i], rich)
  {
    if |res| == 0 then [] else seq(|res[0]|, i requires 0 <= i < |res[0]| => FormatRecord(res[0][i], rich))
  }

  /** The loop over the uploads (SenseVoice/api.py:78-99), stopping at the first failure. */
  method DecodeUploads<W, A>(files: seq<Upload>, decode: seq<bv8> -> Result<Decoded<W>, string>,
                             resample: (W, nat) -> W, mono: W -> A)
    returns (r: Result<seq<A>, nat>)
    ensures r == PrepareAll(files, decode, resample, mono)
  {
    var audios: seq<A> := [];
    var n := 0;
    while n < |files|
      invariant 0 <= n <= |files|
      invariant PrepareAll(files[..n], decode, resample, mono) == Ok(audios)
    {
      assert files[..n + 1][..n] == files[..n];
      var d := decode(files[n].content);
      if d.Err? {
        PrepareAllPrefixErr(files, n + 1, decode, resample, mono);
        return Err(n);
      }
      audios := audios + [Prepare(d.value, resample, mono)];
      n := n + 1;
    }
    assert files[..n] == files;
    return Ok(audios);
  }

  /**
   * The loop over res[0] (SenseVoice/api.py:119-137): one record per item, in order; format is
   * the body of the loop.
   */
  method FormatResults(items: seq<EngineItem>, format: EngineItem -> Record) returns (records: seq<Record>)
    ensures |records| == |items| && forall k :: 0 <= k < |items| ==> records[k] == format(items[k])
  {
    records := [];
    var j := 0;
    while j < |items|
      invariant 0 <= j <= |items|
      invariant |records| == j && forall k :: 0 <= k < j ==> records[k] == format(items[k])
    {
      records := records + [format(items[j])];
      j := j + 1;
    }
  }

  /**
   * turn_audio_to_text. The first upload that does not decode rejects the request with 400 and
   * inference is never called; otherwise inference is called once, with the prepared audio of
   * every upload in order and the selected keys, and its first batch becomes the records.
   */
  method TurnAudioToText<W, A>(
    files: seq<Upload>, keys: Option<string>, lang: Language,
    decode: seq<bv8> -> Result<Decoded<W>, string>, resample: (W, nat) -> W, mono: W -> A,
    infer: InferenceCall<A> -> seq<seq<EngineItem>>, rich: string -> string)
    returns (resp: Response, call: Option<InferenceCall<A>>)
    ensures PrepareAll(files, decode, resample, mono).Err? ==>
      var i := PrepareAll(files, decode, resample, mono).error;
      call.None? && resp == Rejected(400, DecodeErrorDetail(files[i].filename, decode(files[i].content).error))
    ensures PrepareAll(files, decode, resample, mono).Ok? ==>
      call == Some(InferenceCall(PrepareAll(files, decode, resample, mono).value, lang, true, false,
                                 SelectKeys(keys, files), TargetFs))
      && resp == Results(Records(infer(call.value), rich))
  {
    var decoded := DecodeUploads(files, decode, resample, mono);
    if decoded.Err? {
      var i := decoded.error;
      return Rejected(400, DecodeErrorDetail(files[i].filename, decode(files[i].content).error)), None;
    }
    var key := SelectKeys(keys, files);
    var c := InferenceCall(decoded.value, lang, true, false, key, TargetFs);
    call := Some(c);
    var res := infer(c);
    if |res| == 0 {
      return Results([]), call;
    }
    var formatted := FormatResults(res[0], it => FormatRecord(it, rich));
    resp := Results(formatted);
  }

  /** A failure in a prefix of the uploads is the failure of all of them. */
  lemma {:induction false} PrepareAllPrefixErr<W, A>(files: seq<Upload>, n: nat,
      decode: seq<bv8> -> Result<Decoded<W>, string>, resample: (W, nat) -> W, mono: W -> A)
    requires n <= |files| && PrepareAll(files[..n], decode, resample, mono).Err?
    ensures PrepareAll(files, decode, resample, mono) == PrepareAll(files[..n], decode, resample, mono)
    decreases |files| - n
  {
    if n < |files| {
      assert files[..n + 1][..n] == files[..n];
      PrepareAllPrefixErr(files, n + 1, decode, resample, mono);
    } else {
      assert files[..n] == files;
    }
  }
}
