/** `TranscriptionService`: a lazily loaded speech-recognition model, the
    assembly of a transcript from decoded segments, the metadata record, and
    the temporary-file handling of an uploaded recording. The model
    constructor and the decoder are oracles; the filesystem is the set of
    paths that exist. */
module Transcription {
  import opened Wrappers
  import opened Json
  import Text

  /** The arguments of `WhisperModel(size, device="cpu", compute_type="int8")`. */
  datatype ModelConfig = ModelConfig(size: string, device: string, computeType: string)

  /** A constructed model; `instance` tells two constructions apart. */
  datatype WhisperModel = WhisperModel(config: ModelConfig, instance: nat)

  /** The arguments of `model.transcribe(path, language=..., beam_size=...)`. */
  datatype TranscribeCall = TranscribeCall(audioPath: string, language: Option<string>, beamSize: int)

  /** The `info` object; `duration` is None when the attribute is missing.
      Probabilities and durations are copied through, never computed on. */
  datatype Info = Info(language: string, languageProbability: real, duration: Option<real>)

  /** The fully drained segment texts, in emission order, and `info`. */
  datatype Decoded = Decoded(segments: seq<string>, info: Info)

  /** Builds a model, or fails with the text of the exception. */
  type Constructor = ModelConfig -> Result<WhisperModel>

  /** Runs recognition and drains the segments; a failure of either is one error. */
  type Decoder = (WhisperModel, TranscribeCall) -> Result<Decoded>

  const LoadErrorPrefix: string := "Error loading Whisper model: "
  const TranscriptionErrorPrefix: string := "Error during transcription: "
  const DefaultSuffix: string := ".mp3"
  const DefaultBeamSize: int := 5

  function CpuConfig(size: string): ModelConfig {
    ModelConfig(size, "cpu", "int8")
  }

  /** The service's state: the size chosen at construction and `self.model`. */
  datatype Service = Service(modelSize: string, model: Option<WhisperModel>)

  /** `model_size` when the caller gives none. */
  const DefaultModelSize: string := "base"

  /** `TranscriptionService(model_size)`; `None` stands for an omitted argument. */
  function NewService(size: Option<string>): (s: Service)
    ensures s.model.None?
    ensures size.Some? ==> s.modelSize == size.value
    ensures size.None? ==> s.modelSize == "base"
  {
    Service(size.GetOr(DefaultModelSize), None)
  }

  /** The state after `load_model`, its return value or exception, and how
      many times the constructor ran. */
  datatype Loaded = Loaded(service: Service, result: Result<WhisperModel>, constructions: nat)

  /** `load_model`: constructs a model only when none is held, stores it only
      when construction succeeded, and otherwise returns the held one. */
  function LoadModel(s: Service, construct: Constructor): (l: Loaded)
    ensures l.service.modelSize == s.modelSize
    ensures l.constructions == if s.model.None? then 1 else 0
    ensures s.model.Some? ==> l.service == s && l.result == Success(s.model.value)
    ensures s.model.None? && construct(CpuConfig(s.modelSize)).Success? ==>
              l.result == construct(CpuConfig(s.modelSize)) && l.service.model == Some(l.result.value)
    ensures s.model.None? && construct(CpuConfig(s.modelSize)).Failure? ==>
              l.service == s && l.result == Failure(LoadErrorPrefix + construct(CpuConfig(s.modelSize)).error)
    ensures l.result.Success? <==> l.service.model.Some?
    ensures l.result.Success? ==> l.service.model == Some(l.result.value)
  {
    if s.model.None? then
      match construct(CpuConfig(s.modelSize))
      case Success(m) => Loaded(s.(model := Some(m)), Success(m), 1)
      case Failure(e) => Loaded(s, Failure(LoadErrorPrefix + e), 1)
    else
      Loaded(s, Success(s.model.value), 0)
  }

  /** Loading twice is loading once: the second call constructs nothing,
      whatever constructor it is given, and returns the same instance. */
  lemma LoadModelIdempotent(s: Service, first: Constructor, second: Constructor)
    requires LoadModel(s, first).result.Success?
    ensures var l1 := LoadModel(s, first);
            var l2 := LoadModel(l1.service, second);
            l2.service == l1.service && l2.result == l1.result && l2.constructions == 0
  {
  }

  /** A failed load leaves the service unloaded, so a later call tries again. */
  lemma FailedLoadRetries(s: Service, first: Constructor, second: Constructor)
    requires s.model.None? && LoadModel(s, first).result.Failure?
    ensures LoadModel(s, first).service == s
    ensures LoadModel(LoadModel(s, first).service, second).constructions == 1
  {
  }

  /** `text += segment.text + " "` for every segment, in order. */
  function Accumulate(segments: seq<string>): string
    decreases |segments|
  {
    if |segments| == 0 then ""
    else Accumulate(segments[..|segments| - 1]) + segments[|segments| - 1] + " "
  }

  /** The transcript: the accumulated text, stripped. */
  function Transcript(segments: seq<string>): (t: string)
    ensures Text.NoEdgeSpace(t)
    ensures segments == [] ==> t == ""
  {
    Text.Strip(Accumulate(segments))
  }

  /** `" ".join(segments)`: the segments separated by single spaces. */
  function JoinWithSpaces(segments: seq<string>): string
    decreases |segments|
  {
    if |segments| == 0 then ""
    else if |segments| == 1 then segments[0]
    else JoinWithSpaces(segments[..|segments| - 1]) + " " + segments[|segments| - 1]
  }

  /** The loop of `transcribe_audio_file`, statement by statement. */
  method AssembleTranscript(segments: seq<string>) returns (t: string)
    ensures t == Transcript(segments)
    ensures Text.NoEdgeSpace(t)
  {
    var text := "";
    var i := 0;
    while i < |segments|
      invariant 0 <= i <= |segments|
      invariant text == Accumulate(segments[..i])
    {
      assert segments[..i + 1][..i] == segments[..i];
      text := text + segments[i] + " ";
      i := i + 1;
    }
    assert segments[..i] == segments;
    t := Text.Strip(text);
  }

  lemma {:induction false} AccumulateIsJoinPlusSpace(segments: seq<string>)
    requires |segments| > 0
    ensures Accumulate(segments) == JoinWithSpaces(segments) + " "
    decreases |segments|
  {
    if |segments| > 1 {
      AccumulateIsJoinPlusSpace(segments[..|segments| - 1]);
    }
  }

  /** The transcript is Python's `" ".join(segments).strip()`: the trailing
      space the loop appends after the last segment never survives. */
  lemma {:induction false} TranscriptIsStrippedJoin(segments: seq<string>)
    ensures Transcript(segments) == Text.Strip(JoinWithSpaces(segments))
  {
    if |segments| > 0 {
      var j := JoinWithSpaces(segments);
      AccumulateIsJoinPlusSpace(segments);
      Text.RStripSpaceSuffix(j, " ");
    }
  }

  lemma {:induction false} JoinHasNoEdgeSpace(segments: seq<string>)
    requires |segments| > 0
    requires forall i :: 0 <= i < |segments| ==> |segments[i]| > 0 && Text.NoEdgeSpace(segments[i])
    ensures var j := JoinWithSpaces(segments);
            |j| > 0 && j[0] == segments[0][0] && j[|j| - 1] == segments[|segments| - 1][|segments[|segments| - 1]| - 1]
    decreases |segments|
  {
    if |segments| > 1 {
      var front := segments[..|segments| - 1];
      JoinHasNoEdgeSpace(front);
      assert front[0] == segments[0];
    }
  }

  /** When every segment is non-empty and has no whitespace at its ends, the
      transcript is exactly the segments joined by single spaces: nothing of
      their content is lost or reordered. */
  lemma {:induction false} TranscriptOfCleanSegments(segments: seq<string>)
    requires forall i :: 0 <= i < |segments| ==> |segments[i]| > 0 && Text.NoEdgeSpace(segments[i])
    ensures Transcript(segments) == JoinWithSpaces(segments)
  {
    if |segments| > 0 {
      var j := JoinWithSpaces(segments);
      JoinHasNoEdgeSpace(segments);
      AccumulateIsJoinPlusSpace(segments);
      assert Text.AllSpace(" ");
      assert [] + j + " " == j + " ";
      Text.StripOfPadded([], j, " ");
    }
  }

  /** The metadata dictionary: exactly the three keys, with the values copied
      from `info` and `duration` None when `info` lacks it. */
  function Metadata(info: Info): (m: map<string, Json>)
    ensures m.Keys == {"language", "language_probability", "duration"}
    ensures m["language"] == JString(info.language)
    ensures m["language_probability"] == JNumber(info.languageProbability)
    ensures m["duration"] == if info.duration.Some? then JNumber(info.duration.value) else JNull
  {
    map["language" := JString(info.language),
        "language_probability" := JNumber(info.languageProbability),
        "duration" := if info.duration.Some? then JNumber(info.duration.value) else JNull]
  }

  /** A transcript and its metadata. */
  datatype Transcription = Transcription(text: string, metadata: map<string, Json>)

  /** The state after a transcription call and its return value or exception. */
  datatype Transcribed = Transcribed(service: Service, result: Result<Transcription>)

  /** `transcribe_audio_file(path, language, beam_size)`. */
  function TranscribeAudioFile(s: Service, path: string, language: Option<string>, beamSize: int,
                               construct: Constructor, decode: Decoder): (t: Transcribed)
    // the model is loaded first when absent; a load failure propagates unwrapped
    ensures t.service == LoadModel(s, construct).service
    ensures LoadModel(s, construct).result.Failure? ==> t.result == Failure(LoadModel(s, construct).result.error)
    // otherwise the loaded model decodes the given file with the given settings
    ensures LoadModel(s, construct).result.Success? ==>
              var d := decode(t.service.model.value, TranscribeCall(path, language, beamSize));
              && (d.Failure? ==> t.result == Failure(TranscriptionErrorPrefix + d.error))
              && (d.Success? ==> t.result == Success(Transcription(Transcript(d.value.segments),
                                                                  Metadata(d.value.info))))
  {
    var l := LoadModel(s, construct);
    match l.result
    case Failure(e) => Transcribed(l.service, Failure(e))
    case Success(m) =>
      match decode(m, TranscribeCall(path, language, beamSize))
      case Failure(e) => Transcribed(l.service, Failure(TranscriptionErrorPrefix + e))
      case Success(d) => Transcribed(l.service, Success(Transcription(Transcript(d.segments), Metadata(d.info))))
  }

  /** The temporary file's suffix: the upload's extension, or ".mp3". */
  function UploadSuffix(name: string): (suffix: string)
    ensures |suffix| > 0 && suffix[0] == '.'
    ensures Text.SplitExt(name).1 != [] ==> suffix == Text.SplitExt(name).1 && name == Text.SplitExt(name).0 + suffix
    ensures Text.SplitExt(name).1 == [] ==> suffix == DefaultSuffix
  {
    var ext := Text.SplitExt(name).1;
    if ext == [] then DefaultSuffix else ext
  }

  /** A hidden-file name such as ".wav", under any directory, has no
      extension in `os.path.splitext`, so its upload is stored with the
      default suffix. */
  lemma {:induction false} HiddenNameGetsDefaultSuffix(dir: string, e: string)
    requires '.' !in e && '/' !in e
    ensures UploadSuffix(dir + "/." + e) == DefaultSuffix
  {
    var p := dir + "/." + e;
    assert p[|dir|] == '/' && p[|dir| + 1] == '.';
    assert forall j :: |dir| + 1 < j < |p| ==> p[j] == e[j - |dir| - 2];
    assert Text.RFind(p, '/') == |dir|;
  }

  /** The state, return value or exception, and existing paths after an upload
      is transcribed through a temporary file. */
  datatype Uploaded = Uploaded(service: Service, result: Result<Transcription>, disk: set<string>)

  /** `transcribe_uploaded_file` as written. `created` is the name
      `NamedTemporaryFile` picks (without the suffix) or its error;
      `writeError` and `closeError` are failures of writing the upload's bytes
      and of closing the file. `temp_file_path` is assigned only after the
      write, so a failed write leaves the file on disk. */
  function TranscribeUploadedAsWritten(s: Service, name: string, created: Result<string>,
                                       writeError: Option<string>, closeError: Option<string>,
                                       disk: set<string>, language: Option<string>, beamSize: int,
                                       construct: Constructor, decode: Decoder): (u: Uploaded)
    ensures created.Failure? ==> u == Uploaded(s, Failure(created.error), disk)
    ensures created.Success? && writeError.Some? ==>
              u == Uploaded(s, Failure(writeError.value), disk + {created.value + UploadSuffix(name)})
    ensures created.Success? && writeError.None? ==> u.disk == disk - {created.value + UploadSuffix(name)}
  {
    match created
    case Failure(e) => Uploaded(s, Failure(e), disk)
    case Success(stem) =>
      var path := stem + UploadSuffix(name);
      if writeError.Some? then Uploaded(s, Failure(writeError.value), disk + {path})
      else if closeError.Some? then Uploaded(s, Failure(closeError.value), disk - {path})
      else
        var t := TranscribeAudioFile(s, path, language, beamSize, construct, decode);
        Uploaded(t.service, t.result, disk - {path})
  }

  /** The counterexample: a write that fails leaves the temporary file behind. */
  lemma AsWrittenLeaksOnWriteFailure(s: Service, construct: Constructor, decode: Decoder)
    ensures var u := TranscribeUploadedAsWritten(s, "meeting.wav", Success("/tmp/tmpab12cd"), Some("No space left on device"),
                                                 None, {}, None, DefaultBeamSize, construct, decode);
            "/tmp/tmpab12cd.wav" in u.disk && u.result.Failure?
  {
    assert Text.SplitExt("meeting.wav").1 == ".wav" by {
      Text.SplitExtFindsExtension("meeting", "wav", 0);
      assert "meeting" + "." + "wav" == "meeting.wav";
    }
    assert UploadSuffix("meeting.wav") == ".wav";
    assert "/tmp/tmpab12cd" + ".wav" == "/tmp/tmpab12cd.wav";
  }

  /** `transcribe_uploaded_file` with the temporary path recorded as soon as
      the file exists, so that every exit after creation deletes it. */
  function TranscribeUploaded(s: Service, name: string, created: Result<string>,
                              writeError: Option<string>, closeError: Option<string>,
                              disk: set<string>, language: Option<string>, beamSize: int,
                              construct: Constructor, decode: Decoder): (u: Uploaded)
    // no temporary file outlives the call, on any exit
    ensures created.Failure? ==> u.disk == disk
    ensures created.Success? ==> u.disk == disk - {created.value + UploadSuffix(name)}
    // errors are re-raised unchanged; success is the transcription of the temporary file
    ensures created.Failure? ==> u.result == Failure(created.error)
    ensures created.Success? && writeError.Some? ==> u.result == Failure(writeError.value) && u.service == s
    ensures created.Success? && writeError.None? && closeError.Some? ==> u.result == Failure(closeError.value) && u.service == s
    ensures created.Success? && writeError.None? && closeError.None? ==>
              var t := TranscribeAudioFile(s, created.value + UploadSuffix(name), language, beamSize, construct, decode);
              u.result == t.result && u.service == t.service
  {
    match created
    case Failure(e) => Uploaded(s, Failure(e), disk)
    case Success(stem) =>
      var path := stem + UploadSuffix(name);
      if writeError.Some? then Uploaded(s, Failure(writeError.value), disk - {path})
      else if closeError.Some? then Uploaded(s, Failure(closeError.value), disk - {path})
      else
        var t := TranscribeAudioFile(s, path, language, beamSize, construct, decode);
        Uploaded(t.service, t.result, disk - {path})
  }

  /** Outside the write failure the two versions agree exactly. */
  lemma UploadVersionsAgreeUnlessWriteFails(s: Service, name: string, created: Result<string>,
                                            writeError: Option<string>, closeError: Option<string>,
                                            disk: set<string>, language: Option<string>, beamSize: int,
                                            construct: Constructor, decode: Decoder)
    requires created.Failure? || writeError.None?
    ensures TranscribeUploaded(s, name, created, writeError, closeError, disk, language, beamSize, construct, decode) ==
            TranscribeUploadedAsWritten(s, name, created, writeError, closeError, disk, language, beamSize, construct, decode)
  {
  }
}
