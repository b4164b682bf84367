/** The monolithic Streamlit script: its own model loader, its inline copy
    of the analysis loop, the placeholder that keeps the transcript on
    screen when analysis fails, and the defaults used to display the result. */
module App {
  import opened Wrappers
  import opened Json
  import Text
  import Analysis
  import Transcription

  /** The inline prompt literal sits sixteen spaces deep. */
  const AppIndent: nat := 16

  const AnalysisErrorSummary: string := "Error during analysis. Please check your Groq API key."
  const NoSummary: string := "No summary available"
  const TaskKey: string := "tache"
  const OwnerKey: string := "responsable"
  const TaskDefault: string := "Task not specified"
  const OwnerDefault: string := "Not assigned"
  const NoItemsMessage: string := "No action items detected in this meeting."
  const DownloadPrefix: string := "transcription_"
  const DownloadExtension: string := ".txt"

  /** Exception classes raised while displaying a result of the wrong shape. */
  const AttributeError: string := "AttributeError"
  const TypeError: string := "TypeError"

  /** `load_whisper_model(size)`: the model, or None instead of an exception. */
  function LoadWhisperModel(size: string, construct: Transcription.Constructor): (m: Option<Transcription.WhisperModel>)
    ensures m.Some? <==> construct(Transcription.CpuConfig(size)).Success?
    ensures m.Some? ==> m.value == construct(Transcription.CpuConfig(size)).value
  {
    match construct(Transcription.CpuConfig(size))
    case Success(model) => Some(model)
    case Failure(_) => None
  }

  /** The inline loop: the three default candidates, in order, with the
      script's own copy of the instruction. */
  function InlineAnalysis(transcript: string, replies: seq<Analysis.Reply>,
                          parse: Analysis.Parser): (r: Analysis.Analyzed)
    requires |replies| == |Analysis.DefaultCandidates|
    // the same outcome as the service called with its default candidates
    ensures r.result == Analysis.AnalyzeMeeting(transcript, None, replies, parse).result
    ensures |r.sent| == |Analysis.AnalyzeMeeting(transcript, None, replies, parse).sent|
    ensures forall i :: 0 <= i < |r.sent| ==>
              r.sent[i] == Analysis.MakeRequest(Analysis.SystemPrompt(AppIndent), Analysis.DefaultCandidates[i], transcript)
  {
    Analysis.RunLoop(Analysis.SystemPrompt(AppIndent), transcript, Analysis.DefaultCandidates, replies, parse)
  }

  /** The dictionary that replaces a failed analysis. */
  const Placeholder: Json :=
    JObject(map[Analysis.SummaryKey := JString(AnalysisErrorSummary), Analysis.ActionItemsKey := JArray([])])

  /** The outer `try`: any exception from the analysis becomes the placeholder. */
  function AnalysisOrPlaceholder(transcript: string, replies: seq<Analysis.Reply>,
                                 parse: Analysis.Parser): (data: Json)
    requires |replies| == |Analysis.DefaultCandidates|
    ensures Analysis.AnalyzeMeeting(transcript, None, replies, parse).result.Success? ==>
              data == Analysis.AnalyzeMeeting(transcript, None, replies, parse).result.value
    ensures Analysis.AnalyzeMeeting(transcript, None, replies, parse).result.Failure? ==> data == Placeholder
  {
    match InlineAnalysis(transcript, replies, parse).result
    case Success(v) => v
    case Failure(_) => Placeholder
  }

  /** One displayed action item: its number, task and owner. */
  datatype Line = Line(index: nat, task: Json, owner: Json)

  /** The action-item tab: the "no action items" notice, or numbered items. */
  datatype ItemsView = NoItems | Numbered(lines: seq<Line>)

  datatype Display = Display(summary: Json, items: ItemsView)

  function TaskOf(item: map<string, Json>): Json {
    Get(item, TaskKey, JString(TaskDefault))
  }

  function OwnerOf(item: map<string, Json>): Json {
    Get(item, OwnerKey, JString(OwnerDefault))
  }

  /** `for idx, item in enumerate(items, first)`: `item.get` fails on anything
      but a dictionary. */
  function RenderLines(items: seq<Json>, first: nat): (r: Result<seq<Line>>)
    ensures r.Success? <==> forall i :: 0 <= i < |items| ==> items[i].JObject?
    ensures r.Success? ==> |r.value| == |items|
    ensures r.Success? ==> forall i :: 0 <= i < |items| ==>
              r.value[i] == Line(first + i, TaskOf(items[i].fields), OwnerOf(items[i].fields))
    decreases |items|
  {
    if |items| == 0 then Success([])
    else if !items[0].JObject? then Failure(AttributeError)
    else
      match RenderLines(items[1..], first + 1)
      case Failure(e) => Failure(e)
      case Success(rest) => Success([Line(first, TaskOf(items[0].fields), OwnerOf(items[0].fields))] + rest)
  }

  /** The summary and action-item tabs. A falsy item list (missing, empty, or
      any other falsy value) shows the notice; a non-empty list is numbered
      from 1; a value that is not a dictionary, a non-empty non-list item
      value, or an item that is not a dictionary raises. */
  function Render(data: Json): (r: Result<Display>)
    ensures r.Success? <==>
              && data.JObject?
              && var items := Get(data.fields, Analysis.ActionItemsKey, JArray([]));
                 !Truthy(items) || (items.JArray? && forall i :: 0 <= i < |items.items| ==> items.items[i].JObject?)
    ensures r.Success? ==>
              && r.value.summary == (if Analysis.SummaryKey in data.fields then data.fields[Analysis.SummaryKey]
                                     else JString(NoSummary))
              && var items := Get(data.fields, Analysis.ActionItemsKey, JArray([]));
                 && (r.value.items.NoItems? <==> !Truthy(items))
                 && (r.value.items.Numbered? ==>
                       && |r.value.items.lines| == |items.items|
                       && forall i :: 0 <= i < |items.items| ==>
                            && r.value.items.lines[i].index == i + 1
                            && r.value.items.lines[i].task == TaskOf(items.items[i].fields)
                            && r.value.items.lines[i].owner == OwnerOf(items.items[i].fields))
  {
    if !data.JObject? then Failure(AttributeError)
    else
      var summary := Get(data.fields, Analysis.SummaryKey, JString(NoSummary));
      var items := Get(data.fields, Analysis.ActionItemsKey, JArray([]));
      if !Truthy(items) then Success(Display(summary, NoItems))
      else
        match items
        case JArray(xs) =>
          (match RenderLines(xs, 1)
           case Success(lines) => Success(Display(summary, Numbered(lines)))
           case Failure(e) => Failure(e))
        case JString(_) => Failure(AttributeError)
        case JObject(_) => Failure(AttributeError)
        case _ => Failure(TypeError)
  }

  /** The analysis text shown on screen is never an exception for the two
      dictionaries the pipeline builds itself: the placeholder and a
      degraded result both show their summary and the "no action items" notice. */
  lemma BuiltResultsRenderWithoutItems(raw: string)
    ensures Render(Placeholder) == Success(Display(JString(AnalysisErrorSummary), NoItems))
    ensures Render(Analysis.DegradedResult(raw)) ==
            Success(Display(JString(Text.Truncate(raw, Analysis.SummaryCap)), NoItems))
  {
    assert Analysis.ActionItemsKey in Placeholder.fields;
    assert Analysis.ActionItemsKey in Analysis.DegradedResult(raw).fields;
  }

  /** A dictionary of the shape the instruction asks for, with an item that
      names no owner, displays the owner default and numbers the items from 1. */
  lemma {:induction false} MissingOwnerShowsDefault(summary: string, task: string)
    ensures var item := JObject(map[TaskKey := JString(task)]);
            var data := JObject(map[Analysis.SummaryKey := JString(summary), Analysis.ActionItemsKey := JArray([item])]);
            Render(data) == Success(Display(JString(summary), Numbered([Line(1, JString(task), JString(OwnerDefault))])))
  {
    var item := JObject(map[TaskKey := JString(task)]);
    var data := JObject(map[Analysis.SummaryKey := JString(summary), Analysis.ActionItemsKey := JArray([item])]);
    assert Analysis.SummaryKey in data.fields && Analysis.ActionItemsKey in data.fields;
    assert OwnerKey !in item.fields && TaskOf(item.fields) == JString(task);
    assert OwnerOf(item.fields) == JString(OwnerDefault);
    var lines := RenderLines([item], 1);
    assert [item][0].JObject?;
    assert lines.Success? && lines.value[0] == Line(1, JString(task), JString(OwnerDefault));
    assert lines.value == [Line(1, JString(task), JString(OwnerDefault))];
  }

  /** The name offered for the transcript download. */
  function DownloadName(uploadName: string): (f: string)
    ensures |f| == |DownloadPrefix| + |uploadName| + |DownloadExtension|
    ensures f[..|DownloadPrefix|] == DownloadPrefix
    ensures f[|f| - |DownloadExtension|..] == DownloadExtension
    ensures f[|DownloadPrefix|..|f| - |DownloadExtension|] == uploadName
  {
    DownloadPrefix + uploadName + DownloadExtension
  }

  /** How one press of the button ends: the script stops before any result
      (no model, or transcription failed), or the results are shown. The
      displayed analysis can still raise while being rendered. */
  datatype PipelineEnd =
    | ModelUnavailable
    | TranscriptionFailed(message: string)
    | Shown(transcript: string, downloadName: string, analysis: Json, display: Result<Display>)

  /** Model, transcription of the temporary file at `audioPath` with
      automatic language detection and beam size 5, analysis with placeholder,
      display. */
  function RunPipeline(size: string, construct: Transcription.Constructor, uploadName: string, audioPath: string,
                       decode: Transcription.Decoder, replies: seq<Analysis.Reply>,
                       parse: Analysis.Parser): (r: PipelineEnd)
    requires |replies| == |Analysis.DefaultCandidates|
    ensures r.ModelUnavailable? <==> construct(Transcription.CpuConfig(size)).Failure?
    ensures construct(Transcription.CpuConfig(size)).Success? ==>
              var d := decode(construct(Transcription.CpuConfig(size)).value,
                              Transcription.TranscribeCall(audioPath, None, Transcription.DefaultBeamSize));
              // the transcript is shown whenever transcription succeeded, whatever the analysis did
              && (r.Shown? <==> d.Success?)
              && (d.Failure? ==> r == TranscriptionFailed(d.error))
              && (d.Success? ==>
                    && r.transcript == Transcription.Transcript(d.value.segments)
                    && r.downloadName == DownloadName(uploadName)
                    && r.analysis == AnalysisOrPlaceholder(r.transcript, replies, parse)
                    && r.display == Render(r.analysis))
  {
    match LoadWhisperModel(size, construct)
    case None => ModelUnavailable
    case Some(model) =>
      match decode(model, Transcription.TranscribeCall(audioPath, None, Transcription.DefaultBeamSize))
      case Failure(e) => TranscriptionFailed(e)
      case Success(d) =>
        var transcript := Transcription.Transcript(d.segments);
        var analysis := AnalysisOrPlaceholder(transcript, replies, parse);
        Shown(transcript, DownloadName(uploadName), analysis, Render(analysis))
  }

  /** Analysis failure never hides the transcript: when no candidate's reply
      ends the analysis loop, the analysis shown next to the transcript is the
      placeholder, displayed as its summary with no action items. */
  lemma {:induction false} AnalysisFailureShowsPlaceholder(transcript: string, replies: seq<Analysis.Reply>,
                                                           parse: Analysis.Parser)
    requires |replies| == |Analysis.DefaultCandidates|
    requires forall j :: 0 <= j < |replies| ==> !Analysis.Stops(replies[j], parse)
    ensures AnalysisOrPlaceholder(transcript, replies, parse) == Placeholder
    ensures Render(AnalysisOrPlaceholder(transcript, replies, parse)) ==
            Success(Display(JString(AnalysisErrorSummary), NoItems))
  {
    Analysis.UnansweredExhausts(transcript, None, replies, parse);
    BuiltResultsRenderWithoutItems("");
  }
}
