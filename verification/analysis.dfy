/** `AnalysisService.analyze_meeting`: an ordered fallback over candidate
    model names. Each candidate gets one chat-completion request; a request
    that fails (or comes back without content) moves on to the next
    candidate, content that `json.loads` accepts is returned as is, and
    content it rejects ends the loop with a degraded summary. The remote
    service and the JSON decoder are oracles: `replies[i]` is what the
    service answered to the i-th request, `parse` is `json.loads` with its
    three outcomes. */
module Analysis {
  import opened Wrappers
  import opened Json
  import Text

  /** The candidates used when the caller passes `models_to_try=None`, fastest first. */
  const DefaultCandidates: seq<string> :=
    ["llama-3.1-8b-instant", "llama-3.3-70b-versatile", "mixtral-8x7b-32768"]

  const Temperature: real := 0.7
  const ResponseFormat: string := "json_object"
  const UserPreamble: string := "Analyze this meeting transcription:\n\n"

  /** The dictionary keys of an analysis result. */
  const SummaryKey: string := "resume_executif"
  const ActionItemsKey: string := "action_items"

  /** Degraded summaries keep at most this many characters of the raw reply. */
  const SummaryCap: nat := 500

  /** `str(e)` of the TypeError `json.loads(None)` raises on a reply without content. */
  const MissingContentError: string := "the JSON object must be str, bytes or bytearray, not NoneType"

  const ExhaustedPrefix: string := "All models failed. Last error: "

  /** The system instruction, line by line, without the source indentation. */
  const PromptLines: seq<string> := [
    "You are an expert assistant for analyzing professional meetings.",
    "Analyze a meeting transcription and provide:",
    "1. A concise executive summary (3-4 sentences)",
    "2. A list of action items with identified responsible persons",
    "",
    "Respond ONLY in JSON format with this exact structure:",
    "{",
    "    \"resume_executif\": \"Concise summary in 3-4 sentences (use the same language as the transcription)\",",
    "    \"action_items\": [",
    "        {\"tache\": \"Task description\", \"responsable\": \"Person's name or 'To be determined'\"},",
    "        ...",
    "    ]",
    "}",
    "",
    "Use the same language as the transcription (English or French)."
  ]

  /** The triple-quoted literal keeps the indentation of the code around it:
      every line after the first starts with `indent` spaces. */
  const ServiceIndent: nat := 8

  function Indented(lines: seq<string>, indent: nat): string
    decreases |lines|
  {
    if |lines| == 0 then ""
    else "\n" + seq(indent, _ => ' ') + lines[0] + Indented(lines[1..], indent)
  }

  function SystemPrompt(indent: nat): string {
    PromptLines[0] + Indented(PromptLines[1..], indent)
  }

  datatype Message = Message(role: string, content: string)

  /** The arguments of one `client.chat.completions.create` call. */
  datatype Request = Request(model: string, messages: seq<Message>, temperature: real, responseFormat: string)

  function MakeRequest(prompt: string, model: string, transcript: string): Request {
    Request(model,
            [Message("system", prompt), Message("user", UserPreamble + transcript)],
            Temperature, ResponseFormat)
  }

  /** What one request produced: an exception before any content existed, a
      response whose message content is None, or a response with content. */
  datatype Reply = RequestError(message: string) | NoContent | Content(text: string)

  /** What `json.loads` does with a string: return a value, raise
      `JSONDecodeError`, or raise any other exception (a `ValueError` for an
      over-long integer literal, a `RecursionError` for deep nesting). */
  datatype Parse = Decoded(value: Json) | DecodeError | OtherError(message: string)

  type Parser = string -> Parse

  /** A reply ends the loop when it has content and `json.loads` either
      returns or raises `JSONDecodeError`; every other outcome reaches
      `except Exception` and moves on to the next candidate. */
  predicate Stops(r: Reply, parse: Parser) {
    r.Content? && !parse(r.text).OtherError?
  }

  /** `str(last_error)` after a reply that moved the loop on. */
  function FailureText(r: Reply, parse: Parser): string
    requires !Stops(r, parse)
  {
    match r
    case RequestError(m) => m
    case NoContent => MissingContentError
    case Content(t) => parse(t).message
  }

  /** How the loop ended: `break` with a parsed value (`errorBefore` is the
      last error seen before it), `break` with raw content that did not
      parse, or running out of candidates. */
  datatype Stop =
    | Parsed(value: Json, errorBefore: Option<string>)
    | Degraded(raw: string)
    | RanOut(lastError: Option<string>)

  /** The loop's end, and the requests it sent, in order. */
  datatype Attempts = Attempts(stop: Stop, sent: seq<Request>)

  /** The position of the first reply that ends the loop, or `|replies|`. */
  function FirstStop(replies: seq<Reply>, parse: Parser): (k: nat)
    ensures k <= |replies|
    ensures forall j :: 0 <= j < k ==> !Stops(replies[j], parse)
    ensures k < |replies| ==> Stops(replies[k], parse)
  {
    if |replies| == 0 then 0
    else if Stops(replies[0], parse) then 0
    else 1 + FirstStop(replies[1..], parse)
  }

  /** `last_error` after the replies in `failed`, starting from `init`. */
  function ErrorAfter(failed: seq<Reply>, parse: Parser, init: Option<string>): Option<string>
    requires forall j :: 0 <= j < |failed| ==> !Stops(failed[j], parse)
  {
    if |failed| == 0 then init else Some(FailureText(failed[|failed| - 1], parse))
  }

  /** Reference definition of the loop's end, read off the first reply that
      ends it rather than computed attempt by attempt. */
  function Verdict(replies: seq<Reply>, parse: Parser, init: Option<string>): Stop {
    var k := FirstStop(replies, parse);
    if k == |replies| then RanOut(ErrorAfter(replies, parse, init))
    else if parse(replies[k].text).Decoded? then Parsed(parse(replies[k].text).value, ErrorAfter(replies[..k], parse, init))
    else Degraded(replies[k].text)
  }

  /** The `for model_name in models_to_try` loop, one candidate per step. */
  function Fold(prompt: string, transcript: string, candidates: seq<string>, replies: seq<Reply>,
                parse: Parser, lastError: Option<string>): (a: Attempts)
    requires |replies| == |candidates|
    ensures |a.sent| <= |candidates|
    ensures forall i :: 0 <= i < |a.sent| ==> a.sent[i] == MakeRequest(prompt, candidates[i], transcript)
    decreases |candidates|
  {
    if |candidates| == 0 then Attempts(RanOut(lastError), [])
    else
      var request := MakeRequest(prompt, candidates[0], transcript);
      var reply := replies[0];
      if Stops(reply, parse) then
        if parse(reply.text).Decoded? then Attempts(Parsed(parse(reply.text).value, lastError), [request])
        else Attempts(Degraded(reply.text), [request])
      else
        var rest := Fold(prompt, transcript, candidates[1..], replies[1..], parse, Some(FailureText(reply, parse)));
        Attempts(rest.stop, [request] + rest.sent)
  }

  /** The fold computes the reference definition: its end is read off the
      first reply that ends the loop, and it asks every candidate up to and
      including that reply, and no other. */
  lemma {:induction false} FoldMatchesVerdict(prompt: string, transcript: string, candidates: seq<string>,
                                              replies: seq<Reply>, parse: Parser, lastError: Option<string>)
    requires |replies| == |candidates|
    ensures Fold(prompt, transcript, candidates, replies, parse, lastError).stop == Verdict(replies, parse, lastError)
    ensures |Fold(prompt, transcript, candidates, replies, parse, lastError).sent| ==
            if FirstStop(replies, parse) < |candidates| then FirstStop(replies, parse) + 1 else |candidates|
    decreases |candidates|
  {
    if |candidates| > 0 && !Stops(replies[0], parse) {
      var next := Some(FailureText(replies[0], parse));
      FoldMatchesVerdict(prompt, transcript, candidates[1..], replies[1..], parse, next);
      var k := FirstStop(replies, parse);
      assert FirstStop(replies[1..], parse) == k - 1;
      if k < |replies| {
        assert replies[1..][..k - 1] == replies[1..k];
        if k > 1 {
          assert replies[1..k][k - 2] == replies[..k][k - 1];
        }
      }
    }
  }

  /** The dictionary built from raw content that did not parse: exactly a
      summary and an empty action-item list, the summary being the first 500
      characters of the raw text. */
  function DegradedResult(raw: string): (d: Json)
    ensures d.JObject? && d.fields.Keys == {SummaryKey, ActionItemsKey}
    ensures d.fields[ActionItemsKey] == JArray([])
    ensures d.fields[SummaryKey].JString?
    ensures var summary := d.fields[SummaryKey].s;
            |summary| <= SummaryCap && |summary| <= |raw| && summary == raw[..|summary|] &&
            (|raw| <= SummaryCap ==> summary == raw) && (|raw| > SummaryCap ==> |summary| == SummaryCap)
  {
    JObject(map[SummaryKey := JString(Text.Truncate(raw, SummaryCap)), ActionItemsKey := JArray([])])
  }

  function ExhaustedMessage(lastError: Option<string>): string {
    ExhaustedPrefix + lastError.GetOr("None")
  }

  /** `if analysis_data is None: raise ...; return analysis_data`. A parsed
      JSON `null` leaves `analysis_data` None, so it raises too. */
  function Finish(stop: Stop): (r: Result<Json>)
    ensures r.Failure? <==> stop.RanOut? || (stop.Parsed? && stop.value == JNull)
    ensures r.Failure? ==> |r.error| >= |ExhaustedPrefix| && r.error[..|ExhaustedPrefix|] == ExhaustedPrefix
    ensures stop.RanOut? ==> r.error[|ExhaustedPrefix|..] == stop.lastError.GetOr("None")
    ensures stop.Parsed? && stop.value == JNull ==> r.error[|ExhaustedPrefix|..] == stop.errorBefore.GetOr("None")
    ensures stop.Parsed? && stop.value != JNull ==> r.value == stop.value
    ensures stop.Degraded? ==> r.value == DegradedResult(stop.raw)
  {
    match stop
    case Parsed(v, before) => if v == JNull then Failure(ExhaustedMessage(before)) else Success(v)
    case Degraded(raw) => Success(DegradedResult(raw))
    case RanOut(lastError) => Failure(ExhaustedMessage(lastError))
  }

  function Candidates(modelsToTry: Option<seq<string>>): seq<string> {
    modelsToTry.GetOr(DefaultCandidates)
  }

  /** The result (a returned dictionary or a raised exception) and the requests sent. */
  datatype Analyzed = Analyzed(result: Result<Json>, sent: seq<Request>)

  function RunLoop(prompt: string, transcript: string, candidates: seq<string>, replies: seq<Reply>,
                   parse: Parser): Analyzed
    requires |replies| == |candidates|
  {
    var a := Fold(prompt, transcript, candidates, replies, parse, None);
    Analyzed(Finish(a.stop), a.sent)
  }

  /** `analyze_meeting(transcription_text, models_to_try)`. */
  function AnalyzeMeeting(transcript: string, modelsToTry: Option<seq<string>>, replies: seq<Reply>,
                          parse: Parser): (r: Analyzed)
    requires |replies| == |Candidates(modelsToTry)|
    // one request per candidate at most, in list order, up to the first reply that ends the loop
    ensures |r.sent| == if FirstStop(replies, parse) < |replies| then FirstStop(replies, parse) + 1 else |replies|
    // the candidates: the three defaults in order for None, an explicit list unchanged
    ensures modelsToTry.None? ==> forall i :: 0 <= i < |r.sent| ==> r.sent[i].model == DefaultCandidates[i]
    ensures modelsToTry.Some? ==> forall i :: 0 <= i < |r.sent| ==> r.sent[i].model == modelsToTry.value[i]
    // every request carries the same instruction, the transcript verbatim and the same settings
    ensures forall i :: 0 <= i < |r.sent| ==>
              && r.sent[i].messages == [Message("system", SystemPrompt(ServiceIndent)),
                                        Message("user", UserPreamble + transcript)]
              && r.sent[i].temperature == 0.7 && r.sent[i].responseFormat == "json_object"
  {
    FoldMatchesVerdict(SystemPrompt(ServiceIndent), transcript, Candidates(modelsToTry), replies, parse, None);
    RunLoop(SystemPrompt(ServiceIndent), transcript, Candidates(modelsToTry), replies, parse)
  }

  /** The call's outcome, read off the first reply that ends the loop. */
  lemma {:induction false} ResultIsVerdict(transcript: string, modelsToTry: Option<seq<string>>,
                                           replies: seq<Reply>, parse: Parser)
    requires |replies| == |Candidates(modelsToTry)|
    ensures AnalyzeMeeting(transcript, modelsToTry, replies, parse).result == Finish(Verdict(replies, parse, None))
  {
    FoldMatchesVerdict(SystemPrompt(ServiceIndent), transcript, Candidates(modelsToTry), replies, parse, None);
  }

  /** Content that parses to something other than `null` is returned
      unchanged, whichever candidate produced it, and no later candidate is
      asked. */
  lemma {:induction false} ParsedContentReturnedUnchanged(transcript: string, modelsToTry: Option<seq<string>>,
                                                          replies: seq<Reply>, parse: Parser, k: nat, v: Json)
    requires |replies| == |Candidates(modelsToTry)|
    requires k < |replies| && replies[k].Content? && parse(replies[k].text) == Decoded(v) && v != JNull
    requires forall j :: 0 <= j < k ==> !Stops(replies[j], parse)
    ensures AnalyzeMeeting(transcript, modelsToTry, replies, parse).result == Success(v)
    ensures |AnalyzeMeeting(transcript, modelsToTry, replies, parse).sent| == k + 1
  {
    assert FirstStop(replies, parse) == k;
    ResultIsVerdict(transcript, modelsToTry, replies, parse);
  }

  /** Content on which `json.loads` raises `JSONDecodeError` ends the loop
      with a summary that is a prefix of the raw text of at most 500
      characters (the whole text when it is short enough) and no action
      items; later candidates are not asked. */
  lemma {:induction false} UnparsedContentDegrades(transcript: string, modelsToTry: Option<seq<string>>,
                                                   replies: seq<Reply>, parse: Parser, k: nat)
    requires |replies| == |Candidates(modelsToTry)|
    requires k < |replies| && replies[k].Content? && parse(replies[k].text) == DecodeError
    requires forall j :: 0 <= j < k ==> !Stops(replies[j], parse)
    ensures var r := AnalyzeMeeting(transcript, modelsToTry, replies, parse);
            var raw := replies[k].text;
            && |r.sent| == k + 1
            && r.result.Success? && r.result.value.JObject?
            && r.result.value.fields.Keys == {SummaryKey, ActionItemsKey}
            && r.result.value.fields[ActionItemsKey] == JArray([])
            && r.result.value.fields[SummaryKey].JString?
            && var summary := r.result.value.fields[SummaryKey].s;
               && |summary| <= 500 && |summary| <= |raw| && summary == raw[..|summary|]
               && (|raw| <= 500 ==> summary == raw)
               && (|raw| > 500 ==> |summary| == 500)
  {
    assert FirstStop(replies, parse) == k;
    ResultIsVerdict(transcript, modelsToTry, replies, parse);
  }

  /** When no reply ends the loop (request errors, missing content, content
      on which `json.loads` raises something other than `JSONDecodeError`),
      every candidate is asked once and the call raises with the text of the
      last failure, or "None" for an empty candidate list. */
  lemma {:induction false} UnansweredExhausts(transcript: string, modelsToTry: Option<seq<string>>,
                                              replies: seq<Reply>, parse: Parser)
    requires |replies| == |Candidates(modelsToTry)|
    requires forall j :: 0 <= j < |replies| ==> !Stops(replies[j], parse)
    ensures var r := AnalyzeMeeting(transcript, modelsToTry, replies, parse);
            && |r.sent| == |replies|
            && r.result == Failure(ExhaustedPrefix +
                 (if |replies| == 0 then "None" else FailureText(replies[|replies| - 1], parse)))
  {
    assert FirstStop(replies, parse) == |replies|;
    ResultIsVerdict(transcript, modelsToTry, replies, parse);
  }

  /** A first stopping content that parses to JSON `null` ends the loop and
      then raises the all-failed error, although later candidates were never
      asked. */
  lemma {:induction false} NullContentRaises(transcript: string, modelsToTry: Option<seq<string>>,
                                             replies: seq<Reply>, parse: Parser, k: nat)
    requires |replies| == |Candidates(modelsToTry)|
    requires k < |replies| && replies[k].Content? && parse(replies[k].text) == Decoded(JNull)
    requires forall j :: 0 <= j < k ==> !Stops(replies[j], parse)
    ensures var r := AnalyzeMeeting(transcript, modelsToTry, replies, parse);
            && |r.sent| == k + 1
            && r.result == Failure(ExhaustedPrefix +
                 (if k == 0 then "None" else FailureText(replies[k - 1], parse)))
  {
    assert FirstStop(replies, parse) == k;
    ResultIsVerdict(transcript, modelsToTry, replies, parse);
  }

  /** The call raises exactly when no reply ends the loop or the first one
      that does parses to JSON `null`; any other ending yields a dictionary. */
  lemma {:induction false} RaisesIffNoUsableContent(transcript: string, modelsToTry: Option<seq<string>>,
                                                    replies: seq<Reply>, parse: Parser)
    requires |replies| == |Candidates(modelsToTry)|
    ensures AnalyzeMeeting(transcript, modelsToTry, replies, parse).result.Failure? <==>
            (forall j :: 0 <= j < |replies| ==> !Stops(replies[j], parse)) ||
            (exists k :: 0 <= k < |replies| && Stops(replies[k], parse) &&
                         (forall j :: 0 <= j < k ==> !Stops(replies[j], parse)) &&
                         parse(replies[k].text) == Decoded(JNull))
  {
    ResultIsVerdict(transcript, modelsToTry, replies, parse);
  }

  /** Order sensitivity: a candidate that does not end the loop in front of
      the list changes nothing when a later candidate answers with usable
      content; the result equals asking the rest of the list alone. */
  lemma {:induction false} FailedCandidateIsTransparent(transcript: string, model: string, rest: seq<string>,
                                                        failed: Reply, replies: seq<Reply>, parse: Parser)
    requires !Stops(failed, parse) && |replies| == |rest|
    requires FirstStop(replies, parse) < |replies|
    requires parse(replies[FirstStop(replies, parse)].text) != Decoded(JNull)
    ensures AnalyzeMeeting(transcript, Some([model] + rest), [failed] + replies, parse).result ==
            AnalyzeMeeting(transcript, Some(rest), replies, parse).result
  {
    var all := [failed] + replies;
    assert all[1..] == replies;
    assert FirstStop(all, parse) == FirstStop(replies, parse) + 1;
    assert all[FirstStop(all, parse)] == replies[FirstStop(replies, parse)];
    ResultIsVerdict(transcript, Some([model] + rest), all, parse);
    ResultIsVerdict(transcript, Some(rest), replies, parse);
    if FirstStop(replies, parse) > 0 {
      assert all[..FirstStop(all, parse)][FirstStop(all, parse) - 1] ==
             replies[..FirstStop(replies, parse)][FirstStop(replies, parse) - 1];
    }
  }

  /** The loop's outcome does not depend on the wording of the instruction:
      two prompts give the same end and send requests that differ only in
      the system message. */
  lemma {:induction false} StopIndependentOfPrompt(p1: string, p2: string, transcript: string, candidates: seq<string>,
                                                   replies: seq<Reply>, parse: Parser)
    requires |replies| == |candidates|
    ensures var a1 := Fold(p1, transcript, candidates, replies, parse, None);
            var a2 := Fold(p2, transcript, candidates, replies, parse, None);
            && a1.stop == a2.stop
            && |a1.sent| == |a2.sent|
            && forall i :: 0 <= i < |a1.sent| ==>
                 a1.sent[i].(messages := a1.sent[i].messages[0 := Message("system", p2)]) == a2.sent[i]
  {
    FoldMatchesVerdict(p1, transcript, candidates, replies, parse, None);
    FoldMatchesVerdict(p2, transcript, candidates, replies, parse, None);
  }
}
