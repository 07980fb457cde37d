/** The call-evaluation endpoint (app/api/analyze-call/route.ts, `POST`):
    a staged check of the uploaded form field, a short-circuit to the canned
    result when no API key is configured, then transcription followed by
    analysis, where any failure of either falls back to the canned result.

    The two external services are not modelled: their outcomes are
    parameters, the completion service's as a function of the transcript it
    is given, and `JSON.parse` is the parameter `parse`. `Post` records the
    external calls it makes, in order. */
module AnalyzeCall {
  import opened Wrappers
  import opened Text
  import opened JsonValues
  import opened Evaluation

  /** The upload ceiling, 50 * 1024 * 1024 bytes. */
  const MaxUploadBytes: nat := 52428800

  /** A browser `File`: declared MIME type, name and size in bytes. */
  datatype File = File(mimeType: string, name: string, size: nat)

  /** What `formData.get('audio')` yields: nothing, a plain text value, or a file. */
  datatype FormField = Absent | TextField(value: string) | FileField(file: File)

  /** The request as the handler sees it: a body `request.formData()` cannot read, or a form. */
  datatype Request = Unreadable | Form(audio: FormField)

  /** The name matches `/\.(mp3|wav)$/i`. */
  predicate HasAudioExtension(name: string)
  {
    EndsWith(Lower(name), ".mp3") || EndsWith(Lower(name), ".wav")
  }

  /** The type check fails: the MIME type does not contain "audio" (case-sensitively)
      and the name has neither extension (case-insensitively). */
  predicate IsInvalidType(mimeType: string, name: string)
  {
    !Contains(mimeType, "audio") && !HasAudioExtension(name)
  }

  datatype Rejection = MissingAudio | InvalidType | TooLarge

  function RejectionMessage(r: Rejection): string
  {
    match r
    case MissingAudio => "No audio file provided"
    case InvalidType => "Invalid file type. Please upload an MP3 or WAV file."
    case TooLarge => "File too large. Please upload a file smaller than 50MB."
  }

  /** How the checks end: the upload passes, a 400 rejection, or a fault that
      reaches the outer handler (an unreadable body, or a text value where a
      file was expected, whose missing `type` cannot be searched). */
  datatype Validation = Accepted | Rejected(reason: Rejection) | Fault

  /** The staged checks, in order: presence, then type, then size. Each later
      stage is reached only when the earlier ones pass. */
  function Validate(request: Request): (v: Validation)
    ensures v == Rejected(MissingAudio) <==>
      request.Form? && (request.audio.Absent? || request.audio == TextField(""))
    ensures v == Rejected(InvalidType) <==>
      request.Form? && request.audio.FileField? && IsInvalidType(request.audio.file.mimeType, request.audio.file.name)
    ensures v == Rejected(TooLarge) <==>
      && request.Form? && request.audio.FileField?
      && !IsInvalidType(request.audio.file.mimeType, request.audio.file.name)
      && request.audio.file.size > MaxUploadBytes
    ensures v == Accepted <==>
      && request.Form? && request.audio.FileField?
      && !IsInvalidType(request.audio.file.mimeType, request.audio.file.name)
      && request.audio.file.size <= MaxUploadBytes
    ensures v == Fault <==>
      request.Unreadable? || (request.audio.TextField? && request.audio.value != "")
  {
    match request
    case Unreadable => Fault
    case Form(audio) =>
      match audio
      case Absent => Rejected(MissingAudio)
      case TextField(value) => if value == "" then Rejected(MissingAudio) else Fault
      case FileField(File(mimeType, name, size)) =>
        if IsInvalidType(mimeType, name) then Rejected(InvalidType)
        else if size > MaxUploadBytes then Rejected(TooLarge)
        else Accepted
  }

  /** The type check in declarative terms: "audio" occurs nowhere in the MIME
      type, and the last four characters of the name, lower-cased, are
      neither ".mp3" nor ".wav". */
  lemma TypeCheckIff(mimeType: string, name: string)
    ensures IsInvalidType(mimeType, name) <==>
      && (forall i: nat :: !OccursAt(mimeType, "audio", i))
      && !(|name| >= 4 && Lower(name[|name| - 4..]) in {".mp3", ".wav"})
  {
    ContainsIff(mimeType, "audio");
    if |name| >= 4 {
      assert Lower(name)[|name| - 4..] == Lower(name[|name| - 4..]);
    }
  }

  /** A file of exactly 50 MiB passes the size check; one byte more does not. */
  lemma SizeCeiling(mimeType: string, name: string)
    requires !IsInvalidType(mimeType, name)
    ensures Validate(Form(FileField(File(mimeType, name, 50 * 1024 * 1024)))) == Accepted
    ensures Validate(Form(FileField(File(mimeType, name, 50 * 1024 * 1024 + 1)))) == Rejected(TooLarge)
  {
  }

  /** `!process.env.OPENAI_API_KEY` is false: the key is set and not empty. */
  predicate KeyConfigured(apiKey: Option<string>)
  {
    apiKey.Some? && apiKey.value != ""
  }

  datatype Outcome<+T> = Failed | Returned(value: T)

  /** The completion service's reply: the `content` of each choice's message, `None` for `null`. */
  type Choices = seq<Option<string>>

  /** `response.choices[0].message.content || '{}'`: `None` when there is no first
      choice (reading its message throws); a `null` or empty content becomes "{}". */
  function ReplyText(choices: Choices): (r: Option<string>)
    ensures r.Some? <==> |choices| > 0
    ensures |choices| > 0 && (choices[0] == None || choices[0] == Some("")) ==> r == Some("{}")
    ensures |choices| > 0 && choices[0].Some? && choices[0].value != "" ==> r == choices[0]
  {
    if choices == [] then None
    else
      match choices[0]
      case None => Some("{}")
      case Some(content) => if content == "" then Some("{}") else Some(content)
  }

  /** `analyzeCallTranscript` once the completion service has answered (or failed):
      the parsed content, returned as it is, with no check of its shape or of the
      score ranges. */
  function AnalyzeCallTranscript(reply: Outcome<Choices>, parse: string -> Option<Json>): (r: Outcome<Json>)
    ensures r.Returned? <==>
      reply.Returned? && |reply.value| > 0 && parse(ReplyText(reply.value).value).Some?
    ensures r.Returned? ==> r.value == parse(ReplyText(reply.value).value).value
  {
    match reply
    case Failed => Failed
    case Returned(choices) =>
      match ReplyText(choices)
      case None => Failed
      case Some(text) =>
        match parse(text)
        case None => Failed
        case Some(j) => Returned(j)
  }

  /** Empty or missing model content is analysed as the empty object. */
  lemma EmptyContentIsEmptyObject(choices: Choices, parse: string -> Option<Json>)
    requires parse("{}") == Some(Object([]))
    requires |choices| > 0 && (choices[0] == None || choices[0] == Some(""))
    ensures AnalyzeCallTranscript(Returned(choices), parse) == Returned(Object([]))
  {
  }

  /** The external calls, in the order `Post` makes them. */
  datatype Call = Transcribe | Analyze(transcript: string)

  datatype Response = Response(status: nat, body: Json)

  function MessageBody(message: string): Json
  {
    Object([("message", Str(message))])
  }

  /** `NextResponse.json(mockAnalyzeCall())`. */
  function MockResponse(): Response
  {
    Response(200, ToJson(MockAnalyzeCall()))
  }

  /** The canned response reads back as the canned result, which is well-formed
      against the rubric, scores within bounds. */
  lemma MockResponseReadsBack()
    ensures FromJson(MockResponse().body) == Some(MockAnalyzeCall())
    ensures WellFormed(MockAnalyzeCall(), Rubric.EvaluationParameters)
  {
    FromToJson(MockAnalyzeCall());
    MockIsWellFormed();
  }

  method Post(
    request: Request,
    apiKey: Option<string>,
    transcription: Outcome<string>,
    chat: string -> Outcome<Choices>,
    parse: string -> Option<Json>
  ) returns (response: Response, calls: seq<Call>)
    // Client faults are 400s with the stage's message; only faults outside the checks are 500s.
    ensures response.status == 500 <==> Validate(request) == Fault
    ensures response.status == 500 ==> response.body == MessageBody("Internal server error")
    ensures response.status == 400 <==> Validate(request).Rejected?
    ensures Validate(request).Rejected? ==>
      response.body == MessageBody(RejectionMessage(Validate(request).reason))
    // An upload that passes the checks always gets a 200, whatever the services do.
    ensures Validate(request) == Accepted ==> response.status == 200
    // No external call unless the upload passes and a key is configured.
    ensures Validate(request) != Accepted || !KeyConfigured(apiKey) ==> calls == []
    ensures Validate(request) == Accepted && !KeyConfigured(apiKey) ==> response == MockResponse()
    // Transcription first; analysis only of a transcript that was returned.
    ensures Validate(request) == Accepted && KeyConfigured(apiKey) ==>
      calls == [Transcribe] + (if transcription.Returned? then [Analyze(transcription.value)] else [])
    ensures Validate(request) == Accepted && KeyConfigured(apiKey) && transcription.Failed? ==>
      response == MockResponse()
    ensures Validate(request) == Accepted && KeyConfigured(apiKey) && transcription.Returned? ==>
      var analysis := AnalyzeCallTranscript(chat(transcription.value), parse);
      response == if analysis.Returned? then Response(200, analysis.value) else MockResponse()
  {
    calls := [];
    var verdict := Validate(request);
    if verdict.Fault? {
      response := Response(500, MessageBody("Internal server error"));
      return;
    }
    if verdict.Rejected? {
      response := Response(400, MessageBody(RejectionMessage(verdict.reason)));
      return;
    }
    if !KeyConfigured(apiKey) {
      response := MockResponse();
      return;
    }
    calls := calls + [Transcribe];
    if transcription.Failed? {
      response := MockResponse();
      return;
    }
    var transcript := transcription.value;
    calls := calls + [Analyze(transcript)];
    var analysis := AnalyzeCallTranscript(chat(transcript), parse);
    if analysis.Failed? {
      response := MockResponse();
    } else {
      response := Response(200, analysis.value);
    }
  }
}
