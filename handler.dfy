/**
 * The `POST /v1/audio/transcriptions` handler: its checks in their order,
 * the call to the speech-recognition capability, and the choice of renderer.
 */
module Handler {
  import opened Options
  import opened Transcript
  import opened Render

  /** The models the server accepts; with the other entries commented out, one. */
  const ModelsList: seq<string> := ["tiny.en"]

  /** The model used when the form names none. */
  const DefaultModel: string := "tiny.en"

  const DefaultMinSilenceMs: int := 500
  const DefaultLanguage: string := "auto"
  const DefaultResponseFormat: string := "json"

  /** An uploaded file part: its client-side file name and its bytes. */
  datatype Upload = Upload(filename: string, content: seq<bv8>)

  /**
   * The parts of a request the handler reads; a form field that was not sent
   * is None. Numeric fields are taken as already converted by `int(...)` and
   * `float(...)`.
   */
  datatype Request = Request(
    model: Option<string>,
    file: Option<Upload>,
    minSilenceDurationMs: Option<int>,
    temperature: Option<Float>,
    language: Option<string>,
    responseFormat: Option<string>)

  /** Which loaded model is asked, and what the handler passes to its `transcribe`. */
  datatype TranscribeArgs = TranscribeArgs(
    model: string,
    audio: seq<bv8>,
    vadFilter: bool,
    minSilenceDurationMs: int,
    temperature: Float,
    language: string)

  /** What `transcribe` returns: a segment list or None, and the audio duration from its info. */
  datatype Transcription = Transcription(segments: Option<seq<Segment>>, duration: Float)

  /** The five response formats. */
  datatype ResponseFormat = Json | Text | Srt | VerboseJsonFormat | Vtt

  function FormatName(f: ResponseFormat): string
  {
    match f
    case Json => "json"
    case Text => "text"
    case Srt => "srt"
    case VerboseJsonFormat => "verbose_json"
    case Vtt => "vtt"
  }

  /**
   * The format a `response_format` value selects: exactly the five names are
   * recognised (case matters), and each one selects the format it names.
   */
  function ParseFormat(name: string): (f: Option<ResponseFormat>)
    ensures f.Some? <==> name in {"json", "text", "srt", "verbose_json", "vtt"}
    ensures f.Some? ==> FormatName(f.value) == name
  {
    if name == "json" then Some(Json)
    else if name == "text" then Some(Text)
    else if name == "srt" then Some(Srt)
    else if name == "verbose_json" then Some(VerboseJsonFormat)
    else if name == "vtt" then Some(Vtt)
    else None
  }

  lemma ParseFormatName(f: ResponseFormat)
    ensures ParseFormat(FormatName(f)) == Some(f)
  {
  }

  /**
   * `application/json` from `jsonify`; `text/html; charset=utf-8`, the
   * framework's default for a bare string; or the `Content-Type` header the
   * handler sets itself.
   */
  datatype ContentType = ApplicationJson | TextHtml | TextPlain | TextVtt

  /** A success body: `{"text": ...}`, a bare string, or the verbose record. */
  datatype Body = TextObject(text: string) | RawText(content: string) | VerboseObject(transcript: VerboseTranscript)

  /**
   * `Err` is the JSON `{"error": message}` (with `model_list` when present)
   * sent with status 400; `Ok` is sent with status 200.
   */
  datatype Response =
    | Err(message: string, modelList: Option<seq<string>>)
    | Ok(body: Body, contentType: ContentType)

  function Status(r: Response): nat
  {
    if r.Err? then 400 else 200
  }

  /** The response, and the call made to the capability if one was made. */
  datatype Exchange = Exchange(response: Response, call: Option<TranscribeArgs>)

  const UnknownModelMessage: string := "unknown model name"
  const NoFileMessage: string := "No file uploaded"
  const NoFileSelectedMessage: string := "No file selected"
  const NoSpeechMessage: string := "No speech detected"
  const InvalidFormatMessage: string := "Invalid response format"

  /** The `model` form field, or the default model when it is absent. */
  function ModelName(req: Request): string
  {
    req.model.GetOr(DefaultModel)
  }

  /** All three checks made before the capability is called pass. */
  predicate AcceptedUpload(req: Request)
  {
    ModelName(req) in ModelsList && req.file.Some? && req.file.value.filename != ""
  }

  /**
   * The checks before transcription, first failure first: the model name,
   * then the presence of a `file` part, then its file name.
   */
  function PreCheck(req: Request): (r: Option<Response>)
    ensures r.None? <==> AcceptedUpload(req)
    ensures r.Some? ==> r.value.Err?
    ensures ModelName(req) !in ModelsList ==> r == Some(Err(UnknownModelMessage, Some(ModelsList)))
  {
    if ModelName(req) !in ModelsList then Some(Err(UnknownModelMessage, Some(ModelsList)))
    else if req.file.None? then Some(Err(NoFileMessage, None))
    else if req.file.value.filename == "" then Some(Err(NoFileSelectedMessage, None))
    else None
  }

  /**
   * The arguments of the capability call: the named model, the uploaded
   * bytes after `normalise` (decoded and re-encoded as 16-bit PCM WAV),
   * voice-activity filtering on, and the form's silence duration,
   * temperature and language or their defaults.
   */
  function CallArgs(upload: Upload, req: Request, normalise: seq<bv8> -> seq<bv8>): TranscribeArgs
  {
    TranscribeArgs(
      ModelName(req),
      normalise(upload.content),
      true,
      req.minSilenceDurationMs.GetOr(DefaultMinSilenceMs),
      req.temperature.GetOr(Zero),
      req.language.GetOr(DefaultLanguage))
  }

  /** The success response of one format for a finished transcription. */
  function RenderAs(format: ResponseFormat, segs: seq<Segment>, args: TranscribeArgs, duration: Float): Response
  {
    match format
    case Json => Ok(TextObject(PlainText(segs)), ApplicationJson)
    case Text => Ok(RawText(PlainText(segs)), TextHtml)
    case Srt => Ok(RawText(SrtDocument(segs)), TextPlain)
    case VerboseJsonFormat => Ok(VerboseObject(VerboseJson(segs, args.temperature, args.language, duration)), ApplicationJson)
    case Vtt => Ok(RawText(VttDocument(segs)), TextVtt)
  }

  /**
   * The handler. The capability is called exactly when the upload passes the
   * three checks, and then with `CallArgs`; a failure is status 400 and
   * happens exactly when a check fails, the capability finds no speech, or
   * the format name is not one of the five.
   */
  function Handle(req: Request, normalise: seq<bv8> -> seq<bv8>, transcribe: TranscribeArgs -> Transcription): (x: Exchange)
    ensures x.call.Some? <==> AcceptedUpload(req)
    ensures x.call.Some? ==> x.call.value == CallArgs(req.file.value, req, normalise)
    ensures x.call.Some? ==> x.call.value.model in ModelsList
    ensures Status(x.response) == 400 <==>
      || !AcceptedUpload(req)
      || transcribe(x.call.value).segments.None?
      || ParseFormat(req.responseFormat.GetOr(DefaultResponseFormat)).None?
  {
    match PreCheck(req)
    case Some(failure) => Exchange(failure, None)
    case None =>
      var args := CallArgs(req.file.value, req, normalise);
      var result := transcribe(args);
      var response :=
        if result.segments.None? then Err(NoSpeechMessage, None)
        else match ParseFormat(req.responseFormat.GetOr(DefaultResponseFormat))
          case None => Err(InvalidFormatMessage, None)
          case Some(format) => RenderAs(format, result.segments.value, args, result.duration);
      Exchange(response, Some(args))
  }

  /** Past the checks and with segments in hand, the handler answers with the renderer the format name selects. */
  lemma HandleAfterTranscription(req: Request, normalise: seq<bv8> -> seq<bv8>, transcribe: TranscribeArgs -> Transcription)
    requires AcceptedUpload(req)
    requires transcribe(CallArgs(req.file.value, req, normalise)).segments.Some?
    ensures var args := CallArgs(req.file.value, req, normalise);
            var result := transcribe(args);
            Handle(req, normalise, transcribe) == Exchange(
              match ParseFormat(req.responseFormat.GetOr(DefaultResponseFormat))
              case None => Err(InvalidFormatMessage, None)
              case Some(format) => RenderAs(format, result.segments.value, args, result.duration),
              Some(args))
  {
  }

  /**
   * The handler as the server runs it: early returns, then the chosen
   * renderer. `normalise` stands for the audio decoding and re-encoding and
   * `transcribe` for the model's recognition.
   */
  method Transcribe(req: Request, normalise: seq<bv8> -> seq<bv8>, transcribe: TranscribeArgs -> Transcription) returns (x: Exchange)
    ensures x == Handle(req, normalise, transcribe)
  {
    var modelName := ModelName(req);
    if modelName !in ModelsList {
      return Exchange(Err(UnknownModelMessage, Some(ModelsList)), None);
    }
    if req.file.None? {
      return Exchange(Err(NoFileMessage, None), None);
    }
    var upload := req.file.value;
    if upload.filename == "" {
      return Exchange(Err(NoFileSelectedMessage, None), None);
    }
    var args := CallArgs(upload, req, normalise);
    var result := transcribe(args);
    if result.segments.None? {
      return Exchange(Err(NoSpeechMessage, None), Some(args));
    }
    var segs := result.segments.value;
    var response;
    match ParseFormat(req.responseFormat.GetOr(DefaultResponseFormat)) {
      case Some(Json) =>
        response := Ok(TextObject(PlainText(segs)), ApplicationJson);
      case Some(Text) =>
        response := Ok(RawText(PlainText(segs)), TextHtml);
      case Some(Srt) =>
        var srt := RenderSrt(segs);
        response := Ok(RawText(srt), TextPlain);
      case Some(VerboseJsonFormat) =>
        response := Ok(VerboseObject(VerboseJson(segs, args.temperature, args.language, result.duration)), ApplicationJson);
      case Some(Vtt) =>
        var vtt := RenderVtt(segs);
        response := Ok(RawText(vtt), TextVtt);
      case None =>
        response := Err(InvalidFormatMessage, None);
    }
    HandleAfterTranscription(req, normalise, transcribe);
    return Exchange(response, Some(args));
  }

  // ---------------------------------------------------------------------
  // The order of the checks
  // ---------------------------------------------------------------------

  /** An unknown model is reported first, whatever else the request holds, and nothing is transcribed. */
  lemma UnknownModelWins(req: Request, normalise: seq<bv8> -> seq<bv8>, transcribe: TranscribeArgs -> Transcription)
    requires ModelName(req) !in ModelsList
    ensures Handle(req, normalise, transcribe) == Exchange(Err(UnknownModelMessage, Some(ModelsList)), None)
  {
  }

  /** With a known model, a missing file part is reported next, and nothing is transcribed. */
  lemma MissingFileSecond(req: Request, normalise: seq<bv8> -> seq<bv8>, transcribe: TranscribeArgs -> Transcription)
    requires ModelName(req) in ModelsList && req.file.None?
    ensures Handle(req, normalise, transcribe) == Exchange(Err(NoFileMessage, None), None)
  {
  }

  /** With a known model and a file part, an empty file name is reported next, and nothing is transcribed. */
  lemma EmptyFilenameThird(req: Request, normalise: seq<bv8> -> seq<bv8>, transcribe: TranscribeArgs -> Transcription)
    requires ModelName(req) in ModelsList && req.file.Some? && req.file.value.filename == ""
    ensures Handle(req, normalise, transcribe) == Exchange(Err(NoFileSelectedMessage, None), None)
  {
  }

  /** After the checks pass, no segment list means "No speech detected", whatever the format. */
  lemma NoSpeechBeforeFormat(req: Request, normalise: seq<bv8> -> seq<bv8>, transcribe: TranscribeArgs -> Transcription)
    requires AcceptedUpload(req)
    requires transcribe(CallArgs(req.file.value, req, normalise)).segments.None?
    ensures Handle(req, normalise, transcribe) == Exchange(Err(NoSpeechMessage, None), Some(CallArgs(req.file.value, req, normalise)))
  {
  }

  /** An unrecognised format is reported only after a transcription that returned segments. */
  lemma InvalidFormatLast(req: Request, normalise: seq<bv8> -> seq<bv8>, transcribe: TranscribeArgs -> Transcription)
    requires ParseFormat(req.responseFormat.GetOr(DefaultResponseFormat)).None?
    ensures Handle(req, normalise, transcribe).response == Err(InvalidFormatMessage, None)
        <==> AcceptedUpload(req) && transcribe(CallArgs(req.file.value, req, normalise)).segments.Some?
  {
  }

  /** The handler's answer depends on the capability only through the one call it makes. */
  lemma HandleUsesOneCall(req: Request, normalise: seq<bv8> -> seq<bv8>, t1: TranscribeArgs -> Transcription, t2: TranscribeArgs -> Transcription)
    requires AcceptedUpload(req) ==> t1(CallArgs(req.file.value, req, normalise)) == t2(CallArgs(req.file.value, req, normalise))
    ensures Handle(req, normalise, t1) == Handle(req, normalise, t2)
  {
  }

  // ---------------------------------------------------------------------
  // The success paths
  // ---------------------------------------------------------------------

  /** The segments of a successful transcription of an accepted upload. */
  function ResultSegments(req: Request, normalise: seq<bv8> -> seq<bv8>, transcribe: TranscribeArgs -> Transcription): seq<Segment>
    requires AcceptedUpload(req) && transcribe(CallArgs(req.file.value, req, normalise)).segments.Some?
  {
    transcribe(CallArgs(req.file.value, req, normalise)).segments.value
  }

  /** Once the format name selects a format, the answer is that format's rendering of the segments. */
  lemma HandleRendersFormat(req: Request, normalise: seq<bv8> -> seq<bv8>, transcribe: TranscribeArgs -> Transcription, format: ResponseFormat)
    requires AcceptedUpload(req) && transcribe(CallArgs(req.file.value, req, normalise)).segments.Some?
    requires ParseFormat(req.responseFormat.GetOr(DefaultResponseFormat)) == Some(format)
    ensures var result := transcribe(CallArgs(req.file.value, req, normalise));
            Handle(req, normalise, transcribe).response == RenderAs(format, ResultSegments(req, normalise, transcribe), CallArgs(req.file.value, req, normalise), result.duration)
  {
    HandleAfterTranscription(req, normalise, transcribe);
  }

  /** With no format named, or `json`, the body is `{"text": ...}` with the stripped segment texts joined by spaces. */
  lemma JsonBody(req: Request, normalise: seq<bv8> -> seq<bv8>, transcribe: TranscribeArgs -> Transcription)
    requires AcceptedUpload(req) && transcribe(CallArgs(req.file.value, req, normalise)).segments.Some?
    requires req.responseFormat.None? || req.responseFormat == Some("json")
    ensures Handle(req, normalise, transcribe).response == Ok(TextObject(PlainText(ResultSegments(req, normalise, transcribe))), ApplicationJson)
  {
    ParseFormatName(Json);
    HandleRendersFormat(req, normalise, transcribe, Json);
  }

  /** `text` sends the same joined text as a bare string, with the framework's default content type. */
  lemma TextBody(req: Request, normalise: seq<bv8> -> seq<bv8>, transcribe: TranscribeArgs -> Transcription)
    requires AcceptedUpload(req) && transcribe(CallArgs(req.file.value, req, normalise)).segments.Some?
    requires req.responseFormat == Some("text")
    ensures Handle(req, normalise, transcribe).response == Ok(RawText(PlainText(ResultSegments(req, normalise, transcribe))), TextHtml)
  {
    ParseFormatName(Text);
    HandleRendersFormat(req, normalise, transcribe, Text);
  }

  /** `srt` sends the numbered cues as `text/plain`. */
  lemma SrtBody(req: Request, normalise: seq<bv8> -> seq<bv8>, transcribe: TranscribeArgs -> Transcription)
    requires AcceptedUpload(req) && transcribe(CallArgs(req.file.value, req, normalise)).segments.Some?
    requires req.responseFormat == Some("srt")
    ensures Handle(req, normalise, transcribe).response == Ok(RawText(SrtDocument(ResultSegments(req, normalise, transcribe))), TextPlain)
  {
    ParseFormatName(Srt);
    HandleRendersFormat(req, normalise, transcribe, Srt);
  }

  /** `vtt` sends the header and the cues as `text/vtt`. */
  lemma VttBody(req: Request, normalise: seq<bv8> -> seq<bv8>, transcribe: TranscribeArgs -> Transcription)
    requires AcceptedUpload(req) && transcribe(CallArgs(req.file.value, req, normalise)).segments.Some?
    requires req.responseFormat == Some("vtt")
    ensures Handle(req, normalise, transcribe).response == Ok(RawText(VttDocument(ResultSegments(req, normalise, transcribe))), TextVtt)
  {
    ParseFormatName(Vtt);
    HandleRendersFormat(req, normalise, transcribe, Vtt);
  }

  /**
   * `verbose_json` echoes the requested temperature (0.0 by default) into
   * every entry and the requested language ("auto" by default) at the top.
   */
  lemma VerboseEchoesRequest(req: Request, normalise: seq<bv8> -> seq<bv8>, transcribe: TranscribeArgs -> Transcription)
    requires AcceptedUpload(req)
    requires transcribe(CallArgs(req.file.value, req, normalise)).segments.Some?
    requires req.responseFormat == Some("verbose_json")
    ensures var r := Handle(req, normalise, transcribe).response;
            && r.Ok? && r.body.VerboseObject?
            && r.body.transcript.language == req.language.GetOr("auto")
            && |r.body.transcript.segments| == |transcribe(CallArgs(req.file.value, req, normalise)).segments.value|
            && forall i :: 0 <= i < |r.body.transcript.segments| ==>
                 r.body.transcript.segments[i].temperature == req.temperature.GetOr(Zero)
  {
  }

  /** An empty (not absent) segment list with the default format gives `{"text": ""}` with status 200. */
  lemma EmptyTranscriptJson(req: Request, normalise: seq<bv8> -> seq<bv8>, transcribe: TranscribeArgs -> Transcription)
    requires AcceptedUpload(req) && req.responseFormat.None?
    requires transcribe(CallArgs(req.file.value, req, normalise)).segments == Some([])
    ensures Handle(req, normalise, transcribe).response == Ok(TextObject(""), ApplicationJson)
    ensures Status(Handle(req, normalise, transcribe).response) == 200
  {
    JsonBody(req, normalise, transcribe);
    assert ResultSegments(req, normalise, transcribe) == [];
    PlainTextAppend([], Segment(0, 0, "", [], Zero, Zero, Zero));
  }
}
