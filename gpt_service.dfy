/**
 * The two-stage enrichment service (voice-memo-app/Services/GPTService.swift):
 * the transcription request with its extension check and multipart body,
 * the analysis request, the mapping of responses to results or errors, and
 * `processAudioNote`, which runs the analysis only on a transcript.
 * The network exchange and the JSON decoders are parameters.
 */
module GPTService {
  import opened Wrappers
  import opened ByteData
  import opened Multipart
  import opened NoteModel

  /** `GPTError`, plus the errors that the calls inside the service throw through it. */
  datatype ServiceError =
    | InvalidResponse             // GPTError.invalidResponse
    | ApiError(message: string)   // GPTError.apiError(message:)
    | DecodingFailed              // JSONDecoder failed on the chat-completion envelope
    | ReadFailed                  // Data(contentsOf:) could not read the recording
    | NetworkFailed               // URLSession could not complete the request

  datatype Result<T> = Ok(value: T) | Err(error: ServiceError)

  /** What `URLSession.shared.data(for:)` gave back. */
  datatype Exchange =
    | TransportError
    | NonHttp(body: Bytes)
    | Http(statusCode: int, body: Bytes)

  /** `TextAnalysis`. */
  datatype Analysis = Analysis(summary: string, category: string)

  /** The triple `processAudioNote` returns. */
  datatype Enrichment = Enrichment(transcription: string, summary: string, category: string)

  /** The JSON decoders, as functions that may fail. */
  datatype Decoders = Decoders(
    errorMessage: Bytes -> Option<string>,         // GPTErrorResponse, giving error.message
    choiceContents: Bytes -> Option<seq<string>>,  // GPTResponse, giving each choice's message.content
    analysis: Bytes -> Option<Analysis>)           // TextAnalysis

  const UnknownError := "Unknown error"
  const UnsupportedFormat := "Unsupported audio format"

  // ---------------------------------------------------------------------
  // Status handling shared by both requests

  /**
   * A transport failure propagates; a response that is not HTTP is an
   * invalid response; a status other than 200 is an API error carrying the
   * decoded `error.message`, or "Unknown error" when the envelope does not
   * decode; a 200 yields the body.
   */
  function CheckedBody(ex: Exchange, decoders: Decoders): (r: Result<Bytes>)
    ensures r.Ok? <==> ex.Http? && ex.statusCode == 200
    ensures r.Ok? ==> r.value == ex.body
    ensures ex.TransportError? ==> r == Err(NetworkFailed)
    ensures ex.NonHttp? ==> r == Err(InvalidResponse)
    ensures ex.Http? && ex.statusCode != 200 && decoders.errorMessage(ex.body).Some? ==>
              r == Err(ApiError(decoders.errorMessage(ex.body).value))
    ensures ex.Http? && ex.statusCode != 200 && decoders.errorMessage(ex.body).None? ==>
              r == Err(ApiError(UnknownError))
  {
    match ex
    case TransportError => Err(NetworkFailed)
    case NonHttp(_) => Err(InvalidResponse)
    case Http(status, body) =>
      if status != 200 then Err(ApiError(decoders.errorMessage(body).GetOr(UnknownError)))
      else Ok(body)
  }

  // ---------------------------------------------------------------------
  // The extension check

  /** ASCII case folding; other characters are kept. */
  function LowerChar(c: char): char {
    if 'A' <= c <= 'Z' then (c as int + 32) as char else c
  }

  function Lowercased(s: string): (r: string)
    ensures |r| == |s| && forall i :: 0 <= i < |s| ==> r[i] == LowerChar(s[i])
  {
    seq(|s|, i requires 0 <= i < |s| => LowerChar(s[i]))
  }

  /** The number of trailing characters that are neither '.' nor '/'. */
  function TailLength(path: string): (k: nat)
    ensures k <= |path|
    ensures forall i :: |path| - k <= i < |path| ==> path[i] != '.' && path[i] != '/'
    ensures k < |path| ==> path[|path| - k - 1] == '.' || path[|path| - k - 1] == '/'
  {
    if path == [] || path[|path| - 1] == '.' || path[|path| - 1] == '/' then 0
    else 1 + TailLength(path[..|path| - 1])
  }

  /**
   * `pathExtension`: the text after the last '.' of the last path
   * component, or "" when that component has no dot after its first character.
   */
  function PathExtension(path: string): (ext: string)
    ensures '.' !in ext && '/' !in ext
    ensures ext != [] ==> |ext| < |path| && path[|path| - |ext| - 1] == '.' && path[|path| - |ext|..] == ext
  {
    var k := TailLength(path);
    var dot := |path| - k - 1;
    if 1 <= dot && path[dot] == '.' && path[dot - 1] != '/' then path[dot + 1..] else []
  }

  /** `url.pathExtension.lowercased() == "m4a"`: the extension is m4a in any letter case. */
  function IsSupportedAudio(url: URL): (ok: bool)
    ensures ok <==> var ext := PathExtension(url.path);
                    |ext| == 3 && (ext[0] == 'm' || ext[0] == 'M') && ext[1] == '4' && (ext[2] == 'a' || ext[2] == 'A')
  {
    SupportedExtensions(PathExtension(url.path));
    Lowercased(PathExtension(url.path)) == "m4a"
  }

  /** The check accepts exactly the extensions spelled m4a in any letter case. */
  lemma SupportedExtensions(ext: string)
    ensures Lowercased(ext) == "m4a" <==>
            |ext| == 3 && (ext[0] == 'm' || ext[0] == 'M') && ext[1] == '4' && (ext[2] == 'a' || ext[2] == 'A')
  {
    if Lowercased(ext) == "m4a" {
      assert LowerChar(ext[0]) == 'm' && LowerChar(ext[1]) == '4' && LowerChar(ext[2]) == 'a';
    }
  }

  lemma {:induction false} TailOfExtension(prefix: string, ext: string)
    requires '.' !in ext && '/' !in ext
    ensures TailLength(prefix + "." + ext) == |ext|
    decreases |ext|
  {
    var path := prefix + "." + ext;
    if ext != [] {
      var shorter := ext[..|ext| - 1];
      assert path[..|path| - 1] == prefix + "." + shorter;
      TailOfExtension(prefix, shorter);
    }
  }

  /** A path `<prefix>.<ext>` whose prefix does not end a component has extension `ext`. */
  lemma ExtensionOfNamedFile(prefix: string, ext: string)
    requires prefix != [] && prefix[|prefix| - 1] != '/'
    requires '.' !in ext && '/' !in ext
    ensures PathExtension(prefix + "." + ext) == ext
  {
    var path := prefix + "." + ext;
    TailOfExtension(prefix, ext);
    assert path[|prefix|] == '.' && path[|prefix| - 1] == prefix[|prefix| - 1];
    assert path[|prefix| + 1..] == ext;
  }

  /** A recording file, named `<stem>.m4a` in some directory, passes the check. */
  lemma RecordingsAreSupported(directory: string, stem: string)
    requires stem != [] && '/' !in stem
    ensures IsSupportedAudio(FileURLWithPath(directory + "/" + stem + ".m4a"))
  {
    var prefix := directory + "/" + stem;
    assert prefix[|prefix| - 1] == stem[|stem| - 1];
    DotM4A(prefix);
    ExtensionOfNamedFile(prefix, "m4a");
    LowercasedM4A();
  }

  lemma DotM4A(prefix: string)
    ensures prefix + ".m4a" == prefix + "." + "m4a"
  {
    assert ".m4a" == "." + "m4a";
  }

  lemma LowercasedM4A()
    ensures Lowercased("m4a") == "m4a"
  {
  }

  // ---------------------------------------------------------------------
  // Stage 1: transcription

  /** The transcript is the 200 response's body read as UTF-8; a body that is not UTF-8 is an invalid response. */
  function TranscriptionOutcome(ex: Exchange, decoders: Decoders): (r: Result<string>)
    ensures r.Ok? <==> ex.Http? && ex.statusCode == 200 && Utf8Decode(ex.body).Some?
    ensures r.Ok? ==> Utf8Encode(r.value) == ex.body
    ensures ex.Http? && ex.statusCode == 200 && Utf8Decode(ex.body).None? ==> r == Err(InvalidResponse)
    ensures !(ex.Http? && ex.statusCode == 200) ==> r == Err(CheckedBody(ex, decoders).error)
  {
    match CheckedBody(ex, decoders)
    case Err(e) => Err(e)
    case Ok(body) =>
      match Utf8Decode(body)
      case Some(text) => DecodeThenEncode(body); Ok(text)
      case None => Err(InvalidResponse)
  }

  /**
   * `transcribeAudio`: an unsupported extension is rejected before the file
   * is read or any request is made; an unreadable file propagates; otherwise
   * the form-data body is built, sent once, and the response mapped.
   * `sent` is the request body that went out, if any.
   */
  method TranscribeAudio(url: URL, readFile: URL -> Option<Bytes>, boundary: string,
                         send: Bytes -> Exchange, decoders: Decoders)
    returns (r: Result<string>, sent: Option<Bytes>)
    ensures !IsSupportedAudio(url) ==> r == Err(ApiError(UnsupportedFormat)) && sent == None
    ensures IsSupportedAudio(url) && readFile(url).None? ==> r == Err(ReadFailed) && sent == None
    ensures IsSupportedAudio(url) && readFile(url).Some? ==>
              sent == Some(FormData(boundary, TranscriptionParts(readFile(url).value)))
              && r == TranscriptionOutcome(send(sent.value), decoders)
  {
    if !IsSupportedAudio(url) {
      return Err(ApiError(UnsupportedFormat)), None;
    }
    var audio := readFile(url);
    if audio.None? {
      return Err(ReadFailed), None;
    }
    var body := BuildTranscriptionBody(boundary, audio.value);
    sent := Some(body);
    r := TranscriptionOutcome(send(body), decoders);
  }

  // ---------------------------------------------------------------------
  // Stage 2: analysis

  /**
   * The analysis is the first choice's message content decoded as
   * `{summary, category}`. An envelope that does not decode propagates the
   * decoder's error; no choices, or content that is not such an object, is
   * an invalid response.
   */
  function AnalysisOutcome(ex: Exchange, decoders: Decoders): (r: Result<Analysis>)
    ensures r.Ok? <==> ex.Http? && ex.statusCode == 200
                       && decoders.choiceContents(ex.body).Some?
                       && |decoders.choiceContents(ex.body).value| > 0
                       && decoders.analysis(Utf8Encode(decoders.choiceContents(ex.body).value[0])).Some?
    ensures r.Ok? ==> r.value == decoders.analysis(Utf8Encode(decoders.choiceContents(ex.body).value[0])).value
    ensures !(ex.Http? && ex.statusCode == 200) ==> r == Err(CheckedBody(ex, decoders).error)
    ensures ex.Http? && ex.statusCode == 200 && decoders.choiceContents(ex.body).None? ==> r == Err(DecodingFailed)
    ensures ex.Http? && ex.statusCode == 200 && decoders.choiceContents(ex.body) == Some([]) ==> r == Err(InvalidResponse)
    ensures r.Err? && ex.Http? && ex.statusCode == 200 && decoders.choiceContents(ex.body).Some? ==> r == Err(InvalidResponse)
  {
    match CheckedBody(ex, decoders)
    case Err(e) => Err(e)
    case Ok(body) =>
      match decoders.choiceContents(body)
      case None => Err(DecodingFailed)
      case Some(contents) =>
        if contents == [] then Err(InvalidResponse)
        else
          match decoders.analysis(Utf8Encode(contents[0]))
          case None => Err(InvalidResponse)
          case Some(a) => Ok(a)
  }

  // ---------------------------------------------------------------------
  // processAudioNote

  /** The stages a run invoked, in order. */
  datatype Stage = Transcribe | Analyze

  datatype Run = Run(outcome: Result<Enrichment>, stages: seq<Stage>)

  /**
   * `processAudioNote` over the outcome of the transcription stage and the
   * analysis stage as a function of the transcript: analysis runs only on a
   * transcript, and its result is joined with that transcript.
   */
  function ProcessAudioNote(transcribed: Result<string>, analyze: string -> Result<Analysis>): (run: Run)
    ensures Analyze in run.stages <==> transcribed.Ok?
    ensures |run.stages| > 0 && run.stages[0] == Transcribe
    ensures transcribed.Err? ==> run.outcome == Err(transcribed.error)
    ensures run.outcome.Ok? <==> transcribed.Ok? && analyze(transcribed.value).Ok?
    ensures run.outcome.Ok? ==>
              run.outcome.value.transcription == transcribed.value
              && run.outcome.value.summary == analyze(transcribed.value).value.summary
              && run.outcome.value.category == analyze(transcribed.value).value.category
    ensures transcribed.Ok? && analyze(transcribed.value).Err? ==>
              run.outcome == Err(analyze(transcribed.value).error)
  {
    match transcribed
    case Err(e) => Run(Err(e), [Transcribe])
    case Ok(text) =>
      match analyze(text)
      case Err(e) => Run(Err(e), [Transcribe, Analyze])
      case Ok(a) => Run(Ok(Enrichment(text, a.summary, a.category)), [Transcribe, Analyze])
  }

  /** After a failed transcription the analysis stage is not consulted: any two analyses give the same run. */
  lemma AnalysisIrrelevantAfterFailure(transcribed: Result<string>, a1: string -> Result<Analysis>,
                                       a2: string -> Result<Analysis>)
    requires transcribed.Err?
    ensures ProcessAudioNote(transcribed, a1) == ProcessAudioNote(transcribed, a2)
  {
  }

  /**
   * `processAudioNote` from the transcription exchange on: the
   * extension check, the file read and the request body come before it
   * (`TranscribeAudio`). A transcript it returns is the text of the
   * transcription response.
   */
  function EnrichmentOutcome(transcription: Exchange, analysis: string -> Exchange, decoders: Decoders): (r: Result<Enrichment>)
    ensures r.Ok? ==> transcription.Http? && Utf8Encode(r.value.transcription) == transcription.body
  {
    var transcribed := TranscriptionOutcome(transcription, decoders);
    ProcessAudioNote(transcribed, t => AnalysisOutcome(analysis(t), decoders)).outcome
  }
}
