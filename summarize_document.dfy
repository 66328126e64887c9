/**
 * The summarisation guard and the command-line flow. summarize_text refuses
 * blank text, asks the language model for a summary, and turns whatever
 * goes wrong into a DocumentError; main checks its arguments, validates the
 * document, reads it as PDF or UTF-8 text by its extension and summarises
 * it. The language model itself is not modelled: ModelCall says what it
 * does on the one call.
 */
module SummarizeDocument {
  import opened PyStr
  import opened Errors
  import opened Utils

  /**
   * What the model side does on one call: the exception raised while the
   * chat client or the summarize chain is built, if any, and what
   * chain.invoke gives, namely the "output_text" entry of its result (None
   * when absent), or the exception it raises.
   */
  datatype ModelCall = ModelCall(setupError: Option<Raised>, invoke: Outcome<Option<string>>)

  const EmptyTextMessage := "Empty text cannot be summarized"
  const UsageMessage := "Usage: python summarize_document.py <document_path>"

  /** The call reaches the model and the model returns a non-empty summary. */
  predicate ModelSucceeds(call: ModelCall) {
    call.setupError.None? && call.invoke.Ok? && call.invoke.value.Some? && call.invoke.value.value != ""
  }

  /**
   * summarize_text: blank text is refused before the key or the model is
   * touched; otherwise the model's output_text is returned unchanged when
   * there is one, and every failure is reported as a DocumentError.
   */
  function SummarizeText(text: string, apiKey: Option<string>, call: ModelCall): (r: Outcome<string>)
    ensures IsBlank(text) ==> r == Err(InvalidDocumentError(EmptyTextMessage))
    ensures r.Ok? <==> !IsBlank(text) && GetOpenAIKey(apiKey).Ok? && ModelSucceeds(call)
    ensures r.Ok? ==> r.value == call.invoke.value.value && r.value != ""
    ensures r.Err? ==> IsDocumentError(r.error)
  {
    StripEmptyIffBlank(text);
    AskModelOutcome(apiKey, call);
    if Strip(text) == "" then
      Err(InvalidDocumentError(EmptyTextMessage))
    else
      ReraiseAsSummarizationError(AskModel(apiKey, call))
  }

  /** The model side of summarize_text: success exactly when the key is set
      and the model answers, and only DocumentErrors leave the handlers. */
  lemma AskModelOutcome(apiKey: Option<string>, call: ModelCall)
    ensures var r := ReraiseAsSummarizationError(AskModel(apiKey, call));
      (r.Ok? <==> GetOpenAIKey(apiKey).Ok? && ModelSucceeds(call))
      && (r.Ok? ==> r.value == call.invoke.value.value && r.value != "")
      && (r.Err? ==> IsDocumentError(r.error))
  {
    var a := AskModel(apiKey, call);
    if GetOpenAIKey(apiKey).Ok? && call.setupError.None? && call.invoke.Ok? {
      var output := call.invoke.value;
      assert a == if output.None? || output.value == "" then Err(SummarizationError("No summary returned from model"))
                  else Ok(output.value);
    } else {
      assert a.Err?;
    }
  }

  /** The body of summarize_text's outer try: fetch the key, build the chain,
      invoke it and check its output. */
  function AskModel(apiKey: Option<string>, call: ModelCall): Outcome<string> {
    var _ :- GetOpenAIKey(apiKey);
    if call.setupError.Some? then
      Err(call.setupError.value)
    else
      match call.invoke
      case Err(e) =>
        if IsValueError(e) || IsAttributeError(e) then
          Err(SummarizationError("Error during text summarization: " + Str(e)))
        else
          Err(e)
      case Ok(output) =>
        if output.None? || output.value == "" then
          Err(SummarizationError("No summary returned from model"))
        else
          Ok(output.value)
  }

  /** The outer except clauses of summarize_text: a DocumentError passes as
      it is, anything else becomes a SummarizationError. */
  function ReraiseAsSummarizationError(o: Outcome<string>): Outcome<string> {
    match o
    case Ok(_) => o
    case Err(e) =>
      if IsDocumentError(e) then o
      else Err(SummarizationError("Unexpected error during summarization: " + Str(e)))
  }

  /**
   * A missing or empty API key raises a ValueError, which is not a
   * DocumentError: it reaches the generic handler and surfaces as a
   * SummarizationError, not as it was raised.
   */
  lemma MissingKeyIsSummarizationError(text: string, apiKey: Option<string>, call: ModelCall)
    requires !IsBlank(text) && (apiKey == None || apiKey == Some(""))
    ensures SummarizeText(text, apiKey, call)
      == Err(SummarizationError("Unexpected error during summarization: " + KeyNotSetMessage))
  {
    StripEmptyIffBlank(text);
  }

  /**
   * How a failing chain.invoke is classified: a ValueError or an
   * AttributeError as "Error during text summarization: ...", a
   * DocumentError unchanged, anything else as "Unexpected error during
   * summarization: ...".
   */
  lemma InvokeFailureClassified(text: string, apiKey: Option<string>, call: ModelCall)
    requires !IsBlank(text) && GetOpenAIKey(apiKey).Ok?
    requires call.setupError.None? && call.invoke.Err?
    ensures var e := call.invoke.error;
      SummarizeText(text, apiKey, call) ==
        if IsValueError(e) || IsAttributeError(e) then
          Err(SummarizationError("Error during text summarization: " + Str(e)))
        else if IsDocumentError(e) then
          Err(e)
        else
          Err(SummarizationError("Unexpected error during summarization: " + Str(e)))
  {
    StripEmptyIffBlank(text);
  }

  /**
   * How a failure while the chat client or the summarize chain is built is
   * classified: a DocumentError unchanged, anything else as "Unexpected
   * error during summarization: ...". chain.invoke is then never reached.
   */
  lemma SetupFailureClassified(text: string, apiKey: Option<string>, call: ModelCall)
    requires !IsBlank(text) && GetOpenAIKey(apiKey).Ok? && call.setupError.Some?
    ensures var e := call.setupError.value;
      SummarizeText(text, apiKey, call) ==
        if IsDocumentError(e) then
          Err(e)
        else
          Err(SummarizationError("Unexpected error during summarization: " + Str(e)))
  {
    StripEmptyIffBlank(text);
  }

  /** A reply without output_text, or with an empty one, is a
      SummarizationError "No summary returned from model". */
  lemma EmptyOutputIsSummarizationError(text: string, apiKey: Option<string>, call: ModelCall)
    requires !IsBlank(text) && GetOpenAIKey(apiKey).Ok?
    requires call.setupError.None? && (call.invoke == Ok(None) || call.invoke == Ok(Some("")))
    ensures SummarizeText(text, apiKey, call) == Err(SummarizationError("No summary returned from model"))
  {
    StripEmptyIffBlank(text);
  }

  /**
   * main: fewer than two arguments is a usage error raised before any file
   * is looked at; the validator's errors propagate unchanged; then the
   * document is read by its extension and summarised, and only
   * DocumentErrors leave.
   */
  function Main(argv: seq<string>, file: FileFacts, allowedTypes: seq<string>, maxSizeBytes: int,
                apiKey: Option<string>, call: ModelCall): (r: Outcome<string>)
    ensures |argv| < 2 ==> r == Err(InvalidDocumentError(UsageMessage))
    ensures |argv| >= 2 && ValidateDocument(argv[1], file, allowedTypes, maxSizeBytes).Err? ==>
      r == ValidateDocument(argv[1], file, allowedTypes, maxSizeBytes)
    ensures r.Err? ==> IsDocumentError(r.error)
    ensures r.Ok? ==>
      |argv| >= 2 && ValidateDocument(argv[1], file, allowedTypes, maxSizeBytes).Ok?
      && ModelSucceeds(call) && r.value == call.invoke.value.value
  {
    if |argv| < 2 then
      Err(InvalidDocumentError(UsageMessage))
    else
      var docPath := argv[1];
      var ext :- ValidateDocument(docPath, file, allowedTypes, maxSizeBytes);
      ReraiseAsDocumentError(ReadAndSummarize(docPath, ext, file, apiKey, call))
  }

  /** Reads the document as PDF when the validated extension is ".pdf", as
      UTF-8 text otherwise. */
  function ReadDocument(docPath: string, ext: string, file: FileFacts): Outcome<string> {
    if ext == ".pdf" then PdfTextResult(docPath, file) else ReadTextFile(docPath, file)
  }

  /** The body of main's try: read, then summarise. */
  function ReadAndSummarize(docPath: string, ext: string, file: FileFacts, apiKey: Option<string>, call: ModelCall)
    : Outcome<string>
  {
    var text :- ReadDocument(docPath, ext, file);
    SummarizeText(text, apiKey, call)
  }

  /** main's except clauses: a DocumentError passes as it is, anything else
      becomes a plain DocumentError. */
  function ReraiseAsDocumentError(o: Outcome<string>): Outcome<string> {
    match o
    case Ok(_) => o
    case Err(e) => if IsDocumentError(e) then o else Err(DocumentError("Unhandled error in main: " + Str(e)))
  }

  /** The inner try of main's text branch: open, decode, refuse blank text. */
  function ReadTextBody(docPath: string, file: FileFacts): Outcome<string> {
    if file.openError.Some? then
      Err(Library(OSError, file.openError.value))
    else
      match file.contents.asUtf8
      case Undecodable(reason) => Err(Library(UnicodeDecodeError, reason))
      case Decoded(text) =>
        if Strip(text) == "" then Err(InvalidDocumentError("File is empty or unreadable: " + docPath))
        else Ok(text)
  }

  /** The text branch of main as written: its second handler catches every
      Exception, the InvalidDocumentError raised for blank text included. */
  function ReadTextFile(docPath: string, file: FileFacts): Outcome<string> {
    match ReadTextBody(docPath, file)
    case Ok(text) => Ok(text)
    case Err(e) =>
      if IsUnicodeDecodeError(e) then Err(InvalidDocumentError("File is not a valid text file: " + Str(e)))
      else Err(DocumentError("Error reading file: " + Str(e)))
  }

  /** The text branch with a DocumentError passing its handlers unchanged,
      as main's own "re-raise document-related errors as is" intends: blank
      text is an InvalidDocumentError (400), and nothing else changes. */
  function ReadTextFileCorrected(docPath: string, file: FileFacts): (r: Outcome<string>)
    ensures file.openError.None? && file.contents.asUtf8.Decoded? && IsBlank(file.contents.asUtf8.text) ==>
      r == Err(InvalidDocumentError("File is empty or unreadable: " + docPath)) && r.error.doc.StatusCode() == 400
    ensures !(file.openError.None? && file.contents.asUtf8.Decoded? && IsBlank(file.contents.asUtf8.text)) ==>
      r == ReadTextFile(docPath, file)
  {
    StripEmptyIffBlank(if file.contents.asUtf8.Decoded? then file.contents.asUtf8.text else "");
    match ReadTextBody(docPath, file)
    case Ok(text) => Ok(text)
    case Err(e) =>
      if IsDocumentError(e) then Err(e)
      else if IsUnicodeDecodeError(e) then Err(InvalidDocumentError("File is not a valid text file: " + Str(e)))
      else Err(DocumentError("Error reading file: " + Str(e)))
  }

  /**
   * How main reads the validated document: a ".pdf" goes to the PDF
   * extractor, whose errors and text pass through unchanged; anything else
   * is read as UTF-8, where a decoding failure is an InvalidDocumentError
   * and an open failure a plain DocumentError.
   */
  lemma MainDispatch(argv: seq<string>, file: FileFacts, allowedTypes: seq<string>, maxSizeBytes: int,
                     apiKey: Option<string>, call: ModelCall)
    requires |argv| >= 2 && ValidateDocument(argv[1], file, allowedTypes, maxSizeBytes).Ok?
    ensures var ext := ValidateDocument(argv[1], file, allowedTypes, maxSizeBytes).value;
      var r := Main(argv, file, allowedTypes, maxSizeBytes, apiKey, call);
      (ext == ".pdf" && PdfTextResult(argv[1], file).Err? ==> r == PdfTextResult(argv[1], file))
      && (ext == ".pdf" && PdfTextResult(argv[1], file).Ok? ==>
            r == SummarizeText(PdfTextResult(argv[1], file).value, apiKey, call))
      && (ext != ".pdf" && file.openError.None? && file.contents.asUtf8.Undecodable? ==>
            r == Err(InvalidDocumentError("File is not a valid text file: " + file.contents.asUtf8.reason)))
      && (ext != ".pdf" && file.openError.Some? ==>
            r == Err(DocumentError("Error reading file: " + file.openError.value)))
      && (ext != ".pdf" && file.openError.None? && file.contents.asUtf8.Decoded?
          && !IsBlank(file.contents.asUtf8.text) ==>
            r == SummarizeText(file.contents.asUtf8.text, apiKey, call))
  {
    PdfTextErrors(argv[1], file);
    StripEmptyIffBlank(if file.contents.asUtf8.Decoded? then file.contents.asUtf8.text else "");
  }

  /**
   * A whitespace-only text file that passes validation raises
   * InvalidDocumentError inside the inner try, but the generic handler
   * re-wraps it: main reports a plain DocumentError with status 500.
   */
  lemma BlankTextFileIsReportedAs500(argv: seq<string>, file: FileFacts, allowedTypes: seq<string>,
                                     maxSizeBytes: int, apiKey: Option<string>, call: ModelCall)
    requires |argv| >= 2 && ValidateDocument(argv[1], file, allowedTypes, maxSizeBytes).Ok?
    requires Extension(argv[1]) != ".pdf" && file.openError.None?
    requires file.contents.asUtf8.Decoded? && IsBlank(file.contents.asUtf8.text)
    ensures var r := Main(argv, file, allowedTypes, maxSizeBytes, apiKey, call);
      r == Err(DocumentError("Error reading file: " + "File is empty or unreadable: " + argv[1]))
      && r.error.doc.StatusCode() == 500
  {
    var docPath := argv[1];
    StripEmptyIffBlank(file.contents.asUtf8.text);
    var blank := InvalidDocumentError("File is empty or unreadable: " + docPath);
    assert ReadTextBody(docPath, file) == Err(blank);
    var wrapped := Err(DocumentError("Error reading file: " + Str(blank)));
    assert ReadDocument(docPath, Extension(docPath), file) == wrapped;
    assert ReadAndSummarize(docPath, Extension(docPath), file, apiKey, call) == wrapped;
  }
}
