/**
 * The decision logic of the POST /summarize endpoint: choose the PDF reader
 * or UTF-8 decoding by the filename, summarise the text, wrap the summary
 * as {"summary": s}, and map every exception to an HTTP error. The web
 * framework, the upload stream and pypdf are not modelled; an upload is its
 * filename and the two readings of its bytes.
 */
module App {
  import opened PyStr
  import opened Errors
  import opened Utils
  import opened SummarizeDocument

  /** An uploaded file: its filename, which the client may omit, and its bytes. */
  datatype UploadFile = UploadFile(filename: Option<string>, contents: Contents)

  const UnsupportedFormatMessage := "Unsupported file format. Please upload a PDF or text file."
  const MissingFilenameMessage := "Uploaded file must have a filename."
  const UnexpectedErrorPrefix := "An unexpected error occurred: "

  /** extract_text_from_pdf: the pages' text joined with nothing between;
      whatever pypdf raises propagates as it is. */
  function ExtractTextFromPdf(pdf: PdfParse): Outcome<string> {
    match pdf
    case Parsed(pages) => Ok(PageText(pages))
    case Unparsable(cls, reason) => Err(Library(cls, reason))
  }

  /** The name ends in ".pdf" in any mix of cases, spelled out character by character. */
  predicate HasPdfSuffix(name: string) {
    var n := |name|;
    n >= 4 && name[n - 4] == '.' && name[n - 3] in "pP" && name[n - 2] in "dD" && name[n - 1] in "fF"
  }

  /** extract_text_from_file: the PDF branch for a name ending in ".pdf",
      whatever its case; UTF-8 decoding for every other name. */
  function ExtractTextFromFile(contents: Contents, filename: string): Outcome<string> {
    if filename != "" && EndsWith(Lower(filename), ".pdf") then
      ExtractTextFromPdf(contents.asPdf)
    else
      match contents.asUtf8
      case Decoded(text) => Ok(text)
      case Undecodable(_) => Err(HttpErr(400, UnsupportedFormatMessage))
  }

  /** The test `filename and filename.lower().endswith(".pdf")` is exactly a
      case-insensitive ".pdf" suffix. */
  lemma PdfTestIsCaseInsensitiveSuffix(filename: string)
    ensures (filename != "" && EndsWith(Lower(filename), ".pdf")) <==> HasPdfSuffix(filename)
  {
    var n := |filename|;
    if n >= 4 {
      var tail := Lower(filename)[n - 4..];
      assert tail == [LowerChar(filename[n - 4]), LowerChar(filename[n - 3]),
                      LowerChar(filename[n - 2]), LowerChar(filename[n - 1])];
    }
  }

  /**
   * The dispatch: a name with a ".pdf" suffix takes the PDF branch whatever
   * the bytes decode to; every other name, whatever its extension, is
   * decoded, and a decoding failure is an HTTPException 400.
   */
  lemma ExtractTextFromFileDispatch(contents: Contents, filename: string)
    ensures var r := ExtractTextFromFile(contents, filename);
      (HasPdfSuffix(filename) ==> r == ExtractTextFromPdf(contents.asPdf))
      && (!HasPdfSuffix(filename) ==>
            (r.Ok? <==> contents.asUtf8.Decoded?)
            && (r.Ok? ==> r.value == contents.asUtf8.text)
            && (r.Err? ==> r.error == HttpErr(400, UnsupportedFormatMessage)))
  {
    PdfTestIsCaseInsensitiveSuffix(filename);
  }

  /**
   * generate_summary: {"summary": s} for the summary s that summarize_text
   * returns, and summarize_text's exception otherwise. Its two guards never
   * fire: summarize_text returns no empty summary and raises no ValueError.
   */
  function GenerateSummary(text: string, apiKey: Option<string>, call: ModelCall): (r: Outcome<map<string, string>>)
    ensures var s := SummarizeText(text, apiKey, call);
      (r.Ok? <==> s.Ok?)
      && (r.Ok? ==> r.value == map["summary" := s.value] && s.value != "")
      && (r.Err? ==> r.error == s.error)
  {
    match SummarizeText(text, apiKey, call)
    case Ok(summary) =>
      if summary == "" then Err(HttpErr(500, "Failed to generate summary"))
      else Ok(map["summary" := summary])
    case Err(e) =>
      if IsValueError(e) then Err(HttpErr(500, Str(e))) else Err(e)
  }

  /** The body of summarize's try. */
  function SummarizeBody(file: UploadFile, apiKey: Option<string>, call: ModelCall): Outcome<map<string, string>> {
    if file.filename.None? then
      Err(HttpErr(400, MissingFilenameMessage))
    else
      var text :- ExtractTextFromFile(file.contents, file.filename.value);
      GenerateSummary(text, apiKey, call)
  }

  /** summarize's except clauses as written: a DocumentError keeps its status
      code and message; anything else, an HTTPException included, is a 500. */
  function ToHttpError(o: Outcome<map<string, string>>): Outcome<map<string, string>> {
    match o
    case Ok(_) => o
    case Err(e) =>
      if IsDocumentError(e) then Err(HttpErr(e.doc.StatusCode(), Str(e)))
      else Err(HttpErr(500, UnexpectedErrorPrefix + Str(e)))
  }

  /**
   * The summarize endpoint: every failure leaves as an HTTPException, and a
   * success is exactly the model's non-empty summary under "summary".
   */
  function Summarize(file: UploadFile, apiKey: Option<string>, call: ModelCall): (r: Outcome<map<string, string>>)
    ensures r.Err? ==> r.error.HttpErr?
    ensures r.Ok? <==>
      (file.filename.Some? && ExtractTextFromFile(file.contents, file.filename.value).Ok?
       && SummarizeText(ExtractTextFromFile(file.contents, file.filename.value).value, apiKey, call).Ok?)
    ensures r.Ok? ==> ModelSucceeds(call) && r.value == map["summary" := call.invoke.value.value]
  {
    ToHttpError(SummarizeBody(file, apiKey, call))
  }

  /**
   * A DocumentError from extraction or summarisation reaches the client
   * with its own status code and its message as the detail.
   */
  lemma DocumentErrorsKeepStatus(file: UploadFile, apiKey: Option<string>, call: ModelCall)
    requires SummarizeBody(file, apiKey, call).Err? && IsDocumentError(SummarizeBody(file, apiKey, call).error)
    ensures var d := SummarizeBody(file, apiKey, call).error.doc;
      Summarize(file, apiKey, call) == Err(HttpErr(d.StatusCode(), d.message))
  {
  }

  /** An upload whose text is empty or whitespace is refused with 400 "Empty
      text cannot be summarized". */
  lemma BlankUploadIs400(file: UploadFile, apiKey: Option<string>, call: ModelCall)
    requires file.filename.Some? && !HasPdfSuffix(file.filename.value)
    requires file.contents.asUtf8.Decoded? && IsBlank(file.contents.asUtf8.text)
    ensures Summarize(file, apiKey, call) == Err(HttpErr(400, EmptyTextMessage))
  {
    ExtractTextFromFileDispatch(file.contents, file.filename.value);
  }

  lemma FourHundredPrints()
    ensures IntToString(400) == "400"
  {
    assert NatToString(4) == "4";
    assert NatToString(40) == "40";
  }

  /**
   * The 400 raised for a missing filename is an HTTPException, not a
   * DocumentError: the generic handler catches it and the client sees 500.
   */
  lemma MissingFilenameBecomes500(file: UploadFile, apiKey: Option<string>, call: ModelCall)
    requires file.filename.None?
    ensures Summarize(file, apiKey, call) == Err(HttpErr(500, UnexpectedErrorPrefix + "400: " + MissingFilenameMessage))
  {
    FourHundredPrints();
  }

  /** The same holds for the 400 raised when a non-PDF upload is not UTF-8. */
  lemma UndecodableUploadBecomes500(file: UploadFile, apiKey: Option<string>, call: ModelCall)
    requires file.filename.Some? && !HasPdfSuffix(file.filename.value) && file.contents.asUtf8.Undecodable?
    ensures Summarize(file, apiKey, call) == Err(HttpErr(500, UnexpectedErrorPrefix + "400: " + UnsupportedFormatMessage))
  {
    ExtractTextFromFileDispatch(file.contents, file.filename.value);
    FourHundredPrints();
  }

  /** A PDF that pypdf rejects reaches the client as a 500 carrying pypdf's text. */
  lemma UnparsablePdfIs500(file: UploadFile, apiKey: Option<string>, call: ModelCall)
    requires file.filename.Some? && HasPdfSuffix(file.filename.value) && file.contents.asPdf.Unparsable?
    ensures Summarize(file, apiKey, call) == Err(HttpErr(500, UnexpectedErrorPrefix + file.contents.asPdf.reason))
  {
    ExtractTextFromFileDispatch(file.contents, file.filename.value);
  }

  /** summarize's except clauses with an HTTPException passing unchanged, as
      the code that raises the 400s intends. */
  function ToHttpErrorCorrected(o: Outcome<map<string, string>>): Outcome<map<string, string>> {
    match o
    case Ok(_) => o
    case Err(e) =>
      if e.HttpErr? then o
      else if IsDocumentError(e) then Err(HttpErr(e.doc.StatusCode(), Str(e)))
      else Err(HttpErr(500, UnexpectedErrorPrefix + Str(e)))
  }

  /**
   * The endpoint with that correction: a missing filename and an
   * undecodable upload are answered with 400, and every other request is
   * answered as before.
   */
  function SummarizeCorrected(file: UploadFile, apiKey: Option<string>, call: ModelCall): (r: Outcome<map<string, string>>)
    ensures file.filename.None? ==> r == Err(HttpErr(400, MissingFilenameMessage))
    ensures file.filename.Some? && !HasPdfSuffix(file.filename.value) && file.contents.asUtf8.Undecodable? ==>
      r == Err(HttpErr(400, UnsupportedFormatMessage))
    ensures !(SummarizeBody(file, apiKey, call).Err? && SummarizeBody(file, apiKey, call).error.HttpErr?) ==>
      r == Summarize(file, apiKey, call)
  {
    ExtractTextFromFileDispatch(file.contents, if file.filename.Some? then file.filename.value else "");
    ToHttpErrorCorrected(SummarizeBody(file, apiKey, call))
  }
}
