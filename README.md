# Document summariser: validation and error classification, in Dafny

This project models the decision logic of a small document-summarising
service. The service takes a PDF or a text file, extracts its text and asks
an OpenAI model, through LangChain, for a summary. It is reached from the
command line (`main`) or through one HTTP endpoint (`POST /summarize`). Once
its outside world is passed in as parameters, what remains is a deterministic
pipeline: validate the document, extract its text, summarise it, and turn
each failure into an error class with an HTTP status code. The outside world
is the filesystem, the `OPENAI_API_KEY` variable, pypdf's reading of the
bytes, UTF-8 decoding, and the model's reply.

Modules, one per source file plus a helper:

- `PyStr` (`pystr.dfy`) holds the Python string and path behaviour the
  pipeline depends on. That is `str.strip()` (through the whitespace test),
  ASCII `str.lower()`, `str.endswith()`, `os.path.splitext()` on POSIX
  paths, and the decimal and list renderings used inside error messages.
- `Errors` (`errors.dfy`), for `src/exceptions.py`, holds the
  `DocumentError` taxonomy. It also holds `Raised` (any exception in
  flight) and `Outcome<T>` (a value, or the exception raised instead).
- `Utils` (`utils.dfy`), for `src/utils.py`, holds `validate_document`,
  `get_openai_key`, and `extract_pdf_text`. The last is a method whose loop
  builds the text page by page. It is proved equal to the specification
  function `PdfTextResult`, which the command-line flow uses.
- `SummarizeDocument` (`summarize_document.dfy`), for
  `src/summarize_document.py`, holds `summarize_text` and `main`.
- `App` (`app.dfy`), for `src/app.py`, holds the endpoint's dispatch,
  summary wrapping and exception-to-status mapping.

Each `try`/`except` is modelled as two functions. One is the body, yielding
an `Outcome`. The other is the handler chain, mapping the exception in
flight by class, in handler order. This makes the consequences of handler
order explicit:

- A whitespace-only `.txt` file in `main` ends as a plain `DocumentError`
  with status 500.
- A missing API key surfaces as a `SummarizationError`.
- The `HTTPException` 400s raised inside the endpoint's `try` reach the
  client as 500.

Three further facts about the code, which the model states:

- PDF pages are joined with nothing between them.
- The endpoint has no extension allow-list: every name without a `.pdf`
  suffix is decoded as UTF-8.
- A malformed PDF uploaded to the endpoint surfaces as pypdf's own
  exception. It is reported as 500 "An unexpected error occurred: …", not
  as one of the extraction error classes of `extract_pdf_text`.

## Model

| member | source | states |
|---|---|---|
| `Errors.DocumentError` | src/exceptions.py:4-10 | keeps the given message and status code, with status 500 when none is given; `str()` of the error is its message |
| `Errors.DocumentNotFoundError` | src/exceptions.py:13-17 | a DocumentError of the not-found class whose status is always 404 and whose `str()` is its message |
| `Errors.InvalidDocumentError` | src/exceptions.py:20-24 | a DocumentError of the invalid-document class whose status is always 400 |
| `Errors.SummarizationError` | src/exceptions.py:27-31 | a DocumentError of the summarisation class whose status is always 500 |
| `Errors.SubclassesAreDocumentErrors` | src/exceptions.py:13-31 | all three subclasses are caught by `except DocumentError`; an HTTPException or a library exception never is |
| `PyStr.StripEmptyIffBlank` | src/summarize_document.py:39 | `not text.strip()` holds exactly when every character of the text is whitespace, the empty text included |
| `PyStr.SplitExtParts` | src/utils.py:116 | splitext's root and extension concatenate back to the path; a non-empty extension is one leading '.' followed by characters that are neither '.' nor '/' |
| `PyStr.SplitExtHasExtension` | src/utils.py:116 | the extension is non-empty exactly when the final path component has a non-dot character followed later by a '.', so ".bashrc" has none |
| `PyStr.NatToStringRoundTrip` | src/utils.py:128-133 | the decimal rendering of a size in the "File too large" message reads back as that size |
| `Utils.ValidateDocument` | src/utils.py:91-135 | success exactly when the file exists, its lower-cased extension is allowed and 0 < size <= limit, returning that extension; otherwise the first failing check in the order existence (404 "File not found"), type ("Unsupported file type"), empty ("File is empty"), size ("File too large") decides the error |
| `Utils.SizeLimitIsInclusive` | src/utils.py:128-133 | a size equal to the limit is accepted and one byte more is refused |
| `Utils.ExtensionIgnoresCase` | src/utils.py:116 | two paths that are equal once lower-cased have the same lower-cased splitext extension |
| `Utils.ValidateIgnoresCase` | src/utils.py:116-120 | two paths that are equal once lower-cased are both accepted or both refused, and when accepted the same extension is returned |
| `Utils.ValidateAcceptsUpperCasePdf` | src/utils.py:116-120 | "…/report.PDF" passes an allow-list holding ".pdf", and ".pdf" is what is returned |
| `Utils.GetOpenAIKey` | src/utils.py:69-88 | returns the variable's value unchanged when it is set and non-empty; otherwise raises a ValueError (not a DocumentError) saying "OPENAI_API_KEY not set" |
| `Utils.PageTextAppend` | src/utils.py:50-52 | the text of two runs of pages is the first run's text followed by the second's |
| `Utils.PageTextInOrder` | src/utils.py:51-52 | each page's text (or "" for a page without text) sits whole between the text of the pages before it and that of the pages after it; `App.ExtractTextFromPdf` joins the same way (src/app.py:15) |
| `Utils.PageTextSkipsEmptyPage` | src/utils.py:52 | a page whose extraction gives None contributes nothing |
| `Utils.PdfTextErrors` | src/utils.py:41-66 | extract_pdf_text raises only DocumentErrors: 404 for a missing file, 500 when the file cannot be opened, 400 for a PdfStreamError and 500 for any other parse failure; it succeeds exactly when the file exists, opens and parses |
| `Utils.ExtractPdfText` | src/utils.py:25-66 | the loop's result equals `PdfTextResult`: on success, the in-order concatenation of the page texts |
| `SummarizeDocument.SummarizeText` | src/summarize_document.py:22-69 | blank text gives InvalidDocumentError "Empty text cannot be summarized", whatever the key or the model does; success exactly when the text is not blank, the key is set, and the model returns a non-empty output_text, which is returned unchanged; every failure is a DocumentError |
| `SummarizeDocument.MissingKeyIsSummarizationError` | src/summarize_document.py:44-69 | the missing-key ValueError is not re-raised as it is: it becomes SummarizationError "Unexpected error during summarization: OPENAI_API_KEY not set in environment" |
| `SummarizeDocument.AskModelOutcome` | src/summarize_document.py:44-69 | the outer try and its handlers succeed exactly when the key is set and the model returns a non-empty output_text, which is returned; every exception leaving them is a DocumentError |
| `SummarizeDocument.SetupFailureClassified` | src/summarize_document.py:44-69 | an exception while the client or the chain is built stops the call before invoke: a DocumentError passes unchanged, anything else becomes SummarizationError "Unexpected error during summarization: …" |
| `SummarizeDocument.InvokeFailureClassified` | src/summarize_document.py:48-69 | a ValueError or AttributeError from chain.invoke becomes "Error during text summarization: …"; a DocumentError passes unchanged; anything else becomes "Unexpected error during summarization: …" |
| `SummarizeDocument.EmptyOutputIsSummarizationError` | src/summarize_document.py:55-59 | an absent or empty output_text gives SummarizationError "No summary returned from model" |
| `SummarizeDocument.Main` | src/summarize_document.py:76-129 | fewer than two arguments gives the usage InvalidDocumentError before any file check; a validation error propagates unchanged; only DocumentErrors leave; success only with a valid document and a successful model call, whose summary is returned |
| `SummarizeDocument.MainDispatch` | src/summarize_document.py:96-125 | a ".pdf" document goes to the PDF extractor, whose errors pass unchanged and whose text is summarised; otherwise a UTF-8 failure gives InvalidDocumentError "File is not a valid text file: …", an open failure gives DocumentError "Error reading file: …", and decoded text that is not blank is summarised, with summarize_text's result or error returned unchanged |
| `SummarizeDocument.BlankTextFileIsReportedAs500` | src/summarize_document.py:102-116 | a whitespace-only text file that passed validation ends as a plain DocumentError "Error reading file: File is empty or unreadable: …" with status 500 |
| `SummarizeDocument.ReadTextFileCorrected` | src/summarize_document.py:102-116 | with DocumentErrors passing the inner handlers, blank text gives InvalidDocumentError (400) and every other case is as written |
| `App.PdfTestIsCaseInsensitiveSuffix` | src/app.py:32 | `filename and filename.lower().endswith(".pdf")` holds exactly when the last four characters are '.', 'p' or 'P', 'd' or 'D', 'f' or 'F' |
| `App.ExtractTextFromFileDispatch` | src/app.py:18-41 | a name with a ".pdf" suffix takes the PDF branch whatever the bytes decode to; any other name is decoded, giving its text, or HTTPException 400 "Unsupported file format…" |
| `App.GenerateSummary` | src/app.py:44-63 | gives `{"summary": s}` exactly when summarize_text returns s, and s is then non-empty; otherwise summarize_text's exception unchanged, so neither the empty-summary 500 nor the ValueError 500 can occur |
| `App.Summarize` | src/app.py:66-97 | every failure leaves as an HTTPException; success exactly when a filename is present, extraction succeeds and summarisation succeeds, and the body is then `{"summary": output_text}` |
| `App.DocumentErrorsKeepStatus` | src/app.py:89-91 | a DocumentError from any step becomes an HTTP error with that error's status code and its message as detail |
| `App.BlankUploadIs400` | src/app.py:80-91 | a non-PDF upload that decodes to empty or whitespace-only text is answered 400 "Empty text cannot be summarized" |
| `App.MissingFilenameBecomes500` | src/app.py:80-97 | the 400 for a missing filename is caught by the generic handler: the client gets 500 "An unexpected error occurred: 400: Uploaded file must have a filename." |
| `App.UndecodableUploadBecomes500` | src/app.py:35-41 | the 400 for a non-UTF-8, non-PDF upload also reaches the client as 500 "An unexpected error occurred: 400: Unsupported file format…" |
| `App.UnparsablePdfIs500` | src/app.py:93-97 | a PDF that pypdf rejects is answered 500 with pypdf's message after "An unexpected error occurred: " |
| `App.SummarizeCorrected` | src/app.py:80-97 | with HTTPExceptions passing the handlers unchanged, a missing filename and an undecodable upload are answered 400, and every other request is answered as before |

## Left out

- The language-model call is not modelled: the chat client, the summarize chain and `chain.invoke`. `ModelCall` gives its outcome as input: a set-up exception, or what `invoke` returned or raised. Only the `output_text` entry of the reply is seen, as an optional string.
- PDF parsing by pypdf is not modelled. `PdfParse` gives the per-page texts or the exception class and text it raises. An exception raised while extracting a later page is given as a failure of the whole parse: the partial text is discarded in that case either way.
- UTF-8 decoding is not modelled. `Decoding` gives the decoded text or the text of the `UnicodeDecodeError`. The one `Decoding` of a `Contents` stands for two different readings: `main` opens the file in text mode, where universal newlines turn "\r\n" into "\n", while the endpoint's `bytes.decode` keeps "\r\n". No proof relates the two readings, so none depends on the difference.
- Filesystem and environment access are not modelled: `os.path.exists`, `os.path.getsize`, `open`, `os.getenv`, `load_dotenv`. They arrive as `FileFacts` and as an optional key value. An `os.path.getsize` that fails after the existence check is not modelled.
- Logging, the `sys.path` manipulation, and the `__main__` block (printing, exit status) are left out: they decide nothing.
- FastAPI routing, async/await and `UploadFile.read` are left out. The endpoint's result is the body dictionary or the `HTTPException` it raises. Failures of `UploadFile.read` are not modelled.
- The second `except Exception` clause of `summarize_text` is unreachable behind the first one and is not modelled.
- The API key is a plain string, not a `SecretStr`.
- `src/constants.py` is not part of this model. `ALLOWED_TYPES` and `MAX_SIZE_BYTES` are parameters of `ValidateDocument` and `Main`; the documented defaults are [".pdf", ".txt"] and 10 MB.
- Lower: folds only the ASCII letters, whereas Python's `str.lower()` folds all of Unicode. This can only matter for an extension with non-ASCII letters compared against an allow-list.
- ListRepr: renders the allow-list in the "Unsupported file type" message with plain single quotes. Python's `repr` would switch quotes or escape characters for entries containing quotes, backslashes or unprintable characters.
- Str: prints an `HTTPException` as "<status>: <detail>", which is how the web framework's exception class renders itself. That class is not part of this model.

## Findings

| source | as written | input that shows it | evidently intended | confidence | as-written member | corrected member |
|---|---|---|---|---|---|---|
| src/summarize_document.py:102-116 | the text branch's generic `except Exception` also catches the InvalidDocumentError raised for blank text and re-raises it as a plain DocumentError, status 500 | `main` with argv ["summarize_document.py", "notes.txt"], where notes.txt exists, is 3 bytes, and reads as "   " | InvalidDocumentError "File is empty or unreadable: notes.txt", status 400, passed on by the outer "re-raise document-related errors as is" | medium (not executed) | `SummarizeDocument.BlankTextFileIsReportedAs500` | `SummarizeDocument.ReadTextFileCorrected` |
| src/app.py:80-97 | the HTTPException 400s raised inside the endpoint's `try` are not DocumentErrors, so the generic handler re-raises them as 500 "An unexpected error occurred: 400: …" | an upload without a filename, or a file "notes.txt" whose bytes are not UTF-8 | status 400 with the original detail | high (not executed) | `App.MissingFilenameBecomes500` | `App.SummarizeCorrected` |

`Main` and `Summarize` keep the behaviour as written. The corrected members
stand beside them, each proved to differ only on the inputs named above.
