/**
 * The application's exception classes: DocumentError, which carries a
 * message and an HTTP status code (500 unless the raiser says otherwise),
 * and its three subclasses DocumentNotFoundError (404),
 * InvalidDocumentError (400) and SummarizationError (500). Beside them, the
 * library exceptions the pipeline raises or catches, and Outcome, through
 * which every operation of the model returns either its value or the
 * exception the Python code would raise.
 */
module Errors {
  import opened PyStr

  datatype Option<+T> = None | Some(value: T)

  /** Which DocumentError class an error is an instance of. A plain
      DocumentError carries the status code its raiser chose. */
  datatype ErrKind = Base(code: int) | NotFound | Invalid | Summarization

  /** The status_code attribute that an error of this class carries. */
  function Status(kind: ErrKind): int {
    match kind
    case Base(code) => code
    case NotFound => 404
    case Invalid => 400
    case Summarization => 500
  }

  /** A DocumentError: its class and its message attribute. */
  datatype DocError = DocError(kind: ErrKind, message: string) {
    function StatusCode(): int { Status(kind) }
  }

  /** Library exception classes that the pipeline raises or names in an
      except clause. */
  datatype ExcClass =
    | ValueError
    | UnicodeDecodeError  // a subclass of ValueError
    | AttributeError
    | OSError             // IOError is another name for it
    | PdfStreamError      // pypdf's error for a malformed stream
    | OtherException      // any other subclass of Exception

  /** An exception in flight. */
  datatype Raised =
    | DocErr(doc: DocError)
    | HttpErr(statusCode: int, detail: string)  // fastapi.HTTPException
    | Library(cls: ExcClass, text: string)       // text is what str(e) gives

  /** A value, or the exception raised instead of returning it. */
  datatype Outcome<+T> = Ok(value: T) | Err(error: Raised) {
    predicate IsFailure() { Err? }
    function PropagateFailure<U>(): Outcome<U>
      requires Err?
    {
      Err(error)
    }
    function Extract(): T
      requires Ok?
    {
      value
    }
  }

  /** isinstance(e, DocumentError). */
  predicate IsDocumentError(e: Raised) { e.DocErr? }

  /** isinstance(e, ValueError). */
  predicate IsValueError(e: Raised) {
    e.Library? && (e.cls == ValueError || e.cls == UnicodeDecodeError)
  }

  /** isinstance(e, UnicodeDecodeError). */
  predicate IsUnicodeDecodeError(e: Raised) { e.Library? && e.cls == UnicodeDecodeError }

  /** isinstance(e, AttributeError). */
  predicate IsAttributeError(e: Raised) { e.Library? && e.cls == AttributeError }

  /** isinstance(e, pypdf.errors.PdfStreamError). */
  predicate IsPdfStreamError(e: Raised) { e.Library? && e.cls == PdfStreamError }

  /**
   * str(e). A DocumentError passes its message to Exception's constructor,
   * so it prints as that message; an HTTPException prints as
   * "<status>: <detail>"; a library exception as its own text.
   */
  function Str(e: Raised): string {
    match e
    case DocErr(d) => d.message
    case HttpErr(code, detail) => IntToString(code) + ": " + detail
    case Library(_, text) => text
  }

  /** DocumentError(message, status_code=500). */
  function DocumentError(message: string, statusCode: int := 500): (e: Raised)
    ensures IsDocumentError(e) && e.doc.kind.Base?
    ensures e.doc.message == message && Str(e) == message
    ensures e.doc.StatusCode() == statusCode
  {
    DocErr(DocError(Base(statusCode), message))
  }

  /** DocumentNotFoundError(message): always status 404. */
  function DocumentNotFoundError(message: string): (e: Raised)
    ensures IsDocumentError(e) && e.doc.kind == NotFound
    ensures e.doc.message == message && Str(e) == message
    ensures e.doc.StatusCode() == 404
  {
    DocErr(DocError(NotFound, message))
  }

  /** InvalidDocumentError(message): always status 400. */
  function InvalidDocumentError(message: string): (e: Raised)
    ensures IsDocumentError(e) && e.doc.kind == Invalid
    ensures e.doc.message == message && Str(e) == message
    ensures e.doc.StatusCode() == 400
  {
    DocErr(DocError(Invalid, message))
  }

  /** SummarizationError(message): always status 500. */
  function SummarizationError(message: string): (e: Raised)
    ensures IsDocumentError(e) && e.doc.kind == Summarization
    ensures e.doc.message == message && Str(e) == message
    ensures e.doc.StatusCode() == 500
  {
    DocErr(DocError(Summarization, message))
  }

  /**
   * The three subclasses are DocumentErrors, so `except DocumentError`
   * catches each of them; and no library exception or HTTPException is one.
   */
  lemma SubclassesAreDocumentErrors(message: string, e: Raised)
    ensures IsDocumentError(DocumentNotFoundError(message))
    ensures IsDocumentError(InvalidDocumentError(message))
    ensures IsDocumentError(SummarizationError(message))
    ensures IsDocumentError(e) <==> !e.HttpErr? && !e.Library?
  {
  }
}
