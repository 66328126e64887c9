/**
 * The document helpers: the validator (existence, then the lower-cased
 * extension against an allow-list, then emptiness, then the size limit),
 * the PDF text extractor, and the lookup of the OpenAI API key. The
 * filesystem, the environment and pypdf are not modelled; what the code asks
 * of them arrives as FileFacts, Contents and an optional environment value.
 */
module Utils {
  import opened PyStr
  import opened Errors

  /** What pypdf makes of a file: the text of each page in order (None for a
      page whose extract_text() gives None), or the exception it raises. */
  datatype PdfParse = Parsed(pages: seq<Option<string>>) | Unparsable(cls: ExcClass, reason: string)

  /** What decoding a file as UTF-8 gives: its text, or the text of the
      UnicodeDecodeError. */
  datatype Decoding = Decoded(text: string) | Undecodable(reason: string)

  /** The bytes of a document, seen the two ways the code reads them. */
  datatype Contents = Contents(asPdf: PdfParse, asUtf8: Decoding)

  /** What the code asks the filesystem about one path. */
  datatype FileFacts = FileFacts(
    found: bool,               // os.path.exists
    size: nat,                 // os.path.getsize
    openError: Option<string>, // the text of the OSError open() raises, if it does
    contents: Contents)

  /** The extension validate_document compares: splitext's, lower-cased. */
  function Extension(docPath: string): string {
    Lower(SplitExt(docPath).1)
  }

  /**
   * validate_document: the checks run in the order existence, type,
   * emptiness, size, and the first that fails decides the error.
   */
  function ValidateDocument(docPath: string, file: FileFacts, allowedTypes: seq<string>, maxSizeBytes: int)
    : (r: Outcome<string>)
    ensures r.Ok? <==> file.found && Extension(docPath) in allowedTypes && 0 < file.size <= maxSizeBytes
    ensures r.Ok? ==> r.value == Extension(docPath) && r.value in allowedTypes
    ensures r.Err? ==> IsDocumentError(r.error) && r.error.doc.kind in {NotFound, Invalid}
    ensures !file.found ==>
      r.Err? && r.error.doc.kind == NotFound && "File not found" <= r.error.doc.message
    ensures file.found && Extension(docPath) !in allowedTypes ==>
      r.Err? && r.error.doc.kind == Invalid && "Unsupported file type" <= r.error.doc.message
    ensures file.found && Extension(docPath) in allowedTypes && file.size == 0 ==>
      r.Err? && r.error.doc.kind == Invalid && "File is empty" <= r.error.doc.message
    ensures file.found && Extension(docPath) in allowedTypes && 0 < file.size && file.size > maxSizeBytes ==>
      r.Err? && r.error.doc.kind == Invalid && "File too large" <= r.error.doc.message
  {
    if !file.found then
      Err(DocumentNotFoundError("File not found: " + docPath))
    else
      var ext := Extension(docPath);
      if ext !in allowedTypes then
        Err(InvalidDocumentError("Unsupported file type: " + ext + ". Allowed types: " + ListRepr(allowedTypes)))
      else if file.size == 0 then
        Err(InvalidDocumentError("File is empty: " + docPath))
      else if file.size > maxSizeBytes then
        Err(InvalidDocumentError("File too large: " + IntToString(file.size) + " bytes. Max allowed is "
          + IntToString(maxSizeBytes) + " bytes."))
      else
        Ok(ext)
  }

  /** A file whose size equals the limit passes; one byte more does not. */
  lemma SizeLimitIsInclusive(docPath: string, file: FileFacts, allowedTypes: seq<string>)
    requires file.found && Extension(docPath) in allowedTypes && file.size > 0
    ensures ValidateDocument(docPath, file, allowedTypes, file.size) == Ok(Extension(docPath))
    ensures ValidateDocument(docPath, file, allowedTypes, file.size - 1).Err?
  {
  }

  /** A character is '.' or '/' after case folding exactly when it was before. */
  lemma {:induction false} SameSeparators(p: string, q: string)
    requires Lower(p) == Lower(q)
    ensures |p| == |q|
    ensures forall i :: 0 <= i < |p| ==> (p[i] == '.' <==> q[i] == '.') && (p[i] == '/' <==> q[i] == '/')
  {
    assert |Lower(p)| == |Lower(q)|;
    forall i | 0 <= i < |p|
      ensures (p[i] == '.' <==> q[i] == '.') && (p[i] == '/' <==> q[i] == '/')
    {
      assert Lower(p)[i] == LowerChar(p[i]) && Lower(q)[i] == LowerChar(q[i]);
    }
  }

  /** Two strings with a character c at the same places have the same last c. */
  lemma RFindSamePlaces(p: string, q: string, c: char)
    requires |p| == |q| && forall i :: 0 <= i < |p| ==> (p[i] == c <==> q[i] == c)
    ensures RFind(p, c) == RFind(q, c)
  {
    var a, b := RFind(p, c), RFind(q, c);
    assert b < 0 || p[b] == c;
    assert a < 0 || q[a] == c;
  }

  /** The same run of two strings with dots at the same places is all dots in both or in neither. */
  lemma AllDotsSamePlaces(p: string, q: string, lo: nat, hi: nat)
    requires lo <= hi <= |p| == |q|
    requires forall i :: 0 <= i < |p| ==> (p[i] == '.' <==> q[i] == '.')
    ensures AllDots(p[lo..hi]) <==> AllDots(q[lo..hi])
  {
    forall k | 0 <= k < hi - lo
      ensures p[lo..hi][k] == '.' <==> q[lo..hi][k] == '.'
    {
      assert p[lo..hi][k] == p[lo + k] && q[lo..hi][k] == q[lo + k];
    }
  }

  /** Case folding a suffix is the suffix of the case-folded string. */
  lemma LowerSuffix(p: string, d: nat)
    requires d <= |p|
    ensures Lower(p[d..]) == Lower(p)[d..]
  {
  }

  /** Paths that agree up to case have the same extension. */
  lemma {:induction false} ExtensionIgnoresCase(p: string, q: string)
    requires Lower(p) == Lower(q)
    ensures Extension(p) == Extension(q)
  {
    SameSeparators(p, q);
    RFindSamePlaces(p, q, '/');
    RFindSamePlaces(p, q, '.');
    var sepIndex, dotIndex := RFind(p, '/'), RFind(p, '.');
    if dotIndex > sepIndex {
      AllDotsSamePlaces(p, q, sepIndex + 1, dotIndex);
      LowerSuffix(p, dotIndex);
      LowerSuffix(q, dotIndex);
    }
  }

  /**
   * The validator does not see the case of a path: two paths that agree up
   * to case are both accepted or both refused, with the same extension.
   */
  lemma ValidateIgnoresCase(p: string, q: string, file: FileFacts, allowedTypes: seq<string>, maxSizeBytes: int)
    requires Lower(p) == Lower(q)
    ensures ValidateDocument(p, file, allowedTypes, maxSizeBytes).Ok?
      <==> ValidateDocument(q, file, allowedTypes, maxSizeBytes).Ok?
    ensures ValidateDocument(p, file, allowedTypes, maxSizeBytes).Ok? ==>
      ValidateDocument(p, file, allowedTypes, maxSizeBytes).value
        == ValidateDocument(q, file, allowedTypes, maxSizeBytes).value
  {
    ExtensionIgnoresCase(p, q);
  }

  /** In particular "…/report.PDF" passes an allow-list holding ".pdf" and
      is reported with the lower-case extension. */
  lemma ValidateAcceptsUpperCasePdf(docPath: string, file: FileFacts, allowedTypes: seq<string>, maxSizeBytes: int)
    requires file.found && 0 < file.size <= maxSizeBytes
    requires ".pdf" in allowedTypes && EndsWith(docPath, "/report.PDF")
    ensures ValidateDocument(docPath, file, allowedTypes, maxSizeBytes) == Ok(".pdf")
  {
    var p := docPath;
    var n := |p|;
    var tail := "/report.PDF";
    assert p[n - 11..] == tail;
    forall k | n - 11 <= k < n
      ensures p[k] == tail[k - (n - 11)]
    {
      assert p[k] == p[n - 11..][k - (n - 11)];
    }
    assert p[n - 11] == tail[0] == '/';
    assert p[n - 10] == tail[1] == 'r';
    assert p[n - 4] == tail[7] == '.';
    assert forall j :: n - 11 < j < n ==> p[j] != '/';
    assert forall j :: n - 4 < j < n ==> p[j] != '.';
    assert RFind(p, '/') == n - 11 && RFind(p, '.') == n - 4;
    assert !AllDots(p[n - 10..n - 4]) by {
      assert p[n - 10..n - 4][0] == 'r';
    }
    assert SplitExt(p).1 == p[n - 4..] == ".PDF";
    assert Lower(".PDF") == ".pdf";
  }

  /**
   * get_openai_key: the value of OPENAI_API_KEY when it is set and
   * non-empty, a ValueError otherwise.
   */
  const KeyNotSetMessage := "OPENAI_API_KEY not set in environment"

  function GetOpenAIKey(env: Option<string>): (r: Outcome<string>)
    ensures r.Ok? <==> env.Some? && env.value != ""
    ensures r.Ok? ==> r.value == env.value
    ensures r.Err? ==>
      IsValueError(r.error) && !IsDocumentError(r.error) && "OPENAI_API_KEY not set" <= Str(r.error)
  {
    match env
    case Some(key) => if key == "" then Err(Library(ValueError, KeyNotSetMessage)) else Ok(key)
    case None => Err(Library(ValueError, KeyNotSetMessage))
  }

  /** `page.extract_text() or ""`. */
  function PageOrEmpty(page: Option<string>): string {
    match page
    case Some(text) => text
    case None => ""
  }

  /** The text of the pages in document order, with nothing between them. */
  function PageText(pages: seq<Option<string>>): string {
    if pages == [] then "" else PageText(pages[..|pages| - 1]) + PageOrEmpty(pages[|pages| - 1])
  }

  /** The text of two runs of pages is the text of the first, then that of the second. */
  lemma {:induction false} PageTextAppend(a: seq<Option<string>>, b: seq<Option<string>>)
    ensures PageText(a + b) == PageText(a) + PageText(b)
    decreases |b|
  {
    if b == [] {
      assert a + b == a;
    } else {
      var c := b[..|b| - 1];
      assert (a + b)[..|a + b| - 1] == a + c;
      assert (a + b)[|a + b| - 1] == b[|b| - 1];
      PageTextAppend(a, c);
    }
  }

  /** Page i's text sits, whole, between the text of the pages before it and
      that of the pages after it. */
  lemma {:induction false} PageTextInOrder(pages: seq<Option<string>>, i: nat)
    requires i < |pages|
    ensures PageText(pages) == PageText(pages[..i]) + PageOrEmpty(pages[i]) + PageText(pages[i + 1..])
  {
    var before, page, after := pages[..i], [pages[i]], pages[i + 1..];
    assert pages == before + page + after;
    PageTextAppend(before + page, after);
    PageTextAppend(before, page);
    assert PageText(page) == PageOrEmpty(pages[i]) by {
      assert page[..0] == [];
    }
  }

  /** A page without text leaves the document's text as it is. */
  lemma {:induction false} PageTextSkipsEmptyPage(a: seq<Option<string>>, b: seq<Option<string>>)
    ensures PageText(a + [None] + b) == PageText(a + b)
  {
    PageTextInOrder(a + [None] + b, |a|);
    assert (a + [None] + b)[..|a|] == a;
    assert (a + [None] + b)[|a| + 1..] == b;
    PageTextAppend(a, b);
  }

  /**
   * What extract_pdf_text gives: DocumentNotFoundError for a missing file;
   * a plain DocumentError when the file cannot be opened; for a file pypdf
   * rejects, InvalidDocumentError if the rejection is a PdfStreamError and a
   * plain DocumentError otherwise; the pages' text when it succeeds.
   */
  function PdfTextResult(pdfPath: string, file: FileFacts): Outcome<string> {
    if !file.found then
      Err(DocumentNotFoundError("File not found: " + pdfPath))
    else if file.openError.Some? then
      Err(DocumentError("Error accessing file: " + file.openError.value))
    else
      match file.contents.asPdf
      case Parsed(pages) => Ok(PageText(pages))
      case Unparsable(cls, reason) =>
        if IsPdfStreamError(Library(cls, reason)) then
          Err(InvalidDocumentError("Invalid or corrupted PDF file: " + reason))
        else
          Err(DocumentError("Error reading PDF file: " + reason))
  }

  /** extract_pdf_text raises nothing but DocumentErrors, with the status
      codes 404, 400 and 500 by cause. */
  lemma PdfTextErrors(pdfPath: string, file: FileFacts)
    ensures var r := PdfTextResult(pdfPath, file);
      (r.Err? ==> IsDocumentError(r.error))
      && (!file.found ==> r.Err? && r.error.doc.StatusCode() == 404)
      && (file.found && file.openError.Some? ==> r.Err? && r.error.doc.StatusCode() == 500)
      && (file.found && file.openError.None? && file.contents.asPdf.Unparsable? ==>
            r.Err? && r.error.doc.StatusCode() == (if file.contents.asPdf.cls == PdfStreamError then 400 else 500))
      && (r.Ok? <==> file.found && file.openError.None? && file.contents.asPdf.Parsed?)
  {
  }

  /** extract_pdf_text: builds the text page by page. */
  method ExtractPdfText(pdfPath: string, file: FileFacts) returns (r: Outcome<string>)
    ensures r == PdfTextResult(pdfPath, file)
  {
    if !file.found {
      return Err(DocumentNotFoundError("File not found: " + pdfPath));
    }
    if file.openError.Some? {
      return Err(DocumentError("Error accessing file: " + file.openError.value));
    }
    match file.contents.asPdf {
      case Unparsable(cls, reason) =>
        if cls == PdfStreamError {
          r := Err(InvalidDocumentError("Invalid or corrupted PDF file: " + reason));
        } else {
          r := Err(DocumentError("Error reading PDF file: " + reason));
        }
      case Parsed(pages) =>
        var text := "";
        for i := 0 to |pages|
          invariant text == PageText(pages[..i])
        {
          assert pages[..i + 1][..i] == pages[..i];
          match pages[i] {
            case Some(pageText) => text := text + pageText;
            case None => text := text + "";
          }
        }
        assert pages[..|pages|] == pages;
        r := Ok(text);
    }
  }
}
