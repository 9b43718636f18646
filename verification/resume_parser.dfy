/** Text extraction from an uploaded résumé: the file type is taken from the
    upload's declared content type or, failing that, its file name, and the
    bytes are handed to a PDF reader, a DOCX reader or a UTF-8 decoder. The
    three decoders are libraries outside this model and become parameters
    that return the pages, the paragraphs or the text, or the reason they
    failed. */
module ResumeParser {
  import opened Wrappers
  import opened Text

  newtype byte = x: int | 0 <= x < 256

  /** An uploaded file. `contentType` and `typeAttr` are the two attributes the
      type is read from (`None` when missing or `None`); a missing file name
      is the empty string. */
  datatype Upload = Upload(contentType: Option<string>, typeAttr: Option<string>, filename: string, body: seq<byte>)

  const PdfMime := "application/pdf"
  const DocxMime := "application/vnd.openxmlformats-officedocument.wordprocessingml.document"
  const TextMime := "text/plain"

  /** The libraries the extraction relies on. */
  datatype Decoders = Decoders(
    pdfPages: seq<byte> -> Result<seq<string>, string>,
    docxParagraphs: seq<byte> -> Result<seq<string>, string>,
    utf8: seq<byte> -> Result<string, string>)

  /** Why extraction failed. A PDF or DOCX reader failure is wrapped with its
      cause; a UTF-8 decoding failure is passed on as it is. */
  datatype ParseError =
    | UnsupportedType(fileType: Option<string>)
    | PdfReadError(cause: string)
    | DocxReadError(cause: string)
    | TextDecodeError(cause: string)

  datatype Format = Pdf | Docx | PlainText | Unsupported

  /** A Python value tested for truth: `None` and the empty string are false. */
  predicate Truthy(v: Option<string>)
  {
    v.Some? && v.value != ""
  }

  /** `content_type or type`: the content type when it is a non-empty string,
      otherwise whatever the `type` attribute holds. */
  function FileType(u: Upload): (r: Option<string>)
    ensures Truthy(u.contentType) ==> r == u.contentType
    ensures !Truthy(u.contentType) ==> r == u.typeAttr
    ensures Truthy(r) <==> Truthy(u.contentType) || Truthy(u.typeAttr)
  {
    if Truthy(u.contentType) then u.contentType else u.typeAttr
  }

  /** The file name, lower-cased, has the given extension. */
  predicate NamedAs(u: Upload, extension: string)
  {
    u.filename != "" && EndsWith(Lower(u.filename), extension)
  }

  /** Which of the three known media types a declared type is. */
  datatype MimeKind = PdfKind | DocxKind | TextKind | OtherKind

  function KindOf(fileType: Option<string>): (k: MimeKind)
    ensures k == PdfKind <==> fileType == Some(PdfMime)
    ensures k == DocxKind ==> fileType == Some(DocxMime)
    ensures k == TextKind ==> fileType == Some(TextMime)
  {
    if fileType == Some(PdfMime) then PdfKind
    else if fileType == Some(DocxMime) then DocxKind
    else if fileType == Some(TextMime) then TextKind
    else OtherKind
  }

  /** The type a reader of the upload would expect: PDF when either the type
      or the name says so, DOCX when PDF does not apply and either says DOCX,
      plain text when neither applies and either says text. */
  function ExpectedFormat(u: Upload): Format
  {
    var kind := KindOf(FileType(u));
    if kind == PdfKind || NamedAs(u, ".pdf") then Pdf
    else if kind == DocxKind || NamedAs(u, ".docx") then Docx
    else if kind == TextKind || NamedAs(u, ".txt") then PlainText
    else Unsupported
  }

  /** `_extract_from_pdf`: the pages' text joined in page order with nothing
      between them, so the empty text for a document without pages. */
  function ExtractFromPdf(body: seq<byte>, d: Decoders): (r: Result<string, ParseError>)
    ensures d.pdfPages(body).Failure? ==> r == Failure(PdfReadError(d.pdfPages(body).error))
    ensures d.pdfPages(body).Success? ==> r == Success(Concat(d.pdfPages(body).value))
    ensures d.pdfPages(body).Success? ==>
              && |r.value| == TotalLength(d.pdfPages(body).value)
              && (|d.pdfPages(body).value| == 0 ==> r.value == "")
              && (forall k :: 0 <= k < |d.pdfPages(body).value| ==> Contains(r.value, d.pdfPages(body).value[k]))
  {
    match d.pdfPages(body)
    case Failure(e) => Failure(PdfReadError(e))
    case Success(pages) =>
      ConcatContainsEach(pages);
      ConcatLength(pages);
      Success(Concat(pages))
  }

  /** Every page's text appears in the joined text. */
  lemma {:induction false} ConcatContainsEach(xs: seq<string>)
    ensures forall k :: 0 <= k < |xs| ==> Contains(Concat(xs), xs[k])
    decreases |xs|
  {
    if |xs| > 0 {
      ConcatContainsEach(xs[1..]);
      forall k | 0 <= k < |xs|
        ensures Contains(Concat(xs), xs[k])
      {
        if k == 0 {
          ContainsInfix("", xs[0], Concat(xs[1..]));
          assert "" + xs[0] + Concat(xs[1..]) == Concat(xs);
        } else {
          assert xs[k] == xs[1..][k - 1];
          ContainsAfter(xs[0], Concat(xs[1..]), xs[k]);
        }
      }
    }
  }

  /** Text found in a suffix is found in the whole. */
  lemma ContainsAfter(a: string, b: string, p: string)
    requires Contains(b, p)
    ensures Contains(a + b, p)
  {
    ContainsIffOccurs(b, p);
    var i :| OccursAt(b, p, i);
    assert OccursAt(a + b, p, |a| + i) by {
      assert (a + b)[|a| + i..|a| + i + |p|] == b[i..i + |p|];
    }
    ContainsIffOccurs(a + b, p);
  }

  /** `_extract_from_docx`: the paragraphs' text, one per line, so the empty
      text for a document without paragraphs; when no paragraph holds a line
      break, splitting the text at line breaks gives the paragraphs back. */
  function ExtractFromDocx(body: seq<byte>, d: Decoders): (r: Result<string, ParseError>)
    ensures d.docxParagraphs(body).Failure? ==> r == Failure(DocxReadError(d.docxParagraphs(body).error))
    ensures d.docxParagraphs(body).Success? ==> r == Success(Join(d.docxParagraphs(body).value, '\n'))
    ensures d.docxParagraphs(body).Success? && |d.docxParagraphs(body).value| == 0 ==> r.value == ""
    ensures d.docxParagraphs(body).Success? && |d.docxParagraphs(body).value| > 0
            && (forall k :: 0 <= k < |d.docxParagraphs(body).value| ==> '\n' !in d.docxParagraphs(body).value[k])
            ==> Split(r.value, '\n') == d.docxParagraphs(body).value
  {
    match d.docxParagraphs(body)
    case Failure(e) => Failure(DocxReadError(e))
    case Success(paragraphs) =>
      ParagraphsRecoverable(paragraphs);
      Success(Join(paragraphs, '\n'))
  }

  /** Paragraphs without line breaks can be read back from the joined text. */
  lemma ParagraphsRecoverable(paragraphs: seq<string>)
    ensures |paragraphs| > 0 && (forall k :: 0 <= k < |paragraphs| ==> '\n' !in paragraphs[k])
            ==> Split(Join(paragraphs, '\n'), '\n') == paragraphs
  {
    if |paragraphs| > 0 && forall k :: 0 <= k < |paragraphs| ==> '\n' !in paragraphs[k] {
      SplitJoin(paragraphs, '\n');
    }
  }

  /** `upload.read().decode('utf-8')`; a decoding error is not wrapped. */
  function DecodeText(body: seq<byte>, d: Decoders): (r: Result<string, ParseError>)
    ensures r.Success? <==> d.utf8(body).Success?
    ensures r.Success? ==> r.value == d.utf8(body).value
    ensures r.Failure? ==> r.error == TextDecodeError(d.utf8(body).error)
  {
    match d.utf8(body)
    case Success(s) => Success(s)
    case Failure(e) => Failure(TextDecodeError(e))
  }

  /** `extract_text`, step by step: the type is filled in from the name when
      it is not set, a `.txt` name with no type is decoded at once, and the
      type or the name then picks the reader. */
  function ExtractText(u: Upload, d: Decoders): (r: Result<string, ParseError>)
    ensures ExpectedFormat(u) == Pdf ==> r == ExtractFromPdf(u.body, d)
    ensures ExpectedFormat(u) == Docx ==> r == ExtractFromDocx(u.body, d)
    ensures ExpectedFormat(u) == PlainText ==> r == DecodeText(u.body, d)
    ensures ExpectedFormat(u) == Unsupported <==> r == Failure(UnsupportedType(FileType(u)))
  {
    var declared := FileType(u);
    var pdfName, docxName, txtName := NamedAs(u, ".pdf"), NamedAs(u, ".docx"), NamedAs(u, ".txt");
    if !Truthy(declared) && u.filename != "" && !pdfName && !docxName && txtName then
      DecodeText(u.body, d)
    else
      var fileType :=
        if !Truthy(declared) && u.filename != "" && pdfName then Some(PdfMime)
        else if !Truthy(declared) && u.filename != "" && docxName then Some(DocxMime)
        else declared;
      var kind := KindOf(fileType);
      if kind == PdfKind || pdfName then ExtractFromPdf(u.body, d)
      else if kind == DocxKind || docxName then ExtractFromDocx(u.body, d)
      else if kind == TextKind || txtName then DecodeText(u.body, d)
      else Failure(UnsupportedType(fileType))
  }

  /** The name decides whenever it carries a known extension, whatever the
      declared type says, and PDF is preferred over DOCX over text. */
  lemma NameOverridesType(u: Upload)
    ensures NamedAs(u, ".pdf") ==> ExpectedFormat(u) == Pdf
    ensures !NamedAs(u, ".pdf") && NamedAs(u, ".docx") && FileType(u) != Some(PdfMime) ==> ExpectedFormat(u) == Docx
    ensures ExpectedFormat(u) == Unsupported ==> !NamedAs(u, ".pdf") && !NamedAs(u, ".docx") && !NamedAs(u, ".txt")
  {
  }
}
