/** document_processor.py: route an upload on its declared media type to one of
    three extractors. Each extractor turns a library failure into a string with
    a fixed prefix, so extraction never raises to its caller.

    The libraries themselves (PyPDF2, PIL with pytesseract, UTF-8 decoding) are
    not modelled: an upload carries what each library call would return or
    raise on its bytes. */
module DocumentProcessor {
  import opened Wrappers
  import opened PyText

  /** What a library call does: return a value or raise with a message
      (the `str(e)` the source puts into its error strings). */
  datatype LibraryCall<T> = Returned(value: T) | Raised(message: string)

  /** An uploaded file: its declared media type and, per extractor, what the
      libraries make of its bytes. `pdfPages` is opening the file with
      `PdfReader` (a list of pages) and then `extract_text()` on each page;
      `ocr` is `Image.open` followed by `image_to_string`; `utf8` is
      `str(file.read(), "utf-8")`. */
  datatype UploadedFile = UploadedFile(
    fileType: string,
    pdfPages: LibraryCall<seq<LibraryCall<string>>>,
    ocr: LibraryCall<string>,
    utf8: LibraryCall<string>)

  const PdfErrorPrefix := "Error reading PDF: "
  const ImageErrorPrefix := "Error reading image: "
  const TextErrorPrefix := "Error reading text file: "
  const UnsupportedPrefix := "Unsupported file type: "

  // ---------------------------------------------------------------- PDF

  /** The text the page loop accumulates: each page's text followed by a
      newline, in page order. */
  function JoinPages(texts: seq<string>): (r: string)
    ensures |r| >= |texts|
  {
    if texts == [] then ""
    else JoinPages(texts[..|texts| - 1]) + texts[|texts| - 1] + "\n"
  }

  /** Python's `sep.join(texts)`, defined from the front: an independent
      reference for `JoinPages`. */
  function Join(sep: string, texts: seq<string>): string
  {
    if texts == [] then ""
    else if |texts| == 1 then texts[0]
    else texts[0] + sep + Join(sep, texts[1..])
  }

  /** The message of the first page whose extraction raised, if any. */
  function FirstRaised(pages: seq<LibraryCall<string>>): Option<string>
  {
    if pages == [] then None
    else if pages[0].Raised? then Some(pages[0].message)
    else FirstRaised(pages[1..])
  }

  /** The texts of pages that all extracted. */
  function PageTexts(pages: seq<LibraryCall<string>>): (texts: seq<string>)
    requires forall k :: 0 <= k < |pages| ==> pages[k].Returned?
    ensures |texts| == |pages|
    ensures forall k :: 0 <= k < |pages| ==> texts[k] == pages[k].value
  {
    if pages == [] then [] else [pages[0].value] + PageTexts(pages[1..])
  }

  /** What `extract_text_from_pdf` returns. */
  function PdfText(pdf: LibraryCall<seq<LibraryCall<string>>>): string
  {
    match pdf
    case Raised(m) => PdfErrorPrefix + m
    case Returned(pages) =>
      match FirstRaised(pages)
      case Some(m) => PdfErrorPrefix + m
      case None =>
        assert forall k :: 0 <= k < |pages| ==> pages[k].Returned? by { NoneRaised(pages); }
        Strip(JoinPages(PageTexts(pages)))
  }

  /** `extract_text_from_pdf`: append each page's text and a newline, stop at
      the first failure with the PDF error prefix, strip the result. */
  method ExtractTextFromPdf(pdf: LibraryCall<seq<LibraryCall<string>>>) returns (r: string)
    ensures r == PdfText(pdf)
  {
    if pdf.Raised? {
      return PdfErrorPrefix + pdf.message;
    }
    var pages := pdf.value;
    var text := "";
    var i := 0;
    while i < |pages|
      invariant 0 <= i <= |pages|
      invariant forall k :: 0 <= k < i ==> pages[k].Returned?
      invariant text == JoinPages(PageTexts(pages[..i]))
    {
      if pages[i].Raised? {
        FirstRaisedAt(pages, i);
        return PdfErrorPrefix + pages[i].message;
      }
      PageTextsSnoc(pages, i);
      text := text + pages[i].value + "\n";
      i := i + 1;
    }
    NoneRaised(pages);
    assert pages[..i] == pages;
    r := Strip(text);
  }

  lemma PageTextsSnoc(pages: seq<LibraryCall<string>>, i: nat)
    requires i < |pages|
    requires forall k :: 0 <= k <= i ==> pages[k].Returned?
    ensures JoinPages(PageTexts(pages[..i + 1])) == JoinPages(PageTexts(pages[..i])) + pages[i].value + "\n"
  {
    var ts := PageTexts(pages[..i + 1]);
    assert ts[..i] == PageTexts(pages[..i]);
  }

  lemma {:induction false} NoneRaised(pages: seq<LibraryCall<string>>)
    ensures FirstRaised(pages) == None <==> forall k :: 0 <= k < |pages| ==> pages[k].Returned?
  {
    if pages != [] {
      NoneRaised(pages[1..]);
      assert forall k :: 1 <= k < |pages| ==> pages[k] == pages[1..][k - 1];
    }
  }

  lemma {:induction false} FirstRaisedAt(pages: seq<LibraryCall<string>>, i: nat)
    requires i < |pages| && pages[i].Raised?
    requires forall k :: 0 <= k < i ==> pages[k].Returned?
    ensures FirstRaised(pages) == Some(pages[i].message)
  {
    if i > 0 {
      FirstRaisedAt(pages[1..], i - 1);
    }
  }

  /** The accumulated text is `"\n".join(texts) + "\n"` (for at least one page). */
  lemma {:induction false} JoinPagesIsJoin(texts: seq<string>)
    ensures JoinPages(texts) == if texts == [] then "" else Join("\n", texts) + "\n"
  {
    if |texts| > 1 {
      var init := texts[..|texts| - 1];
      JoinPagesIsJoin(init);
      JoinSnoc("\n", init, texts[|texts| - 1]);
      assert texts == init + [texts[|texts| - 1]];
    } else if |texts| == 1 {
      assert texts[..0] == [];
    }
  }

  lemma {:induction false} JoinSnoc(sep: string, texts: seq<string>, t: string)
    requires texts != []
    ensures Join(sep, texts + [t]) == Join(sep, texts) + sep + t
  {
    if |texts| == 1 {
      assert texts + [t] == [texts[0], t];
    } else {
      JoinSnoc(sep, texts[1..], t);
      assert (texts + [t])[1..] == texts[1..] + [t];
    }
  }

  /** Page order is kept: the text of a document made of two runs of pages is
      the text of the first run followed by that of the second. */
  lemma {:induction false} JoinPagesAppend(xs: seq<string>, ys: seq<string>)
    ensures JoinPages(xs + ys) == JoinPages(xs) + JoinPages(ys)
  {
    if ys == [] {
      assert xs + ys == xs;
    } else {
      var init := ys[..|ys| - 1];
      assert (xs + ys)[..|xs + ys| - 1] == xs + init;
      JoinPagesAppend(xs, init);
    }
  }

  /** The accumulated text is whitespace only exactly when every page's text is. */
  lemma {:induction false} JoinPagesAllSpace(texts: seq<string>)
    ensures AllSpace(JoinPages(texts)) <==> forall k :: 0 <= k < |texts| ==> AllSpace(texts[k])
  {
    if texts != [] {
      var init := texts[..|texts| - 1];
      var last := texts[|texts| - 1];
      JoinPagesAllSpace(init);
      AllSpaceConcat(JoinPages(init), last);
      AllSpaceConcat(JoinPages(init) + last, "\n");
      assert IsSpace('\n');
      assert forall k :: 0 <= k < |init| ==> init[k] == texts[k];
    }
  }

  lemma AllSpaceConcat(a: string, b: string)
    ensures AllSpace(a + b) <==> AllSpace(a) && AllSpace(b)
  {
    if AllSpace(a) && AllSpace(b) {
      forall i | 0 <= i < |a + b| ensures IsSpace((a + b)[i]) {
        if i >= |a| { assert (a + b)[i] == b[i - |a|]; }
      }
    }
    if AllSpace(a + b) {
      forall i | 0 <= i < |a| ensures IsSpace(a[i]) {
        assert (a + b)[i] == a[i];
      }
      forall i | 0 <= i < |b| ensures IsSpace(b[i]) {
        assert (a + b)[|a| + i] == b[i];
      }
    }
  }

  /** A readable PDF gives "" exactly when every page's text is whitespace only
      (in particular when every page is empty or there are no pages). */
  lemma PdfEmptyIff(pages: seq<LibraryCall<string>>)
    requires forall k :: 0 <= k < |pages| ==> pages[k].Returned?
    ensures PdfText(Returned(pages)) == "" <==>
            forall k :: 0 <= k < |pages| ==> AllSpace(pages[k].value)
  {
    NoneRaised(pages);
    var texts := PageTexts(pages);
    StripEmptyIff(JoinPages(texts));
    JoinPagesAllSpace(texts);
  }

  /** A failure to open the file or to extract any page gives the PDF error
      string carrying the first failure's message. */
  lemma PdfFailure(pdf: LibraryCall<seq<LibraryCall<string>>>)
    requires pdf.Raised? || exists k :: 0 <= k < |pdf.value| && pdf.value[k].Raised?
    ensures PdfErrorPrefix <= PdfText(pdf)
  {
    if pdf.Returned? {
      NoneRaised(pdf.value);
    }
  }

  /** A PDF whose pages all extracted gives a result without leading or
      trailing whitespace that occurs, as one contiguous piece, inside the
      pages' text. */
  lemma PdfSuccess(pages: seq<LibraryCall<string>>)
    requires forall k :: 0 <= k < |pages| ==> pages[k].Returned?
    ensures FirstRaised(pages) == None
    ensures Trimmed(PdfText(Returned(pages)))
    ensures PdfText(Returned(pages)) == Strip(JoinPages(PageTexts(pages)))
  {
    NoneRaised(pages);
  }

  // ------------------------------------------------------ image and text

  /** `extract_text_from_image`: the recognised text, stripped, or the image
      error string. */
  function ExtractTextFromImage(ocr: LibraryCall<string>): (r: string)
    ensures ocr.Returned? ==> r == Strip(ocr.value) && Trimmed(r) && |r| <= |ocr.value|
    ensures ocr.Raised? ==> r == ImageErrorPrefix + ocr.message
  {
    match ocr
    case Returned(t) => Strip(t)
    case Raised(m) => ImageErrorPrefix + m
  }

  /** `extract_text_from_txt`: the decoded text exactly as decoded (not
      stripped), or the text-file error string. */
  function ExtractTextFromTxt(utf8: LibraryCall<string>): (r: string)
    ensures utf8.Returned? ==> r == utf8.value
    ensures utf8.Raised? ==> r == TextErrorPrefix + utf8.message
  {
    match utf8
    case Returned(t) => t
    case Raised(m) => TextErrorPrefix + m
  }

  // ----------------------------------------------------------- dispatch

  datatype Route = ToPdf | ToImage | ToText | Unsupported

  /** The branch `process_uploaded_file` takes for a declared media type:
      `application/pdf` and `text/plain` only when equal, `image/` by prefix. */
  function RouteOf(fileType: string): (r: Route)
    ensures r == ToPdf <==> fileType == "application/pdf"
    ensures r == ToImage <==> "image/" <= fileType
    ensures r == ToText <==> fileType == "text/plain"
  {
    if fileType == "application/pdf" then
      assert fileType[0] != "image/"[0];
      ToPdf
    else if "image/" <= fileType then
      assert fileType[0] != "text/plain"[0];
      ToImage
    else if fileType == "text/plain" then
      assert fileType[0] != "image/"[0];
      ToText
    else Unsupported
  }

  /** `process_uploaded_file`: no upload gives no text; otherwise the routed
      extractor's result, or the unsupported-type string. */
  function ProcessUploadedFile(upload: Option<UploadedFile>): (r: Option<string>)
    ensures upload.None? <==> r.None?
    ensures upload.Some? && upload.value.fileType == "application/pdf" ==>
            r == Some(PdfText(upload.value.pdfPages))
    ensures upload.Some? && "image/" <= upload.value.fileType ==>
            r == Some(ExtractTextFromImage(upload.value.ocr))
    ensures upload.Some? && upload.value.fileType == "text/plain" ==>
            r == Some(ExtractTextFromTxt(upload.value.utf8))
    ensures upload.Some? && RouteOf(upload.value.fileType) == Unsupported ==>
            r == Some(UnsupportedPrefix + upload.value.fileType)
  {
    match upload
    case None => None
    case Some(f) =>
      match RouteOf(f.fileType)
      case ToPdf => Some(PdfText(f.pdfPages))
      case ToImage => Some(ExtractTextFromImage(f.ocr))
      case ToText => Some(ExtractTextFromTxt(f.utf8))
      case Unsupported => Some(UnsupportedPrefix + f.fileType)
  }

  /** Only the bare `text/plain` is decoded: a type with parameters such as
      `text/plain; charset=utf-8` is unsupported and reported as such. */
  lemma ParameterisedPlainTextUnsupported(f: UploadedFile, parameters: string)
    requires parameters != [] && f.fileType == "text/plain" + parameters
    ensures ProcessUploadedFile(Some(f)) == Some(UnsupportedPrefix + f.fileType)
  {
    assert f.fileType[0] == 't';
    assert |f.fileType| > |"text/plain"|;
  }

  /** Every image subtype, even an empty or unknown one, goes to OCR. */
  lemma AnyImageSubtypeUsesOcr(f: UploadedFile, subtype: string)
    requires f.fileType == "image/" + subtype
    ensures ProcessUploadedFile(Some(f)) == Some(ExtractTextFromImage(f.ocr))
  {
    assert "image/" <= f.fileType;
  }

  /** Whether an extraction failed: the route was unsupported or the routed
      library call raised. */
  predicate ExtractionFailed(f: UploadedFile)
  {
    match RouteOf(f.fileType)
    case ToPdf => f.pdfPages.Raised? || FirstRaised(f.pdfPages.value).Some?
    case ToImage => f.ocr.Raised?
    case ToText => f.utf8.Raised?
    case Unsupported => true
  }

  /** The fixed text a failed extraction starts with. */
  function ErrorPrefixOf(f: UploadedFile): string
  {
    match RouteOf(f.fileType)
    case ToPdf => PdfErrorPrefix
    case ToImage => ImageErrorPrefix
    case ToText => TextErrorPrefix
    case Unsupported => UnsupportedPrefix
  }

  /** A failed extraction is reported as a string starting with its route's
      fixed prefix, never as an exception and never as "no text". */
  lemma FailureIsPrefixedString(f: UploadedFile)
    requires ExtractionFailed(f)
    ensures ProcessUploadedFile(Some(f)).Some?
    ensures ErrorPrefixOf(f) <= ProcessUploadedFile(Some(f)).value
  {
    if RouteOf(f.fileType) == ToPdf && f.pdfPages.Returned? {
      NoneRaised(f.pdfPages.value);
      PdfFailure(f.pdfPages);
    }
  }

  /** A successful PDF or image extraction has no leading or trailing
      whitespace; a decoded text file is passed on as decoded. */
  lemma SuccessShape(f: UploadedFile)
    requires !ExtractionFailed(f)
    ensures RouteOf(f.fileType) in {ToPdf, ToImage} ==> Trimmed(ProcessUploadedFile(Some(f)).value)
    ensures RouteOf(f.fileType) == ToText ==> ProcessUploadedFile(Some(f)).value == f.utf8.value
  {
    if RouteOf(f.fileType) == ToPdf {
      NoneRaised(f.pdfPages.value);
    }
  }
}
