# Smart Document Analyzer — a Dafny model of its decision logic

The analyzer is a small Streamlit tool. A user uploads a document (PDF, image
or plain text) or pastes text. The tool extracts the text, sends it to a
hosted language model, and renders the structured "insight" that comes back.

This project models the parts of it that decide something:

- `DocumentProcessor` (document_processor.py): routing an upload on its
  declared media type; the PDF page loop; the rule that each extractor turns
  a library failure into a prefixed error string instead of raising.
- `Models` (models.py): the `DocumentInsight` record, its eight required
  fields and the one constraint on them (urgency from 1 to 10), with
  validation of a raw response against it.
- `App` (app.py): one press of "Analyze Document". This covers the
  credential gate, the choice between upload and pasted text, and the strict
  "more than 10 characters" gate. It also covers the report's urgency and
  sentiment colours, its numbered lists and its empty-list notices.
- `PyText`: Python's `str.strip()` and `str.lower()` on `seq<char>`, which
  the three files above rely on.
- `Wrappers`: `Option`, for Python's `None`.

The PDF, OCR and UTF-8 libraries are not modelled. An `UploadedFile`
carries what each library call returns or raises on the file's bytes. The
hosted model is a parameter `provider: string -> Reply` of `App.AnalyzePressed`.

One behaviour of the source worth knowing: extraction failures are ordinary
strings. Every such string starts with a fixed prefix of at least 19
characters, so it always passes the length gate and is sent
to the language model as if it were the document
(`App.ExtractionErrorsPassGate`).

Three more behaviours of the code worth knowing:

- Uploads are extracted before the length gate, so a too-short upload has
  still been through the extractor.
- A readable PDF whose pages are all blank yields "", not an error.
- A decoded text file is passed on unstripped (only the gate strips).

## Model

| member | source | states |
|---|---|---|
| PyText.StripLeft | document_processor.py:13 | what remains is a suffix of the input, everything removed is whitespace, and it does not start with whitespace |
| PyText.StripRight | document_processor.py:13 | what remains is a prefix of the input, everything removed is whitespace, and it does not end with whitespace |
| PyText.Strip | document_processor.py:13 | the result neither starts nor ends with whitespace and is no longer than the input |
| PyText.StripIsInfix | document_processor.py:13 | the stripped text is a contiguous piece of the input with only whitespace before and after it |
| PyText.StripEmptyIff | app.py:181 | stripping gives "" exactly when the input is whitespace only (both directions) |
| PyText.StripIdempotent | app.py:182-184 | stripping an already stripped text changes nothing |
| PyText.StripKeepsFramedPrefix | app.py:184 | a prefix that starts and ends with non-spaces survives stripping, whatever follows it |
| PyText.Lower | app.py:112 | lower-casing keeps the length and maps each character on its own |
| PyText.LowerIdempotent | app.py:112 | lower-casing twice is lower-casing once |
| PyText.LowerEqualIff | app.py:112 | two texts have the same lower-case form exactly when they are equal up to case |
| Models.Parse | models.py:4-13 | a response is accepted exactly when all eight fields are present with their types and 1 <= urgency_level <= 10; the record then holds the response's values and satisfies `DocumentInsight.Valid`, the model of `ge=1, le=10` |
| Models.Encode | models.py:6-13 | the response for a record has exactly the eight field names as keys |
| Models.ParseEncode | models.py:6-13 | every valid record is accepted back unchanged, with or without extra keys: any sentiment, any number of key points, empty lists and empty strings all pass |
| Models.ParseRejectsUrgencyOutOfRange | models.py:10 | a record whose urgency is outside [1,10] is rejected |
| Models.ParseRejectsMissingField | models.py:6-13 | a response missing any one of the eight fields is rejected; none has a default |
| Models.UrgencyEndpoints | models.py:10 | under `DocumentInsight.Valid`, urgency 1 and 10 are valid, 0 and 11 are not |
| DocumentProcessor.JoinPages | document_processor.py:10-12 | the accumulated text is at least one character per page |
| DocumentProcessor.ExtractTextFromPdf | document_processor.py:6-15 | the page loop returns `PdfText`, the model of the function's result: the first failure gives the PDF error string, otherwise the stripped concatenation of each page's text plus a newline |
| DocumentProcessor.JoinPagesIsJoin | document_processor.py:10-12 | the accumulated text equals `"\n".join(pages) + "\n"` for at least one page, and "" for none |
| DocumentProcessor.JoinPagesAppend | document_processor.py:11-12 | page order is kept: the text of two runs of pages is the first run's text followed by the second's |
| DocumentProcessor.PdfEmptyIff | document_processor.py:10-13 | a readable PDF gives "" exactly when every page's text is whitespace only (so also when all pages are empty) |
| DocumentProcessor.PdfFailure | document_processor.py:14-15 | a failure to open the file or to extract any page gives a string starting with "Error reading PDF: " |
| DocumentProcessor.PdfSuccess | document_processor.py:13 | a PDF whose pages all extract gives a result without leading or trailing whitespace |
| DocumentProcessor.ExtractTextFromImage | document_processor.py:17-24 | recognised text comes back as exactly `Strip` of the recognised text, so trimmed and no longer; a failure gives "Error reading image: " plus the message |
| DocumentProcessor.ExtractTextFromTxt | document_processor.py:26-31 | decoded text comes back exactly as decoded (not stripped); a failure gives "Error reading text file: " plus the message |
| DocumentProcessor.RouteOf | document_processor.py:38-47 | PDF exactly for "application/pdf", OCR exactly for types starting with "image/", UTF-8 decoding exactly for "text/plain" |
| DocumentProcessor.ProcessUploadedFile | document_processor.py:33-47 | no upload gives no text and every upload gives some text; "application/pdf" gives `PdfText` of the pages, any "image/" type the OCR extractor's result, "text/plain" the UTF-8 extractor's result, and any other type "Unsupported file type: " plus the type |
| DocumentProcessor.ParameterisedPlainTextUnsupported | document_processor.py:44-47 | "text/plain" followed by any parameters is reported as unsupported |
| DocumentProcessor.AnyImageSubtypeUsesOcr | document_processor.py:42-43 | every "image/" subtype, even an empty one, goes to OCR |
| DocumentProcessor.FailureIsPrefixedString | document_processor.py:33-47 | every failed extraction yields a string that starts with its route's fixed prefix |
| DocumentProcessor.SuccessShape | document_processor.py:13-29 | successful PDF and image results have no surrounding whitespace; text files come back as decoded |
| App.ApiKeyAvailable | app.py:49 | analysis is available exactly when OPENAI_API_KEY is set to a non-empty value |
| App.UploadTakesPrecedence | app.py:176-182 | about `ChosenText`, the model of the text choice: with an upload, the pasted text has no influence and the text is the extractor's result |
| App.PastedTextWithoutUpload | app.py:181-182 | without an upload the text is the pasted text stripped, and "" exactly when the pasted text is blank |
| App.LengthGateBoundary | app.py:184 | about `PassesLengthGate`, the model of the gate: exactly 10 stripped characters are refused, 11 accepted, and surrounding whitespace never counts |
| App.ExtractionErrorsPassGate | app.py:178-184 | every failed extraction's error string passes the length gate and so goes on to analysis |
| App.UrgencyColour | app.py:119 | red exactly from 7, orange exactly for 4..6, green exactly up to 3 |
| App.UrgencyBandsPartition | app.py:119 | the valid range 1..10 splits into 3 green, 3 orange and 4 red levels |
| App.SentimentColour | app.py:108-112 | green, red, blue exactly for lower-cased "positive", "negative", "neutral"; gray exactly otherwise; never orange |
| App.SentimentColourIgnoresCase | app.py:108-112 | sentiments equal up to case get the same colour |
| App.Numbered | app.py:100-101 | every item appears, in order, numbered consecutively from the first number |
| App.NumberItems | app.py:128-129 | the enumerate loop numbers item k as k+1 and keeps every item in order |
| App.SectionShape | app.py:126-141 | an empty action or risk list shows only its notice; a non-empty one lists every item numbered from 1 |
| App.SectionRoundTrip | app.py:136-141 | the items can be read back from a section in order, nothing dropped or duplicated |
| App.RenderAnalysisResults | app.py:79-141 | the rendering loops build exactly the report `ReportOf` specifies |
| App.ContractReminderReport | app.py:108-141 | an urgency-7 "neutral" reminder renders red urgency, blue sentiment, two numbered key points, one action item and one risk |
| App.ScreenFor | app.py:186-195 | a report is shown exactly when the provider answered and the answer validated, and it is `ReportOf` the validated record, with urgency in 1..10; a response that fails validation is shown as `Failed(SchemaRejected)`; a provider failure is shown with its message |
| App.SelectText | app.py:176-182 | the reassigned text equals the chosen text, and the extractor runs exactly when there is an upload |
| App.Analyse | app.py:186-195 | the try block shows what `ScreenFor` specifies for the provider's reply |
| App.AnalyzePressed | app.py:170-199 | no press shows nothing; no credential shows "unavailable" before any extraction or submission; otherwise text is submitted exactly when it passes the gate, and too-short text gets the warning |

## Left out

- agents.py: the agent construction, its fixed instructions and the network call are replaced by the `provider` parameter; clearing the proxy variables is not modelled.
- PyPDF2, PIL, pytesseract and UTF-8 decoding: represented by their results in `UploadedFile`, not modelled.
- Streamlit rendering: page configuration, sidebar text, tabs, columns, spinners, headings, the footer and the HTML colour markup are not modelled. The markdown of a list line (`**i.** item`) is kept as a number and a text.
- `sentiment.title()` in the rendered heading and the `/10` after the urgency are display text and not modelled.
- The asyncio event loop set up and closed around the analysis, and `.env` loading: runtime plumbing, not modelled.
- `if not analysis: return` in `render_analysis_results`: a validated record is always truthy, so the branch is not modelled.
- The text of a schema-validation error is not modelled; it appears as `SchemaRejected`.
- The agent's retries are not modelled: when a structured response fails validation, the agent asks the model again (one retry by default) before it raises. `Responded(fields)` stands for the agent's last response.
- Models.Parse: does not model pydantic's lax coercions (for example the string "7" or the float 7.0 accepted as the integer 7); field values arrive already typed.
- PyText.Lower: lowers ASCII letters only and leaves other characters unchanged. The only non-ASCII characters Python lowers to ASCII are the Kelvin sign (to "k") and the dotted capital I (to two characters). Neither can produce "positive", "negative" or "neutral", so the sentiment colour is unaffected.
