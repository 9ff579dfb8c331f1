/** app.py: what one press of "Analyze Document" does, with the Streamlit
    rendering calls lifted out. What remains is the choice of what to show:
    the credential gate, the choice between an uploaded file and pasted text,
    the minimum-length gate, and, for a finished analysis, the report's
    colours, numbered lists and empty-list notices.

    The hosted model is a parameter `provider`: it maps the submitted text to
    either a failure or a raw structured response, which is then validated
    against the insight record as pydantic does. */
module App {
  import opened Wrappers
  import opened PyText
  import opened Models
  import opened DocumentProcessor

  // ------------------------------------------------------- credential gate

  const ApiKeyVariable := "OPENAI_API_KEY"

  /** `bool(os.getenv("OPENAI_API_KEY"))`: the variable is set and not empty. */
  function ApiKeyAvailable(env: map<string, string>): (ok: bool)
    ensures ok <==> ApiKeyVariable in env && |env[ApiKeyVariable]| > 0
  {
    ApiKeyVariable in env && env[ApiKeyVariable] != ""
  }

  // ------------------------------------------------ text choice and gate

  /** The text the analysis is about: an upload, when there is one, is
      extracted (whatever the pasted text says); otherwise the pasted text,
      stripped, if it is not blank; otherwise "". */
  function ChosenText(upload: Option<UploadedFile>, directText: string): string
  {
    match upload
    case Some(_) => ProcessUploadedFile(upload).value
    case None => if Strip(directText) != "" then Strip(directText) else ""
  }

  const MinimumLength := 10

  /** `text_content and len(text_content.strip()) > 10`. */
  predicate PassesLengthGate(text: string)
  {
    text != "" && |Strip(text)| > MinimumLength
  }

  /** An upload takes precedence over pasted text, which is then ignored. */
  lemma UploadTakesPrecedence(f: UploadedFile, directText: string, otherText: string)
    ensures ChosenText(Some(f), directText) == ChosenText(Some(f), otherText)
    ensures ChosenText(Some(f), directText) == ProcessUploadedFile(Some(f)).value
  {
  }

  /** Without an upload the pasted text is used stripped; blank pasted text
      leaves the text empty. */
  lemma PastedTextWithoutUpload(directText: string)
    ensures ChosenText(None, directText) == Strip(directText)
    ensures ChosenText(None, directText) == "" <==> AllSpace(directText)
  {
    StripEmptyIff(directText);
  }

  /** The gate is strict: ten characters after stripping are refused, eleven
      are accepted, and surrounding whitespace does not count. */
  lemma LengthGateBoundary(text: string)
    ensures |Strip(text)| == MinimumLength ==> !PassesLengthGate(text)
    ensures |Strip(text)| == MinimumLength + 1 ==> PassesLengthGate(text)
    ensures PassesLengthGate(text) <==> PassesLengthGate(Strip(text))
  {
    StripIdempotent(text);
  }

  /** A string that starts with a fixed prefix of more than ten characters
      ending in a non-space followed by one space passes the gate, whatever
      follows it. */
  lemma PrefixedPassesGate(p: string, s: string)
    requires |p| > MinimumLength + 1 && p <= s
    requires !IsSpace(p[0]) && !IsSpace(p[|p| - 2])
    ensures PassesLengthGate(s)
  {
    var head := p[..|p| - 1];
    assert s == head + s[|head|..];
    StripKeepsFramedPrefix(head, s[|head|..]);
  }

  /** Extraction failures are plain strings, so they are not caught by the
      gate: an upload whose extraction failed, for any reason, is sent to the
      language model as the error text itself. */
  lemma ExtractionErrorsPassGate(f: UploadedFile, directText: string)
    requires ExtractionFailed(f)
    ensures PassesLengthGate(ChosenText(Some(f), directText))
  {
    FailureIsPrefixedString(f);
    PrefixedPassesGate(ErrorPrefixOf(f), ChosenText(Some(f), directText));
  }

  // ------------------------------------------------------------ colours

  datatype Colour = Green | Orange | Red | Blue | Gray

  /** The urgency colour: red from 7, orange from 4 to 6, green up to 3. */
  function UrgencyColour(urgency: int): (c: Colour)
    ensures c == Red <==> urgency >= 7
    ensures c == Orange <==> 4 <= urgency <= 6
    ensures c == Green <==> urgency <= 3
  {
    if urgency >= 7 then Red else if urgency >= 4 then Orange else Green
  }

  /** The three bands split the valid range 1..10 into 1..3, 4..6 and 7..10:
      3 green, 3 orange and 4 red levels. */
  lemma {:induction false} UrgencyBandsPartition()
    ensures |set u | 1 <= u <= 10 && UrgencyColour(u) == Green| == 3
    ensures |set u | 1 <= u <= 10 && UrgencyColour(u) == Orange| == 3
    ensures |set u | 1 <= u <= 10 && UrgencyColour(u) == Red| == 4
  {
    assert (set u | 1 <= u <= 10 && UrgencyColour(u) == Green) == {1, 2, 3};
    assert (set u | 1 <= u <= 10 && UrgencyColour(u) == Orange) == {4, 5, 6};
    assert (set u | 1 <= u <= 10 && UrgencyColour(u) == Red) == {7, 8, 9, 10};
  }

  /** The sentiment colour, looked up on the lower-cased sentiment:
      positive, negative and neutral have their own colour, anything else is
      gray. */
  function SentimentColour(sentiment: string): (c: Colour)
    ensures c == Green <==> Lower(sentiment) == "positive"
    ensures c == Red <==> Lower(sentiment) == "negative"
    ensures c == Blue <==> Lower(sentiment) == "neutral"
    ensures c == Gray <==> Lower(sentiment) !in {"positive", "negative", "neutral"}
    ensures c != Orange
  {
    var key := Lower(sentiment);
    if key == "positive" then Green
    else if key == "negative" then Red
    else if key == "neutral" then Blue
    else Gray
  }

  /** The lookup ignores case: sentiments equal up to case share a colour. */
  lemma SentimentColourIgnoresCase(s: string, t: string)
    requires EqualIgnoringCase(s, t)
    ensures SentimentColour(s) == SentimentColour(t)
    ensures SentimentColour(Lower(s)) == SentimentColour(s)
  {
    LowerEqualIff(s, t);
    LowerIdempotent(s);
  }

  // ----------------------------------------------------- numbered lists

  /** One rendered list line, `**{number}.** {text}`. */
  datatype NumberedLine = NumberedLine(number: nat, text: string)

  /** `enumerate(items, first)`: the items in order, numbered consecutively
      from `first`. */
  function Numbered(items: seq<string>, first: nat): (lines: seq<NumberedLine>)
    ensures |lines| == |items|
    ensures forall k :: 0 <= k < |items| ==> lines[k] == NumberedLine(first + k, items[k])
  {
    if items == [] then [] else [NumberedLine(first, items[0])] + Numbered(items[1..], first + 1)
  }

  /** The `for i, item in enumerate(items, 1)` loop of the report. */
  method NumberItems(items: seq<string>) returns (lines: seq<NumberedLine>)
    ensures |lines| == |items|
    ensures forall k :: 0 <= k < |items| ==> lines[k].number == k + 1 && lines[k].text == items[k]
    ensures lines == Numbered(items, 1)
  {
    lines := [];
    var i := 0;
    while i < |items|
      invariant 0 <= i <= |items|
      invariant |lines| == i
      invariant forall k :: 0 <= k < i ==> lines[k] == NumberedLine(k + 1, items[k])
    {
      lines := lines + [NumberedLine(i + 1, items[i])];
      i := i + 1;
    }
  }

  /** A list section of the report: the numbered items, or a fixed notice
      when the list is empty. */
  datatype ListSection = Listed(lines: seq<NumberedLine>) | NoneIdentified(notice: string)

  const NoActionItemsNotice := "No specific action items identified."
  const NoRisksNotice := "No significant risks identified."

  function Section(items: seq<string>, notice: string): ListSection
  {
    if items == [] then NoneIdentified(notice) else Listed(Numbered(items, 1))
  }

  // ------------------------------------------------------------- report

  /** What `render_analysis_results` shows of an insight. Key points have
      no empty-list notice: an empty list shows only its heading. */
  datatype Report = Report(
    documentType: string,
    mainTopic: string,
    summary: string,
    keyPoints: seq<NumberedLine>,
    sentiment: string,
    sentimentColour: Colour,
    urgencyLevel: int,
    urgencyColour: Colour,
    actionItems: ListSection,
    risks: ListSection)

  function ReportOf(d: DocumentInsight): Report
  {
    Report(d.documentType, d.mainTopic, d.summary, Numbered(d.keyPoints, 1),
           d.sentiment, SentimentColour(d.sentiment), d.urgencyLevel, UrgencyColour(d.urgencyLevel),
           Section(d.actionItems, NoActionItemsNotice), Section(d.potentialRisks, NoRisksNotice))
  }

  /** `render_analysis_results`, building the report with the three
      numbering loops. */
  method RenderAnalysisResults(d: DocumentInsight) returns (r: Report)
    ensures r == ReportOf(d)
  {
    var keyPoints := NumberItems(d.keyPoints);
    var actions: ListSection;
    if d.actionItems != [] {
      var lines := NumberItems(d.actionItems);
      actions := Listed(lines);
    } else {
      actions := NoneIdentified(NoActionItemsNotice);
    }
    var risks: ListSection;
    if d.potentialRisks != [] {
      var lines := NumberItems(d.potentialRisks);
      risks := Listed(lines);
    } else {
      risks := NoneIdentified(NoRisksNotice);
    }
    r := Report(d.documentType, d.mainTopic, d.summary, keyPoints,
                d.sentiment, SentimentColour(d.sentiment), d.urgencyLevel, UrgencyColour(d.urgencyLevel),
                actions, risks);
  }

  /** Lists with items show every item, in order, numbered from 1; an empty
      action or risk list shows its notice and nothing else. */
  lemma SectionShape(items: seq<string>, notice: string)
    ensures Section(items, notice).NoneIdentified? <==> items == []
    ensures Section(items, notice).NoneIdentified? ==> Section(items, notice).notice == notice
    ensures Section(items, notice).Listed? ==>
              |Section(items, notice).lines| == |items| &&
              forall k :: 0 <= k < |items| ==>
                Section(items, notice).lines[k] == NumberedLine(k + 1, items[k])
  {
  }

  /** The item texts of a list section can be read back in order: nothing is
      dropped, duplicated or reordered. */
  function SectionItems(s: ListSection): seq<string>
  {
    match s
    case Listed(lines) => seq(|lines|, k requires 0 <= k < |lines| => lines[k].text)
    case NoneIdentified(_) => []
  }

  lemma SectionRoundTrip(items: seq<string>, notice: string)
    ensures SectionItems(Section(items, notice)) == items
  {
    if items != [] {
      var s := Section(items, notice);
      assert |SectionItems(s)| == |items|;
      forall k | 0 <= k < |items| ensures SectionItems(s)[k] == items[k] {
      }
    }
  }

  /** A contract reminder rated 7 renders with red urgency, one numbered
      action item and one numbered risk, and its "neutral" sentiment in blue. */
  lemma ContractReminderReport()
    ensures var d := DocumentInsight("email", "contract deadline",
                                     ["deadline Friday", "discount at risk"], "neutral", 7,
                                     ["review contract"],
                                     "Reminder to review a contract before a discount deadline.",
                                     ["losing discount"]);
            var r := ReportOf(d);
            r.urgencyColour == Red && r.sentimentColour == Blue &&
            r.keyPoints == [NumberedLine(1, "deadline Friday"), NumberedLine(2, "discount at risk")] &&
            r.actionItems == Listed([NumberedLine(1, "review contract")]) &&
            r.risks == Listed([NumberedLine(1, "losing discount")])
  {
  }

  // ------------------------------------------------------- one button press

  /** Why an analysis failed: the provider call raised (network, credentials,
      rate limit), or its response did not validate against the record. */
  datatype AnalysisError = ProviderError(message: string) | SchemaRejected

  /** What the hosted model gives back for one request. */
  datatype Reply = ProviderFailed(message: string) | Responded(fields: RawRecord)

  /** What the results column shows after the press. */
  datatype Screen =
    | Idle                       // the button was not pressed
    | Unavailable                // "AI Analysis is currently unavailable"
    | TooShortWarning            // "... (minimum 10 characters)"
    | Failed(error: AnalysisError)  // "Error during analysis: ..."
    | Shown(report: Report)

  /** What an analysis reply leads to: a validated record is rendered, any
      failure is shown as an analysis error. */
  function ScreenFor(reply: Reply): (s: Screen)
    ensures s.Shown? <==> reply.Responded? && Parse(reply.fields).Some?
    ensures s.Shown? ==> s.report == ReportOf(Parse(reply.fields).value)
    ensures s.Shown? ==> s.report.urgencyLevel in {1, 2, 3, 4, 5, 6, 7, 8, 9, 10}
    ensures reply.Responded? && Parse(reply.fields).None? ==> s == Failed(SchemaRejected)
    ensures reply.ProviderFailed? ==> s == Failed(ProviderError(reply.message))
  {
    match reply
    case ProviderFailed(m) => Failed(ProviderError(m))
    case Responded(fields) =>
      match Parse(fields)
      case None => Failed(SchemaRejected)
      case Some(d) => Shown(ReportOf(d))
  }

  /** The text-selection steps of `main`: `text_content` starts empty and
      is reassigned from the upload or from the pasted text. */
  method SelectText(upload: Option<UploadedFile>, directText: string)
    returns (textContent: string, extracted: bool)
    ensures textContent == ChosenText(upload, directText)
    ensures extracted == upload.Some?
  {
    textContent, extracted := "", false;
    if upload.Some? {
      extracted := true;
      var processed := ProcessUploadedFile(upload);
      textContent := processed.value;
    } else if Strip(directText) != "" {
      textContent := Strip(directText);
    }
  }

  /** The `try` block of `main`: run the analysis and render its result, or
      show the error it raised. */
  method Analyse(textContent: string, provider: string -> Reply) returns (screen: Screen)
    ensures screen == ScreenFor(provider(textContent))
  {
    var reply := provider(textContent);
    if reply.ProviderFailed? {
      screen := Failed(ProviderError(reply.message));
    } else {
      var parsed := Parse(reply.fields);
      if parsed.Some? {
        var report := RenderAnalysisResults(parsed.value);
        screen := Shown(report);
      } else {
        screen := Failed(SchemaRejected);
      }
    }
  }

  /** `main` after the button press: check the credential, choose the text
      (an upload is extracted; pasted text is stripped), apply the length
      gate, then analyse and render. `extracted` records whether the file was
      handed to the extractor, `submitted` the text sent to the model. */
  method AnalyzePressed(env: map<string, string>, pressed: bool, upload: Option<UploadedFile>,
              directText: string, provider: string -> Reply)
    returns (screen: Screen, extracted: bool, submitted: Option<string>)
    ensures !pressed ==> screen == Idle && !extracted && submitted == None
    ensures pressed && !ApiKeyAvailable(env) ==> screen == Unavailable && !extracted && submitted == None
    ensures pressed && ApiKeyAvailable(env) ==> extracted == upload.Some?
    ensures submitted.Some? <==> pressed && ApiKeyAvailable(env) && PassesLengthGate(ChosenText(upload, directText))
    ensures submitted.Some? ==> submitted.value == ChosenText(upload, directText) &&
                                screen == ScreenFor(provider(submitted.value))
    ensures pressed && ApiKeyAvailable(env) && submitted.None? ==> screen == TooShortWarning
  {
    screen, extracted, submitted := Idle, false, None;
    if !pressed {
      return;
    }
    if !ApiKeyAvailable(env) {
      screen := Unavailable;
      return;
    }
    var textContent;
    textContent, extracted := SelectText(upload, directText);
    if textContent != "" && |Strip(textContent)| > MinimumLength {
      submitted := Some(textContent);
      screen := Analyse(textContent, provider);
    } else {
      screen := TooShortWarning;
    }
  }
}
