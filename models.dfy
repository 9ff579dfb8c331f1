/** The `DocumentInsight` record of models.py: eight required fields, of which
    only `urgency_level` carries a constraint (an integer from 1 to 10). The
    other "expected" shapes (3-5 key points, a sentiment from a fixed list,
    2-3 sentences of summary) are descriptions for the language model and are
    not checked. */
module Models {
  import opened Wrappers

  datatype DocumentInsight = DocumentInsight(
    documentType: string,
    mainTopic: string,
    keyPoints: seq<string>,
    sentiment: string,
    urgencyLevel: int,
    actionItems: seq<string>,
    summary: string,
    potentialRisks: seq<string>)
  {
    /** The record's only constraint: `ge=1, le=10` on the urgency level. */
    predicate Valid()
    {
      1 <= urgencyLevel <= 10
    }
  }

  /** A field value as it arrives in the model's structured response. */
  datatype FieldValue = Text(text: string) | Integer(number: int) | TextList(items: seq<string>)

  type RawRecord = map<string, FieldValue>

  const DocumentTypeKey := "document_type"
  const MainTopicKey := "main_topic"
  const KeyPointsKey := "key_points"
  const SentimentKey := "sentiment"
  const UrgencyLevelKey := "urgency_level"
  const ActionItemsKey := "action_items"
  const SummaryKey := "summary"
  const PotentialRisksKey := "potential_risks"

  /** The eight field names; none of them has a default. */
  function RequiredKeys(): set<string>
  {
    {DocumentTypeKey, MainTopicKey, KeyPointsKey, SentimentKey,
     UrgencyLevelKey, ActionItemsKey, SummaryKey, PotentialRisksKey}
  }

  predicate HasText(raw: RawRecord, key: string)
  {
    key in raw && raw[key].Text?
  }

  predicate HasInteger(raw: RawRecord, key: string)
  {
    key in raw && raw[key].Integer?
  }

  predicate HasTextList(raw: RawRecord, key: string)
  {
    key in raw && raw[key].TextList?
  }

  /** Every required field is present with the declared type. */
  predicate WellTyped(raw: RawRecord)
  {
    HasText(raw, DocumentTypeKey) && HasText(raw, MainTopicKey) &&
    HasTextList(raw, KeyPointsKey) && HasText(raw, SentimentKey) &&
    HasInteger(raw, UrgencyLevelKey) && HasTextList(raw, ActionItemsKey) &&
    HasText(raw, SummaryKey) && HasTextList(raw, PotentialRisksKey)
  }

  /** Every field of `d` appears in `raw` with the same value. */
  predicate Carries(raw: RawRecord, d: DocumentInsight)
  {
    forall k :: k in Encode(d) ==> k in raw && raw[k] == Encode(d)[k]
  }

  /** Validation of a response against the record: it succeeds exactly when
      every field is present with its type and the urgency level is in range;
      the fields of the record are those of the response, and keys the record
      does not declare are ignored. */
  function Parse(raw: RawRecord): (r: Option<DocumentInsight>)
    ensures r.Some? <==> WellTyped(raw) && 1 <= raw[UrgencyLevelKey].number <= 10
    ensures r.Some? ==> r.value.Valid() && Carries(raw, r.value)
  {
    if !WellTyped(raw) then None
    else
      var d := DocumentInsight(
        raw[DocumentTypeKey].text, raw[MainTopicKey].text, raw[KeyPointsKey].items,
        raw[SentimentKey].text, raw[UrgencyLevelKey].number, raw[ActionItemsKey].items,
        raw[SummaryKey].text, raw[PotentialRisksKey].items);
      if d.Valid() then Some(d) else None
  }

  /** The response that carries exactly the fields of `d`. */
  function Encode(d: DocumentInsight): (raw: RawRecord)
    ensures raw.Keys == RequiredKeys()
  {
    map[DocumentTypeKey := Text(d.documentType), MainTopicKey := Text(d.mainTopic),
        KeyPointsKey := TextList(d.keyPoints), SentimentKey := Text(d.sentiment),
        UrgencyLevelKey := Integer(d.urgencyLevel), ActionItemsKey := TextList(d.actionItems),
        SummaryKey := Text(d.summary), PotentialRisksKey := TextList(d.potentialRisks)]
  }

  /** Every valid record is accepted back unchanged: nothing beyond the urgency
      range is constrained, so any sentiment text, any number of key points
      and empty lists or strings all pass. Extra keys do not matter either. */
  lemma ParseEncode(d: DocumentInsight, extra: RawRecord)
    requires d.Valid()
    ensures Parse(Encode(d)) == Some(d)
    ensures Parse(extra + Encode(d)) == Some(d)
  {
    var raw := extra + Encode(d);
    assert raw[UrgencyLevelKey] == Integer(d.urgencyLevel);
    assert WellTyped(raw);
    assert WellTyped(Encode(d));
  }

  /** An out-of-range urgency is rejected, whatever the other fields say. */
  lemma ParseRejectsUrgencyOutOfRange(d: DocumentInsight)
    requires !d.Valid()
    ensures Parse(Encode(d)) == None
  {
  }

  /** A response that lacks any one of the eight fields is rejected. */
  lemma ParseRejectsMissingField(raw: RawRecord, key: string)
    requires key in RequiredKeys() && key !in raw
    ensures Parse(raw) == None
  {
  }

  /** Both ends of the urgency range are accepted, the values just outside
      are not. */
  lemma UrgencyEndpoints(d: DocumentInsight)
    ensures d.(urgencyLevel := 1).Valid() && d.(urgencyLevel := 10).Valid()
    ensures !d.(urgencyLevel := 0).Valid() && !d.(urgencyLevel := 11).Valid()
  {
  }
}
