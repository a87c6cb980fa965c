/** What candidate arguments are and what a candidate says of them, field by field, without a rule or a decoder. */
module CandidateMeaning {
  import opened Prelude
  import opened ClosedSchema
  import opened SpanLocator
  import Utf8

  // ---- candidates

  datatype Evidence = Evidence(
    evidenceId: Text, start: nat, end: nat, metric: Text, basis: Text, period: Text, value: Text, currency: Text,
    unit: Text, scale: Text, sign: Text)

  datatype Calculation = Calculation(operation: Text, operandIds: seq<Text>, outputUnit: Text, quantize: Text)

  datatype Candidate = Candidate(evidence: seq<Evidence>, calculation: Calculation)

  // ---- the words a field may hold

  function T(s: string): (t: Text)
    ensures |t| == |s|
  {
    seq(|s|, i requires 0 <= i < |s| => s[i] as int)
  }

  const EVIDENCE_IDS := ["current", "comparison"]
  const METRICS := [
    "revenue", "segment_revenue", "gross_profit", "operating_income", "profit_for_the_year",
    "profit_attributable_to_equity_holders", "basic_eps", "diluted_eps", "total_assets", "total_liabilities",
    "total_equity", "sales_volume", "share_count", "other"]
  const METRIC_BASES := ["REPORTED", "ADJUSTED"]
  const UNITS := ["MONETARY", "PER_SHARE", "PER_DEPOSITARY_SHARE", "COUNT", "PERCENT"]
  const CURRENCIES := [
    "RMB", "USD", "HKD", "EUR", "GBP", "JPY", "CNY", "SGD", "AUD", "CAD", "CHF", "KRW", "TWD", "INR", "NONE"]
  const SCALES := ["UNIT", "THOUSAND", "MILLION", "BILLION"]
  const SIGNS := ["POSITIVE", "NEGATIVE"]
  const OUTPUT_UNITS := ["PERCENT", "MONETARY", "PER_SHARE", "PER_DEPOSITARY_SHARE", "COUNT"]
  const OPERATIONS := ["growth_rate_percent", "absolute_change", "ratio_percent"]

  /** The white space of Unicode, with the four separators below the space. */
  const WHITE: set<int> := {
    9, 10, 11, 12, 13, 28, 29, 30, 31, 32, 133, 160, 5760, 8192, 8193, 8194, 8195, 8196, 8197, 8198, 8199, 8200, 8201,
    8202, 8232, 8233, 8239, 8287, 12288}

  /** A text that shows something. */
  predicate Shown(v: Json) { v.JString? && exists i :: 0 <= i < |v.text| && v.text[i] !in WHITE }

  lemma {:induction false} ShownIs(v: Json)
    ensures Shown(v) <==> v.JString? && !Blank(v.text)
  {
    forall c: int ensures IsBlankPoint(c) <==> c in WHITE {
    }
    hide IsBlankPoint;
  }

  /** One of the listed words. */
  predicate Chosen(v: Json, names: seq<string>)
  {
    Shown(v) && exists i :: 0 <= i < |names| && v.text == T(names[i])
  }

  // ---- arguments

  predicate EvidenceKeys(f: map<string, Json>)
  {
    && "evidence_id" in f && "exact_span" in f && "metric" in f && "metric_basis" in f && "period" in f && "value" in f
    && "currency" in f && "unit" in f && "scale" in f && "sign" in f
    && forall k :: k in f ==>
         k in ["evidence_id", "exact_span", "metric", "metric_basis", "period", "value", "currency", "unit", "scale",
               "sign"]
  }

  /** An evidence object: ten strings, seven of them from a list. */
  predicate EvidenceAllowed(v: Json)
  {
    && v.JObject? && EvidenceKeys(v.fields)
    && Chosen(v.fields["evidence_id"], EVIDENCE_IDS) && Shown(v.fields["exact_span"])
    && Chosen(v.fields["metric"], METRICS) && Chosen(v.fields["metric_basis"], METRIC_BASES)
    && Shown(v.fields["period"]) && Shown(v.fields["value"]) && Chosen(v.fields["currency"], CURRENCIES)
    && Chosen(v.fields["unit"], UNITS) && Chosen(v.fields["scale"], SCALES) && Chosen(v.fields["sign"], SIGNS)
  }

  predicate CalculationKeys(f: map<string, Json>)
  {
    && "operation" in f && "operand_ids" in f && "output_unit" in f && "quantize" in f
    && forall k :: k in f ==> k in ["operation", "operand_ids", "output_unit", "quantize"]
  }

  /** A calculation object: an operation on two evidence items, its unit, and one fixed rounding. */
  predicate CalculationAllowed(v: Json)
  {
    && v.JObject? && CalculationKeys(v.fields)
    && Chosen(v.fields["operation"], OPERATIONS) && Chosen(v.fields["output_unit"], OUTPUT_UNITS)
    && Shown(v.fields["quantize"]) && v.fields["quantize"].text == T("0.01")
    && v.fields["operand_ids"].JArray? && |v.fields["operand_ids"].items| == 2
    && Chosen(v.fields["operand_ids"].items[0], EVIDENCE_IDS) && Chosen(v.fields["operand_ids"].items[1], EVIDENCE_IDS)
  }

  /** Two evidence objects and one calculation. */
  predicate ArgumentsAllowed(v: Json)
  {
    && v.JObject? && "evidence" in v.fields && "calculation" in v.fields
    && (forall k :: k in v.fields ==> k == "evidence" || k == "calculation")
    && v.fields["evidence"].JArray? && |v.fields["evidence"].items| == 2
    && EvidenceAllowed(v.fields["evidence"].items[0]) && EvidenceAllowed(v.fields["evidence"].items[1])
    && CalculationAllowed(v.fields["calculation"])
  }

  // ---- what a candidate says of them

  /**
   * The region a span names: its only occurrence byte for byte, or, when there is none, the only place its words
   * are spelled from.
   */
  ghost predicate IsRegion(span: Utf8.Bytes, doc: Utf8.Bytes, r: Region)
  {
    if exists i :: OccursAt(span, doc, i) then
      OccursAt(span, doc, r.start) && r.end == r.start + |span| && forall i :: OccursAt(span, doc, i) ==> i == r.start
    else
      Words(span) != [] && Spells(Words(span), doc, r.start, r.end)
      && forall i: nat, end: nat :: Spells(Words(span), doc, i, end) ==> i == r.start
  }

  /** Each field of the evidence is the member of its own name; the two offsets are the region of the span. */
  ghost predicate IsEvidence(e: Evidence, v: Json, doc: Utf8.Bytes)
    requires EvidenceAllowed(v)
  {
    var f := v.fields;
    && e.evidenceId == f["evidence_id"].text && e.metric == f["metric"].text && e.basis == f["metric_basis"].text
    && e.period == f["period"].text && e.value == f["value"].text && e.currency == f["currency"].text
    && e.unit == f["unit"].text && e.scale == f["scale"].text && e.sign == f["sign"].text
    && Utf8.AllScalar(f["exact_span"].text)
    && IsRegion(Utf8.Encoded(f["exact_span"].text), doc, Region(e.start, e.end))
  }

  predicate IsCalculation(c: Calculation, v: Json)
    requires CalculationAllowed(v)
  {
    var f := v.fields;
    && c.operation == f["operation"].text && c.outputUnit == f["output_unit"].text && c.quantize == f["quantize"].text
    && c.operandIds == [f["operand_ids"].items[0].text, f["operand_ids"].items[1].text]
  }

  /** The candidate that some arguments are about one document. */
  ghost predicate IsCandidate(c: Candidate, v: Json, doc: Utf8.Bytes)
  {
    && ArgumentsAllowed(v) && |c.evidence| == 2
    && IsEvidence(c.evidence[0], v.fields["evidence"].items[0], doc)
    && IsEvidence(c.evidence[1], v.fields["evidence"].items[1], doc)
    && IsCalculation(c.calculation, v.fields["calculation"])
  }

  /** The span of an evidence object is the document's own bytes. */
  ghost predicate Quotes(e: Evidence, v: Json, doc: Utf8.Bytes)
    requires EvidenceAllowed(v)
  {
    var span := v.fields["exact_span"].text;
    e.start < e.end <= |doc| && Utf8.AllScalar(span) && Utf8.Encoded(span) == doc[e.start..e.end]
  }

  ghost predicate QuotesDocument(c: Candidate, v: Json, doc: Utf8.Bytes)
    requires ArgumentsAllowed(v) && |c.evidence| == 2
  {
    && Quotes(c.evidence[0], v.fields["evidence"].items[0], doc)
    && Quotes(c.evidence[1], v.fields["evidence"].items[1], doc)
  }

  // ---- the region is the located one

  lemma {:induction false} FoundIs(span: Utf8.Bytes, doc: Utf8.Bytes, r: Region)
    requires !AllSpace(span) && Find(span, doc, 0).Some?
    ensures Locate(span, doc) == Ok(r) <==> IsRegion(span, doc, r)
  {
    hide Words, MatchAt, Spells, OccursAt, AllSpace;
    var first := Find(span, doc, 0).value;
    var next := Find(span, doc, first + 1);
    NoneBefore(span, doc);
    assert OccursAt(span, doc, first);
    if next.None? {
      assert forall i :: OccursAt(span, doc, i) ==> i == first;
    } else {
      assert OccursAt(span, doc, next.value);
    }
  }

  /** Unique by its words: what the second search finds or does not find. */
  lemma {:induction false} SpelledIs(span: Utf8.Bytes, doc: Utf8.Bytes, r: Region)
    requires !AllSpace(span) && Find(span, doc, 0).None? && Words(span) != [] && ProperWords(Words(span))
    ensures Locate(span, doc) == Ok(r) <==> IsRegion(span, doc, r)
  {
    hide MatchAt, Spells, OccursAt, AllSpace, Words, ProperWords;
    NoneBefore(span, doc);
    var words := Words(span);
    if Locate(span, doc) == Ok(r) {
      MatchSpells(words, doc, r.start);
      forall i: nat, end: nat | Spells(words, doc, i, end) ensures i == r.start {
        SpellsMatch(words, doc, i, end);
        LeftmostOnly(span, doc, i);
      }
    }
    if IsRegion(span, doc, r) {
      SpellsMatch(words, doc, r.start, r.end);
      forall i: nat | MatchAt(words, doc, i).Some? ensures i == r.start { MatchSpells(words, doc, i); }
    }
  }

  /** Locating finds the region a span names, and refuses a span that names none. */
  lemma {:induction false} LocatedIs(span: Utf8.Bytes, doc: Utf8.Bytes, r: Region)
    requires !AllSpace(span)
    ensures Locate(span, doc) == Ok(r) <==> IsRegion(span, doc, r)
  {
    hide *;
    WordsProper(span);
    if Find(span, doc, 0).Some? { FoundIs(span, doc, r); } else { SpelledIs(span, doc, r); }
  }
}
