/** The candidate contract: decoding a model's arguments against a document, and the encoder that inverts it. */
module CandidateContract {
  import opened Prelude
  import opened CandidateMeaning
  import opened ClosedSchema
  import opened SpanLocator
  import opened SpanText
  import Utf8

  // ---- the contract's own rules

  function AllOf(names: seq<string>): (r: seq<Text>)
    ensures |r| == |names| && forall i :: 0 <= i < |r| ==> r[i] == T(names[i])
  {
    seq(|names|, i requires 0 <= i < |names| => T(names[i]))
  }

  const EVIDENCE_ERROR := "EVIDENCE_ARGUMENT_SHAPE_INVALID"
  const CALCULATION_ERROR := "CALCULATION_ARGUMENT_SHAPE_INVALID"
  const ARGUMENT_ERROR := "TOOL_ARGUMENT_SHAPE_INVALID"

  function Free(error: string): Rule { StringRule(error, None, None) }

  function OneOf(error: string, names: seq<string>): Rule { StringRule(error, None, Some(AllOf(names))) }

  function EvidenceRule(): Rule
  {
    ObjectRule([
      Field("evidence_id", OneOf(EVIDENCE_ERROR, EVIDENCE_IDS)), Field("exact_span", Free(EVIDENCE_ERROR)),
      Field("metric", OneOf(EVIDENCE_ERROR, METRICS)), Field("metric_basis", OneOf(EVIDENCE_ERROR, METRIC_BASES)),
      Field("period", Free(EVIDENCE_ERROR)), Field("value", Free(EVIDENCE_ERROR)),
      Field("currency", OneOf(EVIDENCE_ERROR, CURRENCIES)), Field("unit", OneOf(EVIDENCE_ERROR, UNITS)),
      Field("scale", OneOf(EVIDENCE_ERROR, SCALES)), Field("sign", OneOf(EVIDENCE_ERROR, SIGNS))], EVIDENCE_ERROR)
  }

  function CalculationRule(): Rule
  {
    ObjectRule([
      Field("operation", OneOf(CALCULATION_ERROR, OPERATIONS)),
      Field("operand_ids", ArrayRule(OneOf(CALCULATION_ERROR, EVIDENCE_IDS), 2, CALCULATION_ERROR)),
      Field("output_unit", OneOf(CALCULATION_ERROR, OUTPUT_UNITS)),
      Field("quantize", StringRule(CALCULATION_ERROR, Some(T("0.01")), None))], CALCULATION_ERROR)
  }

  function ArgumentRule(): Rule
  {
    ObjectRule([Field("evidence", ArrayRule(EvidenceRule(), 2, EVIDENCE_ERROR)),
                Field("calculation", CalculationRule())],
               ARGUMENT_ERROR)
  }

  lemma {:induction false} EvidenceWellFormed()
    ensures WellFormed(EvidenceRule())
  {
  }

  lemma {:induction false} CalculationWellFormed()
    ensures WellFormed(CalculationRule())
  {
  }

  lemma {:induction false} ArgumentWellFormed()
    ensures WellFormed(ArgumentRule())
  {
    EvidenceWellFormed();
    CalculationWellFormed();
    hide EvidenceRule, CalculationRule;
  }

  // ---- what each rule accepts

  /** An object whose ten fields are all strings. */
  predicate EvidenceShape(v: Json)
  {
    v.JObject? && EvidenceKeys(v.fields) && forall k :: k in v.fields ==> v.fields[k].JString?
  }

  lemma {:induction false} ChoiceFits(error: string, names: seq<string>, v: Json)
    ensures Fits(OneOf(error, names), v) <==> Chosen(v, names)
  {
    StringAgrees(error, None, Some(AllOf(names)), v);
    ShownIs(v);
    hide Fits, Blank, T, Shown;
    if v.JString? {
      var listed := AllOf(names);
      if Chosen(v, names) {
        var i :| 0 <= i < |names| && v.text == T(names[i]);
        assert listed[i] == v.text;
      }
    }
  }

  lemma {:induction false} FreeFits(error: string, v: Json)
    ensures Fits(Free(error), v) <==> Shown(v)
  {
    StringAgrees(error, None, None, v);
    ShownIs(v);
    hide Fits, Blank, Shown;
  }

  lemma {:induction false} ConstantFits(error: string, t: Text, v: Json)
    ensures Fits(StringRule(error, Some(t), None), v) <==> Shown(v) && v.text == t
  {
    StringAgrees(error, Some(t), None, v);
    ShownIs(v);
    hide Fits, Blank, Shown;
  }

  lemma {:induction false} DecodesAnObject(rule: Rule, v: Json)
    requires rule.ObjectRule? && Fits(rule, v)
    ensures v.JObject?
  {
    assert HasType("object", v);
  }

  /** The evidence rule, member by member. */
  lemma {:induction false} EvidenceMembers()
    ensures EvidenceRule().ObjectRule? && |EvidenceRule().members| == 10
    ensures var m := EvidenceRule().members;
            && m[0] == Field("evidence_id", OneOf(EVIDENCE_ERROR, EVIDENCE_IDS))
            && m[1] == Field("exact_span", Free(EVIDENCE_ERROR))
            && m[2] == Field("metric", OneOf(EVIDENCE_ERROR, METRICS))
            && m[3] == Field("metric_basis", OneOf(EVIDENCE_ERROR, METRIC_BASES))
            && m[4] == Field("period", Free(EVIDENCE_ERROR)) && m[5] == Field("value", Free(EVIDENCE_ERROR))
            && m[6] == Field("currency", OneOf(EVIDENCE_ERROR, CURRENCIES))
            && m[7] == Field("unit", OneOf(EVIDENCE_ERROR, UNITS))
            && m[8] == Field("scale", OneOf(EVIDENCE_ERROR, SCALES))
            && m[9] == Field("sign", OneOf(EVIDENCE_ERROR, SIGNS))
  {
  }

  predicate KeysAre(names: seq<string>, f: map<string, Json>)
  {
    (forall k :: k in f ==> k in names) && forall i :: 0 <= i < |names| ==> names[i] in f
  }

  lemma {:induction false} NamesListed(m: seq<Field>, names: seq<string>, f: map<string, Json>)
    requires |m| == |names| && forall i :: 0 <= i < |m| ==> m[i].name == names[i]
    ensures SameNames(m, f) <==> KeysAre(names, f)
  {
    forall k ensures Names(m, k) <==> k in names {
      if Names(m, k) {
        var i :| 0 <= i < |m| && m[i].name == k;
        assert names[i] == k;
      }
      if k in names {
        var i :| 0 <= i < |names| && names[i] == k;
        assert m[i].name == k;
      }
    }
    hide Names;
    if SameNames(m, f) {
      forall i | 0 <= i < |names| ensures names[i] in f { assert m[i].name in f; }
    }
  }

  const EVIDENCE_FIELDS: seq<string> :=
    ["evidence_id", "exact_span", "metric", "metric_basis", "period", "value", "currency", "unit", "scale", "sign"]

  lemma {:induction false} KeysListed(f: map<string, Json>)
    ensures KeysAre(EVIDENCE_FIELDS, f) <==> EvidenceKeys(f)
  {
    var names := EVIDENCE_FIELDS;
    if KeysAre(names, f) {
      assert names[0] in f && names[1] in f && names[2] in f && names[3] in f && names[4] in f;
      assert names[5] in f && names[6] in f && names[7] in f && names[8] in f && names[9] in f;
    }
  }

  /** Members fit when each of the ten does. */
  predicate EachFits(m: seq<Field>, f: map<string, Json>)
    requires SameNames(m, f)
  {
    forall i :: 0 <= i < |m| ==> Fits(m[i].rule, f[m[i].name])
  }

  lemma {:induction false} FitTen(m: seq<Field>, f: map<string, Json>)
    requires |m| == 10 && SameNames(m, f)
    ensures EachFits(m, f) <==>
              && Fits(m[0].rule, f[m[0].name]) && Fits(m[1].rule, f[m[1].name]) && Fits(m[2].rule, f[m[2].name])
              && Fits(m[3].rule, f[m[3].name]) && Fits(m[4].rule, f[m[4].name]) && Fits(m[5].rule, f[m[5].name])
              && Fits(m[6].rule, f[m[6].name]) && Fits(m[7].rule, f[m[7].name]) && Fits(m[8].rule, f[m[8].name])
              && Fits(m[9].rule, f[m[9].name])
  {
    hide Fits, Names;
  }

  /** The evidence rule accepts exactly the evidence objects. */
  lemma {:induction false} EvidenceIff(v: Json)
    ensures Fits(EvidenceRule(), v) <==> EvidenceAllowed(v)
  {
    hide Fits, EvidenceRule, SameNames, EvidenceKeys, KeysAre, Chosen, Shown, OneOf, Free, EachFits;
    EvidenceMembers();
    var rule := EvidenceRule();
    var m := rule.members;
    if v.JObject? {
      var f := v.fields;
      ObjectIs(rule, f);
      NamesListed(m, EVIDENCE_FIELDS, f);
      KeysListed(f);
      if SameNames(m, f) {
        KeysTen(f);
        FitTen(m, f);
        TenIs(f);
      }
    } else if Fits(rule, v) {
      DecodesAnObject(rule, v);
    }
  }

  lemma {:induction false} ObjectIs(rule: Rule, f: map<string, Json>)
    requires rule.ObjectRule?
    ensures Fits(rule, JObject(f)) <==> SameNames(rule.members, f) && EachFits(rule.members, f)
  {
    ObjectFits(rule.members, rule.error, f);
    hide Fits, SameNames;
  }

  lemma {:induction false} KeysTen(f: map<string, Json>)
    requires EvidenceKeys(f)
    ensures "evidence_id" in f && "exact_span" in f && "metric" in f && "metric_basis" in f && "period" in f
    ensures "value" in f && "currency" in f && "unit" in f && "scale" in f && "sign" in f
  {
  }

  lemma {:induction false} TenIs(f: map<string, Json>)
    requires EvidenceKeys(f)
    ensures Fits(OneOf(EVIDENCE_ERROR, EVIDENCE_IDS), f["evidence_id"]) <==> Chosen(f["evidence_id"], EVIDENCE_IDS)
    ensures Fits(Free(EVIDENCE_ERROR), f["exact_span"]) <==> Shown(f["exact_span"])
    ensures Fits(OneOf(EVIDENCE_ERROR, METRICS), f["metric"]) <==> Chosen(f["metric"], METRICS)
    ensures Fits(OneOf(EVIDENCE_ERROR, METRIC_BASES), f["metric_basis"]) <==> Chosen(f["metric_basis"], METRIC_BASES)
    ensures Fits(Free(EVIDENCE_ERROR), f["period"]) <==> Shown(f["period"])
    ensures Fits(Free(EVIDENCE_ERROR), f["value"]) <==> Shown(f["value"])
    ensures Fits(OneOf(EVIDENCE_ERROR, CURRENCIES), f["currency"]) <==> Chosen(f["currency"], CURRENCIES)
    ensures Fits(OneOf(EVIDENCE_ERROR, UNITS), f["unit"]) <==> Chosen(f["unit"], UNITS)
    ensures Fits(OneOf(EVIDENCE_ERROR, SCALES), f["scale"]) <==> Chosen(f["scale"], SCALES)
    ensures Fits(OneOf(EVIDENCE_ERROR, SIGNS), f["sign"]) <==> Chosen(f["sign"], SIGNS)
  {
    hide *;
    KeysTen(f);
    ChoiceFits(EVIDENCE_ERROR, EVIDENCE_IDS, f["evidence_id"]);
    FreeFits(EVIDENCE_ERROR, f["exact_span"]);
    ChoiceFits(EVIDENCE_ERROR, METRICS, f["metric"]);
    ChoiceFits(EVIDENCE_ERROR, METRIC_BASES, f["metric_basis"]);
    FreeFits(EVIDENCE_ERROR, f["period"]);
    FreeFits(EVIDENCE_ERROR, f["value"]);
    ChoiceFits(EVIDENCE_ERROR, CURRENCIES, f["currency"]);
    ChoiceFits(EVIDENCE_ERROR, UNITS, f["unit"]);
    ChoiceFits(EVIDENCE_ERROR, SCALES, f["scale"]);
    ChoiceFits(EVIDENCE_ERROR, SIGNS, f["sign"]);
  }

  lemma {:induction false} EvidenceFits(v: Json)
    requires Fits(EvidenceRule(), v)
    ensures EvidenceShape(v) && EvidenceAllowed(v) && !Blank(v.fields["exact_span"].text)
  {
    EvidenceIff(v);
    hide Fits, EvidenceRule, Blank, T, Chosen, Shown;
    var f := v.fields;
    ShownIs(f["exact_span"]);
    ShownIs(f["period"]);
    ShownIs(f["value"]);
    ChosenText(f["evidence_id"], EVIDENCE_IDS);
    ChosenText(f["metric"], METRICS);
    ChosenText(f["metric_basis"], METRIC_BASES);
    ChosenText(f["currency"], CURRENCIES);
    ChosenText(f["unit"], UNITS);
    ChosenText(f["scale"], SCALES);
    ChosenText(f["sign"], SIGNS);
    hide EvidenceAllowed;
    AllTexts(f);
  }

  lemma {:induction false} ChosenText(v: Json, names: seq<string>)
    ensures Chosen(v, names) ==> v.JString?
  {
    hide T;
  }

  lemma {:induction false} AllTexts(f: map<string, Json>)
    requires EvidenceKeys(f)
    requires f["evidence_id"].JString? && f["exact_span"].JString? && f["metric"].JString?
    requires f["metric_basis"].JString? && f["period"].JString? && f["value"].JString? && f["currency"].JString?
    requires f["unit"].JString? && f["scale"].JString? && f["sign"].JString?
    ensures forall k :: k in f ==> f[k].JString?
  {
  }

  lemma {:induction false} DecodesAnArray(item: Rule, length: nat, error: string, v: Json)
    requires Fits(ArrayRule(item, length, error), v)
    ensures v.JArray? && |v.items| == length && forall i :: 0 <= i < length ==> Fits(item, v.items[i])
  {
    assert HasType("array", v);
    ArrayFits(item, length, error, v.items);
  }

  lemma {:induction false} CalculationMembers()
    ensures CalculationRule().ObjectRule? && |CalculationRule().members| == 4
    ensures var m := CalculationRule().members;
            && m[0] == Field("operation", OneOf(CALCULATION_ERROR, OPERATIONS))
            && m[1] == Field("operand_ids", ArrayRule(OneOf(CALCULATION_ERROR, EVIDENCE_IDS), 2, CALCULATION_ERROR))
            && m[2] == Field("output_unit", OneOf(CALCULATION_ERROR, OUTPUT_UNITS))
            && m[3] == Field("quantize", StringRule(CALCULATION_ERROR, Some(T("0.01")), None))
  {
  }

  const CALCULATION_FIELDS: seq<string> := ["operation", "operand_ids", "output_unit", "quantize"]

  lemma {:induction false} KeysFour(f: map<string, Json>)
    ensures KeysAre(CALCULATION_FIELDS, f) <==> CalculationKeys(f)
  {
    var names := CALCULATION_FIELDS;
    if KeysAre(names, f) { assert names[0] in f && names[1] in f && names[2] in f && names[3] in f; }
  }

  lemma {:induction false} FitFour(m: seq<Field>, f: map<string, Json>)
    requires |m| == 4 && SameNames(m, f)
    ensures EachFits(m, f) <==>
              && Fits(m[0].rule, f[m[0].name]) && Fits(m[1].rule, f[m[1].name]) && Fits(m[2].rule, f[m[2].name])
              && Fits(m[3].rule, f[m[3].name])
  {
    hide Fits, Names;
  }

  /** The calculation rule accepts exactly the calculation objects. */
  lemma {:induction false} CalculationIff(v: Json)
    ensures Fits(CalculationRule(), v) <==> CalculationAllowed(v)
  {
    hide Fits, CalculationRule, SameNames, KeysAre, Chosen, Shown, OneOf, EachFits, T;
    CalculationMembers();
    var rule := CalculationRule();
    var m := rule.members;
    if v.JObject? {
      var f := v.fields;
      ObjectIs(rule, f);
      NamesListed(m, CALCULATION_FIELDS, f);
      KeysFour(f);
      if SameNames(m, f) {
        FitFour(m, f);
        ChoiceFits(CALCULATION_ERROR, OPERATIONS, f["operation"]);
        OperandsFit(f["operand_ids"]);
        ChoiceFits(CALCULATION_ERROR, OUTPUT_UNITS, f["output_unit"]);
        ConstantFits(CALCULATION_ERROR, T("0.01"), f["quantize"]);
      }
    } else if Fits(rule, v) {
      DecodesAnObject(rule, v);
    }
  }

  lemma {:induction false} OperandsFit(v: Json)
    ensures Fits(ArrayRule(OneOf(CALCULATION_ERROR, EVIDENCE_IDS), 2, CALCULATION_ERROR), v)
            <==> v.JArray? && |v.items| == 2 && Chosen(v.items[0], EVIDENCE_IDS) && Chosen(v.items[1], EVIDENCE_IDS)
  {
    hide Fits, Chosen, OneOf;
    var item := OneOf(CALCULATION_ERROR, EVIDENCE_IDS);
    if v.JArray? {
      ArrayFits(item, 2, CALCULATION_ERROR, v.items);
      if |v.items| == 2 {
        ChoiceFits(CALCULATION_ERROR, EVIDENCE_IDS, v.items[0]);
        ChoiceFits(CALCULATION_ERROR, EVIDENCE_IDS, v.items[1]);
      }
    } else if Fits(ArrayRule(item, 2, CALCULATION_ERROR), v) {
      DecodesAnArray(item, 2, CALCULATION_ERROR, v);
    }
  }

  /** What the schema promises of accepted arguments. */
  predicate ArgumentShape(v: Json)
  {
    && v.JObject? && "evidence" in v.fields && "calculation" in v.fields
    && (forall k :: k in v.fields ==> k == "evidence" || k == "calculation")
    && v.fields["evidence"].JArray? && |v.fields["evidence"].items| == 2
    && Fits(EvidenceRule(), v.fields["evidence"].items[0]) && Fits(EvidenceRule(), v.fields["evidence"].items[1])
    && Fits(CalculationRule(), v.fields["calculation"])
  }

  lemma {:induction false} ArgumentMembers()
    ensures var m := ArgumentRule().members;
            && |m| == 2 && m[0] == Field("evidence", ArrayRule(EvidenceRule(), 2, EVIDENCE_ERROR))
            && m[1] == Field("calculation", CalculationRule())
    ensures ArgumentRule().ObjectRule?
  {
    hide EvidenceRule, CalculationRule;
  }

  lemma {:induction false} EvidencePair(v: Json)
    ensures Fits(ArrayRule(EvidenceRule(), 2, EVIDENCE_ERROR), v)
            <==> v.JArray? && |v.items| == 2 && Fits(EvidenceRule(), v.items[0]) && Fits(EvidenceRule(), v.items[1])
  {
    hide Fits, EvidenceRule;
    if v.JArray? {
      ArrayFits(EvidenceRule(), 2, EVIDENCE_ERROR, v.items);
    } else if Fits(ArrayRule(EvidenceRule(), 2, EVIDENCE_ERROR), v) {
      DecodesAnArray(EvidenceRule(), 2, EVIDENCE_ERROR, v);
    }
  }

  /** Accepted arguments are exactly those of that shape. */
  lemma {:induction false} ArgumentFits(v: Json)
    ensures Fits(ArgumentRule(), v) <==> ArgumentShape(v)
  {
    ArgumentMembers();
    hide Fits, EvidenceRule, CalculationRule, ArgumentRule;
    var rule := ArgumentRule();
    var m := rule.members;
    if v.JObject? {
      ObjectFits(m, rule.error, v.fields);
      NamesTwo(m, v.fields);
      if "evidence" in v.fields { EvidencePair(v.fields["evidence"]); }
    } else if Fits(rule, v) {
      DecodesAnObject(rule, v);
    }
  }

  lemma {:induction false} NamesTwo(m: seq<Field>, fields: map<string, Json>)
    requires |m| == 2 && m[0].name == "evidence" && m[1].name == "calculation"
    ensures SameNames(m, fields) <==>
              "evidence" in fields && "calculation" in fields && forall k :: k in fields ==>
                k == "evidence" || k == "calculation"
  {
    forall k ensures Names(m, k) <==> k == "evidence" || k == "calculation" {
      if k == "evidence" { assert m[0].name == k; }
      if k == "calculation" { assert m[1].name == k; }
    }
    if SameNames(m, fields) { assert m[0].name in fields && m[1].name in fields; }
  }

  // ---- decode

  /** One evidence item, found in the document and decoded. */
  function EvidenceOf(v: Json, doc: Utf8.Bytes): Result<Evidence>
    requires Fits(EvidenceRule(), v)
  {
    EvidenceFits(v);
    var f := v.fields;
    var span := f["exact_span"].text;
    if !Utf8.AllScalar(span) then Err(EVIDENCE_ERROR)
    else
      NotBlankBytes(span);
      match Locate(Utf8.Encoded(span), doc)
      case Err(e) => Err(e)
      case Ok(r) => Ok(EvidenceAt(f, r))
  }

  function EvidenceAt(f: map<string, Json>, r: Region): Evidence
    requires EvidenceShape(JObject(f))
  {
    Evidence(f["evidence_id"].text, r.start, r.end, f["metric"].text, f["metric_basis"].text, f["period"].text,
             f["value"].text, f["currency"].text, f["unit"].text, f["scale"].text, f["sign"].text)
  }

  function CalculationOf(v: Json): Calculation
    requires Fits(CalculationRule(), v)
  {
    CalculationIff(v);
    var f := v.fields;
    Calculation(f["operation"].text, [f["operand_ids"].items[0].text, f["operand_ids"].items[1].text],
                f["output_unit"].text, f["quantize"].text)
  }

  function DecodeCandidate(arguments: Json, doc: Utf8.Bytes): Result<Candidate>
  {
    var decoded := Decode(ArgumentRule(), arguments);
    if decoded.Err? then Err(decoded.reason)
    else
      ArgumentWellFormed();
      DecodesExactly(ArgumentRule(), arguments);
      ArgumentFits(arguments);
      var items := decoded.value.fields["evidence"].items;
      var a, b := EvidenceOf(items[0], doc), EvidenceOf(items[1], doc);
      if a.Err? then Err(a.reason) else if b.Err? then Err(b.reason)
      else Ok(Candidate([a.value, b.value], CalculationOf(decoded.value.fields["calculation"])))
  }

  // ---- encode

  function EvidenceJson(e: Evidence, span: Text): Json
  {
    JObject(map[
      "evidence_id" := JString(e.evidenceId), "exact_span" := JString(span), "metric" := JString(e.metric),
      "metric_basis" := JString(e.basis), "period" := JString(e.period), "value" := JString(e.value),
      "currency" := JString(e.currency), "unit" := JString(e.unit), "scale" := JString(e.scale),
      "sign" := JString(e.sign)])
  }

  /** One evidence payload: the document's own bytes as text. */
  function Payload(e: Evidence, doc: Utf8.Bytes): Result<Json>
  {
    if !(e.start < e.end <= |doc|) then Err(EVIDENCE_ERROR)
    else
      match Utf8.Decode(doc[e.start..e.end])
      case None => Err(EVIDENCE_ERROR)
      case Some(span) => Ok(EvidenceJson(e, span))
  }

  function Payloads(evidence: seq<Evidence>, doc: Utf8.Bytes): Result<seq<Json>>
  {
    if evidence == [] then Ok([])
    else
      match Payloads(evidence[..|evidence| - 1], doc)
      case Err(e) => Err(e)
      case Ok(before) =>
        match Payload(evidence[|evidence| - 1], doc)
        case Err(e) => Err(e)
        case Ok(last) => Ok(before + [last])
  }

  function TextItems(texts: seq<Text>): (r: seq<Json>)
    ensures |r| == |texts| && forall i :: 0 <= i < |r| ==> r[i] == JString(texts[i])
  {
    seq(|texts|, i requires 0 <= i < |texts| => JString(texts[i]))
  }

  function CalculationJson(c: Calculation): Json
  {
    JObject(map["operation" := JString(c.operation), "operand_ids" := JArray(TextItems(c.operandIds)),
                "output_unit" := JString(c.outputUnit), "quantize" := JString(c.quantize)])
  }

  function ArgumentsJson(payloads: seq<Json>, c: Calculation): Json
  {
    JObject(map["evidence" := JArray(payloads), "calculation" := CalculationJson(c)])
  }

  /** The canonical response object, before it is decoded again. */
  function Rebuilt(c: Candidate, doc: Utf8.Bytes): Result<Json>
  {
    match Payloads(c.evidence, doc)
    case Err(e) => Err(e)
    case Ok(payloads) => Ok(ArgumentsJson(payloads, c.calculation))
  }

  /** encode: rebuild, decode again, and refuse anything that does not come back as itself. */
  method EncodeCandidate(c: Candidate, doc: Utf8.Bytes) returns (r: Result<Json>)
    ensures r.Ok? <==> exists v: Json :: IsCandidate(c, v, doc)
    ensures r.Ok? ==> IsCandidate(c, r.value, doc) && QuotesDocument(c, r.value, doc)
    ensures r.Ok? <==> Encodable(c, doc)
    ensures r.Ok? ==> r == Rebuilt(c, doc)
  {
    EncodesIff(c, doc);
    hide Payload, DecodeCandidate, IsCandidate, QuotesDocument;
    var payloads := [];
    for i := 0 to |c.evidence|
      invariant Payloads(c.evidence[..i], doc) == Ok(payloads)
    {
      assert c.evidence[..i + 1][..i] == c.evidence[..i];
      var payload := Payload(c.evidence[i], doc);
      if payload.Err? {
        PayloadsStop(c.evidence, doc, i + 1);
        return Err(payload.reason);
      }
      payloads := payloads + [payload.value];
    }
    assert c.evidence[..|c.evidence|] == c.evidence;
    var arguments := ArgumentsJson(payloads, c.calculation);
    var decoded := DecodeCandidate(arguments, doc);
    if decoded.Err? { return Err(decoded.reason); }
    if decoded.value != c { return Err("TOOL_ARGUMENT_CANDIDATE_MISMATCH"); }
    r := Ok(arguments);
  }

  /** A refused payload refuses the whole list. */
  lemma {:induction false} PayloadsStop(evidence: seq<Evidence>, doc: Utf8.Bytes, n: nat)
    decreases |evidence| - n
    requires n <= |evidence| && Payloads(evidence[..n], doc).Err?
    ensures Payloads(evidence, doc).Err?
  {
    if n < |evidence| {
      assert evidence[..n + 1][..n] == evidence[..n];
      PayloadsStop(evidence, doc, n + 1);
    } else {
      assert evidence[..n] == evidence;
    }
  }

  // ---- the round trip

  lemma {:induction false} StillShows(t: Text, u: Text)
    requires !Blank(t) && forall c :: c in t && !IsSpace(c) ==> c in u
    ensures !Blank(u)
  {
    var i :| 0 <= i < |t| && !IsBlankPoint(t[i]);
    if IsSpace(t[i]) { SpaceIsBlank(t[i]); }
    assert t[i] in t;
    assert t[i] in u;
    var j :| 0 <= j < |u| && u[j] == t[i];
  }

  /**
   * However the span was found, its region reads as text that shows something and is located again at the same
   * place.
   */
  lemma {:induction false} RegionText(span: Text, doc: Utf8.Bytes) returns (t: Text)
    requires Utf8.AllScalar(span) && !Blank(span) && !AllSpace(Utf8.Encoded(span))
          && Locate(Utf8.Encoded(span), doc).Ok?
    ensures var r := Locate(Utf8.Encoded(span), doc).value;
            && r.start < r.end <= |doc| && Utf8.Decode(doc[r.start..r.end]) == Some(t)
            && Utf8.AllScalar(t) && !Blank(t) && Utf8.Encoded(t) == doc[r.start..r.end] && !AllSpace(Utf8.Encoded(t))
            && Locate(Utf8.Encoded(t), doc) == Ok(r)
  {
    hide *;
    var b := Utf8.Encoded(span);
    var r := Locate(b, doc).value;
    if Find(b, doc, 0).Some? {
      FoundOnce(b, doc);
      t := span;
    } else {
      MatchedOnce(b, doc);
      WordsEncoded(span);
      WordsNonempty(Words(span), Words(b));
      t := SpelledText(Words(span), Words(b), doc, r.start, r.end);
      forall c | c in span && !IsSpace(c) ensures c in t {
        PointInWords(span, c);
      }
      StillShows(span, t);
    }
    Utf8.RoundTrip(t);
    NotBlankBytes(t);
    OnlyAtInside(doc, r);
    LocateAgain(doc, r);
  }

  lemma {:induction false} WordsNonempty(words: seq<Text>, coded: seq<Utf8.Bytes>)
    requires ScalarWords(words) && SameWords(words, coded) && coded != []
    ensures words != []
  {
  }

  lemma {:induction false} OnlyAtInside(doc: Utf8.Bytes, r: Region)
    requires OnlyAt(doc, r)
    ensures r.start < r.end <= |doc|
  {
  }

  /** Another text in the free span field is accepted just as well. */
  lemma {:induction false} SpanReplaced(f: map<string, Json>, t: Text)
    requires Fits(EvidenceRule(), JObject(f)) && !Blank(t) && "exact_span" in f
    ensures Fits(EvidenceRule(), JObject(f["exact_span" := JString(t)]))
  {
    hide Fits, EvidenceRule, Blank;
    EvidenceMembers();
    SpanMember();
    ShownIs(JString(t));
    FreeFits(EVIDENCE_ERROR, JString(t));
    FieldReplaced(EvidenceRule().members, EvidenceRule().error, f, "exact_span", JString(t));
  }

  lemma {:induction false} SpanMember()
    ensures forall i :: 0 <= i < |EvidenceRule().members| && EvidenceRule().members[i].name == "exact_span" ==>
              EvidenceRule().members[i].rule == Free(EVIDENCE_ERROR)
  {
  }

  /** The payload is the decoded object with the document's own text for its span. */
  lemma {:induction false} PayloadIs(f: map<string, Json>, r: Region, t: Text)
    requires EvidenceShape(JObject(f))
    ensures EvidenceJson(EvidenceAt(f, r), t) == JObject(f["exact_span" := JString(t)])
  {
    var a, b := EvidenceJson(EvidenceAt(f, r), t).fields, f["exact_span" := JString(t)];
    forall k ensures k in a <==> k in b {
    }
    assert a == b;
  }

  /** When an evidence object is accepted, and as what. */
  lemma {:induction false} EvidenceIs(v: Json, doc: Utf8.Bytes)
    requires Fits(EvidenceRule(), v)
    ensures EvidenceShape(v) && !Blank(v.fields["exact_span"].text)
    ensures var span := v.fields["exact_span"].text;
            && (Utf8.AllScalar(span) ==> !AllSpace(Utf8.Encoded(span)))
            && (EvidenceOf(v, doc).Ok? <==> Utf8.AllScalar(span) && Locate(Utf8.Encoded(span), doc).Ok?)
            && (EvidenceOf(v, doc).Ok? ==>
                  EvidenceOf(v, doc).value == EvidenceAt(v.fields, Locate(Utf8.Encoded(span), doc).value))
  {
    EvidenceFits(v);
    hide Fits, EvidenceRule, Locate, Utf8.Encoded, Blank, Utf8.AllScalar, AllSpace, EvidenceAt;
    if Utf8.AllScalar(v.fields["exact_span"].text) { NotBlankBytes(v.fields["exact_span"].text); }
  }

  lemma {:induction false} PayloadOf(e: Evidence, doc: Utf8.Bytes, t: Text)
    requires e.start < e.end <= |doc| && Utf8.Decode(doc[e.start..e.end]) == Some(t)
    ensures Payload(e, doc) == Ok(EvidenceJson(e, t))
  {
    hide EvidenceJson;
  }

  lemma {:induction false} PlacedAt(f: map<string, Json>, r: Region)
    requires EvidenceShape(JObject(f))
    ensures EvidenceAt(f, r).start == r.start && EvidenceAt(f, r).end == r.end
  {
  }

  /** One evidence item comes back from its own payload. */
  lemma {:induction false} EvidenceAgain(v: Json, doc: Utf8.Bytes)
    requires Fits(EvidenceRule(), v) && EvidenceOf(v, doc).Ok?
    ensures var p := Payload(EvidenceOf(v, doc).value, doc);
            p.Ok? && Fits(EvidenceRule(), p.value) && EvidenceOf(p.value, doc) == EvidenceOf(v, doc)
  {
    hide *;
    EvidenceIs(v, doc);
    ShapeHasSpan(v);
    var f := v.fields;
    var span := f["exact_span"].text;
    var r := Locate(Utf8.Encoded(span), doc).value;
    var t := RegionText(span, doc);
    PlacedAt(f, r);
    PayloadOf(EvidenceAt(f, r), doc, t);
    PayloadIs(f, r, t);
    SpanReplaced(f, t);
    var g := f["exact_span" := JString(t)];
    EvidenceIs(JObject(g), doc);
    SameButSpan(f, g, r);
  }

  lemma {:induction false} ShapeHasSpan(v: Json)
    requires EvidenceShape(v)
    ensures v.JObject? && "exact_span" in v.fields && v.fields["exact_span"].JString?
  {
  }

  lemma {:induction false} SameButSpan(f: map<string, Json>, g: map<string, Json>, r: Region)
    requires EvidenceShape(JObject(f)) && EvidenceShape(JObject(g))
    requires forall k :: k in f && k != "exact_span" ==> k in g && g[k] == f[k]
    ensures EvidenceAt(f, r) == EvidenceAt(g, r)
  {
  }

  lemma {:induction false} CalculationAgain(v: Json)
    requires Fits(CalculationRule(), v)
    ensures CalculationJson(CalculationOf(v)) == v
  {
    CalculationIff(v);
    hide Fits, CalculationRule;
    var ids := v.fields["operand_ids"];
    assert TextItems([ids.items[0].text, ids.items[1].text]) == ids.items;
    var a := CalculationJson(CalculationOf(v)).fields;
    forall k ensures k in a <==> k in v.fields {
    }
    assert a == v.fields;
  }

  /** The two evidence items and the calculation decide the whole. */
  lemma {:induction false} DecodeIs(v: Json, doc: Utf8.Bytes)
    ensures DecodeCandidate(v, doc).Ok? ==> ArgumentShape(v)
    ensures ArgumentShape(v) ==>
              var items := v.fields["evidence"].items;
              var a, b := EvidenceOf(items[0], doc), EvidenceOf(items[1], doc);
              && (DecodeCandidate(v, doc).Ok? <==> a.Ok? && b.Ok?)
              && (a.Ok? && b.Ok? ==>
                    DecodeCandidate(v, doc).value
                      == Candidate([a.value, b.value], CalculationOf(v.fields["calculation"])))
  {
    ArgumentWellFormed();
    DecodesExactly(ArgumentRule(), v);
    ArgumentFits(v);
    hide Fits, EvidenceRule, CalculationRule, ArgumentRule, EvidenceOf, CalculationOf, Decode;
  }

  lemma {:induction false} RebuiltShape(a: Json, b: Json, c: Calculation)
    requires Fits(EvidenceRule(), a) && Fits(EvidenceRule(), b) && Fits(CalculationRule(), CalculationJson(c))
    ensures var again := ArgumentsJson([a, b], c);
            && ArgumentShape(again) && again.fields["evidence"].items == [a, b]
            && again.fields["calculation"] == CalculationJson(c)
  {
    hide Fits, EvidenceRule, CalculationRule, CalculationJson;
  }

  /** Whatever decodes can be encoded, and the encoding decodes to the same candidate. */
  lemma {:induction false} CandidateRoundTrip(arguments: Json, doc: Utf8.Bytes)
    requires DecodeCandidate(arguments, doc).Ok?
    ensures var c := DecodeCandidate(arguments, doc).value;
            Rebuilt(c, doc).Ok? && DecodeCandidate(Rebuilt(c, doc).value, doc) == Ok(c)
  {
    DecodeIs(arguments, doc);
    hide Fits, EvidenceRule, CalculationRule, EvidenceOf, Payload, CalculationJson, CalculationOf, DecodeCandidate,
         ArgumentsJson, Payloads;
    var items, calculation := arguments.fields["evidence"].items, arguments.fields["calculation"];
    EvidenceAgain(items[0], doc);
    EvidenceAgain(items[1], doc);
    CalculationAgain(calculation);
    var c := DecodeCandidate(arguments, doc).value;
    var a, b := Payload(c.evidence[0], doc).value, Payload(c.evidence[1], doc).value;
    PayloadsTwo(c.evidence, doc);
    RebuiltShape(a, b, c.calculation);
    DecodeIs(ArgumentsJson([a, b], c.calculation), doc);
  }

  lemma {:induction false} PayloadsTwo(evidence: seq<Evidence>, doc: Utf8.Bytes)
    requires |evidence| == 2 && Payload(evidence[0], doc).Ok? && Payload(evidence[1], doc).Ok?
    ensures Payloads(evidence, doc) == Ok([Payload(evidence[0], doc).value, Payload(evidence[1], doc).value])
  {
    hide Payload;
    var first := evidence[..1];
    assert first[..0] == [] && first[0] == evidence[0];
    var p, q := Payload(evidence[0], doc).value, Payload(evidence[1], doc).value;
    assert [] + [p] == [p] && [p] + [q] == [p, q];
    assert Payloads(first[..0], doc) == Ok([]);
    assert Payloads(first, doc) == Ok([p]);
  }

  ghost predicate Decodable(c: Candidate, doc: Utf8.Bytes) { exists v: Json :: DecodeCandidate(v, doc) == Ok(c) }

  /** The rebuilt object decodes to the candidate it was built from: encode's own condition. */
  predicate Encodable(c: Candidate, doc: Utf8.Bytes)
  {
    Rebuilt(c, doc).Ok? && DecodeCandidate(Rebuilt(c, doc).value, doc) == Ok(c)
  }

  /** The encoder accepts exactly the candidates some arguments decode to. */
  lemma {:induction false} EncodableIff(c: Candidate, doc: Utf8.Bytes)
    ensures Encodable(c, doc) <==> Decodable(c, doc)
  {
    hide DecodeCandidate, Rebuilt;
    if Encodable(c, doc) {
      var v := Rebuilt(c, doc).value;
      assert DecodeCandidate(v, doc) == Ok(c);
    }
    if Decodable(c, doc) {
      var v: Json :| DecodeCandidate(v, doc) == Ok(c);
      CandidateRoundTrip(v, doc);
    }
  }

  // ---- what decoding and encoding mean, field by field

  /** One evidence object decodes to the evidence that carries its fields and its region, and to nothing else. */
  lemma {:induction false} EvidenceMeans(v: Json, doc: Utf8.Bytes, e: Evidence)
    requires Fits(EvidenceRule(), v)
    ensures EvidenceAllowed(v) && (EvidenceOf(v, doc) == Ok(e) <==> IsEvidence(e, v, doc))
  {
    EvidenceIff(v);
    EvidenceIs(v, doc);
    hide Fits, EvidenceRule, EvidenceOf, EvidenceAllowed, Utf8.Encoded, Utf8.AllScalar, Locate, AllSpace, Blank,
         IsRegion;
    var span := v.fields["exact_span"].text;
    if Utf8.AllScalar(span) {
      LocatedIs(Utf8.Encoded(span), doc, Region(e.start, e.end));
    }
  }

  lemma {:induction false} CalculationMeans(v: Json, c: Calculation)
    requires Fits(CalculationRule(), v)
    ensures CalculationAllowed(v) && (CalculationOf(v) == c <==> IsCalculation(c, v))
  {
    CalculationIff(v);
    hide Fits, CalculationRule, CalculationAllowed;
  }

  lemma {:induction false} ArgumentsIff(v: Json)
    ensures ArgumentShape(v) <==> ArgumentsAllowed(v)
  {
    hide Fits, EvidenceRule, CalculationRule, EvidenceAllowed, CalculationAllowed;
    if v.JObject? && "evidence" in v.fields && "calculation" in v.fields && v.fields["evidence"].JArray?
       && |v.fields["evidence"].items| == 2 {
      EvidenceIff(v.fields["evidence"].items[0]);
      EvidenceIff(v.fields["evidence"].items[1]);
      CalculationIff(v.fields["calculation"]);
    }
  }

  /** Arguments decode to exactly the candidate they are about, and decode at all exactly when there is one. */
  lemma {:induction false} DecodedIff(v: Json, doc: Utf8.Bytes, c: Candidate)
    ensures DecodeCandidate(v, doc) == Ok(c) <==> IsCandidate(c, v, doc)
  {
    hide *;
    DecodeIs(v, doc);
    ArgumentsIff(v);
    if ArgumentShape(v) { DecodedParts(v, doc, c); } else { NotArguments(v, doc, c); }
  }

  lemma {:induction false} NotArguments(v: Json, doc: Utf8.Bytes, c: Candidate)
    requires !ArgumentsAllowed(v)
    ensures !IsCandidate(c, v, doc)
  {
    hide ArgumentsAllowed;
  }

  lemma {:induction false} DecodedParts(v: Json, doc: Utf8.Bytes, c: Candidate)
    requires ArgumentShape(v) && ArgumentsAllowed(v)
    ensures DecodeCandidate(v, doc) == Ok(c) <==> IsCandidate(c, v, doc)
  {
    DecodeIs(v, doc);
    hide Fits, EvidenceRule, CalculationRule, EvidenceOf, CalculationOf, DecodeCandidate, EvidenceAllowed,
         CalculationAllowed, IsEvidence, IsCalculation;
    var items, calculation := v.fields["evidence"].items, v.fields["calculation"];
    if |c.evidence| == 2 {
      EvidenceMeans(items[0], doc, c.evidence[0]);
      EvidenceMeans(items[1], doc, c.evidence[1]);
      CalculationMeans(calculation, c.calculation);
      assert c == Candidate([c.evidence[0], c.evidence[1]], c.calculation);
    }
  }

  /** A candidate can be encoded exactly when some arguments are about it, and its encoding quotes the document. */
  lemma {:induction false} EncodesIff(c: Candidate, doc: Utf8.Bytes)
    ensures Encodable(c, doc) <==> exists v: Json :: IsCandidate(c, v, doc)
    ensures Encodable(c, doc) ==> var v := Rebuilt(c, doc).value; IsCandidate(c, v, doc) && QuotesDocument(c, v, doc)
  {
    EncodableIff(c, doc);
    hide DecodeCandidate, Rebuilt, IsCandidate, QuotesDocument;
    forall v: Json ensures DecodeCandidate(v, doc) == Ok(c) <==> IsCandidate(c, v, doc) { DecodedIff(v, doc, c); }
    if Encodable(c, doc) { RebuiltQuotes(c, doc, Rebuilt(c, doc).value); }
  }

  lemma {:induction false} PayloadQuotes(e: Evidence, doc: Utf8.Bytes)
    requires Payload(e, doc).Ok? && EvidenceAllowed(Payload(e, doc).value)
    ensures Quotes(e, Payload(e, doc).value, doc)
  {
    hide EvidenceAllowed, Utf8.Encoded, Utf8.AllScalar, Utf8.Decode;
    Utf8.DecodeUnique(doc[e.start..e.end]);
  }

  lemma {:induction false} RebuiltQuotes(c: Candidate, doc: Utf8.Bytes, v: Json)
    requires Rebuilt(c, doc) == Ok(v) && IsCandidate(c, v, doc)
    ensures QuotesDocument(c, v, doc)
  {
    hide Payload, EvidenceAllowed, CalculationAllowed, Quotes, IsEvidence, IsCalculation, Payloads, CalculationJson;
    PayloadsEach(c.evidence, doc, 0);
    PayloadsEach(c.evidence, doc, 1);
    PayloadQuotes(c.evidence[0], doc);
    PayloadQuotes(c.evidence[1], doc);
  }

  lemma {:induction false} PayloadsEach(evidence: seq<Evidence>, doc: Utf8.Bytes, i: nat)
    requires Payloads(evidence, doc).Ok? && i < |evidence|
    ensures |Payloads(evidence, doc).value| == |evidence|
    ensures Payload(evidence[i], doc) == Ok(Payloads(evidence, doc).value[i])
  {
    hide Payload;
    var n := |evidence| - 1;
    if n > 0 { PayloadsEach(evidence[..n], doc, if i < n then i else 0); }
  }
}
