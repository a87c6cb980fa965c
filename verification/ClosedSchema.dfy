/** One closed rule set, read two ways: as the decoder and as the JSON Schema sent to the model runtime. */
module ClosedSchema {
  import opened Prelude

  datatype Json =
    | JString(text: Text)
    | JArray(items: seq<Json>)
    | JObject(fields: map<string, Json>)
    | JNumber(value: real)
    | JBool(flag: bool)
    | JNull

  // ---- the rules

  datatype Field = Field(name: string, rule: Rule)

  datatype Rule =
    | StringRule(error: string, constant: Option<Text>, allowed: Option<seq<Text>>)
    | ArrayRule(item: Rule, length: nat, error: string)
    | ObjectRule(members: seq<Field>, error: string)

  predicate Names(members: seq<Field>, name: string) { exists i :: 0 <= i < |members| && members[i].name == name }

  /** No object names a field twice. */
  predicate WellFormed(rule: Rule)
  {
    match rule
    case StringRule(_, _, _) => true
    case ArrayRule(item, _, _) => WellFormed(item)
    case ObjectRule(members, _) =>
      && (forall i, j :: 0 <= i < j < |members| ==> members[i].name != members[j].name)
      && forall i :: 0 <= i < |members| ==> WellFormed(members[i].rule)
  }

  // ---- decoding by rule

  /** The code points that stripping a text removes. */
  predicate IsBlankPoint(c: int)
  {
    9 <= c <= 13 || 28 <= c <= 32 || c == 0x85 || c == 0xA0 || c == 0x1680 || 0x2000 <= c <= 0x200A
    || c == 0x2028 || c == 0x2029 || c == 0x202F || c == 0x205F || c == 0x3000
  }

  predicate Blank(t: Text) { forall i :: 0 <= i < |t| ==> IsBlankPoint(t[i]) }

  const NOT_ALLOWLISTED := "TOOL_ARGUMENT_NOT_ALLOWLISTED"

  function Decode(rule: Rule, v: Json): Result<Json>
    decreases rule, 0
  {
    match rule
    case StringRule(error, constant, allowed) =>
      if !v.JString? || Blank(v.text) then Err(error)
      else if constant.Some? && v.text != constant.value then Err(NOT_ALLOWLISTED)
      else if allowed.Some? && v.text !in allowed.value then Err(NOT_ALLOWLISTED)
      else Ok(v)
    case ArrayRule(item, length, error) =>
      if !v.JArray? || |v.items| != length then Err(error)
      else
        var items := DecodeItems(item, v.items, rule);
        if items.Err? then Err(items.reason) else Ok(JArray(items.value))
    case ObjectRule(members, error) =>
      if !v.JObject? || !(forall k :: k in v.fields ==> Names(members, k))
         || !(forall i :: 0 <= i < |members| ==> members[i].name in v.fields) then Err(error)
      else
        var fields := DecodeFields(members, |members|, v.fields, rule);
        if fields.Err? then Err(fields.reason) else Ok(JObject(fields.value))
  }

  /** Every item of a list, decoded by the item rule. */
  function DecodeItems(item: Rule, items: seq<Json>, owner: Rule): Result<seq<Json>>
    requires owner.ArrayRule? && owner.item == item
    decreases owner, 0, |items|
  {
    if items == [] then Ok([])
    else
      match DecodeItems(item, items[..|items| - 1], owner)
      case Err(e) => Err(e)
      case Ok(before) =>
        match Decode(item, items[|items| - 1])
        case Err(e) => Err(e)
        case Ok(last) => Ok(before + [last])
  }

  /** Every declared field of an object, decoded by its own rule. */
  function DecodeFields(members: seq<Field>, n: nat, fields: map<string, Json>, owner: Rule): Result<map<string, Json>>
    requires owner.ObjectRule? && owner.members == members && n <= |members|
    requires forall i :: 0 <= i < |members| ==> members[i].name in fields
    decreases owner, 0, n
  {
    if n == 0 then Ok(map[])
    else
      match DecodeFields(members, n - 1, fields, owner)
      case Err(e) => Err(e)
      case Ok(before) =>
        match Decode(members[n - 1].rule, fields[members[n - 1].name])
        case Err(e) => Err(e)
        case Ok(last) => Ok(before[members[n - 1].name := last])
  }

  // ---- the JSON schema of a rule, and what its keywords mean

  datatype Property = Property(name: string, schema: Schema)

  /** The keywords the contract emits; description is an annotation and asserts nothing. */
  datatype Schema = Schema(
    kind: Option<string>, constant: Option<Text>, allowed: Option<seq<Text>>,
    minItems: Option<nat>, maxItems: Option<nat>, items: Option<Schema>,
    required: seq<string>, properties: seq<Property>, closed: bool)

  function Unconstrained(): Schema { Schema(None, None, None, None, None, None, [], [], false) }

  function JsonSchema(rule: Rule): Schema
  {
    match rule
    case StringRule(_, constant, allowed) =>
      (if constant.Some? then Unconstrained().(constant := constant) else Unconstrained().(kind := Some("string")))
      .(allowed := allowed)
    case ArrayRule(item, length, _) =>
      Unconstrained().(kind := Some("array"), minItems := Some(length), maxItems := Some(length),
                       items := Some(JsonSchema(item)))
    case ObjectRule(members, _) =>
      Unconstrained().(
        kind := Some("object"), closed := true,
        required := seq(|members|, i requires 0 <= i < |members| => members[i].name),
        properties := seq(|members|, i requires 0 <= i < |members| =>
                            Property(members[i].name, JsonSchema(members[i].rule))))
  }

  predicate HasType(kind: string, v: Json)
  {
    match v
    case JString(_) => kind == "string"
    case JArray(_) => kind == "array"
    case JObject(_) => kind == "object"
    case JNumber(_) => kind == "number"
    case JBool(_) => kind == "boolean"
    case JNull => kind == "null"
  }

  /** Validity as JSON Schema Validation 2020-12 defines it, keyword by keyword. */
  predicate Valid(s: Schema, v: Json)
  {
    && (s.kind.Some? ==> HasType(s.kind.value, v))
    && (s.constant.Some? ==> v == JString(s.constant.value))
    && (s.allowed.Some? ==> exists i :: 0 <= i < |s.allowed.value| && v == JString(s.allowed.value[i]))
    && (v.JArray? && s.minItems.Some? ==> s.minItems.value <= |v.items|)
    && (v.JArray? && s.maxItems.Some? ==> |v.items| <= s.maxItems.value)
    && (v.JArray? && s.items.Some? ==> forall i :: 0 <= i < |v.items| ==> Valid(s.items.value, v.items[i]))
    && (v.JObject? ==> forall i :: 0 <= i < |s.required| ==> s.required[i] in v.fields)
    && (v.JObject? ==> forall i :: 0 <= i < |s.properties| && s.properties[i].name in v.fields ==>
                         Valid(s.properties[i].schema, v.fields[s.properties[i].name]))
    && (v.JObject? && s.closed ==> forall k :: k in v.fields ==> Declares(s.properties, k))
  }

  predicate Declares(properties: seq<Property>, name: string)
  {
    exists i :: 0 <= i < |properties| && properties[i].name == name
  }

  /** Every string anywhere in the value shows something. */
  predicate NoBlank(v: Json)
  {
    match v
    case JString(t) => !Blank(t)
    case JArray(items) => forall i :: 0 <= i < |items| ==> NoBlank(items[i])
    case JObject(fields) => forall k :: k in fields ==> NoBlank(fields[k])
    case _ => true
  }

  // ---- the two readings agree

  lemma {:induction false} NamesDeclared(members: seq<Field>, error: string, k: string)
    ensures Names(members, k) <==> Declares(JsonSchema(ObjectRule(members, error)).properties, k)
  {
    var p := JsonSchema(ObjectRule(members, error)).properties;
    if Names(members, k) {
      var i :| 0 <= i < |members| && members[i].name == k;
      assert p[i].name == k;
    }
    if Declares(p, k) {
      var i :| 0 <= i < |p| && p[i].name == k;
      assert members[i].name == k;
    }
  }

  /** Schema-valid, and every string in it shows something. */
  predicate Fits(rule: Rule, v: Json) { Valid(JsonSchema(rule), v) && NoBlank(v) }

  /** Decoding an array item by item. */
  lemma {:induction false} ItemsAgree(item: Rule, items: seq<Json>, owner: Rule)
    requires owner.ArrayRule? && owner.item == item && WellFormed(item)
    ensures var r := DecodeItems(item, items, owner);
            && (r.Ok? <==> forall i :: 0 <= i < |items| ==> Fits(item, items[i]))
            && (r.Ok? ==> r.value == items)
    decreases owner, 0, |items|
  {
    hide Fits, Decode;
    if items != [] {
      var n := |items| - 1;
      ItemsAgree(item, items[..n], owner);
      DecodesExactly(item, items[n]);
    }
  }

  /** The first n members and their values. */
  ghost predicate FirstFields(members: seq<Field>, n: nat, fields: map<string, Json>, r: Result<map<string, Json>>)
    requires n <= |members| && forall i :: 0 <= i < |members| ==> members[i].name in fields
  {
    && (r.Ok? <==> forall i :: 0 <= i < n ==> Fits(members[i].rule, fields[members[i].name]))
    && (r.Ok? ==> forall k :: k in r.value <==> Names(members[..n], k))
    && (r.Ok? ==> forall k :: k in r.value ==> k in fields && r.value[k] == fields[k])
  }

  /** Decoding an object field by field; distinct names never overwrite one another. */
  lemma {:induction false} FieldsAgree(members: seq<Field>, n: nat, fields: map<string, Json>, owner: Rule)
    requires owner.ObjectRule? && owner.members == members && n <= |members| && WellFormed(owner)
    requires forall i :: 0 <= i < |members| ==> members[i].name in fields
    ensures FirstFields(members, n, fields, DecodeFields(members, n, fields, owner))
    decreases owner, 0, n
  {
    hide Fits, Decode, Names;
    if n > 0 {
      FieldsAgree(members, n - 1, fields, owner);
      DecodesExactly(members[n - 1].rule, fields[members[n - 1].name]);
      NamesSnoc(members, n - 1);
    } else {
      NoNames(members[..0]);
    }
  }

  lemma {:induction false} NoNames(members: seq<Field>)
    requires members == []
    ensures forall k :: !Names(members, k)
  {
  }

  lemma {:induction false} NamesSnoc(members: seq<Field>, n: nat)
    requires n < |members|
    ensures forall k :: Names(members[..n + 1], k) <==> Names(members[..n], k) || k == members[n].name
  {
    var a, b := members[..n], members[..n + 1];
    forall k ensures Names(b, k) <==> Names(a, k) || k == members[n].name {
      if Names(a, k) {
        var i :| 0 <= i < |a| && a[i].name == k;
        assert b[i].name == k;
      }
      if k == members[n].name { assert b[n].name == k; }
    }
  }

  lemma {:induction false} StringAgrees(error: string, constant: Option<Text>, allowed: Option<seq<Text>>, v: Json)
    ensures var rule := StringRule(error, constant, allowed);
            && (Decode(rule, v).Ok? <==> Fits(rule, v))
            && (Decode(rule, v).Ok? ==> Decode(rule, v).value == v)
  {
    var s := JsonSchema(StringRule(error, constant, allowed));
    if allowed.Some? && v.JString? && v.text in allowed.value {
      var i :| 0 <= i < |allowed.value| && allowed.value[i] == v.text;
      assert v == JString(s.allowed.value[i]);
    }
  }

  /** The keys of an object are exactly the rule's names. */
  predicate SameNames(members: seq<Field>, fields: map<string, Json>)
  {
    (forall k :: k in fields ==> Names(members, k)) && forall i :: 0 <= i < |members| ==> members[i].name in fields
  }

  lemma {:induction false} ObjectFits(members: seq<Field>, error: string, fields: map<string, Json>)
    ensures Fits(ObjectRule(members, error), JObject(fields))
            <==> SameNames(members, fields)
                 && forall i :: 0 <= i < |members| ==> Fits(members[i].rule, fields[members[i].name])
  {
    var s := JsonSchema(ObjectRule(members, error));
    forall k ensures Names(members, k) <==> Declares(s.properties, k) { NamesDeclared(members, error, k); }
    ObjectValid(members, error, fields);
    hide Valid, JsonSchema, Names;
    if SameNames(members, fields) {
      assert NoBlank(JObject(fields)) <==> forall i :: 0 <= i < |members| ==> NoBlank(fields[members[i].name]) by {
        ObjectNoBlank(members, fields);
      }
    }
  }

  lemma {:induction false} ObjectNoBlank(members: seq<Field>, fields: map<string, Json>)
    requires SameNames(members, fields)
    ensures NoBlank(JObject(fields)) <==> forall i :: 0 <= i < |members| ==> NoBlank(fields[members[i].name])
  {
    if forall i :: 0 <= i < |members| ==> NoBlank(fields[members[i].name]) {
      forall k | k in fields ensures NoBlank(fields[k]) {
        assert Names(members, k);
        var i :| 0 <= i < |members| && members[i].name == k;
      }
    }
  }

  /** What the schema of an object rule says. */
  lemma {:induction false} ObjectSchema(members: seq<Field>, error: string)
    ensures var s := JsonSchema(ObjectRule(members, error));
            && s.kind == Some("object") && s.constant.None? && s.allowed.None? && s.closed
            && |s.required| == |s.properties| == |members|
            && forall i :: 0 <= i < |members| ==>
                 && s.required[i] == members[i].name && s.properties[i].name == members[i].name
                 && s.properties[i].schema == JsonSchema(members[i].rule)
  {
  }

  lemma {:induction false} ObjectValid(members: seq<Field>, error: string, fields: map<string, Json>)
    ensures Valid(JsonSchema(ObjectRule(members, error)), JObject(fields))
            <==> SameNames(members, fields)
                 && forall i :: 0 <= i < |members| ==> Valid(JsonSchema(members[i].rule), fields[members[i].name])
  {
    hide Valid, JsonSchema, Names;
    if Valid(JsonSchema(ObjectRule(members, error)), JObject(fields)) {
      ValidMembers(members, error, fields);
    } else if SameNames(members, fields)
              && forall i :: 0 <= i < |members| ==> Valid(JsonSchema(members[i].rule), fields[members[i].name]) {
      MembersValid(members, error, fields);
    }
  }

  lemma {:induction false} ValidMembers(members: seq<Field>, error: string, fields: map<string, Json>)
    requires Valid(JsonSchema(ObjectRule(members, error)), JObject(fields))
    ensures SameNames(members, fields)
    ensures forall i :: 0 <= i < |members| ==> Valid(JsonSchema(members[i].rule), fields[members[i].name])
  {
    var s := JsonSchema(ObjectRule(members, error));
    ObjectSchema(members, error);
    forall k ensures Names(members, k) <==> Declares(s.properties, k) { NamesDeclared(members, error, k); }
    hide Names, Declares, JsonSchema;
    forall i | 0 <= i < |members| ensures members[i].name in fields {
      assert s.required[i] in fields;
    }
    forall i | 0 <= i < |members| ensures Valid(JsonSchema(members[i].rule), fields[members[i].name]) {
      assert s.properties[i].name in fields;
    }
  }

  lemma {:induction false} MembersValid(members: seq<Field>, error: string, fields: map<string, Json>)
    requires SameNames(members, fields)
    requires forall i :: 0 <= i < |members| ==> Valid(JsonSchema(members[i].rule), fields[members[i].name])
    ensures Valid(JsonSchema(ObjectRule(members, error)), JObject(fields))
  {
    var s := JsonSchema(ObjectRule(members, error));
    ObjectSchema(members, error);
    forall k ensures Names(members, k) <==> Declares(s.properties, k) { NamesDeclared(members, error, k); }
    hide Names, Declares, JsonSchema;
  }

  /** The decoder accepts exactly the schema-valid values without blank strings, and returns them unchanged. */
  lemma {:induction false} DecodesExactly(rule: Rule, v: Json)
    requires WellFormed(rule)
    ensures Decode(rule, v).Ok? <==> Fits(rule, v)
    ensures Decode(rule, v).Ok? ==> Decode(rule, v).value == v
    decreases rule, 0
  {
    match rule
    case StringRule(error, constant, allowed) =>
      StringAgrees(error, constant, allowed, v);
    case ArrayRule(item, length, error) =>
      if v.JArray? {
        ItemsAgree(item, v.items, rule);
        ArrayFits(item, length, error, v.items);
      }
    case ObjectRule(members, error) =>
      if v.JObject? { ObjectAgrees(members, error, v.fields, rule); }
  }

  lemma {:induction false} ArrayFits(item: Rule, length: nat, error: string, items: seq<Json>)
    ensures Fits(ArrayRule(item, length, error), JArray(items))
            <==> |items| == length && forall i :: 0 <= i < |items| ==> Fits(item, items[i])
  {
  }

  lemma {:induction false} ObjectAgrees(members: seq<Field>, error: string, fields: map<string, Json>, rule: Rule)
    requires rule == ObjectRule(members, error) && WellFormed(rule)
    ensures var v := JObject(fields);
            && (Decode(rule, v).Ok? <==> Fits(rule, v))
            && (Decode(rule, v).Ok? ==> Decode(rule, v).value == v)
    decreases rule, 0, |members| + 1
  {
    hide Fits, Names, DecodeFields, WellFormed;
    assert members[..|members|] == members;
    ObjectFits(members, error, fields);
    if SameNames(members, fields) {
      FieldsAgree(members, |members|, fields, rule);
      var r := DecodeFields(members, |members|, fields, rule);
      if r.Ok? {
        forall k ensures k in r.value <==> k in fields { NamedOrAbsent(members, fields, k); }
        assert r.value == fields;
      }
    }
  }

  lemma {:induction false} NamedOrAbsent(members: seq<Field>, fields: map<string, Json>, k: string)
    requires SameNames(members, fields)
    ensures Names(members, k) <==> k in fields
  {
  }

  /** Replacing one field by a value its own rule accepts keeps the object acceptable. */
  lemma {:induction false} FieldReplaced(members: seq<Field>, error: string, fields: map<string, Json>, name: string,
                                         x: Json)
    requires Fits(ObjectRule(members, error), JObject(fields)) && name in fields
    requires forall i :: 0 <= i < |members| && members[i].name == name ==> Fits(members[i].rule, x)
    ensures Fits(ObjectRule(members, error), JObject(fields[name := x]))
  {
    hide Fits, Names;
    var g := fields[name := x];
    ObjectFits(members, error, fields);
    ObjectFits(members, error, g);
    assert SameNames(members, g);
    forall i | 0 <= i < |members| ensures Fits(members[i].rule, g[members[i].name]) {
    }
  }
}
