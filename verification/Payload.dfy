/** Job payloads: Odoo values as JSON trees with tagged objects, and back. */
module Payload {
  import opened JobTable

  datatype Entry<+T> = Entry(key: string, value: T)

  datatype Json =
    | JNull
    | JBool(flag: bool)
    | JNumber(number: int)
    | JText(text: string)
    | JList(items: seq<Json>)
    | JObject(entries: seq<Entry<Json>>)

  /** Dates are known by their ISO text; `context` is that of the recordset's environment. */
  datatype Value =
    | Null
    | Bool(flag: bool)
    | Number(number: int)
    | Text(text: string)
    | List(items: seq<Value>)
    | Dict(entries: seq<Entry<Value>>)
    | Date(iso: string)
    | DateTime(iso: string)
    | Records(model: string, ids: seq<int>, uid: int, su: bool, context: seq<Entry<Value>>)

  datatype Error =
    | UnknownModel(model: string)
    | MissingRecords(model: string, ids: seq<int>)
    | BadDate(text: string)
    | Malformed

  datatype Result<+T> = Ok(value: T) | Err(error: Error)

  /** The database and environment that decode; the parsers give the canonical text of what they read. */
  datatype Env = Env(
    models: set<string>,
    existing: map<string, set<int>>,
    uid: int,
    su: bool,
    context: seq<Entry<Value>>,
    parseDate: string -> Option<string>,
    parseDateTime: string -> Option<string>
  )

  const TYPE := "__type__"
  const RECORDSET := "odoo_recordset"
  const DATETIME := "datetime_isoformat"
  const DATE := "date_isoformat"

  predicate IsSafe(key: string) {
    key in ["lang", "tz", "active_test", "allowed_company_ids", "company_id", "force_company"]
  }

  // ---- encoding -------------------------------------------------------------

  function Encode(v: Value): Json
    decreases v
  {
    match v
    case Null => JNull
    case Bool(flag) => JBool(flag)
    case Number(number) => JNumber(number)
    case Text(text) => JText(text)
    case List(items) => JList(EncodeAll(items))
    case Dict(entries) => JObject(EncodeEntries(entries))
    case Date(iso) => JObject([Entry(TYPE, JText(DATE)), Entry("value", JText(iso))])
    case DateTime(iso) => JObject([Entry(TYPE, JText(DATETIME)), Entry("value", JText(iso))])
    case Records(model, ids, uid, su, context) =>
      JObject([Entry(TYPE, JText(RECORDSET)), Entry("model", JText(model)), Entry("ids", JList(Numbers(ids))),
               Entry("uid", JNumber(uid)), Entry("su", JBool(su)), Entry("context", JObject(EncodeSafe(context)))])
  }

  function Numbers(ids: seq<int>): seq<Json> { seq(|ids|, i requires 0 <= i < |ids| => JNumber(ids[i])) }

  function EncodeAll(items: seq<Value>): seq<Json>
    decreases items
  {
    if items == [] then [] else [Encode(items[0])] + EncodeAll(items[1..])
  }

  function EncodeEntries(entries: seq<Entry<Value>>): seq<Entry<Json>>
    decreases entries
  {
    if entries == [] then [] else [Entry(entries[0].key, Encode(entries[0].value))] + EncodeEntries(entries[1..])
  }

  function EncodeSafe(entries: seq<Entry<Value>>): seq<Entry<Json>>
    decreases entries
  {
    if entries == [] then []
    else (if IsSafe(entries[0].key) then [Entry(entries[0].key, Encode(entries[0].value))] else [])
         + EncodeSafe(entries[1..])
  }

  // ---- decoding, bottom-up --------------------------------------------------

  function Decode(env: Env, j: Json): Result<Value>
    decreases j
  {
    match j
    case JNull => Ok(Null)
    case JBool(flag) => Ok(Bool(flag))
    case JNumber(number) => Ok(Number(number))
    case JText(text) => Ok(Text(text))
    case JList(items) =>
      (match DecodeAll(env, items)
       case Ok(values) => Ok(List(values))
       case Err(error) => Err(error))
    case JObject(entries) =>
      match DecodeEntries(env, entries)
      case Ok(values) => Hook(env, values)
      case Err(error) => Err(error)
  }

  function DecodeAll(env: Env, items: seq<Json>): Result<seq<Value>>
    decreases items
  {
    if items == [] then Ok([])
    else match Decode(env, items[0])
      case Err(error) => Err(error)
      case Ok(first) =>
        match DecodeAll(env, items[1..])
        case Err(error) => Err(error)
        case Ok(rest) => Ok([first] + rest)
  }

  function DecodeEntries(env: Env, entries: seq<Entry<Json>>): Result<seq<Entry<Value>>>
    decreases entries
  {
    if entries == [] then Ok([])
    else match Decode(env, entries[0].value)
      case Err(error) => Err(error)
      case Ok(first) =>
        match DecodeEntries(env, entries[1..])
        case Err(error) => Err(error)
        case Ok(rest) => Ok([Entry(entries[0].key, first)] + rest)
  }

  /** `obj.get(key)`; the keys of an object are distinct. */
  function Get(entries: seq<Entry<Value>>, key: string): Option<Value> {
    if entries == [] then None
    else if entries[0].key == key then Some(entries[0].value)
    else Get(entries[1..], key)
  }

  predicate Truthy(v: Option<Value>) {
    match v
    case None => false
    case Some(Null) => false
    case Some(Bool(flag)) => flag
    case Some(Number(number)) => number != 0
    case Some(Text(text)) => text != ""
    case Some(List(items)) => items != []
    case Some(Dict(entries)) => entries != []
    case Some(Records(_, ids, _, _, _)) => ids != []
    case Some(_) => true
  }

  /** `list(obj.get("ids") or [])` where that gives record ids. */
  function ReadIds(v: Option<Value>): Option<seq<int>> {
    if !Truthy(v) then Some([])
    else if v.value.List? && forall i | 0 <= i < |v.value.items| :: v.value.items[i].Number? then
      Some(seq(|v.value.items|, i requires 0 <= i < |v.value.items| => v.value.items[i].number))
    else None
  }

  function Missing(env: Env, model: string, ids: seq<int>): seq<int> {
    if ids == [] then []
    else (if model in env.existing && ids[0] in env.existing[model] then [] else [ids[0]])
         + Missing(env, model, ids[1..])
  }

  function HookRecords(env: Env, entries: seq<Entry<Value>>): Result<Value> {
    var ids, model, uid := ReadIds(Get(entries, "ids")), Get(entries, "model"), Get(entries, "uid");
    if ids.None? || model.None? || !model.value.Text? then Err(Malformed)
    else if model.value.text !in env.models then Err(UnknownModel(model.value.text))
    else if uid.Some? && !uid.value.Null? && !uid.value.Number? then Err(Malformed)
    else
      var given := uid.Some? && uid.value.Number?;
      var user := if given then uid.value.number else env.uid;
      var su := Truthy(Get(entries, "su")) || (!given && env.su);
      var context := match Get(entries, "context") case Some(Dict(own)) => own case _ => [];
      var missing := Missing(env, model.value.text, ids.value);
      if missing != [] then Err(MissingRecords(model.value.text, missing))
      else Ok(Records(model.value.text, ids.value, user, su, if context != [] then context else env.context))
  }

  function HookIso(entries: seq<Entry<Value>>, parse: string -> Option<string>, make: string -> Value): Result<Value> {
    match Get(entries, "value")
    case Some(Text(text)) => if parse(text).None? then Err(BadDate(text)) else Ok(make(parse(text).value))
    case _ => Err(Malformed)
  }

  /** `object_hook` */
  function Hook(env: Env, entries: seq<Entry<Value>>): Result<Value> {
    var tag := Get(entries, TYPE);
    if tag == Some(Text(RECORDSET)) then HookRecords(env, entries)
    else if tag == Some(Text(DATETIME)) then HookIso(entries, env.parseDateTime, text => DateTime(text))
    else if tag == Some(Text(DATE)) then HookIso(entries, env.parseDate, text => Date(text))
    else Ok(Dict(entries))
  }

  // ---- which values survive -------------------------------------------------

  predicate IsTag(v: Option<Value>) {
    v == Some(Text(RECORDSET)) || v == Some(Text(DATETIME)) || v == Some(Text(DATE))
  }

  /** Records exist, models are known, and dates are in the form their own parser gives back. */
  predicate Fits(env: Env, v: Value)
    decreases v
  {
    match v
    case List(items) => AllFit(env, items)
    case Dict(entries) => EntriesFit(env, entries, false)
    case Date(iso) => env.parseDate(iso) == Some(iso)
    case DateTime(iso) => env.parseDateTime(iso) == Some(iso)
    case Records(model, ids, _, _, context) =>
      model in env.models && Missing(env, model, ids) == [] && EntriesFit(env, context, true)
    case _ => true
  }

  predicate AllFit(env: Env, items: seq<Value>)
    decreases items
  {
    items == [] || (Fits(env, items[0]) && AllFit(env, items[1..]))
  }

  predicate EntriesFit(env: Env, entries: seq<Entry<Value>>, safeOnly: bool)
    decreases entries
  {
    entries == []
    || ((!safeOnly || IsSafe(entries[0].key) ==> Fits(env, entries[0].value)) && EntriesFit(env, entries[1..], safeOnly))
  }

  /** No dict that the user wrote carries one of the three tags under `__type__`. */
  predicate Untagged(v: Value)
    decreases v
  {
    match v
    case List(items) => AllUntagged(items)
    case Dict(entries) => !IsTag(Get(entries, TYPE)) && EntriesUntagged(entries, false)
    case Records(_, _, _, _, context) => EntriesUntagged(context, true)
    case _ => true
  }

  predicate AllUntagged(items: seq<Value>)
    decreases items
  {
    items == [] || (Untagged(items[0]) && AllUntagged(items[1..]))
  }

  predicate EntriesUntagged(entries: seq<Entry<Value>>, safeOnly: bool)
    decreases entries
  {
    entries == []
    || ((!safeOnly || IsSafe(entries[0].key) ==> Untagged(entries[0].value)) && EntriesUntagged(entries[1..], safeOnly))
  }

  /** What a value comes back as: itself, except that recordsets keep only the safe part of their context. */
  function Normal(env: Env, v: Value): Value
    decreases v
  {
    match v
    case List(items) => List(NormalAll(env, items))
    case Dict(entries) => Dict(NormalEntries(env, entries))
    case Records(model, ids, uid, su, context) =>
      var safe := NormalSafe(env, context);
      Records(model, ids, uid, su, if safe != [] then safe else env.context)
    case _ => v
  }

  function NormalAll(env: Env, items: seq<Value>): seq<Value>
    decreases items
  {
    if items == [] then [] else [Normal(env, items[0])] + NormalAll(env, items[1..])
  }

  function NormalEntries(env: Env, entries: seq<Entry<Value>>): seq<Entry<Value>>
    decreases entries
  {
    if entries == [] then [] else [Entry(entries[0].key, Normal(env, entries[0].value))] + NormalEntries(env, entries[1..])
  }

  function NormalSafe(env: Env, entries: seq<Entry<Value>>): seq<Entry<Value>>
    decreases entries
  {
    if entries == [] then []
    else (if IsSafe(entries[0].key) then [Entry(entries[0].key, Normal(env, entries[0].value))] else [])
         + NormalSafe(env, entries[1..])
  }

  // ---- the round trip -------------------------------------------------------

  predicate Survives(env: Env, v: Value) { Decode(env, Encode(v)) == Ok(Normal(env, v)) }

  /** Every fitting value decodes to itself exactly when no dict in it looks like an encoded object. */
  lemma {:induction false} RoundTripsExactly(env: Env, v: Value)
    requires Fits(env, v)
    ensures Survives(env, v) <==> Untagged(v)
    decreases v
  {
    match v
    case List(items) => ItemsRoundTrip(env, items);
    case Dict(entries) =>
      EntriesRoundTrip(env, entries);
      TagOfNormal(env, entries);
      HookSpares(env, NormalEntries(env, entries));
      if DecodeEntries(env, EncodeEntries(entries)).Ok? {
        HookSpares(env, DecodeEntries(env, EncodeEntries(entries)).value);
      }
    case Records(model, ids, uid, su, context) =>
      SafeRoundTrip(env, context);
      RecordsRoundTrip(env, model, ids, uid, su, context);
    case Date(iso) => IsoRoundTrip(env, DATE, iso);
    case DateTime(iso) => IsoRoundTrip(env, DATETIME, iso);
    case _ =>
  }

  lemma {:induction false} ItemsRoundTrip(env: Env, items: seq<Value>)
    requires AllFit(env, items)
    ensures DecodeAll(env, EncodeAll(items)) == Ok(NormalAll(env, items)) <==> AllUntagged(items)
    decreases items
  {
    if items != [] {
      RoundTripsExactly(env, items[0]);
      ItemsRoundTrip(env, items[1..]);
      assert EncodeAll(items)[1..] == EncodeAll(items[1..]);
      assert NormalAll(env, items)[1..] == NormalAll(env, items[1..]);
      if DecodeAll(env, EncodeAll(items)).Ok? {
        var values := DecodeAll(env, EncodeAll(items)).value;
        assert values[1..] == DecodeAll(env, EncodeAll(items[1..])).value;
      }
    }
  }

  lemma {:induction false} EntriesRoundTrip(env: Env, entries: seq<Entry<Value>>)
    requires EntriesFit(env, entries, false)
    ensures DecodeEntries(env, EncodeEntries(entries)) == Ok(NormalEntries(env, entries)) <==> EntriesUntagged(entries, false)
    decreases entries
  {
    if entries != [] {
      assert entries[0].value < entries[0];
      RoundTripsExactly(env, entries[0].value);
      EntriesRoundTrip(env, entries[1..]);
      assert EncodeEntries(entries)[1..] == EncodeEntries(entries[1..]);
      assert NormalEntries(env, entries)[1..] == NormalEntries(env, entries[1..]);
      if DecodeEntries(env, EncodeEntries(entries)).Ok? {
        var values := DecodeEntries(env, EncodeEntries(entries)).value;
        assert values[1..] == DecodeEntries(env, EncodeEntries(entries[1..])).value;
      }
    }
  }

  lemma {:induction false} SafeRoundTrip(env: Env, entries: seq<Entry<Value>>)
    requires EntriesFit(env, entries, true)
    ensures DecodeEntries(env, EncodeSafe(entries)) == Ok(NormalSafe(env, entries)) <==> EntriesUntagged(entries, true)
    ensures DecodeEntries(env, EncodeSafe(entries)).Ok? ==>
      Get(DecodeEntries(env, EncodeSafe(entries)).value, TYPE) == None
      && |DecodeEntries(env, EncodeSafe(entries)).value| == |NormalSafe(env, entries)|
    decreases entries
  {
    if entries != [] {
      SafeRoundTrip(env, entries[1..]);
      if IsSafe(entries[0].key) {
        assert entries[0].value < entries[0];
        RoundTripsExactly(env, entries[0].value);
        assert EncodeSafe(entries)[1..] == EncodeSafe(entries[1..]);
        assert NormalSafe(env, entries)[1..] == NormalSafe(env, entries[1..]);
        if DecodeEntries(env, EncodeSafe(entries)).Ok? {
          var values := DecodeEntries(env, EncodeSafe(entries)).value;
          assert values[1..] == DecodeEntries(env, EncodeSafe(entries[1..])).value;
        }
      } else {
        assert EncodeSafe(entries) == EncodeSafe(entries[1..]);
        assert NormalSafe(env, entries) == NormalSafe(env, entries[1..]);
      }
    }
  }

  /** Normalising changes no tag: texts come back as they are, and nothing else becomes a text. */
  lemma {:induction false} TagOfNormal(env: Env, entries: seq<Entry<Value>>)
    ensures IsTag(Get(NormalEntries(env, entries), TYPE)) <==> IsTag(Get(entries, TYPE))
  {
    if entries != [] {
      TagOfNormal(env, entries[1..]);
      assert NormalEntries(env, entries)[1..] == NormalEntries(env, entries[1..]);
    }
  }

  /** The hook leaves exactly the untagged objects alone. */
  lemma HookSpares(env: Env, entries: seq<Entry<Value>>)
    ensures !IsTag(Get(entries, TYPE)) ==> Hook(env, entries) == Ok(Dict(entries))
    ensures IsTag(Get(entries, TYPE)) ==> Hook(env, entries).Err? || !Hook(env, entries).value.Dict?
  {}

  lemma IsoRoundTrip(env: Env, tag: string, iso: string)
    ensures
      var entries := [Entry(TYPE, JText(tag)), Entry("value", JText(iso))];
      DecodeEntries(env, entries) == Ok([Entry(TYPE, Text(tag)), Entry("value", Text(iso))])
    ensures
      var values := [Entry(TYPE, Text(tag)), Entry("value", Text(iso))];
      Get(values, TYPE) == Some(Text(tag)) && Get(values, "value") == Some(Text(iso))
  {
    var tail := [Entry("value", JText(iso))] + [];
    DecodeStep(env, "value", JText(iso), []);
    DecodeStep(env, TYPE, JText(tag), tail);
    assert [Entry(TYPE, JText(tag))] + tail == [Entry(TYPE, JText(tag)), Entry("value", JText(iso))];
    var values := [Entry(TYPE, Text(tag)), Entry("value", Text(iso))];
    assert [Entry(TYPE, Text(tag))] + ([Entry("value", Text(iso))] + []) == values;
    assert values[1..] == [Entry("value", Text(iso))];
  }

  lemma DecodeStep(env: Env, key: string, first: Json, rest: seq<Entry<Json>>)
    ensures DecodeEntries(env, [Entry(key, first)] + rest) ==
      if Decode(env, first).Err? then Err(Decode(env, first).error)
      else if DecodeEntries(env, rest).Err? then Err(DecodeEntries(env, rest).error)
      else Ok([Entry(key, Decode(env, first).value)] + DecodeEntries(env, rest).value)
  {
    assert ([Entry(key, first)] + rest)[1..] == rest;
  }

  lemma GetStep(key: string, first: Value, rest: seq<Entry<Value>>, wanted: string)
    ensures Get([Entry(key, first)] + rest, wanted) == if key == wanted then Some(first) else Get(rest, wanted)
  {
    assert ([Entry(key, first)] + rest)[1..] == rest;
  }

  function NumberValues(ids: seq<int>): seq<Value> { seq(|ids|, i requires 0 <= i < |ids| => Number(ids[i])) }

  lemma {:induction false} NumbersRoundTrip(env: Env, ids: seq<int>)
    ensures DecodeAll(env, Numbers(ids)) == Ok(NumberValues(ids))
  {
    if ids != [] {
      NumbersRoundTrip(env, ids[1..]);
      assert Numbers(ids)[1..] == Numbers(ids[1..]);
      assert NumberValues(ids) == [Number(ids[0])] + NumberValues(ids[1..]);
    } else {
      assert Numbers(ids) == [] && NumberValues(ids) == [];
    }
  }

  /** The object a recordset is encoded to, after its parts are decoded. */
  function RecordEntries(model: string, ids: seq<int>, uid: int, su: bool, context: Value): seq<Entry<Value>> {
    [Entry(TYPE, Text(RECORDSET))] + ([Entry("model", Text(model))] + ([Entry("ids", List(NumberValues(ids)))]
      + ([Entry("uid", Number(uid))] + ([Entry("su", Bool(su))] + ([Entry("context", context)] + [])))))
  }

  lemma RecordObjectDecodes(env: Env, model: string, ids: seq<int>, uid: int, su: bool, context: Json)
    ensures
      var entries := [Entry(TYPE, JText(RECORDSET)), Entry("model", JText(model)), Entry("ids", JList(Numbers(ids))),
                      Entry("uid", JNumber(uid)), Entry("su", JBool(su)), Entry("context", context)];
      DecodeEntries(env, entries) ==
        if Decode(env, context).Err? then Err(Decode(env, context).error)
        else Ok(RecordEntries(model, ids, uid, su, Decode(env, context).value))
  {
    NumbersRoundTrip(env, ids);
    var six := [Entry("context", context)] + [];
    var five := [Entry("su", JBool(su))] + six;
    var four := [Entry("uid", JNumber(uid))] + five;
    var three := [Entry("ids", JList(Numbers(ids)))] + four;
    var two := [Entry("model", JText(model))] + three;
    DecodeStep(env, "context", context, []);
    DecodeStep(env, "su", JBool(su), six);
    DecodeStep(env, "uid", JNumber(uid), five);
    DecodeStep(env, "ids", JList(Numbers(ids)), four);
    DecodeStep(env, "model", JText(model), three);
    DecodeStep(env, TYPE, JText(RECORDSET), two);
    assert [Entry(TYPE, JText(RECORDSET))] + two ==
      [Entry(TYPE, JText(RECORDSET)), Entry("model", JText(model)), Entry("ids", JList(Numbers(ids))),
       Entry("uid", JNumber(uid)), Entry("su", JBool(su)), Entry("context", context)];
  }

  lemma RecordEntriesGet(model: string, ids: seq<int>, uid: int, su: bool, context: Value)
    ensures
      var entries := RecordEntries(model, ids, uid, su, context);
      && Get(entries, TYPE) == Some(Text(RECORDSET)) && Get(entries, "model") == Some(Text(model))
      && Get(entries, "ids") == Some(List(NumberValues(ids))) && Get(entries, "uid") == Some(Number(uid))
      && Get(entries, "su") == Some(Bool(su)) && Get(entries, "context") == Some(context)
  {
    var six := [Entry("context", context)] + [];
    var five := [Entry("su", Bool(su))] + six;
    var four := [Entry("uid", Number(uid))] + five;
    var three := [Entry("ids", List(NumberValues(ids)))] + four;
    var two := [Entry("model", Text(model))] + three;
    forall wanted | wanted in [TYPE, "model", "ids", "uid", "su", "context"]
      ensures Get(RecordEntries(model, ids, uid, su, context), wanted) ==
        if wanted == TYPE then Some(Text(RECORDSET))
        else if wanted == "model" then Some(Text(model))
        else if wanted == "ids" then Some(List(NumberValues(ids)))
        else if wanted == "uid" then Some(Number(uid))
        else if wanted == "su" then Some(Bool(su)) else Some(context)
    {
      GetStep("context", context, [], wanted);
      GetStep("su", Bool(su), six, wanted);
      GetStep("uid", Number(uid), five, wanted);
      GetStep("ids", List(NumberValues(ids)), four, wanted);
      GetStep("model", Text(model), three, wanted);
      GetStep(TYPE, Text(RECORDSET), two, wanted);
    }
  }

  lemma HookedRecords(env: Env, model: string, ids: seq<int>, uid: int, su: bool, context: seq<Entry<Value>>)
    ensures
      Hook(env, RecordEntries(model, ids, uid, su, Dict(context))) ==
        if model !in env.models then Err(UnknownModel(model))
        else if Missing(env, model, ids) != [] then Err(MissingRecords(model, Missing(env, model, ids)))
        else Ok(Records(model, ids, uid, su, if context != [] then context else env.context))
  {
    RecordEntriesGet(model, ids, uid, su, Dict(context));
    var read := ReadIds(Some(List(NumberValues(ids))));
    assert read.Some? && read.value == ids;
  }

  lemma RecordsRoundTrip(env: Env, model: string, ids: seq<int>, uid: int, su: bool, context: seq<Entry<Value>>)
    requires model in env.models && Missing(env, model, ids) == []
    requires DecodeEntries(env, EncodeSafe(context)).Ok? ==>
      Get(DecodeEntries(env, EncodeSafe(context)).value, TYPE) == None
      && |DecodeEntries(env, EncodeSafe(context)).value| == |NormalSafe(env, context)|
    ensures Survives(env, Records(model, ids, uid, su, context))
       <==> DecodeEntries(env, EncodeSafe(context)) == Ok(NormalSafe(env, context))
  {
    RecordObjectDecodes(env, model, ids, uid, su, JObject(EncodeSafe(context)));
    if DecodeEntries(env, EncodeSafe(context)).Ok? {
      var values := DecodeEntries(env, EncodeSafe(context)).value;
      HookSpares(env, values);
      HookedRecords(env, model, ids, uid, su, values);
    }
  }

  // ---- the wire format ------------------------------------------------------

  /** The member `key` of a JSON object. */
  function Member(entries: seq<Entry<Json>>, key: string): Option<Json> {
    if entries == [] then None
    else if entries[0].key == key then Some(entries[0].value)
    else Member(entries[1..], key)
  }

  /** The context keys that may travel. */
  const TRAVELLING := {"lang", "tz", "active_test", "allowed_company_ids", "company_id", "force_company"}

  lemma {:induction false} SafeMembers(entries: seq<Entry<Value>>, key: string)
    ensures Member(EncodeSafe(entries), key) ==
      if key in TRAVELLING && Get(entries, key).Some? then Some(Encode(Get(entries, key).value)) else None
  {
    if entries != [] {
      SafeMembers(entries[1..], key);
      if IsSafe(entries[0].key) {
        assert EncodeSafe(entries)[1..] == EncodeSafe(entries[1..]);
      } else {
        assert EncodeSafe(entries) == EncodeSafe(entries[1..]);
      }
    }
  }

  /** A recordset travels as an object of six members, of its context only the keys above. */
  lemma RecordsTravel(model: string, ids: seq<int>, uid: int, su: bool, context: seq<Entry<Value>>, key: string)
    ensures
      var j := Encode(Records(model, ids, uid, su, context));
      && j.JObject? && Member(j.entries, "__type__") == Some(JText("odoo_recordset"))
      && Member(j.entries, "model") == Some(JText(model))
      && Member(j.entries, "ids") == Some(JList(seq(|ids|, i requires 0 <= i < |ids| => JNumber(ids[i]))))
      && Member(j.entries, "uid") == Some(JNumber(uid)) && Member(j.entries, "su") == Some(JBool(su))
      && Member(j.entries, "context").Some? && Member(j.entries, "context").value.JObject?
      && Member(Member(j.entries, "context").value.entries, key) ==
           if key in TRAVELLING && Get(context, key).Some? then Some(Encode(Get(context, key).value)) else None
  {
    SafeMembers(context, key);
    hide EncodeSafe, Get, Member;
    forall wanted | wanted in ["__type__", "model", "ids", "uid", "su", "context"]
      ensures Member(Encode(Records(model, ids, uid, su, context)).entries, wanted)
        == Some(MemberOf(model, ids, uid, su, JObject(EncodeSafe(context)), wanted))
    {
      MembersOfRecords(model, ids, uid, su, JObject(EncodeSafe(context)), wanted);
    }
  }

  function MemberOf(model: string, ids: seq<int>, uid: int, su: bool, context: Json, wanted: string): Json {
    match wanted
    case "__type__" => JText("odoo_recordset")
    case "model" => JText(model)
    case "ids" => JList(Numbers(ids))
    case "uid" => JNumber(uid)
    case "su" => JBool(su)
    case _ => context
  }

  lemma MembersOfRecords(model: string, ids: seq<int>, uid: int, su: bool, context: Json, wanted: string)
    requires wanted in ["__type__", "model", "ids", "uid", "su", "context"]
    ensures
      var all := [Entry(TYPE, JText(RECORDSET)), Entry("model", JText(model)), Entry("ids", JList(Numbers(ids))),
                  Entry("uid", JNumber(uid)), Entry("su", JBool(su)), Entry("context", context)];
      Member(all, wanted) == Some(MemberOf(model, ids, uid, su, context, wanted))
  {
    var six := [Entry("context", context)];
    var five := [Entry("su", JBool(su))] + six;
    var four := [Entry("uid", JNumber(uid))] + five;
    var three := [Entry("ids", JList(Numbers(ids)))] + four;
    var two := [Entry("model", JText(model))] + three;
    var all := [Entry(TYPE, JText(RECORDSET))] + two;
    assert all[1..] == two && two[1..] == three && three[1..] == four && four[1..] == five && five[1..] == six;
    hide Numbers;
    assert Member(six, wanted) == if wanted == "context" then Some(context) else None;
    assert Member(five, wanted) == if wanted == "su" then Some(JBool(su)) else Member(six, wanted);
    assert Member(four, wanted) == if wanted == "uid" then Some(JNumber(uid)) else Member(five, wanted);
    assert Member(three, wanted) == if wanted == "ids" then Some(JList(Numbers(ids))) else Member(four, wanted);
    assert Member(two, wanted) == if wanted == "model" then Some(JText(model)) else Member(three, wanted);
    assert Member(all, wanted) == if wanted == "__type__" then Some(JText(RECORDSET)) else Member(two, wanted);
    assert all == [Entry(TYPE, JText(RECORDSET)), Entry("model", JText(model)), Entry("ids", JList(Numbers(ids))),
                   Entry("uid", JNumber(uid)), Entry("su", JBool(su)), Entry("context", context)];
  }

  /** Dates travel as their ISO text under their own tags. */
  lemma DatesTravel(iso: string)
    ensures Encode(Date(iso)) ==
      JObject([Entry("__type__", JText("date_isoformat")), Entry("value", JText(iso))])
    ensures Encode(DateTime(iso)) ==
      JObject([Entry("__type__", JText("datetime_isoformat")), Entry("value", JText(iso))])
  {}

  /**
   What the hook makes of an object tagged as a recordset, whoever wrote it: the
   records of a known model that all exist, for the user it names, or the
   decoding one, as superuser if it says so or if that user decodes as one.
   */
  lemma RecordsArrive(env: Env, entries: seq<Entry<Value>>, model: string, ids: seq<int>)
    requires Get(entries, "__type__") == Some(Text("odoo_recordset")) && Get(entries, "model") == Some(Text(model))
    requires Get(entries, "ids") == Some(List(NumberValues(ids)))
      || (ids == [] && Get(entries, "ids") in {None, Some(Null), Some(Bool(false)), Some(Number(0)), Some(Text(""))})
    requires Get(entries, "uid").Some? ==> Get(entries, "uid").value.Number? || Get(entries, "uid").value.Null?
    ensures model !in env.models ==> Hook(env, entries) == Err(UnknownModel(model))
    ensures model in env.models && Missing(env, model, ids) != [] ==>
      Hook(env, entries) == Err(MissingRecords(model, Missing(env, model, ids)))
    ensures model in env.models && Missing(env, model, ids) == [] ==>
      Hook(env, entries).Ok? && Hook(env, entries).value.Records?
      && var records := Hook(env, entries).value;
         var named := Get(entries, "uid").Some? && Get(entries, "uid").value.Number?;
         && records.model == model && records.ids == ids
         && (named ==> Number(records.uid) == Get(entries, "uid").value) && (!named ==> records.uid == env.uid)
         && (Get(entries, "su") == Some(Bool(true)) ==> records.su)
         && (Get(entries, "su") == Some(Bool(false)) || Get(entries, "su").None? ==> (records.su <==> !named && env.su))
         && (forall own | Get(entries, "context") == Some(Dict(own)) && own != [] :: records.context == own)
         && (Get(entries, "context").None? || Get(entries, "context") == Some(Dict([])) ==> records.context == env.context)
  {
    var read := ReadIds(Get(entries, "ids"));
    if Get(entries, "ids") == Some(List(NumberValues(ids))) { assert read.Some? && read.value == ids; }
    hide Missing;
  }

  /** Tagged dates are parsed by their own parser, and a text it cannot read is an error that names it. */
  lemma DatesArrive(env: Env, entries: seq<Entry<Value>>, text: string)
    requires Get(entries, "value") == Some(Text(text))
    ensures Get(entries, "__type__") == Some(Text("date_isoformat")) ==>
      Hook(env, entries) == if env.parseDate(text).Some? then Ok(Date(env.parseDate(text).value)) else Err(BadDate(text))
    ensures Get(entries, "__type__") == Some(Text("datetime_isoformat")) ==>
      Hook(env, entries) ==
        if env.parseDateTime(text).Some? then Ok(DateTime(env.parseDateTime(text).value)) else Err(BadDate(text))
  {}

  // ---- what decoding refuses ------------------------------------------------

  /** A recordset that cannot be restored is an error that names what is gone: its model, or the very ids. */
  lemma GoneRecordsAreNamed(env: Env, model: string, ids: seq<int>, uid: int, su: bool)
    ensures Decode(env, Encode(Records(model, ids, uid, su, []))) ==
      if model !in env.models then Err(UnknownModel(model))
      else if Missing(env, model, ids) != [] then Err(MissingRecords(model, Missing(env, model, ids)))
      else Ok(Records(model, ids, uid, su, env.context))
  {
    RecordObjectDecodes(env, model, ids, uid, su, JObject([]));
    HookSpares(env, []);
    HookedRecords(env, model, ids, uid, su, []);
  }

  lemma {:induction false} MissingIsExact(env: Env, model: string, ids: seq<int>, id: int)
    ensures id in Missing(env, model, ids) <==>
      id in ids && !(model in env.existing && id in env.existing[model])
  {
    if ids != [] {
      MissingIsExact(env, model, ids[1..], id);
      assert id in ids <==> id == ids[0] || id in ids[1..];
    }
  }

  /** Without recordsets, coming back normalised is coming back unchanged. */
  predicate Plain(v: Value)
    decreases v
  {
    match v
    case List(items) => AllPlain(items)
    case Dict(entries) => EntriesPlain(entries)
    case Records(_, _, _, _, _) => false
    case _ => true
  }

  predicate AllPlain(items: seq<Value>)
    decreases items
  {
    items == [] || (Plain(items[0]) && AllPlain(items[1..]))
  }

  predicate EntriesPlain(entries: seq<Entry<Value>>)
    decreases entries
  {
    entries == [] || (Plain(entries[0].value) && EntriesPlain(entries[1..]))
  }

  lemma {:induction false} PlainIsUnchanged(env: Env, v: Value)
    requires Plain(v)
    ensures Normal(env, v) == v
    decreases v
  {
    match v
    case List(items) => ItemsUnchanged(env, items);
    case Dict(entries) => EntriesUnchanged(env, entries);
    case _ =>
  }

  lemma {:induction false} ItemsUnchanged(env: Env, items: seq<Value>)
    requires AllPlain(items)
    ensures NormalAll(env, items) == items
    decreases items
  {
    if items != [] {
      PlainIsUnchanged(env, items[0]);
      ItemsUnchanged(env, items[1..]);
    }
  }

  lemma {:induction false} EntriesUnchanged(env: Env, entries: seq<Entry<Value>>)
    requires EntriesPlain(entries)
    ensures NormalEntries(env, entries) == entries
    decreases entries
  {
    if entries != [] {
      assert entries[0].value < entries[0];
      PlainIsUnchanged(env, entries[0].value);
      EntriesUnchanged(env, entries[1..]);
    }
  }
}
