/** The webhook payload extractors of app/main.py: each looks up a fixed
    list of keys in priority order, takes the first non-blank string, and
    falls back to nested objects. A payload is a parsed JSON value. */
module Payload {
  import opened Base
  import opened Phones

  /** A parsed JSON value. Numbers are integers here. */
  datatype Json =
    | JNull
    | JBool(b: bool)
    | JNum(n: int)
    | JStr(s: string)
    | JList(items: seq<Json>)
    | JObject(fields: seq<Member>)

  datatype Member = Member(key: string, value: Json)

  /** Python truthiness of a JSON value. */
  predicate Truthy(v: Json) {
    match v
    case JNull => false
    case JBool(b) => b
    case JNum(n) => n != 0
    case JStr(s) => s != ""
    case JList(items) => items != []
    case JObject(fields) => fields != []
  }

  /** The position of `key` in an object, as `dict.get` sees it: when a key
      repeats, the last occurrence wins, as in `json.loads`. */
  function Lookup(fields: seq<Member>, key: string): (r: Option<nat>)
    ensures r.Some? ==> r.value < |fields| && fields[r.value].key == key
                        && forall j :: r.value < j < |fields| ==> fields[j].key != key
    ensures r.None? ==> forall j :: 0 <= j < |fields| ==> fields[j].key != key
  {
    if fields == [] then None
    else if fields[|fields| - 1].key == key then Some(|fields| - 1)
    else Lookup(fields[..|fields| - 1], key)
  }

  /** `payload.get(key)` */
  function Get(fields: seq<Member>, key: string): Option<Json> {
    var i := Lookup(fields, key);
    if i.Some? then Some(fields[i.value].value) else None
  }

  /** `isinstance(v, str) and v.strip()`, giving the stripped text. */
  function NonBlank(v: Option<Json>): (r: Option<string>)
    ensures r.Some? ==> r.value != "" && IsStripped(r.value)
    ensures r.Some? <==> v.Some? && v.value.JStr? && Strip(v.value.s) != ""
  {
    if v.Some? && v.value.JStr? && Strip(v.value.s) != "" then
      StripIsStripped(v.value.s);
      Some(Strip(v.value.s))
    else None
  }

  /** The first key, in order, whose value is a non-blank string. */
  function FirstNonBlank(fields: seq<Member>, keys: seq<string>): (r: Option<string>)
    ensures r.Some? ==> r.value != "" && IsStripped(r.value)
    ensures r.None? <==> forall i :: 0 <= i < |keys| ==> NonBlank(Get(fields, keys[i])).None?
  {
    if keys == [] then None
    else
      var v := NonBlank(Get(fields, keys[0]));
      if v.Some? then v else FirstNonBlank(fields, keys[1..])
  }

  /** The key list decides: the first key with a non-blank string wins,
      whatever the later keys hold. */
  lemma {:induction false} FirstNonBlankPriority(fields: seq<Member>, keys: seq<string>, i: nat)
    requires i < |keys| && NonBlank(Get(fields, keys[i])).Some?
    requires forall j :: 0 <= j < i ==> NonBlank(Get(fields, keys[j])).None?
    ensures FirstNonBlank(fields, keys) == NonBlank(Get(fields, keys[i]))
  {
    if i > 0 {
      BlankPrefixTail(fields, keys, i);
      FirstNonBlankPriority(fields, keys[1..], i - 1);
      FirstNonBlankSkip(fields, keys);
    }
  }

  lemma BlankPrefixTail(fields: seq<Member>, keys: seq<string>, i: nat)
    requires 0 < i < |keys|
    requires forall j :: 0 <= j < i ==> NonBlank(Get(fields, keys[j])).None?
    ensures keys[1..][i - 1] == keys[i] && NonBlank(Get(fields, keys[0])).None?
    ensures forall j :: 0 <= j < i - 1 ==> NonBlank(Get(fields, keys[1..][j])).None?
  {
    forall j | 0 <= j < i - 1 ensures NonBlank(Get(fields, keys[1..][j])).None? {
      assert keys[1..][j] == keys[j + 1];
    }
  }

  lemma FirstNonBlankSkip(fields: seq<Member>, keys: seq<string>)
    requires keys != [] && NonBlank(Get(fields, keys[0])).None?
    ensures FirstNonBlank(fields, keys) == FirstNonBlank(fields, keys[1..])
  {
  }

  const TextKeys: seq<string> := ["body", "message", "text", "content", "Message"]
  const TextContainers: seq<string> := ["data", "sms", "message", "Message"]

  /** `_extract_text`: a direct text key, else the text of the first nested
      object among the containers that has one, else "". */
  function ExtractText(p: Json): (r: string)
    requires p.JObject?
    ensures r == "" || IsStripped(r)
    decreases p, 5
  {
    var direct := FirstNonBlank(p.fields, TextKeys);
    if direct.Some? then direct.value else NestedText(p, TextContainers)
  }

  function NestedText(p: Json, containers: seq<string>): (r: string)
    requires p.JObject? && |containers| <= 4
    ensures r == "" || IsStripped(r)
    decreases p, |containers|
  {
    if containers == [] then ""
    else
      var i := Lookup(p.fields, containers[0]);
      if i.Some? && p.fields[i.value].value.JObject? then
        var t := ExtractText(p.fields[i.value].value);
        if t != "" then t else NestedText(p, containers[1..])
      else NestedText(p, containers[1..])
  }

  /** A direct text key is preferred to any nested object. */
  lemma TextPrefersDirect(p: Json)
    requires p.JObject? && FirstNonBlank(p.fields, TextKeys).Some?
    ensures ExtractText(p) == FirstNonBlank(p.fields, TextKeys).value
  {
  }

  /** Without a direct text key, a `data` object with text supplies it. */
  lemma TextFromData(p: Json, inner: Json)
    requires p.JObject? && FirstNonBlank(p.fields, TextKeys).None?
    requires Get(p.fields, "data") == Some(inner) && inner.JObject? && ExtractText(inner) != ""
    ensures ExtractText(p) == ExtractText(inner)
  {
  }

  /** A string under one of `keys`, or an object there holding a non-blank
      string under one of `subKeys`: the first key that yields either. */
  function KeyedId(fields: seq<Member>, keys: seq<string>, subKeys: seq<string>): (r: Option<string>)
    ensures r.Some? ==> r.value != "" && IsStripped(r.value)
  {
    if keys == [] then None
    else
      var v := Get(fields, keys[0]);
      var s := NonBlank(v);
      if s.Some? then s
      else if v.Some? && v.value.JObject? && FirstNonBlank(v.value.fields, subKeys).Some? then
        FirstNonBlank(v.value.fields, subKeys)
      else KeyedId(fields, keys[1..], subKeys)
  }

  /** A keyed id found at this level, else the same search inside a `data`
      object, recursively. */
  function IdWithData(p: Json, keys: seq<string>, subKeys: seq<string>): (r: Option<string>)
    requires p.JObject?
    ensures r.Some? ==> r.value != "" && IsStripped(r.value)
    decreases p
  {
    var here := KeyedId(p.fields, keys, subKeys);
    if here.Some? then here
    else
      var d := Lookup(p.fields, "data");
      if d.Some? && p.fields[d.value].value.JObject? then IdWithData(p.fields[d.value].value, keys, subKeys)
      else None
  }

  /** `_extract_conversation_id` */
  function ExtractConversationId(p: Json): (r: Option<string>)
    requires p.JObject?
    ensures r.Some? ==> r.value != "" && IsStripped(r.value)
  {
    IdWithData(p, ["conversationId", "conversation_id", "conversation", "conversationID"], ["id", "conversationId"])
  }

  /** `_extract_contact_id` */
  function ExtractContactId(p: Json): (r: Option<string>)
    requires p.JObject?
    ensures r.Some? ==> r.value != "" && IsStripped(r.value)
  {
    IdWithData(p, ["contactId", "contact_id", "contact", "contactID"], ["id"])
  }

  /** An id nested one level down is found exactly when no direct key
      yields one, and then it is the nested one. */
  lemma IdFromNestedObject(p: Json, keys: seq<string>, subKeys: seq<string>)
    requires p.JObject? && |keys| >= 1 && NonBlank(Get(p.fields, keys[0])).None?
    requires Get(p.fields, keys[0]).Some? && Get(p.fields, keys[0]).value.JObject?
    requires FirstNonBlank(Get(p.fields, keys[0]).value.fields, subKeys).Some?
    ensures IdWithData(p, keys, subKeys) == FirstNonBlank(Get(p.fields, keys[0]).value.fields, subKeys)
  {
  }

  const PhoneKeys: seq<string> := ["from", "fromNumber", "phone", "customerPhone"]

  /** `_extract_from_phone`: the first non-blank phone key, normalised, else
      the same search inside `data`. The normalised phone holds only digits
      and "+", and is empty when the text had neither. */
  function ExtractFromPhone(p: Json): (r: Option<string>)
    requires p.JObject?
    ensures r.Some? ==> forall i :: 0 <= i < |r.value| ==> IsDialChar(r.value[i])
    decreases p
  {
    var raw := FirstRawPhone(p.fields, PhoneKeys);
    if raw.Some? then NormalizePhone(raw)
    else
      var d := Lookup(p.fields, "data");
      if d.Some? && p.fields[d.value].value.JObject? then ExtractFromPhone(p.fields[d.value].value)
      else None
  }

  /** The unstripped string of the first phone key whose value is a
      non-blank string; `_normalize_phone` strips it itself. */
  function FirstRawPhone(fields: seq<Member>, keys: seq<string>): (r: Option<string>)
    ensures r.Some? ==> Strip(r.value) != ""
    ensures r.None? <==> forall i :: 0 <= i < |keys| ==> NonBlank(Get(fields, keys[i])).None?
  {
    if keys == [] then None
    else
      var v := Get(fields, keys[0]);
      if NonBlank(v).Some? then Some(v.value.s) else FirstRawPhone(fields, keys[1..])
  }

  /** `_extract_direction`: lower-cased, else from `data`, else "". */
  function ExtractDirection(p: Json): (r: string)
    requires p.JObject?
    ensures Lower(r) == r
    decreases p
  {
    var v := FirstNonBlank(p.fields, ["direction", "type"]);
    if v.Some? then LowerIdempotent(v.value); Lower(v.value)
    else
      var d := Lookup(p.fields, "data");
      if d.Some? && p.fields[d.value].value.JObject? then ExtractDirection(p.fields[d.value].value)
      else ""
  }

  const ContactTypeKeys: seq<string> := ["contactType", "contact_type", "type"]

  /** `_extract_contact_type`: lower-cased, from the payload, else from the
      `contact` value when it is truthy and otherwise the `data` value, when
      that is an object. No deeper search. */
  function ExtractContactType(p: Json): (r: Option<string>)
    requires p.JObject?
    ensures r.Some? ==> r.value != "" && Lower(r.value) == r.value
  {
    var v := FirstNonBlank(p.fields, ContactTypeKeys);
    if v.Some? then LowerIdempotent(v.value); Some(Lower(v.value))
    else
      var c := Get(p.fields, "contact");
      var d := if c.Some? && Truthy(c.value) then c else Get(p.fields, "data");
      if d.Some? && d.value.JObject? then
        var w := FirstNonBlank(d.value.fields, ContactTypeKeys);
        if w.Some? then LowerIdempotent(w.value); Some(Lower(w.value)) else None
      else None
  }

  /** A truthy non-object `contact` hides the `data` object: the contact
      type is then not looked for in `data`. */
  lemma ContactShadowsData(p: Json)
    requires p.JObject? && FirstNonBlank(p.fields, ContactTypeKeys).None?
    requires Get(p.fields, "contact").Some? && Truthy(Get(p.fields, "contact").value)
    requires !Get(p.fields, "contact").value.JObject?
    ensures ExtractContactType(p).None?
  {
  }

  const NameKeys: seq<string> := ["contactName", "fullName", "full_name", "name"]

  /** `_extract_contact_name`: the payload, then the `contact` object, then
      the `data` object. */
  function ExtractContactName(p: Json): (r: Option<string>)
    requires p.JObject?
    ensures r.Some? ==> r.value != "" && IsStripped(r.value)
  {
    var v := FirstNonBlank(p.fields, NameKeys);
    if v.Some? then v
    else
      var c := Get(p.fields, "contact");
      var fromContact := if c.Some? && c.value.JObject? then FirstNonBlank(c.value.fields, NameKeys) else None;
      if fromContact.Some? then fromContact
      else
        var d := Get(p.fields, "data");
        if d.Some? && d.value.JObject? then FirstNonBlank(d.value.fields, NameKeys) else None
  }

  /** The route the unanswered-call webhook requires. */
  const TechRoute: string := "tech_sentinel"

  /** `"tech_sentinel" in routes`, where `routes` is `[str(x) for x in vr]`
      for a list, `[str(vr)]` for any other non-null value and `[]` for
      null or a missing key. Only a string renders as "tech_sentinel" under
      `str`, so the check is on strings. */
  predicate RoutedToSentinel(p: Json)
    requires p.JObject?
    ensures Get(p.fields, "voicemail_route") == Some(JStr(TechRoute)) ==> RoutedToSentinel(p)
    ensures Get(p.fields, "voicemail_route") == Some(JList([JStr(TechRoute)])) ==> RoutedToSentinel(p)
    ensures Get(p.fields, "voicemail_route") in {None, Some(JNull), Some(JList([]))} ==> !RoutedToSentinel(p)
  {
    var vr := Get(p.fields, "voicemail_route");
    vr.Some? &&
    match vr.value
    case JList(items) => JStr(TechRoute) in items
    case JNull => false
    case _ => vr.value == JStr(TechRoute)
  }

  lemma LowerIdempotent(s: string)
    ensures Lower(Lower(s)) == Lower(s)
  {
  }
}
