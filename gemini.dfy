/**
 * The reply handling of `EnhancedGeminiService`
 * (building_optimizer/enhanced_gemini_service.py): the truncation of the
 * school registry XML, the removal of Markdown code fences from the
 * model's reply, the `has_registry_data` annotation and the fallback
 * record.  The model's reply is an input (`None` when the call raises) and
 * `json.loads` is a parameter; the cruder fence removal of
 * `GeminiService.get_building_suggestion` (building_optimizer/services.py:665)
 * is modelled beside it.
 */
module Gemini {
  import opened Wrappers
  import opened Text

  /** A JSON value as `json.loads` returns it. */
  datatype Json =
    | JNull
    | JBool(b: bool)
    | JNumber(n: real)
    | JString(s: string)
    | JArray(items: seq<Json>)
    | JObject(fields: map<string, Json>)

  // ---------------------------------------------------------------------
  // The registry XML
  // ---------------------------------------------------------------------

  const XmlLimit := 800000
  const XmlClose := "\n</root>"

  /** A file longer than the limit keeps its first 800000 characters and
      gets a closing root tag. */
  function TruncateXml(xml: string): (r: string)
    ensures |r| <= XmlLimit + |XmlClose|
    ensures |xml| <= XmlLimit ==> r == xml
    ensures |xml| > XmlLimit ==>
              |r| == XmlLimit + |XmlClose| && r[..XmlLimit] == xml[..XmlLimit] && r[XmlLimit..] == XmlClose
  {
    if |xml| > XmlLimit then xml[..XmlLimit] + XmlClose else xml
  }


  /** `_load_xml_data`: `None` when the file is missing or unreadable. */
  function LoadXml(file: Option<string>): (r: Option<string>)
    ensures r.Some? <==> file.Some?
    ensures r.Some? ==> r.value == TruncateXml(file.value)
  {
    match file
    case None => None
    case Some(xml) => Some(TruncateXml(xml))
  }

  /** `if not self.xml_data`: no file, or an empty one. */
  predicate HasXml(xml: Option<string>)
  {
    xml.Some? && xml.value != ""
  }

  // ---------------------------------------------------------------------
  // Code fences
  // ---------------------------------------------------------------------

  const Fence := "```"
  const JsonFence := "```json"

  /** enhanced_gemini_service.py:122-130: strip the reply; take the text
      between the first "```json" and the next "```", else the text
      between the first two "```", else the reply as it is. */
  function StripFences(reply: string): string
  {
    var text := Strip(reply);
    if Contains(text, JsonFence) then Strip(Split(Split(text, JsonFence)[1], Fence)[0])
    else if Contains(text, Fence) then Strip(Split(text, Fence)[1])
    else text
  }

  lemma FenceStartsJsonFence()
    ensures Fence <= JsonFence
  {
  }

  /** With a "```json" fence, the payload is what follows the first such
      fence, cut at the next "```json" and then at the first "```"; when
      no second "```json" follows, at the first "```". */
  lemma JsonFencePayload(reply: string)
    requires Contains(Strip(reply), JsonFence)
    ensures var rest := AfterFirst(Strip(reply), JsonFence);
            StripFences(reply) == Strip(BeforeFirst(BeforeFirst(rest, JsonFence), Fence))
    ensures var rest := AfterFirst(Strip(reply), JsonFence);
            !Contains(rest, JsonFence) ==> StripFences(reply) == Strip(BeforeFirst(rest, Fence))
  {
    var text := Strip(reply);
    SplitFirstPieces(text, JsonFence);
    SplitFirstPieces(Split(text, JsonFence)[1], Fence);
  }

  /** With only plain fences, the payload is the text between the first two
      of them, or after the first when there is no second. */
  lemma PlainFencePayload(reply: string)
    requires !Contains(Strip(reply), JsonFence) && Contains(Strip(reply), Fence)
    ensures StripFences(reply) == Strip(BeforeFirst(AfterFirst(Strip(reply), Fence), Fence))
  {
    SplitFirstPieces(Strip(reply), Fence);
  }

  /** A reply without fences only loses its outer whitespace. */
  lemma NoFenceUnchanged(reply: string)
    requires !Contains(Strip(reply), Fence)
    ensures StripFences(reply) == Strip(reply)
  {
    if Contains(Strip(reply), JsonFence) {
      FenceStartsJsonFence();
      ContainsPrefixOf(Strip(reply), Fence, JsonFence);
    }
  }

  /** Whenever the reply has a fence, the payload has none. */
  lemma FencesRemoved(reply: string)
    requires Contains(Strip(reply), Fence)
    ensures !Contains(StripFences(reply), Fence)
  {
    var text := Strip(reply);
    var piece: string;
    if Contains(text, JsonFence) {
      JsonFencePayload(reply);
      piece := BeforeFirst(BeforeFirst(AfterFirst(text, JsonFence), JsonFence), Fence);
    } else {
      PlainFencePayload(reply);
      piece := BeforeFirst(AfterFirst(text, Fence), Fence);
    }
    StripKeepsAbsence(piece, Fence);
  }

  /** Stripping cannot create an occurrence. */
  lemma StripKeepsAbsence(s: string, t: string)
    requires !Contains(s, t)
    ensures !Contains(Strip(s), t)
  {
    NotContainsSlice(s, t, LeadingSpaces(s), LeadingSpaces(s) + |Strip(s)|);
  }

  /** A text whose first and last characters are backticks is its own
      strip. */
  lemma StripBackticks(s: string)
    requires |s| > 0 && s[0] == '`' && s[|s| - 1] == '`'
    ensures Strip(s) == s
  {
    assert "" + s + "" == s;
    StripUnique("", s, "");
  }

  /** A text shorter than `t` does not contain it. */
  lemma TooShort(s: string, t: string)
    requires |s| < |t|
    ensures !Contains(s, t)
  {
  }

  /** A fence opened with a tag other than `json`, a body without
      backticks and a tail starting with a backtick or a line break hold
      no "```json". */
  lemma NoJsonFence(inner: string, tail: string)
    requires '`' !in inner && |inner| > 0 && !(JsonFence[3..] <= inner)
    requires 0 < |tail| <= 4 && (tail[0] == '`' || tail[0] == '\n')
    ensures !Contains(Fence + inner + tail, JsonFence)
  {
    var reply := Fence + inner + tail;
    assert forall k :: 3 <= k < 3 + |inner| ==> reply[k] == inner[k - 3];
    forall p | 0 <= p && p + |JsonFence| <= |reply|
      ensures !OccursAt(reply, JsonFence, p)
    {
      var w := reply[p..p + |JsonFence|];
      if p == 0 {
        if |inner| >= 4 {
          assert w[3..] == inner[..4];
        } else {
          assert w[3 + |inner|] == tail[0];
        }
      } else {
        var q := if p < 3 then 3 else p;
        assert w[q - p] == reply[q];
        assert reply[q] in inner;
      }
    }
  }

  /** The pieces of a block fenced by plain fences. */
  lemma PlainBlockPieces(inner: string)
    requires '`' !in inner
    ensures Contains(Fence + inner + Fence, Fence)
    ensures AfterFirst(Fence + inner + Fence, Fence) == inner + Fence
    ensures BeforeFirst(inner + Fence, Fence) == inner
  {
    TooShort("" + Fence[..2], Fence);
    FindFirstAt("", Fence, inner + Fence);
    assert "" + Fence + (inner + Fence) == Fence + inner + Fence;
    FindFirstAfterFree(inner, Fence, "");
    assert inner + Fence + "" == inner + Fence;
  }

  /** A fence with another language tag: the tag stays in the payload. */
  lemma OtherTagStays(tag: string, body: string)
    requires '`' !in tag && '`' !in body && |tag| > 0
    requires !(JsonFence[3..] <= tag + body)
    ensures StripFences(Fence + tag + body + Fence) == Strip(tag + body)
  {
    var inner := tag + body;
    var reply := Fence + inner + Fence;
    assert Fence + tag + body + Fence == reply;
    StripBackticks(reply);
    NoJsonFence(inner, Fence);
    PlainBlockPieces(inner);
    PlainFencePayload(reply);
  }

  // ---------------------------------------------------------------------
  // The cruder cleaning of services.py:665
  // ---------------------------------------------------------------------

  const JsonFenceLine := "```json\n"
  const FenceLine := "\n```"

  /** `text.replace("```json\n", "").replace("\n```", "").strip()`. */
  function CrudeStrip(text: string): string
  {
    Strip(Replace(Replace(text, JsonFenceLine, ""), FenceLine, ""))
  }

  lemma JsonFenceStartsLine()
    ensures JsonFence <= JsonFenceLine && JsonFenceLine == JsonFence + "\n"
  {
  }

  /** A body without backticks is followed by its closing "\n```" at
      the first occurrence. */
  lemma ClosingLineFirst(body: string)
    requires '`' !in body
    ensures !Contains(body + FenceLine[..|FenceLine| - 1], FenceLine)
  {
    var v := body + FenceLine[..|FenceLine| - 1];
    forall j | 0 <= j && j + |FenceLine| <= |v|
      ensures !OccursAt(v, FenceLine, j)
    {
      assert v[j..j + |FenceLine|][1] == v[j + 1];
      assert j + 1 < |body| ==> v[j + 1] in body;
    }
  }

  /** The crude cleaning of a json block. */
  lemma CrudeOnJsonBlock(body: string)
    requires '`' !in body
    ensures CrudeStrip(JsonFenceLine + body + FenceLine) == Strip(body)
  {
    var reply := JsonFenceLine + body + FenceLine;
    var rest := body + FenceLine;
    TooShort("" + JsonFenceLine[..|JsonFenceLine| - 1], JsonFenceLine);
    FindFirstAt("", JsonFenceLine, rest);
    assert "" + JsonFenceLine + rest == reply;
    forall p | 0 <= p && p + |JsonFenceLine| <= |rest|
      ensures rest[p] != JsonFenceLine[0]
    {
      assert rest[p] in body;
    }
    NotContainsByFirstChar(rest, JsonFenceLine);
    assert reply[|JsonFenceLine|..] == rest;
    ReplaceOnce(reply, JsonFenceLine, "", 0);
    assert Replace(reply, JsonFenceLine, "") == rest;
    ClosingLineFirst(body);
    FindFirstAt(body, FenceLine, "");
    assert body + FenceLine + "" == rest;
    TooShort("", FenceLine);
    assert rest[|body| + |FenceLine|..] == "";
    ReplaceOnce(rest, FenceLine, "", |body|);
    assert rest[..|body|] == body;
    assert rest[..|body|] + "" + rest[|body| + |FenceLine|..] == body;
    assert Replace(Replace(reply, JsonFenceLine, ""), FenceLine, "") == body;
  }

  /** The text after the opening "```json" of a json block holds no
      other "```json". */
  lemma JsonBlockRest(body: string)
    requires '`' !in body
    ensures var reply := JsonFenceLine + body + FenceLine;
            Contains(reply, JsonFence) &&
            AfterFirst(reply, JsonFence) == "\n" + body + "\n" + Fence &&
            !Contains(AfterFirst(reply, JsonFence), JsonFence)
  {
    var reply := JsonFenceLine + body + FenceLine;
    var cut := "\n" + body + "\n";
    var after := cut + Fence;
    JsonFenceStartsLine();
    assert reply == "" + JsonFence + after;
    TooShort("" + JsonFence[..|JsonFence| - 1], JsonFence);
    FindFirstAt("", JsonFence, after);
    forall p | 0 <= p && p + |JsonFence| <= |after|
      ensures after[p] != JsonFence[0]
    {
      assert after[p] == cut[p];
      assert p > 0 ==> cut[p] in body;
    }
    NotContainsByFirstChar(after, JsonFence);
  }

  /** The text between the fences of a json block. */
  lemma JsonBlockInside(body: string)
    requires '`' !in body
    ensures BeforeFirst("\n" + body + "\n" + Fence, Fence) == "\n" + body + "\n"
  {
    var cut := "\n" + body + "\n";
    assert '`' !in cut by {
      assert forall k :: 0 < k < |cut| - 1 ==> cut[k] == body[k - 1];
    }
    FindFirstAfterFree(cut, Fence, "");
    assert cut + Fence + "" == cut + Fence;
  }

  /** The enhanced cleaning of a json block. */
  lemma EnhancedOnJsonBlock(body: string)
    requires '`' !in body
    ensures StripFences(JsonFenceLine + body + FenceLine) == Strip(body)
  {
    var reply := JsonFenceLine + body + FenceLine;
    StripBackticks(reply);
    JsonBlockRest(body);
    JsonBlockInside(body);
    JsonFencePayload(reply);
    StripPadding("\n", body, "\n");
  }

  /** On a well-formed json block both cleanings give the stripped body. */
  lemma CleaningsAgree(body: string)
    requires '`' !in body
    ensures CrudeStrip(JsonFenceLine + body + FenceLine) == StripFences(JsonFenceLine + body + FenceLine)
  {
    CrudeOnJsonBlock(body);
    EnhancedOnJsonBlock(body);
  }

  /** A fence, text without backticks, then one line break before the
      closing fence: the closing "\n```" is the first. */
  lemma ClosingLineAfterFence(inner: string)
    requires '`' !in inner
    ensures !Contains(Fence + inner + FenceLine[..|FenceLine| - 1], FenceLine)
  {
    var v := Fence + inner + FenceLine[..|FenceLine| - 1];
    forall j | 0 <= j && j + |FenceLine| <= |v|
      ensures !OccursAt(v, FenceLine, j)
    {
      var w := v[j..j + |FenceLine|];
      if j < 3 {
        assert w[0] == '`';
      } else {
        assert w[1] == v[j + 1];
        assert j + 1 < 3 + |inner| ==> v[j + 1] == inner[j - 2];
      }
    }
  }

  /** A strip of a text opening with a fence keeps the fence. */
  lemma StripKeepsOpeningFence(s: string)
    requires Fence <= s
    ensures Contains(Strip(s), Fence)
  {
    assert !IsSpace(s[0]) && !IsSpace(s[1]) && !IsSpace(s[2]);
    LeadingSpacesAre(s, 0);
    var r := Strip(s);
    assert |r| >= 3;
    assert r[..3] == Fence;
    assert OccursAt(r, Fence, 0);
  }

  /** The crude cleaning of a block with another tag keeps the opening
      fence. */
  lemma CrudeOnOtherBlock(inner: string)
    requires '`' !in inner && |inner| > 0 && !(JsonFence[3..] <= inner)
    ensures Contains(CrudeStrip(Fence + inner + FenceLine), Fence)
  {
    var reply := Fence + inner + FenceLine;
    NoJsonFence(inner, FenceLine);
    JsonFenceStartsLine();
    if Contains(reply, JsonFenceLine) {
      ContainsPrefixOf(reply, JsonFence, JsonFenceLine);
    }
    ReplaceAbsent(reply, JsonFenceLine, "");
    var head := Fence + inner;
    ClosingLineAfterFence(inner);
    FindFirstAt(head, FenceLine, "");
    assert head + FenceLine + "" == reply;
    TooShort("", FenceLine);
    assert reply[|head| + |FenceLine|..] == "";
    ReplaceOnce(reply, FenceLine, "", |head|);
    assert reply[..|head|] == head;
    assert reply[..|head|] + "" + reply[|head| + |FenceLine|..] == head;
    assert Replace(Replace(reply, JsonFenceLine, ""), FenceLine, "") == head;
    StripKeepsOpeningFence(head);
  }

  /** With another tag the crude cleaning leaves the opening fence in
      place, where the enhanced one removes every fence. */
  lemma CrudeKeepsOtherFence(tag: string, body: string)
    requires '`' !in tag && '`' !in body && |tag| > 0
    requires !(JsonFence[3..] <= tag + body)
    ensures Contains(CrudeStrip(Fence + tag + body + FenceLine), Fence)
    ensures !Contains(StripFences(Fence + tag + body + FenceLine), Fence)
  {
    var inner := tag + body;
    var reply := Fence + inner + FenceLine;
    assert Fence + tag + body + FenceLine == reply;
    CrudeOnOtherBlock(inner);
    StripBackticks(reply);
    assert OccursAt(reply, Fence, 0);
    ContainsAt(reply, Fence, 0);
    FencesRemoved(reply);
  }

  // ---------------------------------------------------------------------
  // The school record
  // ---------------------------------------------------------------------

  const RegistryKey := "has_registry_data"

  /** `school_info.get('found', False)`. */
  function Found(fields: map<string, Json>): (v: Json)
    ensures "found" in fields ==> v == fields["found"]
    ensures "found" !in fields ==> v == JBool(false)
  {
    if "found" in fields then fields["found"] else JBool(false)
  }

  /** enhanced_gemini_service.py:144 on the parsed value: an object gets
      `has_registry_data` set to its `found` field; any other value makes
      `.get` raise, which the handler turns into the fallback. */
  function Annotate(parsed: Json): (r: Option<Json>)
    ensures r.Some? <==> parsed.JObject?
    ensures r.Some? ==> r.value.JObject? && r.value.fields.Keys == parsed.fields.Keys + {RegistryKey}
    ensures r.Some? ==> r.value.fields[RegistryKey] == Found(parsed.fields)
    ensures r.Some? ==> forall k :: k in parsed.fields && k != RegistryKey ==> r.value.fields[k] == parsed.fields[k]
  {
    match parsed
    case JObject(fields) => Some(JObject(fields[RegistryKey := Found(fields)]))
    case _ => None
  }

  const FallbackPrefix := "Информация о школе "
  const FallbackSuffix := " временно недоступна."
  const NotGiven := "Не указано"

  /** `_generate_fallback_info`. */
  function Fallback(schoolName: string): (r: Json)
    ensures r.JObject? && RegistryKey in r.fields && r.fields[RegistryKey] == JBool(false)
    ensures "description" in r.fields && r.fields["description"].JString?
    ensures r.fields.Keys == {"students_count", "staff_count", "ownership", "language", "specialization",
                              "address", "contact_info", "description", RegistryKey}
  {
    JObject(map[
      "students_count" := JString(NotGiven),
      "staff_count" := JString(NotGiven),
      "ownership" := JString(NotGiven),
      "language" := JString("Кыргызский/Русский"),
      "specialization" := JString("Общеобразовательная школа"),
      "address" := JString("Бишкек"),
      "contact_info" := JString(NotGiven),
      "description" := JString(FallbackPrefix + schoolName + FallbackSuffix),
      RegistryKey := JBool(false)])
  }

  /** The fallback description names the school. */
  lemma FallbackNamesSchool(schoolName: string)
    ensures Contains(Fallback(schoolName).fields["description"].s, schoolName)
  {
    var d := FallbackPrefix + schoolName + FallbackSuffix;
    assert d[|FallbackPrefix|..|FallbackPrefix| + |schoolName|] == schoolName;
    ContainsAt(d, schoolName, |FallbackPrefix|);
  }

  /** `generate_enhanced_school_info` with the model's reply text (`None`
      when the request or `response.text` raises) and `json.loads` as
      `parse` (`None` on a decode error). */
  function SchoolInfo(xml: Option<string>, schoolName: string, reply: Option<string>,
                      parse: string -> Option<Json>): (r: Json)
    ensures r.JObject? && RegistryKey in r.fields
  {
    if !HasXml(xml) then Fallback(schoolName)
    else match reply
      case None => Fallback(schoolName)
      case Some(text) =>
        match parse(StripFences(text))
        case None => Fallback(schoolName)
        case Some(parsed) => Annotate(parsed).GetOr(Fallback(schoolName))
  }

  /** Without XML, or when the model fails, or when the payload does not
      parse to an object, the result is the fallback record. */
  lemma SchoolInfoFallback(xml: Option<string>, schoolName: string, reply: Option<string>,
                           parse: string -> Option<Json>)
    requires !HasXml(xml) || reply.None? ||
             parse(StripFences(reply.value)).None? || !parse(StripFences(reply.value)).value.JObject?
    ensures SchoolInfo(xml, schoolName, reply, parse) == Fallback(schoolName)
  {
  }

  /** A parsed object comes back with `has_registry_data` added and nothing
      else changed. */
  lemma SchoolInfoParsed(xml: Option<string>, schoolName: string, text: string,
                         parse: string -> Option<Json>, fields: map<string, Json>)
    requires HasXml(xml) && parse(StripFences(text)) == Some(JObject(fields))
    ensures var r := SchoolInfo(xml, schoolName, Some(text), parse);
            r.fields.Keys == fields.Keys + {RegistryKey} &&
            r.fields[RegistryKey] == Found(fields) &&
            forall k :: k in fields && k != RegistryKey ==> k in r.fields && r.fields[k] == fields[k]
  {
  }

  /** The service object: the XML it loaded at construction. */
  class EnhancedGeminiService {
    var xmlData: Option<string>

    /** enhanced_gemini_service.py:10-15, with the file's contents (or
        `None`) given. */
    constructor(file: Option<string>)
      ensures xmlData == LoadXml(file)
    {
      xmlData := LoadXml(file);
    }

    /** enhanced_gemini_service.py:57-156.  `contacted` says whether the
        model was asked. */
    method GenerateEnhancedSchoolInfo(schoolName: string, reply: Option<string>, parse: string -> Option<Json>)
      returns (info: Json, contacted: bool)
      ensures contacted <==> HasXml(xmlData)
      ensures info == SchoolInfo(xmlData, schoolName, reply, parse)
    {
      if xmlData.None? || xmlData.value == "" {
        return Fallback(schoolName), false;
      }
      contacted := true;
      if reply.None? {
        return Fallback(schoolName), contacted;
      }
      var payload := StripFences(reply.value);
      var parsed := parse(payload);
      if parsed.None? {
        return Fallback(schoolName), contacted;
      }
      match parsed.value {
        case JObject(fields) =>
          info := JObject(fields[RegistryKey := Found(fields)]);
        case _ =>
          info := Fallback(schoolName);
      }
    }
  }
}
