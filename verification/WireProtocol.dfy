/** Requests, responses and their frames (protocol.py, lines 38-148 and 193-257). */
module WireProtocol {
  import opened Json
  import opened Options
  import opened Utf8
  import JsonGrammar

  datatype Scope = Web | Paper | Everything

  datatype Request =
    | KeywordSearch(query: Text, provider: Option<Text>)
    | PaperSearch(query: Text, provider: Option<Text>)
    | LLMSearch(prompt: Text, scope: Scope, provider: Option<Text>, model: Option<Text>)
    | AgentSearch(prompt: Text, scope: Scope, provider: Option<Text>, model: Option<Text>)
    | URLFetch(url: Text, focus: Option<Text>)
    | Shutdown

  const ERROR_CODES: set<Text> := {
    Lit("bad_request"), Lit("empty_query"), Lit("invalid_url"), Lit("url_not_admitted"),
    Lit("no_keyword_search_providers"), Lit("no_llm_search_providers"), Lit("no_agent_search_providers"),
    Lit("no_url_fetch_providers"), Lit("no_academic_search_providers"), Lit("all_providers_failed"),
    Lit("llm_stage_failed"), Lit("protocol_error"), Lit("config_error"), Lit("daemon_shutting_down")}

  type ErrorCode = t: Text | t in ERROR_CODES witness Lit("bad_request")

  datatype Response = Success(text: Text) | Failure(error: ErrorCode, message: Text)

  /** A decoded request frame: a request, or the error response that answers it. */
  datatype Decoded = Ok(request: Request) | Bad(message: string)

  const TYPE := Lit("type")
  const QUERY := Lit("query")
  const PROMPT := Lit("prompt")
  const SCOPE := Lit("scope")
  const PROVIDER := Lit("provider")
  const MODEL := Lit("model")
  const URL := Lit("url")
  const FOCUS := Lit("focus")
  const OK := Lit("ok")
  const TEXT := Lit("text")
  const ERROR := Lit("error")
  const MESSAGE := Lit("message")

  // ----- decoding requests -----

  predicate StringAt(m: map<Text, Json>, key: Text)
  {
    key in m && m[key].JString?
  }

  /** A selector is absent, or a string. */
  predicate OptionalAt(m: map<Text, Json>, key: Text)
  {
    key in m ==> m[key].JString?
  }

  function OptionalString(m: map<Text, Json>, key: Text): Option<Text>
    requires OptionalAt(m, key)
  {
    if key in m then Some(m[key].text) else None
  }

  function ScopeName(scope: Scope): Text
  {
    match scope
    case Web => Lit("web")
    case Paper => Lit("paper")
    case Everything => Lit("all")
  }

  function ParseScope(m: map<Text, Json>): Option<Scope>
  {
    var value := if SCOPE in m then m[SCOPE] else JString(Lit("web"));
    if value == JString(Lit("web")) then Some(Web)
    else if value == JString(Lit("paper")) then Some(Paper)
    else if value == JString(Lit("all")) then Some(Everything)
    else None
  }

  /** `None` is the source's ValueError. */
  function ParseQuery(m: map<Text, Json>): Option<(Text, Option<Text>)>
  {
    if !({TYPE, QUERY} <= m.Keys <= {TYPE, QUERY, PROVIDER}) || !StringAt(m, QUERY) || !OptionalAt(m, PROVIDER) then
      None
    else Some((m[QUERY].text, OptionalString(m, PROVIDER)))
  }

  datatype Prompt = Prompt(text: Text, scope: Scope, provider: Option<Text>, model: Option<Text>)

  function ParsePrompt(m: map<Text, Json>): Option<Prompt>
  {
    if !({TYPE, PROMPT} <= m.Keys <= {TYPE, PROMPT, SCOPE, PROVIDER, MODEL}) || !StringAt(m, PROMPT) then None
    else if !OptionalAt(m, PROVIDER) || !OptionalAt(m, MODEL) then None
    else
      match ParseScope(m)
      case None => None
      case Some(scope) => Some(Prompt(m[PROMPT].text, scope, OptionalString(m, PROVIDER), OptionalString(m, MODEL)))
  }

  function ParseFetch(m: map<Text, Json>): Option<Request>
  {
    if m.Keys != {TYPE, URL, FOCUS} || !m[URL].JString? then None
    else if m[FOCUS].JNull? then Some(URLFetch(m[URL].text, None))
    else if m[FOCUS].JString? then Some(URLFetch(m[URL].text, Some(m[FOCUS].text)))
    else None
  }

  const BAD_FIELDS := Bad("Request fields do not match schema")

  function DecodeFields(requestType: Text, m: map<Text, Json>): Decoded
  {
    if requestType == Lit("keyword_search") then
      var q := ParseQuery(m);
      if q.None? then BAD_FIELDS else Ok(KeywordSearch(q.value.0, q.value.1))
    else if requestType == Lit("paper_search") then
      var q := ParseQuery(m);
      if q.None? then BAD_FIELDS else Ok(PaperSearch(q.value.0, q.value.1))
    else if requestType == Lit("llm_search") then
      var p := ParsePrompt(m);
      if p.None? then BAD_FIELDS else Ok(LLMSearch(p.value.text, p.value.scope, p.value.provider, p.value.model))
    else if requestType == Lit("agent_search") then
      var p := ParsePrompt(m);
      if p.None? then BAD_FIELDS else Ok(AgentSearch(p.value.text, p.value.scope, p.value.provider, p.value.model))
    else if requestType == Lit("url_fetch") then
      var r := ParseFetch(m);
      if r.None? then BAD_FIELDS else Ok(r.value)
    else if requestType == Lit("shutdown") then
      if m.Keys != {TYPE} then BAD_FIELDS else Ok(Shutdown)
    else Bad("Unknown request type")
  }

  function DecodeFrame(frame: seq<Byte>): Decoded
  {
    match Decode(frame)
    case None => Bad("Request must be valid UTF-8 JSON")
    case Some(text) =>
      match Loads(text)
      case None => Bad("Request must be valid UTF-8 JSON")
      case Some(payload) =>
        if !payload.JObject? then Bad("Request must be a JSON object")
        else if !StringAt(payload.fields, TYPE) then Bad("Request type must be a string")
        else DecodeFields(payload.fields[TYPE].text, payload.fields)
  }

  // ----- encoding -----

  function Named(key: Text, value: Text): Field
  {
    (key, JString(value))
  }

  function Elided(key: Text, value: Option<Text>): seq<Field>
  {
    if value.Some? then [Named(key, value.value)] else []
  }

  function ElidedScope(scope: Scope): seq<Field>
  {
    if scope.Web? then [] else [Named(SCOPE, ScopeName(scope))]
  }

  function PromptPayload(requestType: Text, prompt: Text, scope: Scope, provider: Option<Text>,
                         model: Option<Text>): seq<Field>
  {
    [Named(TYPE, requestType), Named(PROMPT, prompt)] + ElidedScope(scope) + Elided(PROVIDER, provider)
      + Elided(MODEL, model)
  }

  function RequestPayload(request: Request): (p: seq<Field>)
    ensures p != []
  {
    match request
    case KeywordSearch(query, provider) =>
      [Named(TYPE, Lit("keyword_search")), Named(QUERY, query)] + Elided(PROVIDER, provider)
    case PaperSearch(query, provider) =>
      [Named(TYPE, Lit("paper_search")), Named(QUERY, query)] + Elided(PROVIDER, provider)
    case LLMSearch(prompt, scope, provider, model) => PromptPayload(Lit("llm_search"), prompt, scope, provider, model)
    case AgentSearch(prompt, scope, provider, model) =>
      PromptPayload(Lit("agent_search"), prompt, scope, provider, model)
    case URLFetch(url, focus) =>
      [Named(TYPE, Lit("url_fetch")), Named(URL, url), (FOCUS, if focus.Some? then JString(focus.value) else JNull)]
    case Shutdown => [Named(TYPE, Lit("shutdown"))]
  }

  function ResponsePayload(response: Response): (p: seq<Field>)
    ensures p != []
  {
    match response
    case Success(text) => [(OK, JBool(true)), Named(TEXT, text)]
    case Failure(error, message) => [(OK, JBool(false)), Named(ERROR, error), Named(MESSAGE, message)]
  }

  const NEWLINE_BYTE: Byte := 0x0A

  /** A frame with its newline; `None` is UnicodeEncodeError. */
  function EncodePayload(payload: seq<Field>): Option<seq<Byte>>
    requires payload != []
  {
    match Encode(Dumps(payload))
    case None => None
    case Some(bytes) => Some(bytes + [NEWLINE_BYTE])
  }

  function EncodeRequest(request: Request): Option<seq<Byte>>
  {
    EncodePayload(RequestPayload(request))
  }

  function EncodeResponse(response: Response): Option<seq<Byte>>
  {
    EncodePayload(ResponsePayload(response))
  }

  // ----- responses -----

  datatype Parsed = Answer(response: Response) | ProtocolError(message: string)

  function ParseResponseFrame(frame: seq<Byte>): Parsed
  {
    match Decode(frame)
    case None => ProtocolError("Response must be valid UTF-8 JSON")
    case Some(text) =>
      match Loads(text)
      case None => ProtocolError("Response must be valid UTF-8 JSON")
      case Some(payload) =>
        if !payload.JObject? || OK !in payload.fields || !payload.fields[OK].JBool? then
          ProtocolError("Response must contain boolean ok")
        else ParseResponse(payload.fields, payload.fields[OK].value)
  }

  function ParseResponse(m: map<Text, Json>, ok: bool): Parsed
  {
    if ok then
      if m.Keys != {OK, TEXT} || !StringAt(m, TEXT) then ProtocolError("Success response fields do not match schema")
      else Answer(Success(m[TEXT].text))
    else if m.Keys != {OK, ERROR, MESSAGE} then ProtocolError("Error response fields do not match schema")
    else if !StringAt(m, ERROR) || !StringAt(m, MESSAGE) then ProtocolError("Error response fields have invalid types")
    else if m[ERROR].text !in ERROR_CODES then ProtocolError("Error response contains unknown error code")
    else Answer(Failure(m[ERROR].text, m[MESSAGE].text))
  }

  // ----- round trips -----

  lemma KeysDiffer()
    ensures TYPE != QUERY && TYPE != PROMPT && TYPE != SCOPE && TYPE != PROVIDER && TYPE != MODEL && TYPE != URL
        && TYPE != FOCUS
    ensures QUERY != PROVIDER && PROMPT != SCOPE && PROMPT != PROVIDER && PROMPT != MODEL
    ensures SCOPE != PROVIDER && SCOPE != MODEL && PROVIDER != MODEL && URL != FOCUS
    ensures OK != TEXT && OK != ERROR && OK != MESSAGE && ERROR != MESSAGE
    ensures Lit("paper") != Lit("web") && Lit("all") != Lit("web") && Lit("all") != Lit("paper")
  {
    assert SCOPE[0] != MODEL[0];
    assert Lit("all")[0] != Lit("web")[0];
  }

  lemma TypesDiffer()
    ensures Lit("paper_search") != Lit("keyword_search")
    ensures Lit("llm_search") != Lit("keyword_search") && Lit("llm_search") != Lit("paper_search")
    ensures Lit("agent_search") != Lit("keyword_search") && Lit("agent_search") != Lit("paper_search")
        && Lit("agent_search") != Lit("llm_search")
    ensures Lit("url_fetch") != Lit("keyword_search") && Lit("url_fetch") != Lit("paper_search")
        && Lit("url_fetch") != Lit("llm_search") && Lit("url_fetch") != Lit("agent_search")
    ensures Lit("shutdown") != Lit("keyword_search") && Lit("shutdown") != Lit("paper_search")
        && Lit("shutdown") != Lit("llm_search")
         && Lit("shutdown") != Lit("agent_search") && Lit("shutdown") != Lit("url_fetch")
  {
    assert Lit("agent_search")[0] != Lit("paper_search")[0];
  }

  lemma {:induction false} UpdatedConcat(fields: map<Text, Json>, a: seq<Field>, b: seq<Field>)
    ensures Updated(fields, a + b) == Updated(Updated(fields, a), b)
    decreases |a|
  {
    if a == [] {
      assert a + b == b;
    } else {
      assert (a + b)[1..] == a[1..] + b;
      UpdatedConcat(fields[a[0].0 := a[0].1], a[1..], b);
    }
  }

  lemma UpdatedTwo(fields: map<Text, Json>, f: Field, g: Field)
    ensures Updated(fields, [f, g]) == fields[f.0 := f.1][g.0 := g.1]
  {
    assert [f, g][1..] == [g] && [g][1..] == [];
    assert Updated(fields[f.0 := f.1], [g]) == fields[f.0 := f.1][g.0 := g.1];
  }

  lemma UpdatedThree(fields: map<Text, Json>, f: Field, g: Field, h: Field)
    ensures Updated(fields, [f, g, h]) == fields[f.0 := f.1][g.0 := g.1][h.0 := h.1]
  {
    assert [f, g, h][1..] == [g, h];
    UpdatedTwo(fields[f.0 := f.1], g, h);
  }

  lemma QueryMap(requestType: Text, query: Text, provider: Option<Text>)
    ensures Updated(map[], [Named(TYPE, requestType), Named(QUERY, query)] + Elided(PROVIDER, provider)) ==
            map[TYPE := JString(requestType), QUERY := JString(query)]
              + if provider.Some? then map[PROVIDER := JString(provider.value)] else map[]
  {
    KeysDiffer();
    UpdatedTwo(map[], Named(TYPE, requestType), Named(QUERY, query));
    UpdatedConcat(map[], [Named(TYPE, requestType), Named(QUERY, query)], Elided(PROVIDER, provider));
  }

  function PromptMap(requestType: Text, p: Prompt): map<Text, Json>
  {
    map[TYPE := JString(requestType), PROMPT := JString(p.text)]
      + (if p.scope.Web? then map[] else map[SCOPE := JString(ScopeName(p.scope))])
      + (if p.provider.Some? then map[PROVIDER := JString(p.provider.value)] else map[])
      + (if p.model.Some? then map[MODEL := JString(p.model.value)] else map[])
  }

  lemma PromptMapMeaning(requestType: Text, p: Prompt)
    ensures Updated(map[], PromptPayload(requestType, p.text, p.scope, p.provider, p.model)) ==
        PromptMap(requestType, p)
  {
    var f0 := [Named(TYPE, requestType), Named(PROMPT, p.text)];
    var f1 := f0 + ElidedScope(p.scope);
    var f2 := f1 + Elided(PROVIDER, p.provider);
    KeysDiffer();
    UpdatedTwo(map[], f0[0], f0[1]);
    UpdatedConcat(map[], f0, ElidedScope(p.scope));
    UpdatedConcat(map[], f1, Elided(PROVIDER, p.provider));
    UpdatedConcat(map[], f2, Elided(MODEL, p.model));
  }

  lemma QueryRoundTrip(requestType: Text, query: Text, provider: Option<Text>)
    ensures var m := Updated(map[], [Named(TYPE, requestType), Named(QUERY, query)] + Elided(PROVIDER, provider));
      TYPE in m && m[TYPE] == JString(requestType) && ParseQuery(m) == Some((query, provider))
  {
    KeysDiffer();
    QueryMap(requestType, query, provider);
  }

  lemma PromptRoundTrip(requestType: Text, p: Prompt)
    ensures var m := Updated(map[], PromptPayload(requestType, p.text, p.scope, p.provider, p.model));
      TYPE in m && m[TYPE] == JString(requestType) && ParsePrompt(m) == Some(p)
  {
    KeysDiffer();
    PromptMapMeaning(requestType, p);
  }

  /** Decoding the fields of a request's payload gives back the request: an elided scope is the web,
      an elided selector is absent. */
  lemma PayloadRoundTrip(request: Request)
    ensures var m := Updated(map[], RequestPayload(request));
      StringAt(m, TYPE) && DecodeFields(m[TYPE].text, m) == Ok(request)
  {
    TypesDiffer();
    match request
    case KeywordSearch(query, provider) => QueryRoundTrip(Lit("keyword_search"), query, provider);
    case PaperSearch(query, provider) => QueryRoundTrip(Lit("paper_search"), query, provider);
    case LLMSearch(prompt, scope, provider, model) =>
      PromptRoundTrip(Lit("llm_search"), Prompt(prompt, scope, provider, model));
    case AgentSearch(prompt, scope, provider, model) =>
      PromptRoundTrip(Lit("agent_search"), Prompt(prompt, scope, provider, model));
    case URLFetch(url, focus) =>
      KeysDiffer();
      UpdatedThree(map[], RequestPayload(request)[0], RequestPayload(request)[1], RequestPayload(request)[2]);
    case Shutdown =>
  }

  // ----- exactly which fields are accepted -----

  function PayloadMap(request: Request): map<Text, Json>
  {
    Updated(map[], RequestPayload(request))
  }

  /** The web scope may also be written out. */
  predicate Spells(m: map<Text, Json>, request: Request)
  {
    || m == PayloadMap(request)
    || ((request.LLMSearch? || request.AgentSearch?) && request.scope.Web?
        && m == PayloadMap(request)[SCOPE := JString(Lit("web"))])
  }

  lemma QueryParsed(requestType: Text, m: map<Text, Json>)
    requires TYPE in m && m[TYPE] == JString(requestType) && ParseQuery(m).Some?
    ensures var (query, provider) := ParseQuery(m).value;
      m == map[TYPE := JString(requestType), QUERY := JString(query)]
             + if provider.Some? then map[PROVIDER := JString(provider.value)] else map[]
  {
    KeysDiffer();
  }

  lemma PromptParsed(requestType: Text, m: map<Text, Json>)
    requires TYPE in m && m[TYPE] == JString(requestType) && ParsePrompt(m).Some?
    ensures var p := ParsePrompt(m).value;
      m == PromptMap(requestType, p) || (p.scope.Web? && m == PromptMap(requestType, p)[SCOPE := JString(Lit("web"))])
  {
    KeysDiffer();
  }

  lemma ExplicitWebScope(requestType: Text, p: Prompt)
    requires p.scope.Web?
    ensures var m := PromptMap(requestType, p)[SCOPE := JString(Lit("web"))];
      TYPE in m && m[TYPE] == JString(requestType) && ParsePrompt(m) == Some(p)
  {
    KeysDiffer();
  }

  lemma DecodedType(m: map<Text, Json>, request: Request)
    requires StringAt(m, TYPE) && DecodeFields(m[TYPE].text, m) == Ok(request)
    ensures m[TYPE] == RequestPayload(request)[0].1
    ensures request.KeywordSearch? || request.PaperSearch? ==> ParseQuery(m) == Some((request.query, request.provider))
    ensures request.LLMSearch? || request.AgentSearch? ==>
              ParsePrompt(m) == Some(Prompt(request.prompt, request.scope, request.provider, request.model))
    ensures request.URLFetch? ==> ParseFetch(m) == Some(request)
    ensures request.Shutdown? ==> m.Keys == {TYPE}
  {
  }

  lemma DecodedSpells(m: map<Text, Json>, request: Request)
    requires StringAt(m, TYPE) && DecodeFields(m[TYPE].text, m) == Ok(request)
    ensures Spells(m, request)
  {
    var requestType := m[TYPE].text;
    DecodedType(m, request);
    if request.KeywordSearch? || request.PaperSearch? {
      QueryParsed(requestType, m);
      QueryMap(requestType, request.query, request.provider);
    } else if request.LLMSearch? || request.AgentSearch? {
      PromptParsed(requestType, m);
      PromptMapMeaning(requestType, Prompt(request.prompt, request.scope, request.provider, request.model));
    } else if request.URLFetch? {
      FetchSpells(m, request);
    } else {
      assert m == map[TYPE := JString(Lit("shutdown"))];
    }
  }

  lemma FetchSpells(m: map<Text, Json>, request: Request)
    requires StringAt(m, TYPE) && m[TYPE] == JString(Lit("url_fetch")) && request.URLFetch?
        && ParseFetch(m) == Some(request)
    ensures m == PayloadMap(request)
  {
    KeysDiffer();
    var payload := RequestPayload(request);
    UpdatedThree(map[], payload[0], payload[1], payload[2]);
  }

  lemma SpelledDecodes(m: map<Text, Json>, request: Request)
    requires Spells(m, request)
    ensures StringAt(m, TYPE) && DecodeFields(m[TYPE].text, m) == Ok(request)
  {
    PayloadRoundTrip(request);
    if m != PayloadMap(request) {
      var p := Prompt(request.prompt, request.scope, request.provider, request.model);
      var requestType := if request.LLMSearch? then Lit("llm_search") else Lit("agent_search");
      TypesDiffer();
      PromptMapMeaning(requestType, p);
      ExplicitWebScope(requestType, p);
    }
  }

  /** An object decodes to a request exactly when its fields are those of the request's payload, the web
      scope elided or written out. */
  lemma DecodesExactlyPayloads(m: map<Text, Json>, request: Request)
    ensures StringAt(m, TYPE) && DecodeFields(m[TYPE].text, m) == Ok(request) <==> Spells(m, request)
  {
    if StringAt(m, TYPE) && DecodeFields(m[TYPE].text, m) == Ok(request) { DecodedSpells(m, request); }
    if Spells(m, request) { SpelledDecodes(m, request); }
  }

  /** An encoded payload ends in its only newline byte, and what comes before reads back as it. */
  lemma FrameReadsBack(payload: seq<Field>, frame: seq<Byte>)
    requires payload != [] && EncodePayload(payload) == Some(frame + [NEWLINE_BYTE])
    ensures NEWLINE_BYTE !in frame
    ensures Decode(frame) == Some(Dumps(payload)) && Loads(Dumps(payload)) == Some(JObject(Updated(map[], payload)))
  {
    var text := Dumps(payload);
    assert (EncodeAll(text) + [NEWLINE_BYTE])[..|EncodeAll(text)|] == EncodeAll(text);
    assert frame == EncodeAll(text);
    DumpsPrintable(payload);
    AsciiOnlyWhereWritten(text, NEWLINE_BYTE);
    DecodesExactlyEncodings(text, frame);
    LoadsDumps(payload);
  }

  /** Every request that can be encoded is decoded from its frame, which holds no newline. */
  lemma RequestFrame(request: Request) returns (frame: seq<Byte>)
    requires EncodeRequest(request).Some?
    ensures EncodeRequest(request).value == frame + [NEWLINE_BYTE]
    ensures NEWLINE_BYTE !in frame && DecodeFrame(frame) == Ok(request)
  {
    frame := Encode(Dumps(RequestPayload(request))).value;
    FrameReadsBack(RequestPayload(request), frame);
    PayloadRoundTrip(request);
  }

  lemma ResponseFieldsRoundTrip(response: Response)
    ensures var m := Updated(map[], ResponsePayload(response));
      OK in m && m[OK].JBool? && ParseResponse(m, m[OK].value) == Answer(response)
  {
    var payload := ResponsePayload(response);
    KeysDiffer();
    match response
    case Success(_) => UpdatedTwo(map[], payload[0], payload[1]);
    case Failure(_, _) => UpdatedThree(map[], payload[0], payload[1], payload[2]);
  }

  /** An object parses to a response exactly when its fields are those of the response's payload. */
  lemma ParsesExactlyPayloads(m: map<Text, Json>, response: Response)
    ensures OK in m && m[OK].JBool? && ParseResponse(m, m[OK].value) == Answer(response) <==>
        m == Updated(map[], ResponsePayload(response))
  {
    var payload := ResponsePayload(response);
    ResponseFieldsRoundTrip(response);
    KeysDiffer();
    match response
    case Success(_) => UpdatedTwo(map[], payload[0], payload[1]);
    case Failure(_, _) => UpdatedThree(map[], payload[0], payload[1], payload[2]);
  }

  /** Every response that can be encoded is parsed from its frame, which holds no newline. */
  lemma ResponseRoundTrip(response: Response) returns (frame: seq<Byte>)
    requires EncodeResponse(response).Some?
    ensures EncodeResponse(response).value == frame + [NEWLINE_BYTE]
    ensures NEWLINE_BYTE !in frame && ParseResponseFrame(frame) == Answer(response)
  {
    frame := Encode(Dumps(ResponsePayload(response))).value;
    FrameReadsBack(ResponsePayload(response), frame);
    ResponseFieldsRoundTrip(response);
  }

  // ----- which payloads can be encoded -----

  predicate FieldEncodable(f: Field)
  {
    Encodable(f.0) && (f.1.JString? ==> Encodable(f.1.text))
  }

  lemma EncodableConcat(a: Text, b: Text)
    ensures Encodable(a + b) <==> Encodable(a) && Encodable(b)
  {
    if Encodable(a + b) {
      forall i | 0 <= i < |a| ensures !Surrogate(a[i]) { assert (a + b)[i] == a[i]; }
      forall i | 0 <= i < |b| ensures !Surrogate(b[i]) { assert (a + b)[|a| + i] == b[i]; }
    }
  }

  lemma {:induction false} EscapedEncodable(t: Text)
    ensures Encodable(EscapeAll(t)) <==> Encodable(t)
  {
    if t == [] {
    } else {
      EscapedEncodable(t[1..]);
      EncodableConcat(EscapeChar(t[0]), EscapeAll(t[1..]));
      EncodableConcat([t[0]], t[1..]);
      assert [t[0]] + t[1..] == t;
      assert Surrogate(t[0]) ==> EscapeChar(t[0])[0] == t[0];
      assert Encodable([t[0]]) <==> !Surrogate([t[0]][0]);
    }
  }

  lemma PrintedStringEncodable(t: Text)
    ensures Encodable(PrintString(t)) <==> Encodable(t)
  {
    EscapedEncodable(t);
    EncodableConcat([QUOTE], EscapeAll(t));
    EncodableConcat([QUOTE] + EscapeAll(t), [QUOTE]);
  }

  lemma PrintedFieldEncodable(f: Field)
    ensures Encodable(PrintField(f)) <==> FieldEncodable(f)
  {
    PrintedStringEncodable(f.0);
    if f.1.JString? { PrintedStringEncodable(f.1.text); }
    EncodableConcat(PrintString(f.0), [COLON]);
    EncodableConcat(PrintString(f.0) + [COLON], PrintScalar(f.1));
  }

  lemma {:induction false} PrintedFieldsEncodable(fields: seq<Field>)
    requires fields != []
    ensures Encodable(PrintFields(fields)) <==> forall i :: 0 <= i < |fields| ==> FieldEncodable(fields[i])
  {
    PrintedFieldEncodable(fields[0]);
    if |fields| > 1 {
      PrintedFieldsEncodable(fields[1..]);
      EncodableConcat(PrintField(fields[0]), [COMMA]);
      EncodableConcat(PrintField(fields[0]) + [COMMA], PrintFields(fields[1..]));
      assert forall i :: 0 < i < |fields| ==> fields[i] == fields[1..][i - 1];
    }
  }

  /** A payload can be encoded exactly when none of its strings holds a lone surrogate. */
  lemma EncodesIff(payload: seq<Field>)
    requires payload != []
    ensures EncodePayload(payload).Some? <==> forall i :: 0 <= i < |payload| ==> FieldEncodable(payload[i])
  {
    PrintedFieldsEncodable(payload);
    EncodableConcat([LBRACE], PrintFields(payload));
    EncodableConcat([LBRACE] + PrintFields(payload), [RBRACE]);
  }

  // ----- exactly which frames are accepted -----

  /** The frame is the UTF-8 encoding of a text that spells `value`. */
  ghost predicate Carries(frame: seq<Byte>, value: Json)
  {
    exists d :: CarriesDocument(frame, value, d)
  }

  ghost predicate CarriesDocument(frame: seq<Byte>, value: Json, d: JsonGrammar.Document)
  {
    && JsonGrammar.DocumentFits(d) && JsonGrammar.TreeValue(d.tree) == value
    && Encode(JsonGrammar.DocumentText(d)) == Some(frame)
  }

  predicate Reads(frame: seq<Byte>, value: Json)
  {
    Decode(frame).Some? && Loads(Decode(frame).value) == Some(value)
  }

  lemma ReadsIffCarries(frame: seq<Byte>, value: Json)
    ensures Reads(frame, value) <==> Carries(frame, value)
  {
    if Reads(frame, value) {
      var text := Decode(frame).value;
      DecodesExactlyEncodings(text, frame);
      JsonGrammar.LoadsExactlyGrammar(text, value);
      var d :| JsonGrammar.DocumentFits(d) && JsonGrammar.DocumentText(d) == text
        && JsonGrammar.TreeValue(d.tree) == value;
      assert CarriesDocument(frame, value, d);
    }
    if d :| CarriesDocument(frame, value, d) {
      DecodesExactlyEncodings(JsonGrammar.DocumentText(d), frame);
      JsonGrammar.LoadsExactlyGrammar(JsonGrammar.DocumentText(d), value);
    }
  }

  /** A frame is decoded to a request exactly when it carries, in any spelling, an object with the fields of
      the request's payload. */
  lemma DecodesExactlyFrames(frame: seq<Byte>, request: Request)
    ensures DecodeFrame(frame) == Ok(request) <==> exists m :: Carries(frame, JObject(m)) && Spells(m, request)
  {
    if DecodeFrame(frame) == Ok(request) {
      var m := Loads(Decode(frame).value).value.fields;
      ReadsIffCarries(frame, JObject(m));
      DecodesExactlyPayloads(m, request);
    }
    if m :| Carries(frame, JObject(m)) && Spells(m, request) {
      ReadsIffCarries(frame, JObject(m));
      DecodesExactlyPayloads(m, request);
    }
  }

  const REQUEST_TYPES: set<Text> := {
    Lit("keyword_search"), Lit("paper_search"), Lit("llm_search"), Lit("agent_search"), Lit("url_fetch"),
    Lit("shutdown")}

  /** The frame carries an object whose type is a string. */
  ghost predicate Typed(frame: seq<Byte>, m: map<Text, Json>)
  {
    Carries(frame, JObject(m)) && StringAt(m, TYPE)
  }

  /** Why a frame is refused, one condition for each answer. */
  lemma RefusalMeaning(frame: seq<Byte>)
    ensures DecodeFrame(frame) == Bad("Request must be valid UTF-8 JSON") <==> forall v :: !Carries(frame, v)
    ensures DecodeFrame(frame) == Bad("Request must be a JSON object") <==>
            exists v :: Carries(frame, v) && !v.JObject?
    ensures DecodeFrame(frame) == Bad("Request type must be a string") <==>
            exists m :: Carries(frame, JObject(m)) && !StringAt(m, TYPE)
    ensures DecodeFrame(frame) == Bad("Unknown request type") <==>
            exists m: map<Text, Json> :: Typed(frame, m) && m[TYPE].text !in REQUEST_TYPES
    ensures DecodeFrame(frame) == BAD_FIELDS <==>
            exists m: map<Text, Json> :: Typed(frame, m) && m[TYPE].text in REQUEST_TYPES && forall r :: !Spells(m, r)
  {
    MessagesDiffer();
    if v :| Carries(frame, v) {
      ReadsIffCarries(frame, v);
      forall w ensures Carries(frame, w) <==> w == v { ReadsIffCarries(frame, w); }
      if v.JObject? && StringAt(v.fields, TYPE) { FieldsRefused(v.fields); }
    } else if Decode(frame).Some? && Loads(Decode(frame).value).Some? {
      ReadsIffCarries(frame, Loads(Decode(frame).value).value);
    }
  }

  lemma MessagesDiffer()
    ensures "Request must be valid UTF-8 JSON" != "Request must be a JSON object"
    ensures "Request must be valid UTF-8 JSON" != "Request type must be a string"
    ensures "Request must be a JSON object" != "Request type must be a string"
    ensures "Unknown request type" !in {"Request must be valid UTF-8 JSON", "Request must be a JSON object",
        "Request type must be a string", "Request fields do not match schema"}
    ensures "Request fields do not match schema" !in {"Request must be valid UTF-8 JSON",
        "Request must be a JSON object", "Request type must be a string"}
  {
    assert "Request must be a JSON object"[8] != "Request type must be a string"[8];
  }

  lemma FieldsRefused(m: map<Text, Json>)
    requires StringAt(m, TYPE)
    ensures var decoded := DecodeFields(m[TYPE].text, m);
      && (decoded == Bad("Unknown request type") <==> m[TYPE].text !in REQUEST_TYPES)
      && (decoded == BAD_FIELDS <==> m[TYPE].text in REQUEST_TYPES && forall r :: !Spells(m, r))
      && (decoded.Bad? ==> decoded in {BAD_FIELDS, Bad("Unknown request type")})
  {
    MessagesDiffer();
    forall r ensures DecodeFields(m[TYPE].text, m) == Ok(r) <==> Spells(m, r) { DecodesExactlyPayloads(m, r); }
  }

  /** A frame is parsed to a response exactly when it carries the fields of the response's payload; any other
      frame is a protocol error. */
  lemma ParsesExactlyFrames(frame: seq<Byte>, response: Response)
    ensures ParseResponseFrame(frame) == Answer(response) <==>
            Carries(frame, JObject(Updated(map[], ResponsePayload(response))))
  {
    var m := Updated(map[], ResponsePayload(response));
    ReadsIffCarries(frame, JObject(m));
    ParsesExactlyPayloads(m, response);
    if ParseResponseFrame(frame) == Answer(response) {
      ParsesExactlyPayloads(Loads(Decode(frame).value).value.fields, response);
    }
  }
}
