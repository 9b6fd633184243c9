/** The roast endpoint's `POST` handler (src/app/api/roast/route.ts,
    lines 7-223) as a pure function. The language-model providers, the
    environment's secondary key and `JSON.parse` are inputs: the providers
    as functions of the prompt they receive, the parser as a function from
    text to an optional value of any type `J`. */
module RoastRoute {
  import opened Wrappers
  import opened Text
  import opened Fences
  import opened RoastData
  import opened Http

  /** The request body as read by `req.json()`: unreadable (the read fails,
      or the body is JSON `null`, whose `.names` throws), or an object whose
      `names` is absent or a string. */
  datatype RequestBody = Unreadable | JsonObject(names: Option<string>)

  /** The fixed instruction text around the names; its wording is not
      modelled. */
  datatype PromptTemplate = PromptTemplate(head: string, tail: string)

  /** The primary provider's answer: its response text, or any thrown error
      (rate limiting, an unknown model, a failing `text()`). */
  datatype PrimaryResult = Generated(text: string) | PrimaryFailed

  /** `choices?.[0]?.message?.content` of the secondary provider's reply. */
  datatype Completion = Completion(content: Option<string>)

  /** The secondary provider's HTTP exchange: the request itself fails, or a
      reply with a status and a body that is JSON (`Some`) or not (`None`). */
  datatype SecondaryReply = NetworkError | Replied(status: int, json: Option<Completion>)

  /** A call to a provider, with the prompt it was given. */
  datatype ProviderCall = Primary(prompt: string) | Secondary(prompt: string)

  /** The JSON the endpoint answers with: the parsed model output, the canned
      payload for unparseable output, or an error message. */
  datatype Body<J> = Parsed(value: J) | Canned(payload: RoastPayload) | Error(message: string)

  datatype Response<J> = Response(status: int, body: Body<J>)

  /** The response together with the provider calls made, in order. */
  datatype Handled<J> = Handled(response: Response<J>, calls: seq<ProviderCall>)

  const DefaultNames: string := "Unknown Music"
  const ErrorMessage: string := "Failed to generate roast. Both AI providers are tired of this playlist."

  /** Lines 204-209: the payload sent when the model's output does not parse. */
  const ParseFailurePayload: RoastPayload :=
    RoastPayload(69.0, "My brain fried trying to analyze your taste. It's that confused.",
                 [RoastEntry("Error", "Even the AI gave up on you.")])

  /** `body.names || "Unknown Music"`: a missing or empty `names` is replaced. */
  function NamesOrDefault(names: Option<string>): (r: string)
    ensures r != ""
    ensures names.Some? && names.value != "" ==> r == names.value
    ensures names.None? || names.value == "" ==> r == DefaultNames
  {
    if names.Some? && names.value != "" then names.value else DefaultNames
  }

  /** Lines 15-36: the names are embedded verbatim in the fixed text. */
  function Prompt(t: PromptTemplate, names: string): (p: string)
    ensures OccursAt(p, names, |t.head|)
    ensures |p| == |t.head| + |names| + |t.tail|
    ensures p[..|t.head|] == t.head && p[|t.head| + |names|..] == t.tail
  {
    var p := t.head + names + t.tail;
    assert p[|t.head|..|t.head| + |names|] == names;
    assert p[..|t.head|] == t.head;
    assert p[|t.head| + |names|..] == t.tail;
    p
  }

  /** `!process.env.OPENROUTER_API_KEY`: an unset or empty key is missing. */
  predicate HasKey(key: Option<string>): (b: bool)
    ensures key.None? || key == Some("") ==> !b
    ensures key.Some? && key.value != "" ==> b
  {
    key.Some? && key.value != ""
  }

  /** The outcome of asking the providers: some text, or a thrown error. */
  datatype Generation = Produced(text: string, calls: seq<ProviderCall>)
                      | Unavailable(calls: seq<ProviderCall>)

  /** Lines 135-186: the primary provider first; only if it throws, and only
      with a key, the secondary provider with the same prompt. A non-ok or
      unreadable secondary reply throws; a reply without content gives "". */
  function Generate(prompt: string, primary: string -> PrimaryResult, key: Option<string>,
                    secondary: string -> SecondaryReply): (g: Generation)
    ensures |g.calls| >= 1 && g.calls[0] == Primary(prompt)
    ensures forall i :: 0 <= i < |g.calls| ==> g.calls[i].prompt == prompt
    ensures primary(prompt).Generated? ==> g == Produced(primary(prompt).text, [Primary(prompt)])
    ensures |g.calls| == 2 <==> primary(prompt).PrimaryFailed? && HasKey(key)
    ensures |g.calls| <= 2 && (|g.calls| == 2 ==> g.calls[1] == Secondary(prompt))
    ensures primary(prompt).PrimaryFailed? && HasKey(key) && secondary(prompt).Replied?
            && IsOk(secondary(prompt).status) && secondary(prompt).json.Some? ==>
              g == Produced(secondary(prompt).json.value.content.GetOr(""), [Primary(prompt), Secondary(prompt)])
    ensures primary(prompt).PrimaryFailed? && g.Produced? ==>
              && HasKey(key)
              && secondary(prompt).Replied? && IsOk(secondary(prompt).status)
              && secondary(prompt).json.Some?
              && g.text == secondary(prompt).json.value.content.GetOr("")
  {
    match primary(prompt)
    case Generated(text) => Produced(text, [Primary(prompt)])
    case PrimaryFailed =>
      if !HasKey(key) then Unavailable([Primary(prompt)])
      else
        var calls := [Primary(prompt), Secondary(prompt)];
        match secondary(prompt)
        case NetworkError => Unavailable(calls)
        case Replied(status, json) =>
          if !IsOk(status) then Unavailable(calls)
          else
            match json
            case None => Unavailable(calls)
            case Some(completion) => Produced(completion.content.GetOr(""), calls)
  }

  /** Lines 189-212: empty text is an error; otherwise the cleaned text is
      parsed, and its value is returned as-is, or the canned payload when it
      does not parse. */
  function Finish<J>(text: string, parse: string -> Option<J>): (r: Response<J>)
    ensures r.status == StatusError <==> text == ""
    ensures r.status == StatusError ==> r.body == Error(ErrorMessage)
    ensures text != "" && parse(StripFences(text)).None? ==> r == Response(StatusOk, Canned(ParseFailurePayload))
    ensures text != "" && parse(StripFences(text)).Some? ==>
              r == Response(StatusOk, Parsed(parse(StripFences(text)).value))
  {
    if text == "" then Response(StatusError, Error(ErrorMessage))
    else
      match parse(StripFences(text))
      case None => Response(StatusOk, Canned(ParseFailurePayload))
      case Some(value) => Response(StatusOk, Parsed(value))
  }

  /** The whole handler. Any thrown error (an unreadable body, no usable
      provider, empty text) ends in the 500 error payload. */
  function Post<J>(body: RequestBody, t: PromptTemplate, primary: string -> PrimaryResult,
                   key: Option<string>, secondary: string -> SecondaryReply,
                   parse: string -> Option<J>): (h: Handled<J>)
    ensures body.Unreadable? ==> h == Handled(Response(StatusError, Error(ErrorMessage)), [])
    ensures body.JsonObject? ==>
              var prompt := Prompt(t, NamesOrDefault(body.names));
              var g := Generate(prompt, primary, key, secondary);
              && h.calls == g.calls
              && (g.Unavailable? ==> h.response == Response(StatusError, Error(ErrorMessage)))
              && (g.Produced? ==> h.response == Finish(g.text, parse))
  {
    match body
    case Unreadable => Handled(Response(StatusError, Error(ErrorMessage)), [])
    case JsonObject(names) =>
      var prompt := Prompt(t, NamesOrDefault(names));
      match Generate(prompt, primary, key, secondary)
      case Unavailable(calls) => Handled(Response(StatusError, Error(ErrorMessage)), calls)
      case Produced(text, calls) => Handled(Finish(text, parse), calls)
  }

  /** Every provider call carries the one prompt built from the request's
      names, and those names appear in it verbatim. */
  lemma PostSendsOnePrompt<J>(names: Option<string>, t: PromptTemplate, primary: string -> PrimaryResult,
                              key: Option<string>, secondary: string -> SecondaryReply,
                              parse: string -> Option<J>, i: int)
    requires 0 <= i < |Post(JsonObject(names), t, primary, key, secondary, parse).calls|
    ensures var p := Post(JsonObject(names), t, primary, key, secondary, parse).calls[i].prompt;
            p == Prompt(t, NamesOrDefault(names)) && IsInfix(NamesOrDefault(names), p)
  {
  }

  /** The secondary provider is consulted exactly when the primary failed
      and a key is configured; a primary answer is used as it is. */
  lemma SecondaryOnlyAfterPrimaryFails<J>(names: Option<string>, t: PromptTemplate,
                                          primary: string -> PrimaryResult, key: Option<string>,
                                          secondary: string -> SecondaryReply, parse: string -> Option<J>)
    ensures var prompt := Prompt(t, NamesOrDefault(names));
            var h := Post(JsonObject(names), t, primary, key, secondary, parse);
            && (Secondary(prompt) in h.calls <==> primary(prompt).PrimaryFailed? && HasKey(key))
            && (primary(prompt).Generated? ==> h.response == Finish(primary(prompt).text, parse))
  {
  }

  /** The handler answers 500 exactly when the body is unreadable, no
      provider produced text, or the text produced is empty; every 500
      carries the fixed error message. */
  lemma ErrorStatusIff<J>(body: RequestBody, t: PromptTemplate, primary: string -> PrimaryResult,
                          key: Option<string>, secondary: string -> SecondaryReply,
                          parse: string -> Option<J>)
    ensures var h := Post(body, t, primary, key, secondary, parse);
            h.response.status == StatusError
            <==> || body.Unreadable?
                 || (var g := Generate(Prompt(t, NamesOrDefault(body.names)), primary, key, secondary);
                     g.Unavailable? || g.text == "")
    ensures var h := Post(body, t, primary, key, secondary, parse);
            h.response.status == StatusError ==> h.response.body == Error(ErrorMessage)
    ensures var h := Post(body, t, primary, key, secondary, parse);
            h.response.status != StatusError ==> h.response.status == StatusOk
  {
  }

  /** With the primary failed, a missing key or a non-ok secondary reply
      gives the 500 error payload. */
  lemma FallbackFailureIsError<J>(names: Option<string>, t: PromptTemplate,
                                  primary: string -> PrimaryResult, key: Option<string>,
                                  secondary: string -> SecondaryReply, parse: string -> Option<J>)
    requires primary(Prompt(t, NamesOrDefault(names))).PrimaryFailed?
    requires !HasKey(key)
             || (secondary(Prompt(t, NamesOrDefault(names))).Replied?
                 && !IsOk(secondary(Prompt(t, NamesOrDefault(names))).status))
    ensures Post(JsonObject(names), t, primary, key, secondary, parse).response
            == Response(StatusError, Error(ErrorMessage))
  {
  }

  /** A working fallback is used: after a primary failure, with a key, an ok
      secondary reply carrying content has that content finished exactly as
      a primary answer would be. */
  lemma SecondaryTextIsFinished<J>(names: Option<string>, t: PromptTemplate,
                                   primary: string -> PrimaryResult, key: Option<string>,
                                   secondary: string -> SecondaryReply, parse: string -> Option<J>,
                                   status: int, content: string)
    requires primary(Prompt(t, NamesOrDefault(names))).PrimaryFailed? && HasKey(key)
    requires secondary(Prompt(t, NamesOrDefault(names))) == Replied(status, Some(Completion(Some(content))))
    requires IsOk(status)
    ensures Post(JsonObject(names), t, primary, key, secondary, parse).response == Finish(content, parse)
  {
  }

  /** A secondary reply whose content is missing, null or empty counts as
      empty text: 500. */
  lemma MissingContentIsError<J>(names: Option<string>, t: PromptTemplate,
                                 primary: string -> PrimaryResult, key: Option<string>,
                                 secondary: string -> SecondaryReply, parse: string -> Option<J>)
    requires primary(Prompt(t, NamesOrDefault(names))).PrimaryFailed? && HasKey(key)
    requires secondary(Prompt(t, NamesOrDefault(names))).Replied?
    requires IsOk(secondary(Prompt(t, NamesOrDefault(names))).status)
    requires secondary(Prompt(t, NamesOrDefault(names))).json.Some?
    requires secondary(Prompt(t, NamesOrDefault(names))).json.value.content.GetOr("") == ""
    ensures Post(JsonObject(names), t, primary, key, secondary, parse).response.status == StatusError
  {
  }

  /** The canned payload has score 69 and a single roast named "Error". */
  lemma ParseFailurePayloadShape()
    ensures ParseFailurePayload.score == 69.0
    ensures |ParseFailurePayload.roasts| == 1 && ParseFailurePayload.roasts[0].name == "Error"
  {
  }

  /** Output that is only whitespace is not empty, so it is not an error:
      the parser sees "" and, as JSON parsing rejects "", the canned payload
      is returned with status 200. */
  lemma BlankOutputGetsCannedPayload<J>(text: string, parse: string -> Option<J>)
    requires text != ""
    requires forall k :: 0 <= k < |text| ==> IsWhitespace(text[k])
    requires parse("").None?
    ensures Finish(text, parse) == Response(StatusOk, Canned(ParseFailurePayload))
  {
    StripBlankText(text);
  }

  /** Output wrapped in a "```json" block reaches the parser as its trimmed
      body: no error, and the canned payload only if that body does not
      parse. */
  lemma FencedOutputIsParsed<J>(x: string, parse: string -> Option<J>)
    requires forall k :: 0 <= k < |x| ==> x[k] != '`'
    ensures Finish(JsonFence + x + Fence, parse)
            == match parse(Trim(x))
               case Some(value) => Response(StatusOk, Parsed(value))
               case None => Response(StatusOk, Canned(ParseFailurePayload))
  {
    StripFencedBlock(x);
  }
}
