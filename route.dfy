/** The `POST /api/generate` handler as one pure pipeline: validate the parsed
    body, decode the image data URL, pick the prompt, build the single request to
    the vision model, and turn its reply (or whatever was thrown) into the
    outward response. The model call is an oracle `sdk` from the outbound request
    to a reply; the exchange records every request handed to it. */
module Route {
  import opened Wrappers
  import opened JsString
  import opened DataUrl
  import opened Prompts
  import opened Normalise

  /** The parsed JSON body; `None` stands for a missing, `undefined` or `null` field. */
  datatype RequestBody = RequestBody(image: Option<string>, framework: Option<string>)

  /** `ANTHROPIC_API_KEY` and `ANTHROPIC_MODEL` from the process environment. */
  datatype Env = Env(apiKey: Option<string>, model: Option<string>)

  /** JavaScript truthiness of an optional string: the falsy ones are a missing
      value and the empty string. */
  predicate Truthy(v: Option<string>)
    ensures Truthy(v) <==> v != None && v != Some("")
  {
    v.Some? && v.value != ""
  }

  const MaxTokens: nat := 4000
  const DefaultModel: string := "claude-sonnet-4-20250514"

  const MissingFieldsMessage: string := "Missing required fields"
  const InvalidFrameworkMessage: string := "Invalid framework. Use react, vue, or html."
  const NoApiKeyMessage: string := "API key not configured"
  const FallbackErrorMessage: string := "Failed to generate code"

  const BadRequest: int := 400
  const InternalServerError: int := 500
  const StatusOk: int := 200

  /** The outbound request: `{ model, max_tokens, messages }`, where each message
      has role `user`, and an image part has source type `base64`. */
  datatype ImageSource = Base64Source(mediaType: string, data: string)
  datatype Part = ImagePart(source: ImageSource) | TextPart(text: string)
  datatype Message = UserMessage(content: seq<Part>)
  datatype Outbound = Outbound(model: string, maxTokens: nat, messages: seq<Message>)

  /** A thrown value as the `catch` sees it: an `Error` instance with its message,
      or any other value; either may carry a numeric `status` property. */
  datatype Thrown = ErrorInstance(message: string, status: Option<int>)
                  | OtherThrown(status: Option<int>)

  /** What the model call gives back: the reply's content blocks, or a throw. */
  datatype Reply = Content(blocks: seq<Block>) | Threw(error: Thrown)

  /** The body of the response: the JSON `{ code }` or `{ error }`, never both; or
      none at all, when building the response itself throws and the framework
      answers in place of the handler. */
  datatype Body = CodeBody(code: string) | ErrorBody(error: string) | NoBody
  datatype Response = Response(status: int, body: Body)

  /** The requests handed to the model and the response returned. */
  datatype Exchange = Exchange(sent: seq<Outbound>, response: Response)

  /** `process.env.ANTHROPIC_MODEL || "claude-sonnet-4-20250514"`. */
  function ModelName(env: Env): (m: string)
    ensures m != ""
    ensures Truthy(env.model) ==> m == env.model.value
    ensures !Truthy(env.model) ==> m == DefaultModel
  {
    if Truthy(env.model) then env.model.value else DefaultModel
  }

  /** The argument of `anthropic.messages.create`. */
  function BuildOutbound(img: DecodedImage, f: Framework, env: Env): (o: Outbound)
    ensures o.model == ModelName(env) && o.maxTokens == MaxTokens
    ensures |o.messages| == 1 && |o.messages[0].content| == 2
    ensures o.messages[0].content[0] == ImagePart(Base64Source("image/" + img.subtype, img.data))
    ensures o.messages[0].content[1] == TextPart(Prompt(f))
  {
    Outbound(ModelName(env), MaxTokens,
      [UserMessage([ImagePart(Base64Source("image/" + img.subtype, img.data)), TextPart(Prompt(f))])])
  }

  /** The statuses `NextResponse.json` accepts: the Fetch standard's `Response`
      constructor throws a `RangeError` outside 200-599, and a `TypeError` for a
      body with the null-body statuses 204, 205 and 304. */
  predicate IsJsonStatus(n: int) {
    200 <= n <= 599 && n != 204 && n != 205 && n != 304
  }

  /** The WebIDL conversion of an integer to `unsigned short`, the type of
      `ResponseInit.status`: the representative of `n` modulo 2^16 in 0..65535. */
  function UnsignedShort(n: int): (w: int)
    ensures 0 <= w < 0x1_0000
    ensures (n - w) % 0x1_0000 == 0
    ensures 0 <= n < 0x1_0000 ==> w == n
  {
    n % 0x1_0000
  }

  /** `NextResponse.json(body, { status })`: the status is first converted to an
      `unsigned short`, then checked. A status it refuses makes it throw outside
      the `try`, so the handler itself fails and the framework answers a bare 500. */
  function Json(status: int, body: Body): (r: Response)
    requires !body.NoBody?
    ensures IsJsonStatus(status) ==> r == Response(status, body)
    ensures IsJsonStatus(UnsignedShort(status)) ==> r == Response(UnsignedShort(status), body)
    ensures !IsJsonStatus(UnsignedShort(status)) ==> r == Response(InternalServerError, NoBody)
  {
    var wire := UnsignedShort(status);
    if IsJsonStatus(wire) then Response(wire, body) else Response(InternalServerError, NoBody)
  }

  /** The `catch` block: forward a numeric `status`, else 500; report an `Error`'s
      message, else a fixed one. The body never carries `code`; it carries `error`
      unless the forwarded status, as an `unsigned short`, is one `NextResponse.json`
      refuses. */
  function ErrorResponse(e: Thrown): (r: Response)
    ensures !r.body.CodeBody?
    ensures r.body.ErrorBody? <==> e.status.None? || IsJsonStatus(UnsignedShort(e.status.value))
    ensures e.status.Some? && IsJsonStatus(e.status.value) ==> r.status == e.status.value
    ensures e.status.Some? && IsJsonStatus(UnsignedShort(e.status.value)) ==>
              r.status == UnsignedShort(e.status.value)
    ensures e.status.Some? && !IsJsonStatus(UnsignedShort(e.status.value)) ==>
              r == Response(InternalServerError, NoBody)
    ensures e.status.None? ==> r.status == InternalServerError
    ensures r.body.ErrorBody? && e.ErrorInstance? ==> r.body.error == e.message
    ensures r.body.ErrorBody? && e.OtherThrown? ==> r.body.error == FallbackErrorMessage
  {
    var status := if e.status.Some? then e.status.value else InternalServerError;
    var message := if e.ErrorInstance? then e.message else FallbackErrorMessage;
    Json(status, ErrorBody(message))
  }

  /** The value `extractBase64Image` throws on a malformed URL: an `Error` with no
      `status`, which the `catch` turns into a 500 carrying its message. */
  function DecodeError(e: InvalidDataUrl): (t: Thrown)
    ensures t.ErrorInstance? && t.message == InvalidDataUrlMessage
    ensures ErrorResponse(t) == Response(InternalServerError, ErrorBody(InvalidDataUrlMessage))
  {
    ErrorInstance(InvalidDataUrlMessage, None)
  }

  /** The three guards, in source order; on success the image string and framework. */
  function Validate(body: RequestBody, env: Env): (r: Result<(string, Framework), Response>)
    ensures r.Ok? <==> Truthy(body.image) && Truthy(body.framework)
                       && FrameworkNamed(body.framework.value).Some? && Truthy(env.apiKey)
    ensures r.Ok? ==> r.value == (body.image.value, FrameworkNamed(body.framework.value).value)
    ensures r.Err? ==> r.error.body.ErrorBody?
                       && (r.error.status == BadRequest || r.error.status == InternalServerError)
  {
    if !Truthy(body.image) || !Truthy(body.framework) then
      Err(Response(BadRequest, ErrorBody(MissingFieldsMessage)))
    else
      match FrameworkNamed(body.framework.value)
      case None => Err(Response(BadRequest, ErrorBody(InvalidFrameworkMessage)))
      case Some(f) =>
        if !Truthy(env.apiKey) then Err(Response(InternalServerError, ErrorBody(NoApiKeyMessage)))
        else Ok((body.image.value, f))
  }

  /** Everything before the model call: either an early response, or the request to send. */
  datatype Step = Respond(response: Response) | Send(outbound: Outbound)

  function Prepare(body: RequestBody, env: Env): (s: Step)
    ensures s.Respond? ==> s.response.body.ErrorBody?
    ensures s.Send? ==> Truthy(body.image) && IsImageDataUrl(body.image.value)
                        && s.outbound.maxTokens == MaxTokens
  {
    match Validate(body, env)
    case Err(response) => Respond(response)
    case Ok((image, f)) =>
      match ExtractBase64Image(image)
      case Err(e) => Respond(ErrorResponse(DecodeError(e)))
      case Ok(img) => Send(BuildOutbound(img, f, env))
  }

  /** After the model call: the cleaned code with status 200, or the mapped error. */
  function Complete(reply: Reply): (r: Response)
    ensures r.body.CodeBody? <==> reply.Content?
    ensures r.body.CodeBody? ==> r.status == StatusOk && IsTrimmed(r.body.code)
  {
    match reply
    case Content(blocks) => Response(StatusOk, CodeBody(NormaliseReply(blocks)))
    case Threw(e) => ErrorResponse(e)
  }

  /** `POST(req)`: at most one model call, made only after every check has passed;
      a `code` body comes only from a reply, with status 200 and no outer whitespace. */
  function Post(body: RequestBody, env: Env, sdk: Outbound -> Reply): (x: Exchange)
    ensures |x.sent| <= 1
    ensures x.sent == [] ==> x.response.body.ErrorBody?
    ensures x.response.body.CodeBody? ==>
              |x.sent| == 1 && x.response.status == StatusOk && IsTrimmed(x.response.body.code)
  {
    match Prepare(body, env)
    case Respond(response) => Exchange([], response)
    case Send(o) => Exchange([o], Complete(sdk(o)))
  }

  /** A falsy `image` or `framework` is a 400, whatever else holds, and nothing is sent. */
  lemma PostMissingFields(body: RequestBody, env: Env, sdk: Outbound -> Reply)
    requires !Truthy(body.image) || !Truthy(body.framework)
    ensures Post(body, env, sdk) == Exchange([], Response(BadRequest, ErrorBody(MissingFieldsMessage)))
  {
  }

  /** With both fields present, a framework other than react, vue and html is a 400,
      whatever the environment, and nothing is sent. */
  lemma PostInvalidFramework(body: RequestBody, env: Env, sdk: Outbound -> Reply)
    requires Truthy(body.image) && Truthy(body.framework)
    requires body.framework.value != "react" && body.framework.value != "vue"
             && body.framework.value != "html"
    ensures Post(body, env, sdk) == Exchange([], Response(BadRequest, ErrorBody(InvalidFrameworkMessage)))
  {
  }

  /** With valid fields, a missing or empty API key is a 500 before the image is
      even looked at, and nothing is sent. */
  lemma PostNoApiKey(body: RequestBody, env: Env, sdk: Outbound -> Reply)
    requires Truthy(body.image) && Truthy(body.framework)
    requires FrameworkNamed(body.framework.value).Some?
    requires !Truthy(env.apiKey)
    ensures Post(body, env, sdk) == Exchange([], Response(InternalServerError, ErrorBody(NoApiKeyMessage)))
  {
  }

  /** Once the guards pass, a malformed image is a 500 (the thrown `Error` has no
      `status`) with message "Invalid data URL", and nothing is sent. */
  lemma PostMalformedImage(body: RequestBody, env: Env, sdk: Outbound -> Reply)
    requires Truthy(body.image) && Truthy(body.framework)
    requires FrameworkNamed(body.framework.value).Some? && Truthy(env.apiKey)
    requires !IsImageDataUrl(body.image.value)
    ensures Post(body, env, sdk)
            == Exchange([], Response(InternalServerError, ErrorBody(InvalidDataUrlMessage)))
  {
    ExtractAcceptsExactly(body.image.value);
  }

  /** The model is called exactly when every guard passes and the image is well formed. */
  lemma PostCallsIff(body: RequestBody, env: Env, sdk: Outbound -> Reply)
    ensures |Post(body, env, sdk).sent| == 1 <==>
              Truthy(body.image) && Truthy(body.framework)
              && FrameworkNamed(body.framework.value).Some? && Truthy(env.apiKey)
              && IsImageDataUrl(body.image.value)
  {
    if Truthy(body.image) {
      ExtractAcceptsExactly(body.image.value);
    }
  }

  /** On a valid request the one request sent carries the captured subtype and data
      unchanged and the framework's prompt, and the response is made from the reply to it. */
  lemma PostSendsOnce(t: string, d: string, f: Framework, env: Env, sdk: Outbound -> Reply)
    requires IsCapture(t, d) && Truthy(env.apiKey)
    ensures var o := BuildOutbound(DecodedImage(t, d), f, env);
            Post(RequestBody(Some(ImageDataUrl(t, d)), Some(Key(f))), env, sdk)
            == Exchange([o], Complete(sdk(o)))
  {
    var url := ImageDataUrl(t, d);
    var body := RequestBody(Some(url), Some(Key(f)));
    var o := BuildOutbound(DecodedImage(t, d), f, env);
    ExtractRoundTrip(t, d);
    FrameworkNamedKey(f);
    assert url != "" by {
      assert |url| >= |ImagePrefix|;
    }
    assert Validate(body, env) == Ok((url, f));
    assert Prepare(body, env) == Send(o);
  }

  /** When the request is sent, it is the one built from the decoded image and the
      validated framework. */
  lemma PrepareBuilds(body: RequestBody, env: Env)
    requires Prepare(body, env).Send?
    ensures ExtractBase64Image(body.image.value).Ok?
    ensures FrameworkNamed(body.framework.value).Some?
    ensures Prepare(body, env).outbound
            == BuildOutbound(ExtractBase64Image(body.image.value).value,
                             FrameworkNamed(body.framework.value).value, env)
  {
  }

  /** The image part of the request sent rebuilds the request's data URL exactly:
      the decoder neither re-encodes nor drops anything. */
  lemma OutboundCarriesImage(body: RequestBody, env: Env)
    requires Prepare(body, env).Send?
    ensures var src := Prepare(body, env).outbound.messages[0].content[0].source;
            "data:" + src.mediaType + Base64Marker + src.data == body.image.value
  {
    PrepareBuilds(body, env);
    var img := ExtractBase64Image(body.image.value).value;
    MediaTypeRebuildsUrl(img.subtype, img.data);
  }

  /** `data:` followed by the media type `image/<t>` is the decoder's prefix followed by `t`. */
  lemma MediaTypeRebuildsUrl(t: string, d: string)
    ensures "data:" + ("image/" + t) + Base64Marker + d == ImageDataUrl(t, d)
  {
    assert "data:" + ("image/" + t) == ("data:" + "image/") + t;
    assert "data:" + "image/" == ImagePrefix;
  }

  /** The text part of the request sent is the prompt of the requested framework
      and of no other. */
  lemma OutboundCarriesPrompt(body: RequestBody, env: Env, g: Framework)
    requires Prepare(body, env).Send?
    ensures Prepare(body, env).outbound.messages[0].content[1] == TextPart(Prompt(g))
            <==> body.framework == Some(Key(g))
  {
    PrepareBuilds(body, env);
    var f := FrameworkNamed(body.framework.value).value;
    PromptInjective(f, g);
    FrameworkNamedKey(g);
  }

  /** A thrown error with a numeric status that `NextResponse.json` accepts, such
      as 429 from the model service, is forwarded with that status and an `error`
      body only. */
  lemma PostForwardsUpstreamStatus(t: string, d: string, f: Framework, env: Env,
                                   sdk: Outbound -> Reply, message: string, status: int)
    requires IsCapture(t, d) && Truthy(env.apiKey) && IsJsonStatus(status)
    requires sdk(BuildOutbound(DecodedImage(t, d), f, env)) == Threw(ErrorInstance(message, Some(status)))
    ensures Post(RequestBody(Some(ImageDataUrl(t, d)), Some(Key(f))), env, sdk).response
            == Response(status, ErrorBody(message))
  {
    PostSendsOnce(t, d, f, env, sdk);
  }

  /** A thrown status that `NextResponse.json` refuses once it is an `unsigned
      short`, such as 204, 600 or -1, makes the `catch` block itself throw: the
      answer is a bare 500 with no `error` body. */
  lemma PostRefusedStatus(t: string, d: string, f: Framework, env: Env,
                          sdk: Outbound -> Reply, e: Thrown)
    requires IsCapture(t, d) && Truthy(env.apiKey)
    requires e.status.Some? && !IsJsonStatus(UnsignedShort(e.status.value))
    requires sdk(BuildOutbound(DecodedImage(t, d), f, env)) == Threw(e)
    ensures Post(RequestBody(Some(ImageDataUrl(t, d)), Some(Key(f))), env, sdk).response
            == Response(InternalServerError, NoBody)
  {
    PostSendsOnce(t, d, f, env, sdk);
  }

  /** A status past 65535 wraps: 65736 is sent as 200, with the `error` body. */
  lemma StatusWrapsModulo(message: string)
    ensures ErrorResponse(ErrorInstance(message, Some(65736)))
            == Response(StatusOk, ErrorBody(message))
  {
    assert UnsignedShort(65736) == 200;
  }

  /** A successful reply gives status 200 and the normalised code. */
  lemma PostReturnsCode(t: string, d: string, f: Framework, env: Env,
                        sdk: Outbound -> Reply, blocks: seq<Block>)
    requires IsCapture(t, d) && Truthy(env.apiKey)
    requires sdk(BuildOutbound(DecodedImage(t, d), f, env)) == Content(blocks)
    ensures Post(RequestBody(Some(ImageDataUrl(t, d)), Some(Key(f))), env, sdk).response
            == Response(StatusOk, CodeBody(NormaliseReply(blocks)))
  {
    PostSendsOnce(t, d, f, env, sdk);
  }

  /** A PNG screenshot for React, answered with one fenced JSX block, yields the bare component. */
  lemma PostExample(d: string, env: Env, sdk: Outbound -> Reply)
    requires NoLineTerminator(d) && Truthy(env.apiKey)
    requires sdk(BuildOutbound(DecodedImage("png", d), React, env))
             == Content([Text(ExampleReply)])
    ensures Post(RequestBody(Some(ImageDataUrl("png", d)), Some("react")), env, sdk).response
            == Response(StatusOk, CodeBody(ExampleCode))
  {
    assert IsCapture("png", d);
    PostReturnsCode("png", d, React, env, sdk, [Text(ExampleReply)]);
    NormaliseReplyExample();
  }
}
