# devcanvas `/api/generate` — a Dafny model

devcanvas turns a screenshot of a user interface into front-end source code. The
browser sends the screenshot as a `data:` URL together with a target framework
(`react`, `vue` or `html`) to the `POST /api/generate` route. The route checks the
request, takes the image apart, picks the framework's instruction prompt, sends one
request to a hosted vision model and cleans the model's text reply into a code string.

This project models that route as one pure pipeline and proves what it does:

- `wrappers.dfy` — `Option` and `Result`, standing in for `undefined` and for thrown exceptions.
- `js_string.dfy` — the JavaScript string operations the route depends on: `trim` (with
  the ECMAScript whitespace and line-terminator sets written out) and `join("\n")`.
- `data_url.dfy` — `extractBase64Image`. It recognises `data:image/<ASCII letters>;base64,<data>`,
  a pattern modelled on the `data:` URLs of section 2 of RFC 2397 but not a subset of
  them: the subtype may be empty, and the data may hold spaces and non-ASCII characters. The regular
  expression is written as a prefix test, a greedy letter scan, a second literal and a
  line-terminator check.
- `prompts.dfy` — the read-only `PROMPTS` table and the `framework in PROMPTS` test.
- `normalise.dfy` — the reply clean-up. It keeps the text blocks, joins and trims them,
  strips one opening fence and one closing fence (a narrow case of the fenced code
  blocks of section 4.5 of CommonMark), and trims again.
- `route.dfy` — the guards, the outbound request, the `catch` block, and `POST` itself.

`Route.Post(body, env, sdk)` takes the parsed body, the environment and the model call.
The model call `sdk` is an oracle: a function from the outbound request to a reply.
`Post` returns the list of requests handed to the oracle together with the response, so
"the model is never called" reads as `sent == []`.

Three behaviours of the code are easy to miss:

- A malformed image gives status 500, not 400. `extractBase64Image` throws a plain
  `Error` with no `status` (app/api/generate/route.ts:76-77), and the `catch` block
  defaults to 500 (app/api/generate/route.ts:156-162).
- The media subtype may be empty: the pattern is `[a-zA-Z]*`, not `[a-zA-Z]+`
  (app/api/generate/route.ts:75).
- Cleaning is not idempotent. A doubly fenced reply keeps its inner fence after one
  pass (app/api/generate/route.ts:147-148; `Normalise.CleanCodeNotIdempotent`).

## Model

| member | source | states |
|---|---|---|
| `JsString.TrimStart` | app/api/generate/route.ts:146 | the front of `trim`: the result is a suffix of the input, everything removed is whitespace, and the result does not start with whitespace |
| `JsString.TrimEnd` | app/api/generate/route.ts:146 | the back of `trim`: the result is a prefix, everything removed is whitespace, and the result does not end with whitespace |
| `JsString.Trim` | app/api/generate/route.ts:146 | `trim()` gives a piece of the input that has no outer whitespace, and only whitespace lies on either side of it |
| `JsString.TrimStartAt` | app/api/generate/route.ts:146 | the front trim stops exactly at the first non-whitespace character |
| `JsString.TrimEndAt` | app/api/generate/route.ts:146 | the back trim stops exactly after the last non-whitespace character |
| `JsString.TrimUnique` | app/api/generate/route.ts:146 | any non-empty piece without outer whitespace that has only whitespace around it is exactly `trim()` of the string |
| `JsString.TrimIsInfix` | app/api/generate/route.ts:146 | the trimmed string is a contiguous piece of the original |
| `JsString.TrimIdentity` | app/api/generate/route.ts:150 | `trim()` changes a string exactly when it starts or ends with whitespace |
| `JsString.TrimIdempotent` | app/api/generate/route.ts:150 | trimming twice gives the same result as trimming once |
| `JsString.JoinLines` | app/api/generate/route.ts:143 | `join("\n")` gives `""` for no parts and the part itself for one part; for n parts its length is their total length plus n-1 separators |
| `JsString.JoinLinesSnoc` | app/api/generate/route.ts:143 | appending a part appends one `"\n"` and that part, so join is also a left fold |
| `JsString.InfixTransitive` | app/api/generate/route.ts:146-150 | a piece of a piece of a string is a piece of that string |
| `DataUrl.LetterRun` | app/api/generate/route.ts:75 | the greedy `[a-zA-Z]*` scan: every scanned character is a letter, and the scan stops at the first non-letter or at the end |
| `DataUrl.ExtractBase64Image` | app/api/generate/route.ts:74-83 | on success, the URL is exactly `data:image/` + subtype + `;base64,` + data, where the subtype is all ASCII letters and the data has no line terminator |
| `DataUrl.LetterRunStops` | app/api/generate/route.ts:75 | the subtype scan over letters stops exactly where they end, before a non-letter or at the end of the string |
| `DataUrl.ExtractImageDataUrl` | app/api/generate/route.ts:75-82 | on a URL of the accepted shape, the decoder returns both captures unchanged when the data has no line terminator and throws otherwise |
| `DataUrl.ExtractRoundTrip` | app/api/generate/route.ts:74-82 | round trip: building the URL from letters `t` and line-free `d` and then decoding it gives back exactly `(t, d)` |
| `DataUrl.ExtractAcceptsExactly` | app/api/generate/route.ts:75-78 | the decoder succeeds if and only if the URL has the shape `data:image/<letters>;base64,<line-free data>` |
| `DataUrl.RejectsNonLetterSubtype` | app/api/generate/route.ts:75-77 | a subtype such as `svg+xml` is rejected |
| `DataUrl.RejectsMissingPrefix` | app/api/generate/route.ts:75-77 | every string that does not start with `data:image/` is rejected |
| `DataUrl.RejectsMissingMarker` | app/api/generate/route.ts:75-77 | after `data:image/` and the longest run of letters, anything that does not start with `;base64,` is rejected |
| `DataUrl.RejectsLineBreakInData` | app/api/generate/route.ts:75-77 | data containing a line break is rejected (`.` does not match it and `$` anchors at the end of the input) |
| `Prompts.FrameworkNamed` | app/api/generate/route.ts:97 | `framework in PROMPTS` holds exactly for the keys `react`, `vue` and `html`, and gives the framework with that key |
| `Prompts.FrameworkNamedKey` | app/api/generate/route.ts:10-71 | every key of the table names its own framework |
| `Prompts.Prompt` | app/api/generate/route.ts:132 | `PROMPTS[framework]`: each framework, and only it, gets its own prompt |
| `Prompts.PromptInjective` | app/api/generate/route.ts:10-69 | the three prompts are distinct, so the prompt determines the framework |
| `Normalise.TextsOf` | app/api/generate/route.ts:140-142 | filter and map: at most one string per block, and none exactly when every block is non-text |
| `Normalise.TextsOfAppend` | app/api/generate/route.ts:140-142 | the text of a concatenation is the text of each part, in order |
| `Normalise.TextsOfIgnoresOther` | app/api/generate/route.ts:141 | removing a non-text block does not change the extracted texts |
| `Normalise.StripFirstOf` | app/api/generate/route.ts:147 | if some fence in the list starts the string, the result is the string minus that fence; otherwise the string is unchanged |
| `Normalise.StripOpeningFence` | app/api/generate/route.ts:147 | one leading fence (three backticks, an optional `jsx`/`tsx`/`vue`/`html` tag, then a line break) is removed, or the string is unchanged when none is there |
| `Normalise.StripClosingFence` | app/api/generate/route.ts:148 | one trailing line break plus three backticks is removed, or the string is unchanged when it does not end that way |
| `Normalise.OpeningFenceUnique` | app/api/generate/route.ts:147 | at most one of the alternatives can start a string, so the order in which they are tried does not matter |
| `Normalise.StripOpeningFenceOf` | app/api/generate/route.ts:147 | an opening fence followed by anything loses exactly that fence |
| `Normalise.StripClosingFenceOf` | app/api/generate/route.ts:148 | anything followed by the closing fence loses exactly that fence |
| `Normalise.StripOpeningFenceIsInfix` | app/api/generate/route.ts:147 | removing the opening fence leaves a piece of the string |
| `Normalise.StripClosingFenceIsInfix` | app/api/generate/route.ts:148 | removing the closing fence leaves a piece of the string |
| `Normalise.CleanCode` | app/api/generate/route.ts:146-150 | the returned code never starts or ends with whitespace |
| `Normalise.CleanCodeIsInfix` | app/api/generate/route.ts:146-150 | cleaning only cuts characters off the two ends: the code is a contiguous piece of the joined text, and prose or fences in mid-text stay |
| `Normalise.CleanCodeUnfenced` | app/api/generate/route.ts:146-150 | with no fence at either end, the code equals the trimmed joined text |
| `Normalise.FencedIsTrimmed` | app/api/generate/route.ts:146 | text that opens with a fence and ends with a backtick has no outer whitespace to trim |
| `Normalise.CleanCodeFenced` | app/api/generate/route.ts:146-150 | round trip: code without outer whitespace, wrapped in any accepted opening fence and the closing fence, comes back out exactly |
| `Normalise.BacktickStartTrimmed` | app/api/generate/route.ts:146 | text that starts with a backtick and does not end in whitespace is left alone by `trim` |
| `Normalise.OtherTagIsNoFence` | app/api/generate/route.ts:147 | a fence tagged `ts` matches none of the accepted openings |
| `Normalise.CleanCodeKeepsOtherTag` | app/api/generate/route.ts:147-150 | with an unknown tag such as `ts`, the opening fence is kept and only the closing fence goes |
| `Normalise.CleanCodeDoublyFenced` | app/api/generate/route.ts:147-148 | on a doubly fenced reply, one pass removes only the outer pair of fences |
| `Normalise.CleanCodeSinglyFenced` | app/api/generate/route.ts:147-148 | a second pass removes the inner pair |
| `Normalise.CleanCodeNotIdempotent` | app/api/generate/route.ts:146-150 | cleaning twice can differ from cleaning once |
| `Normalise.NormaliseReply` | app/api/generate/route.ts:140-150 | the code is trimmed and is a contiguous piece of the newline-joined text blocks |
| `Normalise.NormaliseReplyNoText` | app/api/generate/route.ts:140-150 | a reply with no text blocks (including an empty reply) gives the empty code string |
| `Normalise.NormaliseReplyIgnoresOther` | app/api/generate/route.ts:141 | a non-text block anywhere in the reply has no effect on the code |
| `Normalise.NormaliseReplyJoins` | app/api/generate/route.ts:140-143 | text blocks on either side of a non-text block are joined in order with exactly one line break |
| `Normalise.ExampleReplyIsFenced` | app/api/generate/route.ts:147-148 | the sample reply is a `jsx` fence around code that has no outer whitespace |
| `Normalise.NormaliseReplyExample` | app/api/generate/route.ts:140-150 | a reply of "```jsx\nexport default function X(){}\n```" gives exactly `export default function X(){}` |
| `Route.Truthy` | app/api/generate/route.ts:90 | the only falsy values of an optional string are a missing value and the empty string |
| `Route.ModelName` | app/api/generate/route.ts:116 | the model is `ANTHROPIC_MODEL` when it is set and non-empty, and `claude-sonnet-4-20250514` otherwise |
| `Route.BuildOutbound` | app/api/generate/route.ts:115-136 | one user message with two parts, the image first (`image/<subtype>`, data verbatim) and then the framework's prompt; `max_tokens` is 4000 |
| `Route.UnsignedShort` | app/api/generate/route.ts:166 | the status handed to `NextResponse.json` is taken modulo 65536 into 0..65535, and an in-range status is unchanged |
| `Route.Json` | app/api/generate/route.ts:164-167 | `NextResponse.json` answers with the status reduced modulo 65536 when that is in 200-599 and not 204, 205 or 304; otherwise it throws outside the `try`, and the answer is a bare 500 |
| `Route.ErrorResponse` | app/api/generate/route.ts:151-167 | a numeric `status` that `NextResponse.json` accepts after its reduction modulo 65536 is forwarded as that reduced status, any other numeric `status` gives a bare 500 with no body, and no `status` gives 500; the message is an `Error`'s own, otherwise "Failed to generate code"; the body never holds `code` |
| `Route.DecodeError` | app/api/generate/route.ts:76-77 | a malformed URL throws an `Error` with no `status`, which the `catch` turns into status 500 with the message "Invalid data URL" |
| `Route.Validate` | app/api/generate/route.ts:90-109 | a request passes exactly when both fields are truthy, the framework is a table key and the API key is set; a failure is an error body with status 400 or 500 |
| `Route.Prepare` | app/api/generate/route.ts:90-136 | an early response is always an error; a request is sent only for a well-formed image URL, and it asks for 4000 tokens |
| `Route.PrepareBuilds` | app/api/generate/route.ts:112-136 | the request sent is the one built from the decoded image and the validated framework |
| `Route.Complete` | app/api/generate/route.ts:140-167 | a `code` body comes from a reply and never from a throw; it has status 200 and no outer whitespace |
| `Route.Post` | app/api/generate/route.ts:85-169 | at most one model call; no call means an error response; a `code` body implies exactly one call, status 200 and trimmed code |
| `Route.PostMissingFields` | app/api/generate/route.ts:90-95 | a falsy `image` or `framework` gives 400 "Missing required fields", whatever else holds, and no call |
| `Route.PostInvalidFramework` | app/api/generate/route.ts:97-102 | otherwise, a framework other than react, vue and html gives 400 "Invalid framework. Use react, vue, or html." whatever the environment, and no call |
| `Route.PostNoApiKey` | app/api/generate/route.ts:104-109 | otherwise, a missing or empty API key gives 500 "API key not configured" before the image is looked at, and no call |
| `Route.PostMalformedImage` | app/api/generate/route.ts:76-77 | after the guards, a malformed image gives 500 "Invalid data URL" and no call |
| `Route.PostCallsIff` | app/api/generate/route.ts:90-137 | the model is called if and only if every guard passes and the image URL is well formed |
| `Route.PostSendsOnce` | app/api/generate/route.ts:112-137 | on a valid request exactly one request is sent, carrying the captured subtype and data, and the response is made from its reply |
| `Route.OutboundCarriesImage` | app/api/generate/route.ts:126-127 | `data:` + media type + `;base64,` + data of the request sent rebuilds the client's image URL exactly |
| `Route.MediaTypeRebuildsUrl` | app/api/generate/route.ts:126 | `data:` followed by `image/<t>` is the decoder's prefix followed by `t` |
| `Route.OutboundCarriesPrompt` | app/api/generate/route.ts:132 | the text part is the prompt of framework g if and only if the request named g |
| `Route.PostForwardsUpstreamStatus` | app/api/generate/route.ts:156-167 | a model error with a numeric status that `NextResponse.json` accepts (for example 429) is returned with that status and its message, with no `code` |
| `Route.PostRefusedStatus` | app/api/generate/route.ts:156-167 | a model error whose status `NextResponse.json` refuses after reduction modulo 65536 (for example 204, 600 or -1) gives a bare 500 with no `error` body |
| `Route.StatusWrapsModulo` | app/api/generate/route.ts:156-167 | a thrown status of 65736 is answered as 200 with the `error` body |
| `Route.PostReturnsCode` | app/api/generate/route.ts:140-150 | a reply gives status 200 with the normalised code |
| `Route.PostExample` | app/api/generate/route.ts:140-150 | a PNG screenshot for React, answered with one `jsx`-fenced block, returns 200 with the bare component |

## Left out

- The SDK client and the network call (app/api/generate/route.ts:5-7, 115-137) are an oracle `sdk` parameter. Retries, timeouts and transport behaviour are not modelled.
- The client reads `ANTHROPIC_API_KEY` once, when the module loads. The guard reads it again on each request. The model has one environment for both reads.
- `req.json()` is framework plumbing. The body arrives already parsed, as two optional strings. A body that fails to parse is not modelled; it would reach the `catch` block like any other throw.
- JavaScript-only inputs are not modelled. A truthy `image` that is not a string would make `.match` throw a `TypeError`. A `framework` that is not a string is not modelled either.
- `Prompts.FrameworkNamed` does not model inherited names: `"toString" in PROMPTS` is true in JavaScript, so such names pass the guard at line 97. Only the three own keys are modelled.
- `Prompts.Prompt` uses short stand-in strings, not the literal prompt texts (app/api/generate/route.ts:11-68). Only their selection and distinctness matter to the route.
- `console.error` logging (app/api/generate/route.ts:152) is left out.
- `Route.ErrorResponse` models the forwarded `status` as an integer. A JavaScript number that is not an integer is not modelled. `NextResponse.json` would truncate it toward zero (`429.5` is sent as 429), and `NaN` and the infinities become 0 and are refused with a `RangeError`.
- `Route.Json` models only the status handling of `NextResponse.json`: the reduction to an `unsigned short` (WebIDL), then the `RangeError` and the `TypeError` that the `Response` constructor of the WHATWG Fetch standard throws. What the framework sends after the handler throws is modelled as a 500 with no body (`Body.NoBody`); its headers and any error page are not modelled.
- Strings are sequences of Unicode scalar values, not UTF-16 code units, so lone surrogates cannot occur.
- `JsString.IsWhitespace` lists the whitespace code points of the current Unicode space-separator category. It would need updating if that category grew.
- The check `matches.length !== 3` (app/api/generate/route.ts:76) can never fail once the pattern matches, so it has no separate branch in the model.
- The page and layout components and the generator page (app/page.tsx, app/layout.tsx, app/generator/page.tsx) are presentation code and are not part of this model.
