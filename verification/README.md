# mcptoolkit, verified

A Dafny model of the parts of mcptoolkit that carry its protocol, with proofs. Three groups:

**The JSON text pipeline.** `JsonBuilder` prints messages by appending to a buffer and decides about commas from
the last byte only. `JsonParser` moves a cursor over the bytes, builds no tree and counts one kind of bracket.
`MCPAdapter` adds two scanners of its own (`extract_string`, `extract_value_span`) and a loop that answers lines.
None of them follows the grammar it has to respect. `Json.dfy` has the grammar (RFC 8259, sections 2 to 7) as a
tree with a printer, and every scanner is proved against printed trees: how far it goes, when it fails, what it
records. The parser theorems hold for all `Scannable` trees, whose strings need only be closed, hence for every JSON
text. Builder calls are proved to print the tree they stand for, and the adapter's replies are proved to go back
through the parser. What a message means, who is let through, what a request is answered with and what a reply shows
are stated a second time by the text of keys, methods and checks (`ParsedFields.dfy`, `RequestTheorems.dfy`,
`ReplyReading.dfy`), without the functions that compute it.

**Stateful protocols over unbounded runs.** `RateLimiter` (lazily refilled token buckets), `RequestQueue` (bounded
queue, mutex and condition variable, any number of threads) and `SessionManager` (idle and absolute expiry). Each is
a class whose methods are proved equal to a step function, and the run properties are proved about that function.

**Byte transformations.** Base64 (RFC 4648, section 4), path redaction and injection detection, JSON escaping, shell
quoting (POSIX.1-2017 Shell Command Language, sections 2.2.1 and 2.2.2).

The code that changes state is a class with fields or a method with loops, as in C++; beside each stands the
specification function its `ensures` names, and the lemmas are about that function.

## Results a reader may not expect

- `-2147483648` is written by `add_field_number` and refused by `parse_int`: its guard is on the magnitude
  (`Decimal.ParseIntInvertsIntText`).
- The adapter looks for members by text, and a key or string shows the text of a quoted key when it is that key or ends
  in an escaped quote and the key. The top-level `name` of a call is found exactly when no member before it, at
  any depth, has a string under a key that is `name` or ends in `\"name` (`CallParams.StringMemberFoundIff`); the
  top-level `arguments` exactly when no key and no string value before them, at any depth, is `arguments` or ends in
  `\"arguments` (`CallParams.MemberFoundIff`). So text inside the arguments can pick the tool, or supply the token
  (`CallParams.InnerTextWins`), and a value can lose the arguments (`CallParams.TextLosesArguments`); with the name
  first, a tool name does so exactly when it is `arguments` or ends in `"arguments` (`CallParams.HidingNames`).
- `extract_value_span` runs one byte past its input exactly when a string in the value it found is left open and an
  odd number of backslashes ends the text (`ExtractProofs.SpanOverrunsIff`, with inputs on both sides in
  `ExtractProofs.BackslashOverruns`). No such text reaches it from `handle_tools_call`: spans from `skip_value` never
  end in a backslash (`ExtractProofs.SkippedSpanEndsClean`, `ExtractProofs.SpanOfSkippedValueInside`).
- Parameter names are written unescaped. When they are closed, the reply with the list is JSON exactly when each name
  could stand in a JSON string as it is (`ToolNames.ListTextIsJson`), because a printed text has only one reading
  (`UniqueReading.ReadOnce`). When all other texts are plain, the parser reads the list exactly when its names hold an
  even number of quotes in all (`ToolLists.ReadIffQuotesEven`); a name that is one quote is valid and makes it
  unreadable (`ToolLists.QuoteInNameIsRefused`). Names can also be read as members: of the list, which then is JSON
  though the name fails the condition (`ToolNames.QuotesCanCancel`), or of the reply, which then answers another
  request (`ToolNames.SecondIdWins`).
- The error reply with a null id is refused by the project's own parser (`Replies.NullIdReplyRejected`).
- A bucket created by a call starts later than the clock reading of that call. If the delay earns more than the
  burst, the bucket owes tokens (`RateLimiterModule.LateBucketOwes`); that is the only way out of [0, burst]
  (`RateLimiterModule.TokensStayInRange`). The window bound holds all the same.
- Escaping after the injection check can spell a pattern: a backspace before `ypass` becomes `\bypass`
  (`Injection.BackspaceSpellsBypass`). `Injection.SanitizedOutput` says exactly when.
- `base64_decode` accepts more than `base64_encode` writes: any padding, or none (`Base64.DecodesBits`).
  `Base64.CanonicalIffReencodes` says which texts come back.
- A new rate or burst counts from the client's last call on, not from the moment it is set
  (`RateLimiterModule.RateCountsFromLastCall`, `RateLimiterModule.BurstCountsFromLastCall`).
- The size check on the parameters of a call never fires: the whole line may be no longer
  (`RequestTheorems.RequestsAreAnswered` has no such case).
- Arguments with a blank anywhere, in strings too, are refused (`RequestTheorems.HarmfulIff`).
- The parser accepts objects followed by any bytes (`ParseTheorems.ParsingRefinesFold` has an arbitrary `rest`) and
  strings with control characters or unknown escapes, so "valid exactly when well-formed" is false; exactness is
  stated on printed trees.
- A comment in `redact_paths` announces Windows paths; the code only looks at `/`. The model follows the code.

## Model

| member | source | states |
|---|---|---|
| `JsonParserModule.JsonParser.SkipWhitespace` | mcptoolkit/src/json/json_parser.cpp:9-12 | the cursor ends at the first byte that is no white space |
| `JsonParserModule.JsonParser.SkipStringLiteral` | mcptoolkit/src/json/json_parser.cpp:16-29 | `skip_string` is `SkipString`, failures included |
| `JsonParserModule.JsonParser.SkipBracketed` | mcptoolkit/src/json/json_parser.cpp:33-52 | the loop over one bracket kind is `SkipContainer`, failures included |
| `JsonParserModule.JsonParser.SkipNumber` | mcptoolkit/src/json/json_parser.cpp:56-108 | the number branch of `skip_value` is `NumberEnd` |
| `JsonParserModule.JsonParser.SkipAnyValue` | mcptoolkit/src/json/json_parser.cpp:56-108 | `skip_value` is `SkipValue`: success, span and cursor |
| `JsonParserModule.JsonParser.ParseStringValue` | mcptoolkit/src/json/json_parser.cpp:112-128 | `parse_string` is `ParseString`: span of the body, cursor behind the quote |
| `JsonParserModule.JsonParser.ParseIntValue` | mcptoolkit/src/json/json_parser.cpp:132-151 | `parse_int` is `ParseInt`; the accumulator is a 64-bit integer and never overflows |
| `JsonParserModule.JsonParser.ParseErrorObjectValue` | mcptoolkit/src/json/json_parser.cpp:157-193 | the `error` loop is `ParseErrorObject` |
| `JsonParserModule.JsonParser.ParseInto` | mcptoolkit/src/json/json_parser.cpp:199-261 | the main loop is `Parse`, with the size limit and its error code |
| `JsonParserModule.ParseText` | mcptoolkit/src/json/json_msg.cpp:13-28 | a message is valid exactly when the specification has one, and is that one |
| `ScanProofs.ClosedIffEnds` | mcptoolkit/src/json/json_parser.cpp:16-29 | a text followed by a quote ends, for the scanner, at that quote if and only if it is closed: no quote unescaped, no backslash at the end |
| `ScanProofs.SkipStringExact` | mcptoolkit/src/json/json_parser.cpp:16-29 | on any closed string literal, `skip_string` stops just behind the closing quote |
| `ScanProofs.NestedExact` | mcptoolkit/src/json/json_parser.cpp:33-52 | for every limit, the flat counter leaves a printed container at its own bracket, or fails exactly when more than that many containers of its kind nest |
| `ScanProofs.NumberEndExact` | mcptoolkit/src/json/json_parser.cpp:56-108 | the number scanner takes exactly the numeral |
| `ScanProofs.SkipValueExact` | mcptoolkit/src/json/json_parser.cpp:56-108 | on every printed value, `skip_value` returns exactly its text, if and only if no path has more than 64 containers of the outermost kind |
| `Text.SpaceCodes` | mcptoolkit/src/json/json_parser.cpp:9-12 | white space is the codes 9 to 13 and 32 |
| `Decimal.ParseIntExact` | mcptoolkit/src/json/json_parser.cpp:132-151 | a numeral is read exactly when its magnitude is at most 2^31-1; its value is returned and all digits consumed |
| `Decimal.ParseIntInvertsIntText` | mcptoolkit/src/json/json_builder.cpp:24-30 | reading inverts printing for every int but -2^31, which is refused |
| `Decimal.IntTextRoundTrip` | mcptoolkit/src/json/json_builder.cpp:24-30 | the printed integer is a JSON number that denotes it |
| `ParseFold.ErrorObjectExact` | mcptoolkit/src/json/json_parser.cpp:157-193 | on a printed value, `parse_error_object` is the fold of its members, and fails on anything but an object |
| `ParseFold.LoopExact` | mcptoolkit/src/json/json_parser.cpp:199-261 | on printed members, the cursor loop is the left fold of the per-member updates |
| `ParseTheorems.ParsingRefinesFold` | mcptoolkit/src/json/json_parser.cpp:199-261 | parsing a printed object, with anything behind it, is that fold under the size limit |
| `ParseTheorems.ValidIffAcceptable` | mcptoolkit/src/json/json_parser.cpp:157-261 | valid if and only if every `method` is a string, every `id` an integer in range, every `error` an object with integer `code` and string `message`, every other value within the nesting limit |
| `ParseTheorems.ParsedMessageAgrees` | mcptoolkit/src/json/json_parser.cpp:157-261 | each field comes from the last member of its name, spans hold the exact printed text, flags are sticky |
| `ParsedFields.ParsedByKey` | mcptoolkit/src/json/json_parser.cpp:157-261 | by the text of the keys: valid if and only if short enough and every `method`, `id`, `error`, `code` and `message` has a value of its kind and every other value nests at most 64 deep; each field and flag is that of the last member of its name, `code` and `message` being looked up in the errors |
| `ParseTheorems.ParsedMessageGood` | mcptoolkit/src/json/json_parser.cpp:157-261 | for every input, well-formed or not, the spans of a valid message lie inside it and `params` is a skipped value |
| `Escape.AppendEscaped` | mcptoolkit/include/json/json_builder.h:24-63 | the loop appends the escape of everything before the first NUL |
| `Escape.EscapeControlCharacters` | mcptoolkit/src/response_sanitizer.cpp:108-150 | the loop yields the escape of the whole string, NULs included |
| `Escape.UnescapeEscape` | mcptoolkit/src/response_sanitizer.cpp:108-150 | unescaping (RFC 8259, section 7) undoes the escaper on every string |
| `Escape.EscapedStringIsSkipped` | mcptoolkit/include/json/json_builder.h:24-63 | between quotes and before any suffix, `skip_string` and `parse_string` both stop just behind the closing quote |
| `Escape.EscapeHasNoControl` | mcptoolkit/include/json/json_builder.h:24-63 | escaped text holds no control character |
| `JsonBuilderModule.JsonBuilder.StartObject` | mcptoolkit/src/json/json_builder.cpp:9-11 | a brace and no comma: the message starts, or an object as the first element of an array |
| `JsonBuilderModule.JsonBuilder.AddField` | mcptoolkit/src/json/json_builder.cpp:15-22 | the buffer gains the comma, key and value; the tree being built gains the member |
| `JsonBuilderModule.JsonBuilder.AddFieldNumber` | mcptoolkit/src/json/json_builder.cpp:24-30 | the same for a number |
| `JsonBuilderModule.JsonBuilder.AddFieldBool` | mcptoolkit/src/json/json_builder.cpp:42-48 | the same for a Boolean |
| `JsonBuilderModule.JsonBuilder.AddFieldRaw` | mcptoolkit/src/json/json_builder.cpp:50-56 | the same for a raw text |
| `JsonBuilderModule.JsonBuilder.AddObjectField` | mcptoolkit/src/json/json_builder.cpp:58-63 | opens a nested object |
| `JsonBuilderModule.JsonBuilder.AddArrayField` | mcptoolkit/src/json/json_builder.cpp:69-74 | opens a nested array |
| `JsonBuilderModule.JsonBuilder.AddArrayElement` | mcptoolkit/src/json/json_builder.cpp:80-85 | appends a string element |
| `JsonBuilderModule.JsonBuilder.AddArrayElementRaw` | mcptoolkit/src/json/json_builder.cpp:87-90 | appends a raw element |
| `JsonBuilderModule.JsonBuilder.CloseObjectField` | mcptoolkit/src/json/json_builder.cpp:65-67 | closes a nested object |
| `JsonBuilderModule.JsonBuilder.CloseArrayField` | mcptoolkit/src/json/json_builder.cpp:76-78 | closes a nested array |
| `JsonBuilderModule.JsonBuilder.EndObject` | mcptoolkit/src/json/json_builder.cpp:12-14 | closes the message, or an object that is an element |
| `JsonBuilderModule.CommaRight` | mcptoolkit/src/json/json_builder.cpp:15-90 | the last-byte test puts a comma before exactly the members and elements that are not first |
| `JsonBuilderModule.BuilderMirrorsTree` | mcptoolkit/src/json/json_builder.cpp:9-90 | every well-nested sequence of calls leaves exactly the print of the tree it stands for |
| `JsonBuilderModule.BuiltTreeIsJson` | mcptoolkit/src/json/json_builder.cpp:9-90 | with plain keys and raw arguments that are JSON texts, that tree is well-formed |
| `Extract.ExtractString` | mcptoolkit/src/mcp_adapter.cpp:359-423 | the pointer loop selects the first textual match of the quoted key, a colon and a quote |
| `Extract.ExtractValueSpan` | mcptoolkit/src/mcp_adapter.cpp:426-493 | the `depth`/`in_str` loop is `ExtractedSpan` |
| `Extract.FirstStringMatch` | mcptoolkit/src/mcp_adapter.cpp:359-423 | the match selected is one, and nothing before it is |
| `ExtractProofs.SkippedSpanEndsClean` | mcptoolkit/src/json/json_parser.cpp:56-108 | no span returned by `skip_value` ends in a backslash, on any input |
| `ExtractProofs.SpanOfSkippedValueInside` | mcptoolkit/src/mcp_adapter.cpp:426-493 | on such a span, `extract_value_span` stays inside for every key |
| `ExtractProofs.SpanOverrunsIff` | mcptoolkit/src/mcp_adapter.cpp:426-493 | on any text, the span found ends at most one byte behind it, and does so if and only if a string in the value is left open and an odd number of backslashes ends the text |
| `ExtractProofs.BackslashOverruns` | mcptoolkit/src/mcp_adapter.cpp:426-493 | a text for which it does, and one that ends in a backslash for which it does not |
| `ExtractProofs.BracketEndIsNestedEnd` | mcptoolkit/src/mcp_adapter.cpp:426-493 | its bracket loop agrees with `skip_container` wherever that succeeds |
| `ExtractSearch.SpanFoundInText` | mcptoolkit/src/mcp_adapter.cpp:426-493 | on any printed value, `extract_value_span` returns the value of the first key or string that shows the key, if that is a key |
| `ExtractSearch.StringFoundInText` | mcptoolkit/src/mcp_adapter.cpp:359-423 | on any printed value, `extract_string` returns the body of the first string under a key that shows the key |
| `CallParams.MemberFoundIff` | mcptoolkit/src/mcp_adapter.cpp:246-315 | in any object, a member's value is found by its key if and only if nothing in front of it shows the key |
| `CallParams.StringMemberFoundIff` | mcptoolkit/src/mcp_adapter.cpp:246-315 | in any object, a member's string is found by its key if and only if no member in front of it, at any depth, has a string under a key that shows it |
| `CallParams.NameFound` | mcptoolkit/src/mcp_adapter.cpp:246-315 | with the name first and the arguments second, the name is always found |
| `CallParams.ArgumentsFoundUnlessHidden` | mcptoolkit/src/mcp_adapter.cpp:246-315 | and the arguments are found, unless the name shows their key; then nothing is |
| `CallParams.HidingNames` | mcptoolkit/src/mcp_adapter.cpp:246-315 | the print of a name shows a key if and only if the name is that key or ends in a quote and that key |
| `CallParams.InnerTextWins` | mcptoolkit/include/mcp_adapter.h:78-85 | calls with the arguments first, for which a string inside them is taken for the call's own name or token, whatever the two are |
| `CallParams.TextLosesArguments` | mcptoolkit/src/mcp_adapter.cpp:246-315 | calls with a string `arguments` in front, for which the arguments are never found |
| `Replies.ResultReplyParses` | mcptoolkit/src/mcp_adapter.cpp:158-182 | a reply with a result is accepted exactly when short enough, with an id in range and not nested too deeply; it is a response with that id and that result text |
| `Replies.ErrorReplyParses` | mcptoolkit/src/mcp_adapter.cpp:335-350 | an error reply is accepted exactly when short enough, with id and code in range; it is a response with both, and its message span unescapes to the message |
| `Replies.NullIdReplyRejected` | mcptoolkit/src/mcp_adapter.cpp:335-350 | the parser refuses every error reply with a null id |
| `Replies.CallResultIsJson` | mcptoolkit/src/mcp_adapter.cpp:246-315 | for every tool text, the result of a call is well-formed and within the nesting limit |
| `Replies.ListResultIsJson` | mcptoolkit/src/mcp_adapter.cpp:188-240 | the tree a tool list is printed from is well-formed if and only if every parameter name could stand in a JSON string as it is; it is always within the nesting limit |
| `UniqueReading.ReadOnce` | mcptoolkit/src/json/json_builder.cpp:9-90 | two trees with the same print are the same, up to white space behind an opening bracket |
| `UniqueReading.PrintIsJsonIff` | mcptoolkit/src/json/json_builder.cpp:9-90 | the print of a tree with closed strings is a JSON text if and only if that tree is well-formed, however else it might be read |
| `ToolNames.ListTextIsJson` | mcptoolkit/src/mcp_adapter.cpp:188-240 | with closed names, the text of the reply is JSON if and only if every parameter name could stand in a JSON string as it is |
| `ToolNames.QuotesCanCancel` | mcptoolkit/src/mcp_adapter.cpp:188-240 | names that end one member and start another are neither closed nor fit for a JSON string, yet, valid up to 256 bytes, they make the text of a list with two parameters, which is JSON and accepted |
| `ToolNames.SecondIdWins` | mcptoolkit/src/mcp_adapter.cpp:12-59 | names, valid up to 256 bytes, that close the result and add an id: the reply is accepted as a response with that id, whatever id was asked with |
| `ToolLists.ReadIffQuotesEven` | mcptoolkit/src/mcp_adapter.cpp:188-240 | with plain texts elsewhere, the reply with a tool list is accepted, with its id and whole result, if and only if it is short enough, the id in range and the number of quotes in all parameter names even |
| `ToolLists.QuoteInNameIsRefused` | mcptoolkit/src/mcp_adapter.cpp:188-240 | a tool that passes validation, whose parameter name is a quote, and whose list the parser refuses for every id and size limit |
| `McpAdapter.MCPAdapter.SendError` | mcptoolkit/src/mcp_adapter.cpp:335-350 | writes the print of the error reply |
| `McpAdapter.MCPAdapter.HandleInitialize` | mcptoolkit/src/mcp_adapter.cpp:158-182 | writes the print of the initialize reply |
| `McpAdapter.MCPAdapter.HandleToolsList` | mcptoolkit/src/mcp_adapter.cpp:188-240 | writes the print of the tool list, or an error for the first invalid definition |
| `McpAdapter.MCPAdapter.HandleToolsCall` | mcptoolkit/src/mcp_adapter.cpp:246-315 | writes the print of the call's reply, each error case included; the tool is called for the user the token decodes to |
| `McpAdapter.MCPAdapter.ExtractAuthToken` | mcptoolkit/include/mcp_adapter.h:78-85 | the text found under `auth_token` in the parameters, or nothing |
| `McpAdapter.MCPAdapter.Dispatch` | mcptoolkit/src/mcp_adapter.cpp:86-152 | writes one reply for a request, nothing otherwise: token, validation, decoding and role are checked in this order, each refusal with its message, before the method |
| `McpAdapter.MCPAdapter.Run` | mcptoolkit/src/mcp_adapter.cpp:65-80 | the output of the loop is the replies to its lines; tools, results and what the security layer answers may differ from line to line |
| `McpAdapter.ToolError` | mcptoolkit/src/mcp_adapter.cpp:12-59 | accepted if and only if names are not empty, at most 256 bytes and free of line breaks and NULs, descriptions within their limits, at most 256 parameters, each of a known type |
| `AdapterTheorems.ExactlyOnce` | mcptoolkit/src/mcp_adapter.cpp:65-152 | one reply per line that is due one, in order, with that line's id; nothing for other lines |
| `AdapterTheorems.RepliesAreSingleLines` | mcptoolkit/src/mcp_adapter.cpp:188-350 | no reply contains a newline, for any input lines, tools and tool output |
| `AdapterTheorems.RepliesAreResponses` | mcptoolkit/src/mcp_adapter.cpp:86-152 | the reply to a request, fed back, is a valid response with the request's id, exactly when the size limit admits it; only a tool list asks something, that its parameter names be closed |
| `AdapterTheorems.TokenIsTopLevel` | mcptoolkit/include/mcp_adapter.h:78-85 | the token is the string of the top-level member `auth_token`, whatever else the parameters hold, unless a member before it, at any depth, has a string under its key |
| `RequestTheorems.RequestsAreAnswered` | mcptoolkit/src/mcp_adapter.cpp:86-152 | on every printed request: let through if and only if authentication is off, or the token is there, allowed, decodes to a user, and roles are off or permit that user the method; then served by the text of its method; otherwise the -32603 error of the first check that fails |
| `RequestTheorems.CallsAreAnswered` | mcptoolkit/src/mcp_adapter.cpp:246-315 | on every printed call that is let through: with a top-level name and top-level arguments that nothing hides, in any order among other members, that tool is called with exactly that text for that user, unless the name is empty or the arguments hold a refused character |
| `RequestTheorems.HarmfulIff` | mcptoolkit/src/input_validation.cpp:111-152 | the two checks refuse exactly the texts with one of ten characters or one of seventeen percent codes |
| `RequestTheorems.OtherLines` | mcptoolkit/src/mcp_adapter.cpp:65-98 | printed objects that are too long or do not fit get a parse error; those that fit get no answer if and only if the method or the id is missing |
| `ReplyReading.ErrorShows` | mcptoolkit/src/mcp_adapter.cpp:335-350 | version, id or null, code and message are found under their keys |
| `ReplyReading.InitializeShows` | mcptoolkit/src/mcp_adapter.cpp:158-182 | protocol, server name, server version and an empty tools capability are found under their keys |
| `ReplyReading.CallShows` | mcptoolkit/src/mcp_adapter.cpp:246-315 | `isError` is true if and only if the tool failed; the only content is a text that unescapes to what the tool returned |
| `ReplyReading.ListShows` | mcptoolkit/src/mcp_adapter.cpp:188-240 | every tool in order, with its name, description, parameters in order with type and description, and exactly its required names |
| `RateLimiterModule.RateLimiter.AllowRequest` | mcptoolkit/src/rate_limiter.cpp:14-48 | refill with truncation, cap, test, spend; the other buckets are untouched |
| `RateLimiterModule.RateLimiter.SetClientRate` | mcptoolkit/src/rate_limiter.cpp:50-59 | changes the rate, or creates the bucket |
| `RateLimiterModule.RateLimiter.SetClientBurst` | mcptoolkit/src/rate_limiter.cpp:61-75 | changes the burst and caps the tokens, or creates the bucket |
| `RateLimiterModule.RateLimiter.ResetClient` | mcptoolkit/src/rate_limiter.cpp:77-80 | forgets the bucket |
| `RateLimiterModule.TokensStayInRange` | mcptoolkit/src/rate_limiter.cpp:14-48 | a call keeps every bucket at most full, and no bucket owing, exactly unless the call creates a bucket too late |
| `RateLimiterModule.RunStaysInRange` | mcptoolkit/src/rate_limiter.cpp:14-80 | so over whole runs |
| `RateLimiterModule.LateBucketOwes` | mcptoolkit/include/rate_limiter.h:18-22 | a bucket that owes a token after its first call |
| `RateLimiterModule.WindowBound` | mcptoolkit/src/rate_limiter.cpp:14-48 | between two calls at s and t at most burst + rate * (t - s) requests are admitted, whatever other clients do |
| `RateLimiterModule.LazyIsEager` | mcptoolkit/src/rate_limiter.cpp:30-47 | on whole milliseconds, the decisions are those of a bucket refilled every millisecond |
| `RateLimiterModule.LazyBelowFluid` | mcptoolkit/src/rate_limiter.cpp:30-47 | at any times, it never holds more than the continuous bucket with the same admissions, and lags it by at most a millisecond's tokens per call |
| `RateLimiterModule.AnswersAreEager` | mcptoolkit/src/rate_limiter.cpp:14-48 | over whole runs with other clients and changing defaults, a client calling on whole milliseconds is answered as by a bucket refilled every millisecond |
| `RateLimiterModule.FirstAnswersAreEager` | mcptoolkit/src/rate_limiter.cpp:14-48 | a client without a bucket is answered so from the default burst, less what the rate earns between its call and the bucket's birth |
| `RateLimiterModule.RateCountsFromLastCall` | mcptoolkit/src/rate_limiter.cpp:50-59 | after a rate is set, answers are as if it had held since the last call |
| `RateLimiterModule.BurstCountsFromLastCall` | mcptoolkit/src/rate_limiter.cpp:61-75 | after a burst is set, answers are as if it had held since the last call, with the tokens cut to it |
| `RateLimiterModule.SetBeforeFirstCall` | mcptoolkit/src/rate_limiter.cpp:50-75 | set for an unknown client, either gives a full bucket from then on |
| `RateLimiterModule.ResetStartsOver` | mcptoolkit/src/rate_limiter.cpp:77-80 | after a reset, answers are those of a client that never called, by the defaults then in force |
| `RateLimiterModule.RunBelowFluid` | mcptoolkit/src/rate_limiter.cpp:14-48 | over whole runs and at any times, the bucket never holds more than the continuous one and lags it by the truncation only |
| `RequestQueueModule.RequestQueue.Enqueue` | mcptoolkit/src/request_queue.cpp:7-18 | refused exactly when full; otherwise the request goes to the back and one blocked thread, if any, is notified |
| `RequestQueueModule.RequestQueue.BeginDequeue` | mcptoolkit/src/request_queue.cpp:20-36 | takes the front, or blocks |
| `RequestQueueModule.RequestQueue.ResumeDequeue` | mcptoolkit/src/request_queue.cpp:20-36 | an awake thread takes the front, gives up if it timed out on an empty queue, or blocks again |
| `RequestQueueModule.RequestQueue.ClearAll` | mcptoolkit/src/request_queue.cpp:58-63 | empties the queue and wakes nobody |
| `RequestQueueModule.RunsKeepWakeups` | mcptoolkit/src/request_queue.cpp:7-36 | over every interleaving: while a thread is blocked, the queue is no longer than the number of awake threads |
| `RequestQueueModule.RunsConserve` | mcptoolkit/src/request_queue.cpp:7-63 | what left the queue followed by the queue is what it held at first followed by what was accepted |
| `RequestQueueModule.RunsKeepCapacity` | mcptoolkit/src/request_queue.cpp:7-51 | the queue never outgrows the largest capacity in force during the run |
| `RequestQueueModule.ArrivalsFillTheQueue` | mcptoolkit/src/request_queue.cpp:7-18 | of any arrivals, as many as there is room for are accepted, in order |
| `RequestQueueModule.TimedOutReturns` | mcptoolkit/src/request_queue.cpp:20-36 | a thread whose wait timed out takes the front or, if there is none, gives up, whatever happens in between |
| `RequestQueueModule.CapacityIsLastSet` | mcptoolkit/src/request_queue.cpp:48-51 | the capacity is the one set last |
| `SessionManagerModule.SessionManager.LogIn` | mcptoolkit/src/session_manager.cpp:37-53 | errors in order; otherwise the old session goes and the new one starts |
| `SessionManagerModule.SessionManager.ValidateSession` | mcptoolkit/src/session_manager.cpp:55-78 | the result, and what happens to the session in each case; the expiry test and the refresh read the clock separately |
| `SessionManagerModule.SessionManager.Purge` | mcptoolkit/src/session_manager.cpp:85-93 | the erasing loop leaves exactly the sessions that have not expired, each at its own reading of the clock |
| `SessionManagerModule.SessionManager.CreateAnonymousSession` | mcptoolkit/src/session_manager.cpp:27-35 | refused until configured; otherwise a session without user or agent |
| `SessionManagerModule.SessionManager.LogOut` | mcptoolkit/src/session_manager.cpp:80-83 | the session goes, if there is one |
| `SessionManagerModule.PurgingIsUnobservable` | mcptoolkit/src/session_manager.cpp:27-105 | two runs that differ only in their purges give the same valid flags and identifiers |
| `SessionManagerModule.ValidatesIffSurvives` | mcptoolkit/src/session_manager.cpp:27-105 | a validation succeeds if and only if its identifier was issued and every later call left that session alive, said without the session table |
| `SessionManagerModule.ValidatesIffOutlives` | mcptoolkit/src/session_manager.cpp:22-105 | from an unconfigured manager, comparison by comparison: a validation succeeds if and only if its identifier was issued, nothing ended or replaced that session, and every validation since, the last included, came within both limits and, where bound, from the agent of the login |
| `SessionManagerModule.FailureSaysWhy` | mcptoolkit/src/session_manager.cpp:55-78 | which failure is reported, the first reason first, and that the session is gone |
| `SessionManagerModule.NothingBeforeConfigure` | mcptoolkit/src/session_manager.cpp:27-57 | before configuration nothing is issued and every call is refused |
| `SessionManagerModule.PurgeLeavesTheLiving` | mcptoolkit/src/session_manager.cpp:85-105 | a purge leaves exactly the sessions within both limits, unchanged |
| `SessionManagerModule.ValidOnlyWhileFresh` | mcptoolkit/src/session_manager.cpp:55-105 | so it succeeds only within the lifetime of its issue and the idle timeout of its last activity |
| `SessionManagerModule.LoginRetiresOldId` | mcptoolkit/src/session_manager.cpp:37-53 | after a login the old identifier never validates again unless it is issued again |
| `Base64.Base64Encode` | mcptoolkit/src/authentication_handler.cpp:17-54 | the three-byte buffer loop is `Encode` |
| `Base64.Base64Decode` | mcptoolkit/src/authentication_handler.cpp:57-97 | the four-letter buffer loop is `Decode`, including what is written before a fault |
| `Base64.DecodeInvertsEncode` | mcptoolkit/src/authentication_handler.cpp:17-97 | decoding inverts encoding for every length; no sum exceeds a byte where it is stored |
| `Base64.EncodedLength` | mcptoolkit/src/authentication_handler.cpp:17-54 | n bytes give 4 * ceil(n / 3) letters |
| `Base64.CanonicalIffReencodes` | mcptoolkit/src/authentication_handler.cpp:57-97 | a text decodes and encodes back to itself if and only if it is padded to groups of four with no stray bits |
| `Base64.LettersAreBits` | mcptoolkit/src/authentication_handler.cpp:17-54 | the k-th letter is the one at the place in the alphabet that bits 6k to 6k + 5 of the data say, zeros behind the data; then padding |
| `Base64.DecodesBits` | mcptoolkit/src/authentication_handler.cpp:57-97 | accepted if and only if all in front of the first pad are letters; each then gives the six bits of its place |
| `Base64.AlphabetIsTable` | mcptoolkit/src/authentication_handler.cpp:18-19 | the alphabet, letter by letter |
| `Sanitizer.RedactPaths` | mcptoolkit/src/response_sanitizer.cpp:73-106 | the loop that replaces in place ends (what lies behind the cursor shrinks) and yields the one-pass redaction |
| `Sanitizer.RedactIsPiecewise` | mcptoolkit/src/response_sanitizer.cpp:73-106 | that is: split at blanks, cut each piece from its first path start if two slashes remain, join |
| `Sanitizer.RedactIsIdempotent` | mcptoolkit/src/response_sanitizer.cpp:73-106 | redacting twice is redacting once |
| `Sanitizer.RootedWord` | mcptoolkit/src/response_sanitizer.cpp:73-106 | a word from the root with a further slash becomes `/[PATH]`; without one it stays |
| `Injection.ContainsInjectionPatterns` | mcptoolkit/src/response_sanitizer.cpp:56-71 | found exactly when some pattern occurs in any case |
| `Injection.Sanitize` | mcptoolkit/src/response_sanitizer.cpp:21-54 | refused, with its message, exactly when too long without truncation or suspicious; otherwise limited, redacted, escaped |
| `Injection.RedactAddsNone` | mcptoolkit/src/response_sanitizer.cpp:73-106 | redaction introduces no pattern |
| `Injection.RedactedIsUnsuspicious` | mcptoolkit/src/response_sanitizer.cpp:21-54 | so what reaches the escaper shows none |
| `Injection.EscapedOccurs` | mcptoolkit/src/response_sanitizer.cpp:108-150 | escaping shows a pattern if and only if the text did, or the end of an escape and the text behind it spell it |
| `Injection.SanitizedOutput` | mcptoolkit/src/response_sanitizer.cpp:21-54 | what `sanitize` returns without refusing unescapes to a redacted text without patterns, and shows one itself if and only if escaping is on and the end of an escape and the text behind it spell it |
| `Injection.SuspiciousIffReads` | mcptoolkit/src/response_sanitizer.cpp:56-71 | found if and only if one of the eight phrases can be read somewhere, letter by letter in either case |
| `Injection.CaseDoesNotMatter` | mcptoolkit/src/response_sanitizer.cpp:56-71 | texts that differ in the case of letters only are treated alike |
| `Injection.RefusedIff` | mcptoolkit/src/response_sanitizer.cpp:21-54 | exactly when and with which error a response is refused, and what is returned otherwise, written out |
| `Injection.BackspaceSpellsBypass` | mcptoolkit/src/response_sanitizer.cpp:21-54 | a response for which it does, with any limit of six bytes or more |
| `Shell.EscapeShellArgument` | mcptoolkit/src/input_validation.cpp:154-167 | the loop is `Escaped` |
| `Shell.ShellReadsBack` | mcptoolkit/src/input_validation.cpp:154-167 | a shell reads a line of escaped arguments as exactly those words, whatever they contain, and ends unquoted |

## Left out

- Bytes are `char` values in `string`; base64 uses 8-bit vectors. The lemmas about text hold for all characters, so
  for bytes too; behaviour that depends on `char` being signed (`std::isspace` of a negative value) is not modelled.
- Lengths, positions and lines are unbounded integers; `int in_len` in `base64_decode` is not truncated.
- Null `const char*` arguments are not modelled.
- Fields of a message that is not valid: `parse_string` writes its start before it can fail.
- `MCPMessage` is a value that is passed along; the references into it and the lifetime of the parsed buffer are not.
- `Escape.Unescape` refuses `\uXXXX` of 0x80 and above, which the escapers never write.
- AdapterTheorems.RepliesAreResponses: for a tool list, closed names are enough but not necessary.
- ToolLists.ReadIffQuotesEven: it asks that names hold no braces, backslashes or control characters, that names with
  quotes belong to parameters that are not required, and that the other texts hold none of these, nor quotes. With
  braces a name may be read as members (`ToolNames`), and then what the parser makes of a list depends on all of it.
- ToolNames.ListTextIsJson: for names that are closed; for others the condition is not necessary
  (`ToolNames.QuotesCanCancel`).
- ExtractSearch.SpanFoundInText, ExtractSearch.StringFoundInText: for keys without quotes, backslashes, blanks, control
  characters and the punctuation of JSON; the source looks up `name`, `arguments` and `auth_token`.
- CallParams.NameFound, CallParams.ArgumentsFoundUnlessHidden: two members, name first; the `Iff` lemmas have the rest.
- What `validate_request` and `decode_token` make of a token, and `check_permission` of a user and method, are
  parameters of the adapter, and so are `list_tools`, `call_tool` and the server's name, version and protocol. All but
  the last three may answer differently for every line, but not change state that this model sees. The user's role is
  always the default one; a subclass that overrides `extract_auth_token`, flushing, logging and timestamps are absent.
- `start_object` as a later element of an array: the source writes no comma there and the text is not JSON. The buffer
  is modelled; `BuilderMirrorsTree` counts such a call as not well nested.
- `add_field_double`: `%.15g` is floating-point printing.
- The laws of `SessionManager` over runs are for a configuration that is set once.
- Tokens are reals, clocks are parameters: one reading per call, and one more where a bucket is created.
- `RequestQueue`: the condition variable is modelled by its steps; how long 30 seconds last, fairness and the mutex
  itself are not. `size`, `is_full` and `get_max_size` only read.
- `SessionManager`: `generate_id` is a stream of identifiers, not assumed fresh; `active_count` does show purging.
- Also not modelled: HMAC and OS randomness, `std::filesystem` checks, `std::regex`, `ResourceMonitor`,
  `TimeoutManager`, `ToolExecutionGuard`, role lookups, blacklists, failure counters, audit logging.
