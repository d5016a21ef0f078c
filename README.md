# ollama-ui-go tool-call core in Dafny

This project models the tool-calling core of ollama-ui-go, a web front end
that relays chat requests to an Ollama backend and streams the replies back
to the browser. A model may ask for a tool in two ways:

- in the backend's structured `tool_calls` field;
- inside its reply text, in one of two forms:
  - a `<|tool_call|>…<|/tool_call|>` envelope;
  - a "```tool" fenced block.

For a structured call, and for an envelope body that is a bare call such as
`print(lookup_price(sku123))`, the server runs the matching
`lua-tools/<name>.lua` script and writes its output in place of the model's
text. An envelope body that is JSON runs no script at all (see below).

Modules:

- `Basics`: `Option` and a `byte` type.
- `TextScan`: substring search, maximal runs of a character class, and
  identifiers. These are the building blocks of the regular expressions.
- `ToolCalls`: `ParseToolCalls` from `lib/ollama.go`.
  - Go's leftmost-first regular-expression matching is written out as scans.
    `Leftmost` finds the first position where a pattern matches.
    `MatchAt` gives the capture groups at one position.
  - The search is tied to independent descriptions of a match
    (`IsTaggedMatch`, `IsFencedMatch`, `IsCallMatch`, `IsBareMatch`).
  - Whether `json.Unmarshal` accepts a text is a parameter, `isJson`.
- `Arguments`: `FlattenArgument`, which lists the values of an argument
  object in map iteration order.
- `Chat`: the per-fragment callback `respFunc` of `HandleOllamaChat`.
  - `ClientStream` is a class for the response writer, its flusher and the
    cancel function. It records every write and flush in order.
  - `ClientStream.RespFunc` is proved against the function `FragmentReply`.
  - `os.Stat`, `RunLuaFile`, `u.JsonDumpByte` and `json.Unmarshal` are fields
    of a `Tools` value:
    - a set of existing script paths;
    - a runner that returns output or failure;
    - a serialiser;
    - the JSON acceptance test.
- `Password`: `GenerateSecureRandomPassword`.
  - The random bytes are an input. `None` stands for a failed `rand.Read`.
  - The bytes are rewritten in place in an array buffer.
- `AiTools`: the native `Get_current_weather` tool from `ai-tools.go`.

Four behaviours of the code are easy to expect otherwise; the model follows
the code in each:

- **JSON envelope bodies, tagged or fenced, write nothing.** An envelope
  whose body is a JSON array of calls (for example a `Get_current_weather`
  call) writes nothing to the client; the fragment is only flushed.
  - The reason: `json.Unmarshal` into an `any` yields `[]any`, never
    `[]ToolFunctionResponse` or `map[string]string`. So neither branch of
    the dispatcher runs.
  - One might expect the tool's output to be written instead. See
    `JsonBodyWritesNothing` and `TaggedWeatherCallWritesNothing`.
- **"No tool call" is an error.** `ParseToolCalls` reports text without a
  tool call as an error ("failed to parse tool calls"), not as an empty
  result. `respFunc` treats that error as plain content, so the client sees
  the text unchanged.
- **Failed scripts in structured calls write "".** When a structured call's
  script fails, the empty output is written. The content is not written as
  a fallback. Only the bare-call path falls back to the content when its
  script fails.
- **Non-string arguments panic.** `FlattenArgument` panics on a non-string
  value (`v.(string)`) rather than reporting an error a caller could fall
  back from.

## Model

| member | source | states |
|---|---|---|
| TextScan.FindFrom | lib/ollama.go:195-196 | the first occurrence of a marker at or after a position, or none when there is no occurrence; this is the search behind the lazy `(.*?)` bodies |
| TextScan.SpanEnd | lib/ollama.go:196 | the end of the maximal run of a character class, as the greedy `[^\s]*` after "```tool" takes it |
| ToolCalls.MatchAt | lib/ollama.go:194-214 | the capture groups of a match at one position: one group (the body) for the two envelopes, two (name and payload) for the bare call |
| ToolCalls.TaggedAt | lib/ollama.go:195 | a tagged match at a position starts with the opening tag, and its one group is the text between it and a closing tag that follows |
| ToolCalls.FencedAt | lib/ollama.go:196 | a fenced match at a position starts with "```tool" and has one group; some newline at or after the end of "```tool" is followed by exactly that group, which is followed by "\n```" |
| ToolCalls.CallAt | lib/ollama.go:214 | a call match at a position is a nonempty name starting with a letter or `_`, then `(`, then exactly the payload group's text, then `)` |
| ToolCalls.BareCallAt | lib/ollama.go:214 | the bare-call pattern matches at a position iff a call starts there or `print(` starts there and a call follows it |
| ToolCalls.BareCallAtMeaning | lib/ollama.go:214 | the bare-call scan gives `name` and `args` at a position iff they are the call after `print(` when there is one, otherwise the call at that position |
| ToolCalls.Leftmost | lib/ollama.go:201 | the first entry of FindAllStringSubmatch: a match at the returned position, none at any earlier position, and none at all when the result is empty |
| ToolCalls.TaggedAtMeaning | lib/ollama.go:195 | the tagged pattern matches at a position with body `b` iff the opening tag is there and `b` runs up to the first closing tag after it |
| ToolCalls.FencedAtMeaning | lib/ollama.go:196 | the fenced pattern matches at a position with body `b` iff "```tool", a label without whitespace and a newline are there, and `b` runs to the first "\n```" |
| ToolCalls.CallAtMeaning | lib/ollama.go:214 | the bare-call pattern matches `name(args)` iff `name` is a maximal identifier followed by `(` and `args` runs to the first `)` |
| ToolCalls.TaggedAtNone | lib/ollama.go:195 | no tagged envelope opens at a position iff the tagged scan there finds nothing |
| ToolCalls.FencedAtNone | lib/ollama.go:196 | no fenced block opens at a position iff the fenced scan there finds nothing |
| ToolCalls.FindEnvelope | lib/ollama.go:194-210 | the envelope found is a tagged or fenced match with no match of its pattern earlier; a fenced one only when no tagged match exists; none only when neither pattern matches anywhere |
| ToolCalls.ParseToolCalls | lib/ollama.go:192-227 | no envelope gives the error; an envelope whose body is JSON gives that body, decoded generically; a non-JSON body gives the error exactly when the bare-call search finds nothing, and otherwise a map with exactly the keys func_name and args_json; a result is never a list of ToolFunctionResponse |
| ToolCalls.TaggedEnvelopeFirst | lib/ollama.go:194-206 | if a tagged envelope exists, the leftmost one is used, whatever fenced blocks exist |
| ToolCalls.FencedEnvelopeSecond | lib/ollama.go:194-206 | without any tagged envelope, the leftmost fenced block is used |
| ToolCalls.TaggedEnvelopeSound | lib/ollama.go:195-210 | a tagged envelope that is found is a real match with no earlier one, and its body never contains the closing tag |
| ToolCalls.FencedEnvelopeSound | lib/ollama.go:194-210 | a fenced block that is found is a real match with no earlier one; no tagged envelope exists anywhere; its body never contains "\n```" |
| ToolCalls.EnvelopeComplete | lib/ollama.go:199-209 | no envelope is found iff neither pattern matches anywhere in the text |
| ToolCalls.NoEnvelopeNoToolCall | lib/ollama.go:207-209 | text without an envelope gives "failed to parse tool calls", whatever bare call it holds |
| ToolCalls.NoMarkerCharsNoEnvelope | lib/ollama.go:195-196 | text with no `<` and no backquote holds no envelope |
| ToolCalls.BareCallAloneIsParseError | lib/ollama.go:207-209 | `print(lookup_price(sku123))` with no envelope around it is not a tool call |
| ToolCalls.JsonBodyIsGeneric | lib/ollama.go:210-226 | an envelope body that json.Unmarshal accepts comes back as a generic decoded value |
| ToolCalls.NeverToolFunctionList | lib/ollama.go:192-227 | no input makes ParseToolCalls return a list of ToolFunctionResponse |
| ToolCalls.LeftmostBareCall | lib/ollama.go:214-215 | the bare-call match that is used is a real one, and no bare call matches at any earlier position |
| ToolCalls.NoBareCall | lib/ollama.go:214-218 | the bare-call search finds nothing iff no call `name(args)` occurs anywhere in the body |
| ToolCalls.BareCallFallback | lib/ollama.go:213-224 | for a non-JSON body: the result is an error iff no call `name(args)` occurs in the body; otherwise it is a map with exactly the keys func_name and args_json, holding the groups of the leftmost bare-call match, with the call after `print(` preferred |
| ToolCalls.TaggedBodyFound | lib/ollama.go:195-210 | a body free of `<` between the two tags is the envelope found at position 0 |
| ToolCalls.PrintedCallInEnvelope | lib/ollama.go:214-224 | for any identifier name and any args without `)` or `<`, the tagged envelope around `print(name(args))` whose body is not JSON parses to func_name name and args_json args |
| ToolCalls.PrintedCall | lib/ollama.go:214 | in `print(name(args))` the `print(` prefix is present and the call after it has name `name` and payload `args` |
| ToolCalls.PrintPrefixPreferred | lib/ollama.go:214 | in `print(name(args))` the only bare-call match at 0 is name `name` with payload `args`, never the outer `print` call |
| Arguments.FlattenArgument | lib/ollama.go:229-235 | one string per key, in some order that lists every key once; each string is its key's value; every value occurs as many times as there are keys holding it |
| Chat.ClientStream.Write | lib/ollama.go:341-345 | a write appends the text to what the client was sent, and it succeeds iff the client still accepts writes |
| Chat.ClientStream.Flush | lib/ollama.go:348 | a flush is appended to what the client was sent |
| Chat.ClientStream.Cancel | lib/ollama.go:343 | the backend call is cancelled |
| Chat.ClientStream.WriteCalls | lib/ollama.go:297-307 | the writes for a list of calls are appended in list order, one per call |
| Chat.ClientStream.RespFunc | lib/ollama.go:294-350 | the writes, the flush, the cancellation and the returned error are exactly those that FragmentReply gives for the fragment |
| Chat.ListCallText | lib/ollama.go:299-305 | the text written for one listed call: the content when the script is missing, otherwise the script's output on the serialised arguments, or "" when it fails |
| Chat.ListCallWrites | lib/ollama.go:297-307 | one write per call and never a flush |
| Chat.BareCallText | lib/ollama.go:325-335 | the text written for a bare call: the content when the script is missing or fails, otherwise the script's output on the raw payload |
| Chat.FragmentReply | lib/ollama.go:294-350 | a fragment is cancelled iff it fails, and fails iff it is passed through to a client that no longer accepts writes; the last event is the flush, or the failed write; nothing is flushed before the last event |
| Chat.ListCallWritesAt | lib/ollama.go:297-307 | a list of calls gives one write per call: the content when the script is missing, otherwise the script's output |
| Chat.StructuredCalls | lib/ollama.go:296-349 | structured calls do not depend on JSON parsing or on the client; they write once per call in order, then flush once and never fail |
| Chat.JsonBodyWritesNothing | lib/ollama.go:310-349 | an envelope body that is JSON writes nothing; the fragment is only flushed |
| Chat.BareCallReply | lib/ollama.go:324-337 | a bare call writes once and flushes: the content when the script is missing or fails, otherwise the script's output for the raw payload |
| Chat.PassThrough | lib/ollama.go:339-349 | a fragment that is not a tool call is written verbatim; if the write fails, the call is cancelled, an error is returned and nothing is flushed |
| Chat.FlushOnceUnlessFailed | lib/ollama.go:294-350 | a fragment fails iff it is passed through and the write fails, and only then is the call cancelled; every other fragment ends with exactly one flush |
| Chat.OnlyJsonBodiesWriteNothing | lib/ollama.go:294-350 | a fragment writes nothing iff it has no structured calls and its envelope body is JSON |
| Chat.BareCallWithoutEnvelopeEchoed | lib/ollama.go:310-348 | `print(lookup_price(sku123))` with no envelope reaches the client unchanged, whatever scripts exist |
| Chat.TaggedWeatherCallWritesNothing | lib/ollama.go:310-348 | the tagged Get_current_weather JSON call writes nothing and only flushes |
| Chat.BareCallInEnvelopeReply | lib/ollama.go:324-337 | an enveloped `print(name(args))` fragment without structured calls writes the original text when lua-tools/name.lua is missing; otherwise the script's output for args, or the text when the script fails; then flushes, and the reply neither fails nor cancels |
| Password.CharFor | lib/ollama.go:139-148 | every random byte becomes a character of the password alphabet |
| Password.GenerateSecureRandomPassword | lib/ollama.go:134-152 | a length below 12 is an error with an empty password, and so is a failed random read; otherwise the password has the requested length and character i is the alphabet entry at byte i modulo 69 |
| AiTools.Get_current_weather | ai-tools.go:36-42 | the output is WeatherReport of the arguments: the fixed prefix and nothing else for no arguments, and always beginning with the prefix |
| AiTools.WeatherReportAppend | ai-tools.go:38-40 | one more argument appends exactly `'value'` after a space to the report |
| AiTools.QuotedAll | ai-tools.go:38-40 | the quoted arguments are each argument's length plus three characters of quoting |
| AiTools.WeatherReport | ai-tools.go:37-41 | the report starts with the fixed prefix and is as long as the prefix plus each argument's length plus three per argument |
| AiTools.WeatherReportPlacesArgument | ai-tools.go:38-40 | argument i appears quoted right after the report of the arguments before it |
| AiTools.WeatherReportOfPrefix | ai-tools.go:37-40 | the report for a list of arguments begins with the report for any prefix of that list |
| AiTools.QuotedAllConcat | ai-tools.go:38-40 | quoting two argument lists one after the other is quoting their concatenation |

## Left out

- RunLuaFile, the Lua interpreter and its stdout redirection are not part of this model. A script run is a parameter that returns output or failure. This leaves out two of its behaviours:
  - on a script error it returns early without restoring `os.Stdout`;
  - its reader goroutine can leak.
- `json.Unmarshal` and `u.JsonDumpByte` are parameters. The model does not check which texts are valid JSON or how argument objects are serialised.
- The rest of HandleOllamaChat is left out, because it is HTTP and network I/O:
  - request decoding;
  - the `client.Chat` call that drives `respFunc`;
  - the deferred `cancel()`.
- The other HTTP handlers, ValidateJWT, the endpoint parsing in `init`, and `main.go` are not part of this core.
- Debug printing to stdout and stderr is left out. It has no effect on what the client receives.
- The script runner is a pure function, so two runs of the same script with the same arguments give the same output. In the code each structured call re-runs the script, and a script may do I/O such as HTTP requests, so two runs can differ.
- Write errors are ignored everywhere except the pass-through write, as in the code. The model's writer either accepts all writes or rejects all of them.
- The `len(matches[0]) != 3` check (lib/ollama.go:219) is not modelled. A match of that pattern always has three entries, so the check can never fire.
- The bare-call pattern's trailing optional `)` is consumed but never captured, so it affects no result and is not modelled.
- Text is a sequence of Unicode characters. Go's handling of invalid UTF-8 bytes in regular expressions is not modelled.
- Password.GenerateSecureRandomPassword: each byte is held in the buffer as the character with the same code, rather than as a byte. This is exact for the ASCII alphabet the result is made of.
- Arguments.FlattenArgument: Go's map iteration order is random; here it is an arbitrary choice (`:|`), so the contract holds for every order but says nothing about which one occurs.
- Arguments.FlattenArgument: a non-string value panics in the code. Here it is excluded by the precondition; the panic itself is not modelled.
- Concurrency is not modelled. Each chat request handles its fragments one after another.
