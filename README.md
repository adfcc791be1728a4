# Request resolution, upload ingestion and file streaming

A Dafny model of the logic in `src/utils.mjs` of the middleware package.
The HTTP middlewares rely on this file for three things:

- **Trust and host/protocol resolution.** `isIpTrusted` decides whether a
  peer is a trusted relay, and the untrusted list always overrides the
  trusted one. `getProtocol` takes the scheme from the peer's transport or,
  behind a trusted relay, from the first `X-Forwarded-Proto` value.
  `getHostname` does four things in order:
  - picks the `Host` header, or, behind a trusted relay, the first
    `X-Forwarded-Host` value;
  - normalises it, either by extracting a bracketed IPv6 literal or by
    trimming, dropping a `:port` and lower-casing;
  - checks it against the host syntax;
  - checks it against an optional allow-list.

  Failures are the error records built by `getHttpError` and
  `throwSuspiciousOperationError`.
- **Multipart ingestion.** `getFilesFromMessage` is an event-driven
  accumulator. It keeps the last value of every form field. It lists each
  file part's field as soon as the part starts, and appends the part's
  record (temporary path, file name, MIME type) when the part closes. Once
  the listeners are attached, it resolves or rejects once, on the parser's
  `close` or `error`.
- **File streaming.** In `streamFile`, several signals race to settle a
  single promise: the sender's `error`, `directory` and `end`, and the
  response's finish. The finish listener defers a check to the next turn of
  the event loop, which resolves only if the sender's last `stream`/`file`
  signal was `file`.

Modules:

| file | module | models |
|---|---|---|
| wrappers.dfy | `Wrappers` | optional values (`??`) |
| errors.dfy | `HttpErrors` | error records, and the results and promise states that carry them |
| text.dfy | `Text` | `trim()`, `split(',').shift()`, `replace(/:\d+$/, '')`, `toLowerCase()` |
| headers.dfy | `RequestHeaders` | the two-spelling header lookups |
| trust.dfy | `Trust` | `isIpTrusted` |
| protocol.dfy | `Protocol` | `getProtocol` |
| host.dfy | `Host` | `getHostname`: candidate selection, normalisation, the host-syntax regular expression, the allow-list loop, the test inputs |
| upload.dfy | `Upload` | `getFilesFromMessage`: event-step function, invariant, the `Ingestion` class |
| stream.dfy | `Streaming` | `streamFile`: event-step function, invariant, the `Response` and `FileStreamer` classes |

The pure resolvers are functions. `getHostname` is a method, because the
source reassigns `hostname` step by step and its allow-list check is a loop
that updates a flag (`Host.IsTrustedHost`); its `ensures` states the full
case split.

The two event-driven parts are each built in two layers:

- a `Step` function from a state and one event to the next state, and `Run`
  over a trace, about which the lemmas are proved;
- a class whose fields are the variables the listeners mutate. It has one
  method per listener, and each method's `ensures` ties the new `State()` to
  `Step` of the old one and keeps the invariant.

Collaborators become parameters:

- `ip-range-check` becomes `inRange: (string, string) -> bool`;
- a RegExp allow-list entry becomes its `test` function;
- the multipart parser, the file sender and the response become the event
  traces they emit;
- `randomUUID()` becomes the `uuid` of each file-start event;
- `tmpdir()` and `options.prefix` become `Upload.Config`.

## Model

| member | source | states |
|---|---|---|
| HttpErrors.GetHttpError | src/utils.mjs:253-255 | every field of the record is the corresponding argument (status, public body, internal message, code, cause) |
| HttpErrors.SuspiciousOperation | src/utils.mjs:235-241 | a 400 with no code and no cause; body is `<message> <host>`; message is `SuspiciousOperation: <body> with ip(<ip>)` |
| HttpErrors.FromNative | src/utils.mjs:169 | a collaborator's failure becomes the given status and public body, with the failure's own message, code `HTTP_FILE-<code>` (`HTTP_FILE-undefined` when the code is missing) and the failure as cause; used for the parser's error (500, `Cannot upload files.`) and for the sender's and response's errors (500, `An unexpected error has occurred.`, lines 211 and 217) |
| RequestHeaders.Lookup | src/utils.mjs:89 | `headers[a] ?? headers[b]`: present iff either spelling is present; the first spelling wins; no case folding |
| Trust.InAnyRange | src/utils.mjs:66 | the list form of the range check holds iff some spec in the list contains the address |
| Trust.IsIpTrusted | src/utils.mjs:64-72 | deny overrides allow: an untrusted wildcard or match gives false whatever `trusted` is; otherwise true iff `trusted` has a wildcard or a match (on the string form, a wildcard is a `*` anywhere in it) |
| Trust.EmptyConfigTrustsNobody | src/utils.mjs:64-72 | with empty trusted and untrusted lists no address is trusted |
| Text.Trim | src/utils.mjs:89 | the result is a slice of the input with only white space around it and none at its own ends |
| Text.TrimAddsNothing | src/utils.mjs:89 | trimming introduces no character absent from the input |
| Text.TrimPadded | src/utils.mjs:123 | trimming `w1 + p + w2` gives exactly `p` when `w1` and `w2` are white space and `p` is trimmed |
| Text.FirstValue | src/utils.mjs:111 | `split(',').shift()` is the longest comma-free prefix, ending at the end of the string or at a comma |
| Text.FirstValueOf | src/utils.mjs:89 | the first value of `p + rest` is `p` when `p` has no comma and `rest` is empty or starts with a comma |
| Text.StripPort | src/utils.mjs:123 | the result is a prefix of the input; it differs from the input iff the input ends in `:` and one or more digits, and then exactly that suffix is removed |
| Text.StripPortOf | src/utils.mjs:123 | `name:<digits>` loses its port whatever `name` is |
| Text.ToLower | src/utils.mjs:123 | length kept, each ASCII capital mapped to its lower-case letter, every other character kept, no capital left |
| Protocol.GetProtocol | src/utils.mjs:85-93 | the result is never empty, holds no comma and is trimmed; for an untrusted peer it is `https` iff the transport is encrypted, else `http` |
| Protocol.TrustedProtoIsFirstValue | src/utils.mjs:88-89 | for a trusted peer the result is the first forwarded-proto value with its surrounding white space removed, and later values are ignored |
| Protocol.TrustedProtoDefaultsToHttp | src/utils.mjs:89-92 | for a trusted peer a missing header, or a blank first value, gives `http` |
| Host.SelectHost | src/utils.mjs:108-112 | untrusted peer: the `host`/`Host` header as it is, possibly missing; trusted peer: always a value, the first forwarded-host value (the prefix that runs up to the first comma or the end), empty when the header is missing |
| Host.TrustedHostIsFirstValue | src/utils.mjs:110-111 | for a trusted peer whose forwarded-host header is `p` then nothing or a comma and more, the candidate is exactly `p` |
| Host.Normalize | src/utils.mjs:116-124 | with a bracketed literal the result is `[`, hex digits and colons, `]`, a prefix of the input from that literal on; without one the result is no longer than the input and has no ASCII capital |
| Host.FindLiteral | src/utils.mjs:117 | the leftmost `[hex-or-colon+]` occurrence, and none when no such occurrence exists |
| Host.BracketLiteralKept | src/utils.mjs:117-120 | a value holding `[lit]` with no `[` before it normalises to exactly `[lit]`, whatever surrounds it |
| Host.NormalizePlain | src/utils.mjs:121-124 | a value with no `[`, no white space at either end, no trailing digit and no capital is already normal |
| Host.PlainPortStripped | src/utils.mjs:123 | a capital-free name without `[` that does not start with white space, followed by `:` and a run of digits, normalises to the name |
| Host.PortStripped | src/utils.mjs:121-124 | without a bracket, `name:port` normalises to the lower-cased `name` (`www.example.com:8080` gives `www.example.com`) |
| Host.ValidHostSyntax | src/utils.mjs:127 | a host that passes is non-empty, not all digits, does not start with `-` or `.`, and is made only of class characters and dots apart from a leading `[` |
| Host.LiteralSyntax | src/utils.mjs:127 | a bracketed run of hex digits and colons that is not all digits passes the host-syntax test |
| Host.LowerDottedSyntax | src/utils.mjs:127 | a lower-case name that starts with a letter and never has two dots in a row passes the host-syntax test |
| Host.HostSyntaxIsPattern | src/utils.mjs:127 | the character-level check is equivalent to the regular expression: optional `[`, not all digits, no leading `-`, then repeated chunks of 1 to 63 class characters, each optionally followed by a dot |
| Host.LongLabelsAccepted | src/utils.mjs:127 | a lower-case label of any length followed by `.com` is accepted: the `{1,63}` bound does not limit label length |
| Host.IsTrustedHost | src/utils.mjs:131-139 | the loop's flag ends up true iff some entry admits the host (a pattern whose test passes, or an equal literal) |
| Host.GetHostname | src/utils.mjs:107-147 | a missing or empty candidate is returned unchanged with no check; otherwise the normalised host is returned, or it fails with `Invalid Host` on bad syntax, or with `Untrusted Host` when a non-empty allow-list does not admit it, each error naming the normalised host and the peer |
| Host.ForwardedHostScenario | tests/utils.test.js:186-205 | behind the proxy 102.1.5.2/24, peer 102.1.5.253 with `X-Forwarded-Host` or `x-forwarded-host: www.example.com` gives `www.example.com` |
| Host.MissingForwardedHostScenario | tests/utils.test.js:186-205 | behind the same proxy, without a forwarded-host header the host is the empty string |
| Host.HostPortScenario | tests/utils.test.js:207-224 | with no proxy configured and the allow-list `www.example.com` plus a bracket pattern, `host: www.example.com:8080` gives `www.example.com`, for any peer |
| Host.Ipv6HostScenario | tests/utils.test.js:207-224 | under that allow-list, a `Host` holding two bracketed IPv6 literals gives the first one, brackets included |
| Host.SubdomainScenario | tests/utils.test.js:226-243 | under `/^(.+\.)+example.com$/`, `www.example.com:8080` and `admin.dev.example.com:8080` give the names without the port |
| Host.UntrustedHostRejected | tests/utils.test.js:245-260 | under that pattern `www.domain.com` fails with `Untrusted Host`, whose message is `SuspiciousOperation: Untrusted Host www.domain.com with ip(<peer>)` |
| Host.InvalidHostRejected | tests/utils.test.js:262-269 | `-example_.com?lorem` fails the syntax test with `Invalid Host`, whose message names it and the peer |
| Upload.TempPath | src/utils.mjs:176 | the path lies in the temporary directory (`<tmpdir>/` is a prefix) and its file name is `<prefix or file>-<uuid>` |
| Upload.UploadError | src/utils.mjs:169 | the parser's failure becomes a 500 with body `Cannot upload files.`, the failure's message, code `HTTP_FILE-<code>` and the failure as cause |
| Upload.Step | src/utils.mjs:167-183 | parts and closes only grow; a settled outcome never changes; only a `field` event touches the fields, and it sets just that name; `close` and `error` change only the outcome; a file start adds exactly one part; a part's close appends at most that part to the close order |
| Upload.StepKeepsInv | src/utils.mjs:170-180 | every listener keeps the invariant: each part closes at most once; `files` lists exactly the fields that had a file part; each list holds that field's closed parts in close order |
| Upload.RunKeepsInv | src/utils.mjs:167-183 | the invariant holds after any trace of parser events |
| Upload.FieldPresentIffSent | src/utils.mjs:170-172 | a field is in the result iff the parser sent it |
| Upload.FieldsHoldLastValue | src/utils.mjs:170-172 | a field holds the value of the last event with its name |
| Upload.PartsInArrivalOrder | src/utils.mjs:173-176 | the parts registered are the file-start events in arrival order, each with path `<tmpdir>/<prefix or file>-<uuid>`, its file name and its MIME type |
| Upload.FileListIffStarted | src/utils.mjs:174 | `files[field]` exists iff a file part of that field has started, closed or not |
| Upload.ClosedAreValidCloses | src/utils.mjs:173-180 | the recorded close order is exactly the effective closes read off the trace alone (a close of an announced part not closed before), and one part is announced per file start |
| Upload.ValidClosesAreCloseEvents | src/utils.mjs:178-180 | every effective close is a close event of a part announced before it |
| Upload.OutcomeIsFirstTerminal | src/utils.mjs:168-169 | the promise is settled by the first `close` (resolved) or `error` (rejected with the upload error) and stays pending without either |
| Upload.UploadScenario | tests/utils.test.js:274-284 | a PNG part under `picture`, its close, a field and `close` give one record at `/path/file-12345`, that field, and a resolved promise |
| Upload.UploadErrorScenario | tests/utils.test.js:286-295 | a parser `error` with message `error` and no code rejects with body `Cannot upload files.`, that message, code `HTTP_FILE-undefined` and the error as cause |
| Upload.CloseOrderScenario | src/utils.mjs:178-180 | two parts of one field that close in reverse order are listed in reverse order |
| Upload.Ingestion.constructor | src/utils.mjs:164 | empty fields and files, nothing registered, a pending promise |
| Upload.Ingestion.OnField | src/utils.mjs:170-172 | the new state is the step for a `field` event and keeps the invariant |
| Upload.Ingestion.OnFileStart | src/utils.mjs:173-176 | the new state is the step for a `file` event (list created if missing, part registered) and keeps the invariant |
| Upload.Ingestion.OnFileClose | src/utils.mjs:178-180 | the new state is the step for a part's `close` (its record appended) and keeps the invariant |
| Upload.Ingestion.OnClose | src/utils.mjs:168 | the new state is the step for the parser's `close` and keeps the invariant |
| Upload.Ingestion.OnError | src/utils.mjs:169 | the new state is the step for the parser's `error` and keeps the invariant |
| Upload.Ingestion.Handle | src/utils.mjs:167-183 | any event is handled as its listener handles it, and the invariant is kept |
| Streaming.Unexpected | src/utils.mjs:211-217 | a sender or response failure becomes a 500 with body `An unexpected error has occurred.`, the failure's message, code `HTTP_FILE-<code>` and the failure as cause |
| Streaming.NotFound | src/utils.mjs:218 | 404, body `This file cannot be found.`, message `EISDIR, read`, code `HTTP_FILE-EISDIR`, no cause |
| Streaming.Aborted | src/utils.mjs:207 | 400, body and message `Request aborted.`, code `HTTP_FILE-ECONNABORTED`, no cause |
| Streaming.SetHeaders | src/utils.mjs:219 | copying the configured headers keeps every key already present and adds each configured key |
| Streaming.SetHeadersLastWins | src/utils.mjs:219 | copying the configured headers keeps the other keys, and each copied key holds the value of its last entry |
| Streaming.OnFinished | src/utils.mjs:209-214 | a second finish changes nothing; a first one marks the response finished, keeps `streaming` and the headers, and never changes a settled promise; with no error it queues the check; with an error it queues nothing and rejects a pending promise with the abort on `ECONNRESET` and with the 500 otherwise |
| Streaming.Step | src/utils.mjs:207-222 | a settled promise never changes; only the finish listener sets `finished` and queues the check, and `finished` is never cleared; only `headers` touches the header map, by copying the configured entries; only `stream` and `file` touch `streaming`, setting it to true and false; from any pending state `end` resolves, the sender's `error` rejects with the 500 and `directory` with the 404, and a queued check clears itself and resolves if `streaming` is false, otherwise aborts |
| Streaming.SettledTransferIsFinal | src/utils.mjs:204-222 | once the promise is settled, no later signal changes it |
| Streaming.SettlesExactlyOnce | src/utils.mjs:204-222 | along any trace the promise goes from pending to settled at exactly one signal if it ends settled, and at none otherwise |
| Streaming.FirstSettlementWins | src/utils.mjs:209-222 | the outcome chosen by the first settling signal is the final outcome whatever follows |
| Streaming.DirectoryBeatsLaterEnd | src/utils.mjs:218-222 | a `directory` signal is a 404 even when `end` follows |
| Streaming.TickDecides | src/utils.mjs:213 | the deferred check resolves iff `streaming === false`, and otherwise aborts |
| Streaming.StepKeepsInv | src/utils.mjs:209-222 | every signal keeps the invariant: a queued check implies a finished response, and a finished response with no queued check has a settled promise |
| Streaming.RunKeepsInv | src/utils.mjs:209-213 | the invariant holds along any trace |
| Streaming.NoHangAfterFinish | src/utils.mjs:209-213 | once the response has finished and the deferred check has run, the promise is settled |
| Streaming.StreamScenarios | src/utils.mjs:209-222 | `end` resolves; `file`, then finish, then the check resolves; a finish with unset or true `streaming` aborts; `ECONNRESET` aborts |
| Streaming.StreamErrorScenarios | src/utils.mjs:211-217 | a finish error other than `ECONNRESET`, and a sender error, are a 500 with the error's message and code |
| Streaming.HeadersScenario | src/utils.mjs:219-222 | `headers`, `file`, `stream`, `end`: the configured header is on the response and the promise resolves |
| Streaming.Response.constructor | src/utils.mjs:219 | the response starts with the given header map |
| Streaming.Response.SetHeader | src/utils.mjs:219 | the header map gains the key with the value, and the other keys are kept |
| Streaming.FileStreamer.constructor | src/utils.mjs:205 | `streaming` unset, listener not run, nothing queued, a pending promise over the response's headers |
| Streaming.FileStreamer.SettleWith | src/utils.mjs:204 | `resolve`/`reject`: only the first call changes the promise |
| Streaming.FileStreamer.OnSendError | src/utils.mjs:217 | the new state is the step for the sender's `error` and keeps the invariant |
| Streaming.FileStreamer.OnDirectory | src/utils.mjs:218 | the new state is the step for `directory` and keeps the invariant |
| Streaming.FileStreamer.OnHeaders | src/utils.mjs:219 | the response's headers become the old ones with every configured entry set in order; the rest of the state is unchanged |
| Streaming.FileStreamer.OnStream | src/utils.mjs:220 | `streaming` becomes true; the invariant is kept |
| Streaming.FileStreamer.OnFile | src/utils.mjs:221 | `streaming` becomes false; the invariant is kept |
| Streaming.FileStreamer.OnEnd | src/utils.mjs:222 | the new state is the step for `end` and keeps the invariant |
| Streaming.FileStreamer.OnFinished | src/utils.mjs:209-213 | the finish listener runs once: a reset aborts, another error is a 500, no error queues the check |
| Streaming.FileStreamer.OnTick | src/utils.mjs:213 | the queued check runs once and settles on `streaming` |
| Streaming.FileStreamer.Handle | src/utils.mjs:216-222 | any signal is handled as its listener handles it, and the invariant is kept |

## Left out

- `isMultipart`, `getType` and `getCharset` (src/utils.mjs:21-55) are thin wrappers over `type-is` and `content-type`, whose parsing is not part of this model.
- The internals of `ip-range-check`, the RegExp engine, busboy, `send`, `on-finished`, `bytes.parse`, `randomUUID` and `tmpdir` are not modelled. They enter the model as the predicate parameter, the events they emit, or input values.
- The upload limit normalisation (src/utils.mjs:158-161) is not modelled: the limits only configure the parser, whose enforcement of them is outside the model.
- The byte transfer is not modelled: writing the parts to disk (`createWriteStream`, `pipe`), piping or writing and ending the request body into the parser, and piping the file into the response. Only the events that these transfers produce are modelled.
- A synchronous throw inside either promise executor is not modelled. Such a throw rejects the promise with the thrown value itself, not with an error record, and no event is emitted. The `Outcome` type has no case for it. In `getFilesFromMessage` the points are the `Busboy(...)` constructor (src/utils.mjs:165), which throws on a missing boundary or an unsupported content type, and `busboy.write` (src/utils.mjs:188). In `streamFile` they are `send(...)`, `getEncodedFilePath()` and `onFinished(...)` (src/utils.mjs:206-209). Upload.OutcomeIsFirstTerminal ("pending without a `close` or `error`") and Streaming.SettlesExactlyOnce describe the promise only once the executor has attached its listeners.
- The scheduling of `setImmediate` is not modelled. The deferred check is an explicit `Tick` event that may arrive at any point after an error-free finish.
- The promise's resolved value is not carried by the outcome. The upload result is the `fields`/`files` state itself, which the listeners keep updating after settlement, exactly as the source's shared `result` object does.
- Text.ToLower maps only ASCII capitals. Other characters that JavaScript's `toLowerCase` maps (such as the Kelvin sign) are kept unchanged.
- Upload.TempPath joins with `/` and does not normalise the path as `path.join` would.
- Host.IsTrustedHost treats a pattern's `test` as a pure function. The statefulness of a global RegExp's `lastIndex` across calls is not modelled.
- Host.HostOptions has an absent `trusted` list stand for the empty sequence, which `trusted?.length` treats the same way.
- Upload.Step keys fields and files by plain map update, so names that clash with properties inherited by a plain object are not modelled. For a file field named `constructor`, `toString` or `__proto__`, `result.files[fieldname] ??= []` (src/utils.mjs:174) keeps the inherited value, and the part's close listener then throws on `.push` (src/utils.mjs:179), so no record is appended. A form field named `__proto__` is silently dropped by the assignment at src/utils.mjs:171, because its value is a string.
- Streaming.Response.SetHeader is an exact-key map update. Node's case-insensitive header names and its header validation are not modelled.
- Streaming.FileStreamer.OnHeaders takes the configured headers as given; a missing `options.headers` (on which `Object.entries` throws) is not modelled.
- The HTTP and console middlewares under src/adapter are not modelled. They attach these functions' results to framework objects or hand them to libraries whose code is not shown. This includes `IpMiddleware`, whose result is computed by `proxy-addr`.
