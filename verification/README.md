# Discord interactions webhook handler, modelled in Dafny

This project models the serverless request handler of a Discord slash-command
bot (`api/interactions.js`) as a pure decision function from a request to an
outcome. The handler has two parts.

- **Authentication gate.** It checks, in a fixed order:
  - a configured public key, else 500 `missing DISCORD_PUBLIC_KEY`;
  - both the `X-Signature-Ed25519` and `X-Signature-Timestamp` headers, else 401 `missing signature headers`;
  - an Ed25519 detached signature over the timestamp followed by the raw body, else 401 `bad signature`.

  Both hex values have one leading `0x` stripped before decoding.
- **Interaction dispatcher.** It handles a verified, parsed body:
  - PING (type 1) is answered with PONG (type 1).
  - The commands `ping`, `say` and `help` (type 2) are answered with a channel message (type 4).
  - Everything else is 400 `unhandled`.
  - Any exception becomes 500 `internal error`.

Modules:

- `Wrappers` (wrappers.dfy): `Option`, and `Completion`, which is a value or a JavaScript throw.
- `Interaction` (interaction.dfy): the parsed body, the request, the reply and the outcome, plus JavaScript truthiness of optional strings.
- `Hex` (hex.dfy): the `0x` prefix strip of `fromHex`.
- `Dispatch` (dispatch.dfy): the type/command state machine, the `Array.prototype.find` lookup of the `text` option, and the `say` fallback.
- `Handler` (handler.dfy): the gate and `Handle`.

Each foreign operation is a field of the `Library` datatype, a total function that the handler takes as a parameter:

- UTF-8 encoding;
- hex decoding;
- the Ed25519 check;
- JSON parsing.

Each property is proved for every choice of these functions.

The model follows the code as written, including three behaviours a reader might not expect.

- **A badly sized signature or key gives 500, not 401.** The Ed25519 library throws before checking anything when the decoded signature is not 64 bytes or the decoded key is not 32 bytes. Malformed hex can cause this, because hex decoding silently truncates. The handler's `catch` (lines 52-53) turns the throw into 500 `internal error`. So malformed hex is not answered as a failed verification.
- **The two 401 cases can be told apart.** A missing header gives `missing signature headers` (line 14), and a failed verification gives `bad signature` (line 26).
- **A malformed `say` can crash.** The options lookup at line 42 throws when `data.options` is present but is not an array. It also throws when the lookup reaches a `null` element before any option named `text`. Either way the reply is 500 `internal error`, not the placeholder.

## Model

| member | source | states |
|---|---|---|
| Hex.StripPrefix | api/interactions.js:5 | removes exactly one leading `0x` when present (the prefix plus the result give back the input) and otherwise returns the input unchanged |
| Hex.StripAfterPrepend | api/interactions.js:5 | stripping undoes prepending `0x` for every string |
| Hex.StripIgnoresOnePrefix | api/interactions.js:5 | for a string `h` without the prefix, `strip("0x" + h) == strip(h) == h` |
| Hex.StripRemovesOnlyOne | api/interactions.js:5 | for any `h` starting with `0x`, one strip of `"0x" + h` still starts with `0x` and a second strip gives `h` without its prefix, so stripping is not idempotent |
| Handler.SignedText | api/interactions.js:22 | the signed text is the timestamp, then the body: its first part is the timestamp and the rest is the body |
| Handler.Handle | api/interactions.js:7-55 | a missing or empty key gives 500 whatever the request; otherwise a missing or empty header gives 401; every 200 or 400 implies the request is authentic, its body parsed, and the outcome is the dispatch of that body; the status is always 200, 400, 401 or 500 |
| Handler.AuthenticDispatched | api/interactions.js:21-53 | an authentic request is dispatched on its parsed body, or answered with 500 `internal error` when the body does not parse |
| Handler.WrongSizeIsInternalError | api/interactions.js:21-53 | with the key and both headers present, a decoded signature that is not 64 bytes or a decoded key that is not 32 bytes gives 500 `internal error`, the library's throw caught by the handler |
| Handler.RejectsBadSignature | api/interactions.js:21-26 | a signature and key of accepted size that fail to verify over timestamp-then-body give 401 `bad signature` |
| Handler.DispatchedIffAuthentic | api/interactions.js:13-53 | a 200 or 400 occurs if and only if the request is authentic, the body parses, and dispatch does not throw |
| Handler.UnauthorizedIff | api/interactions.js:13-26 | a 401 occurs if and only if the key is configured and either a header is missing or a well-sized signature fails to verify |
| Handler.KeyCheckedFirst | api/interactions.js:11-13 | without a key, every request under every library gives the same 500 `missing DISCORD_PUBLIC_KEY` |
| Handler.HeadersCheckedBeforeVerify | api/interactions.js:13-14 | with a key but a missing header, the outcome is 401 `missing signature headers` under every library, so the verifier is never consulted |
| Handler.NoParseBeforeVerify | api/interactions.js:21-28 | when the request is not authentic, the outcome is 401 or 500 and does not depend on the parser |
| Handler.SignedOverConcatenation | api/interactions.js:22 | for two requests with the same signature whose timestamps are both empty or both non-empty, the verdict depends on timestamp and body only through their concatenation |
| Handler.HexPrefixIrrelevant | api/interactions.js:5-25 | prefixing with `0x` a non-empty key or signature header that does not already start with `0x` does not change the outcome |
| Handler.AuthenticHelp | api/interactions.js:21-48 | an authentic `help` command gives 200 with content naming `/ping`, `/say` and `/help` |
| Dispatch.FindFirst | api/interactions.js:42 | the `find` over the options reports the first element named `text`; or the first null element before any match, where the scan throws; or that every element is a non-matching object |
| Dispatch.FirstHitFound | api/interactions.js:42 | conversely, the first matching element is the one `find` reports |
| Dispatch.FirstNullRaised | api/interactions.js:42 | conversely, a null element before any match is where `find` throws |
| Dispatch.SayContent | api/interactions.js:41-43 | the `say` content is never empty; it throws only when the lookup throws; when it is not the placeholder, it is the value of the first `text` option |
| Dispatch.SayContentSpec | api/interactions.js:41-43 | in every case: a non-empty value of the first `text` option is echoed; a throwing lookup throws; otherwise the content is `Nothing to say 🤐` |
| Dispatch.Dispatch | api/interactions.js:28-51 | type 1 gives 200 `{type: 1}` with no data, even when `data.name` is present; 400 `unhandled` occurs exactly for an unrecognised type or command name; 500 occurs only for a `say` whose option lookup throws; other 200s are type-4 replies with non-empty content |
| Dispatch.CommandReplies | api/interactions.js:37-48 | `ping` gives content `🏓 Pong!`, `help` gives the usage text, and a non-throwing `say` gives the `say` content |
| Dispatch.SayThrowIsInternalError | api/interactions.js:41-53 | a `say` whose options are not an array, or reach a null element before any `text` option, gives 500 `internal error` |
| Dispatch.SayHello | api/interactions.js:41-43 | `say` with option `text` = `hello` replies `hello` |
| Dispatch.HelpListsEveryCommand | api/interactions.js:47 | the help text contains `/ping`, `/say`, `/help` and `/say <text>` |

## Left out

- The Ed25519 mathematics of tweetnacl. Verification is the `verify` field of `Library`, and no cryptographic property such as unforgeability is proved. Only the library's size checks (64-byte signature, 32-byte key) are modelled.
- Hex digit decoding by `Buffer.from(_, 'hex')`, including its silent truncation of malformed input. It is the `decodeHex` field; only the `0x` strip is modelled.
- UTF-8 encoding by `TextEncoder`. It is the `utf8` field.
- Reading the body stream (`for await`, `Buffer.concat`) and its UTF-8 decoding. The body is given as already-decoded text.
- `JSON.parse` and property reads on arbitrary JSON values. The `parse` field returns `None` when parsing throws or the body is `null`, and otherwise returns a small `Interaction` value. A `type` that is not an integral number is `None`. Option names and values that are not strings are `None`.
- Dispatch.SayContent: the model has only string values. The source echoes some values that the model answers with the placeholder `Nothing to say 🤐`:
  - a truthy option value that is not a string, such as a number, which the source echoes as-is;
  - an option value containing an unpaired surrogate, such as `"\ud800"`. JavaScript strings are sequences of UTF-16 code units, and `JSON.parse` keeps a lone surrogate. A Dafny `string` holds only Unicode scalar values, so it cannot represent such a value.
- The HTTP response object and `process.env`. The key and the headers are `Option<string>` inputs, and the result is an `Outcome` value.
- Header values sent as arrays (duplicate headers) are not modelled.
