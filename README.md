# Webhook authentication of the verification relay

This project models, in Dafny, how the relay authenticates a call to
`POST /verification/webhook` (`src/index.ts`). The model covers three parts:

- the freshness check `verifyTimestamp`. The clock becomes an integer
  parameter `now`, in seconds.
- the signature check `verifySignature` over `encodeData(body)`. Node's
  JSON serialiser and HMAC-SHA256 stay opaque. The lower-case hex rendering
  of the digest is modelled exactly, because the case-sensitive string
  comparison depends on it.
- the handler body. It is a method that drives a `Response` object through
  `res.status(..).json(..)` calls. The pure function `WebhookTrace`
  specifies the writes the handler attempts and whether it ends by raising.

Modules: `Wrappers` (`Option`, for `undefined`), `Hex` (bytes, digests,
`digest("hex")`), `Auth` (the three helpers), `Webhook` (the
response object, the handler and its properties).

The model follows the code as written:

- The window constant is `5 * 60 * 1000`, but it is compared with a
  difference in seconds. So a timestamp is fresh when it is at most 300000
  seconds old, a little under three and a half days. Future timestamps
  always pass.
- None of the three checks `return`s. A request can therefore attempt up to
  three writes: `[401, 200]` for a stale but correctly signed request, and
  `[401, 401]` for a request without an `x-signature` header but with a fresh
  timestamp. The code does not stop after the first 401, and the model
  follows the code.
- The first check uses JavaScript truthiness. An empty header or an empty
  `WEBHOOK_SECRET_KEY` counts as missing, just like `undefined`. But an empty
  secret is still a valid HMAC key, so the signature check that follows can
  still attempt a 200.
- When `WEBHOOK_SECRET_KEY` is unset, `createHmac` is given `undefined` and
  raises. The run then ends with outcome `Threw`, after the first 401 and
  possibly a second. The code writes the 401s and then raises, and the
  model follows the code.
- With no header, `verifySignature` receives `undefined`, and
  `computed === undefined` is false.

## Model

| member | source | states |
|---|---|---|
| `Hex.Encode` | src/index.ts:43-45 | `digest("hex")` gives two characters per byte, every one of them a lower-case hex digit |
| `Hex.EncodeAt` | src/index.ts:45 | byte k is rendered at positions 2k and 2k+1, high nibble first |
| `Hex.EncodeInjective` | src/index.ts:43-47 | different digests have different hex strings, so comparing the strings compares the digests |
| `Auth.ComputedSignature` | src/index.ts:43-45 | the computed signature is 64 lower-case hex characters |
| `Auth.VerifySignature` | src/index.ts:38-48 | an accepted signature is present, has 64 characters and is all lower-case hex |
| `Auth.SignatureRoundTrip` | src/index.ts:43-47 | the HMAC of the same bytes under the same secret is accepted |
| `Auth.SignatureComparisonIsExact` | src/index.ts:47 | accepted if and only if the received string has the digest's length and agrees with it in every character |
| `Auth.SignatureMismatchRejected` | src/index.ts:47 | one differing character, letter case included, means rejection |
| `Auth.NonLowerHexSignatureRejected` | src/index.ts:43-47 | a signature containing any character outside `0-9a-f`, such as an upper-case `A`-`F`, is rejected |
| `Auth.WrongLengthRejected` | src/index.ts:43-47 | a signature that is not 64 characters long, the empty one included, is rejected |
| `Auth.SignatureComparesDigests` | src/index.ts:43-47 | a hex-rendered digest is accepted if and only if it equals the HMAC-SHA256 of the data under the secret |
| `Auth.MissingSignatureRejected` | src/index.ts:47 | an `undefined` signature is never accepted |
| `Auth.VerifyTimestamp` | src/index.ts:51-56 | fresh if and only if the timestamp is at least `now - 300000`, the window `5*60*1000` measured against seconds |
| `Auth.FreshnessBoundary` | src/index.ts:53-55 | `now - 300000` passes, `now - 300001` fails |
| `Auth.FutureTimestampAccepted` | src/index.ts:55 | every timestamp at or after `now` passes |
| `Auth.FreshnessMonotone` | src/index.ts:55 | if a timestamp passes, every later one passes |
| `Auth.WindowIsNotFiveMinutes` | src/index.ts:50-55 | timestamps 301 seconds old and three days old both pass |
| `Webhook.Response.constructor` | src/index.ts:59 | a response starts with status 200 and no writes |
| `Webhook.Response.Status` | src/index.ts:65 | `res.status(code)` sets the status and changes no writes |
| `Webhook.Response.Json` | src/index.ts:65-67 | `res.json` appends one write that carries the current status |
| `Webhook.FalsyStrings` | src/index.ts:64 | `!signature` and `!secret` hold for `undefined` and for the empty string, and for no other string |
| `Webhook.WebhookTrace` | src/index.ts:59-88 | between one and three writes; each is `401 Unauthorized` or `200 Webhook event processed successfully`; a 200 is among them if and only if the secret is set and the signature comparison succeeds; the run raises if and only if the secret is unset |
| `Webhook.HandleWebhook` | src/index.ts:59-88 | the handler appends exactly the writes of `WebhookTrace` to the response, leaves the last write's status in force, and returns the trace's outcome |
| `Webhook.FinalCheckAlwaysRuns` | src/index.ts:78-87 | with the secret set, the run returns normally and its last write is the signature verdict, whatever was written before it |
| `Webhook.SingleWriteIff` | src/index.ts:64-87 | with the secret set, exactly one write is attempted if and only if the header and the secret are non-empty and the timestamp is fresh |
| `Webhook.AcceptedRequest` | src/index.ts:64-82 | when every check passes, the run is exactly one write, the 200 |
| `Webhook.AcceptedIff` | src/index.ts:64-87 | the writes are exactly `[200]` if and only if every check passes |
| `Webhook.SignedRequestAccepted` | src/index.ts:59-88 | a correctly signed, fresh request handled twice, on two fresh responses, gives `[200]` both times |
| `Webhook.StaleWithValidSignature` | src/index.ts:72-82 | a stale timestamp with a valid signature gives `[401, 200]` |
| `Webhook.StaleWithWrongSignature` | src/index.ts:72-87 | a stale timestamp with a present but wrong signature gives `[401, 401]` |
| `Webhook.MissingSignatureHeader` | src/index.ts:61-87 | no header gives `[401, 401]` when fresh and `[401, 401, 401]` when stale |
| `Webhook.EmptySignatureHeader` | src/index.ts:64-87 | an empty header attempts the same writes as a missing one |
| `Webhook.MissingSecret` | src/index.ts:62-80 | with the secret unset, the first write is a 401, there is no 200, and the run raises |
| `Webhook.EmptySecretStillSigns` | src/index.ts:62-82 | with an empty secret, a fresh request signed under the empty key gives `[401, 200]` |

`Auth.EncodeData` (src/index.ts:32-35) is the opaque serialiser applied to
the body. It has no contract of its own: the only property it has is that it
is deterministic, and a Dafny function is deterministic by construction.

## Left out

- Express setup, CORS, dotenv, the two `GET /` routes and `app.listen`
  (src/index.ts:1-29, 115-119): framework and I/O plumbing.
- `POST /proxy/session` (src/index.ts:90-113): one `fetch` pass-through with
  logging. It has no logic of its own.
- The internals of `JSON.stringify`, `Buffer.from` and HMAC-SHA256. These are
  library code. They are the opaque, total fields of `Auth.Externals`. Because
  of that, the model cannot state that a different secret is rejected, since
  that is a property of HMAC itself.
- `Date.now()` and `Math.round`. The clock is the integer parameter `now`
  (seconds). Floating-point arithmetic is not modelled.
- `created_at` that is absent or not an integer (NaN comparisons in
  JavaScript). `Body.createdAt` is an `int`.
- Express raising "headers already sent" when a second `res.json` is
  attempted, and what the client then sees. The model records the writes the
  handler's code attempts, and it treats each write as returning normally.
  Under real Express, the second attempted write would itself raise and end
  the run.
- What happens after `createHmac` raises (an unhandled rejection of the async
  handler). The model stops the run with outcome `Threw`.
- A repeated `x-signature` header needs no separate case. Node joins the
  repeated values into one string separated by `", "`, so the header stays a
  string or `undefined`. The joined value can never equal a 64-digit digest
  (`Auth.NonLowerHexSignatureRejected`).
- Constant-time comparison, timing and concurrency between requests.
