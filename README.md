# whatsapp-mkauth gateway, modelled in Dafny

`server.js` is a small HTTP gateway that lets a billing system (MK-AUTH) send WhatsApp
messages through one logged-in WhatsApp Web session. This project models its decision
logic and proves properties of it:

- **Phone normaliser** (`phone.dfy`): keeps the digits of a recipient. It applies the two
  Brazilian "extra 9" rules, one for 11 digits and one for 13 digits starting with 55. Then
  it appends `@c.us`.
- **Alias lookup** (`fields.dfy`): `getField` takes the first own, non-null property
  from an ordered list of alias names. The `a || b || ...` chains take the first non-empty
  value.
- **Credential gate** (`auth.dfy`):
  - `readBasicAuth` splits the decoded Basic credentials at `:`;
  - `checkMkAuth` takes the first non-empty account and password from Basic auth, the
    headers, the body and the query, and compares them with the configured pair;
  - the configured pair comes from environment variables with alias fallbacks.
- **Session status** (`session.dfy`): `clientStatus` and `lastQrText` as a state machine
  driven by the WhatsApp client's lifecycle events, and the `/status` reply.
- **Message-status table** (`tracker.dfy`): `messageStatusMap`. The send handlers write
  it with a plain set. The `message_ack` callback upserts it.
- **Media source** (`media.dfy`): how `/send-image` and `/send-document` choose between
  an uploaded file and a URL, and which mimetype and filename they send.
- **Gateway** (`gateway.dfy`):
  - a `Gateway` class holds `status`, `lastQr` and `table`, the gateway's mutable state;
  - methods for the session callbacks;
  - methods for `/send-message`, `/send-image`, `/send-document` and `/message-status`, in
    the source's order of checks;
  - a pure `CheckNumber` for `/check-number`, which reads no state.

The session client and the URL fetch are collaborators outside the model. A handler
receives their answers as parameters. A `Call<T>` is either `Returned(v)` or `Threw`,
and a throw leads to the handler's 500 answer. Each handler also returns the list of
calls it made to them, so "no message is sent" can be stated. Base64 decoding of the
Authorization header is the parameter `decode`. Time stamps are the parameter `now`.

Request bodies are maps from names to `Value` (`Null` or `Str`). A request's `Payload`
is either a parsed JSON or urlencoded body, or a multipart upload. On /send-image and
/send-document, `checkMkAuth` runs before `upload.any()` (server.js:238, 282), so for a
multipart request the gate sees an empty body. `/send-message` has no multer at all, so
it never sees multipart fields. `BodyBeforeMulter` and `BodyAfterMulter` model this.
`/check-number`, `/status` and `/message-status` are not behind the gate.

Where the code and a natural reading of the gateway's intent part ways, the model
follows the code:

- An ack overwrites the stored `to` with the event's chat id, so the raw number stored by
  the send is lost (`Tracker.SendThenAck`).
- There is no `updatedAt` field.
- The restart scheduled after a disconnect never puts the status back to `initializing`
  (`Session.InitializingUntilFirstChange`).
- The Basic password stops at the second `:`. Section 2 of RFC 7617 makes it the whole
  text after the first `:` (`Auth.BasicPasswordStopsAtSecondColon`,
  `Auth.ColonPasswordRejectedWithBasic`).
- `/check-number` has no credential gate and no readiness check.

## Model

| member | source | states |
|---|---|---|
| Fields.GetField | server.js:169-176 | the fallback when no alias is an own key with a non-null value; otherwise the value under the first such alias in list order, an empty string included |
| Fields.GetFieldSource | server.js:169-176 | the result is one of the aliases' values or the fallback; with a defined fallback the result is never undefined |
| Fields.GetFieldReread | server.js:258-262 | reading the same aliases again, with the first read's result as the fallback, gives that result again |
| Fields.FirstTruthyFirst | server.js:154-155 | a chain of JavaScript or-operators ending in `''` is "" exactly when every candidate is missing or empty; otherwise it is the first non-empty candidate |
| Fields.FirstTruthy | server.js:154-155 | a non-empty result of an or-chain is one of its candidates (the position is fixed by `Fields.FirstTruthyFirst`); also used for server.js:338 |
| Fields.GetFieldExample | server.js:169-176 | `{numero: "123"}` looked up under `["to", "numero"]` gives "123" |
| Fields.GetFieldEmptyStringStops | server.js:169-176 | an empty string under an earlier alias is returned, although a later alias has a value |
| Phone.Digits | server.js:115 | the result holds only ASCII digits and is no longer than the input; it is the input itself for a digit string and "" for a string without digits |
| Phone.DigitsAppend | server.js:115 | removing non-digits distributes over concatenation; with the contract of `Phone.Digits` this fixes the result as the input's digits in order |
| Phone.DropExtraNine | server.js:119-129 | digit strings stay digit strings; 11 digits become 12 digits starting "55" exactly when the third is '9', else 13; any other length is kept, or 13 digits shrink to 12 (case by case in `Phone.ExtraNineRules`) |
| Phone.NormalizePhone | server.js:113-114 | the result is null exactly for the empty input |
| Phone.ExtraNineRules | server.js:119-129 | 11 digits with a third '9' lose it and get "55" in front; 11 digits with another third digit only get "55" in front; 13 digits starting "55" with a fifth '9' lose it; every other digit string is unchanged; the result is a digit string |
| Phone.ExtraNineIdempotent | server.js:119-129 | applying the two rules to their own output changes nothing |
| Phone.DigitsLackSuffix | server.js:130 | a digit string never ends with "@c.us", so the suffix is always appended |
| Phone.NormalizeShape | server.js:113-131 | a non-empty input gives the rewritten digits of the input followed by exactly one "@c.us" |
| Phone.NormalizeIdempotent | server.js:113-132 | normalising an already normalised chat id returns it unchanged |
| Phone.MobileWithAndWithoutCountryCode | server.js:117-129 | area code + '9' + eight digits, with or without the "55" country code, normalise to the same id "55" + area code + eight digits + "@c.us" (e.g. "11987654321" and "5511987654321" both become "551187654321@c.us") |
| Auth.SplitOn | server.js:144 | `split(':')` yields at least one piece and no piece contains the separator |
| Auth.JoinSplit | server.js:144 | joining the pieces of a split with the separator gives back the string |
| Auth.SplitJoin | server.js:144 | splitting a join of separator-free pieces gives back the pieces |
| Auth.SplitNoSeparator | server.js:144 | a string without the separator splits into itself |
| Auth.SplitAtFirstSeparator | server.js:144 | the first piece of a split ends at the first separator |
| Auth.ReadBasicAuth | server.js:139-149 | the account is read exactly when the header starts with "Basic "; a password only with an account; neither contains ':' (fully characterised by `Auth.BasicAuthFields`) |
| Auth.BasicAuthFields | server.js:139-149 | with no header, or one not starting with "Basic ", both values are null. Otherwise the account is the decoded text up to the first ':' (all of it when there is none). The password is present exactly when there is a ':', and runs from the first ':' to the second ':' or the end |
| Auth.BasicPasswordStopsAtSecondColon | server.js:143-145 | for decoded "user:pass", the account is "user", and the password is "pass" exactly when "pass" has no ':' (section 2 of RFC 7617 would keep all of "pass") |
| Auth.ConfiguredFallback | server.js:16-17 | each configured credential is the first non-empty of its three environment variables, in the listed order, and "" when none is set |
| Auth.EnvValuesFrom | server.js:16-17 | the first non-empty of the listed variables is "" exactly when none of them is set to a non-empty string, and otherwise is the value of one of the listed variables |
| Auth.ConfiguredCredentials | server.js:16-17 | the configured account (password) is "" exactly when none of its three variables is non-empty, and otherwise is the value of one of its three variables (which one wins: `Auth.ConfiguredFallback`) |
| Auth.PresentedCredentials | server.js:151-155 | a non-empty presented account (password) is one of the nine account (password) sources the request carries: Basic, headers, body, query |
| Auth.CheckMkAuth | server.js:151-167 | with nothing configured every request passes; otherwise a passing request carries each non-empty configured value among its sources (the exact winners in `Auth.BasicAuthAccepted`, `Auth.MultipartFormCredentialsIgnored`) |
| Auth.BasicAuthAccepted | server.js:151-164 | with a configured pair whose account and password are both non-empty and free of ':', a Basic header carrying "account:password" passes the gate whatever else the request carries |
| Auth.ColonPasswordRejectedWithBasic | server.js:144-166 | a configured password containing ':' is never matched while the Basic header yields a non-empty password |
| Auth.MultipartFormCredentialsIgnored | server.js:151-166 | with credentials configured, a multipart request carrying them only as form fields is refused, because the gate runs before multer (server.js:238, 282) |
| Session.Step | server.js:47-84 | events other than qr, ready, auth_failure and disconnected leave the state unchanged; no event leads to 'initializing' unless the state already is it and stays as it was |
| Session.Run | server.js:47-84 | a run of events none of which assigns the status (authenticated, loading_screen, change_state) leaves the state unchanged |
| Session.RunIsLastWriter | server.js:47-84 | after any run of events, the status is the one the last status-changing event set, and the QR text is that of the last qr event (it is never cleared) |
| Session.InitializingUntilFirstChange | server.js:25-84 | the status is 'initializing' after a run exactly when it started so and no qr, ready, auth_failure or disconnected event occurred: the restart after a disconnect does not return to it |
| Session.RunKeepsValid | server.js:47-52 | whenever the status is 'qr' a QR text is stored, across any run of events |
| Session.StatusReport | server.js:194-196 | the /status reply carries the status's text, and the QR text exactly while the status is 'qr' |
| Session.StatusNamesDistinct | server.js:25 | the four status texts are distinct, so the reply's `status` names the state |
| Tracker.MergeAck | server.js:93-95 | the merged entry takes the event's ack and `to` unconditionally, its type unless empty (else the previous type), and keeps the previous createdAt, or uses `now` for a new entry |
| Tracker.RecordAck | server.js:93-96 | without an id the table is unchanged; otherwise that id is present afterwards with the event's ack level, keeps its createdAt or gets `now`, and every other entry is unchanged |
| Tracker.RecordSent | server.js:228 | with a missing or empty id the table is unchanged; otherwise the id maps to the new entry, replacing any earlier one, and every other entry is unchanged (also server.js:272, 313) |
| Tracker.ApplyFrame | server.js:93-96 | one table write (an ack here, or a send's write at server.js:228) adds at most the id it touches and changes no other entry; a write without an id changes nothing |
| Tracker.EntriesPersist | server.js:87-98 | across the ack callback and the send handlers' writes (server.js:228, 272, 313), no sequence of writes removes an entry, and an entry no write touches stays as it is |
| Tracker.AcksKeepCreatedAt | server.js:94-95 | acks alone never change an entry's createdAt |
| Tracker.SendOverwritesEarlyAck | server.js:228 | a send replaces an entry an earlier ack created under the same id |
| Tracker.SendThenAck | server.js:87-98 | after a send and an ack for its id, the entry has the ack's level and `to`, the send's type unless the ack carries one, and the send's createdAt |
| Tracker.AckMayRegress | server.js:95 | a later ack with a lower level replaces a higher one |
| Media.FindFile | server.js:253 | (also server.js:296) no file found exactly when no upload has an expected field name; otherwise the first such upload in upload order |
| Media.SourceOf | server.js:253-258 | the source is the upload exactly when an upload has an expected field name; a URL source is a non-empty value under one of the URL aliases (also server.js:296-301) |
| Media.ResolveMedia | server.js:249-266 | 'file_or_url_required' exactly when there is no source, a fetch failure exactly for a URL source whose fetch throws, and the bytes sent are the upload's or the fetched ones (also server.js:293-306) |
| Media.FileWinsOverUrl | server.js:249-257 | (also server.js:293-300) a matching upload is sent whatever URL the body names: its bytes, its own mimetype and original name unless empty, else the body alias or the kind's default |
| Media.UrlUsesBodyOrDefaults | server.js:258-262 | (also server.js:301-303) without a matching upload, fetched bytes are sent with the body's mimetype and filename or the defaults; the image handler's second read changes nothing |
| Media.DefaultsWithoutBodyFields | server.js:250-251 | (also server.js:294-295) the defaults are image/png with image.png, and application/pdf with document.pdf |
| Media.SourceRequiredIff | server.js:249-265 | (also server.js:293-306) 'file_or_url_required' exactly when no upload matches and the first present URL alias is missing or empty; a fetch failure exactly when the source is a URL and the fetch throws |
| Media.EmptyFirstUrlAliasHidesLater | server.js:258 | `{image: "", url: u}` has no media source: the empty `image` alias stops the lookup |
| Gateway.CheckNumber | server.js:336-346 | 400 'number_required' with no client call when neither `to` nor `number` is non-empty; otherwise one registration check on the normalised chat id, then 500 if it throws, else the raw number and the registration flag |
| Gateway.CheckNumberStatus | server.js:336-346 | /check-number answers 200 exactly when a number is given and the registration check returns; 400 without a number, 500 when the check throws |
| Gateway.CheckNumberPrefersTo | server.js:338 | a non-empty `to` is used before `number`, and an empty `to` falls through to `number` |
| Gateway.Gateway.constructor | server.js:16-27 | the configured credentials come from the environment; the status is 'initializing' with no QR text, and the table is empty |
| Gateway.Gateway.OnSessionEvent | server.js:47-84 | the callbacks change status and QR text exactly as `Session.Step`, and keep the QR text present while the status is 'qr' |
| Gateway.Gateway.OnMessageAck | server.js:87-98 | the ack callback's table write is the upsert `RecordAck`: nothing without an id, otherwise that id is added or merged; the session invariant is kept |
| Gateway.Gateway.StatusNow | server.js:194-196 | GET /status reports the current status's text, and the QR text exactly while the status is 'qr' |
| Gateway.Gateway.MessageStatus | server.js:327-333 | 400 'id_required' exactly when the id is missing or empty, 404 exactly for an id not in the table, otherwise the stored entry under that id, which is the only 200 answer; the table is not changed |
| Gateway.Gateway.SendMessage | server.js:213-234 | 401 when the gate refuses, then 409 carrying the status, then 400 when number or message is missing or empty, all with no client call. Then a registration check on the normalised id: 500 if it throws, 422 naming the raw number if negative. Then the send: 500 if it throws. On success the client's id is answered, and when non-empty it is stored with ack 0, the raw number, type 'chat' and `now`; every failure leaves the table unchanged |
| Gateway.Gateway.SendMediaMessage | server.js:238-319 | the same order for /send-image and /send-document: 401, 409, 400 'number_required', then the registration check (500/422) before any media handling. Then no source gives 400 'file_or_url_required' and a failed fetch gives 500, with no send. On success the chosen media and caption are sent and a non-empty id is stored with ack 0 and type 'image' or 'document' |
| Gateway.DisconnectedRejectsSends | server.js:213-217 | without configured credentials, after qr, ready and disconnected events, a text send is answered 409 with status 'disconnected' and no client call |
| Gateway.SendThenAckScenario | server.js:213-229 | with the ack callback (server.js:87-98) and /message-status (server.js:327-333): a send to "11987654321" that the client accepts is then reported by /message-status with ack 0 and the raw number; after a level-1 ack it reports ack 1 with the send's createdAt |

## Left out

- Express, cors, morgan and multer wiring, and the HTTP listener (server.js:1-22, 348-350). A request is a record of header, query and body maps and uploaded files.
- Errors multer itself raises on a malformed multipart body are not modelled. Multer's in-memory storage always gives an uploaded file a buffer, so the `fileImage.buffer` test is taken as always true.
- The WhatsApp client and Puppeteer (`Client`, `initialize`, `destroy`, `isRegisteredUser`, `sendMessage`) are not modelled. Their answers are parameters and their calls are a returned list.
- `MessageMedia` construction and the base64 encoding of the media bytes are not modelled. `MediaPayload` carries the raw bytes.
- The URL fetch through axios (`bufferFromUrl`) is network I/O. Its bytes, or its failure, are a parameter.
- Base64 and UTF-8 decoding of the Authorization header are not modelled. Decoding is the parameter `decode`. The `try/catch` around it is not modelled either, since the decoder does not throw on any input.
- Logging is not modelled: `appendJsonLog`, the `/mk-capture` endpoint, console output and QR terminal rendering. All are file or console I/O, and their failures are swallowed.
- The `try/catch` around the ack callback is not modelled, because the modelled write cannot throw.
- Timers and signals are not modelled: the 5-second restart after a disconnect, the 60-second watchdog, and the SIGINT/SIGTERM handlers. The restart sets no status, which `Session.InitializingUntilFirstChange` states.
- The health route `GET /` is not modelled. It only reports the status, which `Gateway.Gateway.StatusNow` already exposes.
- Concurrency between ack callbacks and handlers that are in flight is not modelled. Each callback and handler is one atomic method call on the `Gateway` object.
- Body and query values other than strings and null are not modelled, nor the `.toString()` and `String()` coercions applied to them. This covers numbers, booleans, objects, and arrays from repeated query keys.
- Phone.NormalizePhone: a null or undefined number is not a modelled input. Every call site first rejects a missing or empty number.
- The no-op `chatId.replace('@c.us','@c.us')` is not modelled.
