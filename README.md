# SMS console for the Jasmin gateway — a Dafny model

This project models the core of a small browser console. The console sends one
SMS text to a list of recipients through the HTTP API of a Jasmin SMS gateway.
It covers three things.

- **Recipient parsing** (`Recipients`). The recipients text is split on every
  run of commas and newlines. Each piece is trimmed of JavaScript white space,
  and empty pieces are dropped.
- **The gateway client** (`JasminClient`). This is `sendSms` and its helpers:
  - resolving the base URL (build-time default, trailing slashes removed);
  - the form fields of the `POST …/send` request;
  - reading the reply. An HTTP failure or a non-zero numeric `status`/`code`
    fails the call, with the first truthy of `reason`, `error`, `description`,
    `message`, the raw body, or a fixed text. A success keeps the raw body, the
    parsed payload and the message id.
- **The console's send workflow** (`SmsConsole`). This is a `Console` class
  that holds the form's state. `HandleSend` checks credentials, then the
  message, then the recipients. It marks every recipient pending, then sends
  to them one at a time:
  - before each call, the rows of that recipient are marked sending;
  - after each call, those rows are settled as sent or failed, with details;
  - at the end, a summary note is written.

  `ResetForm` clears the message side of the form. `CompletedCount` and
  `FailedCount` count the settled rows.

Supporting modules are:

- `JsString`: ECMAScript white space and `trim`.
- `JsonValue`: parsed JSON values, JavaScript truthiness, `||` and `??`.
- `Decimal`: the decimal rendering of numbers in the note and in the `dlr` field.
- `Wrappers`: `Option` and `Result`.

The network is a parameter. The gateway is a function from a request to an
`Exchange`: either an answer (HTTP `ok` flag, body text, and the body parsed as
JSON when it parses) or a rejection with an error message. The console's
gateway also takes the index of the call, so each call of a send may be answered
differently.

Duplicate recipients are kept: `"x, x"` gives two entries with the same `to`
(`ExampleDuplicates`). Every update of the results list marks all rows of a
recipient, so after a send both rows carry the outcome of the last call made
for that recipient (`FinalResults`).

## Model

| member | source | states |
|---|---|---|
| JsString.IsWhitespace | src/App.jsx:10 | defines the white space `trim()` removes (ECMAScript WhiteSpace and LineTerminator); stated by TrimEnds and TrimDropsWhitespaceTail |
| JsString.LeadingWhitespace | src/App.jsx:10 | the count is the maximal run of leading white space |
| JsString.TrailingWhitespace | src/App.jsx:10 | the count is the maximal run of trailing white space |
| JsString.Trim | src/App.jsx:10 | `trim()` is never longer than its input; it is empty exactly when the input is all white space |
| JsString.TrimIsSlice | src/App.jsx:10 | the trimmed text is the contiguous slice after the leading white space |
| JsString.TrimDropsWhitespaceTail | src/App.jsx:10 | what follows the trimmed text is white space only |
| JsString.TrimEnds | src/App.jsx:10 | a non-empty trimmed text neither starts nor ends with white space |
| JsString.TrimIdempotent | src/App.jsx:10 | trimming twice equals trimming once |
| Recipients.IsSeparator | src/App.jsx:9 | defines the character class `[\n,]`; stated by FirstSeparator, EndOfRun and ParseRecipients |
| Recipients.FirstSeparator | src/App.jsx:9 | index of the first comma or newline, with none before it |
| Recipients.EndOfRun | src/App.jsx:9 | end of the maximal run of separators starting at an index |
| Recipients.Split | src/App.jsx:9 | splitting on runs of separators yields at least one piece, and no piece contains a separator |
| Recipients.SplitEach | src/App.jsx:9 | the reference split on each single separator yields at least one piece |
| Recipients.TrimAll | src/App.jsx:10 | `.map(trim)` keeps the length and trims each piece |
| Recipients.KeepNonEmpty | src/App.jsx:11 | `.filter(Boolean)` keeps only non-empty entries taken from the input |
| Recipients.Clean | src/App.jsx:10-11 | `.map(trim).filter(Boolean)`: at most as many entries as pieces, each non-empty and the trim of some piece; CleanAppend and DropRun state the rest |
| Recipients.ParseRecipients | src/App.jsx:7-11 | every entry is non-empty, trimmed at both ends and free of separators |
| Recipients.TrimKeepsNoSeparator | src/App.jsx:9-10 | trimming a separator-free piece leaves it separator-free |
| Recipients.FirstSeparatorAt | src/App.jsx:9 | the first separator is the index where none precedes and one stands |
| Recipients.KeepNonEmptyAppend | src/App.jsx:11 | filtering distributes over concatenation |
| Recipients.TrimAllAppend | src/App.jsx:10 | trimming every piece distributes over concatenation |
| Recipients.CleanAppend | src/App.jsx:10-11 | trim-and-filter distributes over concatenation |
| Recipients.SplitEachAppend | src/App.jsx:9 | splitting at a separator between two texts concatenates their splits |
| Recipients.SplitEachAppendSegment | src/App.jsx:9 | the same, for a separator-free left text |
| Recipients.SplitEachAt | src/App.jsx:9 | one step of the single-separator split at the first separator |
| Recipients.DropRun | src/App.jsx:9-11 | a run of separators contributes no recipient |
| Recipients.CleanSplitStep | src/App.jsx:9-11 | the cleaned run split is the first cleaned piece, then the cleaned rest |
| Recipients.CleanSplitEachStep | src/App.jsx:9-11 | the same decomposition for the single-separator split |
| Recipients.SplitAgreesWithSplitEach | src/App.jsx:9-11 | splitting on runs (`/[\n,]+/`) and on single separators give the same recipients |
| Recipients.ParseRecipientsAppend | src/App.jsx:7-11 | a separator between two texts gives exactly the recipients of each, in order |
| Recipients.ParseRecipientsOfSegment | src/App.jsx:7-11 | a text without separators gives its trimmed self, or nothing when that is empty |
| Recipients.ParseRecipientsEmpty | src/App.jsx:7-11 | there is no recipient exactly when the text is only separators and white space |
| Recipients.BlankAroundSeparator | src/App.jsx:7-11 | a text around a separator is blank exactly when both sides are |
| Recipients.ParseShortName | src/App.jsx:7-11 | a one-character name is one recipient |
| Recipients.ParseSpacedName | src/App.jsx:7-11 | a one-character name after a space is that name, trimmed |
| Recipients.NewlineSeparatedNames | src/App.jsx:7-11 | names on separate lines become separate recipients |
| Recipients.ExampleMixedSeparators | src/App.jsx:7-11 | commas and newlines both separate, and surrounding spaces are trimmed |
| Recipients.ExampleOnlySeparators | src/App.jsx:7-11 | a text of separators and spaces gives no recipient |
| Recipients.ExampleDuplicates | src/App.jsx:7-11 | a repeated recipient is kept twice, in order |
| Decimal.DigitValue | src/App.jsx:120 | read-back helper for `String(n)`, not a model of that line: a digit's value is below ten |
| Decimal.DigitChar | src/api/jasminClient.js:32 | the digit character for a value reads back as that value |
| Decimal.NatToString | src/App.jsx:120 | `String(n)` is a non-empty run of digits without a leading zero, except for 0 |
| Decimal.LeadingDigits | src/App.jsx:120 | read-back helper for `String(n)`, not a model of that line: the longest digit prefix of a text |
| Decimal.DigitsValueOfNatToString | src/api/jasminClient.js:32 | the rendered number reads back as itself |
| Decimal.LeadingDigitsOfAppend | src/App.jsx:120 | the digit prefix of digits followed by a non-digit is those digits |
| Decimal.ReadNatOfNatToString | src/App.jsx:120 | a rendered number followed by text that starts with a non-digit reads back as itself |
| JsonValue.Truthy | src/api/jasminClient.js:51-57 | defines JavaScript truthiness of an optional JSON value (absent, null, false, 0 and "" are falsy); stated by Or, FirstTruthy and OrChainIsFirstTruthy |
| JsonValue.Nullish | src/api/jasminClient.js:47 | defines absent-or-null, the test of `??`; stated by Coalesce and StatusCodeRules |
| JsonValue.Member | src/api/jasminClient.js:47 | optional chaining `parsed?.[key]` is present exactly for a key of an object |
| JsonValue.Or | src/api/jasminClient.js:51-57 | JavaScript's logical or is truthy exactly when either operand is, and is the left operand when that is truthy |
| JsonValue.Coalesce | src/api/jasminClient.js:47 | `a ?? b` is nullish exactly when both are, and is `a` when `a` is not nullish |
| JsonValue.OrChain | src/api/jasminClient.js:51-57 | defines a chain of logical ors ending in a fallback; stated by OrChainIsFirstTruthy |
| JsonValue.FirstTruthy | src/api/jasminClient.js:51-57 | the index of the first truthy candidate, all before it falsy |
| JsonValue.OrChainIsFirstTruthy | src/api/jasminClient.js:51-57 | a chain of logical ors yields its first truthy operand, else its last |
| JasminClient.DefaultBaseUrl | src/api/jasminClient.js:1 | the configured base URL when it is set, else `http://localhost:1401` |
| JasminClient.StripTrailingSlashes | src/api/jasminClient.js:3 | `replace(/\/+$/, '')` removes only slashes, all of them at the end |
| JasminClient.StripTrailingSlashesUnique | src/api/jasminClient.js:3 | any prefix with those three properties is the stripped text |
| JasminClient.NormalizeBaseUrl | src/api/jasminClient.js:3 | the value, or the default when empty, without its trailing slashes |
| JasminClient.NormalizeBaseUrlIdempotent | src/api/jasminClient.js:3 | normalizing a non-empty normalized URL changes nothing |
| JasminClient.NormalizeEmptyBaseUrl | src/api/jasminClient.js:1-3 | an empty value normalizes like the default itself |
| JasminClient.TryParseJson | src/api/jasminClient.js:5-11 | the parsed value, or null when the body is not JSON |
| JasminClient.DlrText | src/api/jasminClient.js:32 | `String(dlr)` is non-empty, all digits, reads back as `dlr` and has no leading zero unless `dlr` is 0 |
| JasminClient.DlrFlags | src/App.jsx:89 | the two values the console sends render as `"0"` and `"1"` |
| JasminClient.FormFields | src/api/jasminClient.js:27-34 | defines the form pairs in append order; stated by FormFieldsReadBack |
| JasminClient.Request | src/api/jasminClient.js:36-42 | defines the POST request; stated by RequestTargetsSendEndpoint |
| JasminClient.IssuedRequest | src/api/jasminClient.js:23-42 | no request when username or password is empty, otherwise exactly the POST request for the parameters |
| JasminClient.RequestTargetsSendEndpoint | src/api/jasminClient.js:36-42 | the request is a form-encoded POST to the normalized base URL followed by `/send` |
| JasminClient.Names | src/api/jasminClient.js:27-34 | the field names, in order |
| JasminClient.GetAfter | src/api/jasminClient.js:27-34 | looking up a name skips fields with other names |
| JasminClient.FormFieldsReadBack | src/api/jasminClient.js:27-34 | fields appear in the source's order, with `from` only when set, and each reads back its parameter; the `dlr` field is exactly `String(dlr)` |
| JasminClient.SearchParams.constructor | src/api/jasminClient.js:27 | the form starts empty |
| JasminClient.SearchParams.Append | src/api/jasminClient.js:28-34 | appending adds one field at the end and keeps the others |
| JasminClient.StatusCode | src/api/jasminClient.js:47 | defines `parsed?.status ?? parsed?.code`; stated by StatusCodeRules |
| JasminClient.IsErrorStatus | src/api/jasminClient.js:48 | defines the non-zero-number test; stated by StatusCodeRules |
| JasminClient.MessageId | src/api/jasminClient.js:64 | `message_id` when it is truthy, otherwise `message-id` |
| JasminClient.ErrorMessage | src/api/jasminClient.js:51-57 | the error message is always truthy |
| JasminClient.ErrorMessageIsFirstTruthy | src/api/jasminClient.js:51-57 | the message is the first truthy of reason, error, description, message and the raw body, else `Jasmin returned an error` |
| JasminClient.StatusCodeRules | src/api/jasminClient.js:47-48 | a numeric `status` fails exactly when non-zero; another non-null `status` never fails; `code` decides only when `status` is null or absent |
| JasminClient.InterpretResponse | src/api/jasminClient.js:44-65 | the reply fails exactly when HTTP is not ok or the status code is a non-zero number, and then its error is ErrorMessage of the payload and body (truthy); a success carries the raw body, the payload and its message id |
| JasminClient.PlainTextReply | src/api/jasminClient.js:44-65 | a non-JSON reply succeeds exactly when HTTP is ok; its body, or the fixed text when empty, is the error |
| JasminClient.ExampleGatewayRejects | src/api/jasminClient.js:47-58 | HTTP 200 with `status: 1` fails with the gateway's reason |
| JasminClient.ExampleGatewayAccepts | src/api/jasminClient.js:47-65 | `status: 0` with `message_id` succeeds with that id |
| JasminClient.CredentialsCheckedFirst | src/api/jasminClient.js:23-25 | a missing username or password fails before any request, with `Username and password are required` |
| JasminClient.OneRequestPerSend | src/api/jasminClient.js:38-42 | the outcome depends on the network only through its answer to the one request sent |
| JasminClient.SendOutcome | src/api/jasminClient.js:13-65 | defines what sendSms resolves or rejects with, a rejected fetch included; stated by CredentialsCheckedFirst, OneRequestPerSend and SendSms |
| JasminClient.SendSms | src/api/jasminClient.js:13-66 | the method builds the form with `SearchParams`, issues IssuedRequest and nothing else, and returns exactly SendOutcome |
| SmsConsole.CallOutcome | src/App.jsx:82-91 | defines the outcome of the i-th `sendSms` call, answered by the i-th network; stated by ValidatedCallReachesGateway and FinalResults |
| SmsConsole.EntryAfter | src/App.jsx:74-116 | defines row k after the first i turns of the loop: settled by the last call so far for its recipient, else pending; stated by PendingIsStart, SendStep and FinalResults |
| SmsConsole.ResultsAfter | src/App.jsx:74-116 | defines the `results` state after i turns of the loop; stated by PendingIsStart, SendStep, DispatchShape and FinalResults |
| SmsConsole.Validate | src/App.jsx:56-67 | defines the three checks in order; stated by ValidationOrder |
| SmsConsole.ValidationOrder | src/App.jsx:56-67 | the checks pass exactly when trimmed credentials and message are non-empty and there is a recipient; otherwise the first failing check's message is reported |
| SmsConsole.ParamsFor | src/App.jsx:82-91 | defines the sendSms arguments built from the form, with `dlr` 1 or 0; stated by ValidatedCallReachesGateway and Console.SendTo |
| SmsConsole.PendingEntries | src/App.jsx:70-72 | one pending row with empty details per recipient, in order |
| SmsConsole.MarkMatching | src/App.jsx:75-79 | rows whose `to` matches get the new status (and details when given); other rows are unchanged |
| SmsConsole.SentDetails | src/App.jsx:99-102 | defines the success details; stated by SentDetailsIsFirstTruthy |
| SmsConsole.SettledEntry | src/App.jsx:93-114 | a settled row is sent exactly when the call succeeded, failed otherwise; its details are SentDetails of the delivery, or the thrown message |
| SmsConsole.SentDetailsIsFirstTruthy | src/App.jsx:99-102 | success details are the message id, else the payload's `message-id`, else the raw body |
| SmsConsole.LastIndexOf | src/App.jsx:74 | the last position of a recipient in the list |
| SmsConsole.LastIndexOfExtend | src/App.jsx:74 | how the last position changes when one more recipient is served |
| SmsConsole.ValidatedCallReachesGateway | src/App.jsx:56-59 | after the console's own checks pass, the client's credential check never fires: each call issues its request, and the gateway's answer decides it |
| SmsConsole.PendingIsStart | src/App.jsx:69-72 | before the first call, every row is pending |
| SmsConsole.SendStep | src/App.jsx:74-116 | one turn of the loop (mark sending, then settle) moves the results from i calls made to i + 1 |
| SmsConsole.DispatchShape | src/App.jsx:74-91 | call i issues the request built from the form for recipient i; as it is issued, that recipient's rows are sending, earlier recipients' rows are settled and later ones are pending |
| SmsConsole.DispatchLogExtend | src/App.jsx:74-91 | the request log grows by one well-shaped entry per call |
| SmsConsole.FinalResults | src/App.jsx:74-116 | after the loop, every row keeps its recipient and is settled by the last call for that recipient; rows of a repeated recipient agree |
| SmsConsole.CountStatus | src/App.jsx:134-135 | a count is at most the number of rows and is zero exactly when no row has that status; CountStatusAppend and CountStatusOne make it the number of matching rows |
| SmsConsole.CountStatusAppend | src/App.jsx:134-135 | the count of a concatenation is the sum of the counts |
| SmsConsole.CountStatusOne | src/App.jsx:134-135 | a single row counts one exactly when it has the status, else zero |
| SmsConsole.CountsPartition | src/App.jsx:134-135 | the four status counts add up to the number of rows |
| SmsConsole.SettledCounts | src/App.jsx:134-135 | when every row is settled, completed plus failed is the number of rows |
| SmsConsole.FinalCounts | src/App.jsx:74-135 | after a send, completed plus failed equals the number of recipients |
| SmsConsole.NoteText | src/App.jsx:119-123 | defines the summary note; stated by NoteTextReadBack |
| SmsConsole.NoteTextReadBack | src/App.jsx:119-123 | the note has the fixed prefix, the recipient count reads back from it, and the noun is plural exactly when there is more than one recipient |
| SmsConsole.Console.constructor | src/App.jsx:14-25 | the initial form: default base URL, empty fields, delivery reports on, coding `0`, not sending |
| SmsConsole.Console.Recipients | src/App.jsx:47-50 | defines the `recipients` memo as ParseRecipients of the recipients text; stated by ParseRecipients and its lemmas |
| SmsConsole.Console.CompletedCount | src/App.jsx:134 | CountStatus of the rows for Sent, so the number of sent rows (CountStatusAppend, CountStatusOne); zero exactly when none is sent |
| SmsConsole.Console.FailedCount | src/App.jsx:135 | CountStatus of the rows for Failed, so the number of failed rows (CountStatusAppend, CountStatusOne); zero exactly when none failed; completed plus failed never exceeds the rows |
| SmsConsole.Console.HandleSend | src/App.jsx:52-124 | on a failed check, the note is cleared, the error is set to that check's message, and the results and sending flag are unchanged; otherwise the error is cleared, not sending, the note names the count, the results are those after every call, and the log holds one call per recipient, in order, each with the request sent for it |
| SmsConsole.Console.Deliver | src/App.jsx:69-123 | sending runs from the pending list through every call to the final note |
| SmsConsole.Console.SendInOrder | src/App.jsx:74-116 | the loop makes one call per recipient, in order, keeping the results equal to those after the calls made so far |
| SmsConsole.Console.SendTo | src/App.jsx:75-114 | one call: mark the recipient's rows sending, call `sendSms` with the form's settings and log the request it issued, settle the rows with the outcome |
| SmsConsole.Console.ResetForm | src/App.jsx:126-132 | recipients text, message, results, error and note are cleared; connection settings are kept |

## Left out

- Network I/O, `fetch` and `response.text()` are not modelled as I/O. The
  network is a parameter that answers or rejects each request. A rejected
  `fetch` fails that recipient with the rejection's message.
- `JSON.parse` itself is left out. A response carries the parse result of its
  body (`None` when the body is not JSON), and `TryParseJson` models only the
  `null` fallback. Numbers are reals, so NaN and infinities do not occur.
- `URLSearchParams` percent-encoding and `toString()` are not modelled. The
  request body is the ordered list of name/value pairs.
- Saving and restoring settings in `localStorage` (src/App.jsx:27-45) is left
  out, as browser storage.
- React rendering, the JSX, the input change handlers and `useMemo` caching
  are not modelled. `Console.Recipients` recomputes the memo's value.
- Asynchronous interleaving is not modelled. A send runs to completion
  atomically, and a second click while sending is not considered.
- `Console.HandleSend` reads the form as it was when the send started, as the
  React closure does. Edits made during a send are not modelled.
- `SmsConsole.SettledEntry`: a failed row keeps the thrown message as a JSON
  value, without the `String(...)` conversion that `new Error(message)` applies
  to a non-string `reason`/`error` field. In practice the row's details can
  differ from the source's: for a reply `{"reason": []}`, `new Error([])` has
  the message `""`, so the source's failed row has empty details, while the
  model's row holds the truthy empty array.
- `JasminClient.SendParams` has no default parameters (`dlr = 1`,
  `coding = 0`). The console always passes both, so the defaults are never used
  on this path.
- `import.meta.env.VITE_JASMIN_BASE_URL` is the `configured` parameter, with
  the empty string for an unset value.
- `JsString.IsWhitespace` covers the ECMAScript WhiteSpace and LineTerminator
  code points. Characters outside the basic multilingual plane are not
  considered.
