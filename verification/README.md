# Sachet, modelled in Dafny

Sachet is an SMS gateway for Prometheus Alertmanager. Alertmanager posts a
webhook payload to `/alert`. Sachet looks up the receiver the payload names
in its configuration, builds the provider that receiver uses, and renders the
message text. The text comes from the receiver's template, or from the
built-in default text when no template is configured. Sachet then hands a
`sachet.Message` (recipients, sender, text, type) to the provider, and the
provider talks to its SMS service.

This project models that pipeline. It covers:

- the `/alert` and `/-/reload` handlers;
- the default text;
- the receiver and provider lookups;
- the JSON error responses;
- the `PORT` override.

It also models the providers and the client libraries they call:

- the MessageBird REST client, in both vendored copies;
- the Twilio client;
- the Nexmo client: SMS, USSD, Verify, the inbound-message server and its trusted addresses;
- the sms77 client;
- the mail.ru bot client, with its keyboards, chats, messages and updates;
- the OTC, SAP, SFR, Pushbullet, Tencent Cloud, sms77, Twilio and MessageBird providers.

**How the model is built**

- Each operation is a pure function over immutable datatypes.
- The things the code does not decide itself are parameters of the functions:
  - HTTP exchanges: one can fail with no response, fail with a closed response (Go's client after its 10-redirect limit), or answer;
  - JSON decoding of answers;
  - the SDK calls;
  - secrets stores;
  - the order Go ranges over a map in.
- A Go `(value, error)` pair is a `Result`; a nil-able error is an `Option<string>` (`Status`).
- A Go panic is an explicit outcome constructor, so that a panic can be told apart from a returned error.

The model is organised as follows:

- `wrappers.dfy`, `text.dfy`, `decimal.dfy`, `sorting.dfy`, `json_text.dfy`,
  `url_values.dfy`, `go_maps.dfy` and `utf8.dfy` model the Go standard-library
  behaviour the code relies on:
  - `strings.Split`, `Join`, `ReplaceAll`, `ToUpper` and `TrimSpace`;
  - `strconv.Itoa`, `Atoi` and `ParseUint`;
  - `sort.Strings`;
  - `json.Marshal`'s string escaping;
  - `url.Values`;
  - map iteration;
  - a string's UTF-8 bytes, which `len` and slicing count.
- `sachet.dfy`, `alert_text.dfy`, `dispatch.dfy` and `gateway_cases.dfy` model
  `sachet.go` and `cmd/sachet`, together with the concrete cases from its tests.
- `provider_*.dfy` model one provider package each.
- `mb_*.dfy`, `twilio_go.dfy`, `nexmo_*.dfy`, `sms77_api.dfy` and `bot*.dfy`
  model the vendored client libraries.

## Model

| member | source | states |
|---|---|---|
| Sachet.SendEach | provider/twilio/twilio.go:38-47 | A "stop at the first error" loop contacts recipients in order. It contacts a prefix of the list. Every recipient it contacted before the last one succeeded. A returned error is the last contacted recipient's failure. Success means everybody was contacted. |
| Sachet.SendEachSucceedsIffAll | provider/twilio/twilio.go:38-47 | Such a loop reports success exactly when every recipient's send succeeds. |
| Sachet.SendAllKeepLast | provider/sms77/sms77.go:47-54 | A loop that overwrites `err` on every iteration returns only the last recipient's outcome. With no recipients it returns nil. |
| Sachet.OneLine | provider/sap/sap.go:37-38 | The newline sanitiser leaves no line break in the text and changes a text without one not at all. Each break grows the text by two characters. |
| Sachet.OneLineJoinsLines | provider/sfr/sfr.go:65-66 | The sanitised text is the original lines joined by `" - "`. |
| AlertText.Label | cmd/sachet/handlers.go:29-31 | A label read gives the label's value, and `""` for a label the alert does not have. |
| AlertText.WithStatus | cmd/sachet/handlers.go:21-22 | The group of a status holds exactly the payload's alerts with that status, and every alert it holds has that status. |
| AlertText.WithStatusSelects | cmd/sachet/handlers.go:21-22 | The group is the in-order subsequence of the payload's alerts with that status: it lists the alerts at exactly the positions whose status matches, in increasing order of position. |
| AlertText.SelectsStep | cmd/sachet/handlers.go:21-22 | One more alert in front is selected exactly when its status matches, and the selection stays in increasing order. |
| AlertText.Firing | cmd/sachet/handlers.go:21 | The firing group holds exactly the payload's alerts whose status is `firing`. |
| AlertText.Resolved | cmd/sachet/handlers.go:22 | The resolved group holds exactly the payload's alerts whose status is `resolved`. |
| AlertText.GroupsPartition | cmd/sachet/handlers.go:19-23 | The two groups never share an alert. When every status is firing or resolved, they cover all alerts. |
| AlertText.AlertLineCount | cmd/sachet/handlers.go:29-33 | When its labels hold no newline, an alert's line holds exactly one newline, the one that ends it. |
| AlertText.LinesCount | cmd/sachet/handlers.go:28-34 | Each alert of a group adds exactly one line to the text, provided its labels hold no newline. |
| AlertText.Section | cmd/sachet/handlers.go:26-35 | An empty group contributes nothing. A non-empty group starts with its `Firing: ` or `Resolved: ` header. |
| AlertText.SectionOrderInvisibleForOneGroup | cmd/sachet/handlers.go:20-25 | When only one group is non-empty, the random order of the `labelAlerts` map does not affect the text. |
| AlertText.SectionsLineCount | cmd/sachet/handlers.go:19-37 | The multi-alert text has one line per alert of either group, plus one header line per non-empty group, whichever order the map is ranged in. |
| AlertText.FilterKeepsPlain | cmd/sachet/handlers.go:21-22 | Filtering into groups keeps the labels newline-free. |
| AlertText.SectionCount | cmd/sachet/handlers.go:26-35 | A section has one line per alert plus its header line. |
| AlertText.Tuples | cmd/sachet/handlers.go:42-45 | The `k= v` list has one entry per key ranged over. |
| AlertText.TuplesConcat | cmd/sachet/handlers.go:43-45 | Ranging over two runs of keys gives the concatenation of their tuple lists. |
| AlertText.TuplesRemove | cmd/sachet/handlers.go:43-45 | Dropping one key drops exactly its tuple from the multiset of tuples. |
| AlertText.TuplesPermutation | cmd/sachet/handlers.go:43-45 | Ranging over the same keys in another order gives the same tuples, rearranged. |
| AlertText.Position | cmd/sachet/handlers.go:43 | The position of a key present in a key list holds that key. |
| AlertText.RemoveAt | cmd/sachet/handlers.go:43 | Removing the element at one position removes exactly that element from the multiset. |
| AlertText.SingleAlertTextOrderFree | cmd/sachet/handlers.go:40-47 | Because the tuples are sorted, the single-alert text is the same for every order Go may range over the labels in. |
| AlertText.SingleAlertLines | cmd/sachet/handlers.go:46-47 | The single-alert text is the upper-cased status line followed by the sorted tuples. When no tuple holds a newline, splitting the body at newlines gives back the sorted tuples in order. |
| AlertText.TuplesFree | cmd/sachet/handlers.go:44 | When no key or value holds a newline, no tuple does. |
| AlertText.NewAlertText | cmd/sachet/handlers.go:18-51 | With no alerts, the text is `Alert ` and the common label values joined by a space, a bar and a space. With one alert, it starts with the upper-cased status line. With several alerts that are neither firing nor resolved, it is empty. |
| AlertText.NewAlertTextOneAlert | cmd/sachet/handlers.go:40-48 | For one alert, the text is the upper-cased payload status, a space, a newline, and the alert's `k= v` label tuples sorted and joined by newlines; it is the same for every order Go may range over the labels or the section map in. |
| AlertText.NewAlertTextSeveral | cmd/sachet/handlers.go:19-38 | For several alerts, the text is empty exactly when no alert is firing or resolved. It starts with the `Firing: ` header when the firing group is non-empty and comes first in the map order (or is the only non-empty group), and likewise with `Resolved: `. When only one group is non-empty, the map order does not show. |
| AlertText.NewAlertTextLineCount | cmd/sachet/handlers.go:19-38 | When the labels a line shows hold no newline, the several-alert text has one line per firing or resolved alert plus one header line per non-empty group. |
| AlertText.SectionsShape | cmd/sachet/handlers.go:25-36 | Two sections joined in either order are empty exactly when both groups are, start with the header of the first non-empty one, and coincide when one group is empty. |
| AlertText.InlineAlertText | cmd/sachet/main.go:76-103 | The renderer inlined in `main.go` agrees with `newAlertText` except on single alerts, where it does not sort. |
| AlertText.InlineAgreesWhenRangeIsSorted | cmd/sachet/main.go:94-101 | The unsorted renderer gives the same text as the sorted one whenever Go happens to range over the labels in sorted order. |
| Dispatch.ReceiverIndex | cmd/sachet/main.go:150-158 | The index found holds the first receiver with the name. The index is absent exactly when no receiver has the name. |
| Dispatch.ReceiverConfByReceiver | cmd/sachet/main.go:149-158 | The lookup returns the first receiver in list order with the name, and nil exactly when none has it. |
| Dispatch.EarlierReceiverWins | cmd/sachet/main.go:151-155 | An earlier entry shadows every later entry of the same name. |
| Dispatch.NamesDistinct | cmd/sachet/main.go:161-190 | Each provider name in the switch selects exactly one provider. |
| Dispatch.ProviderByName | cmd/sachet/main.go:160-193 | An unknown name gives `<name>: Unknown provider`. The two factories that can fail (nexmo, telegram) pass their errors through, and every other name always succeeds. A provider returned carries the requested name. |
| Dispatch.ProviderByNameRoundTrip | cmd/sachet/main.go:160-193 | Every provider whose factory does not fail resolves from its own name. |
| Dispatch.NumberSpanOf | cmd/sachet/main.go:198-209 | While reading back an error body, the status number ends where a non-number character follows. |
| Dispatch.ParseStatusFormat | cmd/sachet/main.go:200-204 | Reading a status back from its decimal text gives the status. |
| Dispatch.FormatIsNumberText | cmd/sachet/main.go:204 | The marshalled status consists of digits and minus signs only. |
| Dispatch.StatusFieldRoundTrip | cmd/sachet/main.go:198-209 | The `Status` field of an error body reads back as the status, and what follows it is left intact. |
| Dispatch.ErrorBodyRoundTrip | cmd/sachet/main.go:195-214 | The JSON body `errorHandler` writes decodes back to exactly the status and the error text, whatever characters the text holds. |
| Dispatch.ErrorResponse | cmd/sachet/main.go:195-214 | An error response carries the given status. Its body decodes back to the status and the message, and it counts the status's decimal text against the provider. |
| Dispatch.HandleAlert | cmd/sachet/handlers.go:53-98 | An undecodable payload gives 400 counted against `?`, and so does a missing receiver (`Receiver missing: <name>`). For a known receiver, a provider that cannot be built gives 500 with its error, a template that fails gives 500 with its error, and a send that fails gives 400 with its error, each counted against the receiver's provider. The default text never fails. A message is sent exactly when the answer is 200. The message sent goes to the provider the receiver names. It carries the receiver's recipients, sender and type, and either the rendered template or the default text. The 200 is counted against that provider. |
| Dispatch.AlertOutcomeShape | cmd/sachet/handlers.go:53-98 | The handler only ever answers 200, 400 or 500, and it counts the answer under that status's text. A 500 happens only after the payload decoded and the receiver was found. |
| Dispatch.Reload | cmd/sachet/handlers.go:100-110 | A `POST` reloads the configuration: 200 when loading succeeds, 500 with the error text when it fails. Any other method gets 405 `Invalid request method.` and loads nothing. |
| Dispatch.ListenAddress | cmd/sachet/main.go:140-142 | A non-empty `PORT` overrides the flag as `:<PORT>`; otherwise the flag's value is used. |
| GatewayCases.EmptyPayloadText | cmd/sachet/handlers_test.go:18-22 | The empty payload renders as `Alert \n`. |
| GatewayCases.EmptyAlertText | cmd/sachet/handlers_test.go:23-31 | One alert without labels or status renders as ` \n`. |
| GatewayCases.CommonLabelsText | cmd/sachet/handlers_test.go:47-57 | Common labels a, b, c render as `Alert`, a space, a newline and the three values separated by a space, a bar and a space. |
| GatewayCases.TestTuple | cmd/sachet/handlers_test.go:37-41 | Each label of the test alert renders as `<key>= a`. |
| GatewayCases.TestTuples | cmd/sachet/handlers_test.go:37-41 | Ranged in sorted key order, the test alert gives the three tuples in that order. |
| GatewayCases.TestTuplesSorted | cmd/sachet/handlers.go:46 | The three tuples in key order are already sorted. |
| GatewayCases.TestTuplesJoined | cmd/sachet/handlers.go:47 | Joining the sorted tuples gives the three lines in sorted order. |
| GatewayCases.SortTestTuples | cmd/sachet/handlers.go:46 | Sorting the sorted tuples changes nothing. |
| GatewayCases.JoinedText | cmd/sachet/handlers.go:47 | The status line followed by the joined tuples is the expected text. |
| GatewayCases.SortedKeysTuples | cmd/sachet/handlers.go:42-46 | The sorted tuples of the test alert are `alertname`, `exported_instance`, `instance`. |
| GatewayCases.SortedKeysText | cmd/sachet/handlers.go:40-47 | The test alert's text, ranged in sorted key order, is the sorted three-line text. |
| GatewayCases.BlankStatusLine | cmd/sachet/handlers.go:47 | An empty status gives a blank status line. |
| GatewayCases.SortedKeysEnumerate | cmd/sachet/handlers_test.go:37-41 | The sorted key list is one way of ranging over the test labels. |
| GatewayCases.TextsDiffer | cmd/sachet/handlers_test.go:45 | The test's expected text is not the sorted text the code produces. |
| GatewayCases.LabelledAlertText | cmd/sachet/handlers_test.go:32-46 | Whatever order Go ranges over the test labels in, the code gives the sorted text. That text is not the unsorted one the test expects. |
| GatewayCases.SpacedTuples | cmd/sachet/handlers.go:43-45 | Labels `a` and `a b` give the tuples `a= x` and `a b= y`. |
| GatewayCases.SpacedSort | cmd/sachet/handlers.go:46 | Sorting compares whole tuples, so `a b= y` sorts before `a= x`. |
| GatewayCases.FiringLine | cmd/sachet/handlers.go:47 | A firing status gives the line `FIRING `. |
| GatewayCases.SpacedText | cmd/sachet/handlers.go:40-47 | A firing alert with those labels renders `a b= y` before `a= x`. |
| GatewayCases.WholeStringOrder | cmd/sachet/handlers.go:40-47 | That order holds for every order of ranging over the labels, not only the sorted one. |
| GatewayCases.Format403 | cmd/sachet/main.go:213 | Status 403 is counted as `403`. |
| GatewayCases.PlainWords | cmd/sachet/main.go:208 | Lower-case words and spaces are marshalled without escapes. |
| GatewayCases.ForbiddenErrorBody | cmd/sachet/main_test.go:12-21 | A 403 `access forbidden` marshals to the JSON body the test expects. |
| GatewayCases.ForbiddenBody | cmd/sachet/main_test.go:12-21 | The error response for that input has the test's body and is counted as `403` against provider `test`. |
| TwilioProvider.New | provider/twilio/twilio.go:24-36 | The secrets store is consulted only when both configured values are the vault placeholder names. Its error is returned as it is, and its answers are used as the credentials. Otherwise the configured values are used. |
| TwilioProvider.ConsultsVaultIff | provider/twilio/twilio.go:26-34 | The outcome depends on the secrets store only when the placeholders are configured, and without them construction cannot fail. |
| TwilioProvider.Send | provider/twilio/twilio.go:38-47 | Each recipient gets one message from the configured sender, in order. Success means every recipient was tried and every call succeeded. An error is the last tried recipient's call's error, every earlier call succeeded, and nobody after that recipient is contacted. |
| SapProvider.New | provider/sap/sap.go:24-33 | An empty URL is replaced by the default endpoint and any other URL is kept; the auth hash is unchanged. |
| SapProvider.BodyLines | provider/sap/sap.go:39-40 | The request body has nine lines, with the recipient list on the fourth and the text on the sixth. |
| SapProvider.JoinNine | provider/sap/sap.go:39 | Nine lines joined with breaks have a break between each two. |
| SapProvider.BodyIsLines | provider/sap/sap.go:38-40 | The body is its nine lines joined by line breaks, with the recipients comma-joined and the text sanitised. |
| SapProvider.BodyReadsBack | provider/sap/sap.go:37-40 | Because the text is sanitised, splitting the body at line breaks gives back exactly the nine lines. That holds whatever the text is, given recipients without line breaks. So the recipient list and the text can be read back from their lines. |
| SapProvider.Send | provider/sap/sap.go:36-58 | A request-building error is returned. Otherwise the request goes to the configured URL with `Basic <hash>` authorisation and the body. A transport error is returned, 200 is success, and any other status gives `Failed sending sms. statusCode: <code>`. |
| SapProvider.SendSucceedsIff | provider/sap/sap.go:42-55 | A message is delivered exactly when the request is built and the service answers 200. |
| SapProvider.StatusErrorNamesCode | provider/sap/sap.go:57 | Different status codes give different errors, so the code can be read off the error. |
| SfrProvider.New | provider/sfr/sfr.go:52-61 | An empty URL is replaced by the default endpoint; nothing else in the configuration changes. |
| SfrProvider.CallFor | provider/sfr/sfr.go:72-105 | The call for one recipient carries the configured URL and service credentials, the `SMSLong` media, the sanitised text, the recipient and the configured sender. |
| SfrProvider.Failures | provider/sfr/sfr.go:107-129 | One call adds nothing to the error counter exactly when it is delivered. A call the HTTP client could not make adds one. An error that comes with a closed response, such as the redirect limit, adds two: the error, then the success flag that the unreadable body never set. An undecodable body adds at least one. |
| SfrProvider.Count | provider/sfr/sfr.go:68-130 | The counter stays zero exactly when every call is delivered. It is at least the number of undelivered calls. |
| SfrProvider.CountDelivered | provider/sfr/sfr.go:124-129 | At most every call is delivered. |
| SfrProvider.Send | provider/sfr/sfr.go:64-135 | With recipients, a request-building error is returned. Otherwise a counter above zero gives `Error with <n> calls`, and zero gives success. |
| SfrProvider.SendSucceedsIff | provider/sfr/sfr.go:68-135 | When requests can be built, sending succeeds exactly when every recipient's call is delivered. |
| SfrProvider.ReportedCountBoundsFailures | provider/sfr/sfr.go:131-133 | When some call is not delivered, the error names a count of at least the number of undelivered calls. |
| SfrProvider.FirstStuck | provider/sfr/sfr.go:107-122 | The recipient found is the first, in list order, whose call got no response or an undecodable body; none is found exactly when no call did. |
| SfrProvider.SendAsWritten | provider/sfr/sfr.go:107-122 | As written, a failure to build the request is still returned. |
| SfrProvider.AsWrittenPanicsOnNoResponse | provider/sfr/sfr.go:107-122 | As written, the send returns exactly when no call got no response or an undecodable body, and it then agrees with the corrected `Send`. Otherwise the first such call decides: a missing response panics, because the nil response's body is read, and an undecodable body hangs, because the decoder's error is sticky and `More` stays true. |
| SfrProvider.OneUnreachableRecipient | provider/sfr/sfr.go:107-113 | One recipient whose call times out makes the code as written panic, while the corrected send reports `Error with 1 calls`. |
| SfrProvider.RedirectFailureCountedTwice | provider/sfr/sfr.go:107-129 | One recipient whose call stops after 10 redirects, with the response closed, neither panics nor hangs as written: it counts two errors and reports `Error with 2 calls`, like the corrected send. |
| SfrProvider.MalformedBodyHangs | provider/sfr/sfr.go:114-128 | One recipient whose response body is not JSON makes the code as written loop for ever, while the corrected send reports `Error with 2 calls`: the failed decode and the missing success. |
| PushbulletProvider.ParseRecipient | provider/pushbullet/pushbullet.go:39-45 | A recipient parses exactly when it holds one `:`. The two parts have no `:` and rebuild the recipient. Any other recipient gives the `cannot parse recipient` error. |
| PushbulletProvider.ParseRecipientRoundTrip | provider/pushbullet/pushbullet.go:40-45 | A type and a name without `:` are read back from `type:name`. |
| PushbulletProvider.SendOne | provider/pushbullet/pushbullet.go:36-74 | A device target looks the device up and pushes to it, and a channel target looks the subscription up and pushes to it. Either lookup's or push's error is returned. Any other type gives `unrecognised target type: <type>`. |
| PushbulletProvider.Send | provider/pushbullet/pushbullet.go:32-79 | Recipients are handled in order and the first error ends the loop. Success means every recipient was tried and succeeded. An error is the last tried recipient's error, and every earlier recipient succeeded. |
| PushbulletProvider.UnknownTypeFails | provider/pushbullet/pushbullet.go:72-73 | A well-formed recipient of an unknown type fails with no lookup or push. |
| PushbulletProvider.Contains | provider/pushbullet/pushbullet.go:81-88 | `contains` is true exactly when the element is in the list. |
| Sms77Provider.New | provider/sms77/sms77.go:24-35 | The client gets the configured API key and debug flag, and is always marked as sent with `Sachet`. |
| Sms77Provider.Send | provider/sms77/sms77.go:38-59 | A text message (type empty or `text`) is one SMS to the comma-joined recipients. A voice message is one call per recipient, and only the last call's outcome is returned. Any other type gives `unknown message type <type>`. |
| Sms77Provider.EarlierVoiceFailuresAreLost | provider/sms77/sms77.go:47-54 | When the last voice call succeeds, the send reports success even if earlier calls failed. |
| Sms77Provider.TextRecipientsReadBack | provider/sms77/sms77.go:45 | For recipients without commas, the recipients are read back by splitting the SMS's `To` field at commas. |
| TencentCloudProvider.TruncateString | provider/tencentcloud/tencentcloud.go:48-57 | A byte string within the limit is returned unchanged. A longer one keeps its first bytes, as many as KeptBytes says, followed by the fixed suffix. |
| TencentCloudProvider.KeptBytes | provider/tencentcloud/tencentcloud.go:51-53 | The cut keeps three bytes fewer than the limit when the limit is above 3, and otherwise the whole limit. |
| TencentCloudProvider.TruncateBounds | provider/tencentcloud/tencentcloud.go:48-57 | A truncated text is at most the limit plus the suffix. It starts with the original's kept prefix and ends with the suffix, and it is exactly the limit minus three plus the suffix when the limit is above 3. |
| TencentCloudProvider.TruncateShortIsIdentity | provider/tencentcloud/tencentcloud.go:50 | Truncating a text within the limit twice leaves it unchanged. |
| TencentCloudProvider.SendText | provider/tencentcloud/tencentcloud.go:65-68 | The template gets the text's UTF-8 bytes. They are cut only when truncation is configured and the encoding is longer than 400 bytes, and then exactly the first 397 bytes are kept, followed by the suffix. |
| TencentCloudProvider.SuffixStartsWithDot | provider/tencentcloud/tencentcloud.go:54 | The suffix's first byte is a dot, so it can never continue a character that the cut split. |
| TencentCloudProvider.AsciiTextKeepsCharacters | provider/tencentcloud/tencentcloud.go:50-54 | For ASCII text of more than 400 characters, the cut keeps exactly the first 397 characters. |
| TencentCloudProvider.WideTextIsCut | provider/tencentcloud/tencentcloud.go:50-54 | 150 copies of a three-byte character fit in 400 characters but take 450 bytes, so the text is cut. The last byte kept is the lead byte of a character whose continuation bytes are dropped, so the cut splits that character. |
| TencentCloudProvider.Prepare | provider/tencentcloud/tencentcloud.go:60-72 | Only text messages make a request. The request carries the recipients, the (possibly truncated) text as its only template parameter, and the configured app id, sign and template. |
| TencentCloudProvider.Send | provider/tencentcloud/tencentcloud.go:59-89 | Other message types are silently accepted. An SDK error is returned, and otherwise the outcome of re-encoding the response is returned. |
| TencentCloudProvider.OtherErrorsAreSilent | provider/tencentcloud/tencentcloud.go:73-85 | A failure that is not an SDK error is reported as success when the (empty) response encodes. |
| TencentCloudProvider.UntruncatedTextIsVerbatim | provider/tencentcloud/tencentcloud.go:65-70 | Without truncation, the template gets the text's UTF-8 bytes, unchanged. |
| MessageBirdProvider.New | provider/messagebird/messagebird.go:32-48 | The client gets the access key. The SMS parameters hold only the gateway, and the voice parameters only the language, voice and repeat. |
| MessageBirdProvider.Prepare | provider/messagebird/messagebird.go:50-60 | A text message (type empty or `text`) is an SMS from the sender to the recipients with the text. It is accepted exactly when sender, recipients and body are non-empty (sms/message.go:136-145). A voice message is accepted exactly when recipients and body are non-empty. Any other type gives `unknown message type <type>`. |
| MessageBirdProvider.Send | provider/messagebird/messagebird.go:50-60 | The local error, or the API's answer to the single request. |
| MessageBirdProvider.TextRequestCarriesGateway | provider/messagebird/messagebird.go:39-41 | An SMS request carries the configured gateway and otherwise default parameters. |
| MessageBirdProvider.VoiceRequestCarriesConfig | provider/messagebird/messagebird.go:42-46 | A voice request carries the configured language, voice and repeat, and no originator. |
| MessageBirdProvider.SendSucceedsIff | provider/messagebird/messagebird.go:50-60 | A send succeeds exactly when it passes the local checks and the API accepts its request. |
| OtcProvider.New | provider/otc/otc.go:37-40 | A new provider has no token and no endpoint yet. |
| OtcProvider.SmnBase | provider/otc/otc.go:147-158 | With no `smn` entry that has endpoints, the endpoint stays what it was. |
| OtcProvider.SmnBaseIsLast | provider/otc/otc.go:147-158 | The endpoint is the last URL of the last `smn` entry that has one, followed by the project id. |
| OtcProvider.Login | provider/otc/otc.go:42-165 | A status of 400 or more gives `OTC API request failed with HTTP status code <n>` and leaves the session as it was. Below 400 the token header is stored even if a later step fails, and an empty token gives `unable to get auth token`. The login succeeds exactly when the service answers below 400 with a token, the catalog decodes and an `smn` endpoint is found. The session then holds that token and endpoint. |
| OtcProvider.PostCount | provider/otc/otc.go:196 | The number of requests in a trace is at most its length. |
| OtcProvider.PostCountConcat | provider/otc/otc.go:196 | The requests in two traces add up. |
| OtcProvider.SendRequestWith | provider/otc/otc.go:167-220 | A login happens first exactly when there is no token. At most `attempts` requests go out, and at least one. |
| OtcProvider.SendRequestAsWritten | provider/otc/otc.go:202-209 | As written, a login comes first exactly when there is no token, and the number of requests is bounded by the attempts. |
| OtcProvider.SendRequest | provider/otc/otc.go:167-220 | The corrected version has the same login and retry shape as the code as written. |
| OtcProvider.SendRequestAlwaysDecides | provider/otc/otc.go:167-220 | The corrected version always ends with a body or an error. |
| OtcProvider.VersionsDifferOnlyOnExhausted401 | provider/otc/otc.go:202-209 | The code as written and the corrected version make the same calls and end in the same session. They differ only where the code as written returns neither body nor error, and there the corrected version returns an error. |
| OtcProvider.RetryOn401 | provider/otc/otc.go:202-206 | A 401 with attempts left drops the token and starts over with one attempt fewer. |
| OtcProvider.GiveUpOn401 | provider/otc/otc.go:205-209 | A 401 on the last attempt returns the give-up reply for the request's URL. |
| OtcProvider.LoginFirst | provider/otc/otc.go:168-176 | Without a token, a successful login comes first and the request goes out with the new session. A 401 on the last attempt then gives up. |
| OtcProvider.Rejected401LooksLikeSuccess | provider/otc/otc.go:202-209 | As written, a request rejected with 401 on its last attempt returns neither body nor error. |
| OtcProvider.Rejected401Reported | provider/otc/otc.go:210-211 | The corrected version reports that 401 like any other status of 400 or more. |
| OtcProvider.ExistingTokenIsUsed | provider/otc/otc.go:168-187 | With a token in hand, the first call is the request itself, sent to `<endpoint>/<resource>` with that token. |
| OtcProvider.ErrorOf | provider/otc/otc.go:230-233 | `Send` counts a reply as a failure only when it is an error. |
| OtcProvider.Sessions | provider/otc/otc.go:223-236 | The chain of sessions the loop passes on: it starts with the given session, and each recipient's request turns one session into the next. |
| OtcProvider.ShiftSteps | provider/otc/otc.go:223-236 | After the first request, the later requests are those of the loop started from the session the first one left. |
| OtcProvider.SendWith | provider/otc/otc.go:223-236 | The recipients tried are a prefix of the list, and success means all were tried. An error means at least one was tried. |
| OtcProvider.SendWithStopsAtFirstFailure | provider/otc/otc.go:223-236 | Along the chain of sessions, no request before the last one made failed. On an error, the last request failed, its error is the one returned and its session is kept. On success, no request failed and the session is the end of the chain. |
| OtcProvider.SendWithSucceedsIff | provider/otc/otc.go:223-236 | The loop succeeds exactly when no request along the chain fails. |
| OtcProvider.SendAsWritten | provider/otc/otc.go:223-236 | Over the code as written: success exactly when no request along the chain fails, and then all recipients were tried. An error is the last request's failure, after requests that did not fail. |
| OtcProvider.Send | provider/otc/otc.go:223-236 | Over the corrected version: success exactly when no request along the chain fails, and then all recipients were tried. An error is the last request's failure, after requests that did not fail. |
| OtcProvider.RefusedRecipientReportedAsSent | provider/otc/otc.go:202-233 | A recipient whose every request is refused with 401 is reported as sent by the code as written and as failed by the corrected version. |
| TwilioGo.NewClient | vendor/src/github.com/carlosdp/twiliogo/client.go:32-35 | The client keeps the account and token. Its root URL is the API root, the version and `/Accounts/`, ending in the account id. |
| TwilioGo.TrimLeftSlash | vendor/src/github.com/carlosdp/twiliogo/client.go:167 | Left-trimming removes only leading slashes, and the result starts with no slash. |
| TwilioGo.TrimRightSlash | vendor/src/github.com/carlosdp/twiliogo/client.go:167 | Right-trimming removes only trailing slashes, and the result ends with no slash. |
| TwilioGo.TrimShape | vendor/src/github.com/carlosdp/twiliogo/client.go:167 | `strings.Trim(p, "/")` leaves no slash at either end. It is empty exactly when the part is only slashes, and it leaves an unpadded part alone. |
| TwilioGo.TrimLeadingSlash | vendor/src/github.com/carlosdp/twiliogo/client.go:167 | A leading slash on a part makes no difference. |
| TwilioGo.TrimTrailingSlash | vendor/src/github.com/carlosdp/twiliogo/client.go:167 | A trailing slash on a part makes no difference. |
| TwilioGo.TrimLeftSnoc | vendor/src/github.com/carlosdp/twiliogo/client.go:167 | Appending a slash survives the left trim unless the part was only slashes. |
| TwilioGo.TrimIdempotent | vendor/src/github.com/carlosdp/twiliogo/client.go:167 | Trimming twice is trimming once. |
| TwilioGo.Segments | vendor/src/github.com/carlosdp/twiliogo/client.go:166-172 | The parts kept are non-empty and have no slash at either end, and there are no more of them than parts given. |
| TwilioGo.BuildUri | vendor/src/github.com/carlosdp/twiliogo/client.go:156-174 | No parts give the empty URL. A first part that does not start with `http` puts the client's root URL first. |
| TwilioGo.BuildUriOnePart | vendor/src/github.com/carlosdp/twiliogo/client.go:156-174 | One relative part gives the root, a slash and the trimmed part. |
| TwilioGo.BuildUriBlankPart | vendor/src/github.com/carlosdp/twiliogo/client.go:166-170 | A part that is empty or only slashes leaves the root alone. |
| TwilioGo.BuildUriAbsolute | vendor/src/github.com/carlosdp/twiliogo/client.go:162-165 | An absolute URL without a trailing slash is used as it is. |
| TwilioGo.BuildUriUnderAccount | vendor/src/github.com/carlosdp/twiliogo/client.go:156-174 | A relative part without slashes at its ends lands directly below the account root of a new client. |
| TwilioGo.BuildUriExample | vendor/src/github.com/carlosdp/twiliogo/helper_test.go:27-32 | The test's client and part give the account root followed by `/qzx`. |
| TwilioGo.MessagesUri | vendor/github.com/carlosdp/twiliogo/message.go:47 | The message endpoint sits directly below the account root. |
| TwilioGo.TrimRelative | vendor/src/github.com/carlosdp/twiliogo/client.go:167 | A relative path written with a leading slash trims to the path. |
| TwilioGo.Classify | vendor/src/github.com/carlosdp/twiliogo/client.go:48-72 | A transport or body-read error is returned as it is. 200 and 201 succeed, 500 is `Server Error`, and any other status is the decoded Twilio error document. The body is kept whenever there was a response. |
| TwilioGo.Post | vendor/src/github.com/carlosdp/twiliogo/client.go:37-73 | `post` sends the form to the built URL with the account's credentials and the form content type, then classifies the answer. |
| TwilioGo.Get | vendor/src/github.com/carlosdp/twiliogo/client.go:75-117 | `get` sends the parameters (empty for nil) in the request body, without a content type, and classifies the answer the same way. |
| TwilioGo.Delete | vendor/src/github.com/carlosdp/twiliogo/client.go:119-142 | `delete` succeeds exactly on a 204. Any other status gives `Non-204 returned from server for DELETE: <code>`. |
| TwilioGo.DeleteNamesStatus | vendor/src/github.com/carlosdp/twiliogo/client.go:137-139 | Different statuses give different `delete` errors. |
| TwilioGo.ParamName | vendor/github.com/carlosdp/twiliogo/optionals.go:9-143 | Each optional writes its own name, except `Callback`, which writes `Url`. |
| TwilioGo.GetParam | vendor/github.com/carlosdp/twiliogo/optionals.go:9-143 | `GetParam` gives the type's parameter name and the value unchanged. |
| TwilioGo.AllowedKinds | vendor/github.com/carlosdp/twiliogo/message.go:36-38 | `NewMessage` accepts exactly the Body, MediaUrl, StatusCallback, ApplicationSid and MessagingServiceSid optionals. |
| TwilioGo.ApplyOptionals | vendor/github.com/carlosdp/twiliogo/message.go:33-41 | The optionals apply exactly when each of them is accepted. Any other optional gives the `Only allowed params` error. |
| TwilioGo.ApplyOptionalsSnoc | vendor/github.com/carlosdp/twiliogo/message.go:33-41 | One more optional sets its parameter on what the earlier ones built, or fails when it is not accepted. |
| TwilioGo.ApplyOptionalsLastWins | vendor/github.com/carlosdp/twiliogo/message.go:33-41 | Each parameter holds one value, namely the value of the last optional that writes it, or its earlier value when none does. |
| TwilioGo.BaseParams | vendor/github.com/carlosdp/twiliogo/message.go:29-31 | Before the optionals, the form holds exactly `From` and `To`. |
| TwilioGo.NewMessage | vendor/github.com/carlosdp/twiliogo/message.go:26-57 | An optional that is not accepted, or a form with neither body nor media URL, fails before anything is posted. |
| TwilioGo.Decode | vendor/github.com/carlosdp/twiliogo/message.go:47-56 | A post error is returned with no message. Otherwise the message is decoded from the body, and the decode error, if any, is returned with it. |
| TwilioGo.MessageForm | vendor/github.com/carlosdp/twiliogo/message.go:29-45 | A form is posted exactly when every optional is accepted and a body or media URL is present, and it is the form the optionals built. |
| TwilioGo.MessageFormContents | vendor/github.com/carlosdp/twiliogo/message.go:29-45 | The posted form has the given sender and recipient. Every other parameter holds the value of the last optional that writes it. |
| TwilioGo.NoOptionalNames | vendor/github.com/carlosdp/twiliogo/message.go:36-40 | A name that no accepted optional writes keeps its earlier value. |
| TwilioGo.NewMessagePosts | vendor/github.com/carlosdp/twiliogo/message.go:26-57 | A message that fails locally returns no message and an error. Otherwise the form is posted to `/Messages.json`; its error is returned, or the message is decoded from its body. |
| TwilioGo.ProviderMessage | provider/twilio/twilio.go:40 | The provider's one `Body` optional posts a form exactly when the text is non-empty, and the form's `Body` is the text. |
| TwilioGo.FailureText | vendor/github.com/carlosdp/twiliogo/errors.go:9-11 | A plain error's text is its description. A Twilio error's text starts with `Twilio Error, `. |
| TwilioGo.TwilioErrorText | vendor/github.com/carlosdp/twiliogo/errors.go:20-38 | The text is the prefix, then the status part, the code part and the message part. |
| TwilioGo.StatusPart | vendor/github.com/carlosdp/twiliogo/errors.go:25-27 | The status part is present exactly when the status is set. |
| TwilioGo.CodePart | vendor/github.com/carlosdp/twiliogo/errors.go:29-31 | The code part is present exactly when the code is set. |
| TwilioGo.MessagePart | vendor/github.com/carlosdp/twiliogo/errors.go:33-35 | The message part is present exactly when the message is set. |
| TwilioGo.TwilioErrorStatusFirst | vendor/github.com/carlosdp/twiliogo/errors.go:23-27 | The status comes right after the prefix, exactly when it is set. |
| TwilioGo.TwilioErrorCodeWithoutStatus | vendor/github.com/carlosdp/twiliogo/errors.go:25-31 | Without a status, the code follows the prefix after a stray comma. |
| TwilioGo.TwilioErrorMessageLast | vendor/github.com/carlosdp/twiliogo/errors.go:33-35 | The message, when set, always comes last. |
| TwilioGo.TwilioErrorBare | vendor/github.com/carlosdp/twiliogo/errors.go:20-38 | Only the all-zero error document renders as the bare prefix. |
| MessageBirdClient.RequestUrl | vendor/github.com/messagebird/go-rest-api/client.go:70-72 | A path starting `https://` or `http://` is used as it is, and any other path goes under the endpoint after a slash. |
| MessageBirdClient.RequestUrlIdempotent | vendor/github.com/messagebird/go-rest-api/client.go:70-72 | A URL already placed under the endpoint is not placed again. |
| MessageBirdClient.PrepareRequestBody | vendor/github.com/messagebird/go-rest-api/client.go:149-164 | No data gives no body and no content type, and a string is sent as a form. Anything else is marshalled as JSON, and a marshalling error is returned. A body is present exactly when a content type is. |
| MessageBirdClient.ContentTypeHeader | vendor/github.com/messagebird/go-rest-api/client.go:91-93 | The Content-Type header is set exactly for a non-empty content type, to that type's text. |
| MessageBirdClient.ClassifyResponse | vendor/github.com/messagebird/go-rest-api/client.go:119-144 | 200 and 201 succeed when the body decodes and otherwise give `could not decode response JSON, <body>: <error>`. 204 succeeds without reading the body, and 500 is the fixed unavailability error. Every other status is an error. |
| MessageBirdClient.ClassifySucceedsIff | vendor/github.com/messagebird/go-rest-api/client.go:119-144 | A request succeeds exactly on 204, or on 200 or 201 with a body that decodes. |
| MessageBirdClient.Request | vendor/github.com/messagebird/go-rest-api/client.go:69-145 | A body that does not marshal fails before sending. Otherwise the method, URL, body and content type are sent. A transport error is returned, and the status and body decide the rest. |
| MessageBirdRequests.RequestDataForMessage | vendor/github.com/messagebird/go-rest-api/sms/message.go:136-176 | The originator is checked first, then the recipients, then the body, each with its own error. Without parameters the request has only those three. With parameters, `flash` gives message class 0 and anything else 1, and a zero schedule is left empty. |
| MessageBirdRequests.MessageRequestKeepsParams | vendor/github.com/messagebird/go-rest-api/sms/message.go:147-173 | A built request keeps the three required values and every parameter it was given. |
| MessageBirdRequests.LegacyRequestDataForMessage | vendor/github.com/messagebird/go-rest-api/message.go:78-117 | The older copy makes the same checks with the same errors, and it has no report URL. |
| MessageBirdRequests.ParamsForMessageList | vendor/github.com/messagebird/go-rest-api/sms/message.go:180-199 | Nil parameters give no values. Otherwise `offset` is always set, and `direction`, `originator` and `limit` are set only when non-zero. The type is never sent, and each key holds one value. |
| MessageBirdRequests.ListParamsRoundTrip | vendor/github.com/messagebird/go-rest-api/sms/message.go:180-199 | Reading the list values back gives every field except the type. |
| MessageBirdRequests.RequestDataForVoiceMessage | vendor/github.com/messagebird/go-rest-api/voicemessage/voice_message.go:99-125 | Recipients are checked first, then the body. The request keeps both. Without parameters nothing else is set, and with parameters the schedule is always formatted. |
| MessageBirdRequests.VoiceRequestKeepsParams | vendor/github.com/messagebird/go-rest-api/voicemessage/voice_message.go:116-122 | Every voice parameter given is carried by the request. |
| MessageBirdRequests.ZeroScheduleDiffers | vendor/github.com/messagebird/go-rest-api/voicemessage/voice_message.go:122 | An unset schedule is left empty in an SMS request but formatted as the zero time in a voice request. |
| MessageBirdRequests.ParamsForMmsMessage | vendor/github.com/messagebird/go-rest-api/mms_message.go:38-61 | With neither body nor media URLs the call fails with `Body or MediaUrls is required`. Otherwise each value is set exactly when it is present, the schedule only when after the epoch, and each key holds one value. |
| MessageBirdRequests.MmsMediaUrlsRoundTrip | vendor/github.com/messagebird/go-rest-api/mms_message.go:38-61 | The comma-joined media URLs split back into the list when no URL holds a comma. |
| MessageBirdRequests.RequestDataForVerify | vendor/github.com/messagebird/go-rest-api/verify.go:47-71 | An empty recipient is refused, and otherwise the recipient and parameters are copied. |
| MessageBirdRequests.RequestDataForHlr | vendor/github.com/messagebird/go-rest-api/hlr.go:38-52 | The MSISDN is checked before the reference, and both are copied. |
| MessageBirdRequests.RequestDataForLookup | vendor/github.com/messagebird/go-rest-api/lookup.go:35-46 | Nil parameters give an empty request, and otherwise the parameters are copied. |
| MessageBirdRequests.ParamsForLookup | vendor/github.com/messagebird/go-rest-api/lookup.go:48-63 | The country code and reference are set only when non-empty, nothing else is set, and each key holds one value. |
| MessageBirdRequests.LookupParamsAgree | vendor/github.com/messagebird/go-rest-api/lookup.go:35-63 | The lookup URL values read back as the request the same parameters build. |
| MessageBirdLegacy.Verb | vendor/src/github.com/messagebird/go-rest-api/client.go:48-71 | A call with values posts a form, and one without issues a GET. |
| MessageBirdLegacy.ClassifyResponse | vendor/src/github.com/messagebird/go-rest-api/client.go:95-110 | 500 is the unavailability error, checked before the body is decoded. A decode error is returned next. Then 200 and 201 succeed and every other status is `ErrResponse`. |
| MessageBirdLegacy.Wrap | vendor/src/github.com/messagebird/go-rest-api/client.go:161-173 | The public calls hand back the object on success and on `ErrResponse`, and nil on any other error. The error is passed on unchanged. |
| MessageBirdLegacy.DetailKey | vendor/src/github.com/messagebird/go-rest-api/message.go:66-70 | A type detail's key is `typeDetails[<name>]`, from which the name can be read back. |
| MessageBirdLegacy.DetailKeyInjective | vendor/src/github.com/messagebird/go-rest-api/message.go:66-70 | Different detail names give different keys. |
| MessageBirdLegacy.SetDetails | vendor/src/github.com/messagebird/go-rest-api/message.go:66-74 | The type-details loop fails with `Unknown type for typeDetails value` exactly when some value is neither a string nor an `int`. |
| GoMaps.ElemsCons | vendor/src/github.com/messagebird/go-rest-api/message.go:66 | The keys of a list are its first key and the keys of the rest. |
| MessageBirdLegacy.DetailValuesInsert | vendor/src/github.com/messagebird/go-rest-api/message.go:66-74 | One more detail adds exactly its own key, which no other detail has. |
| MessageBirdLegacy.SetUnderOverlay | vendor/src/github.com/messagebird/go-rest-api/message.go:66-74 | Setting a key beneath an overlay that does not mention it is the same as adding it to the overlay. |
| MessageBirdLegacy.OverlayStep | vendor/src/github.com/messagebird/go-rest-api/message.go:66-74 | Setting one more detail beneath the others adds it to the overlay. |
| MessageBirdLegacy.TailFacts | vendor/src/github.com/messagebird/go-rest-api/message.go:66 | The keys left after the first are distinct, encodable, and do not include the first. |
| MessageBirdLegacy.SetDetailsOverlay | vendor/src/github.com/messagebird/go-rest-api/message.go:66-74 | When every value encodes, the loop adds exactly one key per detail to the values it started from. |
| GoMaps.RepeatCounted | vendor/src/github.com/messagebird/go-rest-api/message.go:66 | A key listed twice is counted twice. |
| MessageBirdLegacy.SetDetailsOrderFree | vendor/src/github.com/messagebird/go-rest-api/message.go:66-74 | The type-details loop gives the same values, or the same error, whatever order Go ranges over the map in. |
| MessageBirdLegacy.MessageHead | vendor/src/github.com/messagebird/go-rest-api/message.go:50-64 | `type`, `reference`, `validity` and `gateway` are set exactly when non-zero, and `mclass` exactly for flash messages. |
| MessageBirdLegacy.ParamsForMessage | vendor/src/github.com/messagebird/go-rest-api/message.go:43-84 | Nil parameters give no values. A type detail that is neither a string nor an `int` fails. Otherwise every optional value is present exactly when it is set (the schedule when after the epoch), and every detail is under its own key. |
| MessageBirdLegacy.AssembledHead | vendor/src/github.com/messagebird/go-rest-api/message.go:50-64 | The first five values of the assembled form are present exactly when set. |
| MessageBirdLegacy.AssembledTail | vendor/src/github.com/messagebird/go-rest-api/message.go:76-81 | The data coding and the schedule of the assembled form are present exactly when set. |
| MessageBirdLegacy.AssembledDetails | vendor/src/github.com/messagebird/go-rest-api/message.go:66-74 | Every type detail of the assembled form is under its own key with its text. |
| MessageBirdLegacy.MessageTailKeeps | vendor/src/github.com/messagebird/go-rest-api/message.go:76-81 | The last two settings leave every other value alone. |
| MessageBirdLegacy.MessageTailAdds | vendor/src/github.com/messagebird/go-rest-api/message.go:76-81 | The last two settings add the data coding and the schedule exactly when set. |
| MessageBirdLegacy.FixedKeysAreNotDetails | vendor/src/github.com/messagebird/go-rest-api/message.go:50-81 | No detail key collides with a fixed parameter name. |
| MessageBirdLegacy.ParamsTail | vendor/src/github.com/messagebird/go-rest-api/message.go:50-74 | After the details, the fixed values are still there and none of the last two keys is. |
| MessageBirdLegacy.TailKeepsFixed | vendor/src/github.com/messagebird/go-rest-api/message.go:50-74 | Details whose keys avoid the fixed names leave each fixed name present exactly when it was, and add neither of the last two keys. |
| MessageBirdLegacy.TailDetails | vendor/src/github.com/messagebird/go-rest-api/message.go:50-74 | Whatever values the details are laid over, each type detail ends up under its own key with its own text. |
| MessageBirdLegacy.NewMessageParams | vendor/src/github.com/messagebird/go-rest-api/client.go:176-184 | `NewMessage` fails exactly when its parameters fail. Otherwise it adds the originator, the body and the comma-joined recipients. |
| MessageBirdLegacy.NewMessageRecipientsRoundTrip | vendor/src/github.com/messagebird/go-rest-api/client.go:184 | The recipients split back from their comma-joined value when none holds a comma. |
| MessageBirdLegacy.VoiceValuesKeys | vendor/src/github.com/messagebird/go-rest-api/voice_message.go:37-70 | Only the voice parameter names are ever set. |
| MessageBirdLegacy.VoiceValuesSingle | vendor/src/github.com/messagebird/go-rest-api/voice_message.go:37-70 | Each voice value is set once. |
| MessageBirdLegacy.VoiceValuesPresence | vendor/src/github.com/messagebird/go-rest-api/voice_message.go:59-67 | `repeat` is set exactly when above 1, and the schedule exactly when after the epoch. |
| MessageBirdLegacy.ParamsForVoiceMessage | vendor/src/github.com/messagebird/go-rest-api/voice_message.go:37-70 | Nil parameters give no values. Only voice names are set, each once, with `repeat` and the schedule present exactly as above. |
| MessageBirdLegacy.VoiceGetOriginator | vendor/src/github.com/messagebird/go-rest-api/voice_message.go:44-46 | The originator reads back. |
| MessageBirdLegacy.VoiceGetReference | vendor/src/github.com/messagebird/go-rest-api/voice_message.go:47-49 | The reference reads back. |
| MessageBirdLegacy.VoiceGetLanguage | vendor/src/github.com/messagebird/go-rest-api/voice_message.go:50-52 | The language reads back. |
| MessageBirdLegacy.VoiceGetVoice | vendor/src/github.com/messagebird/go-rest-api/voice_message.go:53-55 | The voice reads back. |
| MessageBirdLegacy.VoiceGetIfMachine | vendor/src/github.com/messagebird/go-rest-api/voice_message.go:62-64 | The machine-detection setting reads back. |
| MessageBirdLegacy.VoiceGetRepeat | vendor/src/github.com/messagebird/go-rest-api/voice_message.go:59-61 | A repeat above 1 reads back as its decimal text. |
| MessageBirdLegacy.VoiceParamsRoundTrip | vendor/src/github.com/messagebird/go-rest-api/voice_message.go:37-70 | The voice values read back as the parameters, and an absent repeat stands for 1. |
| MessageBirdLegacy.OtpValuesKeys | vendor/src/github.com/messagebird/go-rest-api/otp_message.go:31-63 | Only the seven one-time-password names are ever set. |
| MessageBirdLegacy.OtpValuesSingle | vendor/src/github.com/messagebird/go-rest-api/otp_message.go:31-63 | Each one-time-password value is set once. |
| MessageBirdLegacy.OtpValuesPresence | vendor/src/github.com/messagebird/go-rest-api/otp_message.go:44-49 | The type and template are set exactly when non-empty. |
| MessageBirdLegacy.ParamsForOtp | vendor/src/github.com/messagebird/go-rest-api/otp_message.go:31-63 | Nil parameters give no values. Each of the seven settings is set only when non-empty, and each at most once. |
| MessageBirdLegacy.OtpGetReference | vendor/src/github.com/messagebird/go-rest-api/otp_message.go:38-40 | The reference reads back. |
| MessageBirdLegacy.OtpGetOriginator | vendor/src/github.com/messagebird/go-rest-api/otp_message.go:41-43 | The originator reads back. |
| MessageBirdLegacy.OtpGetType | vendor/src/github.com/messagebird/go-rest-api/otp_message.go:44-46 | The type reads back. |
| MessageBirdLegacy.OtpGetLanguage | vendor/src/github.com/messagebird/go-rest-api/otp_message.go:56-58 | The language reads back. |
| MessageBirdLegacy.OtpGetVoice | vendor/src/github.com/messagebird/go-rest-api/otp_message.go:59-61 | The voice reads back. |
| MessageBirdLegacy.OtpGetTemplate | vendor/src/github.com/messagebird/go-rest-api/otp_message.go:47-49 | The template reads back. |
| MessageBirdLegacy.OtpGetDataCoding | vendor/src/github.com/messagebird/go-rest-api/otp_message.go:51-53 | The data coding reads back. |
| MessageBirdLegacy.OtpRoundTrip | vendor/src/github.com/messagebird/go-rest-api/otp_message.go:31-63 | The one-time-password values read back as the settings they were built from, and nil reads back as all empty. |
| BotKeyboard.NewKeyboard | vendor/github.com/mail-ru-im/bot-golang/keyboard.go:14-18 | A new keyboard has no rows, so no row index is valid in it. |
| BotKeyboard.RowsCount | vendor/github.com/mail-ru-im/bot-golang/keyboard.go:86-88 | The count is the number of rows the keyboard holds. |
| BotKeyboard.RowSize | vendor/github.com/mail-ru-im/bot-golang/keyboard.go:92-97 | The answer is -1 exactly when the row does not exist, and the row's button count otherwise. |
| BotKeyboard.AddRow | vendor/github.com/mail-ru-im/bot-golang/keyboard.go:21-23 | The keyboard gains one row, at the end, and the rows before it stay as they were. |
| BotKeyboard.AddButton | vendor/github.com/mail-ru-im/bot-golang/keyboard.go:26-33 | There is an error exactly when the row does not exist, and then the keyboard is unchanged. Otherwise the button is appended to that row, and every other row is unchanged. |
| BotKeyboard.DeleteRow | vendor/github.com/mail-ru-im/bot-golang/keyboard.go:36-43 | There is an error exactly when the row does not exist. Otherwise the keyboard has one row fewer: the rows before the index stay and the rows after it move up by one. |
| BotKeyboard.DeleteButton | vendor/github.com/mail-ru-im/bot-golang/keyboard.go:48-60 | A missing button gives the no-such-button error. Deleting the last button of a row gives the last-button error. Otherwise exactly that button is gone from its row, the remaining buttons keep their order, and every other row is unchanged. |
| BotKeyboard.ChangeButton | vendor/github.com/mail-ru-im/bot-golang/keyboard.go:63-70 | There is an error exactly when the button does not exist. Otherwise that one button is replaced, and every other button and every row length is unchanged. |
| BotKeyboard.SwapRows | vendor/github.com/mail-ru-im/bot-golang/keyboard.go:73-83 | The first index is checked before the second, each with its own message. On success the two rows trade places, every other row stays, and the rows are a permutation of the old ones. |
| BotKeyboard.SwapTwiceRestores | vendor/github.com/mail-ru-im/bot-golang/keyboard.go:73-83 | Swapping the same two rows twice gives back the original keyboard. |
| BotKeyboard.SwapSelfIsNoOp | vendor/github.com/mail-ru-im/bot-golang/keyboard.go:73-83 | Swapping a row with itself changes nothing. |
| BotKeyboard.DeleteAddedRow | vendor/github.com/mail-ru-im/bot-golang/keyboard.go:21-43 | Deleting the row just added gives back the original keyboard. |
| BotKeyboard.DeleteAddedButton | vendor/github.com/mail-ru-im/bot-golang/keyboard.go:26-60 | In a non-empty row, deleting the button just added gives back the original keyboard. |
| BotKeyboard.LoneButtonStays | vendor/github.com/mail-ru-im/bot-golang/keyboard.go:26-60 | A button added to an empty row is that row's last button, so deleting it is refused. |
| BotKeyboard.ChangeBackRestores | vendor/github.com/mail-ru-im/bot-golang/keyboard.go:63-70 | Putting the replaced button back gives back the original keyboard. |
| BotKeyboard.EditsKeepRowsNonEmpty | vendor/github.com/mail-ru-im/bot-golang/keyboard.go:21-83 | Every edit keeps a keyboard with no empty row free of empty rows. Adding a row needs that row to be non-empty. |
| BotChat.ResolveId | vendor/github.com/mail-ru-im/bot-golang/chat.go:59-66 | A private chat is addressed by the user's nick, and any other chat by its id. |
| BotChat.Target | vendor/github.com/mail-ru-im/bot-golang/chat.go:73-131 | Sending actions addresses the resolved id. Every other chat operation addresses the chat's plain id. |
| BotChat.TargetDiffersOnlyForPrivateActions | vendor/github.com/mail-ru-im/bot-golang/chat.go:59-131 | An operation addresses something other than the chat's id only when it sends actions to a private chat whose nick differs from its id. |
| BotUpdates.NewUpdater | vendor/github.com/mail-ru-im/bot-golang/updates.go:91-102 | A zero poll time becomes the 60-second default, and any other is kept. The event cursor starts at 0. |
| BotUpdates.GetLastEvents | vendor/github.com/mail-ru-im/bot-golang/updates.go:73-89 | A failed fetch is reported with the prefix "cannot get events: " and leaves the cursor alone, as does an empty batch. Otherwise the cursor moves to the id of the last event in the batch. |
| BotUpdates.CursorIsLastNotLargest | vendor/github.com/mail-ru-im/bot-golang/updates.go:83-86 | The cursor follows the order of the batch: it is the last event's id even when an earlier event has a larger id. |
| BotUpdates.NextPollAsksFromCursor | vendor/github.com/mail-ru-im/bot-golang/updates.go:73-86 | After a non-empty successful poll, the next poll asks for events after the last one received. |
| BotUpdates.NewMessageFromPayload | vendor/github.com/mail-ru-im/bot-golang/updates.go:28-36 | The message is addressed to a chat whose id is the sender's user id and whose title is the sender's first name. It carries the payload's id, text and timestamp. |
| BotUpdates.PayloadMessage | vendor/github.com/mail-ru-im/bot-golang/types.go:129-139 | The message carries the payload's id, text and timestamp, and is addressed to the event's own chat. |
| BotUpdates.PayloadMessagesDifferInChat | vendor/github.com/mail-ru-im/bot-golang/updates.go:28-36 | The two ways of making a message from a payload differ only in the chat: a reply to the first goes to the sender, and a reply to the second goes to the event's chat. |
| BotMessage.Fresh | vendor/github.com/mail-ru-im/bot-golang/bot.go:109-114 | A newly made message is bound to the bot's client and addressed to the given chat. It has no id, no file, no text and an unknown content type. |
| BotMessage.AttachNewFile | vendor/github.com/mail-ru-im/bot-golang/message.go:59-62 | The file is attached and the message becomes a file message. No other field changes. |
| BotMessage.AttachExistingFile | vendor/github.com/mail-ru-im/bot-golang/message.go:64-67 | The file id is set and the message becomes a file message. No other field changes. |
| BotMessage.AttachNewVoice | vendor/github.com/mail-ru-im/bot-golang/message.go:69-72 | The file is attached and the message becomes a voice message. No other field changes. |
| BotMessage.AttachExistingVoice | vendor/github.com/mail-ru-im/bot-golang/message.go:74-77 | The file id is set and the message becomes a voice message. No other field changes. |
| BotMessage.AttachInlineKeyboard | vendor/github.com/mail-ru-im/bot-golang/message.go:82-84 | The keyboard replaces any earlier one, and nothing else changes. |
| BotMessage.ExtShape | vendor/github.com/mail-ru-im/bot-golang/message.go:127 | The extension of a path is empty exactly when its last element has no dot. Otherwise it is the path's suffix that starts at the last dot and holds no other dot and no slash. |
| BotMessage.ExtOfName | vendor/github.com/mail-ru-im/bot-golang/voice.go:4-8 | A name that ends in a dot and a plain extension has that extension. |
| BotMessage.Route | vendor/github.com/mail-ru-im/bot-golang/message.go:97-137 | There is an operation exactly when the message has data for its type. A file id is sent by id, and an attached file without an id is uploaded. A text message, or an unknown message with only text, is sent as text. An unknown message is voice when its file id starts with "I" or its file has a voice extension. |
| BotMessage.Send | vendor/github.com/mail-ru-im/bot-golang/message.go:88-139 | The checks come in order: no client, then no chat id, then no data, each with its own error. Otherwise the message is sent with the operation that routing picks. |
| BotMessage.Act | vendor/github.com/mail-ru-im/bot-golang/message.go:143-205 | Each of edit, delete, reply, forward, pin and unpin fails exactly when the message has no id, with an error naming the action. A reply sends the new text and names the replied message. A forward goes to the new chat and names the original chat and message. |
| BotMessage.FileIdWins | vendor/github.com/mail-ru-im/bot-golang/message.go:97-113 | A message given an uploaded file's id is sent by that id, as voice or as file according to how it was attached. |
| BotMessage.NewVoiceIsUploaded | vendor/github.com/mail-ru-im/bot-golang/message.go:97-113 | A message without a file id that is given a new file uploads it, as voice or as file according to how it was attached. |
| BotMessage.OggIsVoice | vendor/github.com/mail-ru-im/bot-golang/message.go:116-135 | An unknown message with an ".ogg" file and no file id is uploaded as voice. |
| BotClient.RequestFor | vendor/github.com/mail-ru-im/bot-golang/client.go:25-27 | The request goes to the base URL plus the path. The token is always a parameter, and every other parameter is passed on unchanged. |
| BotClient.Do | vendor/github.com/mail-ru-im/bot-golang/client.go:25-105 | A URL that does not parse, a transport failure, an unreadable body, undecodable JSON and a not-ok status each give their own error message. The call succeeds exactly when the API answers ok, and then the body is returned. |
| BotClient.GetInfo | vendor/github.com/mail-ru-im/bot-golang/client.go:107-119 | A failed call and a failed decode each give their own error prefix. Otherwise the result is the decoded information. |
| BotClient.FormatBool | vendor/github.com/mail-ru-im/bot-golang/client.go:269-284 | The text is "true" exactly for true and "false" exactly for false. |
| BotClient.FirstOccurrences | vendor/github.com/mail-ru-im/bot-golang/client.go:145-152 | The filtered actions have no repeats and hold exactly the actions given. |
| BotClient.FirstOccurrencesInOrder | vendor/github.com/mail-ru-im/bot-golang/client.go:145-152 | The filtered actions keep the order of their first occurrences. |
| BotClient.FirstOccurrencesOfDistinct | vendor/github.com/mail-ru-im/bot-golang/client.go:145-152 | A list without repeats passes through the filter unchanged. |
| BotClient.FirstOccurrencesIdempotent | vendor/github.com/mail-ru-im/bot-golang/client.go:145-152 | Filtering twice is the same as filtering once. |
| BotClient.FilterActions | vendor/github.com/mail-ru-im/bot-golang/client.go:145-152 | The loop with its map of seen actions computes the first occurrences, so the result has no repeats and holds exactly the actions given. |
| BotClient.ChatActionsCall | vendor/github.com/mail-ru-im/bot-golang/client.go:144-162 | The call has exactly the chat id and the actions as parameters, and the actions are free of repeats with none lost. |
| BotClient.ChatPendingCall | vendor/github.com/mail-ru-im/bot-golang/client.go:269-284 | The call always carries the chat id and the approval flag. It names either the user or "everyone", never both, so it has exactly three parameters. |
| BotClient.ChatCall | vendor/github.com/mail-ru-im/bot-golang/client.go:121-320 | Every chat operation's call carries the chat id it is given. Resolving join requests goes through the pending-requests call. |
| BotClient.ChatRequest | vendor/github.com/mail-ru-im/bot-golang/chat.go:73-131 | A chat operation's call is addressed to the nick for a private chat's actions, and to the chat id otherwise. |
| BotClient.PrivateChatAddressing | vendor/github.com/mail-ru-im/bot-golang/chat.go:59-131 | For a private chat, actions go to the user's nick and every other operation goes to the chat id. |
| BotClient.FileInfoCall | vendor/github.com/mail-ru-im/bot-golang/client.go:322-337 | The call names the file id and nothing else. |
| BotClient.GetFileInfo | vendor/github.com/mail-ru-im/bot-golang/client.go:322-337 | A failed call gives the error with its prefix. A result is only returned after a successful call. |
| BotClient.GetVoiceInfo | vendor/github.com/mail-ru-im/bot-golang/client.go:339-341 | Asking about a voice file is the same as asking about any file. |
| BotClient.EventsCall | vendor/github.com/mail-ru-im/bot-golang/client.go:548-552 | The call carries the cursor and the poll time as decimal text, and nothing else. |
| BotClient.EventsCallNamesCursor | vendor/github.com/mail-ru-im/bot-golang/client.go:548-552 | Two different cursors always give two different calls. |
| BotClient.GetEvents | vendor/github.com/mail-ru-im/bot-golang/client.go:548-565 | Events come back only from a successful call whose body decodes, and then they are the decoded events. A failure gives no events. |
| BotClient.WithThread | vendor/github.com/mail-ru-im/bot-golang/client.go:349-356 | The reply id is added only when set. The forward id and chat are added only when a forward id is set. Every other parameter is kept. |
| BotClient.OpParams | vendor/github.com/mail-ru-im/bot-golang/client.go:343-591 | Before the keyboard, a message operation's parameters carry the chat id, carry reply and forward ids only for the operations that pass them on and only when set, and never carry a keyboard or the token. |
| BotClient.MessageCall | vendor/github.com/mail-ru-im/bot-golang/client.go:343-591 | The call fails exactly when a keyboard is to be sent and cannot be marshalled. Otherwise the call goes to the operation's path and carries the chat id. It uploads the attached file only for uploads. It has reply and forward ids only for the operations that pass them on, and a keyboard only when there is one. |
| BotClient.Deliver | vendor/github.com/mail-ru-im/bot-golang/client.go:343-591 | A marshalling failure or a failed call is reported with the operation's own prefix. The operations that read the answer back update the message from it, or report a decoding error. The others succeed with the message unchanged. |
| BotClient.ReplyCarriesReplyId | vendor/github.com/mail-ru-im/bot-golang/message.go:162-171 | A reply is sent to the same chat, with the new text and the replied message's id. |
| BotClient.ForwardNamesOrigin | vendor/github.com/mail-ru-im/bot-golang/message.go:175-185 | A forward is sent to the new chat and names the original chat and message. A reply id is passed on only when the message has one. |
| BotClient.AnswerCallbackCall | vendor/github.com/mail-ru-im/bot-golang/client.go:593-607 | The call has exactly the query id, text, URL and alert flag as parameters. |
| Bot.Apply | vendor/github.com/mail-ru-im/bot-golang/bot.go:240-247 | An "api_url" option sets the URL and a "debug" option sets the flag. Other options are ignored. A value of the wrong type is a failed type assertion, which panics. |
| Bot.FoldSnoc | vendor/github.com/mail-ru-im/bot-golang/bot.go:240-247 | Handling one more option is applying it to the result of handling the ones before. |
| Bot.FoldIsLastWins | vendor/github.com/mail-ru-im/bot-golang/bot.go:239-247 | With well-typed options, the settings are the last URL and the last debug flag given, falling back to the defaults. |
| Bot.NoOptionsMeansDefaults | vendor/github.com/mail-ru-im/bot-golang/bot.go:17-18 | Without options the bot uses "https://api.icq.net/bot/v1" with debugging off. |
| Bot.LaterUrlWins | vendor/github.com/mail-ru-im/bot-golang/bot.go:240-247 | A later URL option overrides an earlier one. |
| Bot.NewBot | vendor/github.com/mail-ru-im/bot-golang/bot.go:232-267 | A mistyped option panics. A failed information call is refused with the prefix "cannot get info about bot: ". Otherwise the bot holds the token, the information and an updater with the default poll time. |
| Bot.NewBotUsesLastUrl | vendor/github.com/mail-ru-im/bot-golang/bot.go:239-253 | A bot made with well-typed options talks to the last URL given, or to the default one, and likewise for the debug flag. |
| Bot.NewMessage | vendor/github.com/mail-ru-im/bot-golang/bot.go:109-114 | The message is addressed to the chat, bound to the client, and empty. |
| Bot.NewTextMessage | vendor/github.com/mail-ru-im/bot-golang/bot.go:117-124 | The message is a text message with the text, and otherwise the same as a new message. |
| Bot.NewInlineKeyboardMessage | vendor/github.com/mail-ru-im/bot-golang/bot.go:127-135 | The message is a text message with the keyboard attached. |
| Bot.NewFileMessage | vendor/github.com/mail-ru-im/bot-golang/bot.go:138-145 | The message is a new message with the file attached. |
| Bot.NewFileMessageByFileId | vendor/github.com/mail-ru-im/bot-golang/bot.go:148-155 | The message is a new message with the file id attached. |
| Bot.NewVoiceMessage | vendor/github.com/mail-ru-im/bot-golang/bot.go:158-165 | The message is a new message with the voice file attached. |
| Bot.NewVoiceMessageByFileId | vendor/github.com/mail-ru-im/bot-golang/bot.go:168-175 | The message is a new message with the voice file id attached. |
| Bot.ConstructorsRoute | vendor/github.com/mail-ru-im/bot-golang/bot.go:109-175 | Every constructor's message is sent with the operation its name promises, and an empty message is refused for lack of data. |
| Bot.NewMessageFromPart | vendor/github.com/mail-ru-im/bot-golang/bot.go:178-186 | The message is addressed to the quoted message's author and carries the quoted id, text and timestamp. |
| Bot.ReplyToPartGoesToAuthor | vendor/github.com/mail-ru-im/bot-golang/bot.go:178-186 | A reply to a quoted message goes to its author and names the quoted message. |
| Bot.SendMessage | vendor/github.com/mail-ru-im/bot-golang/bot.go:208-211 | The message is bound to the bot's client first, so it is never refused for lack of a client. After that it is sent like any bound message. |
| NexmoClient.NewClientFromApi | vendor/gopkg.in/njern/gonexmo.v1/client.go:23-42 | A client is made exactly when both key and secret are non-empty. The key is checked first, each with its own error. The client keeps both as given, with OAuth off. |
| NexmoClient.Credentials | vendor/src/gopkg.in/njern/gonexmo.v1/sms.go:199-202 | Without OAuth a request carries the client's key and secret. With OAuth it carries empty ones. |
| NexmoClient.NewClientInjectsCredentials | vendor/gopkg.in/njern/gonexmo.v1/client.go:23-42 | A client made from a key and secret always hands those same, non-empty credentials to its requests. |
| NexmoClient.ByteLength | vendor/gopkg.in/njern/gonexmo.v1/ussd.go:42 | The length is the size of the UTF-8 encoding (Utf8.Encode). It lies between one and four bytes per character, and is zero only for the empty text. |
| NexmoClient.AsciiByteLength | vendor/src/gopkg.in/njern/gonexmo.v1/sms.go:177 | For ASCII text the byte length is the character count. |
| NexmoSms.MessageClassName | vendor/src/gopkg.in/njern/gonexmo.v1/sms.go:52-61 | A class has a non-empty name exactly when it is one of flash, standard, SIM data and forward. |
| NexmoSms.MessageClassNamesDistinct | vendor/src/gopkg.in/njern/gonexmo.v1/sms.go:52-57 | Different classes have different names. |
| NexmoSms.ResponseCodeName | vendor/src/gopkg.in/njern/gonexmo.v1/sms.go:99-145 | A code has a non-empty name exactly when it lies between 0 and 17, and 0 is "Success". |
| NexmoSms.ResponseCodeNamesDistinct | vendor/src/gopkg.in/njern/gonexmo.v1/sms.go:126-145 | Different codes have different names. |
| NexmoSms.CodeOfNameInverts | vendor/src/gopkg.in/njern/gonexmo.v1/sms.go:126-145 | The name of every code from 0 to 17 identifies that code. |
| NexmoSms.Validate | vendor/src/gopkg.in/njern/gonexmo.v1/sms.go:168-198 | A message passes exactly when it has a sender, a recipient and a reference of at most 40 bytes, plus what its type needs. Unicode needs text, binary needs header and body, and WAP push needs URL and title. Sender, recipient and reference are checked in that order, each with its own error. |
| NexmoSms.EmptyTextIsNotChecked | vendor/src/gopkg.in/njern/gonexmo.v1/sms.go:183-188 | A text message with no text passes the checks, while a unicode one with no text is refused. |
| NexmoSms.FieldName | vendor/src/gopkg.in/njern/gonexmo.v1/sms.go:78-96 | With the corrected tag the vCard is sent under "vcard", the member name the API reads. |
| NexmoSms.FieldNameAsWritten | vendor/src/gopkg.in/njern/gonexmo.v1/sms.go:78-96 | Every field except the vCard has its corrected name. |
| NexmoSms.VCardIsMisnamed | vendor/src/gopkg.in/njern/gonexmo.v1/sms.go:85 | As written, no field is sent under "vcard", so the API never receives the vCard. |
| NexmoSms.Object | vendor/src/gopkg.in/njern/gonexmo.v1/sms.go:62-97 | The posted object always has the credentials, sender, recipient and type, each with its own value. |
| NexmoSms.ObjectOptionalTexts | vendor/src/gopkg.in/njern/gonexmo.v1/sms.go:62-97 | The text and the vCard are members exactly when they are not empty, each with its own value. |
| NexmoSms.ObjectOptionalFields | vendor/src/gopkg.in/njern/gonexmo.v1/sms.go:62-97 | The client reference, the message class, the body and the URL are members exactly when they are not zero, each with its own value. |
| NexmoSms.FlashClassIsOmitted | vendor/src/gopkg.in/njern/gonexmo.v1/sms.go:33 | A flash message is sent with no class at all, because the flash class is the zero value and is omitted. |
| NexmoSms.SmsRequest | vendor/src/gopkg.in/njern/gonexmo.v1/sms.go:199-213 | The request fails exactly when the checks do, with the check's error. Otherwise it posts the JSON object with the client's credentials to the SMS path on the REST host. |
| NexmoSms.Send | vendor/src/gopkg.in/njern/gonexmo.v1/sms.go:168-229 | A failed check returns its error and nothing is sent. A transport error is returned as it is, with or without a closed response. Otherwise the answer is decoded. |
| NexmoSms.SendCarriesCredentials | vendor/src/gopkg.in/njern/gonexmo.v1/sms.go:199-202 | Without OAuth the posted object carries the client's own key and secret. |
| NexmoUssd.Validate | vendor/gopkg.in/njern/gonexmo.v1/ussd.go:33-52 | A message passes exactly when it has a sender, a recipient, a reference of at most 40 bytes, and text. The checks run in that order, each with its own error. |
| NexmoUssd.Form | vendor/gopkg.in/njern/gonexmo.v1/ussd.go:48-81 | The form always has the text, the recipient and the sender. It has the credentials exactly without OAuth, the report flag "1" exactly when a report is asked for, and the reference and network code exactly when they are set. Each parameter has one value. |
| NexmoUssd.ParamName | vendor/gopkg.in/njern/gonexmo.v1/ussd.go:54-81 | Every parameter name is at least two characters long. |
| NexmoUssd.Endpoint | vendor/gopkg.in/njern/gonexmo.v1/ussd.go:74-79 | A prompt goes to the prompt endpoint and a push to the plain one. |
| NexmoUssd.UssdRequest | vendor/gopkg.in/njern/gonexmo.v1/ussd.go:33-88 | The request fails exactly when the checks do, with the check's error. Otherwise it posts the form to the message's endpoint. |
| NexmoUssd.SendAsWritten | vendor/gopkg.in/njern/gonexmo.v1/ussd.go:90-95 | A valid message panics exactly when the HTTP client fails with no response, because the response is closed before the error is checked. An error that comes with a closed response, such as the redirect limit, is returned as it is. |
| NexmoUssd.Send | vendor/gopkg.in/njern/gonexmo.v1/ussd.go:33-104 | A failed check returns its error. A transport error is returned as it is, with or without a closed response, as in the SMS service. Otherwise the answer is decoded. |
| NexmoUssd.SendMatchesAsWrittenUnlessNoResponse | vendor/gopkg.in/njern/gonexmo.v1/ussd.go:90-104 | The written and the corrected send agree exactly when the check fails or the HTTP client returns a response, closed or not. |
| NexmoUssd.RedirectFailureReturnsError | vendor/gopkg.in/njern/gonexmo.v1/ussd.go:90-95 | A valid message whose call stops after 10 redirects, with the response closed, returns that error as written and when corrected. |
| NexmoUssd.NilResponsePanics | vendor/gopkg.in/njern/gonexmo.v1/ussd.go:90-95 | A valid message sent while the HTTP client is down panics as written, and returns the client's error when corrected. |
| NexmoVerify.FieldName | vendor/gopkg.in/njern/gonexmo.v1/verify.go:18-43 | The credentials are sent as "api_key" and "api_secret", and only those two fields have these names. |
| NexmoVerify.VerifyObject | vendor/gopkg.in/njern/gonexmo.v1/verify.go:18-43 | The object always has the credentials, number and brand. Sender id, country, language, code length, PIN expiry and next-event wait are present exactly when not zero. No check or search field appears. |
| NexmoVerify.CheckObject | vendor/gopkg.in/njern/gonexmo.v1/verify.go:105-123 | The object has exactly the credentials, request id and code, plus the IP address when one is set. |
| NexmoVerify.SearchObject | vendor/gopkg.in/njern/gonexmo.v1/verify.go:185-201 | The object has exactly the credentials, plus the request id when one is set. |
| NexmoVerify.Post | vendor/gopkg.in/njern/gonexmo.v1/verify.go:86-101 | The HTTP client's error, with or without a closed response, then an error reading the body, is returned as it is. Otherwise the body is decoded. |
| NexmoVerify.Send | vendor/gopkg.in/njern/gonexmo.v1/verify.go:56-103 | An empty number, then an empty brand, is refused with its own error. Otherwise the object is posted to the verify path on the v2 host. |
| NexmoVerify.Check | vendor/gopkg.in/njern/gonexmo.v1/verify.go:136-183 | An empty request id, then an empty code, is refused with its own error. Otherwise the object is posted to the check path on the v2 host. |
| NexmoVerify.Search | vendor/gopkg.in/njern/gonexmo.v1/verify.go:228-267 | No field is checked. The object is posted to the search path on the v2 host. |
| NexmoVerify.FailedChecksSendNothing | vendor/gopkg.in/njern/gonexmo.v1/verify.go:56-63 | A send or check that fails its field checks gives the same result whatever the HTTP client would answer. |
| NexmoVerify.CredentialsInjected | vendor/gopkg.in/njern/gonexmo.v1/verify.go:67-70 | Without OAuth every request object carries the client's own key and secret. |
| NexmoServer.TypeName | vendor/src/gopkg.in/njern/gonexmo.v1/server.go:25-36 | Types 1, 2 and 3 are named "text", "unicode" and "binary". Any other type is "undefined". |
| NexmoServer.ParseTypeAsWritten | vendor/src/gopkg.in/njern/gonexmo.v1/server.go:19-23 | The map as written knows exactly the keys "text", "unicdoe" and "binary". |
| NexmoServer.UnicodeNameIsNotAKey | vendor/src/gopkg.in/njern/gonexmo.v1/server.go:19-29 | The name that String gives the unicode type is not a key of the map as written, so going there and back gives "undefined". |
| NexmoServer.ParseType | vendor/src/gopkg.in/njern/gonexmo.v1/server.go:19-23 | The corrected map knows exactly "text", "unicode" and "binary". |
| NexmoServer.ParseTypeRoundTrip | vendor/src/gopkg.in/njern/gonexmo.v1/server.go:19-36 | The corrected map and String are inverses on the three types and their names. |
| NexmoServer.DecodeContent | vendor/src/gopkg.in/njern/gonexmo.v1/server.go:197-235 | Text and unicode decode the text. Binary decodes data and header. Any other type fails, and so does any field that does not decode. The type found is named by the form's type. |
| NexmoServer.DecodeConcat | vendor/src/gopkg.in/njern/gonexmo.v1/server.go:261-274 | The concatenation fields are read only when "concat" is "true". The total and the part must then parse as integers, and the reference is taken as it is. |
| NexmoServer.HandleMessage | vendor/src/gopkg.in/njern/gonexmo.v1/server.go:174-280 | A request from an untrusted source, when checking is on, is a 500. An empty query is ignored. A message is passed on exactly when the content, timestamp and concatenation fields all decode, and then it carries those fields and the form's plain fields. |
| NexmoServer.ReceivedTypeRoundTrips | vendor/src/gopkg.in/njern/gonexmo.v1/server.go:197-235 | Every message passed on has a type whose name is the form's type, and the corrected map gives that type back. The handler never reads the name-to-type map; were it to, the map as written would give back every type except unicode. |
| NexmoServer.UnknownTypeRefused | vendor/src/gopkg.in/njern/gonexmo.v1/server.go:231-234 | A request with a type other than text, unicode or binary is a 500, whatever else it holds. |
| NexmoServer.AddressIgnoredWithoutCheck | vendor/src/gopkg.in/njern/gonexmo.v1/server.go:176-183 | With checking off, the peer address plays no part in the outcome. |
| NexmoIp.ParseOctet | vendor/src/gopkg.in/njern/gonexmo.v1/ip.go:26 | A field parses exactly when it is a non-empty run of digits with no leading zero and a value of at most 255. |
| NexmoIp.ParseIPv4 | vendor/src/gopkg.in/njern/gonexmo.v1/ip.go:26 | A parsed address is below 2 to the 32 and its text has exactly three dots. |
| NexmoIp.ParseQuad | vendor/src/gopkg.in/njern/gonexmo.v1/ip.go:26 | Parsing the text of a dotted quad gives back its address. |
| NexmoIp.ContainsRange | vendor/src/gopkg.in/njern/gonexmo.v1/ip.go:28-29 | A block whose base is its network address contains exactly the addresses from its base up to base plus size. |
| NexmoIp.IsTrustedIP | vendor/src/gopkg.in/njern/gonexmo.v1/ip.go:25-34 | Only a text that parses as an address is trusted. |
| NexmoIp.TrustedIffSomeBlock | vendor/src/gopkg.in/njern/gonexmo.v1/ip.go:25-34 | A text is trusted exactly when it is an address that one of the four blocks contains. |
| NexmoIp.InSomeBlockAny | vendor/src/gopkg.in/njern/gonexmo.v1/ip.go:28-32 | The scan from a position finds a block exactly when some block at or after it contains the address. |
| NexmoIp.BlocksAligned | vendor/src/gopkg.in/njern/gonexmo.v1/ip.go:6-11 | Every listed block is its own network address, with sizes 8, 16, 16 and 16. |
| NexmoIp.TrustedRanges | vendor/src/gopkg.in/njern/gonexmo.v1/ip.go:6-34 | The dotted quads trusted are exactly 174.37.245.32 to .39, 174.36.197.192 to .207, 173.193.199.16 to .31 and 119.81.44.0 to .15. |
| NexmoIp.QuadVerdict | vendor/src/gopkg.in/njern/gonexmo.v1/ip.go:6-34 | Any text equal to a quad's text gets the verdict of the four ranges. |
| NexmoIp.TableExamples | vendor/src/gopkg.in/njern/gonexmo.v1/ip_test.go:5-15 | One address from each block is trusted, and the two outside addresses are not. |
| NexmoIp.Example1 | vendor/src/gopkg.in/njern/gonexmo.v1/ip_test.go:9 | "174.37.245.33" is trusted. |
| NexmoIp.Example2 | vendor/src/gopkg.in/njern/gonexmo.v1/ip_test.go:10 | "174.36.197.193" is trusted. |
| NexmoIp.Example3 | vendor/src/gopkg.in/njern/gonexmo.v1/ip_test.go:11 | "173.193.199.17" is trusted. |
| NexmoIp.Example4 | vendor/src/gopkg.in/njern/gonexmo.v1/ip_test.go:12 | "119.81.44.1" is trusted. |
| NexmoIp.Example5 | vendor/src/gopkg.in/njern/gonexmo.v1/ip_test.go:13 | "50.0.2.241" is not trusted. |
| NexmoIp.Example6 | vendor/src/gopkg.in/njern/gonexmo.v1/ip_test.go:14 | "17.178.96.59" is not trusted. |
| Sms77Api.New | vendor/github.com/sms77io/go-client/sms77api/sms77api.go:88-110 | An empty sender name becomes "go-client" and any other is kept. The key and the debug flag are kept, so the sender name is never empty. |
| Sms77Api.ListKey | vendor/github.com/sms77io/go-client/sms77api/sms77api.go:143-144 | A list element's field is sent under the list name, the element's number and the field name, in brackets. |
| Sms77Api.ItemPairs | vendor/github.com/sms77io/go-client/sms77api/sms77api.go:142-145 | Each field of an element becomes one entry under its bracketed name, with its value. |
| Sms77Api.ListPairs | vendor/github.com/sms77io/go-client/sms77api/sms77api.go:141-146 | Every entry of a list value is named under the list's name followed by a bracket. |
| Sms77Api.ListPairsHas | vendor/github.com/sms77io/go-client/sms77api/sms77api.go:141-146 | Every field of every element of a list is sent. |
| Sms77Api.ListPairsOnly | vendor/github.com/sms77io/go-client/sms77api/sms77api.go:141-146 | Nothing but the fields of the list's elements is sent. |
| Sms77Api.ListPairsMembership | vendor/github.com/sms77io/go-client/sms77api/sms77api.go:141-146 | An entry is sent for a list exactly when it is a field of some element, under that element's number. |
| Sms77Api.Pairs | vendor/github.com/sms77io/go-client/sms77api/sms77api.go:129-151 | A nil value sends nothing. A boolean sends "1" or "0". A list sends its elements' fields. Any other value sends its printed text under the parameter's name. |
| Sms77Api.PayloadMembership | vendor/github.com/sms77io/go-client/sms77api/sms77api.go:124-152 | An entry is in the payload exactly when one of the parameters visited adds it. |
| Sms77Api.PayloadOrderFree | vendor/github.com/sms77io/go-client/sms77api/sms77api.go:124-152 | Whatever order the map is visited in, the payload holds exactly the entries of the map's parameters. |
| Sms77Api.BuildRequest | vendor/github.com/sms77io/go-client/sms77api/sms77api.go:157-192 | A GET puts the payload in the query, when there is one, and has no body. A POST puts it in a form-encoded body. Both carry the key as basic authorization and the sender name header. |
| Sms77Api.Fetch | vendor/github.com/sms77io/go-client/sms77api/sms77api.go:194-225 | A method other than GET or POST is refused, and then a missing key. A failed call gives error #2 and an unreadable body gives error #3. Otherwise the answer is the body with the surrounding white space trimmed. |
| Sms77Api.PickMapByKey | vendor/github.com/sms77io/go-client/sms77api/util.go:8-18 | A pair is found exactly when the needle equals one of the map's keys as reflected values, and then it holds the needle and that key's value. |
| Sms77Api.CodeTable | vendor/github.com/sms77io/go-client/sms77api/sms77api.go:69-86 | Every key of the status table has the status-code type. |
| Sms77Api.StringNeverPicked | vendor/github.com/sms77io/go-client/sms77api/util.go:12 | A plain string is never equal to a reflected key, so no string needle is ever found. |
| Sms77Api.CheckStatusAsWritten | vendor/github.com/sms77io/go-client/sms77api/sms77api.go:231-240 | As written, any answer that comes back is returned as the result. |
| Sms77Api.StatusBranchIsDead | vendor/github.com/sms77io/go-client/sms77api/sms77api.go:233-238 | As written, the status-code lookup never finds anything, so every answer passes. |
| Sms77Api.CheckStatus | vendor/github.com/sms77io/go-client/sms77api/sms77api.go:231-240 | Corrected, an answer of two or three characters that is a known status code becomes an error naming the code and its meaning. Any other answer is the result. |
| Sms77Api.RequestAsWritten | vendor/github.com/sms77io/go-client/sms77api/sms77api.go:120-241 | As written, a request gives exactly what the fetch gives. |
| Sms77Api.Request | vendor/github.com/sms77io/go-client/sms77api/sms77api.go:120-241 | Corrected, a failed fetch keeps its error, and a successful one goes through the status check. |
| Sms77Api.AuthenticationFailureAccepted | vendor/github.com/sms77io/go-client/sms77api/sms77api.go:64 | The authentication failure "900" is accepted as a result as written, and is reported as "900: ErrorAuthentication" when corrected. |
| Sms77Api.AuthenticationFailureRefused | vendor/github.com/sms77io/go-client/sms77api/sms77api.go:64 | With the corrected lookup, the answer "900" becomes the error "900: ErrorAuthentication". |
| Sms77Api.MakeStatus | vendor/github.com/sms77io/go-client/sms77api/status.go:19-38 | No answer, and then the invalid-message-id code "901", is refused with its own error. Otherwise a status is made exactly when the answer has two lines, and it holds the code and the time, which joined by a newline give the answer back. |
| Sms77Api.MakeStatusRoundTrip | vendor/github.com/sms77io/go-client/sms77api/status.go:28-37 | A code and a time, each on one line, are read back from the two-line answer. |
| Sms77Api.InArray | vendor/github.com/sms77io/go-client/sms77api/util.go:20-31 | The result is true exactly when some element equals the needle, dynamic type included. |
| Sms77Api.ToUint | vendor/github.com/sms77io/go-client/sms77api/util.go:33-41 | The result is the decimal value when it parses at the bit size, and 0 otherwise. |
| Sms77Api.ToUintRoundTrip | vendor/github.com/sms77io/go-client/sms77api/util.go:33-41 | The decimal text of a number that fits in the bit size reads back as that number. Text that does not parse gives 0. |
| Text.Join | cmd/sachet/handlers.go:47 | The joined text is empty for no parts and starts with the first part. |
| Text.JoinCons | cmd/sachet/handlers.go:47 | A part joined in front of a non-empty list is followed by the separator and the join of the list. |
| Text.JoinSnoc | cmd/sachet/handlers.go:47 | Joining two or more parts is joining all but the last, the separator, and the last. |
| Text.Split | provider/pushbullet/pushbullet.go:40 | Splitting gives one more piece than there are separators, no piece holds the separator, and joining the pieces with it gives the text back. |
| Text.SplitJoin | provider/pushbullet/pushbullet.go:40 | Splitting a join of separator-free parts gives the parts back. |
| Text.JoinInjective | cmd/sachet/handlers.go:47 | Two lists of separator-free parts with the same join are equal. |
| Text.ReplaceAll | provider/sap/sap.go:38 | No replaced character is left when the replacement lacks it. |
| Text.ReplaceAllLength | provider/sap/sap.go:38 | The length grows by the replacement's extra length once per occurrence of the character. |
| Text.ReplaceAllUnchanged | provider/sap/sap.go:38 | A text without the character is left as it is. |
| Text.ReplaceAllIsSplitJoin | provider/sfr/sfr.go:66 | Replacing every occurrence of a character is splitting at it and joining with the replacement. |
| Text.ToUpper | cmd/sachet/handlers.go:47 | The result has the same length, no lower-case ASCII letter, and every other character unchanged. |
| Text.ToUpperIdempotent | cmd/sachet/handlers.go:47 | Upper-casing twice is upper-casing once. |
| Text.TrimSpace | vendor/github.com/sms77io/go-client/sms77api/sms77api.go:225 | The result is a slice of the text with only white space cut from either end, and it neither starts nor ends with white space. |
| Text.TrimSpaceUnpadded | vendor/github.com/sms77io/go-client/sms77api/sms77api.go:225 | A text with no white space at either end is left as it is. |
| Utf8.EncodeChar | provider/tencentcloud/tencentcloud.go:50-54 | A character takes one to four bytes, as its code point requires. The first byte never continues a character and every later byte does, and an ASCII character is its own code. |
| Utf8.Encode | provider/tencentcloud/tencentcloud.go:50-54 | The bytes of a string number between one and four per character, and there are none exactly for the empty string. |
| Utf8.EncodeAppend | provider/tencentcloud/tencentcloud.go:54 | Encoding a concatenation concatenates the encodings. |
| Utf8.AsciiEncode | provider/tencentcloud/tencentcloud.go:50 | ASCII text takes one byte per character, each byte the character's code. |
| Utf8.AsciiPrefix | provider/tencentcloud/tencentcloud.go:54 | For ASCII text, the first n bytes are the encoding of the first n characters. |
| Utf8.EncodeRun | provider/tencentcloud/tencentcloud.go:50 | A run of n copies of one character takes n times that character's width in bytes. |
| Decimal.FormatNat | cmd/sachet/main.go:213 | The text is one or more digits with no leading zero, and it denotes the number. |
| Decimal.FormatInt | cmd/sachet/main.go:213 | The text starts with a minus sign exactly for negative numbers and is otherwise all digits. |
| Decimal.FormatIntInjective | cmd/sachet/main.go:213 | Different numbers have different decimal texts. |
| Decimal.ParseUint | vendor/github.com/sms77io/go-client/sms77api/util.go:34 | A parse succeeds only for non-empty text and a bit size of at most 64, and the value then fits in the bit size. |
| Decimal.ParseUintFormat | vendor/github.com/sms77io/go-client/sms77api/util.go:34 | Every number that fits in the bit size reads back from its decimal text. |
| Decimal.Atoi | vendor/src/gopkg.in/njern/gonexmo.v1/server.go:264 | A parsed value fits in 64 bits and comes from text that starts with a digit or a sign, with a minus sign for negative values. |
| Decimal.AtoiFormatInt | vendor/src/gopkg.in/njern/gonexmo.v1/server.go:264-269 | Every 64-bit number reads back from its decimal text. |
| Sorting.Insert | cmd/sachet/handlers.go:46 | Inserting into an ordered list keeps it ordered and adds exactly that one element. |
| Sorting.Sort | cmd/sachet/handlers.go:46 | The result is ordered and is a permutation of the input. |
| Sorting.SortedUnique | cmd/sachet/handlers.go:46 | Two ordered arrangements of the same strings are the same sequence. |
| Sorting.SortIgnoresOrder | cmd/sachet/handlers.go:43-46 | Sorting gives the same result whatever order the input arrives in. |
| Sorting.SortOfSorted | cmd/sachet/handlers.go:46 | Sorting an ordered list leaves it as it is. |
| JsonText.Escape | cmd/sachet/main.go:195-210 | A text made only of plain characters is written as it is, and escaping never shortens a text. |
| JsonText.ReadEscape | cmd/sachet/main.go:195-210 | Reading back an escaped text and its closing quote gives the text and whatever follows. |
| JsonText.EscapeIsInjective | cmd/sachet/main.go:195-210 | Different texts have different escaped forms. |
| UrlValues.Set | vendor/src/github.com/messagebird/go-rest-api/message.go:44-84 | Setting a key gives it exactly that one value, adds no other key, and leaves every other key untouched. |
| UrlValues.Get | vendor/src/gopkg.in/njern/gonexmo.v1/server.go:237-242 | A missing key reads as the empty text, and a present key reads as its first value. |
| UrlValues.SetIf | vendor/src/github.com/messagebird/go-rest-api/message.go:59-81 | A conditional set is a set when the condition holds, and changes nothing otherwise. |
| UrlValues.GetSet | vendor/src/github.com/messagebird/go-rest-api/message.go:44-84 | Reading a key right after setting it gives the value set. |
| UrlValues.SetKeepsSingleValued | vendor/src/github.com/messagebird/go-rest-api/message.go:44-84 | Setting keeps every parameter down to a single value. |
| GoMaps.EnumerationFacts | cmd/sachet/handlers.go:43 | Any order Go may range over a map in lists every key exactly once. |

The handler registered in `cmd/sachet/main.go` renders the default text
inline and does not sort the labels of a single alert (main.go:94-101).
`cmd/sachet/handlers.go:46` does sort them, and the model follows
`handlers.go`. `AlertText.InlineAgreesWhenRangeIsSorted` relates the two.

The test at `cmd/sachet/handlers_test.go:32-46` expects the single-alert
labels in an order the sort does not produce. The code is right and the test
is not: `GatewayCases.TextsDiffer` and `GatewayCases.LabelledAlertText` state
the text the code gives for that input.

## Left out

- HTTP and I/O: the server, the router, request decoding, response writing and `ListenAndServe`. Every HTTP exchange is a function parameter that answers, fails, or gives a body to decode.
- Multipart file upload in the bot client's `Do`: the attached file is only passed along as a name.
- Configuration loading (`LoadConfig`, YAML, template globs) and the secrets store: the configuration is a value, and the secrets lookup is a parameter.
- Template execution and the Alertmanager helper `KV.Values`: the template engine is the `render` parameter, and the common label values are a field of the payload. The Alertmanager `template` package is not part of this model; `Alerts.Firing` and `Alerts.Resolved` are modelled by `AlertText.WithStatus` after their documented behaviour, an in-order filter on the status.
- Prometheus counters and health checks: the model records only the label pair of the one increment each response makes.
- Concurrency: the race between a reload and a request on the global configuration; `RunUpdatesCheck` and `GetUpdatesChannel`, which use goroutines, channels and context cancellation.
- Logging and debug printing everywhere, because they affect nothing that is returned.
- The providers with nothing beyond "build a request and check the status", whose factories are only named by `Dispatch.ProviderByName`: aspsms, esendex, kavenegar, ghasedak, websms, exotel, clickatell, mediaburst, freemobile, sipgate, nowsms, kannel, infobip, smsc, ovh, aliyun, textmagic, melipayamak, mattermost, telegram, mailruim and nexmo. The filesystem-bound smstools provider is left out too.
- The legacy root-level files (`main.go`, `config.go`, `exotel.go`, `infobip.go`, `cm.go`, `turbosms.go`, `nexmo.go`, `twilio.go`, `messagebird.go`), because the binary built from `cmd/sachet` does not use them.
- The vendor SDKs themselves (the Tencent Cloud SMS SDK, the Pushbullet library, the MessageBird SDK calls made by the provider): each call is a parameter that succeeds or fails.
- Floating-point logic: sms77's `makeVoice`, balances, pricing and duration formatting.
- The thin REST wrappers and pagination of the client libraries: twiliogo's IP messaging, call and phone-number files; sms77's contacts, journal, hooks, lookup, pricing, analytics, SMS, balance and voice-validation resources; gonexmo's Account API and delivery receipts.
- The older copy of twiliogo's `client.go` under `vendor/github.com`: the model follows the copy under `vendor/src`, which has `delete` and the `ROOT` prefix that `message.go` expects.
- `url.Values.Encode`, `url.QueryUnescape`, `net.SplitHostPort`, `time.Parse` and RFC 3339 time formatting: each is a parameter, or a value carried along, because the code only passes on what they return.
- The JSON encoding of request objects: a request object is a map from field to value. Only the error body of `cmd/sachet` is written out as text, because its exact bytes are promised.
- Marshalling and `http.NewRequest` errors that cannot occur for the values the code builds (fixed URLs, plain structs).
- Go map iteration order: wherever it decides an outcome, the order is a parameter. `GoMaps.EnumerationFacts` states what any such order must satisfy.
- OtcProvider.Login and OtcProvider.SendRequestWith: each call also sets `InsecureSkipVerify` from the configuration on the process-wide `http.DefaultTransport` (provider/otc/otc.go:108-109 and 189-190). That global side effect reaches every other provider's requests; the model keeps `insecure` in the configuration but does not model TLS or the shared transport.
- BotKeyboard and Bot.NewInlineKeyboardMessage: keyboards are values. In Go the keyboard's rows are slices edited in place (keyboard.go lines 22, 31, 41, 57-58 and 68), and the message stores a pointer to a copy of the keyboard that shares those slices (bot.go:133). So changing, swapping or deleting buttons in a keyboard after building a message can also change that message. The model does not express this aliasing.
- NexmoIp.IsTrustedIP: parses dotted-quad IPv4 text only. Go's `net.ParseIP` also accepts IPv6 text, and `IPNet.Contains` maps an IPv4-mapped IPv6 address (such as `::ffff:174.37.245.33`, or the same in hex groups) back to IPv4, so Go trusts those forms of the block addresses while the model refuses them. Octets with a leading zero are rejected, as Go 1.17 and later do.
- Text.ToUpper: maps the ASCII letters only. Go's `strings.ToUpper` also maps other Unicode letters. The statuses it is applied to are "firing" and "resolved".
- TencentCloudProvider.SendText: when the cut splits a character, the template gets bytes that are not valid UTF-8; how the SDK then encodes them in its JSON request is SDK behaviour and is not modelled.
- NexmoClient.ByteLength and Utf8.Encode: a string is a sequence of characters encoded as UTF-8, so a Go string holding bytes that are not valid UTF-8 is not modelled.
- MessageBirdRequests.ParamsForMmsMessage: takes its parameters as a value, so a nil parameter pointer is not modelled. The source dereferences it without a check and would panic.

## Findings

Each row names the member that models the code as written, with the lemma that shows the discrepancy, and the corrected member the rest of the model uses.

| source | as written | input that shows it | evidently intended | confidence | as-written member | corrected member |
|---|---|---|---|---|---|---|
| provider/sfr/sfr.go:107-113 | When the HTTP client fails, the error is counted, but the code then defers `response.Body.Close()` and decodes `response.Body` on a nil response | one recipient whose request fails with a transport error and no response | count the failure and move on to the next recipient, then report "Error with N calls" | not executed | SfrProvider.SendAsWritten, SfrProvider.AsWrittenPanicsOnNoResponse, SfrProvider.OneUnreachableRecipient | SfrProvider.Send, SfrProvider.SendSucceedsIff, SfrProvider.RedirectFailureCountedTwice |
| provider/sfr/sfr.go:116-122 | A failed `Decode` is counted and the loop goes on, but a syntax error is sticky: `More` keeps answering true and `Decode` keeps failing | one recipient whose response body is the text `not json` | count the failed decode, leave the decode loop, and go on to the next recipient | not executed | SfrProvider.SendAsWritten, SfrProvider.AsWrittenPanicsOnNoResponse, SfrProvider.MalformedBodyHangs | SfrProvider.Send, SfrProvider.Failures, SfrProvider.SendSucceedsIff |
| vendor/github.com/sms77io/go-client/sms77api/sms77api.go:231-240 | `pickMapByKey` compares a string needle with `reflect.Value` keys (util.go:12), which are never equal, so the status-code branch never fires | the body "900" | a known status code answer becomes an error naming the code, here "900: ErrorAuthentication" | not executed | Sms77Api.CheckStatusAsWritten, Sms77Api.StatusBranchIsDead, Sms77Api.RequestAsWritten, Sms77Api.AuthenticationFailureAccepted | Sms77Api.CheckStatus, Sms77Api.Request, Sms77Api.AuthenticationFailureRefused |
| provider/otc/otc.go:202-209 | When the retries run out on a 401, the function returns a nil body and the error variable, which is nil at that point | a token that the API keeps refusing with 401 | report the refusal as an error | not executed | OtcProvider.SendRequestAsWritten, OtcProvider.Rejected401LooksLikeSuccess, OtcProvider.RefusedRecipientReportedAsSent | OtcProvider.SendRequest, OtcProvider.Rejected401Reported, OtcProvider.SendRequestAlwaysDecides |
| vendor/src/gopkg.in/njern/gonexmo.v1/sms.go:85 | The vCard field's JSON tag is "vcrad" | a vCard message with a non-empty vCard | the vCard is sent as "vcard", the member the API reads | not executed | NexmoSms.FieldNameAsWritten, NexmoSms.VCardIsMisnamed | NexmoSms.FieldName, NexmoSms.Object, NexmoSms.ObjectOptionalTexts |
| vendor/gopkg.in/njern/gonexmo.v1/ussd.go:90-95 | `defer resp.Body.Close()` comes before the error check, and the deferred receiver is evaluated at once on a nil response | a valid message sent while the HTTP client fails with no response | return the HTTP client's error, as the SMS service does | not executed | NexmoUssd.SendAsWritten, NexmoUssd.NilResponsePanics | NexmoUssd.Send, NexmoUssd.SendMatchesAsWrittenUnlessNoResponse, NexmoUssd.RedirectFailureReturnsError |
| vendor/src/gopkg.in/njern/gonexmo.v1/server.go:19-23 | The name-to-type map's unicode key is spelt "unicdoe". Nothing reads the map (the handler switches on the form's type text at line 197), so this is a latent defect with no effect on behaviour today | the name "unicode", which `String` gives type 2 | the map and `String` are inverses | not executed | NexmoServer.ParseTypeAsWritten, NexmoServer.UnicodeNameIsNotAKey | NexmoServer.ParseType, NexmoServer.ParseTypeRoundTrip |
