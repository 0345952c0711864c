# sms_twilio: a Dafny model of the Twilio SMS gateway

This project models the Twilio gateway plugin of the Drupal SMS framework:
how it stores its credentials, how it sends one outbound SMS and turns the
carrier's answer (or RestException code) into a delivery report, how it turns
an inbound webhook POST into an incoming message with its MMS attachments, how
it authenticates that webhook, and which HTTP response it gives back.

Modules, one per source file plus two shared ones:

- `Sms` — the framework's value types: message, delivery report, message
  result, attachment, the inbound request and the HTTP response.
- `PhpStrings` — the PHP behaviour the gateway relies on: `trim()` with its
  default character list, the decimal rendering of an int concatenated into
  a key (`'MediaUrl' . $i`), and the value of an integer string (`NumMedia`).
- `TwilioMedia` (src/Utility/TwilioMedia.php) — `ExtractMedia`, the list of
  attachments a payload announces, and `ProcessMedia`, the counting loop
  proved to return it.
- `SmsUtility` (src/SmsUtility.php) — webhook validation with the SDK's
  signature check as a predicate parameter, and the second copy of the
  attachment loop.
- `TwilioGateway` (src/Plugin/SmsGateway/Twilio.php) — the `Twilio` class,
  whose one field is the configuration array, with its form submission,
  `Send`, `BuildIncomingFromRequest` and `ProcessIncoming`.

The carrier is never called: `Send` takes the outcome of the SDK's
`messages->create` call as a parameter (`Created(uri)` or
`RestException(code, message)`) and returns the request it would have made.
The verdict of `TwilioValidation::validateIncoming` is the `accepted`
parameter of `BuildIncomingFromRequest`. As in the source, attachments are
extracted before that verdict is consulted, so the payload requirements of
extraction apply to rejected requests too.

## Model

| member | source | states |
|---|---|---|
| `TwilioMedia.MediaPrefix` | src/Utility/TwilioMedia.php:21-29 | after n steps of the loop the list has n entries and entry i is `{url: MediaUrl{i}, content-type: MediaContentType{i}}` |
| `TwilioMedia.ExtractMedia` | src/Utility/TwilioMedia.php:20-31 | the attachment list has exactly NumMedia entries when NumMedia >= 0, is empty when NumMedia <= 0, and entry i is read from the keys of index i, in ascending order |
| `TwilioMedia.ProcessMedia` | src/Utility/TwilioMedia.php:20-31 | the loop (one entry appended and i raised by one per step, `|files| == i` kept) returns exactly `ExtractMedia` of the payload |
| `TwilioMedia.ExtractMediaFrame` | src/Utility/TwilioMedia.php:20-31 | two payloads with the same NumMedia that agree on the announced attachment fields yield the same list, whatever other keys they hold |
| `TwilioMedia.MediaKeysDistinct` | src/Utility/TwilioMedia.php:25-26 | the keys built for different indices differ, and a MediaUrl key is never a MediaContentType key |
| `TwilioMedia.ExtractMediaIgnoresLaterIndices` | src/Utility/TwilioMedia.php:23-27 | no field with index >= NumMedia is read: overwriting MediaUrl{j} and MediaContentType{j} for such j leaves the list unchanged |
| `SmsUtility.ProcessMedia` | src/SmsUtility.php:37-48 | the utility copy of the loop returns exactly `ExtractMedia` of the payload |
| `SmsUtility.ProcessMediaCopiesAgree` | src/SmsUtility.php:37-48 | `SmsUtility::processMedia` and `TwilioMedia::processMedia` return the same list for every payload |
| `SmsUtility.CallbackUrl` | src/SmsUtility.php:31 | the signed URL is scheme-and-host followed directly by the request URI, with no separator inserted |
| `SmsUtility.Validate` | src/SmsUtility.php:27-35 | validation passes exactly when the validator accepts the gateway's auth token, the signature header, the callback URL and the POST fields; otherwise access is denied |
| `TwilioGateway.Twilio.DefaultConfiguration` | src/Plugin/SmsGateway/Twilio.php:38-44 | the defaults hold exactly the keys account_sid, auth_token and from, each empty |
| `TwilioGateway.Twilio.constructor` | src/Plugin/SmsGateway/Twilio.php:38-44 | a new gateway's configuration is the defaults overridden by the stored values, so every key the gateway reads is present |
| `TwilioGateway.Submitted` | src/Plugin/SmsGateway/Twilio.php:96-98 | after submission account_sid and auth_token hold the trimmed form values, from holds the form value unchanged, and every other key keeps its value |
| `TwilioGateway.Twilio.SubmitConfigurationForm` | src/Plugin/SmsGateway/Twilio.php:95-99 | the configuration becomes `Submitted(old configuration, form)` and still holds the three keys |
| `TwilioGateway.ResubmitUnchanged` | src/Plugin/SmsGateway/Twilio.php:96-98 | submitting the stored values again after a first submission changes nothing (trim is idempotent) |
| `TwilioGateway.Twilio.Send` | src/Plugin/SmsGateway/Twilio.php:104-158 | the SDK is called with the configured credentials and sender, the first recipient and the message text; exactly one report comes back, addressed to the first recipient; success gives QUEUED with the returned uri as message id and no result error; codes 21211, 21612, 21610, 21614 give INVALID_RECIPIENT; 21408 gives ERROR and the result error ACCOUNT_ERROR; any other code gives ERROR and no result error; every exception's message becomes the status message; the result's error message stays empty |
| `TwilioGateway.Twilio.BuildIncomingFromRequest` | src/Plugin/SmsGateway/Twilio.php:167-191 | an accepted request yields a message with body `trim(Body)`, direction INCOMING, sender From, recipients `[To]`, the whole payload under option data, option media present exactly when the attachment list is non-empty and then equal to it, and a result holding one DELIVERED report addressed to To; a rejected request aborts |
| `TwilioGateway.ResponseFor` | src/Plugin/SmsGateway/Twilio.php:206-209 | the response is the default one exactly when the result has no error or a falsy one (code 0); otherwise its body is the error message and its status the error |
| `TwilioGateway.Twilio.ProcessIncoming` | src/Plugin/SmsGateway/Twilio.php:201-213 | an accepted request yields one message, attached to the gateway, with the trimmed body, direction INCOMING, the sender, the single recipient, the payload under option data, option media present exactly when the attachment list is non-empty and then equal to it, and a result holding one DELIVERED report addressed to To; the response is the default one; a rejected request aborts |
| `PhpStrings.TrimLeft` | src/Plugin/SmsGateway/Twilio.php:174 | the result is a suffix of the input, everything removed is trimmable, and it does not start with a trimmable character |
| `PhpStrings.TrimRight` | src/Plugin/SmsGateway/Twilio.php:174 | the result is a prefix of the input, everything removed is trimmable, and it does not end with a trimmable character |
| `PhpStrings.Trim` | src/Plugin/SmsGateway/Twilio.php:174 | the trimmed body neither starts nor ends with a trimmable character, and is empty exactly when the input is all trimmable |
| `PhpStrings.TrimIsSlice` | src/Plugin/SmsGateway/Twilio.php:174 | the trimmed body is one contiguous slice of the input, with only trimmable characters before and after it |
| `PhpStrings.TrimExact` | src/Plugin/SmsGateway/Twilio.php:174 | trimming a trimmable prefix + core + trimmable suffix gives exactly the core |
| `PhpStrings.TrimIdempotent` | src/Plugin/SmsGateway/Twilio.php:96-97 | trimming a trimmed value changes nothing |
| `PhpStrings.NatToString` | src/Utility/TwilioMedia.php:25-26 | the index in a media key is rendered as a non-empty string of decimal digits in canonical form: no leading zero unless the index is 0, one digit exactly for indices below 10 |
| `PhpStrings.DigitsValueOfNatToString` | src/Utility/TwilioMedia.php:25-26 | reading back the rendered index gives the index |
| `PhpStrings.IntegerValueRoundTrip` | src/Utility/TwilioMedia.php:23 | a NumMedia field written as the decimal of n (or of -n) is compared as n (or -n) |
| `PhpStrings.NatToStringInjective` | src/Utility/TwilioMedia.php:25-26 | distinct indices render to distinct strings |

## Left out

- The signature check itself (HMAC-SHA1 in the Twilio SDK's `RequestValidator`) is a predicate parameter of `SmsUtility.Validate`; the SDK is not part of this model.
- src/Utility/TwilioValidation.php and src/Plugin/Utility/TwilioValidation.php are not part of this model: they rebuild the callback URL from a Drupal route and call the SDK validator. Their verdict enters `BuildIncomingFromRequest` as the `accepted` parameter.
- TwilioGateway.Twilio.BuildIncomingFromRequest: the rejected path (src/Plugin/SmsGateway/Twilio.php:182-187) reads an exception variable that is never assigned, so the call ends in a PHP error; the model returns no message there and does not model the REJECTED report or result error those lines try to set.
- TwilioGateway.Twilio.ProcessIncoming: because the rejected path aborts, the error branch of the response mapping is reachable only through `ResponseFor`, which is modelled on its own.
- The network: creating the SDK `Client` and calling `messages->create` become the `CreateOutcome` parameter of `Send` and its `CreateRequest` result. Timeouts and transport failures other than a RestException are not modelled.
- TwilioGateway.Twilio.Send: requires a non-empty recipient list. With an empty list PHP would read null at index 0 (src/Plugin/SmsGateway/Twilio.php:108) and pass it on as the recipient; the model assumes the framework refuses messages that have no recipients. The one-recipient limit of the plugin annotation (line 27) only means that taking index 0 loses no recipient.
- TwilioGateway.Twilio.BuildIncomingFromRequest: requires the fields To, Body and From to be present; PHP would read a missing field as null.
- TwilioMedia.ProcessMedia: requires NumMedia to be an integer string (optional sign, decimal digits) and every announced MediaUrl{i}/MediaContentType{i} to be present; PHP's loose comparison of other strings and its null for missing keys are not modelled. The same holds for SmsUtility.ProcessMedia.
- `buildConfigurationForm` (form rendering and translation) is not modelled; `ResubmitUnchanged` uses only the fact that the form shows the stored values as defaults.
- The framework's message, report and result objects are modelled as values updated field by field; they are local to each call, so no aliasing is lost. `Response` and `SmsProcessingResponse` are reduced to the response kind, body and status, and to the list of messages.
- The plugin constructor of the framework's base class is not in the source; the model's constructor merges the stored configuration over the defaults, as that base class does.
