# invoiced-php core, modelled in Dafny

This project models the two sequential pieces of logic in the Invoiced PHP
client library.

- **The API client** (`src/Client.php`) holds the client's fixed configuration: the API key, the sandbox flag and the optional single sign-on key. Around that configuration the model covers:
  - base-URL selection;
  - the shaping of one request: method split, query or JSON body, headers and Basic auth;
  - the classification of the HTTP response into a success envelope or one of a closed set of typed errors;
  - the claim set of the single sign-on token.
- **The resource object** (`src/Object.php`) is a property bag of JSON values. Alongside the bag it keeps:
  - the list of fields assigned since the object was loaded (the "unsaved" list);
  - an endpoint derived from the class name when the object is constructed.

  Its operations are `__set`/`__get`/`__isset`/`__unset` and their
  `ArrayAccess` twins, `keys`, `__toArray`/`jsonSerialize`, and `retrieve`.

Modules, one file each:

| file | module | contents |
|---|---|---|
| results.dfy | `Results` | `Option`, `Result` |
| text.dfy | `Text` | ASCII `strtolower`, decimal rendering of ints with its parser, `implode` |
| json.dfy | `JsonValues` | the `Json` value type, PHP truthiness and string conversion |
| errors.dfy | `Errors` | the error kinds and the error record |
| client.dfy | `ApiClient` | `Client.php` |
| object.dfy | `ResourceObjects` | `Object.php` |

The library's dependencies are modelled as parameters rather than code:
- The Guzzle transport is a function from the shaped request (`RequestPlan`) to a `TransportOutcome`. The outcome is either a response (status, headers as name → list of values, raw body) or a connection failure with its reason.
- `json_decode` is a function `string -> Option<Json>`. The model treats PHP's `null === $parsed` test as "the decoder failed, or it produced JSON null", so the oracle needs no assumption.
- The ICanBoogie inflector's `pluralize` and `underscore` are two uninterpreted functions.
- The clock (`time()`) is a parameter.

Representation choices:
- The unsaved list is the PHP array as it really is: a map from integer index to field name, plus the next free index that `[]` appends at. `unset` can leave holes in it. `UnsavedList` reads the entries back in index order. This is what lets the model reproduce the `__unset` quirk at `src/Object.php:88` (see Findings).
- Field names are strings. PHP turns decimal-string keys into integer keys, which print the same. Because of that, a JSON list body becomes a map keyed by `"0"`, `"1"`, ….

In these places the model follows the code, where a reader might expect otherwise:
- Error dispatch does not check that the error body has a `message` member. `$error['message']` on a body without one yields null, and the model gives `MessageOf` = null.
- Codes below 200 are classified like codes of 400 and above.
- The `Idempotency-Key` header is sent when the option is *truthy*, so `"0"` sends none.
- An API key of `"0"` is refused, because PHP's `empty("0")` holds.
- `retrieve` builds a base `Invoiced\Object` (`new self`), not an object of the receiver's class. Its endpoint root therefore comes from the name `Object`.
- `retrieve` passes its `$opts` argument as the request *parameters*, so they become the query string. The request options stay empty.
- The endpoint carries no leading `/`. It is `charges/123`, not `/charges/123`.
- A `retrieve` response body that is not a PHP array, such as 204's null or a JSON scalar, makes the `array`-typed constructor throw PHP's `TypeError`. The model reports this as the error kind `TypeError`.
- `_unsaved` is never initialised when an object is built without an id. PHP then treats the first append as creating the array. The model starts every object with the empty list.

## Model

| member | source | states |
|---|---|---|
| ApiClient.NewClient | src/Client.php:112-123 | construction fails with InvalidArgument exactly when the key is PHP-empty ("" or "0"); otherwise the key, sandbox flag and SSO key are stored as given |
| ApiClient.ApiKeyRoundTrip | src/Client.php:157-160 | a client built from a non-empty key reports that same key from `apiKey()` |
| ApiClient.Endpoint | src/Client.php:167-170 | the base URL is the sandbox URL exactly when the sandbox flag is set, the production URL exactly when it is not |
| ApiClient.BuildHeaders | src/Client.php:266-278 | Content-Type and User-Agent "Invoiced PHP/1.3.0" always; Idempotency-Key present iff the option is present and truthy, carrying the option's value; no other header |
| ApiClient.BuildRequest | src/Client.php:184-203 | the method is lowered; get/delete put the params in the query and set no JSON body; every other method sends the params as JSON body with an empty query; Basic auth is (api key, ""), timeouts 30/60 |
| ApiClient.MethodCaseInsensitive | src/Client.php:186 | two spellings of a method that lower to the same string shape identical requests |
| ApiClient.UpperCaseGetIsBodyless | src/Client.php:186-200 | "GET" and "Get" behave as "get": params in the query, no JSON body |
| ApiClient.GeneralApiError | src/Client.php:288-291 | the generic error is an ApiError with the response code and no body; its message is "API Error ", then the code in canonical decimal form (reading back as the code), then " - ", then the raw body |
| ApiClient.DecodeFailureError | src/Client.php:223-225 | a 2xx/3xx body that does not decode gives an ApiError with the code and no body; its message is "Could not decode JSON of ", the code in canonical decimal form (reading back as the code), " response: ", then the raw body |
| ApiClient.FlattenHeaders | src/Client.php:228-231 | the success headers have exactly the response's header names, each mapped to its values joined by ", ", and a single-valued header to that value |
| ApiClient.Classify | src/Client.php:212-256 | 2xx/3xx: 204 gives a null body without decoding, other codes give the decoded body or, when the body does not decode, the decode-failure error naming the code and the raw body; other codes: undecodable body gives the generic error, otherwise the dispatch table (401, 400/403/404, 429, 500) gives the kind with message, code and body, and codes outside it the generic error |
| ApiClient.ClassifySuccessIff | src/Client.php:216-256 | a response succeeds iff its status is 2xx/3xx and it is 204 or decodable; a success body is null iff the code is 204; every error carries the response status and is an API-originated kind |
| ApiClient.TypedErrorsNeedDecodedBody | src/Client.php:239-252 | authentication, invalid-request and rate-limit errors arise only from a decoded body, under the status the table assigns them, carrying that body |
| ApiClient.Request | src/Client.php:205-213 | a transport failure becomes a ConnectionError with code 0 whose message ends with the transport's reason; a response is classified as Classify says |
| ApiClient.SignInClaims | src/Client.php:303-316 | fails with InvalidArgument iff no truthy SSO key is configured; otherwise iss is "Invoiced PHP/1.3.0", sub the customer id, iat the clock and exp - iat the ttl |
| Text.JoinSnoc | src/Client.php:228-231 | joining header values with ", " keeps them in order: one more value appends the separator and that value |
| Text.JoinLength | src/Client.php:230 | a joined header holds every character of every value plus one separator between neighbours, and the empty list joins to "" |
| Text.IntToStringRoundTrip | src/Client.php:224 | PHP's decimal rendering of an int reads back as that int |
| Text.InterpolationReadsBack | src/Client.php:290 | a message built as text, an int, text and a tail contains that int between the fixed texts, before the tail, in PHP's canonical decimal form (no leading zero, no `-0`) that reads back as the int |
| Text.InterpolatedTextIsExact | src/Client.php:290 | conversely, any message that interpolates an int this way is exactly the one built from that int's rendering |
| Text.CanonicalIntTextIsUnique | src/Client.php:224 | canonical decimal text is the rendering of the int it reads as, so each int has one canonical text |
| Text.IntToStringCanonical | src/Client.php:224 | PHP's decimal rendering of an int is in canonical form |
| Text.LowerIgnoresCase | src/Client.php:186 | two strings that differ only in the letter case of ASCII letters lower to the same string |
| Text.LowerIdempotent | src/Object.php:50 | lowering twice is lowering once, and a lowered string has no capital letters |
| ResourceObjects.LastSegment | src/Object.php:49 | the class name's last segment holds no backslash, is a suffix of the name, and is preceded by a backslash unless it is the whole name |
| ResourceObjects.LastSegmentOfQualified | src/Object.php:49 | the namespace qualifier is stripped: `Q\Name` and `Name` give `Name` |
| ResourceObjects.EndpointRoot | src/Object.php:48-50 | the endpoint root is lower-case |
| ResourceObjects.New | src/Object.php:43-59 | with an id: endpoint `<root>/<id>`, values = initial keys plus `id`, `id` mapped to the argument; without: endpoint `<root>` and no values; in both cases nothing unsaved and the object valid |
| ResourceObjects.NewKeepsInitialValues | src/Object.php:56 | every initial value other than `id` is kept as given |
| ResourceObjects.OffsetGet | src/Object.php:127-130 | the stored value for a present key, null for an absent one |
| ResourceObjects.OffsetExists | src/Object.php:117-120 | key presence, whatever the value; an absent key reads as null |
| ResourceObjects.IsSet | src/Object.php:80-83 | set implies present; set iff the value read is not null |
| ResourceObjects.Get | src/Object.php:93-101 | succeeds iff the key is present, returning the stored value (null included); otherwise an UndefinedProperty error |
| ResourceObjects.NullFieldExistsButIsNotSet | src/Object.php:80-101 | a null-valued field is present and reads as null but is not set |
| ResourceObjects.Set | src/Object.php:63-78 | fails with InvalidArgument iff the value is the empty string; otherwise the key maps to the value, no other value changes, endpoint/class/client unchanged, `id` never becomes unsaved and any other key is unsaved afterwards |
| ResourceObjects.OffsetSet | src/Object.php:112-115 | for a field name, exactly `__set`; for an own property name (`_client`, `_endpoint`, `_values`, `_unsaved`) the assignment never fails; `_endpoint` replaces the endpoint by the value's string form, `_values` holding an array replaces the values, `_unsaved` holding a list of names replaces the unsaved list by that list, and nothing else changes |
| ResourceObjects.OffsetSetKeepsInvariant | src/Object.php:63-77 | every array-access write keeps a valid object valid, except a direct assignment of `_unsaved`, which leaves it valid exactly when the assigned list has no duplicate and does not name `id` |
| ResourceObjects.ValidOfAssignedList | src/Object.php:36 | an unsaved list assigned from a PHP list is valid exactly when the list has no duplicate and no `id` |
| ResourceObjects.OffsetSetEndpointRedirectsRetrieve | src/Object.php:112-115 | after `$obj['_endpoint'] = e` the values are unchanged and retrieve asks for `e/<id>` |
| ResourceObjects.SetKeepsUnsavedInvariant | src/Object.php:73-77 | setting keeps the list free of duplicates and of `id`, and appends the key to the ordered list exactly when it is not `id` and not yet listed |
| ResourceObjects.ReadAfterSet | src/Object.php:73-101 | after a set the key reads back as the value and is set iff the value is not null; other keys read and test as before |
| ResourceObjects.Unset | src/Object.php:85-91 | the key leaves the values and nothing else in them changes; the unsaved list only loses entries, never gains or alters one, and is untouched when the key was not listed |
| ResourceObjects.OffsetUnset | src/Object.php:122-125 | for a field name, exactly `__unset`; for an own property name the field values and unsaved list are left alone (unless that property is the one unset) |
| ResourceObjects.UnsetKeepsInvariant | src/Object.php:85-91 | unsetting keeps the object valid |
| ResourceObjects.OffsetUnsetKeepsInvariant | src/Object.php:122-125 | unsetting through array access keeps the object valid, for field names and own property names alike |
| ResourceObjects.UnsetAlwaysDropsIndexOne | src/Object.php:88-89 | unsetting any listed field removes exactly index 1 of the unsaved list, wherever the field sits, so the field stays unsaved unless it was the one at index 1 |
| ResourceObjects.ReadAfterUnset | src/Object.php:85-101 | after unset the key is absent, not set, fails `__get` and reads as null; other keys read and test as before |
| ResourceObjects.UnsetDropsIndexOne | src/Object.php:88-89 | for every valid object listing the unset field at index 0 and another field at index 1, the unset field stays unsaved and the other one is dropped |
| ResourceObjects.UnsetDropsWrongEntry | src/Object.php:88-89 | with "amount" and "currency" unsaved, unsetting "amount" leaves ["amount"]: the wrong entry is dropped |
| ResourceObjects.UnsetFixed | src/Object.php:85-91 | corrected unset: the key leaves the values and its entry leaves the unsaved list while every other entry stays at its index |
| ResourceObjects.UnsetFixedRemovesFromList | src/Object.php:88-89 | the corrected unset keeps the object valid, removes the key from the ordered list and keeps every other listed field |
| ResourceObjects.UnsavedListOfValid | src/Object.php:75-76 | for a valid object the ordered unsaved list has no duplicates, never holds `id`, and holds exactly the listed fields |
| ResourceObjects.Keys | src/Object.php:132-135 | the keys are exactly the present fields, each once |
| ResourceObjects.ToArray | src/Object.php:149-152 | the array has exactly the present fields, each with the value `offsetGet` and `__get` return |
| ResourceObjects.JsonSerialize | src/Object.php:139-142 | serialises to the same map as `__toArray` |
| ResourceObjects.AsPhpArray | src/Object.php:43 | a decoded body is an array for the constructor iff it is a JSON object or list: an object gives its members, a list its items under their decimal indices |
| ResourceObjects.RetrieveRequest | src/Object.php:180 | retrieve issues GET on `<endpoint>/<id>` with the options as query, no body and no idempotency key |
| ResourceObjects.Retrieve | src/Object.php:174-183 | a falsy id fails with InvalidArgument (code 0); otherwise the outcome is what `FromResponse` makes of the GET request on `<endpoint>/<id>` with the options as parameters |
| ResourceObjects.FromResponse | src/Object.php:180-182 | a failed request's error passes through, a non-array body is a TypeError, and an array body gives a valid base-class object with the body plus `id`, nothing unsaved, the same client and endpoint `<Object root>/<id>` |
| ResourceObjects.RetrieveFalsyIdSendsNothing | src/Object.php:176-178 | with a falsy id the outcome is the same whatever the transport would answer |
| ResourceObjects.RetrieveDependsOnlyOnItsRequest | src/Object.php:180-182 | with a truthy id the outcome depends on the transport only through its answer to the retrieve request |

## Left out

- The Guzzle transport itself is a parameter: TLS verification against the CA bundle, the handler stack and the request execution are foreign I/O. The CA-bundle path is left out as well.
- The model checks no JSON syntax. `json_decode` and `json_encode` are an oracle or are left out, and so is the pretty-printed `__toJSON` string.
- JSON numbers are integers. Floats, and PHP's float truthiness and string conversion, are not modelled.
- JWT encoding and HMAC signing stop at the claim set. `SignInClaims` reads the clock once. The source calls `time()` twice, so in reality `exp - iat` can exceed the ttl by one second.
- `__toString`, `getClient` and the eighteen resource-instance assignments in the client constructor are plumbing, and none of them is modelled.
- `in_array` and `array_search` compare loosely in PHP, so `"1"` equals `"01"`. The model compares field names as exact strings.
- ResourceObjects.OffsetSet: three assignments replace a property with an arbitrary PHP value: `_client` assigned anything, `_values` assigned a non-array, and `_unsaved` assigned anything but a list of strings (or the empty array). The client is an immutable value here, and `values` and `unsaved` are typed as string-keyed and name-valued maps, so the model leaves the object unchanged in those cases.
- ResourceObjects.OffsetUnset: unsetting an own property removes the property from the PHP object, so later reads of it go through `__get`. The model cannot represent a missing property and leaves the object unchanged.
- ResourceObjects.Keys: returns the present fields without fixing their order. PHP returns them in insertion order, which a `map` does not record.
- ResourceObjects.New: the order of the initial values is not kept. This is for the same reason as `Keys`.
- ApiClient.Classify: `$error['message']` on a decoded JSON string is PHP-version dependent: a string offset, a warning or a `TypeError`. The model folds it into null, like every other non-object body.
- The `TypeError` message text that PHP produces for a non-array constructor argument is version dependent. Only its kind is meaningful.
- `strtolower` is modelled on ASCII letters. Locale-dependent lowering in older PHP versions is not modelled.

## Findings

| source | as written | input that shows it | evidently intended | confidence | as-written member | corrected member |
|---|---|---|---|---|---|---|
| src/Object.php:88 | the assignment inside the condition stores the result of the `!== false` comparison rather than the index found, so the following unset removes index `true`, that is 1 | unsaved list `["amount", "currency"]`; unsetting `amount` leaves `["amount"]` | drop the entry at the index `array_search` returned, so that the field leaves the unsaved list | high (not executed) | ResourceObjects.UnsetAlwaysDropsIndexOne | ResourceObjects.UnsetFixed |

The object operations that delegate to `__unset` (`OffsetUnset`) follow the
code as written. The corrected `UnsetFixed`, with its proved property
`UnsetFixedRemovesFromList`, is what the unset operation evidently means.
