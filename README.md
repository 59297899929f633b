# Salesforce streaming connector: verified model of its core helpers

This project is a Dafny model of three sequential pieces of a connector. The connector streams
Salesforce Push Topic events over the Bayeux/CometD long-polling protocol and authenticates with
the OAuth2 password grant.

- **Subscribe** (`subscribe.dfy`): the `/meta/subscribe` response record. It also models how its
  loosely typed `subscription` field becomes a list of channel names. The field is a Go
  `interface{}`, modelled as the datatype `Dynamic` with one constructor per dynamic type.
  JSON decoding into such a field is modelled by `FromJson`, following the documented rules of Go's
  `encoding/json`: an array becomes `[]interface{}`, never `[]string`. The normalisation is a
  function over a value, so the response record cannot change.
- **OAuth** (`oauth.dfy`): the password-grant client. Construction, the form fields of the token
  request and the choice of endpoint are pure functions. `Authenticate` is a method that runs the
  steps of one exchange with early returns: prepare, send, read, decode as a token, decode as a
  failure payload. The HTTP library and the JSON decoder are uninterpreted function-valued inputs
  (`Steps`), so the model claims nothing about which bodies decode as what.
- **SourceConfig** (`config.dfy`): `ParseConfig`, from a string-to-string map to a configuration
  or an error naming the first missing required key. The topic list is split on commas, empty
  names are dropped and duplicates removed. The parser's own source file (`source/config.go`) is
  not part of this model. Its behaviour is taken from the assertions in `source/config_test.go`.
  The string values of the `ConfigKey*` constants are declared there too. The model uses
  `environment`, `clientId`, `clientSecret`, `username`, `password`, `securityToken`,
  `pushTopicsNames` and `keyField`. No proof depends on these values beyond their being distinct.

`wrappers.dfy` holds the `Option` and `Result` datatypes shared by the three modules.

Modelling choices for the configuration, where the tests leave room:
- A key counts as missing when looking it up yields the empty string. As with Go's map indexing,
  an absent key and an empty value are the same.
- Topic names are not trimmed. No assertion in `source/config_test.go` fixes trimming, so names
  are kept as written.
- Duplicates are removed keeping the first occurrence. The tests check only the elements (a
  multiset comparison). So the general lemmas state set facts about the result, and only the
  worked example also fixes the model's own order.
- Absent optional values (security token, key field) become "", the Go zero value. No test
  asserts this.

## Model

| member | source | states |
|---|---|---|
| Subscribe.GetSubscriptions | internal/cometd/responses/subscribe.go:32-42 | succeeds iff the field is a string or a `[]string`. On success every returned name is carried by the field and every carried name is returned. A string gives exactly one name, a `[]string` the same number of names. The result is empty only for an empty `[]string`. Every other shape is rejected with the value itself. The source panics there, with an error whose message formats the value. |
| Subscribe.SingleSubscription | internal/cometd/responses/subscribe.go:34-35 | a single-string subscription yields exactly the one-element list of that string |
| Subscribe.TypedListUnchanged | internal/cometd/responses/subscribe.go:37-38 | a `[]string` subscription is returned unchanged, element by element, duplicates kept |
| Subscribe.SingleAndTypedListAgree | internal/cometd/responses/subscribe.go:33-38 | `"x"` and the typed list `["x"]` normalise to the same list |
| Subscribe.FromJson | internal/cometd/responses/subscribe.go:24 | decoding JSON into the `interface{}` field gives a `[]interface{}` exactly for arrays, never a `[]string`, and a string for a string |
| Subscribe.DecodedListRejected | internal/cometd/responses/subscribe.go:33-41 | every decoded JSON list of strings, including the empty list, falls through to the rejection (the panic) |
| Subscribe.NormalizeSubscriptions | internal/cometd/responses/subscribe.go:32-42 | agrees with `GetSubscriptions` wherever that succeeds. A generic list is accepted iff all its elements are strings, and then yields exactly those strings in order. Nil, booleans, numbers and maps give a typed error carrying the value instead of a panic. |
| Subscribe.StringElements | internal/cometd/responses/subscribe.go:37-38 | the strings of a generic list, in order and of the same length, exactly when every element is a string |
| Subscribe.DecodedListAccepted | internal/cometd/responses/subscribe.go:37-38 | the corrected normalisation returns exactly the names of any decoded JSON list of strings, in order |
| Subscribe.DecodedShapesAgree | internal/cometd/responses/subscribe.go:33-38 | after decoding, a JSON string and a one-element JSON list normalise to the same one-element list |
| OAuth.NewClient | internal/salesforce/oauth/client.go:25-41 | the client holds the six arguments unchanged, each in its matching field |
| OAuth.Payload | internal/salesforce/oauth/client.go:53-59 | exactly the five form keys, each with one value. `grant_type` is "password". The client id, client secret and username are copied verbatim. The password field is the password followed by the security token. |
| OAuth.PasswordWithoutToken | internal/salesforce/oauth/client.go:58 | with an empty security token the password field is the password alone |
| OAuth.TokenURI | internal/salesforce/oauth/client.go:61-65 | the test endpoint iff the environment is exactly "sandbox". The production endpoint for every other value, the empty one included. |
| OAuth.Prepared | internal/salesforce/oauth/client.go:67-71 | the request is a POST of the payload form to the chosen endpoint |
| OAuth.WithHeaders | internal/salesforce/oauth/client.go:76-80 | the request is sent with exactly the four fixed headers, and its verb, endpoint and form are unchanged |
| OAuth.Authenticate | internal/salesforce/oauth/client.go:52-110 | a failing prepare, send or read step is reported wrapped with its own context, and the first failing step wins. A body that decodes as a token returns that token with no error, whatever else it decodes as. Otherwise the failure payload itself is the error, or, if that does not decode either, the decoding error wrapped. Success happens iff all steps succeed and the body decodes as a token. A token never comes with an error. |
| SourceConfig.ParseConfig | source/config_test.go:111-178 | on success the environment, client id, client secret, username, password, security token and key field are copied from the map, and the topic list is the non-empty, deduplicated list of names. A failure names a required key that is not set. |
| SourceConfig.FirstMissingReported | source/config_test.go:33-109 | parsing fails iff some required key is not set. The error names the first unset key in the order environment, client id, client secret, username, password, topic names. |
| SourceConfig.EnvironmentFirst | source/config_test.go:33-39 | with an absent or empty environment value the error names the environment key, whatever else the map holds |
| SourceConfig.ErrorTextNamesKey | source/config_test.go:35 | the message is the key in double quotes followed by ` config value must be set`, so the key can be read back from it |
| SourceConfig.UnknownKeyIgnored | source/config_test.go:37 | adding or changing a key outside the known set never changes the outcome |
| SourceConfig.SeparatorsOnlyIsMissing | source/config_test.go:90-102 | a topic value made only of commas (such as ",") is reported as the missing topic-names key once all earlier keys are set |
| SourceConfig.NoTopicsIffOnlySeparators | source/config_test.go:90-102 | the topic list is empty iff the raw value consists of commas only, the empty value included |
| SourceConfig.OnlySeparators | source/config_test.go:90-102 | a value made only of commas splits into empty pieces only, and conversely |
| SourceConfig.ParsedTopics | source/config_test.go:136-151 | on success the topic list is non-empty, has no duplicates, and holds exactly the non-empty comma-separated pieces of the raw value |
| SourceConfig.TopicsSpec | source/config_test.go:136-151 | the topic list has no duplicates, contains no comma, and holds exactly the non-empty pieces |
| SourceConfig.Dedup | source/config_test.go:150 | the deduplicated list has the same elements as its input and no duplicates |
| SourceConfig.DedupFrom | source/config_test.go:150 | keeps exactly the names of the input not already seen, with no duplicates |
| SourceConfig.NonEmptyNames | source/config_test.go:90-102 | keeps exactly the non-empty pieces |
| SourceConfig.NonEmptyKept | source/config_test.go:143 | a list of non-empty names passes the empty-name filter unchanged |
| SourceConfig.DuplicatesRemoved | source/config_test.go:136-151 | "Foo,Bar,Foo,Baz,Foo" yields exactly the elements Foo, Bar and Baz, each once (the multiset the test compares). The model's own order is first occurrence. |
| SourceConfig.RepeatsRemoved | source/config_test.go:136-151 | for any three distinct non-empty names without commas, the list `a,b,a,c,a` yields `a`, `b`, `c` |
| SourceConfig.RepeatsDeduped | source/config_test.go:150 | removing the repeats of `[a, b, a, c, a]` keeps `[a, b, c]` |
| SourceConfig.ExampleJoin | source/config_test.go:143 | the test's raw value is the five names joined with commas |
| SourceConfig.SingleTopic | source/config_test.go:130-131 | a single non-empty name without commas yields the one-element list of that name |
| SourceConfig.Split | source/config_test.go:143 | splitting on commas always yields at least one piece |
| SourceConfig.JoinSplit | source/config_test.go:143 | joining the comma-split pieces with commas gives back the raw value |
| SourceConfig.SplitJoin | source/config_test.go:143 | splitting pieces that were joined with commas, none of them containing a comma, recovers the pieces |
| SourceConfig.SplitPiecesHaveNoSeparator | source/config_test.go:143 | no piece of a split contains a comma |
| SourceConfig.SplitNoSeparator | source/config_test.go:130-131 | a value without commas is a single piece |
| SourceConfig.SplitAppend | source/config_test.go:143 | splitting `w,t` with no comma in `w` yields `w` followed by the pieces of `t` |

## Findings

| source | as written | input that shows it | evidently intended | confidence | as-written member | corrected member |
|---|---|---|---|---|---|---|
| internal/cometd/responses/subscribe.go:37-41 | only a statically typed `[]string` list is accepted, and anything else panics | a subscribe response whose `subscription` is the JSON list `["/topic/Foo"]`. Decoding stores it as `[]interface{}{"/topic/Foo"}`, so the call panics. | a list of channel names is returned as that list | not executed; follows from `encoding/json` decoding arrays into `interface{}` as `[]interface{}` | Subscribe.DecodedListRejected | Subscribe.NormalizeSubscriptions |

`Subscribe.DecodedListAccepted` proves that the corrected normalisation returns the names of every
decoded JSON list of strings. It also reports other shapes as a typed error, not a panic.

## Left out

- HTTP transport in `Authenticate`: building the request, sending it with the shared default
  client, and reading and decompressing the body. Each is an uninterpreted input of `Steps`.
- Closing the response body (`internal/salesforce/oauth/client.go:92`) is not modelled. The source
  ignores its result and does not reach it when reading fails, so it changes neither the token nor
  the error that `Authenticate` returns.
- Form encoding (`url.Values.Encode`) of the payload: it is library code. The model passes the
  form values themselves to the transport.
- JSON decoding of the token and failure bodies: it is library code with acceptance rules that
  are not visible here. Both are uninterpreted inputs. The model does not claim which bodies
  reach the failure branch.
- The `fmt.Println` of the response body in `Authenticate`: logging output.
- The context argument of `Authenticate`: cancellation is part of the transport.
- The full fields of the token and failure responses: the response package is not part of this
  model. `TokenResponse` keeps the access token and instance URL. `FailureResponse` keeps the
  error and its description. Its `Error()` text is not modelled.
- The wording of the wrapped Go errors (`%w`): an error is modelled as its context text plus the
  cause, not as one concatenated message.
- The `advice` and `ext` fields of the subscribe response: their types are declared in files that
  are not part of this model.
- `internal/cometd/responses/connect.go` and `internal/cometd/responses/unsuccessful_handshake.go`:
  records and a one-line accessor with no behaviour to prove.
- JSON numbers are modelled as integers. Only the presence of a number matters to the
  normalisation.
- The handshake/subscribe/connect loop, replay tracking, event dispatch and backoff: their source
  is not part of this model.
- SourceConfig.ParsedTopics: states the set of names and their uniqueness but not their order.
  The tests do not fix the order.
