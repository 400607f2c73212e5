# Openlink validating builders: a Dafny model

This project models the validating-builder framework of the BT Openlink Java library. Openlink maps XMPP stanzas for telephony call control to validated domain objects. Every builder has two terminal operations:

- **fail-fast** (`build()` / `validate()`) raises an `IllegalStateException` for the first violated check, in a fixed order;
- **tolerant** (`build(errors)` / `validate(errors)`) never raises. It appends one message per violated check, in the same order, to a list the caller owns, and still returns an object whose missing fields stay absent.

The model covers:

- `Validation`: the two disciplines over an ordered list of checks (`Rule`). `FirstBroken` is fail-fast; `AllBroken` is tolerant. `TwoDisciplines` proves that two check lists with the same conditions agree. Fail-fast raises exactly when tolerant mode reports something. It raises at the check whose tolerant message comes first. Both modes count the same violations.
- `Profiles`: `Profile` and `Profile.Builder`. Fail-fast `build()` requires profileId, site, default indicator, label and online indicator, in that order; device is optional. Tolerant `build(parseErrors)` checks nothing. It attaches the caller's list, or the empty list when given `null`. `equals` and `hashCode` use the six identity fields only.
- `VoiceRecorderInfos`: `VoiceRecorderInfo` and its builder, with four mandatory fields in both modes.
- `GetFeaturesResults`, `RequestActionResults`, `GetProfilesRequests`: the builder contracts that the library's unit tests pin down. These are a mandatory profile plus unique feature ids, at least one call (duplicates allowed), and a mandatory jid.
- `Stanzas`: the tolerant decode of a get-interest request. It reports the envelope checks (to, from, id, type) before the payload check.
- `RequestActionValues`: the wrapper `RequestActionValue`. Its factory turns `null` and `""` into an absent value. The re-wrap from another string type does not re-check.
- `OpenlinkIqParser`: the dispatch table. Eight (namespace, IQ type) bindings are scanned in order, and the first match wins. A stanza with no `node` attribute, or one that matches nothing, is returned unchanged.

Java objects that change in place are Dafny classes. Builders are classes with mutable fields. The caller's error list and the builder's action list are `Lists.MutableList` objects. A built `Profile` is a datatype that holds references to those two lists, as the Java does. So an action added to the builder after `build()` also shows in the built profile (`Profile.java:29`, `:119`). A later change to the caller's parse-error list shows in the profile too (`:33`). `getParseErrors` returns a fresh copy (`:39`).

A Java `null` or an empty `Optional` is `None`. An exception is a `Result.Failure` or an `Outcome.Fail` that carries the exception's message.

## Model

| member | source | states |
|---|---|---|
| `Validation.FirstBroken` | openlink-core/src/main/java/com/bt/openlink/type/VoiceRecorderInfo.java:62-75 | fail-fast passes iff no check is violated; a failure carries the message of a violated check |
| `Validation.AllBroken` | openlink-core/src/main/java/com/bt/openlink/type/VoiceRecorderInfo.java:79-92 | tolerant mode reports at most one message per check |
| `Validation.AllBrokenAppend` | openlink-tinder/src/test/java/com/bt/openlink/tinder/iq/GetInterestRequestTest.java:101-106 | messages from earlier checks come before messages from later ones, so envelope errors come before payload errors |
| `Validation.FailFastAgreesWithTolerant` | openlink-core/src/main/java/com/bt/openlink/type/VoiceRecorderInfo.java:62-92 | for one check list, fail-fast passes iff tolerant reports nothing, and otherwise raises the first tolerant message |
| `Validation.TwoDisciplines` | openlink-core/src/main/java/com/bt/openlink/type/VoiceRecorderInfo.java:62-93 | two check lists with the same conditions in the same order: same first violation, fail-fast passes iff tolerant is empty, the fail-fast failure points at the first tolerant message, equal violation counts |
| `RequestActionValues.From` | openlink-core/src/main/java/com/bt/openlink/type/RequestActionValue.java:17-19 | present iff the input is non-null and non-empty; a present value wraps the input unchanged |
| `RequestActionValues.FromType` | openlink-core/src/main/java/com/bt/openlink/type/RequestActionValue.java:22-24 | the re-wrap keeps the other type's string verbatim |
| `RequestActionValues.FromRoundTrip` | openlink-core/src/main/java/com/bt/openlink/type/RequestActionValue.java:18 | every value with a non-empty string is what `from` returns for that string (no trimming or normalising) |
| `RequestActionValues.FromRejectsNullAndEmpty` | openlink-core/src/main/java/com/bt/openlink/type/RequestActionValue.java:18 | `from(null)` and `from("")` are both absent |
| `RequestActionValues.FromTypeSkipsCheck` | openlink-core/src/main/java/com/bt/openlink/type/RequestActionValue.java:17-24 | the re-wrap agrees with `from` on non-empty strings and also wraps the empty string, which `from` refuses |
| `VoiceRecorderInfos.Builder.Start` | openlink-core/src/main/java/com/bt/openlink/type/VoiceRecorderInfo.java:53-59 | a new builder has every field unset |
| `VoiceRecorderInfos.Builder.Build` | openlink-core/src/main/java/com/bt/openlink/type/VoiceRecorderInfo.java:62-75 | succeeds iff all four fields are set, and then returns an object whose getters mirror the builder; otherwise fails with the message of the first missing field |
| `VoiceRecorderInfos.Builder.BuildTolerant` | openlink-core/src/main/java/com/bt/openlink/type/VoiceRecorderInfo.java:79-93 | never fails; returns the object mirroring the builder; the caller's list keeps its old contents as a prefix and gains exactly the tolerant messages |
| `VoiceRecorderInfos.Builder.SetRecorderNumber` | openlink-core/src/main/java/com/bt/openlink/type/VoiceRecorderInfo.java:95-98 | sets or (with null) clears the field; the last write wins; nothing else changes |
| `VoiceRecorderInfos.Builder.SetRecorderPort` | openlink-core/src/main/java/com/bt/openlink/type/VoiceRecorderInfo.java:100-103 | as above, for the port |
| `VoiceRecorderInfos.Builder.SetRecorderChannel` | openlink-core/src/main/java/com/bt/openlink/type/VoiceRecorderInfo.java:105-108 | as above, for the channel |
| `VoiceRecorderInfos.Builder.SetRecorderType` | openlink-core/src/main/java/com/bt/openlink/type/VoiceRecorderInfo.java:110-113 | as above, for the type |
| `VoiceRecorderInfos.TolerantMessages` | openlink-core/src/main/java/com/bt/openlink/type/VoiceRecorderInfo.java:79-92 | the exact tolerant messages, one per missing field, in field order |
| `VoiceRecorderInfos.SameOrder` | openlink-core/src/main/java/com/bt/openlink/type/VoiceRecorderInfo.java:62-92 | both modes check the same four conditions in the same order |
| `VoiceRecorderInfos.BuildModesAgree` | openlink-core/src/main/java/com/bt/openlink/type/VoiceRecorderInfo.java:62-93 | `build()` passes iff every field is set, iff `build(errors)` appends nothing; the fail-fast field's tolerant message comes first |
| `VoiceRecorderInfos.TolerantCountsMissing` | openlink-core/src/main/java/com/bt/openlink/type/VoiceRecorderInfo.java:79-93 | the number of appended messages equals the number of unset fields, and is zero iff all are set |
| `VoiceRecorderInfos.FailFastOrder` | openlink-core/src/main/java/com/bt/openlink/type/VoiceRecorderInfo.java:62-74 | the first missing field in the order number, port, channel, type decides the exact message |
| `Profiles.GetParseErrors` | openlink-core/src/main/java/com/bt/openlink/type/Profile.java:37-40 | returns a fresh list holding the profile's parse errors |
| `Profiles.ObjectsHash` | openlink-core/src/main/java/com/bt/openlink/type/Profile.java:96 | `Objects.hash` equals the documented `Arrays.hashCode` value 31^n + h[0]*31^(n-1) + ... + h[n-1], reduced to a 32-bit int |
| `Profiles.HashFoldClosedForm` | openlink-core/src/main/java/com/bt/openlink/type/Profile.java:94-97 | the int loop `h = 31*h + x` from a seed equals seed*31^n + the weighted sum, wrapped once at the end: overflow at each step loses nothing modulo 2^32 |
| `Profiles.Utf16` | openlink-core/src/main/java/com/bt/openlink/type/Profile.java:96 | the UTF-16 code units of a string: each in 0..0xFFFF, at least one per character, and exactly the characters for a string within the Basic Multilingual Plane |
| `Profiles.StringHash` | openlink-core/src/main/java/com/bt/openlink/type/Profile.java:96 | `String.hashCode` of device and label: u[0]*31^(n-1) + ... + u[n-1] over the UTF-16 code units u, as a 32-bit int |
| `Profiles.AstralCharHashesAsSurrogatePair` | openlink-core/src/main/java/com/bt/openlink/type/Profile.java:96 | U+1F600 is hashed as its surrogate pair 0xD83D, 0xDE00, giving 1772899 as in Java |
| `Profiles.HashCode` | openlink-core/src/main/java/com/bt/openlink/type/Profile.java:94-97 | `hashCode` is `Objects.hash` of id, default, device, label, online and site in that order, written out as 31^6 + 31^5*h(id) + ... + h(site) reduced to a 32-bit int |
| `Profiles.Builder.Start` | openlink-core/src/main/java/com/bt/openlink/type/Profile.java:113-127 | a new builder has nothing set and a fresh, empty action list |
| `Profiles.Builder.Build` | openlink-core/src/main/java/com/bt/openlink/type/Profile.java:129-147 | succeeds iff the five mandatory fields are set; the profile mirrors the builder, shares its action list and has no parse errors; otherwise fails with the first missing field's message |
| `Profiles.Builder.BuildTolerant` | openlink-core/src/main/java/com/bt/openlink/type/Profile.java:149-152 | never fails and checks nothing; the profile mirrors the builder and keeps the caller's list itself, or the empty list for null |
| `Profiles.Builder.SetId` | openlink-core/src/main/java/com/bt/openlink/type/Profile.java:154-157 | sets the id; last write wins; nothing else changes |
| `Profiles.Builder.SetDefault` | openlink-core/src/main/java/com/bt/openlink/type/Profile.java:159-162 | sets the default indicator; nothing else changes |
| `Profiles.Builder.SetDevice` | openlink-core/src/main/java/com/bt/openlink/type/Profile.java:164-167 | sets the device; nothing else changes |
| `Profiles.Builder.SetLabel` | openlink-core/src/main/java/com/bt/openlink/type/Profile.java:169-172 | sets the label; nothing else changes |
| `Profiles.Builder.SetOnline` | openlink-core/src/main/java/com/bt/openlink/type/Profile.java:174-177 | sets the online indicator; nothing else changes |
| `Profiles.Builder.SetSite` | openlink-core/src/main/java/com/bt/openlink/type/Profile.java:179-182 | sets the site; nothing else changes |
| `Profiles.Builder.AddAction` | openlink-core/src/main/java/com/bt/openlink/type/Profile.java:184-187 | appends to the shared action list, keeping call order |
| `Profiles.BuildSucceedsIffMandatorySet` | openlink-core/src/main/java/com/bt/openlink/type/Profile.java:130-147 | `build()` passes iff profileId, site, default, label and online are set; device never changes the outcome |
| `Profiles.FirstMissingReported` | openlink-core/src/main/java/com/bt/openlink/type/Profile.java:130-145 | the first unset field in the order profileId, site, default, label, online decides the exact message |
| `Profiles.EqualsIgnoresActionsAndErrors` | openlink-core/src/main/java/com/bt/openlink/type/Profile.java:77-92 | `equals` is an equivalence over the six identity fields that ignores actions and parse errors |
| `Profiles.Equals` | openlink-core/src/main/java/com/bt/openlink/type/Profile.java:77-92 | `equals` holds exactly when the two profiles differ at most in their actions and parse errors |
| `Profiles.EqualsImpliesSameHash` | openlink-core/src/main/java/com/bt/openlink/type/Profile.java:77-97 | equal profiles have equal hash codes |
| `GetFeaturesResults.Builder.Start` | openlink-core/src/test/java/com/bt/openlink/iq/GetFeaturesResultBuilderTest.java:31-34 | a new builder has no profile and no features |
| `GetFeaturesResults.Builder.SetProfileId` | openlink-core/src/test/java/com/bt/openlink/iq/GetFeaturesResultBuilderTest.java:45 | sets the profile; the features are unchanged |
| `GetFeaturesResults.Builder.AddFeature` | openlink-core/src/test/java/com/bt/openlink/iq/GetFeaturesResultBuilderTest.java:72-73 | appends a feature, keeping insertion order and duplicates; the profile is unchanged |
| `GetFeaturesResults.Builder.Validate` | openlink-core/src/test/java/com/bt/openlink/iq/GetFeaturesResultBuilderTest.java:55-75 | raises for a missing profile, else for the first feature that repeats an earlier id; builder state is untouched |
| `GetFeaturesResults.Builder.ValidateTolerant` | openlink-core/src/test/java/com/bt/openlink/iq/GetFeaturesResultBuilderTest.java:77-91 | the caller's list gains the profile message, if any, then one uniqueness message per repeating feature, in order |
| `GetFeaturesResults.NoRepeatIffDistinct` | openlink-core/src/test/java/com/bt/openlink/iq/GetFeaturesResultBuilderTest.java:64-75 | no feature repeats an earlier id iff all feature ids are distinct |
| `GetFeaturesResults.SameOrder` | openlink-core/src/test/java/com/bt/openlink/iq/GetFeaturesResultBuilderTest.java:55-91 | both modes check the same conditions in the same order |
| `GetFeaturesResults.ValidIffProfileAndDistinct` | openlink-core/src/test/java/com/bt/openlink/iq/GetFeaturesResultBuilderTest.java:40-91 | `validate()` passes iff the profile is set and feature ids are distinct, iff `validate(errors)` appends nothing |
| `GetFeaturesResults.MissingProfileFirst` | openlink-core/src/test/java/com/bt/openlink/iq/GetFeaturesResultBuilderTest.java:55-91 | a missing profile is raised first by `validate()` and reported first by `validate(errors)` |
| `GetFeaturesResults.PopulatedBuilderIsValid` | openlink-core/src/test/java/com/bt/openlink/iq/GetFeaturesResultBuilderTest.java:40-53 | a profile and one feature validate in both modes |
| `GetFeaturesResults.DuplicateFeatureRaises` | openlink-core/src/test/java/com/bt/openlink/iq/GetFeaturesResultBuilderTest.java:64-75 | a feature added twice makes `validate()` raise the uniqueness message naming its id |
| `GetFeaturesResults.MissingProfileAndDuplicate` | openlink-core/src/test/java/com/bt/openlink/iq/GetFeaturesResultBuilderTest.java:77-91 | no profile and a duplicated feature give exactly the profile message, then the uniqueness message |
| `RequestActionResults.Builder.Start` | openlink-core/src/test/java/com/bt/openlink/iq/RequestActionResultBuilderTest.java:31-34 | a new builder has no calls |
| `RequestActionResults.Builder.AddCall` | openlink-core/src/test/java/com/bt/openlink/iq/RequestActionResultBuilderTest.java:57-58 | appends a call, duplicates included |
| `RequestActionResults.Builder.Validate` | openlink-core/src/test/java/com/bt/openlink/iq/RequestActionResultBuilderTest.java:42-73 | passes iff there is at least one call; otherwise raises "The make-call result has no calls" |
| `RequestActionResults.Builder.ValidateTolerant` | openlink-core/src/test/java/com/bt/openlink/iq/RequestActionResultBuilderTest.java:76-84 | appends the tolerant message iff there is no call; the call list is untouched |
| `RequestActionResults.ValidIffSomeCall` | openlink-core/src/test/java/com/bt/openlink/iq/RequestActionResultBuilderTest.java:42-84 | both modes pass iff there is a call; with none, exactly one tolerant message |
| `RequestActionResults.DuplicateCallsAccepted` | openlink-core/src/test/java/com/bt/openlink/iq/RequestActionResultBuilderTest.java:54-64 | a call added twice validates in both modes |
| `GetProfilesRequests.Builder.Start` | openlink-core/src/test/java/com/bt/openlink/iq/GetProfilesRequestBuilderTest.java:32-35 | a new builder has no jid |
| `GetProfilesRequests.Builder.SetJid` | openlink-core/src/test/java/com/bt/openlink/iq/GetProfilesRequestBuilderTest.java:46-52 | `getJID` then returns the value set |
| `GetProfilesRequests.Builder.Validate` | openlink-core/src/test/java/com/bt/openlink/iq/GetProfilesRequestBuilderTest.java:43-62 | passes iff the jid is set; otherwise raises the jid message |
| `GetProfilesRequests.Builder.ValidateTolerant` | openlink-core/src/test/java/com/bt/openlink/iq/GetProfilesRequestBuilderTest.java:65-73 | appends the tolerant jid message iff the jid is missing; the jid stays empty |
| `GetProfilesRequests.ValidIffJidSet` | openlink-core/src/test/java/com/bt/openlink/iq/GetProfilesRequestBuilderTest.java:43-73 | exact outcome of both modes with and without a jid |
| `Stanzas.EnvelopeBeforePayload` | openlink-tinder/src/test/java/com/bt/openlink/tinder/iq/GetInterestRequestTest.java:101-106 | a decoded get-interest request reports to, from, id, type, then the interest, each iff it is missing or wrong |
| `Stanzas.GetInterestRequestParseErrors` | openlink-tinder/src/test/java/com/bt/openlink/tinder/iq/GetInterestRequestTest.java:96-107 | no parse errors exactly when the stanza is a `set` with to, from, id and interest present; at most five messages; a missing interest is reported last, a missing to first |
| `Stanzas.BadValuesReportEverything` | openlink-tinder/src/test/java/com/bt/openlink/tinder/iq/GetInterestRequestTest.java:35-107 | a `get` stanza with nothing set yields exactly the five messages of the test, in order |
| `Stanzas.WellFormedHasNoErrors` | openlink-tinder/src/test/java/com/bt/openlink/tinder/iq/GetInterestRequestTest.java:85-94 | a complete `set` request decodes with no parse errors |
| `OpenlinkIqParser.FirstMatch` | openlink-tinder/src/main/java/com/bt/openlink/tinder/iq/OpenlinkIQParser.java:61-66 | returns the first matching binding, or none when no binding matches |
| `OpenlinkIqParser.NamespaceOf` | openlink-tinder/src/main/java/com/bt/openlink/tinder/iq/OpenlinkIQParser.java:37-39 | the namespace a node names: when present, its URI is exactly the node; when absent, no namespace has that URI |
| `OpenlinkIqParser.Matches` | openlink-tinder/src/main/java/com/bt/openlink/tinder/iq/OpenlinkIQParser.java:37-39 | a binding matches exactly when the type is its type (a missing type never matches) and the node names its namespace |
| `OpenlinkIqParser.Parse` | openlink-tinder/src/main/java/com/bt/openlink/tinder/iq/OpenlinkIQParser.java:53-67 | no node or no match returns the input itself; otherwise returns the first matching binding's decoder applied to the input |
| `OpenlinkIqParser.UriInjective` | openlink-tinder/src/main/java/com/bt/openlink/tinder/iq/OpenlinkIQParser.java:37-39 | distinct namespaces have distinct URIs (get-interest is not get-interests), and `NamespaceOf` recovers a namespace from its URI |
| `OpenlinkIqParser.KeysDistinct` | openlink-tinder/src/main/java/com/bt/openlink/tinder/iq/OpenlinkIQParser.java:42-51 | the table's (namespace, type) keys are pairwise distinct |
| `OpenlinkIqParser.AtMostOneMatch` | openlink-tinder/src/main/java/com/bt/openlink/tinder/iq/OpenlinkIQParser.java:37-51 | at most one binding matches any stanza, so scan order does not matter |
| `OpenlinkIqParser.SetAndResultDispatch` | openlink-tinder/src/main/java/com/bt/openlink/tinder/iq/OpenlinkIQParser.java:42-64 | for each namespace, `set` goes to the request decoder and `result` to the result decoder |
| `OpenlinkIqParser.OtherTypesPassThrough` | openlink-tinder/src/main/java/com/bt/openlink/tinder/iq/OpenlinkIQParser.java:42-66 | a stanza of any other type, such as `get`, is returned unchanged |
| `OpenlinkIqParser.ForeignNodePassesThrough` | openlink-tinder/src/main/java/com/bt/openlink/tinder/iq/OpenlinkIQParser.java:61-66 | a node that is none of the four URIs is returned unchanged |

## Left out

- XML encoding and decoding, and the round trips between stanzas and wire text. These rest on dom4j, Tinder and Smack, which are not part of this model. `TinderPacketUtil.getStringAttribute` and `IQ.getChildElement` are replaced by the `node` field of `OpenlinkIqParser.Iq`. The decoders the table binds to are passed to `Parse` as a function.
- Timestamp and duration parsing, random stanza-id generation and the JVM default time zone. These need clocks and randomness or are global state.
- `toString`, `Serializable`, and the hash codes of `ProfileId` and `Site`. `Profiles.HashCode` takes the last two as parameters. `String.hashCode` (over UTF-16 code units), `Boolean.hashCode` and the `Objects.hash` fold are written out with 32-bit wrap-around.
- `AbstractType` internals, the JID structure, `Site`, `RequestAction`, `Call`, `Feature` and the recorder value types. Each is a datatype that stores one string, or an id only. Its own validation and equality are not part of this model.
- The sources of `GetFeaturesResultBuilder`, `RequestActionResultBuilder` and `GetProfilesRequestBuilder` are not part of this model. Their modules state the contracts their unit tests fix. The tests pin the uniqueness rule only for two copies of one feature. With more copies, this model reports every feature whose id occurred earlier.
- The envelope setters of those three builders (`setTo`, `setFrom`, `setId`) are not modelled, because their tests never observe them. The envelope checks appear only in the tolerant decode of `Stanzas`. The fail-fast envelope checks of IQ stanzas are not modelled.
- The Tinder and Smack stanza builders, with their call-on-a-different-node and duplicate-interest checks. They depend on XMPP envelope classes that are not part of this model.
- `OpenlinkXmppNamespace` is not modelled. `OpenlinkIqParser.Uri` writes the get-profiles, get-interests and get-features URIs on the pattern of the get-interest URI `http://xmpp.org/protocol/openlink:01:00:00#get-interest` (GetInterestRequestTest.java:26).
- `VoiceRecorderInfos.Builder.BuildTolerant`: takes a non-null list. In Java, a `null` list raises `NullPointerException` at the first missing field.
- The fluent `return this` of every setter. Setters are methods without a result.
