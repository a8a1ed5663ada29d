# Typed configuration decoding and the directory watcher, in Dafny

This project models two parts of the dapr `kit` Go module and proves properties of the model.

**The configuration decoder.** `config.Decode` copies a loosely typed input (a map of Go values) into a typed structure, one field per `mapstructure` tag. The model follows the behaviour that `config/decode_test.go` fixes:

- integers of every width, signed and unsigned, and pointers to them
- floats, booleans, `time.Duration` and `time.Time`
- strings
- a type that decodes itself from text (`Decoded`)
- a nested structure and a pointer to one

A field accepts either a native value or its text. Every failing leaf field, inside nested structures too, adds one entry to an aggregate error, under its own key. The error reads `"<n> error(s) decoding:"`, then a blank line, then one `* error decoding '<key>': invalid <type> "<raw>"` line per entry.

The modules are:

- `Decimal`: Go's `strconv` integer parsing (`ParseInt`, `ParseUint`, `Atoi`), `Itoa`, `Quote`, and the `NumError` text.
- `Rfc3339`: RFC 3339 timestamps, parsed and formatted.
- `Durations`: `time.ParseDuration`, and the decoder's reading of a bare integer text as milliseconds.
- `SelfDecoding`: the test's `Decoded` type and its `DecodeString` method, as a class whose method writes its receiver in place.
- `Config`: the field types, the coercion of one source value into one field type, the recursive decoder, the error report, and the `Target` class that `Decode` fills in place.
- `ConfigLaws`: properties of the decoder that hold for every key and input.
- `ConfigFixture` and `FixtureKeys`: the test structure, its three inputs, and the theorems that the two good inputs decode to the expected structure and that the bad input gives exactly the 32 expected error lines.

**The directory watcher.** `fswatcher.Watch` creates an fsnotify watcher and adds the directory to it. Its loop then does three things:

- forwards create and write events whose name contains the directory to an internal one-slot channel
- returns on a watcher error, wrapped
- returns on the context's end, with the context's error

`startPublishEvents` batches what arrives on that channel. A received event sets `shouldPublish`. Each 500 ms tick then sends one notification if the flag is set, and clears it.

The modules are:

- `Watch`: the filter, the exits and their messages, and a `Watch` method whose loop is proved against the function `Loop`.
- `Publish`: the publisher as a class with the `shouldPublish` field and a `Step` method for one select pass. `StartPublishEvents` drives it over a sequence of inputs and is proved against the function `Run`.
- `Pipeline`: both loops on one timeline. It exhibits the defect described under Findings and proves the corrected publisher free of it.

Time, the ticker, the watcher and the context are inputs: sequences of events, ticks and cancellations, and the set-up outcome, are parameters.

## Model

| member | source | states |
|---|---|---|
| SelfDecoding.Cell.DecodeString | config/decode_test.go:75-90 | "unlimited" stores -1; any other text stores Atoi's value; on an Atoi error the receiver keeps its value and the error text is returned |
| SelfDecoding.DecodeUnlimited | config/decode_test.go:76-79 | "unlimited" decodes to -1 with no error |
| SelfDecoding.DecodeItoa | config/decode_test.go:82-87 | the decimal text of every 64-bit int decodes back to that int |
| SelfDecoding.DecodeIsAtoi | config/decode_test.go:82-87 | apart from "unlimited", a text decodes exactly when Atoi accepts it, and to Atoi's value |
| SelfDecoding.DecodeRejectsWord | config/decode_test.go:82-85 | a text with no digit after its sign fails with a syntax error whose text is `strconv.Atoi: parsing <quoted text>: invalid syntax` |
| SelfDecoding.BadvalMessage | config/decode_test.go:277-278 | "badval" fails with `strconv.Atoi: parsing "badval": invalid syntax` |
| Decimal.AtoiItoa | config/decode_test.go:82 | Atoi reads back every 64-bit int from its decimal text |
| Decimal.ParseIntItoa | config/decode_test.go:140-149 | signed parsing of a decimal text yields the number exactly when it lies in the width's range, and fails otherwise |
| Decimal.ParseUintItoa | config/decode_test.go:150-159 | unsigned parsing of a decimal text yields the number exactly when it lies in 0..max, and fails otherwise |
| Decimal.ParseUintRejectsMinus | config/decode_test.go:209-218 | unsigned parsing fails on any text that starts with '-' |
| Decimal.AtoiRejectsNonDigit | config/decode_test.go:199-208 | Atoi gives a syntax error on a text with no digit after its sign |
| Decimal.UnquoteQuote | config/decode_test.go:249-280 | the quoting used in error lines loses nothing: unquoting gives back the original text |
| Decimal.QuotePlain | config/decode_test.go:249-280 | printable ASCII without quote or backslash is quoted as it stands, between double quotes |
| Decimal.QuoteHasNoNewline | config/decode_test.go:243 | a quoted text never holds a newline, so it cannot split an error line |
| Rfc3339.ParseFormat | config/decode_test.go:291-295 | parsing the formatted text of any valid timestamp gives back that timestamp, fraction and zone included |
| Rfc3339.ZoneRoundTrip | config/decode_test.go:168 | a zone offset within ±23:59 reads back from its `±hh:mm` or `Z` text |
| Rfc3339.ParseReferenceTime | config/decode_test.go:291-295 | the test's reference text parses to 2021-01-02 15:04:05, nanos 0, at offset -420 minutes |
| Durations.MillisecondsText | config/decode_test.go:166 | a bare decimal text is a count of milliseconds |
| Durations.UnitText | config/decode_test.go:167 | a number followed by a unit reads as the number times that unit |
| Durations.RejectsLetters | config/decode_test.go:225-226 | in the model, which reads no fractions, a text with no digit after its sign is not a duration |
| Durations.FiveSeconds | config/decode_test.go:166-167 | "5000" and "5s" both read as five seconds |
| Config.Target.Decode | config/decode_test.go:188-191 | Decode writes every field of the target as decoding from the zero value gives; it returns no error exactly when no field failed, and otherwise the aggregate message |
| Config.DecodeValue | config/decode_test.go:29-71 | a decoded value always fits its field's type; a leaf field gives at most one entry, carrying its key and type name, and a failed leaf keeps its zero value |
| Config.DecodeFields | config/decode_test.go:29-71 | every field of the structure is present in the result; at most one entry per leaf field; every entry names a key of the structure |
| Config.Report | config/decode_test.go:189-190 | Decode reports no error exactly when the entry list is empty |
| Config.FormatBool | config/decode_test.go:164-165 | the text of a boolean, "true" or "false", parses back to that boolean and is one of the tokens ParseBool reads as it |
| ConfigLaws.BoolNativeMatchesText | config/decode_test.go:120-165 | for every boolean and every bool, string or Decoded field, the native boolean and its text decode alike |
| ConfigLaws.NativeMatchesText | config/decode_test.go:94-182 | for every integer and every numeric, string or Decoded field, the native integer and its decimal text decode alike |
| ConfigLaws.SignedText | config/decode_test.go:140-149 | decimal text in a signed field is accepted exactly when it fits the width, and otherwise gives one entry naming that width |
| ConfigLaws.UnsignedText | config/decode_test.go:150-159 | decimal text in an unsigned field is accepted exactly when it lies in 0..max, and otherwise gives one entry |
| ConfigLaws.UnsignedRejectsMinus | config/decode_test.go:259-268 | any text with a leading '-' fails in an unsigned field, naming the width; a byte field is named uint8 |
| ConfigLaws.SignedRejectsWord | config/decode_test.go:249-258 | text with no digit after its sign fails in a signed field of any width, which keeps zero |
| ConfigLaws.Int8Edge | config/decode_test.go:104 | "-128" fits int8 and "-129" does not |
| ConfigLaws.ByteEdge | config/decode_test.go:114 | "255" fits a byte and "256" does not |
| ConfigLaws.DurationNativeAndText | config/decode_test.go:166 | a native integer into a duration is nanoseconds, while its decimal text is milliseconds |
| ConfigLaws.StringAcceptsScalars | config/decode_test.go:231-232 | any integer, float, bool or string, pointed to or not, decodes into a string field without error, as its text |
| ConfigLaws.StringOfNumber | config/decode_test.go:126 | the integer 1234 decodes into a string field as "1234" |
| ConfigLaws.PointerSource | config/decode_test.go:97-127 | a pointer in the input decodes like the value it points to |
| ConfigLaws.PointerField | config/decode_test.go:31-65 | a pointer field is nil for a nil source, points to the element's value when that decodes without error, and otherwise stays nil with the element's entries |
| ConfigLaws.TimeField | config/decode_test.go:168-169 | a time field takes exactly the RFC 3339 texts, as the instant they denote; any other text gives one "time" entry |
| ConfigLaws.DecodedField | config/decode_test.go:229-230 | a Decoded field stores what DecodeString stores, and on its error gives an entry carrying that error as its cause |
| ConfigLaws.NestedErrorsUnqualified | config/decode_test.go:64-71 | the errors from a nested structure are its own fields' entries |
| ConfigLaws.EmptySource | config/decode_test.go:29-71 | an empty input leaves every field at its zero value, with no error |
| ConfigLaws.InvalidLine | config/decode_test.go:249-280 | the exact text of an error line for a plain raw value, with and without the Atoi cause suffix |
| ConfigLaws.EntryPerFailingLeaf | config/decode_test.go:244-286 | for every table and input, nested structures included, the entries' keys are exactly the keys of the failing leaves, in table order, each once |
| ConfigLaws.ExactlyOneLinePerFailure | config/decode_test.go:282-286 | with distinct keys and leaf fields, the entries' keys are distinct, and a key appears exactly when its field failed |
| ConfigLaws.SplitJoin | config/decode_test.go:243 | splitting joined single-line entries at "\n" gives back the lines |
| ConfigLaws.LineShape | config/decode_test.go:242-243 | an error line starts with '*', holds no newline and does not end in white space |
| ConfigLaws.ReadBack | config/decode_test.go:235-243 | the message starts with the count and heading, and trimming and splitting the rest gives exactly one line per entry |
| ConfigFixture.NativeRow | config/decode_test.go:95-138 | each field's native test value decodes to its expected value without error |
| ConfigFixture.TextRow | config/decode_test.go:139-182 | each field's text test value decodes to its expected value without error |
| ConfigFixture.BadRow | config/decode_test.go:198-233 | each bad value gives exactly the entry the test expects, naming the field's underlying type; absent fields give none |
| ConfigFixture.GoodInputsDecode | config/decode_test.go:92-194 | for any distinct single-line keys, both test inputs decode to the expected structure with no error |
| ConfigFixture.BadInputErrors | config/decode_test.go:196-289 | the bad input gives 32 entries, one per failing field, with distinct keys, each on one line |
| ConfigFixture.BadInputMessage | config/decode_test.go:234-243 | the aggregate message starts with "32 error(s) decoding:", and splitting its trimmed body gives exactly the entries' lines |
| ConfigFixture.BadCount | config/decode_test.go:236 | the expected entries number 32 |
| ConfigFixture.TableKeys | config/decode_test.go:29-65 | the table's keys are exactly the given keys, in declaration order |
| FixtureKeys.TestKeysGood | config/decode_test.go:29-65 | the structure's tags are distinct and single-line |
| FixtureKeys.TestStructure | config/decode_test.go:92-289 | with the structure's own tags: both good inputs decode to the expected structure, and the bad input gives 32 distinct keyed entries whose lines are read back from the message |
| Watch.ContainsIff | fswatcher/watch.go:38 | `strings.Contains` holds exactly when the directory occurs at some position of the name |
| Watch.ForwardsIff | fswatcher/watch.go:36-39 | an event is forwarded exactly when its op has the create or write bit and the name contains the directory |
| Watch.OtherOpsDropped | fswatcher/watch.go:36-37 | remove, rename and chmod events alone are never forwarded |
| Watch.MessageRoundTrip | fswatcher/watch.go:16-49 | each returned error's text reads back into the exit it reports, with the wrapped cause |
| Watch.Watch | fswatcher/watch.go:15-52 | the method's sends and exit equal the pure function `WatchRun`'s, set-up failures included |
| Watch.StopsAtFirst | fswatcher/watch.go:44-49 | the loop returns at the first watcher error or cancellation, with the wrapped error or the context's error |
| Watch.RunsOnWithoutStop | fswatcher/watch.go:32-51 | with only events, the loop consumes them all and does not return |
| Watch.SentIffForwarded | fswatcher/watch.go:35-41 | the loop sends on the event channel at an input exactly when that input is an event that passes the filter |
| Watch.SetupFailures | fswatcher/watch.go:16-25 | a failed create or add returns at once, without sending, with the wrapped error |
| Publish.Publisher.Step | fswatcher/watch.go:61-71 | an event sets the flag; a tick sends exactly when the flag was set, then clears it; a tick with the flag clear changes nothing; cancellation returns |
| Publish.StartPublishEvents | fswatcher/watch.go:56-73 | the loop's notification trace is the pure function `Run` from the cleared flag, and its send count is the trace's count |
| Publish.AtMostOnePerTick | fswatcher/watch.go:64-68 | no more notifications than ticks |
| Publish.AtMostOnePerEvent | fswatcher/watch.go:62-68 | no more notifications than events, counting a flag already set as one |
| Publish.NotificationBounds | fswatcher/watch.go:56-73 | from the start, notifications are at most the ticks and at most the events |
| Publish.BurstCollapses | fswatcher/watch.go:62-68 | any burst of events before a tick gives exactly one notification, at that tick |
| Publish.NothingAfterDone | fswatcher/watch.go:69-70 | nothing after cancellation is acted on |
| Publish.NotifiesExactly | fswatcher/watch.go:61-71 | a notification happens at an input exactly when it is a tick with an event since the previous tick |
| Publish.NotificationHasOwnEvent | fswatcher/watch.go:61-71 | every notification is preceded by an event that no earlier notification consumed |
| Publish.EventNeverNotifies | fswatcher/watch.go:62-63 | receiving an event never sends a notification |
| Publish.TwoBursts | fswatcher/watch.go:56-73 | two bursts separated by ticks give two notifications, and inputs after cancellation are ignored |
| Pipeline.SpuriousNotification | fswatcher/watch.go:28-68 | as written, a watcher error then a tick sends a notification though no event was forwarded |
| Pipeline.FloodAfterFault | fswatcher/watch.go:60-68 | as written, once the event channel is closed every tick notifies until cancellation |
| Pipeline.NoSpuriousNotification | fswatcher/watch.go:56-68 | with the correction, notifications never outnumber the events `Watch` forwards |
| Pipeline.AgreeWithoutFault | fswatcher/watch.go:56-73 | without a watcher error, the code as written and the correction agree |

## Left out

- The decoder's implementation (`config/decode.go`) is not part of this model. Its behaviour is modelled from what the tests fix, with the general rules stated once in `Config.Coerce` and `Config.DecodeValue`.
- Floating point: a float is carried as its decimal text. Only the accept or reject decision on its syntax is modelled, not IEEE rounding or the float32 width.
- Config.FloatSyntax: accepts only decimal text. `strconv.ParseFloat` also accepts `Inf`, `+Inf`, `NaN` and hexadecimal floats such as `0x1p-2`, and rejects out-of-range text such as `1e400`; the model does neither.
- `time.ParseDuration` fractions (`1.5s`) are not modelled. Only integer components with the units ns, us, µs (either micro sign), ms, s, m and h are read.
- Durations.RejectsLetters: holds of the model only. Go reads `.5s` as 500 ms, a text with no digit right after its sign.
- `strconv.Quote` is modelled for ASCII. Non-ASCII printability and `\u` escapes are not modelled.
- A duration, time or map source decoded into a string field reports an "unconvertible" entry. Go's `%v` formatting of those values is not modelled.
- Integers are unbounded in the model. As a modelling choice, a native integer outside a field's width fails with an entry. Go's reflection setter for a native integer truncates to the field's width instead; text outside the width fails in both.
- Nested structures report their entries under their own keys, unqualified by the parent key.
- Config.DecodeFields: because nested keys are unqualified, a failing field `string` at top level and a failing field `string` inside `nested` give two entries with identical lines, which a reader that collects lines into a set sees as one. `ConfigLaws.EntryPerFailingLeaf` counts entries, not distinct lines.
- Config.Target.Decode: every field of the target is written, so on a reused target a field that is absent or fails is reset to its zero value. Go's decoder leaves such a field as it was. The tests decode into a fresh target, where the two agree.
- Config.Coerce: a float source into an integer, unsigned or duration field, and a boolean source into a numeric field, are reported as unconvertible. Go's weakly typed decoding converts an integral float, truncating it, and a boolean to 0 or 1; the tests do not exercise these cases.
- The aggregate error lists entries in field order. The tests compare the lines as a set, so order is not relied on.
- A bare integer text for a duration is read as milliseconds, as the test at `config/decode_test.go:166` requires (5000 → 5 s), while a native integer is nanoseconds (`ConfigLaws.DurationNativeAndText`).
- RFC 3339 is modelled with numeric offsets and `Z`, four-digit years and fractions up to nanoseconds. Leap seconds and lower-case `t`/`z` are not modelled.
- Rfc3339.Parse: reads the strict RFC 3339 form. `time.Parse` with the RFC 3339 layout also accepts a one-digit hour, a ',' before the fraction and offsets up to +24:00, which the model rejects.
- The fixture theorems are proved for any distinct single-line keys. `FixtureKeys` instantiates them with the structure's own tags.
- Concurrency, channel blocking and buffering, goroutine scheduling, the real ticker and fsnotify are not modelled. The set-up outcome and the interleaving of events, errors, ticks and cancellation are inputs.
- The `select` race when cancellation and another case are ready at once is not modelled: a cancellation input is taken as chosen.
- Watch.Watch: an exit of `None` means the inputs ran out while the loop still ran; the real loop would block.
- `watcher.Close` and the goroutine start are effects with no observable result in the model.

## Findings

| source | as written | input that shows it | evidently intended | confidence | as-written member | corrected member |
|---|---|---|---|---|---|---|
| fswatcher/watch.go:28-63 | when `Watch` returns on a watcher error, the deferred `close(eventCh)` runs while `startPublishEvents` keeps running until cancellation. A receive from a closed channel is always ready, so the publisher sets `shouldPublish` again and again, and every later tick sends a notification | a watcher error (`Fault("watch queue overflow")`) followed by one tick: the trace is [false, true] with no event forwarded | a notification only after a forwarded file event: notifications never outnumber forwarded events. Stop selecting the channel once a receive reports it closed | high (not executed) | Pipeline.SpuriousNotification, Pipeline.FloodAfterFault (on Pipeline.AsWritten) | Pipeline.NoSpuriousNotification (on Pipeline.Corrected) |
