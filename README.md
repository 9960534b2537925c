# A verified model of the react-native-ble-plx bridge core

This project models the parts of the React Native BLE library that hold logic of their own. Everything
else in the bridge forwards calls to the multiplatform BLE adapter.

- **`BleMessageBuilder`** (`message_builder.dfy`) reassembles a message that arrives in numbered BLE
  packets. Byte 0 of each packet counts the packets still to come. Byte 1 is ignored. The payload
  starts at byte 2. The builder is a class with the two fields `enqueuePacket` updates in place, plus a
  log of its `onMessageBuilt` calls. `Enqueue` is a pure step function that specifies it. `Feed` runs
  the step function over a packet sequence. On these the model proves:
  - the state invariant;
  - that refused packets change nothing;
  - the round trip: a message cut into numbered chunks comes back whole;
  - what happens when a packet is lost: the first, one in the middle, or the last. Nothing resets the
    builder after an error, so a builder left in the middle of a message goes on to splice onto it the
    next message that has at least as many packets as it still awaits; a shorter message in between is
    refused whole and lost.
- **`GenericExceptionConverter`** (`exception_converter.dfy`) builds the JSON text of a generic error
  through a fixed series of `StringBuilder` appends. `ToJs` performs those appends on a `StringBuilder`
  class. The model proves the result equal to an independent rendering of the ten-member error object.
  The text depends on the exception only through its message, and the message can be read back.
  Three quirks are kept: the reason is not escaped, there is a blank after the `iosErrorCode` colon, and the
  five identifiers are written as the quoted string `"null"`, never as the bare literal `null`.
- **`BleClientManager`** (`client_manager.dfy`):
  - the `getConstants` table;
  - default-then-override parsing of the scan and connection options;
  - the payloads of the disconnection and monitored-value events.

  Options are a map from key to a tagged bridge value (`js_values.dfy`).
- **`Event`** (`events.dfy`) is the six-value enum. The model proves its names are distinct and that
  each name reads back to its event.

`nullable.dfy` makes Java's `null` and JavaScript's `undefined` explicit as an `Option`.

## Model

| member | source | states |
|---|---|---|
| Events.Name | android/src/main/java/com/polidea/reactnativeble/Event.java:5-16 | each constant's name is the string spelled like its identifier, as the constructor stores it |
| Events.Ordinal | android/src/main/java/com/polidea/reactnativeble/Event.java:5-10 | every event sits at its declaration position in `values()` |
| Events.ValuesEnumerateEvents | android/src/main/java/com/polidea/reactnativeble/Event.java:5-10 | there are exactly six values, every event is among them, and none is repeated |
| Events.NameInjective | android/src/main/java/com/polidea/reactnativeble/Event.java:5-10 | the six names are pairwise distinct |
| Events.EventNamed | android/src/main/java/com/polidea/reactnativeble/Event.java:5-10 | a name lookup that succeeds finds an event carrying exactly that name |
| Events.EventNamedName | android/src/main/java/com/polidea/reactnativeble/Event.java:5-16 | looking an event up by its own name gives that event back |
| JsValues.TypeOf | android/src/main/java/com/polidea/reactnativeble/BleClientManager.java:194 | `getType` reports `Number`, `Boolean`, `String`, ... exactly for a value of that kind |
| JsValues.HasKeyOfType | android/src/main/java/com/polidea/reactnativeble/BleClientManager.java:194-197 | a missing key never passes; a present key passes exactly when `getType` reports the expected type, and then its value is of the kind the typed getter reads |
| JsValues.Truncate | android/src/main/java/com/polidea/reactnativeble/BleClientManager.java:195 | the integer part of a number, rounded toward zero, lies within one of it on the side of zero |
| JsValues.JavaIntCast | android/src/main/java/com/polidea/reactnativeble/BleClientManager.java:195 | `getInt` gives the truncated number when it fits in an `int`, and otherwise saturates at the nearer bound |
| JsValues.WritableArray.constructor | android/src/main/java/com/polidea/reactnativeble/BleClientManager.java:391 | a new array is empty |
| JsValues.WritableArray.PushNull | android/src/main/java/com/polidea/reactnativeble/BleClientManager.java:392 | `pushNull` appends `null` and keeps the earlier elements |
| JsValues.WritableArray.PushMap | android/src/main/java/com/polidea/reactnativeble/BleClientManager.java:395 | `pushMap` appends the map and keeps the earlier elements |
| JsValues.WritableArray.PushString | android/src/main/java/com/polidea/reactnativeble/BleClientManager.java:754 | `pushString` appends the string, or `null` for a null string |
| JsValues.WritableMap.constructor | android/src/main/java/com/polidea/reactnativeble/BleClientManager.java:393 | a new map is empty |
| JsValues.WritableMap.PutString | android/src/main/java/com/polidea/reactnativeble/BleClientManager.java:394 | `putString` sets one key and leaves the others |
| MessageBuilder.Payload | src/BleMessageBuilder.js:9-11 | the payload is the packet minus its first two bytes, and empty for a packet shorter than two |
| MessageBuilder.Enqueue | src/BleMessageBuilder.js:5-19 | a thrown exception leaves the state unchanged and builds nothing; at most one message is built per packet |
| MessageBuilder.EnqueueRefuses | src/BleMessageBuilder.js:6-7 | an empty packet throws a range error; `Message skipped!` is thrown exactly when a message is in progress and the counter is not the previous one minus 1 |
| MessageBuilder.RefusedPacketChangesNothing | src/BleMessageBuilder.js:7 | on `Message skipped!` both fields stay as they were and no callback is made, because the check precedes every write |
| MessageBuilder.IdleAcceptsAnyCounter | src/BleMessageBuilder.js:7-13 | an idle builder accepts any counter 0..255 as the start of a new message |
| MessageBuilder.FinalPacketDelivers | src/BleMessageBuilder.js:8-17 | an accepted counter-0 packet calls `onMessageBuilt` once, with the message so far plus this payload, and leaves the builder idle |
| MessageBuilder.PartialPacketAppends | src/BleMessageBuilder.js:8-13 | an accepted non-zero counter makes no callback, records the counter and appends only bytes 2.. to the message |
| MessageBuilder.EnqueueKeepsValid | src/BleMessageBuilder.js:9-17 | `_awaiting` is defined iff `_currentMsg` is, and when defined it is at least 1, before and after every call |
| MessageBuilder.FeedKeepsValid | src/BleMessageBuilder.js:5-19 | the invariant holds after any sequence of calls, with exceptions caught |
| MessageBuilder.FeedCompletingPacket | src/BleMessageBuilder.js:14-17 | a packet that completes the message delivers it, throws nothing, and leaves the builder idle |
| MessageBuilder.FeedAcceptedPacket | src/BleMessageBuilder.js:8-13 | a packet accepted without completing the message only moves the builder to its next state |
| MessageBuilder.FeedAppend | src/BleMessageBuilder.js:5-19 | feeding two packet sequences one after the other is feeding their concatenation |
| MessageBuilder.FeedRestOfMessage | src/BleMessageBuilder.js:7-17 | a builder awaiting exactly k more packets, fed the last k numbered chunks, delivers what it held followed by every chunk |
| MessageBuilder.RoundTrip | src/BleMessageBuilder.js:6-17 | a message cut into 1..256 chunks, numbered k-1 down to 0 and fed from idle, is delivered exactly once and whole; nothing is thrown and the builder ends idle |
| MessageBuilder.FeedNumberedPrefix | src/BleMessageBuilder.js:7-13 | the first j of k numbered packets leave the builder holding the first j chunks and awaiting k-j |
| MessageBuilder.FeedAllSkipped | src/BleMessageBuilder.js:7 | while a message is in progress, every packet with a wrong counter is refused and changes nothing |
| MessageBuilder.LostMiddlePacketDetected | src/BleMessageBuilder.js:7 | when a packet in the middle is lost, nothing is delivered, every later packet of the same message throws `Message skipped!`, and the builder keeps the part before the gap |
| MessageBuilder.StrandedPartResumes | src/BleMessageBuilder.js:7-17 | a builder left holding a part and awaiting n packets refuses the next message's packets until the one numbered n-1, then delivers the old part followed by that message's last n chunks, as one message |
| MessageBuilder.StrandedPartSkipsShortMessage | src/BleMessageBuilder.js:7 | a next message with fewer chunks than such a builder awaits is refused packet by packet, and the builder is left as it was |
| MessageBuilder.LostMiddlePacketSplicesNext | src/BleMessageBuilder.js:7-17 | after a lost middle packet, a next message with enough chunks is delivered spliced: the first message's head followed by the next message's last chunks, after one refusal per skipped packet |
| MessageBuilder.LostLastPacketSplicesNext | src/BleMessageBuilder.js:7-17 | a lost last packet raises no error; the next message's packets are refused up to its last, whose chunk is delivered behind the first message's head |
| MessageBuilder.LostFirstPacketUndetected | src/BleMessageBuilder.js:7-17 | when the first packet is lost, no error is raised and the message is delivered without its first chunk |
| MessageBuilder.BleMessageBuilder.constructor | src/BleMessageBuilder.js:4-21 | a new builder has both fields undefined and has built nothing |
| MessageBuilder.BleMessageBuilder.EnqueuePacket | src/BleMessageBuilder.js:5-19 | the fields and the callback log change exactly as the step function says; the invariant is kept; nothing changes when an exception is thrown |
| ExceptionConverter.StringBuilder.constructor | android/src/main/java/com/polidea/reactnativeble/converter/GenericExceptionConverter.java:19 | a new builder is empty |
| ExceptionConverter.StringBuilder.Append | android/src/main/java/com/polidea/reactnativeble/converter/GenericExceptionConverter.java:20-40 | `append(String)` adds the string at the end and keeps the earlier content |
| ExceptionConverter.StringBuilder.AppendInt | android/src/main/java/com/polidea/reactnativeble/converter/GenericExceptionConverter.java:23 | `append(int)` adds the decimal numeral of the number at the end |
| ExceptionConverter.Decimal | android/src/main/java/com/polidea/reactnativeble/converter/GenericExceptionConverter.java:23 | the numeral is a non-empty string of digits with no leading zero, a single digit below ten |
| ExceptionConverter.DecimalValue | android/src/main/java/com/polidea/reactnativeble/converter/GenericExceptionConverter.java:23 | the numeral that `append(int)` writes reads back as the number appended |
| ExceptionConverter.ErrorMembersShape | android/src/main/java/com/polidea/reactnativeble/converter/GenericExceptionConverter.java:20-38 | the ten keys come in the fixed order; the reason is the message verbatim, or `null` when there is none; the five identifiers are the string "null"; only `iosErrorCode` has a blank after its colon |
| ExceptionConverter.CommaMemberText | android/src/main/java/com/polidea/reactnativeble/converter/GenericExceptionConverter.java:45-56 | what `appendString` writes is a comma followed by the member rendered as JSON |
| ExceptionConverter.ErrorCodeText | android/src/main/java/com/polidea/reactnativeble/converter/GenericExceptionConverter.java:20-23 | the opening brace and `"errorCode":0` are the first member, rendered |
| ExceptionConverter.AttErrorCodeText | android/src/main/java/com/polidea/reactnativeble/converter/GenericExceptionConverter.java:25-26 | `,"attErrorCode":null` is the second member, rendered |
| ExceptionConverter.IosErrorCodeText | android/src/main/java/com/polidea/reactnativeble/converter/GenericExceptionConverter.java:28 | `,"iosErrorCode": null`, with its blank, is the third member, rendered |
| ExceptionConverter.AndroidErrorCodeText | android/src/main/java/com/polidea/reactnativeble/converter/GenericExceptionConverter.java:30-31 | `,"androidErrorCode":null` is the fourth member, rendered |
| ExceptionConverter.OpeningCodes | android/src/main/java/com/polidea/reactnativeble/converter/GenericExceptionConverter.java:20-31 | the first four members, rendered, are the four error codes exactly as appended |
| ExceptionConverter.OpeningThroughReason | android/src/main/java/com/polidea/reactnativeble/converter/GenericExceptionConverter.java:20-33 | the first five members, rendered, are the fixed prefix followed by the reason |
| ExceptionConverter.IdentifierMembers | android/src/main/java/com/polidea/reactnativeble/converter/GenericExceptionConverter.java:34-38 | the last five members are the identifiers in order, each the unspaced string "null" |
| ExceptionConverter.OpeningAfterReason | android/src/main/java/com/polidea/reactnativeble/converter/GenericExceptionConverter.java:34-38 | each identifier member follows the reason as `appendString` writes it |
| ExceptionConverter.ErrorJsonText | android/src/main/java/com/polidea/reactnativeble/converter/GenericExceptionConverter.java:17-43 | the error text is the fixed prefix, then the reason, then the fixed trailer |
| ExceptionConverter.ErrorJsonFrame | android/src/main/java/com/polidea/reactnativeble/converter/GenericExceptionConverter.java:20-40 | the text starts with the four error codes, with the blank after the `iosErrorCode` colon, and the reason key, and ends with `}` |
| ExceptionConverter.ReasonRecovered | android/src/main/java/com/polidea/reactnativeble/converter/GenericExceptionConverter.java:33-55 | the message can be read back from between the fixed prefix and trailer, even when it holds quotes; a null message reads back as null |
| ExceptionConverter.ErrorJsonInjective | android/src/main/java/com/polidea/reactnativeble/converter/GenericExceptionConverter.java:17-43 | different messages give different texts; a null message and the message "null" are told apart |
| ExceptionConverter.AppendString | android/src/main/java/com/polidea/reactnativeble/converter/GenericExceptionConverter.java:45-56 | appends `,"key":` and then `null` or `"value"`; the earlier content is kept as a prefix |
| ExceptionConverter.ToJs | android/src/main/java/com/polidea/reactnativeble/converter/GenericExceptionConverter.java:17-43 | the appends produce the rendering of the ten-member error object, which depends on the exception only through its message, and the message reads back from the text |
| ExceptionConverter.ToJSCallback | android/src/main/java/com/polidea/reactnativeble/converter/GenericExceptionConverter.java:10-15 | `pushString` and `pushNull` fill a new array with the error text and then `null` |
| ClientManager.ConstantsOfEntries | android/src/main/java/com/polidea/reactnativeble/BleClientManager.java:66-72 | the table holds exactly the names of the events iterated over, each mapped to itself |
| ClientManager.ConstantsOfSize | android/src/main/java/com/polidea/reactnativeble/BleClientManager.java:66-72 | values with distinct names give one entry per value |
| ClientManager.GetConstants | android/src/main/java/com/polidea/reactnativeble/BleClientManager.java:66-72 | the loop builds six entries, one per event, each mapping the name to itself, and every key names an event |
| ClientManager.OptionsReadOwnKey | android/src/main/java/com/polidea/reactnativeble/BleClientManager.java:194-199 | an option's value depends only on what its own key holds |
| ClientManager.WrongTypeIgnored | android/src/main/java/com/polidea/reactnativeble/BleClientManager.java:194-199 | a value of the wrong type is ignored silently, as if the key were missing; missing options give the default |
| ClientManager.NumberOverrides | android/src/main/java/com/polidea/reactnativeble/BleClientManager.java:194-196 | a whole number that fits in an `int` overrides the default with itself |
| ClientManager.ResolveScanOptions | android/src/main/java/com/polidea/reactnativeble/BleClientManager.java:186-200 | scanMode defaults to 0 and callbackType to 1; each is replaced by `getInt` only when its key holds a Number |
| ClientManager.Widen | android/src/main/java/com/polidea/reactnativeble/BleClientManager.java:379 | a null timeout stays null; any other timeout is the same number as a `long` |
| ClientManager.ConnectionDefaults | android/src/main/java/com/polidea/reactnativeble/BleClientManager.java:350-354 | without options, or without any of the five keys, the result is autoConnect false, requestMtu 0, refreshGatt null, timeout null, connectionPriority 0 |
| ClientManager.ConnectionFieldsIndependent | android/src/main/java/com/polidea/reactnativeble/BleClientManager.java:356-372 | each connection option depends only on its own key |
| ClientManager.TimeoutPassedOn | android/src/main/java/com/polidea/reactnativeble/BleClientManager.java:366-379 | the timeout is passed on exactly when its key holds a Number, as that number's `int` value |
| ClientManager.ResolveConnectionOptions | android/src/main/java/com/polidea/reactnativeble/BleClientManager.java:347-380 | the if-chain builds the connection options from their defaults and the well-typed keys |
| ClientManager.DisconnectionPayloadRoundTrip | android/src/main/java/com/polidea/reactnativeble/BleClientManager.java:391-395 | the device id reads back from the disconnection payload |
| ClientManager.OnConnectionStateChange | android/src/main/java/com/polidea/reactnativeble/BleClientManager.java:389-397 | one `DisconnectionEvent` with payload `[null, {id: deviceId}]` for `DISCONNECTED`; nothing for any other state |
| ClientManager.ReadPayloadRoundTrip | android/src/main/java/com/polidea/reactnativeble/BleClientManager.java:751-754 | the characteristic and the transaction id read back from the monitored-value payload |
| ClientManager.OnMonitoredValue | android/src/main/java/com/polidea/reactnativeble/BleClientManager.java:750-756 | each monitored value emits one `ReadEvent` with payload `[null, characteristic, transactionId]` |

## Left out

- The `bleAdapter.*` calls in `BleClientManager.java` are not modelled. They forward to the external BLE adapter library, whose code is not part of this model. The same holds for promise and `SafePromise` resolution, and for the converters other than the generic exception converter. `OnMonitoredValue` takes the characteristic already converted to a map.
- `sendEvent` is not modelled, because it is the React Native event emitter's I/O. The callbacks return the emissions they would send.
- The `catch (Exception e)` wrappers that send `NullAdapterEvent` are not modelled. They only swallow a missing adapter at run time.
- `ReadableArrayConverter.toStringArray` is not modelled; it converts the scan's UUID filter for the adapter.
- `RefreshGattMoment.getByName` is foreign code, so it is a function parameter of `ResolveConnectionOptions`. It may return null.
- `ConnectionState` comes from the adapter library. It is modelled with its four states.
- `Arguments.createArray()` and `Arguments.createMap()` are the constructors of `WritableArray` and `WritableMap`. The array that `toJs` creates and never uses is not modelled.
- `src/BlePlxV2xRxMsgSrc.js` is not modelled. It is asynchronous orchestration: promise chains, rxjs subjects, a `setTimeout` reconnect loop, and a `BleManager` that is not part of this model. Its line 79 calls an undeclared `bleMessageBuilder`, not the instance's builder, so the reassembler is never reached from there. The resulting error is caught and logged.
- `index.js` only re-exports.
- MessageBuilder.BleMessageBuilder.EnqueuePacket: packets are values. The aliasing between a JavaScript `subarray` and its packet's buffer is not modelled.
- MessageBuilder.BleMessageBuilder.EnqueuePacket: the `onMessageBuilt` callback is a log of its arguments. A callback that throws is not modelled; in the source it would leave `_awaiting` at 0 and the builder refusing every later packet.
- JsValues.JavaIntCast: NaN and the infinities are not modelled. Bridge numbers here are finite reals.
- ClientManager.OnMonitoredValue: one method stands for the three identical value callbacks, at `BleClientManager.java` lines 750-756, 780-786 and 810-816.
- ClientManager.OnConnectionStateChange: a null `deviceId` is not modelled.
- ExceptionConverter.ToJs: the reason is written unescaped, as in the source. A message containing a quote, a backslash or a control character therefore gives text that is not valid JSON. `ReasonRecovered` reads it back by position, not with a JSON parser.
