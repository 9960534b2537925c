/** The self-contained logic inside `BleClientManager`: the constants table, the parsing of scan and
    connection options into their defaults and overrides, and the payloads of the disconnection and
    monitored-value events. Everything it forwards to the BLE adapter is outside this model. */
module ClientManager {
  import opened Nullable
  import opened JsValues
  import opened Events

  // ---------------------------------------------------------------------------------------------------
  // getConstants

  /** The table `getConstants` fills from the values `es`, one `put(name(e), name(e))` after the other. */
  function ConstantsOf<T>(es: seq<T>, name: T -> string): map<string, string>
    decreases |es|
  {
    if es == [] then map[]
    else ConstantsOf(es[..|es| - 1], name)[name(es[|es| - 1]) := name(es[|es| - 1])]
  }

  /** The table holds the names of `es`, each mapped to itself, and nothing else. */
  lemma {:induction false} ConstantsOfEntries<T>(es: seq<T>, name: T -> string)
    ensures forall k :: k in ConstantsOf(es, name) ==> ConstantsOf(es, name)[k] == k
    ensures forall k :: k in ConstantsOf(es, name) <==> exists j :: 0 <= j < |es| && name(es[j]) == k
    decreases |es|
  {
    if es != [] {
      var init := es[..|es| - 1];
      ConstantsOfEntries(init, name);
      forall k | k in ConstantsOf(es, name)
        ensures exists j :: 0 <= j < |es| && name(es[j]) == k
      {
        if k != name(es[|es| - 1]) {
          assert k in ConstantsOf(init, name);
          var j :| 0 <= j < |init| && name(init[j]) == k;
          assert name(es[j]) == k;
        }
      }
      forall k | exists j :: 0 <= j < |es| && name(es[j]) == k
        ensures k in ConstantsOf(es, name)
      {
        var j :| 0 <= j < |es| && name(es[j]) == k;
        if j < |init| {
          assert name(init[j]) == k;
        }
      }
    }
  }

  /** Values with distinct names give a table with one entry per value. */
  lemma {:induction false} ConstantsOfSize<T>(es: seq<T>, name: T -> string)
    requires forall i, j :: 0 <= i < j < |es| ==> name(es[i]) != name(es[j])
    ensures |ConstantsOf(es, name)| == |es|
    decreases |es|
  {
    if es != [] {
      var init := es[..|es| - 1];
      ConstantsOfSize(init, name);
      ConstantsOfEntries(init, name);
    }
  }

  /** `getConstants()`: a map from each event's name to that same name. */
  method GetConstants() returns (constants: map<string, string>)
    ensures constants == ConstantsOf(Values, Name)
    ensures |constants| == 6
    ensures forall e: Event :: Name(e) in constants && constants[Name(e)] == Name(e)
    ensures forall k :: k in constants ==> EventNamed(k).Some?
  {
    constants := map[];
    for i := 0 to |Values|
      invariant constants == ConstantsOf(Values[..i], Name)
    {
      var event := Values[i];
      assert Values[..i + 1][..i] == Values[..i];
      constants := constants[Name(event) := Name(event)];
    }
    assert Values[..|Values|] == Values;
    ValuesEnumerateEvents();
    forall i, j | 0 <= i < j < |Values|
      ensures Name(Values[i]) != Name(Values[j])
    {
      NameInjective(Values[i], Values[j]);
    }
    ConstantsOfSize(Values, Name);
    ConstantsOfEntries(Values, Name);
    forall e: Event
      ensures Name(e) in constants && constants[Name(e)] == Name(e)
    {
      assert Name(Values[Ordinal(e)]) == Name(e);
    }
    forall k | k in constants
      ensures EventNamed(k).Some?
    {
      var j :| 0 <= j < |Values| && Name(Values[j]) == k;
      EventNamedName(Values[j]);
    }
  }

  // ---------------------------------------------------------------------------------------------------
  // Options: a default, replaced by the option only when its key is present with the expected type

  /** An `int` option: `getInt(key)` when the key holds a Number, `default` otherwise. */
  function IntOption(options: Option<ReadableMap>, key: string, default: int32): int32 {
    if options.Some? && HasKeyOfType(options.value, key, Number) then JavaIntCast(options.value[key].n)
    else default
  }

  /** A `boolean` option: `getBoolean(key)` when the key holds a Boolean, `default` otherwise. */
  function BoolOption(options: Option<ReadableMap>, key: string, default: bool): bool {
    if options.Some? && HasKeyOfType(options.value, key, Boolean) then options.value[key].b
    else default
  }

  /** A `String` option: `getString(key)` when the key holds a String, absent otherwise. */
  function StringOption(options: Option<ReadableMap>, key: string): Option<string> {
    if options.Some? && HasKeyOfType(options.value, key, String) then Some(options.value[key].s)
    else None
  }

  /** The two maps say the same about `key`: both lack it, or both hold the same value under it. */
  predicate SameAt(m1: ReadableMap, m2: ReadableMap, key: string) {
    (key in m1 <==> key in m2) && (key in m1 ==> m1[key] == m2[key])
  }

  /** An option is read from its own key only: whatever the other keys hold, and whether or not the
      options exist, what the key says decides the value. */
  lemma OptionsReadOwnKey(m1: ReadableMap, m2: ReadableMap, key: string, d: int32, b: bool)
    requires SameAt(m1, m2, key)
    ensures IntOption(Some(m1), key, d) == IntOption(Some(m2), key, d)
    ensures BoolOption(Some(m1), key, b) == BoolOption(Some(m2), key, b)
    ensures StringOption(Some(m1), key) == StringOption(Some(m2), key)
  {
  }

  /** A value of the wrong type under the key is ignored silently, as if the key were missing; so are
      missing options. */
  lemma WrongTypeIgnored(m: ReadableMap, key: string, v: JsValue, d: int32, b: bool)
    ensures TypeOf(v) != Number ==> IntOption(Some(m[key := v]), key, d) == IntOption(Some(m - {key}), key, d) == d
    ensures TypeOf(v) != Boolean ==> BoolOption(Some(m[key := v]), key, b) == BoolOption(Some(m - {key}), key, b) == b
    ensures TypeOf(v) != String ==> StringOption(Some(m[key := v]), key) == StringOption(Some(m - {key}), key) == None
    ensures IntOption(None, key, d) == d && BoolOption(None, key, b) == b && StringOption(None, key) == None
  {
  }

  /** A Number under the key overrides the default with its `int` value: the number itself when it is a
      whole number that fits in an `int`. */
  lemma NumberOverrides(m: ReadableMap, key: string, x: int32, d: int32)
    ensures IntOption(Some(m[key := JNumber(x as real)]), key, d) == x
  {
    assert Truncate(x as real) == x as int;
  }

  // ---------------------------------------------------------------------------------------------------
  // startDeviceScan

  /** `DEFAULT_SCAN_MODE_LOW_POWER` and `DEFAULT_CALLBACK_TYPE_ALL_MATCHES` */
  const DefaultScanMode: int32 := 0
  const DefaultCallbackType: int32 := 1

  /** The scan settings `startDeviceScan` derives from its options. */
  method ResolveScanOptions(options: Option<ReadableMap>) returns (scanMode: int32, callbackType: int32)
    ensures scanMode == IntOption(options, "scanMode", DefaultScanMode)
    ensures callbackType == IntOption(options, "callbackType", DefaultCallbackType)
    ensures options.None? ==> scanMode == 0 && callbackType == 1
    ensures options.Some? && HasKeyOfType(options.value, "scanMode", Number) ==>
              scanMode == JavaIntCast(options.value["scanMode"].n)
    ensures !(options.Some? && HasKeyOfType(options.value, "scanMode", Number)) ==> scanMode == 0
    ensures options.Some? && HasKeyOfType(options.value, "callbackType", Number) ==>
              callbackType == JavaIntCast(options.value["callbackType"].n)
    ensures !(options.Some? && HasKeyOfType(options.value, "callbackType", Number)) ==> callbackType == 1
  {
    scanMode := DefaultScanMode;
    callbackType := DefaultCallbackType;

    if options.Some? {
      var opts := options.value;
      if "scanMode" in opts && TypeOf(opts["scanMode"]) == Number {
        scanMode := JavaIntCast(opts["scanMode"].n);
      }
      if "callbackType" in opts && TypeOf(opts["callbackType"]) == Number {
        callbackType := JavaIntCast(opts["callbackType"].n);
      }
    }
  }

  // ---------------------------------------------------------------------------------------------------
  // connectToDevice

  /** The adapter's `ConnectionOptions`, with the refresh moment of type `M` (`RefreshGattMoment`). */
  datatype ConnectionOptions<M> = ConnectionOptions(
    autoConnect: bool,
    requestMtu: int32,
    refreshGattMoment: Option<M>,
    timeout: Option<int64>,
    connectionPriority: int32)

  /** `timeout != null ? timeout.longValue() : null`: the same number, widened to `long`. */
  function Widen(timeout: Option<int32>): (r: Option<int64>)
    ensures r.Some? <==> timeout.Some?
    ensures r.Some? ==> r.value as int == timeout.value as int
  {
    if timeout.Some? then Some(timeout.value as int as int64) else None
  }

  /** The `Integer timeout` variable: null unless the key holds a Number. */
  function TimeoutOption(options: Option<ReadableMap>): Option<int32> {
    if options.Some? && HasKeyOfType(options.value, "timeout", Number) then Some(JavaIntCast(options.value["timeout"].n))
    else None
  }

  /** The connection options `connectToDevice` derives from its options; `getByName` is
      `RefreshGattMoment.getByName`, which may give null. */
  function ConnectionOptionsOf<M>(options: Option<ReadableMap>, getByName: string -> Option<M>): ConnectionOptions<M> {
    var refresh := StringOption(options, "refreshGatt");
    ConnectionOptions(
      BoolOption(options, "autoConnect", false),
      IntOption(options, "requestMTU", 0),
      if refresh.Some? then getByName(refresh.value) else None,
      Widen(TimeoutOption(options)),
      IntOption(options, "connectionPriority", 0))
  }

  /** Without options, or with none of the five keys, every field keeps its default. */
  lemma ConnectionDefaults<M>(options: Option<ReadableMap>, getByName: string -> Option<M>)
    requires options.Some? ==> forall k :: k in options.value ==>
               k !in ["autoConnect", "requestMTU", "refreshGatt", "timeout", "connectionPriority"]
    ensures ConnectionOptionsOf(options, getByName) == ConnectionOptions(false, 0, None, None, 0)
  {
    if options.Some? {
      var keys := ["autoConnect", "requestMTU", "refreshGatt", "timeout", "connectionPriority"];
      assert "autoConnect" == keys[0] && "requestMTU" == keys[1] && "refreshGatt" == keys[2];
      assert "timeout" == keys[3] && "connectionPriority" == keys[4];
    }
  }

  /** Each field depends on its own key only. */
  lemma ConnectionFieldsIndependent<M>(m1: ReadableMap, m2: ReadableMap, getByName: string -> Option<M>)
    ensures SameAt(m1, m2, "autoConnect") ==>
              ConnectionOptionsOf(Some(m1), getByName).autoConnect == ConnectionOptionsOf(Some(m2), getByName).autoConnect
    ensures SameAt(m1, m2, "requestMTU") ==>
              ConnectionOptionsOf(Some(m1), getByName).requestMtu == ConnectionOptionsOf(Some(m2), getByName).requestMtu
    ensures SameAt(m1, m2, "refreshGatt") ==>
              ConnectionOptionsOf(Some(m1), getByName).refreshGattMoment
              == ConnectionOptionsOf(Some(m2), getByName).refreshGattMoment
    ensures SameAt(m1, m2, "timeout") ==>
              ConnectionOptionsOf(Some(m1), getByName).timeout == ConnectionOptionsOf(Some(m2), getByName).timeout
    ensures SameAt(m1, m2, "connectionPriority") ==>
              ConnectionOptionsOf(Some(m1), getByName).connectionPriority
              == ConnectionOptionsOf(Some(m2), getByName).connectionPriority
  {
  }

  /** The timeout is passed on exactly when the key holds a Number, as that number's `int` value. */
  lemma TimeoutPassedOn<M>(options: Option<ReadableMap>, getByName: string -> Option<M>)
    ensures ConnectionOptionsOf(options, getByName).timeout.Some?
            <==> options.Some? && HasKeyOfType(options.value, "timeout", Number)
    ensures ConnectionOptionsOf(options, getByName).timeout.Some? ==>
              ConnectionOptionsOf(options, getByName).timeout.value as int
              == JavaIntCast(options.value["timeout"].n) as int
  {
  }

  /** The connection options `connectToDevice` hands to the adapter. */
  method ResolveConnectionOptions<M>(options: Option<ReadableMap>, getByName: string -> Option<M>)
    returns (connection: ConnectionOptions<M>)
    ensures connection == ConnectionOptionsOf(options, getByName)
    ensures options.None? ==> connection == ConnectionOptions(false, 0, None, None, 0)
  {
    var autoConnect := false;
    var requestMtu: int32 := 0;
    var refreshGattMoment: Option<M> := None;
    var timeout: Option<int32> := None;
    var connectionPriority: int32 := 0;

    if options.Some? {
      var opts := options.value;
      if "autoConnect" in opts && TypeOf(opts["autoConnect"]) == Boolean {
        autoConnect := opts["autoConnect"].b;
      }
      if "requestMTU" in opts && TypeOf(opts["requestMTU"]) == Number {
        requestMtu := JavaIntCast(opts["requestMTU"].n);
      }
      if "refreshGatt" in opts && TypeOf(opts["refreshGatt"]) == String {
        refreshGattMoment := getByName(opts["refreshGatt"].s);
      }
      if "timeout" in opts && TypeOf(opts["timeout"]) == Number {
        timeout := Some(JavaIntCast(opts["timeout"].n));
      }
      if "connectionPriority" in opts && TypeOf(opts["connectionPriority"]) == Number {
        connectionPriority := JavaIntCast(opts["connectionPriority"].n);
      }
    }
    connection := ConnectionOptions(autoConnect, requestMtu, refreshGattMoment,
                                    Widen(timeout),
                                    connectionPriority);
  }

  // ---------------------------------------------------------------------------------------------------
  // Event payloads

  /** The adapter's `ConnectionState`. */
  datatype ConnectionState = Connecting | Connected | Disconnected | Disconnecting

  /** One `sendEvent(event, payload)` call. */
  datatype Emission = Emission(event: Event, payload: seq<JsValue>)

  /** The payload of a disconnection: no error, then `{id: deviceId}`. */
  function DisconnectionPayload(deviceId: string): seq<JsValue> {
    [JNull, JMap(map["id" := JString(deviceId)])]
  }

  /** How JavaScript reads a disconnection payload: the device id, if the payload has that shape. */
  function DisconnectedDevice(payload: seq<JsValue>): Option<string> {
    if |payload| == 2 && payload[0] == JNull && payload[1].JMap? && "id" in payload[1].entries
       && payload[1].entries["id"].JString?
    then Some(payload[1].entries["id"].s)
    else None
  }

  /** The device id can be read back from a disconnection payload. */
  lemma DisconnectionPayloadRoundTrip(deviceId: string)
    ensures DisconnectedDevice(DisconnectionPayload(deviceId)) == Some(deviceId)
  {
  }

  /** The connection-state callback of `connectToDevice`: a `DisconnectionEvent` for `DISCONNECTED`,
      nothing for any other state. */
  method OnConnectionStateChange(deviceId: string, connectionState: ConnectionState) returns (emitted: seq<Emission>)
    ensures |emitted| <= 1
    ensures emitted != [] <==> connectionState == Disconnected
    ensures emitted != [] ==>
              emitted[0].event == DisconnectionEvent && emitted[0].payload == DisconnectionPayload(deviceId)
    ensures emitted != [] ==> DisconnectedDevice(emitted[0].payload) == Some(deviceId)
  {
    emitted := [];
    if connectionState == Disconnected {
      var event := new WritableArray();
      event.PushNull();
      var device := new WritableMap();
      device.PutString("id", Some(deviceId));
      event.PushMap(device.entries);
      emitted := emitted + [Emission(DisconnectionEvent, event.elements)];
      DisconnectionPayloadRoundTrip(deviceId);
    }
  }

  /** The payload of a monitored value: no error, the characteristic, the transaction id. */
  function ReadPayload(characteristic: map<string, JsValue>, transactionId: Option<string>): seq<JsValue> {
    [JNull, JMap(characteristic), if transactionId.None? then JNull else JString(transactionId.value)]
  }

  /** A monitored value as JavaScript reads it back. */
  datatype Reading = Reading(characteristic: map<string, JsValue>, transactionId: Option<string>)

  /** How JavaScript reads a monitored-value payload: the characteristic and the transaction id, if the
      payload has that shape. */
  function ReadingOf(payload: seq<JsValue>): Option<Reading> {
    if |payload| == 3 && payload[0] == JNull && payload[1].JMap? && (payload[2].JNull? || payload[2].JString?)
    then Some(Reading(payload[1].entries, if payload[2].JNull? then None else Some(payload[2].s)))
    else None
  }

  /** The characteristic and the transaction id can be read back from a monitored-value payload. */
  lemma ReadPayloadRoundTrip(characteristic: map<string, JsValue>, transactionId: Option<string>)
    ensures ReadingOf(ReadPayload(characteristic, transactionId)) == Some(Reading(characteristic, transactionId))
  {
  }

  /** The value callback of the `monitorCharacteristic*` methods: one `ReadEvent` per value, carrying the
      converted characteristic and the transaction id of the monitoring call. */
  method OnMonitoredValue(characteristic: map<string, JsValue>, transactionId: Option<string>)
    returns (emitted: Emission)
    ensures emitted.event == ReadEvent
    ensures emitted.payload == ReadPayload(characteristic, transactionId)
    ensures ReadingOf(emitted.payload) == Some(Reading(characteristic, transactionId))
  {
    var jsResult := new WritableArray();
    jsResult.PushNull();
    jsResult.PushMap(characteristic);
    jsResult.PushString(transactionId);
    emitted := Emission(ReadEvent, jsResult.elements);
    ReadPayloadRoundTrip(characteristic, transactionId);
  }
}
