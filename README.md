# shelly2mqtt translation logic in Dafny

shelly2mqtt is a bridge between Shelly home-automation devices, which speak
plain HTTP, and an MQTT broker. It has two data paths:

- **Sensor events, HTTP to MQTT.** A door or motion sensor requests
  `/door/<room>/<command>` or `/motion/<room>/<command>`. The bridge publishes
  a retained QoS 0 message on `<prefix>door/<room>` with payload
  `{"onoff": command == "off"}`, or on `<prefix>motion/<room>` with payload
  `{"command": command}`.
- **Relay commands, MQTT to HTTP.** The bridge subscribes to
  `<prefix>cmd/relay/#`. For a message on `<prefix>cmd/relay/<room>/<command>`
  it picks a device URL by room and requests it. Only `bathroom` has a device,
  `http://10.0.0.68/relay/0?turn=<command>`.

All three handlers take their input apart the same way. They call Go's
`strings.TrimPrefix` to strip a known prefix, and only if it is there. They
call `strings.Split` on `"/"` to split the rest. They accept the result only
if there are exactly two pieces, the room and the command.

The model is a set of pure functions over strings (`seq<char>`). The topic
prefix (the `mqtt_topic` flag) is an explicit parameter.

- `GoStrings` (gostrings.dfy) models `TrimPrefix`, `IndexByte`, `Split` and
  `Join` from Go's `strings` package, for one-character separators. It proves
  that `Split` yields one more piece than there are separators, that no piece
  holds the separator, and that `Split` and `Join` are inverses.
- `Addresses` (addresses.dfy) is the shared two-piece parser, `ParseSuffix`.
- `Mqtt` (mqtt.dfy) is topic-filter matching as a broker performs it, from
  section 4.7 of the MQTT Version 3.1.1 standard (`+` matches one level; `#`
  matches the remaining levels, including none). It is there only to state
  what the subscription delivers to the command handler.
- `Bridge` (bridge.dfy) holds the room router, the relay-command handler, the
  door and motion handlers with their message records, the subscription
  strings and the door payload's JSON text.

Two details of the code that the model keeps:

- The parser accepts empty pieces: `"a/"`, `"/b"` and `"/"` all parse
  (shelly2mqtt.go:33-39).
- Every room but `bathroom`, `kitchen` included, leaves the URL empty, and
  `http.Get` is still called with it (shelly2mqtt.go:41-49). The model's
  outcome is `HttpGet("")`, meaning "no device target".

`Route` is a Dafny function, so it is a pure function of room and command.

## Model

| member | source | states |
|---|---|---|
| GoStrings.TrimPrefix | shelly2mqtt.go:33 | The prefix is removed only when the input starts with it, and then prefix + result is the input. Otherwise the input is returned unchanged. |
| GoStrings.Split | shelly2mqtt.go:33 | Splitting on '/' gives one piece more than the input has '/' characters (so "" gives one empty piece). No piece holds a '/'. Joining the pieces with '/' gives back the input. |
| GoStrings.SplitJoin | shelly2mqtt.go:95 | Split gives back any non-empty list of '/'-free pieces from its join, empty pieces included. |
| GoStrings.SplitAround | shelly2mqtt.go:133 | Splitting at a '/' is the same as splitting each side on its own and putting the two lists together. |
| GoStrings.SplitPrefix | shelly2mqtt.go:79 | The pieces of q begin the pieces of t exactly when t is q itself or continues q with a '/'. |
| Addresses.ParseSuffix | shelly2mqtt.go:33-39 | Parsing succeeds exactly when the suffix left after TrimPrefix holds exactly one '/'. Room and command are then the '/'-free text before and after it. A failure keeps the pieces (never two of them), which join back to the suffix. |
| Addresses.ParseRoundTrip | shelly2mqtt.go:95-101 | For any '/'-free room and command, parsing prefix + room + "/" + command gives exactly that room and command, case and characters unchanged. |
| Addresses.ParseWithoutPrefix | shelly2mqtt.go:133 | An input that does not start with the prefix is split as a whole. |
| Addresses.EmptyPiecesAccepted | shelly2mqtt.go:134-139 | "a/", "/b" and "/" parse, each with an empty room or command. |
| Addresses.EmptySuffixRejected | shelly2mqtt.go:96-99 | Nothing after the prefix is one empty piece, so the input is malformed. |
| Addresses.ThreePiecesRejected | shelly2mqtt.go:34-37 | A suffix with three '/'-free pieces is malformed. |
| Mqtt.MultiLevelFilter | shelly2mqtt.go:79 | A wildcard-free base followed by "/#" matches the base itself and every topic that continues it with '/', and nothing else. |
| Bridge.CommandTopicPrefix | shelly2mqtt.go:33 | The stripped command prefix extends the topic prefix by ten characters and ends in '/'. Its value, prefix + "cmd/relay/", is stated by Bridge.CommandTopicShape. |
| Bridge.CommandTopicShape | shelly2mqtt.go:33 | The command prefix is prefix + "cmd/relay" + "/" and the subscription pattern is prefix + "cmd/relay" + "/#"; both inherit the prefix's freedom from wildcard characters. |
| Bridge.SubscriptionPattern | shelly2mqtt.go:79 | The subscription pattern is the stripped command prefix followed by "#". |
| Bridge.Route | shelly2mqtt.go:41-48 | The URL is non-empty exactly for room "bathroom". It then starts with the relay's base URL, and the rest is the command. Every other room, "kitchen" included, gives "". |
| Bridge.RouteIsTableLookup | shelly2mqtt.go:42-47 | The switch equals a lookup in a one-entry table (bathroom to the relay's base URL) with the command appended, and "" for rooms not in the table. |
| Bridge.HandleRelayCommand | shelly2mqtt.go:31-49 | A GET is reached exactly when the topic suffix holds one '/'; otherwise the message is dropped. The URL is then Route(room, command) for the '/'-free room and command the suffix consists of. It is non-empty exactly when the suffix starts with "bathroom/", and then starts with the relay's base URL, followed by the rest of the suffix as the turn value. |
| Bridge.RouteOfSuffix | shelly2mqtt.go:38-44 | For a suffix room/command, Route targets the relay exactly when the suffix starts with "bathroom/", and the turn value is what follows. |
| Bridge.RelayRoundTrip | shelly2mqtt.go:33-49 | A message on the command prefix + room + "/" + command ('/'-free) requests Route(room, command). |
| Bridge.BathroomOnScenario | shelly2mqtt.go:43-44 | cmd/relay/bathroom/on requests http://10.0.0.68/relay/0?turn=on. |
| Bridge.KitchenOnScenario | shelly2mqtt.go:45-49 | cmd/relay/kitchen/on reaches the GET with the empty URL. |
| Bridge.SubscriptionMatches | shelly2mqtt.go:79 | For a prefix without wildcard characters, the subscription matches exactly the bare topic prefix + "cmd/relay" and the topics that start with the stripped command prefix. |
| Bridge.SubscribedTopicSuffix | shelly2mqtt.go:33 | Every subscribed topic is either the bare topic, which TrimPrefix leaves whole, or the command prefix followed by exactly the suffix the parser checks. |
| Bridge.ParentTopicOutcome | shelly2mqtt.go:33-37 | The bare topic prefix + "cmd/relay" is dropped exactly when the prefix holds a '/'. Otherwise it reaches the GET with the empty URL. |
| Bridge.DoorPayload | shelly2mqtt.go:111 | onoff is true exactly when the command is "off". "on", "" and every other command give false. |
| Bridge.DoorMessage | shelly2mqtt.go:119-123 | The door message goes to prefix + "door/" + room with QoS 0, retained. Its payload is the door state, onoff exactly for "off". |
| Bridge.HandleDoor | shelly2mqtt.go:93-123 | The door handler publishes exactly when the suffix after "/door/" holds one '/'. It then publishes DoorMessage for the '/'-free room and command the suffix consists of. |
| Bridge.DoorRoundTrip | shelly2mqtt.go:95-123 | /door/ + room + "/" + command ('/'-free) publishes DoorMessage(prefix, room, command). |
| Bridge.DoorTopicIgnoresCommand | shelly2mqtt.go:119-120 | Two door events for the same room publish on the same topic, whatever the commands. |
| Bridge.MotionMessage | shelly2mqtt.go:153-157 | The motion message goes to prefix + "motion/" + room with QoS 0, retained. Its payload carries the command verbatim. |
| Bridge.HandleMotion | shelly2mqtt.go:130-157 | The motion handler publishes exactly when the suffix after "/motion/" holds one '/'. It then publishes MotionMessage for the room and command the suffix consists of. |
| Bridge.MotionRoundTrip | shelly2mqtt.go:133-157 | /motion/ + room + "/" + command ('/'-free) publishes MotionMessage(prefix, room, command), the command unchanged (empty included). |
| Bridge.DoorOpenScenario | shelly2mqtt.go:102-123 | /door/bathroom/off publishes onoff = true, retained, QoS 0, on prefix + "door/bathroom". |
| Bridge.MotionScenario | shelly2mqtt.go:142-157 | /motion/kitchen/on publishes command "on", retained, QoS 0, on prefix + "motion/kitchen". |
| Bridge.DoorExtraPieceIgnored | shelly2mqtt.go:96-99 | /door/bathroom/off/x publishes nothing. |
| Bridge.DefaultParentTopicDropped | shelly2mqtt.go:25-37 | Under the default prefix, which holds '/', the bare topic prefix + "cmd/relay" is dropped. |
| Bridge.DoorJson | shelly2mqtt.go:106-112 | The door payload is the JSON object with the one key "onoff" and a boolean literal: {"onoff":true} or {"onoff":false}. |
| Bridge.DoorJsonInjective | shelly2mqtt.go:106-112 | The two door payload texts differ, so the text determines the door state. |
| Bridge.ParseDoorJson | shelly2mqtt.go:106-112 | A door payload text that is recognised is the encoding of the value it is read as. |
| Bridge.DoorJsonRoundTrip | shelly2mqtt.go:106-112 | The JSON text of the door payload, {"onoff":true} or {"onoff":false}, reads back as the value it was written from. |

## Left out

- Flag parsing and the flag globals (shelly2mqtt.go:17-29, 169-174): the topic prefix is a parameter, and `DefaultTopicPrefix` records its default.
- Go strings are byte strings; the model's `seq<char>` stands for them. Splitting on '/' and comparing for equality are unaffected, because UTF-8 never uses the byte 0x2F inside a multi-byte sequence.
- The MQTT client: options, connect, connect retry, resubscription in `OnConnect`, `subscribe` and its token wait (shelly2mqtt.go:59-86). These belong to a foreign asynchronous library. Only the subscription string and the broker's filter matching are modelled.
- The `http.Get` call, its error and the status check (shelly2mqtt.go:49-56). This is network I/O. The model stops at the URL that would be requested, `""` included.
- The `ServeMux` setup, the pprof and trace endpoints, the loop that registers the generic sensor handler, and `ListenAndServe` (shelly2mqtt.go:88-92, 126-131, 162-166). The model calls the door and motion handlers with the request path directly, and does not model how the server routes, cleans or percent-decodes paths.
- `json.Marshal` (shelly2mqtt.go:106-117, 142-151). It cannot fail for these records, so the error branch is not modelled. The door payload's exact text is modelled. The motion payload's text is not, because escaping the command string is `encoding/json`'s work.
- `mqttClient.Publish` itself: the model returns the message record (topic, QoS, retained flag, payload) that would be handed to it.
- All `log.Printf` calls. Which branch of the room switch logs is not modelled.
- Concurrency between HTTP handler goroutines and MQTT callbacks. Each handler is modelled as one call on one input.
- GoStrings.Split: only one-character separators are modelled. The bridge only splits on "/".
- Mqtt.MultiLevelFilter and Bridge.SubscriptionMatches: these assume the prefix holds no '+' or '#'. Otherwise the broker would read those characters in the subscription as wildcards. Topics starting with '$' are not treated specially.
