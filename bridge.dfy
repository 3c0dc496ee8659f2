/**
  The translation logic of the shelly2mqtt bridge.

  MQTT to HTTP: a message on `prefix + "cmd/relay/<room>/<command>"` is
  routed by room to a relay's HTTP endpoint, with the command as the `turn`
  query value.

  HTTP to MQTT: a request for `/door/<room>/<command>` or
  `/motion/<room>/<command>` becomes a retained QoS 0 message on
  `prefix + "door/<room>"` or `prefix + "motion/<room>"`.

  The topic prefix (the `mqtt_topic` flag) is a parameter of every function.
 */
module Bridge {
  import opened GoStrings
  import opened Addresses
  import opened Mqtt

  /** The default of the `mqtt_topic` flag. */
  const DefaultTopicPrefix := "github.com/stapelberg/shelly2mqtt/"

  // ---------------------------------------------------------------------
  // Relay commands: MQTT to HTTP

  /** What is stripped from a command topic before it is split. */
  function CommandTopicPrefix(prefix: string): (p: string)
    ensures |p| == |prefix| + 10 && prefix <= p && p[|p| - 1] == '/'
  {
    prefix + "cmd/relay/"
  }

  /** The filter the bridge subscribes to on every (re)connect. */
  function SubscriptionPattern(prefix: string): (f: string)
    ensures f == CommandTopicPrefix(prefix) + "#"
  {
    prefix + "cmd/relay/#"
  }

  /** The only relay the bridge knows. */
  const BathroomRelayBase := "http://10.0.0.68/relay/0?turn="

  /** The room switch as a table: a room with a device, and its URL without the command. */
  const RelayTable: map<string, string> := map["bathroom" := BathroomRelayBase]

  /**
    The URL the handler requests for a room and command. Only "bathroom"
    has a device; every other room, "kitchen" included (its case is empty
    and does not fall through), leaves the URL empty.
   */
  function Route(room: string, command: string): (u: string)
    ensures u != "" <==> room == "bathroom"
    ensures u != "" ==> BathroomRelayBase <= u && TrimPrefix(u, BathroomRelayBase) == command
  {
    match room
    case "bathroom" => BathroomRelayBase + command
    case "kitchen" => ""
    case _ => ""
  }

  /** Route is a lookup in RelayTable with the command appended. */
  lemma RouteIsTableLookup(room: string, command: string)
    ensures Route(room, command) == if room in RelayTable then RelayTable[room] + command else ""
  {
  }

  /** What a command message leads to: dropped after a failed parse, or a GET of a URL, which is "" for a room without a device. */
  datatype RelayOutcome = Dropped(parts: seq<string>) | HttpGet(url: string)

  /**
    The message handler for command topics. It asks for a URL exactly when
    the topic suffix holds one '/'; the URL names the bathroom relay exactly
    when the suffix starts with "bathroom/", and then carries the rest of
    the suffix as the `turn` value.
   */
  function HandleRelayCommand(prefix: string, topic: string): (r: RelayOutcome)
    ensures r.HttpGet? <==> Count(TrimPrefix(topic, CommandTopicPrefix(prefix)), '/') == 1
    ensures r.HttpGet? ==> (r.url != "" <==> "bathroom/" <= TrimPrefix(topic, CommandTopicPrefix(prefix)))
    ensures r.HttpGet? && r.url != "" ==>
      BathroomRelayBase <= r.url &&
      TrimPrefix(topic, CommandTopicPrefix(prefix)) == "bathroom/" + TrimPrefix(r.url, BathroomRelayBase)
    ensures r.HttpGet? ==>
      exists room, command | '/' !in room && '/' !in command ::
        TrimPrefix(topic, CommandTopicPrefix(prefix)) == room + "/" + command && r.url == Route(room, command)
  {
    match ParseSuffix(topic, CommandTopicPrefix(prefix))
    case Malformed(parts) => Dropped(parts)
    case Parsed(Address(room, command)) =>
      RouteOfSuffix(TrimPrefix(topic, CommandTopicPrefix(prefix)), room, command);
      HttpGet(Route(room, command))
  }

  /** For a suffix "room/command", Route targets the relay exactly when the suffix starts with "bathroom/". */
  lemma RouteOfSuffix(suffix: string, room: string, command: string)
    requires '/' !in room && '/' !in command && suffix == room + "/" + command
    ensures Route(room, command) != "" <==> "bathroom/" <= suffix
    ensures Route(room, command) != "" ==> suffix == "bathroom/" + TrimPrefix(Route(room, command), BathroomRelayBase)
  {
    assert "bathroom/" == "bathroom" + ['/'];
    HeadBeforeSeparator("bathroom", room, command, '/');
    if room == "bathroom" {
      TrimPrefixConcat(BathroomRelayBase, command);
    }
  }

  /** A command for a room, behind the command-topic prefix, is requested as routed. */
  lemma RelayRoundTrip(prefix: string, room: string, command: string)
    requires '/' !in room && '/' !in command
    ensures HandleRelayCommand(prefix, CommandTopicPrefix(prefix) + room + "/" + command) == HttpGet(Route(room, command))
  {
    ParseRoundTrip(CommandTopicPrefix(prefix), room, command);
  }

  /** "bathroom/on" turns the bathroom relay on. */
  lemma BathroomOnScenario(prefix: string)
    ensures HandleRelayCommand(prefix, CommandTopicPrefix(prefix) + "bathroom/on") ==
      HttpGet("http://10.0.0.68/relay/0?turn=on")
  {
    assert Route("bathroom", "on") == "http://10.0.0.68/relay/0?turn=on";
    assert CommandTopicPrefix(prefix) + "bathroom/on" == CommandTopicPrefix(prefix) + "bathroom" + "/" + "on";
    RelayRoundTrip(prefix, "bathroom", "on");
  }

  /** "kitchen/on" still reaches the GET, with the empty URL. */
  lemma KitchenOnScenario(prefix: string)
    ensures HandleRelayCommand(prefix, CommandTopicPrefix(prefix) + "kitchen/on") == HttpGet("")
  {
    assert CommandTopicPrefix(prefix) + "kitchen/on" == CommandTopicPrefix(prefix) + "kitchen" + "/" + "on";
    RelayRoundTrip(prefix, "kitchen", "on");
  }

  /**
    The subscription matches the topic `prefix + "cmd/relay"` itself and
    every topic that starts with the command-topic prefix, and nothing else,
    as long as the prefix holds no wildcard character.
   */
  lemma SubscriptionMatches(prefix: string, topic: string)
    requires '+' !in prefix && '#' !in prefix
    ensures Matches(SubscriptionPattern(prefix), topic) <==>
      topic == prefix + "cmd/relay" || CommandTopicPrefix(prefix) <= topic
  {
    CommandTopicShape(prefix);
    MultiLevelFilter(prefix + "cmd/relay", topic);
  }

  /** Both command-topic strings extend `prefix + "cmd/relay"`, which is as wildcard-free as the prefix. */
  lemma CommandTopicShape(prefix: string)
    ensures SubscriptionPattern(prefix) == (prefix + "cmd/relay") + "/#"
    ensures CommandTopicPrefix(prefix) == (prefix + "cmd/relay") + "/"
    ensures '+' !in prefix && '#' !in prefix ==> '+' !in prefix + "cmd/relay" && '#' !in prefix + "cmd/relay"
  {
  }

  /**
    Stripping the command-topic prefix from a subscribed topic leaves the
    part after "cmd/relay/"; the topic `prefix + "cmd/relay"` is split whole.
   */
  lemma SubscribedTopicSuffix(prefix: string, topic: string)
    requires '+' !in prefix && '#' !in prefix
    ensures Matches(SubscriptionPattern(prefix), topic) ==>
      topic == prefix + "cmd/relay" || topic == CommandTopicPrefix(prefix) + TrimPrefix(topic, CommandTopicPrefix(prefix))
    ensures topic == prefix + "cmd/relay" ==> TrimPrefix(topic, CommandTopicPrefix(prefix)) == topic
  {
    SubscriptionMatches(prefix, topic);
  }

  /**
    The subscription also delivers the bare topic `prefix + "cmd/relay"`.
    It is dropped exactly when the prefix holds a '/' (too many pieces);
    otherwise it parses as room `prefix + "cmd"`, command "relay", and
    reaches the GET with the empty URL.
   */
  lemma ParentTopicOutcome(prefix: string)
    ensures HandleRelayCommand(prefix, prefix + "cmd/relay").Dropped? <==> '/' in prefix
    ensures '/' !in prefix ==> HandleRelayCommand(prefix, prefix + "cmd/relay") == HttpGet("")
  {
    var topic := prefix + "cmd/relay";
    ParentTopicUnstripped(prefix);
    if '/' !in prefix {
      var room := prefix + "cmd";
      ParentTopicPieces(prefix);
      ParseWithoutPrefix(topic, CommandTopicPrefix(prefix));
      ParseRoundTrip("", room, "relay");
      assert Route(room, "relay") == "" by {
        assert room[|room| - 1] == 'd';
      }
    }
  }

  /** Under the default prefix, which holds '/', the bare topic is dropped. */
  lemma DefaultParentTopicDropped()
    ensures HandleRelayCommand(DefaultTopicPrefix, DefaultTopicPrefix + "cmd/relay").Dropped?
  {
    assert DefaultTopicPrefix[10] == '/';
    ParentTopicOutcome(DefaultTopicPrefix);
  }

  /** The bare topic is shorter than the command-topic prefix, so nothing is stripped, and it holds one '/' more than the prefix. */
  lemma ParentTopicUnstripped(prefix: string)
    ensures TrimPrefix(prefix + "cmd/relay", CommandTopicPrefix(prefix)) == prefix + "cmd/relay"
    ensures Count(prefix + "cmd/relay", '/') == Count(prefix, '/') + 1
  {
    assert |CommandTopicPrefix(prefix)| > |prefix + "cmd/relay"|;
    assert multiset(prefix + "cmd/relay") == multiset(prefix) + multiset("cmd/relay");
    assert multiset("cmd/relay")['/'] == 1;
  }

  /** Without a '/' in the prefix, the bare topic is room `prefix + "cmd"` and command "relay". */
  lemma ParentTopicPieces(prefix: string)
    requires '/' !in prefix
    ensures prefix + "cmd/relay" == "" + (prefix + "cmd") + "/" + "relay"
    ensures '/' !in prefix + "cmd"
  {
  }

  // ---------------------------------------------------------------------
  // Sensor events: HTTP to MQTT

  /** The payload record that is serialised to JSON. */
  datatype Payload = DoorState(onoff: bool) | MotionEvent(command: string)

  /** A message handed to the MQTT client's Publish. */
  datatype Message = Message(topic: string, qos: nat, retained: bool, payload: Payload)

  /** What a sensor request leads to: nothing after a failed parse, or one publish. */
  datatype Publication = Ignored(parts: seq<string>) | Publish(message: Message)

  /** The path pattern of the door handler. */
  const DoorPath := "/door/"

  /** The one category registered with the generic sensor handler. */
  const MotionCategory := "motion"

  /** The path pattern the generic sensor handler is registered under for its category. */
  const MotionPath := "/" + MotionCategory + "/"

  /**
    The door payload. The sensor reports "off" when the door opens, and the
    bridge keeps that reversed convention: onoff holds only for "off".
   */
  function DoorPayload(command: string): (p: Payload)
    ensures p.DoorState?
    ensures p.onoff <==> command == "off"
  {
    DoorState(command == "off")
  }

  /** The message the door handler publishes for a parsed room and command. */
  function DoorMessage(prefix: string, room: string, command: string): (m: Message)
    ensures m.topic == prefix + "door/" + room
    ensures m.qos == 0 && m.retained
    ensures m.payload.DoorState? && (m.payload.onoff <==> command == "off")
  {
    Message(prefix + "door/" + room, 0, true, DoorPayload(command))
  }

  /** The door handler: publishes exactly when the path's suffix after "/door/" holds one '/'. */
  function HandleDoor(prefix: string, path: string): (r: Publication)
    ensures r.Publish? <==> Count(TrimPrefix(path, DoorPath), '/') == 1
    ensures r.Publish? ==>
      exists room, command | '/' !in room && '/' !in command ::
        TrimPrefix(path, DoorPath) == room + "/" + command && r.message == DoorMessage(prefix, room, command)
  {
    match ParseSuffix(path, DoorPath)
    case Malformed(parts) => Ignored(parts)
    case Parsed(Address(room, command)) => Publish(DoorMessage(prefix, room, command))
  }

  /** The message the motion handler publishes for a parsed room and command. */
  function MotionMessage(prefix: string, room: string, command: string): (m: Message)
    ensures m.topic == prefix + "motion/" + room
    ensures m.qos == 0 && m.retained
    ensures m.payload == MotionEvent(command)
  {
    assert prefix + MotionCategory + "/" + room == prefix + "motion/" + room;
    Message(prefix + MotionCategory + "/" + room, 0, true, MotionEvent(command))
  }

  /** The motion handler: publishes exactly when the path's suffix after MotionPath ("/motion/") holds one '/'. */
  function HandleMotion(prefix: string, path: string): (r: Publication)
    ensures r.Publish? <==> Count(TrimPrefix(path, MotionPath), '/') == 1
    ensures r.Publish? ==>
      exists room, command | '/' !in room && '/' !in command ::
        TrimPrefix(path, MotionPath) == room + "/" + command && r.message == MotionMessage(prefix, room, command)
  {
    match ParseSuffix(path, MotionPath)
    case Malformed(parts) => Ignored(parts)
    case Parsed(Address(room, command)) => Publish(MotionMessage(prefix, room, command))
  }

  /** A door event for a room and command, behind "/door/", is published as DoorMessage. */
  lemma DoorRoundTrip(prefix: string, room: string, command: string)
    requires '/' !in room && '/' !in command
    ensures HandleDoor(prefix, DoorPath + room + "/" + command) == Publish(DoorMessage(prefix, room, command))
  {
    ParseRoundTrip(DoorPath, room, command);
  }

  /** The door topic depends on the room only, never on the command. */
  lemma DoorTopicIgnoresCommand(prefix: string, room: string, c1: string, c2: string)
    requires '/' !in room && '/' !in c1 && '/' !in c2
    ensures var r1, r2 := HandleDoor(prefix, DoorPath + room + "/" + c1), HandleDoor(prefix, DoorPath + room + "/" + c2);
      r1.Publish? && r2.Publish? && r1.message.topic == r2.message.topic
  {
    DoorRoundTrip(prefix, room, c1);
    DoorRoundTrip(prefix, room, c2);
  }

  /** A motion event for a room and command, behind "/motion/", is published with the command verbatim. */
  lemma MotionRoundTrip(prefix: string, room: string, command: string)
    requires '/' !in room && '/' !in command
    ensures HandleMotion(prefix, MotionPath + room + "/" + command) == Publish(MotionMessage(prefix, room, command))
  {
    ParseRoundTrip(MotionPath, room, command);
  }

  /** GET /door/bathroom/off publishes onoff = true, retained, on `prefix + "door/bathroom"`. */
  lemma DoorOpenScenario(prefix: string)
    ensures HandleDoor(prefix, "/door/bathroom/off") ==
      Publish(Message(prefix + "door/bathroom", 0, true, DoorState(true)))
  {
    assert DoorMessage(prefix, "bathroom", "off") == Message(prefix + "door/bathroom", 0, true, DoorState(true)) by {
      assert prefix + "door/" + "bathroom" == prefix + "door/bathroom";
    }
    assert "/door/bathroom/off" == DoorPath + "bathroom" + "/" + "off";
    DoorRoundTrip(prefix, "bathroom", "off");
  }

  /** GET /motion/kitchen/on publishes command "on", retained, on `prefix + "motion/kitchen"`. */
  lemma MotionScenario(prefix: string)
    ensures HandleMotion(prefix, "/motion/kitchen/on") ==
      Publish(Message(prefix + "motion/kitchen", 0, true, MotionEvent("on")))
  {
    assert MotionMessage(prefix, "kitchen", "on") == Message(prefix + "motion/kitchen", 0, true, MotionEvent("on")) by {
      assert prefix + "motion/" + "kitchen" == prefix + "motion/kitchen";
    }
    assert "/motion/kitchen/on" == MotionPath + "kitchen" + "/" + "on";
    MotionRoundTrip(prefix, "kitchen", "on");
  }

  /** A door path with a third piece publishes nothing. */
  lemma DoorExtraPieceIgnored(prefix: string)
    ensures HandleDoor(prefix, "/door/bathroom/off/x").Ignored?
  {
    assert "/door/bathroom/off/x" == DoorPath + "bathroom" + "/" + "off" + "/" + "x";
    ThreePiecesRejected(DoorPath, "bathroom", "off", "x");
  }

  // ---------------------------------------------------------------------
  // Door payload bytes

  /** A value, or none. */
  datatype Option<T> = None | Some(value: T)

  /** The JSON encoding/json produces for the door payload record. */
  function DoorJson(onoff: bool): (t: string)
    ensures t == "{\"onoff\":" + (if onoff then "true" else "false") + "}"
  {
    if onoff then "{\"onoff\":true}" else "{\"onoff\":false}"
  }

  /** Reads the door payload back from its JSON text. */
  function ParseDoorJson(text: string): (r: Option<bool>)
    ensures r.Some? ==> DoorJson(r.value) == text
  {
    if text == DoorJson(true) then Some(true)
    else if text == DoorJson(false) then Some(false)
    else None
  }

  /** The two door payload texts differ, so the JSON text determines the door state. */
  lemma DoorJsonInjective(a: bool, b: bool)
    ensures DoorJson(a) == DoorJson(b) <==> a == b
  {
    DoorJsonRoundTrip(a);
    DoorJsonRoundTrip(b);
  }

  /** Door payload JSON is read back as the value it was written from. */
  lemma DoorJsonRoundTrip(onoff: bool)
    ensures ParseDoorJson(DoorJson(onoff)) == Some(onoff)
  {
    if !onoff {
      assert DoorJson(false) != DoorJson(true) by {
        assert DoorJson(false)[9] != DoorJson(true)[9];
      }
    }
  }
}
