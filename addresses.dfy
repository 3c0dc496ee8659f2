/**
  The parser that all three handlers of the bridge share: strip a known
  prefix (only if it is there), split the rest on '/', and accept exactly
  two pieces, the room and the command.
 */
module Addresses {
  import opened GoStrings

  /** The two pieces of an accepted suffix. Either piece may be empty. */
  datatype Address = Address(room: string, command: string)

  /** The parser's outcome: an address, or the pieces that made it malformed (which the handler logs before it drops the message). */
  datatype Parsed = Parsed(address: Address) | Malformed(parts: seq<string>)

  /**
    Parses what is left of `raw` after TrimPrefix(raw, strip). It succeeds
    exactly when that suffix holds one '/', and then the room and command
    are the text before and after it.
   */
  function ParseSuffix(raw: string, strip: string): (r: Parsed)
    ensures r.Parsed? <==> Count(TrimPrefix(raw, strip), '/') == 1
    ensures r.Parsed? ==> '/' !in r.address.room && '/' !in r.address.command
    ensures r.Parsed? ==> TrimPrefix(raw, strip) == r.address.room + "/" + r.address.command
    ensures r.Malformed? ==> |r.parts| != 2 && Join(r.parts, '/') == TrimPrefix(raw, strip)
  {
    var parts := Split(TrimPrefix(raw, strip), '/');
    if |parts| != 2 then Malformed(parts)
    else Parsed(Address(parts[0], parts[1]))
  }

  /** Any room and command free of '/' come back unchanged from behind the prefix. */
  lemma ParseRoundTrip(strip: string, room: string, command: string)
    requires '/' !in room && '/' !in command
    ensures ParseSuffix(strip + room + "/" + command, strip) == Parsed(Address(room, command))
  {
    var suffix := room + "/" + command;
    assert strip + room + "/" + command == strip + suffix;
    TrimPrefixConcat(strip, suffix);
    assert Join([room, command], '/') == suffix;
    SplitJoin([room, command], '/');
  }

  /** An input that does not start with the prefix is parsed as a whole. */
  lemma ParseWithoutPrefix(raw: string, strip: string)
    requires !(strip <= raw)
    ensures ParseSuffix(raw, strip) == ParseSuffix(raw, "")
  {
  }

  /** Empty pieces are accepted: "a/", "/b" and "/" all parse. */
  lemma EmptyPiecesAccepted(strip: string)
    ensures ParseSuffix(strip + "a/", strip) == Parsed(Address("a", ""))
    ensures ParseSuffix(strip + "/b", strip) == Parsed(Address("", "b"))
    ensures ParseSuffix(strip + "/", strip) == Parsed(Address("", ""))
  {
    assert "a" + "/" + "" == "a/";
    assert "" + "/" + "b" == "/b";
    assert "" + "/" + "" == "/";
    ParseRoundTripAt(strip, "a", "", "a/");
    ParseRoundTripAt(strip, "", "b", "/b");
    ParseRoundTripAt(strip, "", "", "/");
  }

  /** ParseRoundTrip with the suffix given as one string. */
  lemma ParseRoundTripAt(strip: string, room: string, command: string, suffix: string)
    requires '/' !in room && '/' !in command && suffix == room + "/" + command
    ensures ParseSuffix(strip + suffix, strip) == Parsed(Address(room, command))
  {
    assert strip + suffix == strip + room + "/" + command;
    ParseRoundTrip(strip, room, command);
  }

  /** Nothing after the prefix is a single empty piece, so it is malformed. */
  lemma EmptySuffixRejected(strip: string)
    ensures ParseSuffix(strip, strip) == Malformed([""])
  {
    assert strip + [] == strip;
    TrimPrefixConcat(strip, "");
    assert Split("", '/') == [""];
  }

  /** Three pieces are one too many. */
  lemma ThreePiecesRejected(strip: string, a: string, b: string, c: string)
    requires '/' !in a && '/' !in b && '/' !in c
    ensures ParseSuffix(strip + a + "/" + b + "/" + c, strip).Malformed?
  {
    var suffix := a + "/" + b + "/" + c;
    assert strip + a + "/" + b + "/" + c == strip + suffix;
    TrimPrefixConcat(strip, suffix);
    assert multiset(suffix)['/'] == 2;
  }
}
