/**
  Topic-filter matching as the MQTT broker performs it for the bridge's one
  subscription (section 4.7 of the MQTT Version 3.1.1 standard): topics and
  filters are split into levels at '/', "+" matches any one level, and "#"
  matches the remaining levels, including none, so "a/#" matches "a" too.
 */
module Mqtt {
  import opened GoStrings

  /** Whether the filter levels match the topic levels. */
  function LevelsMatch(filter: seq<string>, topic: seq<string>): bool
    decreases |filter|
  {
    if |filter| == 0 then |topic| == 0
    else if filter[0] == "#" then true
    else if |topic| == 0 then false
    else (filter[0] == "+" || filter[0] == topic[0]) && LevelsMatch(filter[1..], topic[1..])
  }

  /** Whether a topic filter matches a topic name. */
  function Matches(filter: string, topic: string): bool
  {
    LevelsMatch(Split(filter, '/'), Split(topic, '/'))
  }

  /** No level is a wildcard. */
  predicate WildcardFree(levels: seq<string>)
  {
    forall k :: 0 <= k < |levels| ==> levels[k] != "+" && levels[k] != "#"
  }

  /** Literal levels followed by "#" match exactly the topics that start with those levels. */
  lemma {:induction false} MultiLevelMatch(levels: seq<string>, topic: seq<string>)
    requires WildcardFree(levels)
    ensures LevelsMatch(levels + ["#"], topic) <==> levels <= topic
  {
    if |levels| > 0 {
      assert (levels + ["#"])[1..] == levels[1..] + ["#"];
      if |topic| > 0 {
        MultiLevelMatch(levels[1..], topic[1..]);
        assert levels <= topic <==> levels[0] == topic[0] && levels[1..] <= topic[1..];
      }
    }
  }

  /** A string without wildcard characters splits into wildcard-free levels. */
  lemma WildcardFreeSplit(s: string)
    requires '+' !in s && '#' !in s
    ensures WildcardFree(Split(s, '/'))
  {
    var levels := Split(s, '/');
    forall k | 0 <= k < |levels| ensures levels[k] != "+" && levels[k] != "#" {
      if levels[k] == "+" {
        SplitContains(s, '/', k, '+');
      } else if levels[k] == "#" {
        SplitContains(s, '/', k, '#');
      }
    }
  }

  /**
    A filter made of a wildcard-free topic and "/#" matches that topic and
    every topic that continues it with a '/', and nothing else.
   */
  lemma MultiLevelFilter(base: string, topic: string)
    requires '+' !in base && '#' !in base
    ensures Matches(base + "/#", topic) <==> topic == base || base + "/" <= topic
  {
    assert base + "/#" == base + ['/'] + "#";
    SplitAppendPiece(base, '/', "#");
    WildcardFreeSplit(base);
    MultiLevelMatch(Split(base, '/'), Split(topic, '/'));
    SplitPrefix(base, topic, '/');
  }
}
