/** ComDeX topic names and MQTT topic filters.

    An NGSI-LD entity lives in the broker as one retained message per
    attribute, on the topic
      `<area>/entities/<context>/<type>/LNA/<id>/<attribute>`
    where `<context>` is the entity's `@context` with every `/` replaced by
    `§`. Readers take the fields back by position from the end of the topic.
    Filters follow section 4.7 of MQTT 3.1.1: `+` matches exactly one level,
    a trailing `#` matches the parent level and every level below it, and a
    filter starting with a wildcard does not match a topic starting with `$`.
 */
module Topics {
  import opened Basics
  import opened Text

  function LevelsOf(topic: string): (r: seq<string>)
    ensures |r| >= 1
  {
    Split(topic, '/')
  }

  function TopicOf(levels: seq<string>): string
  {
    Join(levels, '/')
  }

  /** A topic level that holds no separator and no wildcard character. */
  predicate Plain(level: string)
  {
    '/' !in level && '+' !in level && '#' !in level
  }

  /** Filter levels against topic levels (section 4.7.1 of MQTT 3.1.1). */
  predicate MatchLevels(filter: seq<string>, topic: seq<string>)
    decreases |filter|
  {
    if |filter| == 0 then |topic| == 0
    else if filter[0] == "#" then true
    else |topic| > 0 && (filter[0] == "+" || filter[0] == topic[0]) && MatchLevels(filter[1..], topic[1..])
  }

  /** Whether a subscription on `filter` receives messages on `topic`
      (sections 4.7.1 and 4.7.2 of MQTT 3.1.1). */
  predicate Delivers(filter: string, topic: string)
  {
    var f := LevelsOf(filter);
    !(StartsWith(topic, "$") && (f[0] == "+" || f[0] == "#")) && MatchLevels(f, LevelsOf(topic))
  }

  /** A topic filter as section 4.7.1 of MQTT 3.1.1 allows it: non-empty,
      every wildcard character fills its whole level, and `#` may only be
      the last level. */
  predicate ValidFilter(filter: string)
  {
    var l := LevelsOf(filter);
    |filter| > 0
    && forall i :: 0 <= i < |l| ==>
         (('+' in l[i] || '#' in l[i]) ==> (l[i] == "+" || l[i] == "#")) && (l[i] == "#" ==> i == |l| - 1)
  }

  /** A filter without `#` only matches topics with as many levels. */
  lemma {:induction false} MatchSameDepth(filter: seq<string>, topic: seq<string>)
    requires forall i :: 0 <= i < |filter| ==> filter[i] != "#"
    requires MatchLevels(filter, topic)
    ensures |topic| == |filter|
  {
    if |filter| > 0 {
      MatchSameDepth(filter[1..], topic[1..]);
    }
  }

  /** Without `#`, a filter matches a topic of the same depth level by level. */
  lemma {:induction false} MatchPointwise(filter: seq<string>, topic: seq<string>)
    requires |filter| == |topic|
    requires forall i :: 0 <= i < |filter| ==> filter[i] != "#"
    ensures MatchLevels(filter, topic) <==> forall i :: 0 <= i < |filter| ==> filter[i] == "+" || filter[i] == topic[i]
  {
    if |filter| > 0 {
      MatchPointwise(filter[1..], topic[1..]);
      assert forall i :: 1 <= i < |filter| ==> filter[1..][i - 1] == filter[i] && topic[1..][i - 1] == topic[i];
    }
  }

  /** A filter ending in `#` matches a topic exactly when the levels before
      the `#` match the topic's first levels. */
  lemma {:induction false} MatchHashTail(prefix: seq<string>, topic: seq<string>)
    requires forall i :: 0 <= i < |prefix| ==> prefix[i] != "#"
    ensures MatchLevels(prefix + ["#"], topic) <==> |topic| >= |prefix| && MatchLevels(prefix, topic[..|prefix|])
  {
    if |prefix| > 0 && |topic| > 0 {
      assert (prefix + ["#"])[1..] == prefix[1..] + ["#"];
      MatchHashTail(prefix[1..], topic[1..]);
      if |topic| >= |prefix| {
        assert topic[..|prefix|][1..] == topic[1..][..|prefix| - 1];
      }
    }
  }

  /** Splitting a topic built from plain levels gives the levels back. */
  lemma LevelsOfTopic(levels: seq<string>)
    requires |levels| >= 1
    requires forall i :: 0 <= i < |levels| ==> '/' !in levels[i]
    ensures LevelsOf(TopicOf(levels)) == levels
  {
    SplitJoin(levels, '/');
  }

  /** `@context` as stored in a topic level: `/` becomes `§`. */
  function EscapeContext(context: string): (r: string)
    ensures '/' !in r
  {
    ReplaceCharRemoves(context, '/', '§');
    Replace(context, "/", "§")
  }

  function UnescapeContext(level: string): string
  {
    Replace(level, "§", "/")
  }

  /** Escaping is undone by unescaping for every context without `§`. */
  lemma EscapeRoundTrip(context: string)
    requires '§' !in context
    ensures UnescapeContext(EscapeContext(context)) == context
  {
    ReplaceCharBack(context, '/', '§');
  }

  const EntitiesLevel := "entities"
  const LocalOrigin := "LNA"
  const CreatedAtSuffix := "_timerelsystem_CreatedAt"
  const ModifiedAtSuffix := "_timerelsystem_modifiedAt"

  /** The topic of one attribute of an entity. */
  function AttributeTopic(area: string, contextLevel: string, etype: string, id: string, attr: string): string
  {
    TopicOf([area, EntitiesLevel, contextLevel, etype, LocalOrigin, id, attr])
  }

  /** The filter `+/entities/<context>/<type>/+/<id>/#` that probes whether an
      entity exists in any area. */
  function ExistenceFilter(contextLevel: string, etype: string, id: string): string
  {
    TopicOf(["+", EntitiesLevel, contextLevel, etype, "+", id, "#"])
  }

  /** The fields a reader takes back from an entity topic. */
  datatype EntityRef = EntityRef(context: string, etype: string, id: string, attr: string)

  /** `topic[-1]`, `topic[-2]`, `topic[-4]` and `topic[-5]` (the last one
      unescaped) of the split topic; fewer than five levels raise `IndexError`. */
  function DecodeEntityTopic(topic: string): (r: Result<EntityRef>)
    ensures r.Ok? <==> |LevelsOf(topic)| >= 5
  {
    var l := LevelsOf(topic);
    var n := |l|;
    if n < 5 then Raise(IndexError)
    else Ok(EntityRef(UnescapeContext(l[n - 5]), l[n - 4], l[n - 2], l[n - 1]))
  }

  /** Reading an attribute topic back gives the context, type, id and
      attribute that built it. */
  lemma DecodeAttributeTopic(area: string, context: string, etype: string, id: string, attr: string)
    requires '/' !in area && '/' !in etype && '/' !in id && '/' !in attr
    requires '§' !in context
    ensures DecodeEntityTopic(AttributeTopic(area, EscapeContext(context), etype, id, attr))
         == Ok(EntityRef(context, etype, id, attr))
  {
    var levels := [area, EntitiesLevel, EscapeContext(context), etype, LocalOrigin, id, attr];
    LevelsOfTopic(levels);
    EscapeRoundTrip(context);
  }

  /** The existence probe of an entity receives exactly the attribute topics
      of entities with the same context, type and id, in every area. */
  lemma ExistenceFilterExact(contextLevel: string, etype: string, id: string,
                             area: string, contextLevel': string, etype': string, id': string, attr: string)
    requires Plain(contextLevel) && Plain(etype) && Plain(id)
    requires Plain(area) && !StartsWith(area, "$")
    requires Plain(contextLevel') && Plain(etype') && Plain(id') && Plain(attr)
    ensures Delivers(ExistenceFilter(contextLevel, etype, id), AttributeTopic(area, contextLevel', etype', id', attr))
        <==> contextLevel == contextLevel' && etype == etype' && id == id'
  {
    var p := ["+", EntitiesLevel, contextLevel, etype, "+", id];
    var t := [area, EntitiesLevel, contextLevel', etype', LocalOrigin, id', attr];
    assert p + ["#"] == ["+", EntitiesLevel, contextLevel, etype, "+", id, "#"];
    LevelsOfTopic(p + ["#"]);
    LevelsOfTopic(t);
    var topic := TopicOf(t);
    assert topic == area + ['/'] + TopicOf(t[1..]);
    assert topic[0] == if |area| > 0 then area[0] else '/';
    assert !StartsWith(topic, "$");
    assert '+' in "+" && '#' in "#";
    MatchHashTail(p, t);
    var t6 := t[..6];
    assert t6 == [area, EntitiesLevel, contextLevel', etype', LocalOrigin, id'];
    assert contextLevel != "+" && etype != "+" && id != "+";
    assert contextLevel != "#" && etype != "#" && id != "#";
    MatchPointwise(p, t6);
    if contextLevel == contextLevel' && etype == etype' && id == id' {
      forall i | 0 <= i < 6
        ensures p[i] == "+" || p[i] == t6[i]
      {
      }
    } else if contextLevel != contextLevel' {
      assert !(p[2] == "+" || p[2] == t6[2]);
    } else if etype != etype' {
      assert !(p[3] == "+" || p[3] == t6[3]);
    } else {
      assert !(p[5] == "+" || p[5] == t6[5]);
    }
  }
}
