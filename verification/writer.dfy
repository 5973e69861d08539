/** Creating an entity (`post_entity`).

    Each attribute other than `type`, `id` and `@context` becomes a retained
    message on its attribute topic whose payload is `str()` of the attribute's
    value, followed by two lineage messages on the same topic with the
    suffixes `_timerelsystem_CreatedAt` and `_timerelsystem_modifiedAt`, whose
    payload is `str()` of a one-element list holding the creation time.
    Unless the existence check is bypassed, nothing is published when the
    entity already exists in any area. Finally the node advertises that it
    provides entities of this context and type.
 */
module Writer {
  import opened Basics
  import opened Text
  import opened Json
  import opened Topics
  import opened Broker

  /** The settings of the running node. */
  datatype Node = Node(area: string, broker: string, port: int, location: string, singleIdAdvertisement: bool)

  datatype PostStatus = Created | AlreadyExists

  /** What a call did: how it ended and the messages it published, in order. */
  datatype Post = Post(status: Result<PostStatus>, sent: seq<Message>)

  predicate Reserved(key: string)
  {
    key == "type" || key == "id" || key == "@context"
  }

  /** The `(key, value)` pairs that become attribute messages, in order. */
  function Attributes(data: seq<(string, Json)>): (r: seq<(string, Json)>)
    ensures forall i :: 0 <= i < |r| ==> !Reserved(r[i].0) && r[i] in data
    ensures forall i :: 0 <= i < |data| && !Reserved(data[i].0) ==> data[i] in r
    ensures UniqueKeys(data) ==> UniqueKeys(r)
    ensures |r| <= |data|
  {
    if |data| == 0 then []
    else (if Reserved(data[0].0) then [] else [data[0]]) + Attributes(data[1..])
  }

  /** The filter distributes over concatenation, so the kept pairs keep the
      order of `data.items()`. */
  lemma {:induction false} AttributesAppend(a: seq<(string, Json)>, b: seq<(string, Json)>)
    ensures Attributes(a + b) == Attributes(a) + Attributes(b)
    decreases |a|
  {
    if |a| == 0 {
      assert a + b == b;
    } else {
      assert (a + b)[1..] == a[1..] + b;
      AttributesAppend(a[1..], b);
    }
  }

  /** The context level: `@context` itself when it is a string, otherwise its
      first element; a non-string raises as `.replace` or `[0]` would. */
  function ContextLevelOf(context: Json): (r: Result<string>)
    ensures context.JStr? ==> r == Ok(EscapeContext(context.s))
    ensures context.JArr? && |context.a| > 0 && context.a[0].JStr? ==> r == Ok(EscapeContext(context.a[0].s))
    ensures context.JArr? && |context.a| == 0 ==> r == Raise(IndexError)
    ensures context.JArr? && |context.a| > 0 && !context.a[0].JStr? ==> r == Raise(AttributeError)
    ensures context.JObj? ==> r == Raise(KeyError)
    ensures !context.JStr? && !context.JArr? && !context.JObj? ==> r == Raise(TypeError)
    ensures r.Ok? ==> '/' !in r.value
  {
    match context
    case JStr(s) => Ok(EscapeContext(s))
    case JArr(a) =>
      if |a| == 0 then Raise(IndexError)
      else if a[0].JStr? then Ok(EscapeContext(a[0].s))
      else Raise(AttributeError)
    case JObj(_) => Raise(KeyError)
    case _ => Raise(TypeError)
  }

  /** The payload of both lineage messages: `str([now])`. */
  function LineagePayload(now: string): string
  {
    Repr(JArr([JStr(now)]))
  }

  /** The three retained messages of one attribute. */
  function AttributeMessages(area: string, contextLevel: string, etype: string, id: string,
                             attr: (string, Json), now: string): seq<Message>
  {
    [ Message(AttributeTopic(area, contextLevel, etype, id, attr.0), PyStr(attr.1), true),
      Message(AttributeTopic(area, contextLevel, etype, id, attr.0 + CreatedAtSuffix), LineagePayload(now), true),
      Message(AttributeTopic(area, contextLevel, etype, id, attr.0 + ModifiedAtSuffix), LineagePayload(now), true) ]
  }

  /** The attribute messages of the whole entity, attribute by attribute. */
  function AttributePublishes(area: string, contextLevel: string, etype: string, id: string,
                              attrs: seq<(string, Json)>, now: string): (r: seq<Message>)
    ensures |r| == 3 * |attrs|
    ensures forall i :: 0 <= i < |attrs| ==>
              r[3 * i..3 * i + 3] == AttributeMessages(area, contextLevel, etype, id, attrs[i], now)
  {
    if |attrs| == 0 then []
    else
      var head := AttributeMessages(area, contextLevel, etype, id, attrs[0], now);
      var rest := AttributePublishes(area, contextLevel, etype, id, attrs[1..], now);
      assert forall i :: 1 <= i < |attrs| ==> (head + rest)[3 * i..3 * i + 3] == rest[3 * (i - 1)..3 * (i - 1) + 3];
      head + rest
  }

  /** `provider/<broker>/<port>/<area>/<context>/<type>`, with `/<id>`
      appended under single-id advertisement. */
  function AdvertisementTopic(node: Node, contextLevel: string, etype: string, id: string): string
  {
    var base := ["provider", node.broker, IntToString(node.port), node.area, contextLevel, etype];
    TopicOf(if node.singleIdAdvertisement then base + [id] else base)
  }

  function AdvertisementPayload(now: string, location: string): string
  {
    "Provider Message: { CreatedAt:" + LineagePayload(now) + ",location:" + location + "}"
  }

  /** `post_entity(data, …)`. `store` is the broker's retained store when the
      call starts; the existence probes see it as a complete window would.
      `now` is the clock reading used for the lineage messages. */
  function PostEntity(node: Node, store: Store, data: seq<(string, Json)>, now: string, bypass: bool): (r: Post)
    ensures Lookup(data, "type").None? || Lookup(data, "id").None? || Lookup(data, "@context").None?
            ==> r == Post(Raise(Exit(2)), [])
    ensures r.status == Ok(AlreadyExists) ==> r.sent == [] && !bypass
  {
    if Lookup(data, "type").None? || Lookup(data, "id").None? || Lookup(data, "@context").None? then
      Post(Raise(Exit(2)), [])
    else
      var etype := PyStr(Lookup(data, "type").value);
      var id := PyStr(Lookup(data, "id").value);
      match ContextLevelOf(Lookup(data, "@context").value)
      case Raise(e) => Post(Raise(e), [])
      case Ok(contextLevel) =>
        if !bypass && Matching(store, ExistenceFilter(contextLevel, etype, id)) != {} then
          Post(Ok(AlreadyExists), [])
        else
          var attrs := Attributes(data);
          var sent := AttributePublishes(node.area, contextLevel, etype, id, attrs, now);
          var advTopic := AdvertisementTopic(node, contextLevel, etype, id);
          var advertise := bypass || node.singleIdAdvertisement
                           || Matching(ApplyAll(store, sent), advTopic) == {};
          if !advertise then Post(Ok(Created), sent)
          else if |attrs| == 0 then Post(Raise(NameError), sent)
          else Post(Ok(Created), sent + [Message(advTopic, AdvertisementPayload(now, node.location), true)])
  }

  /** An attribute of a created entity is stored with `str()` of its value,
      whatever the call publishes after the attribute messages elsewhere. */
  lemma {:induction false} AttributeStored(area: string, contextLevel: string, etype: string, id: string,
                                           attrs: seq<(string, Json)>, now: string, extra: seq<Message>,
                                           store: Store, i: nat)
    requires i < |attrs|
    requires UniqueKeys(attrs)
    requires forall j :: 0 <= j < |attrs| ==>
               '/' !in attrs[j].0 && !EndsWith(attrs[j].0, CreatedAtSuffix) && !EndsWith(attrs[j].0, ModifiedAtSuffix)
    requires '/' !in area && '/' !in contextLevel && '/' !in etype && '/' !in id
    requires PyStr(attrs[i].1) != ""
    requires forall j :: 0 <= j < |extra| ==> extra[j].topic != AttributeTopic(area, contextLevel, etype, id, attrs[i].0)
    ensures var after := ApplyAll(store, AttributePublishes(area, contextLevel, etype, id, attrs, now) + extra);
            var t := AttributeTopic(area, contextLevel, etype, id, attrs[i].0);
            t in after && after[t] == PyStr(attrs[i].1)
  {
    var pubs := AttributePublishes(area, contextLevel, etype, id, attrs, now);
    var ms := pubs + extra;
    var k := 3 * i;
    assert ms[k] == pubs[3 * i..3 * i + 3][0];
    var t := AttributeTopic(area, contextLevel, etype, id, attrs[i].0);
    forall j | k < j < |ms|
      ensures !(ms[j].retain && ms[j].topic == t)
    {
      if j < |pubs| {
        var a := j / 3;
        PublishAt(area, contextLevel, etype, id, attrs, now, j);
        assert ms[j] == pubs[j];
        AttributeTopicsDiffer(area, contextLevel, etype, id, attrs[a].0, attrs[i].0, j % 3, a == i);
      } else {
        assert ms[j] == extra[j - |pubs|];
      }
    }
    ApplyAllLastWins(store, ms, k);
  }

  /** Message `j` of the publishes is message `j % 3` of attribute `j / 3`. */
  lemma PublishAt(area: string, contextLevel: string, etype: string, id: string,
                  attrs: seq<(string, Json)>, now: string, j: int)
    requires 0 <= j < 3 * |attrs|
    ensures var a := attrs[j / 3].0;
            var off := j % 3;
            && AttributePublishes(area, contextLevel, etype, id, attrs, now)[j].retain
            && AttributePublishes(area, contextLevel, etype, id, attrs, now)[j].topic
               == AttributeTopic(area, contextLevel, etype, id,
                    if off == 0 then a else if off == 1 then a + CreatedAtSuffix else a + ModifiedAtSuffix)
  {
    var pubs := AttributePublishes(area, contextLevel, etype, id, attrs, now);
    var a := j / 3;
    var off := j % 3;
    assert j == 3 * a + off;
    assert pubs[j] == pubs[3 * a..3 * a + 3][off];
  }

  /** Topics of distinct attribute messages differ: the lineage topics of an
      attribute never equal a plain attribute topic. */
  lemma AttributeTopicsDiffer(area: string, contextLevel: string, etype: string, id: string,
                              a: string, b: string, off: nat, same: bool)
    requires off < 3
    requires same <==> a == b
    requires same ==> off != 0
    requires !EndsWith(b, CreatedAtSuffix) && !EndsWith(b, ModifiedAtSuffix)
    requires '/' !in area && '/' !in contextLevel && '/' !in etype && '/' !in id && '/' !in a && '/' !in b
    ensures AttributeTopic(area, contextLevel, etype, id,
              if off == 0 then a else if off == 1 then a + CreatedAtSuffix else a + ModifiedAtSuffix)
         != AttributeTopic(area, contextLevel, etype, id, b)
  {
    var la := if off == 0 then a else if off == 1 then a + CreatedAtSuffix else a + ModifiedAtSuffix;
    assert '/' !in CreatedAtSuffix && '/' !in ModifiedAtSuffix;
    assert '/' !in la;
    assert la != b by {
      if off == 1 {
        assert (a + CreatedAtSuffix)[|a|..] == CreatedAtSuffix;
        assert EndsWith(la, CreatedAtSuffix);
      } else if off == 2 {
        assert (a + ModifiedAtSuffix)[|a|..] == ModifiedAtSuffix;
        assert EndsWith(la, ModifiedAtSuffix);
      }
    }
    LevelsOfTopic([area, EntitiesLevel, contextLevel, etype, LocalOrigin, id, la]);
    LevelsOfTopic([area, EntitiesLevel, contextLevel, etype, LocalOrigin, id, b]);
  }

  /** An entity whose topic levels are plain: the area is an ordinary first
      level, and type, id, context and attribute names hold no `/` or
      wildcard; attribute names do not end in a lineage suffix and no value
      prints as the empty string. */
  predicate WellFormedEntity(node: Node, data: seq<(string, Json)>)
  {
    && UniqueKeys(data)
    && Lookup(data, "type").Some? && Plain(PyStr(Lookup(data, "type").value))
    && Lookup(data, "id").Some? && Plain(PyStr(Lookup(data, "id").value))
    && Lookup(data, "@context").Some?
    && ContextLevelOf(Lookup(data, "@context").value).Ok?
    && Plain(ContextLevelOf(Lookup(data, "@context").value).value)
    && Plain(node.area) && !StartsWith(node.area, "$") && node.area != "provider"
    && (var attrs := Attributes(data);
        forall i :: 0 <= i < |attrs| ==>
          Plain(attrs[i].0) && PyStr(attrs[i].1) != ""
          && !EndsWith(attrs[i].0, CreatedAtSuffix) && !EndsWith(attrs[i].0, ModifiedAtSuffix))
  }

  /** The first level of a topic is everything before its first `/`. */
  lemma FirstLevel(first: string, rest: seq<string>)
    requires '/' !in first && |rest| > 0
    ensures LevelsOf(TopicOf([first] + rest))[0] == first
  {
    assert TopicOf([first] + rest) == first + ['/'] + TopicOf(rest);
    SplitCons(first, '/', TopicOf(rest));
  }

  /** The advertisement never lands on an attribute topic of an area other
      than `provider`. */
  lemma AdvertisementNotAttribute(node: Node, contextLevel: string, etype: string, id: string, attr: string)
    requires '/' !in node.area && node.area != "provider"
    ensures AdvertisementTopic(node, contextLevel, etype, id) != AttributeTopic(node.area, contextLevel, etype, id, attr)
  {
    var base := ["provider", node.broker, IntToString(node.port), node.area, contextLevel, etype];
    var levels := if node.singleIdAdvertisement then base + [id] else base;
    assert levels == ["provider"] + levels[1..];
    FirstLevel("provider", levels[1..]);
    var tl := [node.area, EntitiesLevel, contextLevel, etype, LocalOrigin, id, attr];
    assert tl == [node.area] + tl[1..];
    FirstLevel(node.area, tl[1..]);
  }

  /** A created entity's messages are its attribute messages, followed by
      the advertisement exactly when the existence check is bypassed, the
      node advertises single ids, or no advertisement of this topic is
      retained once the attribute messages are in. */
  lemma CreatedShape(node: Node, store: Store, data: seq<(string, Json)>, now: string, bypass: bool)
    requires PostEntity(node, store, data, now, bypass).status == Ok(Created)
    ensures Lookup(data, "type").Some? && Lookup(data, "id").Some? && Lookup(data, "@context").Some?
    ensures ContextLevelOf(Lookup(data, "@context").value).Ok?
    ensures var etype := PyStr(Lookup(data, "type").value);
            var id := PyStr(Lookup(data, "id").value);
            var contextLevel := ContextLevelOf(Lookup(data, "@context").value).value;
            var pubs := AttributePublishes(node.area, contextLevel, etype, id, Attributes(data), now);
            var advTopic := AdvertisementTopic(node, contextLevel, etype, id);
            var sent := PostEntity(node, store, data, now, bypass).sent;
            && (sent == pubs || sent == pubs + [Message(advTopic, AdvertisementPayload(now, node.location), true)])
            && (sent == pubs + [Message(advTopic, AdvertisementPayload(now, node.location), true)] <==>
                  bypass || node.singleIdAdvertisement || Matching(ApplyAll(store, pubs), advTopic) == {})
  {
    var etype := PyStr(Lookup(data, "type").value);
    var id := PyStr(Lookup(data, "id").value);
    var contextLevel := ContextLevelOf(Lookup(data, "@context").value).value;
    var pubs := AttributePublishes(node.area, contextLevel, etype, id, Attributes(data), now);
    var adv := Message(AdvertisementTopic(node, contextLevel, etype, id), AdvertisementPayload(now, node.location), true);
    assert |pubs + [adv]| != |pubs|;
  }

  /** The digits of a port hold no separator or wildcard. */
  lemma PortPlain(n: int)
    ensures Plain(IntToString(n))
  {
    var s := IntToString(n);
    var d := if n < 0 then NatToString(-n) else NatToString(n);
    assert IsDigits(d);
    assert forall c :: c in s ==> c == '-' || IsDigit(c);
  }

  /** The advertisement topic has six levels naming the broker, the port,
      the area, the context and the type, and a seventh naming the id
      exactly under single-id advertisement. */
  lemma AdvertisementLevels(node: Node, contextLevel: string, etype: string, id: string)
    requires '/' !in node.broker && '/' !in node.area && '/' !in contextLevel && '/' !in etype && '/' !in id
    ensures var l := LevelsOf(AdvertisementTopic(node, contextLevel, etype, id));
            && |l| == (if node.singleIdAdvertisement then 7 else 6)
            && l[..6] == ["provider", node.broker, IntToString(node.port), node.area, contextLevel, etype]
            && (node.singleIdAdvertisement ==> l[6] == id)
  {
    PortPlain(node.port);
    var base := ["provider", node.broker, IntToString(node.port), node.area, contextLevel, etype];
    var levels := if node.singleIdAdvertisement then base + [id] else base;
    assert forall i :: 0 <= i < |levels| ==> '/' !in levels[i];
    LevelsOfTopic(levels);
    assert levels[..6] == base;
  }

  /** Without the bypass, a probe that finds the entity stops the call. */
  lemma FoundStopsPost(node: Node, store: Store, data: seq<(string, Json)>, now: string)
    requires Lookup(data, "type").Some? && Lookup(data, "id").Some? && Lookup(data, "@context").Some?
    requires ContextLevelOf(Lookup(data, "@context").value).Ok?
    requires Matching(store, ExistenceFilter(ContextLevelOf(Lookup(data, "@context").value).value,
                                             PyStr(Lookup(data, "type").value), PyStr(Lookup(data, "id").value))) != {}
    ensures PostEntity(node, store, data, now, false) == Post(Ok(AlreadyExists), [])
  {
  }

  /** The attribute messages followed by advertisements leave the entity
      visible to its existence probe. */
  lemma CreatedIsVisible(node: Node, contextLevel: string, etype: string, id: string,
                         attrs: seq<(string, Json)>, now: string, extra: seq<Message>, store: Store)
    requires |attrs| > 0 && UniqueKeys(attrs)
    requires forall i :: 0 <= i < |attrs| ==>
               Plain(attrs[i].0) && PyStr(attrs[i].1) != ""
               && !EndsWith(attrs[i].0, CreatedAtSuffix) && !EndsWith(attrs[i].0, ModifiedAtSuffix)
    requires Plain(contextLevel) && Plain(etype) && Plain(id)
    requires Plain(node.area) && !StartsWith(node.area, "$") && node.area != "provider"
    requires forall j :: 0 <= j < |extra| ==> extra[j].topic == AdvertisementTopic(node, contextLevel, etype, id)
    ensures Matching(ApplyAll(store, AttributePublishes(node.area, contextLevel, etype, id, attrs, now) + extra),
                     ExistenceFilter(contextLevel, etype, id)) != {}
  {
    AdvertisementNotAttribute(node, contextLevel, etype, id, attrs[0].0);
    AttributeStored(node.area, contextLevel, etype, id, attrs, now, extra, store, 0);
    ExistenceFilterExact(contextLevel, etype, id, node.area, contextLevel, etype, id, attrs[0].0);
    var t := AttributeTopic(node.area, contextLevel, etype, id, attrs[0].0);
    assert t in Matching(ApplyAll(store, AttributePublishes(node.area, contextLevel, etype, id, attrs, now) + extra),
                         ExistenceFilter(contextLevel, etype, id));
  }

  /** Once an entity with at least one attribute has been created, the
      existence probe finds it: posting it again without the bypass
      publishes nothing and reports that it exists. */
  lemma PostThenExists(node: Node, store: Store, data: seq<(string, Json)>, now: string, later: string, bypass: bool)
    requires WellFormedEntity(node, data)
    requires PostEntity(node, store, data, now, bypass).status == Ok(Created)
    requires |Attributes(data)| > 0
    ensures var again := PostEntity(node, ApplyAll(store, PostEntity(node, store, data, now, bypass).sent), data, later, false);
            again == Post(Ok(AlreadyExists), [])
  {
    var sent := PostEntity(node, store, data, now, bypass).sent;
    SentVisible(node, store, data, now, bypass);
    FoundStopsPost(node, ApplyAll(store, sent), data, later);
  }

  /** What a successful post sent leaves the entity visible to its probe. */
  lemma SentVisible(node: Node, store: Store, data: seq<(string, Json)>, now: string, bypass: bool)
    requires WellFormedEntity(node, data)
    requires PostEntity(node, store, data, now, bypass).status == Ok(Created)
    requires |Attributes(data)| > 0
    ensures var etype := PyStr(Lookup(data, "type").value);
            var id := PyStr(Lookup(data, "id").value);
            var contextLevel := ContextLevelOf(Lookup(data, "@context").value).value;
            Matching(ApplyAll(store, PostEntity(node, store, data, now, bypass).sent),
                     ExistenceFilter(contextLevel, etype, id)) != {}
  {
    CreatedShape(node, store, data, now, bypass);
    VisibleAfter(node, data, now, PostEntity(node, store, data, now, bypass).sent, store);
  }

  /** The attribute messages, with or without the advertisement after them,
      leave the entity visible. */
  lemma VisibleAfter(node: Node, data: seq<(string, Json)>, now: string, sent: seq<Message>, store: Store)
    requires WellFormedEntity(node, data) && |Attributes(data)| > 0
    requires var etype := PyStr(Lookup(data, "type").value);
             var id := PyStr(Lookup(data, "id").value);
             var contextLevel := ContextLevelOf(Lookup(data, "@context").value).value;
             var pubs := AttributePublishes(node.area, contextLevel, etype, id, Attributes(data), now);
             sent == pubs || sent == pubs + [Message(AdvertisementTopic(node, contextLevel, etype, id), AdvertisementPayload(now, node.location), true)]
    ensures var etype := PyStr(Lookup(data, "type").value);
            var id := PyStr(Lookup(data, "id").value);
            var contextLevel := ContextLevelOf(Lookup(data, "@context").value).value;
            Matching(ApplyAll(store, sent), ExistenceFilter(contextLevel, etype, id)) != {}
  {
    var etype := PyStr(Lookup(data, "type").value);
    var id := PyStr(Lookup(data, "id").value);
    var contextLevel := ContextLevelOf(Lookup(data, "@context").value).value;
    var pubs := AttributePublishes(node.area, contextLevel, etype, id, Attributes(data), now);
    var extra := if sent == pubs then [] else [Message(AdvertisementTopic(node, contextLevel, etype, id), AdvertisementPayload(now, node.location), true)];
    assert sent == pubs + extra;
    EntityVisible(node, data, now, extra, store);
  }

  /** `CreatedIsVisible` for the parts of a well-formed entity. */
  lemma EntityVisible(node: Node, data: seq<(string, Json)>, now: string, extra: seq<Message>, store: Store)
    requires WellFormedEntity(node, data) && |Attributes(data)| > 0
    requires var contextLevel := ContextLevelOf(Lookup(data, "@context").value).value;
             forall j :: 0 <= j < |extra| ==>
               extra[j].topic == AdvertisementTopic(node, contextLevel, PyStr(Lookup(data, "type").value), PyStr(Lookup(data, "id").value))
    ensures var etype := PyStr(Lookup(data, "type").value);
            var id := PyStr(Lookup(data, "id").value);
            var contextLevel := ContextLevelOf(Lookup(data, "@context").value).value;
            Matching(ApplyAll(store, AttributePublishes(node.area, contextLevel, etype, id, Attributes(data), now) + extra),
                     ExistenceFilter(contextLevel, etype, id)) != {}
  {
    var etype := PyStr(Lookup(data, "type").value);
    var id := PyStr(Lookup(data, "id").value);
    var contextLevel := ContextLevelOf(Lookup(data, "@context").value).value;
    CreatedIsVisible(node, contextLevel, etype, id, Attributes(data), now, extra, store);
  }
}
