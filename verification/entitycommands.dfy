/** The DELETE, PATCH and batch commands of the command-line front end.

    Deleting retracts retained messages: `clear_retained` answers every
    retained delivery on a filter with a zero-length retained publish, which
    on a complete window leaves the store without the messages the filter
    matches (`ClearFilter`). The command text is split on `/`; the entity id
    is its third piece. The topic that the existence probe reported last
    (the script's global `exists_topic`) is a parameter, `found`, tied to
    the store by `Reported`: on a complete window the probe delivers one of
    the retained topics its filter matches (`Broker.ProbeAnswersExistence`).
    The commands take the entity's type (fourth level from the end) and
    origin (third from the end) from it. The clock is a parameter too: PATCH
    reads it once per written attribute, `nows[i]` for the `i`-th.
 */
module EntityCommands {
  import opened Basics
  import opened Text
  import opened Json
  import opened Topics
  import opened Broker
  import opened Writer
  import opened Subscriptions

  /** The context level of the `-H` link: `+` when none was given. */
  function LinkLevel(link: string): (r: string)
    ensures '/' !in r
  {
    if link == "" then "+" else EscapeContext(link)
  }

  /** A plain link is its own context level. */
  lemma LinkLevelPlain(link: string)
    requires Plain(link) && link != ""
    ensures LinkLevel(link) == link
  {
    assert "/" == ['/'] && "§" == ['§'];
    ReplaceCharAbsent(link, '/', '§');
  }

  /** The store once the retained messages a filter matches are retracted. */
  function ClearFilter(store: Store, filter: string): (r: Store)
    ensures Matching(r, filter) == {}
    ensures forall t :: t in store && !Delivers(filter, t) ==> t in r && r[t] == store[t]
    ensures r.Keys <= store.Keys
  {
    map t | t in store && !Delivers(filter, t) :: store[t]
  }

  /** `clear_retained` on a complete window retracts exactly what the
      filter matches. */
  lemma ClearRetainedIsClearFilter(store: Store, filter: string, window: seq<Message>)
    requires CompleteWindow(store, filter, window)
    ensures ApplyAll(store, ClearPublishes(window)) == ClearFilter(store, filter)
  {
    ClearingRemovesRetained(store, window);
    forall t | t in store
      ensures t in RetainedTopics(window) <==> Delivers(filter, t)
    {
      if Delivers(filter, t) {
        var i :| 0 <= i < |window| && window[i].topic == t;
      }
    }
  }

  /** The filter of every attribute of entity `id` in `area`. */
  function EntityFilter(area: string, contextLevel: string, id: string): string
  {
    TopicOf([area, EntitiesLevel, contextLevel, "+", "+", id, "#"])
  }

  /** The type level of the probe's topic (`split('/')[-4]`). */
  function TypeOfFound(found: string): (r: Result<string>)
    ensures r.Ok? <==> |LevelsOf(found)| >= 4
  {
    var l := LevelsOf(found);
    if |l| < 4 then Raise(IndexError) else Ok(l[|l| - 4])
  }

  /** `found` is what the existence probe on `filter` reported: one of the
      retained topics the filter matches, whenever it matches any. */
  predicate Reported(store: Store, filter: string, found: string)
  {
    Matching(store, filter) != {} ==> found in Matching(store, filter)
  }

  /** A topic delivered on the filter of entity `eid` (first level `first`,
      possibly `+`) carries the entity's levels and at least six of them, so
      its type level (fourth from the end) exists; on an attribute topic,
      seven levels deep, that is the fourth level, and the origin the fifth. */
  lemma EntityTopicLevels(first: string, h: string, eid: string, t: string)
    requires '/' !in first && '/' !in h && '/' !in eid
    requires first != "#" && h != "#" && eid != "#"
    requires Delivers(TopicOf([first, EntitiesLevel, h, "+", "+", eid, "#"]), t)
    ensures var l := LevelsOf(t);
            && |l| >= 6 && l[1] == EntitiesLevel && (eid != "+" ==> l[5] == eid)
            && (first != "+" ==> l[0] == first) && (h != "+" ==> l[2] == h)
            && TypeOfFound(t).Ok?
            && (|l| == 7 ==> TypeOfFound(t).value == l[3] && l[|l| - 3] == l[4])
  {
    var prefix := [first, EntitiesLevel, h, "+", "+", eid];
    var levels := prefix + ["#"];
    assert levels == [first, EntitiesLevel, h, "+", "+", eid, "#"];
    assert '/' !in EntitiesLevel && '/' !in "+" && '/' !in "#";
    LevelsOfTopic(levels);
    var l := LevelsOf(t);
    assert MatchLevels(levels, l);
    assert '+' in "+" && '#' in "#" && EntitiesLevel[0] == 'e';
    assert forall i :: 0 <= i < |prefix| ==> prefix[i] != "#";
    MatchHashTail(prefix, l);
    var head := l[..6];
    MatchPointwise(prefix, head);
    assert head[1] == l[1] && head[5] == l[5] && head[0] == l[0] && head[2] == l[2];
  }

  /** The filter of every entity of type `tp` in `area`. */
  function TypeEntities(area: string, contextLevel: string, tp: string): string
  {
    TopicOf([area, EntitiesLevel, contextLevel, tp, "+", "+", "#"])
  }

  /** The advertisement step once an entity's messages are retracted: the
      entity's own advertisement under single-id advertisement, otherwise
      the type's, and that one only when no entity of the type is left. */
  function RetractAdvertisement(node: Node, cleared: Store, h: string, tp: string, eid: string): (r: Store)
    ensures r.Keys <= cleared.Keys
  {
    if node.singleIdAdvertisement || Matching(cleared, TypeEntities(node.area, h, tp)) == {} then
      ClearFilter(cleared, AdvertisementTopic(node, h, tp, eid))
    else cleared
  }

  /** `DELETE/entities/<id>` retracts the entity's messages in this node's
      area, then the node's advertisement: under single-id advertisement
      the entity's own, otherwise the type's, and that one only when no
      entity of the type is left. `DELETE/entities/<id>/attrs/<attr>`
      retracts the attribute's messages. The probe finding nothing, or a
      fourth piece other than `attrs`, ends the program with status 2. */
  function Delete(node: Node, store: Store, command: string, link: string, found: string): (r: Result<Store>)
    requires DeleteProbe(node, store, command, link, found)
    ensures r.Ok? ==> r.value.Keys <= store.Keys
    ensures var parts := Split(command, '/');
            r == Raise(Exit(2)) <==>
              |parts| >= 3 &&
              ((|parts| < 5 && Matching(store, EntityFilter(node.area, LinkLevel(link), parts[2])) == {})
               || (|parts| >= 5 && parts[3] != "attrs"))
    ensures var parts := Split(command, '/');
            r == Raise(IndexError) <==>
              |parts| < 3 ||
              (|parts| < 5 && Matching(store, EntityFilter(node.area, LinkLevel(link), parts[2])) != {}
               && |LevelsOf(found)| < 4)
  {
    var parts := Split(command, '/');
    var h := LinkLevel(link);
    if |parts| < 5 then
      if |parts| < 3 then Raise(IndexError)
      else
        var eid := parts[2];
        var top := EntityFilter(node.area, h, eid);
        if Matching(store, top) == {} then Raise(Exit(2))
        else
          var cleared := ClearFilter(store, top);
          var tp :- TypeOfFound(found);
          Ok(RetractAdvertisement(node, cleared, h, tp, eid))
    else if parts[3] != "attrs" then Raise(Exit(2))
    else Ok(ClearFilter(store, TopicOf([node.area, EntitiesLevel, h, "+", "+", parts[2], parts[4]])))
  }

  /** The entity form of `DELETE` probes the entity's filter in this area,
      and `found` is what that probe reported. */
  predicate DeleteProbe(node: Node, store: Store, command: string, link: string, found: string)
  {
    var parts := Split(command, '/');
    3 <= |parts| < 5 ==> Reported(store, EntityFilter(node.area, LinkLevel(link), parts[2]), found)
  }

  /** With no wildcard in the area, context and id levels, deleting an
      entity never raises `IndexError`: it ends with status 2 or succeeds,
      and the type whose advertisement it retracts is read from a retained
      topic of the entity, the fourth level of an attribute topic. */
  lemma DeleteReported(node: Node, store: Store, command: string, link: string, found: string)
    requires var parts := Split(command, '/'); 3 <= |parts| < 5 && Plain(parts[2])
    requires Plain(node.area) && LinkLevel(link) != "#"
    requires DeleteProbe(node, store, command, link, found)
    ensures var r := Delete(node, store, command, link, found);
            r.Ok? || r == Raise(Exit(2))
    ensures var l := LevelsOf(found);
            var eid := Split(command, '/')[2];
            Delete(node, store, command, link, found).Ok? ==>
              && found in store && Delivers(EntityFilter(node.area, LinkLevel(link), eid), found)
              && |l| >= 6 && l[0] == node.area && l[5] == eid
              && (|l| == 7 ==> TypeOfFound(found) == Ok(l[3]))
  {
    var parts := Split(command, '/');
    var top := EntityFilter(node.area, LinkLevel(link), parts[2]);
    if Matching(store, top) != {} {
      assert node.area != "+" && parts[2] != "+" && parts[2] != "#" by { assert '+' in "+" && '#' in "#"; }
      EntityTopicLevels(node.area, LinkLevel(link), parts[2], found);
    }
  }

  /** A topic of plain levels is delivered on itself as a filter. */
  lemma SelfDelivers(levels: seq<string>)
    requires |levels| >= 1
    requires forall i :: 0 <= i < |levels| ==> Plain(levels[i])
    requires !StartsWith(levels[0], "$")
    ensures Delivers(TopicOf(levels), TopicOf(levels))
  {
    DeliversLevels(levels, levels);
    assert '#' in "#";
    MatchPointwise(levels, levels);
  }

  /** A filter whose first level is plain only delivers topics that begin
      with that level. */
  lemma FirstLevelDelivers(levels: seq<string>, t: string)
    requires |levels| >= 2 && Plain(levels[0])
    requires Delivers(TopicOf(levels), t)
    ensures LevelsOf(t)[0] == levels[0]
  {
    assert levels == [levels[0]] + levels[1..];
    FirstLevel(levels[0], levels[1..]);
    assert '+' in "+" && '#' in "#";
  }

  /** The advertisement is delivered on itself and lies outside the filter
      of any entity of the node's area (an area other than `provider`). */
  lemma AdvertisementApart(node: Node, h: string, tp: string, eid: string)
    requires Plain(node.area) && Plain(node.broker) && Plain(h) && Plain(tp) && Plain(eid)
    requires node.area != "provider"
    ensures var adv := AdvertisementTopic(node, h, tp, eid);
            Delivers(adv, adv) && !Delivers(EntityFilter(node.area, h, eid), adv)
  {
    var base := ["provider", node.broker, IntToString(node.port), node.area, h, tp];
    var levels := if node.singleIdAdvertisement then base + [eid] else base;
    var adv := TopicOf(levels);
    PortPlain(node.port);
    assert Plain("provider") by { assert "provider" == ['p','r','o','v','i','d','e','r']; }
    assert "provider"[..1] == "p";
    SelfDelivers(levels);
    assert levels == ["provider"] + levels[1..];
    FirstLevel("provider", levels[1..]);
    if Delivers(EntityFilter(node.area, h, eid), adv) {
      FirstLevelDelivers([node.area, EntitiesLevel, h, "+", "+", eid, "#"], adv);
    }
  }

  /** After deleting an entity, no message of the entity is left in the
      node's area, and every message outside the area's entity and the
      advertisements is as it was. */
  lemma DeleteEntityRetracts(node: Node, store: Store, command: string, link: string, found: string)
    requires var parts := Split(command, '/'); 3 <= |parts| < 5
    requires Plain(node.area)
    requires DeleteProbe(node, store, command, link, found)
    requires Delete(node, store, command, link, found).Ok?
    ensures var s := Delete(node, store, command, link, found).value;
            var top := EntityFilter(node.area, LinkLevel(link), Split(command, '/')[2]);
            && Matching(s, top) == {}
            && forall t :: t in store && !Delivers(top, t) && LevelsOf(t)[0] != "provider" ==> t in s && s[t] == store[t]
  {
    var parts := Split(command, '/');
    var h := LinkLevel(link);
    var eid := parts[2];
    var top := EntityFilter(node.area, h, eid);
    var cleared := ClearFilter(store, top);
    var tp := TypeOfFound(found).value;
    var spec := AdvertisementTopic(node, h, tp, eid);
    assert Plain("provider") by { assert "provider" == ['p','r','o','v','i','d','e','r']; }
    var base := ["provider", node.broker, IntToString(node.port), node.area, h, tp];
    var levels := if node.singleIdAdvertisement then base + [eid] else base;
    assert spec == TopicOf(levels);
    forall t | t in cleared && LevelsOf(t)[0] != "provider"
      ensures !Delivers(spec, t)
    {
      if Delivers(spec, t) {
        FirstLevelDelivers(levels, t);
      }
    }
  }

  /** Without single-id advertisement, deleting an entity retracts the type's
      advertisement exactly when no entity of that type is left in the
      node's area and context; the type is the one the probe read from a
      retained topic of the entity. */
  lemma DeleteRetractsAdvertisementWhenLast(node: Node, store: Store, command: string, link: string, found: string)
    requires var parts := Split(command, '/'); 3 <= |parts| < 5 && Plain(parts[2])
    requires !node.singleIdAdvertisement
    requires Plain(node.area) && Plain(node.broker) && Plain(link) && link != "" && node.area != "provider"
    requires DeleteProbe(node, store, command, link, found)
    requires Delete(node, store, command, link, found).Ok?
    requires Plain(TypeOfFound(found).value)
    ensures var s := Delete(node, store, command, link, found).value;
            var eid := Split(command, '/')[2];
            var tp := TypeOfFound(found).value;
            var adv := AdvertisementTopic(node, link, tp, eid);
            var cleared := ClearFilter(store, EntityFilter(node.area, link, eid));
            adv in store ==>
              (adv !in s <==> Matching(cleared, TopicOf([node.area, EntitiesLevel, link, tp, "+", "+", "#"])) == {})
  {
    LinkLevelPlain(link);
    AdvertisementApart(node, link, TypeOfFound(found).value, Split(command, '/')[2]);
  }

  /** Deleting one attribute retracts it and leaves its lineage messages
      behind. */
  lemma DeleteAttributeKeepsLineage(node: Node, store: Store, link: string, found: string,
                                    eid: string, attr: string, etype: string)
    requires Plain(eid) && Plain(attr) && Plain(etype)
    requires Plain(node.area) && !StartsWith(node.area, "$")
    requires Plain(link) && link != ""
    requires DeleteProbe(node, store, TopicOf(["DELETE", "entities", eid, "attrs", attr]), link, found)
    ensures var command := TopicOf(["DELETE", "entities", eid, "attrs", attr]);
            var s := Delete(node, store, command, link, found);
            var lineage := AttributeTopic(node.area, link, etype, eid, attr + CreatedAtSuffix);
            && s.Ok?
            && AttributeTopic(node.area, link, etype, eid, attr) !in s.value
            && (lineage in store ==> lineage in s.value && s.value[lineage] == store[lineage])
  {
    LevelsOfTopic(["DELETE", "entities", eid, "attrs", attr]);
    LinkLevelPlain(link);
    var sfx := attr + CreatedAtSuffix;
    assert Plain(sfx) by {
      assert CreatedAtSuffix == "_timerelsystem_CreatedAt";
      assert forall c :: c in sfx ==> c in attr || c in CreatedAtSuffix;
    }
    AttributeFilterMatch(node.area, link, "+", eid, attr, node.area, link, etype, eid, sfx);
    AttributeFilterMatch(node.area, link, "+", eid, attr, node.area, link, etype, eid, attr);
    assert AttributeFilter(node.area, link, "+", eid, attr)
        == TopicOf([node.area, EntitiesLevel, link, "+", "+", eid, attr]);
    assert sfx != attr by { assert |sfx| > |attr|; }
  }

  // ---------------------------------------------------------------------
  // PATCH

  /** The two messages of one patched attribute: its value on the topic with
      the given origin, and its modification time `now`, read for this
      attribute, on the local lineage topic. */
  function PatchPair(area: string, contextLevel: string, etype: string, origin: string, eid: string,
                     attr: (string, Json), now: string): seq<Message>
  {
    [ Message(TopicOf([area, EntitiesLevel, contextLevel, etype, origin, eid, attr.0]), PyStr(attr.1), true),
      Message(TopicOf([area, EntitiesLevel, contextLevel, etype, LocalOrigin, eid, attr.0 + ModifiedAtSuffix]),
              LineagePayload(now), true) ]
  }

  /** The messages of a patch, attribute by attribute, the `i`-th with the
      clock reading `nows[i]`. */
  function PatchMessages(area: string, contextLevel: string, etype: string, origin: string, eid: string,
                         attrs: seq<(string, Json)>, nows: seq<string>): (r: seq<Message>)
    requires |nows| >= |attrs|
    ensures |r| == 2 * |attrs|
    ensures forall i :: 0 <= i < |attrs| ==>
              r[2 * i..2 * i + 2] == PatchPair(area, contextLevel, etype, origin, eid, attrs[i], nows[i])
  {
    if |attrs| == 0 then []
    else
      var head := PatchPair(area, contextLevel, etype, origin, eid, attrs[0], nows[0]);
      var rest := PatchMessages(area, contextLevel, etype, origin, eid, attrs[1..], nows[1..]);
      assert forall i :: 1 <= i < |attrs| ==> (head + rest)[2 * i..2 * i + 2] == rest[2 * (i - 1)..2 * (i - 1) + 2];
      head + rest
  }

  /** `PATCH/entities/<id>/attr/<name>` with the file's attributes `data`:
      the entity must exist in some area. With an empty name every attribute
      other than `type`, `id` and `@context` is written locally; with a name,
      every key of the file is written under the origin of the probe's
      topic, whatever the name. The clock is read once per written
      attribute. */
  function Patch(node: Node, store: Store, command: string, link: string,
                 data: seq<(string, Json)>, found: string, nows: seq<string>): (r: Result<seq<Message>>)
    requires |nows| >= |data|
    requires PatchProbe(store, command, link, found)
    ensures r.Ok? ==> |r.value| % 2 == 0
    ensures var parts := Split(command, '/');
            r == Raise(Exit(2)) <==>
              |parts| < 5 || parts[3] != "attr"
              || Matching(store, TopicOf(["+", EntitiesLevel, LinkLevel(link), "+", "+", parts[2], "#"])) == {}
    ensures r.Raise? && r != Raise(Exit(2)) ==> r == Raise(IndexError) && |LevelsOf(found)| < 4
    ensures var parts := Split(command, '/');
            r.Ok? ==> |r.value| == 2 * (if parts[4] == "" then |Attributes(data)| else |data|)
  {
    var parts := Split(command, '/');
    var h := LinkLevel(link);
    if |parts| < 5 || parts[3] != "attr" then Raise(Exit(2))
    else
      var eid := parts[2];
      if Matching(store, TopicOf(["+", EntitiesLevel, h, "+", "+", eid, "#"])) == {} then Raise(Exit(2))
      else
        var tp :- TypeOfFound(found);
        var fl := LevelsOf(found);
        var loc := fl[|fl| - 3];
        if parts[4] == "" then Ok(PatchMessages(node.area, h, tp, LocalOrigin, eid, Attributes(data), nows))
        else Ok(PatchMessages(node.area, h, tp, loc, eid, data, nows))
  }

  /** PATCH probes `+/entities/<H>/+/+/<id>/#`, and `found` is what that
      probe reported. */
  predicate PatchProbe(store: Store, command: string, link: string, found: string)
  {
    var parts := Split(command, '/');
    |parts| >= 5 ==> Reported(store, TopicOf(["+", EntitiesLevel, LinkLevel(link), "+", "+", parts[2], "#"]), found)
  }

  /** With no `#` in the context and id levels, a well-formed patch of an
      entity that exists somewhere succeeds, and writes under the type and,
      for a named attribute, the origin of a retained topic of the entity. */
  lemma PatchReported(node: Node, store: Store, command: string, link: string,
                      data: seq<(string, Json)>, found: string, nows: seq<string>)
    requires |nows| >= |data|
    requires var parts := Split(command, '/'); |parts| >= 5 && parts[3] == "attr" && Plain(parts[2])
    requires LinkLevel(link) != "#"
    requires PatchProbe(store, command, link, found)
    ensures var r := Patch(node, store, command, link, data, found, nows);
            var parts := Split(command, '/');
            r.Ok? <==> Matching(store, TopicOf(["+", EntitiesLevel, LinkLevel(link), "+", "+", parts[2], "#"])) != {}
    ensures var r := Patch(node, store, command, link, data, found, nows);
            var parts := Split(command, '/');
            var l := LevelsOf(found);
            r.Ok? ==>
              && found in store && |l| >= 6 && l[5] == parts[2]
              && (|l| == 7 && parts[4] != "" ==>
                    r.value == PatchMessages(node.area, LinkLevel(link), l[3], l[4], parts[2], data, nows))
              && (|l| == 7 && parts[4] == "" ==>
                    r.value == PatchMessages(node.area, LinkLevel(link), l[3], LocalOrigin, parts[2], Attributes(data), nows))
  {
    var parts := Split(command, '/');
    var ct := TopicOf(["+", EntitiesLevel, LinkLevel(link), "+", "+", parts[2], "#"]);
    if Matching(store, ct) != {} {
      assert parts[2] != "+" && parts[2] != "#" by { assert '+' in "+" && '#' in "#"; }
      EntityTopicLevels("+", LinkLevel(link), parts[2], found);
    }
  }

  /** Topics of distinct patch messages differ. */
  lemma PatchTopicsDiffer(area: string, contextLevel: string, etype: string, origin: string, eid: string,
                          a: string, b: string, off: nat, same: bool)
    requires off < 2
    requires same <==> a == b
    requires same ==> off != 0
    requires !EndsWith(b, ModifiedAtSuffix)
    requires '/' !in area && '/' !in contextLevel && '/' !in etype && '/' !in origin && '/' !in eid
    requires '/' !in a && '/' !in b
    ensures (if off == 0 then TopicOf([area, EntitiesLevel, contextLevel, etype, origin, eid, a])
             else TopicOf([area, EntitiesLevel, contextLevel, etype, LocalOrigin, eid, a + ModifiedAtSuffix]))
         != TopicOf([area, EntitiesLevel, contextLevel, etype, origin, eid, b])
  {
    assert '/' !in ModifiedAtSuffix;
    var la := if off == 0 then a else a + ModifiedAtSuffix;
    assert '/' !in la;
    var o := if off == 0 then origin else LocalOrigin;
    LevelsOfTopic([area, EntitiesLevel, contextLevel, etype, o, eid, la]);
    LevelsOfTopic([area, EntitiesLevel, contextLevel, etype, origin, eid, b]);
    assert (a + ModifiedAtSuffix)[|a|..] == ModifiedAtSuffix;
  }

  /** The `j`-th message of a patch: the value or the modification time of
      attribute `j / 2`. */
  lemma PatchMessageAt(area: string, contextLevel: string, etype: string, origin: string, eid: string,
                       attrs: seq<(string, Json)>, nows: seq<string>, j: nat)
    requires |nows| >= |attrs|
    requires j < 2 * |attrs|
    ensures var m := PatchMessages(area, contextLevel, etype, origin, eid, attrs, nows)[j];
            var a := attrs[j / 2].0;
            m.topic == if j % 2 == 0 then TopicOf([area, EntitiesLevel, contextLevel, etype, origin, eid, a])
                       else TopicOf([area, EntitiesLevel, contextLevel, etype, LocalOrigin, eid, a + ModifiedAtSuffix])
  {
    var ms := PatchMessages(area, contextLevel, etype, origin, eid, attrs, nows);
    var a := j / 2;
    assert j == 2 * a + j % 2;
    assert ms[j] == ms[2 * a..2 * a + 2][j % 2];
  }

  /** After a patch, each patched attribute holds `str()` of its new value,
      and its creation lineage is untouched. */
  lemma PatchStores(area: string, contextLevel: string, etype: string, origin: string, eid: string,
                    attrs: seq<(string, Json)>, nows: seq<string>, store: Store, i: nat)
    requires |nows| >= |attrs|
    requires i < |attrs|
    requires UniqueKeys(attrs)
    requires forall j :: 0 <= j < |attrs| ==> '/' !in attrs[j].0 && !EndsWith(attrs[j].0, ModifiedAtSuffix)
    requires '/' !in area && '/' !in contextLevel && '/' !in etype && '/' !in origin && '/' !in eid
    requires PyStr(attrs[i].1) != ""
    ensures var after := ApplyAll(store, PatchMessages(area, contextLevel, etype, origin, eid, attrs, nows));
            var t := TopicOf([area, EntitiesLevel, contextLevel, etype, origin, eid, attrs[i].0]);
            t in after && after[t] == PyStr(attrs[i].1)
  {
    var ms := PatchMessages(area, contextLevel, etype, origin, eid, attrs, nows);
    var k := 2 * i;
    assert ms[k] == ms[2 * i..2 * i + 2][0];
    var t := TopicOf([area, EntitiesLevel, contextLevel, etype, origin, eid, attrs[i].0]);
    forall j | k < j < |ms|
      ensures !(ms[j].retain && ms[j].topic == t)
    {
      PatchMessageAt(area, contextLevel, etype, origin, eid, attrs, nows, j);
      var a := j / 2;
      PatchTopicsDiffer(area, contextLevel, etype, origin, eid, attrs[a].0, attrs[i].0, j % 2, a == i);
    }
    ApplyAllLastWins(store, ms, k);
  }

  /** A patch never writes a creation lineage topic. */
  lemma PatchKeepsCreation(area: string, contextLevel: string, etype: string, origin: string, eid: string,
                           attrs: seq<(string, Json)>, nows: seq<string>, store: Store, name: string)
    requires |nows| >= |attrs|
    requires '/' !in area && '/' !in contextLevel && '/' !in etype && '/' !in origin && '/' !in eid
    requires '/' !in name && forall j :: 0 <= j < |attrs| ==> '/' !in attrs[j].0
    requires forall j :: 0 <= j < |attrs| ==> !EndsWith(attrs[j].0, CreatedAtSuffix)
    ensures var after := ApplyAll(store, PatchMessages(area, contextLevel, etype, origin, eid, attrs, nows));
            var t := TopicOf([area, EntitiesLevel, contextLevel, etype, LocalOrigin, eid, name + CreatedAtSuffix]);
            (t in after <==> t in store) && (t in store ==> after[t] == store[t])
  {
    var ms := PatchMessages(area, contextLevel, etype, origin, eid, attrs, nows);
    var n := name + CreatedAtSuffix;
    assert '/' !in CreatedAtSuffix && '/' !in ModifiedAtSuffix;
    assert '/' !in n;
    var t := TopicOf([area, EntitiesLevel, contextLevel, etype, LocalOrigin, eid, n]);
    LevelsOfTopic([area, EntitiesLevel, contextLevel, etype, LocalOrigin, eid, n]);
    assert EndsWith(n, CreatedAtSuffix) by {
      assert n[|n| - |CreatedAtSuffix|..] == CreatedAtSuffix;
    }
    forall j | 0 <= j < |ms|
      ensures !(ms[j].retain && ms[j].topic == t)
    {
      var a := j / 2;
      var off := j % 2;
      assert j == 2 * a + off;
      assert ms[j] == ms[2 * a..2 * a + 2][off];
      var x := attrs[a].0;
      if off == 0 {
        LevelsOfTopic([area, EntitiesLevel, contextLevel, etype, origin, eid, x]);
      } else {
        var m := x + ModifiedAtSuffix;
        assert '/' !in m;
        LevelsOfTopic([area, EntitiesLevel, contextLevel, etype, LocalOrigin, eid, m]);
        assert m[|m| - |ModifiedAtSuffix|..] == ModifiedAtSuffix;
        assert ModifiedAtSuffix[|ModifiedAtSuffix| - 9] == 'o' && CreatedAtSuffix[|CreatedAtSuffix| - 9] == 'C';
        assert m[|m| - 9] == 'o';
        assert n[|n| - 9] == 'C';
      }
    }
    ApplyAllUntouched(store, ms, t);
  }

  /** A patch that names an attribute writes every key of the file,
      `type`, `id` and `@context` included, and the name plays no part. */
  lemma PatchNameIgnored(node: Node, store: Store, eid: string, name1: string, name2: string, link: string,
                         data: seq<(string, Json)>, found: string, nows: seq<string>)
    requires Plain(eid) && Plain(name1) && Plain(name2) && name1 != "" && name2 != ""
    requires |nows| >= |data|
    requires PatchProbe(store, TopicOf(["PATCH", "entities", eid, "attr", name1]), link, found)
    requires PatchProbe(store, TopicOf(["PATCH", "entities", eid, "attr", name2]), link, found)
    ensures var c1 := TopicOf(["PATCH", "entities", eid, "attr", name1]);
            var c2 := TopicOf(["PATCH", "entities", eid, "attr", name2]);
            var r := Patch(node, store, c1, link, data, found, nows);
            && r == Patch(node, store, c2, link, data, found, nows)
            && (r.Ok? ==> |r.value| == 2 * |data|)
  {
    LevelsOfTopic(["PATCH", "entities", eid, "attr", name1]);
    LevelsOfTopic(["PATCH", "entities", eid, "attr", name2]);
  }

  // ---------------------------------------------------------------------
  // Batch operations

  /** The batch-delete step for one id. The advertisement filter of the
      coarse mode ends in an extra `/+` level. */
  function BatchDeleteOne(node: Node, store: Store, h: string, eid: string, found: string): (r: Result<Store>)
    requires Reported(store, EntityFilter(node.area, h, eid), found)
    ensures r.Ok? ==> r.value.Keys <= store.Keys
  {
    var top := EntityFilter(node.area, h, eid);
    if Matching(store, top) == {} then Ok(store)
    else
      var cleared := ClearFilter(store, top);
      var tp :- TypeOfFound(found);
      if node.singleIdAdvertisement then Ok(ClearFilter(cleared, AdvertisementTopic(node, h, tp, eid)))
      else Ok(ClearFilter(cleared, AdvertisementTopic(node, h, tp, eid) + "/+"))
  }

  /** `entityOperations/delete`: each listed id in turn; `probe(s, eid)` is
      the topic the probe for that id reports against the store `s` left by
      the ids before it. */
  function BatchDelete(node: Node, store: Store, link: string, eids: seq<string>,
                       probe: (Store, string) -> string): (r: Result<Store>)
    requires forall s, e :: Reported(s, EntityFilter(node.area, LinkLevel(link), e), probe(s, e))
    ensures r.Ok? ==> r.value.Keys <= store.Keys
    decreases |eids|
  {
    if |eids| == 0 then Ok(store)
    else
      var s :- BatchDeleteOne(node, store, LinkLevel(link), eids[0], probe(store, eids[0]));
      BatchDelete(node, s, link, eids[1..], probe)
  }

  /** With no wildcard in the area, context and id levels, a batch step
      never raises: an id the probe finds has a type level to read. */
  lemma BatchDeleteOneSucceeds(node: Node, store: Store, h: string, eid: string, found: string)
    requires '/' !in node.area && node.area != "#" && '/' !in h && h != "#" && '/' !in eid && eid != "#"
    requires Reported(store, EntityFilter(node.area, h, eid), found)
    ensures BatchDeleteOne(node, store, h, eid, found).Ok?
  {
    if Matching(store, EntityFilter(node.area, h, eid)) != {} {
      EntityTopicLevels(node.area, h, eid, found);
    }
  }

  /** With no wildcard in the area, context and id levels, the batch delete
      goes through the whole list without raising. */
  lemma {:induction false} BatchDeleteSucceeds(node: Node, store: Store, link: string, eids: seq<string>,
                                               probe: (Store, string) -> string)
    requires '/' !in node.area && node.area != "#" && LinkLevel(link) != "#"
    requires forall i :: 0 <= i < |eids| ==> '/' !in eids[i] && eids[i] != "#"
    requires forall s, e :: Reported(s, EntityFilter(node.area, LinkLevel(link), e), probe(s, e))
    ensures BatchDelete(node, store, link, eids, probe).Ok?
    decreases |eids|
  {
    if |eids| > 0 {
      var h := LinkLevel(link);
      BatchDeleteOneSucceeds(node, store, h, eids[0], probe(store, eids[0]));
      var s := BatchDeleteOne(node, store, h, eids[0], probe(store, eids[0])).value;
      assert forall i :: 0 <= i < |eids[1..]| ==> eids[1..][i] == eids[i + 1];
      BatchDeleteSucceeds(node, s, link, eids[1..], probe);
    }
  }

  /** The corrected step: the advertisement is retracted as the single
      delete retracts it, the coarse one only once no entity of the type
      is left (the test the unused `tc` was evidently meant for). */
  function BatchDeleteOneFixed(node: Node, store: Store, h: string, eid: string, found: string): (r: Result<Store>)
    requires Reported(store, EntityFilter(node.area, h, eid), found)
    ensures r.Ok? ==> r.value.Keys <= store.Keys
  {
    var top := EntityFilter(node.area, h, eid);
    if Matching(store, top) == {} then Ok(store)
    else
      var cleared := ClearFilter(store, top);
      var tp :- TypeOfFound(found);
      Ok(RetractAdvertisement(node, cleared, h, tp, eid))
  }

  /** Under coarse advertisement the batch step never retracts the
      advertisement: its filter has seven levels, the advertisement six. */
  lemma BatchDeleteKeepsAdvertisement(node: Node, store: Store, h: string, eid: string, found: string)
    requires !node.singleIdAdvertisement
    requires Plain(node.area) && Plain(node.broker) && Plain(h) && Plain(eid) && node.area != "provider"
    requires Reported(store, EntityFilter(node.area, h, eid), found)
    requires |LevelsOf(found)| >= 4 && Plain(TypeOfFound(found).value)
    ensures var adv := AdvertisementTopic(node, h, TypeOfFound(found).value, eid);
            var s := BatchDeleteOne(node, store, h, eid, found).value;
            adv in store ==> adv in s && s[adv] == store[adv]
  {
    var tp := TypeOfFound(found).value;
    var adv := AdvertisementTopic(node, h, tp, eid);
    var levels := ["provider", node.broker, IntToString(node.port), node.area, h, tp];
    assert adv == TopicOf(levels);
    AdvertisementApart(node, h, tp, eid);
    PortPlain(node.port);
    var f := levels + ["+"];
    assert adv + "/+" == TopicOf(f) by {
      JoinLast(f, '/');
      assert f[..6] == levels;
    }
    assert '+' in "+" && '#' in "#" && "+" != "#";
    assert forall i :: 0 <= i < |levels| ==> '/' !in levels[i];
    LevelsOfTopic(levels);
    LevelsOfTopic(f);
    if Delivers(adv + "/+", adv) {
      assert forall i :: 0 <= i < |f| ==> f[i] != "#";
      MatchSameDepth(f, levels);
    }
  }

  /** The corrected step retracts the advertisement of a deleted entity
      exactly when the node advertises single ids or no entity of the type
      is left in the area; the type is read from a retained topic of the
      entity, the probe's report. */
  lemma BatchDeleteFixedRetractsAdvertisement(node: Node, store: Store, h: string, eid: string, found: string)
    requires Plain(node.area) && Plain(node.broker) && Plain(h) && Plain(eid) && node.area != "provider"
    requires Reported(store, EntityFilter(node.area, h, eid), found)
    requires BatchDeleteOneFixed(node, store, h, eid, found).Ok?
    requires Matching(store, EntityFilter(node.area, h, eid)) != {}
    requires Plain(TypeOfFound(found).value)
    ensures var tp := TypeOfFound(found).value;
            var adv := AdvertisementTopic(node, h, tp, eid);
            var cleared := ClearFilter(store, EntityFilter(node.area, h, eid));
            adv in store ==>
              (adv !in BatchDeleteOneFixed(node, store, h, eid, found).value <==>
                 node.singleIdAdvertisement || Matching(cleared, TypeEntities(node.area, h, tp)) == {})
  {
    AdvertisementApart(node, h, TypeOfFound(found).value, eid);
  }

  /** For an entity that exists, the corrected batch step is the single
      `DELETE/entities/<id>`. */
  lemma BatchDeleteFixedIsDelete(node: Node, store: Store, command: string, link: string, found: string)
    requires var parts := Split(command, '/'); 3 <= |parts| < 5
    requires Matching(store, EntityFilter(node.area, LinkLevel(link), Split(command, '/')[2])) != {}
    requires DeleteProbe(node, store, command, link, found)
    ensures Delete(node, store, command, link, found) ==
            BatchDeleteOneFixed(node, store, LinkLevel(link), Split(command, '/')[2], found)
  {
  }

  /** `post_entity` over a list, the broker's store carried from one call to
      the next; the first exception ends the loop. `post` is the call on one
      entity. */
  function BatchPost(post: (Store, seq<(string, Json)>) -> Post, store: Store,
                     entities: seq<seq<(string, Json)>>): (r: (Result<seq<PostStatus>>, seq<Message>))
    ensures r.0.Ok? ==> |r.0.value| == |entities|
    decreases |entities|
  {
    if |entities| == 0 then (Ok([]), [])
    else
      var p := post(store, entities[0]);
      match p.status
      case Raise(e) => (Raise(e), p.sent)
      case Ok(st) =>
        var rest := BatchPost(post, ApplyAll(store, p.sent), entities[1..]);
        (if rest.0.Ok? then Ok([st] + rest.0.value) else rest.0, p.sent + rest.1)
  }

  /** `entityOperations/create`: the bypass expression is 0 on both
      branches, so every entity is probed first. */
  function BatchCreate(node: Node, store: Store, entities: seq<seq<(string, Json)>>, now: string)
    : (r: (Result<seq<PostStatus>>, seq<Message>))
  {
    BatchPost((s, d) => PostEntity(node, s, d, now, false), store, entities)
  }

  /** A call that never reports an existing entity makes a batch that
      reports creation for every entity. */
  lemma {:induction false} NoProbeAllCreated(post: (Store, seq<(string, Json)>) -> Post, store: Store,
                                             entities: seq<seq<(string, Json)>>)
    requires forall s, d :: post(s, d).status != Ok(AlreadyExists)
    ensures var r := BatchPost(post, store, entities);
            r.0.Ok? ==> forall i :: 0 <= i < |r.0.value| ==> r.0.value[i] == Created
    decreases |entities|
  {
    if |entities| > 0 {
      var p := post(store, entities[0]);
      if p.status.Ok? {
        var rest := BatchPost(post, ApplyAll(store, p.sent), entities[1..]);
        NoProbeAllCreated(post, ApplyAll(store, p.sent), entities[1..]);
        assert p.status.value == Created;
        var r := BatchPost(post, store, entities);
        assert r.0 == (if rest.0.Ok? then Ok([Created] + rest.0.value) else rest.0);
        if rest.0.Ok? {
          assert forall i :: 1 <= i < |r.0.value| ==> r.0.value[i] == rest.0.value[i - 1];
        }
      }
    }
  }

  /** `entityOperations/update`: every entity is written without probing. */
  function BatchUpdate(node: Node, store: Store, entities: seq<seq<(string, Json)>>, now: string)
    : (r: (Result<seq<PostStatus>>, seq<Message>))
    ensures r.0.Ok? ==> forall i :: 0 <= i < |r.0.value| ==> r.0.value[i] == Created
  {
    var post := (s, d) => PostEntity(node, s, d, now, true);
    NoProbeAllCreated(post, store, entities);
    BatchPost(post, store, entities)
  }

  /** `entityOperations/upsert` as written: reading the file evaluates
      `json.lo + ad(jf)`, and the module `json` has no attribute `lo`. */
  function BatchUpsert(node: Node, store: Store, entities: seq<seq<(string, Json)>>, now: string)
    : (r: (Result<seq<PostStatus>>, seq<Message>))
  {
    (Raise(AttributeError), [])
  }

  /** Whatever the list, the upsert publishes nothing and fails. */
  lemma UpsertNeverWrites(node: Node, store: Store, entities: seq<seq<(string, Json)>>, now: string)
    ensures BatchUpsert(node, store, entities, now).1 == []
    ensures BatchUpsert(node, store, entities, now).0 == Raise(AttributeError)
  {
  }

  /** The upsert with the file read by `json.load`: it behaves as the update. */
  function BatchUpsertFixed(node: Node, store: Store, entities: seq<seq<(string, Json)>>, now: string)
    : (r: (Result<seq<PostStatus>>, seq<Message>))
    ensures r == BatchUpdate(node, store, entities, now)
    ensures r.0.Ok? ==> forall i :: 0 <= i < |r.0.value| ==> r.0.value[i] == Created
  {
    BatchUpdate(node, store, entities, now)
  }

  /** Two entities whose calls both return: the batch reports both
      outcomes and publishes what the two calls publish. */
  lemma BatchOfTwo(post: (Store, seq<(string, Json)>) -> Post, store: Store,
                   a: seq<(string, Json)>, b: seq<(string, Json)>)
    requires post(store, a).status.Ok?
    requires post(ApplyAll(store, post(store, a).sent), b).status.Ok?
    ensures var s1 := ApplyAll(store, post(store, a).sent);
            (BatchPost(post, store, [a, b])
             == (Ok([post(store, a).status.value, post(s1, b).status.value]), post(store, a).sent + post(s1, b).sent))
  {
    var s1 := ApplyAll(store, post(store, a).sent);
    var s2 := ApplyAll(s1, post(s1, b).sent);
    assert [a, b][1..] == [b] && [b][1..] == [];
    var none: seq<seq<(string, Json)>> := [];
    assert [b][1..] == none;
    assert BatchPost(post, s2, none) == (Ok([]), []);
    assert post(s1, b).sent + [] == post(s1, b).sent;
    assert [post(s1, b).status.value] + [] == [post(s1, b).status.value];
    assert BatchPost(post, s1, [b]) == (Ok([post(s1, b).status.value]), post(s1, b).sent);
    assert [post(store, a).status.value] + [post(s1, b).status.value]
        == [post(store, a).status.value, post(s1, b).status.value];
  }

  /** A batch create that lists a well-formed entity twice creates it once:
      the second call finds it and publishes nothing. */
  lemma BatchCreateSkipsRepeat(node: Node, store: Store, data: seq<(string, Json)>, now: string)
    requires WellFormedEntity(node, data)
    requires PostEntity(node, store, data, now, false).status == Ok(Created)
    requires |Attributes(data)| > 0
    ensures var r := BatchCreate(node, store, [data, data], now);
            r.0 == Ok([Created, AlreadyExists]) && r.1 == PostEntity(node, store, data, now, false).sent
  {
    var post := (s, d) => PostEntity(node, s, d, now, false);
    PostThenExists(node, store, data, now, now, false);
    BatchOfTwo(post, store, data, data);
  }
}
