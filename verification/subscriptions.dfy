/** Subscriptions (`multiple_subscriptions`) and provider discovery
    (`subscribe_for_advertisement_notification`).

    A subscription names an entity type, an entity id, a list of watched
    attributes, or any combination of them. For every provider that
    advertises a matching context and type, the subscriber listens on the
    provider's broker with filters built from the parts it named; the parts
    it left open become `+` levels.

    Discovery listens for advertisements and keys them by their first six
    levels `provider/<broker>/<port>/<area>/<context>/<type>`. The first
    advertisement of a key starts one listener for it; an empty (cleared)
    advertisement forgets the key and stops that key's listeners.
 */
module Subscriptions {
  import opened Basics
  import opened Text
  import opened Topics
  import opened Broker

  /** `<area>/entities/<context>/<type>/+/<id>/<last>`. */
  function AttributeFilter(area: string, contextLevel: string, etype: string, id: string, last: string): string
  {
    TopicOf([area, EntitiesLevel, contextLevel, etype, "+", id, last])
  }

  /** One attribute filter per watched attribute, in order. */
  function WatchedFilters(area: string, contextLevel: string, etype: string, id: string,
                          watched: seq<string>): (r: seq<string>)
    ensures |r| == |watched|
    ensures forall k :: 0 <= k < |r| ==> r[k] == AttributeFilter(area, contextLevel, etype, id, watched[k])
  {
    seq(|watched|, k requires 0 <= k < |watched| => AttributeFilter(area, contextLevel, etype, id, watched[k]))
  }

  /** The filters of `multiple_subscriptions`; with no part named the
      program exits with status 2. */
  function SubscriptionFilters(typeFlag: bool, watchedFlag: bool, idFlag: bool, area: string,
                               contextLevel: string, etype: string, id: string,
                               watched: seq<string>): (r: Result<seq<string>>)
    ensures r.Raise? <==> !typeFlag && !watchedFlag && !idFlag
    ensures r.Raise? ==> r.error == Exit(2)
    ensures r.Ok? && watchedFlag ==> |r.value| == |watched|
    ensures r.Ok? && !watchedFlag ==> |r.value| == 1
  {
    if typeFlag && watchedFlag && idFlag then
      Ok(WatchedFilters(area, contextLevel, etype, id, watched))
    else if typeFlag && idFlag then
      Ok([AttributeFilter(area, contextLevel, etype, id, "#")])
    else if watchedFlag && idFlag then
      Ok(WatchedFilters(area, contextLevel, "+", id, watched))
    else if typeFlag && watchedFlag then
      Ok(WatchedFilters(area, contextLevel, etype, "+", watched))
    else if typeFlag then
      Ok([TopicOf([area, EntitiesLevel, contextLevel, etype, "#"])])
    else if idFlag then
      Ok([AttributeFilter(area, contextLevel, "+", id, "#")])
    else if watchedFlag then
      Ok(WatchedFilters(area, contextLevel, "+", "+", watched))
    else
      Raise(Exit(2))
  }

  /** A filter level either names a level or is the single-level wildcard. */
  predicate FilterLevel(x: string)
  {
    x == "+" || Plain(x)
  }

  /** A filter level accepts a topic level. */
  predicate LevelOk(f: string, t: string)
  {
    f == "+" || f == t
  }

  /** A topic built from plain levels whose first level does not start with
      `$` is delivered on a filter exactly when the levels match. */
  lemma DeliversLevels(f: seq<string>, t: seq<string>)
    requires |f| >= 1 && |t| >= 1
    requires forall i :: 0 <= i < |f| ==> '/' !in f[i]
    requires forall i :: 0 <= i < |t| ==> '/' !in t[i]
    requires !StartsWith(t[0], "$")
    ensures Delivers(TopicOf(f), TopicOf(t)) <==> MatchLevels(f, t)
  {
    LevelsOfTopic(f);
    LevelsOfTopic(t);
    var topic := TopicOf(t);
    if |t| > 1 {
      assert topic == t[0] + ['/'] + TopicOf(t[1..]);
      if |t[0]| > 0 {
        assert topic[0] == t[0][0];
        assert t[0][..1] == [t[0][0]];
      } else {
        assert topic[0] == '/';
      }
    } else {
      assert topic == t[0];
    }
    assert !StartsWith(topic, "$");
  }

  /** Filter levels without `#`, followed by `#`, match a topic with at least
      as many levels exactly when they match its first levels one by one. */
  lemma HashFilterMatch(p: seq<string>, t: seq<string>)
    requires forall i :: 0 <= i < |p| ==> p[i] != "#"
    requires |t| >= |p|
    ensures MatchLevels(p + ["#"], t) <==> forall i :: 0 <= i < |p| ==> LevelOk(p[i], t[i])
  {
    MatchHashTail(p, t);
    MatchPointwise(p, t[..|p|]);
  }

  /** The attribute filter of one subscription against the topic of one
      attribute: every level must agree, and a final `#` takes any attribute. */
  lemma AttributeFilterMatch(area: string, contextLevel: string, etype: string, id: string, last: string,
                             area': string, contextLevel': string, etype': string, id': string, attr: string)
    requires FilterLevel(area) && FilterLevel(contextLevel) && FilterLevel(etype) && FilterLevel(id)
    requires last == "#" || Plain(last)
    requires Plain(area') && !StartsWith(area', "$")
    requires Plain(contextLevel') && Plain(etype') && Plain(id') && Plain(attr)
    ensures Delivers(AttributeFilter(area, contextLevel, etype, id, last),
                     AttributeTopic(area', contextLevel', etype', id', attr))
        <==> LevelOk(area, area') && LevelOk(contextLevel, contextLevel') && LevelOk(etype, etype')
             && LevelOk(id, id') && (last == "#" || last == attr)
  {
    var p := [area, EntitiesLevel, contextLevel, etype, "+", id];
    var t := [area', EntitiesLevel, contextLevel', etype', LocalOrigin, id', attr];
    AttributeLevels(area, contextLevel, etype, id, last, area', contextLevel', etype', id', attr);
    assert MatchLevels(p + [last], t) <==> (forall i :: 0 <= i < 6 ==> LevelOk(p[i], t[i])) && (last == "#" || last == attr) by {
      assert '#' in "#" && '+' in "+";
      assert forall i :: 0 <= i < 6 ==> p[i] != "#";
      if last == "#" {
        HashFilterMatch(p, t);
      } else {
        ExactLastMatch(p, t, last);
      }
    }
    SixLevels(p, t);
  }

  /** The attribute filter delivers an attribute topic exactly when their
      levels match. */
  lemma AttributeLevels(area: string, contextLevel: string, etype: string, id: string, last: string,
                        area': string, contextLevel': string, etype': string, id': string, attr: string)
    requires FilterLevel(area) && FilterLevel(contextLevel) && FilterLevel(etype) && FilterLevel(id)
    requires last == "#" || Plain(last)
    requires Plain(area') && !StartsWith(area', "$")
    requires Plain(contextLevel') && Plain(etype') && Plain(id') && Plain(attr)
    ensures Delivers(AttributeFilter(area, contextLevel, etype, id, last), AttributeTopic(area', contextLevel', etype', id', attr))
        <==> MatchLevels([area, EntitiesLevel, contextLevel, etype, "+", id] + [last],
                         [area', EntitiesLevel, contextLevel', etype', LocalOrigin, id', attr])
  {
    var f := [area, EntitiesLevel, contextLevel, etype, "+", id, last];
    var t := [area', EntitiesLevel, contextLevel', etype', LocalOrigin, id', attr];
    assert f == [area, EntitiesLevel, contextLevel, etype, "+", id] + [last];
    assert '#' in "#" && '+' in "+";
    DeliversLevels(f, t);
  }

  /** Six levels without `#` and a named last level match a seven-level
      topic exactly when the six match one by one and the last is equal. */
  lemma ExactLastMatch(p: seq<string>, t: seq<string>, last: string)
    requires |p| == 6 && |t| == 7
    requires forall i :: 0 <= i < 6 ==> p[i] != "#"
    requires last != "#" && last != "+"
    ensures MatchLevels(p + [last], t) <==> (forall i :: 0 <= i < 6 ==> LevelOk(p[i], t[i])) && last == t[6]
  {
    var f := p + [last];
    assert forall i :: 0 <= i < 6 ==> f[i] == p[i];
    assert f[6] == last;
    MatchPointwise(f, t);
    if forall i :: 0 <= i < 7 ==> f[i] == "+" || f[i] == t[i] {
      assert f[6] == "+" || f[6] == t[6];
    }
  }

  /** Six filter levels against a topic's first six, level by level. */
  lemma SixLevels(p: seq<string>, t: seq<string>)
    requires |p| == 6 && |t| >= 6
    ensures (forall i :: 0 <= i < 6 ==> LevelOk(p[i], t[i]))
        <==> LevelOk(p[0], t[0]) && LevelOk(p[1], t[1]) && LevelOk(p[2], t[2])
             && LevelOk(p[3], t[3]) && LevelOk(p[4], t[4]) && LevelOk(p[5], t[5])
  {
    if LevelOk(p[0], t[0]) && LevelOk(p[1], t[1]) && LevelOk(p[2], t[2])
       && LevelOk(p[3], t[3]) && LevelOk(p[4], t[4]) && LevelOk(p[5], t[5]) {
      forall i | 0 <= i < 6
        ensures LevelOk(p[i], t[i])
      {
        assert i == 0 || i == 1 || i == 2 || i == 3 || i == 4 || i == 5;
      }
    }
  }

  /** The type-only filter `<area>/entities/<context>/<type>/#` against the
      topic of one attribute. */
  lemma TypeFilterMatch(area: string, contextLevel: string, etype: string,
                        area': string, contextLevel': string, etype': string, id': string, attr: string)
    requires FilterLevel(area) && FilterLevel(contextLevel) && FilterLevel(etype)
    requires Plain(area') && !StartsWith(area', "$")
    requires Plain(contextLevel') && Plain(etype') && Plain(id') && Plain(attr)
    ensures Delivers(TopicOf([area, EntitiesLevel, contextLevel, etype, "#"]),
                     AttributeTopic(area', contextLevel', etype', id', attr))
        <==> LevelOk(area, area') && LevelOk(contextLevel, contextLevel') && LevelOk(etype, etype')
  {
    var p := [area, EntitiesLevel, contextLevel, etype];
    var t := [area', EntitiesLevel, contextLevel', etype', LocalOrigin, id', attr];
    assert '#' in "#" && '+' in "+";
    assert p + ["#"] == [area, EntitiesLevel, contextLevel, etype, "#"];
    DeliversLevels(p + ["#"], t);
    HashFilterMatch(p, t);
    var levels := LevelOk(area, area') && LevelOk(contextLevel, contextLevel') && LevelOk(etype, etype');
    assert LevelOk(p[1], t[1]);
    assert (forall i :: 0 <= i < 4 ==> LevelOk(p[i], t[i])) <==> levels by {
      if forall i :: 0 <= i < 4 ==> LevelOk(p[i], t[i]) {
        assert LevelOk(p[0], t[0]) && LevelOk(p[2], t[2]) && LevelOk(p[3], t[3]);
      }
      if levels {
        forall i | 0 <= i < 4
          ensures LevelOk(p[i], t[i])
        {
          assert i == 0 || i == 1 || i == 2 || i == 3;
        }
      }
    }
  }

  /** What a subscription asks for, stated directly: every named part must
      agree with the attribute's topic. */
  predicate Wanted(typeFlag: bool, watchedFlag: bool, idFlag: bool, etype: string, id: string,
                   watched: seq<string>, etype': string, id': string, attr: string)
  {
    (typeFlag ==> etype' == etype) && (idFlag ==> id' == id) && (watchedFlag ==> attr in watched)
  }

  /** The subscription's filters receive the topic of an attribute exactly
      when the attribute lies in the provider's area and context and has
      every named type, id and watched attribute. */
  lemma SubscriptionReceives(typeFlag: bool, watchedFlag: bool, idFlag: bool, area: string,
                             contextLevel: string, etype: string, id: string, watched: seq<string>,
                             area': string, contextLevel': string, etype': string, id': string, attr: string)
    requires typeFlag || watchedFlag || idFlag
    requires FilterLevel(area) && FilterLevel(contextLevel) && Plain(etype) && Plain(id)
    requires forall k :: 0 <= k < |watched| ==> Plain(watched[k])
    requires Plain(area') && !StartsWith(area', "$")
    requires Plain(contextLevel') && Plain(etype') && Plain(id') && Plain(attr)
    ensures var fs := SubscriptionFilters(typeFlag, watchedFlag, idFlag, area, contextLevel, etype, id, watched).value;
            ((exists k :: 0 <= k < |fs| && Delivers(fs[k], AttributeTopic(area', contextLevel', etype', id', attr)))
             <==> (LevelOk(area, area') && LevelOk(contextLevel, contextLevel')
                   && Wanted(typeFlag, watchedFlag, idFlag, etype, id, watched, etype', id', attr)))
  {
    var fs := SubscriptionFilters(typeFlag, watchedFlag, idFlag, area, contextLevel, etype, id, watched).value;
    var topic := AttributeTopic(area', contextLevel', etype', id', attr);
    var et := if typeFlag then etype else "+";
    var i := if idFlag then id else "+";
    assert Plain("+") == false by { assert '+' in "+"; }
    if watchedFlag {
      assert fs == WatchedFilters(area, contextLevel, et, i, watched);
      forall k | 0 <= k < |fs|
        ensures Delivers(fs[k], topic)
                <==> (LevelOk(area, area') && LevelOk(contextLevel, contextLevel')
                      && LevelOk(et, etype') && LevelOk(i, id') && watched[k] == attr)
      {
        AttributeFilterMatch(area, contextLevel, et, i, watched[k], area', contextLevel', etype', id', attr);
      }
      if attr in watched {
        var k :| 0 <= k < |watched| && watched[k] == attr;
        assert fs[k] == fs[k];
      }
    } else if typeFlag && !idFlag {
      assert fs == [TopicOf([area, EntitiesLevel, contextLevel, etype, "#"])];
      TypeFilterMatch(area, contextLevel, etype, area', contextLevel', etype', id', attr);
      assert (exists k :: 0 <= k < |fs| && Delivers(fs[k], topic)) <==> Delivers(fs[0], topic);
      assert etype != "+";
    } else {
      assert fs == [AttributeFilter(area, contextLevel, et, i, "#")];
      AttributeFilterMatch(area, contextLevel, et, i, "#", area', contextLevel', etype', id', attr);
      assert (exists k :: 0 <= k < |fs| && Delivers(fs[k], topic)) <==> Delivers(fs[0], topic);
    }
  }

  // ---------------------------------------------------------------------
  // Discovery

  /** The arguments a started listener passes to `multiple_subscriptions`
      besides the subscription's own: the provider's broker, port and area,
      and the advertised context level and type. */
  datatype Listener = Listener(broker: string, port: int, area: string, contextLevel: string, etype: string)

  datatype Effect = Start(listener: Listener) | Kill(listener: Listener)

  /** `advertisement_exists` (as a set of keys) and `jobs_to_terminate`. */
  datatype Discovery = Discovery(known: set<string>, jobs: map<string, seq<Listener>>)

  /** The state after a delivery, the listeners started or killed, in order,
      and the exception that ended the callback, if any. */
  datatype Reaction = Reaction(next: Discovery, effects: seq<Effect>, error: Option<PyError>)

  const Idle := Discovery({}, map[])

  /** The advertisement key and the listener it would start: levels 1 to 5 of
      the topic, with the port read as an integer and written back. */
  function AdvertisementKey(topic: string): (r: Result<(string, Listener)>)
    ensures r.Raise? ==> r.error == IndexError || r.error == ValueError
    ensures r.Ok? ==> |LevelsOf(topic)| >= 6 && ParseInt(LevelsOf(topic)[2]).Ok?
  {
    var l := LevelsOf(topic);
    if |l| < 6 then Raise(IndexError)
    else
      var port :- ParseInt(l[2]);
      Ok((TopicOf(["provider", l[1], IntToString(port), l[3], l[4], l[5]]),
          Listener(l[1], port, l[3], l[4], l[5])))
  }

  /** `on_message` of `subscribe_for_advertisement_notification`. */
  function OnAdvertisement(d: Discovery, m: Message): (r: Reaction)
    ensures AdvertisementKey(m.topic).Ok? && m.payload != "" ==>
              r.error.None? && r.next.known == d.known + {AdvertisementKey(m.topic).value.0}
    ensures AdvertisementKey(m.topic).Ok? && m.payload == "" ==>
              r.next.known == d.known - {AdvertisementKey(m.topic).value.0}
    ensures r.next.jobs.Keys >= d.jobs.Keys
    ensures r.error.Some? && r.error.value != KeyError ==> r == Reaction(d, [], r.error)
  {
    match AdvertisementKey(m.topic)
    case Raise(e) => Reaction(d, [], Some(e))
    case Ok((key, listener)) =>
      if m.payload != "" then
        if key in d.known then Reaction(d, [], None)
        else Reaction(Discovery(d.known + {key}, d.jobs[key := [listener]]), [Start(listener)], None)
      else
        var next := Discovery(d.known - {key}, d.jobs);
        if key !in d.jobs then Reaction(next, [], Some(KeyError))
        else Reaction(next, seq(|d.jobs[key]|, k requires 0 <= k < |d.jobs[key]| => Kill(d.jobs[key][k])), None)
  }

  /** Every recorded key has its listeners on file. */
  predicate Consistent(d: Discovery)
  {
    d.known <= d.jobs.Keys
  }

  /** Deliveries keep the state consistent. */
  lemma OnAdvertisementConsistent(d: Discovery, m: Message)
    requires Consistent(d)
    ensures Consistent(OnAdvertisement(d, m).next)
  {
  }

  /** The first advertisement of a key records it and starts exactly one
      listener, for the advertising provider. */
  lemma NewAdvertisementStartsOne(d: Discovery, m: Message)
    requires m.payload != "" && AdvertisementKey(m.topic).Ok?
    requires AdvertisementKey(m.topic).value.0 !in d.known
    ensures var key := AdvertisementKey(m.topic).value.0;
            var l := LevelsOf(m.topic);
            var r := OnAdvertisement(d, m);
            r.error.None? && key in r.next.known
            && r.effects == [Start(Listener(l[1], ParseInt(l[2]).value, l[3], l[4], l[5]))]
            && r.next.jobs[key] == [r.effects[0].listener]
  {
  }

  /** A repeated advertisement of a recorded key changes nothing. */
  lemma RepeatStartsNothing(d: Discovery, m: Message)
    requires m.payload != "" && AdvertisementKey(m.topic).Ok?
    requires AdvertisementKey(m.topic).value.0 in d.known
    ensures OnAdvertisement(d, m) == Reaction(d, [], None)
  {
  }

  /** A cleared advertisement forgets its key and kills exactly the
      listeners on file for it; for a key never advertised the callback
      raises `KeyError`. */
  lemma ClearedAdvertisementKills(d: Discovery, m: Message)
    requires m.payload == "" && AdvertisementKey(m.topic).Ok?
    ensures var key := AdvertisementKey(m.topic).value.0;
            var r := OnAdvertisement(d, m);
            key !in r.next.known
            && (key in d.jobs ==>
                  (r.error.None? && |r.effects| == |d.jobs[key]|
                   && forall k :: 0 <= k < |r.effects| ==> r.effects[k] == Kill(d.jobs[key][k])))
            && (key !in d.jobs ==> r.error == Some(KeyError) && r.effects == [])
  {
  }

  /** Two advertisements that agree on levels 1 to 5 (the second may carry a
      single-id level, or spell the port with leading zeros) share a key: the
      second starts nothing. */
  lemma SameProviderStartsOnce(d: Discovery, m1: Message, m2: Message)
    requires m1.payload != "" && m2.payload != ""
    requires AdvertisementKey(m1.topic).Ok? && AdvertisementKey(m2.topic).Ok?
    requires var l1 := LevelsOf(m1.topic); var l2 := LevelsOf(m2.topic);
             l1[1] == l2[1] && l1[3..6] == l2[3..6] && ParseInt(l1[2]) == ParseInt(l2[2])
    ensures var r1 := OnAdvertisement(d, m1);
            OnAdvertisement(r1.next, m2) == Reaction(r1.next, [], None)
  {
    var l1 := LevelsOf(m1.topic);
    var l2 := LevelsOf(m2.topic);
    assert l1[3] == l2[3] && l1[4] == l2[4] && l1[5] == l2[5] by {
      assert l1[3..6][0] == l1[3] && l1[3..6][1] == l1[4] && l1[3..6][2] == l1[5];
      assert l2[3..6][0] == l2[3] && l2[3..6][1] == l2[4] && l2[3..6][2] == l2[5];
    }
    assert AdvertisementKey(m1.topic).value.0 == AdvertisementKey(m2.topic).value.0;
  }

  /** Advertising a new provider and then clearing its advertisement returns
      the recorded keys to what they were, and kills the listener it started. */
  lemma AdvertiseThenClear(d: Discovery, m: Message)
    requires m.payload != "" && AdvertisementKey(m.topic).Ok?
    requires AdvertisementKey(m.topic).value.0 !in d.known
    ensures var r1 := OnAdvertisement(d, m);
            var r2 := OnAdvertisement(r1.next, Message(m.topic, "", m.retain));
            r2.error.None? && r2.next.known == d.known
            && r1.effects == [Start(r1.effects[0].listener)]
            && r2.effects == [Kill(r1.effects[0].listener)]
  {
    var key := AdvertisementKey(m.topic).value.0;
    var r1 := OnAdvertisement(d, m);
    var r2 := OnAdvertisement(r1.next, Message(m.topic, "", m.retain));
    assert r1.next.jobs[key] == [r1.effects[0].listener];
    assert r2.next.known == d.known + {key} - {key};
  }

  /** Folding deliveries through the callback; the first exception ends the
      fold, as it ends the process. */
  function OnAdvertisements(d: Discovery, ms: seq<Message>): (r: Reaction)
    ensures Consistent(d) ==> Consistent(r.next)
    decreases |ms|
  {
    if |ms| == 0 then Reaction(d, [], None)
    else
      var r := OnAdvertisement(d, ms[0]);
      if r.error.Some? then r
      else
        var rest := OnAdvertisements(r.next, ms[1..]);
        Reaction(rest.next, r.effects + rest.effects, rest.error)
  }

  /** However often a provider advertises, one listener is started for it:
      a run of non-empty advertisements of one key from the idle state
      starts exactly one listener. */
  lemma {:induction false} RepeatedAdvertisementsStartOnce(d: Discovery, ms: seq<Message>, key: string)
    requires |ms| >= 1
    requires forall i :: 0 <= i < |ms| ==> ms[i].payload != "" && AdvertisementKey(ms[i].topic).Ok?
                                           && AdvertisementKey(ms[i].topic).value.0 == key
    requires key !in d.known
    ensures var r := OnAdvertisements(d, ms);
            r.error.None? && |r.effects| == 1 && r.effects[0].Start? && key in r.next.known
    decreases |ms|
  {
    var r1 := OnAdvertisement(d, ms[0]);
    RepeatsChangeNothing(r1.next, ms[1..], key);
  }

  lemma {:induction false} RepeatsChangeNothing(d: Discovery, ms: seq<Message>, key: string)
    requires forall i :: 0 <= i < |ms| ==> ms[i].payload != "" && AdvertisementKey(ms[i].topic).Ok?
                                           && AdvertisementKey(ms[i].topic).value.0 == key
    requires key in d.known
    ensures OnAdvertisements(d, ms) == Reaction(d, [], None)
    decreases |ms|
  {
    if |ms| > 0 {
      assert OnAdvertisement(d, ms[0]) == Reaction(d, [], None);
      RepeatsChangeNothing(d, ms[1..], key);
    }
  }
}
