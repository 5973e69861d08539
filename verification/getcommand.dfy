/** The `GET/entities/?…` command of the command-line front end.

    The text after `GET/entities/` (and an optional `?`) is split on `&`
    into fields, each split once on `=` into a key and a value. Known keys
    set the request's parameters, the last occurrence winning; `type`,
    `attrs` and `area` take comma-separated lists. The first unknown key
    ends the command without output, and a geo-query must give all of
    `geometry`, `georel` and `coordinates` or none of them.
 */
module GetCommand {
  import opened Basics
  import opened Text
  import opened Topics
  import opened Subscriptions

  /** `s.split(c, 1)`: the text before the first `c`, and the text after it
      when there is one. */
  function SplitFirst(s: string, c: char): (r: (string, Option<string>))
    ensures c !in r.0
    ensures r.1.None? ==> r.0 == s
    ensures r.1.Some? ==> s == r.0 + [c] + r.1.value
  {
    if |s| == 0 then ("", None)
    else if s[0] == c then ("", Some(s[1..]))
    else
      var r := SplitFirst(s[1..], c);
      assert [s[0]] + s[1..] == s;
      ([s[0]] + r.0, r.1)
  }

  /** The parameters as the loop leaves them. `None` stands for a flag that
      was never set. */
  datatype Params = Params(
    id: Option<string>, idPattern: bool, types: Option<seq<string>>, time: string, limit: int,
    attrs: Option<seq<string>>, query: string, geoproperty: string, geometry: string,
    georel: string, coordinates: string, areas: seq<string>, geoCount: nat)

  const DefaultLimit := 1800
  const Defaults := Params(None, false, None, "", DefaultLimit, None, "", "location", "", "", "", [], 0)

  predicate GeoKey(k: string)
  {
    k == "geometry" || k == "georel" || k == "coordinates"
  }

  /** The keys the loop recognises besides `idPattern`, which takes no value. */
  predicate ValueKey(k: string)
  {
    k == "id" || k == "type" || k == "time" || k == "limit" || k == "attrs" || k == "q"
    || k == "geoproperty" || GeoKey(k) || k == "area"
  }

  /** The assignment a recognised key with a value makes. */
  function Assign(p: Params, k: string, x: string): (r: Result<Params>)
    ensures r.Raise? ==> k == "limit" && r.error == ValueError
  {
    if k == "id" then Ok(p.(id := Some(x)))
    else if k == "type" then Ok(p.(types := Some(Split(x, ','))))
    else if k == "time" then Ok(p.(time := x))
    else if k == "limit" then
      match ParseInt(x)
      case Ok(n) => Ok(p.(limit := n))
      case Raise(e) => Raise(e)
    else if k == "attrs" then Ok(p.(attrs := Some(Split(x, ','))))
    else if k == "q" then Ok(p.(query := x))
    else if k == "geoproperty" then Ok(p.(geoproperty := x))
    else if k == "geometry" then Ok(p.(geometry := x, geoCount := p.geoCount + 1))
    else if k == "georel" then Ok(p.(georel := x, geoCount := p.geoCount + 1))
    else if k == "coordinates" then Ok(p.(coordinates := x, geoCount := p.geoCount + 1))
    else Ok(p.(areas := Split(x, ',')))
  }

  /** One pass of the loop: `None` when the key is not recognised and the
      command returns. A recognised key without `=` raises `IndexError`, and
      a `limit` that is not an integer raises `ValueError`. */
  function Step(p: Params, field: string): (r: Result<Option<Params>>)
  {
    var (k, v) := SplitFirst(field, '=');
    if k == "idPattern" then Ok(Some(p.(idPattern := true)))
    else if !ValueKey(k) then Ok(None)
    else if v.None? then Raise(IndexError)
    else
      match Assign(p, k, v.value)
      case Ok(q) => Ok(Some(q))
      case Raise(e) => Raise(e)
  }

  /** The loop over the fields, stated over its prefixes: the first error or
      unknown key ends it. */
  function ParseFields(fs: seq<string>): (r: Result<Option<Params>>)
    decreases |fs|
  {
    if |fs| == 0 then Ok(Some(Defaults))
    else
      match ParseFields(fs[..|fs| - 1])
      case Ok(Some(p)) => Step(p, fs[|fs| - 1])
      case other => other
  }

  /** The request the command goes on to run. */
  datatype Request = Request(
    id: string, types: seq<string>, time: string, limit: int, attrs: Option<seq<string>>,
    query: string, geoproperty: string, geometry: string, georel: string, coordinates: string,
    areas: seq<string>)

  datatype Outcome = Run(request: Request) | NotRecognised | IncompleteGeo

  /** After the loop: the geo-query check and the defaults for a missing
      area, type and id (`#`, the wildcard for "any"). */
  function Finish(p: Params): (r: Outcome)
    ensures r.Run? <==> p.geoCount == 0 || p.geoCount == 3
  {
    if p.geoCount != 0 && p.geoCount != 3 then IncompleteGeo
    else
      Run(Request(
        if p.id.Some? then p.id.value else "#",
        if p.types.Some? then p.types.value else ["#"],
        p.time, p.limit, p.attrs, p.query, p.geoproperty, p.geometry, p.georel, p.coordinates,
        if p.areas == [] then ["+"] else p.areas))
  }

  const Prefix := "GET/entities/"

  /** The fields of the command's query string. */
  function QueryFields(command: string): (r: Result<seq<string>>)
    ensures r.Ok? ==> |r.value| >= 1
  {
    var parts := SplitOn(command, Prefix);
    if |parts| < 2 then Raise(IndexError)
    else
      var rest := parts[1];
      var rest := if |rest| > 0 && rest[0] == '?' then rest[1..] else rest;
      Ok(Split(rest, '&'))
  }

  function ParseGet(command: string): (r: Result<Outcome>)
  {
    var fs :- QueryFields(command);
    var p :- ParseFields(fs);
    if p.None? then Ok(NotRecognised) else Ok(Finish(p.value))
  }

  // ---------------------------------------------------------------------
  // The parser against a direct description of the query string

  /** A field the loop accepts and goes on from. */
  predicate Accepted(field: string)
  {
    var (k, v) := SplitFirst(field, '=');
    k == "idPattern" || (ValueKey(k) && v.Some? && (k == "limit" ==> ParseInt(v.value).Ok?))
  }

  /** The value of the last field with key `key`, or `d` when there is none. */
  function LastValue(fs: seq<string>, key: string, d: string): string
    decreases |fs|
  {
    if |fs| == 0 then d
    else
      var (k, v) := SplitFirst(fs[|fs| - 1], '=');
      if k == key && v.Some? then v.value else LastValue(fs[..|fs| - 1], key, d)
  }

  /** Some field has key `key` and a value. */
  predicate HasKey(fs: seq<string>, key: string)
  {
    exists i :: 0 <= i < |fs| && SplitFirst(fs[i], '=').0 == key && SplitFirst(fs[i], '=').1.Some?
  }

  /** The number of geo-query fields. */
  function GeoCount(fs: seq<string>): nat
    decreases |fs|
  {
    if |fs| == 0 then 0
    else GeoCount(fs[..|fs| - 1]) + (if GeoKey(SplitFirst(fs[|fs| - 1], '=').0) then 1 else 0)
  }

  /** One step accepts exactly the accepted fields. */
  lemma StepAccepts(p: Params, field: string)
    ensures (Step(p, field).Ok? && Step(p, field).value.Some?) <==> Accepted(field)
  {
  }

  /** The loop runs to the end exactly when every field is accepted. */
  lemma {:induction false} ParseAcceptsExactly(fs: seq<string>)
    ensures (ParseFields(fs).Ok? && ParseFields(fs).value.Some?) <==> forall i :: 0 <= i < |fs| ==> Accepted(fs[i])
    decreases |fs|
  {
    if |fs| > 0 {
      var init := fs[..|fs| - 1];
      ParseAcceptsExactly(init);
      assert forall i :: 0 <= i < |init| ==> init[i] == fs[i];
      if ParseFields(init).Ok? && ParseFields(init).value.Some? {
        StepAccepts(ParseFields(init).value.value, fs[|fs| - 1]);
      }
    }
  }

  /** What one assignment changes. */
  lemma AssignEffect(p: Params, k: string, x: string)
    requires ValueKey(k) && Assign(p, k, x).Ok?
    ensures var q := Assign(p, k, x).value;
            && q.time == (if k == "time" then x else p.time)
            && q.query == (if k == "q" then x else p.query)
            && q.geoproperty == (if k == "geoproperty" then x else p.geoproperty)
            && q.geometry == (if k == "geometry" then x else p.geometry)
            && q.georel == (if k == "georel" then x else p.georel)
            && q.coordinates == (if k == "coordinates" then x else p.coordinates)
            && q.id == (if k == "id" then Some(x) else p.id)
            && q.geoCount == p.geoCount + (if GeoKey(k) then 1 else 0)
            && (k == "limit" ==> ParseInt(x) == Ok(q.limit))
            && (k != "limit" ==> q.limit == p.limit)
  {
  }

  /** What one accepted field changes. */
  lemma StepEffect(p: Params, field: string)
    requires Step(p, field).Ok? && Step(p, field).value.Some?
    ensures var q := Step(p, field).value.value;
            var kv := SplitFirst(field, '=');
            var k := kv.0;
            var v := kv.1;
            && q.time == (if k == "time" && v.Some? then v.value else p.time)
            && q.query == (if k == "q" && v.Some? then v.value else p.query)
            && q.geoproperty == (if k == "geoproperty" && v.Some? then v.value else p.geoproperty)
            && q.geometry == (if k == "geometry" && v.Some? then v.value else p.geometry)
            && q.georel == (if k == "georel" && v.Some? then v.value else p.georel)
            && q.coordinates == (if k == "coordinates" && v.Some? then v.value else p.coordinates)
            && q.id == (if k == "id" && v.Some? then Some(v.value) else p.id)
            && q.geoCount == p.geoCount + (if GeoKey(k) then 1 else 0)
            && (k == "limit" && v.Some? ==> ParseInt(v.value) == Ok(q.limit))
            && (!(k == "limit" && v.Some?) ==> q.limit == p.limit)
  {
    var kv := SplitFirst(field, '=');
    if kv.0 != "idPattern" {
      AssignEffect(p, kv.0, kv.1.value);
    }
  }

  /** A key given by the last field is that field's; otherwise it is as the
      earlier fields leave it. */
  lemma HasKeyLast(fs: seq<string>, key: string)
    requires |fs| > 0
    ensures var (k, v) := SplitFirst(fs[|fs| - 1], '=');
            HasKey(fs, key) <==> (k == key && v.Some?) || HasKey(fs[..|fs| - 1], key)
  {
    var init := fs[..|fs| - 1];
    assert forall i :: 0 <= i < |init| ==> init[i] == fs[i];
    if HasKey(fs, key) {
      var i :| 0 <= i < |fs| && SplitFirst(fs[i], '=').0 == key && SplitFirst(fs[i], '=').1.Some?;
      if i < |init| {
        assert HasKey(init, key);
      }
    }
  }

  /** The key set by a field is the value of the last such field; keys set
      by no field keep their defaults; every geo-query field counts once. */
  lemma {:induction false} ParseLastWins(fs: seq<string>)
    requires ParseFields(fs).Ok? && ParseFields(fs).value.Some?
    ensures var p := ParseFields(fs).value.value;
            && p.time == LastValue(fs, "time", "")
            && p.query == LastValue(fs, "q", "")
            && p.geoproperty == LastValue(fs, "geoproperty", "location")
            && p.geometry == LastValue(fs, "geometry", "")
            && p.georel == LastValue(fs, "georel", "")
            && p.coordinates == LastValue(fs, "coordinates", "")
            && p.id == (if HasKey(fs, "id") then Some(LastValue(fs, "id", "")) else None)
            && p.geoCount == GeoCount(fs)
    decreases |fs|
  {
    if |fs| > 0 {
      var init := fs[..|fs| - 1];
      assert ParseFields(init).Ok? && ParseFields(init).value.Some?;
      ParseLastWins(init);
      StepEffect(ParseFields(init).value.value, fs[|fs| - 1]);
      HasKeyLast(fs, "id");
    }
  }

  /** A `limit` field sets the page size to the last such field's value. */
  lemma {:induction false} ParseLimit(fs: seq<string>)
    requires ParseFields(fs).Ok? && ParseFields(fs).value.Some?
    ensures var p := ParseFields(fs).value.value;
            && (HasKey(fs, "limit") ==> ParseInt(LastValue(fs, "limit", "")) == Ok(p.limit))
            && (!HasKey(fs, "limit") ==> p.limit == DefaultLimit)
    decreases |fs|
  {
    if |fs| > 0 {
      var init := fs[..|fs| - 1];
      assert ParseFields(init).Ok? && ParseFields(init).value.Some?;
      ParseLimit(init);
      StepEffect(ParseFields(init).value.value, fs[|fs| - 1]);
      HasKeyLast(fs, "limit");
    }
  }

  /** A command runs exactly when every field is accepted and the geo-query
      fields number zero or three. */
  lemma ParseGetRuns(command: string)
    requires QueryFields(command).Ok?
    ensures var fs := QueryFields(command).value;
            ParseGet(command).Ok? && ParseGet(command).value.Run?
            <==> (forall i :: 0 <= i < |fs| ==> Accepted(fs[i])) && (GeoCount(fs) == 0 || GeoCount(fs) == 3)
  {
    var fs := QueryFields(command).value;
    ParseAcceptsExactly(fs);
    if ParseFields(fs).Ok? && ParseFields(fs).value.Some? {
      ParseLastWins(fs);
    }
  }

  /** A command with an empty query string names the key `""`, which is not
      recognised: nothing is fetched. */
  lemma EmptyQueryNotRecognised()
    ensures ParseGet(Prefix) == Ok(NotRecognised)
    ensures ParseGet(Prefix + "?") == Ok(NotRecognised)
  {
    assert SplitOn(Prefix, Prefix) == ["", ""] by {
      assert Prefix[..|Prefix|] == Prefix;
      assert Prefix[|Prefix|..] == "";
    }
    assert SplitOn(Prefix + "?", Prefix) == ["", "?"] by {
      assert (Prefix + "?")[..|Prefix|] == Prefix;
      assert (Prefix + "?")[|Prefix|..] == "?";
    }
    assert Split("", '&') == [""];
    assert SplitFirst("", '=') == ("", None);
    assert ParseFields([""]) == Step(Defaults, "");
  }

  // ---------------------------------------------------------------------
  // The filters a request subscribes to

  /** The advertisement filter of one requested type in one area; under
      single-id advertisement the id is a further level and an open type
      becomes `+`. */
  function AdvertisementFilter(singleId: bool, area: string, contextLevel: string,
                               etype: string, id: string): string
  {
    if singleId then TopicOf(["provider", "+", "+", area, contextLevel, if etype == "#" then "+" else etype, id])
    else TopicOf(["provider", "+", "+", area, contextLevel, etype])
  }

  /** The advertisement filters of one requested type, one per area. */
  function AdvertisementFilters(singleId: bool, areas: seq<string>, contextLevel: string,
                                etype: string, id: string): (r: seq<string>)
    ensures |r| == |areas|
    ensures forall k :: 0 <= k < |r| ==> r[k] == AdvertisementFilter(singleId, areas[k], contextLevel, etype, id)
  {
    seq(|areas|, k requires 0 <= k < |areas| => AdvertisementFilter(singleId, areas[k], contextLevel, etype, id))
  }

  /** Filter levels, then a last level that may be `#`, against a topic
      with one level more than the filter's first levels. */
  lemma LastLevelMatch(p: seq<string>, last: string, t: seq<string>)
    requires |t| == |p| + 1
    requires forall i :: 0 <= i < |p| ==> FilterLevel(p[i])
    requires FilterLevel(last) || last == "#"
    ensures MatchLevels(p + [last], t)
        <==> (forall i :: 0 <= i < |p| ==> LevelOk(p[i], t[i])) && (last == "#" || LevelOk(last, t[|p|]))
  {
    assert '#' in "#";
    if last == "#" {
      HashFilterMatch(p, t);
    } else {
      var f := p + [last];
      assert forall i :: 0 <= i < |f| ==> f[i] != "#";
      MatchPointwise(f, t);
      assert forall i :: 0 <= i < |p| ==> f[i] == p[i];
      if forall i :: 0 <= i < |f| ==> f[i] == "+" || f[i] == t[i] {
        assert f[|p|] == last;
      }
    }
  }

  /** Five levels against a topic's first five, level by level. */
  lemma FiveLevels(p: seq<string>, t: seq<string>)
    requires |p| == 5 && |t| >= 5
    ensures (forall i :: 0 <= i < 5 ==> LevelOk(p[i], t[i]))
        <==> LevelOk(p[0], t[0]) && LevelOk(p[1], t[1]) && LevelOk(p[2], t[2])
             && LevelOk(p[3], t[3]) && LevelOk(p[4], t[4])
  {
    if LevelOk(p[0], t[0]) && LevelOk(p[1], t[1]) && LevelOk(p[2], t[2])
       && LevelOk(p[3], t[3]) && LevelOk(p[4], t[4]) {
      forall i | 0 <= i < 5
        ensures LevelOk(p[i], t[i])
      {
        assert i == 0 || i == 1 || i == 2 || i == 3 || i == 4;
      }
    }
  }

  /** The advertisement of a provider: six levels, and the id as a seventh
      under single-id advertisement. */
  function AdvertisementLevels(singleId: bool, broker: string, portText: string, area: string,
                               contextLevel: string, etype: string, id: string): seq<string>
  {
    var base := ["provider", broker, portText, area, contextLevel, etype];
    if singleId then base + [id] else base
  }

  /** One single-id advertisement filter against one advertisement. */
  lemma SingleAdvertisementMatch(area: string, contextLevel: string, etype: string, id: string,
                                 broker: string, portText: string, area': string, contextLevel': string,
                                 etype': string, id': string)
    requires FilterLevel(area) && FilterLevel(contextLevel) && (etype == "#" || FilterLevel(etype))
    requires FilterLevel(id) || id == "#"
    requires Plain(broker) && Plain(portText) && Plain(area') && Plain(contextLevel') && Plain(etype') && Plain(id')
    ensures Delivers(AdvertisementFilter(true, area, contextLevel, etype, id),
                     TopicOf(AdvertisementLevels(true, broker, portText, area', contextLevel', etype', id')))
        <==> LevelOk(area, area') && LevelOk(contextLevel, contextLevel')
             && (etype == "#" || LevelOk(etype, etype')) && (id == "#" || LevelOk(id, id'))
  {
    var t := AdvertisementLevels(true, broker, portText, area', contextLevel', etype', id');
    var et := if etype == "#" then "+" else etype;
    var p := ["provider", "+", "+", area, contextLevel, et];
    assert Delivers(AdvertisementFilter(true, area, contextLevel, etype, id), TopicOf(t)) <==> MatchLevels(p + [id], t) by {
      assert '+' in "+" && '#' in "#";
      assert "provider"[..1] == "p";
      assert p + [id] == ["provider", "+", "+", area, contextLevel, et, id];
      DeliversLevels(p + [id], t);
    }
    assert MatchLevels(p + [id], t) <==> (forall i :: 0 <= i < 6 ==> LevelOk(p[i], t[i])) && (id == "#" || LevelOk(id, t[6])) by {
      assert '+' in "+";
      LastLevelMatch(p, id, t);
    }
    SixLevels(p, t);
  }

  /** One coarse advertisement filter against one advertisement. */
  lemma CoarseAdvertisementMatch(area: string, contextLevel: string, etype: string,
                                 broker: string, portText: string, area': string, contextLevel': string,
                                 etype': string)
    requires FilterLevel(area) && FilterLevel(contextLevel) && (etype == "#" || FilterLevel(etype))
    requires Plain(broker) && Plain(portText) && Plain(area') && Plain(contextLevel') && Plain(etype')
    ensures Delivers(AdvertisementFilter(false, area, contextLevel, etype, ""),
                     TopicOf(AdvertisementLevels(false, broker, portText, area', contextLevel', etype', "")))
        <==> LevelOk(area, area') && LevelOk(contextLevel, contextLevel') && (etype == "#" || LevelOk(etype, etype'))
  {
    var t := AdvertisementLevels(false, broker, portText, area', contextLevel', etype', "");
    assert '+' in "+" && '#' in "#";
    assert "provider"[..1] == "p";
    var p := ["provider", "+", "+", area, contextLevel];
    assert p + [etype] == ["provider", "+", "+", area, contextLevel, etype];
    DeliversLevels(p + [etype], t);
    LastLevelMatch(p, etype, t);
    FiveLevels(p, t);
  }

  /** The advertisement filters of a request receive exactly the
      advertisements of providers in a requested area with the request's
      context and type (and id, under single-id advertisement). */
  lemma AdvertisementFiltersReceive(singleId: bool, areas: seq<string>, contextLevel: string, etype: string,
                                    id: string, broker: string, portText: string, area': string,
                                    contextLevel': string, etype': string, id': string)
    requires forall k :: 0 <= k < |areas| ==> FilterLevel(areas[k])
    requires FilterLevel(contextLevel) && (etype == "#" || FilterLevel(etype))
    requires singleId ==> FilterLevel(id) || id == "#"
    requires Plain(broker) && Plain(portText) && Plain(area') && Plain(contextLevel') && Plain(etype') && Plain(id')
    ensures var fs := AdvertisementFilters(singleId, areas, contextLevel, etype, id);
            var adv := TopicOf(AdvertisementLevels(singleId, broker, portText, area', contextLevel', etype', id'));
            ((exists k :: 0 <= k < |fs| && Delivers(fs[k], adv))
             <==> ((exists k :: 0 <= k < |areas| && LevelOk(areas[k], area'))
                   && LevelOk(contextLevel, contextLevel') && (etype == "#" || LevelOk(etype, etype'))
                   && (singleId ==> id == "#" || LevelOk(id, id'))))
  {
    var fs := AdvertisementFilters(singleId, areas, contextLevel, etype, id);
    forall k | 0 <= k < |fs|
      ensures Delivers(fs[k], TopicOf(AdvertisementLevels(singleId, broker, portText, area', contextLevel', etype', id')))
              <==> LevelOk(areas[k], area') && LevelOk(contextLevel, contextLevel')
                   && (etype == "#" || LevelOk(etype, etype')) && (singleId ==> id == "#" || LevelOk(id, id'))
    {
      if singleId {
        SingleAdvertisementMatch(areas[k], contextLevel, etype, id, broker, portText, area', contextLevel', etype', id');
      } else {
        assert AdvertisementFilter(false, areas[k], contextLevel, etype, id)
            == AdvertisementFilter(false, areas[k], contextLevel, etype, "");
        assert AdvertisementLevels(false, broker, portText, area', contextLevel', etype', id')
            == AdvertisementLevels(false, broker, portText, area', contextLevel', etype', "");
        CoarseAdvertisementMatch(areas[k], contextLevel, etype, broker, portText, area', contextLevel', etype');
      }
    }
  }

  /** The entity filters asked of a provider in `area`: one per requested
      attribute, or one ending in `#` for all of them. */
  function EntityFilters(area: string, contextLevel: string, etype: string, id: string,
                         attrs: Option<seq<string>>): (r: seq<string>)
    ensures attrs.None? ==> |r| == 1
    ensures attrs.Some? ==> |r| == |attrs.value|
  {
    var t := if etype == "#" then "+" else etype;
    if attrs.Some? then WatchedFilters(area, contextLevel, t, id, attrs.value)
    else [AttributeFilter(area, contextLevel, t, id, "#")]
  }

  /** The entity filters receive from a provider exactly the attribute
      topics with the requested id, type and attributes. */
  lemma EntityFiltersReceive(area: string, contextLevel: string, etype: string, id: string,
                             attrs: Option<seq<string>>,
                             area': string, contextLevel': string, etype': string, id': string, attr: string)
    requires FilterLevel(area) && FilterLevel(contextLevel) && (etype == "#" || FilterLevel(etype)) && FilterLevel(id)
    requires attrs.Some? ==> forall k :: 0 <= k < |attrs.value| ==> Plain(attrs.value[k])
    requires Plain(area') && !StartsWith(area', "$")
    requires Plain(contextLevel') && Plain(etype') && Plain(id') && Plain(attr)
    ensures var fs := EntityFilters(area, contextLevel, etype, id, attrs);
            ((exists k :: 0 <= k < |fs| && Delivers(fs[k], AttributeTopic(area', contextLevel', etype', id', attr)))
             <==> (LevelOk(area, area') && LevelOk(contextLevel, contextLevel')
                   && (etype == "#" || LevelOk(etype, etype')) && LevelOk(id, id')
                   && (attrs.Some? ==> attr in attrs.value)))
  {
    var t := if etype == "#" then "+" else etype;
    var fs := EntityFilters(area, contextLevel, etype, id, attrs);
    var topic := AttributeTopic(area', contextLevel', etype', id', attr);
    assert '+' in "+";
    if attrs.Some? {
      forall k | 0 <= k < |fs|
        ensures Delivers(fs[k], topic)
                <==> (LevelOk(area, area') && LevelOk(contextLevel, contextLevel')
                      && LevelOk(t, etype') && LevelOk(id, id') && attrs.value[k] == attr)
      {
        AttributeFilterMatch(area, contextLevel, t, id, attrs.value[k], area', contextLevel', etype', id', attr);
      }
      if attr in attrs.value {
        var k :| 0 <= k < |attrs.value| && attrs.value[k] == attr;
        assert fs[k] == fs[k];
      }
    } else {
      AttributeFilterMatch(area, contextLevel, t, id, "#", area', contextLevel', etype', id', attr);
      assert (exists k :: 0 <= k < |fs| && Delivers(fs[k], topic)) <==> Delivers(fs[0], topic);
    }
  }

  /** A request without an id keeps the default `#` as the id level, so
      every entity filter has `#` before its last level: none is a valid
      topic filter. */
  lemma NoIdFiltersInvalid(area: string, contextLevel: string, etype: string, attrs: Option<seq<string>>)
    requires '/' !in area && '/' !in contextLevel && '/' !in etype
    requires attrs.Some? ==> forall k :: 0 <= k < |attrs.value| ==> '/' !in attrs.value[k]
    ensures var fs := EntityFilters(area, contextLevel, etype, "#", attrs);
            forall k :: 0 <= k < |fs| ==> !ValidFilter(fs[k])
  {
    var t := if etype == "#" then "+" else etype;
    var fs := EntityFilters(area, contextLevel, etype, "#", attrs);
    forall k | 0 <= k < |fs|
      ensures !ValidFilter(fs[k])
    {
      var last := if attrs.Some? then attrs.value[k] else "#";
      var levels := [area, EntitiesLevel, contextLevel, t, "+", "#", last];
      assert fs[k] == TopicOf(levels);
      LevelsOfTopic(levels);
      assert LevelsOf(fs[k])[5] == "#";
    }
  }

  // The filter list `topic` is created once, before the loops over the
  // requested types and the providers found, and each provider visited
  // appends its entity filters to it: the `GET` sent to a provider carries
  // the filters of every provider visited before it as well.

  /** The filters sent with the `GET` of visit `n`, the visits in loop order
      (type by type, provider by provider), `visits[j]` being the
      `EntityFilters` of visit `j`. */
  function VisitFilters(visits: seq<seq<string>>, n: nat): (r: seq<string>)
    requires n < |visits|
    ensures |r| >= |visits[n]| && r[|r| - |visits[n]|..] == visits[n]
    ensures forall x :: x in r <==> exists j :: 0 <= j <= n && x in visits[j]
  {
    FlattenSnoc(visits[..n], visits[n]);
    assert visits[..n] + [visits[n]] == visits[..n + 1];
    assert forall j :: 0 <= j <= n ==> visits[..n + 1][j] == visits[j];
    Flatten(visits[..n + 1])
  }

  /** Each visit's request is the previous one's with that visit's filters
      appended. */
  lemma VisitFiltersGrow(visits: seq<seq<string>>, n: nat)
    requires n + 1 < |visits|
    ensures VisitFilters(visits, n + 1) == VisitFilters(visits, n) + visits[n + 1]
  {
    assert visits[..n + 2] == visits[..n + 1] + [visits[n + 1]];
    FlattenSnoc(visits[..n + 1], visits[n + 1]);
  }

  /** The entity filters with an open id written as `+`, as the other open
      levels are. */
  function EntityFiltersFixed(area: string, contextLevel: string, etype: string, id: string,
                              attrs: Option<seq<string>>): (r: seq<string>)
    ensures |r| == |EntityFilters(area, contextLevel, etype, id, attrs)|
  {
    EntityFilters(area, contextLevel, etype, if id == "#" then "+" else id, attrs)
  }

  /** Seven levels, each a plain level or `+`, the last possibly `#`, form
      a valid filter. */
  lemma SevenLevelsValid(levels: seq<string>)
    requires |levels| == 7
    requires forall i :: 0 <= i < 6 ==> FilterLevel(levels[i])
    requires FilterLevel(levels[6]) || levels[6] == "#"
    ensures ValidFilter(TopicOf(levels))
  {
    LevelsOfTopic(levels);
    assert '+' in "+" && '#' in "#";
    assert TopicOf(levels) == levels[0] + ['/'] + TopicOf(levels[1..]);
  }

  /** With the open id written as `+`, every filter is valid, and a request
      without an id receives the requested attributes of every entity. */
  lemma FixedFiltersValid(area: string, contextLevel: string, etype: string, attrs: Option<seq<string>>,
                          area': string, contextLevel': string, etype': string, id': string, attr: string)
    requires FilterLevel(area) && FilterLevel(contextLevel) && (etype == "#" || FilterLevel(etype))
    requires attrs.Some? ==> forall k :: 0 <= k < |attrs.value| ==> Plain(attrs.value[k])
    requires Plain(area') && !StartsWith(area', "$")
    requires Plain(contextLevel') && Plain(etype') && Plain(id') && Plain(attr)
    ensures var fs := EntityFiltersFixed(area, contextLevel, etype, "#", attrs);
            && (forall k :: 0 <= k < |fs| ==> ValidFilter(fs[k]))
            && ((exists k :: 0 <= k < |fs| && Delivers(fs[k], AttributeTopic(area', contextLevel', etype', id', attr)))
                <==> (LevelOk(area, area') && LevelOk(contextLevel, contextLevel')
                      && (etype == "#" || LevelOk(etype, etype'))
                      && (attrs.Some? ==> attr in attrs.value)))
  {
    var t := if etype == "#" then "+" else etype;
    var fs := EntityFiltersFixed(area, contextLevel, etype, "#", attrs);
    assert '+' in "+" && '#' in "#";
    forall k | 0 <= k < |fs|
      ensures ValidFilter(fs[k])
    {
      var last := if attrs.Some? then attrs.value[k] else "#";
      var levels := [area, EntitiesLevel, contextLevel, t, "+", "+", last];
      assert fs[k] == TopicOf(levels);
      SevenLevelsValid(levels);
    }
    EntityFiltersReceive(area, contextLevel, etype, "+", attrs, area', contextLevel', etype', id', attr);
  }
}
