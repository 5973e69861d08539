/** Keeping federation policies: storing them in the context broker,
    publishing and withdrawing them on the federation broker, and choosing
    the collaborators a received policy is forwarded to.

    `store_policy` exists twice with different rules: the policy monitor's
    copy (`CCDUIT/policy_monitoring.py`) skips every falsy field and stores
    nothing when the lookup answers neither 200 nor 404; the policy
    management service's copy (`CCDUIT/Policy_Management_Service.py`) only
    skips `None`, lets a malformed JSON string raise, and stores on every
    status but 200. Both replace a stored policy only with a strictly newer
    one. The HTTP exchanges are parameters: the answer to the lookup is a
    `Fetched`, and what follows is the `Storage` step taken.

    `datetime.strptime(s, "%Y-%m-%dT%H:%M:%SZ")` is the parameter
    `stamp: string -> Option<int>`: the instant, or `None` for `ValueError`.
 */
module PolicyStore {
  import opened Basics
  import opened Text
  import opened Json
  import opened JsonText
  import opened Topics
  import opened Broker
  import opened Forwarding

  /** What `store_policy` does with the context broker: nothing, a POST, or
      a DELETE of the stored policy followed by a POST. */
  datatype Storage = Ignore | Insert | Overwrite

  /** The answer to `GET <broker>/<policy id>`: `NoAnswer` when the request
      raises, otherwise the status and the body (`None` when
      `response.json()` raises). */
  datatype Fetched = NoAnswer | Answer(status: int, body: Option<Json>)

  /** `policy.get('modificationPolicy', {}).get('value', {}).get('lastModified')`. */
  function LastModified(policy: Json): (r: Result<Json>)
    ensures r.Raise? ==> r.error == AttributeError
    ensures r.Ok? <==> && policy.JObj?
                       && var mp := Lookup(policy.o, "modificationPolicy").GetOr(JObj([]));
                          && mp.JObj?
                          && Lookup(mp.o, "value").GetOr(JObj([])).JObj?
  {
    var mp :- Get(policy, "modificationPolicy", JObj([]));
    var v :- Get(mp, "value", JObj([]));
    Get(v, "lastModified", JNull)
  }

  /** `strptime` on a JSON value: a non-string raises `TypeError`. */
  function StampOf(j: Json, stamp: string -> Option<int>): (r: Result<Option<int>>)
    ensures r.Ok? <==> j.JStr?
    ensures r.Raise? ==> r.error == TypeError
  {
    if j.JStr? then Ok(stamp(j.s)) else Raise(TypeError)
  }

  /** The policy monitor's comparison with the stored copy. */
  function MonitorAgainstStored(fetched: Fetched, stamp: string -> Option<int>, incoming: int): (r: Result<Storage>)
    ensures r == Ok(Overwrite) ==> fetched.Answer? && fetched.status == 200
    ensures r == Ok(Insert) ==> fetched.Answer? && (fetched.status == 200 || fetched.status == 404)
  {
    match fetched
    case NoAnswer => Ok(Ignore)
    case Answer(status, body) =>
      if status == 200 then
        if body.None? then Ok(Ignore)
        else
          var existing :- LastModified(body.value);
          if !Truthy(existing) then Ok(Insert)
          else
            var at :- StampOf(existing, stamp);
            if at.None? then Ok(Ignore)
            else if at.value >= incoming then Ok(Ignore)
            else Ok(Overwrite)
      else if status != 404 then Ok(Ignore)
      else Ok(Insert)
  }

  /** `store_policy` of the policy monitor. */
  function MonitorStore(policy: Json, stamp: string -> Option<int>, fetched: Fetched): (r: Result<Storage>)
    ensures !Truthy(policy) ==> r == Ok(Ignore)
    ensures r == Ok(Overwrite) ==> fetched.Answer? && fetched.status == 200
    ensures r == Ok(Insert) ==> fetched.Answer? && (fetched.status == 200 || fetched.status == 404)
  {
    if !Truthy(policy) then Ok(Ignore)
    else
      var decoded := if policy.JStr? then Loads(policy.s) else Ok(policy);
      if decoded.Raise? then Ok(Ignore)
      else
        var p := decoded.value;
        var id :- Get(p, "id", JNull);
        if !Truthy(id) then Ok(Ignore)
        else
          var lm :- LastModified(p);
          if !Truthy(lm) then Ok(Ignore)
          else
            var incoming :- StampOf(lm, stamp);
            if incoming.None? then Ok(Ignore)
            else MonitorAgainstStored(fetched, stamp, incoming.value)
  }

  /** The policy management service's comparison with the stored copy. */
  function ManagerAgainstStored(fetched: Fetched, stamp: string -> Option<int>, incoming: int): (r: Result<Storage>)
    ensures r == Ok(Overwrite) ==> fetched.Answer? && fetched.status == 200
    ensures fetched.Answer? && fetched.status != 200 ==> r == Ok(Insert)
  {
    match fetched
    case NoAnswer => Ok(Ignore)
    case Answer(status, body) =>
      if status == 200 then
        if body.None? then Ok(Ignore)
        else
          var existing :- LastModified(body.value);
          if !Truthy(existing) then Ok(Insert)
          else
            var at :- StampOf(existing, stamp);
            if at.None? then Ok(Ignore)
            else if incoming > at.value then Ok(Overwrite)
            else Ok(Ignore)
      else Ok(Insert)
  }

  /** `store_policy` of the policy management service. */
  function ManagerStore(policy: Json, stamp: string -> Option<int>, fetched: Fetched): (r: Result<Storage>)
    ensures policy == JNull ==> r == Ok(Ignore)
    ensures policy.JStr? && Loads(policy.s).Raise? ==> r == Raise(ValueError)
    ensures r == Ok(Overwrite) ==> fetched.Answer? && fetched.status == 200
  {
    if policy == JNull then Ok(Ignore)
    else
      var p :- if policy.JStr? then Loads(policy.s) else Ok(policy);
      var id :- Get(p, "id", JNull);
      if id == JNull then Ok(Ignore)
      else
        var lm :- LastModified(p);
        if lm == JNull then Ok(Ignore)
        else
          var incoming :- StampOf(lm, stamp);
          if incoming.None? then Ok(Ignore)
          else ManagerAgainstStored(fetched, stamp, incoming.value)
  }

  /** A policy dictionary with a non-empty id and a `lastModified` text that
      parses to `at`. */
  predicate Stamped(policy: Json, stamp: string -> Option<int>, at: int)
  {
    && policy.JObj?
    && Truthy(Lookup(policy.o, "id").GetOr(JNull))
    && LastModified(policy).Ok?
    && LastModified(policy).value.JStr?
    && |LastModified(policy).value.s| > 0
    && stamp(LastModified(policy).value.s) == Some(at)
  }

  /** Both copies skip a dictionary without an id (or, in the monitor, with
      an empty one) or without a `lastModified`, and one whose
      `lastModified` does not parse. */
  lemma SkipsIncomplete(policy: Json, stamp: string -> Option<int>, fetched: Fetched)
    requires policy.JObj? && LastModified(policy).Ok?
    requires var lm := LastModified(policy).value;
             || Lookup(policy.o, "id").None?
             || lm == JNull
             || (lm.JStr? && stamp(lm.s).None?)
    ensures MonitorStore(policy, stamp, fetched) == Ok(Ignore)
    ensures ManagerStore(policy, stamp, fetched) == Ok(Ignore)
  {
  }

  /** The monitor also skips a falsy id or `lastModified` and a string that
      is not JSON, where the manager goes on or raises. */
  lemma MonitorSkipsFalsy(policy: Json, stamp: string -> Option<int>, fetched: Fetched)
    requires || (policy.JStr? && Loads(policy.s).Raise?)
             || (policy.JObj? && !Truthy(Lookup(policy.o, "id").GetOr(JNull)))
             || (policy.JObj? && Lookup(policy.o, "id").GetOr(JNull) != JNull
                 && LastModified(policy) == Ok(JStr("")))
    ensures MonitorStore(policy, stamp, fetched) == Ok(Ignore)
  {
  }

  /** For a stamped policy, each copy goes straight to its comparison with
      the stored copy. */
  lemma StampedReachesLookup(policy: Json, stamp: string -> Option<int>, incoming: int, fetched: Fetched)
    requires Stamped(policy, stamp, incoming)
    ensures MonitorStore(policy, stamp, fetched) == MonitorAgainstStored(fetched, stamp, incoming)
    ensures ManagerStore(policy, stamp, fetched) == ManagerAgainstStored(fetched, stamp, incoming)
  {
    MonitorReachesLookup(policy, stamp, incoming, fetched);
    ManagerReachesLookup(policy, stamp, incoming, fetched);
  }

  lemma MonitorReachesLookup(policy: Json, stamp: string -> Option<int>, incoming: int, fetched: Fetched)
    requires Stamped(policy, stamp, incoming)
    ensures MonitorStore(policy, stamp, fetched) == MonitorAgainstStored(fetched, stamp, incoming)
  {
    var id := Lookup(policy.o, "id").GetOr(JNull);
    assert Truthy(policy) by {
      assert id != JNull;
      assert policy.o != [];
    }
    assert Get(policy, "id", JNull) == Ok(id);
    var lm := LastModified(policy).value;
    assert Truthy(lm) && lm != JNull;
    assert StampOf(lm, stamp) == Ok(Some(incoming));
  }

  lemma ManagerReachesLookup(policy: Json, stamp: string -> Option<int>, incoming: int, fetched: Fetched)
    requires Stamped(policy, stamp, incoming)
    ensures ManagerStore(policy, stamp, fetched) == ManagerAgainstStored(fetched, stamp, incoming)
  {
    assert Lookup(policy.o, "id").GetOr(JNull) != JNull;
    var lm := LastModified(policy).value;
    assert lm != JNull;
    assert StampOf(lm, stamp) == Ok(Some(incoming));
  }

  /** With a stored copy stamped `existing`, the monitor leaves it when it is
      at least as recent and overwrites it otherwise. */
  lemma MonitorFreshness(policy: Json, stored: Json, stamp: string -> Option<int>, incoming: int, existing: int)
    requires Stamped(policy, stamp, incoming) && Stamped(stored, stamp, existing)
    ensures MonitorStore(policy, stamp, Answer(200, Some(stored)))
         == Ok(if existing >= incoming then Ignore else Overwrite)
  {
    StampedReachesLookup(policy, stamp, incoming, Answer(200, Some(stored)));
    var lm := LastModified(stored).value;
    assert Truthy(lm);
    assert StampOf(lm, stamp) == Ok(Some(existing));
  }

  /** The manager overwrites exactly when the incoming policy is strictly
      newer: the same decision as the monitor's. */
  lemma ManagerFreshness(policy: Json, stored: Json, stamp: string -> Option<int>, incoming: int, existing: int)
    requires Stamped(policy, stamp, incoming) && Stamped(stored, stamp, existing)
    ensures ManagerStore(policy, stamp, Answer(200, Some(stored)))
         == Ok(if incoming > existing then Overwrite else Ignore)
    ensures ManagerStore(policy, stamp, Answer(200, Some(stored)))
         == MonitorStore(policy, stamp, Answer(200, Some(stored)))
  {
    StampedReachesLookup(policy, stamp, incoming, Answer(200, Some(stored)));
    MonitorFreshness(policy, stored, stamp, incoming, existing);
    var lm := LastModified(stored).value;
    assert Truthy(lm);
    assert StampOf(lm, stamp) == Ok(Some(existing));
  }

  /** A stored copy without `lastModified` is replaced by a plain POST. */
  lemma UnstampedStoredIsPosted(policy: Json, stored: Json, stamp: string -> Option<int>, incoming: int)
    requires Stamped(policy, stamp, incoming)
    requires stored.JObj? && LastModified(stored) == Ok(JNull)
    ensures MonitorStore(policy, stamp, Answer(200, Some(stored))) == Ok(Insert)
    ensures ManagerStore(policy, stamp, Answer(200, Some(stored))) == Ok(Insert)
  {
    StampedReachesLookup(policy, stamp, incoming, Answer(200, Some(stored)));
  }

  /** On a status other than 200 the monitor posts only after a 404, while
      the manager posts whatever the status. */
  lemma StatusRules(policy: Json, stamp: string -> Option<int>, incoming: int, status: int, body: Option<Json>)
    requires Stamped(policy, stamp, incoming)
    requires status != 200
    ensures MonitorStore(policy, stamp, Answer(status, body)) == Ok(if status == 404 then Insert else Ignore)
    ensures ManagerStore(policy, stamp, Answer(status, body)) == Ok(Insert)
  {
    StampedReachesLookup(policy, stamp, incoming, Answer(status, body));
  }

  /** `url.replace("/", "//")`. */
  function AddExtraSlashes(url: string): string
  {
    Replace(url, "/", "//")
  }

  /** `url.replace("//", "/")`. */
  function RemoveExtraSlashes(url: string): string
  {
    Replace(url, "//", "/")
  }

  /** Doubling the slashes works character by character. */
  lemma AddExtraSlashesCons(c: char, rest: string)
    ensures AddExtraSlashes([c] + rest) == (if c == '/' then "//" else [c]) + AddExtraSlashes(rest)
  {
    var s := [c] + rest;
    assert s[1..] == rest;
    assert s[..1] == [c];
  }

  /** Collapsing undoes doubling, for every string. */
  lemma {:induction false} SlashesRoundTrip(url: string)
    ensures RemoveExtraSlashes(AddExtraSlashes(url)) == url
    decreases |url|
  {
    if |url| > 0 {
      var c := url[0];
      var rest := url[1..];
      assert url == [c] + rest;
      AddExtraSlashesCons(c, rest);
      SlashesRoundTrip(rest);
      var d := AddExtraSlashes(rest);
      if c == '/' {
        assert ("//" + d)[..2] == "//";
        assert ("//" + d)[2..] == d;
      } else if |d| == 0 {
        assert [c] + d == [c];
      } else {
        assert ([c] + d)[..2][0] == c;
        assert ([c] + d)[1..] == d;
      }
    }
  }

  /** The doubled text has one more character per slash and the same
      characters otherwise, in order. */
  lemma {:induction false} AddExtraSlashesLength(url: string)
    ensures |AddExtraSlashes(url)| == |url| + |FilterSlashes(url)|
    decreases |url|
  {
    if |url| > 0 {
      assert url == [url[0]] + url[1..];
      AddExtraSlashesCons(url[0], url[1..]);
      AddExtraSlashesLength(url[1..]);
    }
  }

  /** The slashes of a string. */
  function FilterSlashes(s: string): (r: string)
    ensures forall i :: 0 <= i < |r| ==> r[i] == '/'
    decreases |s|
  {
    if |s| == 0 then "" else (if s[0] == '/' then "/" else "") + FilterSlashes(s[1..])
  }

  const PolicyPrefix := "urn:ngsi-ld:ContextPolicy:"
  const FederationPrefix := "urn:ngsi-ld:Federation:"

  /** An NGSI-LD Property. */
  function Property(v: Json): Json
  {
    JObj([("type", JStr("Property")), ("value", v)])
  }

  /** The policy entity of `create_publish_policy`; `now` is the current
      time as `strftime` prints it, and the text fields are already
      strings. */
  function PolicyEntity(policyId: string, name: string, description: string, provider: string,
                        types: Json, rules: Json, modifiedBy: Json, geo: Json,
                        brokerUrl: string, now: string): (r: Json)
    ensures r.JObj? && UniqueKeys(r.o)
  {
    JObj([("id", JStr(PolicyPrefix + policyId)),
          ("type", JStr("ContextPolicy")),
          ("name", Property(JStr(name))),
          ("description", Property(JStr(description))),
          ("providerFederation", JObj([("type", JStr("Relationship")), ("object", JStr(FederationPrefix + provider))])),
          ("permittedContextTypes", Property(types)),
          ("ContextBrokerURL", Property(JStr(AddExtraSlashes(brokerUrl)))),
          ("sharingRules", Property(rules)),
          ("modificationPolicy", Property(JObj([("lastModified", JStr(now)), ("modifiedBy", modifiedBy)]))),
          ("Geographic_Restrictions", Property(geo))])
  }

  /** The topic a policy is published on. */
  function PolicyTopic(federation: string, policy: string): string
  {
    TopicOf(["Federation", federation, "Policy", policy])
  }

  /** `create_publish_policy`: the entity and its retained publication. */
  function CreatePublish(policyId: string, name: string, description: string, provider: string,
                         types: Json, rules: Json, modifiedBy: Json, geo: Json,
                         brokerUrl: string, now: string): (r: (Json, Message))
    ensures r.1.retain && r.1.topic == PolicyTopic(FederationPrefix + provider, PolicyPrefix + policyId)
    ensures r.1.payload == Dumps(r.0)
  {
    var e := PolicyEntity(policyId, name, description, provider, types, rules, modifiedBy, geo, brokerUrl, now);
    (e, Message(PolicyTopic(FederationPrefix + provider, PolicyPrefix + policyId), Dumps(e), true))
  }

  /** `remove_topic_from_broker`: nothing without a policy id, otherwise an
      empty retained publish on the policy's topic. */
  function RemoveTopic(federation: string, policyId: Option<string>): (r: seq<Message>)
    ensures policyId.None? <==> r == []
  {
    if policyId.None? then [] else [Message(PolicyTopic(federation, policyId.value), "", true)]
  }

  /** Withdrawing what `create_publish_policy` published clears its topic
      and no other. */
  lemma RemoveUndoesPublish(store: Store, policyId: string, provider: string, entity: Json, t: string)
    requires t in store ==> t != PolicyTopic(FederationPrefix + provider, PolicyPrefix + policyId)
    ensures var m := Message(PolicyTopic(FederationPrefix + provider, PolicyPrefix + policyId), Dumps(entity), true);
            var after := ApplyAll(Apply(store, m), RemoveTopic(FederationPrefix + provider, Some(PolicyPrefix + policyId)));
            && PolicyTopic(FederationPrefix + provider, PolicyPrefix + policyId) !in after
            && (t in store ==> t in after && after[t] == store[t])
  {
    var topic := PolicyTopic(FederationPrefix + provider, PolicyPrefix + policyId);
    var rm := RemoveTopic(FederationPrefix + provider, Some(PolicyPrefix + policyId));
    assert rm[1..] == [];
  }

  /** The entity created for publication is stored by both copies of
      `store_policy` when the broker does not know it yet, provided its
      timestamp parses. */
  lemma CreatedPolicyIsStored(policyId: string, name: string, description: string, provider: string,
                              types: Json, rules: Json, modifiedBy: Json, geo: Json,
                              brokerUrl: string, now: string, stamp: string -> Option<int>)
    requires |now| > 0 && stamp(now).Some?
    ensures var e := PolicyEntity(policyId, name, description, provider, types, rules, modifiedBy, geo, brokerUrl, now);
            && MonitorStore(e, stamp, Answer(404, None)) == Ok(Insert)
            && ManagerStore(e, stamp, Answer(404, None)) == Ok(Insert)
  {
    var e := PolicyEntity(policyId, name, description, provider, types, rules, modifiedBy, geo, brokerUrl, now);
    LookupFirst(e.o, 0);
    LookupFirst(e.o, 8);
    var inner := JObj([("lastModified", JStr(now)), ("modifiedBy", modifiedBy)]);
    assert Lookup(Property(inner).o, "value") == Some(inner);
    assert Lookup(inner.o, "lastModified") == Some(JStr(now));
    assert LastModified(e) == Ok(JStr(now));
    assert Stamped(e, stamp, stamp(now).value);
    StatusRules(e, stamp, stamp(now).value, 404, None);
  }

  /** The entity's broker address gives the configured one back once its
      slashes are collapsed. */
  lemma CreatedBrokerUrl(policyId: string, name: string, description: string, provider: string,
                         types: Json, rules: Json, modifiedBy: Json, geo: Json,
                         brokerUrl: string, now: string)
    ensures var e := PolicyEntity(policyId, name, description, provider, types, rules, modifiedBy, geo, brokerUrl, now);
            && Lookup(e.o, "ContextBrokerURL") == Some(Property(JStr(AddExtraSlashes(brokerUrl))))
            && RemoveExtraSlashes(AddExtraSlashes(brokerUrl)) == brokerUrl
  {
    var e := PolicyEntity(policyId, name, description, provider, types, rules, modifiedBy, geo, brokerUrl, now);
    LookupFirst(e.o, 6);
    SlashesRoundTrip(brokerUrl);
  }

  // ---------------------------------------------------------------------
  // Forwarding a received policy to the collaborating federations.

  /** The federation, policy id and publisher `forward_policies_to_federations`
      reads from a policy message. */
  datatype Origin = Origin(federation: string, policyId: string, publisher: string)

  /** The `PublisherID` user property: `None` when the message has no user
      properties; a message with user properties but no `PublisherID`
      leaves the variable unbound (`NameError`). */
  function PublisherOf(props: Option<seq<(string, string)>>): (r: Result<Option<string>>)
    ensures props.None? ==> r == Ok(None)
    ensures props.Some? ==> (r.Raise? <==> forall i :: 0 <= i < |props.value| ==> props.value[i].0 != "PublisherID")
    ensures props.Some? && r.Ok? ==> r.value.Some?
    ensures r.Ok? && r.value.Some? ==>
              && props.Some?
              && exists i :: && 0 <= i < |props.value|
                             && props.value[i] == ("PublisherID", r.value.value)
                             && forall j :: 0 <= j < i ==> props.value[j].0 != "PublisherID"
    ensures r.Raise? ==> r.error == NameError && props.Some?
    decreases if props.Some? then |props.value| else 0
  {
    match props
    case None => Ok(None)
    case Some(ps) =>
      if |ps| == 0 then Raise(NameError)
      else if ps[0].0 == "PublisherID" then Ok(Some(ps[0].1))
      else
        var r :- PublisherOf(Some(ps[1..]));
        assert r.Some? ==> exists i :: && 0 <= i < |ps[1..]|
                                       && ps[1..][i] == ("PublisherID", r.value)
                                       && forall j :: 0 <= j < i ==> ps[1..][j].0 != "PublisherID";
        Ok(r)
  }

  /** Segment 1 of the topic, its last segment, and the publisher, which
      defaults to the federation when missing or empty. */
  function OriginOf(topic: string, publisher: Option<string>): (r: Result<Origin>)
    ensures r.Ok? <==> |LevelsOf(topic)| >= 2
    ensures r.Ok? ==> && r.value.federation == LevelsOf(topic)[1]
                      && r.value.policyId == LevelsOf(topic)[|LevelsOf(topic)| - 1]
    ensures r.Ok? && publisher.Some? && publisher.value != "" ==> r.value.publisher == publisher.value
    ensures r.Ok? && (publisher.None? || publisher.value == "") ==> r.value.publisher == r.value.federation
  {
    var l := LevelsOf(topic);
    if |l| < 2 then Raise(IndexError)
    else Ok(Origin(l[1], l[|l| - 1], if publisher.None? || publisher.value == "" then l[1] else publisher.value))
  }

  /** The topic `create_publish_policy` publishes on is read back as the
      provider and the policy it names. */
  lemma OriginOfPublished(provider: string, policyId: string)
    requires '/' !in provider && '/' !in policyId
    ensures OriginOf(PolicyTopic(FederationPrefix + provider, PolicyPrefix + policyId), None)
         == Ok(Origin(FederationPrefix + provider, PolicyPrefix + policyId, FederationPrefix + provider))
  {
    assert '/' !in FederationPrefix && '/' !in PolicyPrefix;
    LevelsOfTopic(["Federation", FederationPrefix + provider, "Policy", PolicyPrefix + policyId]);
  }

  /** A bridge destination. */
  datatype Destination = Destination(host: string, port: int)

  /** `host, port = address.split(":")` and `int(port)`. */
  function Endpoint(address: Json): (r: Result<Destination>)
    ensures r.Ok? ==> && address.JStr? && |Split(address.s, ':')| == 2
                      && Split(address.s, ':')[0] == r.value.host
                      && ParseInt(Split(address.s, ':')[1]) == Ok(r.value.port)
  {
    if !address.JStr? then Raise(AttributeError)
    else
      var parts := Split(address.s, ':');
      if |parts| != 2 then Raise(ValueError)
      else
        var port :- ParseInt(parts[1]);
        Ok(Destination(parts[0], port))
  }

  /** Whether the policy lets the federation `own` forward it to `target`
      and its types mention policies. */
  predicate Admits(policy: Json, own: string, target: string)
  {
    var v := ValidateForwarding(policy, LastField(own, ':'), LastField(target, ':'));
    v.Ok? && v.value.Allow? && MentionsPolicies(v.value.types) == Ok(true)
  }

  /** One collaborator: its address is parsed first, then the policy is
      asked. */
  function Consider(policy: Json, own: string, c: (string, Json)): (r: Result<Option<Destination>>)
    ensures r.Ok? ==> Endpoint(c.1).Ok?
    ensures r.Ok? ==> (r.value.Some? <==> Admits(policy, own, c.0))
    ensures r.Ok? && r.value.Some? ==> r.value.value == Endpoint(c.1).value
  {
    var d :- Endpoint(c.1);
    var v :- ValidateForwarding(policy, LastField(own, ':'), LastField(c.0, ':'));
    var keep :- if v.Allow? then MentionsPolicies(v.types) else Ok(false);
    Ok(if keep then Some(d) else None)
  }

  /** The loop of `forward_policies_to_federations` over the collaborators,
      in dictionary order. */
  function Destinations(policy: Json, own: string, collaborators: seq<(string, Json)>): (r: Result<seq<Destination>>)
    ensures r.Ok? ==> |r.value| <= |collaborators|
    decreases |collaborators|
  {
    if |collaborators| == 0 then Ok([])
    else
      var d :- Consider(policy, own, collaborators[0]);
      var rest :- Destinations(policy, own, collaborators[1..]);
      Ok(if d.Some? then [d.value] + rest else rest)
  }

  /** Every destination is the address of a collaborator the policy admits,
      and every admitted collaborator's address is a destination. */
  lemma {:induction false} DestinationsExact(policy: Json, own: string, collaborators: seq<(string, Json)>)
    requires Destinations(policy, own, collaborators).Ok?
    ensures var ds := Destinations(policy, own, collaborators).value;
            && (forall d :: d in ds ==>
                  exists i :: 0 <= i < |collaborators| && Endpoint(collaborators[i].1) == Ok(d)
                              && Admits(policy, own, collaborators[i].0))
            && (forall i :: 0 <= i < |collaborators| && Admits(policy, own, collaborators[i].0) ==>
                  Endpoint(collaborators[i].1).Ok? && Endpoint(collaborators[i].1).value in ds)
    decreases |collaborators|
  {
    if |collaborators| > 0 {
      var c := collaborators;
      var d := Consider(policy, own, c[0]).value;
      var rest := Destinations(policy, own, c[1..]).value;
      DestinationsExact(policy, own, c[1..]);
      var ds := Destinations(policy, own, c).value;
      assert ds == if d.Some? then [d.value] + rest else rest;
      DestinationsSoundStep(policy, own, c, d, rest);
      DestinationsCompleteStep(policy, own, c, d, rest);
    }
  }

  /** Every destination after one more collaborator is an admitted
      address. */
  lemma DestinationsSoundStep(policy: Json, own: string, c: seq<(string, Json)>, d: Option<Destination>,
                              rest: seq<Destination>)
    requires |c| > 0 && Consider(policy, own, c[0]) == Ok(d)
    requires forall x :: x in rest ==>
               exists j :: 0 <= j < |c[1..]| && Endpoint(c[1..][j].1) == Ok(x) && Admits(policy, own, c[1..][j].0)
    ensures forall x :: x in (if d.Some? then [d.value] + rest else rest) ==>
              exists i :: 0 <= i < |c| && Endpoint(c[i].1) == Ok(x) && Admits(policy, own, c[i].0)
  {
    forall x | x in (if d.Some? then [d.value] + rest else rest)
      ensures exists i :: 0 <= i < |c| && Endpoint(c[i].1) == Ok(x) && Admits(policy, own, c[i].0)
    {
      if x in rest {
        var j :| 0 <= j < |c[1..]| && Endpoint(c[1..][j].1) == Ok(x) && Admits(policy, own, c[1..][j].0);
        assert c[1..][j] == c[j + 1];
      } else {
        assert d.Some? && x == d.value;
        assert Endpoint(c[0].1) == Ok(x) && Admits(policy, own, c[0].0);
      }
    }
  }

  /** Every admitted collaborator's address is a destination after one
      more collaborator. */
  lemma DestinationsCompleteStep(policy: Json, own: string, c: seq<(string, Json)>, d: Option<Destination>,
                                 rest: seq<Destination>)
    requires |c| > 0 && Consider(policy, own, c[0]) == Ok(d)
    requires forall i :: 0 <= i < |c[1..]| && Admits(policy, own, c[1..][i].0) ==>
               Endpoint(c[1..][i].1).Ok? && Endpoint(c[1..][i].1).value in rest
    ensures forall i :: 0 <= i < |c| && Admits(policy, own, c[i].0) ==>
              Endpoint(c[i].1).Ok? && Endpoint(c[i].1).value in (if d.Some? then [d.value] + rest else rest)
  {
    forall i | 0 <= i < |c| && Admits(policy, own, c[i].0)
      ensures Endpoint(c[i].1).Ok? && Endpoint(c[i].1).value in (if d.Some? then [d.value] + rest else rest)
    {
      var all := if d.Some? then [d.value] + rest else rest;
      if i > 0 {
        assert c[1..][i - 1] == c[i];
        assert Endpoint(c[i].1).value in rest;
      } else {
        assert d.Some? && d.value == Endpoint(c[0].1).value;
        assert all[0] == d.value;
      }
    }
  }

  /** Where the collaborators come from: for the federation's own policy,
      the collaborations on that policy; for a relayed one, the
      collaborations of this federation without the relaying federation
      and the publisher. */
  datatype Collaborations = OnOwnPolicy(federation: string, policyId: string)
                          | Relayed(own: string, current: string, publisher: string)

  /** `forward_policies_to_federations`; `lookup` answers the HTTP queries
      (`None` when they fail). */
  function ForwardPolicy(policy: Json, topic: string, publisher: Option<string>, own: string,
                         lookup: Collaborations -> Option<seq<(string, Json)>>): (r: Result<seq<Destination>>)
    ensures r.Ok? ==> |LevelsOf(topic)| >= 2
    ensures r.Ok? && |r.value| > 0 ==>
              var o := OriginOf(topic, publisher).value;
              var asked := if o.federation == own then OnOwnPolicy(o.federation, o.policyId)
                           else Relayed(own, o.federation, o.publisher);
              lookup(asked).Some?
  {
    var o :- OriginOf(topic, publisher);
    var collaborators := if o.federation == own then lookup(OnOwnPolicy(o.federation, o.policyId))
                         else lookup(Relayed(own, o.federation, o.publisher));
    if collaborators.None? || |collaborators.value| == 0 then Ok([])
    else Destinations(policy, own, collaborators.value)
  }

  // ---------------------------------------------------------------------
  // Collaborator maps.

  /** `base.update(more)`. */
  function Update(base: seq<(string, Json)>, more: seq<(string, Json)>): (r: seq<(string, Json)>)
    decreases |more|
  {
    if |more| == 0 then base else Update(Put(base, more[0].0, more[0].1), more[1..])
  }

  /** After the update a key of `more` has its value there, and any other
      key keeps its value in `base`. */
  lemma {:induction false} UpdateLookup(base: seq<(string, Json)>, more: seq<(string, Json)>, k: string)
    requires UniqueKeys(more)
    ensures Lookup(Update(base, more), k) == (if Lookup(more, k).Some? then Lookup(more, k) else Lookup(base, k))
    decreases |more|
  {
    if |more| > 0 {
      var rest := more[1..];
      var put := Put(base, more[0].0, more[0].1);
      UniqueTail(more);
      UpdateLookup(put, rest, k);
      PutLookup(base, more[0].0, more[0].1, k);
    }
  }

  /** The tail of a dictionary has unique keys too. */
  lemma UniqueTail(o: seq<(string, Json)>)
    requires |o| > 0 && UniqueKeys(o)
    ensures UniqueKeys(o[1..])
  {
    forall i, j | 0 <= i < j < |o[1..]|
      ensures o[1..][i].0 != o[1..][j].0
    {
      assert o[1..][i] == o[i + 1] && o[1..][j] == o[j + 1];
    }
  }

  /** The merge at the end of `Policy_Federation_Mapping`: the
      request-side collaborators, when there are any, are laid over the
      response-side ones. */
  function MergeCollaborators(responseSide: seq<(string, Json)>, requestSide: Option<seq<(string, Json)>>): seq<(string, Json)>
  {
    if requestSide.Some? && |requestSide.value| > 0 then Update(responseSide, requestSide.value) else responseSide
  }

  /** The request side wins for a federation found on both sides; the others
      keep whichever side names them. */
  lemma MergeOverrides(responseSide: seq<(string, Json)>, requestSide: Option<seq<(string, Json)>>, k: string)
    requires requestSide.Some? ==> UniqueKeys(requestSide.value)
    ensures var m := MergeCollaborators(responseSide, requestSide);
            Lookup(m, k) == if requestSide.Some? && Lookup(requestSide.value, k).Some? then Lookup(requestSide.value, k)
                            else Lookup(responseSide, k)
  {
    if requestSide.Some? && |requestSide.value| > 0 {
      UpdateLookup(responseSide, requestSide.value, k);
    }
  }

  /** `d.pop(key)` when the key is there. */
  function Without(d: seq<(string, Json)>, key: string): (r: seq<(string, Json)>)
    ensures Lookup(r, key).None?
    ensures forall k :: k != key ==> Lookup(r, k) == Lookup(d, k)
    decreases |d|
  {
    if |d| == 0 then []
    else if d[0].0 == key then Without(d[1..], key)
    else [d[0]] + Without(d[1..], key)
  }

  /** The senders of the collaboration responses addressed to this
      federation, added when both the sender and its address are truthy. */
  function AddSenders(d: seq<(string, Json)>, responses: seq<Json>): (r: Result<seq<(string, Json)>>)
    ensures r.Ok? ==> forall k :: k in Keys(d) ==> k in Keys(r.value)
    decreases |responses|
  {
    if |responses| == 0 then Ok(d)
    else if !responses[0].JObj? then Raise(AttributeError)
    else
      var sender := Lookup(responses[0].o, "sender").GetOr(JNull);
      var address := Lookup(responses[0].o, "senderAddress").GetOr(JNull);
      if Truthy(sender) && Truthy(address) then
        if !sender.JStr? then Raise(TypeError)
        else
          var d' := Put(d, sender.s, address);
          PutLookup(d, sender.s, address, "");
          assert forall k :: k in Keys(d) ==> k in Keys(d') by {
            forall k | k in Keys(d) ensures k in Keys(d') {
              PutLookup(d, sender.s, address, k);
            }
          }
          AddSenders(d', responses[1..])
      else AddSenders(d, responses[1..])
  }

  /** The end of `fetch_response_by_federation`: the receiver-side senders
      are added, then the relaying federation and the publisher removed. */
  function RelayedCollaborators(d: seq<(string, Json)>, additional: Json, current: string, publisher: string): (r: Result<seq<(string, Json)>>)
    ensures r.Ok? ==> Lookup(r.value, current).None? && Lookup(r.value, publisher).None?
  {
    var added :- if !Truthy(additional) then Ok(d)
                 else AddSenders(d, if additional.JArr? then additional.a else [additional]);
    var w := Without(added, current);
    assert Lookup(w, current).None?;
    Ok(Without(w, publisher))
  }

  /** Every other collaborator found by the HTTP queries stays. */
  lemma RelayedKeepsOthers(d: seq<(string, Json)>, additional: Json, current: string, publisher: string, k: string)
    requires RelayedCollaborators(d, additional, current, publisher).Ok?
    requires k in Keys(d) && k != current && k != publisher
    ensures k in Keys(RelayedCollaborators(d, additional, current, publisher).value)
  {
    var added := (if !Truthy(additional) then Ok(d)
                  else AddSenders(d, if additional.JArr? then additional.a else [additional])).value;
    assert k in Keys(added);
    assert Lookup(Without(Without(added, current), publisher), k) == Lookup(added, k);
  }
}
