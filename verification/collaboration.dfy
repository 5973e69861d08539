/** Sending a collaboration request
    (`CCDUIT/Initiate_Collaboration_Service.py`, `send_collaboration_request`
    and `run_destination_client`): the request entity, the topic it is
    published on, and the arguments handed to the policy-topic collector.
    The random request id, the clock and the collected topics are
    parameters; the collector itself is `Forwarding.OnPolicyMessage`.
 */
module Collaboration {
  import opened Basics
  import opened Text
  import opened Json
  import opened Topics
  import opened Broker
  import opened Forwarding
  import opened PolicyStore

  const RequestPrefix := "urn:ngsi-ld:CollaborationRequest:"

  /** The request entity; `address` is `f"{FED_BROKER}:{FED_PORT}"` and
      `topics` the keys of the collector's map, in order. */
  function RequestEntity(uuid: string, federation: string, address: string, receiver: string,
                         details: Json, now: string, policyId: string, topics: seq<string>): (r: Json)
    ensures r.JObj? && UniqueKeys(r.o)
  {
    JObj([("id", JStr(RequestPrefix + uuid)),
          ("type", JStr("CollaborationRequest")),
          ("sender", Property(JStr(federation))),
          ("senderAddress", Property(JStr(address))),
          ("receiver", Property(JStr(FederationPrefix + receiver))),
          ("requestDetails", Property(details)),
          ("timestamp", Property(JStr(now))),
          ("status", Property(JStr("Pending"))),
          ("policyID", Property(JStr(PolicyPrefix + policyId))),
          ("policiesTopics", JObj([("type", JStr("Relationship")), ("object", JArr(Strings(topics)))]))])
  }

  /** Topic names as JSON strings. */
  function Strings(topics: seq<string>): (r: seq<Json>)
    ensures |r| == |topics|
    ensures forall i :: 0 <= i < |topics| ==> r[i] == JStr(topics[i])
  {
    seq(|topics|, i requires 0 <= i < |topics| => JStr(topics[i]))
  }

  /** The topic the request is published on. */
  function RequestTopic(receiver: string, requestId: string): string
  {
    TopicOf([FederationPrefix + receiver, "Collaboration", "requests", requestId])
  }

  /** The filter a federation's monitor subscribes to for requests. */
  function RequestFilter(federation: string): string
  {
    TopicOf([federation, "Collaboration", "requests", "#"])
  }

  /** `send_collaboration_request` and `run_destination_client`: the
      request and its retained publication. */
  function SendRequest(uuid: string, federation: string, address: string, receiver: string,
                       details: Json, now: string, policyId: string, topics: seq<string>): (r: (Json, Message))
    ensures r.1.retain && r.1.payload == Dumps(r.0)
    ensures r.1.topic == RequestTopic(receiver, RequestPrefix + uuid)
  {
    var request := RequestEntity(uuid, federation, address, receiver, details, now, policyId, topics);
    (request, Message(RequestTopic(receiver, Lookup(request.o, "id").value.s), Dumps(request), true))
  }

  /** The request names its id, its receiver and its policy by their URNs,
      is pending, and lists the collected topics. */
  lemma RequestFields(uuid: string, federation: string, address: string, receiver: string,
                      details: Json, now: string, policyId: string, topics: seq<string>)
    ensures var e := RequestEntity(uuid, federation, address, receiver, details, now, policyId, topics).o;
            && Lookup(e, "id") == Some(JStr(RequestPrefix + uuid))
            && Lookup(e, "receiver") == Some(Property(JStr(FederationPrefix + receiver)))
            && Lookup(e, "status") == Some(Property(JStr("Pending")))
            && Lookup(e, "policyID") == Some(Property(JStr(PolicyPrefix + policyId)))
            && Lookup(e, "policiesTopics") == Some(JObj([("type", JStr("Relationship")), ("object", JArr(Strings(topics)))]))
  {
    var e := RequestEntity(uuid, federation, address, receiver, details, now, policyId, topics).o;
    LookupFirst(e, 0);
    LookupFirst(e, 4);
    LookupFirst(e, 7);
    LookupFirst(e, 8);
    LookupFirst(e, 9);
  }

  /** The receiver's request subscription delivers the request, and no
      other federation's does. */
  lemma RequestReachesReceiver(receiver: string, other: string, uuid: string)
    requires '/' !in receiver && '/' !in other && '/' !in uuid
    requires other != receiver
    ensures Delivers(RequestFilter(FederationPrefix + receiver), RequestTopic(receiver, RequestPrefix + uuid))
    ensures !Delivers(RequestFilter(FederationPrefix + other), RequestTopic(receiver, RequestPrefix + uuid))
  {
    assert '/' !in FederationPrefix && '/' !in RequestPrefix;
    var topic := [FederationPrefix + receiver, "Collaboration", "requests", RequestPrefix + uuid];
    LevelsOfTopic(topic);
    LevelsOfTopic([FederationPrefix + receiver, "Collaboration", "requests", "#"]);
    LevelsOfTopic([FederationPrefix + other, "Collaboration", "requests", "#"]);
    assert !StartsWith(TopicOf(topic), "$") by {
      assert TopicOf(topic)[0] == topic[0][0] by {
        JoinHead(topic);
      }
    }
    var f := [FederationPrefix + receiver, "Collaboration", "requests"];
    assert f + ["#"] == [FederationPrefix + receiver, "Collaboration", "requests", "#"];
    MatchHashTail(f, topic);
    assert topic[..3] == f;
    MatchPointwise(f, f);
    assert (FederationPrefix + other)[|FederationPrefix|..] == other;
    assert (FederationPrefix + receiver)[|FederationPrefix|..] == receiver;
  }

  /** A joined topic starts with the first character of its first level. */
  lemma JoinHead(levels: seq<string>)
    requires |levels| > 0 && |levels[0]| > 0
    ensures |TopicOf(levels)| > 0 && TopicOf(levels)[0] == levels[0][0]
  {
    if |levels| > 1 {
      assert TopicOf(levels) == levels[0] + ['/'] + Join(levels[1..], '/');
    }
  }

  /** The text of the request reads back as the request. */
  lemma RequestReadsBack(uuid: string, federation: string, address: string, receiver: string,
                         details: Json, now: string, policyId: string, topics: seq<string>)
    requires JsonText.Printable(RequestEntity(uuid, federation, address, receiver, details, now, policyId, topics))
    ensures var r := SendRequest(uuid, federation, address, receiver, details, now, policyId, topics);
            JsonText.Loads(r.1.payload) == Ok(r.0)
  {
    JsonText.LoadsDumps(RequestEntity(uuid, federation, address, receiver, details, now, policyId, topics));
  }

  // ---------------------------------------------------------------------
  // The arguments of the policy-topic collector.

  /** The new collaborator as written: a plain string whose braces are
      never filled in. */
  const NewcomerAsWritten := "urn:ngsi-ld:Federation:{receiver_Fed_ID}"

  /** The new collaborator as evidently intended. */
  function Newcomer(receiver: string): (r: string)
    ensures StartsWith(r, FederationPrefix) && r[|FederationPrefix|..] == receiver
  {
    assert (FederationPrefix + receiver)[..|FederationPrefix|] == FederationPrefix;
    FederationPrefix + receiver
  }

  /** A policy provided by the receiver itself passes the written
      provider test, so it may be offered back to its own provider. */
  lemma LiteralMissesReceiver(policy: Json, current: string, receiver: string)
    requires policy.JObj?
    requires Lookup(policy.o, "providerFederation") == Some(JObj([("object", JStr(Newcomer(receiver)))]))
    requires Newcomer(receiver) != current
    requires receiver != "{receiver_Fed_ID}"
    ensures ProviderOther(policy, current, NewcomerAsWritten)
  {
    assert NewcomerAsWritten == FederationPrefix + "{receiver_Fed_ID}";
    assert Newcomer(receiver)[|FederationPrefix|..] == receiver;
  }

  /** With the receiver formatted in, its own policies are excluded, and
      the others keep passing the test. */
  lemma FormattedExcludesReceiver(policy: Json, current: string, receiver: string, provider: string)
    requires policy.JObj?
    requires Lookup(policy.o, "providerFederation") == Some(JObj([("object", JStr(provider))]))
    ensures provider == Newcomer(receiver) ==> !ProviderOther(policy, current, Newcomer(receiver))
    ensures provider != Newcomer(receiver) && provider != current ==> ProviderOther(policy, current, Newcomer(receiver))
  {
  }
}
