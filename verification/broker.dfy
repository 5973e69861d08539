/** The MQTT broker as ComDeX uses it: a store of retained messages.

    Section 3.3.1.3 of MQTT 3.1.1: a PUBLISH with the RETAIN flag replaces the
    retained message of its topic, and one with a zero-length payload removes
    it (a zero-length message is never stored). A client that subscribes
    receives the retained messages whose topics its filter matches.

    The scripts listen for a bounded time; what arrives in that time is a
    *window*, a sequence of deliveries. A complete window is one that holds
    every retained message the filter matches, and nothing else.
 */
module Broker {
  import opened Basics
  import opened Text
  import opened Topics

  /** Retained messages by topic. */
  type Store = map<string, string>

  predicate ValidStore(store: Store)
  {
    forall t :: t in store ==> store[t] != ""
  }

  /** A PUBLISH as sent, or as delivered to a subscriber. */
  datatype Message = Message(topic: string, payload: string, retain: bool)

  /** The broker's effect of one PUBLISH on its retained store. */
  function Apply(store: Store, m: Message): (r: Store)
    ensures ValidStore(store) ==> ValidStore(r)
    ensures forall t :: t != m.topic ==> (t in r <==> t in store) && (t in r ==> r[t] == store[t])
  {
    if !m.retain then store
    else if m.payload == "" then store - {m.topic}
    else store[m.topic := m.payload]
  }

  /** Publishing a sequence of messages, in order. */
  function ApplyAll(store: Store, ms: seq<Message>): (r: Store)
    ensures ValidStore(store) ==> ValidStore(r)
    decreases |ms|
  {
    if |ms| == 0 then store else ApplyAll(Apply(store, ms[0]), ms[1..])
  }

  /** A topic no retained publish names keeps its message. */
  lemma {:induction false} ApplyAllUntouched(store: Store, ms: seq<Message>, t: string)
    requires forall i :: 0 <= i < |ms| ==> !(ms[i].retain && ms[i].topic == t)
    ensures t in ApplyAll(store, ms) <==> t in store
    ensures t in store ==> ApplyAll(store, ms)[t] == store[t]
    decreases |ms|
  {
    if |ms| > 0 {
      assert forall i :: 1 <= i < |ms| ==> ms[1..][i - 1] == ms[i];
      ApplyAllUntouched(Apply(store, ms[0]), ms[1..], t);
    }
  }

  /** The last retained publish on a topic decides what is stored there. */
  lemma {:induction false} ApplyAllLastWins(store: Store, ms: seq<Message>, k: nat)
    requires k < |ms| && ms[k].retain
    requires forall j :: k < j < |ms| ==> !(ms[j].retain && ms[j].topic == ms[k].topic)
    ensures ms[k].topic in ApplyAll(store, ms) <==> ms[k].payload != ""
    ensures ms[k].topic in ApplyAll(store, ms) ==> ApplyAll(store, ms)[ms[k].topic] == ms[k].payload
    decreases |ms|
  {
    assert forall i :: 1 <= i < |ms| ==> ms[1..][i - 1] == ms[i];
    if k == 0 {
      ApplyAllUntouched(Apply(store, ms[0]), ms[1..], ms[0].topic);
    } else {
      ApplyAllLastWins(Apply(store, ms[0]), ms[1..], k - 1);
    }
  }

  /** The retained topics a subscription on `filter` receives. */
  function Matching(store: Store, filter: string): set<string>
  {
    set t | t in store && Delivers(filter, t)
  }

  /** A window that received every retained message the filter matches and
      nothing else. */
  predicate CompleteWindow(store: Store, filter: string, window: seq<Message>)
  {
    (forall i :: 0 <= i < |window| ==>
       window[i].retain && window[i].topic in store &&
       store[window[i].topic] == window[i].payload && Delivers(filter, window[i].topic)) &&
    (forall t :: t in store && Delivers(filter, t) ==> exists i :: 0 <= i < |window| && window[i].topic == t)
  }

  /** What `check_existence` reports: whether anything arrived, and the topic
      of the last arrival (the script's global `exists_topic`, which keeps its
      earlier value when nothing arrives). */
  datatype Probe = Probe(found: bool, lastTopic: string)

  function CheckExistence(window: seq<Message>, earlierTopic: string): Probe
  {
    if |window| == 0 then Probe(false, earlierTopic)
    else Probe(true, window[|window| - 1].topic)
  }

  /** On a complete window the probe answers whether the filter matches a
      retained message, and the topic it records is one of them. */
  lemma ProbeAnswersExistence(store: Store, filter: string, window: seq<Message>, earlierTopic: string)
    requires CompleteWindow(store, filter, window)
    ensures CheckExistence(window, earlierTopic).found <==> Matching(store, filter) != {}
    ensures CheckExistence(window, earlierTopic).found ==>
              CheckExistence(window, earlierTopic).lastTopic in Matching(store, filter)
  {
    if |window| > 0 {
      assert window[|window| - 1].topic in Matching(store, filter);
    } else {
      assert Matching(store, filter) == {};
    }
  }

  /** `clear_retained`: every retained delivery is answered with a
      zero-length retained publish on its topic. */
  function ClearPublishes(window: seq<Message>): (r: seq<Message>)
    ensures forall i :: 0 <= i < |r| ==> r[i].retain && r[i].payload == ""
  {
    if |window| == 0 then []
    else
      (if window[0].retain then [Message(window[0].topic, "", true)] else [])
      + ClearPublishes(window[1..])
  }

  /** The topics of the retained deliveries of a window. */
  function RetainedTopics(window: seq<Message>): set<string>
  {
    set i | 0 <= i < |window| && window[i].retain :: window[i].topic
  }

  /** `clear_retained` removes exactly the topics of the retained deliveries
      and leaves every other retained message as it was. */
  lemma {:induction false} ClearingRemovesRetained(store: Store, window: seq<Message>)
    ensures ApplyAll(store, ClearPublishes(window))
         == map t | t in store && t !in RetainedTopics(window) :: store[t]
    decreases |window|
  {
    if |window| > 0 {
      var store1 := if window[0].retain then store - {window[0].topic} else store;
      ClearFirst(store, window);
      ClearingRemovesRetained(store1, window[1..]);
      RetainedTopicsCons(window);
      var r := RetainedTopics(window);
      var r1 := RetainedTopics(window[1..]);
      assert (map t | t in store1 && t !in r1 :: store1[t]) == (map t | t in store && t !in r :: store[t]);
    }
  }

  /** Clearing the first delivery removes its topic when it is retained. */
  lemma ClearFirst(store: Store, window: seq<Message>)
    requires |window| > 0
    ensures ApplyAll(store, ClearPublishes(window))
         == ApplyAll(if window[0].retain then store - {window[0].topic} else store, ClearPublishes(window[1..]))
  {
    var rest := ClearPublishes(window[1..]);
    if window[0].retain {
      var head := [Message(window[0].topic, "", true)];
      assert ClearPublishes(window) == head + rest;
      assert (head + rest)[1..] == rest;
    } else {
      assert ClearPublishes(window) == [] + rest;
      assert [] + rest == rest;
    }
  }

  /** The retained topics of a window: the first delivery's, when it is
      retained, and the rest's. */
  lemma RetainedTopicsCons(window: seq<Message>)
    requires |window| > 0
    ensures RetainedTopics(window)
         == RetainedTopics(window[1..]) + (if window[0].retain then {window[0].topic} else {})
  {
    forall t | t in RetainedTopics(window)
      ensures t in RetainedTopics(window[1..]) + (if window[0].retain then {window[0].topic} else {})
    {
      var i :| 0 <= i < |window| && window[i].retain && window[i].topic == t;
      if i > 0 {
        assert window[1..][i - 1] == window[i];
      }
    }
    forall t | t in RetainedTopics(window[1..])
      ensures t in RetainedTopics(window)
    {
      var i :| 0 <= i < |window[1..]| && window[1..][i].retain && window[1..][i].topic == t;
      assert window[i + 1] == window[1..][i];
    }
  }

  /** After `clear_retained` over a complete window, the filter matches no
      retained message, and every topic it did not match keeps its message. */
  lemma ClearRetainedEmptiesFilter(store: Store, filter: string, window: seq<Message>)
    requires CompleteWindow(store, filter, window)
    ensures Matching(ApplyAll(store, ClearPublishes(window)), filter) == {}
    ensures forall t :: t in store && !Delivers(filter, t) ==>
              t in ApplyAll(store, ClearPublishes(window)) &&
              ApplyAll(store, ClearPublishes(window))[t] == store[t]
  {
    ClearingRemovesRetained(store, window);
    var after := ApplyAll(store, ClearPublishes(window));
    forall t | t in store && Delivers(filter, t)
      ensures t in RetainedTopics(window)
    {
      var i :| 0 <= i < |window| && window[i].topic == t;
    }
    forall t | t in RetainedTopics(window)
      ensures Delivers(filter, t)
    {
      var i :| 0 <= i < |window| && window[i].retain && window[i].topic == t;
    }
    assert forall t :: t in after ==> t in store && t !in RetainedTopics(window);
  }
}
