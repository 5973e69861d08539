/** The text protocol of the SHIELD experiment publishers and subscribers
    (`SHIELD/src/srcEx/pub.py`, `SHIELD/src/srcEx/sub.py`): every message is
    `"{name}/ {kind} / {now}"`; a subscriber splits it on `/`, dispatches on
    the kind and counts, per sender, the messages and their delays in one of
    three tables. The clock, the timestamp parser, the community lookup and
    the MQTT client are parameters or results: a subscription change is
    returned as an action.
 */
module PubSub {
  import opened Basics
  import opened Text

  // ---------------------------------------------------------------------
  // Publishers.

  /** A publisher: its name, its topic and the text of its end message. */
  datatype Pub = Pub(name: string, topic: string, msg: string)

  datatype Publication = Publication(topic: string, payload: string)

  /** The topic every end message goes to. */
  const EndTopic := "endtopic"

  /** One message: the name, the kind and the timestamp, each but the name
      padded by the spaces of the format. */
  function Encode(name: string, kind: string, now: string): string
  {
    name + "/ " + kind + " / " + now
  }

  function Publish(p: Pub, now: string): (r: Publication)
    ensures r.topic == p.topic
  {
    Publication(p.topic, Encode(p.name, "message", now))
  }

  function PublishSecExp(p: Pub, now: string): (r: Publication)
    ensures r.topic == p.topic
  {
    Publication(p.topic, Encode(p.name, "messageEXP", now))
  }

  function PublishSubSec(p: Pub, dst: string, now: string): (r: Publication)
    ensures r.topic == p.topic
  {
    Publication(p.topic, Encode(p.name, "SUBSEC." + dst, now))
  }

  function PublishSecMsg(p: Pub, now: string): (r: Publication)
    ensures r.topic == p.topic
  {
    Publication(p.topic, Encode(p.name, "security", now))
  }

  function PublishSub(p: Pub, dst: string, now: string): (r: Publication)
    ensures r.topic == p.topic
  {
    Publication(p.topic, Encode(p.name, "SUBSCRIBE." + dst, now))
  }

  function PublishUnsub(p: Pub, receiver: string, now: string): (r: Publication)
    ensures r.topic == p.topic
  {
    Publication(p.topic, Encode(p.name, "UNSUB." + receiver, now))
  }

  /** The end message goes to `EndTopic` whatever the publisher's topic. */
  function PublishEnd(p: Pub, now: string): (r: Publication)
    ensures r.topic == EndTopic
  {
    Publication(EndTopic, Encode(p.name, p.msg, now))
  }

  /** Without `/` in its parts, a message splits into exactly the sender,
      the padded kind and the padded timestamp. */
  lemma ThreeFields(name: string, kind: string, now: string)
    requires '/' !in name && '/' !in kind && '/' !in now
    ensures Split(Encode(name, kind, now), '/') == [name, " " + kind + " ", " " + now]
  {
    var mid := " " + kind + " ";
    var last := " " + now;
    assert Encode(name, kind, now) == name + ['/'] + (mid + ['/'] + last);
    SplitCons(name, '/', mid + ['/'] + last);
    SplitCons(mid, '/', last);
    SplitNoSep(last, '/');
  }

  // ---------------------------------------------------------------------
  // Subscribers.

  /** One table pair: the message count and the delays per sender. */
  datatype Counter = Counter(count: map<string, int>, times: map<string, seq<int>>)

  /** A subscriber: its id and its operational, security and SecExp tables. */
  datatype Sub = Sub(id: string, operational: Counter, security: Counter, secExp: Counter)

  const Empty := Counter(map[], map[])

  /** The tables agree: the same senders, each counted as often as it has
      delays, and never the subscriber itself. */
  predicate Consistent(c: Counter, self: string)
  {
    && c.count.Keys == c.times.Keys
    && self !in c.count
    && forall s :: s in c.count ==> c.count[s] == |c.times[s]|
  }

  predicate SubConsistent(s: Sub)
  {
    Consistent(s.operational, s.id) && Consistent(s.security, s.id) && Consistent(s.secExp, s.id)
  }

  /** One of the three updaters: a message from the subscriber itself is
      ignored; otherwise the sender's count goes up by one, starting at 1
      with an empty delay list, and the delay is appended. A sender counted
      without a delay list is a `KeyError`. */
  function Update(c: Counter, self: string, sender: string, delay: int): (r: Result<Counter>)
    ensures r.Ok? && sender == self ==> r.value == c
    ensures r.Ok? && sender != self ==>
              && sender in r.value.count && sender in r.value.times
              && |r.value.times[sender]| > 0 && r.value.times[sender][|r.value.times[sender]| - 1] == delay
    ensures r.Raise? <==> sender != self && sender in c.count && sender !in c.times
  {
    if sender == self then Ok(c)
    else if sender in c.count then
      if sender in c.times then
        Ok(Counter(c.count[sender := c.count[sender] + 1], c.times[sender := c.times[sender] + [delay]]))
      else Raise(KeyError)
    else Ok(Counter(c.count[sender := 1], c.times[sender := [delay]]))
  }

  /** On consistent tables an update never fails, keeps them consistent,
      counts the sender once more and touches no other sender. */
  lemma UpdateKeepsConsistent(c: Counter, self: string, sender: string, delay: int)
    requires Consistent(c, self)
    ensures Update(c, self, sender, delay).Ok?
    ensures Consistent(Update(c, self, sender, delay).value, self)
    ensures sender != self ==>
              Update(c, self, sender, delay).value.count[sender] == (if sender in c.count then c.count[sender] else 0) + 1
    ensures forall o :: o != sender && o in c.count ==>
              o in Update(c, self, sender, delay).value.count &&
              Update(c, self, sender, delay).value.count[o] == c.count[o]
  {
  }

  /** What a subscriber asks its MQTT client to do. */
  datatype Action = Subscribe(topic: string) | Unsubscribe(topic: string)

  /** The branch a kind field selects, in the order of the tests. */
  datatype Route = ToUnsub | ToSubscribe | ToSubSec | ToSecurity | ToMessage | ToSecExp

  function RouteOf(kind: string): (r: Route)
    ensures r == ToMessage ==> Strip(kind) == "message"
    ensures r == ToSecExp ==> Strip(kind) != "message" && !Contains(kind, "security")
  {
    if Contains(kind, "UNSUB") then ToUnsub
    else if Contains(kind, "SUBSCRIBE") then ToSubscribe
    else if Contains(kind, "SUBSEC") then ToSubSec
    else if Contains(kind, "security") then ToSecurity
    else if Strip(kind) == "message" then ToMessage
    else ToSecExp
  }

  /** An addressed command is for this subscriber when the text after its
      last `.` equals the subscriber's id, both stripped. */
  predicate AddressedTo(kind: string, id: string)
  {
    Strip(LastField(kind, '.')) == Strip(id)
  }

  /** The topic `f"{senderCommunity}/{sender}"`; an unknown sender's
      community prints as `None`. */
  function CommunityTopic(community: Option<string>, sender: string): string
  {
    (if community.Some? then community.value else "None") + "/" + sender
  }

  /** `on_message`: the payload must split into three fields, and the
      timestamp must parse (`elapsed` gives the delay in milliseconds, or
      `None` where `strptime` fails); then the kind picks the branch. */
  function OnMessage(s: Sub, payload: string, elapsed: string -> Option<int>,
                     community: string -> Option<string>): (r: Result<(Sub, seq<Action>)>)
    ensures r.Ok? ==> r.value.0.id == s.id
    ensures |Split(payload, '/')| != 3 ==> r == Raise(ValueError)
    ensures r.Ok? ==> |r.value.1| <= 1
  {
    var fields := Split(payload, '/');
    if |fields| != 3 then Raise(ValueError)
    else
      var stamp := elapsed(fields[2]);
      if stamp.None? then Raise(ValueError)
      else Dispatch(s, RouteOf(fields[1]), AddressedTo(fields[1], s.id), fields[0], stamp.value, community)
  }

  /** The branches of `on_message` once the kind is classified: addressed
      commands act only for their addressee, and every counted message goes
      to the table of its branch. */
  function Dispatch(s: Sub, route: Route, addressed: bool, sender: string, d: int,
                    community: string -> Option<string>): (r: Result<(Sub, seq<Action>)>)
    ensures r.Ok? ==> r.value.0.id == s.id && |r.value.1| <= 1
    ensures r.Ok? && route in {ToUnsub, ToSubscribe, ToSubSec} && !addressed ==> r.value == (s, [])
  {
    match route
    case ToUnsub =>
      if addressed then
        var t :- Update(s.security, s.id, sender, d);
        Ok((s.(security := t), [Unsubscribe(CommunityTopic(community(sender), sender))]))
      else Ok((s, []))
    case ToSubscribe =>
      if addressed then
        var t :- Update(s.security, s.id, sender, d);
        Ok((s.(security := t), [Subscribe(CommunityTopic(community(sender), sender))]))
      else Ok((s, []))
    case ToSubSec =>
      if addressed then
        var t :- Update(s.security, s.id, sender, d);
        Ok((s.(security := t), [Subscribe("security/" + sender)]))
      else Ok((s, []))
    case ToSecurity =>
      var t :- Update(s.security, s.id, sender, d);
      Ok((s.(security := t), []))
    case ToMessage =>
      var t :- Update(s.operational, s.id, sender, d);
      Ok((s.(operational := t), []))
    case ToSecExp =>
      var t :- Update(s.secExp, s.id, sender, d);
      Ok((s.(secExp := t), []))
  }

  /** Consistent tables stay consistent, and a message that fails does so
      only on its format, never on the tables. */
  lemma OnMessageKeepsConsistent(s: Sub, payload: string, elapsed: string -> Option<int>,
                                 community: string -> Option<string>)
    requires SubConsistent(s)
    ensures OnMessage(s, payload, elapsed, community).Raise? ==>
              OnMessage(s, payload, elapsed, community).error == ValueError
    ensures OnMessage(s, payload, elapsed, community).Ok? ==>
              SubConsistent(OnMessage(s, payload, elapsed, community).value.0)
  {
    var fields := Split(payload, '/');
    if |fields| == 3 && elapsed(fields[2]).Some? {
      DispatchKeepsConsistent(s, RouteOf(fields[1]), AddressedTo(fields[1], s.id), fields[0],
                              elapsed(fields[2]).value, community);
    }
  }

  /** Every branch succeeds on consistent tables and keeps them consistent. */
  lemma DispatchKeepsConsistent(s: Sub, route: Route, addressed: bool, sender: string, d: int,
                                community: string -> Option<string>)
    requires SubConsistent(s)
    ensures Dispatch(s, route, addressed, sender, d, community).Ok?
    ensures SubConsistent(Dispatch(s, route, addressed, sender, d, community).value.0)
  {
    UpdateKeepsConsistent(s.security, s.id, sender, d);
    UpdateKeepsConsistent(s.operational, s.id, sender, d);
    UpdateKeepsConsistent(s.secExp, s.id, sender, d);
  }

  /** A subscriber never counts its own messages. */
  lemma OwnMessageNotCounted(s: Sub, payload: string, elapsed: string -> Option<int>,
                             community: string -> Option<string>)
    requires |Split(payload, '/')| == 3 && Split(payload, '/')[0] == s.id
    ensures OnMessage(s, payload, elapsed, community).Ok? ==> OnMessage(s, payload, elapsed, community).value.0 == s
  {
  }

  /** A command addressed to another subscriber changes nothing. */
  lemma OtherAddresseeIgnored(s: Sub, payload: string, elapsed: string -> Option<int>,
                              community: string -> Option<string>)
    requires |Split(payload, '/')| == 3
    requires RouteOf(Split(payload, '/')[1]) in {ToUnsub, ToSubscribe, ToSubSec}
    requires !AddressedTo(Split(payload, '/')[1], s.id)
    ensures OnMessage(s, payload, elapsed, community).Ok? ==> OnMessage(s, payload, elapsed, community).value == (s, [])
  {
  }

  // ---------------------------------------------------------------------
  // Each encoder reaches its branch.

  /** A name fit to address: no capital letter, no `.` and no `/`. */
  predicate Plain(name: string)
  {
    forall i :: 0 <= i < |name| ==> !('A' <= name[i] <= 'Z') && name[i] != '.' && name[i] != '/'
  }

  /** A string that holds none of the characters of `sub` at `c` does not
      contain `sub`. */
  lemma Lacks(s: string, sub: string, c: char)
    requires c in sub && c !in s
    ensures !Contains(s, sub)
  {
    if Contains(s, sub) {
      ContainsChars(s, sub, c);
    }
  }

  /** `sub` right after the leading space. */
  lemma AfterSpace(rest: string, sub: string)
    requires StartsWith(rest, sub)
    ensures Contains(" " + rest, sub)
  {
    assert (" " + rest)[1..] == rest;
    assert Contains(rest, sub);
  }

  /** The padded kind of an addressed command: the addressee follows the
      last `.`. */
  lemma AddresseeOf(command: string, dst: string, id: string)
    requires |command| > 0 && command[|command| - 1] == '.' && '.' !in command[..|command| - 1]
    requires Plain(dst)
    ensures AddressedTo(" " + (command + dst) + " ", id) <==> Strip(dst) == Strip(id)
  {
    var word := command[..|command| - 1];
    assert '.' !in dst + " ";
    assert " " + (command + dst) + " " == (" " + word) + ['.'] + (dst + " ");
    SplitCons(" " + word, '.', dst + " ");
    SplitNoSep(dst + " ", '.');
    StripTrailingSpace(dst);
  }

  lemma RoutesUnsub(dst: string)
    requires Plain(dst)
    ensures RouteOf(" " + ("UNSUB." + dst) + " ") == ToUnsub
  {
    var rest := "UNSUB." + dst + " ";
    assert " " + ("UNSUB." + dst) + " " == " " + rest;
    assert rest[..5] == "UNSUB";
    AfterSpace(rest, "UNSUB");
  }

  lemma RoutesSubscribe(dst: string)
    requires Plain(dst)
    ensures RouteOf(" " + ("SUBSCRIBE." + dst) + " ") == ToSubscribe
  {
    var rest := "SUBSCRIBE." + dst + " ";
    assert " " + ("SUBSCRIBE." + dst) + " " == " " + rest;
    Lacks(" " + rest, "UNSUB", 'N');
    assert rest[..9] == "SUBSCRIBE";
    AfterSpace(rest, "SUBSCRIBE");
  }

  lemma RoutesSubSec(dst: string)
    requires Plain(dst)
    ensures RouteOf(" " + ("SUBSEC." + dst) + " ") == ToSubSec
  {
    var rest := "SUBSEC." + dst + " ";
    assert " " + ("SUBSEC." + dst) + " " == " " + rest;
    Lacks(" " + rest, "UNSUB", 'N');
    Lacks(" " + rest, "SUBSCRIBE", 'R');
    assert rest[..6] == "SUBSEC";
    AfterSpace(rest, "SUBSEC");
  }

  /** A word padded by one space on each side strips back to the word. */
  lemma StripPadded(w: string)
    requires |w| > 0 && !IsSpace(w[0]) && !IsSpace(w[|w| - 1])
    ensures Strip(" " + w + " ") == w
  {
    assert (" " + w + " ")[1..] == w + " ";
    StripTrailingSpace(w);
  }

  /** A kind without the capitals N, R and S is no addressed command. */
  lemma NotACommand(k: string)
    requires 'N' !in k && 'R' !in k && 'S' !in k
    ensures !Contains(k, "UNSUB") && !Contains(k, "SUBSCRIBE") && !Contains(k, "SUBSEC")
  {
    Lacks(k, "UNSUB", 'N');
    Lacks(k, "SUBSCRIBE", 'R');
    Lacks(k, "SUBSEC", 'S');
  }

  /** A padded word without the capitals N, R and S goes to the security
      table when it starts with `security`, and otherwise, when it holds no
      `y`, to the operational table exactly when it is `message`. */
  lemma RoutesWord(w: string)
    requires |w| > 0 && !IsSpace(w[0]) && !IsSpace(w[|w| - 1])
    requires 'N' !in w && 'R' !in w && 'S' !in w
    ensures StartsWith(w, "security") ==> RouteOf(" " + w + " ") == ToSecurity
    ensures 'y' !in w ==> RouteOf(" " + w + " ") == (if w == "message" then ToMessage else ToSecExp)
  {
    var k := " " + w + " ";
    NotACommand(k);
    StripPadded(w);
    if StartsWith(w, "security") {
      assert k == " " + (w + " ");
      assert StartsWith(w + " ", "security");
      AfterSpace(w + " ", "security");
    }
    if 'y' !in w {
      Lacks(k, "security", 'y');
    }
  }

  /** The delivery of a well-formed message: its parts carry no `/` and
      its timestamp parses. */
  predicate Deliverable(name: string, now: string, elapsed: string -> Option<int>)
  {
    '/' !in name && '/' !in now && elapsed(" " + now).Some?
  }

  /** An addressed command stays within one field. */
  lemma CommandNoSlash(command: string, dst: string)
    requires '/' !in command && Plain(dst)
    ensures '/' !in command + dst
  {
  }

  /** A message with the three fields is dispatched on its kind. */
  lemma Delivered(s: Sub, name: string, kind: string, now: string, elapsed: string -> Option<int>,
                  community: string -> Option<string>)
    requires Deliverable(name, now, elapsed) && '/' !in kind
    ensures OnMessage(s, Encode(name, kind, now), elapsed, community)
            == Dispatch(s, RouteOf(" " + kind + " "), AddressedTo(" " + kind + " ", s.id), name,
                        elapsed(" " + now).value, community)
  {
    ThreeFields(name, kind, now);
  }

  /** `publish` is counted in the operational table. */
  lemma MessageCounted(s: Sub, p: Pub, now: string, elapsed: string -> Option<int>,
                       community: string -> Option<string>)
    requires Deliverable(p.name, now, elapsed) && SubConsistent(s)
    ensures OnMessage(s, Publish(p, now).payload, elapsed, community)
            == Ok((s.(operational := Update(s.operational, s.id, p.name, elapsed(" " + now).value).value), []))
  {
    Delivered(s, p.name, "message", now, elapsed, community);
    RoutesWord("message");
    UpdateKeepsConsistent(s.operational, s.id, p.name, elapsed(" " + now).value);
  }

  /** `publishSecExp` is counted in the SecExp table. */
  lemma SecExpCounted(s: Sub, p: Pub, now: string, elapsed: string -> Option<int>,
                      community: string -> Option<string>)
    requires Deliverable(p.name, now, elapsed) && SubConsistent(s)
    ensures OnMessage(s, PublishSecExp(p, now).payload, elapsed, community)
            == Ok((s.(secExp := Update(s.secExp, s.id, p.name, elapsed(" " + now).value).value), []))
  {
    Delivered(s, p.name, "messageEXP", now, elapsed, community);
    RoutesWord("messageEXP");
    UpdateKeepsConsistent(s.secExp, s.id, p.name, elapsed(" " + now).value);
  }

  /** `publishSecMsg` is counted in the security table. */
  lemma SecMsgCounted(s: Sub, p: Pub, now: string, elapsed: string -> Option<int>,
                      community: string -> Option<string>)
    requires Deliverable(p.name, now, elapsed) && SubConsistent(s)
    ensures OnMessage(s, PublishSecMsg(p, now).payload, elapsed, community)
            == Ok((s.(security := Update(s.security, s.id, p.name, elapsed(" " + now).value).value), []))
  {
    Delivered(s, p.name, "security", now, elapsed, community);
    RoutesWord("security");
    UpdateKeepsConsistent(s.security, s.id, p.name, elapsed(" " + now).value);
  }

  /** `publishSubSec` makes its addressee, and only it, subscribe to the
      publisher's security topic and count the command. */
  lemma SubSecReachesAddressee(s: Sub, p: Pub, dst: string, now: string, elapsed: string -> Option<int>,
                               community: string -> Option<string>)
    requires Deliverable(p.name, now, elapsed) && Plain(dst) && SubConsistent(s)
    ensures var r := OnMessage(s, PublishSubSec(p, dst, now).payload, elapsed, community);
            && r.Ok?
            && (Strip(dst) == Strip(s.id) ==>
                  r.value == (s.(security := Update(s.security, s.id, p.name, elapsed(" " + now).value).value),
                              [Subscribe("security/" + p.name)]))
            && (Strip(dst) != Strip(s.id) ==> r.value == (s, []))
  {
    CommandNoSlash("SUBSEC.", dst);
    Delivered(s, p.name, "SUBSEC." + dst, now, elapsed, community);
    RoutesSubSec(dst);
    AddresseeOf("SUBSEC.", dst, s.id);
    UpdateKeepsConsistent(s.security, s.id, p.name, elapsed(" " + now).value);
  }

  /** `publishSub` makes its addressee, and only it, subscribe to the
      publisher's community topic and count the command. */
  lemma SubscribeReachesAddressee(s: Sub, p: Pub, dst: string, now: string, elapsed: string -> Option<int>,
                                  community: string -> Option<string>)
    requires Deliverable(p.name, now, elapsed) && Plain(dst) && SubConsistent(s)
    ensures var r := OnMessage(s, PublishSub(p, dst, now).payload, elapsed, community);
            && r.Ok?
            && (Strip(dst) == Strip(s.id) ==>
                  r.value == (s.(security := Update(s.security, s.id, p.name, elapsed(" " + now).value).value),
                              [Subscribe(CommunityTopic(community(p.name), p.name))]))
            && (Strip(dst) != Strip(s.id) ==> r.value == (s, []))
  {
    CommandNoSlash("SUBSCRIBE.", dst);
    Delivered(s, p.name, "SUBSCRIBE." + dst, now, elapsed, community);
    RoutesSubscribe(dst);
    AddresseeOf("SUBSCRIBE.", dst, s.id);
    UpdateKeepsConsistent(s.security, s.id, p.name, elapsed(" " + now).value);
  }

  /** `publishUnsub` makes its addressee, and only it, unsubscribe from the
      publisher's community topic and count the command. */
  lemma UnsubReachesAddressee(s: Sub, p: Pub, receiver: string, now: string, elapsed: string -> Option<int>,
                              community: string -> Option<string>)
    requires Deliverable(p.name, now, elapsed) && Plain(receiver) && SubConsistent(s)
    ensures var r := OnMessage(s, PublishUnsub(p, receiver, now).payload, elapsed, community);
            && r.Ok?
            && (Strip(receiver) == Strip(s.id) ==>
                  r.value == (s.(security := Update(s.security, s.id, p.name, elapsed(" " + now).value).value),
                              [Unsubscribe(CommunityTopic(community(p.name), p.name))]))
            && (Strip(receiver) != Strip(s.id) ==> r.value == (s, []))
  {
    CommandNoSlash("UNSUB.", receiver);
    Delivered(s, p.name, "UNSUB." + receiver, now, elapsed, community);
    RoutesUnsub(receiver);
    AddresseeOf("UNSUB.", receiver, s.id);
    UpdateKeepsConsistent(s.security, s.id, p.name, elapsed(" " + now).value);
  }
}
