/** Interaction handling between communities
    (`CCDUIT/Interaction_Handling_Service.py`): whether a policy lets an
    interaction run, whether a federation may receive, the pause/resume
    switch of a running interaction, and the addressing of interactions by
    id. The policy the broker returns is a parameter.
 */
module Interaction {
  import opened Basics
  import opened Text
  import opened Json
  import opened Forwarding

  /** `x == True or x.lower() == "true"`: a value equal to `True` (also the
      integer 1) accepts; any other non-string has no `lower()`. */
  function ReceiveFlag(flag: Json): (r: Result<bool>)
    ensures r.Ok? <==> PyEq(flag, JBool(true)) || flag.JStr?
    ensures r == Ok(true) <==> PyEq(flag, JBool(true)) || (flag.JStr? && Lower(flag.s) == "true")
  {
    if PyEq(flag, JBool(true)) then Ok(true)
    else if flag.JStr? then Ok(Lower(flag.s) == "true")
    else Raise(AttributeError)
  }

  /** `rule[key]["canReceive"]` read as above. */
  function ReceiveOf(rule: Json, key: string): (r: Result<bool>)
    ensures r.Ok? ==> rule.JObj? && key in Keys(rule.o)
    ensures !rule.JObj? ==> r == Raise(TypeError)
    ensures rule.JObj? && key !in Keys(rule.o) ==> r == Raise(KeyError)
    ensures r.Ok? ==> var perms := Lookup(rule.o, key).value;
                      perms.JObj? && Lookup(perms.o, "canReceive").Some?
                      && r == ReceiveFlag(Lookup(perms.o, "canReceive").value)
  {
    var perms :- Index(rule, key);
    var flag :- Index(perms, "canReceive");
    ReceiveFlag(flag)
  }

  /** One rule of `validate_Interaction`: the destination's entry, then the
      `public` entry, are both asked. */
  function RuleAllows(rule: Json, destination: string): (r: Result<bool>)
    ensures !rule.JObj? && !rule.JArr? && !rule.JStr? ==> r == Raise(TypeError)
    ensures rule.JObj? && destination !in Keys(rule.o) && "public" !in Keys(rule.o) ==> r == Ok(false)
    ensures rule.JObj? ==>
              (r == Ok(true) <==> && (destination in Keys(rule.o) ==> ReceiveOf(rule, destination).Ok?)
                                  && ("public" in Keys(rule.o) ==> ReceiveOf(rule, "public").Ok?)
                                  && (ReceiveOf(rule, destination) == Ok(true) || ReceiveOf(rule, "public") == Ok(true)))
    ensures rule.JObj? && "public" in Keys(rule.o) && ReceiveOf(rule, "public").Raise? ==> r.Raise?
  {
    var hasDestination :- PyIn(JStr(destination), rule);
    var viaDestination :- if hasDestination then ReceiveOf(rule, destination) else Ok(false);
    var hasPublic :- PyIn(JStr("public"), rule);
    var viaPublic :- if hasPublic then ReceiveOf(rule, "public") else Ok(false);
    Ok(viaDestination || viaPublic)
  }

  /** What `validate_Recieving` asks of the same flag,
      `x == True or str(x).lower() == "true"`, which never raises and reads
      `False` as not receiving. */
  function ReceiveFlagFixed(flag: Json): (r: Result<bool>)
    ensures r.Ok?
    ensures r.value <==> flag == JBool(true) || flag == JInt(1) || (flag.JStr? && Lower(flag.s) == "true")
  {
    TrueTextExactly(flag);
    Ok(PyEq(flag, JBool(true)) || IsTrueText(flag))
  }

  /** `canReceive: False` in a rule naming this federation makes
      `validate_Interaction` raise instead of refusing. */
  lemma FalseFlagRaises(entity: Json, own: string)
    requires entity == JObj([("connectionType", JObj([("value", JStr("community"))]))])
    requires LastField(own, ':') == "Fed2"
    ensures ReceiveFlag(JBool(false)) == Raise(AttributeError)
    ensures var rule := JObj([("Fed2", JObj([("canReceive", JBool(false))]))]);
            var policy := JObj([("permittedContextTypes", JObj([("value", JArr([JStr("community")]))])),
                                ("sharingRules", JObj([("value", JArr([rule]))]))]);
            ValidateInteraction(entity, Some(policy), own) == Raise(AttributeError)
  {
    var rule := JObj([("Fed2", JObj([("canReceive", JBool(false))]))]);
    assert NumOf(JBool(false)) == 0 && NumOf(JBool(true)) == 1;
    assert Keys(rule.o) == ["Fed2"];
    assert PyIn(JStr("Fed2"), rule) == Ok(true);
    assert ReceiveOf(rule, "Fed2") == Raise(AttributeError);
    assert RuleAllows(rule, "Fed2") == Raise(AttributeError);
    assert ShareLoop([rule], "Fed2") == Raise(AttributeError);
    var policy := [("permittedContextTypes", JObj([("value", JArr([JStr("community")]))])),
                   ("sharingRules", JObj([("value", JArr([rule]))]))];
    assert Lookup(policy, "permittedContextTypes") == Some(JObj([("value", JArr([JStr("community")]))]));
    assert PyEq(JStr("community"), JArr([JStr("community")]).a[0]);
    assert Admitted(entity, policy) == Ok(true);
    assert Lookup(policy, "sharingRules") == Some(JObj([("value", JArr([rule]))]));
    assert SharingRules(policy) == Ok([rule]);
  }

  /** The corrected reading agrees with the written one wherever the
      written one answers, and answers everywhere else too. */
  lemma FixedFlagAgrees(flag: Json)
    ensures ReceiveFlagFixed(flag).Ok?
    ensures ReceiveFlag(flag).Ok? ==> ReceiveFlagFixed(flag) == ReceiveFlag(flag)
    ensures ReceiveFlagFixed(JBool(false)) == Ok(false)
  {
    TrueTextExactly(flag);
    if flag.JBool? || flag.JInt? {
      assert NumOf(JBool(true)) == 1;
    }
  }

  /** The rule loop, which stops at the first rule that allows. */
  function ShareLoop(rules: seq<Json>, destination: string): (r: Result<bool>)
    ensures r == Ok(true) <==> exists i :: 0 <= i < |rules| && RuleAllows(rules[i], destination) == Ok(true)
                                         && forall j :: 0 <= j < i ==> RuleAllows(rules[j], destination) == Ok(false)
    ensures r == Ok(false) <==> forall i :: 0 <= i < |rules| ==> RuleAllows(rules[i], destination) == Ok(false)
    decreases |rules|
  {
    if |rules| == 0 then Ok(false)
    else
      var allows :- RuleAllows(rules[0], destination);
      if allows then Ok(true) else ShareLoop(rules[1..], destination)
  }

  /** The three outcomes of `validate_Interaction`: `False`, `(True, policy)`,
      and `None` when the function falls off its end. */
  datatype Check = Refused | Permitted(policy: Json) | NoVerdict

  /** `fetch_policy_by_provider_federation`: the first policy of a list
      answer; `None` when the request fails. */
  function PolicyOfAnswer(answer: Option<Json>): (r: Result<Json>)
    ensures answer.None? ==> r == Ok(JNull)
    ensures r.Raise? ==> r.error == IndexError
  {
    if answer.None? then Ok(JNull)
    else if answer.value.JArr? then
      if |answer.value.a| == 0 then Raise(IndexError) else Ok(answer.value.a[0])
    else Ok(answer.value)
  }

  /** Whether the entity's `connectionType` is among the policy's
      permitted context types. */
  function Admitted(entity: Json, policy: seq<(string, Json)>): (r: Result<bool>)
    ensures r.Ok? ==> entity.JObj? && Lookup(entity.o, "connectionType").Some?
  {
    var types :- Get(Lookup(policy, "permittedContextTypes").GetOr(JObj([])), "value", JArr([]));
    var connection :- Index(entity, "connectionType");
    var kind :- Index(connection, "value");
    PyIn(kind, types)
  }

  /** `policy["sharingRules"]["value"]`, a single rule made a list. */
  function SharingRules(policy: seq<(string, Json)>): (r: Result<seq<Json>>)
    ensures r.Ok? ==> Lookup(policy, "sharingRules").Some?
  {
    var sr :- Index(JObj(policy), "sharingRules");
    var rules :- Index(sr, "value");
    Ok(if rules.JArr? then rules.a else [rules])
  }

  /** `validate_Interaction(entity, federation)` for this federation `own`. */
  function ValidateInteraction(entity: Json, answer: Option<Json>, own: string): (r: Result<Check>)
    ensures answer.None? ==> r == Ok(Refused)
    ensures r.Ok? && r.value.Permitted? ==> PolicyOfAnswer(answer) == Ok(r.value.policy) && r.value.policy.JObj?
  {
    var policy :- PolicyOfAnswer(answer);
    if !Truthy(policy) then Ok(Refused)
    else if !policy.JObj? then Raise(AttributeError)
    else
      var permitted :- Admitted(entity, policy.o);
      if !permitted then Ok(Refused)
      else
        var rules :- SharingRules(policy.o);
        var allowed :- ShareLoop(rules, LastField(own, ':'));
        if allowed then Ok(Permitted(policy)) else Ok(NoVerdict)
  }

  /** A permission entry whose `canReceive` is `True` or a string. */
  predicate FlagShaped(rule: seq<(string, Json)>, key: string)
  {
    var perms := Lookup(rule, key);
    perms.Some? ==> && perms.value.JObj?
                    && Lookup(perms.value.o, "canReceive").Some?
                    && (Lookup(perms.value.o, "canReceive").value == JBool(true) || Lookup(perms.value.o, "canReceive").value.JStr?)
  }

  /** Whether a permission entry lets its federation receive. */
  predicate Receives(rule: seq<(string, Json)>, key: string)
  {
    var perms := Lookup(rule, key);
    && perms.Some? && perms.value.JObj?
    && var flag := Lookup(perms.value.o, "canReceive");
       flag.Some? && (flag.value == JBool(true) || (flag.value.JStr? && Lower(flag.value.s) == "true"))
  }

  /** A rule grants when the destination's entry or the `public` entry
      lets it receive. */
  predicate Grants(rule: Json, destination: string)
  {
    rule.JObj? && (Receives(rule.o, destination) || Receives(rule.o, "public"))
  }

  /** A well-shaped entry is read without error, by `Receives`. */
  lemma ReceiveOfShaped(rule: Json, key: string)
    requires rule.JObj? && FlagShaped(rule.o, key) && Lookup(rule.o, key).Some?
    ensures ReceiveOf(rule, key) == Ok(Receives(rule.o, key))
  {
    var perms := Lookup(rule.o, key).value;
    assert Index(rule, key) == Ok(perms);
    var flag := Lookup(perms.o, "canReceive").value;
    assert Index(perms, "canReceive") == Ok(flag);
    assert ReceiveOf(rule, key) == ReceiveFlag(flag);
    if flag.JBool? {
      assert ReceiveFlag(flag) == Ok(true);
    } else {
      assert ReceiveFlag(flag) == Ok(Lower(flag.s) == "true");
    }
  }

  /** A well-shaped rule is answered without error, by `Grants`. */
  lemma RuleAllowsShaped(rule: Json, destination: string)
    requires rule.JObj? && FlagShaped(rule.o, destination) && FlagShaped(rule.o, "public")
    ensures RuleAllows(rule, destination) == Ok(Grants(rule, destination))
  {
    if Lookup(rule.o, destination).Some? {
      ReceiveOfShaped(rule, destination);
    }
    if Lookup(rule.o, "public").Some? {
      ReceiveOfShaped(rule, "public");
    }
  }

  /** Over well-shaped rules the loop allows exactly when some rule
      grants. */
  lemma {:induction false} ShareLoopGrants(rules: seq<Json>, destination: string)
    requires forall i :: 0 <= i < |rules| ==>
               rules[i].JObj? && FlagShaped(rules[i].o, destination) && FlagShaped(rules[i].o, "public")
    ensures ShareLoop(rules, destination) == Ok(exists i :: 0 <= i < |rules| && Grants(rules[i], destination))
    decreases |rules|
  {
    if |rules| > 0 {
      RuleAllowsShaped(rules[0], destination);
      ShareLoopGrants(rules[1..], destination);
      assert forall i :: 1 <= i < |rules| ==> rules[1..][i - 1] == rules[i];
      if !Grants(rules[0], destination) {
        if exists i :: 0 <= i < |rules| && Grants(rules[i], destination) {
          var i :| 0 <= i < |rules| && Grants(rules[i], destination);
          assert i > 0 && Grants(rules[1..][i - 1], destination);
        }
      }
    }
  }

  /** `validate_Interaction` on a found policy whose connection type is
      permitted: `(True, policy)` when some rule grants the destination or
      the public, and `None` otherwise. */
  lemma InteractionDecision(entity: Json, policy: seq<(string, Json)>, own: string)
    requires |policy| > 0
    requires Admitted(entity, policy) == Ok(true)
    requires SharingRules(policy).Ok?
    requires var rules := SharingRules(policy).value;
             forall i :: 0 <= i < |rules| ==>
               rules[i].JObj? && FlagShaped(rules[i].o, LastField(own, ':')) && FlagShaped(rules[i].o, "public")
    ensures var rules := SharingRules(policy).value;
            ValidateInteraction(entity, Some(JObj(policy)), own)
              == Ok(if exists i :: 0 <= i < |rules| && Grants(rules[i], LastField(own, ':')) then Permitted(JObj(policy))
                    else NoVerdict)
  {
    var rules := SharingRules(policy).value;
    ShareLoopGrants(rules, LastField(own, ':'));
    var j := JObj(policy);
    assert PolicyOfAnswer(Some(j)) == Ok(j);
    assert Truthy(j);
  }

  /** A connection type the policy does not permit is refused, and so is
      a missing policy. */
  lemma InteractionTypeRefused(entity: Json, policy: seq<(string, Json)>, own: string)
    requires |policy| > 0
    requires Admitted(entity, policy) == Ok(false)
    ensures ValidateInteraction(entity, Some(JObj(policy)), own) == Ok(Refused)
    ensures ValidateInteraction(entity, Some(JNull), own) == Ok(Refused)
  {
  }

  // ---------------------------------------------------------------------
  // validate_Recieving

  /** The flags the loop of `validate_Recieving` keeps: whether the
      federation can receive and whether it was found. */
  datatype Found = Found(canReceive: bool, exists_: bool)

  /** One permission entry for the federation, read as
      `ReceiveFlagFixed` reads it. */
  function ReceiveEntry(perms: Json): (r: Result<bool>)
    ensures r.Ok? <==> perms.JObj? && Lookup(perms.o, "canReceive").Some?
    ensures r.Ok? ==> r == ReceiveFlagFixed(Lookup(perms.o, "canReceive").value)
  {
    var flag :- Index(perms, "canReceive");
    ReceiveFlagFixed(flag)
  }

  function ReceiveItems(f: Found, items: seq<(string, Json)>, federation: string): (r: Result<Found>)
    ensures r.Ok? && f.canReceive == f.exists_ ==> r.value.canReceive == r.value.exists_
    ensures r.Ok? ==> (r.value.canReceive <==>
                         (f.canReceive || exists j :: 0 <= j < |items| && items[j].0 == federation && ReceiveEntry(items[j].1) == Ok(true)))
    decreases |items|
  {
    if |items| == 0 then Ok(f)
    else
      var f' :- if items[0].0 == federation then
                  var yes :- ReceiveEntry(items[0].1);
                  Ok(if yes then Found(true, true) else f)
                else Ok(f);
      var r :- ReceiveItems(f', items[1..], federation);
      ReceivingCons(items, federation);
      Ok(r)
  }

  /** Some entry for the federation reads true exactly when the first one
      does or one of the rest does. */
  lemma ReceivingCons(items: seq<(string, Json)>, federation: string)
    requires |items| > 0
    ensures (exists j :: 0 <= j < |items| && items[j].0 == federation && ReceiveEntry(items[j].1) == Ok(true))
        <==> (items[0].0 == federation && ReceiveEntry(items[0].1) == Ok(true))
             || exists j :: 0 <= j < |items[1..]| && items[1..][j].0 == federation && ReceiveEntry(items[1..][j].1) == Ok(true)
  {
    var rest := items[1..];
    if exists j :: 0 <= j < |rest| && rest[j].0 == federation && ReceiveEntry(rest[j].1) == Ok(true) {
      var j :| 0 <= j < |rest| && rest[j].0 == federation && ReceiveEntry(rest[j].1) == Ok(true);
      assert items[j + 1] == rest[j];
    }
    if exists j :: 0 <= j < |items| && items[j].0 == federation && ReceiveEntry(items[j].1) == Ok(true) {
      var j :| 0 <= j < |items| && items[j].0 == federation && ReceiveEntry(items[j].1) == Ok(true);
      if j > 0 {
        assert rest[j - 1] == items[j];
      }
    }
  }

  function ReceiveRules(f: Found, rules: seq<Json>, federation: string): (r: Result<Found>)
    ensures r.Ok? && f.canReceive == f.exists_ ==> r.value.canReceive == r.value.exists_
    ensures r.Ok? ==> forall i :: 0 <= i < |rules| ==> rules[i].JObj?
    ensures r.Ok? ==> (r.value.canReceive <==>
                         (f.canReceive || exists i, j :: 0 <= i < |rules| && rules[i].JObj? && 0 <= j < |rules[i].o|
                                           && rules[i].o[j].0 == federation && ReceiveEntry(rules[i].o[j].1) == Ok(true)))
    decreases |rules|
  {
    if |rules| == 0 then Ok(f)
    else if !rules[0].JObj? then Raise(AttributeError)
    else
      var f' :- ReceiveItems(f, rules[0].o, federation);
      var r :- ReceiveRules(f', rules[1..], federation);
      assert forall i :: 1 <= i < |rules| ==> rules[1..][i - 1] == rules[i];
      Ok(r)
  }

  /** The sharing rules and permitted context types `validate_Recieving`
      reads, with their defaults. */
  function ReceivingParts(policy: Json): (r: Result<(seq<Json>, Json)>)
    ensures r.Ok? ==> policy.JObj?
  {
    if !policy.JObj? then Raise(AttributeError)
    else
      var rules :- Get(Lookup(policy.o, "sharingRules").GetOr(JObj([])), "value", JArr([]));
      var types :- Get(Lookup(policy.o, "permittedContextTypes").GetOr(JObj([])), "value", JArr([]));
      var rs :- Iterate(rules);
      Ok((rs, types))
  }

  /** `validate_Recieving(policy, federation)`: `None` stands for falling
      off the end, which the two flags, always equal, never allow. */
  function ValidateReceiving(policy: Json, federation: string): (r: Result<Option<(bool, Json)>>)
    ensures r.Ok? ==> r.value.Some?
  {
    var (rules, types) :- ReceivingParts(policy);
    var f :- ReceiveRules(Found(false, false), rules, federation);
    if f.exists_ then
      var communities := OrIn("communities", "community", types);
      if communities then Ok(Some((true, types))) else Ok(None)
    else if f.canReceive then Ok(Some((true, types)))
    else Ok(Some((false, types)))
  }

  /** `first or second in types` with a literal `first`. */
  function OrIn(first: string, second: string, types: Json): (r: bool)
    ensures |first| > 0 ==> r
  {
    |first| > 0 || PyIn(JStr(second), types) == Ok(true)
  }

  /** The answer is `(True, types)` exactly when some rule's entry for the
      federation has `canReceive` equal to `True` or reading "true", and
      `(False, types)` otherwise. */
  lemma ReceivingDecision(policy: Json, federation: string)
    requires ValidateReceiving(policy, federation).Ok?
    ensures var (rules, types) := ReceivingParts(policy).value;
            ValidateReceiving(policy, federation).value.value
              == ((exists i, j :: 0 <= i < |rules| && rules[i].JObj? && 0 <= j < |rules[i].o|
                                  && rules[i].o[j].0 == federation && ReceiveEntry(rules[i].o[j].1) == Ok(true)), types)
  {
    var (rules, types) := ReceivingParts(policy).value;
    var f := ReceiveRules(Found(false, false), rules, federation);
    assert f.Ok?;
    assert f.value.canReceive == f.value.exists_;
  }

  // ---------------------------------------------------------------------
  // The pause/resume switch of a running interaction.

  /** The state `on_status_message` updates. */
  datatype Session = Session(status: string, processing: bool)

  /** What one status message means for processing: "pause" stops it,
      "active" and "resume" start it, anything else says nothing. */
  function Meaning(status: string): Option<bool>
  {
    if status == "pause" then Some(false)
    else if status == "active" || status == "resume" then Some(true)
    else None
  }

  /** `on_status_message`: the payload is lower-cased first. */
  function OnStatus(s: Session, payload: string): (r: Session)
    ensures r.status == Lower(payload)
    ensures Meaning(Lower(payload)).None? ==> r.processing == s.processing
  {
    Session(Lower(payload), Meaning(Lower(payload)).GetOr(s.processing))
  }

  /** The messages of an interaction, in order of arrival. */
  function Replay(s: Session, payloads: seq<string>): Session
    decreases |payloads|
  {
    if |payloads| == 0 then s else Replay(OnStatus(s, payloads[0]), payloads[1..])
  }

  /** The last message that says something about processing, if any. */
  function LastSaying(payloads: seq<string>): (r: Option<bool>)
    ensures r.Some? ==> exists i :: 0 <= i < |payloads| && Meaning(Lower(payloads[i])) == r
    decreases |payloads|
  {
    if |payloads| == 0 then None
    else
      var m := Meaning(Lower(payloads[|payloads| - 1]));
      if m.Some? then m else LastSaying(payloads[..|payloads| - 1])
  }

  /** After any sequence of status messages, processing is what the last
      message that says something decided, or what it was before. */
  lemma {:induction false} ReplayFollowsLastSaying(s: Session, payloads: seq<string>)
    ensures Replay(s, payloads).processing == LastSaying(payloads).GetOr(s.processing)
    decreases |payloads|
  {
    if |payloads| > 0 {
      var n := |payloads|;
      var init := payloads[..n - 1];
      ReplaySplit(s, init, payloads[n - 1]);
      assert init + [payloads[n - 1]] == payloads;
      ReplayFollowsLastSaying(s, init);
    }
  }

  /** Replaying one more message. */
  lemma {:induction false} ReplaySplit(s: Session, payloads: seq<string>, last: string)
    ensures Replay(s, payloads + [last]) == OnStatus(Replay(s, payloads), last)
    decreases |payloads|
  {
    if |payloads| == 0 {
      assert [] + [last] == [last];
      assert [last][1..] == [];
    } else {
      assert (payloads + [last])[1..] == payloads[1..] + [last];
      ReplaySplit(OnStatus(s, payloads[0]), payloads[1..], last);
    }
  }

  /** Upper-case commands work like lower-case ones. */
  lemma PauseAnyCase(s: Session)
    ensures !OnStatus(s, "PAUSE").processing && !OnStatus(s, "Pause").processing
    ensures OnStatus(OnStatus(s, "PAUSE"), "Resume").processing
  {
    LowerPause();
    LowerResume();
  }

  lemma LowerPause()
    ensures Lower("PAUSE") == "pause" && Lower("Pause") == "pause"
  {
    var u := Lower("PAUSE");
    assert u[0] == 'p' && u[1] == 'a' && u[2] == 'u' && u[3] == 's' && u[4] == 'e';
    var m := Lower("Pause");
    assert m[0] == 'p' && m[1] == 'a' && m[2] == 'u' && m[3] == 's' && m[4] == 'e';
  }

  lemma LowerResume()
    ensures Lower("Resume") == "resume"
  {
    var m := Lower("Resume");
    assert m[0] == 'r' && m[1] == 'e' && m[2] == 's' && m[3] == 'u' && m[4] == 'm' && m[5] == 'e';
  }

  // ---------------------------------------------------------------------
  // Interaction ids.

  const InteractionPrefix := "urn:ngsi-ld:CommunityInteraction:"

  /** One leading `urn:ngsi-ld:CommunityInteraction:` removed. */
  function BareInteractionId(id: string): (r: string)
    ensures StartsWith(id, InteractionPrefix) ==> InteractionPrefix + r == id
    ensures !StartsWith(id, InteractionPrefix) ==> r == id
  {
    if StartsWith(id, InteractionPrefix) then id[|InteractionPrefix|..] else id
  }

  /** The entity URL of an interaction. */
  function InteractionUrl(broker: string, id: string): string
  {
    broker + "/" + InteractionPrefix + BareInteractionId(id)
  }

  /** A bare id and the same id with the prefix address the same entity. */
  lemma PrefixedSameUrl(broker: string, id: string)
    requires !StartsWith(id, InteractionPrefix)
    ensures InteractionUrl(broker, InteractionPrefix + id) == InteractionUrl(broker, id)
  {
    var p := InteractionPrefix + id;
    assert StartsWith(p, InteractionPrefix) by {
      assert p[..|InteractionPrefix|] == InteractionPrefix;
    }
    assert p[|InteractionPrefix|..] == id;
  }

  /** The URL always names a prefixed id, whatever was given. */
  lemma UrlNamesPrefixedId(broker: string, id: string)
    ensures exists bare :: InteractionUrl(broker, id) == broker + "/" + InteractionPrefix + bare
                          && (id == bare || id == InteractionPrefix + bare)
  {
    var bare := BareInteractionId(id);
    assert InteractionUrl(broker, id) == broker + "/" + InteractionPrefix + bare;
  }
}
