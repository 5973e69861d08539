/** The forwarding decision of the federation services (`validate_forwarding`).

    A policy's `sharingRules.value` is a list of dictionaries that map a
    federation id (or `public`) to its permissions. Every rule is visited in
    order; an entry for the own federation may grant forwarding
    (`canForward`), an entry for the target federation may veto reception
    (`canReceive` "false"), and a `public` entry with both flags "true" also
    grants forwarding. Flags are compared as `str(flag).lower()`.

    The same function appears three times with one body (in
    `collaboration_monitoring.py`, `policy_monitoring.py` and
    `Initiate_Collaboration_Service.py`); `Context_Exchange_Service.py` has
    a stricter variant that subscripts the flags instead of using defaults.
 */
module Forwarding {
  import opened Basics
  import opened Text
  import opened Json

  /** `for x in j`: a list yields its items, a string its characters, a
      dictionary its keys; anything else is not iterable. */
  function Iterate(j: Json): (r: Result<seq<Json>>)
    ensures j.JArr? ==> r == Ok(j.a)
    ensures r.Raise? <==> !(j.JArr? || j.JStr? || j.JObj?)
    ensures r.Raise? ==> r.error == TypeError
  {
    match j
    case JArr(a) => Ok(a)
    case JStr(s) => Ok(seq(|s|, i requires 0 <= i < |s| => JStr([s[i]])))
    case JObj(o) => Ok(seq(|o|, i requires 0 <= i < |o| => JStr(o[i].0)))
    case _ => Raise(TypeError)
  }

  /** The two flags the loop keeps. */
  datatype Grant = Grant(forward: bool, receive: bool)

  /** The result: `[False]` or `[True, permittedContextTypes]`. */
  datatype Verdict = Deny | Allow(types: Json)

  /** The value of a permission flag, with the default `dict.get` uses. */
  function Flag(perms: seq<(string, Json)>, key: string, default: string): Json
  {
    Lookup(perms, key).GetOr(JStr(default))
  }

  /** Whether the loop looks at the permissions of an entry. */
  predicate Reads(key: string, own: string, target: string)
  {
    key == own || key == target || Lower(key) == "public"
  }

  /** One entry of one rule. */
  function ForwardEntry(g: Grant, key: string, perms: Json, own: string, target: string): (r: Result<Grant>)
  {
    if !Reads(key, own, target) then Ok(g)
    else if !perms.JObj? then Raise(AttributeError)
    else if key == own then
      Ok(if IsTrueText(Flag(perms.o, "canForward", "false")) then g.(forward := true) else g)
    else if key == target then
      Ok(if IsFalseText(Flag(perms.o, "canReceive", "true")) then g.(receive := false) else g)
    else if IsTrueText(Flag(perms.o, "canReceive", "false")) && IsTrueText(Flag(perms.o, "canForward", "false")) then
      Ok(g.(forward := true))
    else Ok(g)
  }

  /** The entries of one rule, in order (`federation_rule.items()`). */
  function ForwardItems(g: Grant, items: seq<(string, Json)>, own: string, target: string): (r: Result<Grant>)
    decreases |items|
  {
    if |items| == 0 then Ok(g)
    else
      var g' :- ForwardEntry(g, items[0].0, items[0].1, own, target);
      ForwardItems(g', items[1..], own, target)
  }

  /** The rules, in order; a rule that is not a dictionary has no `items`. */
  function ForwardRules(g: Grant, rules: seq<Json>, own: string, target: string): (r: Result<Grant>)
    decreases |rules|
  {
    if |rules| == 0 then Ok(g)
    else if !rules[0].JObj? then Raise(AttributeError)
    else
      var g' :- ForwardItems(g, rules[0].o, own, target);
      ForwardRules(g', rules[1..], own, target)
  }

  /** `validate_forwarding(policy, own, target)`. */
  function ValidateForwarding(policy: Json, own: string, target: string): (r: Result<Verdict>)
    ensures r.Ok? ==> policy.JObj?
  {
    if !policy.JObj? then Raise(AttributeError)
    else
    var rules :- Get(Lookup(policy.o, "sharingRules").GetOr(JObj([])), "value", JArr([]));
    var types :- Get(Lookup(policy.o, "permittedContextTypes").GetOr(JObj([])), "value", JArr([]));
    var rs :- Iterate(rules);
    var g :- ForwardRules(Grant(false, true), rs, own, target);
    if !g.forward then Ok(Deny)
    else if g.receive then Ok(Allow(types))
    else Ok(Deny)
  }

  // ---------------------------------------------------------------------
  // The decision stated over the rules

  /** An entry that grants forwarding: the own federation's `canForward`
      reads "true", or a `public` entry (for neither federation) has both
      flags "true". */
  predicate GrantsForward(key: string, perms: Json, own: string, target: string)
  {
    perms.JObj? &&
    ((key == own && IsTrueText(Flag(perms.o, "canForward", "false")))
     || (key != own && key != target && Lower(key) == "public"
         && IsTrueText(Flag(perms.o, "canReceive", "false")) && IsTrueText(Flag(perms.o, "canForward", "false"))))
  }

  /** An entry that vetoes reception: the target's (when it is not also the
      own federation) `canReceive` reads "false"; a missing flag counts as
      "true". */
  predicate VetoesReceive(key: string, perms: Json, own: string, target: string)
  {
    perms.JObj? && key != own && key == target && IsFalseText(Flag(perms.o, "canReceive", "true"))
  }

  predicate ItemsClean(items: seq<(string, Json)>, own: string, target: string)
  {
    forall j :: 0 <= j < |items| ==> Reads(items[j].0, own, target) ==> items[j].1.JObj?
  }

  predicate ItemsGrant(items: seq<(string, Json)>, own: string, target: string)
  {
    exists j :: 0 <= j < |items| && GrantsForward(items[j].0, items[j].1, own, target)
  }

  predicate ItemsVeto(items: seq<(string, Json)>, own: string, target: string)
  {
    exists j :: 0 <= j < |items| && VetoesReceive(items[j].0, items[j].1, own, target)
  }

  /** Every rule is a dictionary, and every permission the loop reads is one. */
  predicate RulesClean(rules: seq<Json>, own: string, target: string)
  {
    forall i :: 0 <= i < |rules| ==> rules[i].JObj? && ItemsClean(rules[i].o, own, target)
  }

  predicate RulesGrant(rules: seq<Json>, own: string, target: string)
  {
    exists i :: 0 <= i < |rules| && rules[i].JObj? && ItemsGrant(rules[i].o, own, target)
  }

  predicate RulesVeto(rules: seq<Json>, own: string, target: string)
  {
    exists i :: 0 <= i < |rules| && rules[i].JObj? && ItemsVeto(rules[i].o, own, target)
  }

  /** One entry sets the forward flag when it grants and clears the receive
      flag when it vetoes; reading a permission that is not a dictionary
      raises. */
  lemma EntryEffect(g: Grant, key: string, perms: Json, own: string, target: string)
    ensures ForwardEntry(g, key, perms, own, target)
         == if Reads(key, own, target) && !perms.JObj? then Raise(AttributeError)
            else Ok(Grant(g.forward || GrantsForward(key, perms, own, target),
                          g.receive && !VetoesReceive(key, perms, own, target)))
  {
  }

  /** The entries of one rule taken together. */
  lemma {:induction false} ItemsEffect(g: Grant, items: seq<(string, Json)>, own: string, target: string)
    ensures ForwardItems(g, items, own, target)
         == if !ItemsClean(items, own, target) then Raise(AttributeError)
            else Ok(Grant(g.forward || ItemsGrant(items, own, target),
                          g.receive && !ItemsVeto(items, own, target)))
    decreases |items|
  {
    if |items| > 0 {
      var e := items[0];
      EntryEffect(g, e.0, e.1, own, target);
      ItemsCons(items, own, target);
      if !(Reads(e.0, own, target) && !e.1.JObj?) {
        var g' := Grant(g.forward || GrantsForward(e.0, e.1, own, target),
                        g.receive && !VetoesReceive(e.0, e.1, own, target));
        ItemsEffect(g', items[1..], own, target);
      }
    }
  }

  /** The entry predicates split into the first entry and the rest. */
  lemma ItemsCons(items: seq<(string, Json)>, own: string, target: string)
    requires |items| > 0
    ensures ItemsClean(items, own, target)
        <==> (Reads(items[0].0, own, target) ==> items[0].1.JObj?) && ItemsClean(items[1..], own, target)
    ensures ItemsGrant(items, own, target)
        <==> GrantsForward(items[0].0, items[0].1, own, target) || ItemsGrant(items[1..], own, target)
    ensures ItemsVeto(items, own, target)
        <==> VetoesReceive(items[0].0, items[0].1, own, target) || ItemsVeto(items[1..], own, target)
  {
    ItemsCleanCons(items, own, target);
    ItemsGrantCons(items, own, target);
    ItemsVetoCons(items, own, target);
  }

  lemma ItemsCleanCons(items: seq<(string, Json)>, own: string, target: string)
    requires |items| > 0
    ensures ItemsClean(items, own, target)
        <==> (Reads(items[0].0, own, target) ==> items[0].1.JObj?) && ItemsClean(items[1..], own, target)
  {
    var rest := items[1..];
    assert forall j :: 1 <= j < |items| ==> items[j] == rest[j - 1];
  }

  lemma ItemsGrantCons(items: seq<(string, Json)>, own: string, target: string)
    requires |items| > 0
    ensures ItemsGrant(items, own, target)
        <==> GrantsForward(items[0].0, items[0].1, own, target) || ItemsGrant(items[1..], own, target)
  {
    var rest := items[1..];
    if ItemsGrant(rest, own, target) {
      var j :| 0 <= j < |rest| && GrantsForward(rest[j].0, rest[j].1, own, target);
      assert items[j + 1] == rest[j];
    }
    if ItemsGrant(items, own, target) {
      var j :| 0 <= j < |items| && GrantsForward(items[j].0, items[j].1, own, target);
      if j > 0 {
        assert rest[j - 1] == items[j];
      }
    }
  }

  lemma ItemsVetoCons(items: seq<(string, Json)>, own: string, target: string)
    requires |items| > 0
    ensures ItemsVeto(items, own, target)
        <==> VetoesReceive(items[0].0, items[0].1, own, target) || ItemsVeto(items[1..], own, target)
  {
    var rest := items[1..];
    if ItemsVeto(rest, own, target) {
      var j :| 0 <= j < |rest| && VetoesReceive(rest[j].0, rest[j].1, own, target);
      assert items[j + 1] == rest[j];
    }
    if ItemsVeto(items, own, target) {
      var j :| 0 <= j < |items| && VetoesReceive(items[j].0, items[j].1, own, target);
      if j > 0 {
        assert rest[j - 1] == items[j];
      }
    }
  }

  /** The rule predicates split into the first rule and the rest. */
  lemma RulesCleanCons(rules: seq<Json>, own: string, target: string)
    requires |rules| > 0
    ensures RulesClean(rules, own, target)
        <==> rules[0].JObj? && ItemsClean(rules[0].o, own, target) && RulesClean(rules[1..], own, target)
  {
    var rest := rules[1..];
    assert forall i :: 1 <= i < |rules| ==> rules[i] == rest[i - 1];
  }

  lemma RulesGrantCons(rules: seq<Json>, own: string, target: string)
    requires |rules| > 0
    ensures RulesGrant(rules, own, target)
        <==> (rules[0].JObj? && ItemsGrant(rules[0].o, own, target)) || RulesGrant(rules[1..], own, target)
  {
    var rest := rules[1..];
    if RulesGrant(rest, own, target) {
      var i :| 0 <= i < |rest| && rest[i].JObj? && ItemsGrant(rest[i].o, own, target);
      assert rules[i + 1] == rest[i];
    }
    if RulesGrant(rules, own, target) {
      var i :| 0 <= i < |rules| && rules[i].JObj? && ItemsGrant(rules[i].o, own, target);
      if i > 0 {
        assert rest[i - 1] == rules[i];
      }
    }
  }

  lemma RulesVetoCons(rules: seq<Json>, own: string, target: string)
    requires |rules| > 0
    ensures RulesVeto(rules, own, target)
        <==> (rules[0].JObj? && ItemsVeto(rules[0].o, own, target)) || RulesVeto(rules[1..], own, target)
  {
    var rest := rules[1..];
    if RulesVeto(rest, own, target) {
      var i :| 0 <= i < |rest| && rest[i].JObj? && ItemsVeto(rest[i].o, own, target);
      assert rules[i + 1] == rest[i];
    }
    if RulesVeto(rules, own, target) {
      var i :| 0 <= i < |rules| && rules[i].JObj? && ItemsVeto(rules[i].o, own, target);
      if i > 0 {
        assert rest[i - 1] == rules[i];
      }
    }
  }

  /** All rules taken together. */
  lemma {:induction false} RulesEffect(g: Grant, rules: seq<Json>, own: string, target: string)
    ensures ForwardRules(g, rules, own, target)
         == if !RulesClean(rules, own, target) then Raise(AttributeError)
            else Ok(Grant(g.forward || RulesGrant(rules, own, target),
                          g.receive && !RulesVeto(rules, own, target)))
    decreases |rules|
  {
    if |rules| > 0 {
      RulesCleanCons(rules, own, target);
      RulesGrantCons(rules, own, target);
      RulesVetoCons(rules, own, target);
      if rules[0].JObj? {
        ItemsEffect(g, rules[0].o, own, target);
        if ItemsClean(rules[0].o, own, target) {
          var g' := Grant(g.forward || ItemsGrant(rules[0].o, own, target),
                          g.receive && !ItemsVeto(rules[0].o, own, target));
          RulesEffect(g', rules[1..], own, target);
        }
      }
    }
  }

  /** A policy shaped as the services expect it. */
  predicate Shaped(policy: Json)
  {
    && policy.JObj?
    && Lookup(policy.o, "sharingRules").GetOr(JObj([])).JObj?
    && Lookup(policy.o, "permittedContextTypes").GetOr(JObj([])).JObj?
    && Lookup(Lookup(policy.o, "sharingRules").GetOr(JObj([])).o, "value").GetOr(JArr([])).JArr?
  }

  function RulesOf(policy: Json): seq<Json>
    requires Shaped(policy)
  {
    Lookup(Lookup(policy.o, "sharingRules").GetOr(JObj([])).o, "value").GetOr(JArr([])).a
  }

  function TypesOf(policy: Json): Json
    requires Shaped(policy)
  {
    Lookup(Lookup(policy.o, "permittedContextTypes").GetOr(JObj([])).o, "value").GetOr(JArr([]))
  }

  /** Forwarding is allowed exactly when some entry grants it and no entry
      vetoes it; the result then carries the permitted context types. */
  lemma ForwardingDecision(policy: Json, own: string, target: string)
    requires Shaped(policy)
    ensures var rules := RulesOf(policy);
            (ValidateForwarding(policy, own, target)
             == if !RulesClean(rules, own, target) then Raise(AttributeError)
            else if RulesGrant(rules, own, target) && !RulesVeto(rules, own, target) then Ok(Allow(TypesOf(policy)))
            else Ok(Deny))
  {
    RulesEffect(Grant(false, true), RulesOf(policy), own, target);
  }

  /** Entries for the own federation are matched before the target's, so
      when both are the same federation no veto is ever consulted. */
  lemma SameFederationNoVeto(policy: Json, fed: string)
    requires Shaped(policy)
    requires RulesClean(RulesOf(policy), fed, fed)
    ensures ValidateForwarding(policy, fed, fed).Ok?
    ensures (ValidateForwarding(policy, fed, fed) == Ok(Allow(TypesOf(policy))))
        <==> RulesGrant(RulesOf(policy), fed, fed)
  {
    ForwardingDecision(policy, fed, fed);
    assert !RulesVeto(RulesOf(policy), fed, fed);
  }

  /** An explicit "false" for the target vetoes forwarding, whatever grants
      it. */
  lemma TargetVeto(policy: Json, own: string, target: string, i: nat, j: nat)
    requires Shaped(policy)
    requires own != target
    requires RulesClean(RulesOf(policy), own, target)
    requires i < |RulesOf(policy)| && j < |RulesOf(policy)[i].o|
    requires RulesOf(policy)[i].o[j].0 == target
    requires Lookup(RulesOf(policy)[i].o[j].1.o, "canReceive") == Some(JStr("false"))
    ensures ValidateForwarding(policy, own, target) == Ok(Deny)
  {
    ForwardingDecision(policy, own, target);
    var rules := RulesOf(policy);
    assert rules[i].JObj? && ItemsClean(rules[i].o, own, target);
    assert rules[i].o[j].1.JObj?;
    EntryVetoes(rules, own, target, i, j);
  }

  /** A "false" `canReceive` under the target's key is a veto. */
  lemma EntryVetoes(rules: seq<Json>, own: string, target: string, i: nat, j: nat)
    requires own != target
    requires i < |rules| && rules[i].JObj? && j < |rules[i].o|
    requires rules[i].o[j].0 == target && rules[i].o[j].1.JObj?
    requires Lookup(rules[i].o[j].1.o, "canReceive") == Some(JStr("false"))
    ensures RulesVeto(rules, own, target)
  {
    var e := rules[i].o[j];
    assert Lower("false") == "false";
    assert Flag(e.1.o, "canReceive", "true") == JStr("false");
    assert VetoesReceive(e.0, e.1, own, target);
    assert ItemsVeto(rules[i].o, own, target);
  }

  /** A policy that is not a dictionary has no `get`. */
  lemma NotADictionary(policy: Json, own: string, target: string)
    requires !policy.JObj?
    ensures ValidateForwarding(policy, own, target) == Raise(AttributeError)
  {
  }

  // ---------------------------------------------------------------------
  // The variant of `Context_Exchange_Service.py`

  /** One entry, with the flags subscripted: a missing flag raises `KeyError`,
      a permission that is not a dictionary `TypeError`. */
  function StrictEntry(g: Grant, key: string, perms: Json, own: string, target: string): (r: Result<Grant>)
  {
    if key == own then
      var f :- Index(perms, "canForward");
      Ok(if IsTrueText(f) then g.(forward := true) else g)
    else if key == target then
      var c :- Index(perms, "canReceive");
      Ok(if IsFalseText(c) then g.(receive := false) else g)
    else if Lower(key) == "public" then
      var c :- Index(perms, "canReceive");
      if !IsTrueText(c) then Ok(g)
      else
        var f :- Index(perms, "canForward");
        Ok(if IsTrueText(f) then g.(forward := true) else g)
    else Ok(g)
  }

  function StrictItems(g: Grant, items: seq<(string, Json)>, own: string, target: string): (r: Result<Grant>)
    decreases |items|
  {
    if |items| == 0 then Ok(g)
    else
      var g' :- StrictEntry(g, items[0].0, items[0].1, own, target);
      StrictItems(g', items[1..], own, target)
  }

  function StrictRules(g: Grant, rules: seq<Json>, own: string, target: string): (r: Result<Grant>)
    decreases |rules|
  {
    if |rules| == 0 then Ok(g)
    else if !rules[0].JObj? then Raise(AttributeError)
    else
      var g' :- StrictItems(g, rules[0].o, own, target);
      StrictRules(g', rules[1..], own, target)
  }

  /** The variant returns `(True, types)` or a bare `False`; both shapes
      are a `Verdict` here. */
  function ValidateForwardingStrict(policy: Json, own: string, target: string): (r: Result<Verdict>)
  {
    if !policy.JObj? then Raise(AttributeError)
    else
    var rules :- Get(Lookup(policy.o, "sharingRules").GetOr(JObj([])), "value", JArr([]));
    var types :- Get(Lookup(policy.o, "permittedContextTypes").GetOr(JObj([])), "value", JArr([]));
    var rs :- Iterate(rules);
    var g :- StrictRules(Grant(false, true), rs, own, target);
    if g.forward && g.receive then Ok(Allow(types)) else Ok(Deny)
  }

  /** Every permission the loop reads is a dictionary holding both flags. */
  predicate Complete(rules: seq<Json>, own: string, target: string)
  {
    forall i :: 0 <= i < |rules| ==>
      rules[i].JObj? &&
      forall j :: 0 <= j < |rules[i].o| ==> Reads(rules[i].o[j].0, own, target) ==>
        (rules[i].o[j].1.JObj? && "canForward" in Keys(rules[i].o[j].1.o) && "canReceive" in Keys(rules[i].o[j].1.o))
  }

  lemma {:induction false} StrictItemsAgree(g: Grant, items: seq<(string, Json)>, own: string, target: string)
    requires forall j :: 0 <= j < |items| ==> Reads(items[j].0, own, target) ==>
               (items[j].1.JObj? && "canForward" in Keys(items[j].1.o) && "canReceive" in Keys(items[j].1.o))
    ensures StrictItems(g, items, own, target) == ForwardItems(g, items, own, target)
    ensures StrictItems(g, items, own, target).Ok?
    decreases |items|
  {
    if |items| > 0 {
      var rest := items[1..];
      assert forall j :: 1 <= j < |items| ==> items[j] == rest[j - 1];
      var e := items[0];
      assert StrictEntry(g, e.0, e.1, own, target) == ForwardEntry(g, e.0, e.1, own, target);
      assert StrictEntry(g, e.0, e.1, own, target).Ok?;
      StrictItemsAgree(StrictEntry(g, e.0, e.1, own, target).value, rest, own, target);
    }
  }

  lemma {:induction false} StrictRulesAgree(g: Grant, rules: seq<Json>, own: string, target: string)
    requires Complete(rules, own, target)
    ensures StrictRules(g, rules, own, target) == ForwardRules(g, rules, own, target)
    ensures StrictRules(g, rules, own, target).Ok?
    decreases |rules|
  {
    if |rules| > 0 {
      var rest := rules[1..];
      assert forall i :: 1 <= i < |rules| ==> rules[i] == rest[i - 1];
      StrictItemsAgree(g, rules[0].o, own, target);
      StrictRulesAgree(StrictItems(g, rules[0].o, own, target).value, rest, own, target);
    }
  }

  /** When every permission it reads names both flags, the variant decides
      as `validate_forwarding` does. */
  lemma StrictAgrees(policy: Json, own: string, target: string)
    requires Shaped(policy)
    requires Complete(RulesOf(policy), own, target)
    ensures ValidateForwardingStrict(policy, own, target) == ValidateForwarding(policy, own, target)
    ensures ValidateForwardingStrict(policy, own, target).Ok?
  {
    StrictRulesAgree(Grant(false, true), RulesOf(policy), own, target);
  }

  /** The one-rule policy `{own: perms}` with the given types. */
  function OneRulePolicy(own: string, perms: seq<(string, Json)>, types: Json): Json
  {
    JObj([("sharingRules", JObj([("value", JArr([JObj([(own, JObj(perms))])]))])),
          ("permittedContextTypes", JObj([("value", types)]))])
  }

  lemma OneRuleLookups(own: string, perms: seq<(string, Json)>, types: Json)
    ensures var p := OneRulePolicy(own, perms, types);
            && Lookup(p.o, "sharingRules") == Some(JObj([("value", JArr([JObj([(own, JObj(perms))])]))]))
            && Lookup(p.o, "permittedContextTypes") == Some(JObj([("value", types)]))
  {
    assert "sharingRules"[0] != "permittedContextTypes"[0];
  }

  /** Without defaults, an own-federation entry lacking `canForward` raises
      `KeyError`. */
  lemma StrictMissingFlag(own: string, target: string, perms: seq<(string, Json)>, types: Json)
    requires "canForward" !in Keys(perms)
    ensures ValidateForwardingStrict(OneRulePolicy(own, perms, types), own, target) == Raise(KeyError)
  {
    OneRuleLookups(own, perms, types);
    var rule := JObj([(own, JObj(perms))]);
    assert StrictEntry(Grant(false, true), own, JObj(perms), own, target) == Raise(KeyError);
    assert StrictItems(Grant(false, true), rule.o, own, target) == Raise(KeyError);
    assert StrictRules(Grant(false, true), [rule], own, target) == Raise(KeyError);
  }

  /** With the default, the same entry reads "false" and forwarding is
      denied. */
  lemma DefaultMissingFlag(own: string, target: string, perms: seq<(string, Json)>, types: Json)
    requires "canForward" !in Keys(perms)
    ensures ValidateForwarding(OneRulePolicy(own, perms, types), own, target) == Ok(Deny)
  {
    var rule := JObj([(own, JObj(perms))]);
    MissingFlagEntry(own, target, perms);
    assert ForwardItems(Grant(false, true), rule.o, own, target) == Ok(Grant(false, true));
    assert ForwardRules(Grant(false, true), [rule], own, target) == Ok(Grant(false, true));
    OneRuleGrant(own, target, perms, types, Grant(false, true));
  }

  /** The one-rule policy decides by the grant its rule yields. */
  lemma OneRuleGrant(own: string, target: string, perms: seq<(string, Json)>, types: Json, g: Grant)
    requires ForwardRules(Grant(false, true), [JObj([(own, JObj(perms))])], own, target) == Ok(g)
    ensures ValidateForwarding(OneRulePolicy(own, perms, types), own, target)
         == if g.forward && g.receive then Ok(Allow(types)) else Ok(Deny)
  {
    OneRuleLookups(own, perms, types);
  }

  /** The own federation's entry without `canForward` changes nothing. */
  lemma MissingFlagEntry(own: string, target: string, perms: seq<(string, Json)>)
    requires "canForward" !in Keys(perms)
    ensures ForwardEntry(Grant(false, true), own, JObj(perms), own, target) == Ok(Grant(false, true))
  {
    assert Flag(perms, "canForward", "false") == JStr("false");
    assert |Lower("false")| == 5;
  }

  // ---------------------------------------------------------------------
  // The topic filter of `create_policy_topics_2_new_collaborators`

  /** What the subscriber has seen: the topics handled, the policies kept
      by topic, and the `done` flag. */
  datatype Collected = Collected(processed: set<string>, kept: map<string, Json>, done: bool)

  const NoneCollected := Collected({}, map[], false)

  /** `s.split(":")[-1]`. */
  function LastColonField(s: string): string
  {
    var parts := Split(s, ':');
    parts[|parts| - 1]
  }

  /** `any(word in (types or "") for word in ["policy", "policies"])`. */
  function MentionsPolicies(types: Json): (r: Result<bool>)
  {
    var c := if Truthy(types) then types else JStr("");
    var a :- PyIn(JStr("policy"), c);
    if a then Ok(true) else PyIn(JStr("policies"), c)
  }

  /** One policy of a message: kept under the topic when its provider is
      neither the current nor the new federation, forwarding is allowed, and
      the permitted types mention policies. */
  function ConsiderPolicy(kept: map<string, Json>, topic: string, policy: Json,
                          current: string, newcomer: string): (r: Result<map<string, Json>>)
    ensures r.Ok? ==> r.value == kept || (r.value == kept[topic := policy] && Admissible(policy, current, newcomer))
  {
    var pf :- Get(policy, "providerFederation", JObj([]));
    var provider :- Get(pf, "object", JNull);
    if provider == JStr(current) || provider == JStr(newcomer) then Ok(kept)
    else
      var v :- ValidateForwarding(policy, LastColonField(current), LastColonField(newcomer));
      if !v.Allow? then Ok(kept)
      else
        var m :- MentionsPolicies(v.types);
        Ok(if m then kept[topic := policy] else kept)
  }

  /** The policies of a message in order; the first exception ends the loop
      and keeps what was stored before it. */
  function ConsiderAll(kept: map<string, Json>, topic: string, policies: seq<Json>,
                       current: string, newcomer: string): (r: map<string, Json>)
    ensures r.Keys <= kept.Keys + {topic}
    ensures (forall t :: t in kept ==> Admissible(kept[t], current, newcomer))
            ==> forall t :: t in r ==> Admissible(r[t], current, newcomer)
    decreases |policies|
  {
    if |policies| == 0 then kept
    else match ConsiderPolicy(kept, topic, policies[0], current, newcomer)
      case Raise(_) => kept
      case Ok(k) => ConsiderAll(k, topic, policies[1..], current, newcomer)
  }

  /** `on_message` for one delivery; `payload` is the decoded JSON, `None`
      when it does not decode. A topic handled before is ignored without
      touching `done`. */
  function OnPolicyMessage(c: Collected, topic: string, payload: Option<Json>,
                           current: string, newcomer: string): (r: Collected)
    ensures topic in c.processed ==> r == c
    ensures r.processed == c.processed + {topic}
  {
    if topic in c.processed then c
    else
      var processed := c.processed + {topic};
      var kept := match payload
        case None => c.kept
        case Some(p) => ConsiderAll(c.kept, topic, if p.JArr? then p.a else [p], current, newcomer);
      Collected(processed, kept, c.done || |processed| >= |kept.Keys|)
  }

  /** The provider is neither the current nor the new federation. */
  predicate ProviderOther(policy: Json, current: string, newcomer: string)
    requires policy.JObj?
  {
    var pf := Lookup(policy.o, "providerFederation").GetOr(JObj([]));
    pf.JObj? && Lookup(pf.o, "object").GetOr(JNull) != JStr(current) && Lookup(pf.o, "object").GetOr(JNull) != JStr(newcomer)
  }

  /** Forwarding to the new federation is allowed and the permitted types
      mention policies. */
  predicate ForwardsPolicies(policy: Json, current: string, newcomer: string)
  {
    var v := ValidateForwarding(policy, LastColonField(current), LastColonField(newcomer));
    v.Ok? && v.value.Allow? && MentionsPolicies(v.value.types) == Ok(true)
  }

  /** A policy that may be kept. */
  predicate Admissible(policy: Json, current: string, newcomer: string)
  {
    && policy.JObj?
    && ProviderOther(policy, current, newcomer)
    && ForwardsPolicies(policy, current, newcomer)
  }

  /** What the subscriber keeps: only admissible policies, under topics it
      has handled. */
  predicate CollectedInvariant(c: Collected, current: string, newcomer: string)
  {
    && c.kept.Keys <= c.processed
    && forall t :: t in c.kept ==> Admissible(c.kept[t], current, newcomer)
  }

  /** Every delivery keeps the invariant: a policy provided by the current
      or the new federation, or one that may not be forwarded with policy
      types, never enters the map. */
  lemma OnPolicyMessageKeeps(c: Collected, topic: string, payload: Option<Json>, current: string, newcomer: string)
    requires CollectedInvariant(c, current, newcomer)
    ensures CollectedInvariant(OnPolicyMessage(c, topic, payload, current, newcomer), current, newcomer)
  {
  }

  /** The completion test compares the handled topics with the kept ones,
      which are among them: `done` holds after the first new topic. */
  lemma DoneAfterFirst(c: Collected, topic: string, payload: Option<Json>, current: string, newcomer: string)
    requires CollectedInvariant(c, current, newcomer)
    requires topic !in c.processed
    ensures OnPolicyMessage(c, topic, payload, current, newcomer).done
  {
    var r := OnPolicyMessage(c, topic, payload, current, newcomer);
    OnPolicyMessageKeeps(c, topic, payload, current, newcomer);
    assert r.kept.Keys <= r.processed;
    SubsetCard(r.kept.Keys, r.processed);
  }

  lemma SubsetCard<T>(a: set<T>, b: set<T>)
    requires a <= b
    ensures |a| <= |b|
  {
    assert b == a + (b - a);
  }
}
