/** The context exchange service (`CCDUIT/Context_Exchange_Service.py`):
    which communities, data models and other federations a provider's
    policy makes this federation copy.

    The HTTP answers of the context broker are parameters: the entity lists
    the queries return are given as JSON values.
 */
module ContextExchange {
  import opened Basics
  import opened Text
  import opened Json
  import opened JsonText
  import opened Forwarding
  import opened PolicyStore

  // ---------------------------------------------------------------------
  // get_list: the communities of a federation.

  /** Whether the community passes the filter of `get_list`:
      `"partOfFederation" in community and urn in community["partOfFederation"]["object"]`. */
  function InFederation(community: Json, urn: string): (r: Result<bool>)
  {
    var has :- PyIn(JStr("partOfFederation"), community);
    if !has then Ok(false)
    else
      var pf :- Index(community, "partOfFederation");
      var obj :- Index(pf, "object");
      PyIn(JStr(urn), obj)
  }

  /** The test of `get_list`'s comprehension, as a function value. */
  function FederationTest(urn: string): Json -> Result<bool>
  {
    c => InFederation(c, urn)
  }

  /** The list comprehension of `get_list`. */
  function KeepCommunities(communities: seq<Json>, urn: string): (r: Result<seq<Json>>)
    ensures r.Ok? ==> forall c :: c in r.value ==> c in communities && InFederation(c, urn) == Ok(true)
    ensures r.Ok? <==> forall i :: 0 <= i < |communities| ==> InFederation(communities[i], urn).Ok?
    ensures r.Ok? ==> forall i :: 0 <= i < |communities| && InFederation(communities[i], urn) == Ok(true) ==>
              communities[i] in r.value
    ensures r.Ok? ==> r.value == Passing(communities, FederationTest(urn))
    ensures r.Raise? ==> exists i :: && 0 <= i < |communities|
                                     && InFederation(communities[i], urn) == Raise(r.error)
                                     && forall j :: 0 <= j < i ==> InFederation(communities[j], urn).Ok?
  {
    KeepWhere(communities, FederationTest(urn))
  }

  /** `get_list(type, url, federation_id, limit)` on the communities the
      broker returns. A limit raises `NameError`: the `params` it is added
      to no longer exists. */
  function GetList(federation: string, limit: Option<int>, answer: Json): (r: Result<seq<Json>>)
    ensures limit.Some? ==> r == Raise(NameError)
  {
    if limit.Some? then Raise(NameError)
    else
      var communities :- Iterate(answer);
      KeepCommunities(communities, FederationPrefix + federation)
  }

  /** A `partOfFederation` relationship naming a single federation. */
  function CommunityOf(target: Json): Json
  {
    JObj([("id", JStr("urn:ngsi-ld:Community:C")),
          ("partOfFederation", JObj([("type", JStr("Relationship")), ("object", target)]))])
  }

  /** As written, a relationship whose target is one string is tested by
      substring: a community of `Fed10` is listed for `Fed1`. */
  lemma ListsCommunityOfOtherFederation()
    ensures GetList("Fed1", None, JArr([CommunityOf(JStr("urn:ngsi-ld:Federation:Fed10"))]))
         == Ok([CommunityOf(JStr("urn:ngsi-ld:Federation:Fed10"))])
  {
    var urn := FederationPrefix + "Fed1";
    var obj := "urn:ngsi-ld:Federation:Fed10";
    var c := CommunityOf(JStr(obj));
    assert obj[..|urn|] == urn;
    assert Contains(obj, urn);
    assert Index(c, "partOfFederation") == Ok(JObj([("type", JStr("Relationship")), ("object", JStr(obj))]));
    assert PyIn(JStr("partOfFederation"), c) == Ok(true);
    assert InFederation(c, urn) == Ok(true);
    assert [c][1..] == [];
    assert KeepCommunities([c], urn) == Ok([c] + []);
    assert [c] + [] == [c];
  }

  /** Whether a relationship target names the federation: the target itself
      or one item of a list of targets. */
  predicate Names(target: Json, urn: string)
  {
    target == JStr(urn) || (target.JArr? && JStr(urn) in target.a)
  }

  /** The intended test: membership of the federation in the relationship. */
  function InFederationFixed(community: Json, urn: string): (r: Result<bool>)
    ensures (r.Ok? && community.JObj? && Lookup(community.o, "partOfFederation").Some?
             && Lookup(community.o, "partOfFederation").value.JObj?) ==>
              (r.value <==> exists obj :: Lookup(Lookup(community.o, "partOfFederation").value.o, "object") == Some(obj)
                                          && Names(obj, urn))
  {
    if !community.JObj? then Raise(TypeError)
    else
      var pf := Lookup(community.o, "partOfFederation");
      if pf.None? then Ok(false)
      else if !pf.value.JObj? then Raise(TypeError)
      else
        var obj := Lookup(pf.value.o, "object");
        if obj.None? then Raise(KeyError)
        else Ok(Names(obj.value, urn))
  }

  /** The corrected test, as a function value. */
  function FixedFederationTest(urn: string): Json -> Result<bool>
  {
    c => InFederationFixed(c, urn)
  }

  /** The corrected filter keeps exactly the communities whose relationship
      names the federation; the community of `Fed10` is no longer listed
      for `Fed1`. */
  function KeepCommunitiesFixed(communities: seq<Json>, urn: string): (r: Result<seq<Json>>)
    ensures r.Ok? ==> forall c :: c in r.value ==> c in communities && InFederationFixed(c, urn) == Ok(true)
    ensures r.Ok? ==> forall i :: 0 <= i < |communities| && InFederationFixed(communities[i], urn) == Ok(true) ==>
              communities[i] in r.value
    ensures r.Ok? ==> r.value == Passing(communities, FixedFederationTest(urn))
  {
    KeepWhere(communities, FixedFederationTest(urn))
  }

  /** With the corrected test a community is listed for a federation exactly
      when its relationship names that federation. */
  lemma FixedListsOnlyNamed(urn: string, target: Json)
    ensures KeepCommunitiesFixed([CommunityOf(target)], urn) == Ok(if Names(target, urn) then [CommunityOf(target)] else [])
  {
    var c := CommunityOf(target);
    var pf := JObj([("type", JStr("Relationship")), ("object", target)]);
    assert Lookup(c.o, "partOfFederation") == Some(pf);
    assert Lookup(pf.o, "object") == Some(target);
    assert InFederationFixed(c, urn) == Ok(Names(target, urn));
    assert [c][1..] == [];
    assert KeepCommunitiesFixed([c][1..], urn) == Ok([]);
    assert [c] + [] == [c];
  }

  /** `Fed10`'s community is not listed for `Fed1` by the corrected filter. */
  lemma FixedSkipsOtherFederation()
    ensures KeepCommunitiesFixed([CommunityOf(JStr("urn:ngsi-ld:Federation:Fed10"))], FederationPrefix + "Fed1") == Ok([])
  {
    assert JStr("urn:ngsi-ld:Federation:Fed10") != JStr(FederationPrefix + "Fed1");
    FixedListsOnlyNamed(FederationPrefix + "Fed1", JStr("urn:ngsi-ld:Federation:Fed10"));
  }

  // ---------------------------------------------------------------------
  // get_data_models: the data models of the selected communities.

  /** `any(community in target for community in selected)`. */
  function AnyIn(selected: seq<Json>, target: Json): (r: Result<bool>)
    ensures target.JArr? ==> r.Ok? && (r.value <==> exists i, j :: 0 <= i < |selected| && 0 <= j < |target.a|
                                                                 && PyEq(selected[i], target.a[j]))
    decreases |selected|
  {
    if |selected| == 0 then Ok(false)
    else
      var hit :- PyIn(selected[0], target);
      if hit then Ok(true)
      else
        var rest :- AnyIn(selected[1..], target);
        assert forall i :: 1 <= i < |selected| ==> selected[1..][i - 1] == selected[i];
        Ok(rest)
  }

  /** Whether the data model belongs to one of the selected communities. */
  function OfCommunities(model: Json, selected: seq<Json>): (r: Result<bool>)
  {
    var has :- PyIn(JStr("associated_Communities"), model);
    if !has then Ok(false)
    else
      var ac :- Index(model, "associated_Communities");
      var obj :- Get(ac, "object", JArr([]));
      AnyIn(selected, obj)
  }

  /** `get_data_models(url, selected)` on the data models the broker
      returns. */
  function GetDataModels(selected: seq<Json>, answer: Json): (r: Result<seq<Json>>)
    ensures r.Ok? ==> forall m :: m in r.value ==> OfCommunities(m, selected) == Ok(true)
  {
    var models :- Iterate(answer);
    KeepModels(models, selected)
  }

  /** The test of `get_data_models`' comprehension, as a function value. */
  function ModelTest(selected: seq<Json>): Json -> Result<bool>
  {
    m => OfCommunities(m, selected)
  }

  /** The list comprehension of `get_data_models`. */
  function KeepModels(models: seq<Json>, selected: seq<Json>): (r: Result<seq<Json>>)
    ensures r.Ok? ==> forall m :: m in r.value ==> m in models && OfCommunities(m, selected) == Ok(true)
    ensures r.Ok? <==> forall i :: 0 <= i < |models| ==> OfCommunities(models[i], selected).Ok?
    ensures r.Ok? ==> forall i :: 0 <= i < |models| && OfCommunities(models[i], selected) == Ok(true) ==>
              models[i] in r.value
    ensures r.Ok? ==> r.value == Passing(models, ModelTest(selected))
    ensures r.Raise? ==> exists i :: && 0 <= i < |models|
                                     && OfCommunities(models[i], selected) == Raise(r.error)
                                     && forall j :: 0 <= j < i ==> OfCommunities(models[j], selected).Ok?
  {
    KeepWhere(models, ModelTest(selected))
  }

  /** A data model whose communities are listed is kept exactly when it
      shares a community with the selection. */
  lemma DataModelSharesCommunity(selected: seq<Json>, model: Json, ac: seq<(string, Json)>, communities: seq<Json>)
    requires model.JObj? && Lookup(model.o, "associated_Communities") == Some(JObj(ac))
    requires Lookup(ac, "object") == Some(JArr(communities))
    ensures OfCommunities(model, selected).Ok?
    ensures OfCommunities(model, selected).value <==>
              exists i, j :: 0 <= i < |selected| && 0 <= j < |communities| && PyEq(selected[i], communities[j])
  {
  }

  // ---------------------------------------------------------------------
  // check_other_federation and fetch_policy_by_provider_federation.

  /** The federations other than `input` a rule names, URN-prefixed, in
      order. */
  function OthersIn(keys: seq<string>, input: string): (r: seq<string>)
    ensures |r| <= |keys|
    ensures forall x :: x in r ==> exists k :: k in keys && k != input && x == FederationPrefix + k
    ensures forall k :: k in keys && k != input ==> FederationPrefix + k in r
    decreases |keys|
  {
    if |keys| == 0 then []
    else
      var rest := OthersIn(keys[1..], input);
      assert forall k :: k in keys[1..] ==> k in keys;
      assert forall k :: k in keys ==> k == keys[0] || k in keys[1..];
      if keys[0] != input then [FederationPrefix + keys[0]] + rest else rest
  }

  /** The rule loop of `check_other_federation`: falsy rules and strings
      that are not JSON are skipped, other strings decoded; a rule that is
      not a dictionary has no `keys()`. */
  function OtherIds(rules: seq<Json>, input: string): (r: Result<seq<string>>)
    ensures r.Ok? ==> forall x :: x in r.value ==> exists k :: k != input && x == FederationPrefix + k
    decreases |rules|
  {
    if |rules| == 0 then Ok([])
    else
      var rule := rules[0];
      if !Truthy(rule) then OtherIds(rules[1..], input)
      else
        var decoded := if rule.JStr? then Loads(rule.s) else Ok(rule);
        if decoded.Raise? then OtherIds(rules[1..], input)
        else if !decoded.value.JObj? then Raise(AttributeError)
        else
          var rest :- OtherIds(rules[1..], input);
          Ok(OthersIn(Keys(decoded.value.o), input) + rest)
  }

  /** `check_other_federation(policy, input)`: the other federations and the
      provider's broker address with `//` collapsed, or `([], "")`. */
  function CheckOtherFederation(policy: Json, input: string): (r: Result<(seq<string>, string)>)
    ensures r.Ok? ==> FederationPrefix + input !in r.value.0
    ensures r.Ok? && |r.value.0| == 0 ==> r.value.1 == ""
  {
    if !policy.JObj? then Raise(AttributeError)
    else
      var rules :- Get(Lookup(policy.o, "sharingRules").GetOr(JObj([])), "value", JArr([]));
      var url :- Get(Lookup(policy.o, "ContextBrokerURL").GetOr(JObj([])), "value", JStr(""));
      var rs :- Iterate(rules);
      var ids :- OtherIds(rs, input);
      assert forall k :: FederationPrefix + k == FederationPrefix + input ==> k == input by {
        forall k | FederationPrefix + k == FederationPrefix + input ensures k == input {
          assert k == (FederationPrefix + k)[|FederationPrefix|..];
        }
      }
      if |ids| == 0 then Ok(([], "")) else Ok((ids, RemoveExtraSlashes(PyStr(url))))
  }

  /** A policy made of dictionary rules names every other federation of its
      rules, and the address as published. */
  lemma CheckOtherFederationOfRules(policy: Json, input: string, rule: seq<(string, Json)>, k: string)
    requires policy.JObj?
    requires Lookup(policy.o, "sharingRules") == Some(JObj([("value", JArr([JObj(rule)]))]))
    requires Lookup(policy.o, "ContextBrokerURL") == Some(JObj([("value", JStr(AddExtraSlashes("http://b/ngsi-ld")))]))
    requires k in Keys(rule) && k != input
    ensures CheckOtherFederation(policy, input) == Ok((OthersIn(Keys(rule), input), "http://b/ngsi-ld"))
    ensures FederationPrefix + k in CheckOtherFederation(policy, input).value.0
  {
    assert |rule| > 0;
    assert Truthy(JObj(rule));
    assert OtherIds([JObj(rule)], input) == Ok(OthersIn(Keys(rule), input) + []);
    assert OthersIn(Keys(rule), input) + [] == OthersIn(Keys(rule), input);
    assert FederationPrefix + k in OthersIn(Keys(rule), input);
    SlashesRoundTrip("http://b/ngsi-ld");
  }

  /** `policy.get("providerFederation", {}).get("object")`. */
  function ProviderOf(policy: Json): (r: Result<Json>)
    ensures r.Ok? ==> policy.JObj?
  {
    var pf :- Get(policy, "providerFederation", JObj([]));
    Get(pf, "object", JNull)
  }

  /** The policy names the URN of `provider` as its provider. */
  predicate FromProvider(policy: Json, provider: string)
  {
    ProviderOf(policy) == Ok(JStr(FederationPrefix + provider))
  }

  /** The policy names some other provider (or none) without raising. */
  predicate OtherProvider(policy: Json, provider: string)
  {
    ProviderOf(policy).Ok? && ProviderOf(policy).value != JStr(FederationPrefix + provider)
  }

  /** Policy `i` is the first one from `provider`. */
  predicate FirstFrom(policies: seq<Json>, i: int, provider: string)
  {
    && 0 <= i < |policies| && FromProvider(policies[i], provider)
    && forall j :: 0 <= j < i ==> OtherProvider(policies[j], provider)
  }

  /** `fetch_policy_by_provider_federation(provider)` over the policies the
      broker returns: the first whose provider is the URN of `provider`. */
  function FetchPolicyByProvider(provider: string, policies: seq<Json>): (r: Result<Option<Json>>)
    ensures r.Ok? && r.value.Some? ==>
              exists i :: FirstFrom(policies, i, provider) && policies[i] == r.value.value
    ensures r == Ok(None) ==> forall i :: 0 <= i < |policies| ==> OtherProvider(policies[i], provider)
    decreases |policies|
  {
    if |policies| == 0 then Ok(None)
    else
      var p :- ProviderOf(policies[0]);
      if p == JStr(FederationPrefix + provider) then
        assert FirstFrom(policies, 0, provider);
        Ok(Some(policies[0]))
      else
        var rest :- FetchPolicyByProvider(provider, policies[1..]);
        if rest.Some? then
          ghost var i :| FirstFrom(policies[1..], i, provider) && policies[1..][i] == rest.value;
          FirstFromTail(policies, i, provider);
          Ok(rest)
        else
          OthersTail(policies, provider);
          Ok(rest)
  }

  /** The first match after a policy from another provider. */
  lemma FirstFromTail(policies: seq<Json>, i: int, provider: string)
    requires |policies| > 0 && OtherProvider(policies[0], provider) && FirstFrom(policies[1..], i, provider)
    ensures FirstFrom(policies, i + 1, provider) && policies[i + 1] == policies[1..][i]
  {
    forall j | 0 <= j < i + 1
      ensures OtherProvider(policies[j], provider)
    {
      if j > 0 {
        assert policies[j] == policies[1..][j - 1];
      }
    }
  }

  /** No match after a policy from another provider. */
  lemma OthersTail(policies: seq<Json>, provider: string)
    requires |policies| > 0 && OtherProvider(policies[0], provider)
    requires forall i :: 0 <= i < |policies[1..]| ==> OtherProvider(policies[1..][i], provider)
    ensures forall i :: 0 <= i < |policies| ==> OtherProvider(policies[i], provider)
  {
    forall i | 0 <= i < |policies|
      ensures OtherProvider(policies[i], provider)
    {
      if i > 0 {
        assert policies[i] == policies[1..][i - 1];
      }
    }
  }

  // ---------------------------------------------------------------------
  // store_Federation_Context_based_policy.

  /** The kinds of context stored locally. */
  datatype Kind = Federations | Communities | DataModels

  /** What `store_Federation_Context_based_policy` goes on to do: the
      provider's broker address (`None` when the policy has none), the
      kinds of context it copies, in order, and the other federations it
      visits. */
  datatype ContextPlan = ContextPlan(url: Option<string>, kinds: seq<Kind>, visited: seq<string>)

  /** `first or second in types` with a literal `first`: Python returns the
      non-empty literal without looking at `types`. */
  function OrIn(first: string, second: string, types: Json): (r: Result<bool>)
    ensures |first| > 0 ==> r == Ok(true)
  {
    if |first| > 0 then Ok(true) else PyIn(JStr(second), types)
  }

  /** The `ContextBrokerURL` of the policy, with `//` collapsed. */
  function ContextUrl(policy: seq<(string, Json)>): (r: Result<Option<string>>)
  {
    var cb := Lookup(policy, "ContextBrokerURL");
    if cb.None? then Ok(None)
    else
      var v :- Index(cb.value, "value");
      if v == JNull then Ok(None)
      else if !v.JStr? then Raise(AttributeError)
      else Ok(Some(RemoveExtraSlashes(v.s)))
  }

  /** The decisions of `store_Federation_Context_based_policy` for the
      provider's policy. The other-federation loop runs only over an empty
      list (`if not other_federations`). */
  function StoreContextPlan(policy: Json, federation: string): (r: Result<ContextPlan>)
    ensures r.Ok? ==> r.value.kinds == [Federations, Communities, DataModels, DataModels]
    ensures r.Ok? ==> r.value.visited == []
  {
    if policy == JNull then Raise(TypeError)
    else if !policy.JObj? then
      var has :- PyIn(JStr("ContextBrokerURL"), policy);
      if has then Raise(TypeError) else Raise(AttributeError)
    else
      var url :- ContextUrl(policy.o);
      var types :- Get(Lookup(policy.o, "permittedContextTypes").GetOr(JObj([])), "value", JArr([]));
      var f := OrIn("federations", "federation", types).value;
      var c := OrIn("communities", "community", types).value;
      var d1 := OrIn("datamodels", "datamodel", types).value;
      var d2 := OrIn("datamodels", "datamodel", types).value;
      var kinds := (if f then [Federations] else [])
                   + (if c then [Communities] + (if d1 then [DataModels] else []) else [])
                   + (if d2 then [DataModels] else []);
      var others :- CheckOtherFederation(policy, federation);
      var visited := if |others.0| == 0 then others.0 else [];
      Ok(ContextPlan(url, kinds, visited))
  }

  /** Whatever `permittedContextTypes` holds, a policy that is read
      without error has every kind of context copied, and no other
      federation is visited. */
  lemma PlanCopiesEverything(o: seq<(string, Json)>, federation: string, url: Option<string>)
    requires ContextUrl(o) == Ok(url)
    requires Get(Lookup(o, "permittedContextTypes").GetOr(JObj([])), "value", JArr([])).Ok?
    requires CheckOtherFederation(JObj(o), federation).Ok?
    ensures StoreContextPlan(JObj(o), federation) == Ok(ContextPlan(url, [Federations, Communities, DataModels, DataModels], []))
  {
  }
}
