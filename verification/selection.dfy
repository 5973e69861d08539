/** Choosing the policy to use for a federation (`get_most_suitable_policy`).

    Each policy is scored by its sharing rules: the first rule that names the
    federation and decides (rejection, or both flags "true") gives the score;
    otherwise a `public` rule gives a fallback score. Scores are kept in
    tenths (`1 + 0.1 * n` is `10 + n`), and `float('-inf')` is `Reject`,
    below every number. The policies are sorted by score, descending and
    stably, and the first is returned when its score is positive.
 */
module Selection {
  import opened Basics
  import opened Text
  import opened Json
  import opened Forwarding

  datatype Score = Reject | Points(tenths: int)

  /** `a < b` on scores. */
  predicate Less(a: Score, b: Score)
  {
    match (a, b)
    case (Reject, Points(_)) => true
    case (Points(x), Points(y)) => x < y
    case _ => false
  }

  /** `score > 0`. */
  predicate Positive(s: Score)
  {
    s.Points? && s.tenths > 0
  }

  /** The score one rule's entry for the federation gives, if it decides:
      a falsy `canReceive` (missing counts as `False`) or a `canForward`
      reading "false" rejects; both flags `True`, or both reading "true",
      score 3; `canReceive` "true" with `canForward` "false" would score 2,
      but that case has already been rejected, so 2 is never given. */
  function FederationScore(fr: Json): (r: Result<Option<Score>>)
    ensures r != Ok(Some(Points(20)))
  {
    if !fr.JObj? then Raise(AttributeError)
    else
      var receive := Lookup(fr.o, "canReceive").GetOr(JBool(false));
      var forwardText := Lookup(fr.o, "canForward").GetOr(JStr(""));
      if !Truthy(receive) || IsFalseText(forwardText) then Ok(Some(Reject))
      else if (receive == JBool(true) && Lookup(fr.o, "canForward").GetOr(JBool(false)) == JBool(true))
              || (IsTrueText(Lookup(fr.o, "canReceive").GetOr(JStr(""))) && IsTrueText(forwardText)) then
        Ok(Some(Points(30)))
      else if IsTrueText(Lookup(fr.o, "canReceive").GetOr(JStr(""))) && IsFalseText(forwardText) then
        Ok(Some(Points(20)))
      else Ok(None)
  }

  /** The loop over the rules: a rule that names the federation is asked;
      the first answer ends the loop. */
  function RuleScore(rules: seq<Json>, fed: string): (r: Result<Option<Score>>)
    decreases |rules|
  {
    if |rules| == 0 then Ok(None)
    else
      var has :- PyIn(JStr(fed), rules[0]);
      if !has then RuleScore(rules[1..], fed)
      else
        var fr :- Index(rules[0], fed);
        var s :- FederationScore(fr);
        if s.Some? then Ok(s) else RuleScore(rules[1..], fed)
  }

  /** `next((rule for rule in rules if "public" in rule), None)`. */
  function FirstPublic(rules: seq<Json>): (r: Result<Option<Json>>)
    ensures r.Ok? && r.value.Some? ==> r.value.value in rules
    decreases |rules|
  {
    if |rules| == 0 then Ok(None)
    else
      var has :- PyIn(JStr("public"), rules[0]);
      if has then Ok(Some(rules[0])) else FirstPublic(rules[1..])
  }

  /** `len([t for t in types if t in container])`. */
  function CountIn(types: seq<Json>, container: Json): (r: Result<nat>)
    ensures r.Ok? ==> r.value <= |types|
    decreases |types|
  {
    if |types| == 0 then Ok(0)
    else
      var hit :- PyIn(types[0], container);
      var rest :- CountIn(types[1..], container);
      Ok(rest + if hit then 1 else 0)
  }

  /** The fallback score of a `public` rule. */
  function PublicScore(rule: Json, types: Json): (r: Result<Score>)
  {
    var pp :- Index(rule, "public");
    if !pp.JObj? then Raise(AttributeError)
    else
      var receive := Lookup(pp.o, "canReceive").GetOr(JStr(""));
      if IsTrueText(receive) && IsTrueText(Lookup(pp.o, "canForward").GetOr(JStr(""))) then Ok(Points(15))
      else if IsTrueText(receive) then
        var ts :- Iterate(types);
        var n :- CountIn(ts, pp);
        Ok(Points(10 + n))
      else Ok(Points(0))
  }

  /** `score_policy(policy)` for one federation. */
  function ScorePolicy(fed: string, policy: Json): (r: Result<Score>)
  {
    if !policy.JObj? then Raise(AttributeError)
    else
      var rules :- Get(Lookup(policy.o, "sharingRules").GetOr(JObj([])), "value", JArr([]));
      var types :- Get(Lookup(policy.o, "permittedContextTypes").GetOr(JObj([])), "value", JArr([]));
      var rs :- Iterate(rules);
      var pub :- FirstPublic(rs);
      var decided :- RuleScore(rs, fed);
      if decided.Some? then Ok(decided.value)
      else if pub.Some? && Truthy(pub.value) then PublicScore(pub.value, types)
      else Ok(Points(0))
  }

  /** The scores of all policies, in order; the first exception ends it. */
  function Scores(fed: string, policies: seq<Json>): (r: Result<seq<Score>>)
    ensures r.Ok? ==> |r.value| == |policies|
    ensures r.Ok? ==> forall i :: 0 <= i < |policies| ==> ScorePolicy(fed, policies[i]) == Ok(r.value[i])
    decreases |policies|
  {
    if |policies| == 0 then Ok([])
    else
      var s :- ScorePolicy(fed, policies[0]);
      var rest :- Scores(fed, policies[1..]);
      Ok([s] + rest)
  }

  /** The position the stable descending sort puts first: the earliest
      maximal score. */
  function Best(scores: seq<Score>): (r: nat)
    requires |scores| > 0
    ensures r < |scores|
    ensures forall j :: 0 <= j < |scores| ==> !Less(scores[r], scores[j])
    ensures forall j :: 0 <= j < r ==> Less(scores[j], scores[r])
    decreases |scores|
  {
    if |scores| == 1 then 0
    else
      var b := Best(scores[..|scores| - 1]);
      assert forall j :: 0 <= j < |scores| - 1 ==> scores[..|scores| - 1][j] == scores[j];
      if Less(scores[b], scores[|scores| - 1]) then |scores| - 1 else b
  }

  /** `get_most_suitable_policy(fed, policies)`: `None` stands for `False`. */
  function MostSuitable(fed: string, policies: seq<Json>): (r: Result<Option<Json>>)
  {
    var ss :- Scores(fed, policies);
    if |ss| == 0 then Ok(None)
    else
      var b := Best(ss);
      if Positive(ss[b]) then Ok(Some(policies[b])) else Ok(None)
  }

  /** The returned policy has a positive, maximal score, and every policy
      before it scores strictly less; no policy is returned when the list
      is empty or the best score is not positive. */
  lemma MostSuitableIsBest(fed: string, policies: seq<Json>)
    requires Scores(fed, policies).Ok?
    ensures var ss := Scores(fed, policies).value;
            var r := MostSuitable(fed, policies);
            && r.Ok?
            && (r.value.Some? <==> exists i :: 0 <= i < |ss| && Positive(ss[i]))
            && (r.value.Some? ==>
                  exists k :: 0 <= k < |policies| && r.value.value == policies[k] && Positive(ss[k])
                    && (forall j :: 0 <= j < |ss| ==> !Less(ss[k], ss[j]))
                    && (forall j :: 0 <= j < k ==> Less(ss[j], ss[k])))
  {
    var ss := Scores(fed, policies).value;
    if |ss| > 0 {
      var b := Best(ss);
      if exists i :: 0 <= i < |ss| && Positive(ss[i]) {
        var i :| 0 <= i < |ss| && Positive(ss[i]);
        assert !Less(ss[b], ss[i]);
      }
    }
  }

  /** A policy that scores `Reject` is never returned. */
  lemma RejectedNeverChosen(fed: string, policies: seq<Json>, k: nat)
    requires k < |policies|
    requires ScorePolicy(fed, policies[k]) == Ok(Reject)
    requires MostSuitable(fed, policies).Ok? && MostSuitable(fed, policies).value.Some?
    ensures exists j :: 0 <= j < |policies| && MostSuitable(fed, policies).value.value == policies[j]
              && ScorePolicy(fed, policies[j]) != Ok(Reject)
  {
    var ss := Scores(fed, policies).value;
    var b := Best(ss);
    assert ScorePolicy(fed, policies[b]) == Ok(ss[b]);
  }

  /** The first rule naming the federation decides rejection when its
      `canReceive` is falsy or its `canForward` reads "false". */
  lemma {:induction false} FirstNamingRuleRejects(rules: seq<Json>, fed: string, k: nat)
    requires k < |rules|
    requires forall i :: 0 <= i <= k ==> rules[i].JObj?
    requires forall i :: 0 <= i < k ==> fed !in Keys(rules[i].o)
    requires fed in Keys(rules[k].o)
    requires var fr := Lookup(rules[k].o, fed).value;
             fr.JObj? && (!Truthy(Lookup(fr.o, "canReceive").GetOr(JBool(false)))
                          || IsFalseText(Lookup(fr.o, "canForward").GetOr(JStr(""))))
    ensures RuleScore(rules, fed) == Ok(Some(Reject))
    decreases k
  {
    if k > 0 {
      assert PyIn(JStr(fed), rules[0]) == Ok(false);
      FirstNamingRuleRejects(rules[1..], fed, k - 1);
    }
  }

  /** A policy whose first rule naming the federation rejects it scores
      `Reject`, whatever its `public` rule says. */
  lemma RejectingPolicy(fed: string, policy: Json, k: nat)
    requires policy.JObj?
    requires Lookup(policy.o, "sharingRules").GetOr(JObj([])).JObj?
    requires Lookup(policy.o, "permittedContextTypes").GetOr(JObj([])).JObj?
    requires var rules := Lookup(Lookup(policy.o, "sharingRules").GetOr(JObj([])).o, "value").GetOr(JArr([]));
             && rules.JArr? && k < |rules.a|
             && (forall i :: 0 <= i < |rules.a| ==> rules.a[i].JObj?)
             && (forall i :: 0 <= i < k ==> fed !in Keys(rules.a[i].o))
             && fed in Keys(rules.a[k].o)
             && var fr := Lookup(rules.a[k].o, fed).value;
                fr.JObj? && (!Truthy(Lookup(fr.o, "canReceive").GetOr(JBool(false)))
                             || IsFalseText(Lookup(fr.o, "canForward").GetOr(JStr(""))))
    ensures ScorePolicy(fed, policy) == Ok(Reject)
  {
    var rules := Lookup(Lookup(policy.o, "sharingRules").GetOr(JObj([])).o, "value").GetOr(JArr([])).a;
    FirstNamingRuleRejects(rules, fed, k);
    FirstPublicOfDicts(rules);
  }

  /** Looking for the `public` rule among dictionaries never raises. */
  lemma {:induction false} FirstPublicOfDicts(rules: seq<Json>)
    requires forall i :: 0 <= i < |rules| ==> rules[i].JObj?
    ensures FirstPublic(rules).Ok?
    decreases |rules|
  {
    if |rules| > 0 {
      FirstPublicOfDicts(rules[1..]);
    }
  }
}
