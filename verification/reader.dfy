/** Collecting a GET window and splitting it into entities.

    `GET` listens on its filters and keeps each retained delivery, counting
    the distinct entity ids (the next-to-last topic level) in order of first
    arrival; the delivery whose id count equals `limit + 1` is dropped and
    cuts the window short. `recreate_multiple_entities` groups the kept
    messages by id, in order of first arrival, and rebuilds at most `limit`
    of the groups.
 */
module Reader {
  import opened Basics
  import opened Text
  import opened Topics
  import opened Broker

  /** A topic carries an entity id when it has at least two levels. */
  predicate HasId(m: Message)
  {
    |LevelsOf(m.topic)| >= 2
  }

  /** `topic.split('/')[-2]`; one level raises `IndexError`. */
  function IdOf(m: Message): (r: Result<string>)
    ensures r.Ok? <==> HasId(m)
  {
    var l := LevelsOf(m.topic);
    if |l| < 2 then Raise(IndexError) else Ok(l[|l| - 2])
  }

  function EntityId(m: Message): string
    requires HasId(m)
  {
    IdOf(m).value
  }

  predicate AllHaveIds(ms: seq<Message>)
  {
    forall i :: 0 <= i < |ms| ==> HasId(ms[i])
  }

  /** The retained deliveries of a window, in order. */
  function Retained(w: seq<Message>): (r: seq<Message>)
    ensures |r| <= |w|
    ensures forall i :: 0 <= i < |r| ==> r[i].retain && r[i] in w
    decreases |w|
  {
    if |w| == 0 then []
    else
      var rest := Retained(w[..|w| - 1]);
      if w[|w| - 1].retain then rest + [w[|w| - 1]] else rest
  }

  /** The entity ids of messages, without repeats, in order of first
      appearance. */
  function DistinctIds(ms: seq<Message>): (r: seq<string>)
    requires AllHaveIds(ms)
    ensures forall i :: 0 <= i < |ms| ==> EntityId(ms[i]) in r
    ensures forall x :: x in r ==> exists i :: 0 <= i < |ms| && EntityId(ms[i]) == x
    ensures forall j, k :: 0 <= j < k < |r| ==> r[j] != r[k]
    decreases |ms|
  {
    if |ms| == 0 then []
    else
      var init := ms[..|ms| - 1];
      var d := DistinctIds(init);
      var x := EntityId(ms[|ms| - 1]);
      assert forall i :: 0 <= i < |init| ==> init[i] == ms[i];
      if x in d then d else d + [x]
  }

  /** What the callback has built: the kept messages and the id dictionary's
      keys. */
  datatype Collected = Collected(kept: seq<Message>, ids: seq<string>)

  /** The callback on one delivery. `atLimit` decides when a delivery is
      dropped, from the number of ids after it and the limit. */
  function Step(st: Collected, m: Message, limit: int, orMore: bool): Result<Collected>
  {
    if !m.retain then Ok(st)
    else
      var id :- IdOf(m);
      var ids := if id in st.ids then st.ids else st.ids + [id];
      var dropped := if orMore then |ids| >= limit + 1 else |ids| == limit + 1;
      Ok(Collected(if dropped then st.kept else st.kept + [m], ids))
  }

  /** The callback over a window. `orMore == false` is the comparison as
      written (`len(messages_by_id) == limit + 1`); `orMore == true` is
      the corrected one (`>=`). */
  function Collect(w: seq<Message>, limit: int, orMore: bool): Result<Collected>
    decreases |w|
  {
    if |w| == 0 then Ok(Collected([], []))
    else
      var st :- Collect(w[..|w| - 1], limit, orMore);
      Step(st, w[|w| - 1], limit, orMore)
  }

  /** `GET` as written: the kept messages. */
  function Get(w: seq<Message>, limit: int): Result<seq<Message>>
  {
    var st :- Collect(w, limit, false);
    Ok(st.kept)
  }

  /** `GET` with the corrected comparison. */
  function GetFixed(w: seq<Message>, limit: int): Result<seq<Message>>
  {
    var st :- Collect(w, limit, true);
    Ok(st.kept)
  }

  /** Where the corrected `GET` stops keeping: the length of the longest
      prefix whose retained deliveries carry at most `limit` ids. */
  function Cut(w: seq<Message>, limit: int): (c: nat)
    requires AllHaveIds(Retained(w))
    ensures c <= |w|
    decreases |w|
  {
    RetainedPrefix(w, |w|);
    if |DistinctIds(Retained(w))| <= limit || |w| == 0 then |w|
    else
      var init := w[..|w| - 1];
      RetainedPrefix(w, |w| - 1);
      if |DistinctIds(Retained(init))| > limit then Cut(init, limit) else |w| - 1
  }

  /** Every retained delivery of the window is kept. */
  lemma {:induction false} RetainedComplete(w: seq<Message>)
    ensures forall i :: 0 <= i < |w| && w[i].retain ==> w[i] in Retained(w)
    decreases |w|
  {
    if |w| > 0 {
      RetainedComplete(w[..|w| - 1]);
      assert forall i :: 0 <= i < |w| - 1 ==> w[..|w| - 1][i] == w[i];
    }
  }

  /** Keeping the retained deliveries distributes over concatenation, so
      they stay in arrival order. */
  lemma {:induction false} RetainedAppend(a: seq<Message>, b: seq<Message>)
    ensures Retained(a + b) == Retained(a) + Retained(b)
    decreases |b|
  {
    if |b| == 0 {
      assert a + b == a;
    } else {
      assert (a + b)[..|a + b| - 1] == a + b[..|b| - 1];
      RetainedAppend(a, b[..|b| - 1]);
    }
  }

  /** The retained deliveries of a prefix are a prefix of the retained
      deliveries. */
  lemma {:induction false} RetainedPrefix(w: seq<Message>, n: nat)
    requires n <= |w|
    ensures |Retained(w[..n])| <= |Retained(w)|
    ensures Retained(w[..n]) == Retained(w)[..|Retained(w[..n])|]
    decreases |w|
  {
    if n < |w| {
      assert w[..|w| - 1][..n] == w[..n];
      RetainedPrefix(w[..|w| - 1], n);
    } else {
      assert w[..n] == w;
    }
  }

  /** Ids of a prefix are a prefix of the ids. */
  lemma {:induction false} DistinctIdsPrefix(ms: seq<Message>, n: nat)
    requires AllHaveIds(ms) && n <= |ms|
    ensures |DistinctIds(ms[..n])| <= |DistinctIds(ms)|
    ensures DistinctIds(ms[..n]) == DistinctIds(ms)[..|DistinctIds(ms[..n])|]
    decreases |ms|
  {
    if n < |ms| {
      assert ms[..|ms| - 1][..n] == ms[..n];
      DistinctIdsPrefix(ms[..|ms| - 1], n);
    } else {
      assert ms[..n] == ms;
    }
  }

  /** One more delivery: the retained deliveries and their ids grow by it
      when it is retained. */
  lemma IdsStep(w: seq<Message>)
    requires |w| > 0 && AllHaveIds(Retained(w))
    ensures var init := w[..|w| - 1];
            var m := w[|w| - 1];
            AllHaveIds(Retained(init)) &&
            (m.retain ==> HasId(m)) &&
            DistinctIds(Retained(w)) ==
              if m.retain && EntityId(m) !in DistinctIds(Retained(init))
              then DistinctIds(Retained(init)) + [EntityId(m)]
              else DistinctIds(Retained(init))
  {
    var init := w[..|w| - 1];
    var m := w[|w| - 1];
    RetainedPrefix(w, |w| - 1);
    assert AllHaveIds(Retained(init)) by {
      forall i | 0 <= i < |Retained(init)| ensures HasId(Retained(init)[i]) {
        assert Retained(init)[i] == Retained(w)[i];
      }
    }
    if m.retain {
      var rw := Retained(w);
      assert rw == Retained(init) + [m];
      assert HasId(rw[|rw| - 1]);
      assert rw[..|rw| - 1] == Retained(init);
    }
  }

  /** The cut of a window against the cut of the window without its last
      delivery. */
  lemma CutStep(w: seq<Message>, limit: int)
    requires |w| > 0 && AllHaveIds(Retained(w))
    ensures AllHaveIds(Retained(w[..|w| - 1]))
    ensures var init := w[..|w| - 1];
            var ids := DistinctIds(Retained(w));
            var before := DistinctIds(Retained(init));
            if |before| > limit then Cut(w, limit) == Cut(init, limit) && |ids| > limit
            else if |ids| <= limit then Cut(w, limit) == |w| && Cut(init, limit) == |init|
            else Cut(w, limit) == |w| - 1 && Cut(init, limit) == |init|
  {
    IdsStep(w);
  }

  /** The corrected `GET` keeps exactly the retained deliveries before the
      first delivery of the `limit + 1`-th entity, and its dictionary holds
      every id of the window. */
  lemma {:induction false} CollectFixedKeepsPrefix(w: seq<Message>, limit: int)
    requires AllHaveIds(Retained(w))
    ensures Collect(w, limit, true).Ok?
    ensures Collect(w, limit, true).value.ids == DistinctIds(Retained(w))
    ensures Collect(w, limit, true).value.kept == Retained(w[..Cut(w, limit)])
    decreases |w|
  {
    if |w| > 0 {
      var init := w[..|w| - 1];
      var m := w[|w| - 1];
      assert AllHaveIds(Retained(init)) by {
        IdsStep(w);
      }
      CollectFixedKeepsPrefix(init, limit);
      var st := Collect(init, limit, true).value;
      var ids := DistinctIds(Retained(w));
      var kept := if m.retain && |ids| <= limit then st.kept + [m] else st.kept;
      assert Collect(w, limit, true) == Step(st, m, limit, true) by {
        CollectSnoc(init, m, limit, true);
        InitLast(w);
      }
      assert Step(st, m, limit, true) == Ok(Collected(kept, ids)) by {
        IdsStep(w);
        StepFixed(st, m, limit, ids);
      }
      assert Retained(w[..Cut(w, limit)]) == kept by {
        RetainedCutStep(w, limit);
      }
    }
  }

  /** The retained deliveries before the cut grow by the last delivery
      exactly when it is retained and the ids still number at most `limit`. */
  lemma RetainedCutStep(w: seq<Message>, limit: int)
    requires |w| > 0 && AllHaveIds(Retained(w))
    ensures AllHaveIds(Retained(w[..|w| - 1]))
    ensures var init := w[..|w| - 1];
            var m := w[|w| - 1];
            Retained(w[..Cut(w, limit)]) ==
              if m.retain && |DistinctIds(Retained(w))| <= limit
              then Retained(init[..Cut(init, limit)]) + [m]
              else Retained(init[..Cut(init, limit)])
  {
    var init := w[..|w| - 1];
    CutStep(w, limit);
    var ids := DistinctIds(Retained(w));
    var before := DistinctIds(Retained(init));
    if |before| > limit {
      SamePrefix(w, Cut(w, limit));
    } else if |ids| <= limit {
      WholeRetained(w, Cut(w, limit), Cut(init, limit));
    } else {
      LastCut(w, Cut(w, limit), Cut(init, limit));
    }
  }

  lemma SamePrefix(w: seq<Message>, c: nat)
    requires c < |w|
    ensures w[..|w| - 1][..c] == w[..c]
  {
  }

  /** Nothing is cut: the last delivery counts when it is retained. */
  lemma WholeRetained(w: seq<Message>, c: nat, ci: nat)
    requires |w| > 0 && c == |w| && ci == |w| - 1
    ensures Retained(w[..c]) ==
              if w[|w| - 1].retain then Retained(w[..|w| - 1][..ci]) + [w[|w| - 1]]
              else Retained(w[..|w| - 1][..ci])
  {
    assert w[..c] == w && w[..|w| - 1][..ci] == w[..|w| - 1];
  }

  /** Only the last delivery is cut. */
  lemma LastCut(w: seq<Message>, c: nat, ci: nat)
    requires |w| > 0 && c == |w| - 1 && ci == |w| - 1
    ensures Retained(w[..c]) == Retained(w[..|w| - 1][..ci])
  {
    assert w[..|w| - 1][..ci] == w[..|w| - 1];
  }

  /** The ids of the prefix before the cut number at most `limit`. */
  lemma {:induction false} CutBound(w: seq<Message>, limit: int)
    requires AllHaveIds(Retained(w))
    ensures AllHaveIds(Retained(w[..Cut(w, limit)]))
    ensures |DistinctIds(Retained(w[..Cut(w, limit)]))| <= if limit < 0 then 0 else limit
    decreases |w|
  {
    var c := Cut(w, limit);
    RetainedPrefix(w, c);
    assert AllHaveIds(Retained(w[..c])) by {
      forall i | 0 <= i < |Retained(w[..c])| ensures HasId(Retained(w[..c])[i]) {
        assert Retained(w[..c])[i] == Retained(w)[i];
      }
    }
    if |w| > 0 && |DistinctIds(Retained(w))| > limit {
      var init := w[..|w| - 1];
      RetainedPrefix(w, |w| - 1);
      assert AllHaveIds(Retained(init)) by {
        forall i | 0 <= i < |Retained(init)| ensures HasId(Retained(init)[i]) {
          assert Retained(init)[i] == Retained(w)[i];
        }
      }
      if |DistinctIds(Retained(init))| > limit {
        CutBound(init, limit);
        assert init[..Cut(init, limit)] == w[..c];
      } else {
        assert w[..c] == init;
      }
    } else if |w| == 0 {
      assert w[..c] == [];
    } else {
      assert w[..c] == w;
    }
  }

  /** The corrected `GET` keeps messages of at most `limit` entities, and
      exactly the retained deliveries that arrived before the first message
      of the entity beyond the limit. */
  lemma GetFixedBound(w: seq<Message>, limit: int)
    requires AllHaveIds(Retained(w))
    ensures GetFixed(w, limit) == Ok(Retained(w[..Cut(w, limit)]))
    ensures AllHaveIds(GetFixed(w, limit).value)
    ensures |DistinctIds(GetFixed(w, limit).value)| <= if limit < 0 then 0 else limit
  {
    CollectFixedKeepsPrefix(w, limit);
    CutBound(w, limit);
  }

  /** A window no larger than the limit is kept whole, as written and as
      corrected. */
  lemma {:induction false} GetUnderLimit(w: seq<Message>, limit: int)
    requires AllHaveIds(Retained(w)) && |DistinctIds(Retained(w))| <= limit
    ensures Collect(w, limit, false) == Collect(w, limit, true)
    ensures Get(w, limit) == Ok(Retained(w))
    decreases |w|
  {
    if |w| > 0 {
      var init := w[..|w| - 1];
      var m := w[|w| - 1];
      IdsStep(w);
      CutStep(w, limit);
      GetUnderLimit(init, limit);
      CollectFixedKeepsPrefix(w, limit);
      CollectFixedKeepsPrefix(init, limit);
      var st := Collect(init, limit, true).value;
      assert Collect(w, limit, false) == Step(st, m, limit, false);
      assert Collect(w, limit, true) == Step(st, m, limit, true);
      StepUnderLimit(st, m, limit);
      assert w[..|w|] == w;
    } else {
      assert Retained(w) == [];
    }
  }

  /** A delivery that leaves at most `limit` ids is dropped by neither
      comparison. */
  lemma StepUnderLimit(st: Collected, m: Message, limit: int)
    requires Step(st, m, limit, true).Ok? && |Step(st, m, limit, true).value.ids| <= limit
    ensures Step(st, m, limit, false) == Step(st, m, limit, true)
  {
  }

  /** A retained message on `x/<id>/v`. */
  function Sample(id: string): Message
  {
    Message(TopicOf(["x", id, "v"]), id, true)
  }

  lemma SampleId(id: string)
    requires '/' !in id
    ensures IdOf(Sample(id)) == Ok(id)
  {
    LevelsOfTopic(["x", id, "v"]);
  }

  lemma CollectTwo()
    ensures Collect([Sample("A"), Sample("B")], 1, false) == Ok(Collected([Sample("A")], ["A", "B"]))
  {
    SampleId("A");
    SampleId("B");
    CollectTwoEntities(Sample("A"), Sample("B"), "A", "B");
  }

  /** Two retained deliveries of two entities under a limit of one, as
      written: the second entity's message is dropped. */
  lemma CollectTwoEntities(a: Message, b: Message, ida: string, idb: string)
    requires a.retain && b.retain && IdOf(a) == Ok(ida) && IdOf(b) == Ok(idb) && ida != idb
    ensures Collect([a, b], 1, false) == Ok(Collected([a], [ida, idb]))
  {
    CollectOne(a, ida);
    CollectSnoc([a], b, 1, false);
    assert [a] + [b] == [a, b];
    StepNew(Collected([a], [ida]), b, 1, idb);
    assert [ida] + [idb] == [ida, idb];
  }

  /** One retained delivery under a limit of one is kept, as written. */
  lemma CollectOne(a: Message, ida: string)
    requires a.retain && IdOf(a) == Ok(ida)
    ensures Collect([a], 1, false) == Ok(Collected([a], [ida]))
  {
    var e: seq<Message> := [];
    var n: seq<string> := [];
    CollectSnoc(e, a, 1, false);
    assert e + [a] == [a];
    StepNew(Collected(e, n), a, 1, ida);
    assert n + [ida] == [ida];
  }

  /** The callback over one more delivery. */
  lemma CollectSnoc(w: seq<Message>, m: Message, limit: int, orMore: bool)
    ensures Collect(w, limit, orMore).Raise? ==> Collect(w + [m], limit, orMore) == Raise(Collect(w, limit, orMore).error)
    ensures Collect(w, limit, orMore).Ok? ==> Collect(w + [m], limit, orMore) == Step(Collect(w, limit, orMore).value, m, limit, orMore)
  {
    assert (w + [m])[..|w|] == w;
  }

  /** One delivery under the corrected comparison, given the ids after it. */
  lemma StepFixed(st: Collected, m: Message, limit: int, after: seq<string>)
    requires m.retain ==> HasId(m)
    requires after == (if m.retain && EntityId(m) !in st.ids then st.ids + [EntityId(m)] else st.ids)
    ensures Step(st, m, limit, true) ==
              Ok(Collected(if m.retain && |after| <= limit then st.kept + [m] else st.kept, after))
  {
  }

  /** A retained delivery of a new entity, under the comparison as written. */
  lemma StepNew(st: Collected, m: Message, limit: int, id: string)
    requires m.retain && IdOf(m) == Ok(id) && id !in st.ids
    ensures Step(st, m, limit, false) ==
              Ok(Collected(if |st.ids| + 1 == limit + 1 then st.kept else st.kept + [m], st.ids + [id]))
  {
  }

  /** As written, the comparison only drops while the dictionary holds
      exactly `limit + 1` ids: with `limit == 1` and three entities arriving
      one message each, the third entity's message is kept again, so the
      result holds two entities. */
  lemma GetKeepsPastLimit()
    ensures Get([Sample("A"), Sample("B"), Sample("C")], 1) == Ok([Sample("A"), Sample("C")])
  {
    CollectTwo();
    SampleId("C");
    ThirdEntityKept(Sample("A"), Sample("B"), Sample("C"), "A", "B", "C");
  }

  /** As written, every delivery arriving while the dictionary holds
      `limit + 1` ids is dropped: with `limit == 1`, a second message of the
      second entity is dropped like its first. */
  lemma GetDropsWhileAtLimit()
    ensures Get([Sample("A"), Sample("B"), Sample("B")], 1) == Ok([Sample("A")])
  {
    var a, b := Sample("A"), Sample("B");
    CollectTwo();
    SampleId("B");
    assert [a, b, b][..2] == [a, b];
    assert Collect([a, b, b], 1, false) == Step(Collected([a], ["A", "B"]), b, 1, false);
    assert Step(Collected([a], ["A", "B"]), b, 1, false) == Ok(Collected([a], ["A", "B"]));
  }

  /** After two entities under a limit of one, a third entity's message is
      kept again by the comparison as written. */
  lemma ThirdEntityKept(a: Message, b: Message, c: Message, ida: string, idb: string, idc: string)
    requires Collect([a, b], 1, false) == Ok(Collected([a], [ida, idb]))
    requires c.retain && IdOf(c) == Ok(idc) && idc != ida && idc != idb
    ensures Get([a, b, c], 1) == Ok([a, c])
  {
    CollectSnoc([a, b], c, 1, false);
    assert [a, b] + [c] == [a, b, c];
    StepNew(Collected([a], [ida, idb]), c, 1, idc);
    assert [a] + [c] == [a, c];
  }

  // ---------------------------------------------------------------------
  // recreate_multiple_entities

  /** The messages of one entity, in arrival order. */
  function OfEntity(ms: seq<Message>, id: string): (r: seq<Message>)
    requires AllHaveIds(ms)
    ensures forall i :: 0 <= i < |r| ==> r[i] in ms && HasId(r[i]) && EntityId(r[i]) == id
    decreases |ms|
  {
    if |ms| == 0 then []
    else
      var init := ms[..|ms| - 1];
      assert forall i :: 0 <= i < |init| ==> init[i] == ms[i];
      var rest := OfEntity(init, id);
      if EntityId(ms[|ms| - 1]) == id then rest + [ms[|ms| - 1]] else rest
  }

  /** `messages_by_id.setdefault(id, []).append(m)` on an ordered dict. */
  function AddToGroup(groups: seq<(string, seq<Message>)>, id: string, m: Message): (r: seq<(string, seq<Message>)>)
    ensures |r| == |groups| || r == groups + [(id, [m])]
  {
    if exists i :: 0 <= i < |groups| && groups[i].0 == id then
      var i :| 0 <= i < |groups| && groups[i].0 == id;
      var j := FirstWithKey(groups, id, i);
      groups[j := (id, groups[j].1 + [m])]
    else groups + [(id, [m])]
  }

  /** The first position holding `id`. */
  function FirstWithKey(groups: seq<(string, seq<Message>)>, id: string, hint: nat): (j: nat)
    requires hint < |groups| && groups[hint].0 == id
    ensures j <= hint && groups[j].0 == id
    ensures forall k :: 0 <= k < j ==> groups[k].0 != id
  {
    if groups[0].0 == id then 0
    else 1 + FirstWithKey(groups[1..], id, hint - 1)
  }

  /** The grouping loop. */
  function GroupById(ms: seq<Message>): Result<seq<(string, seq<Message>)>>
    decreases |ms|
  {
    if |ms| == 0 then Ok([])
    else
      var groups :- GroupById(ms[..|ms| - 1]);
      var id :- IdOf(ms[|ms| - 1]);
      Ok(AddToGroup(groups, id, ms[|ms| - 1]))
  }

  /** Appending a message to an entity's group when the entity is known. */
  lemma AddToKnownGroup(g: seq<(string, seq<Message>)>, d: seq<string>, i: nat, m: Message)
    requires |g| == |d| && i < |d|
    requires forall k :: 0 <= k < |d| ==> g[k].0 == d[k]
    requires forall j, k :: 0 <= j < k < |d| ==> d[j] != d[k]
    ensures AddToGroup(g, d[i], m) == g[i := (d[i], g[i].1 + [m])]
  {
    var j := FirstWithKey(g, d[i], i);
    assert g[j].0 == d[j];
  }

  /** Appending a message of a new entity opens a group at the end. */
  lemma AddToNewGroup(g: seq<(string, seq<Message>)>, d: seq<string>, x: string, m: Message)
    requires |g| == |d| && x !in d
    requires forall k :: 0 <= k < |d| ==> g[k].0 == d[k]
    ensures AddToGroup(g, x, m) == g + [(x, [m])]
  {
    forall i | 0 <= i < |g| ensures g[i].0 != x {
      assert g[i].0 == d[i];
    }
  }

  /** The messages of an entity grow by the last message when it is the
      entity's. */
  lemma OfEntityStep(ms: seq<Message>, x: string)
    requires AllHaveIds(ms) && |ms| > 0
    ensures AllHaveIds(ms[..|ms| - 1])
    ensures OfEntity(ms, x) == OfEntity(ms[..|ms| - 1], x) + (if EntityId(ms[|ms| - 1]) == x then [ms[|ms| - 1]] else [])
  {
    assert forall i :: 0 <= i < |ms| - 1 ==> ms[..|ms| - 1][i] == ms[i];
  }

  /** An entity not among the ids has no messages. */
  lemma OfEntityAbsent(ms: seq<Message>, x: string)
    requires AllHaveIds(ms) && x !in DistinctIds(ms)
    ensures OfEntity(ms, x) == []
  {
  }

  /** The groups of `ms` are the entities `d` with their messages. */
  predicate GroupsAre(r: seq<(string, seq<Message>)>, d: seq<string>, ms: seq<Message>)
    requires AllHaveIds(ms)
  {
    |r| == |d| && forall k :: 0 <= k < |d| ==> r[k] == (d[k], OfEntity(ms, d[k]))
  }

  /** A message of a known entity joins its group. */
  lemma GroupsKnownStep(ms: seq<Message>, g: seq<(string, seq<Message>)>)
    requires AllHaveIds(ms) && |ms| > 0
    requires AllHaveIds(ms[..|ms| - 1])
    requires GroupsAre(g, DistinctIds(ms[..|ms| - 1]), ms[..|ms| - 1])
    requires EntityId(ms[|ms| - 1]) in DistinctIds(ms[..|ms| - 1])
    ensures GroupsAre(AddToGroup(g, EntityId(ms[|ms| - 1]), ms[|ms| - 1]), DistinctIds(ms), ms)
  {
    var init := ms[..|ms| - 1];
    var m := ms[|ms| - 1];
    var d := DistinctIds(init);
    var x := EntityId(m);
    var i :| 0 <= i < |d| && d[i] == x;
    assert forall k :: 0 <= k < |d| ==> g[k].0 == d[k] by {
      forall k | 0 <= k < |d| ensures g[k].0 == d[k] {
        assert g[k] == (d[k], OfEntity(init, d[k]));
      }
    }
    AddToKnownGroup(g, d, i, m);
    DistinctKnown(ms);
    KnownGroups(ms, g, i);
  }

  /** A message of a known entity adds no id. */
  lemma DistinctKnown(ms: seq<Message>)
    requires AllHaveIds(ms) && |ms| > 0
    requires AllHaveIds(ms[..|ms| - 1])
    requires EntityId(ms[|ms| - 1]) in DistinctIds(ms[..|ms| - 1])
    ensures DistinctIds(ms) == DistinctIds(ms[..|ms| - 1])
  {
  }

  lemma KnownGroups(ms: seq<Message>, g: seq<(string, seq<Message>)>, i: nat)
    requires AllHaveIds(ms) && |ms| > 0
    requires AllHaveIds(ms[..|ms| - 1])
    requires GroupsAre(g, DistinctIds(ms[..|ms| - 1]), ms[..|ms| - 1])
    requires i < |g| && DistinctIds(ms[..|ms| - 1])[i] == EntityId(ms[|ms| - 1])
    ensures GroupsAre(g[i := (g[i].0, g[i].1 + [ms[|ms| - 1]])], DistinctIds(ms[..|ms| - 1]), ms)
  {
    var d := DistinctIds(ms[..|ms| - 1]);
    forall k | 0 <= k < |d|
      ensures g[i := (g[i].0, g[i].1 + [ms[|ms| - 1]])][k] == (d[k], OfEntity(ms, d[k]))
    {
      KnownGroupAt(ms, g, i, k);
    }
  }

  lemma KnownGroupAt(ms: seq<Message>, g: seq<(string, seq<Message>)>, i: nat, k: nat)
    requires AllHaveIds(ms) && |ms| > 0
    requires AllHaveIds(ms[..|ms| - 1])
    requires GroupsAre(g, DistinctIds(ms[..|ms| - 1]), ms[..|ms| - 1])
    requires i < |g| && k < |g| && DistinctIds(ms[..|ms| - 1])[i] == EntityId(ms[|ms| - 1])
    ensures g[i := (g[i].0, g[i].1 + [ms[|ms| - 1]])][k]
         == (DistinctIds(ms[..|ms| - 1])[k], OfEntity(ms, DistinctIds(ms[..|ms| - 1])[k]))
  {
    OfEntityStep(ms, DistinctIds(ms[..|ms| - 1])[k]);
  }

  /** A message of a new entity opens the last group. */
  lemma GroupsNewStep(ms: seq<Message>, g: seq<(string, seq<Message>)>)
    requires AllHaveIds(ms) && |ms| > 0
    requires AllHaveIds(ms[..|ms| - 1])
    requires GroupsAre(g, DistinctIds(ms[..|ms| - 1]), ms[..|ms| - 1])
    requires EntityId(ms[|ms| - 1]) !in DistinctIds(ms[..|ms| - 1])
    ensures GroupsAre(AddToGroup(g, EntityId(ms[|ms| - 1]), ms[|ms| - 1]), DistinctIds(ms), ms)
  {
    var init := ms[..|ms| - 1];
    var m := ms[|ms| - 1];
    var d := DistinctIds(init);
    var x := EntityId(m);
    AddToNewGroup(g, d, x, m);
    assert DistinctIds(ms) == d + [x];
    forall k | 0 <= k < |d| + 1 ensures (g + [(x, [m])])[k] == ((d + [x])[k], OfEntity(ms, (d + [x])[k])) {
      NewGroupAt(ms, g, k);
    }
  }

  lemma NewGroupAt(ms: seq<Message>, g: seq<(string, seq<Message>)>, k: nat)
    requires AllHaveIds(ms) && |ms| > 0
    requires AllHaveIds(ms[..|ms| - 1])
    requires GroupsAre(g, DistinctIds(ms[..|ms| - 1]), ms[..|ms| - 1])
    requires EntityId(ms[|ms| - 1]) !in DistinctIds(ms[..|ms| - 1])
    requires k <= |g|
    ensures var x := EntityId(ms[|ms| - 1]);
            var d := DistinctIds(ms[..|ms| - 1]);
            (g + [(x, [ms[|ms| - 1]])])[k] == ((d + [x])[k], OfEntity(ms, (d + [x])[k]))
  {
    var x := EntityId(ms[|ms| - 1]);
    var d := DistinctIds(ms[..|ms| - 1]);
    OfEntityStep(ms, (d + [x])[k]);
    if k == |g| {
      OfEntityAbsent(ms[..|ms| - 1], x);
    }
  }

  /** The groups follow the entities' order of first arrival, and each holds
      exactly that entity's messages, in order. */
  lemma {:induction false} GroupsPartition(ms: seq<Message>)
    requires AllHaveIds(ms)
    ensures GroupById(ms).Ok?
    ensures |GroupById(ms).value| == |DistinctIds(ms)|
    ensures forall i :: 0 <= i < |DistinctIds(ms)| ==>
              GroupById(ms).value[i] == (DistinctIds(ms)[i], OfEntity(ms, DistinctIds(ms)[i]))
    decreases |ms|
  {
    if |ms| > 0 {
      var init := ms[..|ms| - 1];
      var m := ms[|ms| - 1];
      OfEntityStep(ms, "");
      GroupsPartition(init);
      var g := GroupById(init).value;
      assert GroupsAre(g, DistinctIds(init), init);
      assert IdOf(m) == Ok(EntityId(m));
      assert GroupById(ms) == Ok(AddToGroup(g, EntityId(m), m));
      if EntityId(m) in DistinctIds(init) {
        GroupsKnownStep(ms, g);
      } else {
        GroupsNewStep(ms, g);
      }
    }
  }

  /** The pagination countdown: process a group, decrement, stop at zero. */
  function Paginate<G>(groups: seq<G>, limit: int): (r: seq<G>)
    decreases |groups|
  {
    if |groups| == 0 then []
    else [groups[0]] + (if limit - 1 == 0 then [] else Paginate(groups[1..], limit - 1))
  }

  /** A positive limit takes the first `limit` groups; a limit of zero or
      below never reaches zero and takes them all. */
  /** Past the first group, a limit other than one goes on with one less. */
  lemma PaginateCons<G>(groups: seq<G>, limit: int)
    requires |groups| > 0 && limit != 1
    requires Paginate(groups[1..], limit - 1) == (if 1 <= limit - 1 < |groups| - 1 then groups[1..][..limit - 1] else groups[1..])
    ensures Paginate(groups, limit) == (if 1 <= limit < |groups| then groups[..limit] else groups)
  {
    var rest := groups[1..];
    assert Paginate(groups, limit) == [groups[0]] + Paginate(rest, limit - 1);
    assert groups == [groups[0]] + rest;
    if 1 <= limit < |groups| {
      assert groups[..limit] == [groups[0]] + rest[..limit - 1];
    }
  }

  lemma {:induction false} PaginateTakes<G>(groups: seq<G>, limit: int)
    ensures Paginate(groups, limit) ==
              if 1 <= limit < |groups| then groups[..limit] else groups
    decreases |groups|
  {
    if |groups| > 0 {
      var rest := groups[1..];
      if limit == 1 {
        assert Paginate(groups, limit) == [groups[0]];
        assert groups[..1] == [groups[0]];
        assert |groups| == 1 ==> groups == [groups[0]];
      } else {
        PaginateTakes(rest, limit - 1);
        PaginateCons(groups, limit);
      }
    }
  }
}
