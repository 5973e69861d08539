/** Registered transformation functions
    (`CCDUIT/Function_Management_Service.py`): the attribute patch of
    `update_function` and the search of `check_data_model_mapping` for a
    function, or a chain of functions, turning one data model into another.
    The list of registered functions and the stored function are
    parameters.
 */
module FunctionManagement {
  import opened Basics
  import opened Json
  import opened PolicyStore

  // ---------------------------------------------------------------------
  // update_function

  /** The optional arguments of `update_function`; `None` leaves the
      attribute alone. */
  datatype Changes = Changes(callFunction: Option<Json>, description: Option<Json>,
                             modelFrom: Option<Json>, modelTo: Option<Json>, version: Option<Json>,
                             usageGuide: Option<Json>, packages: Option<Json>)

  /** The arguments paired with their attribute names, in the order the
      payload is built. */
  function Fields(c: Changes): (r: seq<(string, Option<Json>)>)
    ensures |r| == 7 && r[6] == ("packages", c.packages)
  {
    [("callFunction", c.callFunction), ("description", c.description), ("modelFrom", c.modelFrom),
     ("modelTo", c.modelTo), ("Version", c.version), ("usageGuide", c.usageGuide),
     ("packages", c.packages)]
  }

  /** Python `+` on the values `packages` can hold: lists and strings
      concatenate, numbers add, anything else raises `TypeError`. */
  function Plus(a: Json, b: Json): (r: Result<Json>)
    ensures a.JArr? && b.JArr? ==> r == Ok(JArr(a.a + b.a))
    ensures r.Ok? <==> (a.JArr? && b.JArr?) || (a.JStr? && b.JStr?)
                       || ((a.JInt? || a.JBool?) && (b.JInt? || b.JBool?))
  {
    if a.JArr? && b.JArr? then Ok(JArr(a.a + b.a))
    else if a.JStr? && b.JStr? then Ok(JStr(a.s + b.s))
    else if (a.JInt? || a.JBool?) && (b.JInt? || b.JBool?) then Ok(JInt(NumOf(a) + NumOf(b)))
    else Raise(TypeError)
  }

  /** The new value of one attribute: `packages` is appended to the stored
      value when the function has one. */
  function NewValue(existing: Json, name: string, value: Json): (r: Result<Json>)
    ensures name != "packages" ==> r == Ok(value)
  {
    if name != "packages" then Ok(value)
    else
      var stored :- PyIn(JStr("packages"), existing);
      if !stored then Ok(value)
      else
        var attribute :- Index(existing, "packages");
        var before :- Index(attribute, "value");
        Plus(before, value)
  }

  /** The loop over the named arguments. The seven names are distinct, so
      each assignment adds a key. */
  function PayloadOf(existing: Json, fields: seq<(string, Option<Json>)>): (r: Result<seq<(string, Json)>>)
    ensures r.Ok? ==> |r.value| <= |fields|
    decreases |fields|
  {
    if |fields| == 0 then Ok([])
    else
      var here :- if fields[0].1.Some? then
                    var v :- NewValue(existing, fields[0].0, fields[0].1.value);
                    Ok([(fields[0].0, Property(v))])
                  else Ok([]);
      var rest :- PayloadOf(existing, fields[1..]);
      Ok(here + rest)
  }

  /** `update_function(...)` up to the PATCH it sends: `None` when the
      function is not found (the call returns `False`), otherwise the
      payload. */
  function UpdatePayload(existing: Option<Json>, c: Changes): (r: Result<Option<seq<(string, Json)>>>)
    ensures existing.None? ==> r == Ok(None)
    ensures r.Ok? && r.value.Some? ==> |r.value.value| <= 7
  {
    if existing.None? then Ok(None)
    else
      var p :- PayloadOf(existing.value, Fields(c));
      Ok(Some(p))
  }

  /** The payload holds exactly the given attributes, in order, each as a
      Property with its new value. */
  lemma {:induction false} PayloadExact(existing: Json, fields: seq<(string, Option<Json>)>)
    requires PayloadOf(existing, fields).Ok?
    ensures var p := PayloadOf(existing, fields).value;
            && |p| == |Present(fields)|
            && forall k :: 0 <= k < |p| ==>
                 && p[k].0 == Present(fields)[k].0
                 && NewValue(existing, p[k].0, Present(fields)[k].1).Ok?
                 && p[k].1 == Property(NewValue(existing, p[k].0, Present(fields)[k].1).value)
    decreases |fields|
  {
    if |fields| > 0 {
      var p := PayloadOf(existing, fields).value;
      var rest := PayloadOf(existing, fields[1..]);
      assert rest.Ok?;
      PayloadExact(existing, fields[1..]);
      if fields[0].1.Some? {
        var v := NewValue(existing, fields[0].0, fields[0].1.value).value;
        assert p == [(fields[0].0, Property(v))] + rest.value;
        assert Present(fields) == [(fields[0].0, fields[0].1.value)] + Present(fields[1..]);
      } else {
        assert p == rest.value;
        assert Present(fields) == Present(fields[1..]);
      }
    }
  }

  /** The named arguments that are not `None`. */
  function Present(fields: seq<(string, Option<Json>)>): (r: seq<(string, Json)>)
    ensures |r| <= |fields|
    decreases |fields|
  {
    if |fields| == 0 then []
    else (if fields[0].1.Some? then [(fields[0].0, fields[0].1.value)] else []) + Present(fields[1..])
  }

  /** An attribute given as `None` stays out of the payload, and one given
      with a value other than `packages` is written as that value. */
  lemma UpdateLeavesUnset(existing: Json, c: Changes)
    requires UpdatePayload(Some(existing), c).Ok?
    ensures c.description.None? ==> "description" !in Keys(UpdatePayload(Some(existing), c).value.value)
    ensures c.description.Some? ==>
              Lookup(UpdatePayload(Some(existing), c).value.value, "description") == Some(Property(c.description.value))
  {
    var fs := Fields(c);
    var p := PayloadOf(existing, fs).value;
    PayloadExact(existing, fs);
    if c.description.Some? {
      var k := if c.callFunction.Some? then 1 else 0;
      assert Present(fs) == (if c.callFunction.Some? then [("callFunction", c.callFunction.value)] else [])
                            + Present(fs[1..]);
      assert Present(fs[1..]) == [("description", c.description.value)] + Present(fs[2..]);
      assert Present(fs)[k] == ("description", c.description.value);
      assert p[k].0 == "description";
      assert forall j :: 0 <= j < k ==> p[j].0 == "callFunction";
      LookupFirst(p, k);
    } else {
      PresentOmits(fs, "description");
    }
  }

  /** A name whose fields are all unset is not kept by `Present`. */
  lemma {:induction false} PresentOmits(fields: seq<(string, Option<Json>)>, name: string)
    requires forall i :: 0 <= i < |fields| && fields[i].0 == name ==> fields[i].1.None?
    ensures forall k :: 0 <= k < |Present(fields)| ==> Present(fields)[k].0 != name
    decreases |fields|
  {
    if |fields| > 0 {
      assert forall i :: 1 <= i < |fields| ==> fields[1..][i - 1] == fields[i];
      PresentOmits(fields[1..], name);
      var head := if fields[0].1.Some? then [(fields[0].0, fields[0].1.value)] else [];
      assert Present(fields) == head + Present(fields[1..]);
    }
  }

  /** New packages are appended to a stored list, and replace nothing when
      none is stored. */
  lemma PackagesAppended(existing: seq<(string, Json)>, before: seq<Json>, added: seq<Json>)
    ensures (Lookup(existing, "packages") == Some(JObj([("type", JStr("Property")), ("value", JArr(before))])))
              ==> (NewValue(JObj(existing), "packages", JArr(added)) == Ok(JArr(before + added)))
    ensures "packages" !in Keys(existing) ==> NewValue(JObj(existing), "packages", JArr(added)) == Ok(JArr(added))
  {
    if Lookup(existing, "packages").Some? {
      var stored := Lookup(existing, "packages").value;
      assert Index(JObj(existing), "packages") == Ok(stored);
    }
  }

  // ---------------------------------------------------------------------
  // check_data_model_mapping

  /** `func["modelFrom"]["value"]`. */
  function ModelFrom(f: Json): (r: Result<Json>)
  {
    var m :- Index(f, "modelFrom");
    Index(m, "value")
  }

  /** `func["modelTo"]["value"]`. */
  function ModelTo(f: Json): (r: Result<Json>)
  {
    var m :- Index(f, "modelTo");
    Index(m, "value")
  }

  /** A function that turns `source` into `target` in one step. */
  predicate Maps(f: Json, source: Json, target: Json)
  {
    && StartsAt(f, source)
    && ModelTo(f).Ok? && PyEq(ModelTo(f).value, target)
  }

  /** A function whose `modelFrom` is `source`. */
  predicate StartsAt(f: Json, source: Json)
  {
    ModelFrom(f).Ok? && PyEq(ModelFrom(f).value, source)
  }

  /** A function both of whose models can be read. */
  predicate Readable(f: Json)
  {
    ModelFrom(f).Ok? && ModelTo(f).Ok?
  }

  /** The list comprehension of direct matches; `modelTo` is read only
      when `modelFrom` matches. */
  /** Some function turns `source` into `target` in one step. */
  predicate AnyMaps(fs: seq<Json>, source: Json, target: Json)
  {
    exists i :: 0 <= i < |fs| && Maps(fs[i], source, target)
  }

  /** `fs[i]` is the first function that turns `source` into `target`. */
  predicate FirstMaps(fs: seq<Json>, i: int, source: Json, target: Json)
  {
    && 0 <= i < |fs| && Maps(fs[i], source, target)
    && forall j :: 0 <= j < i ==> !Maps(fs[j], source, target)
  }

  function Direct(fs: seq<Json>, source: Json, target: Json): (r: Result<seq<Json>>)
    ensures (forall i :: 0 <= i < |fs| ==> Readable(fs[i])) ==> r.Ok?
    ensures r.Ok? ==> (|r.value| > 0 <==> AnyMaps(fs, source, target))
    ensures r.Ok? && |r.value| > 0 ==> exists i :: FirstMaps(fs, i, source, target) && r.value[0] == fs[i]
    decreases |fs|
  {
    if |fs| == 0 then Ok([])
    else
      var from :- ModelFrom(fs[0]);
      var hit :- if PyEq(from, source) then
                   var to :- ModelTo(fs[0]);
                   Ok(PyEq(to, target))
                 else Ok(false);
      var rest :- Direct(fs[1..], source, target);
      assert hit <==> Maps(fs[0], source, target);
      DirectStep(fs, source, target, hit, rest);
      Ok(if hit then [fs[0]] + rest else rest)
  }

  /** One step of `Direct`: the head either matches, or the matches are
      those of the tail. */
  lemma DirectStep(fs: seq<Json>, source: Json, target: Json, hit: bool, rest: seq<Json>)
    requires |fs| > 0 && (hit <==> Maps(fs[0], source, target))
    requires |rest| > 0 <==> AnyMaps(fs[1..], source, target)
    requires |rest| > 0 ==> exists i :: FirstMaps(fs[1..], i, source, target) && rest[0] == fs[1..][i]
    ensures var r := if hit then [fs[0]] + rest else rest;
            && (|r| > 0 <==> AnyMaps(fs, source, target))
            && (|r| > 0 ==> exists i :: FirstMaps(fs, i, source, target) && r[0] == fs[i])
  {
    if hit {
      assert FirstMaps(fs, 0, source, target);
    } else {
      AnyMapsTail(fs, source, target);
      if |rest| > 0 {
        var i :| FirstMaps(fs[1..], i, source, target) && rest[0] == fs[1..][i];
        FirstMapsTail(fs, i, source, target);
      }
    }
  }

  /** Past a head that does not match, some function matches exactly when
      one of the tail does. */
  lemma AnyMapsTail(fs: seq<Json>, source: Json, target: Json)
    requires |fs| > 0 && !Maps(fs[0], source, target)
    ensures AnyMaps(fs, source, target) <==> AnyMaps(fs[1..], source, target)
  {
    if AnyMaps(fs, source, target) {
      var i :| 0 <= i < |fs| && Maps(fs[i], source, target);
      assert i != 0;
      assert fs[1..][i - 1] == fs[i];
    }
    if AnyMaps(fs[1..], source, target) {
      var i :| 0 <= i < |fs| - 1 && Maps(fs[1..][i], source, target);
      assert fs[1..][i] == fs[i + 1];
    }
  }

  /** Past a head that does not match, the first match of the tail is the
      first match. */
  lemma FirstMapsTail(fs: seq<Json>, i: int, source: Json, target: Json)
    requires |fs| > 0 && !Maps(fs[0], source, target)
    requires FirstMaps(fs[1..], i, source, target)
    ensures FirstMaps(fs, i + 1, source, target)
  {
    var t := fs[1..];
    assert forall j :: 0 <= j < |t| ==> t[j] == fs[j + 1];
    assert Maps(fs[i + 1], source, target);
    forall j | 0 <= j < i + 1
      ensures !Maps(fs[j], source, target)
    {
      if j > 0 {
        assert !Maps(t[j - 1], source, target);
      }
    }
  }

  /** What `check_data_model_mapping` returns: `False`, one function, or
      a list of functions forming a chain. */
  datatype Mapping = NoMapping | Single(f: Json) | Chain(steps: seq<Json>)

  /** The loop over indirect candidates as written: the recursive call
      passes three arguments to a function of two parameters, so the first
      candidate raises `TypeError` once its `modelTo` is read. */
  function IndirectAsWritten(fs: seq<Json>, source: Json): (r: Result<Mapping>)
    ensures r.Ok? ==> r.value == NoMapping
    decreases |fs|
  {
    if |fs| == 0 then Ok(NoMapping)
    else
      var from :- ModelFrom(fs[0]);
      if PyEq(from, source) then
        var _ :- ModelTo(fs[0]);
        Raise(TypeError)
      else IndirectAsWritten(fs[1..], source)
  }

  /** `check_data_model_mapping(source, target)` over the registered
      functions `fs`, as written. */
  function MappingAsWritten(source: Json, target: Json, fs: seq<Json>): (r: Result<Mapping>)
    ensures r.Ok? ==> !r.value.Chain?
  {
    var direct :- Direct(fs, source, target);
    if |direct| > 0 then Ok(Single(direct[0])) else IndirectAsWritten(fs, source)
  }

  /** Over readable functions: the first direct match is returned; with
      none, a function from `source` makes the call raise, and without
      one the answer is `False`. */
  lemma {:induction false} AsWrittenOutcomes(source: Json, target: Json, fs: seq<Json>)
    requires forall i :: 0 <= i < |fs| ==> Readable(fs[i])
    ensures var r := MappingAsWritten(source, target, fs);
            && ((exists i :: 0 <= i < |fs| && Maps(fs[i], source, target)) ==>
                  exists i :: 0 <= i < |fs| && r == Ok(Single(fs[i])) && Maps(fs[i], source, target)
                              && forall j :: 0 <= j < i ==> !Maps(fs[j], source, target))
            && ((forall i :: 0 <= i < |fs| ==> !Maps(fs[i], source, target)) ==>
                  ((exists i :: 0 <= i < |fs| && StartsAt(fs[i], source)) <==> r == Raise(TypeError)))
            && ((forall i :: 0 <= i < |fs| ==> !StartsAt(fs[i], source)) ==> r == Ok(NoMapping))
  {
    var d := Direct(fs, source, target);
    assert d.Ok?;
    if |d.value| > 0 {
      assert MappingAsWritten(source, target, fs) == Ok(Single(d.value[0]));
    } else {
      assert MappingAsWritten(source, target, fs) == IndirectAsWritten(fs, source);
      IndirectRaises(fs, source);
    }
  }

  /** The indirect loop over readable functions raises exactly when some
      function starts at `source`. */
  lemma {:induction false} IndirectRaises(fs: seq<Json>, source: Json)
    requires forall i :: 0 <= i < |fs| ==> Readable(fs[i])
    ensures (exists i :: 0 <= i < |fs| && StartsAt(fs[i], source))
              <==> IndirectAsWritten(fs, source) == Raise(TypeError)
    ensures (forall i :: 0 <= i < |fs| ==> !StartsAt(fs[i], source))
              ==> IndirectAsWritten(fs, source) == Ok(NoMapping)
    decreases |fs|
  {
    if |fs| > 0 {
      assert Readable(fs[0]);
      if StartsAt(fs[0], source) {
        assert IndirectAsWritten(fs, source) == Raise(TypeError);
      } else {
        assert IndirectAsWritten(fs, source) == IndirectAsWritten(fs[1..], source);
        ReadableTail(fs);
        IndirectRaises(fs[1..], source);
        AnyStartsTail(fs, source);
      }
    }
  }

  lemma ReadableTail(fs: seq<Json>)
    requires |fs| > 0 && forall i :: 0 <= i < |fs| ==> Readable(fs[i])
    ensures forall i :: 0 <= i < |fs| - 1 ==> Readable(fs[1..][i])
  {
    assert forall i :: 0 <= i < |fs| - 1 ==> fs[1..][i] == fs[i + 1];
  }

  /** Past a head that does not start at `source`, some function starts
      there exactly when one of the tail does. */
  lemma AnyStartsTail(fs: seq<Json>, source: Json)
    requires |fs| > 0 && !StartsAt(fs[0], source)
    ensures (exists i :: 0 <= i < |fs| && StartsAt(fs[i], source))
            <==> (exists i :: 0 <= i < |fs| - 1 && StartsAt(fs[1..][i], source))
  {
    if exists i :: 0 <= i < |fs| && StartsAt(fs[i], source) {
      var i :| 0 <= i < |fs| && StartsAt(fs[i], source);
      assert i != 0;
      assert fs[1..][i - 1] == fs[i];
    }
    if exists i :: 0 <= i < |fs| - 1 && StartsAt(fs[1..][i], source) {
      var i :| 0 <= i < |fs| - 1 && StartsAt(fs[1..][i], source);
      assert fs[1..][i] == fs[i + 1];
    }
  }

  /** A concrete registry where the promised chain exists but the call
      raises: `ifc -> ttl` and `ttl -> ngsild`. */
  lemma ChainNeverFound()
    ensures var f1 := JObj([("modelFrom", JObj([("value", JStr("ifc"))])), ("modelTo", JObj([("value", JStr("ttl"))]))]);
            var f2 := JObj([("modelFrom", JObj([("value", JStr("ttl"))])), ("modelTo", JObj([("value", JStr("ngsild"))]))]);
            && Links(JStr("ifc"), JStr("ngsild"), [f1, f2])
            && MappingAsWritten(JStr("ifc"), JStr("ngsild"), [f1, f2]) == Raise(TypeError)
  {
    var f1 := JObj([("modelFrom", JObj([("value", JStr("ifc"))])), ("modelTo", JObj([("value", JStr("ttl"))]))]);
    var f2 := JObj([("modelFrom", JObj([("value", JStr("ttl"))])), ("modelTo", JObj([("value", JStr("ngsild"))]))]);
    assert ModelFrom(f1) == Ok(JStr("ifc")) && ModelTo(f1) == Ok(JStr("ttl"));
    assert ModelFrom(f2) == Ok(JStr("ttl")) && ModelTo(f2) == Ok(JStr("ngsild"));
    assert [f1, f2][1..] == [f2];
    assert Direct([f1, f2], JStr("ifc"), JStr("ngsild")) == Ok([]);
  }

  /** A chain of functions leading from `source` to `target`, each step
      starting where the previous one ended. */
  predicate Links(source: Json, target: Json, steps: seq<Json>)
    decreases |steps|
  {
    && |steps| > 0
    && ModelFrom(steps[0]).Ok? && PyEq(ModelFrom(steps[0]).value, source)
    && ModelTo(steps[0]).Ok?
    && if |steps| == 1 then PyEq(ModelTo(steps[0]).value, target)
       else Links(ModelTo(steps[0]).value, target, steps[1..])
  }

  /** The functions a mapping consists of. */
  function Steps(m: Mapping): seq<Json>
  {
    match m
    case NoMapping => []
    case Single(f) => [f]
    case Chain(steps) => steps
  }

  /** `fs` without its `k`-th function. */
  function Without(fs: seq<Json>, k: nat): (r: seq<Json>)
    requires k < |fs|
    ensures |r| == |fs| - 1
    ensures forall x :: x in r ==> x in fs
  {
    fs[..k] + fs[k + 1..]
  }

  /** Every function's models can be read. */
  predicate AllReadable(fs: seq<Json>)
  {
    forall i :: 0 <= i < |fs| ==> Readable(fs[i])
  }

  /** Leaving a function out keeps the rest readable. */
  lemma WithoutReadable(fs: seq<Json>, k: nat)
    requires k < |fs|
    ensures AllReadable(fs) ==> AllReadable(Without(fs, k))
  {
    var r := Without(fs, k);
    assert forall i :: 0 <= i < |r| ==> r[i] == (if i < k then fs[i] else fs[i + 1]);
  }

  /** The mapping search the docstring describes: a direct match first;
      otherwise the first function from `source` after which the
      remaining functions reach `target`. Using each function at most once
      is the cycle guard the written code lacks. */
  function MappingFixed(source: Json, target: Json, fs: seq<Json>): (r: Result<Mapping>)
    ensures r.Ok? && !r.value.NoMapping? ==> Links(source, target, Steps(r.value))
    ensures r.Ok? ==> forall x :: x in Steps(r.value) ==> x in fs
    ensures AllReadable(fs) ==> r.Ok?
    decreases |fs|, 1
  {
    var direct :- Direct(fs, source, target);
    if |direct| > 0 then Ok(Single(direct[0])) else IndirectFixed(source, target, fs, 0)
  }

  /** The indirect candidates from position `k` on. */
  function IndirectFixed(source: Json, target: Json, fs: seq<Json>, k: nat): (r: Result<Mapping>)
    requires k <= |fs|
    ensures r.Ok? && !r.value.NoMapping? ==> r.value.Chain? && Links(source, target, Steps(r.value))
    ensures r.Ok? ==> forall x :: x in Steps(r.value) ==> x in fs
    ensures AllReadable(fs) ==> r.Ok?
    decreases |fs|, 0, |fs| - k
  {
    if k == |fs| then Ok(NoMapping)
    else
      var from :- ModelFrom(fs[k]);
      if !PyEq(from, source) then IndirectFixed(source, target, fs, k + 1)
      else
        var to :- ModelTo(fs[k]);
        WithoutReadable(fs, k);
        var rest :- MappingFixed(to, target, Without(fs, k));
        if rest.NoMapping? then IndirectFixed(source, target, fs, k + 1)
        else
          var steps := [fs[k]] + Steps(rest);
          assert steps[1..] == Steps(rest);
          Ok(Chain(steps))
  }

  /** Wherever the written search answers, the corrected one gives the
      same answer; and it finds the two-step chain the written one raises
      on. */
  lemma FixedAgrees(source: Json, target: Json, fs: seq<Json>)
    requires MappingAsWritten(source, target, fs).Ok?
    ensures MappingFixed(source, target, fs) == MappingAsWritten(source, target, fs)
  {
    var direct := Direct(fs, source, target).value;
    if |direct| == 0 {
      IndirectAgrees(source, target, fs, 0);
    }
  }

  /** The corrected loop skips every candidate the written loop skips. */
  lemma {:induction false} IndirectAgrees(source: Json, target: Json, fs: seq<Json>, k: nat)
    requires k <= |fs|
    requires IndirectAsWritten(fs[k..], source).Ok?
    ensures IndirectFixed(source, target, fs, k) == Ok(NoMapping)
    decreases |fs| - k
  {
    if k < |fs| {
      assert fs[k..][0] == fs[k];
      assert fs[k..][1..] == fs[k + 1..];
      IndirectAgrees(source, target, fs, k + 1);
    }
  }

  /** A one-step mapping found directly. */
  lemma DirectOne(f: Json, source: Json, target: Json)
    requires Maps(f, source, target)
    ensures Direct([f], source, target) == Ok([f])
  {
    assert [f][1..] == [];
    assert Direct([], source, target) == Ok([]);
    assert [f] + [] == [f];
    assert ModelFrom(f) == Ok(ModelFrom(f).value) && ModelTo(f) == Ok(ModelTo(f).value);
  }

  /** The corrected search finds a two-step chain `a -> b -> c` over
      distinct models, where the written one raises. */
  lemma FixedFindsChain(f1: Json, f2: Json, a: string, b: string, c: string)
    requires a != b && b != c && a != c
    requires ModelFrom(f1) == Ok(JStr(a)) && ModelTo(f1) == Ok(JStr(b))
    requires ModelFrom(f2) == Ok(JStr(b)) && ModelTo(f2) == Ok(JStr(c))
    ensures MappingFixed(JStr(a), JStr(c), [f1, f2]) == Ok(Chain([f1, f2]))
  {
    TwoNoDirect(f1, f2, JStr(a), JStr(b), JStr(c));
    OneStepMapping(f2, b, c);
    WithoutFirst([f1, f2]);
    MappingFrom(JStr(a), JStr(c), [f1, f2], [f2], JStr(b), Single(f2));
  }

  lemma WithoutFirst(fs: seq<Json>)
    requires |fs| == 2
    ensures Without(fs, 0) == [fs[1]] && [fs[0]] + [fs[1]] == fs
  {
    assert fs[1..] == [fs[1]];
  }

  /** Neither function of the chain `a -> b -> c` maps `a` to `c`. */
  lemma TwoNoDirect(f1: Json, f2: Json, a: Json, b: Json, c: Json)
    requires a != b && b != c && !b.JBool? && !b.JInt?
    requires ModelFrom(f1) == Ok(a) && ModelTo(f1) == Ok(b)
    requires ModelFrom(f2) == Ok(b) && ModelTo(f2) == Ok(c)
    ensures Direct([f1, f2], a, c) == Ok([])
  {
    assert !Maps(f1, a, c) && !Maps(f2, a, c);
    assert [f1, f2][1..] == [f2] && [f2][1..] == [];
    assert Direct([f2], a, c) == Ok([]);
  }

  /** A single function from `b` to `c` is the mapping the corrected
      search finds. */
  lemma OneStepMapping(f: Json, b: string, c: string)
    requires ModelFrom(f) == Ok(JStr(b)) && ModelTo(f) == Ok(JStr(c))
    ensures MappingFixed(JStr(b), JStr(c), [f]) == Ok(Single(f))
  {
    DirectOne(f, JStr(b), JStr(c));
  }

  /** The first candidate of the corrected loop, when it starts at `source`
      and the rest reach `target`, completes the chain. */
  lemma ChainFrom(source: Json, target: Json, fs: seq<Json>, tail: seq<Json>, to: Json, rest: Mapping)
    requires |fs| > 0 && ModelFrom(fs[0]) == Ok(source) && ModelTo(fs[0]) == Ok(to)
    requires PyEq(source, source) && tail == Without(fs, 0)
    requires MappingFixed(to, target, tail) == Ok(rest) && !rest.NoMapping?
    ensures IndirectFixed(source, target, fs, 0) == Ok(Chain([fs[0]] + Steps(rest)))
  {
  }

  /** With no direct match, that chain is the mapping the corrected search
      answers. */
  lemma MappingFrom(source: Json, target: Json, fs: seq<Json>, tail: seq<Json>, to: Json, rest: Mapping)
    requires Direct(fs, source, target) == Ok([])
    requires |fs| > 0 && ModelFrom(fs[0]) == Ok(source) && ModelTo(fs[0]) == Ok(to)
    requires PyEq(source, source) && tail == Without(fs, 0)
    requires MappingFixed(to, target, tail) == Ok(rest) && !rest.NoMapping? && [fs[0]] + Steps(rest) == fs
    ensures MappingFixed(source, target, fs) == Ok(Chain(fs))
  {
    ChainFrom(source, target, fs, tail, to, rest);
  }

  /** Completeness of the corrected search: when the registered functions,
      all readable, hold a chain from `source` to `target` (each function
      used at most as often as it is registered), a mapping is found. */
  lemma {:induction false} FixedComplete(source: Json, target: Json, fs: seq<Json>, steps: seq<Json>)
    requires AllReadable(fs)
    requires Links(source, target, steps)
    requires multiset(steps) <= multiset(fs)
    ensures MappingFixed(source, target, fs).Ok? && !MappingFixed(source, target, fs).value.NoMapping?
    decreases |fs|
  {
    FirstStepIn(fs, steps);
    var p := IndexOf(fs, steps[0]);
    var direct := Direct(fs, source, target);
    assert direct.Ok?;
    if |direct.value| == 0 {
      if |steps| == 1 {
        assert Maps(fs[p], source, target);
        assert false;
      }
      var to := ModelTo(fs[p]).value;
      WithoutReadable(fs, p);
      RestFits(fs, p, steps);
      FixedComplete(to, target, Without(fs, p), steps[1..]);
      IndirectReaches(source, target, fs, 0, p);
    }
  }

  /** The chain's first function is registered. */
  lemma FirstStepIn(fs: seq<Json>, steps: seq<Json>)
    requires |steps| > 0 && multiset(steps) <= multiset(fs)
    ensures steps[0] in fs
  {
    assert steps[0] in multiset(steps);
  }

  /** The first position of `x` in `fs`. */
  function IndexOf(fs: seq<Json>, x: Json): (p: nat)
    requires x in fs
    ensures p < |fs| && fs[p] == x
  {
    if fs[0] == x then 0 else 1 + IndexOf(fs[1..], x)
  }

  /** The chain's other functions are still registered once its first
      one is left out. */
  lemma RestFits(fs: seq<Json>, p: nat, steps: seq<Json>)
    requires p < |fs| && |steps| > 0 && fs[p] == steps[0]
    requires multiset(steps) <= multiset(fs)
    ensures multiset(steps[1..]) <= multiset(Without(fs, p))
  {
    WithoutMultiset(fs, p);
    assert steps == [steps[0]] + steps[1..];
    assert multiset(steps) == multiset{steps[0]} + multiset(steps[1..]);
  }

  /** Leaving the `k`-th function out takes one copy of it from the
      multiset. */
  lemma WithoutMultiset(fs: seq<Json>, k: nat)
    requires k < |fs|
    ensures multiset(Without(fs, k)) == multiset(fs) - multiset{fs[k]}
  {
    assert fs == fs[..k] + [fs[k]] + fs[k + 1..];
    assert multiset(fs) == multiset(fs[..k]) + multiset{fs[k]} + multiset(fs[k + 1..]);
  }

  /** The corrected loop, from position `k` on, finds a chain when the
      candidate at `p` (not before `k`) starts at `source` and the other
      functions reach `target` from where it ends. */
  lemma {:induction false} IndirectReaches(source: Json, target: Json, fs: seq<Json>, k: nat, p: nat)
    requires k <= p < |fs| && AllReadable(fs)
    requires StartsAt(fs[p], source)
    requires var m := MappingFixed(ModelTo(fs[p]).value, target, Without(fs, p)); m.Ok? && !m.value.NoMapping?
    ensures var r := IndirectFixed(source, target, fs, k); r.Ok? && !r.value.NoMapping?
    decreases p - k
  {
    if k < p {
      IndirectReaches(source, target, fs, k + 1, p);
      IndirectStep(source, target, fs, k);
    } else {
      IndirectHere(source, target, fs, k);
    }
  }

  /** The candidate at `k` itself starts a chain. */
  lemma IndirectHere(source: Json, target: Json, fs: seq<Json>, k: nat)
    requires k < |fs| && AllReadable(fs)
    requires StartsAt(fs[k], source)
    requires var m := MappingFixed(ModelTo(fs[k]).value, target, Without(fs, k)); m.Ok? && !m.value.NoMapping?
    ensures var r := IndirectFixed(source, target, fs, k); r.Ok? && !r.value.NoMapping?
  {
    assert Readable(fs[k]);
    WithoutReadable(fs, k);
  }

  /** A chain found after position `k` is not lost by looking at `k`
      first. */
  lemma IndirectStep(source: Json, target: Json, fs: seq<Json>, k: nat)
    requires k < |fs| && AllReadable(fs)
    requires var r := IndirectFixed(source, target, fs, k + 1); r.Ok? && !r.value.NoMapping?
    ensures var r := IndirectFixed(source, target, fs, k); r.Ok? && !r.value.NoMapping?
  {
    assert Readable(fs[k]);
    WithoutReadable(fs, k);
    IndirectAt(source, target, fs, k, ModelFrom(fs[k]).value, ModelTo(fs[k]).value);
  }

  /** One candidate of the corrected loop: skipped when it does not start
      at `source` or the rest finds nothing, a chain otherwise. */
  lemma IndirectAt(source: Json, target: Json, fs: seq<Json>, k: nat, from: Json, to: Json)
    requires k < |fs| && ModelFrom(fs[k]) == Ok(from) && ModelTo(fs[k]) == Ok(to)
    requires MappingFixed(to, target, Without(fs, k)).Ok?
    ensures var m := MappingFixed(to, target, Without(fs, k));
            if PyEq(from, source) && !m.value.NoMapping?
            then IndirectFixed(source, target, fs, k) == Ok(Chain([fs[k]] + Steps(m.value)))
            else IndirectFixed(source, target, fs, k) == IndirectFixed(source, target, fs, k + 1)
  {
  }

}
